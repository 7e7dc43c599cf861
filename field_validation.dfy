/** The hand-written per-field check the Streamlit wizard runs on each answer. */
module FieldValidation {
  import opened Wrappers
  import opened PyValues

  /** `(is_valid, message)`. */
  datatype Check = Check(ok: bool, message: string)

  const VALID := Check(true, "Valid")
  /** What the `except` clause answers when a conversion or `len` raises. */
  const INVALID_INPUT := Check(false, "Invalid input")
  const NAME_TOO_SHORT := Check(false, "Name must be at least 2 characters")
  const AGE_OUT_OF_RANGE := Check(false, "Age must be between 1 and 120")
  const MOBILE_NOT_TEN_DIGITS := Check(false, "Mobile must be exactly 10 digits")
  const EMAIL_MALFORMED := Check(false, "Invalid email format")
  const HEIGHT_NOT_POSITIVE := Check(false, "Height must be greater than 0")
  const WEIGHT_NOT_POSITIVE := Check(false, "Weight must be greater than 0")

  /** `'c' in s`. */
  predicate Contains(s: string, c: char) {
    c in s
  }

  /** `validate_field(field, value)`. Text operations (`len`, `in`, `isdigit`)
      on a number raise TypeError; conversions raise ValueError on bad text;
      both end in "Invalid input". */
  function ValidateField(field: string, v: Value): (c: Check)
    ensures c.ok <==> c == VALID
  {
    if field == "name" then
      if !v.Str? then INVALID_INPUT
      else if |v.s| < 2 then NAME_TOO_SHORT
      else VALID
    else if field == "age" then
      match PyInt(v)
      case None => INVALID_INPUT
      case Some(age) => if !(1 <= age <= 120) then AGE_OUT_OF_RANGE else VALID
    else if field == "mobile" then
      if !v.Str? then INVALID_INPUT
      else if |v.s| != 10 || !IsDigitText(v.s) then MOBILE_NOT_TEN_DIGITS
      else VALID
    else if field == "email" then
      if !v.Str? then INVALID_INPUT
      else if !Contains(v.s, '@') || !Contains(v.s, '.') then EMAIL_MALFORMED
      else VALID
    else if field == "height" then
      match PyFloat(v)
      case None => INVALID_INPUT
      case Some(height) => if height <= 0.0 then HEIGHT_NOT_POSITIVE else VALID
    else if field == "weight" then
      match PyFloat(v)
      case None => INVALID_INPUT
      case Some(weight) => if weight <= 0.0 then WEIGHT_NOT_POSITIVE else VALID
    else
      VALID
  }

  /** The rule each field is held to: name: text of length at least 2; age:
      `int(v)` succeeds and lies in [1, 120], and a failed parse answers
      "Invalid input"; mobile: exactly 10 digit characters; email: contains
      '@' and '.'; height and weight: `float(v)` succeeds and is above 0; any
      other field, blood_group included: always accepted. A text check
      applied to a number answers "Invalid input". */
  lemma ValidateFieldRules(field: string, v: Value)
    ensures field == "name" ==> (ValidateField(field, v).ok <==> v.Str? && |v.s| >= 2)
    ensures field == "age" ==> (ValidateField(field, v).ok <==> PyInt(v).Some? && 1 <= PyInt(v).value <= 120)
    ensures field == "age" && PyInt(v).None? ==> ValidateField(field, v) == INVALID_INPUT
    ensures field == "mobile" ==>
      (ValidateField(field, v).ok <==> v.Str? && |v.s| == 10 && forall i :: 0 <= i < |v.s| ==> IsDigit(v.s[i]))
    ensures field == "email" ==> (ValidateField(field, v).ok <==> v.Str? && '@' in v.s && '.' in v.s)
    ensures field == "height" || field == "weight" ==>
      (ValidateField(field, v).ok <==> PyFloat(v).Some? && PyFloat(v).value > 0.0)
    ensures field !in {"name", "age", "mobile", "email", "height", "weight"} ==> ValidateField(field, v).ok
    ensures !v.Str? && field in {"name", "mobile", "email"} ==> ValidateField(field, v) == INVALID_INPUT
  {
  }

  /** An age typed as text is accepted exactly when the number it spells is in [1, 120]. */
  lemma AgeTextAccepted(n: int)
    ensures ValidateField("age", Str(FormatInt(n))).ok <==> 1 <= n <= 120
  {
    ParseIntFormat(n);
  }

  /** Nine or eleven digits, or a letter among ten characters, are refused. */
  lemma MobileExamples()
    ensures ValidateField("mobile", Str("9876543210")).ok
    ensures !ValidateField("mobile", Str("987654321")).ok
    ensures !ValidateField("mobile", Str("98765432100")).ok
    ensures !ValidateField("mobile", Str("98765x3210")).ok
  {
    assert "98765x3210"[5] == 'x';
  }

  /** The blood group is not checked here; any answer passes. */
  lemma BloodGroupUnchecked(v: Value)
    ensures ValidateField("blood_group", v) == VALID
  {
  }
}
