/**
 * The `PatientDetails` record: the constraints it declares on its seven
 * fields, how it reads them from an answers dictionary (pydantic's lax mode),
 * and the two values it derives, `bmi` and `verdict`.
 */
module Patient {
  import opened Wrappers
  import opened PyValues
  import opened Dicts

  /** The record's fields, in declaration order. */
  const FIELDS: seq<string> := ["name", "age", "mobile", "email", "blood_group", "height", "weight"]

  /** No field comes up twice: a field is never among the ones before it. */
  lemma FieldNotBefore(n: nat)
    requires n < |FIELDS|
    ensures FIELDS[n] !in FIELDS[..n]
  {
    assert n == 0 || n == 1 || n == 2 || n == 3 || n == 4 || n == 5 || n == 6;
  }

  datatype BloodGroup = APos | ANeg | BPos | BNeg | ABPos | ABNeg | OPos | ONeg

  /** The eight values `blood_group` admits, in the order the source lists them. */
  const BLOOD_GROUP_LABELS: seq<string> := ["A+", "A-", "B+", "B-", "AB+", "AB-", "O+", "O-"]

  function BloodGroupLabel(b: BloodGroup): string {
    match b
    case APos => "A+"
    case ANeg => "A-"
    case BPos => "B+"
    case BNeg => "B-"
    case ABPos => "AB+"
    case ABNeg => "AB-"
    case OPos => "O+"
    case ONeg => "O-"
  }

  /** The `Literal[...]` check: exactly the eight labels are accepted. */
  function ParseBloodGroup(s: string): (r: Option<BloodGroup>)
    ensures r.Some? <==> s in BLOOD_GROUP_LABELS
    ensures r.Some? ==> BloodGroupLabel(r.value) == s
  {
    if s == "A+" then Some(APos)
    else if s == "A-" then Some(ANeg)
    else if s == "B+" then Some(BPos)
    else if s == "B-" then Some(BNeg)
    else if s == "AB+" then Some(ABPos)
    else if s == "AB-" then Some(ABNeg)
    else if s == "O+" then Some(OPos)
    else if s == "O-" then Some(ONeg)
    else None
  }

  lemma BloodGroupRoundTrip(b: BloodGroup)
    ensures ParseBloodGroup(BloodGroupLabel(b)) == Some(b)
  {
  }

  datatype PatientRecord = PatientRecord(
    name: string, age: int, mobile: string, email: string,
    bloodGroup: BloodGroup, height: real, weight: real)

  /** The constraints `PatientDetails` declares; `isEmail` stands for what
      `EmailStr` accepts. */
  predicate Conforms(p: PatientRecord, isEmail: string -> bool) {
    && |p.name| >= 2
    && 1 <= p.age <= 120
    && |p.mobile| == 10
    && isEmail(p.email)
    && p.height > 0.0
    && p.weight > 0.0
  }

  /** A `str` field in lax mode: only text is accepted, numbers are not converted. */
  function AsStr(v: Value): Option<string> {
    if v.Str? then Some(v.s) else None
  }

  /** An `int` field in lax mode: an int, a float without fractional part, or
      numeric text. */
  function AsInt(v: Value): Option<int> {
    match v
    case Int(i) => Some(i)
    case Float(x) => if x == x.Floor as real then Some(x.Floor) else None
    case Str(s) => ParseInt(s)
  }

  /** A `float` field in lax mode: an int, a float, or numeric text. */
  function AsFloat(v: Value): Option<real> {
    match v
    case Int(i) => Some(i as real)
    case Float(x) => Some(x)
    case Str(s) => ParseFloat(s)
  }

  /** Lax mode reads an integer the same way whether it arrives as text, as
      an int or as a float, and the `int` field refuses a fractional float. */
  lemma LaxNumbers(n: int, x: real)
    ensures AsInt(Str(FormatInt(n))) == Some(n) && AsInt(Int(n)) == Some(n)
    ensures AsInt(Float(n as real)) == Some(n)
    ensures AsFloat(Str(FormatInt(n))) == Some(n as real) && AsFloat(Int(n)) == Some(n as real)
    ensures x != x.Floor as real ==> AsInt(Float(x)) == None
  {
    ParseIntFormat(n);
    ParseFloatFormatInt(n);
  }

  /** `data` holds exactly what pydantic reads as `p`, field by field. */
  predicate Describes(data: Dict, p: PatientRecord) {
    && Get(data, "name") == Some(Str(p.name))
    && Get(data, "age").Some? && AsInt(Get(data, "age").value) == Some(p.age)
    && Get(data, "mobile") == Some(Str(p.mobile))
    && Get(data, "email") == Some(Str(p.email))
    && Get(data, "blood_group") == Some(Str(BloodGroupLabel(p.bloodGroup)))
    && Get(data, "height").Some? && AsFloat(Get(data, "height").value) == Some(p.height)
    && Get(data, "weight").Some? && AsFloat(Get(data, "weight").value) == Some(p.weight)
  }

  function NameOf(data: Dict): Option<string> {
    var v := Get(data, "name");
    if v.Some? && AsStr(v.value).Some? && |AsStr(v.value).value| >= 2 then AsStr(v.value) else None
  }

  function AgeOf(data: Dict): Option<int> {
    var v := Get(data, "age");
    if v.Some? && AsInt(v.value).Some? && 1 <= AsInt(v.value).value <= 120 then AsInt(v.value) else None
  }

  function MobileOf(data: Dict): Option<string> {
    var v := Get(data, "mobile");
    if v.Some? && AsStr(v.value).Some? && |AsStr(v.value).value| == 10 then AsStr(v.value) else None
  }

  function EmailOf(data: Dict, isEmail: string -> bool): Option<string> {
    var v := Get(data, "email");
    if v.Some? && AsStr(v.value).Some? && isEmail(AsStr(v.value).value) then AsStr(v.value) else None
  }

  function BloodGroupOf(data: Dict): Option<BloodGroup> {
    var v := Get(data, "blood_group");
    if v.Some? && AsStr(v.value).Some? then ParseBloodGroup(AsStr(v.value).value) else None
  }

  function PositiveOf(data: Dict, f: string): Option<real> {
    var v := Get(data, f);
    if v.Some? && AsFloat(v.value).Some? && AsFloat(v.value).value > 0.0 then AsFloat(v.value) else None
  }

  /** Whether `PatientDetails` accepts field `f` of `data`. */
  predicate FieldAccepted(data: Dict, isEmail: string -> bool, f: string) {
    if f == "name" then NameOf(data).Some?
    else if f == "age" then AgeOf(data).Some?
    else if f == "mobile" then MobileOf(data).Some?
    else if f == "email" then EmailOf(data, isEmail).Some?
    else if f == "blood_group" then BloodGroupOf(data).Some?
    else PositiveOf(data, f).Some?
  }

  /** The fields among `fs` that `PatientDetails` rejects, in order. */
  function Rejected(data: Dict, isEmail: string -> bool, fs: seq<string>): (r: seq<string>)
    ensures forall f :: f in r <==> f in fs && !FieldAccepted(data, isEmail, f)
  {
    if fs == [] then []
    else (if FieldAccepted(data, isEmail, fs[0]) then [] else [fs[0]]) + Rejected(data, isEmail, fs[1..])
  }

  /** The record built from seven accepted fields. */
  function Accepted(data: Dict, isEmail: string -> bool): Option<PatientRecord> {
    var name, age, mobile, email := NameOf(data), AgeOf(data), MobileOf(data), EmailOf(data, isEmail);
    var bloodGroup, height, weight := BloodGroupOf(data), PositiveOf(data, "height"), PositiveOf(data, "weight");
    if name.Some? && age.Some? && mobile.Some? && email.Some? && bloodGroup.Some? && height.Some? && weight.Some? then
      Some(PatientRecord(name.value, age.value, mobile.value, email.value, bloodGroup.value, height.value, weight.value))
    else
      None
  }

  lemma AcceptedConforms(data: Dict, isEmail: string -> bool)
    requires Accepted(data, isEmail).Some?
    ensures Conforms(Accepted(data, isEmail).value, isEmail)
    ensures Describes(data, Accepted(data, isEmail).value)
  {
  }

  /** A dict in which `PatientDetails` accepts each of the seven fields is
      accepted as a whole. */
  lemma EveryFieldAccepted(data: Dict, isEmail: string -> bool)
    requires forall i :: 0 <= i < |FIELDS| ==> FieldAccepted(data, isEmail, FIELDS[i])
    ensures Accepted(data, isEmail).Some?
  {
    assert FieldAccepted(data, isEmail, FIELDS[0]) && FieldAccepted(data, isEmail, FIELDS[1]);
    assert FieldAccepted(data, isEmail, FIELDS[2]) && FieldAccepted(data, isEmail, FIELDS[3]);
    assert FieldAccepted(data, isEmail, FIELDS[4]) && FieldAccepted(data, isEmail, FIELDS[5]);
    assert FieldAccepted(data, isEmail, FIELDS[6]);
  }

  lemma NotAcceptedRejects(data: Dict, isEmail: string -> bool)
    requires Accepted(data, isEmail).None?
    ensures Rejected(data, isEmail, FIELDS) != []
  {
    if forall i :: 0 <= i < |FIELDS| ==> FieldAccepted(data, isEmail, FIELDS[i]) {
      EveryFieldAccepted(data, isEmail);
      assert false;
    } else {
      var i :| 0 <= i < |FIELDS| && !FieldAccepted(data, isEmail, FIELDS[i]);
      assert FIELDS[i] in Rejected(data, isEmail, FIELDS);
    }
  }

  /** `PatientDetails(**data)`: the record, or every field that fails its
      constraint (a missing key fails too; keys outside the seven are ignored). */
  function Validate(data: Dict, isEmail: string -> bool): (r: Result<PatientRecord, seq<string>>)
    ensures r.Success? ==> Conforms(r.value, isEmail) && Describes(data, r.value)
    ensures r.Failure? ==> r.error != []
    ensures r.Failure? ==> forall f :: f in r.error <==> f in FIELDS && !FieldAccepted(data, isEmail, f)
  {
    match Accepted(data, isEmail)
    case Some(p) =>
      AcceptedConforms(data, isEmail);
      Success(p)
    case None =>
      NotAcceptedRejects(data, isEmail);
      Failure(Rejected(data, isEmail, FIELDS))
  }


  /** The four text and integer fields of a described, conforming record
      read back as that record's. */
  lemma DescribedTextFields(data: Dict, p: PatientRecord, isEmail: string -> bool)
    requires Conforms(p, isEmail) && Describes(data, p)
    ensures NameOf(data) == Some(p.name) && AgeOf(data) == Some(p.age)
    ensures MobileOf(data) == Some(p.mobile) && EmailOf(data, isEmail) == Some(p.email)
  {
  }

  /** The blood group, height and weight of a described, conforming record
      read back as that record's. */
  lemma DescribedOtherFields(data: Dict, p: PatientRecord, isEmail: string -> bool)
    requires Conforms(p, isEmail) && Describes(data, p)
    ensures BloodGroupOf(data) == Some(p.bloodGroup)
    ensures PositiveOf(data, "height") == Some(p.height) && PositiveOf(data, "weight") == Some(p.weight)
  {
    BloodGroupRoundTrip(p.bloodGroup);
  }

  /** The converse of Validate's contract: whatever conforming record `data`
      describes is the one Validate returns. */
  lemma ValidateComplete(data: Dict, p: PatientRecord, isEmail: string -> bool)
    requires Conforms(p, isEmail) && Describes(data, p)
    ensures Validate(data, isEmail) == Success(p)
  {
    DescribedTextFields(data, p, isEmail);
    DescribedOtherFields(data, p, isEmail);
    assert Accepted(data, isEmail) == Some(p);
  }

  /** `round(x, 2)` on an exact real: the nearest multiple of 0.01, ties to the
      even neighbour. */
  function Round2(x: real): (r: real)
    ensures -0.005 <= r - x <= 0.005
    ensures (r * 100.0).Floor as real == r * 100.0
  {
    var n := (x * 100.0).Floor;
    var f := x * 100.0 - n as real;
    var m := if f > 0.5 then n + 1 else if f < 0.5 then n else if n % 2 == 0 then n else n + 1;
    m as real / 100.0
  }

  /** `bmi`: weight over height squared, rounded to two decimals. */
  function Bmi(p: PatientRecord): (bmi: real)
    requires p.height > 0.0
    ensures -0.005 <= bmi - p.weight / (p.height * p.height) <= 0.005
  {
    Round2(p.weight / (p.height * p.height))
  }

  datatype Verdict = UnderWeight | Normal | Overweight | Obese

  /** `verdict`: the four bands, each closed below and open above. */
  function VerdictOf(bmi: real): (v: Verdict)
    ensures v == UnderWeight <==> bmi < 18.5
    ensures v == Normal <==> 18.5 <= bmi < 25.0
    ensures v == Overweight <==> 25.0 <= bmi < 30.0
    ensures v == Obese <==> 30.0 <= bmi
  {
    if bmi < 18.5 then UnderWeight
    else if bmi < 25.0 then Normal
    else if bmi < 30.0 then Overweight
    else Obese
  }

  function Severity(v: Verdict): nat {
    match v
    case UnderWeight => 0
    case Normal => 1
    case Overweight => 2
    case Obese => 3
  }

  /** A larger BMI never gets a lighter verdict. */
  lemma VerdictMonotone(a: real, b: real)
    requires a <= b
    ensures Severity(VerdictOf(a)) <= Severity(VerdictOf(b))
  {
  }

  /** The boundaries belong to the heavier band. */
  lemma VerdictBoundaries()
    ensures VerdictOf(18.5) == Normal && VerdictOf(25.0) == Overweight && VerdictOf(30.0) == Obese
  {
  }

  /** 1.75 m and 70 kg: BMI 22.86, Normal. */
  lemma BmiExample(p: PatientRecord)
    requires p.height == 1.75 && p.weight == 70.0
    ensures Bmi(p) == 22.86 && VerdictOf(Bmi(p)) == Normal
  {
    assert p.weight / (p.height * p.height) == 160.0 / 7.0;
    assert (160.0 / 7.0 * 100.0).Floor == 2285;
  }

  /** The sample registration: Jane Doe, 30, 9876543210, a@b.co, O+, 1.75 m, 70 kg. */
  const SAMPLE_PATIENT: PatientRecord := PatientRecord("Jane Doe", 30, "9876543210", "a@b.co", OPos, 1.75, 70.0)

  /** Answers stored as the plain values a client sends describe the record
      they spell. */
  lemma DescribedByPlainValues(data: Dict, p: PatientRecord)
    requires Get(data, "name") == Some(Str(p.name)) && Get(data, "age") == Some(Int(p.age))
    requires Get(data, "mobile") == Some(Str(p.mobile)) && Get(data, "email") == Some(Str(p.email))
    requires Get(data, "blood_group") == Some(Str(BloodGroupLabel(p.bloodGroup)))
    requires Get(data, "height") == Some(Float(p.height)) && Get(data, "weight") == Some(Float(p.weight))
    ensures Describes(data, p)
  {
  }

  /** Whatever dict holds the sample answers as a client sends them makes a
      valid record with BMI 22.86, Normal, provided `EmailStr` takes "a@b.co". */
  lemma SampleRecord(data: Dict, isEmail: string -> bool)
    requires Get(data, "name") == Some(Str("Jane Doe")) && Get(data, "age") == Some(Int(30))
    requires Get(data, "mobile") == Some(Str("9876543210")) && Get(data, "email") == Some(Str("a@b.co"))
    requires Get(data, "blood_group") == Some(Str("O+"))
    requires Get(data, "height") == Some(Float(1.75)) && Get(data, "weight") == Some(Float(70.0))
    requires isEmail("a@b.co")
    ensures Validate(data, isEmail) == Success(SAMPLE_PATIENT)
    ensures Bmi(SAMPLE_PATIENT) == 22.86 && VerdictOf(Bmi(SAMPLE_PATIENT)) == Normal
  {
    DescribedByPlainValues(data, SAMPLE_PATIENT);
    ValidateComplete(data, SAMPLE_PATIENT, isEmail);
    BmiExample(SAMPLE_PATIENT);
  }
}
