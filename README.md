# Patient-intake wizard, modelled and verified in Dafny

The intake wizard comes in two variants that share one schema. Both walk a
patient through seven questions: name, age, mobile, email, blood group,
height and weight. Both check the answers as a `PatientDetails` record, and
both append the finished record to `patient_data/patients.json`.

- The **Streamlit page** (`pages/1_Flow_Chat.py`) keeps `step` and `data` in
  page-local state. Next runs a hand-written per-field check (`validate_field`)
  and advances only when it passes. Back is offered on question pages after
  the first. The completion page validates the full record and offers Save
  and New Registration.
- The **FastAPI server** (`app.py`) keeps an in-memory map from session id
  to `{step, data}` and exposes create, get, answer, back, summary and save.
  Its answer endpoint checks nothing: the trial `PatientDetails(**data)` sits
  in a bare `try/except: pass`. So any field name is stored and the step
  moves on, even past 7. Only summary and save validate the record.

`PatientDetails` and the question table appear word for word in both files
(`app.py:21-59`, `pages/1_Flow_Chat.py:11-45`). Each is modelled once
(`Patient`, `Questions`), and both variants use it.

## Layout

| file | module | what it holds |
|---|---|---|
| wrappers.dfy | `Wrappers` | `Option`, `Result` |
| py_values.dfy | `PyValues` | the values that arrive (text, int, float) and Python's `strip`, `int()`, `float()`, `str(int)` on them |
| dicts.dfy | `Dicts` | the answers dict: keys kept in insertion order, `d[k] = v`, `d.get(k)` |
| patient.dfy | `Patient` | `PatientDetails`: field constraints, lax-mode reading of a dict, `bmi`, `verdict` |
| questions.dfy | `Questions` | the seven-entry `QUESTIONS` table |
| field_validation.dfy | `FieldValidation` | `validate_field` |
| persistence.dfy | `Persistence` | the JSON file as a class holding a sequence of entries |
| flow_chat.dfy | `FlowChat` | the Streamlit wizard as class `Wizard` |
| api.dfy | `Api` | the FastAPI server as class `RegistrationApi` |

Choices made in the model:

- Inputs from the outside world are parameters. `uuid4()` is `freshId`,
  `datetime.now()` is a `Timestamp`, and what pydantic's `EmailStr` accepts
  is a predicate `isEmail`.
- Python floats are exact `real`s. `round(x, 2)` is the nearest hundredth,
  with ties going to the even neighbour.
- The server's state invariant is that every session's step is at least 1.
  The wizard's invariant (`FlowChat.FlowInvariant`) says three things: the
  step is between 1 and 8; the answers are stored under a prefix of the
  question fields, in question order, covering every step already passed;
  and every stored answer passed `validate_field`.

Two behaviours of the server are worth knowing. The answer endpoint stores
the value under whatever field it is given, without validating it, and its
step keeps rising past 8 when a completed session is answered again. A Back
from step 9 then lowers the step to 8 and fails on the missing `QUESTIONS[8]`:
the client gets an unhandled KeyError (HTTP 500), and the lowered step is
kept. `Api.AnswerPastCompletion` walks through exactly that sequence.

## Model

| member | source | states |
|---|---|---|
| `PyValues.TrimStart` | pages/1_Flow_Chat.py:61 | leading white space is dropped (the suffix left starts with non-space; everything dropped is space), as `int()` and `float()` do before parsing |
| `PyValues.TrimEnd` | pages/1_Flow_Chat.py:61 | trailing white space is dropped in the same way |
| `PyValues.ParseDecimalDigits` | pages/1_Flow_Chat.py:61 | the digits of a natural number, with no sign, parse back to that number |
| `PyValues.ParseNegatedDigits` | pages/1_Flow_Chat.py:61 | a minus sign followed by the digits of `m` parses back to -m |
| `PyValues.ParseIntFormat` | pages/1_Flow_Chat.py:61 | `int(str(n)) == n` for every integer `n` |
| `PyValues.ParseIntExamples` | pages/1_Flow_Chat.py:61 | `int(" 42 ")` is 42 and `int("1_000")` is 1000 |
| `PyValues.ParseIntRejects` | pages/1_Flow_Chat.py:61 | `int()` raises on "abc", "" and "1__0" |
| `PyValues.ParseFloatUnsigned` | pages/1_Flow_Chat.py:71 | on text with no surrounding white space and no sign, `float()` reads the decimal literal itself |
| `PyValues.ParseFloatDecimal` | pages/1_Flow_Chat.py:71 | `float()` reads the decimal text `whole.frac` (such as "1.75", "0.05" or "3.") as exactly `whole` plus the fraction digits scaled down by their count |
| `PyValues.MinusFloat` | pages/1_Flow_Chat.py:71 | a minus sign before an unsigned literal that `float()` reads as `x` makes it read `-x` |
| `PyValues.UnsignedFloat` | pages/1_Flow_Chat.py:71 | an unsigned literal with no white space around it is read by `float()` as the literal's value |
| `PyValues.ParseFloatFormatInt` | pages/1_Flow_Chat.py:71 | `float(str(n)) == n` for every integer `n` |
| `PyValues.ParseDecimalPoint` | pages/1_Flow_Chat.py:71 | a literal with a point reads as the value of its whole digits plus its fraction digits scaled down by their count |
| `PyValues.ParseFloatExamples` | pages/1_Flow_Chat.py:71 | `float("1.75")` is 1.75; `float("abc")` raises |
| `PyValues.ParseInt` | pages/1_Flow_Chat.py:61 | no contract of its own: `int(s)` on text, fixed by `ParseIntFormat`, `ParseIntExamples` and `ParseIntRejects` |
| `PyValues.ParseFloat` | pages/1_Flow_Chat.py:71 | no contract of its own: `float(s)` on text, fixed by `ParseFloatDecimal`, `MinusFloat`, `ParseFloatFormatInt` and `ParseFloatExamples` |
| `PyValues.FormatInt` | pages/1_Flow_Chat.py:61 | no contract of its own: `str(n)`, tied to `int()` by `ParseIntFormat` and to `float()` by `ParseFloatFormatInt` |
| `PyValues.PyInt` | pages/1_Flow_Chat.py:61 | no contract of its own: `int(v)` takes an int as is, truncates a float (`Trunc`) and parses text (`ParseInt`) |
| `PyValues.PyFloat` | pages/1_Flow_Chat.py:71 | no contract of its own: `float(v)` widens an int, keeps a float and parses text (`ParseFloat`) |
| `PyValues.IndexOfIsFirst` | pages/1_Flow_Chat.py:71 | the point `float()` splits a literal at is the first one in the text |
| `PyValues.Trunc` | pages/1_Flow_Chat.py:61 | `int(x)` for a float truncates toward zero: the result is within 1 of `x`, on the zero side |
| `PyValues.DecimalDigits` | pages/1_Flow_Chat.py:61 | `str(n)` of a natural number is non-empty digit text, without a leading zero unless `n` is 0 |
| `PyValues.DecimalDigitsValue` | pages/1_Flow_Chat.py:61 | the digits `str(n)` prints denote `n` |
| `Dicts.Get` | app.py:134 | a lookup succeeds exactly when the key is among the dict's keys, and then reads the value stored at the key's first position |
| `Dicts.Put` | app.py:134 | `d[k] = v` overwrites the entry in place when `k` is present, and appends `(k, v)` when it is not |
| `Dicts.PutReadsNew` | app.py:134 | after `d[k] = v`, `d[k]` reads as `v` |
| `Dicts.PutReadsOthers` | app.py:134 | after `d[k] = v`, every key other than `k` reads as before |
| `Dicts.PutKeys` | app.py:134 | after `d[k] = v`, the keys keep their order, and `k` is appended only if it was new |
| `Dicts.PutGet` | pages/1_Flow_Chat.py:150 | the three facts above together: `d[k]` is `v`, every other key reads as before, and the key order is unchanged, with `k` appended if it was new |
| `Dicts.FindIsFirst` | app.py:134 | the position a key is looked up at is its first occurrence |
| `Dicts.KeysOfStore` | app.py:134 | overwriting an entry keeps the key sequence; appending adds `k` at its end |
| `Dicts.PutDistinct` | app.py:134 | `d[k] = v` never creates a duplicate key |
| `Patient.ParseBloodGroup` | app.py:26 | `blood_group` is accepted exactly when it is one of the eight labels, and reads back as that label |
| `Patient.BloodGroupRoundTrip` | app.py:26 | every blood group's label is accepted as that group |
| `Patient.Conforms` | app.py:22-28 | no contract of its own: the field constraints `PatientDetails` declares (name length at least 2, age 1 to 120, mobile length 10, e-mail accepted, height and weight above 0; the blood group by its type) |
| `Patient.AsStr` | app.py:22-25 | no contract of its own: a `str` field takes text only |
| `Patient.AsInt` | app.py:23 | no contract of its own: the `int` field takes an int, a float with no fractional part, or numeric text; `LaxNumbers` states what it reads |
| `Patient.AsFloat` | app.py:27-28 | no contract of its own: a `float` field takes an int, a float or numeric text; `LaxNumbers` states what it reads |
| `Patient.LaxNumbers` | app.py:23-28 | the text of an integer `n`, the int `n` and the float `n` are all read as `n` by the `int` field and as `n` by the `float` fields; a float with a fractional part is refused by the `int` field |
| `Patient.Accepted` | app.py:182 | no contract of its own: the record `PatientDetails(**data)` builds when every field is accepted; `AcceptedConforms` and `EveryFieldAccepted` state its two directions |
| `Patient.Rejected` | app.py:21-28 | lists exactly the given fields that the record refuses |
| `Patient.Validate` | app.py:21-28 | an accepted record meets every constraint (name length at least 2, age from 1 to 120, mobile length 10, e-mail accepted, one of the eight blood groups, height and weight above 0) and is what the dict holds; a refusal names exactly the fields that fail, and at least one |
| `Patient.ValidateComplete` | app.py:21-28 | conversely, a dict holding a conforming record is accepted as exactly that record |
| `Patient.DescribedTextFields` | app.py:22-25 | name, age, mobile and e-mail of a conforming record that the dict holds are read back unchanged |
| `Patient.DescribedOtherFields` | app.py:26-28 | blood group, height and weight of a conforming record that the dict holds are read back unchanged |
| `Patient.AcceptedConforms` | app.py:21-28 | a record built from seven accepted fields conforms and matches the dict |
| `Patient.EveryFieldAccepted` | app.py:21-28 | when each of the seven fields is accepted, the whole record is |
| `Patient.NotAcceptedRejects` | app.py:21-28 | when the record is refused, at least one field is named as failing |
| `Patient.FieldNotBefore` | app.py:21-28 | no field of the record is declared twice |
| `Patient.DescribedByPlainValues` | app.py:21-28 | a dict holding each field as the plain text, int or float a client sends holds the record those values spell |
| `Patient.Round2` | app.py:33 | `round(x, 2)` is within 0.005 of `x` and a whole number of hundredths |
| `Patient.Bmi` | app.py:30-33 | `bmi` is within 0.005 of weight / height² |
| `Patient.VerdictOf` | app.py:35-45 | UnderWeight iff bmi < 18.5; Normal iff 18.5 ≤ bmi < 25; Overweight iff 25 ≤ bmi < 30; Obese iff bmi ≥ 30 |
| `Patient.VerdictMonotone` | app.py:37-45 | a larger BMI never gets a lighter verdict |
| `Patient.VerdictBoundaries` | app.py:37-45 | 18.5 is Normal, 25 is Overweight, 30 is Obese |
| `Patient.BmiExample` | app.py:33 | 1.75 m and 70 kg give BMI 22.86 and the verdict Normal |
| `Patient.SampleRecord` | app.py:21-45 | any dict holding the sample answers (Jane Doe, 30, 9876543210, a@b.co, O+, 1.75, 70) validates to that record, with BMI 22.86 and verdict Normal |
| `Questions.QuestionAt` | app.py:51-59 | step k (1 to 7) asks for the k-th record field |
| `Questions.FieldsInRecordOrder` | pages/1_Flow_Chat.py:37-45 | the table has seven questions, one per record field, in the record's order, with no field asked twice |
| `FieldValidation.ValidateField` | pages/1_Flow_Chat.py:54-80 | an answer is accepted exactly when the reply is `(True, "Valid")` |
| `FieldValidation.ValidateFieldRules` | pages/1_Flow_Chat.py:54-80 | name: accepted iff text of length at least 2; age: accepted iff `int(v)` succeeds and lies in [1, 120], and a failed parse answers "Invalid input"; mobile: accepted iff exactly 10 digit characters; email: accepted iff it contains both '@' and '.'; height and weight: accepted iff `float(v)` succeeds and is above 0; any other field (blood_group): always accepted; a text check applied to a number answers "Invalid input" |
| `FieldValidation.AgeTextAccepted` | pages/1_Flow_Chat.py:60-63 | an age typed as the text of a number `n` is accepted iff 1 ≤ n ≤ 120 |
| `FieldValidation.MobileExamples` | pages/1_Flow_Chat.py:64-66 | ten digits pass; nine digits, eleven digits, or a letter among ten characters fail |
| `FieldValidation.BloodGroupUnchecked` | pages/1_Flow_Chat.py:78 | any blood-group answer passes the per-field check |
| `Persistence.EntryFor` | app.py:218-222 | the saved entry carries the session id, the time stamp and the record, with the record's BMI and the verdict for that BMI |
| `Persistence.SessionIds` | app.py:218-222 | there is one session id per entry |
| `Persistence.SessionIdsAppend` | app.py:217-222 | appending an entry keeps the earlier ids in order and adds its own id last |
| `Persistence.SessionIdsAt` | app.py:218-222 | the i-th listed id belongs to the i-th entry |
| `Persistence.PatientStore.constructor` | app.py:211-215 | the file starts with the entries already on disk (none when it is missing) |
| `Persistence.PatientStore.Append` | app.py:210-231 | the array becomes the old array with the one new entry at the end; the total returned is the old length plus 1 |
| `FlowChat.AcceptedAfterStore` | pages/1_Flow_Chat.py:148-150 | storing an answer that passed its check keeps every stored answer valid |
| `FlowChat.KeysArePrefix` | pages/1_Flow_Chat.py:150 | the stored keys are the first question fields, position by position |
| `FlowChat.PutCurrentField` | pages/1_Flow_Chat.py:150 | storing the current question's answer overwrites its entry (after Back) or appends it (the first time) |
| `FlowChat.NextKeepsInvariant` | pages/1_Flow_Chat.py:146-151 | accepting the current question's answer keeps the wizard invariant |
| `FlowChat.CompleteHasEveryField` | pages/1_Flow_Chat.py:112-113 | on the completion page, the answer keys are exactly the seven fields in question order, and each answer passed `validate_field` |
| `FlowChat.LookupCompleteAnswers` | pages/1_Flow_Chat.py:162 | with all seven fields stored in order, field i reads as the i-th answer |
| `FlowChat.CheckedAnswerAccepted` | pages/1_Flow_Chat.py:146-150 | an answer of the kind its widget produces that passed `validate_field` meets that field's `PatientDetails` constraint (for the e-mail, given that `EmailStr` takes it) |
| `FlowChat.CompletionValidates` | pages/1_Flow_Chat.py:158-162 | at completion, widget-produced answers fail `PatientDetails` only through the e-mail check: every other constraint was already enforced per field |
| `FlowChat.Wizard.constructor` | pages/1_Flow_Chat.py:47-52 | first load: the given session id, step 1, no answers |
| `FlowChat.Wizard.Page` | pages/1_Flow_Chat.py:110-162 | a question page for steps up to 7, with Back shown iff step > 1; afterwards, the completion page exactly when the record validates, showing a conforming record, its BMI and that BMI's verdict; otherwise the error page, naming the failing fields |
| `FlowChat.Wizard.Next` | pages/1_Flow_Chat.py:146-156 | a non-empty answer that passes `validate_field` for the current question is stored under that field, and the step goes up by 1; an empty answer gives the warning, a refused one gives the validator's message, and neither changes anything; the button exists only up to step 7 |
| `FlowChat.Wizard.Back` | pages/1_Flow_Chat.py:141-143 | offered iff 1 < step ≤ 7; lowers the step by 1 and keeps the answers |
| `FlowChat.Wizard.NewRegistration` | pages/1_Flow_Chat.py:205-209 | offered only on a completion page whose record validated; installs the new id, step 1 and no answers |
| `FlowChat.Wizard.Save` | pages/1_Flow_Chat.py:82-103 | offered only on the completion page; appends exactly one entry for this session's validated record and returns the old length plus 1; otherwise the file is unchanged |
| `FlowChat.SampleAnswersAccepted` | pages/1_Flow_Chat.py:54-80 | each sample answer passes its field's check |
| `FlowChat.SampleRegistration` | pages/1_Flow_Chat.py:146-158 | a fresh wizard given seven valid answers, with an empty answer refused on the way, reaches the completion page (step 8) holding exactly the seven question fields, its invariant intact |
| `FlowChat.AnswerCurrent` | pages/1_Flow_Chat.py:146-152 | Next with an accepted answer for the current question moves exactly one step on |
| `Api.Answered` | app.py:133-135 | answering raises the step by 1 whatever the field and value, with no check of any kind |
| `Api.AnsweredReads` | app.py:120-135 | after answering, `data[field]` is the value, every other key reads as before, and `field` joins the key order at the end only if it is new |
| `Api.AnswerNextField` | app.py:134 | answering the next field of a list of distinct fields, when the keys so far are that list's prefix, extends the keys by that field |
| `Api.SteppedBack` | app.py:157-159 | the step goes down by 1 above step 1 and stays at 1; the data is untouched |
| `Api.AnswerAllInOrder` | app.py:134-135 | answering the next fields of a list of distinct fields, in order, adds one step per answer and extends the keys along the list |
| `Api.SevenAnswersComplete` | app.py:134-138 | a fresh session given the seven fields in order reaches step 8, with exactly those keys in that order |
| `Api.ViewAt` | app.py:101-108 | the question at a step carries that step's prompt, field and input kind from the question table, and offers the eight blood-group options exactly for `blood_group` |
| `Api.StatusCode` | app.py:152-190 | no contract of its own: 404 for an unknown session, 500 for the missing question after Back, 400 for every other refusal |
| `Api.RegistrationApi.constructor` | app.py:48 | the server starts with no sessions |
| `Api.RegistrationApi.CreateSession` | app.py:70-83 | the id maps to step 1 with no answers, every other session is unchanged, and the reply asks for `name` |
| `Api.RegistrationApi.GetSession` | app.py:85-111 | an unknown id gives NotFound (404); otherwise the reply carries the session's data and says "completed" exactly when step > 7, with the current question otherwise |
| `Api.RegistrationApi.SubmitAnswer` | app.py:113-147 | an unknown id gives NotFound and changes nothing; otherwise only that session changes, as `Answered` describes, and the reply says complete exactly when the new step is above 7 |
| `Api.RegistrationApi.GoBack` | app.py:152-168 | an unknown id gives NotFound and changes nothing; otherwise only that session changes, as `SteppedBack` describes; the reply is the question at the new step, or a 500 error when the new step is past 7 |
| `Api.RegistrationApi.GetSummary` | app.py:170-190 | NotFound for an unknown id; "Registration incomplete" while step ≤ 7; afterwards it succeeds exactly when the record validates, with a conforming record, its BMI and its verdict, and otherwise fails with `InvalidData` (HTTP 400) naming exactly the failing fields |
| `Api.RegistrationApi.SavePatient` | app.py:192-235 | NotFound for an unknown id; "Cannot save incomplete registration" while step ≤ 7; afterwards it succeeds exactly when the record validates, appending exactly one entry for this session id and returning the old length plus 1; a complete record that fails validation gives `SaveFailed` (HTTP 400) naming exactly the failing fields; every failure leaves the file unchanged |
| `Api.AnswerPastCompletion` | app.py:133-161 | on a completed session, an answer under an unknown field is stored unchecked and replies "complete" with the step at 9; Back then lowers the step to 8 and fails with HTTP 500, leaving every other session unchanged |

## Left out

- `pages/2_RAG_Chat.py` (document loading, embeddings, vector index, hosted model) and `main.py` (a static landing page) are not part of this model.
- Rendering: titles, the progress bar, widget layout, warning and error texts shown on screen, and the colour chosen for each verdict (`pages/1_Flow_Chat.py:181-189`). The server's `GET /` status message (`app.py:66-68`), CORS and uvicorn start-up are left out too.
- `uuid4()` becomes a caller-supplied `freshId`. Collisions are not ruled out: creating a session under an existing id overwrites it, as the dict assignment does.
- `datetime.now().isoformat()` becomes a caller-supplied time stamp.
- Floating point: floats are exact reals, so IEEE rounding of `weight / height**2` is not modelled, and `round(..., 2)` rounds the exact quotient.
- PyValues.ParseFloat: accepts only plain decimals ("70", "1.75", ".5", "3."). Python's `float()` also takes exponents, underscores, "inf" and "nan". Because `nan <= 0` is false, `validate_field("height", "nan")` passes in Python, while the model refuses it. In the Streamlit page these fields come from number inputs, never text.
- PyValues.ParseInt: CPython limits integer-string conversion to 4300 digits by default, and `int(text)` and `str(n)` raise ValueError beyond it. The model has no limit, so `ParseIntFormat` holds for every integer, while in Python `int(str(n))` raises for |n| ≥ 10^4300. For the same reason, an age typed as a number of more than 4300 digits gets "Invalid input" from `validate_field` in Python but the out-of-range message in the model.
- PyValues.IsSpace and PyValues.IsDigit: only ASCII white space (including U+001C to U+001F) and the ASCII digits are recognised. Python's `strip`, `int()` and `isdigit()` also accept other Unicode white space and digits.
- Pydantic: `EmailStr` is the `isEmail` parameter, and its normalisation of the address is not modelled. Lax-mode reading of a numeric string for `age` uses the same parser as `int()`, white space included: pydantic's own trimming may not drop the separators U+001C to U+001F that `int()` drops. Boolean inputs are not modelled. Error details are the list of failing fields, not pydantic's message text.
- FastAPI request parsing: the answer value is text, an int or a float. Malformed bodies (HTTP 422) are not modelled.
- The `except Exception` clause of `submit_answer` (`app.py:149-150`) is not modelled, since nothing inside its `try` can raise.
- File I/O: creating the directory, JSON encoding and decoding, a corrupt or unreadable file, and write failures (the `except` clauses of both save functions) are not modelled. The file is the sequence of its entries, and a missing file is the empty sequence.
- Concurrency: racing requests on one session and interleaved read-modify-write of the file are out of scope; every operation is atomic here.
