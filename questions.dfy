/** The question table both variants step through: step k asks QUESTIONS[k - 1]. */
module Questions {
  import Patient

  datatype InputKind = Text | Number | Select

  datatype Question = Question(field: string, prompt: string, kind: InputKind)

  const LAST_STEP: int := 7

  const QUESTIONS: seq<Question> := [
    Question("name", "What is your full name?", Text),
    Question("age", "What is your age?", Number),
    Question("mobile", "What is your mobile number? (10 digits)", Text),
    Question("email", "What is your email address?", Text),
    Question("blood_group", "What is your blood group?", Select),
    Question("height", "What is your height in meters? (e.g., 1.75)", Number),
    Question("weight", "What is your weight in kg?", Number)
  ]

  /** `QUESTIONS[step]` for a step that is a key of the table. */
  function QuestionAt(step: int): (q: Question)
    requires 1 <= step <= LAST_STEP
    ensures q.field == Patient.FIELDS[step - 1]
  {
    QUESTIONS[step - 1]
  }

  /** The table asks each record field once, in the record's order. */
  lemma FieldsInRecordOrder()
    ensures |QUESTIONS| == LAST_STEP == |Patient.FIELDS|
    ensures forall i :: 0 <= i < |QUESTIONS| ==> QUESTIONS[i].field == Patient.FIELDS[i]
    ensures forall i, j :: 0 <= i < j < |Patient.FIELDS| ==> Patient.FIELDS[i] != Patient.FIELDS[j]
  {
  }
}
