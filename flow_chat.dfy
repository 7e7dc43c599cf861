/**
 * The Streamlit wizard: page-local `step` and `data`, the Next and Back
 * buttons on a question page, and Save and New Registration on the
 * completion page.
 */
module FlowChat {
  import opened Wrappers
  import opened PyValues
  import opened Dicts
  import opened Patient
  import opened Questions
  import opened FieldValidation
  import opened Persistence

  /** What the page-local state can hold: a step from 1 to 8 (8 is the
      completion page), answers to a prefix of the questions that covers every
      step already passed, and only answers `validate_field` accepted. */
  predicate FlowInvariant(step: int, data: Dict) {
    && 1 <= step <= LAST_STEP + 1
    && step - 1 <= |data| <= LAST_STEP
    && Keys(data) == FIELDS[..|data|]
    && AnswersAccepted(data)
  }

  /** `answer is None or answer == ''`. */
  predicate IsEmptyAnswer(answer: Option<Value>) {
    answer.None? || answer == Some(Str(""))
  }

  /** What pressing Next does: nothing when the button is not on the page,
      a warning for an empty answer, the validator's message for a refused one. */
  datatype NextOutcome = NotShown | MissingAnswer | Refused(message: string) | Advanced

  /** What the script renders for a state. */
  datatype Page =
    | QuestionPage(step: int, question: Question, backShown: bool)
    | CompletePage(patient: PatientRecord, bmi: real, verdict: Verdict)
    | InvalidRecordPage(failing: seq<string>)

  /** Every stored answer passed `validate_field` for its own key. */
  predicate AnswersAccepted(data: Dict) {
    forall i :: 0 <= i < |data| ==> ValidateField(data[i].0, data[i].1).ok
  }

  lemma AcceptedAfterStore(data: Dict, i: nat, e: (string, Value))
    requires AnswersAccepted(data) && i <= |data| && ValidateField(e.0, e.1).ok
    ensures i < |data| ==> AnswersAccepted(data[i := e])
    ensures i == |data| ==> AnswersAccepted(data + [e])
  {
  }

  lemma KeysArePrefix(data: Dict)
    requires |data| <= |FIELDS| && Keys(data) == FIELDS[..|data|]
    ensures forall j :: 0 <= j < |data| ==> data[j].0 == FIELDS[j]
  {
    forall j | 0 <= j < |data| ensures data[j].0 == FIELDS[j] {
      assert Keys(data)[j] == data[j].0;
    }
  }

  /** Storing the answer to question `step` either overwrites the entry at
      position step - 1 or, when the answers stop just before it, appends it. */
  lemma PutCurrentField(step: int, data: Dict, v: Value)
    requires 1 <= step <= LAST_STEP && step - 1 <= |data| <= LAST_STEP
    requires Keys(data) == FIELDS[..|data|]
    ensures step - 1 < |data| ==> Put(data, FIELDS[step - 1], v) == data[step - 1 := (FIELDS[step - 1], v)]
    ensures step - 1 == |data| ==> Put(data, FIELDS[step - 1], v) == data + [(FIELDS[step - 1], v)]
  {
    FieldsInRecordOrder();
    KeysArePrefix(data);
    var k := FIELDS[step - 1];
    if step - 1 < |data| {
      FindIsFirst(data, k, step - 1);
    } else {
      FindIsFirst(data, k, |data|);
    }
  }

  /** Accepting the answer to the current question keeps the invariant. */
  lemma NextKeepsInvariant(step: int, data: Dict, v: Value)
    requires FlowInvariant(step, data) && step <= LAST_STEP
    requires ValidateField(FIELDS[step - 1], v).ok
    ensures FlowInvariant(step + 1, Put(data, FIELDS[step - 1], v))
  {
    var e := (FIELDS[step - 1], v);
    var r := Put(data, e.0, v);
    PutCurrentField(step, data, v);
    AcceptedAfterStore(data, step - 1, e);
    KeysOfStore(data, step - 1, e);
    if step - 1 < |data| {
      KeysArePrefix(data);
    } else {
      assert FIELDS[..|r|] == FIELDS[..|data|] + [e.0];
    }
  }

  /** On the completion page every question has an answer, in question
      order, each one accepted by `validate_field`. */
  lemma CompleteHasEveryField(step: int, data: Dict)
    requires FlowInvariant(step, data) && step == LAST_STEP + 1
    ensures Keys(data) == FIELDS
    ensures forall i :: 0 <= i < |data| ==> ValidateField(FIELDS[i], data[i].1).ok
  {
    assert |data| == |FIELDS|;
    forall i | 0 <= i < |data| ensures ValidateField(FIELDS[i], data[i].1).ok {
      assert Keys(data)[i] == data[i].0;
    }
  }

  /** The kind of value each Streamlit widget hands to Next: text from the text
      boxes, an int from the age box, a float from the height and weight
      boxes, and one of the eight labels from the blood-group box (its empty
      choice becomes None). */
  predicate WidgetAnswer(field: string, v: Value) {
    if field == "age" then v.Int?
    else if field == "height" || field == "weight" then v.Float?
    else if field == "blood_group" then v.Str? && v.s in BLOOD_GROUP_LABELS
    else v.Str?
  }

  lemma {:induction false} LookupCompleteAnswers(data: Dict, i: nat)
    requires Keys(data) == FIELDS && i < |FIELDS|
    ensures Get(data, FIELDS[i]) == Some(data[i].1)
  {
    FieldsInRecordOrder();
    KeysArePrefix(data);
    FindIsFirst(data, FIELDS[i], i);
  }

  /** A widget answer that passed `validate_field` meets its field's
      `PatientDetails` constraint; for the e-mail, given that `EmailStr`
      takes it. */
  lemma CheckedAnswerAccepted(data: Dict, isEmail: string -> bool, f: string, v: Value)
    requires f in FIELDS && Get(data, f) == Some(v)
    requires ValidateField(f, v).ok && WidgetAnswer(f, v)
    requires f == "email" ==> v.Str? && isEmail(v.s)
    ensures FieldAccepted(data, isEmail, f)
  {
    ValidateFieldRules(f, v);
  }

  /** On the completion page, answers that came from the widgets fail
      `PatientDetails` only through the e-mail check: `validate_field` has
      already enforced every other constraint. */
  lemma CompletionValidates(step: int, data: Dict, isEmail: string -> bool)
    requires FlowInvariant(step, data) && step == LAST_STEP + 1
    requires forall i :: 0 <= i < |data| ==> WidgetAnswer(data[i].0, data[i].1)
    requires data[3].1.Str? && isEmail(data[3].1.s)
    ensures Validate(data, isEmail).Success?
  {
    CompleteHasEveryField(step, data);
    forall i | 0 <= i < |FIELDS| ensures FieldAccepted(data, isEmail, FIELDS[i]) {
      LookupCompleteAnswers(data, i);
      assert data[i].0 == FIELDS[i] by { assert Keys(data)[i] == data[i].0; }
      assert FIELDS[i] == "email" ==> i == 3;
      CheckedAnswerAccepted(data, isEmail, FIELDS[i], data[i].1);
    }
    EveryFieldAccepted(data, isEmail);
    assert Validate(data, isEmail).Success?;
  }

  class Wizard {
    /** What `EmailStr` accepts. */
    const isEmail: string -> bool
    var sessionId: string
    var step: int
    var data: Dict

    ghost predicate Valid()
      reads this
    {
      FlowInvariant(step, data)
    }

    /** The first run of the script: a new id, step 1, no answers. */
    constructor (sessionId: string, isEmail: string -> bool)
      ensures this.sessionId == sessionId && this.isEmail == isEmail
      ensures step == 1 && data == [] && Valid()
    {
      this.sessionId := sessionId;
      this.isEmail := isEmail;
      step := 1;
      data := [];
    }

    /** The question page up to step 7, with Back from step 2 on; after that
        the completion page when `PatientDetails` accepts the answers and the
        validation-error page (no buttons) when it does not. */
    function Page(): (pg: Page)
      reads this
      requires Valid()
      ensures pg.QuestionPage? <==> step <= LAST_STEP
      ensures pg.QuestionPage? ==> pg.step == step && pg.question == QUESTIONS[step - 1]
      ensures pg.QuestionPage? ==> (pg.backShown <==> step > 1)
      ensures pg.CompletePage? ==> Conforms(pg.patient, isEmail) && Describes(data, pg.patient)
      ensures pg.CompletePage? ==> pg.bmi == Bmi(pg.patient) && pg.verdict == VerdictOf(pg.bmi)
      ensures step > LAST_STEP ==> (pg.CompletePage? <==> Validate(data, isEmail).Success?)
      ensures pg.InvalidRecordPage? ==> Validate(data, isEmail) == Failure(pg.failing)
      ensures pg.InvalidRecordPage? ==> pg.failing != [] && forall f :: f in pg.failing ==> f in FIELDS
    {
      if step <= LAST_STEP then QuestionPage(step, QuestionAt(step), step > 1)
      else
        match Validate(data, isEmail)
        case Success(p) => CompletePage(p, Bmi(p), VerdictOf(Bmi(p)))
        case Failure(failing) => InvalidRecordPage(failing)
    }

    /** The Next button: a non-empty answer that `validate_field` accepts for the
        current question is stored under that question's field and the wizard
        moves on; otherwise nothing changes. */
    method Next(answer: Option<Value>) returns (outcome: NextOutcome)
      requires Valid()
      modifies this
      ensures Valid()
      ensures sessionId == old(sessionId)
      ensures old(step) > LAST_STEP ==> outcome == NotShown
      ensures old(step) <= LAST_STEP && IsEmptyAnswer(answer) ==> outcome == MissingAnswer
      ensures old(step) <= LAST_STEP && !IsEmptyAnswer(answer) ==>
        var check := ValidateField(FIELDS[old(step) - 1], answer.value);
        outcome == if check.ok then Advanced else Refused(check.message)
      ensures outcome == Advanced ==>
        step == old(step) + 1 && data == Put(old(data), FIELDS[old(step) - 1], answer.value)
      ensures outcome != Advanced ==> step == old(step) && data == old(data)
    {
      if step > LAST_STEP {
        return NotShown;
      }
      var field := QuestionAt(step).field;
      if IsEmptyAnswer(answer) {
        return MissingAnswer;
      }
      var check := ValidateField(field, answer.value);
      if check.ok {
        NextKeepsInvariant(step, data, answer.value);
        data := Put(data, field, answer.value);
        step := step + 1;
        outcome := Advanced;
      } else {
        outcome := Refused(check.message);
      }
    }

    /** The Back button, on question pages after the first: one step back,
        answers kept. */
    method Back() returns (taken: bool)
      requires Valid()
      modifies this
      ensures Valid()
      ensures taken <==> 1 < old(step) <= LAST_STEP
      ensures step == if taken then old(step) - 1 else old(step)
      ensures data == old(data) && sessionId == old(sessionId)
    {
      taken := 1 < step <= LAST_STEP;
      if taken {
        step := step - 1;
      }
    }

    /** New Registration, on the completion page only: a new id, step 1, no answers. */
    method NewRegistration(freshId: string) returns (taken: bool)
      requires Valid()
      modifies this
      ensures Valid()
      ensures taken <==> old(Page()).CompletePage?
      ensures taken ==> sessionId == freshId && step == 1 && data == []
      ensures !taken ==> sessionId == old(sessionId) && step == old(step) && data == old(data)
    {
      taken := Page().CompletePage?;
      if taken {
        sessionId := freshId;
        step := 1;
        data := [];
      }
    }

    /** Save to File, on the completion page only: the file gains one entry for
        this session and the new total is shown. */
    method Save(store: PatientStore, now: Timestamp) returns (total: Option<nat>)
      requires Valid()
      modifies store
      ensures total.Some? <==> Page().CompletePage?
      ensures Page().CompletePage? ==>
        var p := Page().patient;
        && store.entries == old(store.entries) + [EntryFor(sessionId, now, p)]
        && total == Some(|old(store.entries)| + 1)
      ensures !Page().CompletePage? ==> store.entries == old(store.entries)
    {
      var page := Page();
      if !page.CompletePage? {
        return None;
      }
      var p := page.patient;
      var n := store.Append(EntryFor(sessionId, now, p));
      total := Some(n);
    }
  }

  /** The sample answers each pass `validate_field`. */
  lemma SampleAnswersAccepted()
    ensures ValidateField("name", Str("Jane Doe")).ok
    ensures ValidateField("age", Int(30)).ok
    ensures ValidateField("mobile", Str("9876543210")).ok
    ensures ValidateField("email", Str("a@b.co")).ok
    ensures ValidateField("blood_group", Str("O+")).ok
    ensures ValidateField("height", Float(1.75)).ok
    ensures ValidateField("weight", Float(70.0)).ok
  {
    assert "a@b.co"[1] == '@' && "a@b.co"[3] == '.';
  }

  /** Pressing Next with an answer the current question accepts moves one step on. */
  method AnswerCurrent(w: Wizard, v: Value)
    requires w.Valid() && w.step <= LAST_STEP && v != Str("")
    requires ValidateField(FIELDS[w.step - 1], v).ok
    modifies w
    ensures w.Valid() && w.step == old(w.step) + 1
  {
    var o := w.Next(Some(v));
  }

  /** Seven accepted answers from a fresh wizard reach the completion page
      with the seven fields stored in question order; an empty answer on the
      way changes nothing. */
  method SampleRegistration() returns (w: Wizard)
    ensures w.Valid() && w.step == LAST_STEP + 1 && Keys(w.data) == FIELDS
  {
    w := new Wizard("s-1", s => Contains(s, '@') && Contains(s, '.'));
    SampleAnswersAccepted();
    AnswerCurrent(w, Str("Jane Doe"));
    var o := w.Next(Some(Str("")));
    assert o == MissingAnswer && w.step == 2;
    AnswerCurrent(w, Int(30));
    AnswerCurrent(w, Str("9876543210"));
    AnswerCurrent(w, Str("a@b.co"));
    AnswerCurrent(w, Str("O+"));
    AnswerCurrent(w, Float(1.75));
    AnswerCurrent(w, Float(70.0));
    assert w.step == 8;
    CompleteHasEveryField(w.step, w.data);
    assert Keys(w.data) == FIELDS;
  }
}
