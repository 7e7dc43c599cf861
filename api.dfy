/**
 * The FastAPI server: an in-memory map from session id to `{step, data}` and
 * the six session endpoints.
 */
module Api {
  import opened Wrappers
  import opened PyValues
  import opened Dicts
  import opened Patient
  import opened Questions
  import opened Persistence

  datatype Session = Session(step: int, data: Dict)

  const FRESH_SESSION: Session := Session(1, [])

  /** What `submit_answer` does to a session. The trial `PatientDetails(**data)`
      sits in a bare `try/except: pass`, so nothing is checked: any field
      name is stored and the step moves on, past 7 too. */
  function Answered(s: Session, field: string, value: Value): (r: Session)
    ensures r.step == s.step + 1
  {
    Session(s.step + 1, Put(s.data, field, value))
  }

  /** After an answer, the answered field reads as the value given, every
      other field reads as before, and the field joins the key order at the
      end unless it was already there. */
  lemma AnsweredReads(s: Session, field: string, value: Value)
    ensures Get(Answered(s, field, value).data, field) == Some(value)
    ensures forall k :: k != field ==> Get(Answered(s, field, value).data, k) == Get(s.data, k)
    ensures Keys(Answered(s, field, value).data) == if field in Keys(s.data) then Keys(s.data) else Keys(s.data) + [field]
  {
    PutGet(s.data, field, value);
  }

  /** What `go_back` does to a session: one step back, never below 1; the
      answers stay. */
  function SteppedBack(s: Session): (r: Session)
    ensures r.data == s.data
    ensures s.step >= 1 ==> r.step >= 1
    ensures r.step == s.step - 1 || (r.step == s.step && s.step <= 1)
  {
    if s.step > 1 then Session(s.step - 1, s.data) else s
  }

  /** Answering in turn, as a client posting `answers` one by one does. */
  function AnswerAll(s: Session, answers: seq<(string, Value)>): Session
    decreases |answers|
  {
    if answers == [] then s else AnswerAll(Answered(s, answers[0].0, answers[0].1), answers[1..])
  }

  /** Answering the field after those already stored extends the keys by it. */
  lemma AnswerNextField(s: Session, fields: seq<string>, n: nat, v: Value)
    requires Distinct(fields) && n < |fields| && Keys(s.data) == fields[..n]
    ensures Keys(Answered(s, fields[n], v).data) == fields[..n + 1]
  {
    AnsweredReads(s, fields[n], v);
    assert fields[n] !in fields[..n];
    assert fields[..n + 1] == fields[..n] + [fields[n]];
  }

  predicate Distinct(fields: seq<string>) {
    forall i, j :: 0 <= i < j < |fields| ==> fields[i] != fields[j]
  }

  /** Answering the next fields of a list of distinct fields, in order, adds
      one step per answer and extends the keys along the list. */
  lemma {:induction false} AnswerAllInOrder(s: Session, fields: seq<string>, n: nat, answers: seq<(string, Value)>)
    requires Distinct(fields)
    requires n + |answers| <= |fields| && Keys(s.data) == fields[..n]
    requires forall i :: 0 <= i < |answers| ==> answers[i].0 == fields[n + i]
    ensures AnswerAll(s, answers).step == s.step + |answers|
    ensures Keys(AnswerAll(s, answers).data) == fields[..n + |answers|]
    decreases |answers|
  {
    if answers != [] {
      assert answers[0].0 == fields[n];
      AnswerNextField(s, fields, n, answers[0].1);
      var rest := answers[1..];
      assert forall i :: 0 <= i < |rest| ==> rest[i].0 == fields[n + 1 + i] by {
        assert forall i :: 0 <= i < |rest| ==> rest[i] == answers[i + 1];
      }
      var t := Answered(s, fields[n], answers[0].1);
      assert AnswerAll(s, answers) == AnswerAll(t, rest);
      assert Keys(t.data) == fields[..n + 1] && n + 1 + |rest| <= |fields|;
      AnswerAllInOrder(t, fields, n + 1, rest);
    }
  }

  /** A fresh session given the seven fields in question order is complete,
      with exactly those keys in that order. */
  lemma {:induction false} SevenAnswersComplete(answers: seq<(string, Value)>)
    requires |answers| == |FIELDS|
    requires forall i :: 0 <= i < |answers| ==> answers[i].0 == FIELDS[i]
    ensures AnswerAll(FRESH_SESSION, answers).step == LAST_STEP + 1
    ensures Keys(AnswerAll(FRESH_SESSION, answers).data) == FIELDS
  {
    assert Distinct(FIELDS) by {
      forall i, j | 0 <= i < j < |FIELDS| ensures FIELDS[i] != FIELDS[j] {
        FieldNotBefore(j);
        assert FIELDS[i] == FIELDS[..j][i];
      }
    }
    assert Keys(FRESH_SESSION.data) == FIELDS[..0];
    AnswerAllInOrder(FRESH_SESSION, FIELDS, 0, answers);
    assert FIELDS[..|answers|] == FIELDS;
  }

  /** The question part of a response: prompt, field, input kind and, for the
      blood group only, the eight options. */
  datatype QuestionView = QuestionView(
    step: int, prompt: string, field: string, kind: InputKind, options: Option<seq<string>>)

  function ViewAt(step: int): (v: QuestionView)
    requires 1 <= step <= LAST_STEP
    ensures v.step == step && v.field == FIELDS[step - 1]
    ensures v.prompt == QUESTIONS[step - 1].prompt && v.kind == QUESTIONS[step - 1].kind
    ensures v.options.Some? <==> v.field == "blood_group"
    ensures v.options.Some? ==> v.options.value == BLOOD_GROUP_LABELS
  {
    var q := QuestionAt(step);
    QuestionView(step, q.prompt, q.field, q.kind, if q.field == "blood_group" then Some(BLOOD_GROUP_LABELS) else None)
  }

  datatype SessionView =
    | InProgress(sessionId: string, view: QuestionView, data: Dict)
    | Completed(sessionId: string, step: int, data: Dict)

  datatype AnswerReply = NextQuestion(view: QuestionView) | RegistrationComplete

  datatype Summary = Summary(sessionId: string, patient: PatientRecord, bmi: real, verdict: Verdict)

  /** The HTTP errors: 404 for an unknown id, 400 for an incomplete session or
      a record `PatientDetails` refuses, and 500 for the KeyError `go_back`
      raises when the step it lands on has no question. */
  datatype ApiError =
    | NotFound
    | Incomplete(detail: string)
    | InvalidData(failing: seq<string>)
    | SaveFailed(failing: seq<string>)
    | NoSuchQuestion

  function StatusCode(e: ApiError): int {
    match e
    case NotFound => 404
    case NoSuchQuestion => 500
    case _ => 400
  }

  class RegistrationApi {
    /** What `EmailStr` accepts. */
    const isEmail: string -> bool
    var sessions: map<string, Session>

    /** No session's step drops below 1, so every step up to 7 has a question. */
    ghost predicate Valid()
      reads this
    {
      forall id :: id in sessions ==> sessions[id].step >= 1
    }

    constructor (isEmail: string -> bool)
      ensures this.isEmail == isEmail && sessions == map[] && Valid()
    {
      this.isEmail := isEmail;
      sessions := map[];
    }

    /** POST /session/create, `freshId` standing for `uuid4()`. */
    method CreateSession(freshId: string) returns (id: string, view: QuestionView)
      requires Valid()
      modifies this
      ensures Valid()
      ensures id == freshId && sessions == old(sessions)[id := FRESH_SESSION]
      ensures view == ViewAt(1) && view.field == "name" && view.options == None
    {
      id := freshId;
      sessions := sessions[id := FRESH_SESSION];
      view := ViewAt(1);
    }

    /** GET /session/{id}. */
    method GetSession(id: string) returns (r: Result<SessionView, ApiError>)
      requires Valid()
      ensures id !in sessions ==> r == Failure(NotFound)
      ensures id in sessions ==> r.Success? && r.value.sessionId == id && r.value.data == sessions[id].data
      ensures id in sessions ==> (r.value.Completed? <==> sessions[id].step > LAST_STEP)
      ensures id in sessions && r.value.Completed? ==> r.value.step == sessions[id].step
      ensures id in sessions && r.value.InProgress? ==> r.value.view == ViewAt(sessions[id].step)
    {
      if id !in sessions {
        return Failure(NotFound);
      }
      var session := sessions[id];
      if session.step > LAST_STEP {
        return Success(Completed(id, session.step, session.data));
      }
      r := Success(InProgress(id, ViewAt(session.step), session.data));
    }

    /** POST /session/{id}/answer. */
    method SubmitAnswer(id: string, field: string, value: Value) returns (r: Result<AnswerReply, ApiError>)
      requires Valid()
      modifies this
      ensures Valid()
      ensures id !in old(sessions) ==> r == Failure(NotFound) && sessions == old(sessions)
      ensures id in old(sessions) ==> sessions == old(sessions)[id := Answered(old(sessions)[id], field, value)]
      ensures id in old(sessions) ==> r.Success? && (r.value.RegistrationComplete? <==> sessions[id].step > LAST_STEP)
      ensures id in old(sessions) && r.value.NextQuestion? ==> r.value.view == ViewAt(sessions[id].step)
    {
      if id !in sessions {
        return Failure(NotFound);
      }
      var session := Answered(sessions[id], field, value);
      sessions := sessions[id := session];
      if session.step > LAST_STEP {
        return Success(RegistrationComplete);
      }
      r := Success(NextQuestion(ViewAt(session.step)));
    }

    /** POST /session/{id}/back. From step 9 or later (reachable by answering a
        completed session) the step is lowered and then the question lookup
        fails. */
    method GoBack(id: string) returns (r: Result<QuestionView, ApiError>)
      requires Valid()
      modifies this
      ensures Valid()
      ensures id !in old(sessions) ==> r == Failure(NotFound) && sessions == old(sessions)
      ensures id in old(sessions) ==> sessions == old(sessions)[id := SteppedBack(old(sessions)[id])]
      ensures id in old(sessions) && sessions[id].step <= LAST_STEP ==> r == Success(ViewAt(sessions[id].step))
      ensures id in old(sessions) && sessions[id].step > LAST_STEP ==> r == Failure(NoSuchQuestion)
    {
      if id !in sessions {
        return Failure(NotFound);
      }
      var session := SteppedBack(sessions[id]);
      sessions := sessions[id := session];
      if session.step > LAST_STEP {
        return Failure(NoSuchQuestion);
      }
      r := Success(ViewAt(session.step));
    }

    /** GET /session/{id}/summary. */
    method GetSummary(id: string) returns (r: Result<Summary, ApiError>)
      requires Valid()
      ensures id !in sessions ==> r == Failure(NotFound)
      ensures id in sessions && sessions[id].step <= LAST_STEP ==> r == Failure(Incomplete("Registration incomplete"))
      ensures r.Success? ==>
        && id in sessions && sessions[id].step > LAST_STEP && r.value.sessionId == id
        && Conforms(r.value.patient, isEmail) && Describes(sessions[id].data, r.value.patient)
        && r.value.bmi == Bmi(r.value.patient) && r.value.verdict == VerdictOf(r.value.bmi)
      ensures id in sessions && sessions[id].step > LAST_STEP && Validate(sessions[id].data, isEmail).Failure? ==>
        r == Failure(InvalidData(Validate(sessions[id].data, isEmail).error))
      ensures r.Failure? && r.error.InvalidData? ==>
        id in sessions && sessions[id].step > LAST_STEP && Validate(sessions[id].data, isEmail) == Failure(r.error.failing)
      ensures id in sessions && sessions[id].step > LAST_STEP ==> (r.Success? <==> Validate(sessions[id].data, isEmail).Success?)
    {
      if id !in sessions {
        return Failure(NotFound);
      }
      var session := sessions[id];
      if session.step <= LAST_STEP {
        return Failure(Incomplete("Registration incomplete"));
      }
      match Validate(session.data, isEmail)
      case Success(p) =>
        r := Success(Summary(id, p, Bmi(p), VerdictOf(Bmi(p))));
      case Failure(failing) =>
        r := Failure(InvalidData(failing));
    }

    /** POST /session/{id}/save: one entry for this session appended to the file,
        answering the new total. */
    method SavePatient(id: string, store: PatientStore, now: Timestamp) returns (r: Result<nat, ApiError>)
      requires Valid()
      modifies store
      ensures id !in sessions ==> r == Failure(NotFound)
      ensures id in sessions && sessions[id].step <= LAST_STEP ==>
        r == Failure(Incomplete("Cannot save incomplete registration"))
      ensures r.Success? ==>
        && id in sessions && sessions[id].step > LAST_STEP
        && Validate(sessions[id].data, isEmail).Success?
        && store.entries == old(store.entries) + [EntryFor(id, now, Validate(sessions[id].data, isEmail).value)]
        && r.value == |old(store.entries)| + 1
      ensures r.Failure? ==> store.entries == old(store.entries)
      ensures id in sessions && sessions[id].step > LAST_STEP && Validate(sessions[id].data, isEmail).Failure? ==>
        r == Failure(SaveFailed(Validate(sessions[id].data, isEmail).error))
      ensures r.Failure? && r.error.SaveFailed? ==> Validate(sessions[id].data, isEmail) == Failure(r.error.failing)
      ensures id in sessions && sessions[id].step > LAST_STEP ==> (r.Success? <==> Validate(sessions[id].data, isEmail).Success?)
    {
      if id !in sessions {
        return Failure(NotFound);
      }
      var session := sessions[id];
      if session.step <= LAST_STEP {
        return Failure(Incomplete("Cannot save incomplete registration"));
      }
      match Validate(session.data, isEmail)
      case Success(p) =>
        var total := store.Append(EntryFor(id, now, p));
        r := Success(total);
      case Failure(failing) =>
        r := Failure(SaveFailed(failing));
    }
  }

  /** A session answered past completion still advances, and Back from there
      lowers the step before it fails. */
  method AnswerPastCompletion(api: RegistrationApi, id: string)
    returns (a: Result<AnswerReply, ApiError>, b: Result<QuestionView, ApiError>)
    requires api.Valid() && id in api.sessions && api.sessions[id].step == LAST_STEP + 1
    modifies api
    ensures a == Success(RegistrationComplete)
    ensures b == Failure(NoSuchQuestion) && StatusCode(b.error) == 500
    ensures id in api.sessions && api.sessions[id].step == LAST_STEP + 1
    ensures api.sessions[id].data == Put(old(api.sessions[id].data), "shoe_size", Int(42))
    ensures api.sessions == old(api.sessions)[id := api.sessions[id]]
  {
    a := api.SubmitAnswer(id, "shoe_size", Int(42));
    assert api.sessions[id].step == LAST_STEP + 2;
    b := api.GoBack(id);
  }
}
