/**
 * `patient_data/patients.json`: a JSON array of saved registrations that
 * both variants extend by reading it, appending one entry and writing it back.
 */
module Persistence {
  import opened Patient

  /** An ISO-8601 time stamp, supplied by the caller (`datetime.now()`). */
  type Timestamp = string

  /** `{session_id, timestamp, patient}`, where `patient` is `model_dump()`
      and so carries the derived `bmi` and `verdict`. */
  datatype StoredEntry = StoredEntry(
    sessionId: string, timestamp: Timestamp, patient: PatientRecord, bmi: real, verdict: Verdict)

  /** The entry saved for a validated record. */
  function EntryFor(sessionId: string, timestamp: Timestamp, p: PatientRecord): (e: StoredEntry)
    requires p.height > 0.0
    ensures e.verdict == VerdictOf(e.bmi)
    ensures e.sessionId == sessionId && e.timestamp == timestamp && e.patient == p && e.bmi == Bmi(p)
  {
    var bmi := Bmi(p);
    StoredEntry(sessionId, timestamp, p, bmi, VerdictOf(bmi))
  }

  function SessionIds(entries: seq<StoredEntry>): (ids: seq<string>)
    ensures |ids| == |entries|
  {
    if entries == [] then [] else SessionIds(entries[..|entries| - 1]) + [entries[|entries| - 1].sessionId]
  }

  /** Appending an entry keeps the earlier entries' ids and adds its own at the end. */
  lemma SessionIdsAppend(entries: seq<StoredEntry>, e: StoredEntry)
    ensures SessionIds(entries + [e]) == SessionIds(entries) + [e.sessionId]
  {
    assert (entries + [e])[..|entries|] == entries;
  }

  /** The i-th id listed is the i-th entry's. */
  lemma {:induction false} SessionIdsAt(entries: seq<StoredEntry>, i: nat)
    requires i < |entries|
    ensures SessionIds(entries)[i] == entries[i].sessionId
  {
    if i < |entries| - 1 {
      SessionIdsAt(entries[..|entries| - 1], i);
    }
  }

  /** The file; a missing file reads as the empty array. */
  class PatientStore {
    var entries: seq<StoredEntry>

    constructor (existing: seq<StoredEntry>)
      ensures entries == existing
    {
      entries := existing;
    }

    /** Read the array, append `e`, write the array back; answer the new length. */
    method Append(e: StoredEntry) returns (total: nat)
      modifies this
      ensures entries == old(entries) + [e]
      ensures total == |old(entries)| + 1
    {
      var data := entries;
      data := data + [e];
      entries := data;
      total := |data|;
    }
  }
}
