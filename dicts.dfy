/**
 * The answers dictionary both variants accumulate (`session["data"]`,
 * `st.session_state.data`): a Python dict from field name to value, which
 * keeps its keys in insertion order.
 */
module Dicts {
  import opened Wrappers
  import opened PyValues

  /** Entries in insertion order. */
  type Dict = seq<(string, Value)>

  function Keys(d: Dict): seq<string> {
    seq(|d|, i requires 0 <= i < |d| => d[i].0)
  }

  lemma KeysOfStore(d: Dict, i: nat, e: (string, Value))
    requires i <= |d|
    ensures i < |d| && e.0 == d[i].0 ==> Keys(d[i := e]) == Keys(d)
    ensures i == |d| ==> Keys(d + [e]) == Keys(d) + [e.0]
  {
    if i < |d| && e.0 == d[i].0 {
      assert forall j :: 0 <= j < |d| ==> Keys(d[i := e])[j] == Keys(d)[j];
    }
    if i == |d| {
      assert forall j :: 0 <= j <= |d| ==> Keys(d + [e])[j] == (Keys(d) + [e.0])[j];
    }
  }

  predicate DistinctKeys(d: Dict) {
    forall i, j :: 0 <= i < j < |d| ==> d[i].0 != d[j].0
  }

  /** The position of the entry with key `k`, or |d| when there is none. */
  function Find(d: Dict, k: string): (i: nat)
    ensures i <= |d|
    ensures i < |d| ==> d[i].0 == k
    ensures forall j :: 0 <= j < i ==> d[j].0 != k
  {
    if d == [] then 0 else if d[0].0 == k then 0 else 1 + Find(d[1..], k)
  }

  /** `d.get(k)`: None where `d[k]` raises KeyError. */
  function Get(d: Dict, k: string): (r: Option<Value>)
    ensures r.Some? <==> k in Keys(d)
    ensures r.Some? ==> r.value == d[Find(d, k)].1
  {
    var i := Find(d, k);
    if i < |d| then
      assert Keys(d)[i] == k;
      Some(d[i].1)
    else
      assert forall j :: 0 <= j < |d| ==> Keys(d)[j] != k;
      None
  }

  /** Find is the first position holding `k`: any position with that
      property is the one Find returns. */
  lemma {:induction false} FindIsFirst(d: Dict, k: string, i: nat)
    requires i <= |d|
    requires i < |d| ==> d[i].0 == k
    requires forall j :: 0 <= j < i ==> d[j].0 != k
    ensures Find(d, k) == i
  {
    if d != [] && d[0].0 != k {
      FindIsFirst(d[1..], k, i - 1);
    }
  }

  /** `d[k] = v`: an existing key keeps its position and takes the new value;
      a new key goes at the end. */
  function Put(d: Dict, k: string, v: Value): (r: Dict)
    ensures Find(d, k) < |d| ==> r == d[Find(d, k) := (k, v)]
    ensures Find(d, k) == |d| ==> r == d + [(k, v)]
  {
    if d == [] then [(k, v)]
    else if d[0].0 == k then [(k, v)] + d[1..]
    else [d[0]] + Put(d[1..], k, v)
  }

  /** After `d[k] = v`, `d[k]` is `v`. */
  lemma PutReadsNew(d: Dict, k: string, v: Value)
    ensures Get(Put(d, k, v), k) == Some(v)
  {
    FindIsFirst(Put(d, k, v), k, Find(d, k));
  }

  /** After `d[k] = v`, every other key reads as before. */
  lemma PutReadsOthers(d: Dict, k: string, v: Value, k': string)
    requires k' != k
    ensures Get(Put(d, k, v), k') == Get(d, k')
  {
    var j := Find(d, k');
    if j < |d| {
      FindIsFirst(Put(d, k, v), k', j);
    } else {
      FindIsFirst(Put(d, k, v), k', |Put(d, k, v)|);
    }
  }

  /** After `d[k] = v`, the keys are the old ones in the old order, with `k`
      appended when it was new. */
  lemma PutKeys(d: Dict, k: string, v: Value)
    ensures Keys(Put(d, k, v)) == if k in Keys(d) then Keys(d) else Keys(d) + [k]
  {
    var i := Find(d, k);
    if i < |d| {
      assert Keys(d)[i] == k;
      KeysOfStore(d, i, (k, v));
    } else {
      assert forall j :: 0 <= j < |d| ==> Keys(d)[j] != k;
      KeysOfStore(d, i, (k, v));
    }
  }

  /** After `d[k] = v`, `d[k]` is `v`, every other key reads as before, and the
      keys are the old ones, with `k` appended when it was new. */
  lemma PutGet(d: Dict, k: string, v: Value)
    ensures Get(Put(d, k, v), k) == Some(v)
    ensures forall k' :: k' != k ==> Get(Put(d, k, v), k') == Get(d, k')
    ensures Keys(Put(d, k, v)) == if k in Keys(d) then Keys(d) else Keys(d) + [k]
  {
    PutReadsNew(d, k, v);
    forall k' | k' != k
      ensures Get(Put(d, k, v), k') == Get(d, k')
    {
      PutReadsOthers(d, k, v, k');
    }
    PutKeys(d, k, v);
  }

  /** Putting keeps keys distinct. */
  lemma PutDistinct(d: Dict, k: string, v: Value)
    requires DistinctKeys(d)
    ensures DistinctKeys(Put(d, k, v))
  {
  }
}
