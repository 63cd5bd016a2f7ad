/** The bounded first-write-wins window. */
module BoundedFifo {
  // The bounded first-write-wins FIFO that the delivered-inbound cursor, the
  // send-idempotency store and the stream-begin receipt store all implement,
  // with an independent description of its contents: the last `cap` accepted
  // records of the whole history.

  datatype Option<+T> = None | Some(value: T)

  datatype Slot<+K, +V> = Slot(key: K, value: V)

  ghost predicate HasKey<K(!new), V(!new)>(w: seq<Slot<K, V>>, key: K) {
    exists i :: 0 <= i < |w| && w[i].key == key
  }

  ghost predicate DistinctKeys<K, V>(w: seq<Slot<K, V>>) {
    forall i, j :: 0 <= i < j < |w| ==> w[i].key != w[j].key
  }

  ghost predicate Wellformed<K, V>(w: seq<Slot<K, V>>, cap: nat) {
    |w| <= cap && DistinctKeys(w)
  }

  /** What remains of the window once room for one more record is made. */
  ghost function Room<K, V>(w: seq<Slot<K, V>>, cap: nat): seq<Slot<K, V>> {
    if |w| >= cap && |w| > 0 then w[1..] else w
  }

  /** One record operation: a known key is left alone, otherwise the oldest
      entry makes room and the new one goes to the back. */
  ghost function Put<K(!new), V(!new)>(w: seq<Slot<K, V>>, cap: nat, e: Slot<K, V>): seq<Slot<K, V>> {
    if HasKey(w, e.key) then w else Room(w, cap) + [e]
  }

  ghost function PutAll<K(!new), V(!new)>(w: seq<Slot<K, V>>, cap: nat, ops: seq<Slot<K, V>>): seq<Slot<K, V>> {
    if ops == [] then w else Put(PutAll(w, cap, ops[..|ops| - 1]), cap, ops[|ops| - 1])
  }

  ghost function Last<T>(cap: nat, s: seq<T>): seq<T> {
    if |s| <= cap then s else s[|s| - cap..]
  }

  /** The records a history accepts: those whose key is not among the `cap`
      most recently accepted ones. */
  ghost function Accepted<K(!new), V(!new)>(cap: nat, ops: seq<Slot<K, V>>): seq<Slot<K, V>> {
    if ops == [] then [] else
    var before := Accepted(cap, ops[..|ops| - 1]);
    var e := ops[|ops| - 1];
    if HasKey(Last(cap, before), e.key) then before else before + [e]
  }

  lemma PutKeepsWellformed<K(!new), V(!new)>(w: seq<Slot<K, V>>, cap: nat, e: Slot<K, V>)
    requires cap > 0 && Wellformed(w, cap)
    ensures Wellformed(Put(w, cap, e), cap)
    ensures HasKey(Put(w, cap, e), e.key)
  {
    var r := Put(w, cap, e);
    if !HasKey(w, e.key) {
      assert r[|r| - 1] == e;
    }
  }

  lemma LastAfterAppend<T>(cap: nat, s: seq<T>, e: T)
    requires cap > 0
    ensures Last(cap, s + [e]) == (if |Last(cap, s)| >= cap then Last(cap, s)[1..] else Last(cap, s)) + [e]
  {
  }

  /** Sliding-window refinement: after any operation sequence the store holds
      exactly the last min(cap, n) accepted records, oldest first. */
  lemma {:induction false} WindowIsLastAccepted<K(!new), V(!new)>(cap: nat, ops: seq<Slot<K, V>>)
    requires cap > 0
    ensures PutAll([], cap, ops) == Last(cap, Accepted(cap, ops))
    ensures Wellformed(PutAll([], cap, ops), cap)
  {
    if ops != [] {
      var init, e := ops[..|ops| - 1], ops[|ops| - 1];
      WindowIsLastAccepted(cap, init);
      PutKeepsWellformed(PutAll([], cap, init), cap, e);
      LastAfterAppend(cap, Accepted(cap, init), e);
    }
  }

  /** Within any stretch of `cap` + 1 consecutive accepted records all keys
      differ: a key comes back only after a full turnover of the window. */
  lemma {:induction false} RepeatsNeedTurnover<K(!new), V(!new)>(cap: nat, ops: seq<Slot<K, V>>, i: nat, j: nat)
    requires cap > 0
    requires i < j < |Accepted(cap, ops)| && j - i <= cap
    ensures Accepted(cap, ops)[i].key != Accepted(cap, ops)[j].key
  {
    var init, e := ops[..|ops| - 1], ops[|ops| - 1];
    var before := Accepted(cap, init);
    if j < |before| {
      RepeatsNeedTurnover(cap, init, i, j);
    } else {
      var tail := Last(cap, before);
      assert tail[i - (|before| - |tail|)] == before[i];
    }
  }

  /** Two acceptances of one key are separated by at least `cap` accepted
      records, the first `cap` of which carry pairwise different keys, all of
      them different from that key. */
  lemma ReacceptedOnlyAfterCapacityOthers<K(!new), V(!new)>(cap: nat, ops: seq<Slot<K, V>>, i: nat, j: nat)
    requires cap > 0
    requires i < j < |Accepted(cap, ops)|
    requires Accepted(cap, ops)[i].key == Accepted(cap, ops)[j].key
    ensures j - i - 1 >= cap
    ensures forall a, b :: i <= a < b <= i + cap ==> Accepted(cap, ops)[a].key != Accepted(cap, ops)[b].key
  {
    if j - i <= cap { RepeatsNeedTurnover(cap, ops, i, j); assert false; }
    forall a, b | i <= a < b <= i + cap
      ensures Accepted(cap, ops)[a].key != Accepted(cap, ops)[b].key
    {
      RepeatsNeedTurnover(cap, ops, a, b);
    }
  }

  /** First write wins: while an entry stays in the window no later record
      changes its value. */
  lemma PutKeepsRetainedValue<K(!new), V(!new)>(w: seq<Slot<K, V>>, cap: nat, e: Slot<K, V>, i: nat)
    requires cap > 0 && Wellformed(w, cap) && i < |w|
    ensures !HasKey(Put(w, cap, e), w[i].key) || w[i] in Put(w, cap, e)
    ensures HasKey(Put(w, cap, e), w[i].key) <==> HasKey(w, e.key) || |w| < cap || i > 0
  {
    var r := Put(w, cap, e);
    if !HasKey(w, e.key) {
      var room := Room(w, cap);
      if |w| >= cap {
        if i > 0 { assert r[i - 1] == w[i]; }
        else { forall k | 0 <= k < |r| ensures r[k].key != w[0].key {} }
      } else {
        assert r[i] == w[i];
      }
    } else {
      assert r[i] == w[i];
    }
  }

  // ------------------------------------------------- the stores' representation

  /** How the stores keep a window: a queue of keys and a map with the same keys. */
  ghost predicate Represents<K, V>(order: seq<K>, m: map<K, V>) {
    && (forall i, j :: 0 <= i < j < |order| ==> order[i] != order[j])
    && m.Keys == set k | k in order
  }

  ghost function Contents<K, V>(order: seq<K>, m: map<K, V>): (w: seq<Slot<K, V>>)
    requires Represents(order, m)
    ensures |w| == |order| && DistinctKeys(w)
    ensures forall i :: 0 <= i < |w| ==> w[i] == Slot(order[i], m[order[i]])
  {
    seq(|order|, i requires 0 <= i < |order| => Slot(order[i], m[order[i]]))
  }

  lemma ContentsKeys<K(!new), V(!new)>(order: seq<K>, m: map<K, V>, key: K)
    requires Represents(order, m)
    ensures HasKey(Contents(order, m), key) <==> key in m
    ensures key in m ==> Slot(key, m[key]) in Contents(order, m)
  {
    if key in m {
      var i :| 0 <= i < |order| && order[i] == key;
      assert Contents(order, m)[i] == Slot(key, m[key]);
    }
  }

  /** Popping the oldest key, dropping it from the map, and appending the new
      one is exactly one `Put`. */
  lemma RepresentsPut<K(!new), V(!new)>(order: seq<K>, m: map<K, V>, cap: nat, key: K, value: V, order': seq<K>, m': map<K, V>)
    requires Represents(order, m) && key !in m
    requires order' == (if |order| >= cap && |order| > 0 then order[1..] else order) + [key]
    requires m' == (if |order| >= cap && |order| > 0 then m - {order[0]} else m)[key := value]
    ensures Represents(order', m')
    ensures Contents(order', m') == Put(Contents(order, m), cap, Slot(key, value))
  {
    ContentsKeys(order, m, key);
    assert m'.Keys == set k | k in order' by {
      forall k ensures k in m' <==> k in order' {
        if k in order && k != order[0] { var i :| 0 <= i < |order| && order[i] == k; assert k == order[1..][i - 1]; }
        if k in order' && k != key { assert k in order; }
        assert order'[|order'| - 1] == key;
        if |order| > 0 && (|order| < cap) && k == order[0] { assert order'[0] == k; }
      }
    }
    assert Contents(order', m') == Room(Contents(order, m), cap) + [Slot(key, value)];
  }

  /** Loading a saved well-formed window entry by entry gives it back. */
  lemma {:induction false} ReplayOfWindowIsIdentity<K(!new), V(!new)>(w: seq<Slot<K, V>>, cap: nat, n: nat)
    requires Wellformed(w, cap) && n <= |w|
    ensures PutAll([], cap, w[..n]) == w[..n]
  {
    if n > 0 {
      ReplayOfWindowIsIdentity(w, cap, n - 1);
      assert w[..n][..n - 1] == w[..n - 1];
      assert w[..n] == w[..n - 1] + [w[n - 1]];
    }
  }
}
