/** Histories of issued and evicted receipts. */
module ReceiptLog {
  // Histories of issued and evicted receipts, and whether the last receipt of a
  // key is still out.

  datatype Event<+K> = Issue(key: K) | Evict(key: K)

  /** The last thing that happened to `key` is that a receipt was issued. */
  ghost predicate Outstanding<K>(log: seq<Event<K>>, key: K) {
    log != [] &&
    var e := log[|log| - 1];
    if e.key == key then e.Issue? else Outstanding(log[..|log| - 1], key)
  }

  lemma OutstandingAppend<K>(log: seq<Event<K>>, e: Event<K>, key: K)
    ensures Outstanding(log + [e], key) <==> if e.key == key then e.Issue? else Outstanding(log, key)
  {
    assert (log + [e])[..|log|] == log;
  }
}
