/** The idempotency store in memory and on file. */
module IdempotencyStore {
  // The in-memory side of `SendIdempotencyStore`: a queue of keys and two maps
  // updated in place, its snapshot for the disk file, and the loader.

  import opened BoundedFifo

  type Bytes = seq<bv8>

  const SEND_IDEMPOTENCY_CAPACITY: nat := 1024
  const PREVIEW_IDEMPOTENCY_CAPACITY: nat := 4096

  datatype Disposition = Ready | PostJoinRotationPendingRetryable

  datatype Receipt = Receipt(fingerprint: Bytes, ids: seq<string>, disposition: Disposition)

  /** What one key maps to, across both maps. */
  datatype Entry = Entry(receipt: Receipt, recordedAt: nat)

  datatype PersistedEntry = PersistedEntry(
    key: string, fingerprint: Bytes, ids: seq<string>, disposition: Disposition, recordedAt: nat)

  type Window = seq<Slot<string, Entry>>

  ghost function ToPersisted(w: Window): (file: seq<PersistedEntry>)
    ensures |file| == |w|
  {
    seq(|w|, i requires 0 <= i < |w| =>
      var r := w[i].value.receipt;
      PersistedEntry(w[i].key, r.fingerprint, r.ids, r.disposition, w[i].value.recordedAt))
  }

  ghost function FromPersisted(file: seq<PersistedEntry>): (ops: seq<Slot<string, Entry>>)
    ensures |ops| == |file|
  {
    seq(|file|, i requires 0 <= i < |file| => SlotOf(file[i]))
  }

  function SlotOf(e: PersistedEntry): Slot<string, Entry> {
    Slot(e.key, Entry(Receipt(e.fingerprint, e.ids, e.disposition), e.recordedAt))
  }

  /** What a store started on `file` holds. */
  ghost function Load(file: seq<PersistedEntry>): Window {
    PutAll([], SEND_IDEMPOTENCY_CAPACITY, FromPersisted(file))
  }

  /** Whatever list of entries is on disk, loading it gives a well-formed store
      holding the last accepted entries of that list. */
  lemma LoadIsWellformed(file: seq<PersistedEntry>)
    ensures Wellformed(Load(file), SEND_IDEMPOTENCY_CAPACITY)
    ensures Load(file) == Last(SEND_IDEMPOTENCY_CAPACITY, Accepted(SEND_IDEMPOTENCY_CAPACITY, FromPersisted(file)))
  {
    WindowIsLastAccepted(SEND_IDEMPOTENCY_CAPACITY, FromPersisted(file));
  }

  /** Load after persist is the identity. */
  lemma LoadAfterPersist(w: Window)
    requires Wellformed(w, SEND_IDEMPOTENCY_CAPACITY)
    ensures Load(ToPersisted(w)) == w
  {
    assert FromPersisted(ToPersisted(w)) == w;
    ReplayOfWindowIsIdentity(w, SEND_IDEMPOTENCY_CAPACITY, |w|);
    assert w[..|w|] == w;
  }

  lemma OrAccumulates(difference: bv8, l: bv8, r: bv8)
    ensures difference | (l ^ r) == 0 <==> difference == 0 && l == r
  {
  }

  /** The timing-independent comparison is plain equality. */
  method ConstantTimeEq(left: Bytes, right: Bytes) returns (equal: bool)
    ensures equal <==> left == right
  {
    var difference: bv8 := if |left| != |right| then 1 else 0;
    var length := if |left| < |right| then |right| else |left|;
    for index := 0 to length
      invariant difference == 0 ==> |left| == |right| && left[..index] == right[..index]
      invariant left == right ==> difference == 0
    {
      var leftByte: bv8 := if index < |left| then left[index] else 0;
      var rightByte: bv8 := if index < |right| then right[index] else 0;
      OrAccumulates(difference, leftByte, rightByte);
      difference := difference | (leftByte ^ rightByte);
    }
    equal := difference == 0;
  }

  ghost function Zip(seen: map<string, Receipt>, recordedAt: map<string, nat>): map<string, Entry>
    requires recordedAt.Keys == seen.Keys
  {
    map k | k in seen :: Entry(seen[k], recordedAt[k])
  }

  lemma ZipUpdate(seen: map<string, Receipt>, recordedAt: map<string, nat>, gone: set<string>, key: string, r: Receipt, at: nat)
    requires recordedAt.Keys == seen.Keys
    ensures (recordedAt - gone)[key := at].Keys == (seen - gone)[key := r].Keys
    ensures Zip((seen - gone)[key := r], (recordedAt - gone)[key := at]) == (Zip(seen, recordedAt) - gone)[key := Entry(r, at)]
  {
  }

  class SendIdempotencyStore {
    const capacity: nat
    var order: seq<string>
    var seen: map<string, Receipt>
    var recordedAt: map<string, nat>

    ghost function Entries(): map<string, Entry>
      reads this
      requires recordedAt.Keys == seen.Keys
    {
      Zip(seen, recordedAt)
    }

    ghost predicate Valid()
      reads this
    {
      && 0 < capacity && |order| <= capacity
      && recordedAt.Keys == seen.Keys
      && Represents(order, Entries())
    }

    ghost function Stored(): (w: Window)
      requires Valid()
      reads this
      ensures Wellformed(w, capacity)
    {
      Contents(order, Entries())
    }

    /** `inner_from_persisted`: replay the file entry by entry, keeping the
        first entry of a repeated key and evicting the oldest at capacity. */
    constructor FromFile(file: seq<PersistedEntry>)
      ensures Valid() && capacity == SEND_IDEMPOTENCY_CAPACITY
      ensures Stored() == Load(file)
    {
      capacity := SEND_IDEMPOTENCY_CAPACITY;
      order, seen, recordedAt := [], map[], map[];
      new;
      ghost var ops := FromPersisted(file);
      for n := 0 to |file|
        invariant Valid()
        invariant Stored() == PutAll([], capacity, ops[..n])
      {
        assert ops[..n + 1][..n] == ops[..n];
        assert ops[n] == SlotOf(file[n]);
        var e := file[n];
        var added := Record(e.key, e.fingerprint, e.ids, e.disposition, e.recordedAt);
      }
      assert ops[..|file|] == ops;
    }

    constructor ProcessLocalPreview()
      ensures Valid() && capacity == PREVIEW_IDEMPOTENCY_CAPACITY && Stored() == []
    {
      capacity := PREVIEW_IDEMPOTENCY_CAPACITY;
      order, seen, recordedAt := [], map[], map[];
    }

    /** The recorded result, for a matching fingerprint only. */
    method GetWithDisposition(key: string, fingerprint: Bytes) returns (result: Option<Receipt>)
      requires Valid()
      ensures result.Some? ==> result.value.fingerprint == fingerprint && exists at :: Slot(key, Entry(result.value, at)) in Stored()
      ensures result.None? ==> forall e :: e in Stored() && e.key == key ==> e.value.receipt.fingerprint != fingerprint
    {
      ContentsKeys(order, Entries(), key);
      result := None;
      if key in seen {
        var matches := ConstantTimeEq(seen[key].fingerprint, fingerprint);
        if matches {
          result := Some(seen[key]);
          assert Slot(key, Entry(seen[key], recordedAt[key])) in Stored();
        }
      }
    }

    /** `record_with_disposition` up to the decision to persist: one step of
        the bounded FIFO, first write wins. */
    method Record(key: string, fingerprint: Bytes, ids: seq<string>, disposition: Disposition, now: nat) returns (shouldPersist: bool)
      requires Valid()
      modifies this
      ensures Valid()
      ensures shouldPersist <==> !HasKey(old(Stored()), key)
      ensures Stored() == Put(old(Stored()), capacity, Slot(key, Entry(Receipt(fingerprint, ids, disposition), now)))
    {
      ContentsKeys(order, Entries(), key);
      if key in seen {
        return false;
      }
      ghost var receipt := Receipt(fingerprint, ids, disposition);
      ghost var before, was := Entries(), order;
      ghost var gone: set<string> := if |order| >= capacity && |order| > 0 then {order[0]} else {};
      ZipUpdate(seen, recordedAt, gone, key, receipt, now);
      assert before - {} == before && seen - {} == seen && recordedAt - {} == recordedAt;
      if |order| >= capacity && |order| > 0 {
        var evicted := order[0];
        order := order[1..];
        seen := seen - {evicted};
        recordedAt := recordedAt - {evicted};
      }
      seen := seen[key := Receipt(fingerprint, ids, disposition)];
      recordedAt := recordedAt[key := now];
      order := order + [key];
      RepresentsPut(was, before, capacity, key, Entry(receipt, now), order, Entries());
      return true;
    }

    /** The entry list `persist_to_disk` serializes. */
    method Snapshot() returns (file: seq<PersistedEntry>)
      requires Valid()
      ensures file == ToPersisted(Stored())
    {
      file := [];
      for i := 0 to |order|
        invariant file == ToPersisted(Stored())[..i]
      {
        var key := order[i];
        assert key in Entries() && Stored()[i] == Slot(key, Entries()[key]);
        if key in seen {
          var at := if key in recordedAt then recordedAt[key] else 0;
          file := file + [PersistedEntry(key, seen[key].fingerprint, seen[key].ids, seen[key].disposition, at)];
        }
      }
    }
  }
}
