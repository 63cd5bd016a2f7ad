/** The storage-backed replay after lag. */
module InboundReplay {
  // The storage-backed replay after broadcast lag: walk the newest rows, skip
  // what the cursor remembers, project the rest, record and return it.

  import opened BoundedFifo
  import opened DeliveredCursor

  type Cursor = seq<Slot<RowId, ()>>

  /** What projecting a stored row yields at this moment. */
  datatype Projection = Event | Nothing | Error

  datatype RowRead = RowRead(id: RowId, projection: Projection)

  /** `events` are the ids recorded and collected so far; an error ends the walk. */
  datatype Replayed = Replayed(cursor: Cursor, events: seq<RowId>, ok: bool)

  ghost function VisitRow(r: Replayed, cap: nat, row: RowRead): Replayed {
    if !r.ok || HasKey(r.cursor, row.id) then r
    else match row.projection
      case Error => r.(ok := false)
      case Nothing => r
      case Event => Replayed(Put(r.cursor, cap, Slot(row.id, ())), r.events + [row.id], true)
  }

  ghost function Replay(cursor: Cursor, cap: nat, page: seq<RowRead>): Replayed {
    if page == [] then Replayed(cursor, [], true)
    else VisitRow(Replay(cursor, cap, page[..|page| - 1]), cap, page[|page| - 1])
  }

  /** `replay_missed_inbound` for one account: on success the collected events,
      on a failed projection nothing, though the ids recorded so far stay in
      the cursor. */
  method ReplayMissedInbound(delivered: DeliveredInboundCursor, page: seq<RowRead>) returns (events: Option<seq<RowId>>)
    requires delivered.Valid()
    modifies delivered
    ensures delivered.Valid()
    ensures var r := Replay(old(delivered.Window()), delivered.capacity, page);
            delivered.Window() == r.cursor && events == if r.ok then Some(r.events) else None
  {
    ghost var start := delivered.Window();
    var collected := [];
    for n := 0 to |page|
      invariant delivered.Valid()
      invariant Replay(start, delivered.capacity, page[..n]) == Replayed(delivered.Window(), collected, true)
    {
      ghost var soFar := page[..n + 1];
      assert soFar[..n] == page[..n];
      var row := page[n];
      if delivered.Contains(row.id) {
        continue;
      }
      match row.projection
      case Error =>
        ReplayStopsAtError(start, delivered.capacity, page, n + 1);
        return None;
      case Nothing =>
      case Event =>
        delivered.Record(row.id);
        collected := collected + [row.id];
    }
    assert page[..|page|] == page;
    return Some(collected);
  }

  lemma {:induction false} ReplayStopsAtError(cursor: Cursor, cap: nat, page: seq<RowRead>, n: nat)
    requires n <= |page| && !Replay(cursor, cap, page[..n]).ok
    ensures Replay(cursor, cap, page) == Replay(cursor, cap, page[..n])
  {
    if n == |page| {
      assert page[..n] == page;
    } else {
      var shorter := page[..|page| - 1];
      assert shorter[..n] == page[..n];
      ReplayStopsAtError(cursor, cap, shorter, n);
    }
  }

  /** A successful replay leaves no projecting row behind: each is returned or
      was in the cursor before. */
  lemma {:induction false} SuccessfulReplayMissesNothing(cursor: Cursor, cap: nat, page: seq<RowRead>, k: nat)
    requires cap > 0 && Wellformed(cursor, cap) && Replay(cursor, cap, page).ok
    requires k < |page| && !page[k].projection.Nothing?
    ensures page[k].id in Replay(cursor, cap, page).events || HasKey(cursor, page[k].id)
  {
    var init := page[..|page| - 1];
    var r := Replay(cursor, cap, init);
    if k < |init| {
      SuccessfulReplayMissesNothing(cursor, cap, init, k);
    } else if HasKey(r.cursor, page[k].id) {
      ReplayedIdsAreKnown(cursor, cap, init, page[k].id);
    }
  }

  /** Whatever is in the cursor afterwards was there before or was collected. */
  lemma {:induction false} ReplayedIdsAreKnown(cursor: Cursor, cap: nat, page: seq<RowRead>, id: RowId)
    requires HasKey(Replay(cursor, cap, page).cursor, id)
    ensures id in Replay(cursor, cap, page).events || HasKey(cursor, id)
  {
    if page != [] {
      var row := page[|page| - 1];
      var before := Replay(cursor, cap, page[..|page| - 1]);
      var after := VisitRow(before, cap, row);
      if after.cursor != before.cursor {
        var i :| 0 <= i < |after.cursor| && after.cursor[i].key == id;
        if i == |after.cursor| - 1 {
          assert id == row.id;
          assert after.events[|after.events| - 1] == id;
        } else {
          assert after.cursor[i] in before.cursor;
          ReplayedIdsAreKnown(cursor, cap, page[..|page| - 1], id);
        }
      } else {
        ReplayedIdsAreKnown(cursor, cap, page[..|page| - 1], id);
      }
    }
  }

  lemma {:induction false} ReplayKeepsWellformed(cursor: Cursor, cap: nat, page: seq<RowRead>)
    requires cap > 0 && Wellformed(cursor, cap)
    ensures Wellformed(Replay(cursor, cap, page).cursor, cap)
  {
    if page != [] {
      ReplayKeepsWellformed(cursor, cap, page[..|page| - 1]);
      PutKeepsWellformed(Replay(cursor, cap, page[..|page| - 1]).cursor, cap, Slot(page[|page| - 1].id, ()));
    }
  }

  // ------------------------------------------------- a replay and its window

  ghost function Ids(page: seq<RowRead>): set<RowId> {
    set i | 0 <= i < |page| :: page[i].id
  }

  /** In the cursor's order, ids outside `ids` come before ids inside. */
  ghost predicate OutsideFirst(cursor: Cursor, ids: set<RowId>) {
    forall i, j :: 0 <= i < j < |cursor| && cursor[i].key in ids ==> cursor[j].key in ids
  }

  ghost function Keys(cursor: Cursor): set<RowId> {
    set i | 0 <= i < |cursor| :: cursor[i].key
  }

  lemma {:induction false} KeysCount(cursor: Cursor)
    requires DistinctKeys(cursor)
    ensures |Keys(cursor)| == |cursor|
  {
    if cursor != [] {
      var init := cursor[..|cursor| - 1];
      KeysCount(init);
      assert Keys(cursor) == Keys(init) + {cursor[|cursor| - 1].key};
    }
  }

  lemma {:induction false} IdsCount(page: seq<RowRead>)
    ensures |Ids(page)| <= |page|
  {
    if page != [] {
      var init := page[..|page| - 1];
      IdsCount(init);
      assert Ids(page) == Ids(init) + {page[|page| - 1].id};
    }
  }

  lemma SubsetCount(a: set<RowId>, b: set<RowId>)
    requires a <= b
    ensures |a| <= |b|
  {
    assert b == a + (b - a);
  }

  /** A full cursor that does not know one of the ids has room to give among
      the ids outside, and those come first. */
  lemma OldestIsOutside(cursor: Cursor, cap: nat, ids: set<RowId>, id: RowId)
    requires 0 < cap <= |cursor| && DistinctKeys(cursor) && OutsideFirst(cursor, ids)
    requires |ids| <= cap && id in ids && !HasKey(cursor, id)
    ensures cursor[0].key !in ids
  {
    if cursor[0].key in ids {
      KeysCount(cursor);
      assert Keys(cursor) <= ids - {id};
      SubsetCount(Keys(cursor), ids - {id});
      assert false;
    }
  }

  lemma RecordKeepsInside(cursor: Cursor, cap: nat, ids: set<RowId>, id: RowId)
    requires cap > 0 && Wellformed(cursor, cap) && OutsideFirst(cursor, ids)
    requires |ids| <= cap && id in ids && !HasKey(cursor, id)
    ensures OutsideFirst(Put(cursor, cap, Slot(id, ())), ids)
    ensures forall k :: k in ids && HasKey(cursor, k) ==> HasKey(Put(cursor, cap, Slot(id, ())), k)
  {
    var after := Put(cursor, cap, Slot(id, ()));
    if |cursor| >= cap { OldestIsOutside(cursor, cap, ids, id); }
    forall k | k in ids && HasKey(cursor, k) ensures HasKey(after, k) {
      var i :| 0 <= i < |cursor| && cursor[i].key == k;
      PutKeepsRetainedValue(cursor, cap, Slot(id, ()), i);
    }
  }

  /** What a replay over at most `cap` rows does when the cursor lists outside
      ids first: no id of its rows is ever evicted, so it returns exactly the
      projecting rows the cursor did not know, each once and in order. */
  ghost predicate CleanReplay(cursor: Cursor, cap: nat, ids: set<RowId>, page: seq<RowRead>) {
    var r := Replay(cursor, cap, page);
    && OutsideFirst(r.cursor, ids)
    && (forall k :: k in ids && HasKey(cursor, k) ==> HasKey(r.cursor, k))
    && (forall i :: 0 <= i < |page| && !page[i].projection.Nothing? && r.ok ==> HasKey(r.cursor, page[i].id))
    && (r.ok ==> r.events == Unseen(cursor, page))
  }

  ghost function Unseen(cursor: Cursor, page: seq<RowRead>): seq<RowId> {
    if page == [] then []
    else
      var row := page[|page| - 1];
      var before := Unseen(cursor, page[..|page| - 1]);
      if row.projection.Event? && !HasKey(cursor, row.id) then before + [row.id] else before
  }

  ghost predicate DistinctIds(page: seq<RowRead>) {
    forall i, j :: 0 <= i < j < |page| ==> page[i].id != page[j].id
  }

  lemma {:induction false} UnseenIsRead(cursor: Cursor, page: seq<RowRead>, id: RowId)
    requires id in Unseen(cursor, page)
    ensures exists i :: 0 <= i < |page| && page[i].id == id
  {
    var n := |page| - 1;
    if id == page[n].id {
    } else {
      UnseenIsRead(cursor, page[..n], id);
      var i :| 0 <= i < n && page[..n][i].id == id;
      assert page[i].id == id;
    }
  }

  lemma {:induction false} ReplayIsClean(cursor: Cursor, cap: nat, ids: set<RowId>, page: seq<RowRead>)
    requires cap > 0 && Wellformed(cursor, cap) && OutsideFirst(cursor, ids)
    requires |ids| <= cap && Ids(page) <= ids && DistinctIds(page)
    ensures CleanReplay(cursor, cap, ids, page)
  {
    if page != [] {
      var init, row := page[..|page| - 1], page[|page| - 1];
      assert Ids(init) <= Ids(page);
      ReplayIsClean(cursor, cap, ids, init);
      ReplayKeepsWellformed(cursor, cap, init);
      var r := Replay(cursor, cap, init);
      assert row.id in Ids(page);
      if r.ok && !HasKey(r.cursor, row.id) && row.projection.Event? {
        RecordKeepsInside(r.cursor, cap, ids, row.id);
        PutKeepsWellformed(r.cursor, cap, Slot(row.id, ()));
      }
      if r.ok && HasKey(r.cursor, row.id) && !HasKey(cursor, row.id) {
        ReplayedIdsAreKnown(cursor, cap, init, row.id);
        UnseenIsRead(cursor, init, row.id);
      }
    }
  }

  /** An immediate second replay of the same rows returns nothing. */
  lemma {:induction false} SecondReplayIsEmpty(cursor: Cursor, cap: nat, page: seq<RowRead>, n: nat)
    requires cap > 0 && Wellformed(cursor, cap) && |page| <= cap && DistinctIds(page) && n <= |page|
    requires OutsideFirst(cursor, Ids(page)) && Replay(cursor, cap, page).ok
    ensures Replay(Replay(cursor, cap, page).cursor, cap, page[..n]) == Replayed(Replay(cursor, cap, page).cursor, [], true)
  {
    IdsCount(page);
    ReplayIsClean(cursor, cap, Ids(page), page);
    if n > 0 {
      SecondReplayIsEmpty(cursor, cap, page, n - 1);
      assert page[..n][..n - 1] == page[..n - 1];
    }
  }

  /** The cursor's ids are rows of `stored` in replay order: `at[i]` is where
      the i-th id comes in it. */
  ghost predicate InReplayOrder(cursor: Cursor, stored: seq<RowId>, at: seq<nat>) {
    && |at| == |cursor|
    && (forall i :: 0 <= i < |at| ==> at[i] < |stored| && stored[at[i]] == cursor[i].key)
    && (forall i, j :: 0 <= i < j < |at| ==> at[i] < at[j])
  }

  /** Deliveries in replay order put everything older than a suffix of the
      rows before everything inside it. */
  lemma ReplayOrderIsOutsideFirst(cursor: Cursor, stored: seq<RowId>, at: seq<nat>, page: seq<RowRead>)
    requires InReplayOrder(cursor, stored, at)
    requires forall i, j :: 0 <= i < j < |stored| ==> stored[i] != stored[j]
    requires |page| <= |stored| && forall i :: 0 <= i < |page| ==> page[i].id == stored[|stored| - |page| + i]
    ensures OutsideFirst(cursor, Ids(page)) && DistinctIds(page)
  {
    forall i, j | 0 <= i < j < |cursor| && cursor[i].key in Ids(page) ensures cursor[j].key in Ids(page) {
      var k :| 0 <= k < |page| && page[k].id == cursor[i].key;
      assert at[i] == |stored| - |page| + k;
      assert page[at[j] - (|stored| - |page|)].id == cursor[j].key;
    }
  }

  // ------------------------------------ when a replay repeats nothing, exactly

  ghost function Slots(ids: seq<RowId>): seq<Slot<RowId, ()>> {
    seq(|ids|, i requires 0 <= i < |ids| => Slot(ids[i], ()))
  }

  /** Each of the first `n` rows that the cursor knows is reached while the
      cursor still holds it: the unseen rows before it do not push it out. */
  ghost predicate ReachedInTime(cursor: Cursor, cap: nat, page: seq<RowRead>, n: nat)
    requires n <= |page|
  {
    forall k, i :: 0 <= k < n && 0 <= i < |cursor| && page[k].projection.Event? && cursor[i].key == page[k].id ==>
      |cursor| + |Unseen(cursor, page[..k])| <= cap + i
  }

  lemma {:induction false} UnseenIsNew(cursor: Cursor, page: seq<RowRead>, id: RowId)
    requires id in Unseen(cursor, page)
    ensures !HasKey(cursor, id)
  {
    var n := |page| - 1;
    if id in Unseen(cursor, page[..n]) { UnseenIsNew(cursor, page[..n], id); }
  }

  lemma {:induction false} ReplayGrows(cursor: Cursor, cap: nat, page: seq<RowRead>, n: nat)
    requires n <= |page|
    ensures Replay(cursor, cap, page[..n]).events <= Replay(cursor, cap, page).events
    ensures Replay(cursor, cap, page).ok ==> Replay(cursor, cap, page[..n]).ok
  {
    if n == |page| {
      assert page[..n] == page;
    } else {
      var init := page[..|page| - 1];
      assert init[..n] == page[..n];
      ReplayGrows(cursor, cap, init, n);
    }
  }

  /** The last `cap` of a record hold a key found once, at `i`, if and only if
      they reach back to it. */
  lemma InLastIffRecent(w: Cursor, cap: nat, i: nat)
    requires i < |w| && forall j :: 0 <= j < |w| && j != i ==> w[j].key != w[i].key
    ensures HasKey(Last(cap, w), w[i].key) <==> |w| - i <= cap
  {
    var last := Last(cap, w);
    assert forall j :: 0 <= j < |last| ==> last[j] == w[|w| - |last| + j];
    if |w| - i <= cap { assert last[i - (|w| - |last|)] == w[i]; }
  }

  /** A row the cursor knew and the walk reached with `unseen` rows recorded. */
  lemma KnownIsHeldIffRecent(cursor: Cursor, cap: nat, unseen: seq<RowId>, i: nat)
    requires DistinctKeys(cursor) && i < |cursor| && cursor[i].key !in unseen
    ensures HasKey(Last(cap, cursor + Slots(unseen)), cursor[i].key) <==> |cursor| + |unseen| <= cap + i
  {
    var w := cursor + Slots(unseen);
    forall j | 0 <= j < |w| && j != i ensures w[j].key != w[i].key {
      if j >= |cursor| { assert w[j].key == unseen[j - |cursor|]; }
    }
    InLastIffRecent(w, cap, i);
  }

  lemma NewIsNotHeld(cursor: Cursor, cap: nat, unseen: seq<RowId>, id: RowId)
    requires !HasKey(cursor, id) && id !in unseen
    ensures !HasKey(Last(cap, cursor + Slots(unseen)), id)
  {
    var w := cursor + Slots(unseen);
    forall j | 0 <= j < |w| ensures w[j].key != id {
      if j >= |cursor| { assert w[j].key == unseen[j - |cursor|]; }
    }
  }

  /** The replay so far repeated nothing, and its cursor is the last `cap` of
      the old cursor followed by the unseen rows. */
  ghost predicate Exact(r: Replayed, cursor: Cursor, cap: nat, unseen: seq<RowId>) {
    r.ok && r.events == unseen && r.cursor == Last(cap, cursor + Slots(unseen))
  }

  lemma RecordStaysExact(r: Replayed, cursor: Cursor, cap: nat, unseen: seq<RowId>, row: RowRead)
    requires cap > 0 && Exact(r, cursor, cap, unseen) && !HasKey(cursor, row.id) && row.id !in unseen && row.projection.Event?
    ensures Exact(VisitRow(r, cap, row), cursor, cap, unseen + [row.id])
  {
    NewIsNotHeld(cursor, cap, unseen, row.id);
    LastAfterAppend(cap, cursor + Slots(unseen), Slot(row.id, ()));
    assert cursor + Slots(unseen + [row.id]) == cursor + Slots(unseen) + [Slot(row.id, ())];
  }

  lemma PrefixIdsDiffer(cursor: Cursor, page: seq<RowRead>, k: nat)
    requires DistinctIds(page) && k < |page|
    ensures page[k].id !in Unseen(cursor, page[..k])
  {
    if page[k].id in Unseen(cursor, page[..k]) {
      UnseenIsRead(cursor, page[..k], page[k].id);
    }
  }

  lemma {:induction false} ReachedInTimeIsExact(cursor: Cursor, cap: nat, page: seq<RowRead>, n: nat)
    requires cap > 0 && Wellformed(cursor, cap) && DistinctIds(page) && Replay(cursor, cap, page).ok
    requires n <= |page| && ReachedInTime(cursor, cap, page, n)
    ensures Exact(Replay(cursor, cap, page[..n]), cursor, cap, Unseen(cursor, page[..n]))
  {
    if n == 0 {
      assert Slots([]) == [];
    } else {
      ReachedInTimeIsExact(cursor, cap, page, n - 1);
      ReplayGrows(cursor, cap, page, n);
      PrefixIdsDiffer(cursor, page, n - 1);
      assert page[..n][..n - 1] == page[..n - 1];
      var (row, unseen) := (page[n - 1], Unseen(cursor, page[..n - 1]));
      if HasKey(cursor, row.id) {
        var i :| 0 <= i < |cursor| && cursor[i].key == row.id;
        KnownIsHeldIffRecent(cursor, cap, unseen, i);
      } else if row.projection.Event? {
        RecordStaysExact(Replay(cursor, cap, page[..n - 1]), cursor, cap, unseen, row);
      }
    }
  }

  /** The first known row that is not reached in time is returned again. */
  lemma ReachedLateIsRepeated(cursor: Cursor, cap: nat, page: seq<RowRead>, k: nat, i: nat)
    requires cap > 0 && Wellformed(cursor, cap) && DistinctIds(page) && Replay(cursor, cap, page).ok
    requires k < |page| && ReachedInTime(cursor, cap, page, k)
    requires i < |cursor| && page[k].projection.Event? && cursor[i].key == page[k].id
    requires |cursor| + |Unseen(cursor, page[..k])| > cap + i
    ensures page[k].id in Replay(cursor, cap, page).events
  {
    ReachedInTimeIsExact(cursor, cap, page, k);
    PrefixIdsDiffer(cursor, page, k);
    KnownIsHeldIffRecent(cursor, cap, Unseen(cursor, page[..k]), i);
    ReplayGrows(cursor, cap, page, k + 1);
    assert page[..k + 1][..k] == page[..k];
    var so := Replay(cursor, cap, page[..k + 1]);
    assert so.events[|so.events| - 1] == page[k].id;
  }

  /** Either every known row is reached in time, or some is returned again. */
  lemma {:induction false} LateOrInTime(cursor: Cursor, cap: nat, page: seq<RowRead>, n: nat)
    requires cap > 0 && Wellformed(cursor, cap) && DistinctIds(page) && Replay(cursor, cap, page).ok && n <= |page|
    ensures ReachedInTime(cursor, cap, page, n) || exists id :: id in Replay(cursor, cap, page).events && HasKey(cursor, id)
  {
    if n > 0 {
      LateOrInTime(cursor, cap, page, n - 1);
      if ReachedInTime(cursor, cap, page, n - 1) && !ReachedInTime(cursor, cap, page, n) {
        var i :| 0 <= i < |cursor| && cursor[i].key == page[n - 1].id && |cursor| + |Unseen(cursor, page[..n - 1])| > cap + i;
        ReachedLateIsRepeated(cursor, cap, page, n - 1, i);
      }
    }
  }

  /** A replay returns exactly the projecting rows the cursor did not know, each
      once and in order, if and only if every row it knew is reached in time. */
  lemma {:induction false} ReplayRepeatsNothingIff(cursor: Cursor, cap: nat, page: seq<RowRead>)
    requires cap > 0 && Wellformed(cursor, cap) && DistinctIds(page) && Replay(cursor, cap, page).ok
    ensures Replay(cursor, cap, page).events == Unseen(cursor, page) <==> ReachedInTime(cursor, cap, page, |page|)
  {
    assert page[..|page|] == page;
    LateOrInTime(cursor, cap, page, |page|);
    if ReachedInTime(cursor, cap, page, |page|) {
      ReachedInTimeIsExact(cursor, cap, page, |page|);
    } else {
      var id :| id in Replay(cursor, cap, page).events && HasKey(cursor, id);
      if id in Unseen(cursor, page) { UnseenIsNew(cursor, page, id); }
    }
  }

  /** For every capacity: recording an unseen row evicts the oldest entry of a
      full cursor, and the walk then returns that entry's row again. */
  lemma EvictedRowIsRepeated(cursor: Cursor, cap: nat, a: RowId, b: RowId)
    requires cap > 0 && |cursor| == cap && Wellformed(cursor, cap) && cursor[0].key == b && !HasKey(cursor, a)
    ensures HasKey(cursor, b) && Replay(cursor, cap, [RowRead(a, Event), RowRead(b, Event)]).events == [a, b]
  {
    var page := [RowRead(a, Event), RowRead(b, Event)];
    assert page[..1] == [RowRead(a, Event)] && page[..1][..0] == [];
    var first := Replay(cursor, cap, page[..1]);
    assert first == VisitRow(Replay(cursor, cap, []), cap, RowRead(a, Event));
    assert first == Replayed(cursor[1..] + [Slot(a, ())], [a], true);
    assert a != b && !HasKey(first.cursor, b);
  }
}
