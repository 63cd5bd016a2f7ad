/** The order in which storage replays rows. */
module RowOrder {
  // Stored rows in the order of the replay query: the sender's timestamp, then
  // the id, then the order of storing. A bounded replay reads the last rows of
  // that order, whenever they were stored.

  import opened DeliveredCursor
  import opened SortedNames
  import opened BoundedFifo

  /** A durable row in the subscription's scope, the time its sender gave it,
      and whether it projects to a control event. */
  datatype Row = Row(id: RowId, time: nat, projects: bool)

  ghost predicate Earlier(rows: seq<Row>, i: nat, j: nat)
    requires i < |rows| && j < |rows|
  {
    var (a, b) := (rows[i], rows[j]);
    a.time < b.time || (a.time == b.time && (Before(a.id.hex, b.id.hex) || (a.id == b.id && i < j)))
  }

  lemma EarlierIsStrict(rows: seq<Row>, i: nat)
    requires i < |rows|
    ensures !Earlier(rows, i, i)
  {
    BeforeIsStrict(rows[i].id.hex);
  }

  lemma EarlierIsTotal(rows: seq<Row>, i: nat, j: nat)
    requires i < |rows| && j < |rows| && i != j
    ensures Earlier(rows, i, j) || Earlier(rows, j, i)
  {
    BeforeIsTotal(rows[i].id.hex, rows[j].id.hex);
  }

  lemma EarlierIsTransitive(rows: seq<Row>, i: nat, j: nat, k: nat)
    requires i < |rows| && j < |rows| && k < |rows| && Earlier(rows, i, j) && Earlier(rows, j, k)
    ensures Earlier(rows, i, k)
  {
    var (a, b, c) := (rows[i].id.hex, rows[j].id.hex, rows[k].id.hex);
    if Before(a, b) && Before(b, c) { BeforeIsTransitive(a, b, c); }
  }

  ghost predicate Indexes(order: seq<nat>, n: nat) {
    forall k :: 0 <= k < |order| ==> order[k] < n
  }

  ghost predicate Increases(rows: seq<Row>, order: seq<nat>)
    requires Indexes(order, |rows|)
  {
    forall k, l :: 0 <= k < l < |order| ==> Earlier(rows, order[k], order[l])
  }

  ghost function Place(rows: seq<Row>, i: nat, order: seq<nat>): (r: seq<nat>)
    requires i < |rows| && Indexes(order, |rows|)
    ensures |r| == |order| + 1 && Indexes(r, |rows|)
  {
    var n := |order| - 1;
    if n < 0 || Earlier(rows, order[n], i) then order + [i] else Place(rows, i, order[..n]) + [order[n]]
  }

  /** The first `n` stored rows in replay order. */
  ghost function Ordered(rows: seq<Row>, n: nat): (r: seq<nat>)
    requires n <= |rows|
    ensures |r| == n && Indexes(r, |rows|)
  {
    if n == 0 then [] else Place(rows, n - 1, Ordered(rows, n - 1))
  }

  lemma {:induction false} PlaceAddsOne(rows: seq<Row>, i: nat, order: seq<nat>, x: nat)
    requires i < |rows| && Indexes(order, |rows|)
    ensures x in Place(rows, i, order) <==> x == i || x in order
  {
    var n := |order| - 1;
    if n >= 0 && !Earlier(rows, order[n], i) {
      PlaceAddsOne(rows, i, order[..n], x);
      assert order == order[..n] + [order[n]];
    }
  }

  lemma AppendIncreases(rows: seq<Row>, order: seq<nat>, i: nat)
    requires Indexes(order, |rows|) && Increases(rows, order) && i < |rows|
    requires forall k :: 0 <= k < |order| ==> Earlier(rows, order[k], i)
    ensures Indexes(order + [i], |rows|) && Increases(rows, order + [i])
  {
  }

  lemma {:induction false} PlaceIncreases(rows: seq<Row>, i: nat, order: seq<nat>)
    requires i < |rows| && Indexes(order, |rows|) && Increases(rows, order) && i !in order
    ensures Increases(rows, Place(rows, i, order))
  {
    var n := |order| - 1;
    if n < 0 {
    } else if Earlier(rows, order[n], i) {
      forall k | 0 <= k < |order| ensures Earlier(rows, order[k], i) {
        if k < n { EarlierIsTransitive(rows, order[k], order[n], i); }
      }
      AppendIncreases(rows, order, i);
    } else {
      var init := order[..n];
      PlaceIncreases(rows, i, init);
      var placed := Place(rows, i, init);
      assert order[n] in order;
      EarlierIsTotal(rows, order[n], i);
      forall k | 0 <= k < |placed| ensures Earlier(rows, placed[k], order[n]) {
        PlaceAddsOne(rows, i, init, placed[k]);
        if placed[k] != i { var l :| 0 <= l < n && init[l] == placed[k]; }
      }
      AppendIncreases(rows, placed, order[n]);
    }
  }

  lemma {:induction false} OrderedListsAll(rows: seq<Row>, n: nat, x: nat)
    requires n <= |rows|
    ensures x in Ordered(rows, n) <==> x < n
  {
    if n > 0 {
      OrderedListsAll(rows, n - 1, x);
      PlaceAddsOne(rows, n - 1, Ordered(rows, n - 1), x);
    }
  }

  lemma {:induction false} OrderedIncreases(rows: seq<Row>, n: nat)
    requires n <= |rows|
    ensures Increases(rows, Ordered(rows, n))
  {
    if n > 0 {
      OrderedIncreases(rows, n - 1);
      OrderedListsAll(rows, n - 1, n - 1);
      PlaceIncreases(rows, n - 1, Ordered(rows, n - 1));
    }
  }

  /** The page of a replay bounded to `cap` rows, in replay order. */
  ghost function NewestRows(rows: seq<Row>, cap: nat): (page: seq<nat>)
    ensures |page| == (if |rows| <= cap then |rows| else cap) && Indexes(page, |rows|)
  {
    var all := Ordered(rows, |rows|);
    var page := Last(cap, all);
    assert forall k :: 0 <= k < |page| ==> page[k] == all[|all| - |page| + k];
    page
  }

  /** The rows that come after `row` in replay order. */
  ghost function LaterThan(rows: seq<Row>, row: nat): set<nat>
    requires row < |rows|
  {
    set j | 0 <= j < |rows| && Earlier(rows, row, j)
  }

  ghost function Members(s: seq<nat>): set<nat> {
    set i | i in s
  }

  lemma {:induction false} MembersCount(s: seq<nat>)
    requires forall i, j :: 0 <= i < j < |s| ==> s[i] != s[j]
    ensures |Members(s)| == |s|
  {
    if s != [] {
      var n := |s| - 1;
      MembersCount(s[..n]);
      assert s == s[..n] + [s[n]];
      assert Members(s) == Members(s[..n]) + {s[n]};
    }
  }

  /** In an increasing list of all rows, those after a position are those later
      than the row there. */
  lemma LaterIsAfter(rows: seq<Row>, order: seq<nat>, p: nat)
    requires Indexes(order, |rows|) && Increases(rows, order) && p < |order|
    requires forall x: nat :: x < |rows| ==> x in order
    ensures LaterThan(rows, order[p]) == Members(order[p + 1..])
  {
    forall j | j in LaterThan(rows, order[p]) ensures j in order[p + 1..] {
      assert j in order;
      var q :| 0 <= q < |order| && order[q] == j;
      EarlierIsStrict(rows, j);
      if q < p { EarlierIsTransitive(rows, j, order[p], j); }
      assert order[p + 1..][q - p - 1] == j;
    }
  }

  lemma IncreasingIsDistinct(rows: seq<Row>, order: seq<nat>)
    requires Indexes(order, |rows|) && Increases(rows, order)
    ensures forall i, j :: 0 <= i < j < |order| ==> order[i] != order[j]
  {
    forall i, j | 0 <= i < j < |order| ensures order[i] != order[j] { EarlierIsStrict(rows, order[j]); }
  }

  lemma PositionCountsLater(rows: seq<Row>, order: seq<nat>, p: nat)
    requires Indexes(order, |rows|) && Increases(rows, order) && p < |order|
    requires forall x: nat :: x < |rows| ==> x in order
    ensures |LaterThan(rows, order[p])| == |order| - 1 - p
  {
    LaterIsAfter(rows, order, p);
    IncreasingIsDistinct(rows, order);
    MembersCount(order[p + 1..]);
  }

  /** A row is on the page if and only if fewer than `cap` rows are later. */
  lemma NewestIffFewLater(rows: seq<Row>, cap: nat, row: nat)
    requires row < |rows|
    ensures row in NewestRows(rows, cap) <==> |LaterThan(rows, row)| < cap
  {
    var all := Ordered(rows, |rows|);
    OrderedIncreases(rows, |rows|);
    forall x: nat | x < |rows| ensures x in all { OrderedListsAll(rows, |rows|, x); }
    assert row in all;
    var p :| 0 <= p < |all| && all[p] == row;
    PositionCountsLater(rows, all, p);
    IncreasingIsDistinct(rows, all);
    InLastIff(all, cap, p);
  }

  lemma InLastIff(all: seq<nat>, cap: nat, p: nat)
    requires p < |all| && forall i, j :: 0 <= i < j < |all| ==> all[i] != all[j]
    ensures all[p] in Last(cap, all) <==> |all| - 1 - p < cap
  {
    var last := Last(cap, all);
    assert forall k :: 0 <= k < |last| ==> last[k] == all[|all| - |last| + k];
    if |all| - 1 - p < cap { assert last[p - (|all| - |last|)] == all[p]; }
  }

  /** No row is read twice. */
  lemma NewestAreDistinct(rows: seq<Row>, cap: nat)
    ensures var page := NewestRows(rows, cap); forall i, j :: 0 <= i < j < |page| ==> page[i] != page[j]
  {
    var all := Ordered(rows, |rows|);
    OrderedIncreases(rows, |rows|);
    IncreasingIsDistinct(rows, all);
    var page := NewestRows(rows, cap);
    assert forall k :: 0 <= k < |page| ==> page[k] == all[|all| - |page| + k];
  }
}
