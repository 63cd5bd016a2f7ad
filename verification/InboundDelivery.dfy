/** One account-scoped inbound subscription. */
module InboundDelivery {
  // One `SubscribeInbound` stream scoped to an account: storage and broadcast
  // running ahead of it, the bounded broadcast ring it may fall behind on, the
  // drain loop with its dedup cursor, and lag recovery from storage with
  // `ResyncRequired` as the fallback.

  import opened BoundedFifo
  import opened DeliveredCursor
  import opened InboundReplay
  import opened RowOrder

  datatype Broadcast =
    | Durable(row: nat)   // a chat, edit, reaction, delete or group-state fact, stored before it is sent
    | Ambient             // in scope, without a durable row
    | Foreign             // out of scope, or without a control event

  /** `op` is the position of the fact's id among all ids ever recorded. */
  datatype Frame = Fact(id: RowId, op: nat) | Notice | Resync(dropped: nat)

  /** A frame on the wire, and how many rows were stored when it was written. */
  datatype Written = Written(frame: Frame, stored: nat)

  datatype Pc =
    | Draining
    | Lagging(from: nat, dropped: nat)   // the ring reported a lag, the storage query is next
    | Writing(queue: seq<Frame>)
    | Closed

  datatype State = State(
    ring: nat,
    cap: nat,
    rows: seq<Row>,
    sent: seq<Broadcast>,
    next: nat,
    cursor: Cursor,
    ops: seq<Slot<RowId, ()>>,
    pc: Pc,
    out: seq<Written>)

  datatype Step =
    | Store(row: Row)
    | Send(b: Broadcast)
    | Receive(projection: Projection)
    | Recover(available: bool, projections: seq<Projection>)
    | DebugInject(id: RowId)
    | Write
    | Disconnect

  ghost function Head(s: State): nat {
    if |s.sent| <= s.ring then 0 else |s.sent| - s.ring
  }

  /** The rows the replay query returns: the newest by sender time and id. */
  ghost function Newest(s: State): (page: seq<nat>)
    ensures Indexes(page, |s.rows|)
  {
    NewestRows(s.rows, s.cap)
  }

  ghost function Page(s: State, projections: seq<Projection>): seq<RowRead>
    requires |projections| == |Newest(s)|
  {
    seq(|projections|, i requires 0 <= i < |projections| => RowRead(s.rows[Newest(s)[i]].id, projections[i]))
  }

  /** A row that projects yields its event or a read error, never nothing; one
      that does not never yields an event. */
  ghost predicate Faithful(row: Row, p: Projection) {
    if row.projects then !p.Nothing? else !p.Event?
  }

  ghost predicate Enabled(s: State, st: Step) {
    match st
    case Store(row) => forall i :: 0 <= i < |s.rows| ==> s.rows[i].id != row.id
    case Send(b) => b.Durable? ==> b.row < |s.rows|
    case Receive(p) =>
      && s.pc.Draining? && s.next < |s.sent|
      && (s.sent[s.next].Durable? ==> s.sent[s.next].row < |s.rows| && Faithful(s.rows[s.sent[s.next].row], p))
    case Recover(_, projections) =>
      && s.pc.Lagging? && |projections| == |Newest(s)|
      && forall i :: 0 <= i < |projections| ==> Faithful(s.rows[Newest(s)[i]], projections[i])
    case DebugInject(_) => s.pc.Draining?
    case Write => s.pc.Writing? && s.pc.queue != []
    case Disconnect => true
  }

  /** Deliver a fact unless the cursor knows its id. */
  ghost function Deliver(s: State, id: RowId): State {
    if HasKey(s.cursor, id) then s.(pc := Draining)
    else s.(cursor := Put(s.cursor, s.cap, Slot(id, ())), ops := s.ops + [Slot(id, ())], pc := Writing([Fact(id, |s.ops|)]))
  }

  ghost function ReceiveNext(s: State, p: Projection): State
    requires s.next < |s.sent| && (s.sent[s.next].Durable? ==> s.sent[s.next].row < |s.rows|)
  {
    if s.next < Head(s) then
      var dropped := Head(s) - s.next;
      s.(next := Head(s), pc := if dropped > s.cap then Writing([Resync(dropped)]) else Lagging(s.next, dropped))
    else
      var s1 := s.(next := s.next + 1);
      match s.sent[s.next]
      case Foreign => s1
      case Ambient => s1.(pc := Writing([Notice]))
      case Durable(row) =>
        match p
        case Error => s1.(pc := Writing([Resync(1)]))
        case Nothing => s1
        case Event => Deliver(s1, s.rows[row].id)
  }

  ghost function RecoverNext(s: State, available: bool, projections: seq<Projection>): State
    requires s.pc.Lagging? && |projections| == |Newest(s)|
  {
    var fallback := Writing([Resync(s.pc.dropped)]);
    if !available then s.(pc := fallback)
    else
      var r := Replay(s.cursor, s.cap, Page(s, projections));
      var s1 := s.(cursor := r.cursor, ops := s.ops + Slots(r.events));
      if !r.ok then s1.(pc := fallback)
      else if r.events == [] then s1.(pc := Draining)
      else s1.(pc := Writing(seq(|r.events|, i requires 0 <= i < |r.events| => Fact(r.events[i], |s.ops| + i))))
  }

  ghost function Next(s: State, st: Step): State
    requires Enabled(s, st)
  {
    match st
    case Store(row) => s.(rows := s.rows + [row])
    case Send(b) => s.(sent := s.sent + [b])
    case Receive(p) => ReceiveNext(s, p)
    case Recover(available, projections) => RecoverNext(s, available, projections)
    case DebugInject(id) => Deliver(s, id)
    case Write =>
      var rest := s.pc.queue[1..];
      s.(out := s.out + [Written(s.pc.queue[0], |s.rows|)], pc := if rest == [] then Draining else Writing(rest))
    case Disconnect => s.(pc := Closed)
  }

  ghost predicate Init(s: State) {
    && s.ring > 0 && s.cap > 0 && s.sent == [] && s.next == 0
    && DistinctRows(s)
    && s.cursor == [] && s.ops == [] && s.pc == Draining && s.out == []
  }

  /** Storage keys rows by id within the scope. */
  ghost predicate DistinctRows(s: State) {
    forall i, j :: 0 <= i < j < |s.rows| ==> s.rows[i].id != s.rows[j].id
  }

  /** The replay page holds every row among the dropped events. */
  ghost predicate WindowCoversLag(s: State)
    requires s.pc.Lagging?
  {
    forall p :: s.pc.from <= p < s.next && p < |s.sent| && s.sent[p].Durable? ==> s.sent[p].row in Newest(s)
  }

  ghost predicate IsRun(states: seq<State>, steps: seq<Step>) {
    && |states| == |steps| + 1
    && Init(states[0])
    && forall i :: 0 <= i < |steps| ==> TakesStep(states, steps, i)
  }

  ghost predicate TakesStep(states: seq<State>, steps: seq<Step>, i: nat)
    requires |states| == |steps| + 1 && i < |steps|
  {
    Enabled(states[i], steps[i]) && states[i + 1] == Next(states[i], steps[i])
  }

  ghost predicate LagsAreCovered(states: seq<State>, steps: seq<Step>)
    requires |states| == |steps| + 1
  {
    forall i :: 0 <= i < |steps| && steps[i].Recover? && states[i].pc.Lagging? ==> WindowCoversLag(states[i])
  }

  // ---------------------------------------------------------------- invariant

  ghost function Queue(s: State): seq<Frame> {
    if s.pc.Writing? then s.pc.queue else []
  }

  /** Everything on the wire or next in line, in order. */
  ghost function Frames(s: State): (f: seq<Frame>)
    ensures |f| == |s.out| + |Queue(s)|
  {
    seq(|s.out|, i requires 0 <= i < |s.out| => s.out[i].frame) + Queue(s)
  }

  ghost predicate Told(s: State, id: RowId) {
    exists k :: 0 <= k < |Frames(s)| && Frames(s)[k].Fact? && Frames(s)[k].id == id
  }

  /** A resync notice written after row `j` was stored, or about to be. */
  ghost predicate ResyncAfter(s: State, j: nat) {
    || (exists k :: 0 <= k < |s.out| && s.out[k].frame.Resync? && s.out[k].stored > j)
    || (exists k :: 0 <= k < |Queue(s)| && Queue(s)[k].Resync?)
  }

  ghost predicate Accounted(s: State, id: RowId) {
    Told(s, id) || exists j :: 0 <= j < |s.rows| && s.rows[j].id == id && ResyncAfter(s, j)
  }

  /** Every id the cursor holds is accounted for, also those a replay recorded
      before it failed. */
  ghost predicate CursorAccounted(s: State) {
    forall k :: 0 <= k < |s.cursor| ==> Accounted(s, s.cursor[k].key)
  }

  /** Every projecting row among the events already taken off the ring is
      accounted for, except those of a lag whose recovery is the next step. */
  ghost predicate PastAccounted(s: State)
    requires WellFormed(s)
  {
    forall p :: 0 <= p < s.next && s.sent[p].Durable? && s.rows[s.sent[p].row].projects ==>
      Accounted(s, s.rows[s.sent[p].row].id) || (s.pc.Lagging? && s.pc.from <= p)
  }

  ghost predicate WellFormed(s: State) {
    && s.cap > 0 && Wellformed(s.cursor, s.cap) && DistinctRows(s)
    && s.next <= |s.sent|
    && forall i :: 0 <= i < |s.sent| && s.sent[i].Durable? ==> s.sent[i].row < |s.rows|
  }

  /** The cursor holds the last `cap` recorded ids, and no id was recorded twice
      within that distance. */
  ghost predicate Recorded(cursor: Cursor, cap: nat, ops: seq<Slot<RowId, ()>>) {
    && cursor == Last(cap, ops)
    && forall i, j :: 0 <= i < j < |ops| && j - i <= cap ==> ops[i].key != ops[j].key
  }

  /** Facts carry the recording positions of their ids, in order. */
  ghost predicate Numbered(frames: seq<Frame>, ops: seq<Slot<RowId, ()>>) {
    && (forall k :: 0 <= k < |frames| && frames[k].Fact? ==> frames[k].op < |ops| && ops[frames[k].op].key == frames[k].id)
    && (forall k, l :: 0 <= k < l < |frames| && frames[k].Fact? && frames[l].Fact? ==> frames[k].op < frames[l].op)
  }

  ghost predicate FactsNumbered(s: State) {
    Recorded(s.cursor, s.cap, s.ops) && Numbered(Frames(s), s.ops)
  }

  // -------------------------------------------------------------- monotonicity

  /** Nothing already said is taken back. */
  ghost predicate SaysMore(s: State, t: State) {
    && s.rows <= t.rows && Frames(s) <= Frames(t)
    && forall j :: 0 <= j < |s.rows| && ResyncAfter(s, j) ==> ResyncAfter(t, j)
  }

  lemma AccountedStays(s: State, t: State, id: RowId)
    requires SaysMore(s, t) && Accounted(s, id)
    ensures Accounted(t, id)
  {
    if Told(s, id) {
      var k :| 0 <= k < |Frames(s)| && Frames(s)[k].Fact? && Frames(s)[k].id == id;
      assert Frames(t)[k] == Frames(s)[k];
    } else {
      var j :| 0 <= j < |s.rows| && s.rows[j].id == id && ResyncAfter(s, j);
      assert t.rows[j].id == id && ResyncAfter(t, j);
    }
  }

  lemma WriteSaysMore(s: State)
    requires Enabled(s, Write)
    ensures SaysMore(s, Next(s, Write)) && Frames(Next(s, Write)) == Frames(s)
  {
    var t := Next(s, Write);
    forall j | 0 <= j < |s.rows| && ResyncAfter(s, j) ensures ResyncAfter(t, j) {
      if k :| 0 <= k < |s.out| && s.out[k].frame.Resync? && s.out[k].stored > j {
        assert t.out[k] == s.out[k];
      } else {
        var k :| 0 <= k < |Queue(s)| && Queue(s)[k].Resync?;
        if k == 0 { assert t.out[|s.out|].stored > j; } else { assert Queue(t)[k - 1].Resync?; }
      }
    }
  }

  lemma QueueingSaysMore(s: State, t: State)
    requires s.rows <= t.rows && t.out == s.out && (Queue(s) == [] || Queue(t) == Queue(s))
    ensures SaysMore(s, t)
  {
    forall j | 0 <= j < |s.rows| && ResyncAfter(s, j) ensures ResyncAfter(t, j) {
      if k :| 0 <= k < |s.out| && s.out[k].frame.Resync? && s.out[k].stored > j {
        assert t.out[k] == s.out[k];
      } else {
        var k :| 0 <= k < |Queue(s)| && Queue(s)[k].Resync?;
        assert Queue(t)[k].Resync?;
      }
    }
  }

  lemma StepsSayMore(s: State, st: Step)
    requires Enabled(s, st) && !st.Disconnect?
    ensures SaysMore(s, Next(s, st))
  {
    if st.Write? { WriteSaysMore(s); } else { QueueingSaysMore(s, Next(s, st)); }
  }

  // -------------------------------------------------------------- preservation

  lemma {:induction false} ReplayEventsComeFromPage(cursor: Cursor, cap: nat, page: seq<RowRead>, id: RowId)
    requires id in Replay(cursor, cap, page).events
    ensures exists i :: 0 <= i < |page| && page[i].id == id
  {
    var n := |page| - 1;
    var before := Replay(cursor, cap, page[..n]);
    if id in before.events {
      ReplayEventsComeFromPage(cursor, cap, page[..n], id);
      var i :| 0 <= i < n && page[..n][i].id == id;
      assert page[i].id == id;
    } else {
      assert page[n].id == id;
    }
  }

  /** A queued resync accounts for every row stored so far. */
  lemma QueuedResyncCovers(s: State, j: nat)
    requires j < |s.rows| && |Queue(s)| > 0 && Queue(s)[0].Resync?
    ensures Accounted(s, s.rows[j].id)
  {
    assert ResyncAfter(s, j);
  }

  lemma QueuedFactIsTold(s: State, k: nat)
    requires k < |Queue(s)| && Queue(s)[k].Fact?
    ensures Accounted(s, Queue(s)[k].id)
  {
    assert Frames(s)[|s.out| + k] == Queue(s)[k];
    assert Told(s, Queue(s)[k].id);
  }

  lemma AdvancingKeepsAccounts(s: State, n: nat)
    requires CursorAccounted(s)
    ensures CursorAccounted(s.(next := n))
  {
    var s1 := s.(next := n);
    QueueingSaysMore(s, s1);
    forall k | 0 <= k < |s1.cursor| ensures Accounted(s1, s1.cursor[k].key) { AccountedStays(s, s1, s.cursor[k].key); }
  }

  lemma DeliverAccounts(s: State, id: RowId)
    requires CursorAccounted(s) && Queue(s) == []
    ensures CursorAccounted(Deliver(s, id)) && Accounted(Deliver(s, id), id)
  {
    var t := Deliver(s, id);
    QueueingSaysMore(s, t);
    if HasKey(s.cursor, id) {
      var k :| 0 <= k < |s.cursor| && s.cursor[k].key == id;
      AccountedStays(s, t, id);
    } else {
      QueuedFactIsTold(t, 0);
    }
    forall k | 0 <= k < |t.cursor| ensures Accounted(t, t.cursor[k].key) {
      if t.cursor[k].key != id {
        assert t.cursor[k] in s.cursor;
        AccountedStays(s, t, t.cursor[k].key);
      }
    }
  }

  /** A replay that could not finish is answered with a resync, which accounts
      for every row stored so far, recorded or not. */
  lemma FailedRecoveryAccounts(s: State, available: bool, projections: seq<Projection>)
    requires WellFormed(s) && CursorAccounted(s) && Enabled(s, Recover(available, projections))
    requires !available || !Replay(s.cursor, s.cap, Page(s, projections)).ok
    ensures var t := RecoverNext(s, available, projections);
            CursorAccounted(t) && forall j :: 0 <= j < |s.rows| ==> Accounted(t, s.rows[j].id)
  {
    var t := RecoverNext(s, available, projections);
    var page := Page(s, projections);
    QueueingSaysMore(s, t);
    forall j | 0 <= j < |s.rows| ensures Accounted(t, s.rows[j].id) { QueuedResyncCovers(t, j); }
    forall k | 0 <= k < |t.cursor| ensures Accounted(t, t.cursor[k].key) {
      var id := t.cursor[k].key;
      if available { ReplayRecordsKnownRows(s, projections, id); }
      if HasKey(s.cursor, id) {
        var i :| 0 <= i < |s.cursor| && s.cursor[i].key == id;
        AccountedStays(s, t, id);
      }
    }
  }

  lemma ReplayRecordsKnownRows(s: State, projections: seq<Projection>, id: RowId)
    requires Enabled(s, Recover(true, projections)) && HasKey(Replay(s.cursor, s.cap, Page(s, projections)).cursor, id)
    ensures HasKey(s.cursor, id) || exists j :: 0 <= j < |s.rows| && s.rows[j].id == id
  {
    var page := Page(s, projections);
    ReplayedIdsAreKnown(s.cursor, s.cap, page, id);
    if !HasKey(s.cursor, id) {
      ReplayEventsComeFromPage(s.cursor, s.cap, page, id);
      var i :| 0 <= i < |page| && page[i].id == id;
      assert s.rows[Newest(s)[i]].id == id;
    }
  }

  lemma CollectedIsAccounted(s: State, projections: seq<Projection>, id: RowId)
    requires CursorAccounted(s) && Enabled(s, Recover(true, projections)) && Replay(s.cursor, s.cap, Page(s, projections)).ok
    requires id in Replay(s.cursor, s.cap, Page(s, projections)).events || HasKey(s.cursor, id)
    ensures Accounted(RecoverNext(s, true, projections), id)
  {
    var t := RecoverNext(s, true, projections);
    var events := Replay(s.cursor, s.cap, Page(s, projections)).events;
    if HasKey(s.cursor, id) {
      var i :| 0 <= i < |s.cursor| && s.cursor[i].key == id;
      QueueingSaysMore(s, t);
      AccountedStays(s, t, id);
    } else {
      var k :| 0 <= k < |events| && events[k] == id;
      QueuedFactIsTold(t, k);
    }
  }

  lemma ReplayedCursorAccounted(s: State, projections: seq<Projection>)
    requires CursorAccounted(s) && Enabled(s, Recover(true, projections)) && Replay(s.cursor, s.cap, Page(s, projections)).ok
    ensures CursorAccounted(RecoverNext(s, true, projections))
  {
    var t := RecoverNext(s, true, projections);
    forall k | 0 <= k < |t.cursor| ensures Accounted(t, t.cursor[k].key) {
      ReplayedIdsAreKnown(s.cursor, s.cap, Page(s, projections), t.cursor[k].key);
      CollectedIsAccounted(s, projections, t.cursor[k].key);
    }
  }

  /** A finished replay returns every projecting row of its page that the
      cursor did not know. */
  lemma PageRowIsRead(s: State, projections: seq<Projection>, row: nat)
    requires WellFormed(s) && Enabled(s, Recover(true, projections)) && Replay(s.cursor, s.cap, Page(s, projections)).ok
    requires row in Newest(s) && s.rows[row].projects
    ensures s.rows[row].id in Replay(s.cursor, s.cap, Page(s, projections)).events || HasKey(s.cursor, s.rows[row].id)
  {
    var page := Page(s, projections);
    var k :| 0 <= k < |Newest(s)| && Newest(s)[k] == row;
    assert page[k] == RowRead(s.rows[row].id, projections[k]);
    SuccessfulReplayMissesNothing(s.cursor, s.cap, page, k);
  }

  lemma PageRowAccounted(s: State, projections: seq<Projection>, row: nat)
    requires WellFormed(s) && CursorAccounted(s) && Enabled(s, Recover(true, projections))
    requires Replay(s.cursor, s.cap, Page(s, projections)).ok
    requires row in Newest(s) && s.rows[row].projects
    ensures Accounted(RecoverNext(s, true, projections), s.rows[row].id)
  {
    PageRowIsRead(s, projections, row);
    CollectedIsAccounted(s, projections, s.rows[row].id);
  }

  ghost predicate Inv(s: State) {
    WellFormed(s) && FactsNumbered(s) && (s.pc.Closed? || (CursorAccounted(s) && PastAccounted(s)))
  }

  lemma CursorStaysWellformed(s: State, st: Step)
    requires s.cap > 0 && Wellformed(s.cursor, s.cap) && Enabled(s, st)
    ensures Wellformed(Next(s, st).cursor, s.cap) && Next(s, st).cap == s.cap
  {
    if st.Recover? && st.available {
      ReplayKeepsWellformed(s.cursor, s.cap, Page(s, st.projections));
    } else if st.DebugInject? {
      PutKeepsWellformed(s.cursor, s.cap, Slot(st.id, ()));
    } else if st.Receive? && s.sent[s.next].Durable? {
      PutKeepsWellformed(s.cursor, s.cap, Slot(s.rows[s.sent[s.next].row].id, ()));
    }
  }

  lemma WellFormedPreserved(s: State, st: Step)
    requires WellFormed(s) && Enabled(s, st)
    ensures WellFormed(Next(s, st))
  {
    var t := Next(s, st);
    CursorStaysWellformed(s, st);
    assert s.rows <= t.rows && s.sent <= t.sent && t.next <= |t.sent|;
    if st.Store? {
      assert DistinctRows(t);
    } else {
      assert t.rows == s.rows;
    }
  }

  lemma ReceiveKeepsCursorAccounts(s: State, projection: Projection)
    requires CursorAccounted(s) && Enabled(s, Receive(projection))
    ensures CursorAccounted(ReceiveNext(s, projection))
  {
    var t := ReceiveNext(s, projection);
    if t.cursor == s.cursor {
      QueueingSaysMore(s, t);
      forall k | 0 <= k < |t.cursor| ensures Accounted(t, t.cursor[k].key) { AccountedStays(s, t, s.cursor[k].key); }
    } else {
      AdvancingKeepsAccounts(s, s.next + 1);
      DeliverAccounts(s.(next := s.next + 1), s.rows[s.sent[s.next].row].id);
    }
  }

  lemma CursorAccountedPreserved(s: State, st: Step)
    requires Inv(s) && Enabled(s, st) && !s.pc.Closed? && !st.Disconnect?
    ensures CursorAccounted(Next(s, st))
  {
    if st.Recover? {
      if st.available && Replay(s.cursor, s.cap, Page(s, st.projections)).ok {
        ReplayedCursorAccounted(s, st.projections);
      } else {
        FailedRecoveryAccounts(s, st.available, st.projections);
      }
    } else if st.DebugInject? {
      DeliverAccounts(s, st.id);
    } else if st.Receive? {
      ReceiveKeepsCursorAccounts(s, st.projection);
    } else {
      var t := Next(s, st);
      StepsSayMore(s, st);
      forall k | 0 <= k < |t.cursor| ensures Accounted(t, t.cursor[k].key) { AccountedStays(s, t, s.cursor[k].key); }
    }
  }

  /** A fact taken off the ring is delivered, or was delivered before. */
  lemma DeliveredIsAccounted(s: State, row: nat)
    requires CursorAccounted(s) && Enabled(s, Receive(Event)) && Head(s) <= s.next && s.sent[s.next] == Durable(row)
    ensures Accounted(ReceiveNext(s, Event), s.rows[row].id)
  {
    AdvancingKeepsAccounts(s, s.next + 1);
    DeliverAccounts(s.(next := s.next + 1), s.rows[row].id);
    assert ReceiveNext(s, Event) == Deliver(s.(next := s.next + 1), s.rows[row].id);
  }

  /** A batch reported dropped is about to be recovered, or a resync is queued. */
  lemma DroppedIsAccounted(s: State, projection: Projection, row: nat)
    requires Enabled(s, Receive(projection)) && s.next < Head(s) && row < |s.rows|
    ensures var t := ReceiveNext(s, projection); t.pc == Lagging(s.next, Head(s) - s.next) || Accounted(t, s.rows[row].id)
  {
    var t := ReceiveNext(s, projection);
    if t.pc.Writing? { QueuedResyncCovers(t, row); }
  }

  lemma UnreadableIsAccounted(s: State, row: nat)
    requires Enabled(s, Receive(Error)) && Head(s) <= s.next && s.sent[s.next] == Durable(row)
    ensures Accounted(ReceiveNext(s, Error), s.rows[row].id)
  {
    QueuedResyncCovers(ReceiveNext(s, Error), row);
  }

  /** The event just taken off the ring, or the batch just reported dropped. */
  lemma ReceivedIsAccounted(s: State, projection: Projection, p: nat)
    requires WellFormed(s) && CursorAccounted(s) && Enabled(s, Receive(projection))
    requires s.next <= p < ReceiveNext(s, projection).next && s.sent[p].Durable? && s.rows[s.sent[p].row].projects
    ensures var t := ReceiveNext(s, projection);
            Accounted(t, s.rows[s.sent[p].row].id) || (t.pc.Lagging? && t.pc.from <= p)
  {
    if s.next < Head(s) {
      DroppedIsAccounted(s, projection, s.sent[p].row);
    } else if projection.Error? {
      UnreadableIsAccounted(s, s.sent[p].row);
    } else {
      DeliveredIsAccounted(s, s.sent[p].row);
    }
  }

  lemma PastAccountedPreserved(s: State, st: Step)
    requires Inv(s) && Enabled(s, st) && !s.pc.Closed? && !st.Disconnect?
    requires st.Recover? ==> WindowCoversLag(s)
    ensures WellFormed(Next(s, st)) && PastAccounted(Next(s, st))
  {
    var t := Next(s, st);
    WellFormedPreserved(s, st);
    StepsSayMore(s, st);
    forall p | 0 <= p < t.next && t.sent[p].Durable? && t.rows[t.sent[p].row].projects
      ensures Accounted(t, t.rows[t.sent[p].row].id) || (t.pc.Lagging? && t.pc.from <= p)
    {
      assert t.sent[p] == s.sent[p] && t.rows[t.sent[p].row] == s.rows[s.sent[p].row];
      var id := s.rows[s.sent[p].row].id;
      if Accounted(s, id) {
        AccountedStays(s, t, id);
      } else if st.Receive? {
        ReceivedIsAccounted(s, st.projection, p);
      } else if st.Recover? {
        if st.available && Replay(s.cursor, s.cap, Page(s, st.projections)).ok {
          PageRowAccounted(s, st.projections, s.sent[p].row);
        } else {
          FailedRecoveryAccounts(s, st.available, st.projections);
        }
      }
    }
  }

  // Numbering.

  lemma RecordRecorded(cursor: Cursor, cap: nat, ops: seq<Slot<RowId, ()>>, id: RowId)
    requires cap > 0 && Recorded(cursor, cap, ops) && !HasKey(cursor, id)
    ensures Recorded(Put(cursor, cap, Slot(id, ())), cap, ops + [Slot(id, ())])
  {
    LastAfterAppend(cap, ops, Slot(id, ()));
    forall i | 0 <= i < |ops| && |ops| - i <= cap ensures ops[i].key != id {
      assert cursor[i - (|ops| - |cursor|)] == ops[i];
    }
  }

  lemma {:induction false} ReplayRecorded(cursor: Cursor, cap: nat, ops: seq<Slot<RowId, ()>>, page: seq<RowRead>)
    requires cap > 0 && Recorded(cursor, cap, ops)
    ensures var r := Replay(cursor, cap, page); Recorded(r.cursor, cap, ops + Slots(r.events))
  {
    if page == [] {
      assert Slots([]) == [];
    } else {
      var (init, row) := (page[..|page| - 1], page[|page| - 1]);
      ReplayRecorded(cursor, cap, ops, init);
      var r := Replay(cursor, cap, init);
      if r.ok && !HasKey(r.cursor, row.id) && row.projection.Event? {
        SlotsAppend(ops, r.events, row.id);
        RecordRecorded(r.cursor, cap, ops + Slots(r.events), row.id);
      }
    }
  }

  lemma SlotsAppend(ops: seq<Slot<RowId, ()>>, ids: seq<RowId>, id: RowId)
    ensures ops + Slots(ids + [id]) == ops + Slots(ids) + [Slot(id, ())]
  {
  }

  /** Facts numbered from the end of the record may follow what is there. */
  lemma NumberedAppend(frames: seq<Frame>, ops: seq<Slot<RowId, ()>>, ids: seq<RowId>)
    requires Numbered(frames, ops)
    ensures Numbered(frames + seq(|ids|, i requires 0 <= i < |ids| => Fact(ids[i], |ops| + i)), ops + Slots(ids))
  {
  }

  lemma NumberedKeep(frames: seq<Frame>, ops: seq<Slot<RowId, ()>>, frames': seq<Frame>, ops': seq<Slot<RowId, ()>>)
    requires Numbered(frames, ops) && ops <= ops'
    requires frames' <= frames || (frames <= frames' && |frames'| == |frames| + 1 && !frames'[|frames|].Fact?)
    ensures Numbered(frames', ops')
  {
  }

  lemma NumberedDeliver(s: State, id: RowId)
    requires s.cap > 0 && FactsNumbered(s) && Queue(s) == []
    ensures FactsNumbered(Deliver(s, id))
  {
    var t := Deliver(s, id);
    if HasKey(s.cursor, id) {
      NumberedKeep(Frames(s), s.ops, Frames(t), t.ops);
    } else {
      RecordRecorded(s.cursor, s.cap, s.ops, id);
      NumberedAppend(Frames(s), s.ops, [id]);
      assert t.ops == s.ops + Slots([id]);
      assert Frames(t) == Frames(s) + seq(1, i requires 0 <= i < 1 => Fact([id][i], |s.ops| + i));
    }
  }

  lemma QueuedAfter(s: State, t: State)
    requires Queue(s) == [] && t.out == s.out
    ensures Frames(t) == Frames(s) + Queue(t)
  {
  }

  lemma NumberedReplay(s: State, projections: seq<Projection>)
    requires WellFormed(s) && FactsNumbered(s) && Enabled(s, Recover(true, projections))
    requires Replay(s.cursor, s.cap, Page(s, projections)).ok
    ensures Numbered(Frames(RecoverNext(s, true, projections)), RecoverNext(s, true, projections).ops)
  {
    var t := RecoverNext(s, true, projections);
    var events := Replay(s.cursor, s.cap, Page(s, projections)).events;
    NumberedAppend(Frames(s), s.ops, events);
    assert Queue(t) == seq(|events|, i requires 0 <= i < |events| => Fact(events[i], |s.ops| + i));
    QueuedAfter(s, t);
  }

  lemma NumberedRecover(s: State, available: bool, projections: seq<Projection>)
    requires WellFormed(s) && FactsNumbered(s) && Enabled(s, Recover(available, projections))
    ensures FactsNumbered(RecoverNext(s, available, projections))
  {
    var t := RecoverNext(s, available, projections);
    if available { ReplayRecorded(s.cursor, s.cap, s.ops, Page(s, projections)); }
    if available && Replay(s.cursor, s.cap, Page(s, projections)).ok {
      NumberedReplay(s, projections);
    } else {
      assert Frames(t) == Frames(s) + [Resync(s.pc.dropped)];
      NumberedKeep(Frames(s), s.ops, Frames(t), t.ops);
    }
  }

  lemma NumberedPreserved(s: State, st: Step)
    requires WellFormed(s) && FactsNumbered(s) && Enabled(s, st)
    ensures FactsNumbered(Next(s, st))
  {
    var t := Next(s, st);
    if st.Recover? {
      NumberedRecover(s, st.available, st.projections);
    } else if st.DebugInject? {
      NumberedDeliver(s, st.id);
    } else if st.Receive? && t.ops != s.ops {
      var s1 := s.(next := s.next + 1);
      assert Frames(s1) == Frames(s);
      NumberedDeliver(s1, s.rows[s.sent[s.next].row].id);
    } else {
      if st.Write? { WriteSaysMore(s); }
      NumberedKeep(Frames(s), s.ops, Frames(t), t.ops);
    }
  }

  lemma InitIsSound(s: State)
    requires Init(s)
    ensures WellFormed(s) && FactsNumbered(s) && CursorAccounted(s) && PastAccounted(s)
  {
  }

  lemma {:induction false} ReachableStatesAreNumbered(states: seq<State>, steps: seq<Step>, i: nat)
    requires IsRun(states, steps) && i < |states|
    ensures WellFormed(states[i]) && FactsNumbered(states[i])
  {
    if i == 0 {
      InitIsSound(states[0]);
    } else {
      ReachableStatesAreNumbered(states, steps, i - 1);
      assert TakesStep(states, steps, i - 1);
      WellFormedPreserved(states[i - 1], steps[i - 1]);
      NumberedPreserved(states[i - 1], steps[i - 1]);
    }
  }

  lemma {:induction false} ReachableStatesKeepInv(states: seq<State>, steps: seq<Step>, i: nat)
    requires IsRun(states, steps) && LagsAreCovered(states, steps) && i < |states|
    ensures Inv(states[i])
  {
    if i == 0 {
      InitIsSound(states[0]);
    } else {
      ReachableStatesKeepInv(states, steps, i - 1);
      ReachableStatesAreNumbered(states, steps, i);
      assert TakesStep(states, steps, i - 1);
      var (s, st) := (states[i - 1], steps[i - 1]);
      if !s.pc.Closed? && !st.Disconnect? {
        CursorAccountedPreserved(s, st);
        PastAccountedPreserved(s, st);
      }
    }
  }

  // ------------------------------------------------------------ main results

  ghost predicate FactWritten(s: State, id: RowId) {
    exists k :: 0 <= k < |s.out| && s.out[k].frame.Fact? && s.out[k].frame.id == id
  }

  ghost predicate ResyncWrittenAfter(s: State, row: nat) {
    exists k :: 0 <= k < |s.out| && s.out[k].frame.Resync? && s.out[k].stored > row
  }

  /** No silent loss: whenever the loop is back to draining, every projecting
      row whose event has left the ring is on the wire, or a resync notice was
      written after the row was stored. */
  lemma NoSilentLoss(states: seq<State>, steps: seq<Step>, i: nat, p: nat)
    requires IsRun(states, steps) && LagsAreCovered(states, steps) && i < |states|
    requires states[i].pc.Draining? && p < states[i].next && p < |states[i].sent| && states[i].sent[p].Durable?
    requires states[i].sent[p].row < |states[i].rows| && states[i].rows[states[i].sent[p].row].projects
    ensures FactWritten(states[i], states[i].rows[states[i].sent[p].row].id) || ResyncWrittenAfter(states[i], states[i].sent[p].row)
  {
    ReachableStatesKeepInv(states, steps, i);
    var s := states[i];
    var row := s.sent[p].row;
    var id := s.rows[row].id;
    assert Accounted(s, id);
    if Told(s, id) {
      var k :| 0 <= k < |Frames(s)| && Frames(s)[k].Fact? && Frames(s)[k].id == id;
      assert s.out[k].frame == Frames(s)[k];
    } else {
      var j :| 0 <= j < |s.rows| && s.rows[j].id == id && ResyncAfter(s, j);
      assert j == row;
    }
  }

  /** At most once within the window, on every run: between two deliveries of
      one id at least `cap` other ids were recorded, the first `cap` of them
      pairwise different. */
  lemma RedeliveredOnlyAfterTurnover(states: seq<State>, steps: seq<Step>, i: nat, a: nat, b: nat)
    requires IsRun(states, steps) && i < |states| && a < b < |states[i].out|
    requires states[i].out[a].frame.Fact? && states[i].out[b].frame.Fact?
    requires states[i].out[a].frame.id == states[i].out[b].frame.id
    ensures var s := states[i];
            var (m, n) := (s.out[a].frame.op, s.out[b].frame.op);
            && m + s.cap < n < |s.ops|
            && s.ops[m].key == s.ops[n].key == s.out[a].frame.id
            && (forall x, y :: m <= x < y <= m + s.cap ==> s.ops[x].key != s.ops[y].key)
  {
    ReachableStatesAreNumbered(states, steps, i);
    var s := states[i];
    assert Frames(s)[a] == s.out[a].frame && Frames(s)[b] == s.out[b].frame;
  }

  // ------------------------------------------- when a lag is really recovered

  /** A finished replay accounts for a row nobody was told about if and only if
      fewer than `cap` rows have a later sender time, whenever they were stored. */
  lemma RecoveredIffInWindow(states: seq<State>, steps: seq<Step>, i: nat, row: nat)
    requires IsRun(states, steps) && i < |steps| && steps[i].Recover? && steps[i].available && Enabled(states[i], steps[i])
    requires Replay(states[i].cursor, states[i].cap, Page(states[i], steps[i].projections)).ok
    requires row < |states[i].rows| && states[i].rows[row].projects
    requires !Accounted(states[i], states[i].rows[row].id) && !HasKey(states[i].cursor, states[i].rows[row].id)
    ensures Accounted(states[i + 1], states[i].rows[row].id) <==> |LaterThan(states[i].rows, row)| < states[i].cap
  {
    ReachableStatesAreNumbered(states, steps, i);
    assert TakesStep(states, steps, i);
    NewestIffFewLater(states[i].rows, states[i].cap, row);
    if row in Newest(states[i]) {
      PageRowIsTold(states[i], steps[i].projections, row);
    } else {
      RowOffThePageIsNotTold(states[i], steps[i].projections, row);
    }
  }

  /** On every run, a finished recovery writes exactly the projecting rows of
      its page that the cursor did not know, if and only if the walk reaches each
      known row before the unseen ones push it out of the cursor. */
  lemma RecoveryRepeatsNothingIff(states: seq<State>, steps: seq<Step>, i: nat)
    requires IsRun(states, steps) && i < |steps| && steps[i].Recover? && steps[i].available && Enabled(states[i], steps[i])
    requires Replay(states[i].cursor, states[i].cap, Page(states[i], steps[i].projections)).ok
    ensures var (s, page) := (states[i], Page(states[i], steps[i].projections));
            Replay(s.cursor, s.cap, page).events == Unseen(s.cursor, page) <==> ReachedInTime(s.cursor, s.cap, page, |page|)
  {
    ReachableStatesAreNumbered(states, steps, i);
    PageIdsDiffer(states[i], steps[i].projections);
    ReplayRepeatsNothingIff(states[i].cursor, states[i].cap, Page(states[i], steps[i].projections));
  }

  lemma PageIdsDiffer(s: State, projections: seq<Projection>)
    requires DistinctRows(s) && |projections| == |Newest(s)|
    ensures DistinctIds(Page(s, projections))
  {
    NewestAreDistinct(s.rows, s.cap);
    var newest := Newest(s);
    forall i, j | 0 <= i < j < |newest| ensures s.rows[newest[i]].id != s.rows[newest[j]].id {
      assert newest[i] != newest[j];
    }
  }

  lemma PageRowIsTold(s: State, projections: seq<Projection>, row: nat)
    requires WellFormed(s) && Enabled(s, Recover(true, projections)) && Replay(s.cursor, s.cap, Page(s, projections)).ok
    requires row in Newest(s) && s.rows[row].projects && !HasKey(s.cursor, s.rows[row].id)
    ensures Accounted(RecoverNext(s, true, projections), s.rows[row].id)
  {
    PageRowIsRead(s, projections, row);
    var events := Replay(s.cursor, s.cap, Page(s, projections)).events;
    var k :| 0 <= k < |events| && events[k] == s.rows[row].id;
    QueuedFactIsTold(RecoverNext(s, true, projections), k);
  }

  lemma RowOffThePageIsNotTold(s: State, projections: seq<Projection>, row: nat)
    requires DistinctRows(s) && Enabled(s, Recover(true, projections)) && Replay(s.cursor, s.cap, Page(s, projections)).ok
    requires row < |s.rows| && row !in Newest(s) && !Accounted(s, s.rows[row].id)
    ensures !Accounted(RecoverNext(s, true, projections), s.rows[row].id)
  {
    var id := s.rows[row].id;
    var page := Page(s, projections);
    if Accounted(RecoverNext(s, true, projections), id) {
      NewlyToldWasCollected(s, projections, id);
      ReplayEventsComeFromPage(s.cursor, s.cap, page, id);
      assert false;
    }
  }

  lemma NewlyToldWasCollected(s: State, projections: seq<Projection>, id: RowId)
    requires Enabled(s, Recover(true, projections)) && Replay(s.cursor, s.cap, Page(s, projections)).ok
    requires Accounted(RecoverNext(s, true, projections), id)
    ensures Accounted(s, id) || id in Replay(s.cursor, s.cap, Page(s, projections)).events
  {
    var t := RecoverNext(s, true, projections);
    var events := Replay(s.cursor, s.cap, Page(s, projections)).events;
    assert |Queue(t)| == |events| && forall k :: 0 <= k < |events| ==> Queue(t)[k] == Fact(events[k], |s.ops| + k);
    NewlyToldWasQueued(s, t, id);
  }

  lemma NewlyToldWasQueued(s: State, t: State, id: RowId)
    requires t.out == s.out && t.rows == s.rows && Queue(s) == [] && Accounted(t, id)
    requires forall k :: 0 <= k < |Queue(t)| ==> Queue(t)[k].Fact?
    ensures Accounted(s, id) || exists k :: 0 <= k < |Queue(t)| && Queue(t)[k].id == id
  {
    if Told(t, id) {
      var k :| 0 <= k < |Frames(t)| && Frames(t)[k].Fact? && Frames(t)[k].id == id;
      if k < |s.out| {
        assert Frames(s)[k] == Frames(t)[k];
      } else {
        assert Queue(t)[k - |s.out|].id == id;
      }
    } else {
      var j :| 0 <= j < |t.rows| && t.rows[j].id == id && ResyncAfter(t, j);
      assert ResyncAfter(s, j);
    }
  }

  /** The rows stored before `row` whose sender time is nevertheless later. */
  ghost function Overtaken(rows: seq<Row>, row: nat): set<nat>
    requires row < |rows|
  {
    set j | 0 <= j < row && Earlier(rows, row, j)
  }

  ghost function Between(lo: nat, hi: nat): (r: set<nat>)
    requires lo <= hi
    ensures |r| == hi - lo && forall j: nat :: j in r <==> lo <= j < hi
  {
    if lo == hi then {} else Between(lo, hi - 1) + {hi - 1}
  }

  lemma LaterAreOvertakenOrStoredLater(rows: seq<Row>, row: nat)
    requires row < |rows|
    ensures |LaterThan(rows, row)| <= |Overtaken(rows, row)| + (|rows| - 1 - row)
  {
    var both := Overtaken(rows, row) + Between(row + 1, |rows|);
    EarlierIsStrict(rows, row);
    assert LaterThan(rows, row) <= both;
    assert both == LaterThan(rows, row) + (both - LaterThan(rows, row));
  }

  /** When every row from `first` on is broadcast once and in storing order, at
      most `unsent` rows are still waiting to be, and no dropped row is older by
      sender time than more than `late` rows stored before it, a lag is covered
      as soon as the events since its start and those rows fit the window. */
  lemma ShortLagIsCovered(s: State, first: nat, pos: seq<nat>, unsent: nat, late: nat)
    requires s.pc.Lagging? && s.pc.from <= s.next <= |s.sent|
    requires first + |pos| + unsent == |s.rows|
    requires forall k :: 0 <= k < |pos| ==> pos[k] < |s.sent| && s.sent[pos[k]] == Durable(first + k)
    requires forall k, l :: 0 <= k < l < |pos| ==> pos[k] < pos[l]
    requires forall p :: 0 <= p < |s.sent| && s.sent[p].Durable? ==> first <= s.sent[p].row < first + |pos| && pos[s.sent[p].row - first] == p
    requires forall p :: s.pc.from <= p < s.next && s.sent[p].Durable? ==> |Overtaken(s.rows, s.sent[p].row)| <= late
    requires |s.sent| - s.pc.from + unsent + late <= s.cap
    ensures WindowCoversLag(s)
  {
    forall p | s.pc.from <= p < s.next && s.sent[p].Durable? ensures s.sent[p].row in Newest(s) {
      var row := s.sent[p].row;
      PositionsSpread(pos, row - first, |pos| - 1);
      LaterAreOvertakenOrStoredLater(s.rows, row);
      NewestIffFewLater(s.rows, s.cap, row);
    }
  }

  lemma {:induction false} PositionsSpread(pos: seq<nat>, k: nat, l: nat)
    requires k <= l < |pos| && forall i, j :: 0 <= i < j < |pos| ==> pos[i] < pos[j]
    ensures pos[l] >= pos[k] + (l - k)
  {
    if k < l { PositionsSpread(pos, k, l - 1); }
  }

  // Lags the loop takes for recoverable, and rows it silently loses.

  /** A subscriber that has taken nothing off the ring and said nothing. */
  ghost predicate Asleep(s: State) {
    && s.ring > 0 && s.cap > 0 && DistinctRows(s) && s.next == 0 && s.cursor == [] && s.ops == [] && s.pc == Draining && s.out == []
    && (forall i :: 0 <= i < |s.sent| && s.sent[i].Durable? ==> s.sent[i].row < |s.rows|)
    && (forall i :: 0 <= i < |s.rows| ==> s.rows[i].projects)
  }

  lemma {:induction false} EveryReplayedRowProjects(cursor: Cursor, cap: nat, page: seq<RowRead>)
    requires forall i :: 0 <= i < |page| ==> page[i].projection.Event?
    ensures Replay(cursor, cap, page).ok
  {
    if page != [] { EveryReplayedRowProjects(cursor, cap, page[..|page| - 1]); }
  }

  /** What a sleeper does on waking with a full page of rows. */
  ghost function Woken(s: State): seq<State>
    requires Asleep(s) && s.sent != [] && |s.rows| >= s.cap
  {
    var lagging := s.(next := Head(s), pc := Lagging(0, Head(s)));
    [lagging, RecoverNext(lagging, true, seq(s.cap, i => Event))]
  }

  lemma WakingSteps(s: State)
    requires Asleep(s) && s.sent != [] && |s.rows| >= s.cap && 0 < Head(s) <= s.cap
    ensures var (lagging, recover) := (Woken(s)[0], Recover(true, seq(s.cap, i => Event)));
            && Enabled(s, Receive(Event)) && Next(s, Receive(Event)) == lagging
            && Enabled(lagging, recover) && Next(lagging, recover) == Woken(s)[1]
  {
  }

  /** A run that leaves the subscriber asleep goes on with its waking. */
  ghost function Awaken(states: seq<State>, steps: seq<Step>): (seq<State>, seq<Step>)
    requires |states| == |steps| + 1
    requires var s := states[|steps|]; Asleep(s) && s.sent != [] && |s.rows| >= s.cap
  {
    var s := states[|steps|];
    (states + Woken(s), steps + [Receive(Event), Recover(true, seq(s.cap, i => Event))])
  }

  lemma AwakenIsARun(states: seq<State>, steps: seq<Step>)
    requires IsRun(states, steps)
    requires var s := states[|steps|]; Asleep(s) && s.sent != [] && |s.rows| >= s.cap && 0 < Head(s) <= s.cap
    ensures IsRun(Awaken(states, steps).0, Awaken(states, steps).1)
  {
    var (longer, taken) := Awaken(states, steps);
    WakingSteps(states[|steps|]);
    forall i | 0 <= i < |taken| ensures TakesStep(longer, taken, i) {
      if i < |steps| { assert TakesStep(states, steps, i); }
    }
  }

  lemma WokenLosesRow(s: State, row: nat)
    requires Asleep(s) && s.sent != [] && |s.rows| >= s.cap && 0 < Head(s) <= s.cap
    requires row < |s.rows| && |LaterThan(s.rows, row)| >= s.cap
    ensures !Woken(s)[1].pc.Lagging? && !Accounted(Woken(s)[1], s.rows[row].id)
  {
    var lagging := Woken(s)[0];
    var events := seq(s.cap, i => Event);
    WakingSteps(s);
    EveryReplayedRowProjects([], s.cap, Page(lagging, events));
    NewestIffFewLater(s.rows, s.cap, row);
    assert !Accounted(lagging, s.rows[row].id);
    RowOffThePageIsNotTold(lagging, events, row);
  }

  /** A run that ends by replaying a lag of `dropped` events, the first of them
      the broadcast of a row that projects and is not accounted for. */
  ghost predicate LosesRow(states: seq<State>, steps: seq<Step>, dropped: nat, row: nat) {
    && IsRun(states, steps) && |steps| > 0 && states[|steps| - 1].pc == Lagging(0, dropped)
    && var last := states[|steps|];
       && row < |last.rows| && last.rows[row].projects && |last.sent| > 0 && last.sent[0] == Durable(row) && last.next == dropped
       && !last.pc.Lagging? && !Accounted(last, last.rows[row].id)
  }

  /** A dropped row with `cap` later ones is lost in that recovery. */
  lemma WakingLosesRow(states: seq<State>, steps: seq<Step>, row: nat) returns (longer: seq<State>, taken: seq<Step>)
    requires IsRun(states, steps)
    requires var s := states[|steps|]; Asleep(s) && |s.sent| > s.ring && |s.rows| >= s.cap && Head(s) <= s.cap
    requires states[|steps|].sent[0] == Durable(row)
    requires |LaterThan(states[|steps|].rows, row)| >= states[|steps|].cap
    ensures LosesRow(longer, taken, Head(states[|steps|]), row) && longer[0] == states[0] && longer[|taken|].rows == states[|steps|].rows
  {
    longer, taken := Awaken(states, steps).0, Awaken(states, steps).1;
    AwakenIsARun(states, steps);
    WokenLosesRow(states[|steps|], row);
  }

  ghost function NthRow(n: nat): Row {
    Row(RowId(seq(n, i => '0')), n + 1, true)
  }

  ghost function NthRows(n: nat): seq<Row> {
    seq(n, i requires 0 <= i < n => NthRow(i))
  }

  lemma NthRowsDiffer(n: nat)
    ensures forall i, j :: 0 <= i < j <= n ==> NthRow(i).id != NthRow(j).id
  {
    forall i, j | 0 <= i < j <= n ensures NthRow(i).id != NthRow(j).id {
      assert |NthRow(i).id.hex| == i && |NthRow(j).id.hex| == j;
    }
  }

  // First run: every row is broadcast at once, in sender order.

  ghost function Busy(ring: nat, cap: nat, i: nat): State {
    State(ring, cap, NthRows((i + 1) / 2), seq(i / 2, n requires 0 <= n < i / 2 => Durable(n)), 0, [], [], Draining, [])
  }

  ghost function BusyStep(i: nat): Step {
    if i % 2 == 0 then Store(NthRow(i / 2)) else Send(Durable(i / 2))
  }

  lemma BusySteps(ring: nat, cap: nat, i: nat)
    ensures Enabled(Busy(ring, cap, i), BusyStep(i)) && Next(Busy(ring, cap, i), BusyStep(i)) == Busy(ring, cap, i + 1)
  {
    var (s, t) := (Busy(ring, cap, i), Busy(ring, cap, i + 1));
    if i % 2 == 0 {
      assert (i + 1) / 2 == i / 2 && (i + 2) / 2 == i / 2 + 1;
      assert t.rows == s.rows + [NthRow(i / 2)];
      NthRowsDiffer(i / 2);
    } else {
      assert (i + 1) / 2 == i / 2 + 1 && (i + 2) / 2 == (i + 1) / 2;
      assert t.sent == s.sent + [Durable(i / 2)];
      assert t.rows == s.rows;
    }
  }

  lemma BusyIsAsleep(ring: nat, cap: nat)
    requires ring > 0 && cap > 0
    ensures var s := Busy(ring, cap, 2 * (cap + ring));
            Asleep(s) && |s.rows| == |s.sent| == cap + ring && Head(s) == cap && s.rows == NthRows(cap + ring)
  {
    NthRowsDiffer(cap + ring);
  }

  lemma FirstRowIsOldest(n: nat)
    ensures LaterThan(NthRows(n + 1), 0) == Between(1, n + 1)
  {
    var rows := NthRows(n + 1);
    EarlierIsStrict(rows, 0);
    forall j: nat | 1 <= j <= n ensures Earlier(rows, 0, j) { assert rows[0].time < rows[j].time; }
  }

  ghost function BusyRun(ring: nat, cap: nat, n: nat): (seq<State>, seq<Step>) {
    (seq(n + 1, i requires 0 <= i < n + 1 => Busy(ring, cap, i)), seq(n, i requires 0 <= i < n => BusyStep(i)))
  }

  lemma BusyRunIsARun(ring: nat, cap: nat, n: nat)
    requires ring > 0 && cap > 0
    ensures var run := BusyRun(ring, cap, n); IsRun(run.0, run.1) && |run.1| == n && run.0[n] == Busy(ring, cap, n)
  {
    var (states, steps) := BusyRun(ring, cap, n);
    forall i | 0 <= i < n ensures TakesStep(states, steps, i) { BusySteps(ring, cap, i); }
  }

  /** With `dropped` equal to the replay window the loop still takes the storage
      path, although the events left in the ring have pushed rows out of that
      window: for every ring and window there is a run on which row 0 is
      broadcast, dropped, and never accounted for. */
  lemma LagWithinTheLimitCanLoseARow(ring: nat, cap: nat)
    requires ring > 0 && cap > 0
    ensures exists states: seq<State>, steps :: LosesRow(states, steps, cap, 0) && states[0].ring == ring && states[0].cap == cap
  {
    var n := 2 * (cap + ring);
    BusyIsAsleep(ring, cap);
    BusyRunIsARun(ring, cap, n);
    FirstRowIsOldest(cap + ring - 1);
    var run := BusyRun(ring, cap, n);
    var states, steps := WakingLosesRow(run.0, run.1, 0);
  }

  // Second run: one row with an old sender time arrives when `cap` newer rows
  // are stored, and a single event of the ring is dropped.

  ghost function Tardy(ring: nat, cap: nat, i: nat): State {
    State(ring, cap, NthRows(cap) + (if i == 0 then [] else [NthRow(cap).(time := 0)]),
          if i < 2 then [] else [Durable(cap)] + seq(i - 2, n => Ambient), 0, [], [], Draining, [])
  }

  ghost function TardyStep(cap: nat, i: nat): Step {
    if i == 0 then Store(NthRow(cap).(time := 0)) else if i == 1 then Send(Durable(cap)) else Send(Ambient)
  }

  lemma TardySteps(ring: nat, cap: nat, i: nat)
    ensures Enabled(Tardy(ring, cap, i), TardyStep(cap, i)) && Next(Tardy(ring, cap, i), TardyStep(cap, i)) == Tardy(ring, cap, i + 1)
  {
    var (s, t) := (Tardy(ring, cap, i), Tardy(ring, cap, i + 1));
    NthRowsDiffer(cap);
    if i == 0 {
      assert t.rows == s.rows + [NthRow(cap).(time := 0)];
    } else if i == 1 {
      assert t.sent == s.sent + [Durable(cap)];
    } else {
      assert t.sent == s.sent + [Ambient];
    }
  }

  lemma TardyIsAsleep(ring: nat, cap: nat)
    requires ring > 0 && cap > 0
    ensures var s := Tardy(ring, cap, ring + 2);
            Asleep(s) && |s.sent| == ring + 1 && Head(s) == 1 && s.rows == NthRows(cap) + [NthRow(cap).(time := 0)]
  {
    NthRowsDiffer(cap);
  }

  lemma TardyRowIsOldest(cap: nat)
    ensures LaterThan(NthRows(cap) + [NthRow(cap).(time := 0)], cap) == Between(0, cap)
  {
    var rows := NthRows(cap) + [NthRow(cap).(time := 0)];
    EarlierIsStrict(rows, cap);
    forall j: nat | j < cap ensures Earlier(rows, cap, j) { assert rows[cap].time < rows[j].time; }
  }

  ghost function TardyRun(ring: nat, cap: nat, n: nat): (seq<State>, seq<Step>) {
    (seq(n + 1, i requires 0 <= i < n + 1 => Tardy(ring, cap, i)), seq(n, i requires 0 <= i < n => TardyStep(cap, i)))
  }

  lemma TardyRunIsARun(ring: nat, cap: nat, n: nat)
    requires ring > 0 && cap > 0
    ensures var run := TardyRun(ring, cap, n); IsRun(run.0, run.1) && |run.1| == n && run.0[n] == Tardy(ring, cap, n)
  {
    var (states, steps) := TardyRun(ring, cap, n);
    NthRowsDiffer(cap);
    forall i | 0 <= i < n ensures TakesStep(states, steps, i) { TardySteps(ring, cap, i); }
  }

  /** One dropped event is enough: for every ring and window there is a run on
      which the row stored last is the oldest by its sender's time, the page does
      not hold it, and it is never accounted for. */
  lemma LateRowIsLost(ring: nat, cap: nat)
    requires ring > 0 && cap > 0
    ensures exists states: seq<State>, steps ::
              LosesRow(states, steps, 1, cap) && states[0].ring == ring && states[0].cap == cap && |states[|steps|].rows| == cap + 1
  {
    var n := ring + 2;
    TardyIsAsleep(ring, cap);
    TardyRunIsARun(ring, cap, n);
    TardyRowIsOldest(cap);
    var run := TardyRun(ring, cap, n);
    var states, steps := WakingLosesRow(run.0, run.1, cap);
  }
}
