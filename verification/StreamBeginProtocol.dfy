/** Concurrent `stream_begin` requests. */
module StreamBeginProtocol {
  // Concurrent `stream_begin` requests against one `StreamSessionStore`: the
  // reserve / wait / retry loop, the leader's open, `insert_new` and `complete`,
  // cancellation through the reservation guard, session removal by finish,
  // cancel and the idle sweep, and the watch channel that wakes followers.

  import opened BoundedFifo

  import opened StreamBeginStore

  datatype Answer =
    | Begun(receipt: Receipt)
    | Conflict
    | StreamIdInUse
    | Failed                     // open failed, or the caller was cancelled

  datatype Pc =
    | Trying
    | Subscribed(cell: nat)                 // handed `Wait`, has not looked at the cell yet
    | Blocked(cell: nat)                    // saw it unset, waits for a change
    | Leading(sid: StreamId, cell: nat)     // holds the reservation guard
    | Inserted(sid: StreamId, cell: nat)    // session inserted, `complete` is next
    | Notifying(cell: nat, answer: Answer)  // reservation removed, the cell not yet set
    | Done(answer: Answer)
  {
    predicate Reserving() { Leading? || Inserted? }
    predicate Listening() { Subscribed? || Blocked? }
    predicate Sending() { Leading? || Inserted? || Notifying? }
  }

  datatype Caller = Caller(req: RequestId, fp: Fingerprint, requested: Option<StreamId>, pc: Pc)

  datatype State = State(
    cap: nat,
    sessions: set<StreamId>,
    window: seq<Slot<RequestId, Receipt>>,
    inFlight: map<RequestId, InFlight>,
    reserved: set<StreamId>,
    cells: seq<bool>,
    callers: seq<Caller>)

  datatype Step =
    | Arrive(req: RequestId, fp: Fingerprint, requested: Option<StreamId>)
    | Reserve(c: nat, random: StreamId)
    | Look(c: nat)
    | Wake(c: nat)
    | Cancel(c: nat)                          // a waiting follower goes away
    | Insert(c: nat)                          // open succeeded, then `insert_new`
    | Complete(c: nat, capability: Capability)
    | Release(c: nat)                         // open failed or the leader was cancelled
    | Notify(c: nat)
    | RemoveSession(sid: StreamId)

  ghost function TablesOf(s: State): Tables {
    Tables(s.sessions, s.window, s.inFlight, s.reserved, |s.cells|)
  }

  ghost function At(s: State, c: nat, pc: Pc): State
    requires c < |s.callers|
  {
    s.(callers := s.callers[c := s.callers[c].(pc := pc)])
  }

  ghost predicate Enabled(s: State, st: Step) {
    match st
    case Arrive(_, _, _) => true
    case Reserve(c, random) =>
      && c < |s.callers| && s.callers[c].pc.Trying?
      && (s.callers[c].requested.None? ==> !Taken(TablesOf(s), random))
    case Look(c) => c < |s.callers| && s.callers[c].pc.Subscribed? && s.callers[c].pc.cell < |s.cells|
    case Wake(c) => c < |s.callers| && s.callers[c].pc.Blocked? && s.callers[c].pc.cell < |s.cells| && s.cells[s.callers[c].pc.cell]
    case Cancel(c) => c < |s.callers| && (s.callers[c].pc.Listening() || s.callers[c].pc.Trying?)
    case Insert(c) => c < |s.callers| && s.callers[c].pc.Leading?
    case Complete(c, _) => c < |s.callers| && s.callers[c].pc.Inserted?
    case Release(c) => c < |s.callers| && s.callers[c].pc.Leading?
    case Notify(c) => c < |s.callers| && s.callers[c].pc.Notifying? && s.callers[c].pc.cell < |s.cells|
    case RemoveSession(sid) => sid in s.sessions
  }

  ghost function ReserveNext(s: State, c: nat, random: StreamId): State
    requires c < |s.callers|
  {
    var caller := s.callers[c];
    var outcome := ReserveOutcome(TablesOf(s), caller.req, caller.fp, caller.requested, random);
    var tb := ReserveTables(TablesOf(s), caller.req, caller.fp, caller.requested, random);
    At(s.(reserved := tb.reserved, inFlight := tb.inFlight, cells := if outcome.Leader? then s.cells + [false] else s.cells),
       c,
       match outcome
       case Completed(r) => Done(Begun(r))
       case Wait(cell) => Subscribed(cell)
       case Leader(sid, cell) => Leading(sid, cell)
       case RequestConflict => Done(Conflict)
       case IdInUse => Done(StreamIdInUse))
  }

  /** The reservation of a leader is found when it is removed. */
  ghost predicate Backed(s: State, c: nat)
    requires c < |s.callers| && s.callers[c].pc.Reserving()
  {
    ReservationFound(TablesOf(s), s.callers[c].req, s.callers[c].pc.sid)
  }

  /** `complete_stream_begin` up to the release of the lock. */
  ghost function CompleteNext(s: State, c: nat, capability: Capability): State
    requires c < |s.callers| && s.callers[c].pc.Inserted?
  {
    var caller := s.callers[c];
    var receipt := Receipt(caller.fp, caller.pc.sid, capability);
    var tb := CompleteTables(TablesOf(s), s.cap, caller.req, caller.pc.sid, receipt);
    At(s.(inFlight := tb.inFlight, reserved := tb.reserved, window := tb.window),
       c, if Backed(s, c) then Notifying(s.inFlight[caller.req].cell, Begun(receipt)) else Done(Begun(receipt)))
  }

  /** `release_stream_begin`, run by the guard's drop. */
  ghost function ReleaseNext(s: State, c: nat, answer: Answer): State
    requires c < |s.callers| && s.callers[c].pc.Reserving()
  {
    var caller := s.callers[c];
    var tb := ReleaseTables(TablesOf(s), caller.req, caller.pc.sid);
    At(s.(inFlight := tb.inFlight, reserved := tb.reserved),
       c, if Backed(s, c) then Notifying(s.inFlight[caller.req].cell, answer) else Done(answer))
  }

  /** A watch send is lost when nobody listens; otherwise the cell is set. */
  ghost predicate HasListener(s: State, cell: nat) {
    exists d :: 0 <= d < |s.callers| && s.callers[d].pc.Listening() && s.callers[d].pc.cell == cell
  }

  ghost function Next(s: State, st: Step): State
    requires Enabled(s, st)
  {
    match st
    case Arrive(req, fp, requested) => s.(callers := s.callers + [Caller(req, fp, requested, Trying)])
    case Reserve(c, random) => ReserveNext(s, c, random)
    case Look(c) => var cell := s.callers[c].pc.cell; At(s, c, if s.cells[cell] then Trying else Blocked(cell))
    case Wake(c) => At(s, c, Trying)
    case Cancel(c) => At(s, c, Done(Failed))
    case Insert(c) =>
      var (sid, cell) := (s.callers[c].pc.sid, s.callers[c].pc.cell);
      if sid in s.sessions then ReleaseNext(s, c, StreamIdInUse)
      else At(s.(sessions := s.sessions + {sid}), c, Inserted(sid, cell))
    case Complete(c, capability) => CompleteNext(s, c, capability)
    case Release(c) => ReleaseNext(s, c, Failed)
    case Notify(c) =>
      var (cell, answer) := (s.callers[c].pc.cell, s.callers[c].pc.answer);
      At(s.(cells := if HasListener(s, cell) then s.cells[cell := true] else s.cells), c, Done(answer))
    case RemoveSession(sid) => s.(sessions := s.sessions - {sid})
  }

  ghost predicate Init(s: State) {
    && s.cap > 0 && s.sessions == {} && s.window == [] && s.inFlight == map[]
    && s.reserved == {} && s.cells == [] && s.callers == []
  }

  ghost predicate IsRun(states: seq<State>, steps: seq<Step>) {
    && |states| == |steps| + 1
    && Init(states[0])
    && forall i :: 0 <= i < |steps| ==> TakesStep(states, steps, i)
  }

  ghost predicate TakesStep(states: seq<State>, steps: seq<Step>, i: nat)
    requires |states| == |steps| + 1 && i < |steps|
  {
    Enabled(states[i], steps[i]) && states[i + 1] == Next(states[i], steps[i])
  }

  // ---------------------------------------------------------------- invariant

  /** Reserved ids are the ids in flight; stream ids are unique across requests
      in flight and receipts; a request is in flight or has a receipt, not both. */
  ghost predicate IdsUnique(window: seq<Slot<RequestId, Receipt>>, inFlight: map<RequestId, InFlight>, reserved: set<StreamId>) {
    && (forall r :: r in inFlight ==> inFlight[r].sid in reserved && !HasKey(window, r))
    && (forall sid :: sid in reserved ==> ReservedBy(inFlight, sid))
    && (forall r, q :: r in inFlight && q in inFlight && inFlight[r].sid == inFlight[q].sid ==> r == q)
    && (forall i :: 0 <= i < |window| ==> window[i].value.sid !in reserved)
    && (forall i, j :: 0 <= i < j < |window| ==> window[i].value.sid != window[j].value.sid)
  }

  ghost predicate ReservedBy(inFlight: map<RequestId, InFlight>, sid: StreamId) {
    exists r :: r in inFlight && inFlight[r].sid == sid
  }

  /** Each caller with a guard has its own reservation, untouched, and its
      stream id has no session until it inserts one. */
  ghost predicate GuardsBacked(s: State) {
    forall c :: 0 <= c < |s.callers| && s.callers[c].pc.Reserving() ==>
      && s.callers[c].req in s.inFlight
      && s.inFlight[s.callers[c].req] == InFlight(s.callers[c].fp, s.callers[c].pc.sid, s.callers[c].pc.cell)
      && (s.callers[c].pc.Leading? ==> s.callers[c].pc.sid !in s.sessions)
  }

  /** Each reservation has a caller that will remove it, and no two callers
      answer for one watch cell. */
  ghost predicate SendersUnique(s: State) {
    && (forall r :: r in s.inFlight ==> GuardedBy(s, r))
    && (forall c :: 0 <= c < |s.callers| && (s.callers[c].pc.Sending() || s.callers[c].pc.Listening()) ==> s.callers[c].pc.cell < |s.cells|)
    && (forall r :: r in s.inFlight ==> s.inFlight[r].cell < |s.cells|)
    && (forall c, d :: 0 <= c < d < |s.callers| && s.callers[c].pc.Sending() && s.callers[d].pc.Sending() ==>
          s.callers[c].pc.cell != s.callers[d].pc.cell)
  }

  ghost predicate GuardedBy(s: State, r: RequestId) {
    exists c :: 0 <= c < |s.callers| && s.callers[c].pc.Reserving() && s.callers[c].req == r
  }

  ghost predicate SenderOf(s: State, cell: nat) {
    exists c :: 0 <= c < |s.callers| && s.callers[c].pc.Sending() && s.callers[c].pc.cell == cell
  }

  /** Nobody listens to a cell that is unset and has no sender left. */
  ghost predicate NoLostWakeup(s: State) {
    forall c :: 0 <= c < |s.callers| && s.callers[c].pc.Listening() ==>
      s.callers[c].pc.cell < |s.cells| && (s.cells[s.callers[c].pc.cell] || SenderOf(s, s.callers[c].pc.cell))
  }

  ghost predicate Inv(s: State) {
    && s.cap > 0 && Wellformed(s.window, s.cap)
    && IdsUnique(s.window, s.inFlight, s.reserved) && GuardsBacked(s) && SendersUnique(s) && NoLostWakeup(s)
  }

  // The tables.

  lemma IdsReserve(window: seq<Slot<RequestId, Receipt>>, inFlight: map<RequestId, InFlight>, reserved: set<StreamId>, r: RequestId, f: InFlight)
    requires IdsUnique(window, inFlight, reserved)
    requires r !in inFlight && !HasKey(window, r) && f.sid !in reserved && !InReceipts(window, f.sid)
    ensures IdsUnique(window, inFlight[r := f], reserved + {f.sid})
  {
    var grown := inFlight[r := f];
    forall sid | sid in reserved + {f.sid} ensures ReservedBy(grown, sid) {
      if sid == f.sid { assert grown[r].sid == sid; }
      else {
        var q :| q in inFlight && inFlight[q].sid == sid;
        assert grown[q].sid == sid;
      }
    }
  }

  lemma IdsRemove(window: seq<Slot<RequestId, Receipt>>, inFlight: map<RequestId, InFlight>, reserved: set<StreamId>, r: RequestId)
    requires IdsUnique(window, inFlight, reserved) && r in inFlight
    ensures IdsUnique(window, inFlight - {r}, reserved - {inFlight[r].sid})
    ensures !InReceipts(window, inFlight[r].sid)
  {
    var rest := inFlight - {r};
    forall sid | sid in reserved - {inFlight[r].sid} ensures ReservedBy(rest, sid) {
      var q :| q in inFlight && inFlight[q].sid == sid;
      assert rest[q].sid == sid;
    }
  }

  lemma IdsIssue(window: seq<Slot<RequestId, Receipt>>, cap: nat, inFlight: map<RequestId, InFlight>, reserved: set<StreamId>, e: Slot<RequestId, Receipt>)
    requires IdsUnique(window, inFlight, reserved)
    requires e.key !in inFlight && e.value.sid !in reserved && !InReceipts(window, e.value.sid)
    ensures IdsUnique(Put(window, cap, e), inFlight, reserved)
  {
    var w := Put(window, cap, e);
    forall i | 0 <= i < |w| ensures w[i] == e || w[i] in window {}
  }

  // The callers.

  lemma GuardsReserve(s: State, c: nat, random: StreamId)
    requires Inv(s) && Enabled(s, Reserve(c, random))
    ensures GuardsBacked(ReserveNext(s, c, random))
  {
  }

  /** Removing one leader's reservation leaves all the others in place. */
  lemma GuardsRemove(s: State, t: State, c: nat)
    requires Inv(s) && c < |s.callers| && s.callers[c].pc.Reserving()
    requires t.inFlight == s.inFlight - {s.callers[c].req} && t.sessions == s.sessions
    requires |t.callers| == |s.callers| && !t.callers[c].pc.Reserving()
    requires forall d :: 0 <= d < |s.callers| && d != c ==> t.callers[d] == s.callers[d]
    ensures GuardsBacked(t)
  {
    assert forall d :: 0 <= d < |t.callers| && t.callers[d].pc.Reserving() ==> s.callers[d].req != s.callers[c].req;
  }

  lemma ReservationAlwaysFound(s: State, c: nat)
    requires Inv(s) && c < |s.callers| && s.callers[c].pc.Reserving()
    ensures Backed(s, c)
  {
  }

  lemma IdsPreserved(s: State, st: Step)
    requires Inv(s) && Enabled(s, st)
    ensures var t := Next(s, st); IdsUnique(t.window, t.inFlight, t.reserved)
  {
    var t := Next(s, st);
    if st.Reserve? {
      if t.callers[st.c].pc.Leading? {
        IdsReserve(s.window, s.inFlight, s.reserved, s.callers[st.c].req, t.inFlight[s.callers[st.c].req]);
      }
    } else if st.Complete? {
      var caller := s.callers[st.c];
      ReservationAlwaysFound(s, st.c);
      IdsRemove(s.window, s.inFlight, s.reserved, caller.req);
      IdsIssue(s.window, s.cap, t.inFlight, t.reserved, Slot(caller.req, Receipt(caller.fp, caller.pc.sid, st.capability)));
    } else if st.Release? {
      ReservationAlwaysFound(s, st.c);
      IdsRemove(s.window, s.inFlight, s.reserved, s.callers[st.c].req);
    }
  }

  lemma GuardsMove(s: State, t: State, c: nat)
    requires GuardsBacked(s) && c < |s.callers| && |t.callers| == |s.callers| && !t.callers[c].pc.Reserving()
    requires forall d :: 0 <= d < |s.callers| && d != c ==> t.callers[d] == s.callers[d]
    requires t.inFlight == s.inFlight && t.sessions == s.sessions
    ensures GuardsBacked(t)
  {
  }

  /** The id a leader inserts is nobody else's, so `insert_new` succeeds. */
  lemma GuardsInsert(s: State, c: nat)
    requires Inv(s) && Enabled(s, Insert(c))
    ensures GuardsBacked(Next(s, Insert(c)))
  {
    assert forall d :: 0 <= d < |s.callers| && s.callers[d].pc.Leading? && d != c ==> s.callers[d].pc.sid != s.callers[c].pc.sid;
  }

  lemma GuardsPreserved(s: State, st: Step)
    requires Inv(s) && Enabled(s, st)
    ensures GuardsBacked(Next(s, st))
  {
    var t := Next(s, st);
    if st.Reserve? {
      GuardsReserve(s, st.c, st.random);
    } else if st.Complete? || st.Release? {
      ReservationAlwaysFound(s, st.c);
      GuardsRemove(s, t, st.c);
    } else if st.Insert? {
      GuardsInsert(s, st.c);
    } else if !st.Arrive? && !st.RemoveSession? {
      GuardsMove(s, t, st.c);
    }
  }

  // The watch cells.

  ghost predicate OnlyMoved(s: State, t: State, c: nat) {
    c < |s.callers| && |t.callers| == |s.callers| && forall d :: 0 <= d < |s.callers| && d != c ==> t.callers[d] == s.callers[d]
  }

  /** `c` keeps answering for its cell, or takes up a fresh one. */
  ghost predicate KeepsSending(s: State, t: State, c: nat)
    requires OnlyMoved(s, t, c)
  {
    && |s.cells| <= |t.cells|
    && (s.callers[c].pc.Sending() ==> t.callers[c].pc.Sending() && t.callers[c].pc.cell == s.callers[c].pc.cell)
    && (t.callers[c].pc.Sending() && !s.callers[c].pc.Sending() ==> t.callers[c].pc.cell == |s.cells| < |t.cells|)
    && (t.callers[c].pc.Listening() ==> t.callers[c].pc.cell < |s.cells|)
  }

  lemma SenderStays(s: State, t: State, c: nat, cell: nat)
    requires OnlyMoved(s, t, c) && KeepsSending(s, t, c) && SenderOf(s, cell)
    ensures SenderOf(t, cell)
  {
    var d :| 0 <= d < |s.callers| && s.callers[d].pc.Sending() && s.callers[d].pc.cell == cell;
    assert t.callers[d].pc.Sending() && t.callers[d].pc.cell == cell;
  }

  lemma GuardedStays(s: State, t: State, c: nat, r: RequestId)
    requires OnlyMoved(s, t, c) && GuardedBy(s, r)
    requires s.callers[c].pc.Reserving() && s.callers[c].req == r ==> t.callers[c].pc.Reserving() && t.callers[c].req == r
    ensures GuardedBy(t, r)
  {
    var d :| 0 <= d < |s.callers| && s.callers[d].pc.Reserving() && s.callers[d].req == r;
    assert t.callers[d].pc.Reserving() && t.callers[d].req == r;
  }

  /** What a step of caller `c` may do to the reservations and its own sending. */
  ghost predicate CallerStep(s: State, t: State, c: nat) {
    && OnlyMoved(s, t, c) && t.callers[c].req == s.callers[c].req
    && (|| (KeepsSending(s, t, c) && t.inFlight == s.inFlight && (s.callers[c].pc.Reserving() ==> t.callers[c].pc.Reserving()))
        || (KeepsSending(s, t, c) && t.callers[c].pc.Leading? && t.callers[c].pc.cell == |s.cells| && |t.cells| == |s.cells| + 1
            && t.inFlight.Keys == s.inFlight.Keys + {s.callers[c].req}
            && t.inFlight == s.inFlight[s.callers[c].req := t.inFlight[s.callers[c].req]]
            && t.inFlight[s.callers[c].req].cell == |s.cells|)
        || (KeepsSending(s, t, c) && t.callers[c].pc.Notifying? && t.inFlight == s.inFlight - {s.callers[c].req})
        || (s.callers[c].pc.Notifying? && t.callers[c].pc.Done? && t.inFlight == s.inFlight && |t.cells| == |s.cells|))
  }

  lemma ReserveIsCallerStep(s: State, c: nat, random: StreamId)
    requires Inv(s) && Enabled(s, Reserve(c, random))
    ensures CallerStep(s, ReserveNext(s, c, random), c)
  {
  }

  lemma RemovalIsCallerStep(s: State, st: Step)
    requires Inv(s) && Enabled(s, st) && (st.Complete? || st.Release?)
    ensures CallerStep(s, Next(s, st), st.c)
  {
    ReservationAlwaysFound(s, st.c);
  }

  lemma StepsAreCallerSteps(s: State, st: Step)
    requires Inv(s) && Enabled(s, st) && !st.Arrive? && !st.RemoveSession?
    ensures CallerStep(s, Next(s, st), st.c)
  {
    if st.Reserve? {
      ReserveIsCallerStep(s, st.c, st.random);
    } else if st.Complete? || st.Release? {
      RemovalIsCallerStep(s, st);
    }
  }

  lemma GuardedPreserved(s: State, t: State, c: nat)
    requires SendersUnique(s) && CallerStep(s, t, c)
    ensures forall r :: r in t.inFlight ==> GuardedBy(t, r)
  {
    forall r | r in t.inFlight ensures GuardedBy(t, r) {
      if r == s.callers[c].req && t.callers[c].pc.Leading? {
        assert t.callers[c].pc.Reserving() && t.callers[c].req == r;
      } else {
        GuardedStays(s, t, c, r);
      }
    }
  }

  lemma SendersMove(s: State, t: State, c: nat)
    requires SendersUnique(s) && CallerStep(s, t, c)
    ensures SendersUnique(t)
  {
    GuardedPreserved(s, t, c);
  }

  lemma SendersArrive(s: State, req: RequestId, fp: Fingerprint, requested: Option<StreamId>)
    requires SendersUnique(s)
    ensures SendersUnique(Next(s, Arrive(req, fp, requested)))
  {
    var t := Next(s, Arrive(req, fp, requested));
    forall r | r in t.inFlight ensures GuardedBy(t, r) {
      var d :| 0 <= d < |s.callers| && s.callers[d].pc.Reserving() && s.callers[d].req == r;
      assert t.callers[d] == s.callers[d];
    }
  }

  lemma SendersRemoveSession(s: State, sid: StreamId)
    requires SendersUnique(s) && Enabled(s, RemoveSession(sid))
    ensures SendersUnique(Next(s, RemoveSession(sid)))
  {
    var t := Next(s, RemoveSession(sid));
    assert forall r :: GuardedBy(s, r) ==> GuardedBy(t, r);
  }

  lemma SendersPreserved(s: State, st: Step)
    requires Inv(s) && Enabled(s, st)
    ensures SendersUnique(Next(s, st))
  {
    if st.Arrive? {
      SendersArrive(s, st.req, st.fp, st.requested);
    } else if st.RemoveSession? {
      SendersRemoveSession(s, st.sid);
    } else {
      StepsAreCallerSteps(s, st);
      SendersMove(s, Next(s, st), st.c);
    }
  }

  // No lost wake-up.

  ghost predicate Heard(s: State, cell: nat) {
    cell < |s.cells| && (s.cells[cell] || SenderOf(s, cell))
  }

  lemma HeardStays(s: State, t: State, c: nat)
    requires NoLostWakeup(s) && OnlyMoved(s, t, c) && KeepsSending(s, t, c)
    requires forall k :: 0 <= k < |s.cells| && s.cells[k] ==> t.cells[k]
    requires t.callers[c].pc.Listening() ==> Heard(s, t.callers[c].pc.cell)
    ensures NoLostWakeup(t)
  {
    forall d | 0 <= d < |t.callers| && t.callers[d].pc.Listening() ensures Heard(t, t.callers[d].pc.cell) {
      var cell := t.callers[d].pc.cell;
      assert Heard(s, cell);
      if !s.cells[cell] { SenderStays(s, t, c, cell); }
    }
  }

  /** Setting the cell is what the last sender does with it. */
  lemma HeardNotify(s: State, c: nat)
    requires Inv(s) && Enabled(s, Notify(c))
    ensures NoLostWakeup(Next(s, Notify(c)))
  {
    var t := Next(s, Notify(c));
    var set_ := s.callers[c].pc.cell;
    forall d | 0 <= d < |t.callers| && t.callers[d].pc.Listening() ensures Heard(t, t.callers[d].pc.cell) {
      var cell := s.callers[d].pc.cell;
      assert Heard(s, cell);
      if cell == set_ {
        assert HasListener(s, set_);
      } else if !s.cells[cell] {
        var e :| 0 <= e < |s.callers| && s.callers[e].pc.Sending() && s.callers[e].pc.cell == cell;
        assert t.callers[e] == s.callers[e];
      }
    }
  }

  lemma HeardArrive(s: State, t: State)
    requires NoLostWakeup(s) && t.cells == s.cells
    requires t.callers == s.callers || (|t.callers| > 0 && t.callers[..|t.callers| - 1] == s.callers && t.callers[|t.callers| - 1].pc.Trying?)
    ensures NoLostWakeup(t)
  {
    forall d | 0 <= d < |t.callers| && t.callers[d].pc.Listening() ensures Heard(t, t.callers[d].pc.cell) {
      assert t.callers[d] == s.callers[d];
      var cell := s.callers[d].pc.cell;
      if !s.cells[cell] {
        var e :| 0 <= e < |s.callers| && s.callers[e].pc.Sending() && s.callers[e].pc.cell == cell;
        assert t.callers[e] == s.callers[e];
      }
    }
  }

  lemma WaitersHaveASender(s: State, r: RequestId)
    requires Inv(s) && r in s.inFlight
    ensures Heard(s, s.inFlight[r].cell)
  {
    var c :| 0 <= c < |s.callers| && s.callers[c].pc.Reserving() && s.callers[c].req == r;
    assert s.callers[c].pc.Sending() && s.callers[c].pc.cell == s.inFlight[r].cell;
  }

  lemma WakeupsPreserved(s: State, st: Step)
    requires Inv(s) && Enabled(s, st)
    ensures NoLostWakeup(Next(s, st))
  {
    var t := Next(s, st);
    if st.Arrive? || st.RemoveSession? {
      HeardArrive(s, t);
    } else if st.Notify? {
      HeardNotify(s, st.c);
    } else {
      StepsAreCallerSteps(s, st);
      if st.Reserve? && s.callers[st.c].req in s.inFlight { WaitersHaveASender(s, s.callers[st.c].req); }
      HeardStays(s, t, st.c);
    }
  }

  lemma StepPreserves(s: State, st: Step)
    requires Inv(s) && Enabled(s, st)
    ensures Inv(Next(s, st))
  {
    IdsPreserved(s, st);
    GuardsPreserved(s, st);
    SendersPreserved(s, st);
    WakeupsPreserved(s, st);
    if st.Complete? {
      var caller := s.callers[st.c];
      PutKeepsWellformed(s.window, s.cap, Slot(caller.req, Receipt(caller.fp, caller.pc.sid, st.capability)));
    }
  }

  lemma {:induction false} ReachableStatesKeepInv(states: seq<State>, steps: seq<Step>, i: nat)
    requires IsRun(states, steps) && i < |states|
    ensures Inv(states[i])
  {
    if i > 0 {
      ReachableStatesKeepInv(states, steps, i - 1);
      assert TakesStep(states, steps, i - 1);
      StepPreserves(states[i - 1], steps[i - 1]);
    }
  }

  // ------------------------------------------------------------ main results

  /** In every reachable state the reserved ids are exactly the ids in flight,
      and a stream id belongs to at most one request in flight or receipt. */
  lemma StreamIdsHaveOneHolder(states: seq<State>, steps: seq<Step>, i: nat)
    requires IsRun(states, steps) && i < |states|
    ensures var s := states[i];
            && s.reserved == (set r | r in s.inFlight :: s.inFlight[r].sid)
            && (forall r, q :: r in s.inFlight && q in s.inFlight && r != q ==> s.inFlight[r].sid != s.inFlight[q].sid)
            && (forall r :: r in s.inFlight ==> !InReceipts(s.window, s.inFlight[r].sid))
            && (forall a, b :: 0 <= a < b < |s.window| ==> s.window[a].value.sid != s.window[b].value.sid)
  {
    ReachableStatesKeepInv(states, steps, i);
    var s := states[i];
    forall sid | sid in s.reserved ensures ReservedBy(s.inFlight, sid) {}
  }

  /** A leader's `insert_new` never collides, and its `complete` or its guard's
      release always finds the reservation and, on completion, a free receipt slot. */
  lemma LeaderNeverStumbles(states: seq<State>, steps: seq<Step>, i: nat, c: nat)
    requires IsRun(states, steps) && i < |states| && c < |states[i].callers|
    requires states[i].callers[c].pc.Reserving()
    ensures Backed(states[i], c)
    ensures !HasKey(states[i].window, states[i].callers[c].req)
    ensures states[i].callers[c].pc.Leading? ==> Next(states[i], Insert(c)).callers[c].pc.Inserted?
  {
    ReachableStatesKeepInv(states, steps, i);
  }

  /** No lost wake-up: a follower whose leader's reservation is gone finds its
      cell set, or the remover stands right before the step that sets it. */
  lemma FollowersAreWoken(states: seq<State>, steps: seq<Step>, i: nat, c: nat)
    requires IsRun(states, steps) && i < |states| && c < |states[i].callers|
    requires states[i].callers[c].pc.Listening()
    ensures var s := states[i];
            var cell := s.callers[c].pc.cell;
            cell < |s.cells| &&
            (|| s.cells[cell]
             || (exists r :: r in s.inFlight && s.inFlight[r].cell == cell)
             || (exists d :: 0 <= d < |s.callers| && s.callers[d].pc.Notifying? && s.callers[d].pc.cell == cell
                             && Next(s, Notify(d)).cells[cell]))
  {
    ReachableStatesKeepInv(states, steps, i);
    var s := states[i];
    var cell := s.callers[c].pc.cell;
    assert HasListener(s, cell);
    if !s.cells[cell] {
      var d :| 0 <= d < |s.callers| && s.callers[d].pc.Sending() && s.callers[d].pc.cell == cell;
      if s.callers[d].pc.Notifying? {
        assert Next(s, Notify(d)).cells[cell];
      } else {
        assert s.callers[d].req in s.inFlight && s.inFlight[s.callers[d].req].cell == cell;
      }
    }
  }

  ghost predicate EvictedAt(states: seq<State>, m: nat, req: RequestId)
    requires m + 1 < |states|
  {
    HasKey(states[m].window, req) && !HasKey(states[m + 1].window, req)
  }

  ghost predicate EvictedBetween(states: seq<State>, lo: nat, hi: nat, req: RequestId)
    requires hi < |states|
  {
    exists m :: lo <= m < hi && EvictedAt(states, m, req)
  }

  lemma ReceiptUntilEvicted(states: seq<State>, steps: seq<Step>, m: nat, e: Slot<RequestId, Receipt>)
    requires IsRun(states, steps) && m < |steps| && e in states[m].window && !EvictedAt(states, m, e.key)
    ensures e in states[m + 1].window
  {
    ReachableStatesKeepInv(states, steps, m);
    assert TakesStep(states, steps, m);
    var (s, st) := (states[m], steps[m]);
    if st.Complete? {
      ReservationAlwaysFound(s, st.c);
      var i :| 0 <= i < |s.window| && s.window[i] == e;
      PutKeepsRetainedValue(s.window, s.cap, Slot(s.callers[st.c].req, Receipt(s.callers[st.c].fp, s.callers[st.c].pc.sid, st.capability)), i);
    }
  }

  lemma {:induction false} ReceiptStays(states: seq<State>, steps: seq<Step>, lo: nat, hi: nat, e: Slot<RequestId, Receipt>)
    requires IsRun(states, steps) && lo <= hi < |states|
    requires e in states[lo].window && !EvictedBetween(states, lo, hi, e.key)
    ensures e in states[hi].window
  {
    if lo < hi {
      ReceiptStays(states, steps, lo, hi - 1, e);
      ReceiptUntilEvicted(states, steps, hi - 1, e);
    }
  }

  /** Until its receipt is evicted, a request id is answered with that same
      receipt for its own fingerprint and with a conflict for any other, and is
      never begun a second time. */
  lemma SameReceiptUntilEviction(states: seq<State>, steps: seq<Step>, lo: nat, hi: nat, e: Slot<RequestId, Receipt>, c: nat)
    requires IsRun(states, steps) && lo <= hi < |states|
    requires e in states[lo].window && !EvictedBetween(states, lo, hi, e.key)
    requires c < |states[hi].callers| && states[hi].callers[c].req == e.key
    ensures !states[hi].callers[c].pc.Reserving()
    ensures states[hi].callers[c].pc.Trying? ==> forall random ::
              ReserveNext(states[hi], c, random).callers[c].pc
              == Done(if e.value.fp == states[hi].callers[c].fp then Begun(e.value) else Conflict)
  {
    ReceiptStays(states, steps, lo, hi, e);
    ReachableStatesKeepInv(states, steps, hi);
    var w := states[hi].window;
    var i :| 0 <= i < |w| && w[i] == e;
    assert HasKey(w, e.key) && Find(w, e.key) == e.value;
  }

  /** What a leader answers its own caller is what every later caller with the
      same request gets: completion installs exactly that receipt. */
  lemma CompletionInstallsTheAnswer(states: seq<State>, steps: seq<Step>, i: nat)
    requires IsRun(states, steps) && i < |steps| && steps[i].Complete? && steps[i].c < |states[i].callers|
    ensures steps[i].c < |states[i + 1].callers|
    ensures var pc := states[i + 1].callers[steps[i].c].pc;
            pc.Notifying? && pc.answer.Begun? && Slot(states[i].callers[steps[i].c].req, pc.answer.receipt) in states[i + 1].window
  {
    ReachableStatesKeepInv(states, steps, i);
    assert TakesStep(states, steps, i);
    ReservationAlwaysFound(states[i], steps[i].c);
    var w := states[i + 1].window;
    assert w[|w| - 1] in w;
  }

  // ------------------------------------------------------------- no stuck request

  /** A run that can take one more step. */
  lemma Extend(states: seq<State>, steps: seq<Step>, st: Step) returns (longer: seq<State>, more: seq<Step>)
    requires IsRun(states, steps) && Enabled(states[|steps|], st)
    ensures IsRun(longer, more) && longer == states + [Next(states[|steps|], st)] && more == steps + [st]
  {
    longer, more := states + [Next(states[|steps|], st)], steps + [st];
    forall i | 0 <= i < |more| ensures TakesStep(longer, more, i) {
      if i < |steps| { assert TakesStep(states, steps, i); }
    }
  }

  /** Nobody is opening a stream for this request any more. */
  ghost predicate Abandoned(s: State, req: RequestId) {
    forall d :: 0 <= d < |s.callers| && s.callers[d].req == req ==> !s.callers[d].pc.Reserving()
  }

  /** From an abandoned request to an inserted session. */
  lemma ReserveAndInsert(states: seq<State>, steps: seq<Step>, req: RequestId, fp: Fingerprint, sid: StreamId)
    returns (longer: seq<State>, more: seq<Step>)
    requires IsRun(states, steps)
    requires var s := states[|steps|]; !HasKey(s.window, req) && req !in s.inFlight && !Taken(TablesOf(s), sid)
    ensures IsRun(longer, more) && states <= longer && steps <= more
    ensures var c := |states[|steps|].callers|;
            c < |longer[|more|].callers| && exists cell :: longer[|more|].callers[c] == Caller(req, fp, None, Inserted(sid, cell))
  {
    var c := |states[|steps|].callers|;
    longer, more := Extend(states, steps, Arrive(req, fp, None));
    longer, more := Extend(longer, more, Reserve(c, sid));
    longer, more := Extend(longer, more, Insert(c));
  }

  /** From an inserted session to the answer. */
  lemma CompleteAndNotify(states: seq<State>, steps: seq<Step>, c: nat, capability: Capability)
    returns (longer: seq<State>, more: seq<Step>)
    requires IsRun(states, steps) && c < |states[|steps|].callers| && states[|steps|].callers[c].pc.Inserted?
    ensures IsRun(longer, more) && states <= longer && steps <= more
    ensures var caller := states[|steps|].callers[c];
            c < |longer[|more|].callers| && longer[|more|].callers[c].pc == Done(Begun(Receipt(caller.fp, caller.pc.sid, capability)))
  {
    ReachableStatesKeepInv(states, steps, |steps|);
    ReservationAlwaysFound(states[|steps|], c);
    longer, more := Extend(states, steps, Complete(c, capability));
    longer, more := Extend(longer, more, Notify(c));
  }

  /** However earlier leaders of a request ended, by failure or cancellation, once
      they are gone and there is no receipt, the next caller reserves, opens and
      completes: no reservation is ever left behind. */
  lemma AbandonedRequestCanBegin(states: seq<State>, steps: seq<Step>, req: RequestId, fp: Fingerprint, sid: StreamId, capability: Capability)
    returns (longer: seq<State>, more: seq<Step>)
    requires IsRun(states, steps)
    requires var s := states[|steps|]; !HasKey(s.window, req) && Abandoned(s, req) && !Taken(TablesOf(s), sid)
    ensures IsRun(longer, more) && states <= longer && steps <= more
    ensures var c := |states[|steps|].callers|;
            c < |longer[|more|].callers| && longer[|more|].callers[c].pc == Done(Begun(Receipt(fp, sid, capability)))
  {
    ReachableStatesKeepInv(states, steps, |steps|);
    longer, more := ReserveAndInsert(states, steps, req, fp, sid);
    longer, more := CompleteAndNotify(longer, more, |states[|steps|].callers|, capability);
  }
}
