/** Stream sessions, begin receipts, reservations. */
module StreamBeginStore {
  // `StreamSessionStore`: active stream sessions, begin receipts and begin
  // reservations, updated in place under its two locks. The begin operations are
  // specified by functions on the tables, which the concurrent protocol shares.

  import opened BoundedFifo

  type RequestId(==, !new)
  type Fingerprint(==, !new)
  type StreamId(==, !new, 00)
  type Capability(==, !new)
  type Publisher(==, !new)

  const STREAM_BEGIN_RECEIPT_CAPACITY: nat := 1024

  datatype Receipt = Receipt(fp: Fingerprint, sid: StreamId, capability: Capability)

  /** A reservation: whose stream id is held, and the watch cell that will be
      set when it is completed or released. */
  datatype InFlight = InFlight(fp: Fingerprint, sid: StreamId, cell: nat)

  datatype Session = Session(publisher: Publisher, capability: Capability, lastActivity: nat)

  datatype Outcome =
    | Completed(receipt: Receipt)
    | Wait(cell: nat)
    | Leader(sid: StreamId, cell: nat)
    | RequestConflict
    | IdInUse

  /** `cells` counts the watch channels created so far. */
  datatype Tables = Tables(
    sessions: set<StreamId>,
    window: seq<Slot<RequestId, Receipt>>,
    inFlight: map<RequestId, InFlight>,
    reserved: set<StreamId>,
    cells: nat)

  ghost predicate InReceipts(w: seq<Slot<RequestId, Receipt>>, sid: StreamId) {
    exists i :: 0 <= i < |w| && w[i].value.sid == sid
  }

  ghost predicate Taken(tb: Tables, sid: StreamId) {
    sid in tb.sessions || sid in tb.reserved || InReceipts(tb.window, sid)
  }

  ghost function Find(w: seq<Slot<RequestId, Receipt>>, req: RequestId): (r: Receipt)
    requires HasKey(w, req)
    ensures Slot(req, r) in w
  {
    var i :| 0 <= i < |w| && w[i].key == req;
    assert w[i] == Slot(req, w[i].value);
    w[i].value
  }

  /** `reserve_stream_begin`; `random` is the first drawn id that is free. */
  /** A request nobody made yet, with no id of its own: a random one is drawn. */
  ghost predicate NeedsDraw(tb: Tables, req: RequestId, requested: Option<StreamId>) {
    !HasKey(tb.window, req) && req !in tb.inFlight && requested.None?
  }

  ghost function ReserveOutcome(tb: Tables, req: RequestId, fp: Fingerprint, requested: Option<StreamId>, random: StreamId): Outcome {
    if HasKey(tb.window, req) then
      if Find(tb.window, req).fp == fp then Completed(Find(tb.window, req)) else RequestConflict
    else if req in tb.inFlight then
      if tb.inFlight[req].fp == fp then Wait(tb.inFlight[req].cell) else RequestConflict
    else if requested.Some? && Taken(tb, requested.value) then IdInUse
    else Leader(if requested.Some? then requested.value else random, tb.cells)
  }

  ghost function ReserveTables(tb: Tables, req: RequestId, fp: Fingerprint, requested: Option<StreamId>, random: StreamId): Tables {
    match ReserveOutcome(tb, req, fp, requested, random)
    case Leader(sid, cell) =>
      tb.(reserved := tb.reserved + {sid}, inFlight := tb.inFlight[req := InFlight(fp, sid, cell)], cells := tb.cells + 1)
    case _ => tb
  }

  ghost predicate ReservationFound(tb: Tables, req: RequestId, sid: StreamId) {
    req in tb.inFlight && tb.inFlight[req].sid == sid
  }

  ghost function ReleaseTables(tb: Tables, req: RequestId, sid: StreamId): Tables {
    if ReservationFound(tb, req, sid) then tb.(inFlight := tb.inFlight - {req}, reserved := tb.reserved - {sid}) else tb
  }

  ghost function CompleteTables(tb: Tables, cap: nat, req: RequestId, sid: StreamId, receipt: Receipt): Tables {
    if ReservationFound(tb, req, sid) then
      ReleaseTables(tb, req, sid).(window := Put(tb.window, cap, Slot(req, receipt)))
    else tb
  }

  class StreamSessionStore {
    var sessions: map<StreamId, Session>
    var order: seq<RequestId>
    var byRequestId: map<RequestId, Receipt>
    var inFlight: map<RequestId, InFlight>
    var reserved: set<StreamId>
    var cells: nat

    ghost predicate Valid()
      reads this
    {
      |order| <= STREAM_BEGIN_RECEIPT_CAPACITY && Represents(order, byRequestId)
    }

    ghost function State(): Tables
      requires Valid()
      reads this
    {
      Tables(sessions.Keys, Contents(order, byRequestId), inFlight, reserved, cells)
    }

    constructor ()
      ensures Valid() && sessions == map[] && State() == Tables({}, [], map[], {}, 0)
    {
      sessions, order, byRequestId, inFlight, reserved, cells := map[], [], map[], map[], {}, 0;
    }

    method IsTaken(sid: StreamId) returns (taken: bool)
      requires Valid()
      ensures taken <==> Taken(State(), sid)
    {
      taken := sid in sessions || sid in reserved;
      ghost var w := Contents(order, byRequestId);
      for i := 0 to |order|
        invariant taken <==> sid in sessions || sid in reserved || exists j :: 0 <= j < i && w[j].value.sid == sid
      {
        if byRequestId[order[i]].sid == sid {
          taken := true;
        }
      }
    }

    /** `draws` stands for what the random id generator gives; the loop takes the
        first draw that is free, and would go on drawing if none of these is. */
    method FirstFree(draws: seq<StreamId>) returns (n: nat)
      requires Valid()
      ensures n <= |draws| && forall i :: 0 <= i < n ==> Taken(State(), draws[i])
      ensures n < |draws| ==> !Taken(State(), draws[n])
    {
      n := 0;
      while n < |draws|
        invariant n <= |draws| && forall i :: 0 <= i < n ==> Taken(State(), draws[i])
      {
        var taken := IsTaken(draws[n]);
        if !taken {
          return;
        }
        n := n + 1;
      }
    }

    lemma FoundReceipt(req: RequestId)
      requires Valid()
      ensures HasKey(State().window, req) <==> req in byRequestId
      ensures req in byRequestId ==> Find(State().window, req) == byRequestId[req]
    {
      ContentsKeys(order, byRequestId, req);
    }

    method ReserveStreamBegin(req: RequestId, fp: Fingerprint, requested: Option<StreamId>, draws: seq<StreamId>)
      returns (outcome: Outcome, ghost random: StreamId)
      requires Valid() && (NeedsDraw(State(), req, requested) ==> exists i :: 0 <= i < |draws| && !Taken(State(), draws[i]))
      modifies this
      ensures Valid() && (NeedsDraw(old(State()), req, requested) ==> random in draws && !Taken(old(State()), random))
      ensures outcome == ReserveOutcome(old(State()), req, fp, requested, random)
      ensures State() == ReserveTables(old(State()), req, fp, requested, random)
      ensures sessions == old(sessions)
    {
      FoundReceipt(req);
      random := *;
      if req in byRequestId {
        var receipt := byRequestId[req];
        return if receipt.fp == fp then Completed(receipt) else RequestConflict, random;
      }
      if req in inFlight {
        return if inFlight[req].fp == fp then Wait(inFlight[req].cell) else RequestConflict, random;
      }
      var sid: StreamId;
      if requested.Some? {
        sid := requested.value;
        var taken := IsTaken(sid);
        if taken {
          return IdInUse, random;
        }
      } else {
        var n := FirstFree(draws);
        sid := draws[n];
        random := sid;
      }
      outcome := Leader(sid, cells);
      reserved := reserved + {sid};
      inFlight := inFlight[req := InFlight(fp, sid, cells)];
      cells := cells + 1;
    }

    /** Returns the watch cell to set once the lock is released, if the
        reservation was still there. */
    method CompleteStreamBegin(req: RequestId, sid: StreamId, receipt: Receipt) returns (notify: Option<nat>)
      requires Valid()
      modifies this
      ensures Valid()
      ensures notify == if ReservationFound(old(State()), req, sid) then Some(old(inFlight)[req].cell) else None
      ensures State() == CompleteTables(old(State()), STREAM_BEGIN_RECEIPT_CAPACITY, req, sid, receipt)
      ensures sessions == old(sessions)
    {
      if req !in inFlight || inFlight[req].sid != sid {
        return None;
      }
      notify := Some(inFlight[req].cell);
      inFlight := inFlight - {req};
      reserved := reserved - {sid};
      FoundReceipt(req);
      if req !in byRequestId {
        ghost var was, before := order, byRequestId;
        if |order| >= STREAM_BEGIN_RECEIPT_CAPACITY && |order| > 0 {
          var evicted := order[0];
          order := order[1..];
          byRequestId := byRequestId - {evicted};
        }
        order := order + [req];
        byRequestId := byRequestId[req := receipt];
        RepresentsPut(was, before, STREAM_BEGIN_RECEIPT_CAPACITY, req, receipt, order, byRequestId);
      }
    }

    method ReleaseStreamBegin(req: RequestId, sid: StreamId) returns (notify: Option<nat>)
      requires Valid()
      modifies this
      ensures Valid()
      ensures notify == if ReservationFound(old(State()), req, sid) then Some(old(inFlight)[req].cell) else None
      ensures State() == ReleaseTables(old(State()), req, sid)
      ensures sessions == old(sessions)
    {
      if req !in inFlight || inFlight[req].sid != sid {
        return None;
      }
      notify := Some(inFlight[req].cell);
      inFlight := inFlight - {req};
      reserved := reserved - {sid};
    }

    method InsertNew(sid: StreamId, session: Session) returns (inserted: bool)
      requires Valid()
      modifies this`sessions
      ensures Valid()
      ensures inserted <==> sid !in old(sessions)
      ensures sessions == if inserted then old(sessions)[sid := session] else old(sessions)
    {
      if sid in sessions {
        return false;
      }
      sessions := sessions[sid := session];
      return true;
    }

    /** Removes the entry only while it is still the same publisher's session,
        so a replacement inserted in between survives. */
    method RemoveIfSame(sid: StreamId, session: Session) returns (removed: Option<Session>)
      requires Valid()
      modifies this`sessions
      ensures Valid()
      ensures removed.Some? <==> sid in old(sessions) && old(sessions)[sid].publisher == session.publisher
      ensures removed.Some? ==> removed.value == old(sessions)[sid] && sessions == old(sessions) - {sid}
      ensures removed.None? ==> sessions == old(sessions)
    {
      if sid in sessions && sessions[sid].publisher == session.publisher {
        removed := Some(sessions[sid]);
        sessions := sessions - {sid};
      } else {
        removed := None;
      }
    }

    /** Removes exactly the sessions that are evictable and at least `maxIdle`
        old, and counts them. */
    method SweepIdle(now: nat, maxIdle: nat, evictable: set<Publisher>) returns (swept: nat)
      requires Valid()
      modifies this`sessions
      ensures Valid()
      ensures sessions == map sid | sid in old(sessions) && !Stale(old(sessions)[sid], now, maxIdle, evictable) :: old(sessions)[sid]
      ensures swept == |old(sessions)| - |sessions|
    {
      var stale := set sid | sid in sessions && Stale(sessions[sid], now, maxIdle, evictable);
      ghost var before := sessions;
      ghost var gone: set<StreamId> := {};
      swept := 0;
      while stale != {}
        invariant gone !! stale && gone + stale == set sid | sid in before && Stale(before[sid], now, maxIdle, evictable)
        invariant sessions == before - gone && swept == |before| - |sessions|
        decreases stale
      {
        var sid :| sid in stale;
        assert sid in sessions;
        ghost var was := sessions;
        sessions := sessions - {sid};
        assert sessions.Keys == was.Keys - {sid};
        swept := swept + 1;
        stale := stale - {sid};
        gone := gone + {sid};
      }
    }
  }

  predicate Stale(session: Session, now: nat, maxIdle: nat, evictable: set<Publisher>) {
    session.publisher in evictable && (if session.lastActivity <= now then now - session.lastActivity else 0) >= maxIdle
  }
}
