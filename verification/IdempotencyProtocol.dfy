/** Concurrent callers of one idempotency store. */
module IdempotencyProtocol {
  // Concurrent callers of one `SendIdempotencyStore`: every interleaving of the
  // critical sections of `acquire` (durable sends) and `acquire_strict` (preview
  // mutations), the gate wait with its timeout, the external send, `record`,
  // `complete` and the drops of guard and gate.

  import opened BoundedFifo
  import opened ReceiptLog

  type Key(==, !new)
  type Fingerprint(==, !new)
  type Ids(==, !new)

  /** A committed record: the fingerprint it is bound to and what was produced. */
  datatype Receipt = Receipt(fp: Fingerprint, ids: Ids)

  datatype Answer =
    | Completed(ids: Ids)   // served from a receipt or from the gate's transient result
    | Conflict              // strict only: the key is bound to another fingerprint
    | InProgress            // the bounded gate wait ran out
    | Performed(ids: Ids)   // this caller was the leader and its send succeeded
    | Failed                // send failed, or the caller was cancelled

  /** Where a caller stands. From `Waiting` on it keeps its gate alive; from
      `Locked` on it holds the gate's lock, until `Returning` drops it. */
  datatype Pc =
    | Start
    | Missed
    | Waiting(gate: nat)
    | Locked(gate: nat)
    | Rechecked(gate: nat)
    | Leading(gate: nat)
    | Sent(gate: nat, ids: Ids)
    | Recorded(gate: nat, ids: Ids)
    | Returning(gate: nat, answer: Answer, guard: bool)
    | Done(answer: Answer)
  {
    predicate HoldsGate() { !Start? && !Missed? && !Done? }
    predicate HoldsGuard() { HoldsGate() && !Waiting? && (Returning? ==> guard) }
    /** Elected, with no result published yet. */
    predicate InCharge() { Leading? || Sent? || Recorded? }
    /** Has sent and has not published yet. */
    predicate Committing() { Sent? || Recorded? }
  }

  datatype Caller = Caller(key: Key, fp: Fingerprint, pc: Pc)

  datatype Gate = Gate(key: Key, fp: Fingerprint, owner: Option<nat>, completed: Option<Ids>)

  datatype Success = Success(key: Key, fp: Fingerprint, ids: Ids, gate: nat)

  /** `gates` only grows; a gate is alive while some caller holds it, which is
      what the weak references in `inFlight` observe. `successes` and `log`
      record the history of the run. */
  datatype State = State(
    strict: bool,
    cap: nat,
    loaded: seq<Slot<Key, Receipt>>,
    window: seq<Slot<Key, Receipt>>,
    gates: seq<Gate>,
    inFlight: map<(Key, Fingerprint), nat>,
    callers: seq<Caller>,
    successes: seq<Success>,
    log: seq<Event<Key>>)

  datatype Step =
    | Arrive(key: Key, fp: Fingerprint)
    | Lookup(c: nat)
    | Enter(c: nat)
    | Lock(c: nat)
    | GiveUp(c: nat, answer: Answer)
    | Recheck(c: nat)
    | Elect(c: nat)
    | SendOk(c: nat, ids: Ids)
    | SendFailed(c: nat)
    | Record(c: nat)
    | Publish(c: nat)
    | DropGuard(c: nat)
    | DropGate(c: nat)

  ghost predicate Alive(s: State, g: nat) {
    exists c :: 0 <= c < |s.callers| && s.callers[c].pc.HoldsGate() && s.callers[c].pc.gate == g
  }

  ghost predicate Bound(w: seq<Slot<Key, Receipt>>, key: Key, fp: Fingerprint) {
    exists i :: 0 <= i < |w| && w[i].key == key && w[i].value.fp == fp
  }

  ghost function Find(w: seq<Slot<Key, Receipt>>, key: Key): (r: Receipt)
    requires HasKey(w, key)
    ensures Slot(key, r) in w
  {
    var i :| 0 <= i < |w| && w[i].key == key;
    assert w[i] == Slot(key, w[i].value);
    w[i].value
  }

  /** The answer the committed records give on their own, if any
      (`get_with_disposition`, and the two `seen` checks of `acquire_strict`). */
  ghost function CacheAnswer(s: State, key: Key, fp: Fingerprint): Option<Answer> {
    if !HasKey(s.window, key) then None
    else if Find(s.window, key).fp == fp then Some(Completed(Find(s.window, key).ids))
    else if s.strict then Some(Conflict)
    else None
  }

  /** `in_flight.retain(strong_count > 0)`. */
  ghost function Retained(s: State): map<(Key, Fingerprint), nat> {
    map kf | kf in s.inFlight && Alive(s, s.inFlight[kf]) :: s.inFlight[kf]
  }

  ghost predicate OtherFingerprintInFlight(s: State, key: Key, fp: Fingerprint) {
    exists kf :: kf in Retained(s) && kf.0 == key && kf.1 != fp
  }

  ghost function At(s: State, c: nat, pc: Pc): State
    requires c < |s.callers|
  {
    s.(callers := s.callers[c := s.callers[c].(pc := pc)])
  }

  ghost function Set(s: State, g: nat, gate: Gate): State
    requires g < |s.gates|
  {
    s.(gates := s.gates[g := gate])
  }

  ghost predicate Enabled(s: State, st: Step) {
    match st
    case Arrive(_, _) => true
    case Lookup(c) => c < |s.callers| && s.callers[c].pc.Start?
    case Enter(c) => c < |s.callers| && s.callers[c].pc.Missed?
    case Lock(c) => c < |s.callers| && s.callers[c].pc.Waiting? && GateOf(s, c) && s.gates[s.callers[c].pc.gate].owner.None?
    case GiveUp(c, a) => c < |s.callers| && s.callers[c].pc.Waiting? && (a == InProgress || a == Failed)
    case Recheck(c) => c < |s.callers| && s.callers[c].pc.Locked?
    case Elect(c) => c < |s.callers| && s.callers[c].pc.Rechecked? && GateOf(s, c)
    case SendOk(c, _) => c < |s.callers| && s.callers[c].pc.Leading?
    case SendFailed(c) => c < |s.callers| && s.callers[c].pc.Leading?
    case Record(c) => c < |s.callers| && s.callers[c].pc.Sent?
    case Publish(c) => c < |s.callers| && s.callers[c].pc.Recorded? && GateOf(s, c)
    case DropGuard(c) => c < |s.callers| && s.callers[c].pc.Returning? && s.callers[c].pc.guard && GateOf(s, c)
    case DropGate(c) => c < |s.callers| && s.callers[c].pc.Returning? && !s.callers[c].pc.guard
  }

  ghost predicate GateOf(s: State, c: nat)
    requires c < |s.callers| && s.callers[c].pc.HoldsGate()
  {
    s.callers[c].pc.gate < |s.gates|
  }

  ghost function EnterNext(s: State, c: nat): State
    requires c < |s.callers|
  {
    var (key, fp) := (s.callers[c].key, s.callers[c].fp);
    var kept := Retained(s);
    var s1 := s.(inFlight := kept);
    if s.strict && OtherFingerprintInFlight(s, key, fp) then At(s1, c, Done(Conflict))
    else if (key, fp) in kept then At(s1, c, Waiting(kept[(key, fp)]))
    else
      At(s1.(gates := s.gates + [Gate(key, fp, None, None)],
             inFlight := kept[(key, fp) := |s.gates|]),
         c, Waiting(|s.gates|))
  }

  ghost function RecordNext(s: State, c: nat): State
    requires c < |s.callers| && s.callers[c].pc.Sent?
  {
    var caller := s.callers[c];
    var (g, ids) := (caller.pc.gate, caller.pc.ids);
    var evicts := !HasKey(s.window, caller.key) && |s.window| >= s.cap && |s.window| > 0;
    At(s.(window := Put(s.window, s.cap, Slot(caller.key, Receipt(caller.fp, ids))),
          log := if evicts then s.log + [Evict(s.window[0].key)] else s.log),
       c, Recorded(g, ids))
  }

  ghost function Next(s: State, st: Step): State
    requires Enabled(s, st)
  {
    match st
    case Arrive(key, fp) => s.(callers := s.callers + [Caller(key, fp, Start)])
    case Lookup(c) =>
      var a := CacheAnswer(s, s.callers[c].key, s.callers[c].fp);
      At(s, c, if a.Some? then Done(a.value) else Missed)
    case Enter(c) => EnterNext(s, c)
    case Lock(c) =>
      var g := s.callers[c].pc.gate;
      At(Set(s, g, s.gates[g].(owner := Some(c))), c, Locked(g))
    case GiveUp(c, a) => At(s, c, Done(a))
    case Recheck(c) =>
      var g := s.callers[c].pc.gate;
      var a := CacheAnswer(s, s.callers[c].key, s.callers[c].fp);
      At(s, c, if a.Some? then Returning(g, a.value, true) else Rechecked(g))
    case Elect(c) =>
      var g := s.callers[c].pc.gate;
      var done := s.gates[g].completed;
      At(s, c, if done.Some? then Returning(g, Completed(done.value), true) else Leading(g))
    case SendOk(c, ids) =>
      var caller := s.callers[c];
      At(s.(successes := s.successes + [Success(caller.key, caller.fp, ids, caller.pc.gate)],
            log := s.log + [Issue(caller.key)]),
         c, Sent(caller.pc.gate, ids))
    case SendFailed(c) => At(s, c, Returning(s.callers[c].pc.gate, Failed, true))
    case Record(c) => RecordNext(s, c)
    case Publish(c) =>
      var (g, ids) := (s.callers[c].pc.gate, s.callers[c].pc.ids);
      At(Set(s, g, s.gates[g].(completed := Some(ids))), c, Returning(g, Performed(ids), true))
    case DropGuard(c) =>
      var pc := s.callers[c].pc;
      At(Set(s, pc.gate, s.gates[pc.gate].(owner := None)), c, pc.(guard := false))
    case DropGate(c) => At(s, c, Done(s.callers[c].pc.answer))
  }

  /** A store fresh from start-up: records loaded from disk, nobody around.
      The strict preview store is process-local and starts empty. */
  ghost predicate Init(s: State) {
    && s.cap > 0 && Wellformed(s.loaded, s.cap) && s.window == s.loaded
    && (s.strict ==> s.loaded == [])
    && s.gates == [] && s.inFlight == map[] && s.callers == [] && s.successes == [] && s.log == []
  }

  ghost predicate IsRun(states: seq<State>, steps: seq<Step>) {
    && |states| == |steps| + 1
    && Init(states[0])
    && forall i :: 0 <= i < |steps| ==> TakesStep(states, steps, i)
  }

  ghost predicate TakesStep(states: seq<State>, steps: seq<Step>, i: nat)
    requires |states| == |steps| + 1 && i < |steps|
  {
    Enabled(states[i], steps[i]) && states[i + 1] == Next(states[i], steps[i])
  }

  // ---------------------------------------------------------------- invariant

  ghost predicate GatesRegistered(s: State) {
    && (forall kf :: kf in s.inFlight ==>
          s.inFlight[kf] < |s.gates| && s.gates[s.inFlight[kf]].key == kf.0 && s.gates[s.inFlight[kf]].fp == kf.1)
    && (forall c :: 0 <= c < |s.callers| && s.callers[c].pc.HoldsGate() ==>
          (s.callers[c].key, s.callers[c].fp) in s.inFlight
          && s.inFlight[(s.callers[c].key, s.callers[c].fp)] == s.callers[c].pc.gate)
  }

  ghost predicate GuardsOwned(s: State) {
    forall c :: 0 <= c < |s.callers| && s.callers[c].pc.HoldsGuard() ==>
      GateOf(s, c) && s.gates[s.callers[c].pc.gate].owner == Some(c)
  }

  ghost predicate OneFingerprintPerKey(s: State) {
    s.strict ==>
      forall c, d ::
        && 0 <= c < |s.callers| && 0 <= d < |s.callers|
        && s.callers[c].pc.HoldsGate() && s.callers[d].pc.HoldsGate()
        && s.callers[c].key == s.callers[d].key
        ==> s.callers[c].fp == s.callers[d].fp
  }

  /** Nothing committed can answer a caller that is past its second check. */
  ghost predicate NotCommitted(s: State, key: Key, fp: Fingerprint) {
    !Bound(s.window, key, fp) && (s.strict ==> !HasKey(s.window, key))
  }

  ghost predicate LeadersClean(s: State) {
    forall c :: 0 <= c < |s.callers| ==>
      && (s.callers[c].pc.Rechecked? || s.callers[c].pc.Leading? || s.callers[c].pc.Sent? ==>
            NotCommitted(s, s.callers[c].key, s.callers[c].fp))
      && (s.callers[c].pc.InCharge() ==> GateOf(s, c) && s.gates[s.callers[c].pc.gate].completed.None?)
  }

  /** `ids` came out of a successful send for exactly this key and fingerprint. */
  ghost predicate Produced(s: State, key: Key, fp: Fingerprint, ids: Ids) {
    || Slot(key, Receipt(fp, ids)) in s.loaded
    || exists i :: 0 <= i < |s.successes| && s.successes[i].key == key && s.successes[i].fp == fp && s.successes[i].ids == ids
  }

  ghost predicate ResultsGenuine(s: State) {
    && (forall i :: 0 <= i < |s.window| ==> Produced(s, s.window[i].key, s.window[i].value.fp, s.window[i].value.ids))
    && (forall g :: 0 <= g < |s.gates| && s.gates[g].completed.Some? ==>
          Produced(s, s.gates[g].key, s.gates[g].fp, s.gates[g].completed.value))
    && (forall c :: 0 <= c < |s.callers| ==> CallerGenuine(s, s.callers[c]))
  }

  ghost predicate CallerGenuine(s: State, caller: Caller) {
    && (caller.pc.Committing() ==> Produced(s, caller.key, caller.fp, caller.pc.ids))
    && ((caller.pc.Returning? || caller.pc.Done?) && (caller.pc.answer.Completed? || caller.pc.answer.Performed?) ==>
          Produced(s, caller.key, caller.fp, caller.pc.answer.ids))
  }

  ghost predicate SuccessesPublished(s: State) {
    && (forall i :: 0 <= i < |s.successes| ==> SuccessVisible(s, s.successes[i].gate))
    && (forall i, j :: 0 <= i < j < |s.successes| ==> s.successes[i].gate != s.successes[j].gate)
  }

  /** A gate that has seen a success either shows it or is still locked by the
      caller that is about to. */
  ghost predicate SuccessVisible(s: State, g: nat) {
    && g < |s.gates|
    && (|| s.gates[g].completed.Some?
        || exists c :: 0 <= c < |s.callers| && s.callers[c].pc.Committing() && s.callers[c].pc.gate == g)
  }

  ghost predicate IssuesAccounted(s: State) {
    s.strict ==>
      forall key :: Outstanding(s.log, key) ==>
        HasKey(s.window, key) || exists c :: 0 <= c < |s.callers| && s.callers[c].pc.Sent? && s.callers[c].key == key
  }

  ghost predicate Inv(s: State) {
    && s.cap > 0 && Wellformed(s.window, s.cap)
    && GatesRegistered(s) && GuardsOwned(s) && OneFingerprintPerKey(s)
    && LeadersClean(s) && ResultsGenuine(s) && SuccessesPublished(s) && IssuesAccounted(s)
  }

  // ------------------------------------------------------------- preservation

  /** Holding a guard on the same registered gate means being the same caller. */
  lemma GuardIsExclusive(s: State, c: nat, d: nat)
    requires GatesRegistered(s) && GuardsOwned(s)
    requires c < |s.callers| && d < |s.callers|
    requires s.callers[c].pc.HoldsGuard() && s.callers[d].pc.HoldsGuard()
    requires s.callers[c].key == s.callers[d].key && s.callers[c].fp == s.callers[d].fp
    ensures c == d
  {
  }

  ghost predicate Structure(s: State) {
    GatesRegistered(s) && GuardsOwned(s) && OneFingerprintPerKey(s)
  }

  lemma StructureRetain(s: State)
    requires Structure(s)
    ensures Structure(s.(inFlight := Retained(s)))
  {
    forall d | 0 <= d < |s.callers| && s.callers[d].pc.HoldsGate()
      ensures (s.callers[d].key, s.callers[d].fp) in Retained(s)
    {
      assert Alive(s, s.callers[d].pc.gate);
    }
  }

  /** In strict mode a caller may only take a gate of its key when every
      registered gate of that key carries its fingerprint. */
  ghost predicate MayTake(s: State, c: nat)
    requires c < |s.callers|
  {
    s.strict ==> forall kf :: kf in s.inFlight && kf.0 == s.callers[c].key ==> kf.1 == s.callers[c].fp
  }

  lemma StructureJoin(s: State, c: nat)
    requires Structure(s) && c < |s.callers| && MayTake(s, c)
    requires (s.callers[c].key, s.callers[c].fp) in s.inFlight
    ensures Structure(At(s, c, Waiting(s.inFlight[(s.callers[c].key, s.callers[c].fp)])))
  {
  }

  lemma StructureOpen(s: State, key: Key, fp: Fingerprint)
    requires Structure(s) && (key, fp) !in s.inFlight
    ensures Structure(s.(gates := s.gates + [Gate(key, fp, None, None)], inFlight := s.inFlight[(key, fp) := |s.gates|]))
  {
  }

  /** The registration step: whoever holds a gate finds it still registered,
      and in strict mode no second fingerprint gets past a live gate. */
  lemma StructureEnter(s: State, c: nat)
    requires Structure(s) && c < |s.callers| && s.callers[c].pc.Missed?
    ensures Structure(EnterNext(s, c))
  {
    var (key, fp) := (s.callers[c].key, s.callers[c].fp);
    StructureRetain(s);
    var kept := s.(inFlight := Retained(s));
    if s.strict && OtherFingerprintInFlight(s, key, fp) {
      StructureMove(kept, EnterNext(s, c), c);
    } else if (key, fp) in kept.inFlight {
      StructureJoin(kept, c);
    } else {
      StructureOpen(kept, key, fp);
      StructureJoin(kept.(gates := kept.gates + [Gate(key, fp, None, None)],
                          inFlight := kept.inFlight[(key, fp) := |kept.gates|]), c);
    }
  }

  /** From `s` to `t` only caller `c` moved, and no gate changed its identity
      or its published result. */
  ghost predicate Stepped(s: State, t: State, c: nat) {
    && c < |s.callers| && |t.callers| == |s.callers|
    && t.callers == s.callers[c := s.callers[c].(pc := t.callers[c].pc)]
    && t.strict == s.strict && t.loaded == s.loaded
    && |s.gates| <= |t.gates|
    && (forall g :: 0 <= g < |s.gates| ==>
          t.gates[g].key == s.gates[g].key && t.gates[g].fp == s.gates[g].fp && t.gates[g].completed == s.gates[g].completed)
    && (forall g :: |s.gates| <= g < |t.gates| ==> t.gates[g].completed.None?)
  }

  /** The same, among gates and registrations that stayed as they were. */
  ghost predicate Moved(s: State, t: State, c: nat) {
    Stepped(s, t, c) && t.gates == s.gates && t.inFlight == s.inFlight
  }

  /** A caller that moves on without taking a gate or a guard it did not have. */
  lemma StructureMove(s: State, t: State, c: nat)
    requires Structure(s) && Moved(s, t, c)
    requires t.callers[c].pc.HoldsGate() ==> s.callers[c].pc.HoldsGate() && t.callers[c].pc.gate == s.callers[c].pc.gate
    requires t.callers[c].pc.HoldsGuard() ==> s.callers[c].pc.HoldsGuard()
    ensures Structure(t)
  {
  }

  lemma StructureLock(s: State, c: nat)
    requires Structure(s) && Enabled(s, Lock(c))
    ensures Structure(Next(s, Lock(c)))
  {
  }

  lemma StructureDropGuard(s: State, c: nat)
    requires Structure(s) && Enabled(s, DropGuard(c))
    ensures Structure(Next(s, DropGuard(c)))
  {
  }

  lemma StructurePublish(s: State, c: nat)
    requires Structure(s) && Enabled(s, Publish(c))
    ensures Structure(Next(s, Publish(c)))
  {
  }

  lemma StructurePreserved(s: State, st: Step)
    requires Structure(s) && Enabled(s, st)
    ensures Structure(Next(s, st))
  {
    match st
    case Arrive(_, _) =>
    case Enter(c) => StructureEnter(s, c);
    case Lock(c) => StructureLock(s, c);
    case DropGuard(c) => StructureDropGuard(s, c);
    case Publish(c) => StructurePublish(s, c);
    case Lookup(c) => StructureMove(s, Next(s, st), c);
    case GiveUp(c, _) => StructureMove(s, Next(s, st), c);
    case Recheck(c) => StructureMove(s, Next(s, st), c);
    case Elect(c) => StructureMove(s, Next(s, st), c);
    case SendOk(c, _) => StructureMove(s, Next(s, st), c);
    case SendFailed(c) => StructureMove(s, Next(s, st), c);
    case Record(c) => StructureMove(s, Next(s, st), c);
    case DropGate(c) => StructureMove(s, Next(s, st), c);
  }

  // The committed records: what a leader may rely on.

  lemma MissMeansNotCommitted(s: State, key: Key, fp: Fingerprint)
    requires DistinctKeys(s.window) && CacheAnswer(s, key, fp).None?
    ensures NotCommitted(s, key, fp)
  {
  }

  /** Recording for one leader leaves every other caller's second check valid,
      because nobody else holds a guard for the same request. */
  lemma LeadersRecord(s: State, c: nat)
    requires Inv(s) && Enabled(s, Record(c))
    ensures LeadersClean(Next(s, Record(c)))
  {
    var t := Next(s, Record(c));
    forall d | 0 <= d < |t.callers| && (t.callers[d].pc.Rechecked? || t.callers[d].pc.Leading? || t.callers[d].pc.Sent?)
      ensures NotCommitted(t, t.callers[d].key, t.callers[d].fp)
    {
      assert d != c && s.callers[d].pc.HoldsGuard();
      if s.callers[d].key == s.callers[c].key && s.callers[d].fp == s.callers[c].fp { GuardIsExclusive(s, c, d); }
    }
  }

  lemma LeadersPublish(s: State, c: nat)
    requires Structure(s) && LeadersClean(s) && Enabled(s, Publish(c))
    ensures LeadersClean(Next(s, Publish(c)))
  {
  }

  lemma LeadersMove(s: State, t: State, c: nat)
    requires LeadersClean(s) && Stepped(s, t, c) && t.window == s.window
    requires t.callers[c].pc.Rechecked? || t.callers[c].pc.Leading? || t.callers[c].pc.Sent? ==>
      NotCommitted(s, s.callers[c].key, s.callers[c].fp)
    requires t.callers[c].pc.InCharge() ==> t.callers[c].pc.gate < |s.gates| && s.gates[t.callers[c].pc.gate].completed.None?
    ensures LeadersClean(t)
  {
  }

  lemma StepsMoveOneCaller(s: State, st: Step)
    requires Enabled(s, st) && !st.Arrive? && !st.Publish?
    ensures Stepped(s, Next(s, st), st.c)
    ensures !st.Record? ==> Next(s, st).window == s.window
    ensures !st.SendOk? ==> Next(s, st).successes == s.successes
    ensures !st.SendOk? && !st.Record? ==> Next(s, st).log == s.log
  {
  }

  lemma LeadersCleanPreserved(s: State, st: Step)
    requires Inv(s) && Enabled(s, st)
    ensures LeadersClean(Next(s, st))
  {
    var t := Next(s, st);
    if st.Record? {
      LeadersRecord(s, st.c);
    } else if st.Publish? {
      LeadersPublish(s, st.c);
    } else if !st.Arrive? {
      StepsMoveOneCaller(s, st);
      if st.Recheck? && t.callers[st.c].pc.Rechecked? {
        MissMeansNotCommitted(s, s.callers[st.c].key, s.callers[st.c].fp);
      }
      LeadersMove(s, t, st.c);
    }
  }

  // Where results come from.

  lemma ProducedGrows(s: State, t: State)
    requires t.loaded == s.loaded && s.successes <= t.successes
    ensures forall k, f, ids :: Produced(s, k, f, ids) ==> Produced(t, k, f, ids)
  {
    forall k, f, ids | Produced(s, k, f, ids) ensures Produced(t, k, f, ids) {
      if Slot(k, Receipt(f, ids)) !in s.loaded {
        var i :| 0 <= i < |s.successes| && s.successes[i].key == k && s.successes[i].fp == f && s.successes[i].ids == ids;
        assert t.successes[i] == s.successes[i];
      }
    }
  }

  lemma GenuineMove(s: State, t: State, c: nat)
    requires ResultsGenuine(s) && Stepped(s, t, c) && t.window == s.window && s.successes <= t.successes
    requires CallerGenuine(t, t.callers[c])
    ensures ResultsGenuine(t)
  {
    ProducedGrows(s, t);
  }

  lemma CacheAnswerGenuine(s: State, key: Key, fp: Fingerprint)
    requires ResultsGenuine(s)
    ensures var a := CacheAnswer(s, key, fp); a.Some? && a.value.Completed? ==> Produced(s, key, fp, a.value.ids)
  {
  }

  lemma GenuineRecord(s: State, c: nat)
    requires ResultsGenuine(s) && Enabled(s, Record(c))
    ensures ResultsGenuine(Next(s, Record(c)))
  {
    ProducedGrows(s, Next(s, Record(c)));
  }

  lemma GenuinePublish(s: State, c: nat)
    requires ResultsGenuine(s) && GatesRegistered(s) && Enabled(s, Publish(c))
    ensures ResultsGenuine(Next(s, Publish(c)))
  {
    ProducedGrows(s, Next(s, Publish(c)));
  }

  lemma ResultsGenuinePreserved(s: State, st: Step)
    requires Inv(s) && Enabled(s, st)
    ensures ResultsGenuine(Next(s, st))
  {
    var t := Next(s, st);
    if st.Record? {
      GenuineRecord(s, st.c);
    } else if st.Publish? {
      GenuinePublish(s, st.c);
    } else if st.Arrive? {
      ProducedGrows(s, t);
    } else {
      StepsMoveOneCaller(s, st);
      ProducedGrows(s, t);
      var caller := s.callers[st.c];
      assert CallerGenuine(s, caller);
      if st.Lookup? || st.Recheck? { CacheAnswerGenuine(s, caller.key, caller.fp); }
      if st.SendOk? { assert t.successes[|s.successes|].ids == st.ids; }
      GenuineMove(s, t, st.c);
    }
  }

  // One success per gate.

  lemma VisibleStays(s: State, t: State, c: nat, g: nat)
    requires SuccessVisible(s, g) && Stepped(s, t, c)
    requires s.callers[c].pc.Committing() ==> t.callers[c].pc.Committing() && t.callers[c].pc.gate == s.callers[c].pc.gate
    ensures SuccessVisible(t, g)
  {
    if s.gates[g].completed.None? {
      var d :| 0 <= d < |s.callers| && s.callers[d].pc.Committing() && s.callers[d].pc.gate == g;
      assert t.callers[d].pc.Committing() && t.callers[d].pc.gate == g;
    }
  }

  lemma LeaderGateUnused(s: State, c: nat, i: nat)
    requires Inv(s) && c < |s.callers| && s.callers[c].pc.Leading? && i < |s.successes|
    ensures s.successes[i].gate != s.callers[c].pc.gate
  {
    assert SuccessVisible(s, s.successes[i].gate);
  }

  lemma PublishedPublish(s: State, c: nat)
    requires SuccessesPublished(s) && Enabled(s, Publish(c))
    ensures SuccessesPublished(Next(s, Publish(c)))
  {
    var t := Next(s, Publish(c));
    forall i | 0 <= i < |t.successes| ensures SuccessVisible(t, t.successes[i].gate) {
      var g := s.successes[i].gate;
      assert SuccessVisible(s, g);
      if s.gates[g].completed.None? && g != s.callers[c].pc.gate {
        var d :| 0 <= d < |s.callers| && s.callers[d].pc.Committing() && s.callers[d].pc.gate == g;
        assert t.callers[d] == s.callers[d];
      }
    }
  }

  lemma PublishedArrive(s: State, key: Key, fp: Fingerprint)
    requires SuccessesPublished(s)
    ensures SuccessesPublished(Next(s, Arrive(key, fp)))
  {
    var t := Next(s, Arrive(key, fp));
    forall i | 0 <= i < |t.successes| ensures SuccessVisible(t, t.successes[i].gate) {
      var g := s.successes[i].gate;
      assert SuccessVisible(s, g);
      if s.gates[g].completed.None? {
        var d :| 0 <= d < |s.callers| && s.callers[d].pc.Committing() && s.callers[d].pc.gate == g;
        assert t.callers[d] == s.callers[d];
      }
    }
  }

  lemma SuccessesPublishedPreserved(s: State, st: Step)
    requires Inv(s) && Enabled(s, st)
    ensures SuccessesPublished(Next(s, st))
  {
    var t := Next(s, st);
    if st.Publish? {
      PublishedPublish(s, st.c);
    } else if st.Arrive? {
      PublishedArrive(s, st.key, st.fp);
    } else {
      StepsMoveOneCaller(s, st);
      forall i | 0 <= i < |s.successes| ensures SuccessVisible(t, s.successes[i].gate) {
        VisibleStays(s, t, st.c, s.successes[i].gate);
      }
      if st.SendOk? {
        assert t.callers[st.c].pc.Committing();
        forall i | 0 <= i < |s.successes| ensures s.successes[i].gate != s.callers[st.c].pc.gate {
          LeaderGateUnused(s, st.c, i);
        }
      }
    }
  }

  // Strict mode: one success per retention period.

  lemma LeaderKeyNotOutstanding(s: State, c: nat)
    requires Inv(s) && s.strict && c < |s.callers| && s.callers[c].pc.Leading?
    ensures !Outstanding(s.log, s.callers[c].key)
  {
    if Outstanding(s.log, s.callers[c].key) {
      var d :| 0 <= d < |s.callers| && s.callers[d].pc.Sent? && s.callers[d].key == s.callers[c].key;
      GuardIsExclusive(s, c, d);
    }
  }

  lemma AccountedSendOk(s: State, c: nat, ids: Ids)
    requires Inv(s) && s.strict && Enabled(s, SendOk(c, ids))
    ensures IssuesAccounted(Next(s, SendOk(c, ids)))
  {
    var t := Next(s, SendOk(c, ids));
    var key := s.callers[c].key;
    assert t.callers[c].pc.Sent?;
    forall k | Outstanding(t.log, k)
      ensures HasKey(t.window, k) || exists d :: 0 <= d < |t.callers| && t.callers[d].pc.Sent? && t.callers[d].key == k
    {
      OutstandingAppend(s.log, Issue(key), k);
      if k != key && !HasKey(s.window, k) {
        var d :| 0 <= d < |s.callers| && s.callers[d].pc.Sent? && s.callers[d].key == k;
        assert t.callers[d] == s.callers[d];
      }
    }
  }

  lemma AccountedRecord(s: State, c: nat)
    requires Inv(s) && s.strict && Enabled(s, Record(c))
    ensures IssuesAccounted(Next(s, Record(c)))
  {
    var t := Next(s, Record(c));
    var e := Slot(s.callers[c].key, Receipt(s.callers[c].fp, s.callers[c].pc.ids));
    var evicts := |s.window| >= s.cap;
    PutKeepsWellformed(s.window, s.cap, e);
    forall k | Outstanding(t.log, k)
      ensures HasKey(t.window, k) || exists d :: 0 <= d < |t.callers| && t.callers[d].pc.Sent? && t.callers[d].key == k
    {
      if evicts { OutstandingAppend(s.log, Evict(s.window[0].key), k); }
      if k != e.key {
        if HasKey(s.window, k) {
          var i :| 0 <= i < |s.window| && s.window[i].key == k;
          PutKeepsRetainedValue(s.window, s.cap, e, i);
        } else {
          var d :| 0 <= d < |s.callers| && s.callers[d].pc.Sent? && s.callers[d].key == k;
          assert t.callers[d] == s.callers[d];
        }
      }
    }
  }

  lemma AccountedOther(s: State, t: State)
    requires IssuesAccounted(s) && t.strict == s.strict && t.window == s.window && t.log == s.log
    requires forall d :: 0 <= d < |s.callers| && s.callers[d].pc.Sent? ==> d < |t.callers| && t.callers[d] == s.callers[d]
    ensures IssuesAccounted(t)
  {
    forall k | s.strict && Outstanding(t.log, k)
      ensures HasKey(t.window, k) || exists d :: 0 <= d < |t.callers| && t.callers[d].pc.Sent? && t.callers[d].key == k
    {
      if !HasKey(s.window, k) {
        var d :| 0 <= d < |s.callers| && s.callers[d].pc.Sent? && s.callers[d].key == k;
        assert t.callers[d] == s.callers[d];
      }
    }
  }

  lemma IssuesAccountedPreserved(s: State, st: Step)
    requires Inv(s) && Enabled(s, st)
    ensures IssuesAccounted(Next(s, st))
  {
    if !s.strict {
    } else if st.SendOk? {
      AccountedSendOk(s, st.c, st.ids);
    } else if st.Record? {
      AccountedRecord(s, st.c);
    } else {
      if !st.Arrive? && !st.Publish? { StepsMoveOneCaller(s, st); }
      AccountedOther(s, Next(s, st));
    }
  }

  lemma StepPreserves(s: State, st: Step)
    requires Inv(s) && Enabled(s, st)
    ensures Inv(Next(s, st))
  {
    StructurePreserved(s, st);
    LeadersCleanPreserved(s, st);
    ResultsGenuinePreserved(s, st);
    SuccessesPublishedPreserved(s, st);
    IssuesAccountedPreserved(s, st);
    if st.Record? {
      var caller := s.callers[st.c];
      PutKeepsWellformed(s.window, s.cap, Slot(caller.key, Receipt(caller.fp, caller.pc.ids)));
    }
  }

  lemma {:induction false} ReachableStatesKeepInv(states: seq<State>, steps: seq<Step>, i: nat)
    requires IsRun(states, steps) && i < |states|
    ensures Inv(states[i])
  {
    if i > 0 {
      ReachableStatesKeepInv(states, steps, i - 1);
      assert TakesStep(states, steps, i - 1);
      StepPreserves(states[i - 1], steps[i - 1]);
    }
  }

  // ------------------------------------------------------------ main results

  /** In every reachable state callers of one request share one gate, and at
      most one of them is in charge; in strict mode that holds per key. */
  lemma OneGateOneLeader(states: seq<State>, steps: seq<Step>, i: nat, c: nat, d: nat)
    requires IsRun(states, steps) && i < |states|
    requires c < |states[i].callers| && d < |states[i].callers|
    requires states[i].callers[c].pc.HoldsGate() && states[i].callers[d].pc.HoldsGate()
    requires states[i].callers[c].key == states[i].callers[d].key
    requires states[i].strict || states[i].callers[c].fp == states[i].callers[d].fp
    ensures states[i].callers[c].fp == states[i].callers[d].fp
    ensures states[i].callers[c].pc.gate == states[i].callers[d].pc.gate
    ensures states[i].callers[c].pc.HoldsGuard() && states[i].callers[d].pc.HoldsGuard() ==> c == d
  {
    ReachableStatesKeepInv(states, steps, i);
  }

  /** A gate sees at most one successful send in its whole lifetime. */
  lemma OneSuccessPerGate(states: seq<State>, steps: seq<Step>, i: nat, a: nat, b: nat)
    requires IsRun(states, steps) && i < |states|
    requires a < b < |states[i].successes|
    ensures states[i].successes[a].gate != states[i].successes[b].gate
  {
    ReachableStatesKeepInv(states, steps, i);
  }

  /** Nobody is elected, and no elected caller sends, while the request's
      receipt is retained; in strict mode, while any receipt of its key is. */
  lemma NoSendWhileRetained(states: seq<State>, steps: seq<Step>, i: nat, c: nat)
    requires IsRun(states, steps) && i < |states| && c < |states[i].callers|
    requires states[i].callers[c].pc.Leading? || states[i].callers[c].pc.Sent?
    ensures !Bound(states[i].window, states[i].callers[c].key, states[i].callers[c].fp)
    ensures states[i].strict ==> !HasKey(states[i].window, states[i].callers[c].key)
  {
    ReachableStatesKeepInv(states, steps, i);
  }

  /** Every Completed answer carries ids that a successful send produced for
      the same key and the same fingerprint. */
  lemma CompletedAnswersAreGenuine(states: seq<State>, steps: seq<Step>, i: nat, c: nat)
    requires IsRun(states, steps) && i < |states| && c < |states[i].callers|
    requires states[i].callers[c].pc.Done? && states[i].callers[c].pc.answer.Completed?
    ensures Produced(states[i], states[i].callers[c].key, states[i].callers[c].fp, states[i].callers[c].pc.answer.ids)
  {
    ReachableStatesKeepInv(states, steps, i);
  }

  ghost predicate Evicted(s: State, t: State, key: Key) {
    HasKey(s.window, key) && !HasKey(t.window, key)
  }

  ghost predicate EvictedAt(states: seq<State>, m: nat, key: Key)
    requires m + 1 < |states|
  {
    Evicted(states[m], states[m + 1], key)
  }

  ghost predicate EvictedBetween(states: seq<State>, lo: nat, hi: nat, key: Key)
    requires hi < |states|
  {
    exists m :: lo <= m < hi && EvictedAt(states, m, key)
  }

  lemma OutstandingUntilEvicted(states: seq<State>, steps: seq<Step>, m: nat, key: Key)
    requires IsRun(states, steps) && m < |steps|
    requires states[m].strict && Outstanding(states[m].log, key) && !EvictedAt(states, m, key)
    ensures states[m + 1].strict && Outstanding(states[m + 1].log, key)
  {
    ReachableStatesKeepInv(states, steps, m);
    assert TakesStep(states, steps, m);
    var (s, st) := (states[m], steps[m]);
    if st.SendOk? {
      OutstandingAppend(s.log, Issue(s.callers[st.c].key), key);
    } else if st.Record? {
      var e := Slot(s.callers[st.c].key, Receipt(s.callers[st.c].fp, s.callers[st.c].pc.ids));
      if |s.window| >= s.cap {
        OutstandingAppend(s.log, Evict(s.window[0].key), key);
        PutKeepsRetainedValue(s.window, s.cap, e, 0);
      }
    }
  }

  lemma {:induction false} StaysOutstanding(states: seq<State>, steps: seq<Step>, lo: nat, hi: nat, key: Key)
    requires IsRun(states, steps) && lo <= hi < |states|
    requires states[lo].strict && Outstanding(states[lo].log, key) && !EvictedBetween(states, lo, hi, key)
    ensures states[hi].strict && Outstanding(states[hi].log, key)
  {
    if lo < hi {
      StaysOutstanding(states, steps, lo, hi - 1, key);
      OutstandingUntilEvicted(states, steps, hi - 1, key);
    }
  }

  /** Strict idempotency: over every interleaving, two mutations that succeed
      under one key have an eviction of that key's receipt between them. */
  lemma StrictAtMostOncePerRetention(states: seq<State>, steps: seq<Step>, a: nat, b: nat)
    requires IsRun(states, steps) && a < b < |steps| && states[a].strict
    requires steps[a].SendOk? && steps[b].SendOk?
    requires steps[a].c < |states[a].callers| && steps[b].c < |states[b].callers|
    requires states[a].callers[steps[a].c].key == states[b].callers[steps[b].c].key
    ensures EvictedBetween(states, a + 1, b, states[a].callers[steps[a].c].key)
  {
    var key := states[a].callers[steps[a].c].key;
    ReachableStatesKeepInv(states, steps, b);
    assert TakesStep(states, steps, a) && TakesStep(states, steps, b);
    OutstandingAppend(states[a].log, Issue(key), key);
    if !EvictedBetween(states, a + 1, b, key) {
      StaysOutstanding(states, steps, a + 1, b, key);
      LeaderKeyNotOutstanding(states[b], steps[b].c);
    }
  }

  /** Strict idempotency, the other side: while a receipt of the key is
      retained, every check answers Completed to its fingerprint and Conflict
      to all others, and no caller of the key is past those checks. */
  lemma StrictRetainedKeyDecides(states: seq<State>, steps: seq<Step>, i: nat, c: nat)
    requires IsRun(states, steps) && i < |states| && states[i].strict && c < |states[i].callers|
    requires HasKey(states[i].window, states[i].callers[c].key)
    ensures var s := states[i];
            var caller := s.callers[c];
            var bound := Find(s.window, caller.key);
            var expected := if bound.fp == caller.fp then Completed(bound.ids) else Conflict;
            && !caller.pc.Rechecked? && !caller.pc.Leading? && !caller.pc.Sent?
            && (caller.pc.Start? ==> Next(s, Lookup(c)).callers[c].pc == Done(expected))
            && (caller.pc.Locked? ==> Next(s, Recheck(c)).callers[c].pc == Returning(caller.pc.gate, expected, true))
  {
    ReachableStatesKeepInv(states, steps, i);
  }

  lemma BoundUntilEvicted(states: seq<State>, steps: seq<Step>, m: nat, key: Key, fp: Fingerprint)
    requires IsRun(states, steps) && m < |steps|
    requires Bound(states[m].window, key, fp) && !EvictedAt(states, m, key)
    ensures Bound(states[m + 1].window, key, fp)
  {
    ReachableStatesKeepInv(states, steps, m);
    assert TakesStep(states, steps, m);
    var (s, st) := (states[m], steps[m]);
    if st.Record? {
      var e := Slot(s.callers[st.c].key, Receipt(s.callers[st.c].fp, s.callers[st.c].pc.ids));
      var i :| 0 <= i < |s.window| && s.window[i].key == key && s.window[i].value.fp == fp;
      PutKeepsRetainedValue(s.window, s.cap, e, i);
    }
  }

  lemma {:induction false} StaysBound(states: seq<State>, steps: seq<Step>, lo: nat, hi: nat, key: Key, fp: Fingerprint)
    requires IsRun(states, steps) && lo <= hi < |states|
    requires Bound(states[lo].window, key, fp) && !EvictedBetween(states, lo, hi, key)
    ensures Bound(states[hi].window, key, fp)
  {
    if lo < hi {
      StaysBound(states, steps, lo, hi - 1, key, fp);
      BoundUntilEvicted(states, steps, hi - 1, key, fp);
    }
  }

  /** Durable sends: once a request's receipt is in place, the same request is
      sent again only after that receipt was evicted. */
  lemma DurableResendNeedsEviction(states: seq<State>, steps: seq<Step>, r: nat, b: nat)
    requires IsRun(states, steps) && r <= b < |steps| && steps[b].SendOk? && steps[b].c < |states[b].callers|
    requires Bound(states[r].window, states[b].callers[steps[b].c].key, states[b].callers[steps[b].c].fp)
    ensures EvictedBetween(states, r, b, states[b].callers[steps[b].c].key)
  {
    var caller := states[b].callers[steps[b].c];
    assert TakesStep(states, steps, b);
    if !EvictedBetween(states, r, b, caller.key) {
      StaysBound(states, steps, r, b, caller.key, caller.fp);
      NoSendWhileRetained(states, steps, b, steps[b].c);
    }
  }

  /** A successful send leaves its receipt behind exactly when its key is not
      already bound to another request: the legacy cache-miss behaviour. */
  lemma ReceiptSticksIffKeyFree(states: seq<State>, steps: seq<Step>, r: nat)
    requires IsRun(states, steps) && r < |steps| && steps[r].Record? && steps[r].c < |states[r].callers|
    ensures Bound(states[r + 1].window, states[r].callers[steps[r].c].key, states[r].callers[steps[r].c].fp)
            <==> !HasKey(states[r].window, states[r].callers[steps[r].c].key)
  {
    ReachableStatesKeepInv(states, steps, r);
    assert TakesStep(states, steps, r);
    var caller := states[r].callers[steps[r].c];
    var w := states[r + 1].window;
    if !HasKey(states[r].window, caller.key) {
      assert w[|w| - 1] == Slot(caller.key, Receipt(caller.fp, caller.pc.ids));
    }
  }

  // ---------------------------------------------------------------- no stuck key

  /** A run that can take one more step. */
  lemma Extend(states: seq<State>, steps: seq<Step>, st: Step) returns (longer: seq<State>, more: seq<Step>)
    requires IsRun(states, steps) && Enabled(states[|steps|], st)
    ensures IsRun(longer, more) && longer == states + [Next(states[|steps|], st)] && more == steps + [st]
  {
    longer, more := states + [Next(states[|steps|], st)], steps + [st];
    forall i | 0 <= i < |more| ensures TakesStep(longer, more, i) {
      if i < |steps| { assert TakesStep(states, steps, i); }
    }
  }

  /** Nobody is on the way with this key any more. */
  ghost predicate Abandoned(s: State, key: Key) {
    forall d :: 0 <= d < |s.callers| && s.callers[d].key == key ==> !s.callers[d].pc.HoldsGate()
  }

  /** A gate that nobody holds does not stand in the way. */
  lemma AbandonedGatesAreDropped(s: State, key: Key)
    requires GatesRegistered(s) && Abandoned(s, key)
    ensures forall kf :: kf in Retained(s) ==> kf.0 != key
  {
  }

  /** The caller that found nothing gets a fresh gate. */
  lemma FreshGate(s: State, c: nat)
    requires GatesRegistered(s) && c < |s.callers| && s.callers[c].pc.Missed? && Abandoned(s, s.callers[c].key)
    ensures var t := EnterNext(s, c);
            && |t.callers| == |s.callers| && |t.gates| == |s.gates| + 1 && t.window == s.window && t.strict == s.strict
            && t.callers[c] == s.callers[c].(pc := Waiting(|s.gates|))
            && t.gates[|s.gates|] == Gate(s.callers[c].key, s.callers[c].fp, None, None)
  {
    AbandonedGatesAreDropped(s, s.callers[c].key);
  }

  /** However earlier callers of a key ended, by answer, failure, timeout or
      cancellation, once they are gone and no receipt answers for it, the next
      caller can lead and succeed: no gate or lock is ever left behind. */
  lemma AbandonedKeyCanLead(states: seq<State>, steps: seq<Step>, key: Key, fp: Fingerprint, ids: Ids)
    returns (longer: seq<State>, more: seq<Step>)
    requires IsRun(states, steps)
    requires CacheAnswer(states[|steps|], key, fp).None? && Abandoned(states[|steps|], key)
    ensures IsRun(longer, more) && states <= longer && steps <= more
    ensures var c := |states[|steps|].callers|;
            c < |longer[|more|].callers| && longer[|more|].callers[c] == Caller(key, fp, Done(Performed(ids)))
  {
    var c := |states[|steps|].callers|;
    longer, more := Extend(states, steps, Arrive(key, fp));
    longer, more := Extend(longer, more, Lookup(c));
    ReachableStatesKeepInv(longer, more, |more|);
    FreshGate(longer[|more|], c);
    longer, more := Extend(longer, more, Enter(c));
    longer, more := BecomeLeader(longer, more, c);
    longer, more := SendAndAnswer(longer, more, c, ids);
  }

  /** From a fresh gate to the lead. */
  lemma BecomeLeader(states: seq<State>, steps: seq<Step>, c: nat) returns (longer: seq<State>, more: seq<Step>)
    requires IsRun(states, steps) && c < |states[|steps|].callers|
    requires var s := states[|steps|];
             && s.callers[c].pc.Waiting? && s.callers[c].pc.gate < |s.gates|
             && s.gates[s.callers[c].pc.gate].owner.None? && s.gates[s.callers[c].pc.gate].completed.None?
             && CacheAnswer(s, s.callers[c].key, s.callers[c].fp).None?
    ensures IsRun(longer, more) && states <= longer && steps <= more
    ensures var (s, t) := (states[|steps|], longer[|more|]);
            && c < |t.callers| && t.callers[c] == s.callers[c].(pc := Leading(s.callers[c].pc.gate))
            && s.callers[c].pc.gate < |t.gates|
  {
    longer, more := Extend(states, steps, Lock(c));
    longer, more := Extend(longer, more, Recheck(c));
    longer, more := Extend(longer, more, Elect(c));
  }

  /** From the lead to the answer. */
  lemma SendAndAnswer(states: seq<State>, steps: seq<Step>, c: nat, ids: Ids) returns (longer: seq<State>, more: seq<Step>)
    requires IsRun(states, steps) && c < |states[|steps|].callers|
    requires var s := states[|steps|]; s.callers[c].pc.Leading? && s.callers[c].pc.gate < |s.gates|
    ensures IsRun(longer, more) && states <= longer && steps <= more
    ensures c < |longer[|more|].callers| && longer[|more|].callers[c] == states[|steps|].callers[c].(pc := Done(Performed(ids)))
  {
    longer, more := Extend(states, steps, SendOk(c, ids));
    longer, more := Extend(longer, more, Record(c));
    longer, more := Extend(longer, more, Publish(c));
    longer, more := ReturnAnswer(longer, more, c);
  }

  /** Dropping the lock and the gate leaves the answer. */
  lemma ReturnAnswer(states: seq<State>, steps: seq<Step>, c: nat) returns (longer: seq<State>, more: seq<Step>)
    requires IsRun(states, steps) && c < |states[|steps|].callers|
    requires var s := states[|steps|]; s.callers[c].pc.Returning? && s.callers[c].pc.guard && s.callers[c].pc.gate < |s.gates|
    ensures IsRun(longer, more) && states <= longer && steps <= more
    ensures c < |longer[|more|].callers|
    ensures longer[|more|].callers[c] == states[|steps|].callers[c].(pc := Done(states[|steps|].callers[c].pc.answer))
  {
    longer, more := Extend(states, steps, DropGuard(c));
    longer, more := Extend(longer, more, DropGate(c));
  }
}
