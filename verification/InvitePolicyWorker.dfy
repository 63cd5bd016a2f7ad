/** The invite-policy worker and its backoffs. */
module InvitePolicyWorker {
  // The invite-policy worker: the per-candidate retry backoff, the adaptive
  // safety-net enumeration with its failure floor, and the loop that drives
  // both. Time is in milliseconds; a timer never fires early.

  import opened Arithmetic
  import opened BoundedFifo

  type Key(==, !new)

  const U32_MAX: nat := 0xFFFF_FFFF

  datatype Retry = Retry(attempts: nat, at: nat)

  type Failures = map<Key, Retry>

  datatype Schedule = Schedule(base: nat, max: nat, retryBase: nat, retryMax: nat) {
    function Base(): nat { if base < 1 then 1 else base }
    predicate Ordered() { Base() <= max }
  }

  function Min(a: nat, b: nat): nat { if a <= b then a else b }

  function Pow2(n: nat): nat { if n == 0 then 1 else 2 * Pow2(n - 1) }

  // ------------------------------------------------------------ retry state

  /** Exponential backoff with its exponent capped at ten doublings. */
  function RetryDelay(attempts: nat, retryBase: nat, retryMax: nat): nat {
    var exponent := Min(if attempts == 0 then 0 else attempts - 1, 10);
    Min(retryBase * Pow2(exponent), retryMax)
  }

  predicate IsDue(failures: Failures, key: Key, now: nat) {
    key in failures ==> now >= failures[key].at
  }

  function NextAttempt(failures: Failures, key: Key): nat {
    if key in failures then Min(failures[key].attempts + 1, U32_MAX) else 1
  }

  function RecordFailure(failures: Failures, key: Key, now: nat, schedule: Schedule): Failures {
    var attempts := NextAttempt(failures, key);
    failures[key := Retry(attempts, now + RetryDelay(attempts, schedule.retryBase, schedule.retryMax))]
  }

  class InvitePolicyRetryState {
    var failures: Failures

    constructor ()
      ensures failures == map[]
    {
      failures := map[];
    }

    method Clear(key: Key)
      modifies this
      ensures failures == old(failures) - {key}
    {
      failures := failures - {key};
    }

    method RetainPending(pending: set<Key>)
      modifies this
      ensures failures == map k | k in old(failures) && k in pending :: old(failures)[k]
    {
      failures := map k | k in failures && k in pending :: failures[k];
    }

    method RecordFailureWith(key: Key, now: nat, schedule: Schedule) returns (attempts: nat, delay: nat)
      modifies this
      ensures failures == RecordFailure(old(failures), key, now, schedule)
      ensures attempts == NextAttempt(old(failures), key) && delay == RetryDelay(attempts, schedule.retryBase, schedule.retryMax)
      ensures delay <= schedule.retryMax && forall t: nat :: IsDue(failures, key, t) <==> now + delay <= t
    {
      attempts := NextAttempt(failures, key);
      delay := RetryDelay(attempts, schedule.retryBase, schedule.retryMax);
      failures := failures[key := Retry(attempts, now + delay)];
    }

    /** The earliest retry over all failed candidates. */
    method NextDue() returns (due: Option<nat>)
      ensures due.None? <==> failures == map[]
      ensures due.Some? ==> exists k :: k in failures && failures[k].at == due.value
      ensures due.Some? ==> forall k :: k in failures ==> due.value <= failures[k].at
    {
      due := None;
      var rest := failures.Keys;
      while rest != {}
        invariant rest <= failures.Keys
        invariant due.None? <==> rest == failures.Keys
        invariant due.Some? ==> exists k :: k in failures && failures[k].at == due.value
        invariant due.Some? ==> forall k :: k in failures && k !in rest ==> due.value <= failures[k].at
        decreases rest
      {
        var k :| k in rest;
        var at := failures[k].at;
        if due.None? || at < due.value {
          due := Some(at);
        }
        rest := rest - {k};
      }
    }
  }

  // ---------------------------------------------------------- one enumeration

  /** One application of the policy to a candidate that was due, from its
      start to its return. */
  datatype Attempt = Attempt(key: Key, start: nat, end: nat, ok: bool)

  /** The effect of offering a candidate: nothing unless it is due. */
  ghost function Try(failures: Failures, a: Attempt, schedule: Schedule): Failures {
    if !IsDue(failures, a.key, a.start) then failures
    else if a.ok then failures - {a.key}
    else RecordFailure(failures, a.key, a.end, schedule)
  }

  ghost function TryAll(failures: Failures, attempts: seq<Attempt>, schedule: Schedule): Failures {
    if attempts == [] then failures
    else Try(TryAll(failures, attempts[..|attempts| - 1], schedule), attempts[|attempts| - 1], schedule)
  }

  ghost function Retain(failures: Failures, pending: set<Key>): Failures {
    map k | k in failures && k in pending :: failures[k]
  }

  ghost function KeysOf(candidates: seq<Attempt>): set<Key> {
    set i | 0 <= i < |candidates| :: candidates[i].key
  }

  /** Either the enumeration failed, or it listed candidates, each offered in turn. */
  datatype Enumeration = Unavailable | Listed(candidates: seq<Attempt>)

  ghost function Reconcile(failures: Failures, e: Enumeration, schedule: Schedule): Failures {
    match e
    case Unavailable => failures
    case Listed(candidates) =>
      TryAll(Retain(failures, KeysOf(candidates)), candidates, schedule)
  }

  // ------------------------------------------------------------------ the loop

  datatype Worker = Worker(
    safetyInterval: nat, safetyDeadline: nat,
    failureDelay: nat, failedUntil: Option<nat>,
    failures: Failures)

  /** One turn of the loop, with the times the surroundings gave it. */
  datatype Turn =
    | Safety(start: nat, end: nat, result: Enumeration)
    | RetryWake(start: nat, end: nat, result: Enumeration)
    | EventsLagged(start: nat, end: nat, result: Enumeration)
    | Joined(start: nat, end: nat, attempt: Attempt)
    | OtherEvent(start: nat, end: nat)

  /** `note_enumeration_result`, writing through its two references. */
  method NoteEnumerationResult(failedUntil: Option<nat>, failureDelay: nat, result: Enumeration, now: nat, base: nat, max: nat)
    returns (failedUntil': Option<nat>, failureDelay': nat)
    ensures forall w: Worker :: w.failedUntil == failedUntil && w.failureDelay == failureDelay ==>
      Note(w, result, now, base, max) == w.(failedUntil := failedUntil', failureDelay := failureDelay')
  {
    failedUntil', failureDelay' := failedUntil, failureDelay;
    if result.Listed? {
      failedUntil' := None;
      failureDelay' := base;
    } else {
      failedUntil' := Some(now + failureDelay);
      failureDelay' := Min(failureDelay * 2, max);
    }
  }

  function Note(w: Worker, result: Enumeration, now: nat, base: nat, max: nat): Worker {
    if result.Listed? then w.(failedUntil := None, failureDelay := base)
    else w.(failedUntil := Some(now + w.failureDelay), failureDelay := Min(w.failureDelay * 2, max))
  }

  /** The candidates of an enumeration are offered one after the other, between its
      start and its end. */
  ghost predicate RunsWithin(e: Enumeration, start: nat, end: nat) {
    start <= end && (e.Listed? ==> InTurn(e.candidates, start, end))
  }

  ghost predicate InTurn(candidates: seq<Attempt>, start: nat, end: nat) {
    && (forall i :: 0 <= i < |candidates| ==> start <= candidates[i].start <= candidates[i].end <= end)
    && (forall i, j :: 0 <= i < j < |candidates| ==> candidates[i].end <= candidates[j].start)
  }

  /** When the loop may take a turn: the safety timer, the matured retry pushed
      out to the failure floor, or an event. */
  ghost predicate Allowed(w: Worker, turn: Turn) {
    turn.start <= turn.end &&
    match turn
    case Safety(start, end, result) => w.safetyDeadline <= start && RunsWithin(result, start, end)
    case RetryWake(start, end, result) =>
      && RunsWithin(result, start, end)
      && (exists k :: k in w.failures && w.failures[k].at <= start)
      && (w.failedUntil.Some? ==> w.failedUntil.value <= start)
    case EventsLagged(start, end, result) => RunsWithin(result, start, end)
    case Joined(start, end, a) => start <= a.start <= a.end <= end
    case OtherEvent(_, _) => true
  }

  ghost function NextWorker(schedule: Schedule, w: Worker, turn: Turn): Worker {
    match turn
    case Safety(_, end, result) =>
      var failures := Reconcile(w.failures, result, schedule);
      var noted := Note(w.(failures := failures), result, end, schedule.Base(), schedule.max);
      var interval :=
        match result
        case Unavailable => Min(noted.failureDelay, schedule.max)
        case Listed(candidates) =>
          if |candidates| > 0 || failures != map[] then schedule.Base() else Min(w.safetyInterval * 2, schedule.max);
      noted.(safetyInterval := interval, safetyDeadline := end + interval)
    case RetryWake(_, end, result) =>
      Note(w.(failures := Reconcile(w.failures, result, schedule)), result, end, schedule.Base(), schedule.max)
    case EventsLagged(_, end, result) =>
      Note(w.(failures := Reconcile(w.failures, result, schedule)), result, end, schedule.Base(), schedule.max)
        .(safetyInterval := schedule.Base(), safetyDeadline := end + schedule.Base())
    case Joined(_, end, a) =>
      w.(failures := Try(w.failures, a, schedule), safetyInterval := schedule.Base(), safetyDeadline := end + schedule.Base())
    case OtherEvent(_, _) => w
  }

  /** The worker after its start-up enumeration, which ran until `end`. */
  ghost function Started(schedule: Schedule, result: Enumeration, end: nat): Worker {
    var interval := Min(schedule.Base(), schedule.max);
    Note(Worker(interval, end + interval, schedule.Base(), None, Reconcile(map[], result, schedule)),
         result, end, schedule.Base(), schedule.max)
  }

  /** `workers[i]` is the state before turn `i`; the start-up enumeration ran until
      `end`, before the first turn. */
  ghost predicate IsRunFrom(schedule: Schedule, workers: seq<Worker>, turns: seq<Turn>, startup: Enumeration, end: nat) {
    && |workers| == |turns| + 1
    && workers[0] == Started(schedule, startup, end) && RunsWithin(startup, 0, end)
    && (forall i :: 0 <= i < |turns| ==> TakesTurn(schedule, workers, turns, i))
    && (forall i, j :: 0 <= i < j < |turns| ==> turns[i].end <= turns[j].start)
    && (forall i :: 0 <= i < |turns| ==> end <= turns[i].start)
  }

  ghost predicate IsRun(schedule: Schedule, workers: seq<Worker>, turns: seq<Turn>) {
    exists startup: Enumeration, end: nat :: IsRunFrom(schedule, workers, turns, startup, end)
  }

  ghost predicate TakesTurn(schedule: Schedule, workers: seq<Worker>, turns: seq<Turn>, i: nat)
    requires |workers| == |turns| + 1 && i < |turns|
  {
    Allowed(workers[i], turns[i]) && workers[i + 1] == NextWorker(schedule, workers[i], turns[i])
  }

  /** The failure delay never drops below the base interval. */
  lemma {:induction false} FailureDelayAtLeastBase(schedule: Schedule, workers: seq<Worker>, turns: seq<Turn>, i: nat)
    requires schedule.Ordered() && IsRun(schedule, workers, turns) && i <= |turns|
    ensures schedule.Base() <= workers[i].failureDelay
  {
    if i > 0 {
      FailureDelayAtLeastBase(schedule, workers, turns, i - 1);
      assert TakesTurn(schedule, workers, turns, i - 1);
    }
  }

  /** Turns `i` to `j` are all enumerations that fail, without any event. */
  ghost predicate Failing(turns: seq<Turn>, i: nat, j: nat)
    requires i <= j <= |turns|
  {
    forall k :: i <= k < j ==> (turns[k].Safety? || turns[k].RetryWake?) && turns[k].result.Unavailable?
  }

  ghost function CountSafety(turns: seq<Turn>, i: nat, j: nat): nat
    requires i <= j <= |turns|
  {
    if i == j then 0 else CountSafety(turns, i, j - 1) + if turns[j - 1].Safety? then 1 else 0
  }

  /** Through a failing stretch the safety deadline stays a base interval past
      the last safety pass, and the failure floor a base interval past the last
      pass of any kind. */
  lemma FailingTurn(schedule: Schedule, workers: seq<Worker>, turns: seq<Turn>, k: nat)
    requires schedule.Ordered() && IsRun(schedule, workers, turns) && k < |turns| && Failing(turns, k, k + 1)
    ensures workers[k + 1].failedUntil.Some? && turns[k].end + schedule.Base() <= workers[k + 1].failedUntil.value
    ensures turns[k].Safety? ==> turns[k].end + schedule.Base() <= workers[k + 1].safetyDeadline
    ensures turns[k].RetryWake? ==> workers[k + 1].safetyDeadline == workers[k].safetyDeadline
    ensures turns[k].start <= turns[k].end
    ensures turns[k].Safety? ==> workers[k].safetyDeadline <= turns[k].start
    ensures turns[k].RetryWake? && workers[k].failedUntil.Some? ==> workers[k].failedUntil.value <= turns[k].start
  {
    FailureDelayAtLeastBase(schedule, workers, turns, k);
    assert TakesTurn(schedule, workers, turns, k);
  }

  /** Safety passes of a failing stretch are at least a base interval apart. */
  lemma {:induction false} SafetyPassesSpread(schedule: Schedule, workers: seq<Worker>, turns: seq<Turn>, i: nat, j: nat)
    requires schedule.Ordered() && IsRun(schedule, workers, turns) && i < j <= |turns| && Failing(turns, i, j)
    ensures CountSafety(turns, i, j) > 0 ==>
      && turns[i].start + Times(CountSafety(turns, i, j) - 1, schedule.Base()) <= turns[j - 1].start
      && turns[i].start + Times(CountSafety(turns, i, j), schedule.Base()) <= workers[j].safetyDeadline
  {
    FailingTurn(schedule, workers, turns, j - 1);
    if j - 1 > i {
      SafetyPassesSpread(schedule, workers, turns, i, j - 1);
      FailingTurn(schedule, workers, turns, j - 2);
      FailingTurn(schedule, workers, turns, i);
      assert turns[j - 2].end <= turns[j - 1].start;
      assert turns[i].start <= turns[j - 1].start;
    } else {
      assert CountSafety(turns, i, i) == 0;
    }
  }

  /** So are its retry-driven passes, from whatever pass came before. */
  lemma {:induction false} RetryPassesSpread(schedule: Schedule, workers: seq<Worker>, turns: seq<Turn>, i: nat, j: nat)
    requires schedule.Ordered() && IsRun(schedule, workers, turns) && i < j <= |turns| && Failing(turns, i, j)
    ensures var n := j - i - CountSafety(turns, i, j);
            n > 0 ==> turns[i].start + Times(n - 1, schedule.Base()) <= turns[j - 1].start
    ensures CountSafety(turns, i, j) <= j - i
  {
    FailingTurn(schedule, workers, turns, j - 1);
    if j - 1 > i {
      RetryPassesSpread(schedule, workers, turns, i, j - 1);
      FailingTurn(schedule, workers, turns, j - 2);
      FailingTurn(schedule, workers, turns, i);
      assert turns[j - 2].end <= turns[j - 1].start;
      assert turns[i].start <= turns[j - 1].start;
    } else {
      assert CountSafety(turns, i, i) == 0;
    }
  }

  /** The worker never spins: while enumerations keep failing and no event
      arrives, a window of length `span` sees at most 2 (span / base + 1)
      enumerations. */
  lemma FailingEnumerationsAreRateLimited(schedule: Schedule, workers: seq<Worker>, turns: seq<Turn>, i: nat, j: nat, span: nat)
    requires schedule.Ordered() && IsRun(schedule, workers, turns) && i < j <= |turns| && Failing(turns, i, j)
    requires turns[j - 1].start <= turns[i].start + span
    ensures j - i <= 2 * (span / schedule.Base() + 1)
  {
    var safety := CountSafety(turns, i, j);
    SafetyPassesSpread(schedule, workers, turns, i, j);
    RetryPassesSpread(schedule, workers, turns, i, j);
    if safety > 0 { FitsInto(safety - 1, schedule.Base(), span); }
    if j - i - safety > 0 { FitsInto(j - i - safety - 1, schedule.Base(), span); }
  }

  // ------------------------------------------------- attempts at one candidate

  /** What happens to the retry state, in order: candidates offered, and
      enumerations forgetting candidates that are no longer pending. */
  datatype RetryOp = Offer(attempt: Attempt) | Forget(pending: set<Key>)

  ghost function ApplyOp(failures: Failures, op: RetryOp, schedule: Schedule): Failures {
    match op
    case Offer(a) => Try(failures, a, schedule)
    case Forget(pending) => Retain(failures, pending)
  }

  ghost function After(ops: seq<RetryOp>, n: nat, schedule: Schedule): Failures
    requires n <= |ops|
  {
    if n == 0 then map[] else ApplyOp(After(ops, n - 1, schedule), ops[n - 1], schedule)
  }

  /** Operation `i` really is an attempt at `key`: the candidate was due. */
  ghost predicate Attempts(ops: seq<RetryOp>, i: nat, key: Key, schedule: Schedule)
    requires i < |ops|
  {
    ops[i].Offer? && ops[i].attempt.key == key && IsDue(After(ops, i, schedule), key, ops[i].attempt.start)
  }

  /** Attempts run one after the other. */
  ghost predicate Sequential(ops: seq<RetryOp>) {
    && (forall i :: 0 <= i < |ops| && ops[i].Offer? ==> ops[i].attempt.start <= ops[i].attempt.end)
    && (forall i, j :: 0 <= i < j < |ops| && ops[i].Offer? && ops[j].Offer? ==> ops[i].attempt.end <= ops[j].attempt.start)
  }

  /** `key` stays pending from operation `i` to `j`: no enumeration drops it and
      no attempt at it succeeds. */
  ghost predicate StaysPending(ops: seq<RetryOp>, i: nat, j: nat, key: Key)
    requires i <= j <= |ops|
  {
    forall k :: i <= k < j ==>
      match ops[k]
      case Offer(a) => a.key == key ==> !a.ok
      case Forget(pending) => key in pending
  }

  ghost function BackoffOf(ops: seq<RetryOp>, i: nat, schedule: Schedule): nat
    requires i < |ops| && ops[i].Offer?
  {
    RetryDelay(NextAttempt(After(ops, i, schedule), ops[i].attempt.key), schedule.retryBase, schedule.retryMax)
  }

  lemma {:induction false} NotDueBeforeBackoff(ops: seq<RetryOp>, i: nat, j: nat, key: Key, schedule: Schedule)
    requires Sequential(ops) && i < j <= |ops|
    requires Attempts(ops, i, key, schedule) && StaysPending(ops, i, j, key)
    ensures var failures := After(ops, j, schedule);
            key in failures && ops[i].attempt.end + BackoffOf(ops, i, schedule) <= failures[key].at
  {
    if i < j - 1 {
      NotDueBeforeBackoff(ops, i, j - 1, key, schedule);
    }
  }

  /** Two attempts at a candidate that stays pending are at least its backoff
      apart, counted from the return of the first. */
  lemma AttemptsRespectBackoff(ops: seq<RetryOp>, i: nat, j: nat, key: Key, schedule: Schedule)
    requires Sequential(ops) && i < j < |ops|
    requires Attempts(ops, i, key, schedule) && Attempts(ops, j, key, schedule) && StaysPending(ops, i, j, key)
    ensures ops[i].attempt.end + BackoffOf(ops, i, schedule) <= ops[j].attempt.start
  {
    NotDueBeforeBackoff(ops, i, j, key, schedule);
  }

  /** Failures of `key` among the first `n` operations since it was last
      forgotten or applied. */
  ghost function ConsecutiveFailures(ops: seq<RetryOp>, n: nat, key: Key, schedule: Schedule): nat
    requires n <= |ops|
  {
    if n == 0 then 0
    else
      var before := ConsecutiveFailures(ops, n - 1, key, schedule);
      match ops[n - 1]
      case Offer(a) => if !Attempts(ops, n - 1, key, schedule) then before else if a.ok then 0 else before + 1
      case Forget(pending) => if key in pending then before else 0
  }

  /** The backoff in force is the one for the number of consecutive failures. */
  lemma {:induction false} BackoffFollowsFailureCount(ops: seq<RetryOp>, n: nat, key: Key, schedule: Schedule)
    requires n <= |ops|
    ensures var failures := After(ops, n, schedule);
            var count := ConsecutiveFailures(ops, n, key, schedule);
            && (key in failures <==> count > 0)
            && (key in failures ==> failures[key].attempts == Min(count, U32_MAX))
  {
    if n > 0 {
      BackoffFollowsFailureCount(ops, n - 1, key, schedule);
    }
  }

  lemma {:induction false} Pow2Grows(a: nat, b: nat)
    requires a <= b
    ensures Pow2(a) <= Pow2(b)
  {
    if a < b { Pow2Grows(a, b - 1); }
  }

  /** Backoffs never shrink as failures accumulate, and never exceed the cap. */
  lemma {:induction false} BackoffGrowsToItsCap(a: nat, b: nat, retryBase: nat, retryMax: nat)
    requires a <= b
    ensures RetryDelay(a, retryBase, retryMax) <= RetryDelay(b, retryBase, retryMax) <= retryMax
  {
    var x, y := Min(if a == 0 then 0 else a - 1, 10), Min(if b == 0 then 0 else b - 1, 10);
    Pow2Grows(x, y);
    TimesIsProduct(Pow2(x), retryBase);
    TimesIsProduct(Pow2(y), retryBase);
    TimesGrows(Pow2(x), Pow2(y), retryBase);
  }

  // The loop's retry state is driven by exactly such operations.

  ghost function OpsOfEnumeration(e: Enumeration): seq<RetryOp> {
    match e
    case Unavailable => []
    case Listed(candidates) => [Forget(KeysOf(candidates))] + Offers(candidates)
  }

  ghost function Offers(candidates: seq<Attempt>): seq<RetryOp> {
    seq(|candidates|, i requires 0 <= i < |candidates| => Offer(candidates[i]))
  }

  ghost function OpsOfTurn(turn: Turn): seq<RetryOp> {
    match turn
    case Joined(_, _, a) => [Offer(a)]
    case OtherEvent(_, _) => []
    case _ => OpsOfEnumeration(turn.result)
  }

  /** The first `n` blocks after the opening one. */
  ghost function Flat(first: seq<RetryOp>, blocks: seq<seq<RetryOp>>, n: nat): seq<RetryOp>
    requires n <= |blocks|
  {
    if n == 0 then first else Flat(first, blocks, n - 1) + blocks[n - 1]
  }

  ghost function Blocks(turns: seq<Turn>): (r: seq<seq<RetryOp>>)
    ensures |r| == |turns| && forall i :: 0 <= i < |turns| ==> r[i] == OpsOfTurn(turns[i])
  {
    seq(|turns|, i requires 0 <= i < |turns| => OpsOfTurn(turns[i]))
  }

  /** The operations of the start-up and of the first `n` turns. */
  ghost function OpsOfRun(startup: Enumeration, turns: seq<Turn>, n: nat): seq<RetryOp>
    requires n <= |turns|
  {
    Flat(OpsOfEnumeration(startup), Blocks(turns), n)
  }

  lemma {:induction false} AfterPrefix(a: seq<RetryOp>, b: seq<RetryOp>, n: nat, schedule: Schedule)
    requires n <= |a|
    ensures After(a + b, n, schedule) == After(a, n, schedule)
  {
    if n > 0 { AfterPrefix(a, b, n - 1, schedule); }
  }

  lemma {:induction false} AfterOffers(ops: seq<RetryOp>, candidates: seq<Attempt>, schedule: Schedule)
    ensures After(ops + Offers(candidates), |ops| + |candidates|, schedule)
            == TryAll(After(ops, |ops|, schedule), candidates, schedule)
  {
    if candidates == [] {
      assert ops + Offers(candidates) == ops;
    } else {
      var init, a := candidates[..|candidates| - 1], candidates[|candidates| - 1];
      AfterOffers(ops, init, schedule);
      assert ops + Offers(candidates) == (ops + Offers(init)) + [Offer(a)];
      AfterPrefix(ops + Offers(init), [Offer(a)], |ops| + |init|, schedule);
    }
  }

  lemma AfterForget(ops: seq<RetryOp>, keys: set<Key>, schedule: Schedule)
    ensures After(ops + [Forget(keys)], |ops| + 1, schedule) == Retain(After(ops, |ops|, schedule), keys)
  {
    AfterPrefix(ops, [Forget(keys)], |ops|, schedule);
  }

  lemma AfterEnumeration(ops: seq<RetryOp>, e: Enumeration, schedule: Schedule)
    ensures After(ops + OpsOfEnumeration(e), |ops + OpsOfEnumeration(e)|, schedule)
            == Reconcile(After(ops, |ops|, schedule), e, schedule)
  {
    match e
    case Unavailable => assert ops + OpsOfEnumeration(e) == ops;
    case Listed(candidates) =>
      var keys := KeysOf(candidates);
      var forgotten := ops + [Forget(keys)];
      AfterForget(ops, keys, schedule);
      AfterOffers(forgotten, candidates, schedule);
      assert ops + OpsOfEnumeration(e) == forgotten + Offers(candidates);
  }

  lemma AfterTurn(ops: seq<RetryOp>, w: Worker, turn: Turn, schedule: Schedule)
    requires w.failures == After(ops, |ops|, schedule)
    ensures After(ops + OpsOfTurn(turn), |ops + OpsOfTurn(turn)|, schedule) == NextWorker(schedule, w, turn).failures
  {
    match turn
    case Joined(_, _, a) => AfterPrefix(ops, [Offer(a)], |ops|, schedule);
    case OtherEvent(_, _) => assert ops + OpsOfTurn(turn) == ops;
    case Safety(_, _, result) => AfterEnumeration(ops, result, schedule);
    case RetryWake(_, _, result) => AfterEnumeration(ops, result, schedule);
    case EventsLagged(_, _, result) => AfterEnumeration(ops, result, schedule);
  }

  /** The operations leave exactly this retry state behind. */
  ghost predicate Leave(ops: seq<RetryOp>, schedule: Schedule, failures: Failures) {
    After(ops, |ops|, schedule) == failures
  }

  lemma StartFollows(schedule: Schedule, startup: Enumeration, end: nat)
    ensures Leave(OpsOfEnumeration(startup), schedule, Started(schedule, startup, end).failures)
  {
    AfterEnumeration([], startup, schedule);
    assert [] + OpsOfEnumeration(startup) == OpsOfEnumeration(startup);
  }

  /** The block takes one retry state to another. */
  ghost predicate Carries(block: seq<RetryOp>, schedule: Schedule, before: Failures, after: Failures) {
    forall ops :: Leave(ops, schedule, before) ==> Leave(ops + block, schedule, after)
  }

  lemma TurnCarries(schedule: Schedule, w: Worker, turn: Turn)
    ensures Carries(OpsOfTurn(turn), schedule, w.failures, NextWorker(schedule, w, turn).failures)
  {
    forall ops | Leave(ops, schedule, w.failures) ensures Leave(ops + OpsOfTurn(turn), schedule, NextWorker(schedule, w, turn).failures) {
      AfterTurn(ops, w, turn, schedule);
    }
  }

  lemma {:induction false} FlatLeaves(first: seq<RetryOp>, blocks: seq<seq<RetryOp>>, schedule: Schedule, states: seq<Failures>, n: nat)
    requires |states| == |blocks| + 1 && n <= |blocks| && Leave(first, schedule, states[0])
    requires forall i :: 0 <= i < |blocks| ==> Carries(blocks[i], schedule, states[i], states[i + 1])
    ensures Leave(Flat(first, blocks, n), schedule, states[n])
  {
    if n > 0 {
      FlatLeaves(first, blocks, schedule, states, n - 1);
      assert Carries(blocks[n - 1], schedule, states[n - 1], states[n]);
      assert Flat(first, blocks, n) == Flat(first, blocks, n - 1) + blocks[n - 1];
    }
  }

  /** In every run of the worker, the retry state at turn `n` is what the
      offers and enumerations up to there leave behind. */
  lemma WorkerFollowsItsOperations(schedule: Schedule, workers: seq<Worker>, turns: seq<Turn>, startup: Enumeration, end: nat, n: nat)
    requires IsRunFrom(schedule, workers, turns, startup, end) && n <= |turns|
    ensures Leave(OpsOfRun(startup, turns, n), schedule, workers[n].failures)
  {
    var states := seq(|workers|, i requires 0 <= i < |workers| => workers[i].failures);
    StartFollows(schedule, startup, end);
    forall i | 0 <= i < |turns| ensures Carries(Blocks(turns)[i], schedule, states[i], states[i + 1]) {
      assert TakesTurn(schedule, workers, turns, i);
      TurnCarries(schedule, workers[i], turns[i]);
    }
    FlatLeaves(OpsOfEnumeration(startup), Blocks(turns), schedule, states, n);
  }

  // ------------------------------------------------- the spacing, in every run

  /** All attempts among the operations run one after the other and end by `limit`. */
  ghost predicate SequentialBy(ops: seq<RetryOp>, limit: nat) {
    Sequential(ops) && forall i :: 0 <= i < |ops| && ops[i].Offer? ==> ops[i].attempt.end <= limit
  }

  lemma SequentialAppend(a: seq<RetryOp>, b: seq<RetryOp>, limit: nat, end: nat)
    requires SequentialBy(a, limit) && SequentialBy(b, end) && limit <= end
    requires forall i :: 0 <= i < |b| && b[i].Offer? ==> limit <= b[i].attempt.start
    ensures SequentialBy(a + b, end)
  {
    var ops := a + b;
    forall i, j | 0 <= i < j < |ops| && ops[i].Offer? && ops[j].Offer? ensures ops[i].attempt.end <= ops[j].attempt.start {
      if j < |a| { assert ops[i] == a[i] && ops[j] == a[j]; }
      else if i >= |a| { assert ops[i] == b[i - |a|] && ops[j] == b[j - |a|]; }
      else { assert ops[i] == a[i] && ops[j] == b[j - |a|]; }
    }
  }

  lemma EnumerationIsSequential(e: Enumeration, start: nat, end: nat)
    requires RunsWithin(e, start, end)
    ensures SequentialBy(OpsOfEnumeration(e), end)
    ensures forall i :: 0 <= i < |OpsOfEnumeration(e)| && OpsOfEnumeration(e)[i].Offer? ==> start <= OpsOfEnumeration(e)[i].attempt.start
  {
    if e.Listed? {
      var ops, c := OpsOfEnumeration(e), e.candidates;
      assert ops[0].Forget? && forall i :: 1 <= i < |ops| ==> ops[i] == Offer(c[i - 1]);
    }
  }

  lemma TurnIsSequential(w: Worker, turn: Turn)
    requires Allowed(w, turn)
    ensures SequentialBy(OpsOfTurn(turn), turn.end)
    ensures forall i :: 0 <= i < |OpsOfTurn(turn)| && OpsOfTurn(turn)[i].Offer? ==> turn.start <= OpsOfTurn(turn)[i].attempt.start
  {
    match turn
    case Safety(start, end, result) => EnumerationIsSequential(result, start, end);
    case RetryWake(start, end, result) => EnumerationIsSequential(result, start, end);
    case EventsLagged(start, end, result) => EnumerationIsSequential(result, start, end);
    case Joined(_, _, _) =>
    case OtherEvent(_, _) =>
  }

  /** The block's attempts run one after the other, between `start` and `end`. */
  ghost predicate Within(block: seq<RetryOp>, start: nat, end: nat) {
    && SequentialBy(block, end) && start <= end
    && forall i :: 0 <= i < |block| && block[i].Offer? ==> start <= block[i].attempt.start
  }

  lemma {:induction false} FlatIsSequential(first: seq<RetryOp>, blocks: seq<seq<RetryOp>>, ends: seq<nat>, n: nat)
    requires |ends| == |blocks| + 1 && n <= |blocks| && SequentialBy(first, ends[0])
    requires forall i :: 0 <= i < |blocks| ==> Within(blocks[i], ends[i], ends[i + 1])
    ensures SequentialBy(Flat(first, blocks, n), ends[n])
  {
    if n > 0 {
      FlatIsSequential(first, blocks, ends, n - 1);
      assert Within(blocks[n - 1], ends[n - 1], ends[n]);
      SequentialAppend(Flat(first, blocks, n - 1), blocks[n - 1], ends[n - 1], ends[n]);
    }
  }

  lemma TurnIsWithin(w: Worker, turn: Turn, start: nat)
    requires Allowed(w, turn) && start <= turn.start
    ensures Within(OpsOfTurn(turn), start, turn.end)
  {
    TurnIsSequential(w, turn);
  }

  /** In every run of the worker its attempts run one after the other. */
  lemma RunIsSequential(schedule: Schedule, workers: seq<Worker>, turns: seq<Turn>, startup: Enumeration, end: nat, n: nat)
    requires IsRunFrom(schedule, workers, turns, startup, end) && n <= |turns|
    ensures Sequential(OpsOfRun(startup, turns, n))
  {
    var ends: seq<nat> := [end] + seq(|turns|, i requires 0 <= i < |turns| => turns[i].end);
    EnumerationIsSequential(startup, 0, end);
    forall i | 0 <= i < |turns| ensures Within(Blocks(turns)[i], ends[i], ends[i + 1]) {
      assert TakesTurn(schedule, workers, turns, i);
      if i > 0 { assert turns[i - 1].end <= turns[i].start; }
      TurnIsWithin(workers[i], turns[i], ends[i]);
    }
    FlatIsSequential(OpsOfEnumeration(startup), Blocks(turns), ends, n);
  }

  /** In every run of the worker, two attempts at a candidate that stays pending are
      at least its backoff apart, counted from the return of the first; and the
      retry state those attempts were made on is the worker's. */
  lemma WorkerRespectsBackoff(schedule: Schedule, workers: seq<Worker>, turns: seq<Turn>, startup: Enumeration, end: nat, n: nat, i: nat, j: nat, key: Key)
    requires IsRunFrom(schedule, workers, turns, startup, end) && n <= |turns|
    requires var ops := OpsOfRun(startup, turns, n);
             && i < j < |ops| && Attempts(ops, i, key, schedule) && Attempts(ops, j, key, schedule) && StaysPending(ops, i, j, key)
    ensures var ops := OpsOfRun(startup, turns, n);
            && ops[i].attempt.end + BackoffOf(ops, i, schedule) <= ops[j].attempt.start
            && Leave(ops, schedule, workers[n].failures)
  {
    RunIsSequential(schedule, workers, turns, startup, end, n);
    AttemptsRespectBackoff(OpsOfRun(startup, turns, n), i, j, key, schedule);
    WorkerFollowsItsOperations(schedule, workers, turns, startup, end, n);
  }
}
