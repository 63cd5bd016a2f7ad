/** The catch-up driver's adaptive schedule. */
module CatchUpCadence {
  // The adaptive schedule of the inbound catch-up driver over the trace of runtime
  // events: the wait between passes, the drain of what is buffered, and the interval
  // they steer. Time is in milliseconds and timers fire on time.

  import opened Arithmetic

  datatype AppEvent = AccountError | Activity

  /** An event broadcast at a time. */
  datatype Sent = Sent(time: nat, event: AppEvent)

  datatype Wake = Timer | Woken

  /** The quiet-time schedule, with the one-millisecond floor on `base`. */
  datatype Schedule = Schedule(base: nat, max: nat) {
    function Base(): nat { if base < 1 then 1 else base }
    function Start(): nat { if Base() <= max then Base() else max }
    predicate Ordered() { Base() <= max }
  }

  function Max(a: nat, b: nat): nat { if a >= b then a else b }

  predicate Sorted(trace: seq<Sent>) {
    forall i, j :: 0 <= i < j < |trace| ==> trace[i].time <= trace[j].time
  }

  /** How many of the unread events have been broadcast by `now`. */
  function Due(unread: seq<Sent>, now: nat): (n: nat)
    ensures n <= |unread|
  {
    if unread == [] || unread[0].time > now then 0 else 1 + Due(unread[1..], now)
  }

  // ------------------------------------------------------------ reading the channel

  datatype Waited = Waited(wake: Wake, at: nat, unread: seq<Sent>, lagged: bool)

  /** The select loop from time `now` on, over a ring of `cap` events: account
      errors are skipped, activity or a lag wakes, though not before the floor.
      `timerFirst` says which branch is taken when both are ready. */
  function WaitOn(cap: nat, unread: seq<Sent>, now: nat, deadline: nat, floor: nat, timerFirst: bool): Waited
    decreases |unread|, if Due(unread, now) > 0 then 0 else 1
  {
    var due := Due(unread, now);
    if due > 0 then
      if now >= deadline && timerFirst then Waited(Timer, deadline, unread, false)
      else if due > cap then Waited(Woken, Max(now, floor), unread[due - cap..], true)
      else if unread[0].event.Activity? then Waited(Woken, Max(now, floor), unread[1..], false)
      else WaitOn(cap, unread[1..], now, deadline, floor, timerFirst)
    else if unread != [] && unread[0].time <= deadline then
      WaitOn(cap, unread, unread[0].time, deadline, floor, timerFirst)
    else Waited(Timer, deadline, unread, false)
  }

  datatype Drained = Drained(observed: bool, unread: seq<Sent>, lagged: bool)

  /** Reading without waiting, up to the first activity or lag. */
  function Drain(cap: nat, unread: seq<Sent>, now: nat): Drained {
    var due := Due(unread, now);
    if due == 0 then Drained(false, unread, false)
    else if due > cap then Drained(true, unread[due - cap..], true)
    else if unread[0].event.Activity? then Drained(true, unread[1..], false)
    else Drain(cap, unread[1..], now)
  }

  method WaitForCatchUpWake(cap: nat, start: seq<Sent>, deadline: nat, lastPassCompleted: nat, schedule: Schedule, timerFirst: bool)
    returns (waited: Waited)
    ensures waited == WaitOn(cap, start, lastPassCompleted, deadline, lastPassCompleted + schedule.Base(), timerFirst)
  {
    var cadenceFloor := lastPassCompleted + schedule.Base();
    var unread: seq<Sent>, now: nat := start, lastPassCompleted;
    while true
      invariant WaitOn(cap, unread, now, deadline, cadenceFloor, timerFirst)
             == WaitOn(cap, start, lastPassCompleted, deadline, cadenceFloor, timerFirst)
      decreases |unread|, if Due(unread, now) > 0 then 0 else 1
    {
      var due := Due(unread, now);
      if due == 0 {
        if unread == [] || unread[0].time > deadline { return Waited(Timer, deadline, unread, false); }
        now := unread[0].time;
        continue;
      }
      if now >= deadline && timerFirst { return Waited(Timer, deadline, unread, false); }
      var lagged := due > cap;
      var qualifying := lagged || unread[0].event.Activity?;
      unread := if lagged then unread[due - cap..] else unread[1..];
      if !qualifying { continue; }
      if now >= cadenceFloor { return Waited(Woken, now, unread, lagged); }
      return Waited(Woken, cadenceFloor, unread, lagged);
    }
  }

  method DrainPendingActivity(cap: nat, start: seq<Sent>, now: nat) returns (drained: Drained)
    ensures drained == Drain(cap, start, now)
  {
    var unread := start;
    while true
      invariant Drain(cap, unread, now) == Drain(cap, start, now)
      decreases |unread|
    {
      var due := Due(unread, now);
      if due == 0 { return Drained(false, unread, false); }
      if due > cap { return Drained(true, unread[due - cap..], true); }
      var event := unread[0].event;
      unread := unread[1..];
      if event.Activity? { return Drained(true, unread, false); }
    }
  }

  // ------------------------------------------------------------ the driver

  /** What the surroundings decide about one turn of the loop. */
  datatype Turn = Turn(timerFirst: bool, ok: bool, duration: nat)

  datatype Pass = Pass(interval: nat, previous: nat, wake: Wake, at: nat, observed: bool, lagged: bool, ok: bool, completed: nat, unread: seq<Sent>)

  /** The pass after a wait; only a wake by the timer drains the channel first. */
  function PassAfter(interval: nat, last: nat, waited: Waited, cap: nat, turn: Turn): Pass {
    if waited.wake.Woken? then
      Pass(interval, last, Woken, waited.at, true, waited.lagged, turn.ok, waited.at + turn.duration, waited.unread)
    else
      var drained := Drain(cap, waited.unread, waited.at);
      Pass(interval, last, Timer, waited.at, drained.observed, waited.lagged || drained.lagged, turn.ok, waited.at + turn.duration, drained.unread)
  }

  function PassOf(schedule: Schedule, cap: nat, interval: nat, last: nat, unread: seq<Sent>, turn: Turn): Pass {
    PassAfter(interval, last, WaitOn(cap, unread, last, last + interval, last + schedule.Base(), turn.timerFirst), cap, turn)
  }

  function NextInterval(schedule: Schedule, interval: nat, ok: bool, observed: bool): nat {
    if ok && observed then schedule.Start()
    else if interval * 2 <= schedule.max then interval * 2 else schedule.max
  }

  function Passes(schedule: Schedule, cap: nat, interval: nat, last: nat, unread: seq<Sent>, turns: seq<Turn>): (ps: seq<Pass>)
    ensures |ps| == |turns|
    decreases |turns|
  {
    if turns == [] then []
    else
      var p := PassOf(schedule, cap, interval, last, unread, turns[0]);
      [p] + Passes(schedule, cap, NextInterval(schedule, interval, p.ok, p.observed), p.completed, p.unread, turns[1..])
  }

  /** The passes of a driver spawned at time `start`, over the events sent from
      then on. */
  function Drive(schedule: Schedule, cap: nat, start: nat, trace: seq<Sent>, turns: seq<Turn>): seq<Pass> {
    Passes(schedule, cap, schedule.Start(), start, trace, turns)
  }

  /** One turn of the driver loop. */
  method RunPass(schedule: Schedule, cap: nat, interval: nat, last: nat, unread: seq<Sent>, turn: Turn) returns (pass: Pass)
    ensures pass == PassOf(schedule, cap, interval, last, unread, turn)
  {
    var waited := WaitForCatchUpWake(cap, unread, last + interval, last, schedule, turn.timerFirst);
    var observed, lagged, left := true, waited.lagged, waited.unread;
    if waited.wake.Timer? {
      var drained := DrainPendingActivity(cap, waited.unread, waited.at);
      observed, lagged, left := drained.observed, waited.lagged || drained.lagged, drained.unread;
    }
    return Pass(interval, last, waited.wake, waited.at, observed, lagged, turn.ok, waited.at + turn.duration, left);
  }

  method RunDriver(schedule: Schedule, cap: nat, start: nat, trace: seq<Sent>, turns: seq<Turn>) returns (passes: seq<Pass>)
    ensures passes == Drive(schedule, cap, start, trace, turns)
  {
    var interval: nat, last: nat, unread: seq<Sent> := schedule.Start(), start, trace;
    passes := [];
    for n := 0 to |turns|
      invariant Drive(schedule, cap, start, trace, turns) == passes + Passes(schedule, cap, interval, last, unread, turns[n..])
    {
      var pass := RunPass(schedule, cap, interval, last, unread, turns[n]);
      PassesFirst(schedule, cap, interval, last, unread, turns[n..]);
      assert turns[n..][0] == turns[n] && turns[n..][1..] == turns[n + 1..];
      passes := passes + [pass];
      interval := NextInterval(schedule, interval, pass.ok, pass.observed);
      last, unread := pass.completed, pass.unread;
    }
  }

  lemma PassesFirst(schedule: Schedule, cap: nat, interval: nat, last: nat, unread: seq<Sent>, turns: seq<Turn>)
    requires turns != []
    ensures var p := PassOf(schedule, cap, interval, last, unread, turns[0]);
            Passes(schedule, cap, interval, last, unread, turns)
            == [p] + Passes(schedule, cap, NextInterval(schedule, interval, p.ok, p.observed), p.completed, p.unread, turns[1..])
  {
  }

  // ------------------------------------------------------------ bounds on every trace

  lemma {:induction false} WakesBetweenFloorAndDeadline(cap: nat, unread: seq<Sent>, now: nat, deadline: nat, floor: nat, timerFirst: bool)
    requires now <= deadline && floor <= deadline
    ensures var waited := WaitOn(cap, unread, now, deadline, floor, timerFirst);
            floor <= waited.at <= deadline && (waited.wake.Timer? ==> waited.at == deadline)
    decreases |unread|, if Due(unread, now) > 0 then 0 else 1
  {
    if Due(unread, now) > 0 {
      WakesBetweenFloorAndDeadline(cap, unread[1..], now, deadline, floor, timerFirst);
    } else if unread != [] && unread[0].time <= deadline {
      WakesBetweenFloorAndDeadline(cap, unread, unread[0].time, deadline, floor, timerFirst);
    }
  }

  lemma PassBounds(schedule: Schedule, cap: nat, interval: nat, last: nat, unread: seq<Sent>, turn: Turn)
    requires schedule.Ordered() && schedule.Base() <= interval <= schedule.max
    ensures var p := PassOf(schedule, cap, interval, last, unread, turn);
            && last + schedule.Base() <= p.at <= last + interval && (p.wake.Timer? ==> p.at == last + interval)
            && schedule.Base() <= NextInterval(schedule, interval, p.ok, p.observed) <= schedule.max
  {
    WakesBetweenFloorAndDeadline(cap, unread, last, last + interval, last + schedule.Base(), turn.timerFirst);
  }

  /** On every trace each interval stays within [base, max], and each pass wakes
      between base and max after the previous pass completed. */
  lemma {:induction false} CadenceBounds(schedule: Schedule, cap: nat, interval: nat, last: nat, unread: seq<Sent>, turns: seq<Turn>, i: nat)
    requires schedule.Ordered() && schedule.Base() <= interval <= schedule.max && i < |turns|
    ensures var p := Passes(schedule, cap, interval, last, unread, turns)[i];
            && schedule.Base() <= p.interval <= schedule.max
            && p.previous + schedule.Base() <= p.at <= p.previous + p.interval <= p.previous + schedule.max
    decreases |turns|
  {
    var p := PassOf(schedule, cap, interval, last, unread, turns[0]);
    PassBounds(schedule, cap, interval, last, unread, turns[0]);
    PassesFirst(schedule, cap, interval, last, unread, turns);
    if i > 0 {
      CadenceBounds(schedule, cap, NextInterval(schedule, interval, p.ok, p.observed), p.completed, p.unread, turns[1..], i - 1);
    }
  }

  /** Consecutive passes: each starts where the one before completed, with the
      interval and the unread events that one left behind. */
  lemma {:induction false} PassesAreLinked(schedule: Schedule, cap: nat, interval: nat, last: nat, unread: seq<Sent>, turns: seq<Turn>, i: nat)
    requires i + 1 < |turns|
    ensures var ps := Passes(schedule, cap, interval, last, unread, turns);
            && ps[i + 1] == PassOf(schedule, cap, NextInterval(schedule, ps[i].interval, ps[i].ok, ps[i].observed),
                                   ps[i].completed, ps[i].unread, turns[i + 1])
            && ps[i + 1].previous == ps[i].completed && ps[i].at <= ps[i].completed
    decreases |turns|
  {
    var p := PassOf(schedule, cap, interval, last, unread, turns[0]);
    var next := NextInterval(schedule, interval, p.ok, p.observed);
    var rest := Passes(schedule, cap, next, p.completed, p.unread, turns[1..]);
    assert Passes(schedule, cap, interval, last, unread, turns) == [p] + rest;
    if i > 0 {
      PassesAreLinked(schedule, cap, next, p.completed, p.unread, turns[1..], i - 1);
    } else {
      assert rest[0] == PassOf(schedule, cap, next, p.completed, p.unread, turns[1]);
    }
  }

  // ------------------------------------------------------ what one pass takes in

  /** The position of the first activity, or the length if there is none. */
  function FirstActivity(unread: seq<Sent>): (k: nat)
    ensures k <= |unread| && (k < |unread| ==> unread[k].event.Activity?)
  {
    if unread == [] || unread[0].event.Activity? then 0 else 1 + FirstActivity(unread[1..])
  }

  /** Activity is there to be heard by `deadline`. */
  predicate Stirs(unread: seq<Sent>, deadline: nat) {
    var k := FirstActivity(unread);
    k < |unread| && unread[k].time <= deadline
  }

  lemma DueOfRest(unread: seq<Sent>, now: nat)
    requires unread != [] && unread[0].time <= now
    ensures Due(unread, now) == 1 + Due(unread[1..], now)
  {
  }

  lemma FirstOfRest(unread: seq<Sent>)
    requires unread != [] && unread[0].event.AccountError?
    ensures FirstActivity(unread) == 1 + FirstActivity(unread[1..])
    ensures unread[FirstActivity(unread)..] == unread[1..][FirstActivity(unread[1..])..]
  {
  }

  /** A drain that meets no lag stops right after the first activity, if one is
      there, and empties the channel of what is due otherwise. */
  ghost predicate DrainsFirst(d: Drained, cap: nat, unread: seq<Sent>, now: nat) {
    var k := FirstActivity(unread);
    if Stirs(unread, now) then d.observed && d.unread == unread[k + 1..] && Due(unread[k..], now) <= cap
    else !d.observed && d.unread == unread[Due(unread, now)..]
  }

  lemma {:induction false} DrainHearsFirst(cap: nat, unread: seq<Sent>, now: nat)
    requires Sorted(unread) && !Drain(cap, unread, now).lagged
    ensures DrainsFirst(Drain(cap, unread, now), cap, unread, now)
  {
    if Due(unread, now) > 0 && unread[0].event.AccountError? {
      DrainHearsFirst(cap, unread[1..], now);
      FirstOfRest(unread);
    }
  }

  lemma SliceOfSlice(s: seq<Sent>, m: nat, j: nat)
    requires m + j <= |s|
    ensures s[m..][j..] == s[m + j..]
  {
  }

  /** Woken by the first activity, at the moment that is sent or at once, but not
      before the floor. */
  ghost predicate WokeFor(w: Waited, cap: nat, unread: seq<Sent>, now: nat, deadline: nat, floor: nat, timerFirst: bool) {
    var k := FirstActivity(unread);
    && Stirs(unread, deadline) && w.unread == unread[k + 1..]
    && w.at == Max(Max(unread[k].time, now), floor) && Due(unread[k..], Max(unread[k].time, now)) <= cap
    && !(timerFirst && Max(unread[k].time, now) == deadline)
  }

  /** Ran out, having read only account errors. */
  ghost predicate RanOut(w: Waited, unread: seq<Sent>, now: nat, deadline: nat, timerFirst: bool) {
    var k := FirstActivity(unread);
    var m := |unread| - |w.unread|;
    && 0 <= m <= k && m <= Due(unread, deadline) && w.unread == unread[m..] && w.at == deadline
    && (Stirs(unread, deadline) ==> timerFirst && Max(unread[k].time, now) == deadline)
  }

  /** What a wait that meets no lag comes to. */
  ghost predicate HearsFirst(w: Waited, cap: nat, unread: seq<Sent>, now: nat, deadline: nat, floor: nat, timerFirst: bool) {
    if w.wake.Woken? then WokeFor(w, cap, unread, now, deadline, floor, timerFirst) else RanOut(w, unread, now, deadline, timerFirst)
  }

  lemma WokenAfterAnError(w: Waited, cap: nat, unread: seq<Sent>, now: nat, deadline: nat, floor: nat, timerFirst: bool)
    requires unread != [] && unread[0].event.AccountError?
    requires WokeFor(w, cap, unread[1..], now, deadline, floor, timerFirst)
    ensures WokeFor(w, cap, unread, now, deadline, floor, timerFirst)
  {
    FirstOfRest(unread);
    SliceOfSlice(unread, 1, FirstActivity(unread));
  }

  lemma RanOutAfterAnError(w: Waited, unread: seq<Sent>, now: nat, deadline: nat, timerFirst: bool)
    requires unread != [] && unread[0].event.AccountError? && unread[0].time <= deadline
    requires RanOut(w, unread[1..], now, deadline, timerFirst)
    ensures RanOut(w, unread, now, deadline, timerFirst)
  {
    FirstOfRest(unread);
    DueOfRest(unread, deadline);
    SliceOfSlice(unread, 1, |unread[1..]| - |w.unread|);
  }

  lemma SkippingAnError(w: Waited, cap: nat, unread: seq<Sent>, now: nat, deadline: nat, floor: nat, timerFirst: bool)
    requires unread != [] && unread[0].event.AccountError? && unread[0].time <= now <= deadline
    requires HearsFirst(w, cap, unread[1..], now, deadline, floor, timerFirst)
    ensures HearsFirst(w, cap, unread, now, deadline, floor, timerFirst)
  {
    if w.wake.Woken? { WokenAfterAnError(w, cap, unread, now, deadline, floor, timerFirst); }
    else { RanOutAfterAnError(w, unread, now, deadline, timerFirst); }
  }

  lemma WaitingForTheNext(w: Waited, cap: nat, unread: seq<Sent>, now: nat, deadline: nat, floor: nat, timerFirst: bool)
    requires Sorted(unread) && unread != [] && now < unread[0].time <= deadline
    requires HearsFirst(w, cap, unread, unread[0].time, deadline, floor, timerFirst)
    ensures HearsFirst(w, cap, unread, now, deadline, floor, timerFirst)
  {
  }

  lemma StoppingHere(cap: nat, unread: seq<Sent>, now: nat, deadline: nat, floor: nat, timerFirst: bool)
    requires Sorted(unread) && now <= deadline
    requires Due(unread, now) > 0 ==> now == deadline && timerFirst
    requires Due(unread, now) == 0 ==> unread == [] || unread[0].time > deadline
    ensures HearsFirst(Waited(Timer, deadline, unread, false), cap, unread, now, deadline, floor, timerFirst)
  {
    assert unread[0..] == unread;
    assert 0 <= FirstActivity(unread) && 0 <= Due(unread, deadline);
  }

  lemma WakingHere(cap: nat, unread: seq<Sent>, now: nat, deadline: nat, floor: nat, timerFirst: bool)
    requires unread != [] && unread[0].time <= now <= deadline && unread[0].event.Activity?
    requires !(now >= deadline && timerFirst) && Due(unread, now) <= cap
    ensures HearsFirst(Waited(Woken, Max(now, floor), unread[1..], false), cap, unread, now, deadline, floor, timerFirst)
  {
    assert FirstActivity(unread) == 0 && unread[0..] == unread;
  }

  lemma {:induction false} WaitHearsFirst(cap: nat, unread: seq<Sent>, now: nat, deadline: nat, floor: nat, timerFirst: bool)
    requires Sorted(unread) && now <= deadline && !WaitOn(cap, unread, now, deadline, floor, timerFirst).lagged
    ensures HearsFirst(WaitOn(cap, unread, now, deadline, floor, timerFirst), cap, unread, now, deadline, floor, timerFirst)
    decreases |unread|, if Due(unread, now) > 0 then 0 else 1
  {
    var waited := WaitOn(cap, unread, now, deadline, floor, timerFirst);
    if Due(unread, now) > 0 {
      if now >= deadline && timerFirst {
        StoppingHere(cap, unread, now, deadline, floor, timerFirst);
      } else if unread[0].event.Activity? {
        WakingHere(cap, unread, now, deadline, floor, timerFirst);
      } else {
        WaitHearsFirst(cap, unread[1..], now, deadline, floor, timerFirst);
        SkippingAnError(waited, cap, unread, now, deadline, floor, timerFirst);
      }
    } else if unread != [] && unread[0].time <= deadline {
      WaitHearsFirst(cap, unread, unread[0].time, deadline, floor, timerFirst);
      WaitingForTheNext(waited, cap, unread, now, deadline, floor, timerFirst);
    } else {
      StoppingHere(cap, unread, now, deadline, floor, timerFirst);
    }
  }

  lemma {:induction false} FirstOfSuffix(unread: seq<Sent>, m: nat)
    requires m <= FirstActivity(unread)
    ensures FirstActivity(unread[m..]) == FirstActivity(unread) - m
  {
    if m == 0 {
      assert unread[0..] == unread;
    } else {
      FirstOfSuffix(unread[1..], m - 1);
      assert unread[1..][m - 1..] == unread[m..];
    }
  }

  lemma {:induction false} DueOfSuffix(unread: seq<Sent>, m: nat, now: nat)
    requires m <= Due(unread, now)
    ensures Due(unread[m..], now) == Due(unread, now) - m
  {
    if m == 0 {
      assert unread[0..] == unread;
    } else {
      DueOfSuffix(unread[1..], m - 1, now);
      assert unread[1..][m - 1..] == unread[m..];
    }
  }

  /** What the wait and the drain of one pass come to, in terms of the unread
      events alone: the first activity due by the deadline is heard, and it alone;
      if there is none, the timer ends the wait and all that is due is read. */
  ghost predicate TakesIn(p: Pass, cap: nat, base: nat, deadline: nat, unread: seq<Sent>, timerFirst: bool) {
    var k := FirstActivity(unread);
    if Stirs(unread, deadline) then
      var heard := Max(unread[k].time, p.previous);
      && p.observed && p.unread == unread[k + 1..] && Due(unread[k..], heard) <= cap
      && p.at == Max(heard, p.previous + base) && p.wake == if timerFirst && heard == deadline then Timer else Woken
    else
      !p.observed && p.wake.Timer? && p.at == deadline && p.unread == unread[Due(unread, deadline)..]
  }

  lemma StirsInSuffix(unread: seq<Sent>, m: nat, now: nat)
    requires m <= FirstActivity(unread)
    ensures Stirs(unread[m..], now) == Stirs(unread, now) && FirstActivity(unread[m..]) == FirstActivity(unread) - m
  {
    FirstOfSuffix(unread, m);
  }

  lemma StirredInSuffix(d: Drained, cap: nat, unread: seq<Sent>, m: nat, now: nat)
    requires m <= FirstActivity(unread) && Stirs(unread, now) && DrainsFirst(d, cap, unread[m..], now)
    ensures DrainsFirst(d, cap, unread, now)
  {
    var k := FirstActivity(unread);
    StirsInSuffix(unread, m, now);
    SliceOfSlice(unread, m, k - m);
    SliceOfSlice(unread, m, k - m + 1);
  }

  lemma QuietInSuffix(d: Drained, cap: nat, unread: seq<Sent>, m: nat, now: nat)
    requires m <= FirstActivity(unread) && m <= Due(unread, now) && !Stirs(unread, now) && DrainsFirst(d, cap, unread[m..], now)
    ensures DrainsFirst(d, cap, unread, now)
  {
    StirsInSuffix(unread, m, now);
    DueOfSuffix(unread, m, now);
    SliceOfSlice(unread, m, Due(unread, now) - m);
  }

  /** Reading on after some account errors is reading from the start. */
  lemma DrainsFirstInSuffix(d: Drained, cap: nat, unread: seq<Sent>, m: nat, now: nat)
    requires m <= FirstActivity(unread) && m <= Due(unread, now) && DrainsFirst(d, cap, unread[m..], now)
    ensures DrainsFirst(d, cap, unread, now)
  {
    if Stirs(unread, now) { StirredInSuffix(d, cap, unread, m, now); } else { QuietInSuffix(d, cap, unread, m, now); }
  }

  lemma WokenPass(p: Pass, w: Waited, cap: nat, base: nat, deadline: nat, unread: seq<Sent>, timerFirst: bool)
    requires WokeFor(w, cap, unread, p.previous, deadline, p.previous + base, timerFirst)
    requires p.wake.Woken? && p.at == w.at && p.observed && p.unread == w.unread
    ensures TakesIn(p, cap, base, deadline, unread, timerFirst)
  {
  }

  lemma TimedPass(p: Pass, w: Waited, d: Drained, cap: nat, base: nat, deadline: nat, unread: seq<Sent>, timerFirst: bool)
    requires p.previous + base <= deadline
    requires RanOut(w, unread, p.previous, deadline, timerFirst) && DrainsFirst(d, cap, w.unread, deadline)
    requires p.wake.Timer? && p.at == deadline && p.observed == d.observed && p.unread == d.unread
    ensures TakesIn(p, cap, base, deadline, unread, timerFirst)
  {
    DrainsFirstInSuffix(d, cap, unread, |unread| - |w.unread|, deadline);
  }

  lemma SuffixIsSorted(unread: seq<Sent>, m: nat)
    requires Sorted(unread) && m <= |unread|
    ensures Sorted(unread[m..])
  {
  }

  lemma WhatIsLeftIsSorted(w: Waited, unread: seq<Sent>, now: nat, deadline: nat, timerFirst: bool)
    requires Sorted(unread) && RanOut(w, unread, now, deadline, timerFirst)
    ensures Sorted(w.unread)
  {
    SuffixIsSorted(unread, |unread| - |w.unread|);
  }

  lemma PassAfterTimer(base: nat, cap: nat, interval: nat, last: nat, w: Waited, unread: seq<Sent>, turn: Turn)
    requires base <= interval && w.wake.Timer? && RanOut(w, unread, last, last + interval, turn.timerFirst)
    requires DrainsFirst(Drain(cap, w.unread, last + interval), cap, w.unread, last + interval)
    ensures TakesIn(PassAfter(interval, last, w, cap, turn), cap, base, last + interval, unread, turn.timerFirst)
  {
    TimedPass(PassAfter(interval, last, w, cap, turn), w, Drain(cap, w.unread, last + interval), cap, base, last + interval, unread, turn.timerFirst);
  }

  lemma PassAfterHearsFirst(base: nat, cap: nat, interval: nat, last: nat, w: Waited, unread: seq<Sent>, turn: Turn)
    requires Sorted(unread) && base <= interval && !PassAfter(interval, last, w, cap, turn).lagged
    requires HearsFirst(w, cap, unread, last, last + interval, last + base, turn.timerFirst)
    ensures TakesIn(PassAfter(interval, last, w, cap, turn), cap, base, last + interval, unread, turn.timerFirst)
  {
    if w.wake.Woken? {
      WokenPass(PassAfter(interval, last, w, cap, turn), w, cap, base, last + interval, unread, turn.timerFirst);
    } else {
      WhatIsLeftIsSorted(w, unread, last, last + interval, turn.timerFirst);
      DrainHearsFirst(cap, w.unread, last + interval);
      PassAfterTimer(base, cap, interval, last, w, unread, turn);
    }
  }

  /** One pass that meets no lag. */
  lemma PassHearsFirst(schedule: Schedule, cap: nat, interval: nat, last: nat, unread: seq<Sent>, turn: Turn)
    requires Sorted(unread) && schedule.Base() <= interval && !PassOf(schedule, cap, interval, last, unread, turn).lagged
    ensures TakesIn(PassOf(schedule, cap, interval, last, unread, turn), cap, schedule.Base(), last + interval, unread, turn.timerFirst)
  {
    var w := WaitOn(cap, unread, last, last + interval, last + schedule.Base(), turn.timerFirst);
    WaitHearsFirst(cap, unread, last, last + interval, last + schedule.Base(), turn.timerFirst);
    PassAfterHearsFirst(schedule.Base(), cap, interval, last, w, unread, turn);
  }

  // ---------------------------------------------------- account errors and the ring

  /** The activities among the events. */
  function Activities(unread: seq<Sent>): (r: seq<Sent>)
    ensures |r| <= |unread| && forall i :: 0 <= i < |r| ==> r[i].event.Activity?
  {
    if unread == [] then []
    else if unread[0].event.Activity? then [unread[0]] + Activities(unread[1..])
    else Activities(unread[1..])
  }

  lemma {:induction false} ActivitiesFromFirst(unread: seq<Sent>)
    ensures var k := FirstActivity(unread);
            Activities(unread) == if k == |unread| then [] else [unread[k]] + Activities(unread[k + 1..])
  {
    if unread != [] && unread[0].event.AccountError? {
      ActivitiesFromFirst(unread[1..]);
      FirstOfRest(unread);
      var k := FirstActivity(unread);
      if k < |unread| { assert unread[1..][k..] == unread[k + 1..]; }
    }
  }

  lemma {:induction false} ActivitiesOfSuffix(unread: seq<Sent>, m: nat)
    requires m <= FirstActivity(unread)
    ensures Activities(unread[m..]) == Activities(unread)
  {
    if m == 0 {
      assert unread[0..] == unread;
    } else {
      ActivitiesOfSuffix(unread[1..], m - 1);
      assert unread[1..][m - 1..] == unread[m..];
    }
  }

  lemma {:induction false} ActivitiesAreSent(unread: seq<Sent>, i: nat)
    requires i < |Activities(unread)|
    ensures Activities(unread)[i] in unread
  {
    if unread[0].event.Activity? {
      if i > 0 { ActivitiesAreSent(unread[1..], i - 1); }
    } else {
      ActivitiesAreSent(unread[1..], i);
    }
  }

  lemma {:induction false} ActivitiesAreSorted(unread: seq<Sent>)
    requires Sorted(unread)
    ensures Sorted(Activities(unread))
  {
    if unread != [] {
      var rest := Activities(unread[1..]);
      ActivitiesAreSorted(unread[1..]);
      forall i | 0 <= i < |rest| ensures unread[0].time <= rest[i].time { ActivitiesAreSent(unread[1..], i); }
    }
  }

  lemma {:induction false} FewerActivitiesDue(unread: seq<Sent>, now: nat)
    requires Sorted(unread)
    ensures Due(Activities(unread), now) <= Due(unread, now)
  {
    if unread != [] {
      FewerActivitiesDue(unread[1..], now);
      if unread[0].time > now && Activities(unread) != [] {
        ActivitiesAreSent(unread, 0);
      }
    }
  }

  lemma {:induction false} QuietMeansErrors(unread: seq<Sent>, deadline: nat)
    requires !Stirs(unread, deadline)
    ensures Due(unread, deadline) <= FirstActivity(unread)
  {
    if unread != [] && unread[0].event.AccountError? && unread[0].time <= deadline {
      FirstOfRest(unread);
      QuietMeansErrors(unread[1..], deadline);
    }
  }

  /** A pass over activities alone meets a lag only if more of them than the ring
      holds are due when the first is read. */
  lemma NoLagOnActivities(schedule: Schedule, cap: nat, interval: nat, last: nat, acts: seq<Sent>, turn: Turn)
    requires acts != [] ==> acts[0].event.Activity?
    requires schedule.Base() <= interval && (Stirs(acts, last + interval) ==> Due(acts, Max(acts[0].time, last)) <= cap)
    ensures !PassOf(schedule, cap, interval, last, acts, turn).lagged
  {
    assert FirstActivity(acts) == 0;
    var deadline, floor := last + interval, last + schedule.Base();
    if acts != [] && last < acts[0].time <= deadline {
      var t := acts[0].time;
      assert Due(acts, last) == 0 && Due(acts, t) > 0;
      assert WaitOn(cap, acts, last, deadline, floor, turn.timerFirst) == WaitOn(cap, acts, t, deadline, floor, turn.timerFirst);
    }
  }

  /** The two passes agree on everything but the errors left unread. */
  ghost predicate SameButErrors(p: Pass, q: Pass) {
    q.wake == p.wake && q.at == p.at && q.observed == p.observed && q.unread == Activities(p.unread)
  }

  lemma StirredAlike(p: Pass, q: Pass, cap: nat, base: nat, deadline: nat, unread: seq<Sent>, timerFirst: bool)
    requires p.previous == q.previous && Stirs(unread, deadline)
    requires TakesIn(p, cap, base, deadline, unread, timerFirst) && TakesIn(q, cap, base, deadline, Activities(unread), timerFirst)
    ensures SameButErrors(p, q)
  {
    ActivitiesFromFirst(unread);
    assert FirstActivity(Activities(unread)) == 0;
  }

  lemma QuietAlike(p: Pass, q: Pass, cap: nat, base: nat, deadline: nat, unread: seq<Sent>, timerFirst: bool)
    requires !Stirs(unread, deadline)
    requires TakesIn(p, cap, base, deadline, unread, timerFirst) && TakesIn(q, cap, base, deadline, Activities(unread), timerFirst)
    ensures SameButErrors(p, q)
  {
    var acts := Activities(unread);
    ActivitiesFromFirst(unread);
    QuietMeansErrors(unread, deadline);
    ActivitiesOfSuffix(unread, Due(unread, deadline));
    assert FirstActivity(acts) == 0;
    assert Due(acts, deadline) == 0 && acts[0..] == acts;
  }

  /** Taking the errors out brings no lag in. */
  lemma NoLagWithoutErrors(schedule: Schedule, cap: nat, interval: nat, last: nat, unread: seq<Sent>, turn: Turn)
    requires Sorted(unread) && schedule.Base() <= interval && !PassOf(schedule, cap, interval, last, unread, turn).lagged
    ensures !PassOf(schedule, cap, interval, last, Activities(unread), turn).lagged
  {
    var k := FirstActivity(unread);
    PassHearsFirst(schedule, cap, interval, last, unread, turn);
    ActivitiesFromFirst(unread);
    if Stirs(unread, last + interval) {
      ActivitiesOfSuffix(unread, k);
      SuffixIsSorted(unread, k);
      FewerActivitiesDue(unread[k..], Max(unread[k].time, last));
    }
    assert FirstActivity(Activities(unread)) == 0;
    NoLagOnActivities(schedule, cap, interval, last, Activities(unread), turn);
  }

  /** Without its account errors a pass that meets no lag is the same. */
  lemma PassWithoutErrors(schedule: Schedule, cap: nat, interval: nat, last: nat, unread: seq<Sent>, turn: Turn)
    requires Sorted(unread) && schedule.Base() <= interval && !PassOf(schedule, cap, interval, last, unread, turn).lagged
    ensures var p := PassOf(schedule, cap, interval, last, unread, turn);
            PassOf(schedule, cap, interval, last, Activities(unread), turn) == p.(unread := Activities(p.unread))
  {
    var p, q := PassOf(schedule, cap, interval, last, unread, turn), PassOf(schedule, cap, interval, last, Activities(unread), turn);
    NoLagWithoutErrors(schedule, cap, interval, last, unread, turn);
    ActivitiesAreSorted(unread);
    PassHearsFirst(schedule, cap, interval, last, unread, turn);
    PassHearsFirst(schedule, cap, interval, last, Activities(unread), turn);
    if Stirs(unread, last + interval) { StirredAlike(p, q, cap, schedule.Base(), last + interval, unread, turn.timerFirst); }
    else { QuietAlike(p, q, cap, schedule.Base(), last + interval, unread, turn.timerFirst); }
  }

  ghost predicate NoLag(ps: seq<Pass>) {
    forall i :: 0 <= i < |ps| ==> !ps[i].lagged
  }

  /** The passes, with the account errors taken out of what is left unread. */
  ghost function OnlyActivities(ps: seq<Pass>): (r: seq<Pass>) {
    seq(|ps|, i requires 0 <= i < |ps| => ps[i].(unread := Activities(ps[i].unread)))
  }

  /** `rest` is what is left of `all` after reading some. */
  ghost predicate IsRest(rest: seq<Sent>, all: seq<Sent>) {
    |rest| <= |all| && rest == all[|all| - |rest|..]
  }

  lemma RestOfRest(a: seq<Sent>, b: seq<Sent>, c: seq<Sent>)
    requires IsRest(a, b) && IsRest(b, c)
    ensures IsRest(a, c)
  {
    SliceOfSlice(c, |c| - |b|, |b| - |a|);
  }

  lemma SliceIsRest(all: seq<Sent>, m: nat)
    requires m <= |all|
    ensures IsRest(all[m..], all)
  {
  }

  lemma AllIsRest(all: seq<Sent>)
    ensures IsRest(all, all)
  {
    assert all[0..] == all;
  }

  lemma {:induction false} WaitLeavesARest(cap: nat, unread: seq<Sent>, now: nat, deadline: nat, floor: nat, timerFirst: bool)
    ensures IsRest(WaitOn(cap, unread, now, deadline, floor, timerFirst).unread, unread)
    decreases |unread|, if Due(unread, now) > 0 then 0 else 1
  {
    var due := Due(unread, now);
    AllIsRest(unread);
    if due > 0 {
      SliceIsRest(unread, 1);
      if due > cap {
        SliceIsRest(unread, due - cap);
      } else if unread[0].event.AccountError? {
        WaitLeavesARest(cap, unread[1..], now, deadline, floor, timerFirst);
        RestOfRest(WaitOn(cap, unread[1..], now, deadline, floor, timerFirst).unread, unread[1..], unread);
      }
    } else if unread != [] && unread[0].time <= deadline {
      WaitLeavesARest(cap, unread, unread[0].time, deadline, floor, timerFirst);
    }
  }

  lemma {:induction false} DrainLeavesARest(cap: nat, unread: seq<Sent>, now: nat)
    ensures IsRest(Drain(cap, unread, now).unread, unread)
  {
    var due := Due(unread, now);
    AllIsRest(unread);
    if due > cap {
      SliceIsRest(unread, due - cap);
    } else if due > 0 {
      SliceIsRest(unread, 1);
      if unread[0].event.AccountError? {
        DrainLeavesARest(cap, unread[1..], now);
        RestOfRest(Drain(cap, unread[1..], now).unread, unread[1..], unread);
      }
    }
  }

  lemma PassAfterLeavesARest(interval: nat, last: nat, w: Waited, cap: nat, unread: seq<Sent>, turn: Turn)
    requires IsRest(w.unread, unread)
    ensures IsRest(PassAfter(interval, last, w, cap, turn).unread, unread)
  {
    if w.wake.Timer? {
      DrainLeavesARest(cap, w.unread, w.at);
      RestOfRest(Drain(cap, w.unread, w.at).unread, w.unread, unread);
    }
  }

  lemma PassLeavesARest(schedule: Schedule, cap: nat, interval: nat, last: nat, unread: seq<Sent>, turn: Turn)
    ensures IsRest(PassOf(schedule, cap, interval, last, unread, turn).unread, unread)
  {
    WaitLeavesARest(cap, unread, last, last + interval, last + schedule.Base(), turn.timerFirst);
    PassAfterLeavesARest(interval, last, WaitOn(cap, unread, last, last + interval, last + schedule.Base(), turn.timerFirst), cap, unread, turn);
  }

  lemma RestIsSorted(rest: seq<Sent>, all: seq<Sent>)
    requires Sorted(all) && IsRest(rest, all)
    ensures Sorted(rest)
  {
    SuffixIsSorted(all, |all| - |rest|);
  }

  lemma OnlyActivitiesFirst(p: Pass, rest: seq<Pass>)
    ensures OnlyActivities([p] + rest) == [p.(unread := Activities(p.unread))] + OnlyActivities(rest)
    ensures NoLag([p] + rest) ==> !p.lagged && NoLag(rest)
  {
    var ps := [p] + rest;
    assert ps[0] == p && forall i :: 0 <= i < |rest| ==> rest[i] == ps[i + 1];
  }

  /** As long as no burst overflows the ring, account errors never change the
      schedule: pass for pass the same wake, interval and completion as without
      them. */
  lemma {:induction false} ErrorsDoNotChangeTheSchedule(schedule: Schedule, cap: nat, interval: nat, last: nat, unread: seq<Sent>, turns: seq<Turn>)
    requires schedule.Ordered() && schedule.Base() <= interval <= schedule.max && Sorted(unread)
    requires NoLag(Passes(schedule, cap, interval, last, unread, turns))
    ensures Passes(schedule, cap, interval, last, Activities(unread), turns) == OnlyActivities(Passes(schedule, cap, interval, last, unread, turns))
    decreases |turns|
  {
    if turns != [] {
      var p := PassOf(schedule, cap, interval, last, unread, turns[0]);
      var next := NextInterval(schedule, interval, p.ok, p.observed);
      PassesFirst(schedule, cap, interval, last, unread, turns);
      PassesFirst(schedule, cap, interval, last, Activities(unread), turns);
      OnlyActivitiesFirst(p, Passes(schedule, cap, next, p.completed, p.unread, turns[1..]));
      PassBounds(schedule, cap, interval, last, unread, turns[0]);
      PassWithoutErrors(schedule, cap, interval, last, unread, turns[0]);
      PassLeavesARest(schedule, cap, interval, last, unread, turns[0]);
      RestIsSorted(p.unread, unread);
      ErrorsDoNotChangeTheSchedule(schedule, cap, next, p.completed, p.unread, turns[1..]);
    }
  }

  predicate AllErrors(unread: seq<Sent>) {
    forall i :: 0 <= i < |unread| ==> unread[i].event.AccountError?
  }

  lemma {:induction false} AllDue(unread: seq<Sent>, now: nat)
    requires forall i :: 0 <= i < |unread| ==> unread[i].time <= now
    ensures Due(unread, now) == |unread|
  {
    if unread != [] { AllDue(unread[1..], now); }
  }

  lemma {:induction false} ErrorsThatFitAreSkipped(cap: nat, unread: seq<Sent>, now: nat, deadline: nat, floor: nat, timerFirst: bool)
    requires AllErrors(unread) && |unread| <= cap && now < deadline && forall i :: 0 <= i < |unread| ==> unread[i].time <= now
    ensures WaitOn(cap, unread, now, deadline, floor, timerFirst) == Waited(Timer, deadline, [], false)
  {
    AllDue(unread, now);
    if unread != [] { ErrorsThatFitAreSkipped(cap, unread[1..], now, deadline, floor, timerFirst); }
  }

  /** Account errors sent while the driver was in a pass, and nothing else: they
      wake the next pass, at the base interval, if and only if they overflow the
      ring. Then a pass that succeeds puts the interval back to its start. */
  lemma ErrorBurstIsInertIffItFits(schedule: Schedule, cap: nat, interval: nat, last: nat, burst: seq<Sent>, turn: Turn)
    requires schedule.Base() <= interval && AllErrors(burst)
    requires forall i :: 0 <= i < |burst| ==> burst[i].time <= last
    ensures var p := PassOf(schedule, cap, interval, last, burst, turn);
            && (p.observed <==> |burst| > cap)
            && (p.observed ==> p.wake.Woken? && p.at == last + schedule.Base())
            && (p.observed && p.ok ==> NextInterval(schedule, interval, p.ok, p.observed) == schedule.Start())
  {
    AllDue(burst, last);
    if |burst| <= cap { ErrorsThatFitAreSkipped(cap, burst, last, last + interval, last + schedule.Base(), turn.timerFirst); }
  }

  /** One error more than the ring holds, at one time. */
  function ErrorFlood(cap: nat, time: nat): seq<Sent> {
    seq(cap + 1, i => Sent(time, AccountError))
  }

  /** Sent during a successful pass of a backed-off driver, they make the next pass
      come at the base interval and put the schedule back to its start; without
      them the driver would have doubled its interval and waited for its timer. */
  lemma ErrorOverflowResetsTheSchedule(schedule: Schedule, cap: nat, interval: nat, last: nat, duration: nat)
    requires schedule.Ordered() && schedule.Base() <= interval <= schedule.max && duration > 0
    ensures var turns := [Turn(false, true, duration), Turn(false, true, 0)];
            var ps := Passes(schedule, cap, interval, last, ErrorFlood(cap, last + interval + 1), turns);
            var calm := Passes(schedule, cap, interval, last, [], turns);
            && calm[0].(unread := ps[0].unread) == ps[0] && ps[0].wake.Timer? && !ps[0].observed
            && calm[1].wake.Timer? && calm[1].at == ps[0].completed + NextInterval(schedule, interval, true, false)
            && ps[1].lagged && ps[1].wake.Woken? && ps[1].at == ps[0].completed + schedule.Base()
            && NextInterval(schedule, ps[1].interval, ps[1].ok, ps[1].observed) == schedule.Start()
  {
    var turns := [Turn(false, true, duration), Turn(false, true, 0)];
    var flood := ErrorFlood(cap, last + interval + 1);
    PassesFirst(schedule, cap, interval, last, flood, turns);
    PassesFirst(schedule, cap, interval, last, [], turns);
    var first := PassOf(schedule, cap, interval, last, flood, turns[0]);
    assert Due(flood, last) == 0 && Due(flood, last + interval) == 0;
    assert first.unread == flood && first.completed == last + interval + duration;
    var next := NextInterval(schedule, interval, true, false);
    PassesFirst(schedule, cap, next, first.completed, flood, turns[1..]);
    PassesFirst(schedule, cap, next, first.completed, [], turns[1..]);
    AllDue(flood, first.completed);
  }

  // ------------------------------------------------------------- quiet stretches

  ghost function Doubled(n: nat, k: nat): nat {
    if k == 0 then n else 2 * Doubled(n, k - 1)
  }

  /** Passes `i` to `j`: none before the last resets the interval, and every one
      after the first is woken by its timer. */
  ghost predicate Quiet(ps: seq<Pass>, i: nat, j: nat)
    requires i <= j < |ps|
  {
    && (forall k :: i <= k < j ==> !(ps[k].ok && ps[k].observed))
    && (forall k :: i < k <= j ==> ps[k].wake.Timer?)
  }

  /** A driver's passes over a trace, well formed to reason about. */
  ghost predicate Driven(schedule: Schedule, cap: nat, start: nat, trace: seq<Sent>, turns: seq<Turn>, ps: seq<Pass>) {
    schedule.Ordered() && Sorted(trace) && ps == Drive(schedule, cap, start, trace, turns)
  }

  /** What was unread when pass `i` began to wait. */
  ghost function Before(trace: seq<Sent>, ps: seq<Pass>, i: nat): seq<Sent>
    requires i <= |ps|
  {
    if i == 0 then trace else ps[i - 1].unread
  }

  lemma DrivenPass(schedule: Schedule, cap: nat, start: nat, trace: seq<Sent>, turns: seq<Turn>, ps: seq<Pass>, i: nat)
    requires Driven(schedule, cap, start, trace, turns, ps) && i < |ps|
    ensures |turns| == |ps| && ps[i] == PassOf(schedule, cap, ps[i].interval, ps[i].previous, Before(trace, ps, i), turns[i])
    ensures schedule.Base() <= ps[i].interval <= schedule.max
  {
    CadenceBounds(schedule, cap, schedule.Start(), start, trace, turns, i);
    if i > 0 { PassesAreLinked(schedule, cap, schedule.Start(), start, trace, turns, i - 1); }
    else { PassesFirst(schedule, cap, schedule.Start(), start, trace, turns); }
  }

  lemma DrivenBounds(schedule: Schedule, cap: nat, start: nat, trace: seq<Sent>, turns: seq<Turn>, ps: seq<Pass>, i: nat)
    requires Driven(schedule, cap, start, trace, turns, ps) && i < |ps|
    ensures schedule.Base() <= ps[i].interval <= schedule.max
    ensures ps[i].previous + schedule.Base() <= ps[i].at <= ps[i].previous + ps[i].interval
    ensures i + 1 < |ps| ==> ps[i + 1].previous == ps[i].completed && ps[i].at <= ps[i].completed
    ensures i + 1 < |ps| ==> ps[i + 1].interval == NextInterval(schedule, ps[i].interval, ps[i].ok, ps[i].observed)
    ensures ps[i].wake.Timer? ==> ps[i].at == ps[i].previous + ps[i].interval
  {
    DrivenPass(schedule, cap, start, trace, turns, ps, i);
    PassBounds(schedule, cap, ps[i].interval, ps[i].previous, Before(trace, ps, i), turns[i]);
    if i + 1 < |ps| { PassesAreLinked(schedule, cap, schedule.Start(), start, trace, turns, i); }
  }

  /** The interval doubles through a quiet stretch until it reaches the cap. */
  lemma {:induction false} QuietIntervalsGrow(schedule: Schedule, cap: nat, start: nat, trace: seq<Sent>, turns: seq<Turn>, ps: seq<Pass>, i: nat, j: nat)
    requires Driven(schedule, cap, start, trace, turns, ps) && i <= j < |ps| && Quiet(ps, i, j)
    ensures ps[j].interval == schedule.max || ps[j].interval >= Doubled(schedule.Base(), j - i)
  {
    DrivenBounds(schedule, cap, start, trace, turns, ps, j);
    if i < j {
      QuietIntervalsGrow(schedule, cap, start, trace, turns, ps, i, j - 1);
      DrivenBounds(schedule, cap, start, trace, turns, ps, j - 1);
    }
  }

  lemma {:induction false} DoubledGrows(n: nat, k: nat, l: nat)
    requires k <= l
    ensures Doubled(n, k) <= Doubled(n, l)
  {
    if k < l { DoubledGrows(n, k, l - 1); }
  }

  lemma {:induction false} PassesAreOrdered(schedule: Schedule, cap: nat, start: nat, trace: seq<Sent>, turns: seq<Turn>, ps: seq<Pass>, i: nat, j: nat)
    requires Driven(schedule, cap, start, trace, turns, ps) && i <= j < |ps|
    ensures ps[i].at <= ps[j].at && (i < j ==> ps[i].completed <= ps[j].previous)
  {
    if i < j {
      PassesAreOrdered(schedule, cap, start, trace, turns, ps, i, j - 1);
      DrivenBounds(schedule, cap, start, trace, turns, ps, j - 1);
      DrivenBounds(schedule, cap, start, trace, turns, ps, j);
    }
  }

  /** From the `ramp`-th quiet pass on, passes are `max` apart. */
  lemma {:induction false} QuietPassesSpreadOut(schedule: Schedule, cap: nat, start: nat, trace: seq<Sent>, turns: seq<Turn>, ps: seq<Pass>, i: nat, j: nat, ramp: nat)
    requires Driven(schedule, cap, start, trace, turns, ps) && i + ramp <= j < |ps| && Quiet(ps, i, j)
    requires Doubled(schedule.Base(), ramp) >= schedule.max
    ensures ps[j].at >= ps[i].at + Times(j - i - ramp, schedule.max)
    decreases j
  {
    if j == i + ramp {
      PassesAreOrdered(schedule, cap, start, trace, turns, ps, i, j);
    } else {
      QuietPassesSpreadOut(schedule, cap, start, trace, turns, ps, i, j - 1, ramp);
      QuietIntervalsGrow(schedule, cap, start, trace, turns, ps, i, j);
      DoubledGrows(schedule.Base(), ramp, j - i);
      DrivenBounds(schedule, cap, start, trace, turns, ps, j - 1);
      DrivenBounds(schedule, cap, start, trace, turns, ps, j);
    }
  }

  /** A quiet stretch of length `span` holds at most `ramp + span / max + 1` passes,
      where `ramp` doublings lead from base to max. */
  lemma QuietStretchIsSparse(schedule: Schedule, cap: nat, start: nat, trace: seq<Sent>, turns: seq<Turn>, ps: seq<Pass>, i: nat, j: nat, ramp: nat, span: nat)
    requires Driven(schedule, cap, start, trace, turns, ps) && i <= j < |ps| && Quiet(ps, i, j)
    requires Doubled(schedule.Base(), ramp) >= schedule.max && ps[j].at <= ps[i].at + span
    ensures j - i + 1 <= ramp + span / schedule.max + 1
  {
    if j - i > ramp {
      QuietPassesSpreadOut(schedule, cap, start, trace, turns, ps, i, j, ramp);
      FitsInto(j - i - ramp, schedule.max, span);
    } else {
      FitsInto(0, schedule.max, span);
    }
  }

  // ------------------------------------------------- what a window without activity costs

  /** A pass that meets no lag uses up exactly one activity, if one is due by its
      deadline, and none otherwise. */
  lemma OneActivityPerPass(schedule: Schedule, cap: nat, interval: nat, last: nat, unread: seq<Sent>, turn: Turn)
    requires Sorted(unread) && schedule.Base() <= interval && !PassOf(schedule, cap, interval, last, unread, turn).lagged
    ensures var p := PassOf(schedule, cap, interval, last, unread, turn);
            var acts := Activities(unread);
            && (p.observed <==> acts != [] && acts[0].time <= last + interval)
            && Activities(p.unread) == (if p.observed then acts[1..] else acts)
            && (p.observed ==> acts[0].time <= p.at) && (!p.observed ==> p.wake.Timer?)
  {
    var k := FirstActivity(unread);
    PassHearsFirst(schedule, cap, interval, last, unread, turn);
    ActivitiesFromFirst(unread);
    if !Stirs(unread, last + interval) {
      QuietMeansErrors(unread, last + interval);
      ActivitiesOfSuffix(unread, Due(unread, last + interval));
    }
  }

  /** None of the passes from `i` on, up to `j`, meets a lag. */
  ghost predicate NoLagWithin(ps: seq<Pass>, i: nat, j: nat)
    requires i <= j <= |ps|
  {
    forall k :: i <= k < j ==> !ps[k].lagged
  }

  lemma {:induction false} UnreadIsRest(schedule: Schedule, cap: nat, start: nat, trace: seq<Sent>, turns: seq<Turn>, ps: seq<Pass>, i: nat)
    requires Driven(schedule, cap, start, trace, turns, ps) && i <= |ps|
    ensures IsRest(Before(trace, ps, i), trace)
  {
    if i > 0 {
      UnreadIsRest(schedule, cap, start, trace, turns, ps, i - 1);
      DrivenPass(schedule, cap, start, trace, turns, ps, i - 1);
      PassLeavesARest(schedule, cap, ps[i - 1].interval, ps[i - 1].previous, Before(trace, ps, i - 1), turns[i - 1]);
      RestOfRest(ps[i - 1].unread, Before(trace, ps, i - 1), trace);
    }
  }

  lemma DrivenUsesOne(schedule: Schedule, cap: nat, start: nat, trace: seq<Sent>, turns: seq<Turn>, ps: seq<Pass>, i: nat)
    requires Driven(schedule, cap, start, trace, turns, ps) && i < |ps| && !ps[i].lagged
    ensures var acts := Activities(Before(trace, ps, i));
            && (ps[i].observed <==> acts != [] && acts[0].time <= ps[i].previous + ps[i].interval)
            && Activities(ps[i].unread) == (if ps[i].observed then acts[1..] else acts)
            && (ps[i].observed ==> acts[0].time <= ps[i].at) && (!ps[i].observed ==> ps[i].wake.Timer?)
  {
    UnreadIsRest(schedule, cap, start, trace, turns, ps, i);
    RestIsSorted(Before(trace, ps, i), trace);
    DrivenPass(schedule, cap, start, trace, turns, ps, i);
    OneActivityPerPass(schedule, cap, ps[i].interval, ps[i].previous, Before(trace, ps, i), turns[i]);
  }

  /** After pass `i`, `left` activities sent no later than it are unread, and no
      other is sent up to pass `j`: the window is free of activity but for them. */
  ghost predicate NothingNew(ps: seq<Pass>, i: nat, j: nat, left: nat)
    requires i <= j < |ps|
  {
    var acts := Activities(ps[i].unread);
    && left <= |acts|
    && (forall n :: 0 <= n < left ==> acts[n].time <= ps[i].at)
    && (left < |acts| ==> acts[left].time > ps[j].at)
  }

  lemma BacklogStep(all: seq<Sent>, n: nat, left: nat, early: nat, late: nat, deadline: nat, at: nat, observed: bool, after: seq<Sent>)
    requires n <= left <= |all| && early <= deadline && at <= late
    requires (forall m :: 0 <= m < left ==> all[m].time <= early) && (left < |all| ==> all[left].time > late)
    requires observed <==> n < |all| && all[n].time <= deadline
    requires observed ==> all[n].time <= at
    requires after == if observed then all[n..][1..] else all[n..]
    ensures (observed <==> n < left) && after == all[if n < left then n + 1 else n..]
  {
    if n < |all| { SliceOfSlice(all, n, 1); }
  }

  lemma WindowTimes(schedule: Schedule, cap: nat, start: nat, trace: seq<Sent>, turns: seq<Turn>, ps: seq<Pass>, i: nat, k: nat, j: nat)
    requires Driven(schedule, cap, start, trace, turns, ps) && i < k <= j < |ps|
    ensures ps[i].at <= ps[k].previous + ps[k].interval && ps[k].at <= ps[j].at
  {
    PassesAreOrdered(schedule, cap, start, trace, turns, ps, i, k);
    PassesAreOrdered(schedule, cap, start, trace, turns, ps, k, j);
    DrivenBounds(schedule, cap, start, trace, turns, ps, k);
  }

  function Least(a: nat, b: nat): nat { if a <= b then a else b }

  /** What pass `k` does with what pass `k - 1` left. */
  lemma BacklogPass(schedule: Schedule, cap: nat, start: nat, trace: seq<Sent>, turns: seq<Turn>, ps: seq<Pass>, i: nat, k: nat, j: nat, left: nat, n: nat)
    requires Driven(schedule, cap, start, trace, turns, ps) && i < k <= j < |ps| && !ps[k].lagged
    requires NothingNew(ps, i, j, left) && n <= left && Activities(ps[k - 1].unread) == Activities(ps[i].unread)[n..]
    ensures Activities(ps[k].unread) == Activities(ps[i].unread)[Least(n + 1, left)..]
    ensures (ps[k].observed <==> n < left) && (!ps[k].observed ==> ps[k].wake.Timer?)
  {
    var all := Activities(ps[i].unread);
    DrivenUsesOne(schedule, cap, start, trace, turns, ps, k);
    WindowTimes(schedule, cap, start, trace, turns, ps, i, k, j);
    if n < |all| { assert all[n..][0] == all[n]; }
    BacklogStep(all, n, left, ps[i].at, ps[j].at, ps[k].previous + ps[k].interval, ps[k].at, ps[k].observed, Activities(ps[k].unread));
  }

  /** In such a window each of the next `left` passes observes one of the old
      activities, and no pass after them observes any. */
  lemma {:induction false} BacklogIsReadOneByOne(schedule: Schedule, cap: nat, start: nat, trace: seq<Sent>, turns: seq<Turn>, ps: seq<Pass>, i: nat, k: nat, j: nat, left: nat)
    requires Driven(schedule, cap, start, trace, turns, ps) && i <= k <= j < |ps|
    requires NoLagWithin(ps, i + 1, j + 1) && NothingNew(ps, i, j, left)
    ensures Activities(ps[k].unread) == Activities(ps[i].unread)[Least(k - i, left)..]
    ensures i < k ==> (ps[k].observed <==> k - i <= left)
    ensures i < k && !ps[k].observed ==> ps[k].wake.Timer?
  {
    if i == k {
      assert Activities(ps[i].unread)[0..] == Activities(ps[i].unread);
    } else {
      BacklogIsReadOneByOne(schedule, cap, start, trace, turns, ps, i, k - 1, j, left);
      BacklogPass(schedule, cap, start, trace, turns, ps, i, k, j, left, Least(k - 1 - i, left));
    }
  }

  /** The driver settles at once, with no further pass observing anything, if and
      only if the first pass of the window left no old activity unread. */
  lemma SettlesIffNothingLeft(schedule: Schedule, cap: nat, start: nat, trace: seq<Sent>, turns: seq<Turn>, ps: seq<Pass>, i: nat, j: nat, left: nat)
    requires Driven(schedule, cap, start, trace, turns, ps) && i < j < |ps|
    requires NoLagWithin(ps, i + 1, j + 1) && NothingNew(ps, i, j, left)
    ensures (forall k :: i < k <= j ==> !ps[k].observed) <==> left == 0
  {
    forall k | i < k <= j ensures ps[k].observed <==> k - i <= left {
      BacklogIsReadOneByOne(schedule, cap, start, trace, turns, ps, i, k, j, left);
    }
    assert ps[i + 1].observed <==> 1 <= left;
  }

  /** A window of length `span` without new activity has at most
      `ramp + span / max + 2` passes, and one more for each activity that its first
      pass left unread. */
  lemma InactiveWindowIsSparse(schedule: Schedule, cap: nat, start: nat, trace: seq<Sent>, turns: seq<Turn>, ps: seq<Pass>, i: nat, j: nat, left: nat, ramp: nat, span: nat)
    requires Driven(schedule, cap, start, trace, turns, ps) && i <= j < |ps|
    requires NoLagWithin(ps, i + 1, j + 1) && NothingNew(ps, i, j, left)
    requires Doubled(schedule.Base(), ramp) >= schedule.max && ps[j].at <= ps[i].at + span
    ensures j - i + 1 <= left + ramp + span / schedule.max + 2
  {
    FitsInto(0, schedule.max, span);
    if j > i + left {
      var first := i + left + 1;
      forall k | first <= k <= j ensures !ps[k].observed && ps[k].wake.Timer? {
        BacklogIsReadOneByOne(schedule, cap, start, trace, turns, ps, i, k, j, left);
      }
      PassesAreOrdered(schedule, cap, start, trace, turns, ps, i, first);
      QuietStretchIsSparse(schedule, cap, start, trace, turns, ps, first, j, ramp, span);
    }
  }

  lemma {:induction false} DueFacts(unread: seq<Sent>, now: nat, i: nat)
    requires Sorted(unread) && i < |unread|
    ensures unread[i].time <= now <==> i < Due(unread, now)
  {
    if i > 0 {
      if unread[0].time <= now {
        DueFacts(unread[1..], now, i - 1);
      }
    }
  }

  /** No activity is sent after `from` and up to `to`. */
  ghost predicate NoActivity(trace: seq<Sent>, from: nat, to: nat) {
    forall n :: 0 <= n < |trace| && trace[n].event.Activity? ==> !(from < trace[n].time <= to)
  }

  lemma NothingNewInWindow(schedule: Schedule, cap: nat, start: nat, trace: seq<Sent>, turns: seq<Turn>, ps: seq<Pass>, i: nat, j: nat, from: nat, to: nat)
    requires Driven(schedule, cap, start, trace, turns, ps) && i <= j < |ps|
    requires NoActivity(trace, from, to) && from <= ps[i].at && ps[j].at <= to
    ensures NothingNew(ps, i, j, Due(Activities(ps[i].unread), from))
  {
    var acts := Activities(ps[i].unread);
    UnreadIsRest(schedule, cap, start, trace, turns, ps, i + 1);
    RestIsSorted(ps[i].unread, trace);
    ActivitiesAreSorted(ps[i].unread);
    var left := Due(acts, from);
    forall n | 0 <= n < left ensures acts[n].time <= ps[i].at { DueFacts(acts, from, n); }
    if left < |acts| {
      DueFacts(acts, from, left);
      ActivitiesAreSent(ps[i].unread, left);
      assert acts[left] in trace;
    }
  }

  /** The same for a window of time: if no activity is sent in it and no pass in it
      meets a lag, its passes number at most `ramp + span / max + 2`, plus one for
      each activity sent before the window that its first pass left unread. */
  lemma WindowWithoutActivityIsSparse(schedule: Schedule, cap: nat, start: nat, trace: seq<Sent>, turns: seq<Turn>, ps: seq<Pass>, i: nat, j: nat, from: nat, ramp: nat, span: nat)
    requires Driven(schedule, cap, start, trace, turns, ps) && i <= j < |ps|
    requires NoActivity(trace, from, from + span) && from <= ps[i].at && ps[j].at <= from + span
    requires NoLagWithin(ps, i + 1, j + 1) && Doubled(schedule.Base(), ramp) >= schedule.max
    ensures j - i + 1 <= Due(Activities(ps[i].unread), from) + ramp + span / schedule.max + 2
  {
    NothingNewInWindow(schedule, cap, start, trace, turns, ps, i, j, from, from + span);
    InactiveWindowIsSparse(schedule, cap, start, trace, turns, ps, i, j, Due(Activities(ps[i].unread), from), ramp, span);
  }

  // ------------------------------------------------------ a burst, and one pass for each

  /** `n` activities at one time. */
  function Burst(n: nat, time: nat): seq<Sent> {
    seq(n, i => Sent(time, Activity))
  }

  lemma BurstWakes(schedule: Schedule, cap: nat, interval: nat, last: nat, n: nat, time: nat)
    requires 0 < n <= cap && time <= last && schedule.Base() <= interval
    ensures var p := PassOf(schedule, cap, interval, last, Burst(n, time), Turn(false, true, 0));
            p.at == p.completed == last + schedule.Base() && p.observed && !p.lagged && p.ok && p.unread == Burst(n - 1, time)
  {
    AllDue(Burst(n, time), last);
    assert Burst(n, time)[1..] == Burst(n - 1, time);
  }

  function EasyTurns(n: nat): (r: seq<Turn>)
    ensures |r| == n
  {
    seq(n, i => Turn(false, true, 0))
  }

  lemma BurstStep(schedule: Schedule, cap: nat, interval: nat, last: nat, n: nat, time: nat)
    requires 0 < n <= cap && time <= last && schedule.Base() <= interval
    ensures Passes(schedule, cap, interval, last, Burst(n, time), EasyTurns(n))
            == [PassOf(schedule, cap, interval, last, Burst(n, time), Turn(false, true, 0))]
               + Passes(schedule, cap, schedule.Start(), last + schedule.Base(), Burst(n - 1, time), EasyTurns(n - 1))
  {
    BurstWakes(schedule, cap, interval, last, n, time);
    PassesFirst(schedule, cap, interval, last, Burst(n, time), EasyTurns(n));
    assert EasyTurns(n)[0] == Turn(false, true, 0) && EasyTurns(n)[1..] == EasyTurns(n - 1);
  }

  /** One pass for each event: after `n` activities sent before it even starts to
      wait, and none after that, the driver makes `n` passes at the base interval. */
  lemma {:induction false} BurstCostsOnePassEach(schedule: Schedule, cap: nat, interval: nat, last: nat, n: nat, time: nat, k: nat)
    requires schedule.Ordered() && schedule.Base() <= interval <= schedule.max && k < n <= cap && time <= last
    ensures var p := Passes(schedule, cap, interval, last, Burst(n, time), EasyTurns(n))[k];
            p.at == last + Times(k + 1, schedule.Base()) && p.observed && !p.lagged && p.unread == Burst(n - 1 - k, time)
    decreases n
  {
    BurstStep(schedule, cap, interval, last, n, time);
    if k == 0 {
      BurstWakes(schedule, cap, interval, last, n, time);
    } else {
      BurstCostsOnePassEach(schedule, cap, schedule.Start(), last + schedule.Base(), n - 1, time, k - 1);
      TimesShift(k, schedule.Base());
    }
  }

  lemma {:induction false} TimesShift(n: nat, m: nat)
    ensures Times(n + 1, m) == m + Times(n, m)
  {
    if n > 0 { TimesShift(n - 1, m); }
  }

  lemma {:induction false} TwiceAsMany(m: nat, n: nat)
    ensures Times(2 * m, n) == 2 * Times(m, n)
  {
    if m > 0 { TwiceAsMany(m - 1, n); }
  }

  lemma {:induction false} HalfAsLong(m: nat, base: nat, max: nat)
    requires 2 * base <= max
    ensures 2 * Times(m, base) <= Times(m, max)
  {
    if m > 0 { HalfAsLong(m - 1, base, max); }
  }

  /** Steps of half the length at most: half as many of the long ones fit. */
  lemma HalfAsMany(q: nat, m: nat, base: nat, max: nat)
    requires 0 < max && 2 * base <= max && Times(q, max) <= Times(m, base)
    ensures 2 * q <= m
  {
    HalfAsLong(m, base, max);
    TwiceAsMany(q, max);
    if 2 * q > m {
      TimesGrows(m + 1, 2 * q, max);
    }
  }

  /** Without the unread activities the bound is false whenever the schedule
      spreads out at all and the ring holds a few more events than it doubles:
      `n` activities sent before the driver starts make `n` passes within `n - 1`
      base intervals, although no activity is sent in that window and no pass
      meets a lag. */
  lemma BurstBreaksTheBound(schedule: Schedule, cap: nat, start: nat, n: nat, ramp: nat)
    requires schedule.Ordered() && 2 * schedule.Base() <= schedule.max && Doubled(schedule.Base(), ramp) >= schedule.max
    requires 2 * ramp + 6 <= n <= cap
    ensures var trace, span := Burst(n, start), Times(n - 1, schedule.Base());
            var ps := Drive(schedule, cap, start, trace, EasyTurns(n));
            && Driven(schedule, cap, start, trace, EasyTurns(n), ps) && |ps| == n && NoLagWithin(ps, 0, n)
            && NoActivity(trace, ps[0].at, ps[0].at + span) && ps[n - 1].at == ps[0].at + span
            && |ps| > ramp + span / schedule.max + 2
  {
    var ps := Drive(schedule, cap, start, Burst(n, start), EasyTurns(n));
    forall k | 0 <= k < n ensures ps[k].at == start + Times(k + 1, schedule.Base()) && !ps[k].lagged {
      BurstCostsOnePassEach(schedule, cap, schedule.Start(), start, n, start, k);
    }
    TimesShift(n - 1, schedule.Base());
    TimesShift(0, schedule.Base());
    QuotientFits(Times(n - 1, schedule.Base()), schedule.max);
    HalfAsMany(Times(n - 1, schedule.Base()) / schedule.max, n - 1, schedule.Base(), schedule.max);
  }
}
