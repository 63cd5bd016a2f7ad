/** The catch-up driver's start and stop. */
module CatchUpHandshake {
  // The start/stop handshake of the shared inbound catch-up driver on its two
  // atomics, `started` and `active`. Every atomic access is one step, taken in
  // any order by any number of subscribers and drivers; accesses are taken to be
  // sequentially consistent.

  /** `subscribe` and the drop of the subscription. */
  datatype SubscriberPc =
    | Counted     // `active.fetch_add` done, `started.swap` is next
    | Spawning    // won the swap, the spawn is next
    | Live
    | Gone        // dropped, `active.fetch_sub` done

  /** The driver's loop head. */
  datatype DriverPc =
    | Running     // at the loop head with its first load next, or in a pass
    | SawZero     // read `active == 0`, the store of `started = false` is next
    | Released    // gave `started` up, the second load is next
    | Retaking    // read `active > 0`, the compare-exchange is next
    | Exited

  datatype Owner = Nobody | Subscriber(i: nat) | Driver(d: nat)

  /** `owner` is a history variable: who is answerable for `started`. */
  datatype State = State(started: bool, active: int, subscribers: seq<SubscriberPc>, drivers: seq<DriverPc>, owner: Owner)

  datatype Step =
    | Subscribe
    | Swap(i: nat)
    | Spawn(i: nat)
    | Drop(i: nat)
    | FirstLoad(d: nat)
    | StoreFalse(d: nat)
    | SecondLoad(d: nat)
    | CompareExchange(d: nat)

  ghost predicate Enabled(s: State, st: Step) {
    match st
    case Subscribe => true
    case Swap(i) => i < |s.subscribers| && s.subscribers[i].Counted?
    case Spawn(i) => i < |s.subscribers| && s.subscribers[i].Spawning?
    case Drop(i) => i < |s.subscribers| && s.subscribers[i].Live?
    case FirstLoad(d) => d < |s.drivers| && s.drivers[d].Running?
    case StoreFalse(d) => d < |s.drivers| && s.drivers[d].SawZero?
    case SecondLoad(d) => d < |s.drivers| && s.drivers[d].Released?
    case CompareExchange(d) => d < |s.drivers| && s.drivers[d].Retaking?
  }

  ghost function Next(s: State, st: Step): State
    requires Enabled(s, st)
  {
    match st
    case Subscribe => s.(active := s.active + 1, subscribers := s.subscribers + [Counted])
    case Swap(i) =>
      if s.started then s.(subscribers := s.subscribers[i := Live])
      else s.(started := true, subscribers := s.subscribers[i := Spawning], owner := Subscriber(i))
    case Spawn(i) =>
      s.(subscribers := s.subscribers[i := Live], drivers := s.drivers + [Running], owner := Driver(|s.drivers|))
    case Drop(i) => s.(active := s.active - 1, subscribers := s.subscribers[i := Gone])
    case FirstLoad(d) => s.(drivers := s.drivers[d := if s.active == 0 then SawZero else Running])
    case StoreFalse(d) => s.(started := false, drivers := s.drivers[d := Released], owner := Nobody)
    case SecondLoad(d) => s.(drivers := s.drivers[d := if s.active == 0 then Exited else Retaking])
    case CompareExchange(d) =>
      if s.started then s.(drivers := s.drivers[d := Exited])
      else s.(started := true, drivers := s.drivers[d := Running], owner := Driver(d))
  }

  ghost predicate Init(s: State) {
    s == State(false, 0, [], [], Nobody)
  }

  ghost predicate IsRun(states: seq<State>, steps: seq<Step>) {
    && |states| == |steps| + 1
    && Init(states[0])
    && forall i :: 0 <= i < |steps| ==> TakesStep(states, steps, i)
  }

  ghost predicate TakesStep(states: seq<State>, steps: seq<Step>, i: nat)
    requires |states| == |steps| + 1 && i < |steps|
  {
    Enabled(states[i], steps[i]) && states[i + 1] == Next(states[i], steps[i])
  }

  ghost function Subscriptions(subscribers: seq<SubscriberPc>): nat {
    if subscribers == [] then 0
    else Subscriptions(subscribers[..|subscribers| - 1]) + if subscribers[|subscribers| - 1].Gone? then 0 else 1
  }

  /** The flag has exactly one owner while set, and none while clear. */
  ghost predicate OwnerKnown(s: State) {
    && (s.started <==> !s.owner.Nobody?)
    && (forall i :: 0 <= i < |s.subscribers| ==> (s.subscribers[i].Spawning? <==> s.owner == Subscriber(i)))
    && (forall d :: 0 <= d < |s.drivers| ==> (s.drivers[d].Running? || s.drivers[d].SawZero? <==> s.owner == Driver(d)))
    && (s.owner.Subscriber? ==> s.owner.i < |s.subscribers|)
    && (s.owner.Driver? ==> s.owner.d < |s.drivers|)
  }

  /** Someone who will look at the flag again. */
  ghost predicate Pending(s: State) {
    || (exists i :: 0 <= i < |s.subscribers| && s.subscribers[i].Counted?)
    || (exists d :: 0 <= d < |s.drivers| && (s.drivers[d].Released? || s.drivers[d].Retaking?))
  }

  ghost predicate Inv(s: State) {
    && OwnerKnown(s)
    && s.active == Subscriptions(s.subscribers)
    && (!s.started && s.active > 0 ==> Pending(s))
  }

  lemma {:induction false} SubscriptionsUpdate(subscribers: seq<SubscriberPc>, i: nat, pc: SubscriberPc)
    requires i < |subscribers|
    ensures Subscriptions(subscribers[i := pc])
            == Subscriptions(subscribers) + (if pc.Gone? then 0 else 1) - (if subscribers[i].Gone? then 0 else 1)
  {
    var n := |subscribers| - 1;
    if i < n {
      SubscriptionsUpdate(subscribers[..n], i, pc);
      assert subscribers[i := pc][..n] == subscribers[..n][i := pc];
    } else {
      assert subscribers[i := pc][..n] == subscribers[..n];
    }
  }

  lemma CountPreserved(s: State, st: Step)
    requires Inv(s) && Enabled(s, st)
    ensures Next(s, st).active == Subscriptions(Next(s, st).subscribers)
  {
    if st.Subscribe? {
      assert (s.subscribers + [Counted])[..|s.subscribers|] == s.subscribers;
    } else if st.Swap? || st.Spawn? || st.Drop? {
      SubscriptionsUpdate(s.subscribers, st.i, Next(s, st).subscribers[st.i]);
    }
  }

  /** The double check on both sides leaves no gap: the flag is never clear
      with subscriptions around unless somebody is about to look again. */
  lemma PendingPreserved(s: State, st: Step)
    requires Inv(s) && Enabled(s, st)
    ensures var t := Next(s, st); !t.started && t.active > 0 ==> Pending(t)
  {
    var t := Next(s, st);
    if !t.started && t.active > 0 {
      if st.Subscribe? {
        assert t.subscribers[|s.subscribers|].Counted?;
      } else if st.StoreFalse? {
        assert t.drivers[st.d].Released?;
      } else if st.SecondLoad? {
        assert t.drivers[st.d].Retaking?;
      } else {
        if i :| 0 <= i < |s.subscribers| && s.subscribers[i].Counted? {
          assert t.subscribers[i].Counted?;
        } else {
          var d :| 0 <= d < |s.drivers| && (s.drivers[d].Released? || s.drivers[d].Retaking?);
          assert t.drivers[d] == s.drivers[d];
        }
      }
    }
  }

  lemma OwnerPreserved(s: State, st: Step)
    requires OwnerKnown(s) && Enabled(s, st)
    ensures OwnerKnown(Next(s, st))
  {
  }

  lemma {:induction false} ReachableStatesKeepInv(states: seq<State>, steps: seq<Step>, i: nat)
    requires IsRun(states, steps) && i < |states|
    ensures Inv(states[i])
  {
    if i > 0 {
      ReachableStatesKeepInv(states, steps, i - 1);
      assert TakesStep(states, steps, i - 1);
      OwnerPreserved(states[i - 1], steps[i - 1]);
      CountPreserved(states[i - 1], steps[i - 1]);
      PendingPreserved(states[i - 1], steps[i - 1]);
    }
  }

  /** At most one catch-up driver owns `started` at any time, and none does
      while a subscriber is about to spawn one. */
  lemma AtMostOneDriver(states: seq<State>, steps: seq<Step>, i: nat, d: nat, e: nat)
    requires IsRun(states, steps) && i < |states|
    requires d < |states[i].drivers| && (states[i].drivers[d].Running? || states[i].drivers[d].SawZero?)
    ensures states[i].started
    ensures e < |states[i].drivers| && (states[i].drivers[e].Running? || states[i].drivers[e].SawZero?) ==> d == e
    ensures e < |states[i].subscribers| ==> !states[i].subscribers[e].Spawning?
  {
    ReachableStatesKeepInv(states, steps, i);
  }

  /** Whenever subscriptions exist and nobody is inside `subscribe` or inside
      the exit check, a driver is running. */
  lemma SubscriptionsHaveADriver(states: seq<State>, steps: seq<Step>, i: nat)
    requires IsRun(states, steps) && i < |states|
    requires states[i].active > 0
    requires forall k :: 0 <= k < |states[i].subscribers| ==> !states[i].subscribers[k].Counted? && !states[i].subscribers[k].Spawning?
    requires forall d :: 0 <= d < |states[i].drivers| ==> states[i].drivers[d].Running? || states[i].drivers[d].Exited?
    ensures exists d :: 0 <= d < |states[i].drivers| && states[i].drivers[d].Running?
  {
    ReachableStatesKeepInv(states, steps, i);
    var s := states[i];
    if s.owner.Driver? { assert s.drivers[s.owner.d].Running?; }
  }

  /** The counter never underflows: it is the number of subscriptions not yet
      dropped. */
  lemma ActiveCountsSubscriptions(states: seq<State>, steps: seq<Step>, i: nat)
    requires IsRun(states, steps) && i < |states|
    ensures states[i].active == Subscriptions(states[i].subscribers) >= 0
  {
    ReachableStatesKeepInv(states, steps, i);
  }
}
