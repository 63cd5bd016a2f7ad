/** Background writers of the idempotency file. */
module IdempotencyPersistence {
  // Background persistence of the idempotency records: every accepted record
  // spawns a task that takes the file lock, snapshots memory, writes a temporary
  // file and renames it over the real one. Any number of tasks run at once, any
  // of them may fail at any point, and the process may stop anywhere.

  import opened BoundedFifo
  import opened IdempotencyStore

  datatype Phase =
    | Queued
    | Holding                 // owns the file lock
    | Snapshotted(snap: nat)  // holds the entries of memory version `snap`
    | Renamed(snap: nat)      // the new file is in place; permissions and directory sync remain
    | Finished(ok: bool)

  /** A task spawned after memory reached version `birth`. */
  datatype Task = Task(birth: nat, phase: Phase) {
    predicate HoldsLock() { phase.Holding? || phase.Snapshotted? || phase.Renamed? }
  }

  /** `history[v]` is memory after `v` accepted records; `owed` are versions
      recorded whose task is not spawned yet. `version` is the memory version
      the file was written from, or -1 for the file found at start-up. */
  datatype State = State(
    history: seq<Window>,
    owed: set<nat>,
    tasks: seq<Task>,
    lock: Option<nat>,
    file: seq<PersistedEntry>,
    version: int)

  datatype Step =
    | Record(key: string, entry: Entry)
    | Spawn(v: nat)
    | Lock(t: nat)
    | Snapshot(t: nat)
    | Rename(t: nat)
    | Fail(t: nat)            // any error before the rename, or right after it
    | Finish(t: nat)

  ghost function Memory(s: State): Window
    requires s.history != []
  {
    s.history[|s.history| - 1]
  }

  ghost function At(s: State, t: nat, phase: Phase): State
    requires t < |s.tasks|
  {
    s.(tasks := s.tasks[t := s.tasks[t].(phase := phase)])
  }

  ghost predicate Enabled(s: State, st: Step) {
    match st
    case Record(key, _) => s.history != [] && !HasKey(Memory(s), key)
    case Spawn(v) => v in s.owed
    case Lock(t) => t < |s.tasks| && s.tasks[t].phase.Queued? && s.lock.None?
    case Snapshot(t) => t < |s.tasks| && s.tasks[t].phase.Holding? && s.history != []
    case Rename(t) => t < |s.tasks| && s.tasks[t].phase.Snapshotted? && s.tasks[t].phase.snap < |s.history|
    case Fail(t) => t < |s.tasks| && s.tasks[t].HoldsLock()
    case Finish(t) => t < |s.tasks| && s.tasks[t].phase.Renamed?
  }

  ghost function Next(s: State, st: Step): State
    requires Enabled(s, st)
  {
    match st
    case Record(key, entry) =>
      s.(history := s.history + [Put(Memory(s), SEND_IDEMPOTENCY_CAPACITY, Slot(key, entry))],
         owed := s.owed + {|s.history|})
    case Spawn(v) => s.(owed := s.owed - {v}, tasks := s.tasks + [Task(v, Queued)])
    case Lock(t) => At(s.(lock := Some(t)), t, Holding)
    case Snapshot(t) => At(s, t, Snapshotted(|s.history| - 1))
    case Rename(t) =>
      var snap := s.tasks[t].phase.snap;
      At(s.(file := ToPersisted(s.history[snap]), version := snap), t, Renamed(snap))
    case Fail(t) => At(s.(lock := None), t, Finished(false))
    case Finish(t) => At(s.(lock := None), t, Finished(true))
  }

  /** Start-up: memory is whatever loads from the file found. */
  ghost predicate Init(s: State) {
    && s.version == -1 && s.history == [Load(s.file)]
    && s.owed == {} && s.tasks == [] && s.lock.None?
  }

  ghost predicate IsRun(states: seq<State>, steps: seq<Step>) {
    && |states| == |steps| + 1
    && Init(states[0])
    && forall i :: 0 <= i < |steps| ==> TakesStep(states, steps, i)
  }

  ghost predicate TakesStep(states: seq<State>, steps: seq<Step>, i: nat)
    requires |states| == |steps| + 1 && i < |steps|
  {
    Enabled(states[i], steps[i]) && states[i + 1] == Next(states[i], steps[i])
  }

  ghost predicate TaskOk(s: State, t: nat)
    requires t < |s.tasks|
  {
    var task := s.tasks[t];
    && task.birth < |s.history|
    && (task.HoldsLock() ==> s.lock == Some(t))
    && (task.phase.Snapshotted? ==> task.birth <= task.phase.snap < |s.history| && s.version <= task.phase.snap)
    && (task.phase.Renamed? ==> task.birth <= task.phase.snap <= s.version)
    && (task.phase.Finished? && task.phase.ok ==> task.birth <= s.version)
  }

  /** Every memory version has, or is owed, a task of its own. */
  ghost predicate VersionServed(s: State, v: nat) {
    v in s.owed || exists t :: 0 <= t < |s.tasks| && s.tasks[t].birth == v
  }

  ghost predicate Inv(s: State) {
    && s.history != [] && -1 <= s.version < |s.history|
    && (forall v :: 0 <= v < |s.history| ==> Wellformed(s.history[v], SEND_IDEMPOTENCY_CAPACITY))
    && (s.version >= 0 ==> s.file == ToPersisted(s.history[s.version]))
    && (s.version == -1 ==> Load(s.file) == s.history[0])
    && (forall v :: v in s.owed ==> v < |s.history|)
    && (forall t :: 0 <= t < |s.tasks| ==> TaskOk(s, t))
    && (forall v :: 1 <= v < |s.history| ==> VersionServed(s, v))
  }

  lemma ServedStays(s: State, st: Step)
    requires Inv(s) && Enabled(s, st)
    ensures forall v :: 1 <= v < |Next(s, st).history| ==> VersionServed(Next(s, st), v)
  {
    var s' := Next(s, st);
    forall v | 1 <= v < |s'.history| ensures VersionServed(s', v) {
      if v < |s.history| {
        assert VersionServed(s, v);
        if st.Spawn? && st.v == v {
          assert s'.tasks[|s.tasks|].birth == v;
        } else if v !in s.owed {
          var t :| 0 <= t < |s.tasks| && s.tasks[t].birth == v;
          assert s'.tasks[t].birth == v;
        }
      }
    }
  }

  lemma TasksStayOk(s: State, st: Step)
    requires Inv(s) && Enabled(s, st)
    ensures forall t :: 0 <= t < |Next(s, st).tasks| ==> TaskOk(Next(s, st), t)
  {
    var s' := Next(s, st);
    forall t | 0 <= t < |s'.tasks| ensures TaskOk(s', t) {
      if t < |s.tasks| { assert TaskOk(s, t); }
      if st.Rename? || st.Fail? || st.Finish? || st.Lock? || st.Snapshot? { assert TaskOk(s, st.t); }
    }
  }

  lemma StepPreserves(s: State, st: Step)
    requires Inv(s) && Enabled(s, st)
    ensures Inv(Next(s, st))
    ensures s.version <= Next(s, st).version
    ensures s.history <= Next(s, st).history
  {
    ServedStays(s, st);
    TasksStayOk(s, st);
    if st.Record? {
      PutKeepsWellformed(Memory(s), SEND_IDEMPOTENCY_CAPACITY, Slot(st.key, st.entry));
    } else if st.Rename? {
      assert TaskOk(s, st.t);
    }
  }

  lemma {:induction false} ReachableStatesKeepInv(states: seq<State>, steps: seq<Step>, i: nat)
    requires IsRun(states, steps) && i < |states|
    ensures Inv(states[i])
  {
    if i > 0 {
      ReachableStatesKeepInv(states, steps, i - 1);
      assert TakesStep(states, steps, i - 1);
      StepPreserves(states[i - 1], steps[i - 1]);
    } else {
      LoadIsWellformed(states[0].file);
    }
  }

  /** The file never goes back to an older memory version. */
  lemma {:induction false} FileNeverGoesBackwards(states: seq<State>, steps: seq<Step>, i: nat, j: nat)
    requires IsRun(states, steps) && i <= j < |states|
    ensures states[i].version <= states[j].version
  {
    if i < j {
      FileNeverGoesBackwards(states, steps, i, j - 1);
      ReachableStatesKeepInv(states, steps, j - 1);
      assert TakesStep(states, steps, j - 1);
      StepPreserves(states[j - 1], steps[j - 1]);
    }
  }

  /** A restart at any moment finds a memory state this run really had: the
      file loads to an earlier or the current version, never to a mixture. */
  lemma RestartFindsAnEarlierMemory(states: seq<State>, steps: seq<Step>, i: nat)
    requires IsRun(states, steps) && i < |states|
    ensures exists v :: 0 <= v < |states[i].history| && Load(states[i].file) == states[i].history[v]
                        && (states[i].version >= 0 ==> v == states[i].version)
  {
    ReachableStatesKeepInv(states, steps, i);
    var s := states[i];
    if s.version >= 0 {
      LoadAfterPersist(s.history[s.version]);
      assert Load(s.file) == s.history[s.version];
    } else {
      assert Load(s.file) == s.history[0];
    }
  }

  /** A task that succeeded has put its record, or a later state, on disk. */
  lemma SucceededTaskIsDurable(states: seq<State>, steps: seq<Step>, i: nat, t: nat)
    requires IsRun(states, steps) && i < |states| && t < |states[i].tasks|
    requires states[i].tasks[t].phase == Finished(true)
    ensures states[i].tasks[t].birth <= states[i].version
  {
    ReachableStatesKeepInv(states, steps, i);
    assert TaskOk(states[i], t);
  }

  /** Once every record's task is spawned and the newest record's task has
      succeeded, the file equals memory and a restart loses nothing. */
  lemma FileCatchesUp(states: seq<State>, steps: seq<Step>, i: nat)
    requires IsRun(states, steps) && i < |states| && |states[i].history| > 1
    requires states[i].owed == {}
    requires forall t :: 0 <= t < |states[i].tasks| && states[i].tasks[t].birth == |states[i].history| - 1 ==>
               states[i].tasks[t].phase == Finished(true)
    ensures states[i].file == ToPersisted(states[i].history[|states[i].history| - 1])
    ensures Load(states[i].file) == states[i].history[|states[i].history| - 1]
  {
    ReachableStatesKeepInv(states, steps, i);
    var s := states[i];
    assert VersionServed(s, |s.history| - 1);
    var t :| 0 <= t < |s.tasks| && s.tasks[t].birth == |s.history| - 1;
    SucceededTaskIsDurable(states, steps, i, t);
    LoadAfterPersist(Memory(s));
  }
}
