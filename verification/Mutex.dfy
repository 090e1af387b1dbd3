/**
 Per-key serialization of file mutations (packages/fs-ssh/src/mutex.ts): a map
 from key to the tail of that key's promise chain, with a cleanup that forgets
 a settled tail. Promise callbacks are steps that may run in any order once
 the promise they hang on has settled.
 */
module Mutex {
  import opened Wrappers

  type Key = string

  datatype Phase = Waiting | Running | Settled(ok: bool)

  /** One call of `run`: `after` is the earlier task whose promise it was chained to, if the map still held one. */
  datatype Task = Task(key: Key, after: Option<nat>, phase: Phase)

  /** Every call so far in call order, the chain tails, and the tasks in the order they were started. */
  datatype State = State(tasks: seq<Task>, tails: map<Key, nat>, started: seq<nat>)

  const IDLE := State([], map[], [])

  datatype Step = Call(key: Key) | Start(task: nat) | Settle(task: nat, ok: bool) | Cleanup(task: nat)

  /** The chained callback may run once the promise before it has settled, whichever way. */
  predicate Startable(s: State, n: nat) {
    && n < |s.tasks| && s.tasks[n].phase.Waiting?
    && (s.tasks[n].after.Some? ==> s.tasks[n].after.value < |s.tasks| && s.tasks[s.tasks[n].after.value].phase.Settled?)
  }

  predicate Enabled(s: State, step: Step) {
    match step
    case Call(_) => true
    case Start(n) => Startable(s, n)
    case Settle(n, _) => n < |s.tasks| && s.tasks[n].phase.Running?
    case Cleanup(n) => n < |s.tasks| && s.tasks[n].phase.Settled?
  }

  function Next(s: State, step: Step): State
    requires Enabled(s, step)
  {
    match step
    case Call(key) =>
      var after := if key in s.tails then Some(s.tails[key]) else None;
      s.(tasks := s.tasks + [Task(key, after, Waiting)], tails := s.tails[key := |s.tasks|])
    case Start(n) => s.(tasks := s.tasks[n := s.tasks[n].(phase := Running)], started := s.started + [n])
    case Settle(n, ok) => s.(tasks := s.tasks[n := s.tasks[n].(phase := Settled(ok))])
    case Cleanup(n) =>
      var key := s.tasks[n].key;
      if key in s.tails && s.tails[key] == n then s.(tails := s.tails - {key}) else s
  }

  /** The mutex as the source keeps it: only the tails are its own; the tasks live in the promise chains. */
  class KeyedMutex {
    var tails: map<Key, nat>
    var tasks: seq<Task>
    var started: seq<nat>

    function AsState(): State
      reads this
    {
      State(tasks, tails, started)
    }

    constructor ()
      ensures AsState() == IDLE
    {
      tails, tasks, started := map[], [], [];
    }

    /** Queue a task behind any in-flight task of its key. */
    method Run(key: Key) returns (result: nat)
      modifies this
      ensures AsState() == Next(old(AsState()), Call(key)) && result == |old(tasks)|
    {
      var tail := if key in tails then Some(tails[key]) else None;
      result := |tasks|;
      tasks := tasks + [Task(key, tail, Waiting)];
      tails := tails[key := result];
    }

    method Begin(task: nat)
      requires Enabled(AsState(), Start(task))
      modifies this
      ensures AsState() == Next(old(AsState()), Start(task))
    {
      tasks := tasks[task := tasks[task].(phase := Running)];
      started := started + [task];
    }

    method Finish(task: nat, ok: bool)
      requires Enabled(AsState(), Settle(task, ok))
      modifies this
      ensures AsState() == Next(old(AsState()), Settle(task, ok))
    {
      tasks := tasks[task := tasks[task].(phase := Settled(ok))];
    }

    /** Forget the tail, unless a later call has already replaced it. */
    method Forget(task: nat)
      requires Enabled(AsState(), Cleanup(task))
      modifies this
      ensures AsState() == Next(old(AsState()), Cleanup(task))
    {
      if tasks[task].key in tails && tails[tasks[task].key] == task {
        tails := tails - {tasks[task].key};
      }
    }
  }

  // ---------------------------------------------------------------- the invariant

  predicate Same(s: State, i: nat, j: nat)
    requires i < |s.tasks| && j < |s.tasks|
  {
    s.tasks[i].key == s.tasks[j].key
  }

  /** Tail entries point at the last task of their key; without an entry everything has settled. */
  ghost predicate TailsAreLast(s: State) {
    && (forall k <- s.tails :: s.tails[k] < |s.tasks| && s.tasks[s.tails[k]].key == k)
    && (forall j | 0 <= j < |s.tasks| ::
          if s.tasks[j].key in s.tails then j <= s.tails[s.tasks[j].key] else s.tasks[j].phase.Settled?)
  }

  /** A task is chained to the previous task of its key, or to nothing once all of those have settled. */
  ghost predicate Chained(s: State) {
    forall i, j | 0 <= i < j < |s.tasks| && Same(s, i, j) ::
      if s.tasks[j].after.Some? then i <= s.tasks[j].after.value else s.tasks[i].phase.Settled?
  }

  ghost predicate AfterIsEarlier(s: State) {
    forall j | 0 <= j < |s.tasks| && s.tasks[j].after.Some? ::
      s.tasks[j].after.value < j && s.tasks[s.tasks[j].after.value].key == s.tasks[j].key
  }

  /** A task that has started has every earlier task of its key settled behind it. */
  ghost predicate Serial(s: State) {
    forall i, j | 0 <= i < j < |s.tasks| && Same(s, i, j) :: s.tasks[j].phase.Waiting? || s.tasks[i].phase.Settled?
  }

  /** The start log holds exactly the tasks that have started, and per key in call order. */
  ghost predicate StartsInOrder(s: State) {
    && (forall a | 0 <= a < |s.started| :: s.started[a] < |s.tasks| && !s.tasks[s.started[a]].phase.Waiting?)
    && (forall n | 0 <= n < |s.tasks| && !s.tasks[n].phase.Waiting? :: n in s.started)
    && (forall a, b | 0 <= a < b < |s.started| :: s.tasks[s.started[a]].key == s.tasks[s.started[b]].key ==> s.started[a] < s.started[b])
  }

  ghost predicate Inv(s: State) {
    TailsAreLast(s) && AfterIsEarlier(s) && Chained(s) && Serial(s) && StartsInOrder(s)
  }

  lemma CallKeepsTails(s: State, key: Key)
    requires TailsAreLast(s) && AfterIsEarlier(s)
    ensures TailsAreLast(Next(s, Call(key))) && AfterIsEarlier(Next(s, Call(key)))
  {
  }

  lemma CallKeepsChains(s: State, key: Key)
    requires TailsAreLast(s) && Chained(s) && Serial(s)
    ensures Chained(Next(s, Call(key))) && Serial(Next(s, Call(key)))
  {
    var t := Next(s, Call(key));
    forall i, j | 0 <= i < j < |t.tasks| && Same(t, i, j)
      ensures t.tasks[j].phase.Waiting? || t.tasks[i].phase.Settled?
      ensures if t.tasks[j].after.Some? then i <= t.tasks[j].after.value else t.tasks[i].phase.Settled?
    {
      if j < |s.tasks| { assert Same(s, i, j); }
    }
  }

  lemma CallKeepsInv(s: State, key: Key)
    requires Inv(s)
    ensures Inv(Next(s, Call(key)))
  {
    CallKeepsTails(s, key);
    CallKeepsChains(s, key);
  }

  /** Starting behind a settled predecessor: everything before that had settled when it started. */
  lemma StartFindsAllSettled(s: State, n: nat, i: nat)
    requires Inv(s) && Startable(s, n) && i < n && Same(s, i, n)
    ensures s.tasks[i].phase.Settled?
  {
    if s.tasks[n].after.Some? {
      assert Same(s, i, s.tasks[n].after.value);
    }
  }

  lemma StartKeepsInv(s: State, n: nat)
    requires Inv(s) && Startable(s, n)
    ensures Inv(Next(s, Start(n)))
  {
    var t := Next(s, Start(n));
    forall i, j | 0 <= i < j < |t.tasks| && Same(t, i, j) ensures t.tasks[j].phase.Waiting? || t.tasks[i].phase.Settled? {
      assert Same(s, i, j);
      if j == n { StartFindsAllSettled(s, n, i); }
    }
    forall i, j | 0 <= i < j < |t.tasks| && Same(t, i, j)
      ensures if t.tasks[j].after.Some? then i <= t.tasks[j].after.value else t.tasks[i].phase.Settled?
    {
      assert Same(s, i, j);
    }
    StartAppendsInOrder(s, n);
  }

  lemma StartAppendsInOrder(s: State, n: nat)
    requires Inv(s) && Startable(s, n)
    ensures StartsInOrder(Next(s, Start(n)))
  {
    var t := Next(s, Start(n));
    forall a, b | 0 <= a < b < |t.started|
      ensures t.tasks[t.started[a]].key == t.tasks[t.started[b]].key ==> t.started[a] < t.started[b]
    {
      if b == |s.started| && t.tasks[t.started[a]].key == t.tasks[t.started[b]].key {
        var m := s.started[a];
        assert m in s.started && m != n;
        if n < m { assert Same(s, n, m); }
      }
    }
    forall m | 0 <= m < |t.tasks| && !t.tasks[m].phase.Waiting? ensures m in t.started {
      if m == n { assert t.started[|s.started|] == n; }
    }
  }

  lemma SettleKeepsInv(s: State, n: nat, ok: bool)
    requires Inv(s) && Enabled(s, Settle(n, ok))
    ensures Inv(Next(s, Settle(n, ok)))
  {
    var t := Next(s, Settle(n, ok));
    forall i, j | 0 <= i < j < |t.tasks| && Same(t, i, j)
      ensures t.tasks[j].phase.Waiting? || t.tasks[i].phase.Settled?
      ensures if t.tasks[j].after.Some? then i <= t.tasks[j].after.value else t.tasks[i].phase.Settled?
    {
      assert Same(s, i, j);
    }
  }

  /** The cleanup changes the map only, and only when everything of that key has settled. */
  lemma CleanupKeepsInv(s: State, n: nat)
    requires Inv(s) && Enabled(s, Cleanup(n))
    ensures Inv(Next(s, Cleanup(n)))
  {
    var t := Next(s, Cleanup(n));
    if t != s {
      forall j | 0 <= j < |t.tasks|
        ensures if t.tasks[j].key in t.tails then j <= t.tails[t.tasks[j].key] else t.tasks[j].phase.Settled?
      {
        if t.tasks[j].key == t.tasks[n].key { SettledTailSettlesAll(s, n, j); }
      }
      assert TailsAreLast(t);
      hide TailsAreLast;
      assert Serial(t) && Chained(t) by {
        assert forall i, j | 0 <= i < j < |t.tasks| && Same(t, i, j) :: Same(s, i, j);
      }
    }
  }

  lemma SettledTailSettlesAll(s: State, n: nat, j: nat)
    requires Inv(s) && n < |s.tasks| && s.tasks[n].phase.Settled? && j <= n && Same(s, j, n)
    ensures s.tasks[j].phase.Settled?
  {
  }

  lemma NextKeepsInv(s: State, step: Step)
    requires Inv(s) && Enabled(s, step)
    ensures Inv(Next(s, step))
  {
    match step
    case Call(key) => CallKeepsInv(s, key);
    case Start(n) => StartKeepsInv(s, n);
    case Settle(n, ok) => SettleKeepsInv(s, n, ok);
    case Cleanup(n) => CleanupKeepsInv(s, n);
  }

  // ---------------------------------------------------------------- whole runs

  ghost predicate Runs(s: State, steps: seq<Step>, z: State)
    decreases |steps|
  {
    if steps == [] then z == s else Enabled(s, steps[0]) && Runs(Next(s, steps[0]), steps[1..], z)
  }

  lemma {:induction false} RunsKeepInv(s: State, steps: seq<Step>, z: State)
    requires Inv(s) && Runs(s, steps, z)
    ensures Inv(z)
    decreases |steps|
  {
    if steps != [] {
      NextKeepsInv(s, steps[0]);
      RunsKeepInv(Next(s, steps[0]), steps[1..], z);
    }
  }

  /** In every run, tasks of one key never overlap and are started in the order they were called. */
  lemma SameKeyIsSerial(steps: seq<Step>, z: State, i: nat, j: nat)
    requires Runs(IDLE, steps, z) && i < j < |z.tasks| && z.tasks[i].key == z.tasks[j].key
    ensures !z.tasks[j].phase.Waiting? ==> z.tasks[i].phase.Settled?
    ensures !(z.tasks[i].phase.Running? && z.tasks[j].phase.Running?)
    ensures forall a, b | 0 <= a < |z.started| && 0 <= b < |z.started| && z.started[a] == i && z.started[b] == j :: a < b
  {
    RunsKeepInv(IDLE, steps, z);
    assert Same(z, i, j);
  }

  /** No failure wedges a key: while one of its tasks is unfinished, one of them is running or may start. */
  lemma {:induction false} NeverWedged(s: State, n: nat) returns (m: nat)
    requires Inv(s) && n < |s.tasks| && !s.tasks[n].phase.Settled?
    ensures m <= n && Same(s, m, n) && (s.tasks[m].phase.Running? || Startable(s, m))
    decreases n
  {
    if s.tasks[n].phase.Running? || Startable(s, n) { return n; }
    m := NeverWedged(s, s.tasks[n].after.value);
  }
}
