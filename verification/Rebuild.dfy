/** The node rebuild under a cooldown (src/engine.py, src/alpn/status.py): any number of tasks, interleaving at
    their awaits, test the cooldown, queue for a lock, test it again and then replace the iroh node. */
module Rebuild {
  import opened Common
  import Rate

  type NodeId = string
  type TaskId = int

  /** `refresh_after_failures` and `refresh_cooldown_seconds`, clamped at 0 as the engine does. */
  datatype Config = Config(refreshAfter: nat, cooldown: nat)

  /** Where a task is suspended: not started, queued for the lock, or inside the lock at one of its awaits. */
  datatype Pc = Spawned | Waiting | Stopping | Draining | Building | Checking

  datatype Event = Began(id: TaskId, at: int) | Ended(id: TaskId, at: int, ok: bool, node: bool)

  /** `failures` is each loaded peer's `consecutive_pull_failures`; `log` lists every rebuild begun and ended. */
  datatype State = State(failures: map<NodeId, nat>, tasks: map<TaskId, Pc>, lock: Option<TaskId>,
                         stamp: Option<int>, nodeUp: bool, log: seq<Event>)

  datatype Step =
    | PullFailed(peer: NodeId, alive: bool, id: TaskId)
    | OrphanFailed(count: nat, alive: bool, id: TaskId)   // a failed pull of a state that a reload replaced meanwhile
    | PullOk(peer: NodeId)
    | ReloadDevices(peers: set<NodeId>)
    | Enter(id: TaskId, now: int)                      // start, up to queueing for the lock
    | Acquire(id: TaskId, now: int)                    // the lock is granted, up to the next await
    | Stopped(id: TaskId)                              // the old node's shutdown returned or raised
    | Drained(id: TaskId)                              // the 0.5 s sleep is over
    | Created(id: TaskId)                              // the new node exists, its identity is still to be checked
    | Built(id: TaskId, now: int)
    | BuildFailed(id: TaskId, now: int)                // before the node exists, or at the identity check

  predicate InCooldown(stamp: Option<int>, now: int, cooldown: nat) {
    stamp.Some? && now - stamp.value < cooldown
  }

  predicate Enabled(s: State, step: Step) {
    match step
    case PullFailed(_, _, id) => id !in s.tasks
    case OrphanFailed(_, _, id) => id !in s.tasks
    case PullOk(_) => true
    case ReloadDevices(_) => true
    case Enter(id, _) => id in s.tasks && s.tasks[id] == Spawned
    case Acquire(id, _) => id in s.tasks && s.tasks[id] == Waiting && s.lock.None?
    case Stopped(id) => id in s.tasks && s.tasks[id] == Stopping
    case Drained(id) => id in s.tasks && s.tasks[id] == Draining
    case Created(id) => id in s.tasks && s.tasks[id] == Building
    case Built(id, _) => id in s.tasks && s.tasks[id] == Checking
    case BuildFailed(id, _) => id in s.tasks && (s.tasks[id] == Building || s.tasks[id] == Checking)
  }

  function Zeroed(failures: map<NodeId, nat>): map<NodeId, nat> {
    map p | p in failures :: 0
  }

  function Release(s: State, id: TaskId, now: int, ok: bool): State {
    s.(tasks := s.tasks - {id}, lock := None, stamp := Some(now), log := s.log + [Ended(id, now, ok, s.nodeUp)])
  }

  function Apply(c: Config, s: State, step: Step): State
    requires Enabled(s, step)
  {
    match step
    case PullFailed(peer, alive, id) =>
      if peer !in s.failures then s else
        var n := s.failures[peer] + 1;
        s.(failures := s.failures[peer := n],
           tasks := if 0 < c.refreshAfter <= n && alive then s.tasks[id := Spawned] else s.tasks)
    case OrphanFailed(count, alive, id) =>
      s.(tasks := if 0 < c.refreshAfter <= count && alive then s.tasks[id := Spawned] else s.tasks)
    case PullOk(peer) => if peer in s.failures then s.(failures := s.failures[peer := 0]) else s
    case ReloadDevices(peers) => s.(failures := map p | p in peers :: 0)
    case Enter(id, now) =>
      s.(tasks := if InCooldown(s.stamp, now, c.cooldown) then s.tasks - {id} else s.tasks[id := Waiting])
    case Acquire(id, now) =>
      if InCooldown(s.stamp, now, c.cooldown) then s.(tasks := s.tasks - {id})
      else s.(tasks := s.tasks[id := if s.nodeUp then Stopping else Draining],
              lock := Some(id), nodeUp := false, log := s.log + [Began(id, now)])
    case Stopped(id) => s.(tasks := s.tasks[id := Draining])
    case Drained(id) => s.(tasks := s.tasks[id := Building])
    case Created(id) => s.(tasks := s.tasks[id := Checking], nodeUp := true)
    case Built(id, now) => Release(s, id, now, true).(failures := Zeroed(s.failures))
    case BuildFailed(id, now) => Release(s, id, now, false)
  }

  /** A running engine: the first node is up, nothing was rebuilt yet. */
  function Start(peers: set<NodeId>): State {
    State(map p | p in peers :: 0, map[], None, None, true, [])
  }

  ghost predicate RunsTo(c: Config, s: State, steps: seq<Step>, last: State)
    decreases |steps|
  {
    if steps == [] then s == last else Enabled(s, steps[0]) && RunsTo(c, Apply(c, s, steps[0]), steps[1..], last)
  }

  // ---------------------------------------------------------------- invariant

  ghost predicate InProgress(s: State, id: TaskId) {
    id in s.tasks && s.tasks[id] != Spawned && s.tasks[id] != Waiting
  }

  /** Begin and end alternate, an end is by the coroutine that began, and every begin but the first waited out the
      cooldown counted from the end before it. */
  ghost predicate LogOk(log: seq<Event>, cooldown: nat) {
    && (forall i :: 0 <= i < |log| ==> (log[i].Began? <==> i % 2 == 0))
    && (forall i :: 0 < i < |log| && log[i].Ended? ==> log[i].id == log[i - 1].id)
    && (forall i :: 0 < i < |log| && log[i].Began? ==> log[i].at - log[i - 1].at >= cooldown)
  }

  ghost predicate Inv(c: Config, s: State) {
    && LogOk(s.log, c.cooldown)
    && (forall id :: InProgress(s, id) <==> s.lock == Some(id))
    && (s.lock.Some? ==> s.lock.value in s.tasks)
    && (s.lock.Some? <==> |s.log| % 2 == 1)
    && (s.lock.Some? ==> s.log[|s.log| - 1].id == s.lock.value)
    && (s.lock.Some? ==> s.nodeUp == (s.tasks[s.lock.value] == Checking))
    && (s.lock.None? ==> s.nodeUp == (s.log == [] || s.log[|s.log| - 1].node))
    && (s.stamp.None? <==> |s.log| <= 1)
    && (s.stamp.Some? ==> s.stamp.value == s.log[if s.lock.Some? then |s.log| - 2 else |s.log| - 1].at)
  }

  lemma LogBegin(log: seq<Event>, cooldown: nat, id: TaskId, now: int)
    requires LogOk(log, cooldown) && |log| % 2 == 0
    requires log == [] || now - log[|log| - 1].at >= cooldown
    ensures LogOk(log + [Began(id, now)], cooldown)
  {
  }

  lemma LogEnd(log: seq<Event>, cooldown: nat, e: Event)
    requires LogOk(log, cooldown) && |log| % 2 == 1
    requires e.Ended? && e.id == log[|log| - 1].id
    ensures LogOk(log + [e], cooldown)
  {
  }

  lemma AcquireKeeps(c: Config, s: State, id: TaskId, now: int)
    requires Inv(c, s) && Enabled(s, Acquire(id, now))
    ensures Inv(c, Apply(c, s, Acquire(id, now)))
  {
    if !InCooldown(s.stamp, now, c.cooldown) {
      LogBegin(s.log, c.cooldown, id, now);
    }
  }

  lemma ReleaseKeeps(c: Config, s: State, id: TaskId, now: int, ok: bool)
    requires Inv(c, s) && InProgress(s, id)
    ensures Inv(c, Release(s, id, now, ok))
  {
    LogEnd(s.log, c.cooldown, Ended(id, now, ok, s.nodeUp));
  }

  lemma StepKeeps(c: Config, s: State, step: Step)
    requires Inv(c, s) && Enabled(s, step)
    ensures Inv(c, Apply(c, s, step))
  {
    match step
    case PullFailed(_, _, _) =>
    case OrphanFailed(_, _, _) =>
    case PullOk(_) =>
    case ReloadDevices(_) =>
    case Enter(_, _) =>
    case Acquire(id, now) => AcquireKeeps(c, s, id, now);
    case Stopped(id) => assert InProgress(s, id);
    case Drained(id) => assert InProgress(s, id);
    case Created(id) => assert InProgress(s, id);
    case Built(id, now) => ReleaseKeeps(c, s, id, now, true);
    case BuildFailed(id, now) => ReleaseKeeps(c, s, id, now, false);
  }

  lemma {:induction false} RunKeeps(c: Config, s: State, steps: seq<Step>, last: State)
    requires Inv(c, s) && RunsTo(c, s, steps, last)
    ensures Inv(c, last)
    decreases |steps|
  {
    if steps != [] {
      StepKeeps(c, s, steps[0]);
      RunKeeps(c, Apply(c, s, steps[0]), steps[1..], last);
    }
  }

  // ------------------------------------------------------------------ results

  /** However the coroutines interleave and whatever their clocks read: at most one rebuild is in progress, rebuilds
      do not overlap, and each begins at least the cooldown after the previous one ended, failed or not. */
  lemma OneAtATimeAfterCooldown(c: Config, peers: set<NodeId>, steps: seq<Step>, s: State)
    requires RunsTo(c, Start(peers), steps, s)
    ensures forall a, b :: InProgress(s, a) && InProgress(s, b) ==> a == b
    ensures LogOk(s.log, c.cooldown)
    ensures (exists id :: InProgress(s, id)) <==> |s.log| % 2 == 1
  {
    RunKeeps(c, Start(peers), steps, s);
    if s.lock.Some? {
      assert InProgress(s, s.lock.value);
    }
  }

  /** A task that is granted the lock rebuilds if and only if no rebuild ended yet or the cooldown since the
      last end is over: how long ago it passed the first test does not matter. */
  lemma GrantedRebuildsIff(c: Config, peers: set<NodeId>, steps: seq<Step>, s: State, id: TaskId, now: int)
    requires RunsTo(c, Start(peers), steps, s) && Enabled(s, Acquire(id, now))
    ensures InProgress(Apply(c, s, Acquire(id, now)), id) <==> s.log == [] || now - s.log[|s.log| - 1].at >= c.cooldown
  {
    RunKeeps(c, Start(peers), steps, s);
  }

  /** The node is down exactly while a rebuild has not yet created the new one, or after one that left none behind. */
  lemma NodeDownIff(c: Config, peers: set<NodeId>, steps: seq<Step>, s: State)
    requires RunsTo(c, Start(peers), steps, s)
    ensures !s.nodeUp <==>
      (exists id :: InProgress(s, id) && s.tasks[id] != Checking) ||
      (s.log != [] && s.log[|s.log| - 1].Ended? && !s.log[|s.log| - 1].node)
  {
    RunKeeps(c, Start(peers), steps, s);
    if s.lock.Some? {
      assert InProgress(s, s.lock.value);
    }
  }

  ghost predicate NoFailureOf(steps: seq<Step>, p: NodeId) {
    forall i :: 0 <= i < |steps| && steps[i].PullFailed? ==> steps[i].peer != p
  }

  /** A counter at 0 stays there until the next failed pull of its peer, reloads and further rebuilds included. */
  lemma {:induction false} CounterStaysZero(c: Config, s: State, steps: seq<Step>, last: State, p: NodeId)
    requires RunsTo(c, s, steps, last) && NoFailureOf(steps, p)
    requires p in s.failures ==> s.failures[p] == 0
    ensures p in last.failures ==> last.failures[p] == 0
    decreases |steps|
  {
    if steps != [] {
      assert NoFailureOf(steps[1..], p) by {
        assert forall i :: 0 <= i < |steps[1..]| ==> steps[1..][i] == steps[i + 1];
      }
      assert steps[0].PullFailed? ==> steps[0].peer != p;
      CounterStaysZero(c, Apply(c, s, steps[0]), steps[1..], last, p);
    }
  }

  /** When the rebuild in progress succeeds, the node is up, the lock is free and nobody else rebuilds; every
      loaded peer counts from 0 again, and stays at 0 until a pull of that peer fails. */
  lemma SuccessClearsCounters(c: Config, peers: set<NodeId>, steps: seq<Step>, s: State, id: TaskId, now: int,
                              more: seq<Step>, last: State, p: NodeId)
    requires RunsTo(c, Start(peers), steps, s) && Enabled(s, Built(id, now))
    requires RunsTo(c, Apply(c, s, Built(id, now)), more, last) && NoFailureOf(more, p)
    ensures var t := Apply(c, s, Built(id, now));
      && t.failures.Keys == s.failures.Keys && t.nodeUp && t.stamp == Some(now) && t.lock.None?
      && forall a :: !InProgress(t, a)
    ensures p in last.failures ==> last.failures[p] == 0
  {
    RunKeeps(c, Start(peers), steps, s);
    StepKeeps(c, s, Built(id, now));
    CounterStaysZero(c, Apply(c, s, Built(id, now)), more, last, p);
  }

  /** The failed pulls of p since its last good pull, device reload or successful rebuild, on top of `before`. */
  ghost function FailuresSince(steps: seq<Step>, p: NodeId, before: nat): nat
    decreases |steps|
  {
    if steps == [] then before else FailuresSince(steps[1..], p, CountedBy(steps[0], p, before))
  }

  ghost function CountedBy(step: Step, p: NodeId, before: nat): nat {
    if step == PullOk(p) || step.ReloadDevices? || step.Built? then 0
    else if step.PullFailed? && step.peer == p then before + 1
    else before
  }

  lemma {:induction false} CounterCounts(c: Config, s: State, steps: seq<Step>, last: State, p: NodeId, before: nat)
    requires RunsTo(c, s, steps, last) && (p in s.failures ==> s.failures[p] == before)
    ensures p in last.failures ==> last.failures[p] == FailuresSince(steps, p, before)
    decreases |steps|
  {
    if steps != [] {
      CounterCounts(c, Apply(c, s, steps[0]), steps[1..], last, p, CountedBy(steps[0], p, before));
    }
  }

  /** After any run, a failed pull of a loaded peer spawns a rebuild if and only if the peer is alive, rebuilds are
      enabled, and with this one enough pulls of it failed since its last good pull, device reload or rebuild. */
  lemma PullSpawnsIff(c: Config, peers: set<NodeId>, steps: seq<Step>, s: State, peer: NodeId, alive: bool, id: TaskId)
    requires RunsTo(c, Start(peers), steps, s) && Enabled(s, PullFailed(peer, alive, id)) && peer in s.failures
    ensures id in Apply(c, s, PullFailed(peer, alive, id)).tasks <==>
      alive && c.refreshAfter > 0 && FailuresSince(steps, peer, 0) + 1 >= c.refreshAfter
  {
    CounterCounts(c, Start(peers), steps, s, peer, 0);
  }

  ghost function Begins(log: seq<Event>): seq<int> {
    if log == [] then []
    else if log[|log| - 1].Began? then Begins(log[..|log| - 1]) + [log[|log| - 1].at]
    else Begins(log[..|log| - 1])
  }

  lemma {:induction false} BeginsSpaced(log: seq<Event>, cooldown: nat)
    requires LogOk(log, cooldown)
    requires forall i :: 0 < i < |log| ==> log[i - 1].at <= log[i].at
    ensures Rate.Spaced(Begins(log), cooldown)
    ensures |Begins(log)| == (|log| + 1) / 2
    ensures |log| >= 1 ==> Begins(log)[|Begins(log)| - 1] <= log[|log| - 1].at
    decreases |log|
  {
    if log != [] {
      BeginsSpaced(log[..|log| - 1], cooldown);
      if log[|log| - 1].Began? {
        Rate.SpacedSnoc(Begins(log[..|log| - 1]), cooldown, log[|log| - 1].at);
      }
    }
  }

  /** When the clock does not go back, a span of `span` seconds sees at most span / cooldown + 1 rebuilds begin. */
  lemma RebuildRate(c: Config, peers: set<NodeId>, steps: seq<Step>, s: State, i: nat, j: nat, span: nat)
    requires RunsTo(c, Start(peers), steps, s) && c.cooldown > 0
    requires forall k :: 0 < k < |s.log| ==> s.log[k - 1].at <= s.log[k].at
    requires i <= j < |Begins(s.log)| && Begins(s.log)[j] - Begins(s.log)[i] <= span
    ensures j - i + 1 <= span / c.cooldown + 1
  {
    RunKeeps(c, Start(peers), steps, s);
    BeginsSpaced(s.log, c.cooldown);
    Rate.AtMost(Begins(s.log), c.cooldown, i, j, span);
  }

  // -------------------------------------------------------------------- engine

  /** The engine's rebuild fields; each method is the code between two awaits of `_maybe_rebuild_iroh`. */
  class NodeRebuilder {
    const config: Config
    var failures: map<NodeId, nat>
    var lastRebuild: Option<int>
    var nodeUp: bool
    var lock: Option<TaskId>
    ghost var tasks: map<TaskId, Pc>
    ghost var log: seq<Event>

    ghost function View(): State
      reads this
    {
      State(failures, tasks, lock, lastRebuild, nodeUp, log)
    }

    ghost predicate Valid()
      reads this
    {
      Inv(config, View())
    }

    constructor (config: Config, peers: set<NodeId>)
      ensures Valid() && View() == Start(peers) && this.config == config
    {
      this.config := config;
      failures := map p | p in peers :: 0;
      lastRebuild, nodeUp, lock := None, true, None;
      tasks, log := map[], [];
    }

    /** `_record_pull_failure` on the state of a peer that is still loaded, or was not loaded at all: counts, and
        starts a rebuild once the threshold is reached by a peer that is alive. */
    method RecordPullFailure(peer: NodeId, alive: bool, id: TaskId) returns (spawned: bool)
      requires Valid() && Enabled(View(), PullFailed(peer, alive, id))
      modifies this
      ensures Valid() && View() == Apply(config, old(View()), PullFailed(peer, alive, id))
      ensures spawned <==> id in tasks
      ensures spawned <==>
        && alive && peer in old(failures)
        && config.refreshAfter > 0 && old(failures)[peer] + 1 >= config.refreshAfter
      ensures peer in failures ==> failures[peer] == old(failures)[peer] + 1
    {
      StepKeeps(config, View(), PullFailed(peer, alive, id));
      if peer !in failures {
        return false;
      }
      spawned := CountFailure(peer, alive, id);
    }

    method CountFailure(peer: NodeId, alive: bool, id: TaskId) returns (spawned: bool)
      requires peer in failures && id !in tasks
      modifies this
      ensures View() == Apply(config, old(View()), PullFailed(peer, alive, id))
      ensures spawned <==> id in tasks
      ensures spawned <==> alive && config.refreshAfter > 0 && old(failures)[peer] + 1 >= config.refreshAfter
    {
      failures := failures[peer := failures[peer] + 1];
      spawned := ThresholdReached(failures[peer], alive);
      if spawned {
        tasks := tasks[id := Spawned];
      }
    }

    /** The same on a state that a reload replaced while the pull was under way; it has failed `count` times before. */
    method RecordOrphanFailure(count: nat, alive: bool, id: TaskId) returns (spawned: bool)
      requires Valid() && Enabled(View(), OrphanFailed(count + 1, alive, id))
      modifies this
      ensures Valid() && View() == Apply(config, old(View()), OrphanFailed(count + 1, alive, id))
      ensures spawned <==> id in tasks
      ensures spawned <==> alive && config.refreshAfter > 0 && count + 1 >= config.refreshAfter
    {
      StepKeeps(config, View(), OrphanFailed(count + 1, alive, id));
      spawned := ThresholdReached(count + 1, alive);
      if spawned {
        tasks := tasks[id := Spawned];
      }
    }

    method ThresholdReached(count: nat, alive: bool) returns (reached: bool)
      ensures reached <==> 0 < config.refreshAfter <= count && alive
    {
      if config.refreshAfter <= 0 {
        return false;
      }
      if count < config.refreshAfter {
        return false;
      }
      reached := alive;
    }

    /** The test before the lock: whether the coroutine goes on to queue for it. */
    method PreCheck(id: TaskId, now: int) returns (goesOn: bool)
      requires Valid() && Enabled(View(), Enter(id, now))
      modifies this
      ensures Valid() && View() == Apply(config, old(View()), Enter(id, now))
      ensures goesOn <==> id in tasks
      ensures goesOn <==> lastRebuild == None || now - lastRebuild.value >= config.cooldown
    {
      StepKeeps(config, View(), Enter(id, now));
      if lastRebuild.Some? {
        var elapsed := now - lastRebuild.value;
        if elapsed < config.cooldown {
          tasks := tasks - {id};
          return false;
        }
      }
      tasks := tasks[id := Waiting];
      goesOn := true;
    }

    /** The lock is granted: the test again, and the old node is taken out of service. */
    method Granted(id: TaskId, now: int) returns (rebuilding: bool)
      requires Valid() && Enabled(View(), Acquire(id, now))
      modifies this
      ensures Valid() && View() == Apply(config, old(View()), Acquire(id, now))
      ensures rebuilding <==> InProgress(View(), id)
      ensures rebuilding <==> lastRebuild == None || now - lastRebuild.value >= config.cooldown
    {
      StepKeeps(config, View(), Acquire(id, now));
      if lastRebuild.Some? {
        var elapsed := now - lastRebuild.value;
        if elapsed < config.cooldown {
          tasks := tasks - {id};
          return false;
        }
      }
      var oldNode := nodeUp;
      nodeUp := false;
      lock := Some(id);
      tasks := tasks[id := if oldNode then Stopping else Draining];
      log := log + [Began(id, now)];
      rebuilding := true;
    }

    /** `_build_iroh_node` up to its identity check. */
    method NodeCreated(id: TaskId)
      requires Valid() && Enabled(View(), Created(id))
      modifies this
      ensures Valid() && View() == Apply(config, old(View()), Created(id))
    {
      StepKeeps(config, View(), Created(id));
      nodeUp := true;
      tasks := tasks[id := Checking];
    }

    /** The shutdown of the old node and then the 0.5 s sleep: no field of the engine changes. */
    ghost method Resume(id: TaskId)
      requires Valid() && (Enabled(View(), Stopped(id)) || Enabled(View(), Drained(id)))
      modifies this`tasks
      ensures Valid() && View() == Apply(config, old(View()), if old(tasks)[id] == Stopping then Stopped(id)
          else Drained(id))
    {
      StepKeeps(config, View(), if tasks[id] == Stopping then Stopped(id) else Drained(id));
      tasks := tasks[id := if tasks[id] == Stopping then Draining else Building];
    }

    /** After the build: on failure the stamp alone, on success every peer's counter as well. */
    method Finish(id: TaskId, now: int, ok: bool) returns (resetCount: nat)
      requires Valid() && Enabled(View(), if ok then Built(id, now) else BuildFailed(id, now))
      modifies this
      ensures Valid()
      ensures View() == Apply(config, old(View()), if ok then Built(id, now) else BuildFailed(id, now))
      ensures resetCount == if ok then |Failing(old(failures), old(failures).Keys)| else 0
    {
      StepKeeps(config, View(), if ok then Built(id, now) else BuildFailed(id, now));
      resetCount := 0;
      if ok {
        resetCount := ResetCounters();
      }
      lastRebuild, lock := Some(now), None;
      tasks, log := tasks - {id}, log + [Ended(id, now, ok, nodeUp)];
    }

    method ResetCounters() returns (resetCount: nat)
      modifies this`failures
      ensures failures == Zeroed(old(failures))
      ensures resetCount == |Failing(old(failures), old(failures).Keys)|
    {
      resetCount := 0;
      var todo := failures.Keys;
      ghost var done: set<NodeId> := {};
      while todo != {}
        invariant failures.Keys == old(failures).Keys && done + todo == failures.Keys && done !! todo
        invariant forall p :: p in failures ==> failures[p] == if p in done then 0 else old(failures)[p]
        invariant resetCount == |Failing(old(failures), done)|
      {
        ghost var member := Member(todo);
        var p :| p in todo;
        FailingSnoc(old(failures), done, p);
        if failures[p] > 0 {
          failures := failures[p := 0];
          resetCount := resetCount + 1;
        }
        todo, done := todo - {p}, done + {p};
      }
      assert done == old(failures).Keys;
    }
  }

  /** The peers of `s` with a failure on record. */
  ghost function Failing(failures: map<NodeId, nat>, s: set<NodeId>): set<NodeId> {
    set p | p in s && p in failures && failures[p] > 0
  }

  lemma FailingSnoc(failures: map<NodeId, nat>, s: set<NodeId>, p: NodeId)
    requires p in failures && p !in s
    ensures |Failing(failures, s + {p})| == |Failing(failures, s)| + (if failures[p] > 0 then 1 else 0)
  {
    assert Failing(failures, s + {p}) == Failing(failures, s) + (if failures[p] > 0 then {p} else {});
  }

}
