/** One monitored peer (src/engine.py, src/alpn/heartbeat.py, src/alpn/push.py): consecutive counters, the
    thresholds that move its status, and the state rebuilt from its probe history. */
module Liveness {
  import opened Common

  type Pos = n: nat | n > 0 witness 1

  const HISTORY_MAXLEN := 100

  /** `down_after` and `up_after` are at least 1, the flap dwell at least 0: the engine clamps them. */
  datatype Config = Config(downAfter: Pos, upAfter: Pos, dwell: nat)

  datatype Status = Unknown | Alive | Dead

  /** The outcome of a probe, or a push (always alive, without a round-trip time); also a row of the history. */
  datatype Observation = Observation(ts: int, rtt: Option<nat>, alive: bool)

  datatype Peer = Peer(status: Status, failures: nat, successes: nat, lastSeen: Option<int>, latency: seq<Observation>)

  const FreshPeer := Peer(Unknown, 0, 0, None, [])

  function Counted(p: Peer, o: Observation): Peer {
    var latency := LastN(p.latency + [o], HISTORY_MAXLEN);
    if o.alive then Peer(p.status, 0, p.successes + 1, Some(o.ts), latency)
    else Peer(p.status, p.failures + 1, 0, p.lastSeen, latency)
  }

  function NewStatus(c: Config, p: Peer, alive: bool): Status {
    if alive then (if p.status == Unknown || (p.status == Dead && p.successes >= c.upAfter) then Alive else p.status)
    else (if p.status == Alive && p.failures >= c.downAfter then Dead else p.status)
  }

  function Observe(c: Config, p: Peer, o: Observation): Peer {
    var q := Counted(p, o);
    q.(status := NewStatus(c, q, o.alive))
  }

  /** What a fresh peer becomes when it lives through the observations. */
  function Live(c: Config, rows: seq<Observation>): Peer {
    if rows == [] then FreshPeer else Observe(c, Live(c, rows[..|rows| - 1]), rows[|rows| - 1])
  }

  // -------------------------------------------------------------- thresholds

  ghost predicate ThresholdsHold(c: Config, p: Peer) {
    && (p.status == Alive ==> p.failures < c.downAfter)
    && (p.status == Dead ==> p.successes < c.upAfter)
  }

  /** The thresholds hold after every observation, and a transition happens with exactly the threshold count. */
  lemma ObserveKeeps(c: Config, p: Peer, o: Observation)
    requires ThresholdsHold(c, p)
    ensures ThresholdsHold(c, Observe(c, p, o))
    ensures Observe(c, p, o).status == Dead && p.status != Dead ==>
        p.status == Alive && !o.alive && Observe(c, p, o).failures == c.downAfter
    ensures Observe(c, p, o).status == Alive && p.status == Dead ==> o.alive && Observe(c, p, o).successes == c.upAfter
  {
  }

  // --------------------------------------------------------------- hydration

  /** How many rows at the end share the last row's status. */
  function TailRun(rows: seq<Observation>): (k: nat)
    ensures k <= |rows| && (rows != [] ==> k > 0)
  {
    var n := |rows| - 1;
    if rows == [] then 0
    else if n > 0 && rows[n - 1].alive == rows[n].alive then TailRun(rows[..n]) + 1
    else 1
  }

  function LastAlive(rows: seq<Observation>): Option<int> {
    var n := |rows| - 1;
    if rows == [] then None
    else if rows[n].alive then Some(rows[n].ts)
    else LastAlive(rows[..n])
  }

  /** It is the time of the newest success. */
  lemma {:induction false} LastAliveIs(rows: seq<Observation>)
    ensures LastAlive(rows) == None <==> !HasAlive(rows)
    ensures LastAlive(rows).Some? ==>
      exists i :: 0 <= i < |rows| && rows[i].alive && LastAlive(rows) == Some(rows[i].ts)
                  && All(rows, i + 1, |rows|, false)
    decreases |rows|
  {
    if rows != [] {
      var n := |rows| - 1;
      HasAliveButLast(rows);
      if rows[n].alive {
        assert All(rows, n + 1, |rows|, false);
      } else {
        LastAliveIs(rows[..n]);
        if LastAlive(rows[..n]).Some? {
          var i :| 0 <= i < n && rows[..n][i].alive && LastAlive(rows[..n]) == Some(rows[..n][i].ts)
            && All(rows[..n], i + 1, n, false);
          AllInPrefix(rows, n, i + 1, n, false);
          assert rows[i].alive && All(rows, i + 1, |rows|, false);
        }
      }
    }
  }

  /** The peer state a load rebuilds from rows that are oldest first. */
  function Hydrated(c: Config, rows: seq<Observation>): Peer {
    if rows == [] then FreshPeer else
      var run, latency, seen := TailRun(rows), LastN(rows, HISTORY_MAXLEN), LastAlive(rows);
      if rows[|rows| - 1].alive then Peer(Alive, 0, run, seen, latency)
      else Peer(if run >= c.downAfter then Dead else Unknown, run, 0, seen, latency)
  }

  ghost predicate HasAlive(rows: seq<Observation>) {
    exists i :: 0 <= i < |rows| && rows[i].alive
  }

  /** A load restores the counters, the latency deque and the last-seen time of the live machine, for all
      thresholds and histories. */
  lemma HydratedCounters(c: Config, rows: seq<Observation>)
    ensures Hydrated(c, rows).failures == Live(c, rows).failures
    ensures Hydrated(c, rows).successes == Live(c, rows).successes
    ensures Hydrated(c, rows).lastSeen == Live(c, rows).lastSeen
    ensures Hydrated(c, rows).latency == Live(c, rows).latency
  {
    LiveRuns(c, rows);
    LiveRecords(c, rows);
  }

  /** The live counters are the length of the run at the end. */
  lemma {:induction false} LiveRuns(c: Config, rows: seq<Observation>)
    ensures rows != [] ==>
      var up := rows[|rows| - 1].alive;
      && Live(c, rows).successes == (if up then TailRun(rows) else 0)
      && Live(c, rows).failures == (if up then 0 else TailRun(rows))
    decreases |rows|
  {
    if rows != [] {
      var n := |rows| - 1;
      LiveRuns(c, rows[..n]);
      assert n > 0 ==> rows[..n][n - 1] == rows[n - 1];
    }
  }

  lemma {:induction false} LiveRecords(c: Config, rows: seq<Observation>)
    ensures Live(c, rows).lastSeen == LastAlive(rows)
    ensures Live(c, rows).latency == LastN(rows, HISTORY_MAXLEN)
    decreases |rows|
  {
    if rows != [] {
      var n := |rows| - 1;
      LiveRecords(c, rows[..n]);
      LastNAppend(rows[..n], rows[n], HISTORY_MAXLEN);
      assert rows[..n] + [rows[n]] == rows;
    }
  }

  lemma HasAliveAppend(rows: seq<Observation>, o: Observation)
    ensures HasAlive(rows + [o]) <==> HasAlive(rows) || o.alive
  {
    if HasAlive(rows) {
      var i :| 0 <= i < |rows| && rows[i].alive;
      assert (rows + [o])[i].alive;
    }
    if o.alive {
      assert (rows + [o])[|rows|].alive;
    }
  }

  lemma HasAliveButLast(rows: seq<Observation>)
    requires rows != []
    ensures HasAlive(rows) <==> HasAlive(rows[..|rows| - 1]) || rows[|rows| - 1].alive
  {
    var n := |rows| - 1;
    assert rows == rows[..n] + [rows[n]];
    HasAliveAppend(rows[..n], rows[n]);
  }

  /** The live status is unknown until the first success and never again; enough failures in a row make it dead. */
  lemma {:induction false} LiveStatusFailing(c: Config, rows: seq<Observation>)
    ensures Live(c, rows).status == Unknown <==> !HasAlive(rows)
    ensures rows != [] && !rows[|rows| - 1].alive && HasAlive(rows) && TailRun(rows) >= c.downAfter ==>
        Live(c, rows).status == Dead
    decreases |rows|
  {
    if rows != [] {
      var n := |rows| - 1;
      HasAliveButLast(rows);
      LiveStatusFailing(c, rows[..n]);
      LiveRuns(c, rows);
      assert n > 0 ==> rows[..n][n - 1] == rows[n - 1];
    }
  }

  /** With k successes at the end, the live status is dead only when it was before them and k is too few. */
  lemma {:induction false} LiveStatusAlive(c: Config, rows: seq<Observation>)
    requires rows != [] && rows[|rows| - 1].alive
    ensures var k := TailRun(rows);
      Live(c, rows).status == if Live(c, rows[..|rows| - k]).status == Dead && k < c.upAfter then Dead else Alive
    decreases |rows|
  {
    var n, k := |rows| - 1, TailRun(rows);
    LiveRuns(c, rows);
    if k > 1 {
      assert rows[..n][n - 1] == rows[n - 1];
      LiveStatusAlive(c, rows[..n]);
      assert rows[..n][..n - (k - 1)] == rows[..|rows| - k];
    } else {
      LiveStatusAfterFailure(c, rows[..n]);
    }
  }

  /** A run that does not end with a success carries no successes, so one more makes exactly one. */
  lemma LiveStatusAfterFailure(c: Config, rows: seq<Observation>)
    ensures rows == [] || !rows[|rows| - 1].alive ==> Live(c, rows).successes == 0
  {
  }

  /** Rows [i, j) all have this outcome. */
  ghost predicate All(rows: seq<Observation>, i: int, j: int, alive: bool)
    requires 0 <= i <= j <= |rows|
  {
    forall k :: i <= k < j ==> rows[k].alive == alive
  }

  /** Row f is the last of `down_after` failures in a row, a success came before it, and from f on there are never
      `up_after` successes in a row. */
  ghost predicate DownAt(c: Config, rows: seq<Observation>, f: int) {
    && c.downAfter - 1 <= f < |rows|
    && All(rows, f + 1 - c.downAfter, f + 1, false)
    && HasAlive(rows[..f])
    && NeverUp(c, rows, f)
  }

  ghost predicate NeverUp(c: Config, rows: seq<Observation>, f: int)
    requires 0 <= f
  {
    forall g :: f < g ==> !UpFrom(c, rows, g)
  }

  ghost predicate UpFrom(c: Config, rows: seq<Observation>, g: int) {
    0 <= g && g + c.upAfter <= |rows| && All(rows, g, g + c.upAfter, true)
  }

  ghost predicate Down(c: Config, rows: seq<Observation>) {
    exists f :: DownAt(c, rows, f)
  }

  /** The tail run has at least k rows exactly when the last k rows agree with the last one. */
  lemma {:induction false} TailRunAtLeast(rows: seq<Observation>, k: nat)
    requires rows != [] && k <= |rows|
    ensures TailRun(rows) >= k <==> All(rows, |rows| - k, |rows|, rows[|rows| - 1].alive)
    decreases |rows|
  {
    var n := |rows| - 1;
    if k > 1 {
      assert rows[..n][n - 1] == rows[n - 1];
      if rows[n - 1].alive == rows[n].alive {
        TailRunAtLeast(rows[..n], k - 1);
        AllInPrefix(rows, n, |rows| - k, n, rows[n].alive);
        AllSplit(rows, |rows| - k, n, |rows|, rows[n].alive);
      } else {
        assert TailRun(rows) == 1;
      }
    }
  }

  lemma AllInPrefix(rows: seq<Observation>, n: nat, i: int, j: int, alive: bool)
    requires n <= |rows| && 0 <= i <= j <= n
    ensures All(rows[..n], i, j, alive) <==> All(rows, i, j, alive)
  {
    if All(rows[..n], i, j, alive) {
      forall k | i <= k < j ensures rows[k].alive == alive {
        assert rows[..n][k] == rows[k];
      }
    }
  }

  lemma AllSplit(rows: seq<Observation>, i: int, m: int, j: int, alive: bool)
    requires 0 <= i <= m <= j <= |rows|
    ensures All(rows, i, j, alive) <==> All(rows, i, m, alive) && All(rows, m, j, alive)
  {
  }

  /** What one more row does to a witness f among the rows before it. */
  lemma DownAtSnoc(c: Config, rows: seq<Observation>, f: int)
    requires rows != [] && f < |rows| - 1
    ensures var n := |rows| - 1;
      DownAt(c, rows, f) <==> DownAt(c, rows[..n], f) && !(rows[n].alive && TailRun(rows) >= c.upAfter)
  {
    var n := |rows| - 1;
    if c.downAfter - 1 <= f {
      AllInPrefix(rows, n, f + 1 - c.downAfter, f + 1, false);
      assert rows[..n][..f] == rows[..f];
      if All(rows, f + 1 - c.downAfter, f + 1, false) {
        NeverUpSnoc(c, rows, f);
      }
    }
  }

  lemma NeverUpSnoc(c: Config, rows: seq<Observation>, f: int)
    requires rows != [] && 0 <= f < |rows| - 1 && !rows[f].alive
    ensures var n := |rows| - 1;
      NeverUp(c, rows, f) <==> NeverUp(c, rows[..n], f) && !(rows[n].alive && TailRun(rows) >= c.upAfter)
  {
    var n, g := |rows| - 1, |rows| - c.upAfter;
    forall h ensures UpFrom(c, rows, h) <==> UpFrom(c, rows[..n], h) || (h == g && UpFrom(c, rows, g)) {
      if 0 <= h && h + c.upAfter <= n {
        AllInPrefix(rows, n, h, h + c.upAfter, true);
      }
    }
    UpAtEnd(c, rows, f);
  }

  /** The newest window is up exactly when the tail run is long enough; it cannot reach back over a failure. */
  lemma UpAtEnd(c: Config, rows: seq<Observation>, f: int)
    requires rows != [] && 0 <= f < |rows| && !rows[f].alive
    ensures var g := |rows| - c.upAfter;
      && (UpFrom(c, rows, g) <==> rows[|rows| - 1].alive && TailRun(rows) >= c.upAfter)
      && (UpFrom(c, rows, g) ==> f < g)
  {
    if c.upAfter <= |rows| {
      TailRunAtLeast(rows, c.upAfter);
      assert UpFrom(c, rows, |rows| - c.upAfter) ==> rows[|rows| - 1].alive;
    }
  }

  /** The last row itself is a witness exactly when it ends `down_after` failures after some success. */
  lemma DownAtLast(c: Config, rows: seq<Observation>)
    requires rows != []
    ensures DownAt(c, rows, |rows| - 1) <==> !rows[|rows| - 1].alive && TailRun(rows) >= c.downAfter && HasAlive(rows)
  {
    var n := |rows| - 1;
    HasAliveButLast(rows);
    if c.downAfter <= |rows| {
      TailRunAtLeast(rows, c.downAfter);
      assert All(rows, n + 1 - c.downAfter, n + 1, false) ==> rows[n].alive == false;
    }
  }

  /** The live machine says DEAD exactly when the rows hold such an f. */
  lemma {:induction false} LiveDeadIff(c: Config, rows: seq<Observation>)
    ensures Live(c, rows).status == Dead <==> Down(c, rows)
    decreases |rows|
  {
    if rows != [] {
      var n := |rows| - 1;
      LiveDeadIff(c, rows[..n]);
      LiveRuns(c, rows);
      LiveStatusFailing(c, rows);
      LiveStatusFailing(c, rows[..n]);
      HasAliveButLast(rows);
      DownAtLast(c, rows);
      if Down(c, rows) {
        var f :| DownAt(c, rows, f);
        if f < n {
          DownAtSnoc(c, rows, f);
        }
      }
      if Down(c, rows[..n]) {
        var f :| DownAt(c, rows[..n], f);
        DownAtSnoc(c, rows, f);
      }
    }
  }

  /** The live status in terms of the rows alone, for all thresholds and histories. */
  lemma LiveStatusIs(c: Config, rows: seq<Observation>)
    ensures Live(c, rows).status == if !HasAlive(rows) then Unknown else if Down(c, rows) then Dead else Alive
  {
    LiveDeadIff(c, rows);
    LiveStatusFailing(c, rows);
  }

  /** Exactly when a load restores the live status too, read off the rows: after a failing tail, when the tail
      reached `down_after` if and only if there is a success; after a succeeding tail, when the peer is not
      still down. */
  lemma StatusRestoredIff(c: Config, rows: seq<Observation>)
    ensures Hydrated(c, rows).status == Live(c, rows).status <==>
      rows == [] ||
      (if rows[|rows| - 1].alive then !Down(c, rows) else (HasAlive(rows) <==> TailRun(rows) >= c.downAfter))
  {
    LiveStatusIs(c, rows);
    LiveStatusFailing(c, rows);
  }

  /** With the default thresholds one failing probe after a success is enough to lose the status. */
  lemma ShortTailLosesStatus()
    ensures var c, rows := Config(3, 1, 60), [Observation(0, None, true), Observation(30, None, false)];
      Live(c, rows).status == Alive && Hydrated(c, rows).status == Unknown
  {
    var c, rows := Config(3, 1, 60), [Observation(0, None, true), Observation(30, None, false)];
    assert rows[0].alive && HasAlive(rows);
    OnlyShortFailingTailsDiffer(c, rows);
  }

  /** And with `up_after` = 2 one success is enough for a load to forget that the peer is down. */
  lemma ShortRecoveryLosesStatus()
    ensures var c := Config(1, 2, 60);
      var rows := [Observation(0, None, true), Observation(30, None, false), Observation(60, None, true)];
      Live(c, rows).status == Dead && Hydrated(c, rows).status == Alive
  {
    var c := Config(1, 2, 60);
    var rows := [Observation(0, None, true), Observation(30, None, false), Observation(60, None, true)];
    assert rows[..1][0].alive && HasAlive(rows[..1]);
    assert DownAt(c, rows, 1);
    LiveDeadIff(c, rows);
  }

  /** With `up_after` = 1 and a success on record only one difference is left: a failing tail shorter than
      `down_after` is loaded as unknown where the live machine still says alive. */
  lemma OnlyShortFailingTailsDiffer(c: Config, rows: seq<Observation>)
    requires c.upAfter == 1 && HasAlive(rows)
    ensures Hydrated(c, rows).status != Live(c, rows).status <==> !rows[|rows| - 1].alive && TailRun(rows) < c.downAfter
    ensures Hydrated(c, rows).status != Live(c, rows).status ==>
      Hydrated(c, rows).status == Unknown && Live(c, rows).status == Alive
  {
    StatusRestoredIff(c, rows);
    LiveStatusFailing(c, rows);
    LiveThresholds(c, rows);
    if rows[|rows| - 1].alive {
      LiveStatusAlive(c, rows);
    } else if TailRun(rows) < c.downAfter {
      LiveStatusShortTail(c, rows);
    }
  }

  lemma {:induction false} LiveThresholds(c: Config, rows: seq<Observation>)
    ensures ThresholdsHold(c, Live(c, rows))
    decreases |rows|
  {
    if rows != [] {
      LiveThresholds(c, rows[..|rows| - 1]);
      ObserveKeeps(c, Live(c, rows[..|rows| - 1]), rows[|rows| - 1]);
    }
  }

  lemma {:induction false} LiveStatusShortTail(c: Config, rows: seq<Observation>)
    requires c.upAfter == 1 && HasAlive(rows)
    requires rows[|rows| - 1].alive || TailRun(rows) < c.downAfter
    ensures Live(c, rows).status == Alive
    decreases |rows|
  {
    var n := |rows| - 1;
    LiveRuns(c, rows);
    if rows[n].alive {
      LiveStatusAlive(c, rows);
    } else {
      HasAliveButLast(rows);
      assert n > 0 ==> rows[..n][n - 1] == rows[n - 1];
      LiveStatusShortTail(c, rows[..n]);
    }
  }

  lemma HydratedKeeps(c: Config, rows: seq<Observation>)
    ensures ThresholdsHold(c, Hydrated(c, rows))
  {
  }

  // --------------------------------------------------------------- the class

  class PeerState {
    var currentStatus: Status
    var consecutiveFailures: nat
    var consecutiveSuccesses: nat
    var lastSeen: Option<int>
    var latencyHistory: seq<Observation>

    ghost function View(): Peer
      reads this
    {
      Peer(currentStatus, consecutiveFailures, consecutiveSuccesses, lastSeen, latencyHistory)
    }

    constructor ()
      ensures View() == FreshPeer
    {
      currentStatus, consecutiveFailures, consecutiveSuccesses, lastSeen, latencyHistory := Unknown, 0, 0, None, [];
    }

    /** The bookkeeping of a finished probe or an accepted push. */
    method Record(o: Observation)
      modifies this
      ensures View() == Counted(old(View()), o)
    {
      if o.alive {
        lastSeen := Some(o.ts);
        consecutiveFailures := 0;
        consecutiveSuccesses := consecutiveSuccesses + 1;
      } else {
        consecutiveFailures := consecutiveFailures + 1;
        consecutiveSuccesses := 0;
      }
      latencyHistory := LastN(latencyHistory + [o], HISTORY_MAXLEN);
    }

    /** The head of `_maybe_transition`: the previous status, and whether it changed. */
    method Transition(c: Config, alive: bool) returns (prev: Status, changed: bool)
      modifies this`currentStatus
      ensures prev == old(currentStatus) && (changed <==> currentStatus != prev)
      ensures View() == old(View()).(status := NewStatus(c, old(View()), alive))
    {
      prev := currentStatus;
      var newState: Option<Status> := None;
      if alive {
        if prev == Unknown {
          newState := Some(Alive);
        } else if prev != Alive && consecutiveSuccesses >= c.upAfter {
          newState := Some(Alive);
        }
      } else if prev == Alive && consecutiveFailures >= c.downAfter {
        newState := Some(Dead);
      }
      if newState.None? || newState.value == prev {
        return prev, false;
      }
      currentStatus := newState.value;
      changed := true;
    }

    /** `_hydrate_state_from_history` for the rows the history returned. */
    method Hydrate(c: Config, rows: seq<Observation>)
      requires View() == FreshPeer
      modifies this
      ensures View() == Hydrated(c, rows)
    {
      if rows == [] {
        return;
      }
      latencyHistory := LastN(rows, HISTORY_MAXLEN);
      lastSeen := ScanLastAlive(rows);
      var run := ScanTailRun(rows);
      if rows[|rows| - 1].alive {
        consecutiveSuccesses, consecutiveFailures, currentStatus := run, 0, Alive;
      } else {
        consecutiveFailures, consecutiveSuccesses := run, 0;
        currentStatus := if run >= c.downAfter then Dead else Unknown;
      }
    }
  }

  /** The backward scan for the newest success. */
  method ScanLastAlive(rows: seq<Observation>) returns (seen: Option<int>)
    ensures seen == LastAlive(rows)
  {
    var i := |rows|;
    assert rows[..i] == rows;
    while i > 0
      invariant 0 <= i <= |rows| && LastAlive(rows[..i]) == LastAlive(rows)
    {
      i := i - 1;
      if rows[i].alive {
        return Some(rows[i].ts);
      }
      assert rows[..i + 1][..i] == rows[..i];
    }
    seen := None;
  }

  /** The backward scan that stops at the first row of another status. */
  method ScanTailRun(rows: seq<Observation>) returns (run: nat)
    requires rows != []
    ensures run == TailRun(rows)
  {
    var tailStatus := rows[|rows| - 1].alive;
    var i := |rows|;
    run := 0;
    assert rows[..i] == rows;
    while i > 0
      invariant 0 <= i <= |rows| && run == |rows| - i
      invariant i > 0 && rows[i - 1].alive == tailStatus ==> run + TailRun(rows[..i]) == TailRun(rows)
      invariant i == 0 || rows[i - 1].alive != tailStatus ==> run == TailRun(rows)
    {
      if rows[i - 1].alive != tailStatus {
        return;
      }
      assert rows[..i][..i - 1] == rows[..i - 1];
      i := i - 1;
      run := run + 1;
    }
  }
}
