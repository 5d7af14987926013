/** Paging across restarts: when two monitor_down entries of a peer have a success between them. */
module Paging {
  import opened Common
  import opened Liveness
  import opened Engine

  ghost predicate IsSuccess(e: Event, n: NodeId) { e.Seen? && e.node == n && e.o.alive }
  ghost predicate IsDown(e: Event, n: NodeId) { e.Logged? && e.node == n && e.down }

  ghost predicate NoDown(events: seq<Event>, n: NodeId) {
    forall i :: 0 <= i < |events| ==> !IsDown(events[i], n)
  }

  ghost predicate SuccessBetween(trace: seq<Event>, n: NodeId, i: int, j: int)
    requires -1 <= i && j <= |trace|
  {
    exists k :: i < k < j && IsSuccess(trace[k], n)
  }

  /** Any two pages of n have a success between them. */
  ghost predicate NoDoublePage(trace: seq<Event>, n: NodeId) {
    forall i, j :: 0 <= i < j < |trace| && IsDown(trace[i], n) && IsDown(trace[j], n) ==> SuccessBetween(trace, n, i, j)
  }

  /** n was not paged before it was seen alive. */
  ghost predicate AliveBeforePage(trace: seq<Event>, n: NodeId) {
    forall j :: 0 <= j < |trace| && IsDown(trace[j], n) ==> SuccessBetween(trace, n, -1, j)
  }

  /** n was seen alive after its last page, if any. */
  ghost predicate SuccessSince(trace: seq<Event>, n: NodeId) {
    exists k :: 0 <= k < |trace| && IsSuccess(trace[k], n) && NoDownFrom(trace, k, n)
  }

  ghost predicate NoDownFrom(trace: seq<Event>, k: nat, n: NodeId) {
    forall m :: k < m < |trace| ==> !IsDown(trace[m], n)
  }

  // ------------------------------------------------------ what a step appends

  /** Only a failing observation of a peer that is alive can page it, right behind itself. */
  lemma AddedShape(c: Config, s: State, n: NodeId, o: Observation, m: NodeId)
    ensures Process(c, s, n, o).trace == s.trace + Added(c, s, n, o)
    ensures m != n || o.alive || Lookup(s, n).status != Alive ==> NoDown(Added(c, s, n, o), m)
    ensures Observe(c, Lookup(s, n), o).status == Alive ==> NoDown(Added(c, s, n, o), m)
    ensures forall i :: 0 <= i < |Added(c, s, n, o)| && IsDown(Added(c, s, n, o)[i], m) ==> i == 1 && m == n && !o.alive
  {
  }

  lemma BetweenGrows(trace: seq<Event>, added: seq<Event>, n: NodeId, i: int, j: int)
    requires -1 <= i && j <= |trace| && SuccessBetween(trace, n, i, j)
    ensures SuccessBetween(trace + added, n, i, j)
  {
    var k :| i < k < j && IsSuccess(trace[k], n);
    assert IsSuccess((trace + added)[k], n);
  }

  lemma SinceGrows(trace: seq<Event>, added: seq<Event>, n: NodeId)
    requires SuccessSince(trace, n) && NoDown(added, n)
    ensures SuccessSince(trace + added, n)
  {
    var k :| 0 <= k < |trace| && IsSuccess(trace[k], n) && NoDownFrom(trace, k, n);
    assert IsSuccess((trace + added)[k], n) && NoDownFrom(trace + added, k, n);
  }

  lemma NewSuccess(trace: seq<Event>, added: seq<Event>, n: NodeId)
    requires added != [] && IsSuccess(added[0], n) && NoDown(added, n)
    ensures SuccessSince(trace + added, n) && SuccessBetween(trace + added, n, -1, |trace + added|)
  {
    var all := trace + added;
    assert IsSuccess(all[|trace|], n) && NoDownFrom(all, |trace|, n);
  }

  /** A success after the last page is one between every earlier page and whatever comes next. */
  lemma SinceIsBetween(trace: seq<Event>, n: NodeId, i: nat)
    requires SuccessSince(trace, n) && i < |trace| && IsDown(trace[i], n)
    ensures SuccessBetween(trace, n, i, |trace|)
  {
    var k :| 0 <= k < |trace| && IsSuccess(trace[k], n) && NoDownFrom(trace, k, n);
    assert IsSuccess(trace[k], n);
  }

  // ------------------------------------------- a page needs an earlier success

  ghost predicate EverAlive(trace: seq<Event>, n: NodeId) { SuccessBetween(trace, n, -1, |trace|) }

  ghost predicate Evidence(s: State, n: NodeId) {
    && AliveBeforePage(s.trace, n)
    && (n in s.devices && s.devices[n].status == Alive ==> EverAlive(s.trace, n))
    && (HasAlive(RowsOf(s.history, n)) ==> EverAlive(s.trace, n))
  }

  lemma AliveRowSnoc(history: seq<Row>, row: Row, n: NodeId)
    ensures HasAlive(RowsOf(history + [row], n)) <==> HasAlive(RowsOf(history, n)) || (row.node == n && row.o.alive)
  {
    var rows := RowsOf(history, n);
    CollectSnoc(history, row, OfNode(n));
    if row.node == n {
      HasAliveAppend(rows, row.o);
    }
  }

  lemma PageAppended(trace: seq<Event>, added: seq<Event>, n: NodeId)
    requires AliveBeforePage(trace, n) && (NoDown(added, n) || EverAlive(trace, n))
    ensures AliveBeforePage(trace + added, n)
  {
    var all := trace + added;
    forall j | 0 <= j < |all| && IsDown(all[j], n) ensures SuccessBetween(all, n, -1, j) {
      if j < |trace| {
        BetweenGrows(trace, added, n, -1, j);
      } else {
        assert IsDown(added[j - |trace|], n);
        var k :| -1 < k < |trace| && IsSuccess(trace[k], n);
        assert IsSuccess(all[k], n);
      }
    }
  }

  lemma EverAliveGrows(trace: seq<Event>, added: seq<Event>, n: NodeId)
    requires EverAlive(trace, n)
    ensures EverAlive(trace + added, n)
  {
    var k :| -1 < k < |trace| && IsSuccess(trace[k], n);
    assert IsSuccess((trace + added)[k], n);
  }

  lemma ProcessKeepsEvidence(c: Config, s: State, m: NodeId, o: Observation, n: NodeId)
    requires Evidence(s, n)
    ensures Evidence(Process(c, s, m, o), n)
  {
    var added := Added(c, s, m, o);
    AddedShape(c, s, m, o, n);
    PageAppended(s.trace, added, n);
    AliveRowSnoc(s.history, Row(m, o), n);
    if EverAlive(s.trace, n) {
      EverAliveGrows(s.trace, added, n);
    } else if m == n && o.alive {
      NewSuccess(s.trace, added, n);
    }
  }

  lemma SinceKeepsRows(rows: seq<Observation>, cutoff: int, r: Observation)
    requires r in Since(rows, cutoff)
    ensures r in rows && r.ts >= cutoff
  {
    var k :| 0 <= k < |Since(rows, cutoff)| && Since(rows, cutoff)[k] == r;
    var i := Collected(rows, NotBefore(cutoff), k);
    assert rows[i] == r;
  }

  lemma RecentIsWritten(history: seq<Row>, n: NodeId, now: int, r: Observation)
    requires r in Recent(history, n, now)
    ensures r in RowsOf(history, n)
  {
    var within := Since(RowsOf(history, n), now - DAY);
    SortOrders(within);
    assert r in multiset(SortByTs(within));
    SinceKeepsRows(RowsOf(history, n), now - DAY, r);
  }

  lemma LoadKeepsEvidence(c: Config, s: State, now: int, n: NodeId)
    requires Evidence(s, n)
    ensures Evidence(s.(devices := Loaded(c, s, now)), n)
  {
    var rows := Recent(s.history, n, now);
    if n in s.trust.monitored && Hydrated(c, rows).status == Alive {
      RecentIsWritten(s.history, n, now, rows[|rows| - 1]);
    }
  }

  /** Pruning the table prunes each peer's rows. */
  lemma {:induction false} PruneKeepsRows(history: seq<Row>, cutoff: int, n: NodeId)
    ensures RowsOf(PruneHistory(history, cutoff), n) == Since(RowsOf(history, n), cutoff)
    decreases |history|
  {
    if history != [] {
      var last, init := history[|history| - 1], history[..|history| - 1];
      assert history == init + [last];
      PruneKeepsRows(init, cutoff, n);
      CollectSnoc(init, last, RowNotBefore(cutoff));
      CollectSnoc(init, last, OfNode(n));
      PruneKeepsLast(PruneHistory(init, cutoff), RowsOf(init, n), last, cutoff, n);
    }
  }

  lemma PruneKeepsLast(kept: seq<Row>, rows: seq<Observation>, last: Row, cutoff: int, n: NodeId)
    requires RowsOf(kept, n) == Since(rows, cutoff)
    ensures RowsOf(if last.o.ts >= cutoff then kept + [last] else kept, n) ==
            Since(if last.node == n then rows + [last.o] else rows, cutoff)
  {
    CollectSnoc(kept, last, OfNode(n));
    CollectSnoc(rows, last.o, NotBefore(cutoff));
  }

  lemma GcKeepsEvidence(c: Config, s: State, cutoff: int, n: NodeId)
    requires Evidence(s, n)
    ensures Evidence(Apply(c, s, Gc(cutoff)), n)
  {
    var rows, kept := RowsOf(s.history, n), Since(RowsOf(s.history, n), cutoff);
    PruneKeepsRows(s.history, cutoff, n);
    if HasAlive(kept) {
      var i :| 0 <= i < |kept| && kept[i].alive;
      SinceKeepsRows(rows, cutoff, kept[i]);
    }
  }

  lemma StepKeepsEvidence(c: Config, s: State, step: Step, n: NodeId)
    requires Evidence(s, n)
    ensures Evidence(Apply(c, s, step), n)
  {
    match step
    case Probed(m, o) => ProcessKeepsEvidence(c, s, m, o, n);
    case Pushed(m, now) => ProcessKeepsEvidence(c, s, m, Observation(now, None, true), n);
    case Reload(now) => LoadKeepsEvidence(c, s, now, n);
    case Restart(now) => LoadKeepsEvidence(c, s, now, n);
    case Gc(cutoff) => GcKeepsEvidence(c, s, cutoff, n);
    case SetTrust(_) =>
  }

  lemma {:induction false} RunKeepsEvidence(c: Config, s: State, steps: seq<Step>, n: NodeId)
    requires Evidence(s, n)
    ensures Evidence(Run(c, s, steps), n)
    decreases |steps|
  {
    if steps != [] {
      StepKeepsEvidence(c, s, steps[0], n);
      RunKeepsEvidence(c, Apply(c, s, steps[0]), steps[1..], n);
    }
  }

  /** In every run of probes, pushes, reloads, restarts, prunes and trust changes, whatever the clock does: a
      peer that was never observed alive is never paged. */
  lemma NeverAliveNeverPaged(c: Config, trust: Trust, steps: seq<Step>, n: NodeId)
    ensures AliveBeforePage(Run(c, Start(trust), steps).trace, n)
  {
    RunKeepsEvidence(c, Start(trust), steps, n);
  }

  // --------------------------------------------- a success between two pages

  /** A load at `now` takes n for alive only if it was seen alive since its last page. */
  ghost predicate SaneLoad(s: State, n: NodeId, now: int) {
    var rows := Recent(s.history, n, now);
    n in s.trust.monitored && rows != [] && rows[|rows| - 1].alive ==> SuccessSince(s.trace, n)
  }

  ghost predicate Sane(s: State, n: NodeId, step: Step) {
    match step
    case Reload(now) => SaneLoad(s, n, now)
    case Restart(now) => SaneLoad(s, n, now)
    case _ => true
  }

  ghost predicate SaneRun(c: Config, s: State, n: NodeId, steps: seq<Step>)
    decreases |steps|
  {
    steps == [] || (Sane(s, n, steps[0]) && SaneRun(c, Apply(c, s, steps[0]), n, steps[1..]))
  }

  ghost predicate Single(s: State, n: NodeId) {
    && NoDoublePage(s.trace, n)
    && (n in s.devices && s.devices[n].status == Alive ==> SuccessSince(s.trace, n))
  }

  lemma SecondPage(trace: seq<Event>, added: seq<Event>, n: NodeId)
    requires NoDoublePage(trace, n)
    requires NoDown(added, n) || SuccessSince(trace, n)
    requires forall i :: 0 <= i < |added| && IsDown(added[i], n) ==> i == 1
    ensures NoDoublePage(trace + added, n)
  {
    var all := trace + added;
    assert forall i :: |trace| <= i < |all| && IsDown(all[i], n) ==> i == |trace| + 1;
    forall i, j | 0 <= i < j < |all| && IsDown(all[i], n) && IsDown(all[j], n) ensures SuccessBetween(all, n, i, j) {
      if j < |trace| {
        BetweenGrows(trace, added, n, i, j);
      } else {
        assert IsDown(added[j - |trace|], n);
        SinceIsBetween(trace, n, i);
        var k :| i < k < |trace| && IsSuccess(trace[k], n);
        assert IsSuccess(all[k], n);
      }
    }
  }

  lemma ProcessKeepsSingle(c: Config, s: State, m: NodeId, o: Observation, n: NodeId)
    requires Single(s, n)
    ensures Single(Process(c, s, m, o), n)
  {
    var added := Added(c, s, m, o);
    AddedShape(c, s, m, o, n);
    SecondPage(s.trace, added, n);
    if n in s.devices && Process(c, s, m, o).devices[n].status == Alive {
      if m == n && o.alive {
        NewSuccess(s.trace, added, n);
      } else {
        SinceGrows(s.trace, added, n);
      }
    }
  }

  lemma {:induction false} SaneRunKeepsSingle(c: Config, s: State, steps: seq<Step>, n: NodeId)
    requires Single(s, n) && SaneRun(c, s, n, steps)
    ensures Single(Run(c, s, steps), n)
    decreases |steps|
  {
    if steps != [] {
      match steps[0] {
        case Probed(m, o) => ProcessKeepsSingle(c, s, m, o, n);
        case Pushed(m, now) => ProcessKeepsSingle(c, s, m, Observation(now, None, true), n);
        case _ =>
      }
      SaneRunKeepsSingle(c, Apply(c, s, steps[0]), steps[1..], n);
    }
  }

  /** If no load takes n for alive without a success since its last page, n is never paged twice without one. */
  lemma SaneRunsPageOnce(c: Config, trust: Trust, steps: seq<Step>, n: NodeId)
    requires SaneRun(c, Start(trust), n, steps)
    ensures NoDoublePage(Run(c, Start(trust), steps).trace, n)
  {
    SaneRunKeepsSingle(c, Start(trust), steps, n);
  }

  // -------------------------------------------------- observations in order

  ghost function SeenOf(n: NodeId): Event -> Option<Observation> {
    (e: Event) => if e.Seen? && e.node == n then Some(e.o) else None
  }

  ghost function ObservationsOf(trace: seq<Event>, n: NodeId): seq<Observation> {
    Collect(trace, SeenOf(n))
  }

  /** An observation is not older than those processed before it; probes are stamped when they begin, pushes
      when they arrive, so this is not automatic. */
  ghost predicate Timely(s: State, n: NodeId, step: Step) {
    var before := ObservationsOf(s.trace, n);
    match step
    case Probed(m, o) => m == n && before != [] ==> before[|before| - 1].ts <= o.ts
    case Pushed(m, now) => m == n && before != [] ==> before[|before| - 1].ts <= now
    case _ => true
  }

  ghost predicate TimelyRun(c: Config, s: State, n: NodeId, steps: seq<Step>)
    decreases |steps|
  {
    steps == [] || (Timely(s, n, steps[0]) && TimelyRun(c, Apply(c, s, steps[0]), n, steps[1..]))
  }

  ghost predicate Suffix(a: seq<Observation>, b: seq<Observation>) {
    |a| <= |b| && forall i :: 0 <= i < |a| ==> a[i] == b[|b| - |a| + i]
  }

  /** Every page of n stands right behind a failing observation of n. */
  ghost predicate PagesFollowFailures(trace: seq<Event>, n: NodeId) {
    forall j :: 0 <= j < |trace| && IsDown(trace[j], n) ==>
      j > 0 && trace[j - 1].Seen? && trace[j - 1].node == n && !trace[j - 1].o.alive
  }

  ghost predicate Ordered(s: State, n: NodeId) {
    && InOrder(ObservationsOf(s.trace, n))
    && Suffix(RowsOf(s.history, n), ObservationsOf(s.trace, n))
    && PagesFollowFailures(s.trace, n)
  }

  lemma AddedObservations(c: Config, s: State, m: NodeId, o: Observation, n: NodeId)
    ensures ObservationsOf(Added(c, s, m, o), n) == if m == n then [o] else []
  {
    CollectAdded(c, s, m, o, SeenOf(n));
  }

  lemma InOrderSnoc(rows: seq<Observation>, o: Observation)
    requires InOrder(rows) && (rows != [] ==> rows[|rows| - 1].ts <= o.ts)
    ensures InOrder(rows + [o])
  {
  }

  lemma SuffixSnoc(a: seq<Observation>, b: seq<Observation>, o: Observation)
    requires Suffix(a, b)
    ensures Suffix(a + [o], b + [o])
  {
  }

  lemma ProcessKeepsOrdered(c: Config, s: State, m: NodeId, o: Observation, n: NodeId)
    requires Ordered(s, n)
    requires var before := ObservationsOf(s.trace, n); m == n && before != [] ==> before[|before| - 1].ts <= o.ts
    ensures Ordered(Process(c, s, m, o), n)
  {
    var added, rows, obs := Added(c, s, m, o), RowsOf(s.history, n), ObservationsOf(s.trace, n);
    AddedShape(c, s, m, o, n);
    AddedObservations(c, s, m, o, n);
    CollectAppend(s.trace, added, SeenOf(n));
    CollectSnoc(s.history, Row(m, o), OfNode(n));
    PagesFollowAppended(s.trace, added, n);
    if m == n {
      InOrderSnoc(obs, o);
      SuffixSnoc(rows, obs, o);
    } else {
      assert rows + [] == rows && obs + [] == obs;
    }
  }

  lemma PagesFollowAppended(trace: seq<Event>, added: seq<Event>, n: NodeId)
    requires PagesFollowFailures(trace, n)
    requires forall i :: 0 <= i < |added| && IsDown(added[i], n) ==>
      i == 1 && added[0].Seen? && added[0].node == n && !added[0].o.alive
    ensures PagesFollowFailures(trace + added, n)
  {
    var all := trace + added;
    forall j | 0 <= j < |all| && IsDown(all[j], n)
      ensures j > 0 && all[j - 1].Seen? && all[j - 1].node == n && !all[j - 1].o.alive
    {
      if j >= |trace| {
        assert IsDown(added[j - |trace|], n) && all[j - 1] == added[0];
      }
    }
  }

  /** Among rows in order, those since a cutoff are the last ones. */
  lemma {:induction false} SinceIsSuffix(rows: seq<Observation>, cutoff: int)
    requires InOrder(rows)
    ensures Suffix(Since(rows, cutoff), rows)
    decreases |rows|
  {
    if rows != [] {
      var n := |rows| - 1;
      assert rows == rows[..n] + [rows[n]];
      CollectSnoc(rows[..n], rows[n], NotBefore(cutoff));
      PrefixInOrder(rows, n);
      SinceIsSuffix(rows[..n], cutoff);
      if rows[n].ts >= cutoff {
        SuffixSnoc(Since(rows[..n], cutoff), rows[..n], rows[n]);
      } else {
        SinceNothing(rows, cutoff);
      }
    }
  }

  lemma {:induction false} SinceNothing(rows: seq<Observation>, cutoff: int)
    requires forall i :: 0 <= i < |rows| ==> rows[i].ts < cutoff
    ensures Since(rows, cutoff) == []
    decreases |rows|
  {
    if rows != [] {
      SinceNothing(rows[..|rows| - 1], cutoff);
    }
  }

  lemma SuffixInOrder(a: seq<Observation>, b: seq<Observation>)
    requires Suffix(a, b) && InOrder(b)
    ensures InOrder(a)
    ensures a != [] ==> b != [] && a[|a| - 1] == b[|b| - 1]
  {
  }

  lemma SuffixOfSuffix(a: seq<Observation>, b: seq<Observation>, c: seq<Observation>)
    requires Suffix(a, b) && Suffix(b, c)
    ensures Suffix(a, c)
  {
  }

  /** If the last observation of n succeeded, n was seen alive since its last page. */
  lemma {:induction false} LastAliveIsSince(trace: seq<Event>, n: NodeId)
    requires PagesFollowFailures(trace, n)
    requires var obs := ObservationsOf(trace, n); obs != [] && obs[|obs| - 1].alive
    ensures SuccessSince(trace, n)
    decreases |trace|
  {
    var init, last := trace[..|trace| - 1], trace[|trace| - 1];
    assert trace == init + [last];
    CollectSnoc(init, last, SeenOf(n));
    if last.Seen? && last.node == n {
      assert NoDown([last], n);
      NewSuccess(init, [last], n);
    } else {
      LastAliveIsSince(init, n);
      assert !IsDown(last, n);
      SinceGrows(init, [last], n);
    }
  }

  /** In ordered rows the newest row of the last day is the last observation. */
  lemma RecentEndsLast(history: seq<Row>, obs: seq<Observation>, n: NodeId, now: int)
    requires InOrder(obs) && Suffix(RowsOf(history, n), obs)
    ensures var rows := Recent(history, n, now);
      rows != [] ==> obs != [] && rows[|rows| - 1] == obs[|obs| - 1]
  {
    var rows := RowsOf(history, n);
    var within := Since(rows, now - DAY);
    SuffixInOrder(rows, obs);
    SinceIsSuffix(rows, now - DAY);
    SuffixInOrder(within, rows);
    SortKeepsOrdered(within);
  }

  lemma OrderedLoadIsSane(s: State, n: NodeId, now: int)
    requires Ordered(s, n)
    ensures SaneLoad(s, n, now)
  {
    var rows := Recent(s.history, n, now);
    RecentEndsLast(s.history, ObservationsOf(s.trace, n), n, now);
    if rows != [] && rows[|rows| - 1].alive {
      LastAliveIsSince(s.trace, n);
    }
  }

  lemma PrunedIsSuffix(history: seq<Row>, obs: seq<Observation>, cutoff: int, n: NodeId)
    requires InOrder(obs) && Suffix(RowsOf(history, n), obs)
    ensures Suffix(RowsOf(PruneHistory(history, cutoff), n), obs)
  {
    var rows := RowsOf(history, n);
    PruneKeepsRows(history, cutoff, n);
    SuffixInOrder(rows, obs);
    SinceIsSuffix(rows, cutoff);
    SuffixOfSuffix(Since(rows, cutoff), rows, obs);
  }

  lemma GcKeepsOrdered(c: Config, s: State, cutoff: int, n: NodeId)
    requires Ordered(s, n)
    ensures Ordered(Apply(c, s, Gc(cutoff)), n)
  {
    PrunedIsSuffix(s.history, ObservationsOf(s.trace, n), cutoff, n);
  }

  lemma StepKeepsOrdered(c: Config, s: State, step: Step, n: NodeId)
    requires Ordered(s, n) && Timely(s, n, step)
    ensures Ordered(Apply(c, s, step), n) && Sane(s, n, step)
  {
    match step
    case Probed(m, o) => ProcessKeepsOrdered(c, s, m, o, n);
    case Pushed(m, now) => ProcessKeepsOrdered(c, s, m, Observation(now, None, true), n);
    case Reload(now) => OrderedLoadIsSane(s, n, now);
    case Restart(now) => OrderedLoadIsSane(s, n, now);
    case Gc(cutoff) => GcKeepsOrdered(c, s, cutoff, n);
    case SetTrust(_) =>
  }

  lemma {:induction false} TimelyRunsAreSane(c: Config, s: State, steps: seq<Step>, n: NodeId)
    requires Ordered(s, n) && TimelyRun(c, s, n, steps)
    ensures SaneRun(c, s, n, steps)
    decreases |steps|
  {
    if steps != [] {
      StepKeepsOrdered(c, s, steps[0], n);
      TimelyRunsAreSane(c, Apply(c, s, steps[0]), steps[1..], n);
    }
  }

  /** In every run of probes, pushes, reloads, restarts, prunes and trust changes in which the observations of n
      are processed in order of their timestamps, two pages of n always have a success between them. */
  lemma NoDoublePageAcrossRestarts(c: Config, trust: Trust, steps: seq<Step>, n: NodeId)
    requires TimelyRun(c, Start(trust), n, steps)
    ensures NoDoublePage(Run(c, Start(trust), steps).trace, n)
  {
    TimelyRunsAreSane(c, Start(trust), steps, n);
    SaneRunsPageOnce(c, trust, steps, n);
  }

  // ------------------------------------------- one probe at a time, overtaken

  ghost predicate FailsFrom(obs: seq<Observation>, i: int)
    requires 0 <= i
  {
    exists k :: i <= k < |obs| && !obs[k].alive
  }

  /** A failing probe of n began after the failing probe before it had ended; so it is not older than anything
      processed up to then. Pushes may still overtake it in between. */
  ghost predicate OneProbeAtATime(s: State, n: NodeId, step: Step) {
    var before := ObservationsOf(s.trace, n);
    step.Probed? && step.node == n && !step.o.alive ==>
      forall i :: 0 <= i < |before| && FailsFrom(before, i) ==> before[i].ts <= step.o.ts
  }

  ghost predicate OneProbeRun(c: Config, s: State, n: NodeId, steps: seq<Step>)
    decreases |steps|
  {
    steps == [] || (OneProbeAtATime(s, n, steps[0]) && OneProbeRun(c, Apply(c, s, steps[0]), n, steps[1..]))
  }

  function FailTail(obs: seq<Observation>): (k: nat)
    ensures k <= |obs|
    ensures k > 0 ==> !obs[|obs| - 1].alive
    ensures k > 1 ==> !obs[|obs| - 2].alive
  {
    if obs == [] || obs[|obs| - 1].alive then 0 else FailTail(obs[..|obs| - 1]) + 1
  }

  lemma FailTailSnoc(obs: seq<Observation>, o: Observation)
    ensures FailTail(obs + [o]) == if o.alive then 0 else FailTail(obs) + 1
  {
    assert (obs + [o])[..|obs|] == obs;
  }

  lemma {:induction false} FailTailGrows(a: seq<Observation>, b: seq<Observation>)
    requires forall i :: 0 <= i < |b| ==> !b[i].alive
    ensures FailTail(a + b) >= FailTail(a)
    decreases |b|
  {
    if b == [] {
      assert a + b == a;
    } else {
      var init, last := b[..|b| - 1], b[|b| - 1];
      FailTailGrows(a, init);
      FailTailSnoc(a + init, last);
      assert a + init + [last] == a + b;
    }
  }

  ghost predicate LastIsNewest(obs: seq<Observation>) {
    forall i :: 0 <= i < |obs| ==> obs[i].ts <= obs[|obs| - 1].ts
  }

  /** Of the observations, the last one is still in the history, or all rows left are newer than it. */
  ghost predicate KeptRows(rows: seq<Observation>, obs: seq<Observation>) {
    && (forall r :: r in rows ==> r in obs)
    && (rows != [] ==>
          && obs != []
          && (rows[|rows| - 1] == obs[|obs| - 1] || forall r :: r in rows ==> r.ts > obs[|obs| - 1].ts))
  }

  /** Every page of n comes when at least the last two observations failed. */
  ghost predicate PagesFollowTwo(trace: seq<Event>, n: NodeId) {
    forall j :: 0 <= j < |trace| && IsDown(trace[j], n) ==> FailTail(ObservationsOf(trace[..j], n)) >= 2
  }

  ghost predicate Settled(s: State, n: NodeId) {
    var obs := ObservationsOf(s.trace, n);
    && KeptRows(RowsOf(s.history, n), obs)
    && PagesFollowTwo(s.trace, n)
    && (FailTail(obs) >= 2 ==> LastIsNewest(obs))
    && CountsTail(s.devices, n, obs)
  }

  /** The failures counted against a peer that is alive are failures just processed. */
  ghost predicate CountsTail(devices: map<NodeId, Peer>, n: NodeId, obs: seq<Observation>) {
    n in devices && devices[n].status == Alive ==> devices[n].failures <= FailTail(obs)
  }

  lemma KeptSnoc(rows: seq<Observation>, obs: seq<Observation>, o: Observation)
    requires KeptRows(rows, obs)
    ensures KeptRows(rows + [o], obs + [o])
  {
  }

  lemma KeptSince(rows: seq<Observation>, obs: seq<Observation>, cutoff: int)
    requires KeptRows(rows, obs)
    ensures KeptRows(Since(rows, cutoff), obs)
  {
    var kept := Since(rows, cutoff);
    forall r | r in kept ensures r in rows && r.ts >= cutoff {
      SinceKeepsRows(rows, cutoff, r);
    }
    if kept != [] {
      assert kept[0] in kept;
      var init, last := rows[..|rows| - 1], rows[|rows| - 1];
      assert rows == init + [last];
      CollectSnoc(init, last, NotBefore(cutoff));
    }
  }

  lemma NewestSnoc(obs: seq<Observation>, o: Observation)
    requires !o.alive && FailTail(obs) >= 1
    requires forall i :: 0 <= i < |obs| && FailsFrom(obs, i) ==> obs[i].ts <= o.ts
    ensures LastIsNewest(obs + [o])
  {
    forall i | 0 <= i < |obs| ensures obs[i].ts <= o.ts {
      assert FailsFrom(obs, i) by {
        assert !obs[|obs| - 1].alive;
      }
    }
  }

  lemma PagesFollowTwoAppended(trace: seq<Event>, added: seq<Event>, n: NodeId)
    requires PagesFollowTwo(trace, n)
    requires forall i :: 0 <= i < |added| && IsDown(added[i], n) ==>
      i == 1 && FailTail(ObservationsOf(trace + [added[0]], n)) >= 2
    ensures PagesFollowTwo(trace + added, n)
  {
    var all := trace + added;
    forall j | 0 <= j < |all| && IsDown(all[j], n) ensures FailTail(ObservationsOf(all[..j], n)) >= 2 {
      if j < |trace| {
        assert all[..j] == trace[..j];
      } else {
        assert IsDown(added[j - |trace|], n);
        assert all[..j] == trace + [added[0]];
      }
    }
  }

  /** What processing an observation of m does to the observations and rows of n. */
  lemma ProcessedRows(c: Config, s: State, m: NodeId, o: Observation, n: NodeId)
    ensures var t, own := Process(c, s, m, o), if m == n then [o] else [];
      && ObservationsOf(t.trace, n) == ObservationsOf(s.trace, n) + own
      && RowsOf(t.history, n) == RowsOf(s.history, n) + own
  {
    AddedObservations(c, s, m, o, n);
    CollectAppend(s.trace, Added(c, s, m, o), SeenOf(n));
    CollectSnoc(s.history, Row(m, o), OfNode(n));
    assert RowsOf(s.history, n) + [] == RowsOf(s.history, n);
  }

  lemma ProcessKeepsPages(c: Config, s: State, m: NodeId, o: Observation, n: NodeId)
    requires c.downAfter >= 2 && PagesFollowTwo(s.trace, n) && CountsTail(s.devices, n, ObservationsOf(s.trace, n))
    ensures PagesFollowTwo(Process(c, s, m, o).trace, n)
  {
    var added := Added(c, s, m, o);
    AddedShape(c, s, m, o, n);
    if m == n {
      CollectSnoc(s.trace, added[0], SeenOf(n));
      FailTailSnoc(ObservationsOf(s.trace, n), o);
    }
    PagesFollowTwoAppended(s.trace, added, n);
  }

  lemma ObserveCountsTail(c: Config, devices: map<NodeId, Peer>, n: NodeId, obs: seq<Observation>, o: Observation)
    requires n in devices && CountsTail(devices, n, obs)
    ensures CountsTail(devices[n := Observe(c, devices[n], o)], n, obs + [o])
  {
    FailTailSnoc(obs, o);
  }

  lemma OwnProcessKeepsSettled(c: Config, s: State, o: Observation, n: NodeId)
    requires c.downAfter >= 2 && Settled(s, n)
    requires !o.alive ==> OneProbeAtATime(s, n, Probed(n, o))
    ensures Settled(Process(c, s, n, o), n)
  {
    var obs := ObservationsOf(s.trace, n);
    ProcessedRows(c, s, n, o, n);
    KeptSnoc(RowsOf(s.history, n), obs, o);
    FailTailSnoc(obs, o);
    ProcessKeepsPages(c, s, n, o, n);
    if n in s.devices {
      ObserveCountsTail(c, s.devices, n, obs, o);
    }
    if !o.alive && FailTail(obs) >= 1 {
      NewestSnoc(obs, o);
    }
  }

  lemma OtherProcessKeepsSettled(c: Config, s: State, m: NodeId, o: Observation, n: NodeId)
    requires c.downAfter >= 2 && m != n && Settled(s, n)
    ensures Settled(Process(c, s, m, o), n)
  {
    var obs, rows := ObservationsOf(s.trace, n), RowsOf(s.history, n);
    ProcessedRows(c, s, m, o, n);
    assert obs + [] == obs && rows + [] == rows;
    ProcessKeepsPages(c, s, m, o, n);
    assert CountsTail(Process(c, s, m, o).devices, n, obs);
  }

  lemma GcKeepsSettled(c: Config, s: State, cutoff: int, n: NodeId)
    requires Settled(s, n)
    ensures Settled(Apply(c, s, Gc(cutoff)), n)
  {
    PruneKeepsRows(s.history, cutoff, n);
    KeptSince(RowsOf(s.history, n), ObservationsOf(s.trace, n), cutoff);
  }

  /** Sorting puts a newest last row last. */
  lemma SortEndsNewest(rows: seq<Observation>)
    requires rows != [] && LastIsNewest(rows)
    ensures |SortByTs(rows)| == |rows| && SortByTs(rows)[|rows| - 1] == rows[|rows| - 1]
  {
    var init, last := rows[..|rows| - 1], rows[|rows| - 1];
    var sorted := SortByTs(init);
    SortOrders(init);
    assert |sorted| == |multiset(sorted)| == |multiset(init)| == |init|;
    if sorted != [] {
      var top := sorted[|sorted| - 1];
      assert top in multiset(sorted);
      assert top in init;
    }
    InsertLast(sorted, last);
  }

  lemma RecentEndsNewest(history: seq<Row>, obs: seq<Observation>, n: NodeId, now: int)
    requires KeptRows(RowsOf(history, n), obs) && LastIsNewest(obs)
    ensures var rows := Recent(history, n, now);
      rows != [] ==> obs != [] && rows[|rows| - 1] == obs[|obs| - 1]
  {
    var rows, cutoff := RowsOf(history, n), now - DAY;
    var within := Since(rows, cutoff);
    KeptSince(rows, obs, cutoff);
    if within != [] {
      assert within[0] in obs;
      assert within[|within| - 1] == obs[|obs| - 1];
      forall i | 0 <= i < |within| ensures within[i].ts <= within[|within| - 1].ts {
        assert within[i] in obs;
      }
      SortEndsNewest(within);
    }
  }

  /** A page with no success after it: the last two observations failed. */
  lemma PagedTailFails(trace: seq<Event>, n: NodeId, i: nat)
    requires PagesFollowTwo(trace, n) && i < |trace| && IsDown(trace[i], n)
    requires !SuccessBetween(trace, n, i, |trace|)
    ensures FailTail(ObservationsOf(trace, n)) >= 2
  {
    var before, after := trace[..i], trace[i..];
    assert trace == before + after;
    CollectAppend(before, after, SeenOf(n));
    var late := ObservationsOf(after, n);
    forall k | 0 <= k < |late| ensures !late[k].alive {
      var x := Collected(after, SeenOf(n), k);
      assert after[x] == trace[i + x];
      assert x > 0;
      assert !IsSuccess(trace[i + x], n);
    }
    FailTailGrows(ObservationsOf(before, n), late);
  }

  lemma SettledLoadIsSane(s: State, n: NodeId, now: int)
    requires Settled(s, n) && Evidence(s, n)
    ensures SaneLoad(s, n, now)
  {
    var rows := Recent(s.history, n, now);
    if rows != [] && rows[|rows| - 1].alive && !SuccessSince(s.trace, n) {
      RecentIsWritten(s.history, n, now, rows[|rows| - 1]);
      assert HasAlive(RowsOf(s.history, n));
      var i := PageWithoutSuccess(s.trace, n);
      PagedTailFails(s.trace, n, i);
      RecentEndsNewest(s.history, ObservationsOf(s.trace, n), n, now);
      assert false;
    }
  }

  lemma LoadKeepsSettled(c: Config, s: State, now: int, n: NodeId)
    requires Settled(s, n)
    ensures Settled(s.(devices := Loaded(c, s, now)), n)
  {
  }

  lemma StepKeepsSettled(c: Config, s: State, step: Step, n: NodeId)
    requires c.downAfter >= 2 && Settled(s, n) && Evidence(s, n) && OneProbeAtATime(s, n, step)
    ensures Settled(Apply(c, s, step), n) && Sane(s, n, step)
  {
    match step
    case Probed(m, o) =>
      if m == n {
        OwnProcessKeepsSettled(c, s, o, n);
      } else {
        OtherProcessKeepsSettled(c, s, m, o, n);
      }
    case Pushed(m, now) =>
      if m == n {
        OwnProcessKeepsSettled(c, s, Observation(now, None, true), n);
      } else {
        OtherProcessKeepsSettled(c, s, m, Observation(now, None, true), n);
      }
    case Reload(now) => LoadKeepsSettled(c, s, now, n); SettledLoadIsSane(s, n, now);
    case Restart(now) => LoadKeepsSettled(c, s, now, n); SettledLoadIsSane(s, n, now);
    case Gc(cutoff) => GcKeepsSettled(c, s, cutoff, n);
    case SetTrust(_) =>
  }

  lemma {:induction false} OneProbeRunsAreSane(c: Config, s: State, steps: seq<Step>, n: NodeId)
    requires c.downAfter >= 2 && Settled(s, n) && Evidence(s, n) && OneProbeRun(c, s, n, steps)
    ensures SaneRun(c, s, n, steps)
    decreases |steps|
  {
    if steps != [] {
      StepKeepsSettled(c, s, steps[0], n);
      StepKeepsEvidence(c, s, steps[0], n);
      OneProbeRunsAreSane(c, Apply(c, s, steps[0]), steps[1..], n);
    }
  }

  /** With `down_after` of at least 2, overtaking is harmless: in every run in which n is probed by one probe at a
      time, however many pushes overtake them, two pages of n have a success between them. */
  lemma NoDoublePageDespiteOvertaking(c: Config, trust: Trust, steps: seq<Step>, n: NodeId)
    requires c.downAfter >= 2 && OneProbeRun(c, Start(trust), n, steps)
    ensures NoDoublePage(Run(c, Start(trust), steps).trace, n)
  {
    OneProbeRunsAreSane(c, Start(trust), steps, n);
    SaneRunsPageOnce(c, trust, steps, n);
  }

  // -------------------------------------------- exactly when a load can repage

  ghost function Failures(n: NodeId, times: seq<int>): seq<Step> {
    if times == [] then [] else [Probed(n, Observation(times[0], None, false))] + Failures(n, times[1..])
  }

  ghost predicate PagedFrom(trace: seq<Event>, start: nat, n: NodeId) {
    exists j :: start <= j < |trace| && IsDown(trace[j], n)
  }

  /** Nothing but failures of n after a load, and yet n is paged. */
  ghost predicate PagedByFailures(c: Config, s: State, n: NodeId, times: seq<int>) {
    PagedFrom(Run(c, s, Failures(n, times)).trace, |s.trace|, n)
  }

  ghost predicate IsLoad(load: Step, now: int) { load == Reload(now) || load == Restart(now) }

  lemma FailureStep(c: Config, s: State, n: NodeId, times: seq<int>)
    requires times != []
    ensures Run(c, s, Failures(n, times)) ==
            Run(c, Apply(c, s, Probed(n, Observation(times[0], None, false))), Failures(n, times[1..]))
  {
    var steps := Failures(n, times);
    assert steps[1..] == Failures(n, times[1..]);
  }

  lemma {:induction false} FailuresSilent(c: Config, s: State, n: NodeId, times: seq<int>)
    requires n in s.devices && s.devices[n].status != Alive
    ensures !PagedFrom(Run(c, s, Failures(n, times)).trace, |s.trace|, n)
    decreases |times|
  {
    if times != [] {
      var o := Observation(times[0], None, false);
      var t := Apply(c, s, Probed(n, o));
      var added := Added(c, s, n, o);
      FailureStep(c, s, n, times);
      AddedShape(c, s, n, o, n);
      FailuresSilent(c, t, n, times[1..]);
      TraceGrows(c, t, Failures(n, times[1..]));
      var trace := Run(c, t, Failures(n, times[1..])).trace;
      forall j | |s.trace| <= j < |trace| ensures !IsDown(trace[j], n) {
        if j < |t.trace| {
          assert trace[j] == t.trace[j] == added[j - |s.trace|];
        }
      }
    }
  }

  lemma {:induction false} TraceGrows(c: Config, s: State, steps: seq<Step>)
    ensures s.trace <= Run(c, s, steps).trace
    decreases |steps|
  {
    if steps != [] {
      TraceGrows(c, Apply(c, s, steps[0]), steps[1..]);
    }
  }

  lemma {:induction false} FailuresPage(c: Config, s: State, n: NodeId, at: int, left: nat)
    requires n in s.devices && s.devices[n].status == Alive && !InMaintenance(s.trust, n, at)
    requires left > 0 && s.devices[n].failures + left == c.downAfter
    ensures PagedByFailures(c, s, n, seq(left, _ => at))
    decreases left
  {
    var times := seq(left, _ => at);
    var o := Observation(at, None, false);
    var t := Apply(c, s, Probed(n, o));
    FailureStep(c, s, n, times);
    assert times[1..] == seq(left - 1, _ => at);
    TraceGrows(c, t, Failures(n, times[1..]));
    var trace := Run(c, s, Failures(n, times)).trace;
    if left == 1 {
      var added := Added(c, s, n, o);
      AddedShape(c, s, n, o, n);
      assert t.trace[|s.trace| + 1] == added[1] && IsDown(added[1], n);
      assert IsDown(trace[|s.trace| + 1], n);
    } else {
      FailuresPage(c, t, n, at, left - 1);
      var j :| |t.trace| <= j < |trace| && IsDown(trace[j], n);
    }
  }

  /** Some moment lies outside the peer's maintenance window. */
  function OutsideMaintenance(trust: Trust, n: NodeId): (at: int)
    ensures !InMaintenance(trust, n, at)
  {
    if n in trust.windows then trust.windows[n].end + 1 else 0
  }

  /** After a reload or restart, failures alone can page a peer if and only if the newest row of the last day is
      a success. */
  lemma FailuresCanPageIff(c: Config, s: State, n: NodeId, load: Step, now: int)
    requires IsLoad(load, now) && n in s.trust.monitored
    ensures var rows := Recent(s.history, n, now);
      (exists times :: PagedByFailures(c, Apply(c, s, load), n, times)) <==> rows != [] && rows[|rows| - 1].alive
  {
    var t := Apply(c, s, load);
    if t.devices[n].status == Alive {
      var at := OutsideMaintenance(s.trust, n);
      FailuresPage(c, t, n, at, c.downAfter);
      assert PagedByFailures(c, t, n, seq(c.downAfter, _ => at));
    } else {
      forall times ensures !PagedByFailures(c, t, n, times) {
        FailuresSilent(c, t, n, times);
      }
    }
  }

  ghost predicate NoSuccessFrom(trace: seq<Event>, start: nat, n: NodeId) {
    forall k :: start <= k < |trace| ==> !IsSuccess(trace[k], n)
  }

  lemma {:induction false} FailuresAddNoSuccess(c: Config, s: State, n: NodeId, times: seq<int>)
    ensures NoSuccessFrom(Run(c, s, Failures(n, times)).trace, |s.trace|, n)
    decreases |times|
  {
    if times != [] {
      var o := Observation(times[0], None, false);
      var t := Apply(c, s, Probed(n, o));
      FailureStep(c, s, n, times);
      FailuresAddNoSuccess(c, t, n, times[1..]);
      TraceGrows(c, t, Failures(n, times[1..]));
      var trace := Run(c, t, Failures(n, times[1..])).trace;
      forall k | |s.trace| <= k < |trace| ensures !IsSuccess(trace[k], n) {
        if k < |t.trace| {
          assert n in s.devices && trace[k] == t.trace[k] == Added(c, s, n, o)[k - |s.trace|];
        }
      }
    }
  }

  lemma {:induction false} FailuresAreSane(c: Config, s: State, n: NodeId, times: seq<int>)
    ensures SaneRun(c, s, n, Failures(n, times))
    decreases |times|
  {
    if times != [] {
      var steps := Failures(n, times);
      assert steps[1..] == Failures(n, times[1..]);
      FailuresAreSane(c, Apply(c, s, steps[0]), n, times[1..]);
    }
  }

  /** Whatever happens after s, later loads being sane, can it page n twice without a success in between? */
  ghost predicate CanPageTwice(c: Config, s: State, n: NodeId) {
    exists more :: PagesTwice(c, s, n, more)
  }

  ghost predicate PagesTwice(c: Config, s: State, n: NodeId, more: seq<Step>) {
    SaneRun(c, s, n, more) && !NoDoublePage(Run(c, s, more).trace, n)
  }

  lemma SingleNeverPagesTwice(c: Config, s: State, n: NodeId)
    requires Single(s, n)
    ensures !CanPageTwice(c, s, n)
  {
    forall more ensures !PagesTwice(c, s, n, more) {
      if SaneRun(c, s, n, more) {
        SaneRunKeepsSingle(c, s, more, n);
      }
    }
  }

  /** A page after the i-th entry with no success from there on is a second one. */
  lemma PagedAgain(trace: seq<Event>, n: NodeId, i: nat, start: nat)
    requires i < start <= |trace| && IsDown(trace[i], n)
    requires NoSuccessFrom(trace, i + 1, n) && PagedFrom(trace, start, n)
    ensures !NoDoublePage(trace, n)
  {
    var j :| start <= j < |trace| && IsDown(trace[j], n);
    assert !SuccessBetween(trace, n, i, j);
  }

  lemma FailuresPageAgain(c: Config, t: State, n: NodeId, i: nat, times: seq<int>)
    requires i < |t.trace| && IsDown(t.trace[i], n) && !SuccessBetween(t.trace, n, i, |t.trace|)
    requires PagedByFailures(c, t, n, times)
    ensures CanPageTwice(c, t, n)
  {
    var steps := Failures(n, times);
    var trace := Run(c, t, steps).trace;
    TraceGrows(c, t, steps);
    FailuresAddNoSuccess(c, t, n, times);
    FailuresAreSane(c, t, n, times);
    forall k | i < k < |trace| ensures !IsSuccess(trace[k], n) {
      if k < |t.trace| {
        assert !IsSuccess(t.trace[k], n) && trace[k] == t.trace[k];
      }
    }
    PagedAgain(trace, n, i, |t.trace|);
    assert PagesTwice(c, t, n, steps);
  }

  /** The exact condition of a double page. n was paged once and not seen alive since: after a reload or restart
      there is a way on that pages it again without a success if and only if the newest row of the last day is
      one. The rows are sorted by timestamp, so that is an older success with a newer stamp than the failures. */
  lemma DoublePageIff(c: Config, s: State, n: NodeId, load: Step, now: int, i: nat)
    requires IsLoad(load, now) && n in s.trust.monitored && NoDoublePage(s.trace, n)
    requires i < |s.trace| && IsDown(s.trace[i], n) && !SuccessBetween(s.trace, n, i, |s.trace|)
    ensures var rows := Recent(s.history, n, now);
      CanPageTwice(c, Apply(c, s, load), n) <==> rows != [] && rows[|rows| - 1].alive
  {
    var rows, t := Recent(s.history, n, now), Apply(c, s, load);
    FailuresCanPageIff(c, s, n, load, now);
    if rows != [] && rows[|rows| - 1].alive {
      var times :| PagedByFailures(c, t, n, times);
      FailuresPageAgain(c, t, n, i, times);
    } else {
      SingleNeverPagesTwice(c, t, n);
    }
  }

  /** Seen alive, but not since the last page: there is a page with no success after it. */
  lemma PageWithoutSuccess(trace: seq<Event>, n: NodeId) returns (i: nat)
    requires EverAlive(trace, n) && !SuccessSince(trace, n)
    ensures i < |trace| && IsDown(trace[i], n) && !SuccessBetween(trace, n, i, |trace|)
  {
    var k := LastSuccess(trace, n);
    assert !NoDownFrom(trace, k, n);
    i :| k < i < |trace| && IsDown(trace[i], n);
  }

  lemma {:induction false} LastSuccess(trace: seq<Event>, n: NodeId) returns (k: nat)
    requires EverAlive(trace, n)
    ensures k < |trace| && IsSuccess(trace[k], n) && forall m :: k < m < |trace| ==> !IsSuccess(trace[m], n)
    decreases |trace|
  {
    var last := |trace| - 1;
    var any :| -1 < any < |trace| && IsSuccess(trace[any], n);
    if IsSuccess(trace[last], n) {
      k := last;
    } else {
      assert IsSuccess(trace[..last][any], n);
      k := LastSuccess(trace[..last], n);
      assert forall m :: 0 <= m < last ==> trace[..last][m] == trace[m];
    }
  }

  /** Over whole runs: after any run with sane loads, a reload or restart opens the way to a double page of n if
      and only if it is not sane. */
  lemma LoadOpensDoublePageIff(c: Config, trust: Trust, steps: seq<Step>, n: NodeId, load: Step, now: int)
    requires SaneRun(c, Start(trust), n, steps) && IsLoad(load, now)
    ensures var s := Run(c, Start(trust), steps);
      CanPageTwice(c, Apply(c, s, load), n) <==> !SaneLoad(s, n, now)
  {
    var s := Run(c, Start(trust), steps);
    var t := Apply(c, s, load);
    SaneRunKeepsSingle(c, Start(trust), steps, n);
    RunKeepsEvidence(c, Start(trust), steps, n);
    if SaneLoad(s, n, now) {
      SingleNeverPagesTwice(c, t, n);
    } else {
      var rows := Recent(s.history, n, now);
      RecentIsWritten(s.history, n, now, rows[|rows| - 1]);
      assert HasAlive(RowsOf(s.history, n));
      var i := PageWithoutSuccess(s.trace, n);
      DoublePageIff(c, s, n, load, now, i);
    }
  }

  /** It happens: a push overtakes a slow probe, the peer is paged for the probe's failure, a reload sorts the
      two rows the other way round, and the next failure pages again with no success in between. */
  lemma OvertakenProbePagesTwice(n: NodeId)
    ensures var late, next := Observation(0, None, false), Observation(11, None, false);
      var steps := [Pushed(n, 5), Probed(n, late), Reload(10), Probed(n, next)];
      !NoDoublePage(Run(Config(1, 1, 0), Start(Trust({n}, map[])), steps).trace, n)
  {
    OvertakenRun(n);
    OvertakenTrace(n, OvertakenLast(n).trace);
  }

  lemma OvertakenRun(n: NodeId)
    ensures var late, next := Observation(0, None, false), Observation(11, None, false);
      var steps := [Pushed(n, 5), Probed(n, late), Reload(10), Probed(n, next)];
      Run(Config(1, 1, 0), Start(Trust({n}, map[])), steps) == OvertakenLast(n)
  {
    var c, up, late, next := Config(1, 1, 0), Observation(5, None, true), Observation(0, None, false),
        Observation(11, None, false);
    OvertakenUp(n);
    OvertakenPaged(n);
    OvertakenReloaded(n);
    RunFour(c, Start(Trust({n}, map[])), OvertakenFirst(n), Overtaken(n, Peer(Dead, 1, 0, Some(5), [up, late])),
            Overtaken(n, Hydrated(c, [late, up])), OvertakenLast(n),
            Pushed(n, 5), Probed(n, late), Reload(10), Probed(n, next));
  }

  lemma OvertakenTrace(n: NodeId, trace: seq<Event>)
    requires trace == OvertakenLast(n).trace
    ensures !NoDoublePage(trace, n)
  {
    OvertakenPagedAgain(n);
    assert IsDown(trace[2], n) && IsDown(trace[5], n) && !SuccessBetween(trace, n, 2, 5);
  }

  lemma RunFour(c: Config, s0: State, s1: State, s2: State, s3: State, s4: State,
                a0: Step, a1: Step, a2: Step, a3: Step)
    requires Apply(c, s0, a0) == s1 && Apply(c, s1, a1) == s2 && Apply(c, s2, a2) == s3 && Apply(c, s3, a3) == s4
    ensures Run(c, s0, [a0, a1, a2, a3]) == s4
  {
    assert [a0, a1, a2, a3][1..] == [a1, a2, a3] && [a1, a2, a3][1..] == [a2, a3];
    assert [a2, a3][1..] == [a3] && [a3][1..] == [];
    assert Run(c, s2, [a2, a3]) == Run(c, s3, [a3]) == Run(c, s4, []);
  }

  ghost function OvertakenFirst(n: NodeId): State {
    var up := Observation(5, None, true);
    State(map[n := Peer(Alive, 0, 1, Some(5), [up])], map[], [Row(n, up)], Trust({n}, map[]), [Seen(n, up)])
  }

  /** The state once the late failure was processed, with the given peer. */
  ghost function Overtaken(n: NodeId, p: Peer): State {
    var up, late := Observation(5, None, true), Observation(0, None, false);
    State(map[n := p], map[n := 0], [Row(n, up), Row(n, late)], Trust({n}, map[]),
          [Seen(n, up), Seen(n, late), Logged(n, true, 1, 0), Webhook(n, true, 0)])
  }

  ghost function OvertakenLast(n: NodeId): State {
    var c, up, late, next := Config(1, 1, 0), Observation(5, None, true), Observation(0, None, false),
        Observation(11, None, false);
    Apply(c, Overtaken(n, Hydrated(c, [late, up])), Probed(n, next))
  }

  lemma OvertakenUp(n: NodeId)
    ensures Apply(Config(1, 1, 0), Start(Trust({n}, map[])), Pushed(n, 5)) == OvertakenFirst(n)
  {
    var c, up, start := Config(1, 1, 0), Observation(5, None, true), Start(Trust({n}, map[]));
    assert start.devices == map[n := FreshPeer];
    assert [up] == [] + [up] && Observe(c, FreshPeer, up) == Peer(Alive, 0, 1, Some(5), [up]);
    assert Added(c, start, n, up) == [Seen(n, up)];
  }

  lemma OvertakenPaged(n: NodeId)
    ensures var c, up, late := Config(1, 1, 0), Observation(5, None, true), Observation(0, None, false);
      Apply(c, OvertakenFirst(n), Probed(n, late)) == Overtaken(n, Peer(Dead, 1, 0, Some(5), [up, late]))
  {
    var c, up, late := Config(1, 1, 0), Observation(5, None, true), Observation(0, None, false);
    assert Observe(c, OvertakenFirst(n).devices[n], late) == Peer(Dead, 1, 0, Some(5), [up, late]);
  }

  lemma OvertakenReloaded(n: NodeId)
    ensures var c, up, late := Config(1, 1, 0), Observation(5, None, true), Observation(0, None, false);
      Apply(c, Overtaken(n, Peer(Dead, 1, 0, Some(5), [up, late])), Reload(10)) == Overtaken(n, Hydrated(c, [late, up]))
  {
    var c, up, late := Config(1, 1, 0), Observation(5, None, true), Observation(0, None, false);
    var s := Overtaken(n, Peer(Dead, 1, 0, Some(5), [up, late]));
    OvertakenRows(n, up, late);
    assert Loaded(c, s, 10) == map[n := Hydrated(c, [late, up])];
  }

  lemma OvertakenPagedAgain(n: NodeId)
    ensures var c, up, late, next := Config(1, 1, 0), Observation(5, None, true), Observation(0, None, false),
        Observation(11, None, false);
      var s := Overtaken(n, Hydrated(c, [late, up]));
      Apply(c, s, Probed(n, next)).trace == s.trace + [Seen(n, next), Logged(n, true, 1, 11), Webhook(n, true, 11)]
  {
    var c, up, late, next := Config(1, 1, 0), Observation(5, None, true), Observation(0, None, false),
        Observation(11, None, false);
    var p := Hydrated(c, [late, up]);
    assert p.status == Alive && p.failures == 0;
    assert Observe(c, p, next).status == Dead && Observe(c, p, next).failures == 1;
  }

  lemma OvertakenRows(n: NodeId, up: Observation, late: Observation)
    requires 0 == late.ts < up.ts == 5
    ensures Recent([Row(n, up), Row(n, late)], n, 10) == [late, up]
  {
    CollectTwo(Row(n, up), Row(n, late), OfNode(n));
    CollectTwo(up, late, NotBefore(10 - DAY));
    assert [up, late][..1] == [up] && [up][..0] == [];
    assert Insert([], up) == [up] && Insert([], late) == [late] && Insert([up], late) == [late] + [up];
    assert SortByTs([up]) == [up];
  }
}
