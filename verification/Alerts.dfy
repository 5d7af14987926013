/** Thresholds, alternation and webhook spacing over whole runs of the engine (src/engine.py). */
module Alerts {
  import opened Common
  import opened Liveness
  import opened Engine
  import Rate

  // ------------------------------------------------------ exact thresholds

  /** A monitor_down entry carries exactly `down_after`, a monitor_up entry exactly `up_after`. */
  ghost predicate ExactCounts(c: Config, trace: seq<Event>) {
    forall i :: 0 <= i < |trace| && trace[i].Logged? ==> trace[i].count == if trace[i].down then c.downAfter
        else c.upAfter
  }

  /** Each logged transition stands behind the observation that caused it, each webhook behind its own entry. */
  ghost predicate Caused(trace: seq<Event>) {
    && (forall i :: 0 <= i < |trace| && trace[i].Logged? ==>
          i > 0 && trace[i - 1].Seen? && trace[i - 1].node == trace[i].node
          && trace[i - 1].o.ts == trace[i].at && trace[i - 1].o.alive == !trace[i].down)
    && (forall i :: 0 <= i < |trace| && trace[i].Webhook? ==>
          i > 0 && trace[i - 1].Logged? && trace[i - 1].node == trace[i].node
          && trace[i - 1].at == trace[i].at && trace[i - 1].down == trace[i].down)
  }

  ghost predicate Exact(c: Config, s: State) {
    && (forall n :: n in s.devices ==> ThresholdsHold(c, s.devices[n]))
    && ExactCounts(c, s.trace)
    && Caused(s.trace)
  }

  lemma AddedExact(c: Config, s: State, n: NodeId, o: Observation)
    requires ThresholdsHold(c, Lookup(s, n))
    ensures ExactCounts(c, Added(c, s, n, o))
  {
    ObserveKeeps(c, Lookup(s, n), o);
  }

  lemma AddedCaused(c: Config, s: State, n: NodeId, o: Observation)
    requires ThresholdsHold(c, Lookup(s, n))
    ensures Caused(Added(c, s, n, o))
  {
    ObserveKeeps(c, Lookup(s, n), o);
  }

  lemma CausedAppend(trace: seq<Event>, added: seq<Event>)
    requires Caused(trace) && Caused(added)
    ensures Caused(trace + added)
  {
    var all := trace + added;
    forall i | 0 <= i < |all| && all[i].Logged?
      ensures i > 0 && all[i - 1].Seen? && all[i - 1].node == all[i].node
              && all[i - 1].o.ts == all[i].at && all[i - 1].o.alive == !all[i].down
    {
      if i >= |trace| {
        assert added[i - |trace|].Logged?;
      }
    }
    forall i | 0 <= i < |all| && all[i].Webhook?
      ensures i > 0 && all[i - 1].Logged? && all[i - 1].node == all[i].node
              && all[i - 1].at == all[i].at && all[i - 1].down == all[i].down
    {
      if i >= |trace| {
        assert added[i - |trace|].Webhook?;
      }
    }
  }

  lemma ProcessKeepsExact(c: Config, s: State, n: NodeId, o: Observation)
    requires Exact(c, s)
    ensures Exact(c, Process(c, s, n, o))
  {
    AddedExact(c, s, n, o);
    AddedCaused(c, s, n, o);
    CausedAppend(s.trace, Added(c, s, n, o));
    ObserveKeeps(c, Lookup(s, n), o);
  }

  lemma LoadKeepsExact(c: Config, s: State, now: int)
    requires Exact(c, s)
    ensures Exact(c, s.(devices := Loaded(c, s, now)))
  {
    forall n | n in s.trust.monitored ensures ThresholdsHold(c, Loaded(c, s, now)[n]) {
      HydratedKeeps(c, Recent(s.history, n, now));
    }
  }

  lemma {:induction false} RunKeepsExact(c: Config, s: State, steps: seq<Step>)
    requires Exact(c, s)
    ensures Exact(c, Run(c, s, steps))
    decreases |steps|
  {
    if steps != [] {
      match steps[0] {
        case Probed(m, o) => ProcessKeepsExact(c, s, m, o);
        case Pushed(m, now) => ProcessKeepsExact(c, s, m, Observation(now, None, true));
        case Reload(now) => LoadKeepsExact(c, s, now);
        case Restart(now) => LoadKeepsExact(c, s, now);
        case _ =>
      }
      RunKeepsExact(c, Apply(c, s, steps[0]), steps[1..]);
    }
  }

  /** In every run, reloads and restarts included: a peer that is alive has fewer than `down_after` failures in a
      row and one that is dead fewer than `up_after` successes; every entry carries exactly its threshold and
      stands behind the observation that crossed it; every webhook announces the entry right before it. */
  lemma ThresholdsExact(c: Config, trust: Trust, steps: seq<Step>)
    ensures var s := Run(c, Start(trust), steps);
      && (forall n :: n in s.devices && s.devices[n].status == Alive ==> s.devices[n].failures < c.downAfter)
      && (forall n :: n in s.devices && s.devices[n].status == Dead ==> s.devices[n].successes < c.upAfter)
      && ExactCounts(c, s.trace) && Caused(s.trace)
  {
    RunKeepsExact(c, Start(trust), steps);
  }

  // -------------------------------------------------------------- alternation

  ghost function EntryOf(n: NodeId): Event -> Option<bool> {
    (e: Event) => if e.Logged? && e.node == n then Some(e.down) else None
  }

  /** n's log entries in order: true for monitor_down, false for monitor_up. */
  ghost function EntriesOf(trace: seq<Event>, n: NodeId): seq<bool> {
    Collect(trace, EntryOf(n))
  }

  function Count(entries: seq<bool>, down: bool): nat {
    if entries == [] then 0 else
      Count(entries[..|entries| - 1], down) + (if entries[|entries| - 1] == down then 1 else 0)
  }

  /** No load, and no transition of n falls into a maintenance window. */
  ghost predicate Undisturbed(s: State, n: NodeId, step: Step) {
    match step
    case Probed(m, o) => m == n ==> !InMaintenance(s.trust, n, o.ts)
    case Pushed(m, now) => m == n ==> !InMaintenance(s.trust, n, now)
    case Reload(_) => false
    case Restart(_) => false
    case _ => true
  }

  ghost predicate UndisturbedRun(c: Config, s: State, n: NodeId, steps: seq<Step>)
    decreases |steps|
  {
    steps == [] || (Undisturbed(s, n, steps[0]) && UndisturbedRun(c, Apply(c, s, steps[0]), n, steps[1..]))
  }

  ghost predicate Alternates(entries: seq<bool>) {
    forall i :: 0 <= i < |entries| ==> (entries[i] <==> i % 2 == 0)
  }

  ghost predicate Balanced(s: State, n: NodeId) {
    var entries := EntriesOf(s.trace, n);
    Alternates(entries) && ((n in s.devices && s.devices[n].status == Dead) <==> |entries| % 2 == 1)
  }

  lemma AddedEntries(c: Config, s: State, m: NodeId, o: Observation, n: NodeId)
    ensures EntriesOf(Added(c, s, m, o), n) ==
      if m == n && |Added(c, s, m, o)| > 1 then [Observe(c, Lookup(s, n), o).status == Dead] else []
  {
    CollectAdded(c, s, m, o, EntryOf(n));
  }

  lemma AlternatesSnoc(entries: seq<bool>, down: bool)
    requires Alternates(entries) && (down <==> |entries| % 2 == 0)
    ensures Alternates(entries + [down])
    ensures |entries + [down]| % 2 == 1 <==> down
  {
  }

  /** A logged change is to dead from alive or to alive from dead; an unlogged one does not touch dead. */
  lemma AddedStatus(c: Config, s: State, n: NodeId, o: Observation)
    requires !InMaintenance(s.trust, n, o.ts)
    ensures var prev, next := Lookup(s, n).status, Observe(c, Lookup(s, n), o).status;
      if |Added(c, s, n, o)| > 1 then n in s.devices && (if next == Dead then prev == Alive else prev == Dead)
      else (next == Dead <==> prev == Dead)
  {
  }

  lemma ProcessKeepsBalanced(c: Config, s: State, m: NodeId, o: Observation, n: NodeId)
    requires Balanced(s, n) && (m == n ==> !InMaintenance(s.trust, n, o.ts))
    ensures Balanced(Process(c, s, m, o), n)
  {
    var entries := EntriesOf(s.trace, n);
    CollectAppend(s.trace, Added(c, s, m, o), EntryOf(n));
    AddedEntries(c, s, m, o, n);
    if m == n {
      AddedStatus(c, s, n, o);
    }
    if m == n && |Added(c, s, n, o)| > 1 {
      AlternatesSnoc(entries, Observe(c, Lookup(s, n), o).status == Dead);
    } else {
      assert entries + [] == entries;
    }
  }

  lemma {:induction false} RunKeepsBalanced(c: Config, s: State, steps: seq<Step>, n: NodeId)
    requires Balanced(s, n) && UndisturbedRun(c, s, n, steps)
    ensures Balanced(Run(c, s, steps), n)
    decreases |steps|
  {
    if steps != [] {
      match steps[0] {
        case Probed(m, o) => ProcessKeepsBalanced(c, s, m, o, n);
        case Pushed(m, now) => ProcessKeepsBalanced(c, s, m, Observation(now, None, true), n);
        case _ =>
      }
      RunKeepsBalanced(c, Apply(c, s, steps[0]), steps[1..], n);
    }
  }

  lemma {:induction false} AlternatingCount(entries: seq<bool>)
    requires Alternates(entries)
    ensures Count(entries, true) - Count(entries, false) == |entries| % 2
    decreases |entries|
  {
    if entries != [] {
      AlternatingCount(entries[..|entries| - 1]);
    }
  }

  /** Without loads and maintenance, a peer's entries alternate, starting with monitor_down, and there is one
      more down than up exactly while the peer is dead. */
  lemma EntriesAlternate(c: Config, trust: Trust, steps: seq<Step>, n: NodeId)
    requires UndisturbedRun(c, Start(trust), n, steps)
    ensures var s := Run(c, Start(trust), steps);
      var entries := EntriesOf(s.trace, n);
      && Alternates(entries)
      && Count(entries, true) - Count(entries, false) ==
           (if n in s.devices && s.devices[n].status == Dead then 1 else 0)
  {
    RunKeepsBalanced(c, Start(trust), steps, n);
    AlternatingCount(EntriesOf(Run(c, Start(trust), steps).trace, n));
  }

  // ----------------------------------------------------------------- webhooks

  ghost function WebhookOf(n: NodeId): Event -> Option<int> {
    (e: Event) => if e.Webhook? && e.node == n then Some(e.at) else None
  }

  ghost function WebhooksOf(trace: seq<Event>, n: NodeId): seq<int> {
    Collect(trace, WebhookOf(n))
  }

  /** The step does not make the engine forget when it last alerted about n. */
  ghost predicate Remembers(s: State, n: NodeId, step: Step) {
    match step
    case Restart(_) => false
    case Gc(_) => n in s.devices
    case _ => true
  }

  ghost predicate RememberingRun(c: Config, s: State, n: NodeId, steps: seq<Step>)
    decreases |steps|
  {
    steps == [] || (Remembers(s, n, steps[0]) && RememberingRun(c, Apply(c, s, steps[0]), n, steps[1..]))
  }

  ghost predicate Paced(c: Config, s: State, n: NodeId) {
    var times := WebhooksOf(s.trace, n);
    Rate.Spaced(times, c.dwell) && (times != [] ==> n in s.alerts && s.alerts[n] == times[|times| - 1])
  }

  lemma AddedWebhooks(c: Config, s: State, m: NodeId, o: Observation, n: NodeId)
    ensures WebhooksOf(Added(c, s, m, o), n) == if m == n && |Added(c, s, m, o)| == 3 then [o.ts] else []
  {
    CollectAdded(c, s, m, o, WebhookOf(n));
  }

  lemma ProcessKeepsPaced(c: Config, s: State, m: NodeId, o: Observation, n: NodeId)
    requires Paced(c, s, n) && c.dwell > 0
    ensures Paced(c, Process(c, s, m, o), n)
  {
    var times := WebhooksOf(s.trace, n);
    CollectAppend(s.trace, Added(c, s, m, o), WebhookOf(n));
    AddedWebhooks(c, s, m, o, n);
    assert times + [] == times;
    if m == n && |Added(c, s, m, o)| == 3 {
      assert !Dwelling(c, s.alerts, n, o.ts);
      Rate.SpacedSnoc(times, c.dwell, o.ts);
    }
  }

  lemma {:induction false} RunKeepsPaced(c: Config, s: State, steps: seq<Step>, n: NodeId)
    requires Paced(c, s, n) && c.dwell > 0 && RememberingRun(c, s, n, steps)
    ensures Paced(c, Run(c, s, steps), n)
    decreases |steps|
  {
    if steps != [] {
      match steps[0] {
        case Probed(m, o) => ProcessKeepsPaced(c, s, m, o, n);
        case Pushed(m, now) => ProcessKeepsPaced(c, s, m, Observation(now, None, true), n);
        case _ =>
      }
      RunKeepsPaced(c, Apply(c, s, steps[0]), steps[1..], n);
    }
  }

  /** While the engine runs and n is loaded whenever old alert times are dropped, n's webhooks are at least the
      dwell apart, in whatever order the timestamps arrive. */
  lemma WebhooksSpaced(c: Config, trust: Trust, steps: seq<Step>, n: NodeId)
    requires c.dwell > 0 && RememberingRun(c, Start(trust), n, steps)
    ensures Rate.Spaced(WebhooksOf(Run(c, Start(trust), steps).trace, n), c.dwell)
  {
    RunKeepsPaced(c, Start(trust), steps, n);
  }

  /** So any span of `span` seconds holds at most span / dwell + 1 of them. */
  lemma WebhookRate(c: Config, trust: Trust, steps: seq<Step>, n: NodeId, i: nat, j: nat, span: nat)
    requires c.dwell > 0 && RememberingRun(c, Start(trust), n, steps)
    requires var times := WebhooksOf(Run(c, Start(trust), steps).trace, n);
      i <= j < |times| && times[j] - times[i] <= span
    ensures j - i + 1 <= span / c.dwell + 1
  {
    WebhooksSpaced(c, trust, steps, n);
    Rate.AtMost(WebhooksOf(Run(c, Start(trust), steps).trace, n), c.dwell, i, j, span);
  }

  // ------------------------------------------- exactly when something is sent

  /** The step observes n, as a probe that ended or a push that arrived. */
  ghost predicate Observes(step: Step, n: NodeId, o: Observation) {
    step == Probed(n, o) || (step == Pushed(n, o.ts) && o == Observation(o.ts, None, true))
  }

  /** The observation crosses n's threshold, outside n's maintenance window. */
  ghost predicate Crosses(c: Config, s: State, n: NodeId, o: Observation) {
    && n in s.devices
    && !(n in s.trust.windows && s.trust.windows[n].start <= o.ts && o.ts <= s.trust.windows[n].end)
    && (if o.alive then s.devices[n].status == Dead && s.devices[n].successes + 1 == c.upAfter
        else s.devices[n].status == Alive && s.devices[n].failures + 1 == c.downAfter)
  }

  /** In every run, an observation puts an entry on record, right behind itself and with the threshold as its count,
      if and only if the peer is loaded and the observation crosses the threshold outside its maintenance window. */
  lemma EntryIff(c: Config, trust: Trust, steps: seq<Step>, step: Step, n: NodeId, o: Observation)
    requires Observes(step, n, o) && (step.Pushed? || n in Run(c, Start(trust), steps).devices)
    ensures var s, t := Run(c, Start(trust), steps), Run(c, Start(trust), steps + [step]);
      && s.trace <= t.trace
      && |t.trace| > |s.trace| && t.trace[|s.trace|] == Seen(n, o)
      && (if Crosses(c, s, n, o) then
            |t.trace| > |s.trace| + 1
            && t.trace[|s.trace| + 1] == Logged(n, !o.alive, if o.alive then c.upAfter else c.downAfter, o.ts)
          else |t.trace| == |s.trace| + 1)
  {
    RunSnoc(c, Start(trust), steps, step);
    RunKeepsExact(c, Start(trust), steps);
    EntryAdded(c, Run(c, Start(trust), steps), n, o);
  }

  lemma EntryAdded(c: Config, s: State, n: NodeId, o: Observation)
    requires if n in s.devices then ThresholdsHold(c, s.devices[n]) else o.alive
    ensures var added := Added(c, s, n, o);
      && added[0] == Seen(n, o)
      && (if Crosses(c, s, n, o) then
            |added| > 1 && added[1] == Logged(n, !o.alive, if o.alive then c.upAfter else c.downAfter, o.ts)
          else |added| == 1)
  {
  }

  ghost predicate IsWebhook(e: Event, n: NodeId) { e.Webhook? && e.node == n }

  /** Event w is the last webhook of n among events from .. to-1. */
  ghost predicate LastWebhook(trace: seq<Event>, n: NodeId, from: int, to: int, w: int)
    requires 0 <= from && to <= |trace|
  {
    from <= w < to && IsWebhook(trace[w], n) && forall u :: w < u < to ==> !IsWebhook(trace[u], n)
  }

  /** There is no dwell, or no webhook of n among events from .. to-1, or the last lies the dwell before `at`. */
  ghost predicate DwellOver(c: Config, trace: seq<Event>, n: NodeId, from: int, to: int, at: int)
    requires 0 <= from && to <= |trace|
  {
    c.dwell == 0 || forall w :: LastWebhook(trace, n, from, to, w) ==> at - trace[w].at >= c.dwell
  }

  /** How long the trace was when the engine last forgot when it alerted about n. */
  ghost function ForgotAt(c: Config, s: State, n: NodeId, steps: seq<Step>, from: nat): nat
    decreases |steps|
  {
    if steps == [] then from
    else ForgotAt(c, Apply(c, s, steps[0]), n, steps[1..], if Remembers(s, n, steps[0]) then from else |s.trace|)
  }

  /** What the engine remembers of n is its last webhook since event `from`. */
  ghost predicate Recalls(s: State, n: NodeId, from: int) {
    && 0 <= from <= |s.trace|
    && (if n in s.alerts
        then exists w :: LastWebhook(s.trace, n, from, |s.trace|, w) && s.trace[w].at == s.alerts[n]
        else forall w :: from <= w < |s.trace| ==> !IsWebhook(s.trace[w], n))
  }

  lemma ProcessKeepsRecalls(c: Config, s: State, m: NodeId, o: Observation, n: NodeId, from: int)
    requires Recalls(s, n, from)
    ensures Recalls(Process(c, s, m, o), n, from)
  {
    var t, len := Process(c, s, m, o), |s.trace|;
    var added := Added(c, s, m, o);
    assert forall u :: 0 <= u < len ==> t.trace[u] == s.trace[u];
    assert forall u :: len <= u < |t.trace| ==> t.trace[u] == added[u - len];
    AddedIsWebhook(c, s, m, o, n);
    if m == n && |added| == 3 {
      assert LastWebhook(t.trace, n, from, |t.trace|, len + 2);
    } else if n in s.alerts {
      var w :| LastWebhook(s.trace, n, from, len, w) && s.trace[w].at == s.alerts[n];
      assert LastWebhook(t.trace, n, from, |t.trace|, w);
    }
  }

  lemma AddedIsWebhook(c: Config, s: State, m: NodeId, o: Observation, n: NodeId)
    ensures var added := Added(c, s, m, o);
      && |added| <= 3
      && (forall k :: 0 <= k < |added| ==> (IsWebhook(added[k], n) <==> k == 2 && m == n))
      && (|added| == 3 ==> added[2].at == o.ts)
  {
  }

  lemma {:induction false} RunKeepsRecalls(c: Config, s: State, steps: seq<Step>, n: NodeId, from: nat)
    requires Recalls(s, n, from)
    ensures Recalls(Run(c, s, steps), n, ForgotAt(c, s, n, steps, from))
    decreases |steps|
  {
    if steps != [] {
      match steps[0] {
        case Probed(m, o) => ProcessKeepsRecalls(c, s, m, o, n, from);
        case Pushed(m, now) => ProcessKeepsRecalls(c, s, m, Observation(now, None, true), n, from);
        case _ =>
      }
      RunKeepsRecalls(c, Apply(c, s, steps[0]), steps[1..], n, if Remembers(s, n, steps[0]) then from else |s.trace|);
    }
  }

  /** In every run, an entry of n is followed by its webhook if and only if there is no dwell, or no webhook of n
      since the engine last forgot about n (a restart, or a collection while n is not loaded), or the last one lies at
      least the dwell before. */
  lemma WebhookIff(c: Config, trust: Trust, steps: seq<Step>, step: Step, n: NodeId, j: nat)
    requires var s, t := Run(c, Start(trust), steps), Run(c, Start(trust), steps + [step]);
      |s.trace| <= j < |t.trace| && t.trace[j].Logged? && t.trace[j].node == n
    ensures var t := Run(c, Start(trust), steps + [step]);
      var from := ForgotAt(c, Start(trust), n, steps, 0);
      && from <= j
      && ((j + 1 < |t.trace| && t.trace[j + 1] == Webhook(n, t.trace[j].down, t.trace[j].at)) <==>
            DwellOver(c, t.trace, n, from, j, t.trace[j].at))
  {
    RunSnoc(c, Start(trust), steps, step);
    var s, from := Run(c, Start(trust), steps), ForgotAt(c, Start(trust), n, steps, 0);
    RunKeepsRecalls(c, Start(trust), steps, n, 0);
    match step {
      case Probed(m, o) => EntryAlerts(c, s, m, o, n, from, j);
      case Pushed(m, now) => EntryAlerts(c, s, m, Observation(now, None, true), n, from, j);
      case _ =>
    }
  }

  lemma EntryAlerts(c: Config, s: State, m: NodeId, o: Observation, n: NodeId, from: int, j: nat)
    requires Recalls(s, n, from)
    requires var t := Process(c, s, m, o);
      |s.trace| <= j < |t.trace| && t.trace[j].Logged? && t.trace[j].node == n
    ensures var t := Process(c, s, m, o);
      (j + 1 < |t.trace| && t.trace[j + 1] == Webhook(n, t.trace[j].down, t.trace[j].at)) <==>
        DwellOver(c, t.trace, n, from, j, t.trace[j].at)
  {
    var t, len := Process(c, s, m, o), |s.trace|;
    var added := Added(c, s, m, o);
    assert forall u :: 0 <= u < len ==> t.trace[u] == s.trace[u];
    assert forall u :: len <= u < |t.trace| ==> t.trace[u] == added[u - len];
    assert m == n && j == len + 1 && t.trace[j].at == o.ts;
    forall w ensures LastWebhook(t.trace, n, from, j, w) <==> LastWebhook(s.trace, n, from, len, w) {
      assert !IsWebhook(t.trace[len], n);
    }
    if n in s.alerts {
      var w :| LastWebhook(s.trace, n, from, len, w) && s.trace[w].at == s.alerts[n];
      assert forall v :: LastWebhook(s.trace, n, from, len, v) ==> v == w;
    }
  }

  /** So the first entry ever logged of a peer always sends one. */
  lemma FirstEntryAlerts(c: Config, trust: Trust, steps: seq<Step>, step: Step, n: NodeId, j: nat)
    requires var s, t := Run(c, Start(trust), steps), Run(c, Start(trust), steps + [step]);
      |s.trace| <= j < |t.trace| && t.trace[j].Logged? && t.trace[j].node == n
    requires forall i :: 0 <= i < j && Run(c, Start(trust), steps + [step]).trace[i].Logged? ==>
      Run(c, Start(trust), steps + [step]).trace[i].node != n
    ensures var t := Run(c, Start(trust), steps + [step]);
      j + 1 < |t.trace| && t.trace[j + 1] == Webhook(n, t.trace[j].down, t.trace[j].at)
  {
    var t := Run(c, Start(trust), steps + [step]);
    WebhookIff(c, trust, steps, step, n, j);
    RunKeepsExact(c, Start(trust), steps + [step]);
    forall w | 0 <= w < j ensures !IsWebhook(t.trace[w], n) {
      if IsWebhook(t.trace[w], n) {
        WebhookHasEntry(t.trace, n, w);
      }
    }
  }

  lemma WebhookHasEntry(trace: seq<Event>, n: NodeId, w: nat)
    requires Caused(trace) && w < |trace| && IsWebhook(trace[w], n)
    ensures exists i :: 0 <= i < w && trace[i].Logged? && trace[i].node == n
  {
    assert trace[w - 1].Logged? && trace[w - 1].node == n;
  }
}
