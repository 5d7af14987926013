/** The monitoring engine (src/engine.py, src/alpn/heartbeat.py, src/alpn/push.py, src/history.py): all peers, the
    probe history, the log events and webhooks of their transitions, reloads and restarts. */
module Engine {
  import opened Common
  import opened Liveness

  type NodeId = string

  const DAY := 86400

  datatype Row = Row(node: NodeId, o: Observation)

  datatype Interval = Interval(start: int, end: int)

  /** What the engine reads from the trust store: the peers with the monitor permission and a well-formed id,
      and the maintenance windows that have both ends. */
  datatype Trust = Trust(monitored: set<NodeId>, windows: map<NodeId, Interval>)

  /** `Logged` is a monitor_up or monitor_down entry with its consecutive count. */
  datatype Event =
    | Seen(node: NodeId, o: Observation)
    | Logged(node: NodeId, down: bool, count: nat, at: int)
    | Webhook(node: NodeId, down: bool, at: int)

  /** `trace` lists, in order, every observation processed, transition logged and webhook sent. */
  datatype State = State(devices: map<NodeId, Peer>, alerts: map<NodeId, int>, history: seq<Row>, trust: Trust,
      trace: seq<Event>)

  datatype Step =
    | Probed(node: NodeId, o: Observation)   // a probe that was not skipped has ended; o.ts is when it began
    | Pushed(node: NodeId, now: int)
    | Reload(now: int)
    | Restart(now: int)
    | Gc(cutoff: int)
    | SetTrust(trust: Trust)

  // ----------------------------------------------------------- history reads

  function OfNode(n: NodeId): Row -> Option<Observation> {
    (row: Row) => if row.node == n then Some(row.o) else None
  }

  function RowsOf(history: seq<Row>, n: NodeId): seq<Observation> {
    Collect(history, OfNode(n))
  }

  function NotBefore(cutoff: int): Observation -> Option<Observation> {
    (o: Observation) => if o.ts >= cutoff then Some(o) else None
  }

  function Since(rows: seq<Observation>, cutoff: int): seq<Observation> {
    Collect(rows, NotBefore(cutoff))
  }

  function RowNotBefore(cutoff: int): Row -> Option<Row> {
    (row: Row) => if row.o.ts >= cutoff then Some(row) else None
  }

  function PruneHistory(history: seq<Row>, cutoff: int): seq<Row> {
    Collect(history, RowNotBefore(cutoff))
  }

  /** ORDER BY ts: a row goes after every row that is not newer. */
  function Insert(sorted: seq<Observation>, o: Observation): seq<Observation> {
    var n := |sorted| - 1;
    if sorted == [] || sorted[n].ts <= o.ts then sorted + [o] else Insert(sorted[..n], o) + [sorted[n]]
  }

  function SortByTs(rows: seq<Observation>): seq<Observation> {
    if rows == [] then [] else Insert(SortByTs(rows[..|rows| - 1]), rows[|rows| - 1])
  }

  /** `recent_rows(node, hours=24)`. */
  function Recent(history: seq<Row>, n: NodeId, now: int): seq<Observation> {
    SortByTs(Since(RowsOf(history, n), now - DAY))
  }

  lemma {:induction false} RowsOfCount(history: seq<Row>, n: NodeId, o: Observation)
    ensures multiset(RowsOf(history, n))[o] == multiset(history)[Row(n, o)]
    decreases |history|
  {
    if history != [] {
      var init, last := history[..|history| - 1], history[|history| - 1];
      RowsOfCount(init, n, o);
      assert history == init + [last];
      CollectSnoc(init, last, OfNode(n));
    }
  }

  lemma {:induction false} SinceCount(rows: seq<Observation>, cutoff: int, o: Observation)
    ensures multiset(Since(rows, cutoff))[o] == if o.ts >= cutoff then multiset(rows)[o] else 0
    decreases |rows|
  {
    if rows != [] {
      var init, last := rows[..|rows| - 1], rows[|rows| - 1];
      SinceCount(init, cutoff, o);
      assert rows == init + [last];
      CollectSnoc(init, last, NotBefore(cutoff));
    }
  }

  /** A load reads exactly the node's own rows of the last 24 hours, each as often as it was written, oldest first. */
  lemma RecentIs(history: seq<Row>, n: NodeId, now: int)
    ensures InOrder(Recent(history, n, now))
    ensures forall o: Observation ::
      multiset(Recent(history, n, now))[o] == if o.ts >= now - 24 * 3600 then multiset(history)[Row(n, o)] else 0
  {
    var rows := Since(RowsOf(history, n), now - DAY);
    SortOrders(rows);
    forall o: Observation
      ensures multiset(rows)[o] == if o.ts >= now - 24 * 3600 then multiset(history)[Row(n, o)] else 0
    {
      RowsOfCount(history, n, o);
      SinceCount(RowsOf(history, n), now - DAY, o);
    }
  }

  /** A collection keeps exactly the rows that are not older than the cutoff, as often as they were written. */
  lemma {:induction false} PruneKeepsRecent(history: seq<Row>, cutoff: int, row: Row)
    ensures multiset(PruneHistory(history, cutoff))[row] == if row.o.ts >= cutoff then multiset(history)[row] else 0
    decreases |history|
  {
    if history != [] {
      var init, last := history[..|history| - 1], history[|history| - 1];
      PruneKeepsRecent(init, cutoff, row);
      assert history == init + [last];
      CollectSnoc(init, last, RowNotBefore(cutoff));
    }
  }

  ghost predicate InOrder(rows: seq<Observation>) {
    forall i, j :: 0 <= i <= j < |rows| ==> rows[i].ts <= rows[j].ts
  }

  lemma {:induction false} InsertBelow(sorted: seq<Observation>, o: Observation, bound: int)
    requires o.ts <= bound && forall i :: 0 <= i < |sorted| ==> sorted[i].ts <= bound
    ensures forall i :: 0 <= i < |Insert(sorted, o)| ==> Insert(sorted, o)[i].ts <= bound
    decreases |sorted|
  {
    var n := |sorted| - 1;
    if sorted != [] && sorted[n].ts > o.ts {
      InsertBelow(sorted[..n], o, bound);
    }
  }

  lemma {:induction false} InsertOrders(sorted: seq<Observation>, o: Observation)
    requires InOrder(sorted)
    ensures InOrder(Insert(sorted, o))
    decreases |sorted|
  {
    var n := |sorted| - 1;
    if sorted != [] && sorted[n].ts > o.ts {
      InsertOrders(sorted[..n], o);
      InsertBelow(sorted[..n], o, sorted[n].ts);
    }
  }

  lemma {:induction false} InsertAdds(sorted: seq<Observation>, o: Observation)
    ensures multiset(Insert(sorted, o)) == multiset(sorted) + multiset{o}
    decreases |sorted|
  {
    var n := |sorted| - 1;
    if sorted != [] && sorted[n].ts > o.ts {
      InsertAdds(sorted[..n], o);
      assert sorted == sorted[..n] + [sorted[n]];
    }
  }

  /** The rows come back ordered by time, none lost and none added. */
  lemma {:induction false} SortOrders(rows: seq<Observation>)
    ensures InOrder(SortByTs(rows)) && multiset(SortByTs(rows)) == multiset(rows)
    decreases |rows|
  {
    if rows != [] {
      var n := |rows| - 1;
      SortOrders(rows[..n]);
      InsertOrders(SortByTs(rows[..n]), rows[n]);
      InsertAdds(SortByTs(rows[..n]), rows[n]);
      assert rows == rows[..n] + [rows[n]];
    }
  }

  /** Rows written in order of time are read back as they were written. */
  lemma {:induction false} SortKeepsOrdered(rows: seq<Observation>)
    requires InOrder(rows)
    ensures SortByTs(rows) == rows
    decreases |rows|
  {
    if rows != [] {
      var n := |rows| - 1;
      PrefixInOrder(rows, n);
      SortKeepsOrdered(rows[..n]);
      InsertLast(rows[..n], rows[n]);
      assert rows[..n] + [rows[n]] == rows;
    }
  }

  lemma PrefixInOrder(rows: seq<Observation>, n: nat)
    requires InOrder(rows) && n <= |rows|
    ensures InOrder(rows[..n])
    ensures 0 < n < |rows| ==> rows[..n][n - 1].ts <= rows[n].ts
  {
  }

  lemma InsertLast(sorted: seq<Observation>, o: Observation)
    requires sorted != [] ==> sorted[|sorted| - 1].ts <= o.ts
    ensures Insert(sorted, o) == sorted + [o]
  {
  }

  // ------------------------------------------------------------- transitions

  predicate InMaintenance(trust: Trust, n: NodeId, now: int) {
    n in trust.windows && trust.windows[n].start <= now <= trust.windows[n].end
  }

  predicate Dwelling(c: Config, alerts: map<NodeId, int>, n: NodeId, now: int) {
    c.dwell > 0 && n in alerts && now - alerts[n] < c.dwell
  }

  /** What a change from `prev` to q.status puts on record. */
  function Consequences(c: Config, alerts: map<NodeId, int>, trust: Trust, n: NodeId, prev: Status, q: Peer,
      now: int): seq<Event> {
    if q.status == prev || prev == Unknown || InMaintenance(trust, n, now) then []
    else
      var down := q.status == Dead;
      var logged := Logged(n, down, if down then q.failures else q.successes, now);
      if Dwelling(c, alerts, n, now) then [logged] else [logged, Webhook(n, down, now)]
  }

  /** The loaded peer, or the transient state a push creates. */
  function Lookup(s: State, n: NodeId): Peer {
    if n in s.devices then s.devices[n] else FreshPeer
  }

  /** The events one observation puts on the trace: itself, an entry if it is logged, a webhook if one is sent. */
  function Added(c: Config, s: State, n: NodeId, o: Observation): seq<Event> {
    [Seen(n, o)] + Consequences(c, s.alerts, s.trust, n, Lookup(s, n).status, Observe(c, Lookup(s, n), o), o.ts)
  }

  /** Collecting from what one observation adds goes event by event. */
  lemma CollectAdded<U>(c: Config, s: State, m: NodeId, o: Observation, f: Event -> Option<U>)
    ensures var added := Added(c, s, m, o);
      |added| <= 3 && Collect(added, f) ==
        Picked(f, added[0]) + (if |added| == 1 then [] else if |added| == 2 then Picked(f, added[1])
                               else Picked(f, added[1]) + Picked(f, added[2]))
  {
    var added := Added(c, s, m, o);
    var rest := added[1..];
    assert added == [added[0]] + rest;
    CollectAppend([added[0]], rest, f);
    CollectOne(added[0], f);
    if |rest| == 1 {
      assert rest == [added[1]];
      CollectOne(added[1], f);
    } else if |rest| == 2 {
      assert rest == [added[1], added[2]];
      CollectTwo(added[1], added[2], f);
    }
  }

  function Process(c: Config, s: State, n: NodeId, o: Observation): State {
    var added := Added(c, s, n, o);
    State(if n in s.devices then s.devices[n := Observe(c, s.devices[n], o)] else s.devices,
          if |added| == 3 then s.alerts[n := o.ts] else s.alerts,
          s.history + [Row(n, o)], s.trust, s.trace + added)
  }

  function Loaded(c: Config, s: State, now: int): map<NodeId, Peer> {
    map n | n in s.trust.monitored :: Hydrated(c, Recent(s.history, n, now))
  }

  function Apply(c: Config, s: State, step: Step): State {
    match step
    case Probed(n, o) => if n in s.devices then Process(c, s, n, o) else s
    case Pushed(n, now) => Process(c, s, n, Observation(now, None, true))
    case Reload(now) => s.(devices := Loaded(c, s, now))
    case Restart(now) => s.(devices := Loaded(c, s, now), alerts := map[])
    case Gc(cutoff) =>
      s.(history := PruneHistory(s.history, cutoff),
         alerts := map n | n in s.alerts && n in s.devices :: s.alerts[n])
    case SetTrust(trust) => s.(trust := trust)
  }

  /** A first start: no history, nothing logged. */
  function Start(trust: Trust): State {
    State(map n | n in trust.monitored :: FreshPeer, map[], [], trust, [])
  }

  /** It is what a restart over an empty history gives. */
  lemma StartIsRestart(c: Config, trust: Trust, now: int)
    ensures Start(trust) == Apply(c, State(map[], map[], [], trust, []), Restart(now))
  {
    forall n ensures Recent([], n, now) == [] {
      assert Since(RowsOf([], n), now - DAY) == [];
    }
  }

  function Run(c: Config, s: State, steps: seq<Step>): State
    decreases |steps|
  {
    if steps == [] then s else Run(c, Apply(c, s, steps[0]), steps[1..])
  }

  /** A run and one more step. */
  lemma {:induction false} RunSnoc(c: Config, s: State, steps: seq<Step>, step: Step)
    ensures Run(c, s, steps + [step]) == Apply(c, Run(c, s, steps), step)
    decreases |steps|
  {
    var all := steps + [step];
    if steps == [] {
      assert all == [step] && all[1..] == [];
    } else {
      RunSnoc(c, Apply(c, s, steps[0]), steps[1..], step);
      assert all[1..] == steps[1..] + [step];
    }
  }

  // --------------------------------------------------------------- the class

  class MonitorEngine {
    const config: Config
    var devices: map<NodeId, PeerState>
    var lastAlertFired: map<NodeId, int>
    var history: seq<Row>
    var trust: Trust
    ghost var trace: seq<Event>

    /** A start or restart: the history and the log survive, the alert times do not. */
    constructor (config: Config, trust: Trust, history: seq<Row>, ghost trace: seq<Event>, now: int)
      ensures Valid() && this.config == config
      ensures View() == Apply(config, State(map[], map[], history, trust, trace), Restart(now))
    {
      this.config, this.trust, this.history, this.trace := config, trust, history, trace;
      devices, lastAlertFired := map[], map[];
      new;
      ApplyDevicesReload(now);
    }

    /** No two peers share a state object. */
    ghost predicate Valid()
      reads this
    {
      forall n, m :: n in devices && m in devices && n != m ==> devices[n] != devices[m]
    }

    ghost function Peers(): map<NodeId, Peer>
      reads this, devices.Values
    {
      map n | n in devices :: devices[n].View()
    }

    ghost function View(): State
      reads this, devices.Values
    {
      State(Peers(), lastAlertFired, history, trust, trace)
    }

    /** `_maybe_transition`, after the peer's counters took in the observation. */
    method MaybeTransition(n: NodeId, peer: PeerState, o: Observation)
      modifies this`lastAlertFired, this`trace, peer`currentStatus
      ensures peer.View() == old(peer.View()).(status := NewStatus(config, old(peer.View()), o.alive))
      ensures var added := Consequences(config, old(lastAlertFired), trust, n, old(peer.currentStatus),
          peer.View(), o.ts);
        && trace == old(trace) + added
        && lastAlertFired == if |added| == 2 then old(lastAlertFired)[n := o.ts] else old(lastAlertFired)
    {
      var prev, changed := peer.Transition(config, o.alive);
      assert trace + [] == trace;
      if !changed || prev == Unknown {
        return;
      }
      if InMaintenance(trust, n, o.ts) {
        return;
      }
      var down := peer.currentStatus == Dead;
      var count := if down then peer.consecutiveFailures else peer.consecutiveSuccesses;
      ghost var logged := Logged(n, down, count, o.ts);
      if config.dwell > 0 && n in lastAlertFired && o.ts - lastAlertFired[n] < config.dwell {
        trace := trace + [logged];
        return;
      }
      lastAlertFired := lastAlertFired[n := o.ts];
      trace := trace + [logged, Webhook(n, down, o.ts)];
    }

    /** `_probe_peer`; a peer inside a maintenance window is not probed. */
    method ProbePeer(n: NodeId, o: Observation)
      requires Valid() && n in devices
      modifies this, devices[n]
      ensures Valid() && devices == old(devices)
      ensures View() ==
        if n in trust.windows && trust.windows[n].start <= o.ts && o.ts <= trust.windows[n].end then old(View())
        else Apply(config, old(View()), Probed(n, o))
    {
      if InMaintenance(trust, n, o.ts) {
        return;
      }
      TakeLoaded(n, o);
    }

    /** `_record_push_from`: a peer that is not loaded gets a state of its own that is then dropped. */
    method RecordPushFrom(n: NodeId, now: int)
      requires Valid()
      modifies this, devices.Values
      ensures Valid() && devices == old(devices)
      ensures View() == Apply(config, old(View()), Pushed(n, now))
    {
      var o := Observation(now, None, true);
      if n in devices {
        TakeLoaded(n, o);
      } else {
        TakeTransient(n, o);
      }
    }

    method TakeLoaded(n: NodeId, o: Observation)
      requires Valid() && n in devices
      modifies this, devices[n]
      ensures Valid() && devices == old(devices)
      ensures View() == Process(config, old(View()), n, o)
    {
      Take(n, devices[n], o);
    }

    method TakeTransient(n: NodeId, o: Observation)
      requires Valid() && n !in devices
      modifies this
      ensures Valid() && devices == old(devices)
      ensures View() == Process(config, old(View()), n, o)
    {
      var peer := new PeerState();
      Take(n, peer, o);
    }

    /** Counters, history row and transition for one observation. */
    method Take(n: NodeId, peer: PeerState, o: Observation)
      modifies this`history, this`trace, this`lastAlertFired, peer
      ensures peer.View() == Observe(config, old(peer.View()), o)
      ensures history == old(history) + [Row(n, o)]
      ensures var added := Consequences(config, old(lastAlertFired), trust, n, old(peer.currentStatus),
          peer.View(), o.ts);
        && trace == old(trace) + ([Seen(n, o)] + added)
        && lastAlertFired == if |added| == 2 then old(lastAlertFired)[n := o.ts] else old(lastAlertFired)
    {
      peer.Record(o);
      history := history + [Row(n, o)];
      trace := trace + [Seen(n, o)];
      MaybeTransition(n, peer, o);
      ConcatAssoc(old(trace), [Seen(n, o)], trace[|old(trace)| + 1..]);
    }

    /** `_load_devices`. */
    method LoadDevices(now: int) returns (loaded: map<NodeId, PeerState>)
      ensures loaded.Keys == trust.monitored
      ensures forall n :: n in loaded ==>
        fresh(loaded[n]) && loaded[n].View() == Hydrated(config, Recent(history, n, now))
      ensures forall n, m :: n in loaded && m in loaded && n != m ==> loaded[n] != loaded[m]
    {
      loaded := map[];
      var todo := trust.monitored;
      while todo != {}
        invariant todo <= trust.monitored && loaded.Keys == trust.monitored - todo
        invariant forall n :: n in loaded ==>
          fresh(loaded[n]) && loaded[n].View() == Hydrated(config, Recent(history, n, now))
        invariant forall n, m :: n in loaded && m in loaded && n != m ==> loaded[n] != loaded[m]
      {
        ghost var member := Member(todo);
        var n :| n in todo;
        var peer := new PeerState();
        peer.Hydrate(config, Recent(history, n, now));
        loaded, todo := loaded[n := peer], todo - {n};
      }
    }

    /** `_apply_devices_reload`. */
    method ApplyDevicesReload(now: int)
      requires Valid()
      modifies this`devices
      ensures Valid() && View() == Apply(config, old(View()), Reload(now))
    {
      devices := LoadDevices(now);
      assert Peers() == Loaded(config, old(View()), now);
    }

    /** `_run_history_gc`: old rows, and the alert times of peers that are no longer loaded. */
    method RunHistoryGc(cutoff: int)
      requires Valid()
      modifies this`history, this`lastAlertFired
      ensures Valid() && View() == Apply(config, old(View()), Gc(cutoff))
    {
      history := PruneHistory(history, cutoff);
      lastAlertFired := map n | n in lastAlertFired && n in devices :: lastAlertFired[n];
    }
  }

}
