/** The delta pull (src/logstore.py, src/alpn/status.py): a server ring that is replaced and pruned, a client
    that only remembers a cursor and a bounded deque, and replies that may arrive late or not at all. */
module DeltaPull {
  import opened Common
  import opened Aggregate
  import opened SnapshotStore

  const STATS_HISTORY_MAXLEN := 360

  /** A delivered reply as JSON leaves it: `ownStats` and `latest` are None when missing or of another type. */
  datatype Delivered = Delivered(ownStats: Option<string>, entries: seq<Entry>, latest: Option<int>)

  /** The pull-related fields of `PeerState`. */
  class PullClient {
    var lastPulledSeq: int
    var statsHistory: seq<Entry>
    var lastStats: Option<string>
    var pullFailures: nat
    var hasDashboardGap: bool

    constructor ()
      ensures lastPulledSeq == 0 && statsHistory == [] && lastStats == None && pullFailures == 0 && !hasDashboardGap
    {
      lastPulledSeq, statsHistory, lastStats, pullFailures, hasDashboardGap := 0, [], None, 0, false;
    }

    /** `deque(maxlen=360)`. */
    ghost predicate Valid()
      reads this
    {
      |statsHistory| <= STATS_HISTORY_MAXLEN
    }

    /** The client half of a pull that got its reply. */
    method ApplyReply(d: Delivered)
      requires Valid()
      modifies this
      ensures Valid()
      ensures statsHistory == LastN(old(statsHistory) + d.entries, STATS_HISTORY_MAXLEN)
      ensures lastPulledSeq == if d.latest.Some? then d.latest.value else old(lastPulledSeq)
      ensures lastStats == if d.ownStats.Some? then d.ownStats else old(lastStats)
      ensures pullFailures == 0 && !hasDashboardGap
    {
      if d.ownStats.Some? {
        lastStats := d.ownStats;
      }
      AppendEntries(d.entries);
      if d.latest.Some? {
        lastPulledSeq := d.latest.value;
      }
      pullFailures := 0;
      if hasDashboardGap {
        hasDashboardGap := false;
      }
    }

    method AppendEntries(entries: seq<Entry>)
      requires Valid()
      modifies this`statsHistory
      ensures Valid() && statsHistory == LastN(old(statsHistory) + entries, STATS_HISTORY_MAXLEN)
    {
      assert old(statsHistory) + entries[..0] == statsHistory;
      for i := 0 to |entries|
        invariant statsHistory == LastN(old(statsHistory) + entries[..i], STATS_HISTORY_MAXLEN)
      {
        LastNAppend(old(statsHistory) + entries[..i], entries[i], STATS_HISTORY_MAXLEN);
        assert old(statsHistory) + entries[..i + 1] == old(statsHistory) + entries[..i] + [entries[i]];
        statsHistory := LastN(statsHistory + [entries[i]], STATS_HISTORY_MAXLEN);
      }
      assert entries[..|entries|] == entries;
    }
  }

  // ------------------------------------------------------- one server, one client

  /** `issued` lists every row the server ever wrote, in order; `received` every entry delivered to the
      client since its state was created; `flight` is a reply on its way. */
  datatype Link = Link(raw: map<int, RawRow>, clock: nat, issued: seq<RawRow>,
                       cursor: nat, deque: seq<Entry>, received: seq<Entry>, flight: Option<Reply>)

  const Init := Link(map[], 0, [], 0, [], [], None)

  datatype Step =
    | RecordRow(now: nat, snap: Snap)
    | PruneRows(now: nat)
    | Serve               // the request arrives and the reply is computed
    | Deliver             // the reply arrives
    | Lose                // the request or the reply is lost
    | ResetClient         // a device reload replaces the client's state

  ghost function Apply(l: Link, s: Step): Link {
    match s
    case RecordRow(now, snap) =>
      l.(raw := Record(l.raw, now, snap), clock := now, issued := l.issued + [RawRow(snap, NextSeq(l.raw))])
    case PruneRows(now) => l.(raw := PruneRaw(l.raw, now), clock := now)
    case Serve => l.(flight := Some(Delta(l.raw, l.cursor)))
    case Deliver =>
      if l.flight.None? then l else
        var r := l.flight.value;
        l.(cursor := r.latestSeq, received := l.received + r.entries,
           deque := LastN(l.deque + r.entries, STATS_HISTORY_MAXLEN), flight := None)
    case Lose => l.(flight := None)
    case ResetClient => l.(cursor := 0, deque := [], received := [], flight := None)
  }

  /** The clock does not go back, and a prune does not empty a ring that has rows. */
  ghost predicate Legal(l: Link, s: Step) {
    match s
    case RecordRow(now, _) => l.clock <= now
    case PruneRows(now) => l.clock <= now && (l.raw.Keys == {} || PruneRaw(l.raw, now).Keys != {})
    case _ => true
  }

  ghost function Run(l: Link, steps: seq<Step>): Link
    decreases steps
  {
    if steps == [] then l else Run(Apply(l, steps[0]), steps[1..])
  }

  ghost predicate LegalRun(l: Link, steps: seq<Step>)
    decreases steps
  {
    steps == [] || (Legal(l, steps[0]) && LegalRun(Apply(l, steps[0]), steps[1..]))
  }

  // ---------------------------------------------------------------- invariant

  /** Every surviving row is the one issued under its seq, and was recorded by now. */
  ghost predicate Issued(raw: map<int, RawRow>, clock: nat, issued: seq<RawRow>) {
    forall t :: t in raw ==> t <= clock && 1 <= raw[t].seqno <= |issued| && issued[raw[t].seqno - 1] == raw[t]
  }

  ghost predicate SeqsFollowTime(raw: map<int, RawRow>) {
    forall t, u :: t in raw && u in raw && t < u ==> raw[t].seqno < raw[u].seqno
  }

  ghost predicate Numbered(issued: seq<RawRow>) {
    forall i :: 0 <= i < |issued| ==> issued[i].seqno == i + 1
  }

  ghost predicate RingOk(l: Link) {
    && DistinctSeqs(l.raw)
    && MaxSeq(l.raw) == |l.issued|
    && Issued(l.raw, l.clock, l.issued)
    && SeqsFollowTime(l.raw)
    && Numbered(l.issued)
  }

  /** The entries have strictly increasing seqs in (lo, hi], and each carries the row issued under its seq. */
  ghost predicate Genuine(entries: seq<Entry>, issued: seq<RawRow>, lo: int, hi: int) {
    && (forall i :: 0 <= i < |entries| ==> lo < entries[i].seqno <= hi)
    && (forall i :: 0 <= i < |entries| ==>
          1 <= entries[i].seqno <= |issued| && Carries(entries[i], issued[entries[i].seqno - 1]))
    && (forall i, j :: 0 <= i < j < |entries| ==> entries[i].seqno < entries[j].seqno)
  }

  /** Every surviving row with lo < seq <= hi is among the entries. */
  ghost predicate Covers(entries: seq<Entry>, raw: map<int, RawRow>, lo: int, hi: int) {
    forall t :: t in raw && lo < raw[t].seqno <= hi ==> Shows(entries, raw[t])
  }

  ghost predicate ClientOk(l: Link) {
    && l.cursor <= |l.issued|
    && Genuine(l.received, l.issued, 0, l.cursor)
    && Covers(l.received, l.raw, l.cursor - MAX_ENTRIES, l.cursor)
    && l.deque == LastN(l.received, STATS_HISTORY_MAXLEN)
  }

  ghost predicate FlightOk(l: Link) {
    l.flight.Some? ==>
      var r := l.flight.value;
      var lo := Max(l.cursor, r.latestSeq - MAX_ENTRIES);
      && l.cursor <= r.latestSeq <= |l.issued|
      && Genuine(r.entries, l.issued, lo, r.latestSeq)
      && Covers(r.entries, l.raw, lo, r.latestSeq)
  }

  ghost predicate Inv(l: Link) { RingOk(l) && ClientOk(l) && FlightOk(l) }

  // ----------------------------------------------------------------- steps

  lemma MaxSeqIs(raw: map<int, RawRow>, t: int)
    requires t in raw && forall u :: u in raw ==> raw[u].seqno <= raw[t].seqno
    ensures MaxSeq(raw) == raw[t].seqno
  {
  }

  lemma RecordKeepsOrder(raw: map<int, RawRow>, clock: nat, issued: seq<RawRow>, now: nat, snap: Snap)
    requires Issued(raw, clock, issued) && SeqsFollowTime(raw) && MaxSeq(raw) == |issued| && clock <= now
    ensures SeqsFollowTime(Record(raw, now, snap))
    ensures Issued(Record(raw, now, snap), now, issued + [RawRow(snap, NextSeq(raw))])
  {
  }

  lemma RecordKeepsRing(l: Link, now: nat, snap: Snap)
    requires RingOk(l) && l.clock <= now
    ensures RingOk(Apply(l, RecordRow(now, snap)))
  {
    var raw := Record(l.raw, now, snap);
    RecordKeepsOrder(l.raw, l.clock, l.issued, now, snap);
    assert DistinctSeqs(raw);
    MaxSeqIs(raw, now);
  }

  lemma GenuineGrows(entries: seq<Entry>, issued: seq<RawRow>, row: RawRow, lo: int, hi: int)
    requires Genuine(entries, issued, lo, hi)
    ensures Genuine(entries, issued + [row], lo, hi)
  {
  }

  lemma CoversRecord(entries: seq<Entry>, raw: map<int, RawRow>, now: int, snap: Snap, lo: int, hi: int)
    requires Covers(entries, raw, lo, hi) && hi <= MaxSeq(raw)
    ensures Covers(entries, Record(raw, now, snap), lo, hi)
  {
  }

  lemma RecordKeepsClient(l: Link, now: nat, snap: Snap)
    requires Inv(l)
    ensures ClientOk(Apply(l, RecordRow(now, snap)))
  {
    GenuineGrows(l.received, l.issued, RawRow(snap, NextSeq(l.raw)), 0, l.cursor);
    CoversRecord(l.received, l.raw, now, snap, l.cursor - MAX_ENTRIES, l.cursor);
  }

  lemma RecordKeepsFlight(l: Link, now: nat, snap: Snap)
    requires Inv(l)
    ensures FlightOk(Apply(l, RecordRow(now, snap)))
  {
    if l.flight.Some? {
      var r := l.flight.value;
      var lo := Max(l.cursor, r.latestSeq - MAX_ENTRIES);
      GenuineGrows(r.entries, l.issued, RawRow(snap, NextSeq(l.raw)), lo, r.latestSeq);
      CoversRecord(r.entries, l.raw, now, snap, lo, r.latestSeq);
    }
  }

  lemma RecordKeeps(l: Link, now: nat, snap: Snap)
    requires Inv(l) && l.clock <= now
    ensures Inv(Apply(l, RecordRow(now, snap)))
  {
    RecordKeepsRing(l, now, snap);
    RecordKeepsClient(l, now, snap);
    RecordKeepsFlight(l, now, snap);
  }

  lemma CoversPrune(entries: seq<Entry>, raw: map<int, RawRow>, now: int, lo: int, hi: int)
    requires Covers(entries, raw, lo, hi)
    ensures Covers(entries, PruneRaw(raw, now), lo, hi)
  {
  }

  lemma PruneKeepsRing(l: Link, now: nat)
    requires RingOk(l) && Legal(l, PruneRows(now))
    ensures RingOk(Apply(l, PruneRows(now)))
  {
    var p := PruneRaw(l.raw, now);
    PruneKeepsNewest(l, now);
    if l.raw.Keys == {} {
      assert p == map[] && l.raw == map[];
    }
    assert DistinctSeqs(p) && SeqsFollowTime(p) && Issued(p, now, l.issued);
  }

  lemma PruneKeepsClient(l: Link, now: nat)
    requires ClientOk(l)
    ensures ClientOk(Apply(l, PruneRows(now)))
  {
    CoversPrune(l.received, l.raw, now, l.cursor - MAX_ENTRIES, l.cursor);
  }

  lemma PruneKeepsFlight(l: Link, now: nat)
    requires FlightOk(l)
    ensures FlightOk(Apply(l, PruneRows(now)))
  {
    if l.flight.Some? {
      var r := l.flight.value;
      CoversPrune(r.entries, l.raw, now, Max(l.cursor, r.latestSeq - MAX_ENTRIES), r.latestSeq);
    }
  }

  lemma PruneKeeps(l: Link, now: nat)
    requires Inv(l) && Legal(l, PruneRows(now))
    ensures Inv(Apply(l, PruneRows(now)))
  {
    PruneKeepsRing(l, now);
    PruneKeepsClient(l, now);
    PruneKeepsFlight(l, now);
  }

  /** As long as anything survives, the row with the highest seq does, so numbering goes on. */
  lemma PruneKeepsNewest(l: Link, now: nat)
    requires RingOk(l)
    ensures PruneRaw(l.raw, now).Keys != {} ==> MaxSeq(PruneRaw(l.raw, now)) == MaxSeq(l.raw)
    ensures PruneRaw(l.raw, now).Keys == {} ==> MaxSeq(PruneRaw(l.raw, now)) == 0
  {
    var p := PruneRaw(l.raw, now);
    if p.Keys != {} {
      var t := Member(p.Keys);
      assert l.raw[t].seqno <= MaxSeq(l.raw);
      var u :| u in l.raw && l.raw[u].seqno == MaxSeq(l.raw);
      assert t <= u;
      assert u in p;
      MaxSeqIs(p, u);
    }
  }

  lemma RowIssued(l: Link, lo: int, hi: int, i: nat)
    requires RingOk(l) && i < |BySeq(l.raw, lo, hi)|
    ensures var row := BySeq(l.raw, lo, hi)[i];
      lo < row.seqno <= hi && 1 <= row.seqno <= |l.issued| && l.issued[row.seqno - 1] == row
  {
    BySeqSound(l.raw, lo, hi);
    assert InTable(l.raw, BySeq(l.raw, lo, hi)[i]);
  }

  lemma GenuineRows(rows: seq<RawRow>, issued: seq<RawRow>, lo: int, hi: int)
    requires forall i :: 0 <= i < |rows| ==>
      lo < rows[i].seqno <= hi && 1 <= rows[i].seqno <= |issued| && issued[rows[i].seqno - 1] == rows[i]
    requires forall i, j :: 0 <= i < j < |rows| ==> rows[i].seqno < rows[j].seqno
    ensures Genuine(ProjectAll(rows), issued, lo, hi)
  {
  }

  lemma ReplyGenuine(l: Link, lo: int, hi: int)
    requires RingOk(l)
    ensures Genuine(ProjectAll(BySeq(l.raw, lo, hi)), l.issued, lo, hi)
  {
    var rows := BySeq(l.raw, lo, hi);
    BySeqSound(l.raw, lo, hi);
    forall i | 0 <= i < |rows|
      ensures lo < rows[i].seqno <= hi && 1 <= rows[i].seqno <= |l.issued| && l.issued[rows[i].seqno - 1] == rows[i]
    {
      RowIssued(l, lo, hi, i);
    }
    GenuineRows(rows, l.issued, lo, hi);
  }

  lemma ReplyCovers(raw: map<int, RawRow>, lo: int, hi: int)
    requires DistinctSeqs(raw)
    ensures Covers(ProjectAll(BySeq(raw, lo, hi)), raw, lo, hi)
  {
    var rows := BySeq(raw, lo, hi);
    forall t | t in raw && lo < raw[t].seqno <= hi ensures Shows(ProjectAll(rows), raw[t]) {
      BySeqComplete(raw, lo, hi, t);
      var i :| 0 <= i < |rows| && rows[i] == raw[t];
      assert Carries(ProjectAll(rows)[i], raw[t]);
    }
  }

  lemma ServeKeeps(l: Link)
    requires Inv(l)
    ensures Inv(Apply(l, Serve))
  {
    var lo, hi := EffectiveSince(l.raw, l.cursor), MaxSeq(l.raw);
    ReplyGenuine(l, lo, hi);
    ReplyCovers(l.raw, lo, hi);
    assert FlightOk(Apply(l, Serve)) by {
      assert lo == Max(l.cursor, hi - MAX_ENTRIES);
    }
  }

  lemma GenuineConcat(a: seq<Entry>, b: seq<Entry>, issued: seq<RawRow>, mid: int, lo: int, hi: int)
    requires 0 <= mid <= lo <= hi
    requires Genuine(a, issued, 0, mid)
    requires Genuine(b, issued, lo, hi)
    ensures Genuine(a + b, issued, 0, hi)
  {
    var all := a + b;
    forall i | 0 <= i < |all|
      ensures 0 < all[i].seqno <= hi && all[i].seqno <= |issued| && Carries(all[i], issued[all[i].seqno - 1])
    {
      assert i < |a| || all[i] == b[i - |a|];
    }
    forall i, j | 0 <= i < j < |all| ensures all[i].seqno < all[j].seqno {
      assert i >= |a| ==> all[i] == b[i - |a|];
      assert j >= |a| ==> all[j] == b[j - |a|];
    }
  }

  lemma CoversConcat(a: seq<Entry>, b: seq<Entry>, raw: map<int, RawRow>, cursor: int, latest: int)
    requires Covers(a, raw, cursor - MAX_ENTRIES, cursor) && cursor <= latest
    requires Covers(b, raw, Max(cursor, latest - MAX_ENTRIES), latest)
    ensures Covers(a + b, raw, latest - MAX_ENTRIES, latest)
  {
    forall t | t in raw && latest - MAX_ENTRIES < raw[t].seqno <= latest ensures Shows(a + b, raw[t]) {
      ShowsConcat(a, b, raw[t]);
    }
  }

  lemma ShowsConcat(a: seq<Entry>, b: seq<Entry>, row: RawRow)
    ensures Shows(a + b, row) <==> Shows(a, row) || Shows(b, row)
  {
    if Shows(a, row) {
      var i :| 0 <= i < |a| && Carries(a[i], row);
      assert Carries((a + b)[i], row);
    }
    if Shows(b, row) {
      var i :| 0 <= i < |b| && Carries(b[i], row);
      assert Carries((a + b)[|a| + i], row);
    }
  }

  lemma DeliverKeeps(l: Link)
    requires Inv(l)
    ensures Inv(Apply(l, Deliver))
  {
    if l.flight.Some? {
      var r := l.flight.value;
      var lo := Max(l.cursor, r.latestSeq - MAX_ENTRIES);
      GenuineConcat(l.received, r.entries, l.issued, l.cursor, lo, r.latestSeq);
      CoversConcat(l.received, r.entries, l.raw, l.cursor, r.latestSeq);
      LastNConcat(l.received, r.entries, STATS_HISTORY_MAXLEN);
    }
  }

  lemma LastNConcat<T>(a: seq<T>, b: seq<T>, n: nat)
    ensures LastN(LastN(a, n) + b, n) == LastN(a + b, n)
  {
  }

  lemma StepKeeps(l: Link, s: Step)
    requires Inv(l) && Legal(l, s)
    ensures Inv(Apply(l, s))
  {
    match s
    case RecordRow(now, snap) => RecordKeeps(l, now, snap);
    case PruneRows(now) => PruneKeeps(l, now);
    case Serve => ServeKeeps(l);
    case Deliver => DeliverKeeps(l);
    case Lose =>
    case ResetClient =>
  }

  lemma {:induction false} RunKeeps(l: Link, steps: seq<Step>)
    requires Inv(l) && LegalRun(l, steps)
    ensures Inv(Run(l, steps))
    decreases steps
  {
    if steps != [] {
      StepKeeps(l, steps[0]);
      RunKeeps(Apply(l, steps[0]), steps[1..]);
    }
  }

  // ------------------------------------------------------------------ results

  /** Strictly increasing seqs: an entry within MAX_ENTRIES of the cursor cannot have been pushed out. */
  lemma StillInDeque(l: Link, i: nat)
    requires Inv(l) && i < |l.received| && l.received[i].seqno > l.cursor - MAX_ENTRIES
    ensures l.received[i] in l.deque
  {
    var n := |l.received|;
    var seqs := seq(n, j requires 0 <= j < n => l.received[j].seqno as int);
    IncreasingSpread(seqs, i, n - 1);
    assert seqs[n - 1] <= l.cursor;
    if n > STATS_HISTORY_MAXLEN {
      assert l.deque[i - (n - STATS_HISTORY_MAXLEN)] == l.received[i];
    }
  }

  /** Over any interleaving of records, prunes that leave the ring non-empty, served, delivered and lost
      pulls and client resets: what the client received has strictly increasing seqs (so no duplicate), is what
      the server issued, and its deque holds every surviving server row less than 360 behind the cursor. */
  lemma DequeHoldsWindow(steps: seq<Step>)
    requires LegalRun(Init, steps)
    ensures var l := Run(Init, steps);
      && (forall i, j :: 0 <= i < j < |l.received| ==> l.received[i].seqno < l.received[j].seqno)
      && (forall e :: e in l.received ==> 1 <= e.seqno <= |l.issued| && Carries(e, l.issued[e.seqno - 1]))
      && l.deque == LastN(l.received, STATS_HISTORY_MAXLEN)
      && Covers(l.deque, l.raw, l.cursor - MAX_ENTRIES, l.cursor)
  {
    ReachableInv(steps);
    DequeCovers(Run(Init, steps));
  }

  lemma ReachableInv(steps: seq<Step>)
    requires LegalRun(Init, steps)
    ensures Inv(Run(Init, steps))
  {
    assert MaxSeq(map[]) == 0;
    RunKeeps(Init, steps);
  }

  /** What the client received and must still have, the deque has. */
  lemma DequeCovers(l: Link)
    requires Inv(l)
    ensures Covers(l.deque, l.raw, l.cursor - MAX_ENTRIES, l.cursor)
  {
    forall t | t in l.raw && l.cursor - MAX_ENTRIES < l.raw[t].seqno <= l.cursor
      ensures Shows(l.deque, l.raw[t])
    {
      var i :| 0 <= i < |l.received| && Carries(l.received[i], l.raw[t]);
      StillInDeque(l, i);
      var j :| 0 <= j < |l.deque| && l.deque[j] == l.received[i];
    }
  }

  /** A pull served and delivered with nothing in between brings the client level with the server. */
  lemma PullCatchesUp(steps: seq<Step>)
    requires LegalRun(Init, steps)
    ensures var l := Run(Init, steps + [Serve, Deliver]);
      && l.cursor == |l.issued|
      && Covers(l.deque, l.raw, |l.issued| - MAX_ENTRIES, |l.issued|)
  {
    RunConcat(Init, steps, [Serve, Deliver]);
    ReachableInv(steps);
    ServeDeliver(Run(Init, steps));
    DequeHoldsWindow(steps + [Serve, Deliver]);
  }

  lemma ServeDeliver(l: Link)
    requires RingOk(l)
    ensures LegalRun(l, [Serve, Deliver])
    ensures var m := Run(l, [Serve, Deliver]);
      m.cursor == |l.issued| && m.issued == l.issued && m.raw == l.raw
  {
    assert [Serve, Deliver][1..] == [Deliver] && [Deliver][1..] == [];
    assert Run(Apply(l, Serve), [Deliver]) == Apply(Apply(l, Serve), Deliver);
  }

  lemma {:induction false} RunConcat(l: Link, a: seq<Step>, b: seq<Step>)
    ensures Run(l, a + b) == Run(Run(l, a), b)
    ensures LegalRun(l, a + b) <==> LegalRun(l, a) && LegalRun(Run(l, a), b)
    decreases a
  {
    if a == [] {
      assert a + b == b;
    } else {
      RunConcat(Apply(l, a[0]), a[1..], b);
      assert (a + b)[1..] == a[1..] + b;
    }
  }

  // --------------------------------------------- exactly when rows are missed

  datatype Recording = Recording(at: nat, snap: Snap)

  /** The table after these rows are recorded, one after the other. */
  ghost function RecordAll(raw: map<int, RawRow>, rows: seq<Recording>): map<int, RawRow>
    decreases |rows|
  {
    if rows == [] then raw else
      var last := rows[|rows| - 1];
      Record(RecordAll(raw, rows[..|rows| - 1]), last.at, last.snap)
  }

  /** Row j is not replaced by a later row of the same second. */
  ghost predicate Survives(rows: seq<Recording>, j: nat)
    requires j < |rows|
  {
    forall i :: j < i < |rows| ==> rows[i].at != rows[j].at
  }

  lemma RecordKeepsDistinct(raw: map<int, RawRow>, at: int, snap: Snap)
    requires DistinctSeqs(raw)
    ensures DistinctSeqs(Record(raw, at, snap))
    ensures MaxSeq(Record(raw, at, snap)) == MaxSeq(raw) + 1
  {
    MaxSeqIs(Record(raw, at, snap), at);
  }

  /** Rows are numbered on from the highest seq in the table, replaced rows included. */
  lemma {:induction false} RecordAllSeqs(raw: map<int, RawRow>, rows: seq<Recording>)
    requires DistinctSeqs(raw)
    ensures DistinctSeqs(RecordAll(raw, rows)) && MaxSeq(RecordAll(raw, rows)) == MaxSeq(raw) + |rows|
    decreases |rows|
  {
    if rows != [] {
      var init, last := rows[..|rows| - 1], rows[|rows| - 1];
      RecordAllSeqs(raw, init);
      RecordKeepsDistinct(RecordAll(raw, init), last.at, last.snap);
    }
  }

  lemma {:induction false} SurvivorSeq(raw: map<int, RawRow>, rows: seq<Recording>, j: nat)
    requires DistinctSeqs(raw) && j < |rows| && Survives(rows, j)
    ensures rows[j].at in RecordAll(raw, rows)
    ensures RecordAll(raw, rows)[rows[j].at] == RawRow(rows[j].snap, MaxSeq(raw) + j + 1)
    decreases |rows|
  {
    var init := rows[..|rows| - 1];
    RecordAllSeqs(raw, init);
    if j < |init| {
      assert forall i :: 0 <= i < |init| ==> init[i] == rows[i];
      SurvivorSeq(raw, init, j);
    }
  }

  /** The reply shows a stored row exactly when its seq is above the cursor and among the last 360. */
  lemma InReplyIff(raw: map<int, RawRow>, cursor: nat, t: int)
    requires DistinctSeqs(raw) && t in raw
    ensures Shows(Delta(raw, cursor).entries, raw[t]) <==>
      raw[t].seqno > cursor && raw[t].seqno > MaxSeq(raw) - 360
  {
    DeltaIs(raw, cursor);
  }

  /** After any run comes a prune and then some rows, before the client pulls again. The j-th of them that is
      still stored is in the reply if and only if it is among the 360 newest seqs and, in case the prune emptied
      the ring so that numbering restarted at 1, j + 1 is above the client's cursor. */
  lemma RowDeliveredIff(steps: seq<Step>, pruneAt: nat, rows: seq<Recording>, j: nat)
    requires LegalRun(Init, steps) && j < |rows| && Survives(rows, j)
    ensures var l := Run(Init, steps);
      var p := PruneRaw(l.raw, pruneAt);
      var q := RecordAll(p, rows);
      && rows[j].at in q
      && (Shows(Delta(q, l.cursor).entries, q[rows[j].at]) <==>
            j + MAX_ENTRIES >= |rows| && (p.Keys != {} || j + 1 > l.cursor))
  {
    ReachableInv(steps);
    var l := Run(Init, steps);
    var p := PruneRaw(l.raw, pruneAt);
    var q := RecordAll(p, rows);
    assert DistinctSeqs(p);
    PruneKeepsNewest(l, pruneAt);
    RecordAllSeqs(p, rows);
    SurvivorSeq(p, rows, j);
    InReplyIff(q, l.cursor, rows[j].at);
  }

  /** It happens: one row is pulled, the ring ages out, and the client's next pull misses the next row. */
  lemma EmptiedRingLosesRow(snap: Snap, next: Snap)
    ensures var steps := [RecordRow(0, snap), Serve, Deliver];
      var l := Run(Init, steps);
      var q := RecordAll(PruneRaw(l.raw, 7201), [Recording(7210, next)]);
      && LegalRun(Init, steps) && 7210 in q
      && !Shows(Delta(q, l.cursor).entries, q[7210])
  {
    var steps := [RecordRow(0, snap), Serve, Deliver];
    var row := [RecordRow(0, snap)];
    assert steps == row + [Serve, Deliver] && row[1..] == [];
    assert LegalRun(Init, row);
    RunConcat(Init, row, [Serve, Deliver]);
    ReachableInv(row);
    var one := Run(Init, row);
    assert one == Apply(Init, RecordRow(0, snap));
    ServeDeliver(one);
    var l := Run(Init, steps);
    assert l.raw == one.raw && PruneRaw(l.raw, 7201) == map[];
    RowDeliveredIff(steps, 7201, [Recording(7210, next)], 0);
  }
}
