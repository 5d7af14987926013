/** The own node's slice of the log store (src/logstore.py): the ring of raw snapshots keyed by second,
    the 5-minute buckets and the hourly buckets, each keyed by its SQL key. */
module SnapshotStore {
  import opened Common
  import opened Aggregate

  const BUCKET_5MIN_SECS := 300
  const BUCKET_1HOUR_SECS := 3600
  const RAW_RETAIN_SECS := 2 * 3600
  const BUCKET_5MIN_RETAIN_SECS := 30 * 86400
  const HOURLY_DELAY_SECS := 24 * 3600
  const MAX_ENTRIES := 360

  datatype RawRow = RawRow(payload: Snap, seqno: nat)

  datatype Store = Store(raw: map<int, RawRow>, fives: map<int, Bucket>, hours: map<int, Bucket>)

  // ------------------------------------------------------ reading tables

  /** The rows with lo <= key < hi in key order (`WHERE ... ORDER BY key ASC`). */
  function Scan<T>(m: map<int, T>, lo: int, hi: int): seq<T>
    decreases hi - lo
  {
    if hi <= lo then [] else Scan(m, lo, hi - 1) + (if hi - 1 in m then [m[hi - 1]] else [])
  }

  lemma {:induction false} ScanAgree<T>(a: map<int, T>, b: map<int, T>, lo: int, hi: int)
    requires forall t :: lo <= t < hi ==> (t in a <==> t in b) && (t in a ==> a[t] == b[t])
    ensures Scan(a, lo, hi) == Scan(b, lo, hi)
    decreases hi - lo
  {
    if lo < hi {
      ScanAgree(a, b, lo, hi - 1);
    }
  }

  lemma {:induction false} ScanSplit<T>(m: map<int, T>, lo: int, mid: int, hi: int)
    requires lo <= mid <= hi
    ensures Scan(m, lo, hi) == Scan(m, lo, mid) + Scan(m, mid, hi)
    decreases hi - mid
  {
    if mid < hi {
      ScanSplit(m, lo, mid, hi - 1);
    }
  }

  lemma {:induction false} ScanMember<T>(m: map<int, T>, lo: int, hi: int, t: int)
    requires lo <= t < hi && t in m
    ensures m[t] in Scan(m, lo, hi)
    decreases hi - lo
  {
    if t < hi - 1 {
      ScanMember(m, lo, hi - 1, t);
    }
  }

  function Payloads(raw: map<int, RawRow>): map<int, Snap> {
    map t | t in raw :: raw[t].payload
  }

  function Window(ts: int): int { ts / BUCKET_5MIN_SECS * BUCKET_5MIN_SECS }
  function Hour(ts: int): int { ts / BUCKET_1HOUR_SECS * BUCKET_1HOUR_SECS }
  function Cutoff(now: int): int { now - now % BUCKET_5MIN_SECS }

  ghost predicate Newest(raw: map<int, RawRow>, t: int) {
    t in raw && forall u :: u in raw ==> raw[u].seqno <= raw[t].seqno
  }

  lemma {:induction false} NewestExists(raw: map<int, RawRow>)
    requires raw.Keys != {}
    ensures exists t :: Newest(raw, t)
    decreases raw.Keys
  {
    var t := Member(raw.Keys);
    var rest := raw - {t};
    assert forall u :: u in raw ==> u == t || u in rest;
    if rest.Keys == {} {
      assert Newest(raw, t);
    } else {
      NewestExists(rest);
      var v :| Newest(rest, v);
      assert Newest(raw, if raw[t].seqno >= raw[v].seqno then t else v);
    }
  }

  /** `COALESCE(MAX(seq), 0)`. */
  ghost function MaxSeq(raw: map<int, RawRow>): (m: nat)
    ensures forall t :: t in raw ==> raw[t].seqno <= m
    ensures m == 0 || exists t :: t in raw && raw[t].seqno == m
  {
    if raw.Keys == {} then 0 else
      NewestExists(raw);
      var t :| Newest(raw, t);
      raw[t].seqno
  }

  ghost predicate Latest(fives: map<int, Bucket>, w: int) {
    w in fives && forall u :: u in fives ==> fives[u].windowEnd <= fives[w].windowEnd
  }

  lemma {:induction false} LatestExists(fives: map<int, Bucket>)
    requires fives.Keys != {}
    ensures exists w :: Latest(fives, w)
    decreases fives.Keys
  {
    var w := Member(fives.Keys);
    var rest := fives - {w};
    assert forall u :: u in fives ==> u == w || u in rest;
    if rest.Keys == {} {
      assert Latest(fives, w);
    } else {
      LatestExists(rest);
      var v :| Latest(rest, v);
      assert Latest(fives, if fives[w].windowEnd >= fives[v].windowEnd then w else v);
    }
  }

  /** `MAX(window_end)`, or the lower bound 0 when there is no bucket. */
  ghost function HighWater(fives: map<int, Bucket>): (h: int)
    ensures fives.Keys == {} ==> h == 0
    ensures forall w :: w in fives ==> fives[w].windowEnd <= h
    ensures fives.Keys != {} ==> exists w :: w in fives && fives[w].windowEnd == h
  {
    if fives.Keys == {} then 0 else
      LatestExists(fives);
      var w :| Latest(fives, w);
      fives[w].windowEnd
  }

  // ------------------------------------------------------ what each job does

  ghost function NextSeq(raw: map<int, RawRow>): nat { MaxSeq(raw) + 1 }

  /** `record_snapshot`: INSERT OR REPLACE at the second `now`. */
  ghost function Record(raw: map<int, RawRow>, now: int, snap: Snap): map<int, RawRow> {
    raw[now := RawRow(snap, NextSeq(raw))]
  }

  function PruneRaw(raw: map<int, RawRow>, now: int): map<int, RawRow> {
    map t | t in raw && t >= now - RAW_RETAIN_SECS :: raw[t]
  }

  /** `prune`. */
  function Prune(s: Store, now: int): Store {
    s.(raw := PruneRaw(s.raw, now),
       fives := map w | w in s.fives && w >= now - BUCKET_5MIN_RETAIN_SECS :: s.fives[w])
  }

  /** The windows with a raw row at lo <= ts < hi. */
  ghost function WindowsIn<T>(m: map<int, T>, lo: int, hi: int): set<int> {
    set t | t in m && lo <= t < hi :: Window(t)
  }

  function FiveOf(snaps: seq<Snap>, w: int): (b: Bucket)
    ensures b.windowStart == w && b.windowEnd == w + BUCKET_5MIN_SECS
  {
    AggregateSnaps(snaps, w, w + BUCKET_5MIN_SECS, BUCKET_5MIN_SECS)
  }

  function HourOf(subs: seq<Bucket>, h: int): Bucket {
    AggregateBuckets(subs, h, h + BUCKET_1HOUR_SECS, BUCKET_1HOUR_SECS)
  }

  /** The 5-minute bucket `roll_up_5min` builds for window w out of the rows with lo <= ts < hi. */
  function FiveMinute(p: map<int, Snap>, w: int, lo: int, hi: int): Bucket {
    FiveOf(GroupRows(p, w, lo, hi), w)
  }

  ghost function NewFives(s: Store, now: int): map<int, Bucket> {
    map w | w in WindowsIn(s.raw, HighWater(s.fives), Cutoff(now)) - s.fives.Keys ::
      FiveMinute(Payloads(s.raw), w, HighWater(s.fives), Cutoff(now))
  }

  /** `roll_up_5min`: only rows at or above the high-water mark are looked at. */
  ghost function RollUp(s: Store, now: int): Store {
    s.(fives := s.fives + NewFives(s, now))
  }

  /** The 5-minute buckets of hour h that start at or before `cutoff`. */
  function SubBuckets(fives: map<int, Bucket>, h: int, cutoff: int): seq<Bucket> {
    Scan(fives, h, SubEnd(h, cutoff))
  }

  function SubEnd(h: int, cutoff: int): int {
    if h + BUCKET_1HOUR_SECS <= cutoff + 1 then h + BUCKET_1HOUR_SECS else cutoff + 1
  }

  function HourBucket(fives: map<int, Bucket>, h: int, cutoff: int): Bucket {
    HourOf(SubBuckets(fives, h, cutoff), h)
  }

  /** The hours with a 5-minute bucket starting before `end`. */
  ghost function HoursIn(fives: map<int, Bucket>, end: int): set<int> {
    set w | w in fives && w < end :: Hour(w)
  }

  ghost function NewHours(s: Store, now: int): map<int, Bucket> {
    var cutoff := now - HOURLY_DELAY_SECS;
    map h | h in HoursIn(s.fives, cutoff + 1) - s.hours.Keys
            && TotalSamples(SubBuckets(s.fives, h, cutoff)) != 0 ::
      HourBucket(s.fives, h, cutoff)
  }

  /** `roll_hourly`. */
  ghost function RollHourly(s: Store, now: int): Store {
    s.(hours := s.hours + NewHours(s, now))
  }

  // ------------------------------------------------------ delta replies

  /** The lightweight projection of a row that goes over the wire. */
  datatype Entry = Entry(seqno: nat, timestamp: Option<int>, cpu: Option<int>, mem: Option<int>, disk: Option<int>)

  function Project(row: RawRow): Entry {
    Entry(row.seqno, row.payload.timestamp, row.payload.cpu, row.payload.mem, row.payload.disk)
  }

  datatype Reply = Reply(latestSeq: nat, entries: seq<Entry>)

  /** The entry carries the row's number and the four readings that are sent. */
  ghost predicate Carries(e: Entry, row: RawRow) {
    && e.seqno == row.seqno
    && e.timestamp == row.payload.timestamp
    && e.cpu == row.payload.cpu && e.mem == row.payload.mem && e.disk == row.payload.disk
  }

  ghost predicate CarriesSome(e: Entry, raw: map<int, RawRow>) {
    exists t :: t in raw && Carries(e, raw[t])
  }

  /** Some entry carries the row. */
  ghost predicate Shows(entries: seq<Entry>, row: RawRow) {
    exists i :: 0 <= i < |entries| && Carries(entries[i], row)
  }

  ghost predicate DistinctSeqs(raw: map<int, RawRow>) {
    forall t, u :: t in raw && u in raw && raw[t].seqno == raw[u].seqno ==> t == u
  }

  ghost predicate HasSeq(raw: map<int, RawRow>, q: int) {
    exists t :: t in raw && raw[t].seqno == q
  }

  ghost function RowWithSeq(raw: map<int, RawRow>, q: int): (row: RawRow)
    requires HasSeq(raw, q)
    ensures row.seqno == q && exists t :: t in raw && raw[t] == row
  {
    var t :| t in raw && raw[t].seqno == q;
    raw[t]
  }

  /** Every row with lo < seq <= hi, oldest first. */
  ghost function BySeq(raw: map<int, RawRow>, lo: int, hi: int): seq<RawRow>
    decreases hi - lo
  {
    if hi <= lo then [] else BySeq(raw, lo, hi - 1) + (if HasSeq(raw, hi) then [RowWithSeq(raw, hi)] else [])
  }

  ghost predicate InTable(raw: map<int, RawRow>, row: RawRow) {
    exists t :: t in raw && raw[t] == row
  }

  /** Only stored rows, strictly by seq. */
  lemma {:induction false} BySeqSound(raw: map<int, RawRow>, lo: int, hi: int)
    ensures forall i :: 0 <= i < |BySeq(raw, lo, hi)| ==>
      lo < BySeq(raw, lo, hi)[i].seqno <= hi && InTable(raw, BySeq(raw, lo, hi)[i])
    ensures forall i, j :: 0 <= i < j < |BySeq(raw, lo, hi)| ==>
      BySeq(raw, lo, hi)[i].seqno < BySeq(raw, lo, hi)[j].seqno
    decreases hi - lo
  {
    if lo < hi {
      BySeqSound(raw, lo, hi - 1);
    }
  }

  lemma {:induction false} BySeqComplete(raw: map<int, RawRow>, lo: int, hi: int, t: int)
    requires DistinctSeqs(raw) && t in raw && lo < raw[t].seqno <= hi
    ensures raw[t] in BySeq(raw, lo, hi)
    decreases hi - lo
  {
    if raw[t].seqno == hi {
      assert HasSeq(raw, hi);
      var row := RowWithSeq(raw, hi);
      var u :| u in raw && raw[u] == row;
      assert raw[u].seqno == raw[t].seqno;
      assert u == t;
    } else {
      BySeqComplete(raw, lo, hi - 1, t);
    }
  }

  function ProjectAll(rows: seq<RawRow>): seq<Entry> {
    seq(|rows|, i requires 0 <= i < |rows| => Project(rows[i]))
  }

  ghost function EffectiveSince(raw: map<int, RawRow>, since: int): int {
    Max(since, MaxSeq(raw) - MAX_ENTRIES)
  }

  /** The simple form of `get_delta_since_seq`: every row above the clamped cursor, with no LIMIT. */
  ghost function Delta(raw: map<int, RawRow>, since: int): Reply {
    Reply(MaxSeq(raw), ProjectAll(BySeq(raw, EffectiveSince(raw, since), MaxSeq(raw))))
  }

  /** The latest seq is the highest in the table; the entries, strictly by seq, carry stored rows; and they show
      exactly the rows above the cursor that are among the last 360 seqs. */
  ghost predicate ReplyIs(raw: map<int, RawRow>, since: int, reply: Reply) {
    && (forall t :: t in raw ==> raw[t].seqno <= reply.latestSeq)
    && (reply.latestSeq == 0 || exists t :: t in raw && raw[t].seqno == reply.latestSeq)
    && (forall i, j :: 0 <= i < j < |reply.entries| ==> reply.entries[i].seqno < reply.entries[j].seqno)
    && (forall i :: 0 <= i < |reply.entries| ==> CarriesSome(reply.entries[i], raw))
    && (forall t :: t in raw ==>
          (Shows(reply.entries, raw[t]) <==> raw[t].seqno > since && raw[t].seqno > reply.latestSeq - 360))
  }

  lemma DeltaIs(raw: map<int, RawRow>, since: int)
    requires DistinctSeqs(raw)
    ensures ReplyIs(raw, since, Delta(raw, since))
  {
    var lo, hi := EffectiveSince(raw, since), MaxSeq(raw);
    var rows, entries := BySeq(raw, lo, hi), Delta(raw, since).entries;
    BySeqSound(raw, lo, hi);
    forall i | 0 <= i < |entries| ensures entries[i].seqno > lo && CarriesSome(entries[i], raw) {
      assert InTable(raw, rows[i]);
      var t :| t in raw && raw[t] == rows[i];
      assert Carries(entries[i], raw[t]);
    }
    forall t | t in raw ensures Shows(entries, raw[t]) <==> raw[t].seqno > lo {
      if raw[t].seqno > lo {
        BySeqComplete(raw, lo, hi, t);
        var i :| 0 <= i < |rows| && rows[i] == raw[t];
        assert Carries(entries[i], raw[t]);
      }
    }
  }

  /** The LIMIT could only bite if more than MAX_ENTRIES rows lay above the clamped cursor. */
  lemma LimitNeverTruncates(raw: map<int, RawRow>, since: int, keys: seq<int>)
    requires DistinctSeqs(raw)
    requires forall i :: 0 <= i < |keys| ==> keys[i] in raw && raw[keys[i]].seqno > EffectiveSince(raw, since)
    requires forall i, j :: 0 <= i < j < |keys| ==> keys[i] != keys[j]
    ensures |keys| <= MAX_ENTRIES
  {
    var lo := EffectiveSince(raw, since);
    RangeSize(lo, MaxSeq(raw));
    ImageSize(raw, keys);
    SubsetSize(IntSeqs(raw, keys), Range(lo, MaxSeq(raw)));
  }

  /** The integers q with lo < q <= hi. */
  ghost function Range(lo: int, hi: int): (r: set<int>)
    ensures forall q :: q in r <==> lo < q <= hi
    decreases hi - lo
  {
    if hi <= lo then {} else Range(lo, hi - 1) + {hi}
  }

  ghost function IntSeqs(raw: map<int, RawRow>, keys: seq<int>): set<int>
    requires forall i :: 0 <= i < |keys| ==> keys[i] in raw
  {
    set i | 0 <= i < |keys| :: raw[keys[i]].seqno as int
  }

  lemma {:induction false} ImageSize(raw: map<int, RawRow>, keys: seq<int>)
    requires DistinctSeqs(raw)
    requires forall i :: 0 <= i < |keys| ==> keys[i] in raw
    requires forall i, j :: 0 <= i < j < |keys| ==> keys[i] != keys[j]
    ensures |IntSeqs(raw, keys)| == |keys|
  {
    if keys != [] {
      var n := |keys| - 1;
      ImageSize(raw, keys[..n]);
      assert IntSeqs(raw, keys) == IntSeqs(raw, keys[..n]) + {raw[keys[n]].seqno as int};
      assert raw[keys[n]].seqno as int !in IntSeqs(raw, keys[..n]);
    }
  }

  lemma {:induction false} RangeSize(lo: int, hi: int)
    ensures |Range(lo, hi)| == Max(0, hi - lo)
    decreases hi - lo
  {
    if lo < hi {
      RangeSize(lo, hi - 1);
    }
  }

  lemma {:induction false} SubsetSize(a: set<int>, b: set<int>)
    requires a <= b
    ensures |a| <= |b|
  {
    if a != {} {
      var x := Member(a);
      SubsetSize(a - {x}, b - {x});
    }
  }

  // ------------------------------------------------ grouping rows by window

  lemma WindowProps(ts: int)
    ensures Window(ts) <= ts < Window(ts) + BUCKET_5MIN_SECS
    ensures Window(ts) % BUCKET_5MIN_SECS == 0
    ensures ts >= 0 ==> Window(ts) >= 0
  {
  }

  /** Two multiples of the window length that differ lie at least one window apart. */
  lemma AlignedGap(a: int, b: int)
    requires a % BUCKET_5MIN_SECS == 0 && b % BUCKET_5MIN_SECS == 0 && a < b
    ensures a + BUCKET_5MIN_SECS <= b
  {
    var i, j := a / BUCKET_5MIN_SECS, b / BUCKET_5MIN_SECS;
    assert a == i * BUCKET_5MIN_SECS && b == j * BUCKET_5MIN_SECS;
  }

  /** A window with a row below an aligned cutoff ends by that cutoff. */
  lemma WindowEndsBy(t: int, cutoff: int)
    requires t < cutoff && cutoff % BUCKET_5MIN_SECS == 0
    ensures Window(t) + BUCKET_5MIN_SECS <= cutoff
  {
    WindowProps(t);
    AlignedGap(Window(t), cutoff);
  }

  lemma WindowStartsFrom(t: int, cutoff: int)
    requires cutoff <= t && cutoff % BUCKET_5MIN_SECS == 0
    ensures Window(t) >= cutoff
  {
    var a, b := t / BUCKET_5MIN_SECS, cutoff / BUCKET_5MIN_SECS;
    assert cutoff == b * BUCKET_5MIN_SECS && Window(t) == a * BUCKET_5MIN_SECS && a >= b;
  }

  /** The rows of window w among those with lo <= ts < hi. */
  function GroupRows(p: map<int, Snap>, w: int, lo: int, hi: int): seq<Snap> {
    Scan(p, Max(w, lo), if w + BUCKET_5MIN_SECS <= hi then w + BUCKET_5MIN_SECS else hi)
  }

  lemma WindowsStep(raw: map<int, RawRow>, lo: int, ts: int)
    requires lo <= ts
    ensures WindowsIn(raw, lo, ts + 1) == WindowsIn(raw, lo, ts) + (if ts in raw then {Window(ts)} else {})
  {
  }

  lemma EarlierWindow(u: int, ts: int)
    requires u <= ts
    ensures Window(u) == Window(ts) || Window(u) + BUCKET_5MIN_SECS <= Window(ts)
  {
    assert u / BUCKET_5MIN_SECS <= ts / BUCKET_5MIN_SECS;
  }

  lemma EarlierHour(u: int, ts: int)
    requires u <= ts
    ensures Hour(u) == Hour(ts) || Hour(u) + BUCKET_1HOUR_SECS <= Hour(ts)
  {
    assert u / BUCKET_1HOUR_SECS <= ts / BUCKET_1HOUR_SECS;
  }

  lemma GroupKept(p: map<int, Snap>, w: int, lo: int, ts: int)
    requires w in WindowsIn(p, lo, ts) && w != Window(ts)
    ensures GroupRows(p, w, lo, ts + 1) == GroupRows(p, w, lo, ts)
  {
    var u :| u in p && lo <= u < ts && Window(u) == w;
    EarlierWindow(u, ts);
    WindowProps(ts);
  }

  lemma GroupsExtend(p: map<int, Snap>, lo: int, ts: int)
    requires lo <= ts && ts in p
    ensures forall w :: w in WindowsIn(p, lo, ts) && w != Window(ts) ==>
        GroupRows(p, w, lo, ts + 1) == GroupRows(p, w, lo, ts)
    ensures GroupRows(p, Window(ts), lo, ts + 1) ==
      (if Window(ts) in WindowsIn(p, lo, ts) then GroupRows(p, Window(ts), lo, ts) else []) + [p[ts]]
  {
    forall w | w in WindowsIn(p, lo, ts) && w != Window(ts)
      ensures GroupRows(p, w, lo, ts + 1) == GroupRows(p, w, lo, ts)
    {
      GroupKept(p, w, lo, ts);
    }
    GroupGrows(p, lo, ts);
  }

  lemma GroupGrows(p: map<int, Snap>, lo: int, ts: int)
    requires lo <= ts && ts in p
    ensures GroupRows(p, Window(ts), lo, ts + 1) ==
      (if Window(ts) in WindowsIn(p, lo, ts) then GroupRows(p, Window(ts), lo, ts) else []) + [p[ts]]
  {
    WindowProps(ts);
    if Window(ts) !in WindowsIn(p, lo, ts) {
      NoneInWindow(p, lo, ts);
      ScanEmpty(p, Max(Window(ts), lo), ts);
    }
  }

  lemma NoneInWindow(p: map<int, Snap>, lo: int, ts: int)
    requires Window(ts) !in WindowsIn(p, lo, ts)
    ensures forall t :: Max(Window(ts), lo) <= t < ts ==> t !in p
  {
    forall t | Max(Window(ts), lo) <= t < ts ensures t !in p {
      EarlierWindow(t, ts);
      WindowProps(t);
      assert Window(t) == Window(ts);
    }
  }

  lemma GroupsSkip(p: map<int, Snap>, lo: int, ts: int)
    requires lo <= ts && ts !in p
    ensures forall w :: w in WindowsIn(p, lo, ts) ==> GroupRows(p, w, lo, ts + 1) == GroupRows(p, w, lo, ts)
  {
    forall w | w in WindowsIn(p, lo, ts)
      ensures GroupRows(p, w, lo, ts + 1) == GroupRows(p, w, lo, ts)
    {
      var u :| u in p && lo <= u < ts && Window(u) == w;
    }
  }

  lemma {:induction false} ScanEmpty<T>(m: map<int, T>, lo: int, hi: int)
    requires forall t :: lo <= t < hi ==> t !in m
    ensures Scan(m, lo, hi) == []
    decreases hi - lo
  {
    if lo < hi {
      ScanEmpty(m, lo, hi - 1);
    }
  }

  lemma SubBucketsKept(fives: map<int, Bucket>, h: int, ws: int)
    requires h in HoursIn(fives, ws) && h != Hour(ws)
    ensures SubBuckets(fives, h, ws) == SubBuckets(fives, h, ws - 1)
  {
    var u :| u in fives && u < ws && Hour(u) == h;
    EarlierHour(u, ws);
    assert Hour(ws) <= ws;
  }

  lemma SubBucketsGrow(fives: map<int, Bucket>, ws: int)
    requires ws in fives
    ensures SubBuckets(fives, Hour(ws), ws) ==
      (if Hour(ws) in HoursIn(fives, ws) then SubBuckets(fives, Hour(ws), ws - 1) else []) + [fives[ws]]
  {
    assert Hour(ws) <= ws < Hour(ws) + BUCKET_1HOUR_SECS;
    if Hour(ws) !in HoursIn(fives, ws) {
      forall t | Hour(ws) <= t < ws ensures t !in fives {
        EarlierHour(t, ws);
        assert Hour(t) == Hour(ws);
      }
      ScanEmpty(fives, Hour(ws), ws);
    }
  }

  lemma SubBucketsExtend(fives: map<int, Bucket>, ws: int)
    requires ws in fives
    ensures forall h :: h in HoursIn(fives, ws) && h != Hour(ws) ==>
              SubBuckets(fives, h, ws) == SubBuckets(fives, h, ws - 1)
    ensures SubBuckets(fives, Hour(ws), ws) ==
      (if Hour(ws) in HoursIn(fives, ws) then SubBuckets(fives, Hour(ws), ws - 1) else []) + [fives[ws]]
  {
    forall h | h in HoursIn(fives, ws) && h != Hour(ws)
      ensures SubBuckets(fives, h, ws) == SubBuckets(fives, h, ws - 1)
    {
      SubBucketsKept(fives, h, ws);
    }
    SubBucketsGrow(fives, ws);
  }

  lemma SubBucketsSkip(fives: map<int, Bucket>, ws: int)
    requires ws !in fives
    ensures forall h :: h in HoursIn(fives, ws) ==>
              SubBuckets(fives, h, ws) == SubBuckets(fives, h, ws - 1)
  {
    forall h | h in HoursIn(fives, ws)
      ensures SubBuckets(fives, h, ws) == SubBuckets(fives, h, ws - 1)
    {
      var u :| u in fives && u < ws && Hour(u) == h;
    }
  }

  // ------------------------------------------------------ the store itself

  ghost function RowsAt(raw: map<int, RawRow>, keys: seq<int>): seq<RawRow>
    requires forall i :: 0 <= i < |keys| ==> keys[i] in raw
  {
    seq(|keys|, i requires 0 <= i < |keys| => raw[keys[i]])
  }

  /** `keys` is what `SELECT ... WHERE seq > lo ORDER BY seq` may return. */
  ghost predicate SelectedAbove(raw: map<int, RawRow>, lo: int, hi: int, keys: seq<int>) {
    && (forall i :: 0 <= i < |keys| ==> keys[i] in raw && lo < raw[keys[i]].seqno <= hi)
    && (forall i, j :: 0 <= i < j < |keys| ==> keys[i] != keys[j] && raw[keys[i]].seqno <= raw[keys[j]].seqno)
    && (forall t :: t in raw && lo < raw[t].seqno <= hi ==> t in keys)
  }

  /** The row with the highest seq comes last, and the rest is the selection below it. */
  lemma SelectedLast(raw: map<int, RawRow>, lo: int, hi: int, keys: seq<int>, t: int)
    requires DistinctSeqs(raw) && SelectedAbove(raw, lo, hi, keys)
    requires t in raw && raw[t].seqno == hi && lo < hi
    ensures keys != [] && keys[|keys| - 1] == t
    ensures SelectedAbove(raw, lo, hi - 1, keys[..|keys| - 1])
  {
    assert t in keys;
    var i :| 0 <= i < |keys| && keys[i] == t;
    var n := |keys| - 1;
    assert keys[n] == t;
    forall u | u in raw && lo < raw[u].seqno <= hi - 1 ensures u in keys[..n] {
      var j :| 0 <= j < |keys| && keys[j] == u;
      assert keys[..n][j] == u;
    }
    forall i | 0 <= i < n ensures raw[keys[..n][i]].seqno <= hi - 1 {
      assert keys[..n][i] == keys[i] && keys[i] != keys[n];
    }
  }

  lemma SelectedSnoc(raw: map<int, RawRow>, lo: int, hi: int, keys: seq<int>)
    requires DistinctSeqs(raw) && SelectedAbove(raw, lo, hi, keys) && HasSeq(raw, hi) && lo < hi
    ensures keys != [] && SelectedAbove(raw, lo, hi - 1, keys[..|keys| - 1])
    ensures RowsAt(raw, keys) == RowsAt(raw, keys[..|keys| - 1]) + [RowWithSeq(raw, hi)]
  {
    var row := RowWithSeq(raw, hi);
    var t :| t in raw && raw[t] == row;
    SelectedLast(raw, lo, hi, keys, t);
  }

  lemma SelectedBelow(raw: map<int, RawRow>, lo: int, hi: int, keys: seq<int>)
    requires SelectedAbove(raw, lo, hi, keys) && !HasSeq(raw, hi)
    ensures SelectedAbove(raw, lo, hi - 1, keys)
  {
    forall i | 0 <= i < |keys| ensures raw[keys[i]].seqno <= hi - 1 {
      var t := keys[i];
      assert t in raw && raw[t].seqno <= hi;
      assert HasSeq(raw, raw[t].seqno);
    }
  }

  lemma SelectedSome(raw: map<int, RawRow>, lo: int, hi: int, keys: seq<int>)
    requires SelectedAbove(raw, lo, hi, keys) && keys != []
    ensures lo < hi
  {
    assert lo < raw[keys[0]].seqno <= hi;
  }

  lemma SelectedStep(raw: map<int, RawRow>, lo: int, hi: int, keys: seq<int>) returns (rest: seq<int>)
    requires DistinctSeqs(raw) && SelectedAbove(raw, lo, hi, keys) && lo < hi
    ensures SelectedAbove(raw, lo, hi - 1, rest)
    ensures RowsAt(raw, keys) == RowsAt(raw, rest) + (if HasSeq(raw, hi) then [RowWithSeq(raw, hi)] else [])
  {
    if HasSeq(raw, hi) {
      SelectedSnoc(raw, lo, hi, keys);
      rest := keys[..|keys| - 1];
    } else {
      SelectedBelow(raw, lo, hi, keys);
      rest := keys;
      assert RowsAt(raw, keys) + [] == RowsAt(raw, keys);
    }
  }

  lemma {:induction false} SelectedIsBySeq(raw: map<int, RawRow>, lo: int, hi: int, keys: seq<int>)
    requires DistinctSeqs(raw) && SelectedAbove(raw, lo, hi, keys)
    ensures RowsAt(raw, keys) == BySeq(raw, lo, hi)
    decreases hi - lo
  {
    if keys != [] {
      SelectedSome(raw, lo, hi, keys);
    }
    if lo < hi {
      var rest := SelectedStep(raw, lo, hi, keys);
      SelectedIsBySeq(raw, lo, hi - 1, rest);
    }
  }

  lemma InsertedIsRollUp(s: Store, now: int, groups: map<int, seq<Snap>>, after: map<int, Bucket>)
    requires ValidStore(s) && now >= 0
    requires groups.Keys == WindowsIn(s.raw, HighWater(s.fives), Cutoff(now))
    requires forall w :: w in groups ==> groups[w] == GroupRows(Payloads(s.raw), w, HighWater(s.fives), Cutoff(now))
    requires forall w :: w in after <==> w in s.fives || w in groups
    requires forall w :: w in after ==> after[w] == if w in s.fives then s.fives[w] else FiveOf(groups[w], w)
    ensures s.(fives := after) == RollUp(s, now) && ValidStore(s.(fives := after))
  {
    var new5 := NewFives(s, now);
    forall w | w in groups && w !in s.fives ensures w in new5 && new5[w] == FiveOf(groups[w], w) {
      assert w in WindowsIn(s.raw, HighWater(s.fives), Cutoff(now)) - s.fives.Keys;
    }
    forall w | w in new5 ensures w in groups && w !in s.fives { }
    UnionIs(after, s.fives, new5);
    RollUpValid(s, now);
  }

  lemma RollUpValid(s: Store, now: int)
    requires ValidStore(s) && now >= 0
    ensures ValidStore(RollUp(s, now))
  {
    forall w | w in RollUp(s, now).fives ensures ValidBucket(w, RollUp(s, now).fives[w]) {
      if w !in s.fives {
        NewFiveValid(s, now, w);
      }
    }
  }

  lemma NewFiveValid(s: Store, now: int, w: int)
    requires ValidStore(s) && w in NewFives(s, now)
    ensures ValidBucket(w, NewFives(s, now)[w])
  {
    var t :| t in s.raw && Window(t) == w;
    WindowProps(t);
  }

  lemma HighWaterAligned(s: Store)
    requires ValidStore(s)
    ensures HighWater(s.fives) % BUCKET_5MIN_SECS == 0
  {
    var lo := HighWater(s.fives);
    if s.fives.Keys != {} {
      var v :| v in s.fives && s.fives[v].windowEnd == lo;
      assert ValidBucket(v, s.fives[v]);
    }
  }

  /** The rows that are grouped for a window are all rows of that window in the table. */
  lemma GroupIsWhole(s: Store, now: nat, w: int)
    requires ValidStore(s) && w in WindowsIn(s.raw, HighWater(s.fives), Cutoff(now))
    ensures GroupRows(Payloads(s.raw), w, HighWater(s.fives), Cutoff(now)) ==
      Scan(Payloads(s.raw), w, w + BUCKET_5MIN_SECS)
  {
    var t :| t in s.raw && HighWater(s.fives) <= t < Cutoff(now) && Window(t) == w;
    HighWaterAligned(s);
    WindowStartsFrom(t, HighWater(s.fives));
    WindowEndsBy(t, Cutoff(now));
    assert HighWater(s.fives) <= w && w + BUCKET_5MIN_SECS <= Cutoff(now);
  }

  ghost predicate StandsFor(b: Bucket, raw: map<int, RawRow>, w: int) {
    && b.windowStart == w && b.windowEnd == w + 300 && b.size == 300
    && Represents(b, Scan(Payloads(raw), w, w + BUCKET_5MIN_SECS))
  }

  /** The row is the hour from h on, over its 5-minute rows that start by `cutoff`. */
  ghost predicate StandsForHour(b: Bucket, fives: map<int, Bucket>, h: int, cutoff: int) {
    && b.windowStart == h && b.windowEnd == h + 3600 && b.size == 3600
    && Summarises(b, SubBuckets(fives, h, cutoff))
  }

  /** A bucket that a roll-up creates stands for all rows of its window in the table. */
  lemma NewFivesExact(s: Store, now: nat)
    requires ValidStore(s)
    ensures forall w :: w in NewFives(s, now) ==> StandsFor(NewFives(s, now)[w], s.raw, w)
  {
    forall w | w in NewFives(s, now) ensures StandsFor(NewFives(s, now)[w], s.raw, w) {
      GroupIsWhole(s, now, w);
      FiveMinuteExact(Scan(Payloads(s.raw), w, w + BUCKET_5MIN_SECS), w, w + BUCKET_5MIN_SECS, BUCKET_5MIN_SECS);
    }
  }

  /** The hours an hourly roll-up adds stand for their 5-minute rows. */
  lemma RolledHoursExact(s: Store, now: int, after: map<int, Bucket>)
    requires after == RollHourly(s, now).hours
    ensures forall h :: h in after && h !in s.hours ==> StandsForHour(after[h], s.fives, h, now - 24 * 3600)
  {
    forall h | h in after && h !in s.hours ensures StandsForHour(after[h], s.fives, h, now - 24 * 3600) {
      assert after[h] == HourBucket(s.fives, h, now - HOURLY_DELAY_SECS);
      HourExact(SubBuckets(s.fives, h, now - HOURLY_DELAY_SECS), h, h + BUCKET_1HOUR_SECS, BUCKET_1HOUR_SECS);
    }
  }

  /** INSERT OR IGNORE of the rows `b` into the table `a`, key by key. */
  lemma UnionIs<T>(after: map<int, T>, a: map<int, T>, b: map<int, T>)
    requires a.Keys !! b.Keys
    requires forall k :: k in after <==> k in a || k in b
    requires forall k :: k in after ==> after[k] == if k in a then a[k] else b[k]
    ensures after == a + b
  {
    var u := a + b;
    forall k ensures k in after <==> k in u { }
    forall k | k in u ensures after[k] == u[k] { }
    assert after == u;
  }

  lemma InsertedIsRollHourly(s: Store, now: int, groups: map<int, seq<Bucket>>, after: map<int, Bucket>)
    requires groups.Keys == HoursIn(s.fives, now - HOURLY_DELAY_SECS + 1)
    requires forall h :: h in groups ==> groups[h] == SubBuckets(s.fives, h, now - HOURLY_DELAY_SECS)
    requires forall h :: h in after <==> h in s.hours || (h in groups && TotalSamples(groups[h]) != 0)
    requires forall h :: h in after ==> after[h] == if h in s.hours then s.hours[h] else HourOf(groups[h], h)
    ensures s.(hours := after) == RollHourly(s, now)
  {
    var newHours := NewHours(s, now);
    forall h | h in groups && h !in s.hours && TotalSamples(groups[h]) != 0
      ensures h in newHours && newHours[h] == HourOf(groups[h], h)
    {
      assert h in HoursIn(s.fives, now - HOURLY_DELAY_SECS + 1) - s.hours.Keys;
    }
    forall h | h in newHours ensures h in groups && h !in s.hours && TotalSamples(groups[h]) != 0 { }
    UnionIs(after, s.hours, newHours);
  }

  lemma {:induction false} SamplesCounted(subs: seq<Bucket>, i: nat)
    requires i < |subs|
    ensures subs[i].samples <= TotalSamples(subs)
  {
    if i > 0 {
      SamplesCounted(subs[1..], i - 1);
    }
  }

  /** After an hourly roll-up every hour with a sampled 5-minute row older than a day has its row, and no hour
      that had one before is changed, even if more 5-minute rows have come in. */
  lemma HourlyCovers(s: Store, now: int)
    ensures forall w :: w in s.fives && w <= now - HOURLY_DELAY_SECS && s.fives[w].samples > 0 ==>
        Hour(w) in RollHourly(s, now).hours
    ensures forall h :: h in s.hours ==> h in RollHourly(s, now).hours && RollHourly(s, now).hours[h] == s.hours[h]
  {
    var cutoff := now - HOURLY_DELAY_SECS;
    forall w | w in s.fives && w <= cutoff && s.fives[w].samples > 0 ensures Hour(w) in RollHourly(s, now).hours {
      var h := Hour(w);
      var subs := SubBuckets(s.fives, h, cutoff);
      ScanMember(s.fives, h, SubEnd(h, cutoff), w);
      var i :| 0 <= i < |subs| && subs[i] == s.fives[w];
      SamplesCounted(subs, i);
      assert h in HoursIn(s.fives, cutoff + 1);
    }
  }

  lemma RemovedCount<T>(m: map<int, T>, gone: set<int>)
    requires gone <= m.Keys
    ensures |m - gone| == |m| - |gone|
  {
    assert (m - gone).Keys == m.Keys - gone;
    assert |m.Keys - gone| == |m.Keys| - |gone|;
  }

  class LogStore {
    var raw: map<int, RawRow>
    var fives: map<int, Bucket>
    var hours: map<int, Bucket>

    ghost function View(): Store
      reads this
    {
      Store(raw, fives, hours)
    }

    ghost predicate Valid()
      reads this
    {
      ValidStore(View())
    }

    constructor ()
      ensures Valid() && View() == Store(map[], map[], map[])
    {
      raw, fives, hours := map[], map[], map[];
    }

    method MaxSeqOf() returns (m: nat)
      ensures m == MaxSeq(raw)
    {
      var todo := raw.Keys;
      m := 0;
      while todo != {}
        invariant todo <= raw.Keys
        invariant forall t :: t in raw && t !in todo ==> raw[t].seqno <= m
        invariant m == 0 || exists t :: t in raw && raw[t].seqno == m
        decreases todo
      {
        ghost var member := Member(todo);
        var t :| t in todo;
        if raw[t].seqno > m {
          m := raw[t].seqno;
        }
        todo := todo - {t};
      }
    }

    /** `record_snapshot`. */
    method RecordSnapshot(now: nat, snap: Snap) returns (seqno: nat)
      requires Valid()
      modifies this`raw
      ensures Valid()
      ensures raw == Record(old(raw), now, snap)
      ensures seqno == raw[now].seqno && forall t :: t in old(raw) ==> old(raw)[t].seqno < seqno
    {
      var m := MaxSeqOf();
      seqno := m + 1;
      raw := raw[now := RawRow(snap, seqno)];
    }

    method OldestOf(todo: set<int>) returns (least: int)
      requires todo != {} && todo <= raw.Keys
      ensures least in todo && forall t :: t in todo ==> raw[least].seqno <= raw[t].seqno
    {
      ghost var member := Member(todo);
      least :| least in todo;
      var rest := todo - {least};
      while rest != {}
        invariant rest <= todo && least in todo
        invariant forall t :: t in todo && t !in rest ==> raw[least].seqno <= raw[t].seqno
        decreases rest
      {
        ghost var member := Member(rest);
        var t :| t in rest;
        if raw[t].seqno < raw[least].seqno {
          least := t;
        }
        rest := rest - {t};
      }
    }

    method SelectSince(lo: int) returns (keys: seq<int>)
      ensures SelectedAbove(raw, lo, MaxSeq(raw), keys)
    {
      var todo := set t | t in raw && raw[t].seqno > lo;
      keys := [];
      while todo != {}
        invariant forall t :: t in todo ==> t in raw && raw[t].seqno > lo && t !in keys
        invariant forall i :: 0 <= i < |keys| ==> keys[i] in raw && raw[keys[i]].seqno > lo
        invariant forall i, j :: 0 <= i < j < |keys| ==> keys[i] != keys[j] && raw[keys[i]].seqno <= raw[keys[j]].seqno
        invariant forall i, t :: 0 <= i < |keys| && t in todo ==> raw[keys[i]].seqno <= raw[t].seqno
        invariant forall t :: t in raw && raw[t].seqno > lo ==> t in todo || t in keys
        decreases todo
      {
        var t := OldestOf(todo);
        keys := keys + [t];
        todo := todo - {t};
      }
    }

    /** `get_delta_since_seq`, with its LIMIT; the contract is the simple form without one, and what it says. */
    method GetDeltaSinceSeq(since: int) returns (reply: Reply)
      requires Valid()
      ensures reply == Delta(raw, since)
      ensures ReplyIs(raw, since, reply)
    {
      var latest := MaxSeqOf();
      var effective := Max(since, latest - MAX_ENTRIES);
      var keys := SelectSince(effective);
      var rows := if |keys| <= MAX_ENTRIES then keys else keys[..MAX_ENTRIES];
      LimitNeverTruncates(raw, since, keys);
      SelectedIsBySeq(raw, effective, latest, keys);
      var entries: seq<Entry> := [];
      for i := 0 to |rows|
        invariant entries == ProjectAll(RowsAt(raw, rows)[..i])
      {
        entries := entries + [Project(raw[rows[i]])];
      }
      assert RowsAt(raw, rows)[..|rows|] == RowsAt(raw, rows);
      reply := Reply(latest, entries);
      DeltaIs(raw, since);
    }

    /** `roll_up_5min`: one dict of snapshots per window, then one INSERT OR IGNORE per window. */
    method RollUp5Min(now: nat) returns (created: nat)
      requires Valid()
      modifies this`fives
      ensures Valid()
      ensures View() == RollUp(old(View()), now)
      ensures created == |fives| - |old(fives)|
      ensures forall w :: w in fives && w !in old(fives) ==> StandsFor(fives[w], raw, w)
    {
      ghost var s := View();
      var cutoff := Cutoff(now);
      var lower := LatestWindowEnd();
      var groups := GroupByWindow(lower, cutoff);
      created := InsertFives(groups);
      InsertedIsRollUp(s, now, groups, fives);
      assert View() == s.(fives := fives);
      NewFivesExact(s, now);
      assert forall w :: w in fives && w !in s.fives ==> w in NewFives(s, now) && fives[w] == NewFives(s, now)[w];
    }

    method GroupByWindow(lower: int, cutoff: int) returns (groups: map<int, seq<Snap>>)
      ensures groups.Keys == WindowsIn(raw, lower, cutoff)
      ensures forall w :: w in groups ==> groups[w] == GroupRows(Payloads(raw), w, lower, cutoff)
    {
      groups := map[];
      ghost var p := Payloads(raw);
      for ts := lower to Max(lower, cutoff)
        invariant groups.Keys == WindowsIn(raw, lower, ts)
        invariant forall w :: w in groups ==> groups[w] == GroupRows(p, w, lower, ts)
      {
        if ts in raw {
          var w := Window(ts);
          GroupsExtend(p, lower, ts);
          groups := groups[w := (if w in groups then groups[w] else []) + [raw[ts].payload]];
        } else {
          GroupsSkip(p, lower, ts);
        }
        WindowsStep(raw, lower, ts);
      }
    }

    method InsertFives(groups: map<int, seq<Snap>>) returns (created: nat)
      modifies this`fives
      ensures forall w :: w in fives <==> w in old(fives) || w in groups
      ensures forall w :: w in fives ==>
        fives[w] == if w in old(fives) then old(fives)[w] else FiveOf(groups[w], w)
      ensures created == |fives| - |old(fives)|
    {
      var todo := groups.Keys;
      created := 0;
      while todo != {}
        invariant todo <= groups.Keys
        invariant forall w :: w in fives <==> w in old(fives) || (w in groups && w !in todo)
        invariant forall w :: w in fives ==>
          fives[w] == if w in old(fives) then old(fives)[w] else FiveOf(groups[w], w)
        invariant created == |fives| - |old(fives)|
        decreases todo
      {
        ghost var member := Member(todo);
        var w :| w in todo;
        var bucket := FiveOf(groups[w], w);
        if w !in fives {
          fives := fives[w := bucket];
          created := created + 1;
        }
        todo := todo - {w};
      }
    }

    method LatestWindowEnd() returns (h: nat)
      requires Valid()
      ensures h == HighWater(fives)
    {
      var todo := fives.Keys;
      h := 0;
      while todo != {}
        invariant todo <= fives.Keys
        invariant forall w :: w in fives && w !in todo ==> fives[w].windowEnd <= h
        invariant h == 0 || exists w :: w in fives && fives[w].windowEnd == h
        decreases todo
      {
        ghost var member := Member(todo);
        var w :| w in todo;
        h := Max(h, fives[w].windowEnd);
        todo := todo - {w};
      }
    }

    /** `roll_hourly`: one list of 5-minute rows per hour, then one INSERT OR IGNORE per hour. */
    method RollUpHourly(now: nat) returns (created: nat)
      requires Valid()
      modifies this`hours
      ensures Valid()
      ensures View() == RollHourly(old(View()), now)
      ensures created == |hours| - |old(hours)|
      ensures forall h :: h in hours && h !in old(hours) ==> StandsForHour(hours[h], fives, h, now - 24 * 3600)
    {
      ghost var s := View();
      var cutoff := now - HOURLY_DELAY_SECS;
      var groups := GroupByHour(cutoff);
      created := InsertHours(groups);
      InsertedIsRollHourly(s, now, groups, hours);
      RolledHoursExact(s, now, hours);
    }

    method GroupByHour(cutoff: int) returns (groups: map<int, seq<Bucket>>)
      requires Valid()
      ensures groups.Keys == HoursIn(fives, cutoff + 1)
      ensures forall h :: h in groups ==> groups[h] == SubBuckets(fives, h, cutoff)
    {
      groups := map[];
      for ws := 0 to Max(0, cutoff + 1)
        invariant groups.Keys == HoursIn(fives, ws)
        invariant forall h :: h in groups ==> groups[h] == SubBuckets(fives, h, ws - 1)
      {
        if ws in fives {
          var h := Hour(ws);
          SubBucketsExtend(fives, ws);
          groups := groups[h := (if h in groups then groups[h] else []) + [fives[ws]]];
        } else {
          SubBucketsSkip(fives, ws);
        }
      }
    }

    method InsertHours(groups: map<int, seq<Bucket>>) returns (created: nat)
      modifies this`hours
      ensures forall h :: h in hours <==> h in old(hours) || (h in groups && TotalSamples(groups[h]) != 0)
      ensures forall h :: h in hours ==>
        hours[h] == if h in old(hours) then old(hours)[h] else HourOf(groups[h], h)
      ensures created == |hours| - |old(hours)|
    {
      var todo := groups.Keys;
      created := 0;
      while todo != {}
        invariant todo <= groups.Keys
        invariant forall h :: h in hours <==>
          h in old(hours) || (h in groups && h !in todo && TotalSamples(groups[h]) != 0)
        invariant forall h :: h in hours ==>
          hours[h] == if h in old(hours) then old(hours)[h] else HourOf(groups[h], h)
        invariant created == |hours| - |old(hours)|
        decreases todo
      {
        ghost var member := Member(todo);
        var h :| h in todo;
        if TotalSamples(groups[h]) != 0 && h !in hours {
          hours := hours[h := HourOf(groups[h], h)];
          created := created + 1;
        }
        todo := todo - {h};
      }
    }

    /** `prune`, for the own node's rows. */
    method PruneTables(now: nat) returns (rawDeleted: nat, bucketsDeleted: nat)
      requires Valid()
      modifies this`raw, this`fives
      ensures Valid()
      ensures View() == Prune(old(View()), now)
      ensures forall t :: t in raw <==> t in old(raw) && t >= now - 2 * 3600
      ensures forall w :: w in fives <==> w in old(fives) && w >= now - 30 * 86400
      ensures rawDeleted == |old(raw)| - |raw| && bucketsDeleted == |old(fives)| - |fives|
    {
      rawDeleted := DeleteRaw(now - RAW_RETAIN_SECS);
      bucketsDeleted := DeleteFives(now - BUCKET_5MIN_RETAIN_SECS);
    }

    method DeleteRaw(cutoff: int) returns (deleted: nat)
      modifies this`raw
      ensures raw == map t | t in old(raw) && t >= cutoff :: old(raw)[t]
      ensures deleted == |old(raw)| - |raw|
    {
      var expired := set t | t in raw && t < cutoff;
      RemovedCount(raw, expired);
      deleted := |expired|;
      raw := raw - expired;
    }

    method DeleteFives(cutoff: int) returns (deleted: nat)
      modifies this`fives
      ensures fives == map w | w in old(fives) && w >= cutoff :: old(fives)[w]
      ensures deleted == |old(fives)| - |fives|
    {
      var expired := set w | w in fives && w < cutoff;
      RemovedCount(fives, expired);
      deleted := |expired|;
      fives := fives - expired;
    }
  }

  /** What holds of the own node's tables at all times. */
  ghost predicate ValidStore(s: Store) {
    && DistinctSeqs(s.raw)
    && (forall t :: t in s.raw ==> t >= 0)
    && (forall w :: w in s.fives ==> ValidBucket(w, s.fives[w]))
  }

  ghost predicate ValidBucket(w: int, b: Bucket) {
    w >= 0 && w % BUCKET_5MIN_SECS == 0 && b.windowStart == w && b.windowEnd == w + BUCKET_5MIN_SECS
  }
}
