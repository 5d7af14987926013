/** Whole runs of the snapshot jobs: the incremental rollup agrees with aggregating everything ever recorded. */
module Rollup {
  import opened Common
  import opened Aggregate
  import opened SnapshotStore

  datatype Job = RecordJob(snap: Snap) | RollUpJob | HourlyJob | PruneJob
  datatype Event = Event(now: nat, job: Job)

  /** The store together with what a run has done so far: every snapshot ever recorded (last write per
      second), every 5-minute bucket ever created, the last rollup cutoff and the time of the last prune. */
  datatype Node = Node(store: Store, clock: nat, ever: map<int, Snap>, bucketed: map<int, Bucket>,
                       rolled: nat, pruned: int)

  const Init := Node(Store(map[], map[], map[]), 0, map[], map[], 0, 0)

  ghost function Apply(n: Node, e: Event): Node {
    var s := n.store;
    match e.job
    case RecordJob(snap) =>
      n.(store := s.(raw := Record(s.raw, e.now, snap)), clock := e.now, ever := n.ever[e.now := snap])
    case RollUpJob =>
      n.(store := RollUp(s, e.now), clock := e.now, rolled := Cutoff(e.now),
         bucketed := n.bucketed + NewFives(s, e.now))
    case HourlyJob =>
      n.(store := RollHourly(s, e.now), clock := e.now)
    case PruneJob =>
      n.(store := Prune(s, e.now), clock := e.now, pruned := e.now)
  }

  /** A prune that deletes no snapshot the rollup has not covered yet. */
  ghost predicate SafePrune(n: Node, now: int) {
    forall t :: t in n.store.raw && t < now - RAW_RETAIN_SECS ==> t < n.rolled
  }

  ghost predicate Legal(n: Node, e: Event) {
    n.clock <= e.now && (e.job.PruneJob? ==> SafePrune(n, e.now))
  }

  ghost function Run(n: Node, events: seq<Event>): Node
    decreases events
  {
    if events == [] then n else Run(Apply(n, events[0]), events[1..])
  }

  ghost predicate LegalRun(n: Node, events: seq<Event>)
    decreases events
  {
    events == [] || (Legal(n, events[0]) && LegalRun(Apply(n, events[0]), events[1..]))
  }

  /** The simple form: the bucket of window w over everything ever recorded. */
  function FullBucket(ever: map<int, Snap>, w: int): Bucket {
    FiveOf(Scan(ever, w, w + BUCKET_5MIN_SECS), w)
  }

  // ------------------------------------------------------------- invariant

  ghost predicate Times(n: Node) {
    && n.rolled % BUCKET_5MIN_SECS == 0 && n.rolled <= n.clock && n.pruned <= n.clock
    && (forall t :: t in n.ever ==> 0 <= t <= n.clock)
  }

  ghost predicate RawAgrees(n: Node) {
    && (forall t :: t in n.store.raw ==> t in n.ever && n.store.raw[t].payload == n.ever[t])
    && (forall t :: t in n.store.raw ==> t >= n.pruned - RAW_RETAIN_SECS)
    && (forall t :: t in n.ever && t >= n.rolled ==> t in n.store.raw)
  }

  ghost predicate BucketsAgree(n: Node) {
    && n.bucketed.Keys == WindowsIn(n.ever, 0, n.rolled)
    && (forall w :: w in n.bucketed ==> n.bucketed[w] == FullBucket(n.ever, w))
  }

  ghost predicate FivesAgree(n: Node) {
    && (forall w :: w in n.store.fives <==> w in n.bucketed && w >= n.pruned - BUCKET_5MIN_RETAIN_SECS)
    && (forall w :: w in n.store.fives ==> n.store.fives[w] == n.bucketed[w])
  }

  /** Within one hour: averages between the least and greatest raw sample and at most the stored maximum,
      which itself is at most the greatest; net deltas between 0 and the counter's growth. */
  ghost predicate HourBounds(b: Bucket, all: seq<Snap>) {
    && (forall k, lo, hi :: k in {Cpu, Mem, Disk} && Spans(all, k, lo, hi) && Stored(b, k).Some? ==>
          && lo <= Stored(b, k).value <= hi
          && (k != Disk ==> StoredMax(b, k).Some? && Stored(b, k).value <= StoredMax(b, k).value <= hi))
    && (forall k :: k in {Rx, Tx} && NonDecreasing(Column(all, k)) ==>
          Stored(b, k).Some? && 0 <= Stored(b, k).value <= Growth(Column(all, k)))
  }

  ghost predicate HourRowOk(b: Bucket, h: int, clock: int, ever: map<int, Snap>) {
    h + BUCKET_1HOUR_SECS <= clock && HourBounds(b, Scan(ever, h, h + BUCKET_1HOUR_SECS))
  }

  ghost predicate HoursAgree(n: Node) {
    forall h :: h in n.store.hours ==> HourRowOk(n.store.hours[h], h, n.clock, n.ever)
  }

  ghost predicate Inv(n: Node) {
    ValidStore(n.store) && Times(n) && RawAgrees(n) && BucketsAgree(n) && FivesAgree(n) && HoursAgree(n)
  }

  // -------------------------------------------------------------- one step

  /** A snapshot recorded after the last cutoff is in no window that was rolled up. */
  lemma LaterWindowsIn(ever: map<int, Snap>, now: int, snap: Snap, rolled: int)
    requires rolled <= now
    ensures WindowsIn(ever[now := snap], 0, rolled) == WindowsIn(ever, 0, rolled)
  {
  }

  lemma LaterFullBucket(ever: map<int, Snap>, now: int, snap: Snap, w: int)
    requires w + BUCKET_5MIN_SECS <= now
    ensures FullBucket(ever[now := snap], w) == FullBucket(ever, w)
  {
    ScanAgree(ever[now := snap], ever, w, w + BUCKET_5MIN_SECS);
  }

  lemma RolledWindowEnds(ever: map<int, Snap>, rolled: int, w: int)
    requires w in WindowsIn(ever, 0, rolled) && rolled % BUCKET_5MIN_SECS == 0
    ensures w + BUCKET_5MIN_SECS <= rolled
  {
    var t :| t in ever && 0 <= t < rolled && Window(t) == w;
    WindowEndsBy(t, rolled);
  }

  lemma RecordKeepsBuckets(n: Node, e: Event)
    requires BucketsAgree(n) && Times(n) && Legal(n, e) && e.job.RecordJob?
    ensures BucketsAgree(Apply(n, e))
  {
    var snap := e.job.snap;
    LaterWindowsIn(n.ever, e.now, snap, n.rolled);
    forall w | w in n.bucketed ensures n.bucketed[w] == FullBucket(n.ever[e.now := snap], w) {
      RolledWindowEnds(n.ever, n.rolled, w);
      LaterFullBucket(n.ever, e.now, snap, w);
    }
  }

  lemma LaterHourRow(b: Bucket, h: int, clock: int, ever: map<int, Snap>, now: int, snap: Snap)
    requires HourRowOk(b, h, clock, ever) && clock <= now
    ensures HourRowOk(b, h, now, ever[now := snap])
  {
    ScanAgree(ever[now := snap], ever, h, h + BUCKET_1HOUR_SECS);
  }

  lemma RecordKeepsHours(n: Node, e: Event)
    requires HoursAgree(n) && Legal(n, e) && e.job.RecordJob?
    ensures HoursAgree(Apply(n, e))
  {
    forall h | h in n.store.hours ensures HourRowOk(n.store.hours[h], h, e.now, n.ever[e.now := e.job.snap]) {
      LaterHourRow(n.store.hours[h], h, n.clock, n.ever, e.now, e.job.snap);
    }
  }

  lemma RecordKeepsRaw(n: Node, e: Event)
    requires Inv(n) && Legal(n, e) && e.job.RecordJob?
    ensures ValidStore(Apply(n, e).store) && Times(Apply(n, e)) && RawAgrees(Apply(n, e)) && FivesAgree(Apply(n, e))
  {
  }

  /** What the high-water mark selects is exactly what was recorded since the last cutoff. */
  lemma SelectedSinceCutoff(n: Node, now: int)
    requires Inv(n) && n.clock <= now
    ensures 0 <= HighWater(n.store.fives) <= n.rolled <= Cutoff(now)
    ensures forall t :: t in n.store.raw && HighWater(n.store.fives) <= t < Cutoff(now) ==> t >= n.rolled
    ensures WindowsIn(n.store.raw, HighWater(n.store.fives), Cutoff(now)) == WindowsIn(n.ever, n.rolled, Cutoff(now))
  {
    var hw := HighWater(n.store.fives);
    assert n.rolled <= Cutoff(now) by { AlignedBelow(n.rolled, now); }
    assert 0 <= hw <= n.rolled by {
      if n.store.fives.Keys != {} {
        var w :| w in n.store.fives && n.store.fives[w].windowEnd == hw;
        var t :| t in n.ever && 0 <= t < n.rolled && Window(t) == w;
        assert ValidBucket(w, n.store.fives[w]);
        WindowEndsBy(t, n.rolled);
      }
    }
    forall t | t in n.store.raw && t < n.rolled ensures t < hw {
      WindowProps(t);
      assert Window(t) in WindowsIn(n.ever, 0, n.rolled);
      assert Window(t) in n.store.fives;
      assert ValidBucket(Window(t), n.store.fives[Window(t)]);
    }
    forall w | w in WindowsIn(n.ever, n.rolled, Cutoff(now))
      ensures w in WindowsIn(n.store.raw, hw, Cutoff(now))
    {
      var t :| t in n.ever && n.rolled <= t < Cutoff(now) && Window(t) == w;
      assert t in n.store.raw;
    }
  }

  lemma AlignedBelow(c: int, now: int)
    requires c <= now && c % BUCKET_5MIN_SECS == 0
    ensures c <= Cutoff(now)
  {
    assert Cutoff(now) % BUCKET_5MIN_SECS == 0;
    assert now - Cutoff(now) < BUCKET_5MIN_SECS;
    var a, b := c / BUCKET_5MIN_SECS, Cutoff(now) / BUCKET_5MIN_SECS;
    assert c == a * BUCKET_5MIN_SECS && Cutoff(now) == b * BUCKET_5MIN_SECS;
  }

  /** No window is ever bucketed twice, and INSERT OR IGNORE ignores nothing. */
  lemma NeverTwice(n: Node, now: int)
    requires Inv(n) && n.clock <= now
    ensures WindowsIn(n.store.raw, HighWater(n.store.fives), Cutoff(now)) !! n.bucketed.Keys
    ensures NewFives(n.store, now).Keys == WindowsIn(n.ever, n.rolled, Cutoff(now))
  {
    SelectedSinceCutoff(n, now);
    forall w | w in WindowsIn(n.ever, n.rolled, Cutoff(now)) ensures w !in n.bucketed && w !in n.store.fives {
      var t :| t in n.ever && n.rolled <= t < Cutoff(now) && Window(t) == w;
      WindowProps(t);
      WindowStartsFrom(t, n.rolled);
      forall u | u in n.ever && 0 <= u < n.rolled ensures Window(u) != w {
        WindowEndsBy(u, n.rolled);
      }
    }
  }

  lemma NewWindowPlace(n: Node, now: int, w: int)
    requires Inv(n) && n.clock <= now && w in WindowsIn(n.ever, n.rolled, Cutoff(now))
    ensures n.rolled <= w && w + BUCKET_5MIN_SECS <= Cutoff(now)
    ensures w >= n.pruned - BUCKET_5MIN_RETAIN_SECS
  {
    var t :| t in n.ever && n.rolled <= t < Cutoff(now) && Window(t) == w;
    WindowProps(t);
    WindowStartsFrom(t, n.rolled);
    WindowEndsBy(t, Cutoff(now));
    UnprunedSince(n, t);
  }

  lemma UnprunedSince(n: Node, t: int)
    requires RawAgrees(n) && t in n.ever && n.rolled <= t
    ensures t in n.store.raw && t >= n.pruned - RAW_RETAIN_SECS
  {
  }

  /** The rows the rollup groups for a new window are all the rows ever recorded in it. */
  lemma NewRowsFull(n: Node, now: int, w: int)
    requires Inv(n) && n.clock <= now && w in WindowsIn(n.ever, n.rolled, Cutoff(now))
    ensures GroupRows(Payloads(n.store.raw), w, HighWater(n.store.fives), Cutoff(now)) ==
        Scan(n.ever, w, w + BUCKET_5MIN_SECS)
  {
    NewWindowPlace(n, now, w);
    SelectedSinceCutoff(n, now);
    PayloadsAgree(n, w);
  }

  lemma PayloadsAgree(n: Node, w: int)
    requires Inv(n) && w >= n.rolled
    ensures Scan(Payloads(n.store.raw), w, w + BUCKET_5MIN_SECS) == Scan(n.ever, w, w + BUCKET_5MIN_SECS)
  {
    ScanAgree(Payloads(n.store.raw), n.ever, w, w + BUCKET_5MIN_SECS);
  }

  lemma NewFiveIsFull(n: Node, now: int, w: int)
    requires Inv(n) && n.clock <= now && w in NewFives(n.store, now)
    ensures NewFives(n.store, now)[w] == FullBucket(n.ever, w)
  {
    NeverTwice(n, now);
    NewRowsFull(n, now, w);
  }

  lemma RollUpKeepsBuckets(n: Node, e: Event)
    requires Inv(n) && Legal(n, e) && e.job.RollUpJob?
    ensures BucketsAgree(Apply(n, e))
  {
    var m, created := Apply(n, e), NewFives(n.store, e.now);
    NeverTwice(n, e.now);
    assert n.rolled <= m.rolled by { AlignedBelow(n.rolled, e.now); }
    assert WindowsIn(n.ever, 0, m.rolled) == WindowsIn(n.ever, 0, n.rolled) + WindowsIn(n.ever, n.rolled, m.rolled);
    assert m.bucketed.Keys == n.bucketed.Keys + created.Keys;
    forall w | w in m.bucketed ensures m.bucketed[w] == FullBucket(m.ever, w) {
      if w in created {
        NewFiveIsFull(n, e.now, w);
      }
    }
  }

  lemma RollUpKeepsFives(n: Node, e: Event)
    requires Inv(n) && Legal(n, e) && e.job.RollUpJob?
    ensures FivesAgree(Apply(n, e))
  {
    var m, created := Apply(n, e), NewFives(n.store, e.now);
    NeverTwice(n, e.now);
    forall w | w in created ensures w >= n.pruned - BUCKET_5MIN_RETAIN_SECS {
      NewWindowPlace(n, e.now, w);
    }
  }

  lemma RollUpKeepsRaw(n: Node, e: Event)
    requires Inv(n) && Legal(n, e) && e.job.RollUpJob?
    ensures ValidStore(Apply(n, e).store) && Times(Apply(n, e)) && RawAgrees(Apply(n, e)) && HoursAgree(Apply(n, e))
  {
    RollUpValid(n.store, e.now);
    SelectedSinceCutoff(n, e.now);
  }

  lemma PruneKeeps(n: Node, e: Event)
    requires Inv(n) && Legal(n, e) && e.job.PruneJob?
    ensures Inv(Apply(n, e))
  {
  }

  // ------------------------------------------------------------ hourly rows

  /** Everything recorded in the windows `kept` that start before `end`. */
  ghost function Behind(ever: map<int, Snap>, kept: set<int>, end: int): map<int, Snap> {
    map t | t in ever && Window(t) in kept && Window(t) < end :: ever[t]
  }

  lemma WindowsAround(w: int)
    requires w % BUCKET_5MIN_SECS == 0
    ensures forall t {:trigger Window(t)} :: t < w ==> Window(t) < w
    ensures forall t {:trigger Window(t)} :: w <= t < w + BUCKET_5MIN_SECS ==> Window(t) == w
    ensures forall t {:trigger Window(t)} :: w + BUCKET_5MIN_SECS <= t ==> Window(t) >= w + BUCKET_5MIN_SECS
  {
    forall t ensures t < w ==> Window(t) < w { WindowProps(t); }
    forall t | w <= t < w + BUCKET_5MIN_SECS ensures Window(t) == w { WindowStartsFrom(t, w); WindowProps(t); }
    forall t | w + BUCKET_5MIN_SECS <= t ensures Window(t) >= w + BUCKET_5MIN_SECS { WindowStartsFrom(t,
        w + BUCKET_5MIN_SECS); }
  }

  lemma BehindGrows(ever: map<int, Snap>, kept: set<int>, h: int, w: int, end: int)
    requires w in kept && h <= w && w + BUCKET_5MIN_SECS <= end && w % BUCKET_5MIN_SECS == 0
    ensures Scan(Behind(ever, kept, w + 1), h, end)
         == Scan(Behind(ever, kept, w), h, end) + Scan(ever, w, w + BUCKET_5MIN_SECS)
  {
    var a, b, mid := Behind(ever, kept, w), Behind(ever, kept, w + 1), w + BUCKET_5MIN_SECS;
    WindowsAround(w);
    ScanSplit(b, h, w, end);
    ScanSplit(b, w, mid, end);
    ScanSplit(a, h, w, end);
    ScanAgree(a, b, h, w);
    ScanAgree(b, ever, w, mid);
    ScanEmpty(b, mid, end);
    ScanEmpty(a, w, end);
  }

  lemma BucketsOfSnoc(subs: seq<Bucket>, windows: seq<seq<Snap>>, snaps: seq<Snap>, w: int)
    requires BucketsOf(subs, windows)
    ensures BucketsOf(subs + [FiveOf(snaps, w)], windows + [snaps])
  {
  }

  ghost predicate AllFull(fives: map<int, Bucket>, ever: map<int, Snap>) {
    forall w :: w in fives ==> w % BUCKET_5MIN_SECS == 0 && fives[w] == FullBucket(ever, w)
  }

  lemma BehindNothing(ever: map<int, Snap>, kept: set<int>, h: int, end: int)
    requires h % BUCKET_5MIN_SECS == 0
    ensures Scan(Behind(ever, kept, h), h, end) == []
  {
    forall t | h <= t ensures Window(t) >= h { WindowStartsFrom(t, h); }
    ScanEmpty(Behind(ever, kept, h), h, end);
  }

  lemma BehindSkips(ever: map<int, Snap>, kept: set<int>, w: int)
    requires w !in kept
    ensures Behind(ever, kept, w + 1) == Behind(ever, kept, w)
  {
  }

  /** The snapshots behind each 5-minute row that starts in [h, e). */
  ghost function Windows(ever: map<int, Snap>, kept: set<int>, h: int, e: int): seq<seq<Snap>>
    decreases e - h
  {
    if e <= h then [] else
      Windows(ever, kept, h, e - 1) + (if e - 1 in kept then [Scan(ever, e - 1, e - 1 + BUCKET_5MIN_SECS)] else [])
  }

  lemma {:induction false} WindowsBucketed(ever: map<int, Snap>, fives: map<int, Bucket>, h: int, e: int)
    requires AllFull(fives, ever)
    ensures BucketsOf(Scan(fives, h, e), Windows(ever, fives.Keys, h, e))
    decreases e - h
  {
    if h < e {
      WindowsBucketed(ever, fives, h, e - 1);
      if e - 1 in fives {
        BucketsOfSnoc(Scan(fives, h, e - 1), Windows(ever, fives.Keys, h, e - 1),
                      Scan(ever, e - 1, e - 1 + BUCKET_5MIN_SECS), e - 1);
      }
    }
  }

  lemma {:induction false} WindowsFlatten(ever: map<int, Snap>, kept: set<int>, h: int, e: int)
    requires h % BUCKET_1HOUR_SECS == 0 && h <= e <= h + BUCKET_1HOUR_SECS
    requires forall w :: w in kept ==> w % BUCKET_5MIN_SECS == 0
    ensures Flatten(Windows(ever, kept, h, e)) == Scan(Behind(ever, kept, e), h, h + BUCKET_1HOUR_SECS)
    decreases e - h
  {
    if e == h {
      WindowsFlattenNone(ever, kept, h);
    } else {
      WindowsFlatten(ever, kept, h, e - 1);
      if e - 1 in kept {
        WindowsFlattenKept(ever, kept, h, e - 1);
      } else {
        WindowsFlattenSkipped(ever, kept, h, e - 1);
      }
    }
  }

  lemma WindowsFlattenNone(ever: map<int, Snap>, kept: set<int>, h: int)
    requires h % BUCKET_1HOUR_SECS == 0
    ensures Flatten(Windows(ever, kept, h, h)) == Scan(Behind(ever, kept, h), h, h + BUCKET_1HOUR_SECS)
  {
    HourAligned(h);
    BehindNothing(ever, kept, h, h + BUCKET_1HOUR_SECS);
  }

  lemma WindowsFlattenSkipped(ever: map<int, Snap>, kept: set<int>, h: int, w: int)
    requires h <= w && w !in kept
    requires Flatten(Windows(ever, kept, h, w)) == Scan(Behind(ever, kept, w), h, h + BUCKET_1HOUR_SECS)
    ensures Flatten(Windows(ever, kept, h, w + 1)) == Scan(Behind(ever, kept, w + 1), h, h + BUCKET_1HOUR_SECS)
  {
    BehindSkips(ever, kept, w);
    assert Windows(ever, kept, h, w + 1) == Windows(ever, kept, h, w);
  }

  lemma WindowsFlattenKept(ever: map<int, Snap>, kept: set<int>, h: int, w: int)
    requires h % BUCKET_1HOUR_SECS == 0 && h <= w < h + BUCKET_1HOUR_SECS && w in kept && w % BUCKET_5MIN_SECS == 0
    requires Flatten(Windows(ever, kept, h, w)) == Scan(Behind(ever, kept, w), h, h + BUCKET_1HOUR_SECS)
    ensures Flatten(Windows(ever, kept, h, w + 1)) == Scan(Behind(ever, kept, w + 1), h, h + BUCKET_1HOUR_SECS)
  {
    RoomInHour(h, w);
    BehindGrows(ever, kept, h, w, h + BUCKET_1HOUR_SECS);
    FlattenSnoc(Windows(ever, kept, h, w), Scan(ever, w, w + BUCKET_5MIN_SECS));
  }

  lemma HourAligned(h: int)
    requires h % BUCKET_1HOUR_SECS == 0
    ensures h % BUCKET_5MIN_SECS == 0
  {
    var k := h / BUCKET_1HOUR_SECS;
    assert h == (12 * k) * BUCKET_5MIN_SECS;
  }

  lemma RoomInHour(h: int, w: int)
    requires h % BUCKET_1HOUR_SECS == 0 && w % BUCKET_5MIN_SECS == 0 && h <= w < h + BUCKET_1HOUR_SECS
    ensures w + BUCKET_5MIN_SECS <= h + BUCKET_1HOUR_SECS
  {
    HourAligned(h + BUCKET_1HOUR_SECS);
    AlignedGap(w, h + BUCKET_1HOUR_SECS);
  }

  ghost predicate Thinner(sub: seq<int>, all: seq<int>) {
    && (forall x :: x in sub ==> x in all)
    && (NonDecreasing(all) ==> NonDecreasing(sub) && Growth(sub) <= Growth(all))
  }

  lemma {:induction false} ColumnSnoc(snaps: seq<Snap>, s: Snap, k: Key)
    ensures Column(snaps + [s], k) == if Reading(s, k).Some? then Column(snaps, k) + [Reading(s, k).value]
        else Column(snaps, k)
  {
    ColumnAppend(snaps, [s], k);
    assert [s][1..] == [];
  }

  /** Leaving rows out of a scan leaves readings out of a column, in order. */
  lemma {:induction false} ScanThinner(sub: map<int, Snap>, all: map<int, Snap>, lo: int, hi: int, k: Key)
    requires forall t :: t in sub ==> t in all && sub[t] == all[t]
    ensures Thinner(Column(Scan(sub, lo, hi), k), Column(Scan(all, lo, hi), k))
    decreases hi - lo
  {
    if lo < hi {
      ScanThinner(sub, all, lo, hi - 1, k);
      if hi - 1 in all {
        var s, a := Column(Scan(sub, lo, hi - 1), k), Column(Scan(all, lo, hi - 1), k);
        ColumnSnoc(Scan(all, lo, hi - 1), all[hi - 1], k);
        if hi - 1 in sub {
          ColumnSnoc(Scan(sub, lo, hi - 1), all[hi - 1], k);
        } else {
          assert Scan(sub, lo, hi) == Scan(sub, lo, hi - 1);
        }
        if Reading(all[hi - 1], k).Some? {
          ThinnerSnoc(s, a, Reading(all[hi - 1], k).value);
        }
      } else {
        assert Scan(sub, lo, hi) == Scan(sub, lo, hi - 1) && Scan(all, lo, hi) == Scan(all, lo, hi - 1);
      }
    }
  }

  lemma ThinnerSnoc(s: seq<int>, a: seq<int>, x: int)
    requires Thinner(s, a)
    ensures Thinner(s, a + [x]) && Thinner(s + [x], a + [x])
  {
    var b := a + [x];
    forall y | y in s ensures y in b { assert y in a; }
    if NonDecreasing(b) {
      assert forall i, j :: 0 <= i <= j < |a| ==> a[i] == b[i] && a[j] == b[j];
      assert NonDecreasing(a);
      if s != [] {
        assert s[0] in a && s[|s| - 1] in a;
        var i :| 0 <= i < |a| && a[i] == s[0];
        assert b[0] <= b[i] && b[|a| - 1] <= b[|a|];
        forall j | 0 <= j < |s| ensures s[j] <= x {
          assert s[j] in a;
          var m :| 0 <= m < |a| && a[m] == s[j];
          assert b[m] <= b[|a|];
        }
      }
      assert a != [] ==> b[0] <= b[|a|] && b[|a| - 1] <= b[|a|];
    }
  }

  lemma WithinGivesHourBounds(b: Bucket, sub: seq<Snap>, all: seq<Snap>)
    requires Within(b, sub)
    requires forall k :: Thinner(Column(sub, k), Column(all, k))
    requires b.rxDelta.Some? && b.txDelta.Some?
    ensures HourBounds(b, all)
  {
    forall k, lo, hi | k in {Cpu, Mem, Disk} && Spans(all, k, lo, hi) && Stored(b, k).Some?
      ensures lo <= Stored(b, k).value <= hi
      ensures k != Disk ==> StoredMax(b, k).Some? && Stored(b, k).value <= StoredMax(b, k).value <= hi
    {
      assert PercentageWithin(b, sub, k) && Thinner(Column(sub, k), Column(all, k));
      assert Spans(sub, k, lo, hi);
      if k != Disk {
        assert MaxOf(Column(sub, k)) in Column(sub, k);
      }
    }
    forall k | k in {Rx, Tx} && NonDecreasing(Column(all, k))
      ensures 0 <= Stored(b, k).value <= Growth(Column(all, k))
    {
      assert CounterWithin(b, sub, k) && Thinner(Column(sub, k), Column(all, k));
    }
  }

  lemma HourRowBounded(ever: map<int, Snap>, fives: map<int, Bucket>, h: int, e: int)
    requires h % BUCKET_1HOUR_SECS == 0 && h <= e <= h + BUCKET_1HOUR_SECS
    requires AllFull(fives, ever)
    ensures HourBounds(HourOf(Scan(fives, h, e), h), Scan(ever, h, h + BUCKET_1HOUR_SECS))
  {
    var windows := Windows(ever, fives.Keys, h, e);
    WindowsBucketed(ever, fives, h, e);
    WindowsFlatten(ever, fives.Keys, h, e);
    HourlyBounds(Scan(fives, h, e), windows, h, h + BUCKET_1HOUR_SECS, BUCKET_1HOUR_SECS);
    forall k
      ensures Thinner(Column(Flatten(windows), k), Column(Scan(ever, h, h + BUCKET_1HOUR_SECS), k))
    {
      ScanThinner(Behind(ever, fives.Keys, e), ever, h, h + BUCKET_1HOUR_SECS, k);
    }
    WithinGivesHourBounds(HourOf(Scan(fives, h, e), h), Flatten(windows), Scan(ever, h, h + BUCKET_1HOUR_SECS));
  }

  lemma FivesAreFull(n: Node)
    requires Inv(n)
    ensures AllFull(n.store.fives, n.ever)
  {
    forall w | w in n.store.fives ensures w % BUCKET_5MIN_SECS == 0 {
      assert ValidBucket(w, n.store.fives[w]);
    }
  }

  lemma NewHourPlace(s: Store, now: int, h: int)
    requires h in NewHours(s, now)
    ensures h % BUCKET_1HOUR_SECS == 0 && h <= now - HOURLY_DELAY_SECS
  {
    assert h in HoursIn(s.fives, now - HOURLY_DELAY_SECS + 1);
    HourProps(s.fives, now - HOURLY_DELAY_SECS + 1, h);
  }

  lemma HourProps(fives: map<int, Bucket>, end: int, h: int)
    requires h in HoursIn(fives, end)
    ensures h % BUCKET_1HOUR_SECS == 0 && h < end
  {
    var w :| w in fives && w < end && Hour(w) == h;
    HourOfWindow(w);
  }

  lemma HourOfWindow(w: int)
    ensures Hour(w) % BUCKET_1HOUR_SECS == 0 && Hour(w) <= w
  {
  }

  lemma NewHourIs(s: Store, now: int, h: int)
    requires h in NewHours(s, now)
    ensures NewHours(s, now)[h] == HourOf(Scan(s.fives, h, SubEnd(h, now - HOURLY_DELAY_SECS)), h)
  {
  }

  lemma NewHourBounded(n: Node, now: int, h: int)
    requires Inv(n) && h in NewHours(n.store, now)
    ensures HourBounds(NewHours(n.store, now)[h], Scan(n.ever, h, h + BUCKET_1HOUR_SECS))
  {
    NewHourPlace(n.store, now, h);
    NewHourIs(n.store, now, h);
    FivesAreFull(n);
    HourRowBounded(n.ever, n.store.fives, h, SubEnd(h, now - HOURLY_DELAY_SECS));
  }

  lemma HourRowKept(n: Node, now: nat, h: int)
    requires Inv(n) && n.clock <= now && h in RollHourly(n.store, now).hours
    ensures HourRowOk(RollHourly(n.store, now).hours[h], h, now, n.ever)
  {
    if h in n.store.hours {
      assert HourRowOk(n.store.hours[h], h, n.clock, n.ever);
    } else {
      NewHourPlace(n.store, now, h);
      NewHourBounded(n, now, h);
    }
  }

  lemma HourlyKeepsHours(n: Node, e: Event)
    requires Inv(n) && Legal(n, e) && e.job.HourlyJob?
    ensures HoursAgree(Apply(n, e))
  {
    forall h | h in RollHourly(n.store, e.now).hours
      ensures HourRowOk(RollHourly(n.store, e.now).hours[h], h, e.now, n.ever)
    {
      HourRowKept(n, e.now, h);
    }
  }

  lemma HourlyKeeps(n: Node, e: Event)
    requires Inv(n) && Legal(n, e) && e.job.HourlyJob?
    ensures Inv(Apply(n, e))
  {
    HourlyKeepsHours(n, e);
    HourlyKeepsFives(n, e);
  }

  lemma HourlyKeepsFives(n: Node, e: Event)
    requires Inv(n) && Legal(n, e) && e.job.HourlyJob?
    ensures var m := Apply(n, e);
      ValidStore(m.store) && Times(m) && RawAgrees(m) && BucketsAgree(m) && FivesAgree(m)
  {
  }

  // ------------------------------------------------------------- whole runs

  lemma StepKeeps(n: Node, e: Event)
    requires Inv(n) && Legal(n, e)
    ensures Inv(Apply(n, e))
  {
    match e.job
    case RecordJob(_) =>
      RecordKeepsBuckets(n, e);
      RecordKeepsHours(n, e);
      RecordKeepsRaw(n, e);
    case RollUpJob =>
      RollUpKeepsBuckets(n, e);
      RollUpKeepsFives(n, e);
      RollUpKeepsRaw(n, e);
    case HourlyJob => HourlyKeeps(n, e);
    case PruneJob => PruneKeeps(n, e);
  }

  lemma {:induction false} RunKeeps(n: Node, events: seq<Event>)
    requires Inv(n) && LegalRun(n, events)
    ensures Inv(Run(n, events))
    decreases events
  {
    if events != [] {
      StepKeeps(n, events[0]);
      RunKeeps(Apply(n, events[0]), events[1..]);
    }
  }

  /** The buckets the simple form would keep: one per window with a snapshot that ended by the last cutoff,
      over everything ever recorded in it, minus those past their retention. */
  ghost function FullAggregation(n: Node): map<int, Bucket> {
    map w | w in WindowsIn(n.ever, 0, n.rolled) && w >= n.pruned - BUCKET_5MIN_RETAIN_SECS :: FullBucket(n.ever, w)
  }

  /** The bucket holds the means, maxima and growths of everything recorded in window w. */
  ghost predicate BucketExact(b: Bucket, ever: map<int, Snap>, w: int) {
    Represents(b, Scan(ever, w, w + BUCKET_5MIN_SECS))
  }

  ghost predicate BucketsExact(bucketed: map<int, Bucket>, ever: map<int, Snap>) {
    forall w :: w in bucketed ==> BucketExact(bucketed[w], ever, w)
  }

  lemma FullBucketExact(ever: map<int, Snap>, w: int)
    ensures BucketExact(FullBucket(ever, w), ever, w)
  {
    FiveMinuteExact(Scan(ever, w, w + BUCKET_5MIN_SECS), w, w + BUCKET_5MIN_SECS, BUCKET_5MIN_SECS);
  }

  lemma FullBucketsExact(bucketed: map<int, Bucket>, ever: map<int, Snap>)
    requires forall w :: w in bucketed ==> bucketed[w] == FullBucket(ever, w)
    ensures BucketsExact(bucketed, ever)
  {
    forall w | w in bucketed ensures BucketExact(bucketed[w], ever, w) {
      FullBucketExact(ever, w);
      assert bucketed[w] == FullBucket(ever, w);
    }
  }

  /** Over any run of record, roll-up, hourly and safe prune steps, the table built with nothing but a
      high-water mark is the table of full aggregation, each bucket with the means, maxima and growths of everything
      recorded in its window; the next roll-up touches no window that was ever bucketed; and every hourly row stays
      within the raw samples of its hour. */
  lemma IncrementalEqualsFull(events: seq<Event>)
    requires LegalRun(Init, events)
    ensures var n := Run(Init, events);
      && n.store.fives == FullAggregation(n)
      && (forall w :: w in n.bucketed <==> w in WindowsIn(n.ever, 0, n.rolled))
      && (forall w :: w in n.bucketed ==> n.bucketed[w] == FullBucket(n.ever, w))
      && BucketsExact(n.bucketed, n.ever)
      && (forall now :: now >= n.clock ==> NewFives(n.store, now).Keys !! n.bucketed.Keys)
      && (forall h :: h in n.store.hours ==> HourBounds(n.store.hours[h], Scan(n.ever, h, h + BUCKET_1HOUR_SECS)))
  {
    RunKeeps(Init, events);
    var n := Run(Init, events);
    FivesAreFullAggregation(n);
    FullBucketsExact(n.bucketed, n.ever);
    forall now | now >= n.clock ensures NewFives(n.store, now).Keys !! n.bucketed.Keys {
      NeverAgain(n, now);
    }
    assert forall h :: h in n.store.hours ==> HourRowOk(n.store.hours[h], h, n.clock, n.ever);
  }

  lemma FivesAreFullAggregation(n: Node)
    requires BucketsAgree(n) && FivesAgree(n)
    ensures n.store.fives == FullAggregation(n)
  {
    var full := FullAggregation(n);
    assert forall w :: w in full <==> w in n.store.fives;
    assert forall w :: w in full ==> full[w] == n.store.fives[w];
  }

  lemma NeverAgain(n: Node, now: int)
    requires Inv(n) && n.clock <= now
    ensures NewFives(n.store, now).Keys !! n.bucketed.Keys
  {
    NeverTwice(n, now);
  }

  lemma {:induction false} RunSnoc(n: Node, events: seq<Event>, e: Event)
    ensures Run(n, events + [e]) == Apply(Run(n, events), e)
    decreases events
  {
    var all := events + [e];
    if events == [] {
      assert all == [e] && all[1..] == [];
    } else {
      RunSnoc(Apply(n, events[0]), events[1..], e);
      assert all[1..] == events[1..] + [e];
    }
  }

  /** After any run, an hourly job leaves existing rows alone, gives every hour with a sampled 5-minute row older than a
      day its row, and each new row holds the means, maxima and sums of the 5-minute rows it is made of. */
  lemma HourlyJobExact(events: seq<Event>, now: nat)
    ensures var n, m := Run(Init, events), Run(Init, events + [Event(now, HourlyJob)]);
      && (forall h :: h in n.store.hours ==> h in m.store.hours && m.store.hours[h] == n.store.hours[h])
      && (forall w :: w in n.store.fives && w <= now - 24 * 3600 && n.store.fives[w].samples > 0 ==>
            Hour(w) in m.store.hours)
      && (forall h :: h in m.store.hours && h !in n.store.hours ==>
            StandsForHour(m.store.hours[h], n.store.fives, h, now - 24 * 3600))
  {
    var s := Run(Init, events).store;
    RunSnoc(Init, events, Event(now, HourlyJob));
    HourlyCovers(s, now);
    RolledHoursExact(s, now, RollHourly(s, now).hours);
  }

  /** The schedule that keeps prunes safe: the clock does not go back, and every prune comes at most 6900 s (the
      raw retention less one window) after the roll-up before it, or after the start. */
  ghost predicate Scheduled(clock: nat, lastRollUp: nat, events: seq<Event>)
    decreases events
  {
    events == [] ||
    (var e := events[0];
     && clock <= e.now
     && (e.job.PruneJob? ==> e.now - lastRollUp <= RAW_RETAIN_SECS - BUCKET_5MIN_SECS)
     && Scheduled(e.now, if e.job.RollUpJob? then e.now else lastRollUp, events[1..]))
  }

  lemma {:induction false} ScheduledIsLegal(n: Node, lastRollUp: nat, events: seq<Event>)
    requires Scheduled(n.clock, lastRollUp, events) && n.rolled > lastRollUp - BUCKET_5MIN_SECS
    ensures LegalRun(n, events)
    decreases events
  {
    if events != [] {
      CutoffProps(events[0].now);
      var next := if events[0].job.RollUpJob? then events[0].now else lastRollUp;
      ScheduledIsLegal(Apply(n, events[0]), next, events[1..]);
    }
  }

  /** On that schedule the incremental table is always the table of full aggregation. */
  lemma ScheduledEqualsFull(events: seq<Event>)
    requires Scheduled(0, 0, events)
    ensures Run(Init, events).store.fives == FullAggregation(Run(Init, events))
    ensures Exact(Run(Init, events))
  {
    ScheduledIsLegal(Init, 0, events);
    IncrementalEqualsFull(events);
    RunKeeps(Init, events);
    InvIsExact(Run(Init, events));
  }

  // ------------------------------------------------- when a prune loses data

  /** Every window that ended by the last cutoff was bucketed over all its snapshots. */
  ghost predicate Exact(n: Node) {
    forall t :: t in n.ever && Window(t) + BUCKET_5MIN_SECS <= n.rolled ==>
      Window(t) in n.bucketed && n.bucketed[Window(t)] == FullBucket(n.ever, Window(t))
  }

  lemma {:induction false} ScanSmaller<T>(sub: map<int, T>, all: map<int, T>, lo: int, hi: int)
    requires forall t :: t in sub ==> t in all
    ensures |Scan(sub, lo, hi)| <= |Scan(all, lo, hi)|
    ensures (exists t :: lo <= t < hi && t in all && t !in sub) ==> |Scan(sub, lo, hi)| < |Scan(all, lo, hi)|
    decreases hi - lo
  {
    if lo < hi {
      ScanSmaller(sub, all, lo, hi - 1);
    }
  }

  /** The clock does not go back. */
  ghost predicate InOrder(clock: nat, events: seq<Event>)
    decreases events
  {
    events == [] || (clock <= events[0].now && InOrder(events[0].now, events[1..]))
  }

  /** Over whole runs: at a roll-up, every window that ended by its cutoff has been bucketed over all its
      snapshots if and only if every prune so far spared the snapshots at or after the last cutoff. */
  lemma RunExactIff(events: seq<Event>)
    requires InOrder(0, events) && events != [] && events[|events| - 1].job.RollUpJob?
    ensures Exact(Run(Init, events)) <==> LegalRun(Init, events)
  {
    if LegalRun(Init, events) {
      RunKeeps(Init, events);
      InvIsExact(Run(Init, events));
    } else {
      var t := LosingRun(Init, events);
      EndsRolled(Init, events);
      LostIsInexact(Run(Init, events), t);
    }
  }

  /** After a run whose prunes were safe, one more prune keeps the next roll-up exact if and only if it
      deletes no snapshot at or after the last cutoff. */
  lemma PruneExactIff(events: seq<Event>, now: nat, next: nat)
    requires LegalRun(Init, events) && Run(Init, events).clock <= now <= next
    ensures Exact(Apply(Apply(Run(Init, events), Event(now, PruneJob)), Event(next, RollUpJob)))
       <==> SafePrune(Run(Init, events), now)
  {
    var n := Run(Init, events);
    RunKeeps(Init, events);
    var p := Apply(n, Event(now, PruneJob));
    if SafePrune(n, now) {
      StepKeeps(n, Event(now, PruneJob));
      StepKeeps(p, Event(next, RollUpJob));
      InvIsExact(Apply(p, Event(next, RollUpJob)));
    } else {
      var t := UnsafePruneLoses(n, now);
      LostStays(p, Event(next, RollUpJob), t);
      LostIsInexact(Apply(p, Event(next, RollUpJob)), t);
    }
  }

  /** It happens: a snapshot that waits two hours for a roll-up is pruned first, and its window is never
      bucketed. */
  lemma LatePruneLosesSnapshot(snap: Snap)
    ensures var recorded := [Event(0, RecordJob(snap))];
      var n := Run(Init, recorded + [Event(7201, PruneJob), Event(7500, RollUpJob)]);
      && LegalRun(Init, recorded)
      && n.rolled == 7500 && 0 in n.ever && Window(0) == 0
      && 0 !in n.bucketed && !Exact(n)
  {
    var recorded := [Event(0, RecordJob(snap))];
    var jobs := [Event(7201, PruneJob), Event(7500, RollUpJob)];
    var n := Run(Init, recorded);
    var pruned := Apply(n, Event(7201, PruneJob));
    var rolled := Apply(pruned, Event(7500, RollUpJob));
    var first := Apply(Init, recorded[0]);
    assert recorded[1..] == [];
    assert n == Run(first, recorded[1..]) == Run(first, []) == first;
    assert 0 in n.store.raw && n.rolled == 0;
    PruneExactIff(recorded, 7201, 7500);
    assert pruned.store.raw == map[];
    assert (recorded + jobs)[1..] == jobs && jobs[1..] == [Event(7500, RollUpJob)];
    assert [Event(7500, RollUpJob)][1..] == [];
    assert Run(pruned, [Event(7500, RollUpJob)]) == Run(rolled, []) == rolled;
    assert Run(n, jobs) == Run(pruned, [Event(7500, RollUpJob)]);
  }

  lemma InvIsExact(n: Node)
    requires Inv(n)
    ensures Exact(n)
  {
    forall t | t in n.ever && Window(t) + BUCKET_5MIN_SECS <= n.rolled
      ensures Window(t) in n.bucketed && n.bucketed[Window(t)] == FullBucket(n.ever, Window(t))
    {
      WindowProps(t);
      assert Window(t) in WindowsIn(n.ever, 0, n.rolled);
    }
  }

  lemma UnrolledWindow(n: Node, t: int)
    requires Inv(n) && n.rolled <= t
    ensures Window(t) !in n.bucketed
  {
    WindowStartsFrom(t, n.rolled);
    forall u | u in n.ever && 0 <= u < n.rolled ensures Window(u) != Window(t) { WindowEndsBy(u, n.rolled); }
  }

  /** The snapshot of second t is gone, and a bucket of its window, if there is one, was built without it. */
  ghost predicate Lost(n: Node, t: int) {
    && t in n.ever && t !in n.store.raw && t < n.clock - RAW_RETAIN_SECS
    && (forall u :: u in n.store.raw ==> u in n.ever)
    && (Window(t) in n.bucketed ==>
          n.bucketed[Window(t)].samples < |Scan(n.ever, Window(t), Window(t) + BUCKET_5MIN_SECS)|)
  }

  lemma UnsafePruneLoses(n: Node, now: nat) returns (t: int)
    requires Inv(n) && n.clock <= now && !SafePrune(n, now)
    ensures Lost(Apply(n, Event(now, PruneJob)), t)
  {
    t :| t in n.store.raw && t < now - RAW_RETAIN_SECS && t >= n.rolled;
    UnrolledWindow(n, t);
  }

  lemma LostStays(n: Node, e: Event, t: int)
    requires Lost(n, t) && n.clock <= e.now
    ensures Lost(Apply(n, e), t)
  {
    WindowProps(t);
    match e.job
    case RecordJob(snap) => ScanAgree(n.ever[e.now := snap], n.ever, Window(t), Window(t) + BUCKET_5MIN_SECS);
    case RollUpJob =>
      if Window(t) in NewFives(n.store, e.now) {
        RolledThin(n, e.now, t);
      }
    case HourlyJob =>
    case PruneJob =>
  }

  lemma RolledThin(n: Node, now: nat, t: int)
    requires Lost(n, t) && n.clock <= now && Window(t) in NewFives(n.store, now)
    ensures NewFives(n.store, now)[Window(t)].samples < |Scan(n.ever, Window(t), Window(t) + BUCKET_5MIN_SECS)|
  {
    var p, lo := Payloads(n.store.raw), HighWater(n.store.fives);
    WindowProps(t);
    CutoffProps(now);
    WindowEndsBy(t, Cutoff(now));
    ThinBucket(p, n.ever, Window(t), lo, Cutoff(now), t);
  }

  lemma {:induction false} LostForGood(n: Node, events: seq<Event>, t: int)
    requires Lost(n, t) && InOrder(n.clock, events)
    ensures Lost(Run(n, events), t)
    decreases events
  {
    if events != [] {
      LostStays(n, events[0], t);
      LostForGood(Apply(n, events[0]), events[1..], t);
    }
  }

  /** The first unsafe prune of a run loses a snapshot for good. */
  lemma {:induction false} LosingRun(n: Node, events: seq<Event>) returns (t: int)
    requires Inv(n) && InOrder(n.clock, events) && !LegalRun(n, events)
    ensures Lost(Run(n, events), t)
    decreases events
  {
    var m := Apply(n, events[0]);
    if Legal(n, events[0]) {
      StepKeeps(n, events[0]);
      t := LosingRun(m, events[1..]);
    } else {
      t := UnsafePruneLoses(n, events[0].now);
      LostForGood(m, events[1..], t);
    }
  }

  lemma {:induction false} EndsRolled(n: Node, events: seq<Event>)
    requires events != [] && events[|events| - 1].job.RollUpJob?
    ensures Run(n, events).rolled == Cutoff(Run(n, events).clock)
    decreases events
  {
    var m := Apply(n, events[0]);
    if |events| == 1 {
      assert events[1..] == [] && Run(m, []) == m;
    } else {
      EndsRolled(m, events[1..]);
    }
  }

  lemma LostIsInexact(n: Node, t: int)
    requires Lost(n, t) && n.rolled == Cutoff(n.clock)
    ensures !Exact(n)
  {
    CutoffProps(n.clock);
    WindowEndsBy(t, n.rolled);
    SamplesCount(Scan(n.ever, Window(t), Window(t) + BUCKET_5MIN_SECS), Window(t));
  }

  lemma CutoffProps(now: nat)
    ensures Cutoff(now) % BUCKET_5MIN_SECS == 0 && now - BUCKET_5MIN_SECS < Cutoff(now) <= now
  {
  }

  lemma ThinBucket(sub: map<int, Snap>, all: map<int, Snap>, w: int, lo: int, hi: int, t: int)
    requires forall u :: u in sub ==> u in all
    requires w <= t < w + BUCKET_5MIN_SECS <= hi && t in all && t !in sub
    ensures FiveOf(GroupRows(sub, w, lo, hi), w).samples < |Scan(all, w, w + BUCKET_5MIN_SECS)|
  {
    ScanSplitShorter(sub, w, Max(w, lo), w + BUCKET_5MIN_SECS);
    ScanSmaller(sub, all, w, w + BUCKET_5MIN_SECS);
    SamplesCount(GroupRows(sub, w, lo, hi), w);
  }

  lemma SamplesCount(snaps: seq<Snap>, w: int)
    ensures FiveOf(snaps, w).samples == |snaps|
  {
  }

  lemma ScanSplitShorter<T>(m: map<int, T>, lo: int, mid: int, hi: int)
    requires lo <= mid
    ensures |Scan(m, mid, hi)| <= |Scan(m, lo, hi)|
  {
    if mid <= hi {
      ScanSplit(m, lo, mid, hi);
    }
  }
}
