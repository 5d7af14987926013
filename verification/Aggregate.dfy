/** The 5-minute and hourly aggregates of the log store (src/logstore.py).
    Percentages are integers in hundredths of a percent, which is the precision the source rounds to. */
module Aggregate {
  import opened Common

  /** One `SystemSnapshot` payload; an absent key is None. */
  datatype Snap = Snap(timestamp: Option<int>, cpu: Option<int>, mem: Option<int>, disk: Option<int>,
                       rx: Option<int>, tx: Option<int>)

  /** A row of `stat_buckets`, for the own node. */
  datatype Bucket = Bucket(windowStart: int, windowEnd: int, size: int,
                           cpuAvg: Option<int>, cpuMax: Option<int>,
                           memAvg: Option<int>, memMax: Option<int>,
                           diskAvg: Option<int>, rxDelta: Option<int>, txDelta: Option<int>, samples: nat)

  function Present(xs: seq<Option<int>>): seq<int> {
    if xs == [] then [] else (if xs[0].Some? then [xs[0].value] else []) + Present(xs[1..])
  }

  function Sum(xs: seq<int>): int {
    if xs == [] then 0 else xs[0] + Sum(xs[1..])
  }

  function MaxOf(xs: seq<int>): (m: int)
    requires xs != []
    ensures m in xs && forall x :: x in xs ==> x <= m
  {
    if |xs| == 1 then xs[0] else
      assert xs == [xs[0]] + xs[1..];
      Max(xs[0], MaxOf(xs[1..]))
  }

  /** Nearest integer to s/n, ties to even. */
  function RoundDiv(s: int, n: int): int
    requires n > 0
  {
    var q, r := s / n, s % n;
    if 2 * r < n then q else if 2 * r > n then q + 1 else if q % 2 == 0 then q else q + 1
  }

  function AvgOf(xs: seq<int>): Option<int> {
    if xs == [] then None else Some(RoundDiv(Sum(xs), |xs|))
  }

  function MaxOpt(xs: seq<int>): Option<int> {
    if xs == [] then None else Some(MaxOf(xs))
  }

  /** Last minus first reading of a counter; needs two readings. */
  function CounterDelta(xs: seq<int>): Option<int> {
    if |xs| >= 2 then Some(xs[|xs| - 1] - xs[0]) else None
  }

  /** The keys of a payload that are aggregated. */
  datatype Key = Cpu | Mem | Disk | Rx | Tx

  function Reading(s: Snap, k: Key): Option<int> {
    match k
    case Cpu => s.cpu
    case Mem => s.mem
    case Disk => s.disk
    case Rx => s.rx
    case Tx => s.tx
  }

  /** `[s[k] for s in snaps if k in s]`. */
  function Column(snaps: seq<Snap>, k: Key): seq<int> {
    if snaps == [] then [] else
      (if Reading(snaps[0], k).Some? then [Reading(snaps[0], k).value] else []) + Column(snaps[1..], k)
  }

  /** `_aggregate_snaps`. */
  function AggregateSnaps(snaps: seq<Snap>, start: int, end: int, size: int): Bucket {
    Bucket(start, end, size,
           AvgOf(Column(snaps, Cpu)), MaxOpt(Column(snaps, Cpu)),
           AvgOf(Column(snaps, Mem)), MaxOpt(Column(snaps, Mem)),
           AvgOf(Column(snaps, Disk)),
           CounterDelta(Column(snaps, Rx)), CounterDelta(Column(snaps, Tx)),
           |snaps|)
  }

  /** The average a bucket stores for a percentage, or the delta it stores for a counter. */
  function Stored(b: Bucket, k: Key): Option<int> {
    match k
    case Cpu => b.cpuAvg
    case Mem => b.memAvg
    case Disk => b.diskAvg
    case Rx => b.rxDelta
    case Tx => b.txDelta
  }

  /** The maximum a bucket stores; only cpu and mem have one. */
  function StoredMax(b: Bucket, k: Key): Option<int> {
    match k
    case Cpu => b.cpuMax
    case Mem => b.memMax
    case _ => None
  }

  function Fields(subs: seq<Bucket>, k: Key): seq<int> {
    Present(seq(|subs|, i requires 0 <= i < |subs| => Stored(subs[i], k)))
  }

  function MaxFields(subs: seq<Bucket>, k: Key): seq<int> {
    Present(seq(|subs|, i requires 0 <= i < |subs| => StoredMax(subs[i], k)))
  }

  function TotalSamples(subs: seq<Bucket>): nat {
    if subs == [] then 0 else subs[0].samples + TotalSamples(subs[1..])
  }

  /** One iteration of the `roll_hourly` loop: an hour built from its 5-minute buckets. */
  function AggregateBuckets(subs: seq<Bucket>, start: int, end: int, size: int): Bucket {
    Bucket(start, end, size,
           AvgOf(Fields(subs, Cpu)), MaxOpt(MaxFields(subs, Cpu)),
           AvgOf(Fields(subs, Mem)), MaxOpt(MaxFields(subs, Mem)),
           AvgOf(Fields(subs, Disk)),
           Some(Sum(Fields(subs, Rx))), Some(Sum(Fields(subs, Tx))),
           TotalSamples(subs))
  }

  // ---------------------------------------------------------------- rounding

  lemma {:induction false} SumBounds(xs: seq<int>, lo: int, hi: int)
    requires forall x :: x in xs ==> lo <= x <= hi
    ensures lo * |xs| <= Sum(xs) <= hi * |xs|
  {
    if xs != [] {
      assert xs[0] in xs && forall x :: x in xs[1..] ==> x in xs;
      SumBounds(xs[1..], lo, hi);
      OneMore(lo, |xs|);
      OneMore(hi, |xs|);
    }
  }

  lemma OneMore(a: int, n: nat)
    requires n > 0
    ensures a * n == a + a * (n - 1)
  {
  }

  /** Rounding to the nearest integer never leaves an interval with integer ends. */
  lemma RoundDivWithin(s: int, n: int, lo: int, hi: int)
    requires n > 0 && lo * n <= s <= hi * n
    ensures lo <= RoundDiv(s, n) <= hi
  {
    var q, r := s / n, s % n;
    assert s == q * n + r && 0 <= r < n;
    assert (q + 1) * n == q * n + n;
    if q < lo {
      ProductMonotone(q + 1, lo, n);
      assert false;
    }
    if q == hi {
      assert r == 0;
    } else if q > hi {
      ProductMonotone(hi + 1, q, n);
      assert false;
    }
  }

  /** `a` is total / n rounded to the nearest integer, ties to even. */
  ghost predicate NearestMean(a: int, total: int, n: nat) {
    && -(n as int) <= TwiceOff(a, total, n) <= n
    && (TwiceOff(a, total, n) == n || TwiceOff(a, total, n) == -(n as int) ==> a % 2 == 0)
  }

  ghost function TwiceOff(a: int, total: int, n: nat): int { 2 * (a * n - total) }

  lemma RoundDivNearest(s: int, n: int)
    requires n > 0
    ensures NearestMean(RoundDiv(s, n), s, n)
  {
    var q, r := s / n, s % n;
    assert s == q * n + r && 0 <= r < n;
    assert (q + 1) * n == q * n + n;
  }

  /** There is only one such integer. */
  lemma NearestMeanUnique(a: int, b: int, total: int, n: nat)
    requires n > 0 && NearestMean(a, total, n) && NearestMean(b, total, n)
    ensures a == b
  {
    if a < b {
      OnlyOneAbove(a, b, total, n);
    } else if b < a {
      OnlyOneAbove(b, a, total, n);
    }
  }

  lemma OnlyOneAbove(a: int, b: int, total: int, n: nat)
    requires n > 0 && a < b && NearestMean(a, total, n)
    ensures !NearestMean(b, total, n)
  {
    assert (a + 1) * n == a * n + n;
    if b > a + 1 {
      ProductMonotone(a + 2, b, n);
      assert (a + 2) * n == a * n + n + n;
    }
  }

  /** The sum of a list, one more at a time. */
  lemma {:induction false} SumSnoc(xs: seq<int>, x: int)
    ensures Sum([]) == 0 && Sum(xs + [x]) == Sum(xs) + x
  {
    if xs == [] {
      assert xs + [x] == [x] && [x][1..] == [];
    } else {
      SumSnoc(xs[1..], x);
      assert (xs + [x])[1..] == xs[1..] + [x];
    }
  }

  lemma AvgWithin(xs: seq<int>, lo: int, hi: int)
    requires xs != []
    requires forall x :: x in xs ==> lo <= x <= hi
    ensures AvgOf(xs).Some? && lo <= AvgOf(xs).value <= hi
  {
    SumBounds(xs, lo, hi);
    RoundDivWithin(Sum(xs), |xs|, lo, hi);
  }

  // ------------------------------------------------- one metric, two levels

  function AvgEach(groups: seq<seq<int>>): seq<Option<int>> {
    seq(|groups|, i requires 0 <= i < |groups| => AvgOf(groups[i]))
  }

  function MaxEach(groups: seq<seq<int>>): seq<Option<int>> {
    seq(|groups|, i requires 0 <= i < |groups| => MaxOpt(groups[i]))
  }

  function DeltaEach(groups: seq<seq<int>>): seq<Option<int>> {
    seq(|groups|, i requires 0 <= i < |groups| => CounterDelta(groups[i]))
  }

  lemma {:induction false} AveragesWithin(groups: seq<seq<int>>, lo: int, hi: int)
    requires forall x :: x in Flatten(groups) ==> lo <= x <= hi
    ensures forall x :: x in Present(AvgEach(groups)) ==> lo <= x <= hi
    ensures Flatten(groups) == [] <==> Present(AvgEach(groups)) == []
  {
    if groups != [] {
      assert forall x :: x in groups[0] || x in Flatten(groups[1..]) ==> x in Flatten(groups);
      AveragesWithin(groups[1..], lo, hi);
      assert AvgEach(groups)[1..] == AvgEach(groups[1..]);
      if groups[0] != [] {
        AvgWithin(groups[0], lo, hi);
      }
    }
  }

  lemma {:induction false} MaximaCover(groups: seq<seq<int>>)
    ensures Flatten(groups) == [] <==> Present(MaxEach(groups)) == []
    ensures Flatten(groups) != [] ==> MaxOf(Present(MaxEach(groups))) == MaxOf(Flatten(groups))
  {
    if groups != [] {
      MaximaCover(groups[1..]);
      assert MaxEach(groups)[1..] == MaxEach(groups[1..]);
      assert MaxEach(groups)[0] == MaxOpt(groups[0]);
      if Flatten(groups) != [] {
        MaxOfConcat(groups[0], Flatten(groups[1..]));
        MaxOfConcat(if groups[0] == [] then [] else [MaxOf(groups[0])], Present(MaxEach(groups[1..])));
      }
    }
  }

  lemma MaxOfConcat(a: seq<int>, b: seq<int>)
    requires a + b != []
    ensures MaxOf(a + b) == (if a == [] then MaxOf(b) else if b == [] then MaxOf(a) else Max(MaxOf(a), MaxOf(b)))
  {
    assert a == [] ==> a + b == b;
    assert b == [] ==> a + b == a;
    if a != [] && b != [] {
      assert MaxOf(a) in a + b && MaxOf(b) in a + b;
    }
  }

  /** Averages of averages stay between the least and the greatest raw sample, and the hourly
      maximum is the maximum of the raw samples. */
  lemma TwoLevelBounds(groups: seq<seq<int>>, lo: int, hi: int)
    requires forall x :: x in Flatten(groups) ==> lo <= x <= hi
    ensures AvgOf(Present(AvgEach(groups))).Some? <==> Flatten(groups) != []
    ensures MaxOpt(Present(MaxEach(groups))) == MaxOpt(Flatten(groups))
    ensures Flatten(groups) != [] ==>
              && lo <= AvgOf(Present(AvgEach(groups))).value <= hi
              && AvgOf(Present(AvgEach(groups))).value <= MaxOpt(Present(MaxEach(groups))).value
  {
    var all := Flatten(groups);
    AveragesWithin(groups, lo, hi);
    MaximaCover(groups);
    if all != [] {
      AvgWithin(Present(AvgEach(groups)), lo, hi);
      AveragesWithin(groups, lo, MaxOf(all));
      AvgWithin(Present(AvgEach(groups)), lo, MaxOf(all));
    }
  }

  // ------------------------------------------------------- byte counters

  function Growth(xs: seq<int>): int {
    if xs == [] then 0 else xs[|xs| - 1] - xs[0]
  }

  lemma GrowthConcat(a: seq<int>, b: seq<int>)
    requires NonDecreasing(a + b)
    ensures NonDecreasing(a) && NonDecreasing(b)
    ensures 0 <= Growth(a) && Growth(a) + Growth(b) <= Growth(a + b)
  {
    var all := a + b;
    assert forall i :: 0 <= i < |a| ==> a[i] == all[i];
    assert forall i :: 0 <= i < |b| ==> b[i] == all[|a| + i];
    assert a == [] ==> all == b;
    assert b == [] ==> all == a;
  }

  lemma DeltaSumStep(groups: seq<seq<int>>)
    requires groups != []
    ensures Sum(Present(DeltaEach(groups))) == Growth(groups[0]) + Sum(Present(DeltaEach(groups[1..])))
  {
    assert DeltaEach(groups)[1..] == DeltaEach(groups[1..]);
    var d := CounterDelta(groups[0]);
    if d.Some? {
      assert Present(DeltaEach(groups))[1..] == Present(DeltaEach(groups[1..]));
    } else {
      assert Present(DeltaEach(groups)) == Present(DeltaEach(groups[1..]));
    }
  }

  lemma {:induction false} DeltasWithinGrowth(groups: seq<seq<int>>)
    requires NonDecreasing(Flatten(groups))
    ensures 0 <= Sum(Present(DeltaEach(groups))) <= Growth(Flatten(groups))
  {
    if groups != [] {
      GrowthConcat(groups[0], Flatten(groups[1..]));
      DeltasWithinGrowth(groups[1..]);
      DeltaSumStep(groups);
    }
  }

  // ------------------------------------------- buckets of snapshot windows

  function Columns(windows: seq<seq<Snap>>, k: Key): seq<seq<int>> {
    seq(|windows|, i requires 0 <= i < |windows| => Column(windows[i], k))
  }

  lemma {:induction false} ColumnAppend(a: seq<Snap>, b: seq<Snap>, k: Key)
    ensures Column(a + b, k) == Column(a, k) + Column(b, k)
  {
    if a == [] {
      assert a + b == b;
    } else {
      ColumnAppend(a[1..], b, k);
      assert (a + b)[1..] == a[1..] + b;
      ConcatAssoc(if Reading(a[0], k).Some? then [Reading(a[0], k).value] else [], Column(a[1..], k), Column(b, k));
    }
  }

  lemma {:induction false} ColumnFlatten(windows: seq<seq<Snap>>, k: Key)
    ensures Column(Flatten(windows), k) == Flatten(Columns(windows, k))
  {
    if windows != [] {
      ColumnFlatten(windows[1..], k);
      ColumnAppend(windows[0], Flatten(windows[1..]), k);
      assert Columns(windows, k)[1..] == Columns(windows[1..], k);
    }
  }

  /** `subs` are the 5-minute buckets of `windows`. */
  ghost predicate BucketsOf(subs: seq<Bucket>, windows: seq<seq<Snap>>) {
    && |subs| == |windows|
    && forall i :: 0 <= i < |subs| ==>
         subs[i] == AggregateSnaps(windows[i], subs[i].windowStart, subs[i].windowEnd, subs[i].size)
  }

  /** What a bucket, of either size, may say about the raw snapshots `raw` it stands for. */
  ghost predicate Within(bucket: Bucket, raw: seq<Snap>) {
    && (forall k :: PercentageWithin(bucket, raw, k))
    && (forall k :: CounterWithin(bucket, raw, k))
    && bucket.samples == |raw|
  }

  /** The average lies in every interval that holds the raw readings, the maximum is the greatest raw
      reading, and the average does not exceed it. */
  ghost predicate PercentageWithin(bucket: Bucket, raw: seq<Snap>, k: Key) {
    k in {Cpu, Mem, Disk} ==>
      && (Stored(bucket, k).Some? <==> Column(raw, k) != [])
      && (k != Disk ==> StoredMax(bucket, k) == MaxOpt(Column(raw, k)))
      && (Stored(bucket, k).Some? ==>
            && (k != Disk ==> Stored(bucket, k).value <= StoredMax(bucket, k).value)
            && forall lo, hi :: Spans(raw, k, lo, hi) ==> lo <= Stored(bucket, k).value <= hi)
  }

  ghost predicate Spans(raw: seq<Snap>, k: Key, lo: int, hi: int) {
    forall x :: x in Column(raw, k) ==> lo <= x <= hi
  }

  /** For a counter that never goes back, the delta is between 0 and the counter's growth. */
  ghost predicate CounterWithin(bucket: Bucket, raw: seq<Snap>, k: Key) {
    k in {Rx, Tx} && NonDecreasing(Column(raw, k)) && Stored(bucket, k).Some? ==>
      0 <= Stored(bucket, k).value <= Growth(Column(raw, k))
  }

  // ------------------------------------------------- what each column holds

  ghost predicate MeanIs(avg: Option<int>, xs: seq<int>) {
    if xs == [] then avg == None else avg.Some? && NearestMean(avg.value, Sum(xs), |xs|)
  }

  ghost predicate GreatestIs(max: Option<int>, xs: seq<int>) {
    if xs == [] then max == None else max.Some? && max.value in xs && forall x :: x in xs ==> x <= max.value
  }

  ghost predicate GrowthIs(delta: Option<int>, xs: seq<int>) {
    if |xs| < 2 then delta == None else delta == Some(xs[|xs| - 1] - xs[0])
  }

  function CpuIn(): Snap -> Option<int> { (s: Snap) => s.cpu }
  function MemIn(): Snap -> Option<int> { (s: Snap) => s.mem }
  function DiskIn(): Snap -> Option<int> { (s: Snap) => s.disk }
  function RxIn(): Snap -> Option<int> { (s: Snap) => s.rx }
  function TxIn(): Snap -> Option<int> { (s: Snap) => s.tx }

  /** The bucket holds, column by column, the means, maxima and counter growths of the readings in the snapshots. */
  ghost predicate Represents(b: Bucket, snaps: seq<Snap>) {
    && MeanIs(b.cpuAvg, Collect(snaps, CpuIn())) && GreatestIs(b.cpuMax, Collect(snaps, CpuIn()))
    && MeanIs(b.memAvg, Collect(snaps, MemIn())) && GreatestIs(b.memMax, Collect(snaps, MemIn()))
    && MeanIs(b.diskAvg, Collect(snaps, DiskIn()))
    && GrowthIs(b.rxDelta, Collect(snaps, RxIn())) && GrowthIs(b.txDelta, Collect(snaps, TxIn()))
    && b.samples == |snaps|
  }

  function CpuAvgIn(): Bucket -> Option<int> { (b: Bucket) => b.cpuAvg }
  function CpuMaxIn(): Bucket -> Option<int> { (b: Bucket) => b.cpuMax }
  function MemAvgIn(): Bucket -> Option<int> { (b: Bucket) => b.memAvg }
  function MemMaxIn(): Bucket -> Option<int> { (b: Bucket) => b.memMax }
  function DiskAvgIn(): Bucket -> Option<int> { (b: Bucket) => b.diskAvg }
  function RxDeltaIn(): Bucket -> Option<int> { (b: Bucket) => b.rxDelta }
  function TxDeltaIn(): Bucket -> Option<int> { (b: Bucket) => b.txDelta }
  function SamplesIn(): Bucket -> Option<int> { (b: Bucket) => Some(b.samples) }

  /** The hourly row holds the means of the means, the maxima of the maxima and the sums of the growths and sample
      counts of the 5-minute rows. */
  ghost predicate Summarises(b: Bucket, subs: seq<Bucket>) {
    && MeanIs(b.cpuAvg, Collect(subs, CpuAvgIn())) && GreatestIs(b.cpuMax, Collect(subs, CpuMaxIn()))
    && MeanIs(b.memAvg, Collect(subs, MemAvgIn())) && GreatestIs(b.memMax, Collect(subs, MemMaxIn()))
    && MeanIs(b.diskAvg, Collect(subs, DiskAvgIn()))
    && b.rxDelta == Some(Sum(Collect(subs, RxDeltaIn()))) && b.txDelta == Some(Sum(Collect(subs, TxDeltaIn())))
    && b.samples == Sum(Collect(subs, SamplesIn()))
  }

  lemma AvgIsMean(xs: seq<int>)
    ensures MeanIs(AvgOf(xs), xs) && GreatestIs(MaxOpt(xs), xs) && GrowthIs(CounterDelta(xs), xs)
  {
    if xs != [] {
      RoundDivNearest(Sum(xs), |xs|);
    }
  }

  lemma {:induction false} ColumnIs(snaps: seq<Snap>, k: Key, f: Snap -> Option<int>)
    requires forall s :: f(s) == Reading(s, k)
    ensures Collect(snaps, f) == Column(snaps, k)
    decreases |snaps|
  {
    if snaps != [] {
      var init, last := snaps[..|snaps| - 1], snaps[|snaps| - 1];
      ColumnIs(init, k, f);
      ColumnAppend(init, [last], k);
      assert init + [last] == snaps && [last][1..] == [];
      assert Column([last], k) == Picked(f, last);
    }
  }

  lemma {:induction false} PresentAppend(a: seq<Option<int>>, b: seq<Option<int>>)
    ensures Present(a + b) == Present(a) + Present(b)
    decreases |a|
  {
    if a == [] {
      assert a + b == b;
    } else {
      PresentAppend(a[1..], b);
      assert (a + b)[1..] == a[1..] + b;
      ConcatAssoc(if a[0].Some? then [a[0].value] else [], Present(a[1..]), Present(b));
    }
  }

  function Each(subs: seq<Bucket>, f: Bucket -> Option<int>): seq<Option<int>> {
    seq(|subs|, i requires 0 <= i < |subs| => f(subs[i]))
  }

  lemma {:induction false} PresentIs(subs: seq<Bucket>, f: Bucket -> Option<int>)
    ensures Collect(subs, f) == Present(Each(subs, f))
    decreases |subs|
  {
    if subs != [] {
      var init, last := subs[..|subs| - 1], subs[|subs| - 1];
      PresentIs(init, f);
      assert Each(subs, f) == Each(init, f) + [f(last)];
      PresentAppend(Each(init, f), [f(last)]);
      assert [f(last)][1..] == [];
    }
  }

  lemma FieldsAre(subs: seq<Bucket>, k: Key, f: Bucket -> Option<int>)
    requires forall b :: f(b) == Stored(b, k)
    ensures Collect(subs, f) == Fields(subs, k)
  {
    PresentIs(subs, f);
    assert Each(subs, f) == seq(|subs|, i requires 0 <= i < |subs| => Stored(subs[i], k));
  }

  lemma MaxFieldsAre(subs: seq<Bucket>, k: Key, f: Bucket -> Option<int>)
    requires forall b :: f(b) == StoredMax(b, k)
    ensures Collect(subs, f) == MaxFields(subs, k)
  {
    PresentIs(subs, f);
    assert Each(subs, f) == seq(|subs|, i requires 0 <= i < |subs| => StoredMax(subs[i], k));
  }

  lemma {:induction false} SamplesAre(subs: seq<Bucket>)
    ensures Sum(Collect(subs, SamplesIn())) == TotalSamples(subs)
  {
    if subs != [] {
      SamplesAre(subs[1..]);
      CollectAppend([subs[0]], subs[1..], SamplesIn());
      CollectOne(subs[0], SamplesIn());
      assert [subs[0]] + subs[1..] == subs;
      assert Collect(subs, SamplesIn())[1..] == Collect(subs[1..], SamplesIn());
    }
  }

  /** A 5-minute bucket holds what its columns say. */
  lemma FiveMinuteExact(snaps: seq<Snap>, start: int, end: int, size: int)
    ensures Represents(AggregateSnaps(snaps, start, end, size), snaps)
  {
    ColumnIs(snaps, Cpu, CpuIn());
    ColumnIs(snaps, Mem, MemIn());
    ColumnIs(snaps, Disk, DiskIn());
    ColumnIs(snaps, Rx, RxIn());
    ColumnIs(snaps, Tx, TxIn());
    forall k { AvgIsMean(Column(snaps, k)); }
  }

  /** And so does an hourly row. */
  lemma HourExact(subs: seq<Bucket>, start: int, end: int, size: int)
    ensures Summarises(AggregateBuckets(subs, start, end, size), subs)
  {
    FieldsAre(subs, Cpu, CpuAvgIn());
    FieldsAre(subs, Mem, MemAvgIn());
    FieldsAre(subs, Disk, DiskAvgIn());
    FieldsAre(subs, Rx, RxDeltaIn());
    FieldsAre(subs, Tx, TxDeltaIn());
    MaxFieldsAre(subs, Cpu, CpuMaxIn());
    MaxFieldsAre(subs, Mem, MemMaxIn());
    SamplesAre(subs);
    forall k { AvgIsMean(Fields(subs, k)); }
    forall k { AvgIsMean(MaxFields(subs, k)); }
  }

  lemma {:induction false} TotalSamplesFlatten(subs: seq<Bucket>, windows: seq<seq<Snap>>)
    requires BucketsOf(subs, windows)
    ensures TotalSamples(subs) == |Flatten(windows)|
  {
    if subs != [] {
      TotalSamplesFlatten(subs[1..], windows[1..]);
    }
  }

  /** The averages and maxima stored in the 5-minute buckets are those of the windows' readings. */
  lemma StoredEach(subs: seq<Bucket>, windows: seq<seq<Snap>>, k: Key)
    requires BucketsOf(subs, windows) && k in {Cpu, Mem, Disk}
    ensures Fields(subs, k) == Present(AvgEach(Columns(windows, k)))
    ensures k != Disk ==> MaxFields(subs, k) == Present(MaxEach(Columns(windows, k)))
  {
    assert seq(|subs|, i requires 0 <= i < |subs| => Stored(subs[i], k)) == AvgEach(Columns(windows, k));
    if k != Disk {
      assert seq(|subs|, i requires 0 <= i < |subs| => StoredMax(subs[i], k)) == MaxEach(Columns(windows, k));
    }
  }

  lemma HourPercentage(subs: seq<Bucket>, windows: seq<seq<Snap>>, start: int, end: int, size: int, k: Key)
    requires BucketsOf(subs, windows)
    ensures PercentageWithin(AggregateBuckets(subs, start, end, size), Flatten(windows), k)
  {
    var raw := Flatten(windows);
    if k in {Cpu, Mem, Disk} {
      ColumnFlatten(windows, k);
      StoredEach(subs, windows, k);
      var lo, hi := SpanOf(Column(raw, k));
      TwoLevelBounds(Columns(windows, k), lo, hi);
      forall lo, hi | Spans(raw, k, lo, hi) && Column(raw, k) != []
        ensures lo <= AvgOf(Fields(subs, k)).value <= hi
      {
        TwoLevelBounds(Columns(windows, k), lo, hi);
      }
    }
  }

  lemma HourCounter(subs: seq<Bucket>, windows: seq<seq<Snap>>, start: int, end: int, size: int, k: Key)
    requires BucketsOf(subs, windows)
    ensures CounterWithin(AggregateBuckets(subs, start, end, size), Flatten(windows), k)
  {
    if k in {Rx, Tx} && NonDecreasing(Column(Flatten(windows), k)) {
      ColumnFlatten(windows, k);
      assert seq(|subs|, i requires 0 <= i < |subs| => Stored(subs[i], k)) == DeltaEach(Columns(windows, k));
      DeltasWithinGrowth(Columns(windows, k));
    }
  }

  /** The hourly row summarises its 5-minute rows and keeps its promises about every raw snapshot behind them. */
  lemma HourlyBounds(subs: seq<Bucket>, windows: seq<seq<Snap>>, start: int, end: int, size: int)
    requires BucketsOf(subs, windows)
    ensures var b := AggregateBuckets(subs, start, end, size);
      && Within(b, Flatten(windows)) && Summarises(b, subs)
      && b.windowStart == start && b.windowEnd == end && b.size == size
  {
    HourExact(subs, start, end, size);
    forall k ensures PercentageWithin(AggregateBuckets(subs, start, end, size), Flatten(windows), k) {
      HourPercentage(subs, windows, start, end, size, k);
    }
    forall k ensures CounterWithin(AggregateBuckets(subs, start, end, size), Flatten(windows), k) {
      HourCounter(subs, windows, start, end, size, k);
    }
    TotalSamplesFlatten(subs, windows);
  }

  /** A 5-minute bucket is exact, and keeps the same promises. */
  lemma FiveMinuteBounds(snaps: seq<Snap>, start: int, end: int, size: int)
    ensures var b := AggregateSnaps(snaps, start, end, size);
      && Within(b, snaps) && Represents(b, snaps)
      && b.windowStart == start && b.windowEnd == end && b.size == size
  {
    FiveMinuteExact(snaps, start, end, size);
    var bucket := AggregateSnaps(snaps, start, end, size);
    forall k ensures PercentageWithin(bucket, snaps, k) {
      if k in {Cpu, Mem, Disk} && Column(snaps, k) != [] {
        var lo, hi := SpanOf(Column(snaps, k));
        AvgWithin(Column(snaps, k), lo, MaxOf(Column(snaps, k)));
        forall lo, hi | Spans(snaps, k, lo, hi) ensures lo <= Stored(bucket, k).value <= hi {
          AvgWithin(Column(snaps, k), lo, hi);
        }
      }
    }
  }

  lemma {:induction false} SpanOf(xs: seq<int>) returns (lo: int, hi: int)
    ensures forall x :: x in xs ==> lo <= x <= hi
  {
    if xs == [] {
      lo, hi := 0, 0;
    } else {
      assert xs == [xs[0]] + xs[1..];
      lo, hi := SpanOf(xs[1..]);
      lo, hi := (if xs[0] < lo then xs[0] else lo), Max(xs[0], hi);
    }
  }
}
