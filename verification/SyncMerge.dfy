/** `merge_sync_payload` (src/logstore.py): rows mirrored from peers go into tables keyed by the SQL unique keys. */
module SyncMerge {
  import opened Common

  // ------------------------------------------------- INSERT OR IGNORE / REPLACE

  datatype Row<K, V> = Row(key: K, value: V)

  function InsertOrIgnore<K, V>(t: map<K, V>, row: Row<K, V>): map<K, V> {
    if row.key in t then t else t[row.key := row.value]
  }

  function InsertAll<K, V>(t: map<K, V>, rows: seq<Row<K, V>>): map<K, V>
    decreases |rows|
  {
    if rows == [] then t else InsertOrIgnore(InsertAll(t, rows[..|rows| - 1]), rows[|rows| - 1])
  }

  function ReplaceAll<K, V>(t: map<K, V>, rows: seq<Row<K, V>>): map<K, V>
    decreases |rows|
  {
    if rows == [] then t else ReplaceAll(t, rows[..|rows| - 1])[rows[|rows| - 1].key := rows[|rows| - 1].value]
  }

  ghost predicate HasKey<K, V>(rows: seq<Row<K, V>>, k: K) {
    exists i :: 0 <= i < |rows| && rows[i].key == k
  }

  /** The value of the first row with key k. */
  ghost function First<K, V>(rows: seq<Row<K, V>>, k: K): V
    requires HasKey(rows, k)
    decreases |rows|
  {
    var last := |rows| - 1;
    if HasKey(rows[..last], k) then First(rows[..last], k) else rows[last].value
  }

  /** The value of the last row with key k. */
  ghost function Last<K, V>(rows: seq<Row<K, V>>, k: K): V
    requires HasKey(rows, k)
    decreases |rows|
  {
    var last := |rows| - 1;
    if rows[last].key == k then rows[last].value else
      assert HasKey(rows[..last], k) by {
        var i :| 0 <= i < |rows| && rows[i].key == k;
        assert rows[..last][i].key == k;
      }
      Last(rows[..last], k)
  }

  lemma HasKeyLast<K, V>(rows: seq<Row<K, V>>, k: K)
    requires rows != []
    ensures HasKey(rows, k) <==> HasKey(rows[..|rows| - 1], k) || rows[|rows| - 1].key == k
  {
    var last := |rows| - 1;
    if HasKey(rows[..last], k) {
      var i :| 0 <= i < last && rows[..last][i].key == k;
      assert rows[i].key == k;
    }
    if HasKey(rows, k) && rows[last].key != k {
      var i :| 0 <= i < |rows| && rows[i].key == k;
      assert rows[..last][i].key == k;
    }
  }

  /** What OR IGNORE leaves under one key: the old row, else the first new one. */
  lemma {:induction false} InsertAllAt<K, V>(t: map<K, V>, rows: seq<Row<K, V>>, k: K)
    ensures k in InsertAll(t, rows) <==> k in t || HasKey(rows, k)
    ensures k in t ==> InsertAll(t, rows)[k] == t[k]
    ensures k !in t && HasKey(rows, k) ==> InsertAll(t, rows)[k] == First(rows, k)
    decreases |rows|
  {
    if rows != [] {
      InsertAllAt(t, rows[..|rows| - 1], k);
      HasKeyLast(rows, k);
    }
  }

  /** What OR REPLACE leaves under one key: the last new row, else the old one. */
  lemma {:induction false} ReplaceAllAt<K, V>(t: map<K, V>, rows: seq<Row<K, V>>, k: K)
    ensures k in ReplaceAll(t, rows) <==> k in t || HasKey(rows, k)
    ensures HasKey(rows, k) ==> ReplaceAll(t, rows)[k] == Last(rows, k)
    ensures k in t && !HasKey(rows, k) ==> ReplaceAll(t, rows)[k] == t[k]
    decreases |rows|
  {
    if rows != [] {
      ReplaceAllAt(t, rows[..|rows| - 1], k);
      HasKeyLast(rows, k);
    }
  }

  ghost predicate DisjointKeys<K(!new), V>(a: seq<Row<K, V>>, b: seq<Row<K, V>>) {
    forall k :: !(HasKey(a, k) && HasKey(b, k))
  }

  lemma SameMap<K, V>(a: map<K, V>, b: map<K, V>)
    requires forall k :: k in a <==> k in b
    requires forall k :: k in a ==> a[k] == b[k]
    ensures a == b
  {
    assert a.Keys == b.Keys;
  }

  lemma InsertAllTwice<K(!new), V>(t: map<K, V>, rows: seq<Row<K, V>>)
    ensures InsertAll(InsertAll(t, rows), rows) == InsertAll(t, rows)
  {
    var once := InsertAll(t, rows);
    forall k
      ensures k in InsertAll(once, rows) <==> k in once
      ensures k in once ==> InsertAll(once, rows)[k] == once[k]
    {
      InsertAllAt(t, rows, k);
      InsertAllAt(once, rows, k);
    }
    SameMap(InsertAll(once, rows), once);
  }

  lemma ReplaceAllTwice<K(!new), V>(t: map<K, V>, rows: seq<Row<K, V>>)
    ensures ReplaceAll(ReplaceAll(t, rows), rows) == ReplaceAll(t, rows)
  {
    var once := ReplaceAll(t, rows);
    forall k
      ensures k in ReplaceAll(once, rows) <==> k in once
      ensures k in once ==> ReplaceAll(once, rows)[k] == once[k]
    {
      ReplaceAllAt(t, rows, k);
      ReplaceAllAt(once, rows, k);
    }
    SameMap(ReplaceAll(once, rows), once);
  }

  lemma InsertAllCommute<K(!new), V>(t: map<K, V>, a: seq<Row<K, V>>, b: seq<Row<K, V>>)
    requires DisjointKeys(a, b)
    ensures InsertAll(InsertAll(t, a), b) == InsertAll(InsertAll(t, b), a)
  {
    var ab, ba := InsertAll(InsertAll(t, a), b), InsertAll(InsertAll(t, b), a);
    forall k
      ensures k in ab <==> k in ba
      ensures k in ab ==> ab[k] == ba[k]
    {
      InsertAllAt(t, a, k);
      InsertAllAt(t, b, k);
      InsertAllAt(InsertAll(t, a), b, k);
      InsertAllAt(InsertAll(t, b), a, k);
    }
    SameMap(ab, ba);
  }

  lemma ReplaceAllCommute<K(!new), V>(t: map<K, V>, a: seq<Row<K, V>>, b: seq<Row<K, V>>)
    requires DisjointKeys(a, b)
    ensures ReplaceAll(ReplaceAll(t, a), b) == ReplaceAll(ReplaceAll(t, b), a)
  {
    var ab, ba := ReplaceAll(ReplaceAll(t, a), b), ReplaceAll(ReplaceAll(t, b), a);
    forall k
      ensures k in ab <==> k in ba
      ensures k in ab ==> ab[k] == ba[k]
    {
      ReplaceAllAt(t, a, k);
      ReplaceAllAt(t, b, k);
      ReplaceAllAt(ReplaceAll(t, a), b, k);
      ReplaceAllAt(ReplaceAll(t, b), a, k);
    }
    SameMap(ab, ba);
  }

  // ------------------------------------------------------------ the four tables

  type NodeId = string

  datatype RawKey = RawKey(peer: NodeId, ts: int)
  datatype EventKey = EventKey(peer: NodeId, ts: int, event: string, detail: string)
  datatype BucketKey = BucketKey(peer: NodeId, windowStart: int, size: int)
  datatype DayKey = DayKey(peer: NodeId, date: string)

  /** Column values that the merge only copies. */
  datatype BucketRow = BucketRow(windowEnd: int, columns: seq<Option<int>>)
  datatype DayRow = DayRow(columns: seq<Option<int>>)

  datatype Tables = Tables(raw: map<RawKey, string>, events: map<EventKey, Option<string>>,
                           buckets: map<BucketKey, BucketRow>, daily: map<DayKey, DayRow>)

  /** Payload items after JSON decoding; a timestamp is None when it is missing or cannot be parsed. */
  datatype SnapItem = SnapItem(ts: Option<int>, text: string)
  datatype EventItem = EventItem(ts: Option<int>, event: string, detail: Option<string>)
  datatype BucketItem =
    | Stat(start: Option<int>, end: Option<int>, size: int, columns: seq<Option<int>>)
    | Day(date: string, dayColumns: seq<Option<int>>)
    | Unrecognised

  datatype Payload = Payload(snaps: seq<SnapItem>, events: seq<EventItem>, buckets: seq<BucketItem>)

  /** Event times below this are taken to be in seconds. */
  const MILLIS_FLOOR := 100_000_000_000

  function Millis(ts: int): int { if ts < MILLIS_FLOOR then ts * 1000 else ts }

  function DetailText(detail: Option<string>): string { if detail.Some? then detail.value else "" }

  function SnapRow(peer: NodeId): SnapItem -> Option<Row<RawKey, string>> {
    (x: SnapItem) => if x.ts.Some? then Some(Row(RawKey(peer, x.ts.value), x.text)) else None
  }

  function EventRow(peer: NodeId): EventItem -> Option<Row<EventKey, Option<string>>> {
    (x: EventItem) =>
      if x.ts.None? then None
      else Some(Row(EventKey(peer, Millis(x.ts.value), x.event, DetailText(x.detail)), x.detail))
  }

  function WindowRow(peer: NodeId): BucketItem -> Option<Row<BucketKey, BucketRow>> {
    (x: BucketItem) =>
      if x.Stat? && x.start.Some? && x.end.Some?
      then Some(Row(BucketKey(peer, x.start.value, x.size), BucketRow(x.end.value, x.columns))) else None
  }

  function DateRow(peer: NodeId): BucketItem -> Option<Row<DayKey, DayRow>> {
    (x: BucketItem) => if x.Day? then Some(Row(DayKey(peer, x.date), DayRow(x.dayColumns))) else None
  }

  function SnapRows(peer: NodeId, items: seq<SnapItem>): seq<Row<RawKey, string>> { Collect(items, SnapRow(peer)) }

  function EventRows(peer: NodeId, items: seq<EventItem>): seq<Row<EventKey, Option<string>>> {
    Collect(items, EventRow(peer))
  }

  function BucketRows(peer: NodeId, items: seq<BucketItem>): seq<Row<BucketKey, BucketRow>> {
    Collect(items, WindowRow(peer))
  }

  function DayRows(peer: NodeId, items: seq<BucketItem>): seq<Row<DayKey, DayRow>> { Collect(items, DateRow(peer)) }

  function Merge(t: Tables, peer: NodeId, p: Payload): Tables {
    Tables(InsertAll(t.raw, SnapRows(peer, p.snaps)),
           InsertAll(t.events, EventRows(peer, p.events)),
           InsertAll(t.buckets, BucketRows(peer, p.buckets)),
           ReplaceAll(t.daily, DayRows(peer, p.buckets)))
  }

  // -------------------------------------------------- every row names its peer

  /** A key among collected rows is the key of a row that `f` made of some item. */
  lemma CollectedKey<T, K, V>(items: seq<T>, f: T -> Option<Row<K, V>>, k: K) returns (x: T)
    requires HasKey(Collect(items, f), k)
    ensures x in items && f(x).Some? && f(x).value.key == k
  {
    var i :| 0 <= i < |Collect(items, f)| && Collect(items, f)[i].key == k;
    var j := Collected(items, f, i);
    x := items[j];
  }

  lemma RowsPeer(peer: NodeId, p: Payload)
    ensures forall k :: HasKey(SnapRows(peer, p.snaps), k) ==> k.peer == peer
    ensures forall k :: HasKey(EventRows(peer, p.events), k) ==> k.peer == peer
    ensures forall k :: HasKey(BucketRows(peer, p.buckets), k) ==> k.peer == peer
    ensures forall k :: HasKey(DayRows(peer, p.buckets), k) ==> k.peer == peer
  {
    forall k | HasKey(SnapRows(peer, p.snaps), k) ensures k.peer == peer {
      var x := CollectedKey(p.snaps, SnapRow(peer), k);
    }
    forall k | HasKey(EventRows(peer, p.events), k) ensures k.peer == peer {
      var x := CollectedKey(p.events, EventRow(peer), k);
    }
    forall k | HasKey(BucketRows(peer, p.buckets), k) ensures k.peer == peer {
      var x := CollectedKey(p.buckets, WindowRow(peer), k);
    }
    forall k | HasKey(DayRows(peer, p.buckets), k) ensures k.peer == peer {
      var x := CollectedKey(p.buckets, DateRow(peer), k);
    }
  }

  // -------------------------------------------------------------------- laws

  /** Merging a payload twice leaves the tables that merging it once leaves. */
  lemma MergeIdempotent(t: Tables, peer: NodeId, p: Payload)
    ensures Merge(Merge(t, peer, p), peer, p) == Merge(t, peer, p)
  {
    InsertAllTwice(t.raw, SnapRows(peer, p.snaps));
    InsertAllTwice(t.events, EventRows(peer, p.events));
    InsertAllTwice(t.buckets, BucketRows(peer, p.buckets));
    ReplaceAllTwice(t.daily, DayRows(peer, p.buckets));
  }

  /** Merges for different peers may be applied in either order. */
  lemma MergesCommute(t: Tables, p: NodeId, a: Payload, q: NodeId, b: Payload)
    requires p != q
    ensures Merge(Merge(t, p, a), q, b) == Merge(Merge(t, q, b), p, a)
  {
    RowsPeer(p, a);
    RowsPeer(q, b);
    InsertAllCommute(t.raw, SnapRows(p, a.snaps), SnapRows(q, b.snaps));
    InsertAllCommute(t.events, EventRows(p, a.events), EventRows(q, b.events));
    InsertAllCommute(t.buckets, BucketRows(p, a.buckets), BucketRows(q, b.buckets));
    ReplaceAllCommute(t.daily, DayRows(p, a.buckets), DayRows(q, b.buckets));
  }

  /** No raw, event or bucket row is changed or lost, and no row of another peer is touched in any table. */
  lemma MergePreserves(t: Tables, peer: NodeId, p: Payload)
    ensures var m := Merge(t, peer, p);
      && (forall k :: k in t.raw ==> k in m.raw && m.raw[k] == t.raw[k])
      && (forall k :: k in t.events ==> k in m.events && m.events[k] == t.events[k])
      && (forall k :: k in t.buckets ==> k in m.buckets && m.buckets[k] == t.buckets[k])
      && (forall k :: k in t.daily ==> k in m.daily)
      && (forall k :: k in m.raw && k !in t.raw ==> k.peer == peer)
      && (forall k :: k in m.events && k !in t.events ==> k.peer == peer)
      && (forall k :: k in m.buckets && k !in t.buckets ==> k.peer == peer)
      && (forall k :: k in m.daily && k.peer != peer ==> k in t.daily && m.daily[k] == t.daily[k])
  {
    RowsPeer(peer, p);
    InsertPreserves(t.raw, SnapRows(peer, p.snaps));
    InsertPreserves(t.events, EventRows(peer, p.events));
    InsertPreserves(t.buckets, BucketRows(peer, p.buckets));
    ReplacePreserves(t.daily, DayRows(peer, p.buckets));
  }

  lemma InsertPreserves<K(!new), V>(t: map<K, V>, rows: seq<Row<K, V>>)
    ensures forall k :: k in InsertAll(t, rows) <==> k in t || HasKey(rows, k)
    ensures forall k :: k in t ==> InsertAll(t, rows)[k] == t[k]
  {
    forall k
      ensures k in InsertAll(t, rows) <==> k in t || HasKey(rows, k)
      ensures k in t ==> InsertAll(t, rows)[k] == t[k]
    {
      InsertAllAt(t, rows, k);
    }
  }

  lemma ReplacePreserves<K(!new), V>(t: map<K, V>, rows: seq<Row<K, V>>)
    ensures forall k :: k in ReplaceAll(t, rows) <==> k in t || HasKey(rows, k)
    ensures forall k :: k in t && !HasKey(rows, k) ==> ReplaceAll(t, rows)[k] == t[k]
  {
    forall k
      ensures k in ReplaceAll(t, rows) <==> k in t || HasKey(rows, k)
      ensures k in t && !HasKey(rows, k) ==> ReplaceAll(t, rows)[k] == t[k]
    {
      ReplaceAllAt(t, rows, k);
    }
  }

  /** Every usable item arrives; of duplicate keys the first snapshot, event and window win, and the last
      daily summary for a date. */
  lemma DuplicatesResolved(t: Tables, peer: NodeId, p: Payload)
    ensures var m := Merge(t, peer, p);
      && (forall k :: k !in t.raw && HasKey(SnapRows(peer, p.snaps), k) ==>
          k in m.raw && m.raw[k] == First(SnapRows(peer, p.snaps), k))
      && (forall k :: k !in t.events && HasKey(EventRows(peer, p.events), k) ==>
          k in m.events && m.events[k] == First(EventRows(peer, p.events), k))
      && (forall k :: k !in t.buckets && HasKey(BucketRows(peer, p.buckets), k) ==>
            k in m.buckets && m.buckets[k] == First(BucketRows(peer, p.buckets), k))
      && (forall k :: HasKey(DayRows(peer, p.buckets), k) ==>
            k in m.daily && m.daily[k] == Last(DayRows(peer, p.buckets), k))
  {
    FirstsArrive(t.raw, SnapRows(peer, p.snaps));
    FirstsArrive(t.events, EventRows(peer, p.events));
    FirstsArrive(t.buckets, BucketRows(peer, p.buckets));
    forall k | HasKey(DayRows(peer, p.buckets), k)
      ensures k in Merge(t, peer, p).daily && Merge(t, peer, p).daily[k] == Last(DayRows(peer, p.buckets), k)
    { ReplaceAllAt(t.daily, DayRows(peer, p.buckets), k); }
  }

  lemma FirstSnoc<K, V>(rows: seq<Row<K, V>>, row: Row<K, V>, k: K)
    ensures HasKey(rows + [row], k) <==> HasKey(rows, k) || row.key == k
    ensures HasKey(rows, k) ==> First(rows + [row], k) == First(rows, k)
    ensures !HasKey(rows, k) && row.key == k ==> First(rows + [row], k) == row.value
  {
    assert (rows + [row])[..|rows|] == rows;
    HasKeyLast(rows + [row], k);
  }

  lemma LastSnoc<K, V>(rows: seq<Row<K, V>>, row: Row<K, V>, k: K)
    ensures HasKey(rows + [row], k) <==> HasKey(rows, k) || row.key == k
    ensures row.key == k ==> Last(rows + [row], k) == row.value
    ensures row.key != k && HasKey(rows, k) ==> Last(rows + [row], k) == Last(rows, k)
  {
    assert (rows + [row])[..|rows|] == rows;
    HasKeyLast(rows + [row], k);
  }

  ghost predicate Yields<T, K, V>(f: T -> Option<Row<K, V>>, x: T, k: K) { f(x).Some? && f(x).value.key == k }

  /** The first item that yields key k gives First its value. */
  lemma {:induction false} FirstCollected<T, K, V>(items: seq<T>, f: T -> Option<Row<K, V>>, i: nat, row: Row<K, V>)
    requires i < |items| && f(items[i]) == Some(row)
    requires forall h :: 0 <= h < i ==> !Yields(f, items[h], row.key)
    ensures HasKey(Collect(items, f), row.key) && First(Collect(items, f), row.key) == row.value
    decreases |items|
  {
    var n := |items| - 1;
    assert items[..n] + [items[n]] == items;
    CollectSnoc(items[..n], items[n], f);
    if i < n {
      FirstCollected(items[..n], f, i, row);
    } else {
      NoneYields(items[..n], f, row.key);
    }
    if f(items[n]).Some? {
      FirstSnoc(Collect(items[..n], f), f(items[n]).value, row.key);
    }
  }

  lemma NoneYields<T, K, V>(items: seq<T>, f: T -> Option<Row<K, V>>, k: K)
    requires forall h :: 0 <= h < |items| ==> !Yields(f, items[h], k)
    ensures !HasKey(Collect(items, f), k)
  {
    forall h | 0 <= h < |Collect(items, f)| ensures Collect(items, f)[h].key != k {
      var g := Collected(items, f, h);
      assert !Yields(f, items[g], k);
    }
  }

  /** And the last one gives Last its value. */
  lemma {:induction false} LastCollected<T, K, V>(items: seq<T>, f: T -> Option<Row<K, V>>, i: nat, row: Row<K, V>)
    requires i < |items| && f(items[i]) == Some(row)
    requires forall h :: i < h < |items| ==> !Yields(f, items[h], row.key)
    ensures HasKey(Collect(items, f), row.key) && Last(Collect(items, f), row.key) == row.value
    decreases |items|
  {
    var n := |items| - 1;
    assert items[..n] + [items[n]] == items;
    CollectSnoc(items[..n], items[n], f);
    if i < n {
      LastCollected(items[..n], f, i, row);
      assert !Yields(f, items[n], row.key);
    }
    if f(items[n]).Some? {
      LastSnoc(Collect(items[..n], f), f(items[n]).value, row.key);
    }
  }

  /** Where a snapshot goes: of those with one time the first, under that time, unless there was a row. */
  lemma SnapshotArrives(t: Tables, peer: NodeId, p: Payload, i: nat, ts: int)
    requires i < |p.snaps| && p.snaps[i].ts == Some(ts) && RawKey(peer, ts) !in t.raw
    requires forall h :: 0 <= h < i ==> p.snaps[h].ts != Some(ts)
    ensures var m := Merge(t, peer, p);
      RawKey(peer, ts) in m.raw && m.raw[RawKey(peer, ts)] == p.snaps[i].text
  {
    FirstCollected(p.snaps, SnapRow(peer), i, Row(RawKey(peer, ts), p.snaps[i].text));
    FirstsArrive(t.raw, SnapRows(peer, p.snaps));
  }

  /** The item tells of this event at this millisecond: a time below 100 000 000 000 is in seconds. */
  ghost predicate Tells(x: EventItem, ms: int, event: string, detail: string) {
    && x.ts.Some?
    && ms == (if x.ts.value < 100_000_000_000 then x.ts.value * 1000 else x.ts.value)
    && x.event == event && detail == (if x.detail.Some? then x.detail.value else "")
  }

  /** Where an event goes: under its millisecond, its name and its detail. */
  lemma EventArrives(t: Tables, peer: NodeId, p: Payload, i: nat, ms: int, event: string, detail: string)
    requires i < |p.events| && Tells(p.events[i], ms, event, detail)
    requires forall h :: 0 <= h < i ==> !Tells(p.events[h], ms, event, detail)
    requires EventKey(peer, ms, event, detail) !in t.events
    ensures var k, m := EventKey(peer, ms, event, detail), Merge(t, peer, p);
      k in m.events && m.events[k] == p.events[i].detail
  {
    FirstCollected(p.events, EventRow(peer), i, Row(EventKey(peer, ms, event, detail), p.events[i].detail));
    FirstsArrive(t.events, EventRows(peer, p.events));
  }

  /** The item is a bucket of this window and size. */
  ghost predicate Spans(x: BucketItem, start: int, size: int) {
    x.Stat? && x.start == Some(start) && x.end.Some? && x.size == size
  }

  lemma BucketArrives(t: Tables, peer: NodeId, p: Payload, i: nat, start: int, size: int)
    requires i < |p.buckets| && Spans(p.buckets[i], start, size)
    requires forall h :: 0 <= h < i ==> !Spans(p.buckets[h], start, size)
    requires BucketKey(peer, start, size) !in t.buckets
    ensures var k, m := BucketKey(peer, start, size), Merge(t, peer, p);
      k in m.buckets && m.buckets[k] == BucketRow(p.buckets[i].end.value, p.buckets[i].columns)
  {
    var row := Row(BucketKey(peer, start, size), BucketRow(p.buckets[i].end.value, p.buckets[i].columns));
    FirstCollected(p.buckets, WindowRow(peer), i, row);
    FirstsArrive(t.buckets, BucketRows(peer, p.buckets));
  }

  /** Of the summaries of one day the last one is stored, whatever was there before. */
  lemma DayArrives(t: Tables, peer: NodeId, p: Payload, i: nat)
    requires i < |p.buckets| && p.buckets[i].Day?
    requires forall h :: i < h < |p.buckets| && p.buckets[h].Day? ==> p.buckets[h].date != p.buckets[i].date
    ensures var k, m := DayKey(peer, p.buckets[i].date), Merge(t, peer, p);
      k in m.daily && m.daily[k] == DayRow(p.buckets[i].dayColumns)
  {
    var k := DayKey(peer, p.buckets[i].date);
    LastCollected(p.buckets, DateRow(peer), i, Row(k, DayRow(p.buckets[i].dayColumns)));
    ReplaceAllAt(t.daily, DayRows(peer, p.buckets), k);
  }

  /** Nothing else arrives. */
  lemma OnlyItemsArrive(t: Tables, peer: NodeId, p: Payload)
    ensures var m := Merge(t, peer, p);
      && (forall k :: k in m.raw && k !in t.raw ==> exists x :: x in p.snaps && x.ts == Some(k.ts))
      && (forall k :: k in m.events && k !in t.events ==>
            exists x :: x in p.events && Tells(x, k.ts, k.event, k.detail))
      && (forall k :: k in m.buckets && k !in t.buckets ==>
            exists x :: x in p.buckets && Spans(x, k.windowStart, k.size))
      && (forall k :: k in m.daily && k !in t.daily ==> exists x :: x in p.buckets && x.Day? && x.date == k.date)
  {
    InsertPreserves(t.raw, SnapRows(peer, p.snaps));
    InsertPreserves(t.events, EventRows(peer, p.events));
    InsertPreserves(t.buckets, BucketRows(peer, p.buckets));
    ReplacePreserves(t.daily, DayRows(peer, p.buckets));
    forall k | HasKey(SnapRows(peer, p.snaps), k) ensures exists x :: x in p.snaps && x.ts == Some(k.ts) {
      var x := CollectedKey(p.snaps, SnapRow(peer), k);
    }
    forall k | HasKey(EventRows(peer, p.events), k)
      ensures exists x :: x in p.events && Tells(x, k.ts, k.event, k.detail)
    {
      var x := CollectedKey(p.events, EventRow(peer), k);
    }
    forall k | HasKey(BucketRows(peer, p.buckets), k)
      ensures exists x :: x in p.buckets && Spans(x, k.windowStart, k.size)
    {
      var x := CollectedKey(p.buckets, WindowRow(peer), k);
    }
    forall k | HasKey(DayRows(peer, p.buckets), k) ensures exists x :: x in p.buckets && x.Day? && x.date == k.date {
      var x := CollectedKey(p.buckets, DateRow(peer), k);
    }
  }

  lemma FirstsArrive<K(!new), V>(t: map<K, V>, rows: seq<Row<K, V>>)
    ensures forall k :: k !in t && HasKey(rows, k) ==>
      k in InsertAll(t, rows) && InsertAll(t, rows)[k] == First(rows, k)
  {
    forall k | k !in t && HasKey(rows, k) ensures k in InsertAll(t, rows) && InsertAll(t, rows)[k] == First(rows, k) {
      InsertAllAt(t, rows, k);
    }
  }

  // -------------------------------------------------------------- the method

  class PeerTables {
    var raw: map<RawKey, string>
    var events: map<EventKey, Option<string>>
    var buckets: map<BucketKey, BucketRow>
    var daily: map<DayKey, DayRow>

    ghost function View(): Tables
      reads this
    {
      Tables(raw, events, buckets, daily)
    }

    /** `merge_sync_payload`. A daily summary counts as merged every time; the other counts are new rows only. */
    method MergeSyncPayload(peer: NodeId, p: Payload)
      returns (snapshotsMerged: nat, eventsMerged: nat, bucketsMerged: nat)
      modifies this
      ensures View() == Merge(old(View()), peer, p)
      ensures snapshotsMerged == |raw| - |old(raw)|
      ensures eventsMerged == |events| - |old(events)|
      ensures bucketsMerged == |buckets| - |old(buckets)| + |DayRows(peer, p.buckets)|
    {
      snapshotsMerged := MergeSnapshots(peer, p.snaps);
      eventsMerged := MergeEvents(peer, p.events);
      bucketsMerged := MergeBuckets(peer, p.buckets);
    }

    method MergeSnapshots(peer: NodeId, items: seq<SnapItem>) returns (merged: nat)
      modifies this`raw
      ensures raw == InsertAll(old(raw), SnapRows(peer, items))
      ensures merged == |raw| - |old(raw)|
    {
      merged := 0;
      for i := 0 to |items|
        invariant raw == InsertAll(old(raw), SnapRows(peer, items[..i]))
        invariant merged == |raw| - |old(raw)|
      {
        var snap := items[i];
        InsertNext(old(raw), items, SnapRow(peer), i);
        if snap.ts.Some? {
          var key := RawKey(peer, snap.ts.value);
          if key !in raw {
            raw := raw[key := snap.text];
            merged := merged + 1;
          }
        }
      }
      assert items[..|items|] == items;
    }

    method MergeEvents(peer: NodeId, items: seq<EventItem>) returns (merged: nat)
      modifies this`events
      ensures events == InsertAll(old(events), EventRows(peer, items))
      ensures merged == |events| - |old(events)|
    {
      merged := 0;
      for i := 0 to |items|
        invariant events == InsertAll(old(events), EventRows(peer, items[..i]))
        invariant merged == |events| - |old(events)|
      {
        var ev := items[i];
        InsertNext(old(events), items, EventRow(peer), i);
        if ev.ts.Some? {
          var key := EventKey(peer, Millis(ev.ts.value), ev.event, DetailText(ev.detail));
          if key !in events {
            events := events[key := ev.detail];
            merged := merged + 1;
          }
        }
      }
      assert items[..|items|] == items;
    }

    /** INSERT OR IGNORE; tells how many rows went in. */
    method InsertBucket(key: BucketKey, row: BucketRow) returns (rowCount: nat)
      modifies this`buckets
      ensures buckets == InsertOrIgnore(old(buckets), Row(key, row))
      ensures rowCount == |buckets| - |old(buckets)|
    {
      if key in buckets {
        return 0;
      }
      buckets := buckets[key := row];
      rowCount := 1;
    }

    method MergeBuckets(peer: NodeId, items: seq<BucketItem>) returns (merged: nat)
      modifies this`buckets, this`daily
      ensures buckets == InsertAll(old(buckets), BucketRows(peer, items))
      ensures daily == ReplaceAll(old(daily), DayRows(peer, items))
      ensures merged == |buckets| - |old(buckets)| + |DayRows(peer, items)|
    {
      merged := 0;
      for i := 0 to |items|
        invariant buckets == InsertAll(old(buckets), BucketRows(peer, items[..i]))
        invariant daily == ReplaceAll(old(daily), DayRows(peer, items[..i]))
        invariant merged == |buckets| - |old(buckets)| + |DayRows(peer, items[..i])|
      {
        InsertNext(old(buckets), items, WindowRow(peer), i);
        ReplaceNext(old(daily), items, DateRow(peer), i);
        match items[i]
        case Stat(start, end, size, columns) =>
          if start.Some? && end.Some? {
            var rowCount := InsertBucket(BucketKey(peer, start.value, size), BucketRow(end.value, columns));
            merged := merged + rowCount;
          }
        case Day(date, columns) =>
          daily := daily[DayKey(peer, date) := DayRow(columns)];
          merged := merged + 1;
        case Unrecognised =>
      }
      assert items[..|items|] == items;
    }
  }

  /** What the next item does to the table. */
  lemma InsertNext<T, K, V>(t: map<K, V>, items: seq<T>, f: T -> Option<Row<K, V>>, i: nat)
    requires i < |items|
    ensures var before, row := InsertAll(t, Collect(items[..i], f)), f(items[i]);
      InsertAll(t, Collect(items[..i + 1], f)) == if row.Some? then InsertOrIgnore(before, row.value) else before
  {
    assert items[..i + 1] == items[..i] + [items[i]];
    CollectSnoc(items[..i], items[i], f);
    if f(items[i]).Some? {
      InsertSnoc(t, Collect(items[..i], f), f(items[i]).value);
    }
  }

  lemma ReplaceNext<T, K, V>(t: map<K, V>, items: seq<T>, f: T -> Option<Row<K, V>>, i: nat)
    requires i < |items|
    ensures var before, rows, row := ReplaceAll(t, Collect(items[..i], f)), Collect(items[..i], f), f(items[i]);
      && ReplaceAll(t, Collect(items[..i + 1], f)) ==
           (if row.Some? then before[row.value.key := row.value.value] else before)
      && |Collect(items[..i + 1], f)| == |rows| + (if row.Some? then 1 else 0)
  {
    assert items[..i + 1] == items[..i] + [items[i]];
    CollectSnoc(items[..i], items[i], f);
    if f(items[i]).Some? {
      ReplaceSnoc(t, Collect(items[..i], f), f(items[i]).value);
    }
  }

  lemma InsertSnoc<K, V>(t: map<K, V>, rows: seq<Row<K, V>>, row: Row<K, V>)
    ensures InsertAll(t, rows + [row]) == InsertOrIgnore(InsertAll(t, rows), row)
  {
    assert (rows + [row])[..|rows|] == rows;
  }

  lemma ReplaceSnoc<K, V>(t: map<K, V>, rows: seq<Row<K, V>>, row: Row<K, V>)
    ensures ReplaceAll(t, rows + [row]) == ReplaceAll(t, rows)[row.key := row.value]
  {
    assert (rows + [row])[..|rows|] == rows;
  }
}
