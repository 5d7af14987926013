/** Outage incidents derived from the ordered probe rows of one peer (src/history.py). */
module Incidents {
  import opened Common

  datatype ProbeRow = ProbeRow(ts: int, alive: bool)

  /** Rows start .. end-1. */
  datatype DownRun = DownRun(start: nat, end: nat)

  datatype Incident = Incident(started: int, ended: Option<int>, duration: nat, ongoing: bool)

  /** Rows start .. end-1 are not ALIVE and the run cannot be extended on either side. */
  ghost predicate MaximalDownRun(rows: seq<ProbeRow>, r: DownRun) {
    && r.start < r.end <= |rows|
    && (forall i :: r.start <= i < r.end ==> !rows[i].alive)
    && (r.start == 0 || rows[r.start - 1].alive)
    && (r.end == |rows| || rows[r.end].alive)
  }

  /** The maximal runs, oldest first. */
  function DownRuns(rows: seq<ProbeRow>): seq<DownRun>
    decreases |rows|
  {
    if rows == [] then [] else
      var n := |rows| - 1;
      var before := DownRuns(rows[..n]);
      if rows[n].alive then before
      else if before != [] && before[|before| - 1].end == n
      then before[..|before| - 1] + [DownRun(before[|before| - 1].start, n + 1)]
      else before + [DownRun(n, n + 1)]
  }

  ghost predicate Ordered(runs: seq<DownRun>) {
    forall i, j :: 0 <= i < j < |runs| ==> runs[i].end < runs[j].start
  }

  /** What one more row does to a maximal run of the rows before it. */
  lemma RunAfterRow(rows: seq<ProbeRow>, r: DownRun)
    requires rows != [] && MaximalDownRun(rows[..|rows| - 1], r)
    ensures r.end < |rows| - 1 || rows[|rows| - 1].alive ==> MaximalDownRun(rows, r)
    ensures r.end == |rows| - 1 && !rows[|rows| - 1].alive ==> MaximalDownRun(rows, DownRun(r.start, |rows|))
  {
    var n := |rows| - 1;
    assert forall i :: 0 <= i < n ==> rows[..n][i] == rows[i];
  }

  lemma RunBeforeRow(rows: seq<ProbeRow>, r: DownRun)
    requires rows != [] && MaximalDownRun(rows, r) && r.start < |rows| - 1
    ensures MaximalDownRun(rows[..|rows| - 1], if r.end < |rows| then r else DownRun(r.start, |rows| - 1))
  {
    var n := |rows| - 1;
    assert forall i :: 0 <= i < n ==> rows[..n][i] == rows[i];
  }

  /** `runs` are maximal runs of `rows`, in order, and one of them reaches the end if the last row is down. */
  ghost predicate Sound(rows: seq<ProbeRow>, runs: seq<DownRun>) {
    && (forall k :: 0 <= k < |runs| ==> MaximalDownRun(rows, runs[k]))
    && Ordered(runs)
    && (rows != [] && !rows[|rows| - 1].alive ==> runs != [] && runs[|runs| - 1].end == |rows|)
  }

  lemma RunWithin(rows: seq<ProbeRow>, runs: seq<DownRun>, k: nat)
    requires Sound(rows, runs) && k < |runs|
    ensures runs[k].start < runs[k].end <= |rows|
    ensures k < |runs| - 1 ==> runs[k].end < |rows|
  {
    assert MaximalDownRun(rows, runs[k]);
    var last := |runs| - 1;
    assert MaximalDownRun(rows, runs[last]);
    assert k < last ==> runs[k].end < runs[last].start;
  }

  lemma SoundUp(rows: seq<ProbeRow>, runs: seq<DownRun>)
    requires rows != [] && rows[|rows| - 1].alive && Sound(rows[..|rows| - 1], runs)
    ensures Sound(rows, runs)
  {
    forall k | 0 <= k < |runs| ensures MaximalDownRun(rows, runs[k]) { RunAfterRow(rows, runs[k]); }
  }

  lemma SoundExtend(rows: seq<ProbeRow>, runs: seq<DownRun>)
    requires rows != [] && !rows[|rows| - 1].alive && Sound(rows[..|rows| - 1], runs)
    requires runs != [] && runs[|runs| - 1].end == |rows| - 1
    ensures Sound(rows, runs[..|runs| - 1] + [DownRun(runs[|runs| - 1].start, |rows|)])
  {
    var next := runs[..|runs| - 1] + [DownRun(runs[|runs| - 1].start, |rows|)];
    forall k | 0 <= k < |next| ensures MaximalDownRun(rows, next[k]) {
      RunWithin(rows[..|rows| - 1], runs, k);
      RunAfterRow(rows, runs[k]);
    }
  }

  lemma SoundStart(rows: seq<ProbeRow>, runs: seq<DownRun>)
    requires rows != [] && !rows[|rows| - 1].alive && Sound(rows[..|rows| - 1], runs)
    requires runs == [] || runs[|runs| - 1].end != |rows| - 1
    ensures Sound(rows, runs + [DownRun(|rows| - 1, |rows|)])
  {
    var n := |rows| - 1;
    var next := runs + [DownRun(n, |rows|)];
    forall k | 0 <= k < |runs| ensures runs[k].end < n && MaximalDownRun(rows, runs[k]) {
      RunWithin(rows[..n], runs, k);
      RunAfterRow(rows, runs[k]);
    }
    assert n > 0 ==> rows[..n][n - 1] == rows[n - 1];
  }

  lemma {:induction false} DownRunsSound(rows: seq<ProbeRow>)
    ensures Sound(rows, DownRuns(rows))
    decreases |rows|
  {
    if rows != [] {
      var n := |rows| - 1;
      var before := DownRuns(rows[..n]);
      DownRunsSound(rows[..n]);
      if rows[n].alive {
        SoundUp(rows, before);
      } else if before != [] && before[|before| - 1].end == n {
        SoundExtend(rows, before);
      } else {
        SoundStart(rows, before);
      }
    }
  }

  /** A run that reaches the end of the rows is the last one of the list. */
  lemma OpenRunIsLast(rows: seq<ProbeRow>, k: nat)
    requires k < |DownRuns(rows)| && DownRuns(rows)[k].end == |rows|
    ensures k == |DownRuns(rows)| - 1
  {
    DownRunsSound(rows);
    RunWithin(rows, DownRuns(rows), k);
  }

  /** A run of just the last row is the one the list ends with. */
  lemma RunBeforeRowEnds(rows: seq<ProbeRow>, r: DownRun)
    requires MaximalDownRun(rows, r) && r.start == |rows| - 1
    ensures DownRuns(rows) != [] && DownRuns(rows)[|DownRuns(rows)| - 1] == r
  {
    DownRunsSound(rows);
    var runs := DownRuns(rows);
    var last := runs[|runs| - 1];
    assert MaximalDownRun(rows, last) && last.end == |rows|;
    assert r.start == 0 || rows[r.start - 1].alive;
  }

  lemma {:induction false} DownRunsComplete(rows: seq<ProbeRow>, r: DownRun)
    requires MaximalDownRun(rows, r)
    ensures r in DownRuns(rows)
    decreases |rows|
  {
    var n := |rows| - 1;
    var before, runs := DownRuns(rows[..n]), DownRuns(rows);
    if r.start < n {
      var shorter := if r.end < |rows| then r else DownRun(r.start, n);
      RunBeforeRow(rows, r);
      DownRunsComplete(rows[..n], shorter);
      var k :| 0 <= k < |before| && before[k] == shorter;
      if shorter.end == n {
        OpenRunIsLast(rows[..n], k);
      }
      assert runs[k] == r;
    } else {
      DownRunsSound(rows);
      RunBeforeRowEnds(rows, r);
      assert runs[|runs| - 1] == r;
    }
  }

  function Clamp(d: int): nat { if d < 0 then 0 else d }

  function Ongoing(rows: seq<ProbeRow>, start: int): Incident
    requires rows != []
  {
    Incident(start, None, Clamp(rows[|rows| - 1].ts - start), true)
  }

  function Ended(start: int, end: int): Incident {
    Incident(start, Some(end), Clamp(end - start), false)
  }

  /** The incident that stands for a run of `rows`. */
  function ToIncident(rows: seq<ProbeRow>, r: DownRun): Incident
    requires r.start < r.end <= |rows|
  {
    if r.end < |rows| then Ended(rows[r.start].ts, rows[r.end].ts) else Ongoing(rows, rows[r.start].ts)
  }

  /** The k-th incident of the answer, newest first. */
  ghost function Newest(rows: seq<ProbeRow>, k: nat): Incident
    requires k < |DownRuns(rows)|
  {
    DownRunsSound(rows);
    RunWithin(rows, DownRuns(rows), |DownRuns(rows)| - 1 - k);
    ToIncident(rows, DownRuns(rows)[|DownRuns(rows)| - 1 - k])
  }

  /** The incident tells of the maximal run r: it started with the run's first row and ended with the first row
      that is ALIVE again; while there is none it is ongoing, and lasts up to the last row. */
  ghost predicate Reports(a: Incident, rows: seq<ProbeRow>, r: DownRun) {
    && MaximalDownRun(rows, r)
    && a.started == rows[r.start].ts
    && (a.ongoing <==> r.end == |rows|)
    && a.ended == (if r.end < |rows| then Some(rows[r.end].ts) else None)
    && a.duration == Max(0, rows[if r.end < |rows| then r.end else |rows| - 1].ts - rows[r.start].ts)
  }

  lemma NewestReports(rows: seq<ProbeRow>, k: nat)
    requires k < |DownRuns(rows)|
    ensures Reports(Newest(rows, k), rows, DownRuns(rows)[|DownRuns(rows)| - 1 - k])
  {
    DownRunsSound(rows);
    assert MaximalDownRun(rows, DownRuns(rows)[|DownRuns(rows)| - 1 - k]);
  }

  /** `incidents`: a one-pass edge detector over the rows. */
  method IncidentsOf(rows: seq<ProbeRow>, limit: nat) returns (answer: seq<Incident>)
    ensures |answer| == if |DownRuns(rows)| <= limit then |DownRuns(rows)| else limit
    ensures forall k :: 0 <= k < |answer| ==> answer[k] == Newest(rows, k)
    ensures forall k :: 0 <= k < |answer| ==> Reports(answer[k], rows, DownRuns(rows)[|DownRuns(rows)| - 1 - k])
  {
    var incidents, openStart := DetectEdges(rows);
    ClosedAtEnd(rows, incidents, openStart);
    if openStart.Some? {
      incidents := incidents + [Ongoing(rows, openStart.value)];
    }
    var reversed := seq(|incidents|, k requires 0 <= k < |incidents| => incidents[|incidents| - 1 - k]);
    answer := if |reversed| <= limit then reversed else reversed[..limit];
    forall k | 0 <= k < |answer|
      ensures answer[k] == Newest(rows, k) && Reports(answer[k], rows, DownRuns(rows)[|DownRuns(rows)| - 1 - k])
    {
      assert answer[k] == incidents[|incidents| - 1 - k];
      NewestReports(rows, k);
    }
  }

  method DetectEdges(rows: seq<ProbeRow>) returns (incidents: seq<Incident>, openStart: Option<int>)
    ensures Closed(rows, |rows|, incidents, openStart)
  {
    incidents := [];
    openStart := None;
    var prev: Option<bool> := None;   // was the previous row ALIVE?
    for i := 0 to |rows|
      invariant prev == if i == 0 then None else Some(rows[i - 1].alive)
      invariant Closed(rows, i, incidents, openStart)
    {
      var down := !rows[i].alive;
      var wasDown := prev.Some? && !prev.value;
      if down && !wasDown {
        ClosedOpens(rows, i, incidents, openStart);
        openStart := Some(rows[i].ts);
      } else if !down && wasDown && openStart.Some? {
        ClosedCloses(rows, i, incidents, openStart);
        incidents := incidents + [Ended(openStart.value, rows[i].ts)];
        openStart := None;
      } else {
        ClosedSame(rows, i, incidents, openStart);
      }
      prev := Some(rows[i].alive);
    }
  }

  ghost predicate OpenAt(rows: seq<ProbeRow>, i: nat)
    requires i <= |rows|
  {
    i > 0 && !rows[i - 1].alive
  }

  /** The first runs, all ended before row i, are the incidents. */
  ghost predicate Lists(rows: seq<ProbeRow>, i: nat, runs: seq<DownRun>, incidents: seq<Incident>)
    requires i <= |rows|
  {
    && |incidents| <= |runs|
    && forall k :: 0 <= k < |incidents| ==> runs[k].start < runs[k].end < i && incidents[k] == ToIncident(rows, runs[k])
  }

  /** After i rows: the closed runs are in the list, and `openStart` is where an unfinished run began. */
  ghost predicate Closed(rows: seq<ProbeRow>, i: nat, incidents: seq<Incident>, openStart: Option<int>)
    requires i <= |rows|
  {
    var runs := DownRuns(rows[..i]);
    && Lists(rows, i, runs, incidents)
    && (if OpenAt(rows, i) then
          && |incidents| == |runs| - 1
          && runs[|incidents|].start < runs[|incidents|].end == i
          && openStart == Some(rows[runs[|incidents|].start].ts)
        else |incidents| == |runs| && openStart == None)
  }

  lemma RunsStep(rows: seq<ProbeRow>, i: nat)
    requires i < |rows|
    ensures var before, after := DownRuns(rows[..i]), DownRuns(rows[..i + 1]);
      after == if rows[i].alive then before
               else if before != [] && before[|before| - 1].end == i
               then before[..|before| - 1] + [DownRun(before[|before| - 1].start, i + 1)]
               else before + [DownRun(i, i + 1)]
  {
    assert rows[..i + 1][..i] == rows[..i];
  }

  lemma ClosedOpens(rows: seq<ProbeRow>, i: nat, incidents: seq<Incident>, openStart: Option<int>)
    requires i < |rows| && Closed(rows, i, incidents, openStart) && !rows[i].alive && !OpenAt(rows, i)
    ensures Closed(rows, i + 1, incidents, Some(rows[i].ts))
  {
    RunsStep(rows, i);
    var runs := DownRuns(rows[..i]);
    assert runs != [] ==> runs[|incidents| - 1].end < i;
  }

  lemma ClosedCloses(rows: seq<ProbeRow>, i: nat, incidents: seq<Incident>, openStart: Option<int>)
    requires i < |rows| && Closed(rows, i, incidents, openStart) && rows[i].alive && OpenAt(rows, i)
    ensures openStart.Some? && Closed(rows, i + 1, incidents + [Ended(openStart.value, rows[i].ts)], None)
  {
    RunsStep(rows, i);
    ListsSnoc(rows, i, DownRuns(rows[..i]), incidents);
  }

  lemma ListsSnoc(rows: seq<ProbeRow>, i: nat, runs: seq<DownRun>, incidents: seq<Incident>)
    requires i < |rows| && Lists(rows, i, runs, incidents) && |incidents| == |runs| - 1
    requires runs[|incidents|].start < runs[|incidents|].end == i
    ensures Lists(rows, i + 1, runs, incidents + [Ended(rows[runs[|incidents|].start].ts, rows[i].ts)])
  {
  }

  lemma ClosedSame(rows: seq<ProbeRow>, i: nat, incidents: seq<Incident>, openStart: Option<int>)
    requires i < |rows| && Closed(rows, i, incidents, openStart) && (rows[i].alive <==> !OpenAt(rows, i))
    ensures Closed(rows, i + 1, incidents, openStart)
  {
    RunsStep(rows, i);
  }

  lemma ClosedAtEnd(rows: seq<ProbeRow>, incidents: seq<Incident>, openStart: Option<int>)
    requires Closed(rows, |rows|, incidents, openStart)
    ensures openStart.Some? ==> rows != []
    ensures var all := if openStart.None? then incidents else incidents + [Ongoing(rows, openStart.value)];
      |all| == |DownRuns(rows)| && forall k :: 0 <= k < |all| ==> all[|all| - 1 - k] == Newest(rows, k)
  {
    assert rows[..|rows|] == rows;
    var runs := DownRuns(rows);
    var all := if openStart.None? then incidents else incidents + [Ongoing(rows, openStart.value)];
    assert |all| == |runs|;
    forall k | 0 <= k < |all| ensures all[|all| - 1 - k] == Newest(rows, k) {
      NewestIs(rows, k, all[|all| - 1 - k]);
    }
  }

  lemma NewestIs(rows: seq<ProbeRow>, k: nat, incident: Incident)
    requires k < |DownRuns(rows)|
    requires var r := DownRuns(rows)[|DownRuns(rows)| - 1 - k];
      r.start < r.end <= |rows| && incident == ToIncident(rows, r)
    ensures incident == Newest(rows, k)
  {
  }

  /** Incidents are exactly the maximal runs of rows that are not ALIVE (the first row may start one),
      listed newest first and disjoint; only the newest can be ongoing, and it is exactly when the last row is down. */
  lemma IncidentsAreMaximalRuns(rows: seq<ProbeRow>)
    ensures forall r :: r in DownRuns(rows) <==> MaximalDownRun(rows, r)
    ensures Ordered(DownRuns(rows))
    ensures forall k :: 0 < k < |DownRuns(rows)| ==> !Newest(rows, k).ongoing
    ensures DownRuns(rows) != [] ==> (Newest(rows, 0).ongoing <==> !rows[|rows| - 1].alive)
  {
    DownRunsSound(rows);
    var runs := DownRuns(rows);
    forall r ensures r in runs <==> MaximalDownRun(rows, r) {
      if MaximalDownRun(rows, r) {
        DownRunsComplete(rows, r);
      }
    }
    if runs != [] {
      var last := runs[|runs| - 1];
      assert MaximalDownRun(rows, last);
      forall k | 0 < k < |runs| ensures !Newest(rows, k).ongoing {
        assert runs[|runs| - 1 - k].end < last.start;
      }
    }
  }

  function TotalDuration(rows: seq<ProbeRow>, runs: seq<DownRun>): nat
    requires forall k :: 0 <= k < |runs| ==> runs[k].start < runs[k].end <= |rows|
  {
    if runs == [] then 0 else
      TotalDuration(rows, runs[..|runs| - 1]) + ToIncident(rows, runs[|runs| - 1]).duration
  }

  ghost predicate TimeOrdered(rows: seq<ProbeRow>) {
    forall i, j :: 0 <= i <= j < |rows| ==> rows[i].ts <= rows[j].ts
  }

  lemma {:induction false} DurationsUpTo(rows: seq<ProbeRow>, runs: seq<DownRun>)
    requires TimeOrdered(rows) && runs != [] && Ordered(runs)
    requires forall k :: 0 <= k < |runs| ==> runs[k].start < runs[k].end <= |rows|
    ensures var end := runs[|runs| - 1].end;
      TotalDuration(rows, runs) <= rows[if end < |rows| then end else |rows| - 1].ts - rows[0].ts
    decreases |runs|
  {
    if |runs| > 1 {
      var init := runs[..|runs| - 1];
      assert init[|init| - 1].end < runs[|runs| - 1].start;
      DurationsUpTo(rows, init);
    } else {
      assert runs[..0] == [];
    }
  }

  /** Outages cannot add up to more time than the rows span. */
  lemma DurationsBounded(rows: seq<ProbeRow>)
    requires TimeOrdered(rows) && rows != []
    ensures forall k :: 0 <= k < |DownRuns(rows)| ==> DownRuns(rows)[k].start < DownRuns(rows)[k].end <= |rows|
    ensures TotalDuration(rows, DownRuns(rows)) <= rows[|rows| - 1].ts - rows[0].ts
  {
    DownRunsSound(rows);
    var runs := DownRuns(rows);
    forall k | 0 <= k < |runs| ensures runs[k].start < runs[k].end <= |rows| {
      assert MaximalDownRun(rows, runs[k]);
    }
    if runs != [] {
      DurationsUpTo(rows, runs);
    }
  }
}
