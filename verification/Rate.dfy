/** Spacing gives a rate: instants that are far enough apart are few in any span of time. */
module Rate {
  import opened Common

  /** Consecutive instants lie at least `gap` apart. */
  ghost predicate Spaced(times: seq<int>, gap: int) {
    forall i :: 0 < i < |times| ==> times[i] - times[i - 1] >= gap
  }

  lemma SpacedSnoc(times: seq<int>, gap: int, t: int)
    requires Spaced(times, gap) && (times == [] || t - times[|times| - 1] >= gap)
    ensures Spaced(times + [t], gap)
  {
  }

  lemma {:induction false} SpacedAcross(times: seq<int>, gap: nat, i: nat, j: nat)
    requires Spaced(times, gap) && i <= j < |times|
    ensures times[j] - times[i] >= (j - i) * gap
    decreases j - i
  {
    if i < j {
      SpacedAcross(times, gap, i, j - 1);
      assert (j - i) * gap == (j - 1 - i) * gap + gap;
    }
  }

  /** Any span of `span` seconds holds at most span / gap + 1 of the instants. */
  lemma AtMost(times: seq<int>, gap: nat, i: nat, j: nat, span: nat)
    requires gap > 0 && Spaced(times, gap) && i <= j < |times|
    requires times[j] - times[i] <= span
    ensures j - i + 1 <= span / gap + 1
  {
    SpacedAcross(times, gap, i, j);
    QuotientBound(j - i, gap, span);
  }

  lemma QuotientBound(n: nat, gap: nat, span: nat)
    requires gap > 0 && n * gap <= span
    ensures n <= span / gap
  {
    var q := span / gap;
    assert span < (q + 1) * gap;
    if n > q {
      ProductMonotone(q + 1, n, gap);
      assert false;
    }
  }
}
