/** Counting events that keep a minimum distance: how many fit in a span. */
module Spacing {

  /** Entries from index `first` on lie at least `gap` after the one before. */
  ghost predicate Spaced(times: seq<real>, first: nat, gap: real)
    requires first >= 1
  {
    forall i, j :: first <= i < |times| && j == i - 1 ==> times[j] + gap <= times[i]
  }

  lemma {:induction false} SpacingCounts(times: seq<real>, first: nat, gap: real, i: nat, j: nat)
    requires 1 <= first <= i + 1 && i <= j < |times|
    requires Spaced(times, first, gap)
    ensures (j - i) as real * gap <= times[j] - times[i]
  {
    if i < j {
      SpacingCounts(times, first, gap, i, j - 1);
      assert times[j - 1] + gap <= times[j];
    }
  }

  /** Between any two entries that are at most `span` apart, at most `floor(span / gap)` entries follow. */
  lemma SpacingBounds(times: seq<real>, first: nat, gap: real, i: nat, j: nat, span: real)
    requires 1 <= first <= i + 1 && i <= j < |times| && gap > 0.0
    requires Spaced(times, first, gap)
    requires times[j] <= times[i] + span
    ensures j - i <= (span / gap).Floor
  {
    SpacingCounts(times, first, gap, i, j);
    var extra := (j - i) as real;
    var q := span / gap;
    assert q * gap == span;
    if q < extra {
      TimesIsMonotone(q, extra, gap);
    }
  }

  lemma TimesIsMonotone(x: real, y: real, d: real)
    requires x < y && d > 0.0
    ensures x * d < y * d
  {
  }
}
