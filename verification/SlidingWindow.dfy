/**
 The in-memory rate limiter of the local-admin path: one list of hit times per key,
 pruned to the closed last minute at every hit.
 */
module SlidingWindow {

  const WINDOW := 60.0

  type Buckets = map<string, seq<real>>

  /** The hits at or after `cutoff`, in order. */
  function Since(times: seq<real>, cutoff: real): (r: seq<real>)
    ensures |r| <= |times|
  {
    if |times| == 0 then []
    else
      var rest := Since(times[..|times| - 1], cutoff);
      var t := times[|times| - 1];
      if t >= cutoff then rest + [t] else rest
  }

  function BucketOf(b: Buckets, key: string): seq<real> {
    if key in b then b[key] else []
  }

  /** One hit: the new buckets, and whether the hit is within the limit. */
  function Hit(limit: int, b: Buckets, key: string, ts: real): (Buckets, bool) {
    var kept := Since(BucketOf(b, key), ts - WINDOW) + [ts];
    (b[key := kept], |kept| <= limit)
  }

  class SlidingWindowCounter {
    const limit: int
    var events: Buckets

    constructor (limit: int)
      ensures this.limit == limit && events == map[]
    {
      this.limit := limit;
      events := map[];
    }

    method HitAndCheck(key: string, ts: real) returns (ok: bool)
      modifies this
      ensures (events, ok) == Hit(limit, old(events), key, ts)
    {
      var cutoff := ts - WINDOW;
      var bucket := BucketOf(events, key);
      var kept := [];
      for i := 0 to |bucket|
        invariant kept == Since(bucket[..i], cutoff)
      {
        assert bucket[..i + 1][..i] == bucket[..i];
        if bucket[i] >= cutoff {
          kept := kept + [bucket[i]];
        }
      }
      assert bucket[..|bucket|] == bucket;
      kept := kept + [ts];
      events := events[key := kept];
      ok := |kept| <= limit;
    }
  }

  // ---- Whole histories: the pruned buckets against every hit ever made ----

  datatype HitRecord = HitRecord(key: string, ts: real)

  function AfterHits(limit: int, hits: seq<HitRecord>): Buckets {
    if |hits| == 0 then map[]
    else
      var h := hits[|hits| - 1];
      Hit(limit, AfterHits(limit, hits[..|hits| - 1]), h.key, h.ts).0
  }

  /** The verdict on the last hit of a nonempty history. */
  predicate LastAdmitted(limit: int, hits: seq<HitRecord>)
    requires |hits| > 0
  {
    var h := hits[|hits| - 1];
    Hit(limit, AfterHits(limit, hits[..|hits| - 1]), h.key, h.ts).1
  }

  function TimesOf(hits: seq<HitRecord>, key: string): seq<real> {
    if |hits| == 0 then []
    else
      var before := TimesOf(hits[..|hits| - 1], key);
      var h := hits[|hits| - 1];
      if h.key == key then before + [h.ts] else before
  }

  ghost predicate NonDecreasing(times: seq<real>) {
    forall i, j :: 0 <= i < j < |times| ==> times[i] <= times[j]
  }

  /** Admitted hits of `key` in the closed interval from `from` to `from + 60`. */
  function AdmittedWithin(limit: int, hits: seq<HitRecord>, key: string, from: real): nat {
    if |hits| == 0 then 0
    else
      var h := hits[|hits| - 1];
      AdmittedWithin(limit, hits[..|hits| - 1], key, from)
      + if h.key == key && from <= h.ts <= from + WINDOW && LastAdmitted(limit, hits) then 1 else 0
  }

  /** Pruning twice is pruning at the later cutoff. */
  lemma {:induction false} SinceTwice(times: seq<real>, early: real, late: real)
    requires early <= late
    ensures Since(Since(times, early), late) == Since(times, late)
  {
    if |times| > 0 {
      var front := times[..|times| - 1];
      SinceTwice(front, early, late);
      var pruned := Since(front, early);
      assert (pruned + [times[|times| - 1]])[..|pruned|] == pruned;
    }
  }

  lemma {:induction false} SinceIsMonotone(times: seq<real>, early: real, late: real)
    requires early <= late
    ensures |Since(times, late)| <= |Since(times, early)|
  {
    if |times| > 0 {
      SinceIsMonotone(times[..|times| - 1], early, late);
    }
  }

  lemma SinceAppend(times: seq<real>, t: real, cutoff: real)
    ensures Since(times + [t], cutoff) == Since(times, cutoff) + if t >= cutoff then [t] else []
  {
    assert (times + [t])[..|times|] == times;
  }

  /** The full history's closed last minute, ending at its last hit. */
  function LastMinute(times: seq<real>): seq<real> {
    if |times| == 0 then [] else Since(times, times[|times| - 1] - WINDOW)
  }

  lemma NonDecreasingPrefix(before: seq<real>, t: real)
    requires NonDecreasing(before + [t])
    ensures NonDecreasing(before)
    ensures |before| > 0 ==> before[|before| - 1] <= t
  {
    var times := before + [t];
    forall i, j | 0 <= i < j < |before| ensures before[i] <= before[j] {
      assert times[i] <= times[j];
    }
    assert |before| > 0 ==> times[|before| - 1] <= times[|before|];
  }

  lemma LastMinuteStep(before: seq<real>, t: real)
    requires NonDecreasing(before + [t])
    ensures NonDecreasing(before)
    ensures LastMinute(before + [t]) == Since(LastMinute(before), t - WINDOW) + [t]
  {
    NonDecreasingPrefix(before, t);
    SinceAppend(before, t, t - WINDOW);
    if |before| > 0 {
      SinceTwice(before, before[|before| - 1] - WINDOW, t - WINDOW);
    }
  }

  /**
   The pruned bucket holds exactly the hits of the closed last minute: nothing that a
   limiter with the full history would still count has been dropped.
   */
  lemma {:induction false} BucketIsWindow(limit: int, hits: seq<HitRecord>, key: string)
    requires NonDecreasing(TimesOf(hits, key))
    ensures BucketOf(AfterHits(limit, hits), key) == LastMinute(TimesOf(hits, key))
  {
    if |hits| > 0 {
      var front := hits[..|hits| - 1];
      if hits[|hits| - 1].key == key {
        LastMinuteStep(TimesOf(front, key), hits[|hits| - 1].ts);
      }
      BucketIsWindow(limit, front, key);
    }
  }

  /** The verdict compares the full history's last-minute count with the limit. */
  lemma VerdictCountsWindow(limit: int, hits: seq<HitRecord>)
    requires |hits| > 0
    requires NonDecreasing(TimesOf(hits, hits[|hits| - 1].key))
    ensures var h := hits[|hits| - 1];
            LastAdmitted(limit, hits) <==> |Since(TimesOf(hits, h.key), h.ts - WINDOW)| <= limit
  {
    var h := hits[|hits| - 1];
    BucketIsWindow(limit, hits, h.key);
  }

  lemma {:induction false} AdmittedAreHits(limit: int, hits: seq<HitRecord>, key: string, from: real)
    ensures AdmittedWithin(limit, hits, key, from) <= |Since(TimesOf(hits, key), from)|
  {
    if |hits| > 0 {
      var front := hits[..|hits| - 1];
      AdmittedAreHits(limit, front, key, from);
      SinceAppend(TimesOf(front, key), hits[|hits| - 1].ts, from);
    }
  }

  /** No closed minute, wherever it starts, holds more admitted hits of a key than the limit. */
  lemma {:induction false} AtMostLimitPerMinute(limit: int, hits: seq<HitRecord>, key: string, from: real)
    requires NonDecreasing(TimesOf(hits, key))
    ensures AdmittedWithin(limit, hits, key, from) <= if limit > 0 then limit else 0
  {
    if |hits| > 0 {
      var front := hits[..|hits| - 1];
      var h := hits[|hits| - 1];
      if h.key == key { LastMinuteStep(TimesOf(front, key), h.ts); }
      AtMostLimitPerMinute(limit, front, key, from);
      if h.key == key && from <= h.ts <= from + WINDOW && LastAdmitted(limit, hits) {
        VerdictCountsWindow(limit, hits);
        AdmittedAreHits(limit, hits, key, from);
        SinceIsMonotone(TimesOf(hits, key), h.ts - WINDOW, from);
      }
    }
  }
}
