/**
 The rate limiter inside whole process runs: the buckets of a running process are those of
 the hits its logins made, so the per-minute bound on hits is a bound on logins.
 */
module LoginLimits {
  import opened LocalAdmin
  import opened SlidingWindow
  import opened AdminSurface

  function IpKey(a: Attempt): string {
    "ip:" + a.clientIp
  }

  function UserKey(a: Attempt): string {
    "user:" + a.username
  }

  function NoteHits(c: Config, p: Process, before: seq<HitRecord>, op: Op): seq<HitRecord> {
    match op
    case LoginOp(a) =>
      if !p.configured then before
      else
        var byIp := before + [HitRecord(IpKey(a), a.mono)];
        if Hit(c.limit, p.gate.buckets, IpKey(a), a.mono).1 then byIp + [HitRecord(UserKey(a), a.mono)] else byIp
    case Restart(_) => []
    case _ => before
  }

  /** The hits made since the process last started, in order. */
  function HitsOf(c: Config, p: Process, ops: seq<Op>): seq<HitRecord> {
    if |ops| == 0 then []
    else NoteHits(c, RunFrom(c, p, ops[..|ops| - 1]), HitsOf(c, p, ops[..|ops| - 1]), ops[|ops| - 1])
  }

  lemma AfterHitsAppend(limit: int, hits: seq<HitRecord>, h: HitRecord)
    ensures AfterHits(limit, hits + [h]) == Hit(limit, AfterHits(limit, hits), h.key, h.ts).0
    ensures LastAdmitted(limit, hits + [h]) == Hit(limit, AfterHits(limit, hits), h.key, h.ts).1
  {
    assert (hits + [h])[..|hits|] == hits;
  }

  lemma BucketsStep(c: Config, p: Process, hits: seq<HitRecord>, op: Op)
    requires p.gate.buckets == AfterHits(c.limit, hits)
    ensures Step(c, p, op).gate.buckets == AfterHits(c.limit, NoteHits(c, p, hits, op))
  {
    if op.LoginOp? && p.configured {
      var byIp := HitRecord(IpKey(op.attempt), op.attempt.mono);
      AfterHitsAppend(c.limit, hits, byIp);
      AfterHitsAppend(c.limit, hits + [byIp], HitRecord(UserKey(op.attempt), op.attempt.mono));
    }
  }

  /** The limiter's state is that of the process's own hits, whatever happens between them. */
  lemma {:induction false} BucketsAreHits(c: Config, p: Process, ops: seq<Op>)
    requires p.gate.buckets == map[]
    ensures RunFrom(c, p, ops).gate.buckets == AfterHits(c.limit, HitsOf(c, p, ops))
  {
    if |ops| > 0 {
      var front := ops[..|ops| - 1];
      BucketsAreHits(c, p, front);
      BucketsStep(c, RunFrom(c, p, front), HitsOf(c, p, front), ops[|ops| - 1]);
    }
  }

  // ---- Logins per minute ----

  /** A login made under the key, inside the closed minute from `from`, that was not rate-limited. */
  predicate Passes(c: Config, p: Process, op: Op, key: string, from: real) {
    && op.LoginOp? && p.configured
    && (key == IpKey(op.attempt) || key == UserKey(op.attempt))
    && from <= op.attempt.mono <= from + WINDOW
    && OutcomeAfter(c, p, op.attempt) != RateLimited
  }

  function PassedWithin(c: Config, p: Process, ops: seq<Op>, key: string, from: real): nat {
    if |ops| == 0 then 0
    else
      var front := ops[..|ops| - 1];
      PassedWithin(c, p, front, key, from) + if Passes(c, RunFrom(c, p, front), ops[|ops| - 1], key, from) then 1 else 0
  }

  lemma AdmittedAppend(limit: int, hits: seq<HitRecord>, h: HitRecord, key: string, from: real)
    ensures AdmittedWithin(limit, hits + [h], key, from)
         == AdmittedWithin(limit, hits, key, from)
            + if h.key == key && from <= h.ts <= from + WINDOW && LastAdmitted(limit, hits + [h]) then 1 else 0
  {
    assert (hits + [h])[..|hits|] == hits;
  }

  /** A login that gets past the limiter had both its hits admitted. */
  lemma BothHitsAdmitted(c: Config, p: Process, hits: seq<HitRecord>, a: Attempt)
    requires p.gate.buckets == AfterHits(c.limit, hits) && OutcomeAfter(c, p, a) != RateLimited
    ensures Hit(c.limit, p.gate.buckets, IpKey(a), a.mono).1
    ensures var byIp, byUser := HitRecord(IpKey(a), a.mono), HitRecord(UserKey(a), a.mono);
      LastAdmitted(c.limit, hits + [byIp]) && LastAdmitted(c.limit, hits + [byIp] + [byUser])
  {
    var byIp, byUser := HitRecord(IpKey(a), a.mono), HitRecord(UserKey(a), a.mono);
    AfterHitsAppend(c.limit, hits, byIp);
    AfterHitsAppend(c.limit, hits + [byIp], byUser);
    assert RateCheck(c, p.gate.buckets, a).1;
  }

  lemma PassesStep(c: Config, p: Process, hits: seq<HitRecord>, op: Op, key: string, from: real)
    requires p.gate.buckets == AfterHits(c.limit, hits) && !op.Restart?
    ensures AdmittedWithin(c.limit, NoteHits(c, p, hits, op), key, from)
         >= AdmittedWithin(c.limit, hits, key, from) + if Passes(c, p, op, key, from) then 1 else 0
  {
    if op.LoginOp? && p.configured {
      var a := op.attempt;
      AdmittedAppend(c.limit, hits, HitRecord(IpKey(a), a.mono), key, from);
      AdmittedAppend(c.limit, hits + [HitRecord(IpKey(a), a.mono)], HitRecord(UserKey(a), a.mono), key, from);
      if OutcomeAfter(c, p, a) != RateLimited {
        BothHitsAdmitted(c, p, hits, a);
      }
    }
  }

  lemma {:induction false} PassedAreAdmitted(c: Config, p: Process, ops: seq<Op>, key: string, from: real)
    requires p.gate.buckets == map[] && forall op :: op in ops ==> !op.Restart?
    ensures PassedWithin(c, p, ops, key, from) <= AdmittedWithin(c.limit, HitsOf(c, p, ops), key, from)
  {
    if |ops| > 0 {
      var front := ops[..|ops| - 1];
      assert ops[|ops| - 1] in ops;
      PassedAreAdmitted(c, p, front, key, from);
      BucketsAreHits(c, p, front);
      PassesStep(c, RunFrom(c, p, front), HitsOf(c, p, front), ops[|ops| - 1], key, from);
    }
  }

  /** The monotonic clock as the logins of one process read it. */
  ghost predicate Monotonic(ops: seq<Op>) {
    forall i, j :: 0 <= i < j < |ops| && ops[i].LoginOp? && ops[j].LoginOp?
        ==> ops[i].attempt.mono <= ops[j].attempt.mono
  }

  lemma {:induction false} HitsBefore(c: Config, p: Process, ops: seq<Op>, key: string, m: real)
    requires forall op :: op in ops && op.LoginOp? ==> op.attempt.mono <= m
    ensures forall t :: t in TimesOf(HitsOf(c, p, ops), key) ==> t <= m
  {
    if |ops| > 0 {
      HitsBefore(c, p, ops[..|ops| - 1], key, m);
      assert ops[|ops| - 1] in ops;
      TimesOfStep(c, RunFrom(c, p, ops[..|ops| - 1]), HitsOf(c, p, ops[..|ops| - 1]), ops[|ops| - 1], key);
    }
  }

  lemma TimesOfAppend(hits: seq<HitRecord>, h: HitRecord, key: string)
    ensures TimesOf(hits + [h], key) == TimesOf(hits, key) + if h.key == key then [h.ts] else []
  {
    assert (hits + [h])[..|hits|] == hits;
  }

  /** One call adds to a key's hits at most one, at the call's own reading, or starts over. */
  lemma TimesOfStep(c: Config, p: Process, hits: seq<HitRecord>, op: Op, key: string)
    ensures var times, times' := TimesOf(hits, key), TimesOf(NoteHits(c, p, hits, op), key);
      times' == times || times' == [] || (op.LoginOp? && times' == times + [op.attempt.mono])
  {
    if op.LoginOp? {
      var byIp, byUser := HitRecord(IpKey(op.attempt), op.attempt.mono),
          HitRecord(UserKey(op.attempt), op.attempt.mono);
      assert byIp.key[0] != byUser.key[0];
      TimesOfAppend(hits, byIp, key);
      TimesOfAppend(hits + [byIp], byUser, key);
    }
  }

  lemma OrderedAppend(times: seq<real>, t: real)
    requires NonDecreasing(times) && forall x :: x in times ==> x <= t
    ensures NonDecreasing(times + [t])
  {
    var all := times + [t];
    forall i, j | 0 <= i < j < |all| ensures all[i] <= all[j] {
      assert all[i] == times[i] && times[i] in times;
    }
  }

  lemma {:induction false} HitsAreOrdered(c: Config, p: Process, ops: seq<Op>, key: string)
    requires Monotonic(ops)
    ensures NonDecreasing(TimesOf(HitsOf(c, p, ops), key))
  {
    if |ops| > 0 {
      var front, op := ops[..|ops| - 1], ops[|ops| - 1];
      HitsAreOrdered(c, p, front, key);
      TimesOfStep(c, RunFrom(c, p, front), HitsOf(c, p, front), op, key);
      if op.LoginOp? {
        forall x | x in front && x.LoginOp? ensures x.attempt.mono <= op.attempt.mono {
          var i :| 0 <= i < |front| && front[i] == x;
          assert ops[i] == x;
        }
        HitsBefore(c, p, front, key, op.attempt.mono);
        OrderedAppend(TimesOf(HitsOf(c, p, front), key), op.attempt.mono);
      }
    }
  }

  /**
   Within one process, no closed minute holds more logins from one address, or for one
   username, that got past the limiter than the configured limit.
   */
  lemma LoginsPerMinute(c: Config, p: Process, ops: seq<Op>, key: string, from: real)
    requires p.gate.buckets == map[] && Monotonic(ops) && forall op :: op in ops ==> !op.Restart?
    ensures PassedWithin(c, p, ops, key, from) <= if c.limit > 0 then c.limit else 0
  {
    PassedAreAdmitted(c, p, ops, key, from);
    HitsAreOrdered(c, p, ops, key);
    AtMostLimitPerMinute(c.limit, HitsOf(c, p, ops), key, from);
  }
}
