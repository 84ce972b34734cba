/**
 How each login ends, by what was done before: which passwords were set, which admin requests
 were made, which wrong passwords were checked, and how many logins came in the last minute.
 */
module LoginOutcomes {
  import opened Wrappers
  import opened SlidingWindow
  import opened LocalAdmin
  import opened AdminSurface
  import opened LoginLimits

  // ---- What the run says of an account ----

  /** The password of the last rotation of the account. */
  function PasswordOf(ops: seq<Op>, u: string): Option<string> {
    if |ops| == 0 then None
    else
      match ops[|ops| - 1]
      case RotateOp(username, password, _) => if username == u then Some(password) else PasswordOf(ops[..|ops| - 1], u)
      case _ => PasswordOf(ops[..|ops| - 1], u)
  }

  /** The process has a signing key, as said when it last started. */
  function Configured(configured: bool, ops: seq<Op>): bool {
    if |ops| == 0 then configured
    else
      match ops[|ops| - 1]
      case Restart(again) => again
      case _ => Configured(configured, ops[..|ops| - 1])
  }

  predicate IsSiamAdmin(op: Op) {
    op.AdminRequest? && op.caller.SiamCaller? && op.caller.hasAdminRole
  }

  /** A SIAM admin has made a request to the process since it last started. */
  predicate Looked(ops: seq<Op>) {
    if |ops| == 0 || ops[|ops| - 1].Restart? then false
    else IsSiamAdmin(ops[|ops| - 1]) || Looked(ops[..|ops| - 1])
  }

  /** Enabled by its last rotation, and not since disabled by a configured process's first look. */
  predicate EnabledBy(configured: bool, ops: seq<Op>, u: string) {
    if |ops| == 0 then false
    else
      var front, op := ops[..|ops| - 1], ops[|ops| - 1];
      if op.RotateOp? && op.username == u then true
      else if u == "admin" && IsSiamAdmin(op) && Configured(configured, front) && !Looked(front) then false
      else EnabledBy(configured, front, u)
  }

  lemma StepKeepsConfigured(c: Config, p: Process, op: Op)
    ensures Step(c, p, op).configured == if op.Restart? then op.configured else p.configured
  {
  }

  lemma {:induction false} RunIsConfigured(c: Config, configured: bool, ops: seq<Op>)
    ensures Run(c, configured, ops).configured == Configured(configured, ops)
  {
    if |ops| > 0 {
      RunIsConfigured(c, configured, ops[..|ops| - 1]);
      StepKeepsConfigured(c, Run(c, configured, ops[..|ops| - 1]), ops[|ops| - 1]);
    }
  }

  lemma StepLooks(c: Config, p: Process, op: Op)
    ensures Step(c, p, op).cache == Pending <==>
            if op.Restart? then op.configured else p.cache == Pending && !IsSiamAdmin(op)
  {
  }

  lemma {:induction false} RunLooks(c: Config, configured: bool, ops: seq<Op>)
    ensures Run(c, configured, ops).cache == Pending <==> Configured(configured, ops) && !Looked(ops)
  {
    if |ops| > 0 {
      RunLooks(c, configured, ops[..|ops| - 1]);
      StepLooks(c, Run(c, configured, ops[..|ops| - 1]), ops[|ops| - 1]);
    }
  }

  lemma StepEnables(c: Config, p: Process, op: Op, u: string)
    ensures Enabled(Step(c, p, op).gate, u) <==>
            if op.RotateOp? && op.username == u then true
            else Enabled(p.gate, u) && !(u == "admin" && IsSiamAdmin(op) && p.configured && p.cache == Pending)
  {
  }

  /** An account is enabled exactly as its rotations and the first looks say. */
  lemma {:induction false} EnabledIff(c: Config, configured: bool, ops: seq<Op>, u: string)
    ensures Enabled(Run(c, configured, ops).gate, u) <==> EnabledBy(configured, ops, u)
  {
    if |ops| > 0 {
      var front := ops[..|ops| - 1];
      EnabledIff(c, configured, front, u);
      RunIsConfigured(c, configured, front);
      RunLooks(c, configured, front);
      StepEnables(c, Run(c, configured, front), ops[|ops| - 1], u);
    }
  }

  ghost predicate HasPassword(p: Process, u: string, password: Option<string>) {
    && (u in p.gate.rows <==> password.Some?)
    && (password.Some? ==> p.gate.rows[u].hash == Hash(password.value))
  }

  lemma StepSetsPassword(c: Config, p: Process, op: Op, u: string, password: Option<string>)
    requires HasPassword(p, u, password)
    ensures HasPassword(Step(c, p, op), u, if op.RotateOp? && op.username == u then Some(op.password) else password)
  {
  }

  /** An account exists exactly when it was rotated, and its password is that of the last rotation. */
  lemma {:induction false} PasswordIsLastRotated(c: Config, configured: bool, ops: seq<Op>, u: string)
    ensures HasPassword(Run(c, configured, ops), u, PasswordOf(ops, u))
  {
    if |ops| > 0 {
      PasswordIsLastRotated(c, configured, ops[..|ops| - 1], u);
      StepSetsPassword(c, Run(c, configured, ops[..|ops| - 1]), ops[|ops| - 1], u, PasswordOf(ops[..|ops| - 1], u));
    }
  }

  // ---- The outcome of a login ----

  /** The wrong passwords recorded lock the account at `now`. */
  predicate LockedBy(c: Config, misses: seq<real>, now: real) {
    |misses| >= Effective(c) && now < misses[|misses| - 1] + c.lockout
  }

  /** How a login past both limiters ends. */
  function EndOf(c: Config, configured: bool, ops: seq<Op>, a: Attempt): Outcome {
    var password := PasswordOf(ops, a.username);
    if password.None? then NoSuchUser
    else if !EnabledBy(configured, ops, a.username) then AccountDisabled
    else if LockedBy(c, Misses(c, Started(EMPTY, configured), ops, a.username), a.now) then LockedOut
    else if password != Some(a.password) then BadPassword
    else Success
  }

  /** In every run a login ends rate-limited when a limiter refuses it, and otherwise as the run says. */
  lemma LoginOutcome(c: Config, configured: bool, ops: seq<Op>, a: Attempt)
    ensures var p := Run(c, configured, ops);
      OutcomeAfter(c, p, a) ==
      if RateCheck(c, p.gate.buckets, a).1 then EndOf(c, configured, ops, a) else RateLimited
  {
    var p := Run(c, configured, ops);
    PasswordIsLastRotated(c, configured, ops, a.username);
    EnabledIff(c, configured, ops, a.username);
    LockReflectsHistory(c, configured, ops, a.username);
    if a.username in p.gate.rows {
      LockedByHistory(c, p, Misses(c, Started(EMPTY, configured), ops, a.username), a.username, a.now);
    }
  }

  lemma LockedByHistory(c: Config, p: Process, misses: seq<real>, u: string, now: real)
    requires LockMatches(c, p, misses, u) && u in p.gate.rows
    ensures Locked(p.gate.rows[u], now) <==> LockedBy(c, misses, now)
  {
  }

  /**
   So a login past both limiters succeeds exactly when the account was rotated and is enabled,
   the password is that of its last rotation, and no lock is running: fewer wrong passwords
   than the threshold, or a lockout passed since the last. It ends `bad_password` exactly when
   all of that holds but the password.
   */
  lemma SuccessIff(c: Config, configured: bool, ops: seq<Op>, a: Attempt)
    ensures var p := Run(c, configured, ops);
      var misses := Misses(c, Started(EMPTY, configured), ops, a.username);
      var passes := RateCheck(c, p.gate.buckets, a).1;
      var unlocked := |misses| < Effective(c) || a.now >= misses[|misses| - 1] + c.lockout;
      && (OutcomeAfter(c, p, a) == Success <==>
            && passes && EnabledBy(configured, ops, a.username) && unlocked
            && PasswordOf(ops, a.username) == Some(a.password))
      && (OutcomeAfter(c, p, a) == BadPassword <==>
            && passes && EnabledBy(configured, ops, a.username) && unlocked
            && PasswordOf(ops, a.username) != Some(a.password))
  {
    LoginOutcome(c, configured, ops, a);
    if EnabledBy(configured, ops, a.username) {
      EnabledWasRotated(configured, ops, a.username);
    }
  }

  lemma {:induction false} EnabledWasRotated(configured: bool, ops: seq<Op>, u: string)
    requires EnabledBy(configured, ops, u)
    ensures PasswordOf(ops, u).Some?
  {
    if !(ops[|ops| - 1].RotateOp? && ops[|ops| - 1].username == u) {
      EnabledWasRotated(configured, ops[..|ops| - 1], u);
    }
  }

  /** A lock ends by itself: once the lockout has passed, the right password works again. */
  lemma LockEnds(c: Config, configured: bool, ops: seq<Op>, a: Attempt)
    requires EnabledBy(configured, ops, a.username) && PasswordOf(ops, a.username) == Some(a.password)
    requires var misses := Misses(c, Started(EMPTY, configured), ops, a.username);
      |misses| > 0 && a.now >= misses[|misses| - 1] + c.lockout
    requires RateCheck(c, Run(c, configured, ops).gate.buckets, a).1
    ensures OutcomeAfter(c, Run(c, configured, ops), a) == Success
  {
    SuccessIff(c, configured, ops, a);
  }

  // ---- The limiters ----

  /** How many of the times lie at or after `cutoff`. */
  function CountSince(times: seq<real>, cutoff: real): nat {
    if |times| == 0 then 0
    else CountSince(times[..|times| - 1], cutoff) + if times[|times| - 1] >= cutoff then 1 else 0
  }

  lemma {:induction false} SinceCounts(times: seq<real>, cutoff: real)
    ensures |Since(times, cutoff)| == CountSince(times, cutoff)
  {
    if |times| > 0 {
      SinceCounts(times[..|times| - 1], cutoff);
    }
  }

  /** Counting this one, the hits of the key in the last 60 s are within the limit. */
  predicate Within(c: Config, times: seq<real>, now: real) {
    CountSince(times, now - 60.0) + 1 <= c.limit
  }

  lemma HitIsWithin(c: Config, hits: seq<HitRecord>, key: string, now: real)
    requires NonDecreasing(TimesOf(hits, key) + [now])
    ensures Hit(c.limit, AfterHits(c.limit, hits), key, now).1 <==> Within(c, TimesOf(hits, key), now)
  {
    NonDecreasingPrefix(TimesOf(hits, key), now);
    BucketIsWindow(c.limit, hits, key);
    SinceOfWindow(TimesOf(hits, key), now);
    SinceCounts(TimesOf(hits, key), now - WINDOW);
  }

  /** Of the last minute before, what is still in the minute up to now is all that is. */
  lemma SinceOfWindow(times: seq<real>, now: real)
    requires NonDecreasing(times + [now])
    ensures Since(LastMinute(times), now - WINDOW) == Since(times, now - WINDOW)
  {
    NonDecreasingPrefix(times, now);
    if |times| > 0 {
      SinceTwice(times, times[|times| - 1] - WINDOW, now - WINDOW);
    }
  }

  /**
   Within one process and on a monotonic clock, a login is refused by a limiter exactly when
   it exceeds the limit of its address, or else of its username, over the last 60 s of hits.
   */
  lemma RateLimitedIff(c: Config, p: Process, ops: seq<Op>, a: Attempt)
    requires p.gate.buckets == map[] && Monotonic(ops + [LoginOp(a)])
    ensures var hits := HitsOf(c, p, ops);
      RateCheck(c, RunFrom(c, p, ops).gate.buckets, a).1 <==>
        Within(c, TimesOf(hits, "ip:" + a.clientIp), a.mono) && Within(c, TimesOf(hits, "user:" + a.username), a.mono)
  {
    var hits := HitsOf(c, p, ops);
    BucketsAreHits(c, p, ops);
    TimesUpToNow(c, p, ops, a, IpKey(a));
    TimesUpToNow(c, p, ops, a, UserKey(a));
    HitIsWithin(c, hits, IpKey(a), a.mono);
    OtherKeyKeepsTimes(c, hits, a);
    HitIsWithin(c, hits + [HitRecord(IpKey(a), a.mono)], UserKey(a), a.mono);
    AfterHitsAppend(c.limit, hits, HitRecord(IpKey(a), a.mono));
  }

  lemma OtherKeyKeepsTimes(c: Config, hits: seq<HitRecord>, a: Attempt)
    ensures TimesOf(hits + [HitRecord(IpKey(a), a.mono)], UserKey(a)) == TimesOf(hits, UserKey(a))
  {
    assert IpKey(a)[0] != UserKey(a)[0];
    TimesOfAppend(hits, HitRecord(IpKey(a), a.mono), UserKey(a));
  }

  lemma TimesUpToNow(c: Config, p: Process, ops: seq<Op>, a: Attempt, key: string)
    requires Monotonic(ops + [LoginOp(a)])
    ensures NonDecreasing(TimesOf(HitsOf(c, p, ops), key) + [a.mono])
  {
    var all := ops + [LoginOp(a)];
    forall i, j | 0 <= i < j < |ops| && ops[i].LoginOp? && ops[j].LoginOp?
      ensures ops[i].attempt.mono <= ops[j].attempt.mono
    {
      assert all[i] == ops[i] && all[j] == ops[j];
    }
    forall x | x in ops && x.LoginOp? ensures x.attempt.mono <= a.mono {
      var i :| 0 <= i < |ops| && ops[i] == x;
      assert all[i] == x && all[|ops|] == LoginOp(a);
    }
    HitsAreOrdered(c, p, ops, key);
    HitsBefore(c, p, ops, key, a.mono);
    OrderedAppend(TimesOf(HitsOf(c, p, ops), key), a.mono);
  }

  // ---- Who is let into the admin surface ----

  /** Local admins, and SIAM users with the admin role; nobody else, and only the latter change anything. */
  lemma AdmittedIff(p: Process, caller: Caller, now: real)
    ensures var (p', allowed) := RequireAdmin(p, caller, now);
      && (allowed <==> caller.LocalCaller? || caller.hasAdminRole)
      && (caller.LocalCaller? || !caller.hasAdminRole ==> p' == p)
  {
  }

  // ---- The other columns of an account ----

  /** A login changes nothing of its account but what it is there to record. */
  lemma LoginWrites(c: Config, g: Gate, a: Attempt)
    requires a.username in g.rows
    ensures var (g', outcome) := AttemptLogin(c, g, a);
      var row := g.rows[a.username];
      && g'.rows.Keys == g.rows.Keys
      && (outcome == Success ==>
            g'.rows[a.username] == row.(failedAttempts := 0, lockedUntil := None, lastLoginAt := Some(a.now)))
      && (outcome == BadPassword ==>
            g'.rows[a.username] == row.(failedAttempts := row.failedAttempts + 1,
                                        lockedUntil := g'.rows[a.username].lockedUntil))
      && (outcome != Success && outcome != BadPassword ==> g'.rows == g.rows)
  {
  }

  /** An auto-disable writes who and when on the bootstrap row, logs it, and touches nothing else. */
  lemma DisableWrites(g: Gate, siamUsername: string, now: real)
    requires Enabled(g, "admin")
    ensures DisableOnSiamLogin(g, siamUsername, now) ==
            (g.(rows := g.rows["admin" := g.rows["admin"].(enabled := false, disabledAt := Some(now),
                                                           disabledBy := Some(siamUsername))],
                events := g.events + [LoginEvent(now, "admin", "-", AutoDisabled)]), true)
  {
  }

  /** A rotation keeps only the date an account was created. */
  lemma RotateWrites(g: Gate, username: string, password: string, now: real)
    ensures var g' := Rotate(g, username, password, now);
      && g' == g.(rows := g'.rows, rotations := g.rotations + [Rotation(now, username, username in g.rows)])
      && g'.rows == g.rows[username := AdminRow(Hash(password), true, 0, None, None,
                                                g'.rows[username].createdAt, now, None, None)]
      && g'.rows[username].createdAt == (if username in g.rows then g.rows[username].createdAt else now)
  {
  }
}
