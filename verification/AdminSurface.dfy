/**
 The admin surface around the break-glass account: `require_admin` and the process-level
 cache that makes the auto-disable hook run at most once per process.
 */
module AdminSurface {
  import opened Wrappers
  import opened Spacing
  import opened LocalAdmin

  datatype CacheState = Pending | NoLocalAdmin | DisabledNow | AlreadyDisabledOrAbsent

  /** One hub process over its database; `configured` says whether a signing key is set. */
  datatype Process = Process(gate: Gate, configured: bool, cache: CacheState)

  datatype Caller = LocalCaller | SiamCaller(username: string, hasAdminRole: bool)

  function Started(gate: Gate, configured: bool): Process {
    Process(gate.(buckets := map[]), configured, if configured then Pending else NoLocalAdmin)
  }

  function MaybeAutoDisable(p: Process, siamUsername: string, now: real): Process {
    if p.cache != Pending then p
    else if !p.configured then p.(cache := NoLocalAdmin)
    else
      var (gate, transitioned) := DisableOnSiamLogin(p.gate, siamUsername, now);
      p.(gate := gate, cache := if transitioned then DisabledNow else AlreadyDisabledOrAbsent)
  }

  function RequireAdmin(p: Process, caller: Caller, now: real): (Process, bool) {
    match caller
    case LocalCaller => (p, true)
    case SiamCaller(username, hasAdminRole) =>
      if hasAdminRole then (MaybeAutoDisable(p, username, now), true) else (p, false)
  }

  class AppState {
    const service: LocalAdminService?
    var disableState: CacheState

    constructor (service: LocalAdminService?)
      ensures this.service == service
      ensures disableState == if service == null then NoLocalAdmin else Pending
    {
      this.service := service;
      disableState := if service == null then NoLocalAdmin else Pending;
    }

    ghost function State(): Process
      requires service != null
      reads this, service, service.rateLimit
    {
      Process(service.State(), true, disableState)
    }

    method MaybeAutoDisableLocalAdmin(siamUsername: string, now: real)
      modifies this, service
      ensures service == null ==> disableState == if old(disableState) == Pending then NoLocalAdmin
          else old(disableState)
      ensures service != null ==> State() == MaybeAutoDisable(old(State()), siamUsername, now)
    {
      if disableState != Pending {
        return;
      }
      if service == null {
        disableState := NoLocalAdmin;
        return;
      }
      var transitioned := service.DisableOnSiamAdminLogin(siamUsername, now);
      disableState := if transitioned then DisabledNow else AlreadyDisabledOrAbsent;
    }

    method RequireAdminCaller(caller: Caller, now: real) returns (allowed: bool)
      modifies this, service
      ensures service != null ==> (State(), allowed) == RequireAdmin(old(State()), caller, now)
    {
      if caller.LocalCaller? {
        return true;
      }
      if !caller.hasAdminRole {
        return false;
      }
      MaybeAutoDisableLocalAdmin(caller.username, now);
      return true;
    }
  }

  // ---- Runs: logins, admin requests, CLI rotations and restarts in any order ----

  datatype Op =
    | LoginOp(attempt: Attempt)
    | AdminRequest(caller: Caller, now: real)
    | RotateOp(username: string, password: string, now: real)
    | Restart(configured: bool)

  function Step(c: Config, p: Process, op: Op): Process {
    match op
    case LoginOp(a) => if p.configured then p.(gate := AttemptLogin(c, p.gate, a).0) else p
    case AdminRequest(caller, now) => RequireAdmin(p, caller, now).0
    case RotateOp(username, password, now) => p.(gate := Rotate(p.gate, username, password, now))
    case Restart(configured) => Started(p.gate, configured)
  }

  function RunFrom(c: Config, p: Process, ops: seq<Op>): Process {
    if |ops| == 0 then p else Step(c, RunFrom(c, p, ops[..|ops| - 1]), ops[|ops| - 1])
  }

  function Run(c: Config, configured: bool, ops: seq<Op>): Process {
    RunFrom(c, Started(EMPTY, configured), ops)
  }

  /** What a login at the end of a run is told. */
  function OutcomeAfter(c: Config, p: Process, a: Attempt): Outcome {
    AttemptLogin(c, p.gate, a).1
  }

  // ---- Lockout ----

  /** The times of the wrong passwords checked for `u` since its last success or rotation. */
  function Misses(c: Config, p: Process, ops: seq<Op>, u: string): seq<real> {
    if |ops| == 0 then []
    else
      var front := ops[..|ops| - 1];
      NoteMiss(c, RunFrom(c, p, front), Misses(c, p, front, u), ops[|ops| - 1], u)
  }

  function NoteMiss(c: Config, p: Process, before: seq<real>, op: Op, u: string): seq<real> {
    match op
    case LoginOp(a) =>
      if a.username != u || !p.configured then before
      else if OutcomeAfter(c, p, a) == BadPassword then before + [a.now]
      else if OutcomeAfter(c, p, a) == Success then []
      else before
    case RotateOp(username, _, _) => if username == u then [] else before
    case _ => before
  }

  /** A threshold below one locks at the first wrong password. */
  function Effective(c: Config): (n: nat)
    ensures n >= 1
  {
    if c.threshold >= 1 then c.threshold else 1
  }

  ghost predicate LockMatches(c: Config, p: Process, misses: seq<real>, u: string) {
    if u !in p.gate.rows then misses == []
    else
      && p.gate.rows[u].failedAttempts == |misses|
      && p.gate.rows[u].lockedUntil
         == if |misses| >= Effective(c) then Some(misses[|misses| - 1] + c.lockout) else None
  }

  lemma LockMatchesStep(c: Config, p: Process, misses: seq<real>, op: Op, u: string)
    requires LockMatches(c, p, misses, u)
    ensures LockMatches(c, Step(c, p, op), NoteMiss(c, p, misses, op, u), u)
  {
  }

  /** The stored counter and lock are exactly what the history of wrong passwords says. */
  lemma {:induction false} LockReflectsHistory(c: Config, configured: bool, ops: seq<Op>, u: string)
    ensures LockMatches(c, Run(c, configured, ops), Misses(c, Started(EMPTY, configured), ops, u), u)
  {
    if |ops| > 0 {
      var front := ops[..|ops| - 1];
      LockReflectsHistory(c, configured, front, u);
      LockMatchesStep(c, Run(c, configured, front), Misses(c, Started(EMPTY, configured), front, u), ops[|ops| - 1], u);
    }
  }

  lemma MissIsSpaced(c: Config, p: Process, misses: seq<real>, a: Attempt)
    requires LockMatches(c, p, misses, a.username) && Spaced(misses, Effective(c), c.lockout)
    requires OutcomeAfter(c, p, a) == BadPassword
    ensures Spaced(misses + [a.now], Effective(c), c.lockout)
  {
    assert !Locked(p.gate.rows[a.username], a.now);
    if |misses| >= Effective(c) {
      assert misses[|misses| - 1] + c.lockout <= a.now;
    }
  }

  /** From the threshold-th one on, checked wrong passwords are at least a lockout apart. */
  lemma {:induction false} MissesAreSpaced(c: Config, configured: bool, ops: seq<Op>, u: string)
    ensures Spaced(Misses(c, Started(EMPTY, configured), ops, u), Effective(c), c.lockout)
  {
    if |ops| > 0 {
      var front, op := ops[..|ops| - 1], ops[|ops| - 1];
      var p, misses := Run(c, configured, front), Misses(c, Started(EMPTY, configured), front, u);
      MissesAreSpaced(c, configured, front, u);
      LockReflectsHistory(c, configured, front, u);
      if op.LoginOp? && op.attempt.username == u && OutcomeAfter(c, p, op.attempt) == BadPassword {
        MissIsSpaced(c, p, misses, op.attempt);
      }
    }
  }

  /**
   Once the threshold is reached, a stretch of checked wrong passwords that starts and ends
   within `t` has at most `1 + floor(t / lockout)` of them. Nothing is assumed about the clock.
   */
  lemma MissesPerSpan(c: Config, configured: bool, ops: seq<Op>, u: string, i: nat, j: nat, t: real)
    requires c.lockout > 0.0
    requires var misses := Misses(c, Started(EMPTY, configured), ops, u);
      Effective(c) - 1 <= i <= j < |misses| && misses[j] <= misses[i] + t
    ensures j - i + 1 <= 1 + (t / c.lockout).Floor
  {
    MissesAreSpaced(c, configured, ops, u);
    SpacingBounds(Misses(c, Started(EMPTY, configured), ops, u), Effective(c), c.lockout, i, j, t);
  }

  /** So within `t` of the threshold-th one, at most `threshold + floor(t / lockout)` are ever checked. */
  lemma MissesAreBounded(c: Config, configured: bool, ops: seq<Op>, u: string, t: real)
    requires c.lockout > 0.0
    requires var misses := Misses(c, Started(EMPTY, configured), ops, u);
      |misses| >= Effective(c) && misses[|misses| - 1] <= misses[Effective(c) - 1] + t
    ensures |Misses(c, Started(EMPTY, configured), ops, u)| <= Effective(c) + (t / c.lockout).Floor
  {
    var misses := Misses(c, Started(EMPTY, configured), ops, u);
    MissesPerSpan(c, configured, ops, u, Effective(c) - 1, |misses| - 1, t);
  }

  /**
   Inside a lock window the right password is refused like a wrong one, the account row
   does not change, and no token is issued.
   */
  lemma LockRefusesEveryPassword(c: Config, configured: bool, ops: seq<Op>, a: Attempt)
    requires var misses := Misses(c, Started(EMPTY, configured), ops, a.username);
      |misses| >= Effective(c) && a.now < misses[|misses| - 1] + c.lockout
    ensures var p := Run(c, configured, ops);
      && OutcomeAfter(c, p, a) in {RateLimited, AccountDisabled, LockedOut}
      && AttemptLogin(c, p.gate, a).0.rows == p.gate.rows
  {
    LockReflectsHistory(c, configured, ops, a.username);
    LockedRowRefuses(c, Run(c, configured, ops).gate, a);
  }

  lemma LockedRowRefuses(c: Config, g: Gate, a: Attempt)
    requires a.username in g.rows && Locked(g.rows[a.username], a.now)
    ensures AttemptLogin(c, g, a).1 in {RateLimited, AccountDisabled, LockedOut}
    ensures AttemptLogin(c, g, a).0.rows == g.rows
  {
  }

  // ---- Login events ----

  /** Each login appends one event, naming its outcome, and keeps every earlier event. */
  lemma OneEventPerLogin(c: Config, g: Gate, a: Attempt)
    ensures var (g', outcome) := AttemptLogin(c, g, a);
      && g'.events == g.events + [LoginEvent(a.now, a.username, a.clientIp, outcome)]
      && g'.rotations == g.rotations
      && outcome != AutoDisabled
      && (outcome == Success ==> a.username in g.rows && g.rows[a.username].enabled
                                 && g.rows[a.username].hash == Hash(a.password) && !Locked(g.rows[a.username], a.now))
      && (forall u :: u != a.username && u in g.rows ==> u in g'.rows && g'.rows[u] == g.rows[u])
  {
  }

  // ---- Auto-disable ----

  predicate RotatesBootstrap(op: Op) {
    op.RotateOp? && op.username == BOOTSTRAP_USERNAME
  }

  lemma {:induction false} DisabledStays(c: Config, p: Process, ops: seq<Op>)
    requires !Enabled(p.gate, BOOTSTRAP_USERNAME)
    requires forall op :: op in ops ==> !RotatesBootstrap(op)
    ensures !Enabled(RunFrom(c, p, ops).gate, BOOTSTRAP_USERNAME)
  {
    if |ops| > 0 {
      var front := ops[..|ops| - 1];
      DisabledStays(c, p, front);
      assert !RotatesBootstrap(ops[|ops| - 1]);
    }
  }

  /**
   From an auto-disable until the next rotation of the bootstrap row, whatever else
   happens, restarts included, every bootstrap login is told `disabled` or rate-limited.
   */
  lemma NoLoginUntilRotation(c: Config, p: Process, siamUsername: string, now: real, ops: seq<Op>, a: Attempt)
    requires Enabled(p.gate, BOOTSTRAP_USERNAME) && p.cache == Pending && p.configured
    requires forall op :: op in ops ==> !RotatesBootstrap(op)
    requires a.username == BOOTSTRAP_USERNAME
    ensures var disabled := MaybeAutoDisable(p, siamUsername, now);
      && disabled.cache == DisabledNow
      && OutcomeAfter(c, RunFrom(c, disabled, ops), a) in {RateLimited, AccountDisabled}
  {
    var disabled := MaybeAutoDisable(p, siamUsername, now);
    DisabledStays(c, disabled, ops);
    RowStays(c, disabled, ops);
  }

  lemma {:induction false} RowStays(c: Config, p: Process, ops: seq<Op>)
    requires BOOTSTRAP_USERNAME in p.gate.rows
    ensures BOOTSTRAP_USERNAME in RunFrom(c, p, ops).gate.rows
  {
    if |ops| > 0 {
      RowStays(c, p, ops[..|ops| - 1]);
    }
  }

  function AutoDisables(events: seq<LoginEvent>): nat {
    if |events| == 0 then 0
    else AutoDisables(events[..|events| - 1]) + if events[|events| - 1].outcome == AutoDisabled then 1 else 0
  }

  function BootstrapRotations(rotations: seq<Rotation>): nat {
    if |rotations| == 0 then 0
    else BootstrapRotations(rotations[..|rotations| - 1])
         + if rotations[|rotations| - 1].username == BOOTSTRAP_USERNAME then 1 else 0
  }

  lemma AutoDisablesAppend(events: seq<LoginEvent>, e: LoginEvent)
    ensures AutoDisables(events + [e]) == AutoDisables(events) + if e.outcome == AutoDisabled then 1 else 0
  {
    assert (events + [e])[..|events|] == events;
  }

  lemma BootstrapRotationsAppend(rotations: seq<Rotation>, r: Rotation)
    ensures BootstrapRotations(rotations + [r])
         == BootstrapRotations(rotations) + if r.username == BOOTSTRAP_USERNAME then 1 else 0
  {
    assert (rotations + [r])[..|rotations|] == rotations;
  }

  predicate Spent(g: Gate) {
    AutoDisables(g.events) + (if Enabled(g, BOOTSTRAP_USERNAME) then 1 else 0) <= BootstrapRotations(g.rotations)
  }

  lemma LoginSpends(c: Config, g: Gate, a: Attempt)
    requires Spent(g)
    ensures Spent(AttemptLogin(c, g, a).0)
  {
    var (g', outcome) := AttemptLogin(c, g, a);
    OneEventPerLogin(c, g, a);
    AutoDisablesAppend(g.events, LoginEvent(a.now, a.username, a.clientIp, outcome));
    assert Enabled(g', BOOTSTRAP_USERNAME) == Enabled(g, BOOTSTRAP_USERNAME);
  }

  lemma DisableSpends(g: Gate, siamUsername: string, now: real)
    requires Spent(g)
    ensures Spent(DisableOnSiamLogin(g, siamUsername, now).0)
  {
    AutoDisablesAppend(g.events, LoginEvent(now, BOOTSTRAP_USERNAME, "-", AutoDisabled));
  }

  lemma RotateSpends(g: Gate, username: string, password: string, now: real)
    requires Spent(g)
    ensures Spent(Rotate(g, username, password, now))
  {
    BootstrapRotationsAppend(g.rotations, Rotation(now, username, username in g.rows));
  }

  lemma StepSpends(c: Config, p: Process, op: Op)
    requires Spent(p.gate)
    ensures Spent(Step(c, p, op).gate)
  {
    match op {
      case LoginOp(a) => LoginSpends(c, p.gate, a);
      case AdminRequest(caller, now) =>
        if caller.SiamCaller? {
          DisableSpends(p.gate, caller.username, now);
        }
      case RotateOp(username, password, now) => RotateSpends(p.gate, username, password, now);
      case Restart(_) =>
    }
  }

  /** Every auto-disable uses up a rotation of the bootstrap row; an enabled row is one not yet used up. */
  lemma {:induction false} AutoDisablesSpendRotations(c: Config, configured: bool, ops: seq<Op>)
    ensures var g := Run(c, configured, ops).gate;
      AutoDisables(g.events) + (if Enabled(g, BOOTSTRAP_USERNAME) then 1 else 0) <= BootstrapRotations(g.rotations)
  {
    if |ops| > 0 {
      var front := ops[..|ops| - 1];
      AutoDisablesSpendRotations(c, configured, front);
      StepSpends(c, Run(c, configured, front), ops[|ops| - 1]);
    }
  }

  /** Within one process the cache leaves `Pending` once and keeps the value it left with. */
  lemma {:induction false} CacheLeavesPendingOnce(c: Config, p: Process, ops: seq<Op>)
    requires p.cache != Pending
    requires forall op :: op in ops ==> !op.Restart?
    ensures RunFrom(c, p, ops).cache == p.cache
  {
    if |ops| > 0 {
      CacheLeavesPendingOnce(c, p, ops[..|ops| - 1]);
    }
  }

  /**
   When a SIAM admin request does leave the bootstrap account disabled: exactly when this
   process had not looked before, or the account was not enabled anyway.
   */
  lemma WhenSiamLoginDisables(p: Process, username: string, now: real)
    requires p.configured
    ensures !Enabled(RequireAdmin(p, SiamCaller(username, true), now).0.gate, BOOTSTRAP_USERNAME)
       <==> p.cache == Pending || !Enabled(p.gate, BOOTSTRAP_USERNAME)
  {
  }

  /** So not every SIAM admin login disables it: one after look-then-rotate does not. */
  lemma RotationAfterLookSurvives(c: Config)
    ensures var siam := AdminRequest(SiamCaller("root", true), 0.0);
      Enabled(Run(c, true, [siam, RotateOp("admin", "pw", 1.0), siam]).gate, BOOTSTRAP_USERNAME)
  {
    var siam := AdminRequest(SiamCaller("root", true), 0.0);
    var ops := [siam, RotateOp("admin", "pw", 1.0), siam];
    var p0 := Started(EMPTY, true);
    assert ops[..2][..1][..0] == [];
    assert ops[..2][..1] == [siam] && ops[..2] == [siam, RotateOp("admin", "pw", 1.0)];
    var p1 := Step(c, p0, siam);
    assert RunFrom(c, p0, [siam]) == p1 by { assert [siam][..0] == []; }
    var p2 := Step(c, p1, ops[1]);
    assert RunFrom(c, p0, ops[..2]) == p2;
  }
}
