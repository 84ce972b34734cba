/**
 The break-glass admin account: rate limit, enable flag, timed lock, password. Argon2 is
 idealised (a hash verifies exactly the password it was made from). The limiter reads a
 monotonic clock, everything else the wall clock, so each call brings both readings.
 */
module LocalAdmin {
  import opened Wrappers
  import opened SlidingWindow

  const BOOTSTRAP_USERNAME := "admin"

  datatype Hash = Hash(password: string)

  datatype Config = Config(threshold: int, lockout: real, limit: int)

  datatype AdminRow = AdminRow(
    hash: Hash,
    enabled: bool,
    failedAttempts: int,
    lockedUntil: Option<real>,
    lastLoginAt: Option<real>,
    createdAt: real,
    rotatedAt: real,
    disabledAt: Option<real>,
    disabledBy: Option<string>)

  datatype Outcome =
    | RateLimited | NoSuchUser | AccountDisabled | LockedOut | BadPassword | Success
    | AutoDisabled

  datatype LoginEvent = LoginEvent(ts: real, username: string, clientIp: string, outcome: Outcome)

  datatype Rotation = Rotation(ts: real, username: string, previousExisted: bool)

  datatype Attempt = Attempt(username: string, password: string, clientIp: string, mono: real, now: real)

  datatype Token = Token(username: string)

  /** The rows are keyed by username; `events` and `rotations` only ever grow. */
  datatype Gate = Gate(
    rows: map<string, AdminRow>,
    buckets: Buckets,
    events: seq<LoginEvent>,
    rotations: seq<Rotation>)

  const EMPTY := Gate(map[], map[], [], [])

  function Logged(g: Gate, now: real, username: string, clientIp: string, outcome: Outcome): Gate {
    g.(events := g.events + [LoginEvent(now, username, clientIp, outcome)])
  }

  predicate Locked(row: AdminRow, now: real) {
    row.lockedUntil.Some? && row.lockedUntil.value > now
  }

  /** Both limiters in order: a refused address does not count against the user. */
  function RateCheck(c: Config, b: Buckets, a: Attempt): (Buckets, bool) {
    var (b1, ipOk) := Hit(c.limit, b, "ip:" + a.clientIp, a.mono);
    if !ipOk then (b1, false) else Hit(c.limit, b1, "user:" + a.username, a.mono)
  }

  function Verdict(g: Gate, a: Attempt): Outcome {
    if a.username !in g.rows then NoSuchUser
    else
      var row := g.rows[a.username];
      if !row.enabled then AccountDisabled
      else if Locked(row, a.now) then LockedOut
      else if row.hash != Hash(a.password) then BadPassword
      else Success
  }

  function Failed(c: Config, row: AdminRow, now: real): AdminRow {
    row.(failedAttempts := row.failedAttempts + 1,
         lockedUntil := if row.failedAttempts + 1 >= c.threshold then Some(now + c.lockout) else None)
  }

  function Succeeded(row: AdminRow, now: real): AdminRow {
    row.(failedAttempts := 0, lockedUntil := None, lastLoginAt := Some(now))
  }

  function AttemptLogin(c: Config, g: Gate, a: Attempt): (Gate, Outcome) {
    var (buckets, ok) := RateCheck(c, g.buckets, a);
    var g1 := g.(buckets := buckets);
    var outcome := if ok then Verdict(g, a) else RateLimited;
    var rows :=
      if outcome == BadPassword then g.rows[a.username := Failed(c, g.rows[a.username], a.now)]
      else if outcome == Success then g.rows[a.username := Succeeded(g.rows[a.username], a.now)]
      else g.rows;
    (Logged(g1.(rows := rows), a.now, a.username, a.clientIp, outcome), outcome)
  }

  predicate Enabled(g: Gate, username: string) {
    username in g.rows && g.rows[username].enabled
  }

  function DisableOnSiamLogin(g: Gate, siamUsername: string, now: real): (Gate, bool) {
    if !Enabled(g, BOOTSTRAP_USERNAME) then (g, false)
    else
      var row := g.rows[BOOTSTRAP_USERNAME].(
        enabled := false, disabledAt := Some(now), disabledBy := Some(siamUsername));
      (Logged(g.(rows := g.rows[BOOTSTRAP_USERNAME := row]), now, BOOTSTRAP_USERNAME, "-", AutoDisabled), true)
  }

  function Rotate(g: Gate, username: string, password: string, now: real): Gate {
    var existed := username in g.rows;
    var row := AdminRow(Hash(password), true, 0, None, None,
                        if existed then g.rows[username].createdAt else now, now, None, None);
    g.(rows := g.rows[username := row],
       rotations := g.rotations + [Rotation(now, username, existed)])
  }

  /** The service object: its database tables and its in-process limiter. */
  class LocalAdminService {
    const config: Config
    const rateLimit: SlidingWindowCounter
    var rows: map<string, AdminRow>
    var events: seq<LoginEvent>
    var rotations: seq<Rotation>

    ghost function State(): Gate
      reads this, rateLimit
    {
      Gate(rows, rateLimit.events, events, rotations)
    }

    constructor (config: Config)
      ensures State() == EMPTY
      ensures this.config == config && rateLimit.limit == config.limit
      ensures fresh(rateLimit)
    {
      this.config := config;
      rateLimit := new SlidingWindowCounter(config.limit);
      rows := map[];
      events := [];
      rotations := [];
    }

    method RecordLoginEvent(now: real, username: string, clientIp: string, outcome: Outcome)
      modifies this`events
      ensures State() == Logged(old(State()), now, username, clientIp, outcome)
    {
      events := events + [LoginEvent(now, username, clientIp, outcome)];
    }

    /** A token exactly on success; every failure looks the same to the caller. */
    method Login(a: Attempt) returns (token: Option<Token>)
      requires rateLimit.limit == config.limit
      modifies this, rateLimit
      ensures State() == AttemptLogin(config, old(State()), a).0
      ensures token == if AttemptLogin(config, old(State()), a).1 == Success then Some(Token(a.username)) else None
    {
      token := None;
      var ipOk := rateLimit.HitAndCheck("ip:" + a.clientIp, a.mono);
      if !ipOk {
        RecordLoginEvent(a.now, a.username, a.clientIp, RateLimited);
        return;
      }
      var userOk := rateLimit.HitAndCheck("user:" + a.username, a.mono);
      if !userOk {
        RecordLoginEvent(a.now, a.username, a.clientIp, RateLimited);
        return;
      }
      if a.username !in rows {
        RecordLoginEvent(a.now, a.username, a.clientIp, NoSuchUser);
        return;
      }
      var row := rows[a.username];
      if !row.enabled {
        RecordLoginEvent(a.now, a.username, a.clientIp, AccountDisabled);
        return;
      }
      if row.lockedUntil.Some? {
        if row.lockedUntil.value > a.now {
          RecordLoginEvent(a.now, a.username, a.clientIp, LockedOut);
          return;
        }
      }
      if row.hash != Hash(a.password) {
        RecordFailedAttempt(a.username, a.now);
        RecordLoginEvent(a.now, a.username, a.clientIp, BadPassword);
        return;
      }
      rows := rows[a.username := row.(failedAttempts := 0, lockedUntil := None, lastLoginAt := Some(a.now))];
      token := Some(Token(a.username));
      RecordLoginEvent(a.now, a.username, a.clientIp, Success);
    }

    method RecordFailedAttempt(username: string, now: real)
      requires username in rows
      modifies this`rows
      ensures rows == old(rows)[username := Failed(config, old(rows)[username], now)]
    {
      var attempts := rows[username].failedAttempts + 1;
      var lockedUntil := None;
      if attempts >= config.threshold {
        lockedUntil := Some(now + config.lockout);
      }
      rows := rows[username := rows[username].(failedAttempts := attempts, lockedUntil := lockedUntil)];
    }

    method DisableOnSiamAdminLogin(siamUsername: string, now: real) returns (transitioned: bool)
      modifies this
      ensures (State(), transitioned) == DisableOnSiamLogin(old(State()), siamUsername, now)
    {
      if BOOTSTRAP_USERNAME !in rows || !rows[BOOTSTRAP_USERNAME].enabled {
        return false;
      }
      var row := rows[BOOTSTRAP_USERNAME];
      row := row.(enabled := false, disabledAt := Some(now), disabledBy := Some(siamUsername));
      rows := rows[BOOTSTRAP_USERNAME := row];
      RecordLoginEvent(now, BOOTSTRAP_USERNAME, "-", AutoDisabled);
      return true;
    }

    method BootstrapSetPassword(username: string, password: string, now: real)
      modifies this
      ensures State() == Rotate(old(State()), username, password, now)
    {
      var existed := username in rows;
      var createdAt := now;
      if existed {
        createdAt := rows[username].createdAt;
      }
      rows := rows[username := AdminRow(Hash(password), true, 0, None, None, createdAt, now, None, None)];
      rotations := rotations + [Rotation(now, username, existed)];
    }
  }
}
