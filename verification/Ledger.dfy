/**
 The connection ledger: what one service call does to the tables. Rows are only ever
 inserted and updated in place, by row id; consent events are only appended. Sealing is
 ideal: an OAuth `state` is a position in the list of flows minted so far, and stored
 credentials and client secrets hold what they open to.
 */
module Ledger {
  import opened Wrappers
  import opened Registry
  import opened OAuthState
  import opened Envelope
  import RowIds
  import Siam
  import Integrations
  import Admin

  // ---- Tables ----

  datatype Status = StubConnected | Connected | Stale | Disconnected

  datatype Tokens = Tokens(access: string, refresh: Option<string>, expiresAt: int, scope: string)

  datatype Blob = Sealed(tokens: Tokens) | Unreadable

  datatype Row = Row(
    id: string,
    userSub: string,
    username: string,
    instanceId: string,
    num: nat,
    subject: string,
    displayLabel: string,
    privacy: string,
    creds: Option<Blob>,
    status: Status,
    connectedAt: int,
    disconnectedAt: Option<int>,
    revokedBy: Option<string>,
    healthy: Option<bool>)

  datatype Event = Event(
    ts: int, userSub: string, username: string, action: string,
    instanceId: string, num: nat, subject: string, privacy: string)

  datatype TokenCall =
    | Exchange(tenant: string, clientId: string, clientSecret: string, redirectUri: string, code: string,
        codeVerifier: string)
    | Refresh(tenant: string, clientId: string, clientSecret: string, refreshToken: string)

  datatype Hub = Hub(
    admin: Admin.Tables,
    rows: seq<Row>,
    events: seq<Event>,
    minted: seq<Flow>,
    calls: seq<TokenCall>)

  datatype Config = Config(env: Admin.Env, allowedRedirects: set<string>)

  datatype User = User(sub: string, username: string, roles: seq<string>)

  const GRANTED := "granted"
  const REVOKED := "revoked"
  const BY_DISABLE := "revoked-by-admin-disable"
  const BY_DELETE := "revoked-by-admin-delete"
  const BY_SIAM := "revoked-by-siam-change"
  const COMPANY := "company"

  datatype Refusal =
    | InstanceNotFound
    | InstanceDisabled
    | NotAuthorized
    | AlreadyConnected
    | NoActiveConnection
    | RedirectNotAllowed
    | AdapterNotImplemented
    | AdapterMisconfigured
    | MissingClientId
    | BadState(cause: StateError)
    | StateOfOtherUser
    | StateOfOtherInstance
    | ExchangeFailed
    | IdentityFailed

  predicate Active(r: Row) {
    r.disconnectedAt.None?
  }

  // ---- Queries and updates ----

  datatype Selector =
    | AllActive
    | OfUser(userSub: string, instanceId: string)
    | OfSubject(userSub: string, instanceId: string, subject: string)
    | OfInstance(instanceId: string)
    | Orphaned(previous: Siam.Mapping, current: Siam.Mapping)

  /** The `WHERE` clauses over active rows; the last one is the SIAM cascade's walk. */
  predicate Selects(sel: Selector, r: Row) {
    Active(r) &&
    match sel
    case AllActive => true
    case OfUser(u, i) => r.userSub == u && r.instanceId == i
    case OfSubject(u, i, s) => r.userSub == u && r.instanceId == i && r.subject == s
    case OfInstance(i) => r.instanceId == i
    case Orphaned(previous, current) =>
      !Siam.Mapped(current, r.instanceId) && Siam.Mapped(previous, r.instanceId)
  }

  function Query(rows: seq<Row>, sel: Selector): (r: seq<Row>)
    ensures forall x :: x in r <==> x in rows && Selects(sel, x)
  {
    if |rows| == 0 then []
    else
      var last := rows[|rows| - 1];
      assert rows == rows[..|rows| - 1] + [last];
      Query(rows[..|rows| - 1], sel) + if Selects(sel, last) then [last] else []
  }

  datatype Patch =
    | UserRevoke(ts: int)
    | CascadeRevoke(ts: int, reason: string)
    | MarkStale
    | StoreTokens(tokens: Tokens)

  function ApplyPatch(r: Row, p: Patch): Row {
    match p
    case UserRevoke(ts) => r.(status := Disconnected, disconnectedAt := Some(ts))
    case CascadeRevoke(ts, reason) =>
      r.(status := Disconnected, disconnectedAt := Some(ts), creds := None, revokedBy := Some(reason))
    case MarkStale => r.(status := Stale)
    case StoreTokens(tokens) => r.(creds := Some(Sealed(tokens)))
  }

  function Ids(rows: seq<Row>): set<string> {
    set r | r in rows :: r.id
  }

  /** `UPDATE ... WHERE id = :id` for each of `ids`: it reaches every row carrying one of them. */
  function Patched(rows: seq<Row>, ids: set<string>, p: Patch): (r: seq<Row>)
    ensures |r| == |rows|
  {
    seq(|rows|, i requires 0 <= i < |rows| => if rows[i].id in ids then ApplyPatch(rows[i], p) else rows[i])
  }

  function RowById(rows: seq<Row>, id: string): Option<Row> {
    if |rows| == 0 then None
    else
      var before := RowById(rows[..|rows| - 1], id);
      if before.Some? then before
      else if rows[|rows| - 1].id == id then Some(rows[|rows| - 1])
      else None
  }

  /** `max(connection_seq) + 1` over the user's rows on the instance, or 0. */
  function NextNum(rows: seq<Row>, userSub: string, instanceId: string): nat {
    if |rows| == 0 then 0
    else
      var before := NextNum(rows[..|rows| - 1], userSub, instanceId);
      var last := rows[|rows| - 1];
      if last.userSub == userSub && last.instanceId == instanceId && last.num >= before then last.num + 1
      else before
  }

  function EventOf(r: Row, ts: int, username: string, action: string): Event {
    Event(ts, r.userSub, username, action, r.instanceId, r.num, r.subject, r.privacy)
  }

  /** One event per row; `who` is the calling user's name when a user acts. */
  function EventsOf(rows: seq<Row>, ts: int, who: Option<string>, action: string): seq<Event> {
    seq(|rows|, i requires 0 <= i < |rows| =>
      EventOf(rows[i], ts, if who.Some? then who.value else rows[i].username, action))
  }

  function RevokeSelected(h: Hub, sel: Selector, p: Patch, ts: int, who: Option<string>, action: string): Hub {
    var hit := Query(h.rows, sel);
    h.(rows := Patched(h.rows, Ids(hit), p), events := h.events + EventsOf(hit, ts, who, action))
  }

  // ---- Gates ----

  /** Gate 1 (exists, enabled) and gate 2 (some role of the user is mapped to it). */
  function Gate(t: Admin.Tables, user: User, instanceId: string): Option<Refusal> {
    if instanceId !in t.instances then Some(InstanceNotFound)
    else if !t.instances[instanceId].enabled then Some(InstanceDisabled)
    else if !Siam.Authorized(Admin.Mapping(t), user.roles, instanceId) then Some(NotAuthorized)
    else None
  }

  function PublicOf(doc: Integrations.Instance, name: string): string {
    if name in doc.public then doc.public[name] else ""
  }

  function ClientSecret(doc: Integrations.Instance): string {
    if "client_secret" in doc.secrets then doc.secrets["client_secret"].plaintext else ""
  }

  /** `build_adapter_for_instance`: only `outlook-graph` has one; its tenant names the endpoints. */
  function AdapterTenant(doc: Integrations.Instance): Result<string, Refusal> {
    if doc.typ != OUTLOOK_GRAPH then Err(AdapterNotImplemented)
    else if PublicOf(doc, "tenant_id") == "" then Err(AdapterMisconfigured)
    else Ok(PublicOf(doc, "tenant_id"))
  }

  // ---- User calls ----

  function NewRow(h: Hub, user: User, instanceId: string, subject: string, displayLabel: string, privacy: string,
                  creds: Option<Blob>, status: Status, healthy: Option<bool>, now: int): Row {
    var num := NextNum(h.rows, user.sub, instanceId);
    Row(RowIds.RowId(user.sub, instanceId, num), user.sub, user.username, instanceId, num, subject, displayLabel,
        privacy, creds, status, now, None, None, healthy)
  }

  function InsertRow(h: Hub, row: Row, now: int): Hub {
    h.(rows := h.rows + [row], events := h.events + [EventOf(row, now, row.username, GRANTED)])
  }

  function Grant(h: Hub, user: User, instanceId: string, privacy: string, subject: string, displayLabel: string,
                 now: int)
    : (Hub, Result<Row, Refusal>)
  {
    match Gate(h.admin, user, instanceId)
    case Some(refusal) => (h, Err(refusal))
    case None =>
      if Query(h.rows, OfSubject(user.sub, instanceId, subject)) != [] then (h, Err(AlreadyConnected))
      else
        var row := NewRow(h, user, instanceId, subject, displayLabel, privacy, None, StubConnected, None, now);
        (InsertRow(h, row, now), Ok(row))
  }

  function RevokeSelector(user: User, instanceId: string, subject: Option<string>): Selector {
    if subject.None? then OfUser(user.sub, instanceId) else OfSubject(user.sub, instanceId, subject.value)
  }

  function Revoke(h: Hub, user: User, instanceId: string, subject: Option<string>, now: int)
    : (Hub, Result<(), Refusal>)
  {
    var sel := RevokeSelector(user, instanceId, subject);
    if Query(h.rows, sel) == [] then (h, Err(NoActiveConnection))
    else (RevokeSelected(h, sel, UserRevoke(now), now, Some(user.username), REVOKED), Ok(()))
  }

  /** The authorization request: the S256 challenge is kept as the verifier it is made from. */
  datatype AuthRequest = AuthRequest(
    tenant: string, clientId: string, redirectUri: string, state: nat, challengeOf: string)

  function Initiate(c: Config, h: Hub, user: User, instanceId: string, redirectUri: string,
                    codeVerifier: string, nonce: string, now: int): (Hub, Result<AuthRequest, Refusal>)
  {
    match Gate(h.admin, user, instanceId)
    case Some(refusal) => (h, Err(refusal))
    case None =>
      if redirectUri !in c.allowedRedirects then (h, Err(RedirectNotAllowed))
      else
        var doc := h.admin.instances[instanceId];
        match AdapterTenant(doc)
        case Err(refusal) => (h, Err(refusal))
        case Ok(tenant) =>
          if PublicOf(doc, "client_id") == "" then (h, Err(MissingClientId))
          else
            var flow := Flow(user.sub, instanceId, nonce, now, codeVerifier, redirectUri);
            (h.(minted := h.minted + [flow]),
             Ok(AuthRequest(tenant, PublicOf(doc, "client_id"), redirectUri, |h.minted|, codeVerifier)))
  }

  datatype TokenResponse = TokenResponse(access: string, refresh: Option<string>, expiresIn: Option<int>, scope: string)

  datatype GraphMe = GraphMe(mail: string, userPrincipalName: string, displayName: string)

  /** What the identity provider answers during one call; `None` is any failure. */
  datatype IdpAnswers = IdpAnswers(token: Option<TokenResponse>, me: Option<GraphMe>, healthy: bool)

  function TokensFrom(response: TokenResponse, now: int): Tokens {
    Tokens(response.access, response.refresh,
           now + (if response.expiresIn.Some? then response.expiresIn.value else 3600), response.scope)
  }

  function SubjectOf(me: GraphMe): string {
    if me.mail != "" then me.mail else me.userPrincipalName
  }

  function LabelOf(me: GraphMe): string {
    if me.displayName != "" then me.displayName else SubjectOf(me)
  }

  /** Open the state and run the checks that come before any table is read. */
  function OpenState(h: Hub, user: User, instanceId: string, state: nat, now: int): Result<Flow, Refusal> {
    if state >= |h.minted| then Err(BadState(DecryptionFailed(InvalidTag)))
    else match CheckAge(h.minted[state], MAX_AGE, now)
      case Err(e) => Err(BadState(e))
      case Ok(flow) =>
        if flow.userSub != user.sub then Err(StateOfOtherUser)
        else if flow.instanceId != instanceId then Err(StateOfOtherInstance)
        else Ok(flow)
  }

  function ExchangeCall(doc: Integrations.Instance, tenant: string, flow: Flow, code: string): TokenCall {
    Exchange(tenant, PublicOf(doc, "client_id"), ClientSecret(doc), flow.redirectUri, code, flow.codeVerifier)
  }

  function Complete(h: Hub, user: User, instanceId: string, code: string, state: nat, provider: IdpAnswers, now: int)
    : (Hub, Result<Row, Refusal>)
  {
    match OpenState(h, user, instanceId, state, now)
    case Err(refusal) => (h, Err(refusal))
    case Ok(flow) =>
      match Gate(h.admin, user, instanceId)
      case Some(refusal) => (h, Err(refusal))
      case None =>
        var doc := h.admin.instances[instanceId];
        match AdapterTenant(doc)
        case Err(refusal) => (h, Err(refusal))
        case Ok(tenant) =>
          if PublicOf(doc, "client_id") == "" then (h, Err(MissingClientId))
          else Redeem(h.(calls := h.calls + [ExchangeCall(doc, tenant, flow, code)]), user, instanceId, provider, now)
  }

  /** From the token endpoint's answer on. */
  function Redeem(h: Hub, user: User, instanceId: string, provider: IdpAnswers, now: int): (Hub, Result<Row, Refusal>) {
    if provider.token.None? then (h, Err(ExchangeFailed))
    else if provider.me.None? || SubjectOf(provider.me.value) == "" then (h, Err(IdentityFailed))
    else
      var subject := SubjectOf(provider.me.value);
      if Query(h.rows, OfSubject(user.sub, instanceId, subject)) != [] then (h, Err(AlreadyConnected))
      else
        var creds := Some(Sealed(TokensFrom(provider.token.value, now)));
        var row := NewRow(h, user, instanceId, subject, LabelOf(provider.me.value), COMPANY,
                          creds, Connected, Some(provider.healthy), now);
        (InsertRow(h, row, now), Ok(row))
  }

  // ---- Token retrieval ----

  /** The usable row of an id: connected, with credentials. */
  function UsableRow(rows: seq<Row>, id: string): Option<Row> {
    match RowById(rows, id)
    case None => None
    case Some(row) => if row.status == Connected && row.creds.Some? then Some(row) else None
  }

  /** The refresh request for a row, if one can be made at all. */
  function RefreshCall(t: Admin.Tables, row: Row, tokens: Tokens): Option<TokenCall> {
    if tokens.refresh.None? || row.instanceId !in t.instances then None
    else
      var doc := t.instances[row.instanceId];
      match AdapterTenant(doc)
      case Err(_) => None
      case Ok(tenant) => Some(Refresh(tenant, PublicOf(doc, "client_id"), ClientSecret(doc), tokens.refresh.value))
  }

  function PatchId(h: Hub, id: string, p: Patch): Hub {
    h.(rows := Patched(h.rows, {id}, p))
  }

  function FetchToken(h: Hub, id: string, skew: int, response: Option<TokenResponse>, now: int): (Hub, Option<string>) {
    match UsableRow(h.rows, id)
    case None => (h, None)
    case Some(row) =>
      if row.creds.value.Unreadable? then (PatchId(h, row.id, MarkStale), None)
      else
        var tokens := row.creds.value.tokens;
        if tokens.expiresAt - skew > now then (h, Some(tokens.access))
        else RefreshTokens(h, row, tokens, response, now)
  }

  function RefreshTokens(h: Hub, row: Row, tokens: Tokens, response: Option<TokenResponse>, now: int)
    : (Hub, Option<string>)
  {
    match RefreshCall(h.admin, row, tokens)
    case None => (PatchId(h, row.id, MarkStale), None)
    case Some(call) =>
      var called := h.(calls := h.calls + [call]);
      if response.None? then (PatchId(called, row.id, MarkStale), None)
      else
        var fresh' := TokensFrom(response.value, now);
        (PatchId(called, row.id, StoreTokens(fresh')), Some(fresh'.access))
  }

  // ---- Admin calls with their cascades ----

  function RevokeAllForInstance(h: Hub, instanceId: string, reason: string, now: int): (Hub, nat) {
    (RevokeSelected(h, OfInstance(instanceId), CascadeRevoke(now, reason), now, None, reason),
     |Query(h.rows, OfInstance(instanceId))|)
  }

  function RevokeNoLongerAuthorized(h: Hub, previous: Siam.Mapping, current: Siam.Mapping, now: int): (Hub, nat) {
    (RevokeSelected(h, Orphaned(previous, current), CascadeRevoke(now, BY_SIAM), now, None, BY_SIAM),
     |Query(h.rows, Orphaned(previous, current))|)
  }

  function EnabledIn(t: Admin.Tables, id: string): bool {
    id in t.instances && t.instances[id].enabled
  }

  function AdminStep(c: Config, h: Hub, op: Admin.Op, now: int): Hub {
    var h1 := h.(admin := Admin.Step(c.env, h.admin, op, now));
    match op
    case UpdateInstance(_, id, _) =>
      if EnabledIn(h.admin, id) && !EnabledIn(h1.admin, id) then RevokeAllForInstance(h1, id, BY_DISABLE, now).0 else h1
    case DeleteInstance(_, id) =>
      if id in h.admin.instances then RevokeAllForInstance(h1, id, BY_DELETE, now).0 else h1
    case ReplaceMapping(_, _) =>
      var before, after := Admin.Mapping(h.admin), Admin.Mapping(h1.admin);
      if before != after then RevokeNoLongerAuthorized(h1, before, after, now).0 else h1
    case _ => h1
  }

  // ---- Runs ----

  datatype Op =
    | GrantOp(user: User, instanceId: string, privacy: string, subject: string, displayLabel: string, now: int)
    | RevokeOp(user: User, instanceId: string, only: Option<string>, now: int)
    | InitiateOp(user: User, instanceId: string, redirectUri: string, codeVerifier: string, nonce: string, now: int)
    | CompleteOp(user: User, instanceId: string, code: string, state: nat, provider: IdpAnswers, now: int)
    | FetchTokenOp(id: string, skew: int, response: Option<TokenResponse>, now: int)
    | AdminOp(op: Admin.Op, now: int)

  function Step(c: Config, h: Hub, op: Op): Hub {
    match op
    case GrantOp(u, i, p, s, l, now) => Grant(h, u, i, p, s, l, now).0
    case RevokeOp(u, i, only, now) => Revoke(h, u, i, only, now).0
    case InitiateOp(u, i, redirect, verifier, nonce, now) => Initiate(c, h, u, i, redirect, verifier, nonce, now).0
    case CompleteOp(u, i, code, state, provider, now) => Complete(h, u, i, code, state, provider, now).0
    case FetchTokenOp(id, skew, response, now) => FetchToken(h, id, skew, response, now).0
    case AdminOp(op, now) => AdminStep(c, h, op, now)
  }

  /** Empty tables, but for the seeded LLM row. */
  function Init(llm: map<string, Admin.Llm.Stored>): Hub {
    Hub(Admin.Tables(map[], None, llm, []), [], [], [], [])
  }

  function RunFrom(c: Config, h: Hub, ops: seq<Op>): Hub {
    if |ops| == 0 then h else Step(c, RunFrom(c, h, ops[..|ops| - 1]), ops[|ops| - 1])
  }

  function Run(c: Config, llm: map<string, Admin.Llm.Stored>, ops: seq<Op>): Hub {
    RunFrom(c, Init(llm), ops)
  }
}
