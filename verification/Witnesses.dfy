/** Concrete runs that show where a natural claim about the hub fails. */
module Witnesses {
  import opened Wrappers
  import opened Registry
  import opened JsonText
  import opened OAuthState
  import opened Ledger
  import opened LedgerInvariants
  import opened SharedIds
  import opened LedgerRuns
  import opened Lifecycle
  import opened Reconnect
  import RowIds
  import Siam
  import Integrations
  import Admin
  import Conservation
  import OAuthRuns

  const ADMIN := Integrations.Actor("root", "root")

  /** One enabled instance, and a role mapping. */
  function SetUp(id: string, typ: string, config: Integrations.Config, mapping: Json): seq<Op> {
    [AdminOp(SetUpCreate(id, typ, config), 0)] + [AdminOp(Admin.ReplaceMapping(ADMIN, mapping), 0)]
  }

  lemma RunSnoc(c: Config, llm: LlmRow, ops: seq<Op>, op: Op)
    ensures Run(c, llm, ops + [op]) == Step(c, Run(c, llm, ops), op)
  {
    assert (ops + [op])[..|ops|] == ops;
  }

  predicate Empty(h: Hub) {
    h.rows == [] && h.events == [] && h.minted == [] && h.calls == []
  }

  /** The instance open, the mapping in force, and nothing else anywhere. */
  ghost predicate Ready(h: Hub, id: string, typ: string, config: Integrations.Config, mapping: Json) {
    && Empty(h)
    && Created(h.admin, id, typ, config)
    && Admin.Mapping(h.admin) == Siam.Normalize(mapping)
  }

  lemma EmptyTablesStayEmpty(c: Config, h: Hub, op: Admin.Op, now: int)
    requires Empty(h)
    ensures Empty(AdminStep(c, h, op, now))
    ensures AdminStep(c, h, op, now).admin == Admin.Step(c.env, h.admin, op, now)
  {
  }

  function SetUpCreate(id: string, typ: string, config: Integrations.Config): Admin.Op {
    Admin.CreateInstance(ADMIN, Integrations.CreateRequest(id, typ, "", config, false, true))
  }

  /** The instance table after the create. */
  ghost predicate Created(t: Admin.Tables, id: string, typ: string, config: Integrations.Config) {
    && id in t.instances && t.instances[id].enabled && t.instances[id].typ == typ
    && GetType(typ).Some?
    && t.instances[id].public == Integrations.PublicPart(GetType(typ).value.fields, config)
  }

  lemma CreateOpens(env: Admin.Env, t: Admin.Tables, id: string, typ: string, config: Integrations.Config)
    requires t.instances == map[]
    requires GetType(typ).Some? && Integrations.SplitConfig(GetType(typ).value.fields, config).Ok?
    ensures Created(Admin.Step(env, t, SetUpCreate(id, typ, config), 0), id, typ, config)
  {
    Admin.StepInstances(env, t, SetUpCreate(id, typ, config), 0);
  }

  lemma ReplaceMaps(env: Admin.Env, t: Admin.Tables, id: string, typ: string, config: Integrations.Config,
                    mapping: Json, now: int)
    requires Created(t, id, typ, config)
    ensures var t1 := Admin.Step(env, t, Admin.ReplaceMapping(ADMIN, mapping), now);
      Created(t1, id, typ, config) && t1.instances == t.instances && Admin.Mapping(t1) == Siam.Normalize(mapping)
  {
    Siam.NormalizeIsIdempotent(mapping);
    Admin.StepInstances(env, t, Admin.ReplaceMapping(ADMIN, mapping), now);
  }

  lemma RunAdmin(c: Config, llm: LlmRow, ops: seq<Op>, op: Admin.Op, now: int)
    ensures Run(c, llm, ops + [AdminOp(op, now)]) == AdminStep(c, Run(c, llm, ops), op, now)
  {
    RunSnoc(c, llm, ops, AdminOp(op, now));
  }

  lemma AdminOnEmpty(c: Config, llm: LlmRow, ops: seq<Op>, op: Admin.Op, now: int)
    requires Empty(Run(c, llm, ops))
    ensures var h := Run(c, llm, ops + [AdminOp(op, now)]);
      Empty(h) && h.admin == Admin.Step(c.env, Run(c, llm, ops).admin, op, now)
  {
    RunAdmin(c, llm, ops, op, now);
    EmptyTablesStayEmpty(c, Run(c, llm, ops), op, now);
  }

  lemma AfterCreate(c: Config, llm: LlmRow, id: string, typ: string, config: Integrations.Config)
    requires GetType(typ).Some? && Integrations.SplitConfig(GetType(typ).value.fields, config).Ok?
    ensures var h := Run(c, llm, [AdminOp(SetUpCreate(id, typ, config), 0)]);
      Empty(h) && Created(h.admin, id, typ, config)
  {
    AdminOnEmpty(c, llm, [], SetUpCreate(id, typ, config), 0);
    assert [] + [AdminOp(SetUpCreate(id, typ, config), 0)] == [AdminOp(SetUpCreate(id, typ, config), 0)];
    CreateOpens(c.env, Init(llm).admin, id, typ, config);
  }

  lemma AfterReplace(c: Config, llm: LlmRow, ops: seq<Op>, id: string, typ: string, config: Integrations.Config,
                     mapping: Json)
    requires var h := Run(c, llm, ops); Empty(h) && Created(h.admin, id, typ, config)
    ensures Ready(Run(c, llm, ops + [AdminOp(Admin.ReplaceMapping(ADMIN, mapping), 0)]), id, typ, config, mapping)
  {
    AdminOnEmpty(c, llm, ops, Admin.ReplaceMapping(ADMIN, mapping), 0);
    ReplaceMaps(c.env, Run(c, llm, ops).admin, id, typ, config, mapping, 0);
  }

  lemma SetUpIsReady(c: Config, llm: LlmRow, id: string, typ: string, config: Integrations.Config, mapping: Json)
    requires GetType(typ).Some? && Integrations.SplitConfig(GetType(typ).value.fields, config).Ok?
    ensures Ready(Run(c, llm, SetUp(id, typ, config, mapping)), id, typ, config, mapping)
  {
    AfterCreate(c, llm, id, typ, config);
    AfterReplace(c, llm, [AdminOp(SetUpCreate(id, typ, config), 0)], id, typ, config, mapping);
  }

  /** The instance listed under each of the roles. */
  function Listing(roles: set<string>, id: string): Json {
    JObject(map role | role in roles :: JList([JString(id)]))
  }

  lemma ListingMaps(roles: set<string>, id: string, user: User)
    ensures Siam.Mapped(Siam.Normalize(Listing(roles, id)), id) <==> roles != {}
    ensures Siam.Authorized(Siam.Normalize(Listing(roles, id)), user.roles, id)
       <==> exists role :: role in user.roles && role in roles
  {
    var m := Siam.Normalize(Listing(roles, id));
    assert m.Keys == roles;
    forall role | role in roles ensures id in m[role] {
      assert JString(id) in Listing(roles, id).fields[role].items;
    }
    if roles != {} {
      var role :| role in roles;
      assert role in m && id in m[role];
    }
  }

  // ---- The SIAM cascade and the owner's roles ----

  lemma AfterGrant(c: Config, llm: LlmRow, ops: seq<Op>, user: User, id: string, now: int) returns (row: Row)
    requires var h := Run(c, llm, ops); h.rows == [] && Gate(h.admin, user, id) == None
    ensures var h := Run(c, llm, ops + [GrantOp(user, id, COMPANY, "", "", now)]);
      h.rows == [row] && h.admin == Run(c, llm, ops).admin
    ensures Active(row) && row.userSub == user.sub && row.instanceId == id
  {
    row := Conservation.FirstGrant(Run(c, llm, ops), user, id, now);
    RunSnoc(c, llm, ops, GrantOp(user, id, COMPANY, "", "", now));
  }

  lemma AfterLosing(c: Config, llm: LlmRow, ops: seq<Op>, row: Row, user: User, typ: string,
                    config: Integrations.Config,
                    mapping: Json, now: int)
    requires var h := Run(c, llm, ops); h.rows == [row] && Created(h.admin, row.instanceId, typ, config)
    requires Siam.Mapped(Siam.Normalize(mapping), row.instanceId)
    requires !Siam.Authorized(Siam.Normalize(mapping), user.roles, row.instanceId)
    ensures var h := Run(c, llm, ops + [AdminOp(Admin.ReplaceMapping(ADMIN, mapping), now)]);
      h.rows == [row] && Gate(h.admin, user, row.instanceId) == Some(NotAuthorized)
  {
    RunAdmin(c, llm, ops, Admin.ReplaceMapping(ADMIN, mapping), now);
    RowSurvivesReplace(c, Run(c, llm, ops), row, user, typ, config, mapping, now);
  }

  /**
   A user with role A is granted a connection; then the instance is taken from role A and
   left to role B. The connection stays active, although the user may no longer make it.
   */
  lemma OwnerLosesRoleKeepsRow(c: Config, llm: LlmRow, user: User)
    requires user.roles == ["A"]
    ensures var ops := SetUp("i", "outlook-edge-com", map[], Listing({"A", "B"}, "i"))
        + [GrantOp(user, "i", COMPANY, "", "", 1)]
        + [AdminOp(Admin.ReplaceMapping(ADMIN, Listing({"B"}, "i")), 2)];
      var h := Run(c, llm, ops);
      && |h.rows| == 1 && Active(h.rows[0]) && h.rows[0].userSub == user.sub && h.rows[0].instanceId == "i"
      && Gate(h.admin, user, "i") == Some(NotAuthorized)
  {
    var ops0 := SetUp("i", "outlook-edge-com", map[], Listing({"A", "B"}, "i"));
    EmptyConfigIsAccepted();
    SetUpIsReady(c, llm, "i", "outlook-edge-com", map[], Listing({"A", "B"}, "i"));
    ListingMaps({"A", "B"}, "i", user);
    ListingMaps({"B"}, "i", user);
    assert user.roles[0] == "A" && "A" in {"A", "B"} && "B" in {"B"};
    var row := AfterGrant(c, llm, ops0, user, "i", 1);
    AfterLosing(c, llm, ops0 + [GrantOp(user, "i", COMPANY, "", "", 1)], row, user, "outlook-edge-com", map[],
        Listing({"B"}, "i"), 2);
  }

  lemma EmptyConfigIsAccepted()
    ensures GetType("outlook-edge-com").Some?
    ensures Integrations.SplitConfig(GetType("outlook-edge-com").value.fields, map[]).Ok?
  {
    assert GetType("outlook-edge-com").value.fields == [];
  }

  lemma MappedRowSurvives(c: Config, h: Hub, row: Row, mapping: Json, now: int)
    requires h.rows == [row] && Siam.Mapped(Siam.Normalize(mapping), row.instanceId)
    ensures AdminStep(c, h, Admin.ReplaceMapping(ADMIN, mapping), now).rows == [row]
  {
    assert !Selects(Orphaned(Admin.Mapping(h.admin), Siam.Normalize(mapping)), row);
    assert OwnId(h.rows, 0);
    ReplaceOnOwnRow(c, h, ADMIN, mapping, now, 0);
  }

  lemma GateIsShut(env: Admin.Env, t: Admin.Tables, user: User, id: string, typ: string, config: Integrations.Config,
                   mapping: Json, now: int)
    requires Created(t, id, typ, config) && !Siam.Authorized(Siam.Normalize(mapping), user.roles, id)
    ensures Gate(Admin.Step(env, t, Admin.ReplaceMapping(ADMIN, mapping), now), user, id) == Some(NotAuthorized)
  {
    ReplaceMaps(env, t, id, typ, config, mapping, now);
  }

  lemma RowSurvivesReplace(c: Config, h: Hub, row: Row, user: User, typ: string, config: Integrations.Config,
                           mapping: Json, now: int)
    requires h.rows == [row] && Created(h.admin, row.instanceId, typ, config)
    requires Siam.Mapped(Siam.Normalize(mapping), row.instanceId)
    requires !Siam.Authorized(Siam.Normalize(mapping), user.roles, row.instanceId)
    ensures var h' := AdminStep(c, h, Admin.ReplaceMapping(ADMIN, mapping), now);
      h'.rows == [row] && Gate(h'.admin, user, row.instanceId) == Some(NotAuthorized)
  {
    MappedRowSurvives(c, h, row, mapping, now);
    AdminFades(c, h, Admin.ReplaceMapping(ADMIN, mapping), now);
    GateIsShut(c.env, h.admin, user, row.instanceId, typ, config, mapping, now);
  }

  // ---- A stale row still holds its account ----

  const GRAPH_CONFIG: Integrations.Config := map["tenant_id" := Some("t"), "client_id" := Some("c")]

  /** An access token that lives for 0 s, and an account. */
  const ANSWERS := IdpAnswers(Some(TokenResponse("at", Some("rt"), Some(0), "s")), Some(GraphMe("m", "", "")), true)

  lemma GraphConfigIsAccepted()
    ensures var fields := GetType(OUTLOOK_GRAPH).value.fields;
      && Integrations.SplitConfig(fields, GRAPH_CONFIG).Ok?
      && Integrations.PublicPart(fields, GRAPH_CONFIG) == map["tenant_id" := "t", "client_id" := "c"]
  {
    var fields := GetType(OUTLOOK_GRAPH).value.fields;
    assert fields[0].name == "tenant_id" && fields[1].name == "client_id" && fields[2].name == "client_secret";
    assert fields[0] in fields && fields[1] in fields;
    assert IsPublic(fields, "tenant_id") && IsPublic(fields, "client_id");
    assert {"tenant_id", "client_id"} <= Integrations.FieldNames(fields);
    assert GRAPH_CONFIG.Keys == {"tenant_id", "client_id"};
    assert forall f :: f in fields ==> !Integrations.IsMissing(f, GRAPH_CONFIG);
  }

  function StaleRun(user: User): seq<Op> {
    SetUp("i", OUTLOOK_GRAPH, GRAPH_CONFIG, Listing({"A"}, "i"))
    + [InitiateOp(user, "i", "r", "v", "n", 0)]
    + [CompleteOp(user, "i", "code", 0, ANSWERS, 10)]
    + [FetchTokenOp(RowIds.RowId(user.sub, "i", 0), 60, None, 20)]
  }

  /**
   A user connects, the token runs out, its one refresh fails, and the row is stale; the next
   callback for the same account is refused, with everything else in order.
   */
  lemma StaleRowBlocksReconnect(c: Config, llm: LlmRow, user: User)
    requires user.roles == ["A"] && "r" in c.allowedRedirects
    ensures var h := Run(c, llm, StaleRun(user));
      && |h.rows| == 1 && h.rows[0].status == Stale
      && InOrder(h, user, "i", 0, ANSWERS, 30)
      && Complete(h, user, "i", "code", 0, ANSWERS, 30).1 == Err(AlreadyConnected)
  {
    var ops0 := SetUp("i", OUTLOOK_GRAPH, GRAPH_CONFIG, Listing({"A"}, "i"));
    GraphConfigIsAccepted();
    SetUpIsReady(c, llm, "i", OUTLOOK_GRAPH, GRAPH_CONFIG, Listing({"A"}, "i"));
    ListingMaps({"A"}, "i", user);
    assert user.roles[0] == "A" && "A" in {"A"};
    MintsFirst(c, llm, ops0, user);
    var ops1 := ops0 + [InitiateOp(user, "i", "r", "v", "n", 0)];
    var row := ConnectsFirst(c, llm, ops1, user);
    var ops2 := ops1 + [CompleteOp(user, "i", "code", 0, ANSWERS, 10)];
    GoesStaleFirst(c, llm, ops2, row);
    HeldIsRefused(Run(c, llm, StaleRun(user)), row.(status := Stale), user);
  }

  lemma HeldIsRefused(h: Hub, row: Row, user: User)
    requires GraphOpen(h, user) && h.rows == [row] && h.minted == [Flow(user.sub, "i", "n", 0, "v", "r")]
    requires Active(row) && row.userSub == user.sub && row.instanceId == "i" && row.subject == "m"
    ensures InOrder(h, user, "i", 0, ANSWERS, 30)
    ensures Complete(h, user, "i", "code", 0, ANSWERS, 30).1 == Err(AlreadyConnected)
  {
    assert OpenState(h, user, "i", 0, 30) == Ok(h.minted[0]);
    assert row in h.rows;
    ReconnectRefusedIffHeld(h, user, "i", "code", 0, ANSWERS, 30);
  }

  ghost predicate GraphOpen(h: Hub, user: User) {
    && Gate(h.admin, user, "i") == None
    && h.admin.instances["i"].typ == OUTLOOK_GRAPH
    && h.admin.instances["i"].public == map["tenant_id" := "t", "client_id" := "c"]
  }

  lemma MintsFirst(c: Config, llm: LlmRow, ops: seq<Op>, user: User)
    requires var h := Run(c, llm, ops); GraphOpen(h, user) && h.rows == [] && h.minted == []
    requires "r" in c.allowedRedirects
    ensures var h, h' := Run(c, llm, ops), Run(c, llm, ops + [InitiateOp(user, "i", "r", "v", "n", 0)]);
      h'.rows == [] && h'.admin == h.admin && h'.minted == [Flow(user.sub, "i", "n", 0, "v", "r")]
  {
    RunSnoc(c, llm, ops, InitiateOp(user, "i", "r", "v", "n", 0));
  }

  lemma AnswersConnect(h: Hub, user: User) returns (row: Row)
    requires GraphOpen(h, user) && h.rows == [] && h.minted == [Flow(user.sub, "i", "n", 0, "v", "r")]
    ensures var h' := Complete(h, user, "i", "code", 0, ANSWERS, 10).0;
      h'.rows == [row] && h'.admin == h.admin && h'.minted == h.minted
    ensures row.id == RowIds.RowId(user.sub, "i", 0) && row.userSub == user.sub && row.instanceId == "i"
    ensures row.subject == "m" && row.status == Connected && Active(row)
    ensures row.creds == Some(Sealed(Tokens("at", Some("rt"), 10, "s")))
  {
    assert OpenState(h, user, "i", 0, 10) == Ok(h.minted[0]);
    assert Query(h.rows, OfSubject(user.sub, "i", "m")) == [];
    row := Complete(h, user, "i", "code", 0, ANSWERS, 10).1.value;
  }

  lemma ConnectsFirst(c: Config, llm: LlmRow, ops: seq<Op>, user: User) returns (row: Row)
    requires var h := Run(c, llm, ops);
      GraphOpen(h, user) && h.rows == [] && h.minted == [Flow(user.sub, "i", "n", 0, "v", "r")]
    ensures var h, h' := Run(c, llm, ops), Run(c, llm, ops + [CompleteOp(user, "i", "code", 0, ANSWERS, 10)]);
      h'.rows == [row] && h'.admin == h.admin && h'.minted == h.minted
    ensures row.id == RowIds.RowId(user.sub, "i", 0) && row.userSub == user.sub && row.instanceId == "i"
    ensures row.subject == "m" && row.status == Connected && Active(row)
    ensures row.creds == Some(Sealed(Tokens("at", Some("rt"), 10, "s")))
  {
    RunSnoc(c, llm, ops, CompleteOp(user, "i", "code", 0, ANSWERS, 10));
    row := AnswersConnect(Run(c, llm, ops), user);
  }

  lemma GoesStaleFirst(c: Config, llm: LlmRow, ops: seq<Op>, row: Row)
    requires Run(c, llm, ops).rows == [row] && row.status == Connected
    requires row.creds == Some(Sealed(Tokens("at", Some("rt"), 10, "s")))
    ensures var h, h' := Run(c, llm, ops), Run(c, llm, ops + [FetchTokenOp(row.id, 60, None, 20)]);
      h'.rows == [row.(status := Stale)] && h'.admin == h.admin && h'.minted == h.minted
  {
    var h := Run(c, llm, ops);
    RunSnoc(c, llm, ops, FetchTokenOp(row.id, 60, None, 20));
    assert OwnId(h.rows, 0);
    FetchAnswers(h, 0, 60, None, 20);
    FetchTokenFades(h, row.id, 60, None, 20);
    OAuthRuns.FetchKeepsMinted(h, row.id, 60, None, 20);
  }

  // ---- A token fetch that reaches another user's row ----

  /**
   User `a` is connected on instance `b:c`, user `a:b` has a stub on instance `c`, and the
   two rows share their id. A failed refresh for the first turns the second stale too: a
   stale row that never had credentials.
   */
  lemma CollidingFetchReachesOtherUser(h: Hub, mine: Row, theirs: User, now: int, skew: int, later: int)
    requires h.rows == [mine] && mine.userSub == "a" && mine.id == RowIds.RowId("a", "b:c", 0)
    requires mine.status == Connected && mine.creds.Some? && mine.creds.value.Sealed?
    requires mine.creds.value.tokens.expiresAt - skew <= later
    requires theirs.sub == "a:b" && Gate(h.admin, theirs, "c") == None
    ensures var h1 := Grant(h, theirs, "c", COMPANY, "", "", now).0;
      var h2 := FetchToken(h1, mine.id, skew, None, later).0;
      && |h1.rows| == 2 == |h2.rows| && h1.rows[1].status == StubConnected
      && h2.rows[1].userSub == "a:b" && h2.rows[1].status == Stale && h2.rows[1].creds == None
      && !Moves(h1.rows[1], h2.rows[1]) && !WellKept(h2.rows[1])
  {
    var other := Conservation.SecondGrant(h, mine, theirs, now);
    var h1 := Grant(h, theirs, "c", COMPANY, "", "", now).0;
    assert h1.rows == [mine] + [other];
    RowByIdAppend([mine], other, mine.id);
    assert RowById([mine], mine.id) == Some(mine) by { assert [mine][..0] == []; }
    assert FetchToken(h1, mine.id, skew, None, later).0.rows == Patched(h1.rows, {mine.id}, MarkStale);
  }
}
