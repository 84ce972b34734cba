/**
 The services over one database, with the cascade hooks wired: each method runs the
 source's loops and updates in place, and is proved against the ledger's step functions.
 */
module Services {
  import opened Wrappers
  import opened Registry
  import opened Ledger
  import opened OAuthState
  import opened Envelope
  import RowIds
  import Strings
  import Siam
  import Integrations
  import AuditLog
  import Admin
  import Llm = LlmConfig
  import LedgerRuns
  import Me

  /** Updating twice by id is updating once; updating more ids one after the other is updating all. */
  lemma PatchedTwice(rows: seq<Row>, ids: set<string>, id: string, p: Patch)
    ensures Patched(Patched(rows, ids, p), {id}, p) == Patched(rows, ids + {id}, p)
  {
  }

  lemma IdsStep(rows: seq<Row>, r: Row)
    ensures Ids(rows + [r]) == Ids(rows) + {r.id}
  {
  }

  /** One more row closed: the update by its id and its event extend what is done so far. */
  lemma CloseStep(rows: seq<Row>, done: seq<Row>, r: Row, p: Patch, ts: int, who: Option<string>, action: string)
    ensures Patched(Patched(rows, Ids(done), p), {r.id}, p) == Patched(rows, Ids(done + [r]), p)
    ensures EventsOf(done + [r], ts, who, action)
         == EventsOf(done, ts, who, action) + [EventOf(r, ts, if who.Some? then who.value else r.username, action)]
  {
    PatchedTwice(rows, Ids(done), r.id, p);
    IdsStep(done, r);
  }

  lemma QueryStep(rows: seq<Row>, last: Row, sel: Selector)
    ensures Query(rows + [last], sel) == if Selects(sel, last) then Query(rows, sel) + [last] else Query(rows, sel)
  {
    assert (rows + [last])[..|rows|] == rows;
  }

  lemma QueryPrefix(rows: seq<Row>, k: nat, sel: Selector)
    requires k < |rows|
    ensures Query(rows[..k + 1], sel)
         == if Selects(sel, rows[k]) then Query(rows[..k], sel) + [rows[k]] else Query(rows[..k], sel)
  {
    assert rows[..k + 1] == rows[..k] + [rows[k]];
    QueryStep(rows[..k], rows[k], sel);
  }

  lemma QueryTwiceStep(front: seq<Row>, actives: seq<Row>, last: Row, sel: Selector)
    requires Query(actives, sel) == Query(front, sel)
    ensures Query(if Active(last) then actives + [last] else actives, sel) == Query(front + [last], sel)
  {
    QueryStep(front, last, sel);
    if Active(last) {
      QueryStep(actives, last, sel);
    }
  }

  lemma {:induction false} QueryTwice(rows: seq<Row>, sel: Selector)
    ensures Query(Query(rows, AllActive), sel) == Query(rows, sel)
  {
    if |rows| > 0 {
      var front, last := rows[..|rows| - 1], rows[|rows| - 1];
      QueryTwice(front, sel);
      assert rows == front + [last];
      QueryStep(front, last, AllActive);
      QueryTwiceStep(front, Query(front, AllActive), last, sel);
    }
  }

  // ---- The database ----

  class Arcade {
    var instances: Integrations.Instances
    var siam: Option<Siam.Json>
    var llm: Llm.Row
    var audit: seq<AuditLog.Record>
    var rows: seq<Row>
    var events: seq<Event>
    var minted: seq<Flow>
    var calls: seq<TokenCall>
    var logins: seq<Me.LoginEvent>

    ghost function Tables(): Admin.Tables
      reads this
    {
      Admin.Tables(instances, siam, llm, audit)
    }

    ghost function State(): Hub
      reads this
    {
      Hub(Tables(), rows, events, minted, calls)
    }

    constructor (llm: Llm.Row)
      ensures State() == Init(llm) && logins == []
    {
      instances := map[];
      siam := None;
      this.llm := llm;
      audit := [];
      rows := [];
      events := [];
      minted := [];
      calls := [];
      logins := [];
    }

    method Select(sel: Selector) returns (found: seq<Row>)
      ensures found == Query(rows, sel)
    {
      found := [];
      for i := 0 to |rows|
        invariant found == Query(rows[..i], sel)
      {
        assert rows[..i + 1][..i] == rows[..i];
        if Selects(sel, rows[i]) {
          found := found + [rows[i]];
        }
      }
      assert rows[..|rows|] == rows;
    }

    /** `UPDATE IntegrationConnection SET ... WHERE id = :id`. */
    method UpdateById(id: string, p: Patch)
      modifies this`rows
      ensures rows == Patched(old(rows), {id}, p)
    {
      for i := 0 to |rows|
        invariant |rows| == |old(rows)|
        invariant forall j :: 0 <= j < i ==> rows[j] == Patched(old(rows), {id}, p)[j]
        invariant forall j :: i <= j < |rows| ==> rows[j] == old(rows)[j]
      {
        if rows[i].id == id {
          rows := rows[i := ApplyPatch(rows[i], p)];
        }
      }
    }

    method MaxNumPlusOne(userSub: string, instanceId: string) returns (n: nat)
      ensures n == NextNum(rows, userSub, instanceId)
    {
      n := 0;
      for i := 0 to |rows|
        invariant n == NextNum(rows[..i], userSub, instanceId)
      {
        assert rows[..i + 1][..i] == rows[..i];
        if rows[i].userSub == userSub && rows[i].instanceId == instanceId && rows[i].num >= n {
          n := rows[i].num + 1;
        }
      }
      assert rows[..|rows|] == rows;
    }

    method FindById(id: string) returns (r: Option<Row>)
      ensures r == RowById(rows, id)
    {
      r := None;
      for i := 0 to |rows|
        invariant r == RowById(rows[..i], id)
      {
        assert rows[..i + 1][..i] == rows[..i];
        if r.None? && rows[i].id == id {
          r := Some(rows[i]);
        }
      }
      assert rows[..|rows|] == rows;
    }
  }

  // ---- SIAM reads ----

  class SiamReader {
    const db: Arcade

    constructor (db: Arcade)
      ensures this.db == db
    {
      this.db := db;
    }

    method Get() returns (m: Siam.Mapping)
      ensures m == Admin.Mapping(db.Tables())
    {
      if db.siam.None? {
        return map[];
      }
      m := Siam.NormalizeLoop(db.siam.value);
    }
  }

  // ---- UserConnectionsService ----

  class UserConnectionsService {
    const db: Arcade
    const siam: SiamReader
    const config: Config

    constructor (db: Arcade, siam: SiamReader, config: Config)
      ensures this.db == db && this.siam == siam && this.config == config
    {
      this.db := db;
      this.siam := siam;
      this.config := config;
    }

    method IsSiamAuthorized(user: User, instanceId: string) returns (ok: bool)
      requires siam.db == db
      ensures ok == Siam.Authorized(Admin.Mapping(db.Tables()), user.roles, instanceId)
    {
      var mapping := siam.Get();
      for i := 0 to |user.roles|
        invariant !Siam.Authorized(mapping, user.roles[..i], instanceId)
      {
        var role := user.roles[i];
        Siam.AuthorizedStep(mapping, user.roles[..i], role, instanceId);
        assert user.roles[..i + 1] == user.roles[..i] + [role];
        if role in mapping && instanceId in mapping[role] {
          Siam.AuthorizedPrefix(mapping, user.roles, i + 1, instanceId);
          return true;
        }
      }
      assert user.roles[..|user.roles|] == user.roles;
      return false;
    }

    /** Gates 1 and 2, in the order every entry point runs them. */
    method CheckGates(user: User, instanceId: string) returns (refusal: Option<Refusal>)
      requires siam.db == db
      ensures refusal == Gate(db.Tables(), user, instanceId)
    {
      if instanceId !in db.instances {
        return Some(InstanceNotFound);
      }
      if !db.instances[instanceId].enabled {
        return Some(InstanceDisabled);
      }
      var ok := IsSiamAuthorized(user, instanceId);
      if !ok {
        return Some(NotAuthorized);
      }
      return None;
    }

    method GrantConnection(user: User, instanceId: string, privacy: string, subject: string, displayLabel: string,
                           now: int)
      returns (result: Result<Row, Refusal>)
      requires siam.db == db
      modifies db
      ensures (db.State(), result) == Grant(old(db.State()), user, instanceId, privacy, subject, displayLabel, now)
    {
      var refusal := CheckGates(user, instanceId);
      if refusal.Some? {
        return Err(refusal.value);
      }
      var existing := db.Select(OfSubject(user.sub, instanceId, subject));
      if existing != [] {
        return Err(AlreadyConnected);
      }
      var num := db.MaxNumPlusOne(user.sub, instanceId);
      var row := Row(RowIds.RowId(user.sub, instanceId, num), user.sub, user.username, instanceId, num, subject,
                     displayLabel, privacy, None, StubConnected, now, None, None, None);
      db.rows := db.rows + [row];
      db.events := db.events + [EventOf(row, now, user.username, GRANTED)];
      return Ok(row);
    }

    /** The loop shared by revoke and the instance cascade: update by id, then append the event. */
    method CloseEach(active: seq<Row>, p: Patch, ts: int, who: Option<string>, action: string)
      modifies db`rows, db`events
      ensures db.rows == Patched(old(db.rows), Ids(active), p)
      ensures db.events == old(db.events) + EventsOf(active, ts, who, action)
    {
      assert Patched(db.rows, {}, p) == db.rows;
      for k := 0 to |active|
        invariant db.rows == Patched(old(db.rows), Ids(active[..k]), p)
        invariant db.events == old(db.events) + EventsOf(active[..k], ts, who, action)
      {
        var row := active[k];
        assert active[..k + 1] == active[..k] + [row];
        CloseStep(old(db.rows), active[..k], row, p, ts, who, action);
        db.UpdateById(row.id, p);
        db.events := db.events + [EventOf(row, ts, if who.Some? then who.value else row.username, action)];
      }
      assert active[..|active|] == active;
    }

    method RevokeConnection(user: User, instanceId: string, only: Option<string>, now: int)
      returns (result: Result<(), Refusal>)
      modifies db
      ensures (db.State(), result) == Revoke(old(db.State()), user, instanceId, only, now)
    {
      var active;
      if only.None? {
        active := db.Select(OfUser(user.sub, instanceId));
      } else {
        active := db.Select(OfSubject(user.sub, instanceId, only.value));
      }
      if active == [] {
        return Err(NoActiveConnection);
      }
      CloseEach(active, UserRevoke(now), now, Some(user.username), REVOKED);
      return Ok(());
    }

    method InitiateGrant(user: User, instanceId: string, redirectUri: string, codeVerifier: string, nonce: string,
                         now: int)
      returns (result: Result<AuthRequest, Refusal>)
      requires siam.db == db
      modifies db
      ensures (db.State(), result) == Initiate(config, old(db.State()), user, instanceId, redirectUri, codeVerifier,
          nonce, now)
    {
      var refusal := CheckGates(user, instanceId);
      if refusal.Some? {
        return Err(refusal.value);
      }
      if redirectUri !in config.allowedRedirects {
        return Err(RedirectNotAllowed);
      }
      var doc := db.instances[instanceId];
      var tenant := AdapterTenant(doc);
      if tenant.Err? {
        return Err(tenant.error);
      }
      var clientId := PublicOf(doc, "client_id");
      if clientId == "" {
        return Err(MissingClientId);
      }
      var state := |db.minted|;
      db.minted := db.minted + [Flow(user.sub, instanceId, nonce, now, codeVerifier, redirectUri)];
      return Ok(AuthRequest(tenant.value, clientId, redirectUri, state, codeVerifier));
    }

    method CompleteGrant(user: User, instanceId: string, code: string, state: nat, idp: IdpAnswers, now: int)
      returns (result: Result<Row, Refusal>)
      requires siam.db == db
      modifies db
      ensures (db.State(), result) == Complete(old(db.State()), user, instanceId, code, state, idp, now)
    {
      if state >= |db.minted| {
        return Err(BadState(DecryptionFailed(InvalidTag)));
      }
      var checked := CheckAge(db.minted[state], MAX_AGE, now);
      if checked.Err? {
        return Err(BadState(checked.error));
      }
      var flow := checked.value;
      if flow.userSub != user.sub {
        return Err(StateOfOtherUser);
      }
      if flow.instanceId != instanceId {
        return Err(StateOfOtherInstance);
      }
      var refusal := CheckGates(user, instanceId);
      if refusal.Some? {
        return Err(refusal.value);
      }
      var doc := db.instances[instanceId];
      var tenant := AdapterTenant(doc);
      if tenant.Err? {
        return Err(tenant.error);
      }
      if PublicOf(doc, "client_id") == "" {
        return Err(MissingClientId);
      }
      db.calls := db.calls + [ExchangeCall(doc, tenant.value, flow, code)];
      result := RedeemCode(user, instanceId, idp, now);
    }

    method RedeemCode(user: User, instanceId: string, idp: IdpAnswers, now: int) returns (result: Result<Row, Refusal>)
      modifies db
      ensures (db.State(), result) == Redeem(old(db.State()), user, instanceId, idp, now)
    {
      if idp.token.None? {
        return Err(ExchangeFailed);
      }
      var tokens := TokensFrom(idp.token.value, now);
      if idp.me.None? {
        return Err(IdentityFailed);
      }
      var subject := SubjectOf(idp.me.value);
      if subject == "" {
        return Err(IdentityFailed);
      }
      var existing := db.Select(OfSubject(user.sub, instanceId, subject));
      if existing != [] {
        return Err(AlreadyConnected);
      }
      var num := db.MaxNumPlusOne(user.sub, instanceId);
      var row := Row(RowIds.RowId(user.sub, instanceId, num), user.sub, user.username, instanceId, num, subject,
                     LabelOf(idp.me.value), COMPANY, Some(Sealed(tokens)), Connected, now, None, None,
                         Some(idp.healthy));
      db.rows := db.rows + [row];
      db.events := db.events + [EventOf(row, now, user.username, GRANTED)];
      return Ok(row);
    }

    method RevokeAll(instanceId: string, reason: string, now: int) returns (revoked: nat)
      modifies db`rows, db`events
      ensures (db.State(), revoked) == RevokeAllForInstance(old(db.State()), instanceId, reason, now)
    {
      var active := db.Select(OfInstance(instanceId));
      CloseEach(active, CascadeRevoke(now, reason), now, None, reason);
      return |active|;
    }

    method RevokeNoLongerMapped(previous: Siam.Mapping, current: Siam.Mapping, now: int) returns (revoked: nat)
      modifies db`rows, db`events
      ensures (db.State(), revoked) == RevokeNoLongerAuthorized(old(db.State()), previous, current, now)
    {
      var actives := db.Select(AllActive);
      revoked := WalkActives(actives, previous, current, now);
      QueryTwice(old(db.rows), Orphaned(previous, current));
    }

    /** Walks the active rows, skipping those still mapped and those mapped by no role before. */
    method WalkActives(actives: seq<Row>, previous: Siam.Mapping, current: Siam.Mapping, now: int)
      returns (revoked: nat)
      requires forall r :: r in actives ==> Active(r)
      modifies db`rows, db`events
      ensures db.rows == Patched(old(db.rows), Ids(Query(actives, Orphaned(previous, current))),
          CascadeRevoke(now, BY_SIAM))
      ensures db.events
           == old(db.events) + EventsOf(Query(actives, Orphaned(previous, current)), now, None, BY_SIAM)
      ensures revoked == |Query(actives, Orphaned(previous, current))|
    {
      revoked := 0;
      ghost var hit: seq<Row> := [];
      ghost var p := CascadeRevoke(now, BY_SIAM);
      assert Patched(db.rows, Ids(hit), p) == db.rows;
      for k := 0 to |actives|
        invariant hit == Query(actives[..k], Orphaned(previous, current))
        invariant db.rows == Patched(old(db.rows), Ids(hit), p)
        invariant db.events == old(db.events) + EventsOf(hit, now, None, BY_SIAM)
        invariant revoked == |hit|
      {
        var row := actives[k];
        QueryPrefix(actives, k, Orphaned(previous, current));
        CloseStep(old(db.rows), hit, row, p, now, None, BY_SIAM);
        var closed := ConsiderRow(row, previous, current, now);
        if closed {
          revoked := revoked + 1;
          hit := hit + [row];
        }
      }
      assert actives[..|actives|] == actives;
    }

    /** One turn of the walk; the row is a snapshot taken before it. */
    method ConsiderRow(row: Row, previous: Siam.Mapping, current: Siam.Mapping, now: int) returns (closed: bool)
      requires Active(row)
      modifies db`rows, db`events
      ensures closed == Selects(Orphaned(previous, current), row)
      ensures db.rows == if closed then Patched(old(db.rows), {row.id}, CascadeRevoke(now, BY_SIAM)) else old(db.rows)
      ensures db.events == if closed then old(db.events) + [EventOf(row, now, row.username, BY_SIAM)]
          else old(db.events)
    {
      if Siam.Mapped(current, row.instanceId) {
        return false;
      }
      if !Siam.Mapped(previous, row.instanceId) {
        return false;
      }
      db.UpdateById(row.id, CascadeRevoke(now, BY_SIAM));
      db.events := db.events + [EventOf(row, now, row.username, BY_SIAM)];
      return true;
    }

    /** Refresh once, then stale. */
    method GetValidAccessToken(id: string, skew: int, response: Option<TokenResponse>, now: int)
      returns (token: Option<string>)
      modifies db
      ensures (db.State(), token) == FetchToken(old(db.State()), id, skew, response, now)
    {
      var found := db.FindById(id);
      if found.None? || found.value.status != Connected || found.value.creds.None? {
        return None;
      }
      var row := found.value;
      if row.creds.value.Unreadable? {
        db.UpdateById(row.id, MarkStale);
        return None;
      }
      var tokens := row.creds.value.tokens;
      if tokens.expiresAt - skew > now {
        return Some(tokens.access);
      }
      var renewed := RefreshOnce(row, tokens, response, now);
      if renewed.None? {
        db.UpdateById(row.id, MarkStale);
        return None;
      }
      db.UpdateById(row.id, StoreTokens(renewed.value));
      return Some(renewed.value.access);
    }

    method RefreshOnce(row: Row, tokens: Tokens, response: Option<TokenResponse>, now: int)
      returns (renewed: Option<Tokens>)
      modifies db`calls
      ensures match RefreshCall(db.Tables(), row, tokens) {
        case None => db.calls == old(db.calls) && renewed == None
        case Some(call) =>
          db.calls == old(db.calls) + [call]
          && renewed == if response.Some? then Some(TokensFrom(response.value, now)) else None
      }
    {
      if tokens.refresh.None? || row.instanceId !in db.instances {
        return None;
      }
      var doc := db.instances[row.instanceId];
      var tenant := AdapterTenant(doc);
      if tenant.Err? {
        return None;
      }
      db.calls := db.calls + [Refresh(tenant.value, PublicOf(doc, "client_id"), ClientSecret(doc),
          tokens.refresh.value)];
      if response.None? {
        return None;
      }
      return Some(TokensFrom(response.value, now));
    }
  }

  // ---- Admin services ----

  class AdminServices {
    const db: Arcade
    const siam: SiamReader
    const connections: UserConnectionsService
    const config: Config

    /** The hooks as the application wires them: both cascades go to the one connections service. */
    ghost predicate Wired() {
      siam.db == db && connections.db == db && connections.siam == siam && connections.config == config
    }

    constructor (db: Arcade, siam: SiamReader, connections: UserConnectionsService, config: Config)
      requires siam.db == db && connections.db == db && connections.siam == siam && connections.config == config
      ensures Wired()
      ensures this.db == db && this.config == config
    {
      this.db := db;
      this.siam := siam;
      this.connections := connections;
      this.config := config;
    }

    method RecordAudit(e: AuditLog.Record, secretFields: seq<string>)
      modifies db`audit
      ensures db.audit == old(db.audit) + [AuditLog.Masked(config.env.fp, e, secretFields)]
    {
      var before, after := e.before, e.after;
      if e.before.Some? {
        var masked := AuditLog.MaskSecrets(config.env.fp, e.before.value, secretFields);
        before := Some(masked);
      }
      if e.after.Some? {
        var masked := AuditLog.MaskSecrets(config.env.fp, e.after.value, secretFields);
        after := Some(masked);
      }
      db.audit := db.audit + [e.(before := before, after := after)];
    }

    /** Everything a create does before it writes. */
    method PrepareCreate(actor: Admin.Actor, r: Integrations.CreateRequest, now: int)
      returns (result: Result<Integrations.Instance, Integrations.Error>, given: Integrations.Split)
      ensures result == Integrations.Create(db.instances, actor, r, now)
      ensures result.Ok? ==> given == Admin.SplitOf(r.typ, r.config)
    {
      given := Integrations.Split(map[], map[]);
      var spec := GetType(r.typ);
      if spec.None? {
        result := Err(Integrations.UnknownType(r.typ));
        return;
      }
      if spec.value.cardinality == Single && r.multi {
        result := Err(Integrations.CardinalityConflict);
        return;
      }
      if r.id in db.instances {
        result := Err(Integrations.AlreadyExists);
        return;
      }
      var split, encrypted := Integrations.SplitConfigLoop(spec.value.fields, r.config);
      if split.Err? {
        result := Err(split.error);
        return;
      }
      given := split.value;
      result := Ok(Integrations.Instance(r.id, r.typ, r.displayName, given.public, encrypted,
                                         r.enabled, r.multi, actor.username, now, actor.username, now));
    }

    method CreateInstance(actor: Admin.Actor, r: Integrations.CreateRequest, now: int)
      returns (result: Result<Integrations.View, Admin.Error>)
      modifies db
      ensures db.State() == AdminStep(config, old(db.State()), Admin.CreateInstance(actor, r), now)
      ensures result == Admin.Create(config.env, old(db.Tables()), actor, r, now).1
    {
      result := CreateDocument(actor, r, now);
    }

    method CreateDocument(actor: Admin.Actor, r: Integrations.CreateRequest, now: int)
      returns (result: Result<Integrations.View, Admin.Error>)
      modifies db`instances, db`audit
      ensures (db.Tables(), result) == Admin.Create(config.env, old(db.Tables()), actor, r, now)
    {
      var doc, given := PrepareCreate(actor, r, now);
      if doc.Err? {
        return Err(Admin.IntegrationError(doc.error));
      }
      var spec := GetType(r.typ).value;
      db.instances := db.instances[r.id := doc.value];
      RecordAudit(Integrations.CreateRecord(actor, r, spec, given, now), Integrations.SecretNames(spec.fields));
      return Ok(Integrations.Render(doc.value));
    }

    /** Everything an update does before it writes. */
    method PrepareUpdate(actor: Admin.Actor, id: string, r: Integrations.UpdateRequest, now: int)
      returns (result: Result<Integrations.Instance, Integrations.Error>, given: Option<Integrations.Split>)
      ensures result == Integrations.Update(db.instances, actor, id, r, now)
      ensures result.Ok? ==> given == Admin.SplitOfOptional(db.instances[id].typ, r.config)
    {
      given := None;
      if id !in db.instances {
        result := Err(Integrations.NotFound);
        return;
      }
      var before := db.instances[id];
      var spec := GetType(before.typ);
      if spec.None? {
        result := Err(Integrations.UnknownType(before.typ));
        return;
      }
      if r.multi == Some(true) && spec.value.cardinality == Single {
        result := Err(Integrations.CardinalityConflict);
        return;
      }
      var sealed: map<string, Integrations.Sealed> := map[];
      if r.config.Some? {
        var split, encrypted := Integrations.SplitConfigLoop(spec.value.fields, r.config.value);
        if split.Err? {
          result := Err(split.error);
          return;
        }
        given := Some(split.value);
        sealed := encrypted;
      }
      var merged := MergeDocument(before, actor, r, given, sealed, now);
      result := Ok(merged);
    }

    method UpdateDocument(actor: Admin.Actor, id: string, r: Integrations.UpdateRequest, now: int)
      returns (result: Result<Integrations.View, Admin.Error>)
      modifies db`instances, db`audit
      ensures (db.Tables(), result) == Admin.Update(config.env, old(db.Tables()), actor, id, r, now)
    {
      var merged, given := PrepareUpdate(actor, id, r, now);
      if merged.Err? {
        return Err(Admin.IntegrationError(merged.error));
      }
      var before := db.instances[id];
      var spec := GetType(before.typ).value;
      db.instances := db.instances[id := merged.value];
      RecordAudit(Integrations.UpdateRecord(actor, before, spec, r, given, now), Integrations.SecretNames(spec.fields));
      return Ok(Integrations.Render(merged.value));
    }

    method MergeDocument(before: Integrations.Instance, actor: Admin.Actor, r: Integrations.UpdateRequest,
                         given: Option<Integrations.Split>, sealed: map<string, Integrations.Sealed>, now: int)
      returns (merged: Integrations.Instance)
      requires given.Some? ==> sealed == Integrations.Sealing(given.value.secrets)
      ensures merged == Integrations.Merge(before, actor, r, given, now)
    {
      merged := before;
      if r.displayName.Some? {
        merged := merged.(displayName := r.displayName.value);
      }
      if r.enabled.Some? {
        merged := merged.(enabled := r.enabled.value);
      }
      if r.multi.Some? {
        merged := merged.(multi := r.multi.value);
      }
      if given.Some? {
        merged := merged.(public := before.public + given.value.public, secrets := before.secrets + sealed);
      }
      merged := merged.(updatedBy := actor.username, updatedAt := now);
    }

    /** The cascade runs when an update takes `enabled` from true to false. */
    method UpdateInstance(actor: Admin.Actor, id: string, r: Integrations.UpdateRequest, now: int)
      returns (result: Result<Integrations.View, Admin.Error>)
      requires Wired()
      modifies db
      ensures db.State() == AdminStep(config, old(db.State()), Admin.UpdateInstance(actor, id, r), now)
      ensures result == Admin.Update(config.env, old(db.Tables()), actor, id, r, now).1
    {
      var wasEnabled := id in db.instances && db.instances[id].enabled;
      result := UpdateDocument(actor, id, r, now);
      var isEnabled := id in db.instances && db.instances[id].enabled;
      if wasEnabled && !isEnabled {
        var _ := connections.RevokeAll(id, BY_DISABLE, now);
      }
    }

    /** The cascade runs before the row goes. */
    method DeleteInstance(actor: Admin.Actor, id: string, now: int) returns (result: Result<(), Admin.Error>)
      requires Wired()
      modifies db
      ensures db.State() == AdminStep(config, old(db.State()), Admin.DeleteInstance(actor, id), now)
      ensures result == Admin.Delete(config.env, old(db.Tables()), actor, id, now).1
    {
      if id !in db.instances {
        return Err(Admin.IntegrationError(Integrations.NotFound));
      }
      var before := db.instances[id];
      var _ := connections.RevokeAll(id, BY_DELETE, now);
      db.instances := db.instances - {id};
      var spec := GetType(before.typ);
      if spec.None? {
        return Err(Admin.IntegrationError(Integrations.UnknownType(before.typ)));
      }
      RecordAudit(Integrations.DeleteRecord(actor, before, spec.value, now),
          Integrations.SecretNames(spec.value.fields));
      return Ok(());
    }

    method ReplaceMapping(actor: Admin.Actor, mapping: Siam.Json, now: int) returns (after: Siam.Mapping)
      requires Wired()
      modifies db
      ensures db.State() == AdminStep(config, old(db.State()), Admin.ReplaceMapping(actor, mapping), now)
      ensures after == Siam.Normalize(mapping)
    {
      ghost var h := db.State();
      var before;
      before, after := StoreMapping(actor, mapping, now);
      ghost var h1 := h.(admin := Admin.Step(config.env, h.admin, Admin.ReplaceMapping(actor, mapping), now));
      assert db.State() == h1;
      LedgerRuns.ReplaceStep(config, h, actor, mapping, now);
      if before != after {
        var _ := connections.RevokeNoLongerMapped(before, after, now);
      }
    }

    method StoreMapping(actor: Admin.Actor, mapping: Siam.Json, now: int)
      returns (before: Siam.Mapping, after: Siam.Mapping)
      requires siam.db == db
      modifies db`siam, db`audit
      ensures (db.Tables(), after) == Admin.Replace(config.env, old(db.Tables()), actor, mapping, now)
      ensures before == Admin.Mapping(old(db.Tables()))
      ensures after == Siam.Normalize(mapping)
    {
      before := siam.Get();
      var normalized := Siam.NormalizeLoop(mapping);
      db.siam := Some(Siam.AsJson(normalized));
      after := siam.Get();
      Siam.NormalizeIsIdempotent(mapping);
      RecordAudit(Admin.SiamRecord(actor, before, after, now), []);
    }

    method ApplyOptional(draft: Llm.Draft, side: Llm.Side, payload: Option<Llm.Payload>)
      returns (error: Option<Llm.Error>)
      modifies draft
      ensures match Llm.UpdateSideOptional(config.env.providers, old(draft.merged), side, payload) {
        case Err(e) => error == Some(e)
        case Ok(row) => error == None && draft.merged == row
          && draft.afterAudit == Admin.AfterOptional(config.env.providers, old(draft.afterAudit), side, payload)
          && draft.secretAuditFields == old(draft.secretAuditFields)
              + Admin.SecretsOptional(config.env.providers, side, payload)
      }
    {
      if payload.None? {
        return None;
      }
      error := draft.ApplySide(config.env.providers, side, payload.value);
    }

    method UpdateLlm(actor: Admin.Actor, inference: Option<Llm.Payload>, embedding: Option<Llm.Payload>, now: int)
      returns (result: Result<(), Admin.Error>)
      modifies db`llm, db`audit
      ensures (db.Tables(), result) == Admin.UpdateLlmConfig(config.env, old(db.Tables()), actor, inference, embedding,
          now)
    {
      var before := Llm.AuditView(config.env.providers, db.llm);
      var draft := new Llm.Draft(db.llm, before);
      var error := ApplyBoth(draft, inference, embedding);
      if error.Some? {
        return Err(Admin.LlmError(error.value));
      }
      db.llm := draft.merged;
      RecordAudit(AuditLog.Record(now, actor.sub, actor.username, "llm.update", "default", Some(before),
          Some(draft.afterAudit)),
                  draft.secretAuditFields);
      return Ok(());
    }

    method ApplyBoth(draft: Llm.Draft, inference: Option<Llm.Payload>, embedding: Option<Llm.Payload>)
      returns (error: Option<Llm.Error>)
      requires draft.secretAuditFields == []
      modifies draft
      ensures match Llm.UpdateRow(config.env.providers, old(draft.merged), inference, embedding) {
        case Err(e) => error == Some(e)
        case Ok(row) =>
          && error == None && draft.merged == row
          && draft.afterAudit == Admin.AfterOptional(config.env.providers,
               Admin.AfterOptional(config.env.providers, old(draft.afterAudit), Llm.Inference, inference),
                   Llm.Embedding, embedding)
          && draft.secretAuditFields == Admin.SecretsOptional(config.env.providers, Llm.Inference, inference)
                                      + Admin.SecretsOptional(config.env.providers, Llm.Embedding, embedding)
      }
    {
      if inference.None? && embedding.None? {
        return Some(Llm.NothingToUpdate);
      }
      error := ApplyOptional(draft, Llm.Inference, inference);
      if error.None? {
        error := ApplyOptional(draft, Llm.Embedding, embedding);
      }
    }
  }

  // ---- MeService ----

  class MeService {
    const db: Arcade
    const siam: SiamReader

    constructor (db: Arcade, siam: SiamReader)
      requires siam.db == db
      ensures this.db == db && this.siam == siam
    {
      this.db := db;
      this.siam := siam;
    }

    /** The later active rows of an instance replace the earlier ones in the dictionary. */
    method LatestActive(userSub: string, instanceId: string) returns (r: Option<Row>)
      ensures r == Me.ConnectionOf(db.rows, userSub, instanceId)
    {
      r := None;
      for i := 0 to |db.rows|
        invariant r == Me.ConnectionOf(db.rows[..i], userSub, instanceId)
      {
        var row := db.rows[i];
        assert db.rows[..i + 1][..i] == db.rows[..i];
        if row.userSub == userSub && row.instanceId == instanceId && Active(row) {
          r := Some(row);
        }
      }
      assert db.rows[..|db.rows|] == db.rows;
    }

    method Show(user: User, now: int) returns (payload: seq<Me.Entry>)
      requires siam.db == db
      modifies db`logins
      ensures payload == Me.View(db.State(), user)
      ensures db.logins == old(db.logins) + [Me.LoginEvent(now, user.sub, user.username, Me.EntryIds(payload))]
    {
      var mapping := siam.Get();
      var allowed: seq<string> := [];
      for i := 0 to |user.roles|
        invariant allowed == Me.AllowedIds(mapping, user.roles[..i])
      {
        assert user.roles[..i + 1][..i] == user.roles[..i];
        if user.roles[i] in mapping {
          allowed := allowed + mapping[user.roles[i]];
        }
      }
      assert user.roles[..|user.roles|] == user.roles;
      var ids := Strings.Sorted(allowed);
      payload := [];
      for i := 0 to |ids|
        invariant payload == Me.Entries(db.State(), user, ids[..i])
        invariant db.logins == old(db.logins)
      {
        assert ids[..i + 1][..i] == ids[..i];
        if ids[i] in db.instances && db.instances[ids[i]].enabled {
          var doc := db.instances[ids[i]];
          var r := LatestActive(user.sub, ids[i]);
          payload := payload + [Me.Entry(ids[i], doc.typ, doc.displayName, Me.StatusFor(r),
                                         if r.Some? then Some(r.value.id) else None)];
        }
      }
      assert ids[..|ids|] == ids;
      db.logins := db.logins + [Me.LoginEvent(now, user.sub, user.username, Me.EntryIds(payload))];
    }
  }
}
