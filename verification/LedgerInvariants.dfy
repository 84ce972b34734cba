/**
 What every run of the ledger keeps, whatever the user subs and instance ids look like:
 active rows only on open instances, gap-free numbering, one active row per subject.
 */
module LedgerInvariants {
  import opened Wrappers
  import opened Registry
  import opened Ledger
  import RowIds
  import Siam
  import Integrations
  import Admin

  // ---- The invariants ----

  /** The instance exists, is enabled, and is listed under some role. */
  predicate Open(t: Admin.Tables, instanceId: string) {
    EnabledIn(t, instanceId) && Siam.Mapped(Admin.Mapping(t), instanceId)
  }

  ghost predicate ActiveAreOpen(h: Hub) {
    forall i :: 0 <= i < |h.rows| && Active(h.rows[i]) ==> Open(h.admin, h.rows[i].instanceId)
  }

  function CountPair(rows: seq<Row>, userSub: string, instanceId: string): nat {
    if |rows| == 0 then 0
    else
      var last := rows[|rows| - 1];
      CountPair(rows[..|rows| - 1], userSub, instanceId)
      + if last.userSub == userSub && last.instanceId == instanceId then 1 else 0
  }

  /** Each row's number counts the user's earlier rows on the instance, and its id spells it out. */
  ghost predicate Numbered(rows: seq<Row>) {
    forall i :: 0 <= i < |rows| ==>
      var r := rows[i];
      && r.num == CountPair(rows[..i], r.userSub, r.instanceId)
      && r.id == RowIds.RowId(r.userSub, r.instanceId, r.num)
  }

  predicate SameAccount(a: Row, b: Row) {
    a.userSub == b.userSub && a.instanceId == b.instanceId && a.subject == b.subject
  }

  ghost predicate UniqueActive(rows: seq<Row>) {
    forall i, j :: 0 <= i < j < |rows| && Active(rows[i]) && Active(rows[j]) ==> !SameAccount(rows[i], rows[j])
  }

  ghost predicate Inv(h: Hub) {
    ActiveAreOpen(h) && Numbered(h.rows) && UniqueActive(h.rows)
  }

  // ---- Updates in place ----

  predicate SameIdentity(a: Row, b: Row) {
    && a.id == b.id && a.userSub == b.userSub && a.instanceId == b.instanceId
    && a.num == b.num && a.subject == b.subject
  }

  /** Same rows in the same order, some of them possibly no longer active. */
  ghost predicate Fades(rows: seq<Row>, rows': seq<Row>) {
    && |rows| == |rows'|
    && forall i :: 0 <= i < |rows| ==> SameIdentity(rows[i], rows'[i]) && (Active(rows'[i]) ==> Active(rows[i]))
  }

  lemma PatchedFades(rows: seq<Row>, ids: set<string>, p: Patch)
    ensures Fades(rows, Patched(rows, ids, p))
  {
  }

  lemma {:induction false} FadesKeepsCounts(rows: seq<Row>, rows': seq<Row>, n: nat, userSub: string,
                                            instanceId: string)
    requires Fades(rows, rows') && n <= |rows|
    ensures CountPair(rows'[..n], userSub, instanceId) == CountPair(rows[..n], userSub, instanceId)
  {
    if n > 0 {
      assert rows[..n][..n - 1] == rows[..n - 1] && rows'[..n][..n - 1] == rows'[..n - 1];
      FadesKeepsCounts(rows, rows', n - 1, userSub, instanceId);
      assert SameIdentity(rows[n - 1], rows'[n - 1]);
    }
  }

  lemma FadesKeepsNumbers(rows: seq<Row>, rows': seq<Row>)
    requires Fades(rows, rows') && Numbered(rows)
    ensures Numbered(rows')
  {
    forall i | 0 <= i < |rows'|
      ensures rows'[i].num == CountPair(rows'[..i], rows'[i].userSub, rows'[i].instanceId)
      ensures rows'[i].id == RowIds.RowId(rows'[i].userSub, rows'[i].instanceId, rows'[i].num)
    {
      assert SameIdentity(rows[i], rows'[i]);
      FadesKeepsCounts(rows, rows', i, rows[i].userSub, rows[i].instanceId);
    }
  }

  lemma FadesKeepsUnique(rows: seq<Row>, rows': seq<Row>)
    requires Fades(rows, rows') && UniqueActive(rows)
    ensures UniqueActive(rows')
  {
    forall i, j | 0 <= i < j < |rows'| && Active(rows'[i]) && Active(rows'[j])
      ensures !SameAccount(rows'[i], rows'[j])
    {
      assert SameIdentity(rows[i], rows'[i]) && SameIdentity(rows[j], rows'[j]);
    }
  }

  lemma FadeKeeps(h: Hub, h': Hub)
    requires Inv(h) && Fades(h.rows, h'.rows) && h'.admin == h.admin
    ensures Inv(h')
  {
    FadesKeepsNumbers(h.rows, h'.rows);
    FadesKeepsUnique(h.rows, h'.rows);
    forall i | 0 <= i < |h'.rows| && Active(h'.rows[i]) ensures Open(h'.admin, h'.rows[i].instanceId) {
      assert SameIdentity(h.rows[i], h'.rows[i]);
    }
  }

  lemma RevocationFades(h: Hub, sel: Selector, p: Patch, ts: int, who: Option<string>, action: string)
    ensures Fades(h.rows, RevokeSelected(h, sel, p, ts, who, action).rows)
    ensures RevokeSelected(h, sel, p, ts, who, action).admin == h.admin
  {
    PatchedFades(h.rows, Ids(Query(h.rows, sel)), p);
  }

  /** A cascade closes every row it selects, whoever else shares the id. */
  lemma RevokedAreInactive(rows: seq<Row>, sel: Selector, p: Patch, i: nat)
    requires i < |rows| && Selects(sel, rows[i])
    requires p.UserRevoke? || p.CascadeRevoke?
    ensures !Active(Patched(rows, Ids(Query(rows, sel)), p)[i])
  {
    assert rows[i] in Query(rows, sel);
  }

  // ---- Inserting ----

  lemma {:induction false} NextNumCounts(rows: seq<Row>, userSub: string, instanceId: string)
    requires Numbered(rows)
    ensures NextNum(rows, userSub, instanceId) == CountPair(rows, userSub, instanceId)
  {
    if |rows| > 0 {
      var front := rows[..|rows| - 1];
      NumberedPrefix(rows, |rows| - 1);
      NextNumCounts(front, userSub, instanceId);
    }
  }

  lemma NumberedPrefix(rows: seq<Row>, n: nat)
    requires Numbered(rows) && n <= |rows|
    ensures Numbered(rows[..n])
  {
    forall i | 0 <= i < n ensures rows[..n][..i] == rows[..i] {
    }
  }

  lemma InsertKeepsNumbers(rows: seq<Row>, r: Row)
    requires Numbered(rows)
    requires r.num == NextNum(rows, r.userSub, r.instanceId)
    requires r.id == RowIds.RowId(r.userSub, r.instanceId, r.num)
    ensures Numbered(rows + [r])
  {
    NextNumCounts(rows, r.userSub, r.instanceId);
    var all := rows + [r];
    forall i | 0 <= i < |all|
      ensures all[i].num == CountPair(all[..i], all[i].userSub, all[i].instanceId)
      ensures all[i].id == RowIds.RowId(all[i].userSub, all[i].instanceId, all[i].num)
    {
      assert all[..i] == rows[..i];
      if i == |rows| { assert rows[..i] == rows; }
    }
  }

  lemma InsertKeeps(h: Hub, user: User, instanceId: string, r: Row, now: int)
    requires Inv(h)
    requires Gate(h.admin, user, instanceId) == None
    requires r.userSub == user.sub && r.instanceId == instanceId
    requires r.num == NextNum(h.rows, user.sub, instanceId) && r.id == RowIds.RowId(user.sub, instanceId, r.num)
    requires Query(h.rows, OfSubject(user.sub, instanceId, r.subject)) == []
    ensures Inv(InsertRow(h, r, now))
  {
    InsertKeepsNumbers(h.rows, r);
    var rows' := h.rows + [r];
    forall i | 0 <= i < |h.rows| ensures !Selects(OfSubject(user.sub, instanceId, r.subject), h.rows[i]) {
      assert h.rows[i] in h.rows;
    }
    assert UniqueActive(rows');
  }

  // ---- Each call ----

  lemma GrantKeeps(h: Hub, user: User, instanceId: string, privacy: string, subject: string, displayLabel: string,
                   now: int)
    requires Inv(h)
    ensures Inv(Grant(h, user, instanceId, privacy, subject, displayLabel, now).0)
  {
    if Grant(h, user, instanceId, privacy, subject, displayLabel, now).1.Ok? {
      InsertKeeps(h, user, instanceId, NewRow(h, user, instanceId, subject, displayLabel, privacy, None, StubConnected,
          None, now), now);
    }
  }

  lemma RedeemKeeps(h: Hub, user: User, instanceId: string, provider: IdpAnswers, now: int)
    requires Inv(h) && Gate(h.admin, user, instanceId) == None
    ensures Inv(Redeem(h, user, instanceId, provider, now).0)
  {
    var (h', result) := Redeem(h, user, instanceId, provider, now);
    if result.Ok? {
      InsertKeeps(h, user, instanceId, result.value, now);
    }
  }

  lemma CompleteKeeps(h: Hub, user: User, instanceId: string, code: string, state: nat, provider: IdpAnswers, now: int)
    requires Inv(h)
    ensures Inv(Complete(h, user, instanceId, code, state, provider, now).0)
  {
    match OpenState(h, user, instanceId, state, now) {
      case Err(_) =>
      case Ok(flow) =>
        if Gate(h.admin, user, instanceId) == None {
          var doc := h.admin.instances[instanceId];
          match AdapterTenant(doc) {
            case Err(_) =>
            case Ok(tenant) =>
              RedeemKeeps(h.(calls := h.calls + [ExchangeCall(doc, tenant, flow, code)]), user, instanceId, provider,
                  now);
          }
        }
    }
  }

  lemma FetchTokenFades(h: Hub, id: string, skew: int, response: Option<TokenResponse>, now: int)
    ensures Fades(h.rows, FetchToken(h, id, skew, response, now).0.rows)
    ensures FetchToken(h, id, skew, response, now).0.admin == h.admin
  {
    PatchedFades(h.rows, {id}, MarkStale);
    var row := UsableRow(h.rows, id);
    if row.Some? {
      PatchedFades(h.rows, {row.value.id}, MarkStale);
      if response.Some? {
        PatchedFades(h.rows, {row.value.id}, StoreTokens(TokensFrom(response.value, now)));
      }
    }
  }

  /** A change of the admin tables, followed by a cascade over what is no longer open. */
  lemma CascadeKeeps(h: Hub, h1: Hub, sel: Selector, p: Patch, ts: int, who: Option<string>, action: string)
    requires Inv(h) && h1.rows == h.rows
    requires p.UserRevoke? || p.CascadeRevoke?
    requires forall i :: 0 <= i < |h.rows| && Active(h.rows[i]) ==>
               Selects(sel, h.rows[i]) || Open(h1.admin, h.rows[i].instanceId)
    ensures Inv(RevokeSelected(h1, sel, p, ts, who, action))
  {
    var h' := RevokeSelected(h1, sel, p, ts, who, action);
    PatchedFades(h.rows, Ids(Query(h.rows, sel)), p);
    FadesKeepsNumbers(h.rows, h'.rows);
    FadesKeepsUnique(h.rows, h'.rows);
    forall i | 0 <= i < |h'.rows| && Active(h'.rows[i]) ensures Open(h'.admin, h'.rows[i].instanceId) {
      if Selects(sel, h.rows[i]) {
        RevokedAreInactive(h.rows, sel, p, i);
      }
      assert SameIdentity(h.rows[i], h'.rows[i]);
    }
  }

  /** A change of the admin tables that leaves every instance with an active row open. */
  lemma OpenKeeps(h: Hub, h1: Hub)
    requires Inv(h) && h1.rows == h.rows
    requires forall i :: 0 <= i < |h.rows| && Active(h.rows[i]) ==> Open(h1.admin, h.rows[i].instanceId)
    ensures Inv(h1)
  {
  }

  lemma CreateKeeps(c: Config, h: Hub, actor: Admin.Actor, r: Integrations.CreateRequest, now: int)
    requires Inv(h)
    ensures Inv(AdminStep(c, h, Admin.CreateInstance(actor, r), now))
  {
    Admin.StepInstances(c.env, h.admin, Admin.CreateInstance(actor, r), now);
    OpenKeeps(h, AdminStep(c, h, Admin.CreateInstance(actor, r), now));
  }

  lemma LlmKeeps(c: Config, h: Hub, op: Admin.Op, now: int)
    requires Inv(h) && op.UpdateLlm?
    ensures Inv(AdminStep(c, h, op, now))
  {
    Admin.StepInstances(c.env, h.admin, op, now);
    OpenKeeps(h, AdminStep(c, h, op, now));
  }

  /** An update stores at most a new document under an id that is there already. */
  lemma UpdateEffect(env: Admin.Env, t: Admin.Tables, actor: Admin.Actor, id: string, r: Integrations.UpdateRequest,
                     now: int)
    ensures var t1 := Admin.Update(env, t, actor, id, r, now).0;
      && t1.siam == t.siam && t1.instances.Keys == t.instances.Keys
      && forall i :: i in t.instances && i != id ==> t1.instances[i] == t.instances[i]
  {
    Admin.StepInstances(env, t, Admin.UpdateInstance(actor, id, r), now);
  }

  lemma UpdateCascadeKeeps(h: Hub, t1: Admin.Tables, id: string, now: int)
    requires Inv(h)
    requires t1.siam == h.admin.siam && t1.instances.Keys == h.admin.instances.Keys
    requires forall i :: i in t1.instances && i != id ==> t1.instances[i] == h.admin.instances[i]
    ensures var h1 := h.(admin := t1);
      Inv(if EnabledIn(h.admin, id) && !EnabledIn(t1, id) then RevokeAllForInstance(h1, id, BY_DISABLE, now).0 else h1)
  {
    var h1 := h.(admin := t1);
    if EnabledIn(h.admin, id) && !EnabledIn(t1, id) {
      CascadeKeeps(h, h1, OfInstance(id), CascadeRevoke(now, BY_DISABLE), now, None, BY_DISABLE);
    } else {
      OpenKeeps(h, h1);
    }
  }

  lemma UpdateKeeps(c: Config, h: Hub, actor: Admin.Actor, id: string, r: Integrations.UpdateRequest, now: int)
    requires Inv(h)
    ensures Inv(AdminStep(c, h, Admin.UpdateInstance(actor, id, r), now))
  {
    UpdateEffect(c.env, h.admin, actor, id, r, now);
    UpdateCascadeKeeps(h, Admin.Update(c.env, h.admin, actor, id, r, now).0, id, now);
  }

  lemma DeleteEffect(env: Admin.Env, t: Admin.Tables, actor: Admin.Actor, id: string, now: int)
    ensures Admin.Delete(env, t, actor, id, now).0.instances == t.instances - {id}
    ensures Admin.Delete(env, t, actor, id, now).0.siam == t.siam
  {
    Admin.StepInstances(env, t, Admin.DeleteInstance(actor, id), now);
  }

  lemma DeleteCascadeKeeps(h: Hub, t1: Admin.Tables, id: string, now: int)
    requires Inv(h)
    requires t1.instances == h.admin.instances - {id} && t1.siam == h.admin.siam
    ensures Inv(RevokeAllForInstance(h.(admin := t1), id, BY_DELETE, now).0)
  {
    CascadeKeeps(h, h.(admin := t1), OfInstance(id), CascadeRevoke(now, BY_DELETE), now, None, BY_DELETE);
  }

  lemma DeleteKeeps(c: Config, h: Hub, actor: Admin.Actor, id: string, now: int)
    requires Inv(h)
    ensures Inv(AdminStep(c, h, Admin.DeleteInstance(actor, id), now))
  {
    DeleteEffect(c.env, h.admin, actor, id, now);
    if id in h.admin.instances {
      DeleteCascadeKeeps(h, Admin.Delete(c.env, h.admin, actor, id, now).0, id, now);
    }
  }

  lemma ReplaceKeeps(c: Config, h: Hub, actor: Admin.Actor, mapping: Siam.Json, now: int)
    requires Inv(h)
    ensures Inv(AdminStep(c, h, Admin.ReplaceMapping(actor, mapping), now))
  {
    var h1 := h.(admin := Admin.Replace(c.env, h.admin, actor, mapping, now).0);
    var before, after := Admin.Mapping(h.admin), Admin.Mapping(h1.admin);
    if before != after {
      CascadeKeeps(h, h1, Orphaned(before, after), CascadeRevoke(now, BY_SIAM), now, None, BY_SIAM);
    } else {
      OpenKeeps(h, h1);
    }
  }

  lemma AdminKeeps(c: Config, h: Hub, op: Admin.Op, now: int)
    requires Inv(h)
    ensures Inv(AdminStep(c, h, op, now))
  {
    match op {
      case CreateInstance(actor, r) => CreateKeeps(c, h, actor, r, now);
      case UpdateInstance(actor, id, r) => UpdateKeeps(c, h, actor, id, r, now);
      case DeleteInstance(actor, id) => DeleteKeeps(c, h, actor, id, now);
      case ReplaceMapping(actor, mapping) => ReplaceKeeps(c, h, actor, mapping, now);
      case UpdateLlm(_, _, _) => LlmKeeps(c, h, op, now);
    }
  }

  lemma RevokeKeeps(h: Hub, user: User, instanceId: string, only: Option<string>, now: int)
    requires Inv(h)
    ensures Inv(Revoke(h, user, instanceId, only, now).0)
  {
    PatchedFades(h.rows, Ids(Query(h.rows, RevokeSelector(user, instanceId, only))), UserRevoke(now));
    if Revoke(h, user, instanceId, only, now).1.Ok? {
      FadeKeeps(h, Revoke(h, user, instanceId, only, now).0);
    }
  }

  lemma InitiateFades(c: Config, h: Hub, user: User, instanceId: string, redirectUri: string, codeVerifier: string,
                      nonce: string, now: int)
    ensures var h' := Initiate(c, h, user, instanceId, redirectUri, codeVerifier, nonce, now).0;
      h'.rows == h.rows && h'.admin == h.admin && h'.events == h.events && h'.calls == h.calls
  {
  }

  lemma StepKeeps(c: Config, h: Hub, op: Op)
    requires Inv(h)
    ensures Inv(Step(c, h, op))
  {
    match op {
      case GrantOp(u, i, p, s, l, now) => GrantKeeps(h, u, i, p, s, l, now);
      case CompleteOp(u, i, code, state, provider, now) => CompleteKeeps(h, u, i, code, state, provider, now);
      case AdminOp(adminOp, now) => AdminKeeps(c, h, adminOp, now);
      case RevokeOp(u, i, only, now) => RevokeKeeps(h, u, i, only, now);
      case InitiateOp(u, i, redirect, verifier, nonce, now) =>
        InitiateFades(c, h, u, i, redirect, verifier, nonce, now);
        FadeKeeps(h, Step(c, h, op));
      case FetchTokenOp(id, skew, response, now) =>
        FetchTokenFades(h, id, skew, response, now);
        FadeKeeps(h, Step(c, h, op));
    }
  }

  lemma {:induction false} RunKeeps(c: Config, llm: map<string, Admin.Llm.Stored>, ops: seq<Op>)
    ensures Inv(Run(c, llm, ops))
  {
    if |ops| > 0 {
      RunKeeps(c, llm, ops[..|ops| - 1]);
      StepKeeps(c, Run(c, llm, ops[..|ops| - 1]), ops[|ops| - 1]);
    }
  }
}
