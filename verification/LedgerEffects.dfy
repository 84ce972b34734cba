/** The four things a call can do to rows and events, and which of them each call does. */
module LedgerEffects {
  import opened Wrappers
  import opened Ledger
  import opened LedgerInvariants
  import opened LedgerRuns
  import opened SharedIds
  import RowIds
  import Siam
  import Admin

  datatype Effect =
    | Nothing
    | Inserted(row: Row, at: int)
    | Closed(sel: Selector, patch: Patch, ts: int, who: Option<string>, action: string)
    | Touched(id: string, patch: Patch)

  function AdminEffect(c: Config, h: Hub, op: Admin.Op, now: int): Effect {
    var t1 := Admin.Step(c.env, h.admin, op, now);
    match op
    case UpdateInstance(_, id, _) =>
      if EnabledIn(h.admin, id) && !EnabledIn(t1, id)
      then Closed(OfInstance(id), CascadeRevoke(now, BY_DISABLE), now, None, BY_DISABLE) else Nothing
    case DeleteInstance(_, id) =>
      if id in h.admin.instances
      then Closed(OfInstance(id), CascadeRevoke(now, BY_DELETE), now, None, BY_DELETE) else Nothing
    case ReplaceMapping(_, _) =>
      var before, after := Admin.Mapping(h.admin), Admin.Mapping(t1);
      if before != after then Closed(Orphaned(before, after), CascadeRevoke(now, BY_SIAM), now, None, BY_SIAM)
          else Nothing
    case _ => Nothing
  }

  function FetchEffect(h: Hub, id: string, skew: int, response: Option<TokenResponse>, now: int): Effect {
    match UsableRow(h.rows, id)
    case None => Nothing
    case Some(row) =>
      if row.creds.value.Unreadable? then Touched(row.id, MarkStale)
      else if row.creds.value.tokens.expiresAt - skew > now then Nothing
      else if RefreshCall(h.admin, row, row.creds.value.tokens).None? || response.None? then Touched(row.id, MarkStale)
      else Touched(row.id, StoreTokens(TokensFrom(response.value, now)))
  }

  function EffectOf(c: Config, h: Hub, op: Op): Effect {
    match op
    case GrantOp(u, i, p, s, l, now) =>
      var result := Grant(h, u, i, p, s, l, now).1;
      if result.Ok? then Inserted(result.value, now) else Nothing
    case RevokeOp(u, i, only, now) =>
      var sel := RevokeSelector(u, i, only);
      if Query(h.rows, sel) != [] then Closed(sel, UserRevoke(now), now, Some(u.username), REVOKED) else Nothing
    case InitiateOp(_, _, _, _, _, _) => Nothing
    case CompleteOp(u, i, code, state, provider, now) =>
      var result := Complete(h, u, i, code, state, provider, now).1;
      if result.Ok? then Inserted(result.value, now) else Nothing
    case FetchTokenOp(id, skew, response, now) => FetchEffect(h, id, skew, response, now)
    case AdminOp(adminOp, now) => AdminEffect(c, h, adminOp, now)
  }

  /** A row as inserted: active, never revoked, with the next number of its user and instance. */
  predicate FreshRow(rows: seq<Row>, r: Row) {
    && Active(r) && r.revokedBy.None?
    && r.num == NextNum(rows, r.userSub, r.instanceId)
    && r.id == RowIds.RowId(r.userSub, r.instanceId, r.num)
    && (if r.creds.Some? then r.status == Connected else r.status == StubConnected)
  }

  /** The recorded action says how the row was closed. */
  predicate ActionMatches(p: Patch, action: string) {
    match p
    case UserRevoke(_) => action == REVOKED
    case CascadeRevoke(_, reason) => action == reason && action != GRANTED
    case _ => false
  }

  ghost predicate Shows(h: Hub, h': Hub, e: Effect) {
    match e
    case Nothing => h'.rows == h.rows && h'.events == h.events
    case Inserted(row, at) =>
      && FreshRow(h.rows, row) && h'.rows == h.rows + [row]
      && h'.events == h.events + [EventOf(row, at, row.username, GRANTED)]
    case Closed(sel, p, ts, who, action) =>
      && ActionMatches(p, action)
      && h'.rows == Patched(h.rows, Ids(Query(h.rows, sel)), p)
      && h'.events == h.events + EventsOf(Query(h.rows, sel), ts, who, action)
    case Touched(id, p) =>
      && (p.MarkStale? || p.StoreTokens?)
      && UsableRow(h.rows, id).Some? && UsableRow(h.rows, id).value.id == id
      && h'.rows == Patched(h.rows, {id}, p)
      && h'.events == h.events
  }

  lemma {:induction false} RowByIdHasId(rows: seq<Row>, id: string)
    requires RowById(rows, id).Some?
    ensures RowById(rows, id).value.id == id && RowById(rows, id).value in rows
  {
    if RowById(rows[..|rows| - 1], id).Some? {
      RowByIdHasId(rows[..|rows| - 1], id);
    }
  }

  lemma GrantShows(h: Hub, u: User, i: string, p: string, s: string, l: string, now: int)
    ensures var (h', result) := Grant(h, u, i, p, s, l, now);
      Shows(h, h', if result.Ok? then Inserted(result.value, now) else Nothing)
  {
  }

  lemma RedeemShows(h: Hub, u: User, i: string, provider: IdpAnswers, now: int)
    ensures var (h', result) := Redeem(h, u, i, provider, now);
      Shows(h, h', if result.Ok? then Inserted(result.value, now) else Nothing)
  {
  }

  lemma CompleteShows(h: Hub, u: User, i: string, code: string, state: nat, provider: IdpAnswers, now: int)
    ensures var (h', result) := Complete(h, u, i, code, state, provider, now);
      Shows(h, h', if result.Ok? then Inserted(result.value, now) else Nothing)
  {
    var flow := OpenState(h, u, i, state, now);
    if flow.Ok? && Gate(h.admin, u, i) == None {
      var doc := h.admin.instances[i];
      var tenant := AdapterTenant(doc);
      if tenant.Ok? {
        RedeemShows(h.(calls := h.calls + [ExchangeCall(doc, tenant.value, flow.value, code)]), u, i, provider, now);
      }
    }
  }

  lemma FetchShows(h: Hub, id: string, skew: int, response: Option<TokenResponse>, now: int)
    ensures Shows(h, FetchToken(h, id, skew, response, now).0, FetchEffect(h, id, skew, response, now))
  {
    if UsableRow(h.rows, id).Some? {
      RowByIdHasId(h.rows, id);
    }
  }

  lemma AdminShows(c: Config, h: Hub, op: Admin.Op, now: int)
    ensures Shows(h, AdminStep(c, h, op, now), AdminEffect(c, h, op, now))
  {
  }

  /** Every call shows exactly the effect it is given here. */
  lemma StepShows(c: Config, h: Hub, op: Op)
    ensures Shows(h, Step(c, h, op), EffectOf(c, h, op))
  {
    match op {
      case GrantOp(u, i, p, s, l, now) => GrantShows(h, u, i, p, s, l, now);
      case RevokeOp(_, _, _, _) =>
      case InitiateOp(u, i, redirect, verifier, nonce, now) =>
        InitiateFades(c, h, u, i, redirect, verifier, nonce, now);
      case CompleteOp(u, i, code, state, provider, now) => CompleteShows(h, u, i, code, state, provider, now);
      case FetchTokenOp(id, skew, response, now) => FetchShows(h, id, skew, response, now);
      case AdminOp(adminOp, now) => AdminShows(c, h, adminOp, now);
    }
  }

  /** Rows are never removed and never change identity. */
  lemma RowsAreKept(c: Config, h: Hub, op: Op)
    ensures |h.rows| <= |Step(c, h, op).rows|
    ensures Fades(h.rows, Step(c, h, op).rows[..|h.rows|])
  {
    StepShows(c, h, op);
    ShownRowsAreKept(h, Step(c, h, op), EffectOf(c, h, op));
  }

  lemma ShownRowsAreKept(h: Hub, h': Hub, e: Effect)
    requires Shows(h, h', e)
    ensures |h.rows| <= |h'.rows| && Fades(h.rows, h'.rows[..|h.rows|])
  {
    if e.Inserted? {
      assert h'.rows[..|h.rows|] == h.rows;
    } else {
      assert h'.rows[..|h.rows|] == h'.rows;
    }
  }

  /** So an id that is a row's own at the end of a run was its own all along. */
  lemma OwnBefore(c: Config, h: Hub, op: Op, i: nat)
    requires i < |h.rows| && i < |Step(c, h, op).rows| && OwnId(Step(c, h, op).rows, i)
    ensures OwnId(h.rows, i)
  {
    RowsAreKept(c, h, op);
    var rows' := Step(c, h, op).rows;
    forall j | 0 <= j < |h.rows| && h.rows[j].id == h.rows[i].id ensures j == i {
      assert SameIdentity(h.rows[i], rows'[..|h.rows|][i]) && SameIdentity(h.rows[j], rows'[..|h.rows|][j]);
    }
  }

  lemma OwnIdsBefore(c: Config, h: Hub, op: Op, userSub: string, instanceId: string)
    requires OwnIds(Step(c, h, op).rows, userSub, instanceId)
    ensures OwnIds(h.rows, userSub, instanceId)
  {
    RowsAreKept(c, h, op);
    forall i | 0 <= i < |h.rows| && OfPair(h.rows[i], userSub, instanceId) ensures OwnId(h.rows, i) {
      assert SameIdentity(h.rows[i], Step(c, h, op).rows[..|h.rows|][i]);
      OwnBefore(c, h, op, i);
    }
  }

  // ---- Colon-free runs ----

  /** The calls that can insert a row. */
  predicate Connects(op: Op) {
    op.GrantOp? || op.CompleteOp?
  }

  lemma RedeemNamesCaller(h: Hub, user: User, instanceId: string, provider: IdpAnswers, now: int)
    ensures var result := Redeem(h, user, instanceId, provider, now).1;
      result.Ok? ==> OfPair(result.value, user.sub, instanceId)
  {
  }

  lemma CompleteNamesCaller(h: Hub, u: User, i: string, code: string, state: nat, provider: IdpAnswers, now: int)
    ensures var result := Complete(h, u, i, code, state, provider, now).1;
      result.Ok? ==> OfPair(result.value, u.sub, i)
  {
    var flow := OpenState(h, u, i, state, now);
    if flow.Ok? && Gate(h.admin, u, i) == None && AdapterTenant(h.admin.instances[i]).Ok? {
      var call := ExchangeCall(h.admin.instances[i], AdapterTenant(h.admin.instances[i]).value, flow.value, code);
      RedeemNamesCaller(h.(calls := h.calls + [call]), u, i, provider, now);
    }
  }

  lemma InsertedNamesCaller(c: Config, h: Hub, op: Op)
    requires EffectOf(c, h, op).Inserted?
    ensures Connects(op) && OfPair(EffectOf(c, h, op).row, op.user.sub, op.instanceId)
  {
    match op {
      case GrantOp(_, _, _, _, _, _) =>
      case CompleteOp(u, i, code, state, provider, now) => CompleteNamesCaller(h, u, i, code, state, provider, now);
      case FetchTokenOp(_, _, _, _) =>
      case AdminOp(_, _) =>
      case RevokeOp(_, _, _, _) =>
      case InitiateOp(_, _, _, _, _, _) =>
    }
  }

  /** Every row names the user and the instance of a call that connects. */
  lemma {:induction false} RowsNameCallers(c: Config, llm: LlmRow, ops: seq<Op>, r: Row)
    requires r in Run(c, llm, ops).rows
    ensures exists op :: op in ops && Connects(op) && OfPair(r, op.user.sub, op.instanceId)
  {
    if |ops| > 0 {
      var front, last := ops[..|ops| - 1], ops[|ops| - 1];
      var h, h' := Run(c, llm, front), Run(c, llm, ops);
      var i :| 0 <= i < |h'.rows| && h'.rows[i] == r;
      if i < |h.rows| {
        RowsAreKept(c, h, last);
        assert SameIdentity(h.rows[i], h'.rows[..|h.rows|][i]);
        RowsNameCallers(c, llm, front, h.rows[i]);
        var op :| op in front && Connects(op) && OfPair(h.rows[i], op.user.sub, op.instanceId);
        assert op in ops && OfPair(r, op.user.sub, op.instanceId);
      } else {
        StepShows(c, h, last);
        InsertedNamesCaller(c, h, last);
        assert last in ops && OfPair(r, last.user.sub, last.instanceId);
      }
    }
  }

  /** When the connecting users' subs, or the instances they name, are colon-free, all row ids are distinct. */
  lemma ColonFreeGivesDistinctIds(c: Config, llm: LlmRow, ops: seq<Op>)
    requires (forall op :: op in ops && Connects(op) ==> RowIds.ColonFree(op.user.sub))
          || (forall op :: op in ops && Connects(op) ==> RowIds.ColonFree(op.instanceId))
    ensures DistinctIds(Run(c, llm, ops).rows)
  {
    var rows := Run(c, llm, ops).rows;
    forall r | r in rows
      ensures exists op :: op in ops && Connects(op) && OfPair(r, op.user.sub, op.instanceId)
    {
      RowsNameCallers(c, llm, ops, r);
    }
    RunKeeps(c, llm, ops);
    ColonFreeIsJoinFree(rows);
    IdsAreDistinctIffJoinFree(rows);
  }
}
