/** What holds after any run of the ledger, from empty tables. */
module LedgerRuns {
  import opened Wrappers
  import opened Registry
  import opened Ledger
  import opened LedgerInvariants
  import opened SharedIds
  import Siam
  import Integrations
  import Admin

  type LlmRow = map<string, Admin.Llm.Stored>

  // ---- Authorization of active rows ----

  /** Every active row is on an instance that exists, is enabled, and is mapped by some role now. */
  lemma ActiveRowsAreAuthorized(c: Config, llm: LlmRow, ops: seq<Op>, r: Row)
    requires r in Run(c, llm, ops).rows && Active(r)
    ensures var t := Run(c, llm, ops).admin;
      && r.instanceId in t.instances
      && t.instances[r.instanceId].enabled
      && exists role :: role in Admin.Mapping(t) && r.instanceId in Admin.Mapping(t)[role]
  {
    RunKeeps(c, llm, ops);
    var h := Run(c, llm, ops);
    var i :| 0 <= i < |h.rows| && h.rows[i] == r;
    assert Open(h.admin, r.instanceId);
  }

  /**
   The cascade's "already orphan, skip" branch changes nothing: whatever the new mapping,
   it selects every active row that no role lists any more.
   */
  lemma OrphanSkipIsHarmless(c: Config, llm: LlmRow, ops: seq<Op>, after: Siam.Mapping, r: Row)
    requires r in Run(c, llm, ops).rows
    ensures Selects(Orphaned(Admin.Mapping(Run(c, llm, ops).admin), after), r)
       <==> Active(r) && !Siam.Mapped(after, r.instanceId)
  {
    if Active(r) {
      ActiveRowsAreAuthorized(c, llm, ops, r);
    }
  }

  // ---- Replacing the mapping ----

  /**
   Replacing the mapping stores its normal form and closes every active row whose instance
   some role listed before and none lists after. Any other row stays as it was exactly when
   it shares its id with none of those, or is already what the update would make of it.
   */
  lemma ReplaceClosesOrphans(c: Config, h: Hub, actor: Admin.Actor, mapping: Siam.Json, now: int, i: nat)
    requires i < |h.rows|
    ensures var h' := AdminStep(c, h, Admin.ReplaceMapping(actor, mapping), now);
      var before, after := Admin.Mapping(h.admin), Siam.Normalize(mapping);
      var sel, p, r := Orphaned(before, after), CascadeRevoke(now, BY_SIAM), h.rows[i];
      && Admin.Mapping(h'.admin) == after
      && |h'.rows| == |h.rows|
      && (Selects(sel, r) <==> Active(r) && Siam.Mapped(before, r.instanceId) && !Siam.Mapped(after, r.instanceId))
      && (if Selects(sel, r) then h'.rows[i] == ApplyPatch(r, p) else h'.rows[i] == r <==> Spares(h.rows, sel, p, i))
  {
    var before, after := Admin.Mapping(h.admin), Siam.Normalize(mapping);
    ReplaceEffect(c, h, actor, mapping, now);
    if before == after {
      NothingOrphaned(h.rows, after);
    } else {
      ReachedOutcome(h.rows, Orphaned(before, after), CascadeRevoke(now, BY_SIAM), i);
    }
  }

  /**
   The cascade asks whether any role lists the instance, not whether one of the owner's
   does. So after a replace an active row is left only to owners with access exactly when
   the new mapping, if it lists the instance at all, lists it under a role of the owner.
   */
  lemma OwnersKeepAccessIff(c: Config, llm: LlmRow, ops: seq<Op>, actor: Admin.Actor, mapping: Siam.Json, now: int,
                            i: nat, roles: seq<string>)
    requires var rows := Run(c, llm, ops).rows; i < |rows| && OwnId(rows, i) && Active(rows[i])
    ensures var h := Run(c, llm, ops);
      var h' := AdminStep(c, h, Admin.ReplaceMapping(actor, mapping), now);
      var after, instanceId := Siam.Normalize(mapping), h.rows[i].instanceId;
      && |h'.rows| == |h.rows|
      && ((Active(h'.rows[i]) ==> Siam.Authorized(after, roles, instanceId))
          <==> (Siam.Mapped(after, instanceId) ==> Siam.Authorized(after, roles, instanceId)))
  {
    var h := Run(c, llm, ops);
    RunKeeps(c, llm, ops);
    assert Open(h.admin, h.rows[i].instanceId);
    ReplaceOnOwnRow(c, h, actor, mapping, now, i);
  }

  lemma NothingOrphaned(rows: seq<Row>, m: Siam.Mapping)
    ensures Query(rows, Orphaned(m, m)) == []
  {
  }

  /** So a row whose id is its own is closed or left alone as its own instance says. */
  lemma ReplaceOnOwnRow(c: Config, h: Hub, actor: Admin.Actor, mapping: Siam.Json, now: int, i: nat)
    requires i < |h.rows| && OwnId(h.rows, i)
    ensures var h' := AdminStep(c, h, Admin.ReplaceMapping(actor, mapping), now);
      var before, after := Admin.Mapping(h.admin), Siam.Normalize(mapping);
      && |h'.rows| == |h.rows|
      && h'.rows[i] ==
         if Selects(Orphaned(before, after), h.rows[i]) then ApplyPatch(h.rows[i], CascadeRevoke(now, BY_SIAM))
             else h.rows[i]
  {
    ReplaceClosesOrphans(c, h, actor, mapping, now, i);
    SelectedById(h.rows, Orphaned(Admin.Mapping(h.admin), Siam.Normalize(mapping)), i);
  }

  lemma ReplaceStep(c: Config, h: Hub, actor: Admin.Actor, mapping: Siam.Json, now: int)
    ensures var op := Admin.ReplaceMapping(actor, mapping);
      var h1 := h.(admin := Admin.Step(c.env, h.admin, op, now));
      var before, after := Admin.Mapping(h.admin), Siam.Normalize(mapping);
      AdminStep(c, h, op, now) == if before != after then RevokeNoLongerAuthorized(h1, before, after, now).0 else h1
  {
    Siam.NormalizeIsIdempotent(mapping);
  }

  lemma ReplaceEffect(c: Config, h: Hub, actor: Admin.Actor, mapping: Siam.Json, now: int)
    ensures var h' := AdminStep(c, h, Admin.ReplaceMapping(actor, mapping), now);
      var before, after := Admin.Mapping(h.admin), Siam.Normalize(mapping);
      && Admin.Mapping(h'.admin) == after
      && (if before != after
          then h'.rows == Patched(h.rows, Ids(Query(h.rows, Orphaned(before, after))), CascadeRevoke(now, BY_SIAM))
          else h'.rows == h.rows)
  {
    Siam.NormalizeIsIdempotent(mapping);
    ReplaceStep(c, h, actor, mapping, now);
  }

  // ---- Numbering ----

  function Numbers(rows: seq<Row>, userSub: string, instanceId: string): seq<nat> {
    if |rows| == 0 then []
    else
      var last := rows[|rows| - 1];
      Numbers(rows[..|rows| - 1], userSub, instanceId)
      + if last.userSub == userSub && last.instanceId == instanceId then [last.num] else []
  }

  lemma {:induction false} NumberedCountsUp(rows: seq<Row>, userSub: string, instanceId: string)
    requires Numbered(rows)
    ensures |Numbers(rows, userSub, instanceId)| == CountPair(rows, userSub, instanceId)
    ensures forall k :: 0 <= k < |Numbers(rows, userSub, instanceId)| ==> Numbers(rows, userSub, instanceId)[k] == k
  {
    if |rows| > 0 {
      NumberedPrefix(rows, |rows| - 1);
      NumberedCountsUp(rows[..|rows| - 1], userSub, instanceId);
      assert rows[|rows| - 1].num == CountPair(rows[..|rows| - 1], rows[|rows| - 1].userSub,
          rows[|rows| - 1].instanceId);
    }
  }

  /** For each user and instance the numbers, in insertion order, are 0, 1, 2, … without a gap. */
  lemma NumbersCountUp(c: Config, llm: LlmRow, ops: seq<Op>, userSub: string, instanceId: string)
    ensures var numbers := Numbers(Run(c, llm, ops).rows, userSub, instanceId);
      forall k :: 0 <= k < |numbers| ==> numbers[k] == k
  {
    RunKeeps(c, llm, ops);
    NumberedCountsUp(Run(c, llm, ops).rows, userSub, instanceId);
  }

  lemma OneActiveRowPerSubject(c: Config, llm: LlmRow, ops: seq<Op>, i: nat, j: nat)
    requires var rows := Run(c, llm, ops).rows;
      i < |rows| && j < |rows| && Active(rows[i]) && Active(rows[j]) && SameAccount(rows[i], rows[j])
    ensures i == j
  {
    RunKeeps(c, llm, ops);
    UniqueSameRow(Run(c, llm, ops).rows, i, j);
  }

  lemma UniqueSameRow(rows: seq<Row>, i: nat, j: nat)
    requires UniqueActive(rows) && i < |rows| && j < |rows|
    requires Active(rows[i]) && Active(rows[j]) && SameAccount(rows[i], rows[j])
    ensures i == j
  {
  }

  // ---- Single-cardinality types ----

  /** What the HTTP routes can ask for: the single-shot grant never names a subject. */
  predicate FromRoutes(op: Op) {
    op.GrantOp? ==> op.subject == ""
  }

  ghost predicate NamedOnlyOnGraph(h: Hub) {
    forall i :: 0 <= i < |h.rows| && Active(h.rows[i]) && h.rows[i].subject != "" ==>
      h.rows[i].instanceId in h.admin.instances && h.admin.instances[h.rows[i].instanceId].typ == OUTLOOK_GRAPH
  }

  lemma AdminKeepsTypes(c: Config, t: Admin.Tables, op: Admin.Op, now: int, id: string)
    requires id in t.instances && id in Admin.Step(c.env, t, op, now).instances
    ensures Admin.Step(c.env, t, op, now).instances[id].typ == t.instances[id].typ
  {
    Admin.StepInstances(c.env, t, op, now);
  }

  lemma CompleteNamesOnGraph(h: Hub, user: User, instanceId: string, code: string, state: nat, provider: IdpAnswers,
                             now: int)
    ensures var h' := Complete(h, user, instanceId, code, state, provider, now).0;
      && h'.admin == h.admin
      && (h'.rows == h.rows
          || (|h'.rows| == |h.rows| + 1 && h'.rows[..|h.rows|] == h.rows
              && h'.rows[|h.rows|].instanceId == instanceId && instanceId in h.admin.instances
              && h.admin.instances[instanceId].typ == OUTLOOK_GRAPH))
  {
  }

  /** No call brings an inactive row back, and no call but a completed OAuth flow inserts a named one. */
  lemma RowsFade(c: Config, h: Hub, op: Op)
    requires FromRoutes(op)
    ensures var h' := Step(c, h, op);
      && |h.rows| <= |h'.rows| <= |h.rows| + 1
      && Fades(h.rows, h'.rows[..|h.rows|])
      && (|h'.rows| > |h.rows| && h'.rows[|h.rows|].subject != "" ==>
            op.CompleteOp? && h'.rows[|h.rows|].instanceId == op.instanceId
            && op.instanceId in h.admin.instances && h.admin.instances[op.instanceId].typ == OUTLOOK_GRAPH
            && h'.admin == h.admin)
  {
    var h' := Step(c, h, op);
    match op {
      case GrantOp(_, _, _, _, _, _) => assert h'.rows[..|h.rows|] == h.rows;
      case CompleteOp(u, i, code, state, provider, now) =>
        CompleteNamesOnGraph(h, u, i, code, state, provider, now);
        assert h'.rows[..|h.rows|] == h.rows;
      case FetchTokenOp(id, skew, response, now) =>
        FetchTokenFades(h, id, skew, response, now);
        assert h'.rows[..|h.rows|] == h'.rows;
      case AdminOp(adminOp, now) =>
        AdminFades(c, h, adminOp, now);
        assert h'.rows[..|h.rows|] == h'.rows;
      case RevokeOp(u, i, only, now) =>
        PatchedFades(h.rows, Ids(Query(h.rows, RevokeSelector(u, i, only))), UserRevoke(now));
        assert h'.rows[..|h.rows|] == h'.rows;
      case InitiateOp(u, i, redirect, verifier, nonce, now) =>
        InitiateFades(c, h, u, i, redirect, verifier, nonce, now);
        assert h'.rows[..|h.rows|] == h.rows;
    }
  }

  lemma AdminFades(c: Config, h: Hub, op: Admin.Op, now: int)
    ensures Fades(h.rows, AdminStep(c, h, op, now).rows)
    ensures AdminStep(c, h, op, now).admin == Admin.Step(c.env, h.admin, op, now)
  {
    var h1 := h.(admin := Admin.Step(c.env, h.admin, op, now));
    match op {
      case UpdateInstance(_, id, _) =>
        RevocationFades(h1, OfInstance(id), CascadeRevoke(now, BY_DISABLE), now, None, BY_DISABLE);
      case DeleteInstance(_, id) =>
        RevocationFades(h1, OfInstance(id), CascadeRevoke(now, BY_DELETE), now, None, BY_DELETE);
      case ReplaceMapping(_, _) =>
        RevocationFades(h1, Orphaned(Admin.Mapping(h.admin), Admin.Mapping(h1.admin)), CascadeRevoke(now, BY_SIAM),
            now, None, BY_SIAM);
      case _ =>
    }
  }

  /** Only admin calls change the admin tables. */
  lemma OthersKeepAdmin(c: Config, h: Hub, op: Op)
    requires !op.AdminOp?
    ensures Step(c, h, op).admin == h.admin
  {
    match op {
      case FetchTokenOp(rowId, skew, response, now) => FetchTokenFades(h, rowId, skew, response, now);
      case InitiateOp(u, i, redirect, verifier, nonce, now) =>
        InitiateFades(c, h, u, i, redirect, verifier, nonce, now);
      case GrantOp(_, _, _, _, _, _) =>
      case CompleteOp(_, _, _, _, _, _) =>
      case RevokeOp(_, _, _, _) =>
    }
  }

  /** Rows that fade keep their instance, and instances that stay keep their type. */
  lemma NamedStays(h: Hub, h': Hub)
    requires NamedOnlyOnGraph(h) && ActiveAreOpen(h')
    requires |h.rows| <= |h'.rows| <= |h.rows| + 1 && Fades(h.rows, h'.rows[..|h.rows|])
    requires forall id :: id in h.admin.instances && id in h'.admin.instances ==>
                            h'.admin.instances[id].typ == h.admin.instances[id].typ
    requires |h'.rows| > |h.rows| && h'.rows[|h.rows|].subject != "" ==>
               var id := h'.rows[|h.rows|].instanceId;
               id in h.admin.instances && h.admin.instances[id].typ == OUTLOOK_GRAPH
    ensures NamedOnlyOnGraph(h')
  {
    forall i | 0 <= i < |h'.rows| && Active(h'.rows[i]) && h'.rows[i].subject != ""
      ensures h'.rows[i].instanceId in h'.admin.instances
      ensures h'.admin.instances[h'.rows[i].instanceId].typ == OUTLOOK_GRAPH
    {
      assert Open(h'.admin, h'.rows[i].instanceId);
      if i < |h.rows| {
        assert SameIdentity(h.rows[i], h'.rows[..|h.rows|][i]);
      }
    }
  }

  lemma NamedStep(c: Config, h: Hub, op: Op)
    requires Inv(h) && NamedOnlyOnGraph(h) && FromRoutes(op)
    ensures NamedOnlyOnGraph(Step(c, h, op))
  {
    var h' := Step(c, h, op);
    StepKeeps(c, h, op);
    RowsFade(c, h, op);
    forall id | id in h.admin.instances && id in h'.admin.instances
      ensures h'.admin.instances[id].typ == h.admin.instances[id].typ
    {
      TypesStay(c, h, op, id);
    }
    NamedStays(h, h');
  }

  lemma TypesStay(c: Config, h: Hub, op: Op, id: string)
    requires id in h.admin.instances && id in Step(c, h, op).admin.instances
    ensures Step(c, h, op).admin.instances[id].typ == h.admin.instances[id].typ
  {
    match op {
      case AdminOp(adminOp, now) =>
        AdminFades(c, h, adminOp, now);
        AdminKeepsTypes(c, h.admin, adminOp, now, id);
      case _ => OthersKeepAdmin(c, h, op);
    }
  }

  lemma {:induction false} NamedRun(c: Config, llm: LlmRow, ops: seq<Op>)
    requires forall op :: op in ops ==> FromRoutes(op)
    ensures NamedOnlyOnGraph(Run(c, llm, ops))
  {
    if |ops| > 0 {
      var front := ops[..|ops| - 1];
      NamedRun(c, llm, front);
      RunKeeps(c, llm, front);
      assert ops[|ops| - 1] in ops;
      NamedStep(c, Run(c, llm, front), ops[|ops| - 1]);
    }
  }

  /**
   In runs through the routes a user has at most one active row on an instance whose type
   declares single cardinality, also when the id was used by another type before.
   */
  lemma SingleMeansSingle(c: Config, llm: LlmRow, ops: seq<Op>, i: nat, j: nat)
    requires forall op :: op in ops ==> FromRoutes(op)
    requires var h := Run(c, llm, ops);
      && i < |h.rows| && j < |h.rows| && Active(h.rows[i]) && Active(h.rows[j])
      && h.rows[i].userSub == h.rows[j].userSub && h.rows[i].instanceId == h.rows[j].instanceId
      && h.rows[i].instanceId in h.admin.instances
      && GetType(h.admin.instances[h.rows[i].instanceId].typ).Some?
      && GetType(h.admin.instances[h.rows[i].instanceId].typ).value.cardinality == Single
    ensures i == j
  {
    NamedRun(c, llm, ops);
    var rows := Run(c, llm, ops).rows;
    assert GetType(OUTLOOK_GRAPH).value.cardinality == Multi;
    assert rows[i].subject == "" && rows[j].subject == "";
    OneActiveRowPerSubject(c, llm, ops, i, j);
  }
}
