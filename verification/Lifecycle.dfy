/**
 The life of a row. What holds of every row of every run comes first, then what a row whose
 id is its own keeps besides, and exactly when an update by id makes an illegal move.
 */
module Lifecycle {
  import opened Wrappers
  import opened Ledger
  import opened LedgerInvariants
  import opened SharedIds
  import opened LedgerRuns
  import opened LedgerEffects
  import RowIds
  import Admin

  // ---- Rows by id ----

  lemma RowByIdAppend(rows: seq<Row>, r: Row, id: string)
    ensures RowById(rows + [r], id) ==
            if RowById(rows, id).Some? then RowById(rows, id) else if r.id == id then Some(r) else None
  {
    assert (rows + [r])[..|rows|] == rows;
  }

  lemma {:induction false} RowByIdPatched(rows: seq<Row>, ids: set<string>, p: Patch, id: string)
    ensures RowById(Patched(rows, ids, p), id) ==
            match RowById(rows, id) {
              case None => None
              case Some(r) => Some(if id in ids then ApplyPatch(r, p) else r)
            }
  {
    if |rows| > 0 {
      var front, last := rows[..|rows| - 1], rows[|rows| - 1];
      RowByIdPatched(front, ids, p, id);
      assert Patched(rows, ids, p)[..|rows| - 1] == Patched(front, ids, p);
      if RowById(front, id).Some? {
        RowByIdHasId(front, id);
      }
    }
  }

  /** The row found by an id comes before every other row that carries it. */
  lemma {:induction false} RowByIdIsFirst(rows: seq<Row>, id: string, i: nat) returns (k: nat)
    requires i < |rows| && rows[i].id == id
    ensures k <= i && RowById(rows, id) == Some(rows[k]) && rows[k].id == id
  {
    var front := rows[..|rows| - 1];
    if i < |front| {
      k := RowByIdIsFirst(front, id, i);
    } else if RowById(front, id).Some? {
      RowByIdHasId(front, id);
      k :| 0 <= k < |front| && front[k] == RowById(front, id).value;
    } else {
      k := i;
    }
  }

  lemma RowByIdOwn(rows: seq<Row>, i: nat)
    requires i < |rows| && OwnId(rows, i)
    ensures RowById(rows, rows[i].id) == Some(rows[i])
  {
    var k := RowByIdIsFirst(rows, rows[i].id, i);
  }

  // ---- Every row of every run ----

  ghost predicate Sound(r: Row) {
    && (r.status == Disconnected <==> r.disconnectedAt.Some?)
    && (r.revokedBy.Some? ==> r.status == Disconnected && r.creds == None)
  }

  /** Among the rows that share an id, the later ones are not closed before the earlier ones. */
  ghost predicate ClosedFirst(rows: seq<Row>) {
    forall i, j :: 0 <= i < j < |rows| && rows[i].id == rows[j].id && Active(rows[i]) ==> Active(rows[j])
  }

  ghost predicate AllSound(rows: seq<Row>) {
    ClosedFirst(rows) && forall i :: 0 <= i < |rows| ==> Sound(rows[i])
  }

  lemma InsertKeepsSound(rows: seq<Row>, r: Row)
    requires AllSound(rows) && FreshRow(rows, r)
    ensures AllSound(rows + [r])
  {
  }

  lemma CloseKeepsSound(rows: seq<Row>, ids: set<string>, p: Patch)
    requires AllSound(rows) && (p.UserRevoke? || p.CascadeRevoke?)
    ensures AllSound(Patched(rows, ids, p))
  {
    var rows' := Patched(rows, ids, p);
    forall i | 0 <= i < |rows'| ensures Sound(rows'[i]) {
      assert Sound(rows[i]);
    }
  }

  /** A token fetch reaches active rows only: the first row of its id is connected, so no later one is closed. */
  lemma TouchedAreActive(rows: seq<Row>, id: string, i: nat)
    requires AllSound(rows) && i < |rows| && rows[i].id == id && UsableRow(rows, id).Some?
    ensures Active(rows[i])
  {
    var k := RowByIdIsFirst(rows, id, i);
    assert Sound(rows[k]) && Active(rows[k]);
  }

  lemma TouchKeepsSound(rows: seq<Row>, id: string, p: Patch)
    requires AllSound(rows) && (p.MarkStale? || p.StoreTokens?) && UsableRow(rows, id).Some?
    ensures AllSound(Patched(rows, {id}, p))
  {
    var rows' := Patched(rows, {id}, p);
    forall i | 0 <= i < |rows'| ensures Sound(rows'[i]) && Active(rows'[i]) == Active(rows[i]) {
      assert Sound(rows[i]);
      if rows[i].id == id {
        TouchedAreActive(rows, id, i);
      }
    }
  }

  lemma StepKeepsSound(c: Config, h: Hub, op: Op)
    requires AllSound(h.rows)
    ensures AllSound(Step(c, h, op).rows)
  {
    StepShows(c, h, op);
    match EffectOf(c, h, op) {
      case Nothing =>
      case Inserted(row, _) => InsertKeepsSound(h.rows, row);
      case Closed(sel, p, _, _, _) => CloseKeepsSound(h.rows, Ids(Query(h.rows, sel)), p);
      case Touched(id, p) => TouchKeepsSound(h.rows, id, p);
    }
  }

  /**
   In every state of every run, whatever ids collide: `disconnected_at` is set exactly on
   disconnected rows, and rows revoked by an admin are disconnected and hold no credentials.
   */
  lemma {:induction false} RowsAreSound(c: Config, llm: LlmRow, ops: seq<Op>)
    ensures AllSound(Run(c, llm, ops).rows)
  {
    if |ops| > 0 {
      RowsAreSound(c, llm, ops[..|ops| - 1]);
      StepKeepsSound(c, Run(c, llm, ops[..|ops| - 1]), ops[|ops| - 1]);
    }
  }

  /** What no step undoes, whoever shares the id: closed rows stay closed and never regain credentials. */
  ghost predicate StaysClosed(a: Row, b: Row) {
    a.status == Disconnected ==> b.status == Disconnected && (b.creds == a.creds || b.creds == None)
  }

  lemma StepKeepsClosed(c: Config, h: Hub, op: Op, i: nat)
    requires AllSound(h.rows) && i < |h.rows|
    ensures i < |Step(c, h, op).rows| && StaysClosed(h.rows[i], Step(c, h, op).rows[i])
  {
    StepShows(c, h, op);
    assert Sound(h.rows[i]);
    var e := EffectOf(c, h, op);
    if e.Touched? && h.rows[i].id == e.id {
      TouchedAreActive(h.rows, e.id, i);
    }
  }

  lemma RunStep(c: Config, llm: LlmRow, before: seq<Op>, ops: seq<Op>)
    requires |ops| > 0
    ensures (before + ops)[..|before + ops| - 1] == before + ops[..|ops| - 1]
    ensures Run(c, llm, before + ops) == Step(c, Run(c, llm, before + ops[..|ops| - 1]), ops[|ops| - 1])
  {
    assert (before + ops)[..|before + ops| - 1] == before + ops[..|ops| - 1];
  }

  /** In every run a disconnected row stays disconnected and never regains credentials. */
  lemma {:induction false} ClosedStaysClosed(c: Config, llm: LlmRow, before: seq<Op>, ops: seq<Op>, i: nat)
    requires i < |Run(c, llm, before).rows|
    ensures i < |Run(c, llm, before + ops).rows|
    ensures StaysClosed(Run(c, llm, before).rows[i], Run(c, llm, before + ops).rows[i])
  {
    if |ops| == 0 {
      assert before + ops == before;
    } else {
      RunStep(c, llm, before, ops);
      ClosedStaysClosed(c, llm, before, ops[..|ops| - 1], i);
      RowsAreSound(c, llm, before + ops[..|ops| - 1]);
      StepKeepsClosed(c, Run(c, llm, before + ops[..|ops| - 1]), ops[|ops| - 1], i);
    }
  }

  // ---- Failed refreshes ----

  /** How often row `i` went stale along a run. */
  ghost function TimesStale(c: Config, llm: LlmRow, ops: seq<Op>, i: nat): nat {
    if |ops| == 0 then 0
    else
      TimesStale(c, llm, ops[..|ops| - 1], i)
      + if GoesStale(Run(c, llm, ops[..|ops| - 1]).rows, Run(c, llm, ops).rows, i) then 1 else 0
  }

  predicate GoesStale(rows: seq<Row>, rows': seq<Row>, i: nat) {
    i < |rows| && i < |rows'| && rows[i].status != Stale && rows'[i].status == Stale
  }

  /** The id is used up: the row it finds is not connected, nor will it be again. */
  predicate UsedUp(rows: seq<Row>, id: string) {
    RowById(rows, id).Some? && RowById(rows, id).value.status != Connected
  }

  lemma StepKeepsUsedUp(c: Config, h: Hub, op: Op, id: string)
    requires UsedUp(h.rows, id)
    ensures UsedUp(Step(c, h, op).rows, id)
  {
    StepShows(c, h, op);
    match EffectOf(c, h, op) {
      case Nothing =>
      case Inserted(row, _) => RowByIdAppend(h.rows, row, id);
      case Closed(sel, p, _, _, _) => RowByIdPatched(h.rows, Ids(Query(h.rows, sel)), p, id);
      case Touched(touched, p) => RowByIdPatched(h.rows, {touched}, p, id);
    }
  }

  /** Only a failed fetch marks a row stale, only through an id not used up, and it uses the id up. */
  lemma GoingStaleUsesUp(c: Config, h: Hub, op: Op, i: nat)
    requires GoesStale(h.rows, Step(c, h, op).rows, i)
    ensures !UsedUp(h.rows, h.rows[i].id) && Step(c, h, op).rows[i].id == h.rows[i].id
    ensures UsedUp(Step(c, h, op).rows, h.rows[i].id)
  {
    StepShows(c, h, op);
    var e := EffectOf(c, h, op);
    assert e.Touched? && e.patch == MarkStale && h.rows[i].id == e.id;
    RowByIdPatched(h.rows, {e.id}, MarkStale, e.id);
  }

  /** A row that is connected, or a stub, has never been stale. */
  lemma StatusAfterStep(c: Config, h: Hub, op: Op, i: nat)
    requires i < |h.rows|
    ensures var rows' := Step(c, h, op).rows;
      && i < |rows'| && rows'[i].id == h.rows[i].id
      && (rows'[i].status in {Connected, StubConnected} ==> rows'[i].status == h.rows[i].status)
  {
    StepShows(c, h, op);
  }

  lemma {:induction false} StaleIsOneWay(c: Config, llm: LlmRow, ops: seq<Op>, i: nat)
    ensures var rows := Run(c, llm, ops).rows;
      && (i >= |rows| ==> TimesStale(c, llm, ops, i) == 0)
      && (i < |rows| && rows[i].status in {Connected, StubConnected} ==> TimesStale(c, llm, ops, i) == 0)
      && TimesStale(c, llm, ops, i) <= 1
      && (TimesStale(c, llm, ops, i) == 1 ==> UsedUp(rows, rows[i].id))
  {
    if |ops| > 0 {
      var front, op := ops[..|ops| - 1], ops[|ops| - 1];
      var h := Run(c, llm, front);
      StaleIsOneWay(c, llm, front, i);
      RowsAreKept(c, h, op);
      if i < |h.rows| {
        StatusAfterStep(c, h, op, i);
        if GoesStale(h.rows, Step(c, h, op).rows, i) {
          GoingStaleUsesUp(c, h, op, i);
        } else if TimesStale(c, llm, front, i) == 1 {
          StepKeepsUsedUp(c, h, op, h.rows[i].id);
        }
      }
    }
  }

  /**
   In every run a connection suffers at most one failed refresh: the first one uses up its
   id for token fetches.
   */
  lemma AtMostOneFailedRefresh(c: Config, llm: LlmRow, ops: seq<Op>, i: nat)
    ensures TimesStale(c, llm, ops, i) <= 1
    ensures TimesStale(c, llm, ops, i) == 1 ==>
              i < |Run(c, llm, ops).rows| && UsableRow(Run(c, llm, ops).rows, Run(c, llm, ops).rows[i].id) == None
  {
    StaleIsOneWay(c, llm, ops, i);
  }

  // ---- The moves of a row ----

  /** Nothing, new credentials, stale, or closed, the last two for good. */
  ghost predicate Moves(a: Row, b: Row) {
    || b == a
    || (a.status == Connected && b.creds.Some? && b == a.(creds := b.creds))
    || (a.status == Connected && b == a.(status := Stale))
    || (a.status != Disconnected && b.status == Disconnected && b.disconnectedAt.Some?
        && (b == a.(status := Disconnected, disconnectedAt := b.disconnectedAt)
            || b == a.(status := Disconnected, disconnectedAt := b.disconnectedAt, creds := None,
                revokedBy := b.revokedBy)))
  }

  /** The status a row must have for the update to be a legal move. */
  predicate Ready(r: Row, p: Patch) {
    match p
    case UserRevoke(_) => r.status != Disconnected
    case CascadeRevoke(_, _) => r.status != Disconnected
    case MarkStale => r.status == Connected
    case StoreTokens(_) => r.status == Connected
  }

  /** An update by ids moves a row legally exactly when it misses it, finds it ready, or changes nothing. */
  lemma UpdateMovesIff(rows: seq<Row>, ids: set<string>, p: Patch, i: nat)
    requires i < |rows|
    ensures Moves(rows[i], Patched(rows, ids, p)[i])
       <==> (rows[i].id in ids ==> Ready(rows[i], p) || ApplyPatch(rows[i], p) == rows[i])
  {
  }

  lemma StepMovesOwnRow(c: Config, h: Hub, op: Op, i: nat)
    requires AllSound(h.rows) && i < |h.rows| && OwnId(h.rows, i)
    ensures i < |Step(c, h, op).rows| && Moves(h.rows[i], Step(c, h, op).rows[i])
  {
    StepShows(c, h, op);
    assert Sound(h.rows[i]);
    match EffectOf(c, h, op) {
      case Nothing =>
      case Inserted(_, _) =>
      case Closed(sel, p, _, _, _) =>
        SelectedById(h.rows, sel, i);
        UpdateMovesIff(h.rows, Ids(Query(h.rows, sel)), p, i);
      case Touched(id, p) =>
        RowByIdOwn(h.rows, i);
        UpdateMovesIff(h.rows, {id}, p, i);
    }
  }

  /** Each step of a run moves a row whose id is its own along the allowed moves only. */
  lemma RunMovesRows(c: Config, llm: LlmRow, ops: seq<Op>, i: nat)
    requires |ops| > 0 && i < |Run(c, llm, ops[..|ops| - 1]).rows|
    requires i < |Run(c, llm, ops).rows| && OwnId(Run(c, llm, ops).rows, i)
    ensures Moves(Run(c, llm, ops[..|ops| - 1]).rows[i], Run(c, llm, ops).rows[i])
  {
    var h := Run(c, llm, ops[..|ops| - 1]);
    OwnBefore(c, h, ops[|ops| - 1], i);
    RowsAreSound(c, llm, ops[..|ops| - 1]);
    StepMovesOwnRow(c, h, ops[|ops| - 1], i);
  }

  /** Besides, a stub holds no credentials, and a connected or stale row does. */
  ghost predicate WellKept(r: Row) {
    && Sound(r)
    && (r.status == StubConnected ==> r.creds == None)
    && (r.status == Connected || r.status == Stale ==> r.creds.Some?)
  }

  lemma {:induction false} RowsAreWellKept(c: Config, llm: LlmRow, ops: seq<Op>, i: nat)
    requires i < |Run(c, llm, ops).rows| && OwnId(Run(c, llm, ops).rows, i)
    ensures WellKept(Run(c, llm, ops).rows[i])
  {
    RowsAreSound(c, llm, ops);
    var front, op := ops[..|ops| - 1], ops[|ops| - 1];
    var h := Run(c, llm, front);
    StepShows(c, h, op);
    if i < |h.rows| {
      OwnBefore(c, h, op, i);
      RowsAreWellKept(c, llm, front, i);
      RunMovesRows(c, llm, ops, i);
    }
  }

  /** A revocation never breaks this, whoever shares the id. */
  lemma RevocationKeepsWell(rows: seq<Row>, ids: set<string>, p: Patch, i: nat)
    requires i < |rows| && WellKept(rows[i]) && (p.UserRevoke? || p.CascadeRevoke?)
    ensures WellKept(Patched(rows, ids, p)[i])
  {
  }

  /** A token fetch breaks it exactly on the stub rows that share the id it fetches for. */
  lemma FetchKeepsWellIff(rows: seq<Row>, id: string, p: Patch, i: nat)
    requires AllSound(rows) && UsableRow(rows, id).Some? && (p.MarkStale? || p.StoreTokens?)
    requires i < |rows| && WellKept(rows[i])
    ensures WellKept(Patched(rows, {id}, p)[i]) <==> (rows[i].id == id ==> rows[i].status != StubConnected)
  {
    if rows[i].id == id {
      TouchedAreActive(rows, id, i);
    }
  }

  /** A disconnected row whose id is its own is never touched again: no reconnect, no credentials, no new dates. */
  lemma {:induction false} DisconnectedIsFinal(c: Config, llm: LlmRow, before: seq<Op>, ops: seq<Op>, i: nat)
    requires i < |Run(c, llm, before).rows| && Run(c, llm, before).rows[i].status == Disconnected
    requires i < |Run(c, llm, before + ops).rows| && OwnId(Run(c, llm, before + ops).rows, i)
    ensures Run(c, llm, before + ops).rows[i] == Run(c, llm, before).rows[i]
  {
    if |ops| == 0 {
      assert before + ops == before;
    } else {
      RunStep(c, llm, before, ops);
      var h := Run(c, llm, before + ops[..|ops| - 1]);
      ClosedStaysClosed(c, llm, before, ops[..|ops| - 1], i);
      OwnBefore(c, h, ops[|ops| - 1], i);
      DisconnectedIsFinal(c, llm, before, ops[..|ops| - 1], i);
      RunMovesRows(c, llm, before + ops, i);
    }
  }

  /** With distinct ids all of this holds of every row. */
  lemma DistinctIdsKeepEveryRow(c: Config, llm: LlmRow, ops: seq<Op>)
    requires DistinctIds(Run(c, llm, ops).rows)
    ensures forall i :: 0 <= i < |Run(c, llm, ops).rows| ==> WellKept(Run(c, llm, ops).rows[i])
  {
    forall i | 0 <= i < |Run(c, llm, ops).rows| ensures WellKept(Run(c, llm, ops).rows[i]) {
      RowsAreWellKept(c, llm, ops, i);
    }
  }

  // ---- Fetching a token ----

  /**
   Whatever ids the table holds, one fetch makes at most one request, and only a refresh
   with a stored refresh token once the token has no more than the skew left.
   */
  lemma FetchCallsAtMostOnce(h: Hub, id: string, skew: int, response: Option<TokenResponse>, now: int)
    ensures var h' := FetchToken(h, id, skew, response, now).0;
      && |h.calls| <= |h'.calls| <= |h.calls| + 1
      && h'.calls[..|h.calls|] == h.calls
      && (|h'.calls| > |h.calls| ==>
            exists r :: r in h.rows && r.id == id && r.status == Connected && r.creds.Some? && r.creds.value.Sealed?
              && r.creds.value.tokens.expiresAt - skew <= now
              && h'.calls[|h.calls|].Refresh?
              && r.creds.value.tokens.refresh == Some(h'.calls[|h.calls|].refreshToken))
  {
    if UsableRow(h.rows, id).Some? {
      RowByIdHasId(h.rows, id);
      var r := UsableRow(h.rows, id).value;
      assert r in h.rows && r.id == id;
    }
  }

  /** The row's access token, if it is connected and its credentials open. */
  function StoredTokens(r: Row): Option<Tokens> {
    if r.status == Connected && r.creds.Some? && r.creds.value.Sealed? then Some(r.creds.value.tokens) else None
  }

  /** A fetch for a row whose id is its own changes no other row. */
  lemma FetchTouchesOneRow(h: Hub, i: nat, skew: int, response: Option<TokenResponse>, now: int, j: nat)
    requires i < |h.rows| && OwnId(h.rows, i) && j < |h.rows| && j != i
    ensures var h' := FetchToken(h, h.rows[i].id, skew, response, now).0;
      |h'.rows| == |h.rows| && h'.rows[j] == h.rows[j]
  {
    RowByIdOwn(h.rows, i);
  }

  /**
   What that fetch answers and stores. While the token outlives the skew: the stored token,
   no request, nothing changed. Otherwise a token is handed out exactly when a refresh was
   requested and answered, and then it is the new one and what was returned is stored, no
   more and no less; without one a connected row with credentials turns stale.
   */
  lemma FetchAnswers(h: Hub, i: nat, skew: int, response: Option<TokenResponse>, now: int)
    requires i < |h.rows| && OwnId(h.rows, i)
    ensures var r := h.rows[i];
      var (h', token) := FetchToken(h, r.id, skew, response, now);
      var stored := StoredTokens(r);
      var requested := |h'.calls| > |h.calls|;
      && |h'.rows| == |h.rows|
      && (stored.Some? && stored.value.expiresAt - skew > now ==>
            token == Some(stored.value.access) && h'.rows[i] == r && !requested)
      && (!(stored.Some? && stored.value.expiresAt - skew > now) ==>
            && (token.Some? <==> requested && response.Some?)
            && (token.Some? ==>
                  && token.value == response.value.access
                  && h'.rows[i] == r.(creds := Some(Sealed(TokensFrom(response.value, now)))))
            && (token.None? ==>
                  if r.status == Connected && r.creds.Some? then h'.rows[i] == r.(status := Stale)
                  else h'.rows[i] == r))
  {
    RowByIdOwn(h.rows, i);
  }
}
