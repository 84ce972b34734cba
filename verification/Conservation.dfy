/**
 The consent log against the rows: for each row its full story, for each user and instance
 the balance. Each holds in every run in which the rows concerned keep their ids to
 themselves, and each comes with the exact condition on a single revocation.
 */
module Conservation {
  import opened Wrappers
  import opened Ledger
  import opened LedgerInvariants
  import opened SharedIds
  import opened LedgerRuns
  import opened LedgerEffects
  import opened Lifecycle
  import RowIds
  import Siam
  import Admin

  // ---- The story of a row ----

  predicate About(e: Event, r: Row) {
    e.userSub == r.userSub && e.instanceId == r.instanceId && e.num == r.num
  }

  predicate SameKey(a: Row, b: Row) {
    a.userSub == b.userSub && a.instanceId == b.instanceId && a.num == b.num
  }

  /** The actions logged for the row's (user, instance, number), oldest first. */
  function Story(events: seq<Event>, r: Row): seq<string> {
    if |events| == 0 then []
    else
      Story(events[..|events| - 1], r)
      + if About(events[|events| - 1], r) then [events[|events| - 1].action] else []
  }

  /** Granted once; once closed, one more entry saying how. */
  function Expected(r: Row): seq<string> {
    if Active(r) then [GRANTED] else [GRANTED, if r.revokedBy.Some? then r.revokedBy.value else REVOKED]
  }

  ghost predicate KeysDistinct(rows: seq<Row>) {
    forall i, j :: 0 <= i < j < |rows| ==> !SameKey(rows[i], rows[j])
  }

  ghost predicate NoRowLike(rows: seq<Row>, r: Row) {
    forall i :: 0 <= i < |rows| ==> !SameKey(rows[i], r)
  }

  /** Nothing is logged under the key of a row that does not exist. */
  ghost predicate Silent(h: Hub) {
    forall r: Row :: NoRowLike(h.rows, r) ==> Story(h.events, r) == []
  }

  /** The log tells the row's story. */
  predicate Told(h: Hub, i: nat)
    requires i < |h.rows|
  {
    Story(h.events, h.rows[i]) == Expected(h.rows[i])
  }

  lemma {:induction false} StoryConcat(a: seq<Event>, b: seq<Event>, r: Row)
    ensures Story(a + b, r) == Story(a, r) + Story(b, r)
  {
    if |b| == 0 {
      assert a + b == a;
    } else {
      assert (a + b)[..|a + b| - 1] == a + b[..|b| - 1];
      StoryConcat(a, b[..|b| - 1], r);
    }
  }

  lemma StoryOfOne(e: Event, r: Row)
    ensures Story([e], r) == if About(e, r) then [e.action] else []
  {
    assert [e][..0] == [];
  }

  lemma NumberedGivesDistinctKeys(rows: seq<Row>)
    requires Numbered(rows)
    ensures KeysDistinct(rows)
  {
    forall i, j | 0 <= i < j < |rows| ensures !SameKey(rows[i], rows[j]) {
      LaterNumberIsLarger(rows, i, j);
      assert rows[j].num == CountPair(rows[..j], rows[j].userSub, rows[j].instanceId);
    }
  }

  function NoticeOf(r: Row, ts: int, who: Option<string>, action: string): Event {
    EventOf(r, ts, if who.Some? then who.value else r.username, action)
  }

  /** A revocation's log grows with the table, one notice per selected row. */
  lemma NoticesStep(rows: seq<Row>, sel: Selector, ts: int, who: Option<string>, action: string)
    requires |rows| > 0
    ensures var front, last := rows[..|rows| - 1], rows[|rows| - 1];
      var before := EventsOf(Query(front, sel), ts, who, action);
      EventsOf(Query(rows, sel), ts, who, action) ==
      if Selects(sel, last) then before + [NoticeOf(last, ts, who, action)] else before
  {
    var before, last := Query(rows[..|rows| - 1], sel), rows[|rows| - 1];
    assert EventsOf(before + [last], ts, who, action) == EventsOf(before, ts, who, action)
        + [NoticeOf(last, ts, who, action)];
  }

  /** Some row with the key of `r` is selected. */
  predicate Hit(rows: seq<Row>, sel: Selector, r: Row) {
    |rows| > 0
    && (Hit(rows[..|rows| - 1], sel, r) || (SameKey(rows[|rows| - 1], r) && Selects(sel, rows[|rows| - 1])))
  }

  lemma {:induction false} NoHit(rows: seq<Row>, sel: Selector, r: Row)
    requires NoRowLike(rows, r)
    ensures !Hit(rows, sel, r)
  {
    if |rows| > 0 {
      NoHit(rows[..|rows| - 1], sel, r);
    }
  }

  lemma {:induction false} HitIsSelected(rows: seq<Row>, sel: Selector, i: nat)
    requires KeysDistinct(rows) && i < |rows|
    ensures Hit(rows, sel, rows[i]) <==> Selects(sel, rows[i])
  {
    var n := |rows| - 1;
    if i == n {
      forall j | 0 <= j < n ensures !SameKey(rows[..n][j], rows[n]) {
        assert !SameKey(rows[j], rows[n]);
      }
      NoHit(rows[..n], sel, rows[n]);
    } else {
      HitIsSelected(rows[..n], sel, i);
      assert !SameKey(rows[i], rows[n]);
    }
  }

  lemma HitStep(rows: seq<Row>, sel: Selector, r: Row)
    requires KeysDistinct(rows) && |rows| > 0
    ensures var front, last := rows[..|rows| - 1], rows[|rows| - 1];
      && Hit(rows, sel, r) == (if SameKey(last, r) then Selects(sel, last) else Hit(front, sel, r))
      && (SameKey(last, r) ==> !Hit(front, sel, r))
  {
    var front, last := rows[..|rows| - 1], rows[|rows| - 1];
    if SameKey(last, r) {
      forall j | 0 <= j < |front| ensures !SameKey(front[j], r) {
        assert !SameKey(rows[j], rows[|rows| - 1]);
      }
      NoHit(front, sel, r);
    }
  }

  /** The entries a revocation writes tell one thing about each row it selected and nothing about others. */
  lemma {:induction false} StoryOfQuery(rows: seq<Row>, sel: Selector, ts: int, who: Option<string>, action: string,
                                        r: Row)
    requires KeysDistinct(rows)
    ensures Story(EventsOf(Query(rows, sel), ts, who, action), r) == if Hit(rows, sel, r) then [action] else []
  {
    if |rows| > 0 {
      var front, last := rows[..|rows| - 1], rows[|rows| - 1];
      StoryOfQuery(front, sel, ts, who, action, r);
      NoticesStep(rows, sel, ts, who, action);
      HitStep(rows, sel, r);
      if Selects(sel, last) {
        var e := NoticeOf(last, ts, who, action);
        StoryConcat(EventsOf(Query(front, sel), ts, who, action), [e], r);
        StoryOfOne(e, r);
        assert About(e, r) == SameKey(last, r);
      }
    }
  }

  lemma StorySeesKeyOnly(events: seq<Event>, a: Row, b: Row)
    requires SameKey(a, b)
    ensures Story(events, a) == Story(events, b)
  {
  }

  lemma NoRowWithNewNumber(rows: seq<Row>, r: Row)
    requires Numbered(rows) && r.num == NextNum(rows, r.userSub, r.instanceId)
    ensures NoRowLike(rows, r)
  {
    NextNumCounts(rows, r.userSub, r.instanceId);
    forall i | 0 <= i < |rows| ensures !SameKey(rows[i], r) {
      LaterNumberIsLarger(rows, i, |rows|);
      assert rows[..|rows|] == rows;
    }
  }

  lemma StoryAfterInsert(h: Hub, row: Row, at: int, r: Row)
    ensures Story(InsertRow(h, row, at).events, r) == Story(h.events, r) + if SameKey(row, r) then [GRANTED] else []
  {
    var e := EventOf(row, at, row.username, GRANTED);
    StoryConcat(h.events, [e], r);
    StoryOfOne(e, r);
  }

  lemma InsertTellsRow(h: Hub, row: Row, at: int, i: nat)
    requires Numbered(h.rows) && Silent(h) && FreshRow(h.rows, row) && i <= |h.rows|
    requires i < |h.rows| ==> Told(h, i)
    ensures Told(InsertRow(h, row, at), i)
  {
    NoRowWithNewNumber(h.rows, row);
    var r := InsertRow(h, row, at).rows[i];
    StoryAfterInsert(h, row, at, r);
    if i < |h.rows| {
      assert r == h.rows[i] && !SameKey(h.rows[i], row);
    } else {
      assert r == row && Story(h.events, row) == [];
    }
  }

  lemma InsertTellsNothingElse(h: Hub, row: Row, at: int, r: Row)
    requires Silent(h) && NoRowLike(h.rows + [row], r)
    ensures Story(InsertRow(h, row, at).events, r) == []
  {
    StoryAfterInsert(h, row, at, r);
    assert !SameKey((h.rows + [row])[|h.rows|], r);
    forall i | 0 <= i < |h.rows| ensures !SameKey(h.rows[i], r) {
      assert (h.rows + [row])[i] == h.rows[i];
    }
  }

  lemma StoryAfterClose(h: Hub, sel: Selector, p: Patch, ts: int, who: Option<string>, action: string, r: Row)
    requires KeysDistinct(h.rows)
    ensures Story(RevokeSelected(h, sel, p, ts, who, action).events, r)
         == if Hit(h.rows, sel, r) then Story(h.events, r) + [action] else Story(h.events, r)
  {
    StoryConcat(h.events, EventsOf(Query(h.rows, sel), ts, who, action), r);
    StoryOfQuery(h.rows, sel, ts, who, action, r);
  }

  lemma ClosedExpects(r: Row, p: Patch, action: string)
    requires Active(r) && r.revokedBy.None? && ActionMatches(p, action)
    ensures Expected(ApplyPatch(r, p)) == Expected(r) + [action]
    ensures SameKey(ApplyPatch(r, p), r)
  {
  }

  /** The revocation's updates leave the row selected, or with the story it had. */
  ghost predicate TellsOf(rows: seq<Row>, sel: Selector, p: Patch, i: nat)
    requires i < |rows|
  {
    rows[i].id in Ids(Query(rows, sel)) ==>
      Selects(sel, rows[i]) || Expected(ApplyPatch(rows[i], p)) == Expected(rows[i])
  }

  lemma SelectedIsTold(h: Hub, sel: Selector, p: Patch, ts: int, who: Option<string>, action: string, i: nat)
    requires KeysDistinct(h.rows) && ActionMatches(p, action)
    requires i < |h.rows| && Told(h, i) && Selects(sel, h.rows[i]) && h.rows[i].revokedBy.None?
    ensures Told(RevokeSelected(h, sel, p, ts, who, action), i)
  {
    var r := h.rows[i];
    SelectedIsReached(h.rows, sel, i);
    HitIsSelected(h.rows, sel, i);
    StoryAfterClose(h, sel, p, ts, who, action, r);
    ClosedExpects(r, p, action);
    StorySeesKeyOnly(RevokeSelected(h, sel, p, ts, who, action).events, ApplyPatch(r, p), r);
  }

  /**
   Exactly when a revocation leaves the log telling a row's story: when the row, if one of
   the ids the updates go to is its id, is selected or keeps the story it had.
   */
  lemma RevocationTellsIff(h: Hub, sel: Selector, p: Patch, ts: int, who: Option<string>, action: string, i: nat)
    requires KeysDistinct(h.rows) && ActionMatches(p, action)
    requires i < |h.rows| && Sound(h.rows[i]) && Told(h, i)
    ensures Told(RevokeSelected(h, sel, p, ts, who, action), i) <==> TellsOf(h.rows, sel, p, i)
  {
    var r := h.rows[i];
    if Selects(sel, r) {
      SelectedIsTold(h, sel, p, ts, who, action, i);
    } else {
      UnselectedKeepsStory(h, sel, p, ts, who, action, i);
    }
  }

  lemma UnselectedKeepsStory(h: Hub, sel: Selector, p: Patch, ts: int, who: Option<string>, action: string, i: nat)
    requires KeysDistinct(h.rows) && i < |h.rows| && !Selects(sel, h.rows[i])
    ensures var h' := RevokeSelected(h, sel, p, ts, who, action);
      Story(h'.events, h'.rows[i]) == Story(h.events, h.rows[i])
  {
    var h', r := RevokeSelected(h, sel, p, ts, who, action), h.rows[i];
    HitIsSelected(h.rows, sel, i);
    StoryAfterClose(h, sel, p, ts, who, action, r);
    assert SameKey(h'.rows[i], r);
    StorySeesKeyOnly(h'.events, h'.rows[i], r);
  }

  lemma TouchTellsRow(h: Hub, id: string, p: Patch, i: nat)
    requires i < |h.rows| && Told(h, i) && (p.MarkStale? || p.StoreTokens?)
    ensures Told(PatchId(h, id, p), i)
  {
    StorySeesKeyOnly(h.events, PatchId(h, id, p).rows[i], h.rows[i]);
  }

  lemma PatchedRowsAreLike(rows: seq<Row>, ids: set<string>, p: Patch, r: Row)
    requires NoRowLike(Patched(rows, ids, p), r)
    ensures NoRowLike(rows, r)
  {
    forall i | 0 <= i < |rows| ensures !SameKey(rows[i], r) {
      assert !SameKey(Patched(rows, ids, p)[i], r);
    }
  }

  lemma StepStaysSilent(c: Config, h: Hub, op: Op)
    requires Numbered(h.rows) && Silent(h)
    ensures Silent(Step(c, h, op))
  {
    StepShows(c, h, op);
    NumberedGivesDistinctKeys(h.rows);
    var h' := Step(c, h, op);
    forall r: Row | NoRowLike(h'.rows, r) ensures Story(h'.events, r) == [] {
      match EffectOf(c, h, op) {
        case Nothing =>
        case Inserted(row, at) => InsertTellsNothingElse(h, row, at, r);
        case Closed(sel, p, ts, who, action) =>
          PatchedRowsAreLike(h.rows, Ids(Query(h.rows, sel)), p, r);
          StoryAfterClose(h, sel, p, ts, who, action, r);
          NoHit(h.rows, sel, r);
        case Touched(id, p) => PatchedRowsAreLike(h.rows, {id}, p, r);
      }
    }
  }

  lemma {:induction false} RunStaysSilent(c: Config, llm: LlmRow, ops: seq<Op>)
    ensures Silent(Run(c, llm, ops))
  {
    if |ops| > 0 {
      var front := ops[..|ops| - 1];
      RunStaysSilent(c, llm, front);
      RunKeeps(c, llm, front);
      StepStaysSilent(c, Run(c, llm, front), ops[|ops| - 1]);
    }
  }

  lemma StepTellsRow(c: Config, h: Hub, op: Op, i: nat)
    requires Numbered(h.rows) && Silent(h) && AllSound(h.rows)
    requires i < |Step(c, h, op).rows|
    requires i < |h.rows| ==> OwnId(h.rows, i) && Told(h, i)
    ensures Told(Step(c, h, op), i)
  {
    StepShows(c, h, op);
    NumberedGivesDistinctKeys(h.rows);
    match EffectOf(c, h, op) {
      case Nothing =>
      case Inserted(row, at) => InsertTellsRow(h, row, at, i);
      case Closed(sel, p, ts, who, action) =>
        SelectedById(h.rows, sel, i);
        RevocationTellsIff(h, sel, p, ts, who, action, i);
      case Touched(id, p) => TouchTellsRow(h, id, p, i);
    }
  }

  /**
   In every run, a row whose id is its own has been logged `granted` once and, exactly when
   it is disconnected, one revocation after that, of the kind the row records.
   */
  lemma {:induction false} EachRowIsToldOnce(c: Config, llm: LlmRow, ops: seq<Op>, i: nat)
    requires i < |Run(c, llm, ops).rows| && OwnId(Run(c, llm, ops).rows, i)
    ensures var h := Run(c, llm, ops);
      Story(h.events, h.rows[i]) == Expected(h.rows[i])
  {
    var front, op := ops[..|ops| - 1], ops[|ops| - 1];
    var h := Run(c, llm, front);
    if i < |h.rows| {
      OwnBefore(c, h, op, i);
      EachRowIsToldOnce(c, llm, front, i);
    }
    RunKeeps(c, llm, front);
    RunStaysSilent(c, llm, front);
    RowsAreSound(c, llm, front);
    StepTellsRow(c, h, op, i);
  }

  // ---- Balances ----

  function Grants(events: seq<Event>, userSub: string, instanceId: string): nat {
    if |events| == 0 then 0
    else
      var e := events[|events| - 1];
      Grants(events[..|events| - 1], userSub, instanceId)
      + if e.userSub == userSub && e.instanceId == instanceId && e.action == GRANTED then 1 else 0
  }

  function Revocations(events: seq<Event>, userSub: string, instanceId: string): nat {
    if |events| == 0 then 0
    else
      var e := events[|events| - 1];
      Revocations(events[..|events| - 1], userSub, instanceId)
      + if e.userSub == userSub && e.instanceId == instanceId && e.action != GRANTED then 1 else 0
  }

  function CountActive(rows: seq<Row>, userSub: string, instanceId: string): nat {
    if |rows| == 0 then 0
    else
      var r := rows[|rows| - 1];
      CountActive(rows[..|rows| - 1], userSub, instanceId)
      + if r.userSub == userSub && r.instanceId == instanceId && Active(r) then 1 else 0
  }

  lemma {:induction false} CountsConcat(a: seq<Event>, b: seq<Event>, u: string, i: string)
    ensures Grants(a + b, u, i) == Grants(a, u, i) + Grants(b, u, i)
    ensures Revocations(a + b, u, i) == Revocations(a, u, i) + Revocations(b, u, i)
  {
    if |b| == 0 {
      assert a + b == a;
    } else {
      assert (a + b)[..|a + b| - 1] == a + b[..|b| - 1];
      CountsConcat(a, b[..|b| - 1], u, i);
    }
  }

  lemma CountsOfOne(e: Event, u: string, i: string)
    ensures Grants([e], u, i) == if e.userSub == u && e.instanceId == i && e.action == GRANTED then 1 else 0
    ensures Revocations([e], u, i) == if e.userSub == u && e.instanceId == i && e.action != GRANTED then 1 else 0
  {
    assert [e][..0] == [];
  }

  lemma CountActiveStep(rows: seq<Row>, n: nat, u: string, i: string)
    requires 0 < n <= |rows|
    ensures var r := rows[n - 1];
      CountActive(rows[..n], u, i) ==
      CountActive(rows[..n - 1], u, i) + if r.userSub == u && r.instanceId == i && Active(r) then 1 else 0
  {
    assert rows[..n][..n - 1] == rows[..n - 1];
  }

  /** Active rows of the user and instance that an update by id reaches though the query did not select them. */
  function Strays(rows: seq<Row>, ids: set<string>, sel: Selector, userSub: string, instanceId: string): nat {
    if |rows| == 0 then 0
    else
      var r := rows[|rows| - 1];
      Strays(rows[..|rows| - 1], ids, sel, userSub, instanceId)
      + if r.userSub == userSub && r.instanceId == instanceId && Active(r) && r.id in ids && !Selects(sel, r)
        then 1 else 0
  }

  ghost predicate ReachesOnlySelected(rows: seq<Row>, ids: set<string>, sel: Selector, userSub: string,
                                      instanceId: string) {
    forall r :: r in rows && r.userSub == userSub && r.instanceId == instanceId && Active(r) && r.id in ids
        ==> Selects(sel, r)
  }

  lemma {:induction false} NoStrays(rows: seq<Row>, ids: set<string>, sel: Selector, u: string, i: string)
    ensures Strays(rows, ids, sel, u, i) == 0 <==> ReachesOnlySelected(rows, ids, sel, u, i)
  {
    if |rows| > 0 {
      var front, last := rows[..|rows| - 1], rows[|rows| - 1];
      assert rows == front + [last];
      NoStrays(front, ids, sel, u, i);
      assert forall r :: r in rows <==> r in front || r == last;
    }
  }

  /** Over any stretch of rows, a revocation logs as many entries as rows it closes, strays apart. */
  lemma {:induction false} ClosedCountsAgree(all: seq<Row>, n: nat, sel: Selector, p: Patch, ts: int,
                                             who: Option<string>, action: string, u: string, i: string)
    requires n <= |all| && ActionMatches(p, action)
    ensures var log, ids := EventsOf(Query(all[..n], sel), ts, who, action), Ids(Query(all, sel));
      && Grants(log, u, i) == 0
      && CountActive(Patched(all, ids, p)[..n], u, i) + Revocations(log, u, i) + Strays(all[..n], ids, sel, u, i)
         == CountActive(all[..n], u, i)
  {
    if n > 0 {
      ClosedCountsAgree(all, n - 1, sel, p, ts, who, action, u, i);
      var r := all[n - 1];
      var ids := Ids(Query(all, sel));
      CountActiveStep(all, n, u, i);
      CountActiveStep(Patched(all, ids, p), n, u, i);
      assert all[..n][..n - 1] == all[..n - 1];
      NoticesStep(all[..n], sel, ts, who, action);
      if Selects(sel, r) {
        assert r in Query(all, sel) && r.id in ids;
        var e := NoticeOf(r, ts, who, action);
        CountsConcat(EventsOf(Query(all[..n - 1], sel), ts, who, action), [e], u, i);
        CountsOfOne(e, u, i);
      }
    }
  }

  ghost predicate Balanced(h: Hub, u: string, i: string) {
    Grants(h.events, u, i) == Revocations(h.events, u, i) + CountActive(h.rows, u, i)
  }

  lemma {:induction false} TouchKeepsActive(rows: seq<Row>, ids: set<string>, p: Patch, n: nat, u: string, i: string)
    requires (p.MarkStale? || p.StoreTokens?) && n <= |rows|
    ensures CountActive(Patched(rows, ids, p)[..n], u, i) == CountActive(rows[..n], u, i)
  {
    if n > 0 {
      var rows' := Patched(rows, ids, p);
      assert rows[..n][..n - 1] == rows[..n - 1] && rows'[..n][..n - 1] == rows'[..n - 1];
      TouchKeepsActive(rows, ids, p, n - 1, u, i);
    }
  }

  lemma InsertBalances(h: Hub, row: Row, at: int, u: string, i: string)
    requires Balanced(h, u, i) && Active(row)
    ensures Balanced(InsertRow(h, row, at), u, i)
  {
    var e := EventOf(row, at, row.username, GRANTED);
    CountsConcat(h.events, [e], u, i);
    CountsOfOne(e, u, i);
    assert (h.rows + [row])[..|h.rows|] == h.rows;
  }

  /**
   Exactly when a revocation keeps the balance of a user and instance: when every active
   row of theirs carrying one of the ids it updates is a row it selected.
   */
  lemma RevocationKeepsBalanceIff(h: Hub, sel: Selector, p: Patch, ts: int, who: Option<string>, action: string,
                                  u: string, i: string)
    requires Balanced(h, u, i) && ActionMatches(p, action)
    ensures Balanced(RevokeSelected(h, sel, p, ts, who, action), u, i)
       <==> ReachesOnlySelected(h.rows, Ids(Query(h.rows, sel)), sel, u, i)
  {
    var ids := Ids(Query(h.rows, sel));
    var rows' := Patched(h.rows, ids, p);
    ClosedCountsAgree(h.rows, |h.rows|, sel, p, ts, who, action, u, i);
    assert h.rows[..|h.rows|] == h.rows && rows'[..|h.rows|] == rows';
    CountsConcat(h.events, EventsOf(Query(h.rows, sel), ts, who, action), u, i);
    NoStrays(h.rows, ids, sel, u, i);
  }

  lemma CloseBalances(h: Hub, sel: Selector, p: Patch, ts: int, who: Option<string>, action: string, u: string,
                      i: string)
    requires OwnIds(h.rows, u, i) && Balanced(h, u, i) && ActionMatches(p, action)
    ensures Balanced(RevokeSelected(h, sel, p, ts, who, action), u, i)
  {
    RevocationKeepsBalanceIff(h, sel, p, ts, who, action, u, i);
    forall r | r in h.rows && OfPair(r, u, i) && r.id in Ids(Query(h.rows, sel)) ensures Selects(sel, r) {
      var k :| 0 <= k < |h.rows| && h.rows[k] == r;
      SelectedById(h.rows, sel, k);
    }
  }

  lemma TouchBalances(h: Hub, id: string, p: Patch, u: string, i: string)
    requires Balanced(h, u, i) && (p.MarkStale? || p.StoreTokens?)
    ensures Balanced(PatchId(h, id, p), u, i)
  {
    var rows' := Patched(h.rows, {id}, p);
    TouchKeepsActive(h.rows, {id}, p, |h.rows|, u, i);
    assert h.rows[..|h.rows|] == h.rows && rows'[..|h.rows|] == rows';
  }

  lemma StepBalances(c: Config, h: Hub, op: Op, u: string, i: string)
    requires OwnIds(h.rows, u, i) && Balanced(h, u, i)
    ensures Balanced(Step(c, h, op), u, i)
  {
    StepShows(c, h, op);
    match EffectOf(c, h, op) {
      case Nothing =>
      case Inserted(row, at) => InsertBalances(h, row, at, u, i);
      case Closed(sel, p, ts, who, action) => CloseBalances(h, sel, p, ts, who, action, u, i);
      case Touched(id, p) => TouchBalances(h, id, p, u, i);
    }
  }

  /**
   In every run in which the user's rows on the instance keep their ids to themselves,
   granted minus revoked is the number of active ones.
   */
  lemma {:induction false} GrantedMinusRevokedIsActive(c: Config, llm: LlmRow, ops: seq<Op>, userSub: string,
                                                       instanceId: string)
    requires OwnIds(Run(c, llm, ops).rows, userSub, instanceId)
    ensures var h := Run(c, llm, ops);
      Grants(h.events, userSub, instanceId) - Revocations(h.events, userSub, instanceId)
      == CountActive(h.rows, userSub, instanceId)
  {
    if |ops| > 0 {
      var front := ops[..|ops| - 1];
      var h := Run(c, llm, front);
      OwnIdsBefore(c, h, ops[|ops| - 1], userSub, instanceId);
      GrantedMinusRevokedIsActive(c, llm, front, userSub, instanceId);
      StepBalances(c, h, ops[|ops| - 1], userSub, instanceId);
    }
  }

  /** With distinct ids every row is told and every balance holds. */
  lemma DistinctIdsTellEverything(c: Config, llm: LlmRow, ops: seq<Op>)
    requires DistinctIds(Run(c, llm, ops).rows)
    ensures var h := Run(c, llm, ops);
      && (forall i :: 0 <= i < |h.rows| ==> Told(h, i))
      && (forall userSub, instanceId :: Balanced(h, userSub, instanceId))
  {
    var h := Run(c, llm, ops);
    forall i | 0 <= i < |h.rows| ensures Told(h, i) {
      EachRowIsToldOnce(c, llm, ops, i);
    }
    forall userSub, instanceId ensures Balanced(h, userSub, instanceId) {
      GrantedMinusRevokedIsActive(c, llm, ops, userSub, instanceId);
    }
  }

  /**
   Ids can collide: user `a` on instance `b:c` and user `a:b` on instance `c` get the same
   first row id. Revoking the one then closes the other, and no entry says so.
   */
  lemma CollidingRevokeReachesOtherUser(h: Hub, ours: User, theirs: User, now: int)
    requires h.rows == [] && h.events == []
    requires ours.sub == "a" && theirs.sub == "a:b"
    requires Gate(h.admin, ours, "b:c") == None && Gate(h.admin, theirs, "c") == None
    ensures var h1 := Grant(h, ours, "b:c", COMPANY, "", "", now).0;
      var h2 := Grant(h1, theirs, "c", COMPANY, "", "", now).0;
      var h3 := Revoke(h2, ours, "b:c", None, now).0;
      && |h3.rows| == 2 && h3.rows[1].userSub == "a:b" && h3.rows[1].instanceId == "c" && !Active(h3.rows[1])
      && !Balanced(h3, "a:b", "c") && !Told(h3, 1)
  {
    var mine := FirstGrant(h, ours, "b:c", now);
    var h1 := Grant(h, ours, "b:c", COMPANY, "", "", now).0;
    var other := SecondGrant(h1, mine, theirs, now);
    var h2 := Grant(h1, theirs, "c", COMPANY, "", "", now).0;
    InsertBalances(h, mine, now, "a:b", "c");
    InsertBalances(h1, other, now, "a:b", "c");
    StoryAfterInsert(h, mine, now, other);
    StoryAfterInsert(h1, other, now, other);
    StrayIsClosed(h2, mine, other, ours, now);
  }

  lemma FirstGrant(h: Hub, user: User, instanceId: string, now: int) returns (row: Row)
    requires h.rows == [] && Gate(h.admin, user, instanceId) == None
    ensures Grant(h, user, instanceId, COMPANY, "", "", now).0 == InsertRow(h, row, now)
    ensures row.userSub == user.sub && row.instanceId == instanceId && row.id == RowIds.RowId(user.sub, instanceId, 0)
    ensures Active(row)
  {
    row := NewRow(h, user, instanceId, "", "", COMPANY, None, StubConnected, None, now);
    assert Query(h.rows, OfSubject(user.sub, instanceId, "")) == [];
  }

  lemma SecondGrant(h: Hub, mine: Row, user: User, now: int) returns (row: Row)
    requires h.rows == [mine] && mine.userSub == "a" && mine.id == RowIds.RowId("a", "b:c", 0)
    requires user.sub == "a:b" && Gate(h.admin, user, "c") == None
    ensures Grant(h, user, "c", COMPANY, "", "", now).0 == InsertRow(h, row, now)
    ensures row.userSub == "a:b" && row.instanceId == "c" && row.id == mine.id && Active(row)
  {
    row := NewRow(h, user, "c", "", "", COMPANY, None, StubConnected, None, now);
    assert [mine][..0] == [];
    assert Query(h.rows, OfSubject("a:b", "c", "")) == [] && NextNum(h.rows, "a:b", "c") == 0;
    RowIds.JoinCollides();
  }

  lemma StrayIsClosed(h: Hub, mine: Row, other: Row, user: User, now: int)
    requires h.rows == [mine, other] && Active(mine) && Active(other) && mine.id == other.id
    requires mine.userSub == user.sub && mine.instanceId == "b:c"
    requires other.userSub == "a:b" && other.instanceId == "c" && user.sub != "a:b"
    requires Balanced(h, "a:b", "c") && Story(h.events, other) == [GRANTED]
    ensures var h' := Revoke(h, user, "b:c", None, now).0;
      && |h'.rows| == 2 && h'.rows[1] == ApplyPatch(other, UserRevoke(now))
      && !Balanced(h', "a:b", "c") && !Told(h', 1)
  {
    var sel := OfUser(user.sub, "b:c");
    assert mine in h.rows && mine in Query(h.rows, sel) && other.id in Ids(Query(h.rows, sel));
    RevocationKeepsBalanceIff(h, sel, UserRevoke(now), now, Some(user.username), REVOKED, "a:b", "c");
    assert other in h.rows && !Selects(sel, other);
    assert !SameKey(mine, other) && KeysDistinct(h.rows);
    HitIsSelected(h.rows, sel, 1);
    StoryAfterClose(h, sel, UserRevoke(now), now, Some(user.username), REVOKED, other);
    StorySeesKeyOnly(Revoke(h, user, "b:c", None, now).0.events, ApplyPatch(other, UserRevoke(now)), other);
  }

  // ---- Batch revokes ----

  function Changed(rows: seq<Row>, rows': seq<Row>): nat
    requires |rows| == |rows'|
  {
    if |rows| == 0 then 0
    else
      var n := |rows| - 1;
      Changed(rows[..n], rows'[..n]) + if rows[n] != rows'[n] then 1 else 0
  }

  lemma ChangedStep(rows: seq<Row>, rows': seq<Row>, n: nat)
    requires |rows| == |rows'| && 0 < n <= |rows|
    ensures Changed(rows[..n], rows'[..n])
         == Changed(rows[..n - 1], rows'[..n - 1]) + if rows[n - 1] != rows'[n - 1] then 1 else 0
  {
    assert rows[..n][..n - 1] == rows[..n - 1] && rows'[..n][..n - 1] == rows'[..n - 1];
  }

  /** The updates change no row but those selected. */
  ghost predicate SparesAll(rows: seq<Row>, sel: Selector, p: Patch) {
    forall i :: 0 <= i < |rows| ==> Spares(rows, sel, p, i)
  }

  lemma RowChangesIff(rows: seq<Row>, sel: Selector, p: Patch, i: nat)
    requires i < |rows| && (p.UserRevoke? || p.CascadeRevoke?)
    ensures Patched(rows, Ids(Query(rows, sel)), p)[i] != rows[i] <==> Selects(sel, rows[i]) || !Spares(rows, sel, p, i)
    ensures Selects(sel, rows[i]) ==> Spares(rows, sel, p, i)
  {
    ReachedOutcome(rows, sel, p, i);
  }

  lemma QueryGrows(all: seq<Row>, n: nat, sel: Selector)
    requires 0 < n <= |all|
    ensures |Query(all[..n], sel)| == |Query(all[..n - 1], sel)| + if Selects(sel, all[n - 1]) then 1 else 0
  {
    assert all[..n][..n - 1] == all[..n - 1];
  }

  /** The row changed exactly when it is selected or not spared. */
  predicate Accounts(sel: Selector, before: Row, after: Row, spared: bool) {
    && (after != before <==> Selects(sel, before) || !spared)
    && (Selects(sel, before) ==> spared)
  }

  lemma {:induction false} ChangesCount(all: seq<Row>, rows': seq<Row>, sel: Selector, spared: seq<bool>, n: nat)
    requires n <= |all| == |rows'| == |spared|
    requires forall i :: 0 <= i < |all| ==> Accounts(sel, all[i], rows'[i], spared[i])
    ensures Changed(all[..n], rows'[..n]) >= |Query(all[..n], sel)|
    ensures Changed(all[..n], rows'[..n]) == |Query(all[..n], sel)| <==> forall i :: 0 <= i < n ==> spared[i]
  {
    if n > 0 {
      ChangesCount(all, rows', sel, spared, n - 1);
      ChangedStep(all, rows', n);
      QueryGrows(all, n, sel);
      assert Accounts(sel, all[n - 1], rows'[n - 1], spared[n - 1]);
    }
  }

  lemma SparingAccounts(all: seq<Row>, sel: Selector, p: Patch, spared: seq<bool>)
    requires p.UserRevoke? || p.CascadeRevoke?
    requires |spared| == |all| && forall i :: 0 <= i < |all| ==> spared[i] == Spares(all, sel, p, i)
    ensures var rows' := Patched(all, Ids(Query(all, sel)), p);
      forall i :: 0 <= i < |all| ==> Accounts(sel, all[i], rows'[i], spared[i])
  {
    forall i | 0 <= i < |all|
      ensures Accounts(sel, all[i], Patched(all, Ids(Query(all, sel)), p)[i], spared[i])
    {
      RowChangesIff(all, sel, p, i);
    }
  }

  /** At least the selected rows change, and only they exactly when all others are spared. */
  lemma ChangedCountsQuery(all: seq<Row>, sel: Selector, p: Patch)
    requires p.UserRevoke? || p.CascadeRevoke?
    ensures var changed := Changed(all, Patched(all, Ids(Query(all, sel)), p));
      && changed >= |Query(all, sel)|
      && (changed == |Query(all, sel)| <==> SparesAll(all, sel, p))
  {
    var rows' := Patched(all, Ids(Query(all, sel)), p);
    var spared := seq(|all|, i requires 0 <= i < |all| => Spares(all, sel, p, i));
    SparingAccounts(all, sel, p, spared);
    ChangesCount(all, rows', sel, spared, |all|);
    assert all[..|all|] == all && rows'[..|all|] == rows';
  }

  lemma {:induction false} NothingSelected(rows: seq<Row>, sel: Selector)
    requires forall i :: 0 <= i < |rows| ==> !Selects(sel, rows[i])
    ensures Query(rows, sel) == []
  {
    if |rows| > 0 {
      NothingSelected(rows[..|rows| - 1], sel);
    }
  }

  lemma RepeatFindsNothing(rows: seq<Row>, sel: Selector, p: Patch)
    requires p.UserRevoke? || p.CascadeRevoke?
    ensures Query(Patched(rows, Ids(Query(rows, sel)), p), sel) == []
  {
    var rows' := Patched(rows, Ids(Query(rows, sel)), p);
    forall i | 0 <= i < |rows'| ensures !Selects(sel, rows'[i]) {
      if Selects(sel, rows[i]) {
        RevokedAreInactive(rows, sel, p, i);
      }
    }
    NothingSelected(rows', sel);
  }

  lemma NothingToRevoke(h: Hub, sel: Selector, p: Patch, ts: int, who: Option<string>, action: string)
    requires Query(h.rows, sel) == []
    ensures RevokeSelected(h, sel, p, ts, who, action) == h
  {
    assert Patched(h.rows, {}, p) == h.rows;
    assert Ids([]) == {};
  }

  /**
   What one revocation changes: the selected rows, and nothing else exactly when the updates
   spare all others, which is also exactly when the number of changed rows is theirs.
   */
  lemma RevocationIsExact(h: Hub, sel: Selector, p: Patch, ts: int, who: Option<string>, action: string)
    requires p.UserRevoke? || p.CascadeRevoke?
    ensures var h' := RevokeSelected(h, sel, p, ts, who, action);
      && |h'.events| == |h.events| + |Query(h.rows, sel)|
      && (forall i :: 0 <= i < |h.rows| && Selects(sel, h.rows[i]) ==> h'.rows[i] == ApplyPatch(h.rows[i], p))
      && (|Query(h.rows, sel)| == Changed(h.rows, h'.rows) <==> SparesAll(h.rows, sel, p))
      && ((forall i :: 0 <= i < |h.rows| && !Selects(sel, h.rows[i]) ==> h'.rows[i] == h.rows[i])
          <==> SparesAll(h.rows, sel, p))
  {
    var rows' := RevokeSelected(h, sel, p, ts, who, action).rows;
    ChangedCountsQuery(h.rows, sel, p);
    forall i | 0 <= i < |h.rows|
      ensures if Selects(sel, h.rows[i]) then rows'[i] == ApplyPatch(h.rows[i], p)
              else rows'[i] == h.rows[i] <==> Spares(h.rows, sel, p, i)
    {
      ReachedOutcome(h.rows, sel, p, i);
    }
  }

  /** Distinct ids spare every row that is not selected. */
  lemma DistinctIdsSpareAll(rows: seq<Row>, sel: Selector, p: Patch)
    requires DistinctIds(rows)
    ensures SparesAll(rows, sel, p)
  {
    forall i | 0 <= i < |rows| ensures Spares(rows, sel, p, i) {
      SelectedById(rows, sel, i);
    }
  }

  /** A batch revoke over the rows of `sel`, as a relation between the tables and the count it returns. */
  ghost predicate ExactBatch(h: Hub, h': Hub, n: nat, sel: Selector, p: Patch) {
    && n == |Query(h.rows, sel)|
    && |h'.rows| == |h.rows| && |h'.events| == |h.events| + n
    && (forall i :: 0 <= i < |h.rows| && Selects(sel, h.rows[i]) ==> h'.rows[i] == ApplyPatch(h.rows[i], p))
    && (n == Changed(h.rows, h'.rows) <==> SparesAll(h.rows, sel, p))
    && ((forall i :: 0 <= i < |h.rows| && !Selects(sel, h.rows[i]) ==> h'.rows[i] == h.rows[i])
        <==> SparesAll(h.rows, sel, p))
  }

  /**
   A batch revoke closes every active row it is about, logs one event for each, and returns
   their number. It changes no other row, and the number is that of the rows changed,
   exactly when its updates spare all others, as they do with distinct ids. Repeated at any
   later time it changes nothing and returns 0.
   */
  lemma BatchRevokeIsExact(h: Hub, instanceId: string, reason: string, now: int, later: int)
    ensures var (h', n) := RevokeAllForInstance(h, instanceId, reason, now);
      && ExactBatch(h, h', n, OfInstance(instanceId), CascadeRevoke(now, reason))
      && RevokeAllForInstance(h', instanceId, reason, later) == (h', 0)
  {
    var sel, p := OfInstance(instanceId), CascadeRevoke(now, reason);
    var h' := RevokeSelected(h, sel, p, now, None, reason);
    RevocationIsExact(h, sel, p, now, None, reason);
    RepeatFindsNothing(h.rows, sel, p);
    NothingToRevoke(h', sel, CascadeRevoke(later, reason), later, None, reason);
  }

  /** The same for the SIAM cascade between any two mappings. */
  lemma SiamRevokeIsExact(h: Hub, previous: Siam.Mapping, current: Siam.Mapping, now: int, later: int)
    ensures var (h', n) := RevokeNoLongerAuthorized(h, previous, current, now);
      && ExactBatch(h, h', n, Orphaned(previous, current), CascadeRevoke(now, BY_SIAM))
      && RevokeNoLongerAuthorized(h', previous, current, later) == (h', 0)
  {
    var sel, p := Orphaned(previous, current), CascadeRevoke(now, BY_SIAM);
    var h' := RevokeSelected(h, sel, p, now, None, BY_SIAM);
    RevocationIsExact(h, sel, p, now, None, BY_SIAM);
    RepeatFindsNothing(h.rows, sel, p);
    NothingToRevoke(h', sel, CascadeRevoke(later, BY_SIAM), later, None, BY_SIAM);
  }
}
