/** Rows that share an id: when an update by id reaches more than the row it is meant for. */
module SharedIds {
  import opened Ledger
  import opened LedgerInvariants
  import RowIds

  /** No other row carries the id of row `i`. */
  ghost predicate OwnId(rows: seq<Row>, i: nat)
    requires i < |rows|
  {
    forall j :: 0 <= j < |rows| && rows[j].id == rows[i].id ==> j == i
  }

  predicate OfPair(r: Row, userSub: string, instanceId: string) {
    r.userSub == userSub && r.instanceId == instanceId
  }

  /** The rows of the user on the instance have their ids to themselves. */
  ghost predicate OwnIds(rows: seq<Row>, userSub: string, instanceId: string) {
    forall i :: 0 <= i < |rows| && OfPair(rows[i], userSub, instanceId) ==> OwnId(rows, i)
  }

  ghost predicate DistinctIds(rows: seq<Row>) {
    forall i :: 0 <= i < |rows| ==> OwnId(rows, i)
  }

  predicate Joins(r: Row, userSub: string, instanceId: string) {
    RowIds.Join(r.userSub, r.instanceId) == RowIds.Join(userSub, instanceId)
  }

  /** No other pair of the table joins to the same text. */
  ghost predicate Unjoined(rows: seq<Row>, userSub: string, instanceId: string) {
    forall j :: 0 <= j < |rows| && Joins(rows[j], userSub, instanceId) ==> OfPair(rows[j], userSub, instanceId)
  }

  ghost predicate JoinFree(rows: seq<Row>) {
    forall i :: 0 <= i < |rows| ==> Unjoined(rows, rows[i].userSub, rows[i].instanceId)
  }

  // ---- When ids are shared ----

  lemma {:induction false} LaterNumberIsLarger(rows: seq<Row>, i: nat, n: nat)
    requires Numbered(rows) && i < n <= |rows|
    ensures rows[i].num < CountPair(rows[..n], rows[i].userSub, rows[i].instanceId)
  {
    assert rows[..n][..n - 1] == rows[..n - 1];
    if i < n - 1 {
      LaterNumberIsLarger(rows, i, n - 1);
    }
  }

  lemma SameNumberSameRow(rows: seq<Row>, i: nat, j: nat)
    requires Numbered(rows) && i < |rows| && j < |rows|
    requires OfPair(rows[j], rows[i].userSub, rows[i].instanceId) && rows[j].num == rows[i].num
    ensures i == j
  {
    if i < j {
      LaterNumberIsLarger(rows, i, j);
    } else if j < i {
      LaterNumberIsLarger(rows, j, i);
    }
  }

  /** A pair that occurs has a row numbered 0. */
  lemma {:induction false} FirstRowOf(rows: seq<Row>, n: nat) returns (k: nat)
    requires Numbered(rows) && n < |rows|
    ensures k <= n && rows[k].num == 0
    ensures OfPair(rows[k], rows[n].userSub, rows[n].instanceId)
  {
    k := n;
    if rows[n].num > 0 {
      var m := EarlierRowOf(rows, n, rows[n].userSub, rows[n].instanceId);
      k := FirstRowOf(rows, m);
    }
  }

  lemma {:induction false} EarlierRowOf(rows: seq<Row>, n: nat, userSub: string, instanceId: string) returns (m: nat)
    requires n <= |rows| && CountPair(rows[..n], userSub, instanceId) > 0
    ensures m < n && OfPair(rows[m], userSub, instanceId)
  {
    assert rows[..n][..n - 1] == rows[..n - 1];
    if OfPair(rows[n - 1], userSub, instanceId) {
      m := n - 1;
    } else {
      m := EarlierRowOf(rows, n - 1, userSub, instanceId);
    }
  }

  lemma UnjoinedGivesOwnId(rows: seq<Row>, i: nat)
    requires Numbered(rows) && i < |rows| && Unjoined(rows, rows[i].userSub, rows[i].instanceId)
    ensures OwnId(rows, i)
  {
    forall j | 0 <= j < |rows| && rows[j].id == rows[i].id ensures j == i {
      RowIds.RowIdCollision(rows[i].userSub, rows[i].instanceId, rows[i].num,
                            rows[j].userSub, rows[j].instanceId, rows[j].num);
      assert Joins(rows[j], rows[i].userSub, rows[i].instanceId);
      SameNumberSameRow(rows, i, j);
    }
  }

  lemma JoinedPairsShareAnId(rows: seq<Row>, i: nat, j: nat)
    requires Numbered(rows) && i < |rows| && j < |rows|
    requires OwnIds(rows, rows[i].userSub, rows[i].instanceId) && Joins(rows[j], rows[i].userSub, rows[i].instanceId)
    ensures OfPair(rows[j], rows[i].userSub, rows[i].instanceId)
  {
    var k := FirstRowOf(rows, i);
    var l := FirstRowOf(rows, j);
    RowIds.RowIdCollision(rows[k].userSub, rows[k].instanceId, 0, rows[l].userSub, rows[l].instanceId, 0);
    assert OwnId(rows, k) && rows[l].id == rows[k].id;
  }

  /** A user's rows on an instance have their ids to themselves exactly when no other pair joins to the same text. */
  lemma IdsAreOwnIffUnjoined(rows: seq<Row>, i: nat)
    requires Numbered(rows) && i < |rows|
    ensures OwnIds(rows, rows[i].userSub, rows[i].instanceId) <==> Unjoined(rows, rows[i].userSub, rows[i].instanceId)
  {
    var userSub, instanceId := rows[i].userSub, rows[i].instanceId;
    if Unjoined(rows, userSub, instanceId) {
      forall k | 0 <= k < |rows| && OfPair(rows[k], userSub, instanceId) ensures OwnId(rows, k) {
        UnjoinedGivesOwnId(rows, k);
      }
    }
    if OwnIds(rows, userSub, instanceId) {
      forall j | 0 <= j < |rows| && Joins(rows[j], userSub, instanceId) ensures OfPair(rows[j], userSub, instanceId) {
        JoinedPairsShareAnId(rows, i, j);
      }
    }
  }

  /** All row ids are pairwise distinct exactly when no two pairs of the table join to the same text. */
  lemma IdsAreDistinctIffJoinFree(rows: seq<Row>)
    requires Numbered(rows)
    ensures DistinctIds(rows) <==> JoinFree(rows)
  {
    forall i | 0 <= i < |rows|
      ensures OwnIds(rows, rows[i].userSub, rows[i].instanceId) <==> Unjoined(rows, rows[i].userSub, rows[i].instanceId)
    {
      IdsAreOwnIffUnjoined(rows, i);
    }
    if JoinFree(rows) {
      forall i | 0 <= i < |rows| ensures OwnId(rows, i) {
        UnjoinedGivesOwnId(rows, i);
      }
    }
  }

  /** In particular when all user subs, or all instance ids, are free of colons. */
  lemma ColonFreeIsJoinFree(rows: seq<Row>)
    requires (forall r :: r in rows ==> RowIds.ColonFree(r.userSub))
          || (forall r :: r in rows ==> RowIds.ColonFree(r.instanceId))
    ensures JoinFree(rows)
  {
    forall i, j | 0 <= i < |rows| && 0 <= j < |rows| && Joins(rows[j], rows[i].userSub, rows[i].instanceId)
      ensures OfPair(rows[j], rows[i].userSub, rows[i].instanceId)
    {
      assert rows[i] in rows && rows[j] in rows;
      RowIds.JoinIsInjective(rows[j].userSub, rows[j].instanceId, rows[i].userSub, rows[i].instanceId);
    }
  }

  // ---- What an update by the ids of a query reaches ----

  lemma SelectedIsReached(rows: seq<Row>, sel: Selector, i: nat)
    requires i < |rows| && Selects(sel, rows[i])
    ensures rows[i].id in Ids(Query(rows, sel))
  {
    assert rows[i] in Query(rows, sel);
  }

  /** The update that the query's ids receive leaves row `i`, if not selected, as it is. */
  ghost predicate Spares(rows: seq<Row>, sel: Selector, p: Patch, i: nat)
    requires i < |rows|
  {
    rows[i].id in Ids(Query(rows, sel)) && !Selects(sel, rows[i]) ==> ApplyPatch(rows[i], p) == rows[i]
  }

  /** A selected row is updated; any other stays as it was exactly when the update spares it. */
  lemma ReachedOutcome(rows: seq<Row>, sel: Selector, p: Patch, i: nat)
    requires i < |rows|
    ensures var r' := Patched(rows, Ids(Query(rows, sel)), p)[i];
      if Selects(sel, rows[i]) then r' == ApplyPatch(rows[i], p) else r' == rows[i] <==> Spares(rows, sel, p, i)
  {
    if Selects(sel, rows[i]) {
      SelectedIsReached(rows, sel, i);
    }
  }

  /** A row whose id is its own is reached exactly when it is selected. */
  lemma SelectedById(rows: seq<Row>, sel: Selector, i: nat)
    requires i < |rows| && OwnId(rows, i)
    ensures rows[i].id in Ids(Query(rows, sel)) <==> Selects(sel, rows[i])
  {
    if rows[i].id in Ids(Query(rows, sel)) {
      var r :| r in Query(rows, sel) && r.id == rows[i].id;
      var j :| 0 <= j < |rows| && rows[j] == r;
      assert j == i;
    }
    if Selects(sel, rows[i]) {
      SelectedIsReached(rows, sel, i);
    }
  }
}
