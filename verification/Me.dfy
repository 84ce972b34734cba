/** `GET /me`: the read side of the gates. */
module Me {
  import opened Wrappers
  import opened Strings
  import opened Ledger
  import opened LedgerInvariants
  import opened LedgerRuns
  import opened Lifecycle
  import Siam
  import Admin

  datatype Shown = NeedsConnect | ShownConnected | ShownStale

  datatype Entry = Entry(instanceId: string, typ: string, displayName: string, status: Shown,
      connectionId: Option<string>)

  datatype LoginEvent = LoginEvent(ts: int, userSub: string, username: string, instanceIds: seq<string>)

  function StatusFor(r: Option<Row>): Shown {
    match r
    case None => NeedsConnect
    case Some(row) =>
      match row.status
      case Stale => ShownStale
      case StubConnected => ShownConnected
      case Connected => ShownConnected
      case Disconnected => NeedsConnect
  }

  /** The instances listed under any of the roles. */
  function AllowedIds(m: Siam.Mapping, roles: seq<string>): (r: seq<string>)
    ensures forall x :: x in r <==> Siam.Authorized(m, roles, x)
  {
    if |roles| == 0 then []
    else
      var last := roles[|roles| - 1];
      assert roles == roles[..|roles| - 1] + [last];
      AllowedIds(m, roles[..|roles| - 1]) + if last in m then m[last] else []
  }

  /** The dictionary built by instance id keeps the user's last active row. */
  function ConnectionOf(rows: seq<Row>, userSub: string, instanceId: string): Option<Row> {
    if |rows| == 0 then None
    else
      var last := rows[|rows| - 1];
      if last.userSub == userSub && last.instanceId == instanceId && Active(last) then Some(last)
      else ConnectionOf(rows[..|rows| - 1], userSub, instanceId)
  }

  function EntryFor(h: Hub, user: User, id: string): Entry
    requires id in h.admin.instances
  {
    var doc := h.admin.instances[id];
    var r := ConnectionOf(h.rows, user.sub, id);
    Entry(id, doc.typ, doc.displayName, StatusFor(r), if r.Some? then Some(r.value.id) else None)
  }

  function Entries(h: Hub, user: User, ids: seq<string>): seq<Entry> {
    if |ids| == 0 then []
    else
      var last := ids[|ids| - 1];
      Entries(h, user, ids[..|ids| - 1]) + if EnabledIn(h.admin, last) then [EntryFor(h, user, last)] else []
  }

  function View(h: Hub, user: User): seq<Entry> {
    Entries(h, user, Sorted(AllowedIds(Admin.Mapping(h.admin), user.roles)))
  }

  function EntryIds(entries: seq<Entry>): seq<string> {
    seq(|entries|, i requires 0 <= i < |entries| => entries[i].instanceId)
  }

  lemma EntriesStep(h: Hub, user: User, ids: seq<string>)
    requires |ids| > 0
    ensures var front, last := ids[..|ids| - 1], ids[|ids| - 1];
      EntryIds(Entries(h, user, ids)) == EntryIds(Entries(h, user, front)) + if EnabledIn(h.admin, last) then [last]
          else []
  {
  }

  lemma {:induction false} EntriesListEnabled(h: Hub, user: User, ids: seq<string>, x: string)
    ensures x in EntryIds(Entries(h, user, ids)) <==> x in ids && EnabledIn(h.admin, x)
  {
    if |ids| > 0 {
      assert ids == ids[..|ids| - 1] + [ids[|ids| - 1]];
      EntriesListEnabled(h, user, ids[..|ids| - 1], x);
      EntriesStep(h, user, ids);
    }
  }

  lemma AscendingAppend(s: seq<string>, x: string)
    requires Ascending(s) && forall y :: y in s ==> Less(y, x)
    ensures Ascending(s + [x])
  {
    forall i | 0 <= i < |s| ensures Less(s[i], x) {
      assert s[i] in s;
    }
  }

  lemma {:induction false} EntriesAscend(h: Hub, user: User, ids: seq<string>)
    requires Ascending(ids)
    ensures Ascending(EntryIds(Entries(h, user, ids)))
  {
    if |ids| > 0 {
      var front, last := ids[..|ids| - 1], ids[|ids| - 1];
      EntriesAscend(h, user, front);
      EntriesStep(h, user, ids);
      forall y | y in EntryIds(Entries(h, user, front)) ensures Less(y, last) {
        EntriesListEnabled(h, user, front, y);
        var j :| 0 <= j < |front| && front[j] == y;
        assert ids[j] == y;
      }
      AscendingAppend(EntryIds(Entries(h, user, front)), last);
    }
  }

  lemma {:induction false} EntriesAreBuilt(h: Hub, user: User, ids: seq<string>, e: Entry)
    requires e in Entries(h, user, ids)
    ensures e.instanceId in h.admin.instances && e == EntryFor(h, user, e.instanceId)
  {
    if |ids| > 0 && e in Entries(h, user, ids[..|ids| - 1]) {
      EntriesAreBuilt(h, user, ids[..|ids| - 1], e);
    }
  }

  /**
   The read filter is the write gate: an instance is listed exactly when a grant for that
   user and instance would pass both gates; and the list is strictly ascending.
   */
  lemma ListedIffGrantable(h: Hub, user: User, id: string)
    ensures id in EntryIds(View(h, user)) <==> Gate(h.admin, user, id) == None
    ensures Ascending(EntryIds(View(h, user)))
  {
    var ids := Sorted(AllowedIds(Admin.Mapping(h.admin), user.roles));
    EntriesListEnabled(h, user, ids, id);
    EntriesAscend(h, user, ids);
  }

  lemma {:induction false} ConnectionIsActive(rows: seq<Row>, userSub: string, instanceId: string)
    ensures match ConnectionOf(rows, userSub, instanceId) {
      case Some(r) => r in rows && Active(r) && r.userSub == userSub && r.instanceId == instanceId
      case None => forall r :: r in rows && r.userSub == userSub && r.instanceId == instanceId ==> !Active(r)
    }
  {
    if |rows| > 0 {
      var front, last := rows[..|rows| - 1], rows[|rows| - 1];
      assert rows == front + [last];
      ConnectionIsActive(front, userSub, instanceId);
    }
  }

  /** In every run, an entry says `needs_connect` exactly when the user has no active row there. */
  lemma NeedsConnectIffNoActiveRow(c: Config, llm: LlmRow, ops: seq<Op>, user: User, e: Entry)
    requires e in View(Run(c, llm, ops), user)
    ensures var rows := Run(c, llm, ops).rows;
      && (e.status == NeedsConnect <==>
            forall r :: r in rows && r.userSub == user.sub && r.instanceId == e.instanceId ==> !Active(r))
      && (e.connectionId.Some? <==> e.status != NeedsConnect)
  {
    var h := Run(c, llm, ops);
    RowsAreSound(c, llm, ops);
    EntriesAreBuilt(h, user, Sorted(AllowedIds(Admin.Mapping(h.admin), user.roles)), e);
    ConnectionIsActive(h.rows, user.sub, e.instanceId);
    var r := ConnectionOf(h.rows, user.sub, e.instanceId);
    if r.Some? {
      var i :| 0 <= i < |h.rows| && h.rows[i] == r.value;
      assert Sound(h.rows[i]);
    }
  }

  /** Row `k` is the user's latest active row on the instance. */
  ghost predicate IsLatest(rows: seq<Row>, userSub: string, instanceId: string, k: int) {
    && 0 <= k < |rows| && rows[k].disconnectedAt == None
    && rows[k].userSub == userSub && rows[k].instanceId == instanceId
    && forall j :: k < j < |rows| && rows[j].userSub == userSub && rows[j].instanceId == instanceId ==>
                   rows[j].disconnectedAt.Some?
  }

  lemma {:induction false} ConnectionIsLatest(rows: seq<Row>, userSub: string, instanceId: string) returns (k: int)
    requires ConnectionOf(rows, userSub, instanceId).Some?
    ensures IsLatest(rows, userSub, instanceId, k) && ConnectionOf(rows, userSub, instanceId) == Some(rows[k])
  {
    k := |rows| - 1;
    if !(rows[k].userSub == userSub && rows[k].instanceId == instanceId && Active(rows[k])) {
      k := ConnectionIsLatest(rows[..|rows| - 1], userSub, instanceId);
    }
  }

  /**
   An entry shows its instance's type and name; and, of the user's latest active row there,
   its id, and stale or connected as it is. In every run, without such a row it says
   `needs_connect` and shows no id.
   */
  lemma EntryShows(c: Config, llm: LlmRow, ops: seq<Op>, user: User, e: Entry)
    requires e in View(Run(c, llm, ops), user)
    ensures var h := Run(c, llm, ops);
      && e.instanceId in h.admin.instances
      && e.typ == h.admin.instances[e.instanceId].typ && e.displayName == h.admin.instances[e.instanceId].displayName
      && (forall k :: IsLatest(h.rows, user.sub, e.instanceId, k) ==>
            && e.connectionId == Some(h.rows[k].id)
            && e.status == (if h.rows[k].status == Stale then ShownStale else ShownConnected))
      && ((forall k :: !IsLatest(h.rows, user.sub, e.instanceId, k)) ==>
            e.connectionId == None && e.status == NeedsConnect)
  {
    var h := Run(c, llm, ops);
    RowsAreSound(c, llm, ops);
    EntriesAreBuilt(h, user, Sorted(AllowedIds(Admin.Mapping(h.admin), user.roles)), e);
    ConnectionIsActive(h.rows, user.sub, e.instanceId);
    forall k | IsLatest(h.rows, user.sub, e.instanceId, k)
      ensures ConnectionOf(h.rows, user.sub, e.instanceId) == Some(h.rows[k])
    {
      assert h.rows[k] in h.rows;
      var l := ConnectionIsLatest(h.rows, user.sub, e.instanceId);
      LatestIsUnique(h.rows, user.sub, e.instanceId, k, l);
      assert Sound(h.rows[k]);
    }
    if ConnectionOf(h.rows, user.sub, e.instanceId).Some? {
      var l := ConnectionIsLatest(h.rows, user.sub, e.instanceId);
      assert Sound(h.rows[l]);
    }
  }

  lemma LatestIsUnique(rows: seq<Row>, userSub: string, instanceId: string, k: int, l: int)
    requires IsLatest(rows, userSub, instanceId, k) && IsLatest(rows, userSub, instanceId, l)
    ensures k == l
  {
  }
}
