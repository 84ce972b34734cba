/** Connecting, disconnecting and connecting again: what one call means for the next. */
module Reconnect {
  import opened Wrappers
  import opened Ledger
  import opened LedgerInvariants
  import Conservation

  /** The user has an active row on the instance under this subject, whatever its status. */
  ghost predicate Holding(rows: seq<Row>, userSub: string, instanceId: string, subject: string) {
    exists r :: r in rows && Active(r) && r.userSub == userSub && r.instanceId == instanceId && r.subject == subject
  }

  lemma QueryFindsHolding(rows: seq<Row>, userSub: string, instanceId: string, subject: string)
    ensures Query(rows, OfSubject(userSub, instanceId, subject)) != [] <==> Holding(rows, userSub, instanceId, subject)
  {
    var sel := OfSubject(userSub, instanceId, subject);
    var found := Query(rows, sel);
    if found != [] {
      assert found[0] in found;
    }
    if Holding(rows, userSub, instanceId, subject) {
      var r :| r in rows && Active(r) && r.userSub == userSub && r.instanceId == instanceId && r.subject == subject;
      assert r in found;
    }
  }

  /** Everything a callback needs but a free account: an open state, the gates, a usable instance, good answers. */
  predicate InOrder(h: Hub, user: User, instanceId: string, state: nat, provider: IdpAnswers, now: int) {
    && OpenState(h, user, instanceId, state, now).Ok?
    && Gate(h.admin, user, instanceId) == None
    && AdapterTenant(h.admin.instances[instanceId]).Ok?
    && PublicOf(h.admin.instances[instanceId], "client_id") != ""
    && provider.token.Some? && provider.me.Some? && SubjectOf(provider.me.value) != ""
  }

  lemma RedeemRefusedIffHeld(h: Hub, user: User, instanceId: string, provider: IdpAnswers, now: int)
    ensures var (h', result) := Redeem(h, user, instanceId, provider, now);
      && (result == Err(AlreadyConnected) <==>
            && provider.token.Some? && provider.me.Some? && SubjectOf(provider.me.value) != ""
            && Holding(h.rows, user.sub, instanceId, SubjectOf(provider.me.value)))
      && (result.Err? ==> h' == h && result.error in {ExchangeFailed, IdentityFailed, AlreadyConnected})
  {
    if provider.me.Some? {
      QueryFindsHolding(h.rows, user.sub, instanceId, SubjectOf(provider.me.value));
    }
  }

  /** Up to the exchange a callback is refused for other reasons, and changes nothing. */
  lemma CompleteUpToExchange(h: Hub, user: User, instanceId: string, code: string, state: nat, provider: IdpAnswers,
                             now: int)
    returns (called: Option<Hub>)
    ensures called.None? ==>
              Complete(h, user, instanceId, code, state, provider, now).0 == h
              && Complete(h, user, instanceId, code, state, provider, now).1.Err?
              && Complete(h, user, instanceId, code, state, provider, now).1.error != AlreadyConnected
              && !InOrder(h, user, instanceId, state, provider, now)
    ensures called.Some? ==>
              called.value == h.(calls := called.value.calls)
              && Complete(h, user, instanceId, code, state, provider, now)
                 == Redeem(called.value, user, instanceId, provider, now)
              && (InOrder(h, user, instanceId, state, provider, now) <==>
                    provider.token.Some? && provider.me.Some? && SubjectOf(provider.me.value) != "")
  {
    var flow := OpenState(h, user, instanceId, state, now);
    if flow.Err? || Gate(h.admin, user, instanceId) != None {
      return None;
    }
    var doc := h.admin.instances[instanceId];
    if AdapterTenant(doc).Err? || PublicOf(doc, "client_id") == "" {
      return None;
    }
    called := Some(h.(calls := h.calls + [ExchangeCall(doc, AdapterTenant(doc).value, flow.value, code)]));
  }

  /**
   A callback is refused as already connected exactly when everything else is in order and
   the account is still held, by a stale row too: going stale does not by itself make room
   for a reconnect. With everything in order and the account free it succeeds; and no refused
   callback changes rows, events or states.
   */
  lemma ReconnectRefusedIffHeld(h: Hub, user: User, instanceId: string, code: string, state: nat, provider: IdpAnswers,
                                now: int)
    ensures var (h', result) := Complete(h, user, instanceId, code, state, provider, now);
      var inOrder := InOrder(h, user, instanceId, state, provider, now);
      && (result == Err(AlreadyConnected) <==>
            inOrder && Holding(h.rows, user.sub, instanceId, SubjectOf(provider.me.value)))
      && (result.Ok? <==> inOrder && !Holding(h.rows, user.sub, instanceId, SubjectOf(provider.me.value)))
      && (result.Err? ==> h'.rows == h.rows && h'.events == h.events && h'.minted == h.minted)
  {
    var called := CompleteUpToExchange(h, user, instanceId, code, state, provider, now);
    if called.Some? {
      RedeemRefusedIffHeld(called.value, user, instanceId, provider, now);
    }
  }

  /** After a grant the same grant is refused, until the row is closed. */
  lemma GrantIsNotRepeatable(h: Hub, user: User, instanceId: string, privacy: string, subject: string,
                             displayLabel: string,
                             now: int, later: int)
    requires Grant(h, user, instanceId, privacy, subject, displayLabel, now).1.Ok?
    ensures var h1 := Grant(h, user, instanceId, privacy, subject, displayLabel, now).0;
      Grant(h1, user, instanceId, privacy, subject, displayLabel, later) == (h1, Err(AlreadyConnected))
  {
    var (h1, result) := Grant(h, user, instanceId, privacy, subject, displayLabel, now);
    assert h1.rows[|h.rows|] == result.value && result.value in h1.rows;
    QueryFindsHolding(h1.rows, user.sub, instanceId, subject);
  }

  lemma {:induction false} NumbersSurvivePatch(rows: seq<Row>, ids: set<string>, p: Patch, n: nat, userSub: string,
                                               instanceId: string)
    requires n <= |rows|
    ensures NextNum(Patched(rows, ids, p)[..n], userSub, instanceId) == NextNum(rows[..n], userSub, instanceId)
  {
    if n > 0 {
      var rows' := Patched(rows, ids, p);
      assert rows[..n][..n - 1] == rows[..n - 1] && rows'[..n][..n - 1] == rows'[..n - 1];
      NumbersSurvivePatch(rows, ids, p, n - 1, userSub, instanceId);
    }
  }

  /**
   After a successful revoke of all of a user's rows on an instance, any grant there
   succeeds exactly when the gates pass, and opens the next row: never an old number.
   */
  lemma RevokeMakesRoom(h: Hub, user: User, instanceId: string, now: int, privacy: string, subject: string,
                        displayLabel: string, later: int)
    requires Revoke(h, user, instanceId, None, now).1.Ok?
    ensures var h1 := Revoke(h, user, instanceId, None, now).0;
      var result := Grant(h1, user, instanceId, privacy, subject, displayLabel, later).1;
      && (result.Ok? <==> Gate(h.admin, user, instanceId) == None)
      && (result.Ok? ==> result.value.num == NextNum(h.rows, user.sub, instanceId))
  {
    var sel, p := OfUser(user.sub, instanceId), UserRevoke(now);
    var h1 := Revoke(h, user, instanceId, None, now).0;
    var ids := Ids(Query(h.rows, sel));
    assert h1.rows == Patched(h.rows, ids, p);
    Conservation.RepeatFindsNothing(h.rows, sel, p);
    QueryFindsHolding(h1.rows, user.sub, instanceId, subject);
    NumbersSurvivePatch(h.rows, ids, p, |h.rows|, user.sub, instanceId);
    assert h.rows[..|h.rows|] == h.rows && h1.rows[..|h.rows|] == h1.rows;
  }
}
