/**
 What each call on the ledger answers and writes, said in terms of the tables alone: rows,
 instance documents, the stored role mapping, the provider's answers and the clock.
 */
module Outcomes {
  import opened Wrappers
  import opened JsonText
  import opened OAuthState
  import opened Envelope
  import opened Ledger
  import opened LedgerInvariants
  import opened SharedIds
  import opened LedgerRuns
  import opened Lifecycle
  import opened Reconnect
  import Conservation
  import LedgerEffects
  import RowIds
  import Siam
  import Integrations
  import Admin

  // ---- The gates ----

  /** The stored mapping value lists the instance under the role. */
  predicate Listed(stored: Option<Json>, role: string, instanceId: string) {
    && stored.Some? && stored.value.JObject? && role in stored.value.fields
    && stored.value.fields[role].JList? && JString(instanceId) in stored.value.fields[role].items
  }

  lemma ListedIsMapped(t: Admin.Tables, role: string, instanceId: string)
    ensures Listed(t.siam, role, instanceId) <==> role in Admin.Mapping(t) && instanceId in Admin.Mapping(t)[role]
  {
  }

  predicate ListedForUser(t: Admin.Tables, user: User, instanceId: string) {
    exists role :: role in user.roles && Listed(t.siam, role, instanceId)
  }

  lemma ListedForUserIsAuthorized(t: Admin.Tables, user: User, instanceId: string)
    ensures ListedForUser(t, user, instanceId) <==> Siam.Authorized(Admin.Mapping(t), user.roles, instanceId)
  {
    if ListedForUser(t, user, instanceId) {
      var role :| role in user.roles && Listed(t.siam, role, instanceId);
      ListedIsMapped(t, role, instanceId);
    }
    if Siam.Authorized(Admin.Mapping(t), user.roles, instanceId) {
      var role :| role in user.roles && role in Admin.Mapping(t) && instanceId in Admin.Mapping(t)[role];
      ListedIsMapped(t, role, instanceId);
    }
  }

  /** Why the gates refuse, in their order. */
  function Refused(t: Admin.Tables, user: User, instanceId: string): Option<Refusal> {
    if instanceId !in t.instances then Some(InstanceNotFound)
    else if !t.instances[instanceId].enabled then Some(InstanceDisabled)
    else if !ListedForUser(t, user, instanceId) then Some(NotAuthorized)
    else None
  }

  /** The gates read the instance table and the stored mapping value, and nothing else. */
  lemma GateReads(t: Admin.Tables, user: User, instanceId: string)
    ensures Gate(t, user, instanceId) == Refused(t, user, instanceId)
  {
    ListedForUserIsAuthorized(t, user, instanceId);
  }

  // ---- Inserting a row ----

  /** One above every number of the pair, and no higher than needed. */
  ghost predicate IsNextNum(rows: seq<Row>, userSub: string, instanceId: string, n: nat) {
    && (forall r :: r in rows && OfPair(r, userSub, instanceId) ==> r.num < n)
    && (n == 0 || exists r :: r in rows && OfPair(r, userSub, instanceId) && r.num == n - 1)
  }

  lemma {:induction false} NextNumIsNext(rows: seq<Row>, userSub: string, instanceId: string)
    ensures IsNextNum(rows, userSub, instanceId, NextNum(rows, userSub, instanceId))
  {
    if |rows| > 0 {
      var front, last := rows[..|rows| - 1], rows[|rows| - 1];
      assert rows == front + [last];
      NextNumIsNext(front, userSub, instanceId);
      var n := NextNum(rows, userSub, instanceId);
      if n > 0 && !(OfPair(last, userSub, instanceId) && last.num == n - 1) {
        var r :| r in front && OfPair(r, userSub, instanceId) && r.num == n - 1;
        assert r in rows;
      }
    }
  }

  /** The tables after the row was inserted: one row, one `granted` event, nothing else but calls. */
  ghost predicate Inserted(h: Hub, h': Hub, user: User, instanceId: string, now: int, row: Row) {
    && h'.rows == h.rows + [row]
    && h'.events == h.events
         + [Event(now, user.sub, user.username, "granted", instanceId, row.num, row.subject, row.privacy)]
    && h'.admin == h.admin && h'.minted == h.minted
    && IsNextNum(h.rows, user.sub, instanceId, row.num)
    && row.id == user.sub + ":" + instanceId + ":" + RowIds.Decimal(row.num)
    && row.userSub == user.sub && row.username == user.username && row.instanceId == instanceId
    && row.connectedAt == now && row.disconnectedAt == None && row.revokedBy == None
  }

  /**
   A grant succeeds exactly when both gates pass and no active row holds the account; then
   it inserts a stub row as asked. Otherwise it says why not, in this order, and changes nothing.
   */
  lemma GrantOutcome(h: Hub, user: User, instanceId: string, privacy: string, subject: string, displayLabel: string,
                     now: int)
    ensures var (h', result) := Grant(h, user, instanceId, privacy, subject, displayLabel, now);
      match Refused(h.admin, user, instanceId) {
        case Some(refusal) => h' == h && result == Err(refusal)
        case None =>
          if Holding(h.rows, user.sub, instanceId, subject) then h' == h && result == Err(AlreadyConnected)
          else
            && result.Ok? && Inserted(h, h', user, instanceId, now, result.value) && h'.calls == h.calls
            && result.value.subject == subject && result.value.displayLabel == displayLabel
            && result.value.privacy == privacy && result.value.creds == None
            && result.value.status == StubConnected && result.value.healthy == None
      }
  {
    GateReads(h.admin, user, instanceId);
    QueryFindsHolding(h.rows, user.sub, instanceId, subject);
    NextNumIsNext(h.rows, user.sub, instanceId);
  }

  // ---- The OAuth flow ----

  function At(m: map<string, string>, key: string): string {
    if key in m then m[key] else ""
  }

  function SecretAt(doc: Integrations.Instance, key: string): string {
    if key in doc.secrets then doc.secrets[key].plaintext else ""
  }

  /** Why no flow can run on the instance: only `outlook-graph` with a tenant and a client has one. */
  function NoFlow(doc: Integrations.Instance): Option<Refusal> {
    if doc.typ != "outlook-graph" then Some(AdapterNotImplemented)
    else if At(doc.public, "tenant_id") == "" then Some(AdapterMisconfigured)
    else if At(doc.public, "client_id") == "" then Some(MissingClientId)
    else None
  }

  /**
   An initiate succeeds exactly when both gates pass, the redirect URI is allowed and the
   instance can run a flow; then it mints the flow of this call, and its request names the
   instance's tenant and client, the redirect URI, the new state and the verifier. Otherwise
   it says why not and changes nothing.
   */
  lemma InitiateOutcome(c: Config, h: Hub, user: User, instanceId: string, redirectUri: string, codeVerifier: string,
                        nonce: string, now: int)
    ensures var (h', result) := Initiate(c, h, user, instanceId, redirectUri, codeVerifier, nonce, now);
      match Refused(h.admin, user, instanceId) {
        case Some(refusal) => h' == h && result == Err(refusal)
        case None =>
          var doc := h.admin.instances[instanceId];
          if redirectUri !in c.allowedRedirects then h' == h && result == Err(RedirectNotAllowed)
          else if NoFlow(doc).Some? then h' == h && result == Err(NoFlow(doc).value)
          else
            && h' == h.(minted := h'.minted)
            && h'.minted == h.minted + [Flow(user.sub, instanceId, nonce, now, codeVerifier, redirectUri)]
            && result == Ok(AuthRequest(doc.public["tenant_id"], doc.public["client_id"], redirectUri, |h.minted|,
                codeVerifier))
      }
  {
    GateReads(h.admin, user, instanceId);
  }

  /** Why a state does not open for the caller: never minted, too old, from the future, or somebody else's. */
  function NotOpen(h: Hub, user: User, instanceId: string, state: nat, now: int): Option<Refusal> {
    if state >= |h.minted| then Some(BadState(DecryptionFailed(InvalidTag)))
    else if now - h.minted[state].issuedAt > 600 then Some(BadState(Expired))
    else if h.minted[state].issuedAt > now + 60 then Some(BadState(FromTheFuture))
    else if h.minted[state].userSub != user.sub then Some(StateOfOtherUser)
    else if h.minted[state].instanceId != instanceId then Some(StateOfOtherInstance)
    else None
  }

  /** Why a callback makes no exchange. */
  function NoExchange(h: Hub, user: User, instanceId: string, state: nat, now: int): Option<Refusal> {
    if NotOpen(h, user, instanceId, state, now).Some? then NotOpen(h, user, instanceId, state, now)
    else if Refused(h.admin, user, instanceId).Some? then Refused(h.admin, user, instanceId)
    else NoFlow(h.admin.instances[instanceId])
  }

  lemma NoExchangeIsComplete(h: Hub, user: User, instanceId: string, code: string, state: nat, provider: IdpAnswers,
                             now: int)
    ensures match NoExchange(h, user, instanceId, state, now) {
      case Some(refusal) => Complete(h, user, instanceId, code, state, provider, now) == (h, Err(refusal))
      case None =>
        && state < |h.minted| && instanceId in h.admin.instances
        && "tenant_id" in h.admin.instances[instanceId].public && "client_id" in h.admin.instances[instanceId].public
        && var doc := h.admin.instances[instanceId];
           var call := Exchange(doc.public["tenant_id"], doc.public["client_id"], SecretAt(doc, "client_secret"),
                                h.minted[state].redirectUri, code, h.minted[state].codeVerifier);
           Complete(h, user, instanceId, code, state, provider, now)
           == Redeem(h.(calls := h.calls + [call]), user, instanceId, provider, now)
    }
  {
    GateReads(h.admin, user, instanceId);
  }

  /** The account a provider answer names: the mail address, or else the principal name; empty for none. */
  function Account(me: Option<GraphMe>): string {
    if me.None? then "" else if me.value.mail != "" then me.value.mail else me.value.userPrincipalName
  }

  /** The tokens of an answer received at `now`: it lives for the seconds given, or an hour. */
  ghost predicate TokensOf(tokens: Tokens, answer: TokenResponse, now: int) {
    && tokens.access == answer.access && tokens.refresh == answer.refresh && tokens.scope == answer.scope
    && (answer.expiresIn.Some? ==> tokens.expiresAt == now + answer.expiresIn.value)
    && (answer.expiresIn.None? ==> tokens.expiresAt == now + 3600)
  }

  lemma RedeemOutcome(h: Hub, user: User, instanceId: string, provider: IdpAnswers, now: int)
    ensures var (h', result) := Redeem(h, user, instanceId, provider, now);
      if provider.token.None? then h' == h && result == Err(ExchangeFailed)
      else if Account(provider.me) == "" then h' == h && result == Err(IdentityFailed)
      else if Holding(h.rows, user.sub, instanceId, Account(provider.me))
      then h' == h && result == Err(AlreadyConnected)
      else
        && result.Ok? && Inserted(h, h', user, instanceId, now, result.value) && h'.calls == h.calls
        && provider.me.Some? && ConnectedAs(result.value, provider, now)
  {
    QueryFindsHolding(h.rows, user.sub, instanceId, Account(provider.me));
    NextNumIsNext(h.rows, user.sub, instanceId);
  }

  /** The row a callback inserts, by the provider's answers. */
  ghost predicate ConnectedAs(row: Row, provider: IdpAnswers, now: int) {
    && provider.token.Some? && provider.me.Some?
    && row.subject == Account(provider.me)
    && row.displayLabel == (if provider.me.value.displayName != "" then provider.me.value.displayName else row.subject)
    && row.privacy == "company" && row.status == Connected && row.healthy == Some(provider.healthy)
    && row.creds.Some? && row.creds.value.Sealed?
    && TokensOf(row.creds.value.tokens, provider.token.value, now)
  }

  /**
   A callback makes exactly one exchange, with the instance's tenant, client and client
   secret, the code it was given and the flow's own redirect URI and verifier, exactly when
   its state opens for the caller, the gates pass and the instance can run a flow. It then
   succeeds exactly when the provider grants tokens and names an account that no active row
   holds, and inserts a connected row with those tokens, good until `now` plus their
   lifetime. Otherwise it says why not and changes nothing but the calls made.
   */
  lemma CompleteOutcome(h: Hub, user: User, instanceId: string, code: string, state: nat, provider: IdpAnswers,
                        now: int)
    ensures var (h', result) := Complete(h, user, instanceId, code, state, provider, now);
      match NoExchange(h, user, instanceId, state, now) {
        case Some(refusal) => h' == h && result == Err(refusal)
        case None =>
          var doc, flow := h.admin.instances[instanceId], h.minted[state];
          && h'.calls == h.calls + [Exchange(doc.public["tenant_id"], doc.public["client_id"],
                                             SecretAt(doc, "client_secret"), flow.redirectUri, code, flow.codeVerifier)]
          && (if provider.token.None? then h' == h.(calls := h'.calls) && result == Err(ExchangeFailed)
              else if Account(provider.me) == "" then h' == h.(calls := h'.calls) && result == Err(IdentityFailed)
              else if Holding(h.rows, user.sub, instanceId, Account(provider.me))
              then h' == h.(calls := h'.calls) && result == Err(AlreadyConnected)
              else
                && result.Ok? && Inserted(h, h', user, instanceId, now, result.value)
                && ConnectedAs(result.value, provider, now))
      }
  {
    NoExchangeIsComplete(h, user, instanceId, code, state, provider, now);
    if NoExchange(h, user, instanceId, state, now).None? {
      var doc := h.admin.instances[instanceId];
      var call := Exchange(doc.public["tenant_id"], doc.public["client_id"], SecretAt(doc, "client_secret"),
                           h.minted[state].redirectUri, code, h.minted[state].codeVerifier);
      RedeemOutcome(h.(calls := h.calls + [call]), user, instanceId, provider, now);
    }
  }

  // ---- Fetching a token ----

  /** No earlier row carries the id, as of a row whose id is its own. */
  ghost predicate IsFirst(rows: seq<Row>, i: nat) {
    i < |rows| && forall j :: 0 <= j < i ==> rows[j].id != rows[i].id
  }

  lemma OwnIsFirst(rows: seq<Row>, i: nat)
    requires i < |rows| && OwnId(rows, i)
    ensures IsFirst(rows, i)
  {
  }

  lemma FirstIsFound(rows: seq<Row>, i: nat)
    requires IsFirst(rows, i)
    ensures RowById(rows, rows[i].id) == Some(rows[i])
  {
    var k := RowByIdIsFirst(rows, rows[i].id, i);
  }

  /** A fetch by an id that no row carries does nothing. */
  lemma FetchOfNothing(h: Hub, id: string, skew: int, response: Option<TokenResponse>, now: int)
    requires forall r :: r in h.rows ==> r.id != id
    ensures FetchToken(h, id, skew, response, now) == (h, None)
  {
    if RowById(h.rows, id).Some? {
      LedgerEffects.RowByIdHasId(h.rows, id);
    }
  }

  /** The token is within the skew of its end, or past it. */
  predicate Due(tokens: Tokens, skew: int, now: int) {
    tokens.expiresAt - skew <= now
  }

  /** A refresh can be asked for: a refresh token, and an instance with a token endpoint. */
  predicate Refreshable(t: Admin.Tables, r: Row, tokens: Tokens) {
    && tokens.refresh.Some? && r.instanceId in t.instances
    && t.instances[r.instanceId].typ == "outlook-graph"
    && At(t.instances[r.instanceId].public, "tenant_id") != ""
  }

  /** The one request, with the instance's entries and the stored refresh token. */
  function RefreshFor(t: Admin.Tables, r: Row, tokens: Tokens): TokenCall
    requires Refreshable(t, r, tokens)
  {
    var doc := t.instances[r.instanceId];
    Refresh(doc.public["tenant_id"], At(doc.public, "client_id"), SecretAt(doc, "client_secret"), tokens.refresh.value)
  }

  /**
   A fetch for the first row with its id. Nothing happens unless the row is connected with
   credentials. Unreadable ones make it stale. A token that is not due is handed out as it
   is, with no request and no change. For a due one a request is made exactly when a refresh
   can be asked for; answered, the new token is handed out and stored with what came with
   it, good until `now` plus its lifetime; unanswered or not made, the row turns stale.
   */
  lemma FetchOutcome(h: Hub, i: nat, skew: int, response: Option<TokenResponse>, now: int)
    requires IsFirst(h.rows, i)
    ensures var r := h.rows[i];
      var (h', token) := FetchToken(h, r.id, skew, response, now);
      && h' == h.(rows := h'.rows, calls := h'.calls) && |h'.rows| == |h.rows|
      && (r.status != Connected || r.creds.None? ==> h' == h && token == None)
      && (r.status == Connected && r.creds == Some(Unreadable) ==>
            h'.calls == h.calls && token == None && h'.rows[i] == r.(status := Stale))
      && (StoredTokens(r).Some? ==>
            var tokens := StoredTokens(r).value;
            if !Due(tokens, skew, now) then h' == h && token == Some(tokens.access)
            else if !Refreshable(h.admin, r, tokens) then
              h'.calls == h.calls && token == None && h'.rows[i] == r.(status := Stale)
            else
              && h'.calls == h.calls + [RefreshFor(h.admin, r, tokens)]
              && (response.None? ==> token == None && h'.rows[i] == r.(status := Stale))
              && (response.Some? ==>
                    && token == Some(response.value.access)
                    && h'.rows[i].creds.Some? && h'.rows[i].creds.value.Sealed?
                    && h'.rows[i] == r.(creds := h'.rows[i].creds)
                    && TokensOf(h'.rows[i].creds.value.tokens, response.value, now)))
  {
    FirstIsFound(h.rows, i);
  }

  /** So a request is made exactly when the row's token is due and a refresh can be asked for. */
  lemma RefreshIsMadeIff(h: Hub, i: nat, skew: int, response: Option<TokenResponse>, now: int)
    requires IsFirst(h.rows, i)
    ensures var r := h.rows[i];
      var h' := FetchToken(h, r.id, skew, response, now).0;
      h'.calls != h.calls <==>
        && r.status == Connected && r.creds.Some? && r.creds.value.Sealed?
        && r.creds.value.tokens.expiresAt - skew <= now
        && Refreshable(h.admin, r, r.creds.value.tokens)
  {
    FetchOutcome(h, i, skew, response, now);
  }

  /** The row was stored connected at `since`, with the tokens of the answer. */
  ghost predicate Holds(r: Row, answer: TokenResponse, since: int) {
    StoredTokens(r).Some? && TokensOf(StoredTokens(r).value, answer, since)
  }

  function Lifetime(answer: TokenResponse): int {
    if answer.expiresIn.Some? then answer.expiresIn.value else 3600
  }

  /**
   While a row holds an answer, its token is served until its lifetime less the skew is over,
   and due from then on.
   */
  lemma HeldTokenIsServed(h: Hub, i: nat, answer: TokenResponse, since: int, skew: int,
                          response: Option<TokenResponse>, t: int)
    requires IsFirst(h.rows, i) && Holds(h.rows[i], answer, since)
    ensures t + skew < since + Lifetime(answer) ==>
              FetchToken(h, h.rows[i].id, skew, response, t) == (h, Some(answer.access))
    ensures t + skew >= since + Lifetime(answer) ==>
              (FetchToken(h, h.rows[i].id, skew, response, t).0.calls != h.calls <==>
                 Refreshable(h.admin, h.rows[i], StoredTokens(h.rows[i]).value))
  {
    FetchOutcome(h, i, skew, response, t);
  }

  /**
   A callback's token is what later fetches hand out: in any state that still holds the row
   it inserted, the first with its id, until the lifetime less the skew is over.
   */
  lemma CallbackTokenIsServed(h: Hub, user: User, instanceId: string, code: string, state: nat, provider: IdpAnswers,
                              now: int, later: Hub, i: nat, skew: int, response: Option<TokenResponse>, t: int)
    requires Complete(h, user, instanceId, code, state, provider, now).1.Ok?
    requires IsFirst(later.rows, i)
    requires later.rows[i] == Complete(h, user, instanceId, code, state, provider, now).1.value
    ensures provider.token.Some?
    ensures var answer := provider.token.value;
      && (t + skew < now + Lifetime(answer) ==>
            FetchToken(later, later.rows[i].id, skew, response, t) == (later, Some(answer.access)))
      && (t + skew >= now + Lifetime(answer) ==>
            (FetchToken(later, later.rows[i].id, skew, response, t).0.calls != later.calls <==>
               Refreshable(later.admin, later.rows[i], StoredTokens(later.rows[i]).value)))
  {
    CompleteOutcome(h, user, instanceId, code, state, provider, now);
    HeldTokenIsServed(later, i, provider.token.value, now, skew, response, t);
  }

  /** The same for the token a refresh stores. */
  lemma RefreshedTokenIsServed(h: Hub, k: nat, before: int, answer: TokenResponse, now: int,
                               later: Hub, i: nat, skew: int, response: Option<TokenResponse>, t: int)
    requires IsFirst(h.rows, k) && StoredTokens(h.rows[k]).Some?
    requires Due(StoredTokens(h.rows[k]).value, before, now)
    requires Refreshable(h.admin, h.rows[k], StoredTokens(h.rows[k]).value)
    requires IsFirst(later.rows, i)
    requires var h' := FetchToken(h, h.rows[k].id, before, Some(answer), now).0;
      k < |h'.rows| && later.rows[i] == h'.rows[k]
    ensures Holds(later.rows[i], answer, now)
    ensures t + skew < now + Lifetime(answer) ==>
              FetchToken(later, later.rows[i].id, skew, response, t) == (later, Some(answer.access))
    ensures t + skew >= now + Lifetime(answer) ==>
              (FetchToken(later, later.rows[i].id, skew, response, t).0.calls != later.calls <==>
                 Refreshable(later.admin, later.rows[i], StoredTokens(later.rows[i]).value))
  {
    FetchOutcome(h, k, before, Some(answer), now);
    HeldTokenIsServed(later, i, answer, now, skew, response, t);
  }

  // ---- Closing rows ----

  /** One event for each row hit, in the order of the table, and none besides. */
  predicate LogsEach(rows: seq<Row>, hit: Row -> bool, log: seq<Event>, ts: int, who: Option<string>, action: string) {
    if |rows| == 0 then log == []
    else
      var front, r := rows[..|rows| - 1], rows[|rows| - 1];
      if !hit(r) then LogsEach(front, hit, log, ts, who, action)
      else
        && |log| > 0 && LogsEach(front, hit, log[..|log| - 1], ts, who, action)
        && log[|log| - 1] == Event(ts, r.userSub, if who.Some? then who.value else r.username, action,
                                   r.instanceId, r.num, r.subject, r.privacy)
  }

  /** Some row hit carries the id. */
  ghost predicate HitsId(rows: seq<Row>, hit: Row -> bool, id: string) {
    exists r :: r in rows && hit(r) && r.id == id
  }

  /**
   The rows hit are closed as `closed` says and logged one by one; any other row is unchanged
   exactly when it shares its id with none of them or closing it would change nothing; and
   nothing else changes.
   */
  ghost predicate Closes(h: Hub, h': Hub, hit: Row -> bool, closed: Row -> Row, ts: int, who: Option<string>,
                         action: string) {
    && h'.admin == h.admin && h'.minted == h.minted && h'.calls == h.calls
    && |h'.rows| == |h.rows|
    && (forall i :: 0 <= i < |h.rows| && hit(h.rows[i]) ==> h'.rows[i] == closed(h.rows[i]))
    && (forall i :: 0 <= i < |h.rows| && !hit(h.rows[i]) ==>
          (h'.rows[i] == h.rows[i] <==> !HitsId(h.rows, hit, h.rows[i].id) || closed(h.rows[i]) == h.rows[i]))
    && |h.events| <= |h'.events| && h'.events[..|h.events|] == h.events
    && LogsEach(h.rows, hit, h'.events[|h.events|..], ts, who, action)
  }

  lemma {:induction false} NoticesLogEach(rows: seq<Row>, sel: Selector, hit: Row -> bool, ts: int,
                                          who: Option<string>, action: string)
    requires forall r :: hit(r) <==> Selects(sel, r)
    ensures LogsEach(rows, hit, EventsOf(Query(rows, sel), ts, who, action), ts, who, action)
  {
    if |rows| > 0 {
      NoticesLogEach(rows[..|rows| - 1], sel, hit, ts, who, action);
      Conservation.NoticesStep(rows, sel, ts, who, action);
      var before := EventsOf(Query(rows[..|rows| - 1], sel), ts, who, action);
      var e := Conservation.NoticeOf(rows[|rows| - 1], ts, who, action);
      assert (before + [e])[..|before|] == before;
    }
  }

  lemma HitsIdIsReached(rows: seq<Row>, sel: Selector, hit: Row -> bool, id: string)
    requires forall r :: hit(r) <==> Selects(sel, r)
    ensures HitsId(rows, hit, id) <==> id in Ids(Query(rows, sel))
  {
    if HitsId(rows, hit, id) {
      var r :| r in rows && hit(r) && r.id == id;
      assert r in Query(rows, sel);
    }
  }

  lemma RevocationCloses(h: Hub, sel: Selector, p: Patch, hit: Row -> bool, closed: Row -> Row, ts: int,
                         who: Option<string>, action: string)
    requires forall r :: hit(r) <==> Selects(sel, r)
    requires forall r :: closed(r) == ApplyPatch(r, p)
    ensures Closes(h, RevokeSelected(h, sel, p, ts, who, action), hit, closed, ts, who, action)
  {
    var h' := RevokeSelected(h, sel, p, ts, who, action);
    forall i | 0 <= i < |h.rows|
      ensures if hit(h.rows[i]) then h'.rows[i] == closed(h.rows[i])
              else h'.rows[i] == h.rows[i] <==> !HitsId(h.rows, hit, h.rows[i].id) || closed(h.rows[i]) == h.rows[i]
    {
      ReachedOutcome(h.rows, sel, p, i);
      HitsIdIsReached(h.rows, sel, hit, h.rows[i].id);
    }
    NoticesLogEach(h.rows, sel, hit, ts, who, action);
    assert h'.events[|h.events|..] == EventsOf(Query(h.rows, sel), ts, who, action);
  }

  /** The user's active rows on the instance, or the one under the subject named. */
  function Own(user: User, instanceId: string, only: Option<string>): Row -> bool {
    (r: Row) => r.disconnectedAt == None && r.userSub == user.sub && r.instanceId == instanceId
         && (only.Some? ==> r.subject == only.value)
  }

  /** How a user's revoke closes a row: credentials kept. */
  function Left(now: int): Row -> Row {
    (r: Row) => r.(status := Disconnected, disconnectedAt := Some(now))
  }

  /**
   A revoke succeeds exactly when the user has an active row on the instance, under the
   subject if one is named; it disconnects those rows and keeps their credentials, logs each
   under the user's name, and spares all others, other users' rows included, but for shared ids.
   */
  lemma RevokeOutcome(h: Hub, user: User, instanceId: string, only: Option<string>, now: int)
    ensures var (h', result) := Revoke(h, user, instanceId, only, now);
      var hit := Own(user, instanceId, only);
      && (result.Ok? <==> exists r :: r in h.rows && hit(r))
      && (result.Err? ==> h' == h && result.error == NoActiveConnection)
      && (result.Ok? ==> Closes(h, h', hit, Left(now), now, Some(user.username), "revoked"))
  {
    var hit := Own(user, instanceId, only);
    var sel := RevokeSelector(user, instanceId, only);
    RevocationCloses(h, sel, UserRevoke(now), hit, Left(now), now, Some(user.username), "revoked");
    OwnRowsAreFound(h.rows, user, instanceId, only);
  }

  lemma OwnRowsAreFound(rows: seq<Row>, user: User, instanceId: string, only: Option<string>)
    ensures Query(rows, RevokeSelector(user, instanceId, only)) != []
       <==> exists r :: r in rows && Own(user, instanceId, only)(r)
  {
    var found := Query(rows, RevokeSelector(user, instanceId, only));
    if found != [] {
      assert found[0] in found;
    }
    forall r | r in rows && Own(user, instanceId, only)(r) ensures found != [] {
      assert r in found;
    }
  }

  // ---- Cascades ----

  /** How a cascade closes a row: credentials wiped, the reason recorded. */
  function Cascaded(now: int, reason: string): Row -> Row {
    (r: Row) => r.(status := Disconnected, disconnectedAt := Some(now), creds := None, revokedBy := Some(reason))
  }

  function ActiveOn(instanceId: string): Row -> bool {
    (r: Row) => r.disconnectedAt == None && r.instanceId == instanceId
  }

  /** Active on an instance that some role listed before and none lists after. */
  ghost predicate LosesItsListing(before: Option<Json>, after: Option<Json>, r: Row) {
    && r.disconnectedAt == None
    && (exists role :: Listed(before, role, r.instanceId))
    && !(exists role :: Listed(after, role, r.instanceId))
  }

  lemma InstanceCascade(h: Hub, instanceId: string, reason: string, now: int)
    ensures Closes(h, RevokeAllForInstance(h, instanceId, reason, now).0, ActiveOn(instanceId), Cascaded(now, reason),
                   now, None, reason)
  {
    RevocationCloses(h, OfInstance(instanceId), CascadeRevoke(now, reason), ActiveOn(instanceId), Cascaded(now, reason),
                     now, None, reason);
  }

  /**
   An update closes the instance's active rows exactly when it takes `enabled` from true to
   false, a delete always; no other call on an instance, and none on the LLM row, touches
   rows or events.
   */
  lemma AdminCascadeOutcome(c: Config, h: Hub, op: Admin.Op, now: int)
    requires !op.ReplaceMapping?
    ensures var h' := AdminStep(c, h, op, now);
      var h1 := h.(admin := h'.admin);
      var switchedOff := op.UpdateInstance? && op.id in h.admin.instances && h.admin.instances[op.id].enabled
                         && op.id in h'.admin.instances && !h'.admin.instances[op.id].enabled;
      var deleted := op.DeleteInstance? && op.id in h.admin.instances;
      && (switchedOff ==> Closes(h1, h', ActiveOn(op.id), Cascaded(now, "revoked-by-admin-disable"), now, None,
                                 "revoked-by-admin-disable"))
      && (deleted ==> Closes(h1, h', ActiveOn(op.id), Cascaded(now, "revoked-by-admin-delete"), now, None,
                             "revoked-by-admin-delete"))
      && (!switchedOff && !deleted ==> h' == h1)
  {
    var h1 := h.(admin := Admin.Step(c.env, h.admin, op, now));
    match op {
      case UpdateInstance(_, id, _) =>
        Admin.StepInstances(c.env, h.admin, op, now);
        InstanceCascade(h1, id, BY_DISABLE, now);
      case DeleteInstance(_, id) => InstanceCascade(h1, id, BY_DELETE, now);
      case _ =>
    }
  }

  lemma ListingIsMapped(t: Admin.Tables, instanceId: string)
    ensures Siam.Mapped(Admin.Mapping(t), instanceId) <==> exists role :: Listed(t.siam, role, instanceId)
  {
    if Siam.Mapped(Admin.Mapping(t), instanceId) {
      var role :| role in Admin.Mapping(t) && instanceId in Admin.Mapping(t)[role];
      ListedIsMapped(t, role, instanceId);
    }
    if role :| Listed(t.siam, role, instanceId) {
      ListedIsMapped(t, role, instanceId);
    }
  }

  lemma ReplaceIsRevocation(c: Config, h: Hub, actor: Admin.Actor, mapping: Json, now: int)
    ensures var op := Admin.ReplaceMapping(actor, mapping);
      var h' := AdminStep(c, h, op, now);
      h' == RevokeSelected(h.(admin := h'.admin), Orphaned(Admin.Mapping(h.admin), Admin.Mapping(h'.admin)),
                           CascadeRevoke(now, BY_SIAM), now, None, BY_SIAM)
  {
    var h1 := h.(admin := Admin.Step(c.env, h.admin, Admin.ReplaceMapping(actor, mapping), now));
    var before, after := Admin.Mapping(h.admin), Admin.Mapping(h1.admin);
    if before == after {
      NothingOrphaned(h1.rows, after);
      Conservation.NothingToRevoke(h1, Orphaned(before, after), CascadeRevoke(now, BY_SIAM), now, None, BY_SIAM);
    }
  }

  /** Storing a mapping keeps every listing of it and adds none. */
  lemma StoredMappingLists(env: Admin.Env, t: Admin.Tables, actor: Admin.Actor, mapping: Json, now: int, role: string,
                           id: string)
    ensures var t' := Admin.Step(env, t, Admin.ReplaceMapping(actor, mapping), now);
      && t'.instances == t.instances && t'.llm == t.llm
      && (Listed(t'.siam, role, id) <==> Listed(Some(mapping), role, id))
  {
    var t' := Admin.Step(env, t, Admin.ReplaceMapping(actor, mapping), now);
    Siam.NormalizeIsIdempotent(mapping);
    ListedIsMapped(t', role, id);
    ListedIsMapped(t.(siam := Some(mapping)), role, id);
  }

  /**
   A replace closes exactly the active rows on instances that some role listed before and
   none lists after, whatever the two mappings.
   */
  lemma ReplaceOutcome(c: Config, h: Hub, actor: Admin.Actor, mapping: Json, now: int)
    ensures var h' := AdminStep(c, h, Admin.ReplaceMapping(actor, mapping), now);
      Closes(h.(admin := h'.admin), h', (r: Row) => LosesItsListing(h.admin.siam, h'.admin.siam, r),
             Cascaded(now, "revoked-by-siam-change"), now, None, "revoked-by-siam-change")
  {
    var h' := AdminStep(c, h, Admin.ReplaceMapping(actor, mapping), now);
    var sel := Orphaned(Admin.Mapping(h.admin), Admin.Mapping(h'.admin));
    var hit := (r: Row) => LosesItsListing(h.admin.siam, h'.admin.siam, r);
    ReplaceIsRevocation(c, h, actor, mapping, now);
    forall r: Row ensures hit(r) <==> Selects(sel, r) {
      ListingIsMapped(h.admin, r.instanceId);
      ListingIsMapped(h'.admin, r.instanceId);
    }
    RevocationCloses(h.(admin := h'.admin), sel, CascadeRevoke(now, BY_SIAM), hit, Cascaded(now, BY_SIAM), now, None,
        BY_SIAM);
  }
}
