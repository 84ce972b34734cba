/** OAuth flows along whole runs: what a connected row goes back to. */
module OAuthRuns {
  import opened Wrappers
  import opened Registry
  import opened OAuthState
  import opened Ledger
  import opened LedgerInvariants
  import opened LedgerRuns
  import opened LedgerEffects
  import Admin

  /** The call at position `k` minted the flow: same user and instance, allowed redirect, gates passed. */
  ghost predicate MintedBy(c: Config, llm: LlmRow, ops: seq<Op>, k: nat, flow: Flow) {
    && k < |ops| && ops[k].InitiateOp?
    && flow == Flow(ops[k].user.sub, ops[k].instanceId, ops[k].nonce, ops[k].now, ops[k].codeVerifier,
        ops[k].redirectUri)
    && flow.redirectUri in c.allowedRedirects
    && Gate(Run(c, llm, ops[..k]).admin, ops[k].user, ops[k].instanceId) == None
    && Initiate(c, Run(c, llm, ops[..k]), ops[k].user, ops[k].instanceId, ops[k].redirectUri,
                ops[k].codeVerifier, ops[k].nonce, ops[k].now).1.Ok?
  }

  lemma FetchKeepsMinted(h: Hub, id: string, skew: int, response: Option<TokenResponse>, now: int)
    ensures FetchToken(h, id, skew, response, now).0.minted == h.minted
  {
  }

  lemma CompleteKeepsMinted(h: Hub, user: User, instanceId: string, code: string, state: nat, provider: IdpAnswers,
                            now: int)
    ensures Complete(h, user, instanceId, code, state, provider, now).0.minted == h.minted
  {
  }

  lemma InitiateMints(c: Config, h: Hub, user: User, instanceId: string, redirectUri: string, codeVerifier: string,
                      nonce: string, now: int)
    ensures var (h', result) := Initiate(c, h, user, instanceId, redirectUri, codeVerifier, nonce, now);
      if result.Ok? then
        && h'.minted == h.minted + [Flow(user.sub, instanceId, nonce, now, codeVerifier, redirectUri)]
        && redirectUri in c.allowedRedirects && Gate(h.admin, user, instanceId) == None
        && result.value.state == |h.minted| && result.value.redirectUri == redirectUri
      else h' == h
  {
  }

  /** Only a successful `initiate_grant` adds to the flows that a state can open to. */
  lemma OnlyInitiateMints(c: Config, h: Hub, op: Op)
    requires !op.InitiateOp?
    ensures Step(c, h, op).minted == h.minted
  {
    match op {
      case FetchTokenOp(id, skew, response, now) => FetchKeepsMinted(h, id, skew, response, now);
      case CompleteOp(u, i, code, state, provider, now) => CompleteKeepsMinted(h, u, i, code, state, provider, now);
      case _ =>
    }
  }

  lemma MintedByLonger(c: Config, llm: LlmRow, ops: seq<Op>, k: nat, flow: Flow)
    requires |ops| > 0 && MintedBy(c, llm, ops[..|ops| - 1], k, flow)
    ensures MintedBy(c, llm, ops, k, flow)
  {
    assert ops[..|ops| - 1][..k] == ops[..k];
  }

  lemma {:induction false} EveryFlowWasInitiated(c: Config, llm: LlmRow, ops: seq<Op>, state: nat) returns (k: nat)
    requires state < |Run(c, llm, ops).minted|
    ensures MintedBy(c, llm, ops, k, Run(c, llm, ops).minted[state])
  {
    var front, last := ops[..|ops| - 1], ops[|ops| - 1];
    var h := Run(c, llm, front);
    if last.InitiateOp? {
      InitiateMints(c, h, last.user, last.instanceId, last.redirectUri, last.codeVerifier, last.nonce, last.now);
    } else {
      OnlyInitiateMints(c, h, last);
    }
    if state < |h.minted| {
      k := EveryFlowWasInitiated(c, llm, front, state);
      MintedByLonger(c, llm, ops, k, h.minted[state]);
    } else {
      k := |ops| - 1;
      assert ops[..k] == front;
    }
  }

  /** A completed flow, checked against the state it presented. */
  ghost predicate CompletedFrom(c: Config, h: Hub, h': Hub, op: Op, flow: Flow) {
    && op.CompleteOp?
    && op.state < |h.minted| && h.minted[op.state] == flow
    && flow.userSub == op.user.sub && flow.instanceId == op.instanceId
    && -60 <= op.now - flow.issuedAt <= 600
    && |h'.calls| == |h.calls| + 1
    && h'.calls[|h.calls|].Exchange?
    && h'.calls[|h.calls|].redirectUri == flow.redirectUri
    && h'.calls[|h.calls|].codeVerifier == flow.codeVerifier
    && h'.calls[|h.calls|].code == op.code
  }

  lemma RedeemCalls(h: Hub, user: User, instanceId: string, provider: IdpAnswers, now: int)
    ensures var (h', result) := Redeem(h, user, instanceId, provider, now);
      && h'.calls == h.calls
      && (result.Ok? ==>
            && result.value.status == Connected
            && result.value.userSub == user.sub && result.value.instanceId == instanceId)
  {
  }

  lemma CompleteUsesItsFlow(c: Config, h: Hub, op: Op)
    requires op.CompleteOp?
    requires Complete(h, op.user, op.instanceId, op.code, op.state, op.provider, op.now).1.Ok?
    ensures op.state < |h.minted| && CompletedFrom(c, h, Step(c, h, op), op, h.minted[op.state])
  {
    var flow := OpenState(h, op.user, op.instanceId, op.state, op.now).value;
    var doc := h.admin.instances[op.instanceId];
    var tenant := AdapterTenant(doc).value;
    RedeemCalls(h.(calls := h.calls + [ExchangeCall(doc, tenant, flow, op.code)]), op.user, op.instanceId, op.provider,
        op.now);
  }

  /**
   Whenever a call inserts a connected row, it is a `complete_grant` presenting a state that
   an earlier `initiate_grant` of the same user and instance minted, from 60 s in the future
   to 600 s in the past, with an allowlisted redirect URI; and the token request it makes
   carries exactly that flow's redirect URI (section 4.1.3 of RFC 6749) and code verifier
   (section 4.5 of RFC 7636).
   */
  lemma ConnectedRowsComeFromFlows(c: Config, llm: LlmRow, ops: seq<Op>) returns (k: nat)
    requires |ops| > 0
    requires var h, h' := Run(c, llm, ops[..|ops| - 1]), Run(c, llm, ops);
      |h'.rows| > |h.rows| && h'.rows[|h.rows|].status == Connected
    ensures var h, h', op := Run(c, llm, ops[..|ops| - 1]), Run(c, llm, ops), ops[|ops| - 1];
      && op.CompleteOp? && op.state < |h.minted|
      && h'.rows[|h.rows|].userSub == op.user.sub && h'.rows[|h.rows|].instanceId == op.instanceId
      && CompletedFrom(c, h, h', op, h.minted[op.state])
      && k < |ops| - 1
      && MintedBy(c, llm, ops[..|ops| - 1], k, h.minted[op.state])
  {
    var front, op := ops[..|ops| - 1], ops[|ops| - 1];
    var h := Run(c, llm, front);
    OnlyCompleteConnects(c, h, op);
    CompleteUsesItsFlow(c, h, op);
    k := EveryFlowWasInitiated(c, llm, front, op.state);
  }

  lemma OnlyCompleteConnects(c: Config, h: Hub, op: Op)
    requires var h' := Step(c, h, op); |h'.rows| > |h.rows| && h'.rows[|h.rows|].status == Connected
    ensures op.CompleteOp? && Complete(h, op.user, op.instanceId, op.code, op.state, op.provider, op.now).1.Ok?
    ensures Step(c, h, op).rows[|h.rows|].userSub == op.user.sub && Step(c, h, op).rows[|h.rows|].instanceId
        == op.instanceId
  {
    StepShows(c, h, op);
    if op.CompleteOp? {
      CompleteInserts(h, op.user, op.instanceId, op.code, op.state, op.provider, op.now);
    }
  }

  lemma CompleteInserts(h: Hub, user: User, instanceId: string, code: string, state: nat, provider: IdpAnswers,
                        now: int)
    ensures var result := Complete(h, user, instanceId, code, state, provider, now).1;
      result.Ok? ==> result.value.userSub == user.sub && result.value.instanceId == instanceId
  {
  }

  /** No call changes what a state minted before it opens to: it serves again and again inside its window. */
  lemma StateStaysUsable(c: Config, h: Hub, op: Op, user: User, instanceId: string, state: nat, now: int)
    requires state < |h.minted|
    ensures OpenState(Step(c, h, op), user, instanceId, state, now) == OpenState(h, user, instanceId, state, now)
  {
    if op.InitiateOp? {
      InitiateMints(c, h, op.user, op.instanceId, op.redirectUri, op.codeVerifier, op.nonce, op.now);
    } else {
      OnlyInitiateMints(c, h, op);
    }
  }

  /** But only for its own user and instance. */
  lemma StateIsBoundToCaller(h: Hub, user: User, instanceId: string, code: string, state: nat, provider: IdpAnswers,
                             now: int)
    requires state >= |h.minted| || h.minted[state].userSub != user.sub || h.minted[state].instanceId != instanceId
    ensures var (h', result) := Complete(h, user, instanceId, code, state, provider, now);
      h' == h && result.Err?
  {
  }
}
