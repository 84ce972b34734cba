/**
 The OAuth `state` parameter: the flow context as a JSON object, printed, sealed into an
 envelope, and checked on the way back; and what else is sealed under the same key.
 Printing (JSON, then UTF-8) and Python's `str` and `int` are parameters of which only what
 they do on their own output is used.
 */
module OAuthState {
  import opened Wrappers
  import opened JsonText
  import opened Base64Url
  import opened Envelope

  const MAX_AGE := 600
  const CLOCK_TOLERANCE := 60

  datatype Flow = Flow(
    userSub: string,
    instanceId: string,
    nonce: string,
    issuedAt: int,
    codeVerifier: string,
    redirectUri: string)

  datatype Codec = Codec(
    render: Json -> Bytes,
    parse: Bytes -> Option<Json>,
    text: Json -> string,
    integer: Json -> Option<int>)
  {
    ghost predicate Correct() {
      && (forall j :: parse(render(j)) == Some(j))
      && (forall s :: text(JString(s)) == s)
      && (forall n :: integer(JNumber(n)) == Some(n))
    }
  }

  datatype StateError =
    | Missing
    | DecryptionFailed(cause: CryptoError)
    | Malformed
    | MissingField
    | Expired
    | FromTheFuture

  // ---- The flow as a document ----

  const FLOW_KEYS := {"user_sub", "instance_id", "nonce", "issued_at", "code_verifier", "redirect_uri"}

  function FlowDoc(f: Flow): Json {
    JObject(map[
      "user_sub" := JString(f.userSub),
      "instance_id" := JString(f.instanceId),
      "nonce" := JString(f.nonce),
      "issued_at" := JNumber(f.issuedAt),
      "code_verifier" := JString(f.codeVerifier),
      "redirect_uri" := JString(f.redirectUri)])
  }

  /** Not an object, a key missing, or an `issued_at` that is no number: all one error. */
  function ReadFlow(codec: Codec, j: Json): Result<Flow, StateError> {
    if !j.JObject? || !(FLOW_KEYS <= j.fields.Keys) then Err(MissingField)
    else match codec.integer(j.fields["issued_at"])
      case None => Err(MissingField)
      case Some(issuedAt) =>
        Ok(Flow(
          codec.text(j.fields["user_sub"]),
          codec.text(j.fields["instance_id"]),
          codec.text(j.fields["nonce"]),
          issuedAt,
          codec.text(j.fields["code_verifier"]),
          codec.text(j.fields["redirect_uri"])))
  }

  function ReadPayload(codec: Codec, payload: Bytes): Result<Flow, StateError> {
    match codec.parse(payload)
    case None => Err(Malformed)
    case Some(j) => ReadFlow(codec, j)
  }

  lemma FlowReadsBack(codec: Codec, f: Flow)
    requires codec.Correct()
    ensures ReadPayload(codec, codec.render(FlowDoc(f))) == Ok(f)
  {
    assert codec.parse(codec.render(FlowDoc(f))) == Some(FlowDoc(f));
  }

  /** Every key of a flow is needed. */
  lemma FlowKeysAreNeeded(codec: Codec, f: Flow, missing: set<string>)
    requires codec.Correct()
    ensures ReadFlow(codec, JObject(FlowDoc(f).fields - missing)) ==
            if "user_sub" in missing || "instance_id" in missing || "nonce" in missing || "issued_at" in missing
               || "code_verifier" in missing || "redirect_uri" in missing
            then Err(MissingField) else Ok(f)
  {
    var all := FlowDoc(f).fields;
    assert forall k :: k in all && k !in missing ==> (all - missing)[k] == all[k];
  }

  // ---- Encoding and decoding ----

  /** The age rules of `decode_state`, in its order. */
  function CheckAge(f: Flow, maxAge: int, now: int): Result<Flow, StateError> {
    if now - f.issuedAt > maxAge then Err(Expired)
    else if f.issuedAt > now + CLOCK_TOLERANCE then Err(FromTheFuture)
    else Ok(f)
  }

  function EncodeState(codec: Codec, aead: Aead, key: Bytes, nonce: Bytes, f: Flow): Result<string, CryptoError>
    requires |nonce| == NONCE_LENGTH
  {
    Encrypt(aead, key, nonce, codec.render(FlowDoc(f)))
  }

  function DecodeState(codec: Codec, aead: Aead, key: Bytes, encoded: string, maxAge: int, now: int)
    : Result<Flow, StateError>
  {
    if |encoded| == 0 then Err(Missing)
    else match Decrypt(aead, key, encoded)
      case Err(e) => Err(DecryptionFailed(e))
      case Ok(payload) =>
        match ReadPayload(codec, payload)
        case Err(e) => Err(e)
        case Ok(f) => CheckAge(f, maxAge, now)
  }

  /** What was minted comes back whole exactly inside the age window, and is an error outside it. */
  lemma StateRoundTrip(codec: Codec, aead: Aead, key: Bytes, nonce: Bytes, f: Flow, maxAge: int, now: int)
    requires codec.Correct() && aead.Correct()
    requires |key| == KEY_LENGTH && |nonce| == NONCE_LENGTH
    ensures EncodeState(codec, aead, key, nonce, f).Ok?
    ensures var decoded := DecodeState(codec, aead, key, EncodeState(codec, aead, key, nonce, f).value, maxAge, now);
            && (decoded == Ok(f) <==> -60 <= now - f.issuedAt <= maxAge)
            && (decoded != Ok(f) ==> decoded == Err(Expired) || decoded == Err(FromTheFuture))
            && (decoded == Err(Expired) <==> now - f.issuedAt > maxAge)
  {
    var payload := codec.render(FlowDoc(f));
    DecryptUndoesEncrypt(aead, key, nonce, payload);
    FlowReadsBack(codec, f);
    assert |EncodeState(codec, aead, key, nonce, f).value| > 0 by {
      assert |Layout(nonce, aead.seal(key, nonce, payload))| > 0;
    }
  }

  // ---- Stored tokens ----

  datatype OAuthTokens = OAuthTokens(
    access: string, refresh: Option<string>, expiresAt: int, scope: string, tokenType: string)

  function TokensDoc(t: OAuthTokens): Json {
    JObject(map[
      "access_token" := JString(t.access),
      "refresh_token" := if t.refresh.Some? then JString(t.refresh.value) else JNull,
      "expires_at" := JNumber(t.expiresAt),
      "scope" := JString(t.scope),
      "token_type" := JString(t.tokenType)])
  }

  function TextOr(codec: Codec, fields: map<string, Json>, name: string, default: string): string {
    if name in fields then codec.text(fields[name]) else default
  }

  /** `from_storage_dict`; any failure makes the blob unreadable. */
  function ReadTokens(codec: Codec, j: Json): Option<OAuthTokens> {
    if !j.JObject? || "access_token" !in j.fields || "expires_at" !in j.fields then None
    else match codec.integer(j.fields["expires_at"])
      case None => None
      case Some(expiresAt) =>
        var refresh := if "refresh_token" in j.fields then j.fields["refresh_token"] else JNull;
        Some(OAuthTokens(
          codec.text(j.fields["access_token"]),
          if refresh == JNull then None else Some(codec.text(refresh)),
          expiresAt,
          TextOr(codec, j.fields, "scope", ""),
          TextOr(codec, j.fields, "token_type", "Bearer")))
  }

  lemma TokensReadBack(codec: Codec, t: OAuthTokens)
    requires codec.Correct()
    ensures ReadTokens(codec, TokensDoc(t)) == Some(t)
  {
    assert TokensDoc(t).fields["expires_at"] == JNumber(t.expiresAt);
  }

  /** Of a stored document with parts missing: the two that are needed, and what stands in for the others. */
  lemma MissingPartsDefault(codec: Codec, t: OAuthTokens, missing: set<string>)
    requires codec.Correct()
    ensures ReadTokens(codec, JObject(TokensDoc(t).fields - missing)) ==
            if "access_token" in missing || "expires_at" in missing then None
            else
              Some(OAuthTokens(t.access, if "refresh_token" in missing then None else t.refresh, t.expiresAt,
                               if "scope" in missing then "" else t.scope,
                               if "token_type" in missing then "Bearer" else t.tokenType))
  {
    var all := TokensDoc(t).fields;
    assert all["expires_at"] == JNumber(t.expiresAt) && all["access_token"] == JString(t.access);
    assert forall k :: k in all && k !in missing ==> (all - missing)[k] == all[k];
  }

  // ---- One key for everything ----

  /** What the hub seals under its key: states, credentials, and config secrets as given. */
  datatype Item = StateItem(flow: Flow) | CredentialsItem(tokens: OAuthTokens) | SecretItem(secret: Bytes)

  datatype Issue = Issue(nonce: Bytes, item: Item)

  function Payload(codec: Codec, item: Item): Bytes {
    match item
    case StateItem(f) => codec.render(FlowDoc(f))
    case CredentialsItem(t) => codec.render(TokensDoc(t))
    case SecretItem(secret) => secret
  }

  function Sealings(codec: Codec, issued: seq<Issue>): seq<Sealing> {
    seq(|issued|, i requires 0 <= i < |issued| => Sealing(issued[i].nonce, Payload(codec, issued[i].item)))
  }

  /** Stored credentials never read as a flow: they lack its keys. */
  lemma CredentialsAreNoFlow(codec: Codec, t: OAuthTokens)
    requires codec.Correct()
    ensures ReadPayload(codec, codec.render(TokensDoc(t))) == Err(MissingField)
  {
    assert codec.parse(codec.render(TokensDoc(t))) == Some(TokensDoc(t));
    assert "user_sub" in FLOW_KEYS && "user_sub" !in TokensDoc(t).fields;
  }

  /**
   Every accepted state carries the bytes of something the hub sealed: a state it minted for
   the very flow that is accepted, or a config secret whose own text spells that flow. In
   particular it never is a blob of stored credentials, although they share the key.
   */
  lemma AcceptedStateWasMinted(codec: Codec, aead: Aead, key: Bytes, issued: seq<Issue>, encoded: string, maxAge: int,
                               now: int)
    returns (issue: Issue)
    requires codec.Correct() && aead.Unforgeable(key, Sealings(codec, issued))
    requires DecodeState(codec, aead, key, encoded, maxAge, now).Ok?
    ensures issue in issued
    ensures Carries(aead, key, encoded, Sealing(issue.nonce, Payload(codec, issue.item)))
    ensures var f := DecodeState(codec, aead, key, encoded, maxAge, now).value;
      && -60 <= now - f.issuedAt <= maxAge
      && (issue.item == StateItem(f) || (issue.item.SecretItem? && ReadPayload(codec, issue.item.secret) == Ok(f)))
  {
    var s := OnlyIssuedOpens(aead, key, Sealings(codec, issued), encoded);
    var i :| 0 <= i < |issued| && Sealings(codec, issued)[i] == s;
    issue := issued[i];
    match issue.item {
      case StateItem(f) => FlowReadsBack(codec, f);
      case CredentialsItem(t) => CredentialsAreNoFlow(codec, t);
      case SecretItem(_) =>
    }
  }

  /** The envelope carries a state minted for the flow. */
  ghost predicate CarriesFlow(codec: Codec, aead: Aead, key: Bytes, issued: seq<Issue>, encoded: string, f: Flow) {
    exists s :: s in issued && s.item == StateItem(f)
                && Carries(aead, key, encoded, Sealing(s.nonce, Payload(codec, s.item)))
  }

  /** So when no config secret spells a flow, exactly the minted states inside the age window are accepted. */
  lemma AcceptedIffMinted(codec: Codec, aead: Aead, key: Bytes, issued: seq<Issue>, encoded: string, maxAge: int,
                          now: int, f: Flow)
    requires codec.Correct() && |key| == KEY_LENGTH
    requires aead.Unforgeable(key, Sealings(codec, issued)) && aead.Opens(key, Sealings(codec, issued))
    requires forall s :: s in issued && s.item.SecretItem? ==> ReadPayload(codec, s.item.secret).Err?
    ensures DecodeState(codec, aead, key, encoded, maxAge, now) == Ok(f)
       <==> -60 <= now - f.issuedAt <= maxAge && CarriesFlow(codec, aead, key, issued, encoded, f)
  {
    if DecodeState(codec, aead, key, encoded, maxAge, now) == Ok(f) {
      var issue := AcceptedStateWasMinted(codec, aead, key, issued, encoded, maxAge, now);
    }
    if CarriesFlow(codec, aead, key, issued, encoded, f) {
      MintedReads(codec, aead, key, issued, encoded, f);
    }
  }

  lemma MintedReads(codec: Codec, aead: Aead, key: Bytes, issued: seq<Issue>, encoded: string, f: Flow)
    requires codec.Correct() && |key| == KEY_LENGTH && aead.Opens(key, Sealings(codec, issued))
    requires CarriesFlow(codec, aead, key, issued, encoded, f)
    ensures |encoded| > 0 && Decrypt(aead, key, encoded).Ok?
    ensures ReadPayload(codec, Decrypt(aead, key, encoded).value) == Ok(f)
  {
    var issue :| issue in issued && issue.item == StateItem(f)
                 && Carries(aead, key, encoded, Sealing(issue.nonce, Payload(codec, issue.item)));
    var i :| 0 <= i < |issued| && issued[i] == issue;
    assert Sealings(codec, issued)[i] == Sealing(issue.nonce, Payload(codec, issue.item));
    CarriedOpens(aead, key, Sealings(codec, issued), encoded, Sealings(codec, issued)[i]);
    FlowReadsBack(codec, f);
  }
}
