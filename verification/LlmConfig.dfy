/**
 The singleton LLM configuration: a flat document holding both sides, `inference` and
 `embedding`, each rendered and replaced through the fields its provider declares.
 */
module LlmConfig {
  import opened Wrappers
  import opened Registry
  import opened AuditLog

  datatype Side = Inference | Embedding

  datatype Stored = Absent | Public(text: string) | Encrypted(plaintext: string)

  type Row = map<string, Stored>

  /** One side's payload: JSON null is `None`. */
  type Payload = map<string, Option<string>>

  datatype Error =
    | NothingToUpdate
    | ProviderRequired
    | UnknownProvider(id: string)
    | UnknownKeys(names: set<string>)
    | FieldRequired(name: string)

  function Prefix(side: Side): string {
    if side.Inference? then "inference_" else "embedding_"
  }

  function PublicKey(side: Side, name: string): string {
    Prefix(side) + name
  }

  function SecretKey(side: Side, name: string): string {
    Prefix(side) + name + "_encrypted"
  }

  function KeyOf(side: Side, f: Field): string {
    if f.secret then SecretKey(side, f.name) else PublicKey(side, f.name)
  }

  function Get(row: Row, key: string): Stored {
    if key in row then row[key] else Absent
  }

  /** Python truthiness of a stored value: a ciphertext is never empty. */
  predicate Truthy(v: Stored) {
    v.Encrypted? || (v.Public? && v.text != "")
  }

  function Sent(payload: Payload, name: string): Option<string> {
    if name in payload then payload[name] else None
  }

  function Cleaned(v: Option<string>): string {
    if v.Some? then v.value else ""
  }

  // ---- Updating one side ----

  function ResolveProvider(reg: Providers, payload: Payload): Result<Provider, Error> {
    if Cleaned(Sent(payload, "provider")) == "" then Err(ProviderRequired)
    else
      var id := Sent(payload, "provider").value;
      if id in reg then Ok(reg[id]) else Err(UnknownProvider(id))
  }

  predicate LacksRequired(row: Row, side: Side, f: Field, payload: Payload) {
    && f.required
    && Cleaned(Sent(payload, f.name)) == ""
    && !(f.secret && Truthy(Get(row, SecretKey(side, f.name))))
  }

  function FirstLacking(row: Row, side: Side, fields: seq<Field>, payload: Payload): (r: Option<string>)
    ensures r.None? <==> forall f :: f in fields ==> !LacksRequired(row, side, f, payload)
  {
    if |fields| == 0 then None
    else if LacksRequired(row, side, fields[0], payload) then Some(fields[0].name)
    else FirstLacking(row, side, fields[1..], payload)
  }

  function Names(fields: seq<Field>): set<string> {
    set f | f in fields :: f.name
  }

  /** The provider to apply, or the first complaint. */
  function Validate(reg: Providers, row: Row, side: Side, payload: Payload): Result<Provider, Error> {
    match ResolveProvider(reg, payload)
    case Err(e) => Err(e)
    case Ok(provider) =>
      var unknown := payload.Keys - (Names(provider.fields) + {"provider"});
      if unknown != {} then Err(UnknownKeys(unknown))
      else match FirstLacking(row, side, provider.fields, payload)
        case Some(name) => Err(FieldRequired(name))
        case None => Ok(provider)
  }

  /** A secret not sent stays, an empty one is cleared; a public field is always written. */
  function ApplyField(row: Row, side: Side, f: Field, payload: Payload): Row {
    var v := Sent(payload, f.name);
    if f.secret then
      if v.None? then row
      else if v.value == "" then row[SecretKey(side, f.name) := Absent]
      else row[SecretKey(side, f.name) := Encrypted(v.value)]
    else row[PublicKey(side, f.name) := Public(Cleaned(v))]
  }

  function ApplyFields(row: Row, side: Side, fields: seq<Field>, payload: Payload): Row {
    if |fields| == 0 then row
    else ApplyField(ApplyFields(row, side, fields[..|fields| - 1], payload), side, fields[|fields| - 1], payload)
  }

  function Written(row: Row, side: Side, provider: Provider, payload: Payload): Row {
    ApplyFields(row[PublicKey(side, "provider") := Public(provider.id)], side, provider.fields, payload)
  }

  function UpdateSide(reg: Providers, row: Row, side: Side, payload: Payload): Result<Row, Error> {
    match Validate(reg, row, side, payload)
    case Err(e) => Err(e)
    case Ok(provider) => Ok(Written(row, side, provider, payload))
  }

  function UpdateSideOptional(reg: Providers, row: Row, side: Side, payload: Option<Payload>): Result<Row, Error> {
    if payload.None? then Ok(row) else UpdateSide(reg, row, side, payload.value)
  }

  function UpdateRow(reg: Providers, row: Row, inference: Option<Payload>, embedding: Option<Payload>)
    : Result<Row, Error>
  {
    if inference.None? && embedding.None? then Err(NothingToUpdate)
    else match UpdateSideOptional(reg, row, Inference, inference)
      case Err(e) => Err(e)
      case Ok(row1) => UpdateSideOptional(reg, row1, Embedding, embedding)
  }

  // ---- The audit entries of an update ----

  function AuditSide(reg: Providers, row: Row, side: Side): Doc {
    match Get(row, PublicKey(side, "provider"))
    case Public(id) => if id in reg then AuditFields(row, side, reg[id].fields) else map[]
    case _ => map[]
  }

  /** `raw.get(key, "")`: a stored null stays null. */
  function AuditText(row: Row, key: string): Value {
    if key !in row then Text("")
    else match row[key]
      case Public(text) => Text(text)
      case _ => Null
  }

  function AuditFields(row: Row, side: Side, fields: seq<Field>): Doc {
    if |fields| == 0 then map[]
    else
      var before := AuditFields(row, side, fields[..|fields| - 1]);
      var f := fields[|fields| - 1];
      if f.secret then
        if Truthy(Get(row, SecretKey(side, f.name))) then before[PublicKey(side, f.name) := EXISTING] else before
      else before[PublicKey(side, f.name) := AuditText(row, PublicKey(side, f.name))]
  }

  function ProviderValue(row: Row, side: Side): Value {
    match Get(row, PublicKey(side, "provider"))
    case Public(id) => Text(id)
    case _ => Null
  }

  function AuditView(reg: Providers, row: Row): Doc {
    map[PublicKey(Inference, "provider") := ProviderValue(row, Inference),
        PublicKey(Embedding, "provider") := ProviderValue(row, Embedding)]
    + AuditSide(reg, row, Inference) + AuditSide(reg, row, Embedding)
  }

  /** What applying a field writes into the `after` entry. */
  function AfterField(doc: Doc, side: Side, f: Field, payload: Payload): Doc {
    var v := Sent(payload, f.name);
    if f.secret && v.None? then doc else doc[PublicKey(side, f.name) := Text(Cleaned(v))]
  }

  function AfterFields(doc: Doc, side: Side, fields: seq<Field>, payload: Payload): Doc {
    if |fields| == 0 then doc
    else AfterField(AfterFields(doc, side, fields[..|fields| - 1], payload), side, fields[|fields| - 1], payload)
  }

  function After(doc: Doc, side: Side, provider: Provider, payload: Payload): Doc {
    AfterFields(doc[PublicKey(side, "provider") := Text(provider.id)], side, provider.fields, payload)
  }

  function SecretSent(side: Side, f: Field, payload: Payload): seq<string> {
    if f.secret && Sent(payload, f.name).Some? then [PublicKey(side, f.name)] else []
  }

  /** The keys whose `after` value the log must mask. */
  function SecretsSent(side: Side, fields: seq<Field>, payload: Payload): seq<string> {
    if |fields| == 0 then []
    else SecretsSent(side, fields[..|fields| - 1], payload) + SecretSent(side, fields[|fields| - 1], payload)
  }

  // ---- Rendering ----

  datatype Shown = ShownText(text: string) | ShownNull | ShownFlag(flag: bool)

  type SideView = map<string, Shown>

  function ShownOf(v: Stored): Shown {
    match v
    case Public(text) => ShownText(text)
    case Encrypted(_) => ShownNull
    case Absent => ShownNull
  }

  /** `raw.get(key, "")`. */
  function ShownOrEmpty(row: Row, key: string): Shown {
    if key in row then ShownOf(row[key]) else ShownText("")
  }

  function ViewName(f: Field): string {
    if f.secret then f.name + "_set" else f.name
  }

  function ViewValue(row: Row, side: Side, f: Field): Shown {
    if f.secret then ShownFlag(Truthy(Get(row, SecretKey(side, f.name))))
    else ShownOrEmpty(row, PublicKey(side, f.name))
  }

  function RenderFields(row: Row, side: Side, fields: seq<Field>): SideView {
    if |fields| == 0 then map[]
    else
      var f := fields[|fields| - 1];
      RenderFields(row, side, fields[..|fields| - 1])[ViewName(f) := ViewValue(row, side, f)]
  }

  function RenderSide(reg: Providers, row: Row, side: Side): SideView {
    var provider := Get(row, PublicKey(side, "provider"));
    var head: SideView := map["provider" := ShownOf(provider)];
    if provider.Public? && provider.text in reg then head + RenderFields(row, side, reg[provider.text].fields)
    else head["model" := ShownOrEmpty(row, PublicKey(side, "model"))]
             ["base_url" := ShownOrEmpty(row, PublicKey(side, "base_url"))]
  }

  lemma ApplyStep(row: Row, doc: Doc, side: Side, fields: seq<Field>, i: nat, payload: Payload)
    requires i < |fields|
    ensures ApplyFields(row, side, fields[..i + 1], payload)
         == ApplyField(ApplyFields(row, side, fields[..i], payload), side, fields[i], payload)
    ensures AfterFields(doc, side, fields[..i + 1], payload)
         == AfterField(AfterFields(doc, side, fields[..i], payload), side, fields[i], payload)
    ensures SecretsSent(side, fields[..i + 1], payload)
         == SecretsSent(side, fields[..i], payload) + SecretSent(side, fields[i], payload)
  {
    assert fields[..i + 1][..i] == fields[..i];
  }

  /** The three things `_apply_side` fills in place. */
  class Draft {
    var merged: Row
    var afterAudit: Doc
    var secretAuditFields: seq<string>

    constructor (row: Row, before: Doc)
      ensures merged == row && afterAudit == before && secretAuditFields == []
    {
      merged := row;
      afterAudit := before;
      secretAuditFields := [];
    }

    method ApplySide(reg: Providers, side: Side, payload: Payload) returns (error: Option<Error>)
      modifies this
      ensures match Validate(reg, old(merged), side, payload) {
          case Err(e) => error == Some(e)
            && merged == old(merged) && afterAudit == old(afterAudit) && secretAuditFields == old(secretAuditFields)
          case Ok(provider) => error == None
            && merged == Written(old(merged), side, provider, payload)
            && afterAudit == After(old(afterAudit), side, provider, payload)
            && secretAuditFields == old(secretAuditFields) + SecretsSent(side, provider.fields, payload)
        }
    {
      match Validate(reg, merged, side, payload) {
        case Err(e) => error := Some(e);
        case Ok(provider) =>
          error := None;
          ApplyAll(side, provider, payload);
      }
    }

    method ApplyAll(side: Side, provider: Provider, payload: Payload)
      modifies this
      ensures merged == Written(old(merged), side, provider, payload)
      ensures afterAudit == After(old(afterAudit), side, provider, payload)
      ensures secretAuditFields == old(secretAuditFields) + SecretsSent(side, provider.fields, payload)
    {
      merged := merged[PublicKey(side, "provider") := Public(provider.id)];
      afterAudit := afterAudit[PublicKey(side, "provider") := Text(provider.id)];
      ApplyEach(side, provider.fields, payload);
    }

    method ApplyEach(side: Side, fields: seq<Field>, payload: Payload)
      modifies this
      ensures merged == ApplyFields(old(merged), side, fields, payload)
      ensures afterAudit == AfterFields(old(afterAudit), side, fields, payload)
      ensures secretAuditFields == old(secretAuditFields) + SecretsSent(side, fields, payload)
    {
      ghost var row, doc, secrets := merged, afterAudit, secretAuditFields;
      for i := 0 to |fields|
        invariant merged == ApplyFields(row, side, fields[..i], payload)
        invariant afterAudit == AfterFields(doc, side, fields[..i], payload)
        invariant secretAuditFields == secrets + SecretsSent(side, fields[..i], payload)
      {
        ApplyStep(row, doc, side, fields, i, payload);
        ApplyOne(side, fields[i], payload);
      }
      assert fields[..|fields|] == fields;
    }

    method ApplyOne(side: Side, f: Field, payload: Payload)
      modifies this
      ensures merged == ApplyField(old(merged), side, f, payload)
      ensures afterAudit == AfterField(old(afterAudit), side, f, payload)
      ensures secretAuditFields == old(secretAuditFields) + SecretSent(side, f, payload)
    {
      var v := Sent(payload, f.name);
      if f.secret {
        if v.None? {
          return;
        }
        merged := merged[SecretKey(side, f.name) := if v.value == "" then Absent else Encrypted(v.value)];
        afterAudit := afterAudit[PublicKey(side, f.name) := Text(v.value)];
        secretAuditFields := secretAuditFields + [PublicKey(side, f.name)];
      } else {
        var cleaned := if v.Some? then v.value else "";
        merged := merged[PublicKey(side, f.name) := Public(cleaned)];
        afterAudit := afterAudit[PublicKey(side, f.name) := Text(cleaned)];
      }
    }
  }
}
