/**
 The admin tables and the admin calls on them: integration instances, the SIAM mapping,
 the LLM configuration, and the audit log that every accepted call appends to.
 */
module Admin {
  import opened Wrappers
  import opened Registry
  import opened AuditLog
  import Integrations
  import Siam
  import Llm = LlmConfig

  type Actor = Integrations.Actor

  /** The audit pepper's fingerprint function and the LLM provider catalogue. */
  datatype Env = Env(fp: Fingerprint, providers: Providers)

  datatype Tables = Tables(
    instances: Integrations.Instances,
    siam: Option<Siam.Json>,
    llm: Llm.Row,
    audit: seq<Record>)

  datatype Op =
    | CreateInstance(actor: Actor, create: Integrations.CreateRequest)
    | UpdateInstance(actor: Actor, id: string, update: Integrations.UpdateRequest)
    | DeleteInstance(actor: Actor, id: string)
    | ReplaceMapping(actor: Actor, mapping: Siam.Json)
    | UpdateLlm(actor: Actor, inference: Option<Llm.Payload>, embedding: Option<Llm.Payload>)

  datatype Error = IntegrationError(integration: Integrations.Error) | LlmError(llm: Llm.Error)

  function Audited(env: Env, t: Tables, e: Record, secretFields: seq<string>): Tables {
    t.(audit := t.audit + [Masked(env.fp, e, secretFields)])
  }

  /** `SIAMService.get`: the stored value, normalised on every read. */
  function Mapping(t: Tables): Siam.Mapping {
    if t.siam.None? then map[] else Siam.Normalize(t.siam.value)
  }

  function SplitOf(typ: string, config: Integrations.Config): Integrations.Split {
    match GetType(typ)
    case None => Integrations.Split(map[], map[])
    case Some(spec) =>
      Integrations.Split(Integrations.PublicPart(spec.fields, config), Integrations.SecretPart(spec.fields, config))
  }

  function SplitOfOptional(typ: string, config: Option<Integrations.Config>): Option<Integrations.Split> {
    if config.None? then None else Some(SplitOf(typ, config.value))
  }

  function Create(env: Env, t: Tables, actor: Actor, r: Integrations.CreateRequest, now: int)
    : (Tables, Result<Integrations.View, Error>)
  {
    match Integrations.Create(t.instances, actor, r, now)
    case Err(e) => (t, Err(IntegrationError(e)))
    case Ok(doc) =>
      var spec := GetType(r.typ).value;
      (Audited(env, t.(instances := t.instances[r.id := doc]),
               Integrations.CreateRecord(actor, r, spec, SplitOf(r.typ, r.config), now),
               Integrations.SecretNames(spec.fields)),
       Ok(Integrations.Render(doc)))
  }

  function Update(env: Env, t: Tables, actor: Actor, id: string, r: Integrations.UpdateRequest, now: int)
    : (Tables, Result<Integrations.View, Error>)
  {
    match Integrations.Update(t.instances, actor, id, r, now)
    case Err(e) => (t, Err(IntegrationError(e)))
    case Ok(doc) =>
      var before := t.instances[id];
      var spec := GetType(before.typ).value;
      (Audited(env, t.(instances := t.instances[id := doc]),
               Integrations.UpdateRecord(actor, before, spec, r, SplitOfOptional(before.typ, r.config), now),
               Integrations.SecretNames(spec.fields)),
       Ok(Integrations.Render(doc)))
  }

  /** The row goes first; a type no longer in the catalogue fails only after that. */
  function Delete(env: Env, t: Tables, actor: Actor, id: string, now: int): (Tables, Result<(), Error>) {
    if id !in t.instances then (t, Err(IntegrationError(Integrations.NotFound)))
    else
      var before := t.instances[id];
      var t1 := t.(instances := t.instances - {id});
      match GetType(before.typ)
      case None => (t1, Err(IntegrationError(Integrations.UnknownType(before.typ))))
      case Some(spec) =>
        (Audited(env, t1, Integrations.DeleteRecord(actor, before, spec, now), Integrations.SecretNames(spec.fields)),
         Ok(()))
  }

  function SiamRecord(actor: Actor, before: Siam.Mapping, after: Siam.Mapping, now: int): Record {
    Record(now, actor.sub, actor.username, "siam.update", "default",
           Some(map["mapping" := Roles(before)]), Some(map["mapping" := Roles(after)]))
  }

  function Replace(env: Env, t: Tables, actor: Actor, mapping: Siam.Json, now: int): (Tables, Siam.Mapping) {
    var t1 := t.(siam := Some(Siam.AsJson(Siam.Normalize(mapping))));
    (Audited(env, t1, SiamRecord(actor, Mapping(t), Mapping(t1), now), []), Mapping(t1))
  }

  function AfterOptional(reg: Providers, doc: Doc, side: Llm.Side, payload: Option<Llm.Payload>): Doc {
    if payload.None? then doc
    else match Llm.ResolveProvider(reg, payload.value)
      case Err(_) => doc
      case Ok(provider) => Llm.After(doc, side, provider, payload.value)
  }

  function SecretsOptional(reg: Providers, side: Llm.Side, payload: Option<Llm.Payload>): seq<string> {
    if payload.None? then []
    else match Llm.ResolveProvider(reg, payload.value)
      case Err(_) => []
      case Ok(provider) => Llm.SecretsSent(side, provider.fields, payload.value)
  }

  function LlmRecord(env: Env, t: Tables, actor: Actor, inference: Option<Llm.Payload>, embedding: Option<Llm.Payload>,
                     now: int): Record {
    var before := Llm.AuditView(env.providers, t.llm);
    var after := AfterOptional(env.providers, before, Llm.Inference, inference);
    Record(now, actor.sub, actor.username, "llm.update", "default",
           Some(before), Some(AfterOptional(env.providers, after, Llm.Embedding, embedding)))
  }

  function UpdateLlmConfig(env: Env, t: Tables, actor: Actor, inference: Option<Llm.Payload>,
                           embedding: Option<Llm.Payload>, now: int)
    : (Tables, Result<(), Error>)
  {
    match Llm.UpdateRow(env.providers, t.llm, inference, embedding)
    case Err(e) => (t, Err(LlmError(e)))
    case Ok(row) =>
      (Audited(env, t.(llm := row), LlmRecord(env, t, actor, inference, embedding, now),
               SecretsOptional(env.providers, Llm.Inference, inference)
               + SecretsOptional(env.providers, Llm.Embedding, embedding)),
       Ok(()))
  }

  function Step(env: Env, t: Tables, op: Op, now: int): Tables {
    match op
    case CreateInstance(actor, r) => Create(env, t, actor, r, now).0
    case UpdateInstance(actor, id, r) => Update(env, t, actor, id, r, now).0
    case DeleteInstance(actor, id) => Delete(env, t, actor, id, now).0
    case ReplaceMapping(actor, mapping) => Replace(env, t, actor, mapping, now).0
    case UpdateLlm(actor, inference, embedding) => UpdateLlmConfig(env, t, actor, inference, embedding, now).0
  }

  /** What a call does to the instance table, apart from everything else. */
  function InstancesAfter(i: Integrations.Instances, op: Op, now: int): Integrations.Instances {
    match op
    case CreateInstance(actor, r) =>
      var doc := Integrations.Create(i, actor, r, now);
      if doc.Ok? then i[r.id := doc.value] else i
    case UpdateInstance(actor, id, r) =>
      var doc := Integrations.Update(i, actor, id, r, now);
      if doc.Ok? then i[id := doc.value] else i
    case DeleteInstance(_, id) => i - {id}
    case ReplaceMapping(_, _) => i
    case UpdateLlm(_, _, _) => i
  }

  lemma StepInstances(env: Env, t: Tables, op: Op, now: int)
    ensures Step(env, t, op, now).instances == InstancesAfter(t.instances, op, now)
    ensures !op.ReplaceMapping? ==> Step(env, t, op, now).siam == t.siam
  {
  }

  datatype Timed = Timed(op: Op, now: int)

  function Run(env: Env, start: Tables, ops: seq<Timed>): Tables {
    if |ops| == 0 then start
    else
      var t := Run(env, start, ops[..|ops| - 1]);
      Step(env, t, ops[|ops| - 1].op, ops[|ops| - 1].now)
  }
}
