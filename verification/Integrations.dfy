/**
 Integration instances: create, update and delete with encrypt-on-write of the secret
 fields. A stored secret is a sealed text; the audit entries go through the masking log.
 */
module Integrations {
  import opened Wrappers
  import opened Registry
  import opened AuditLog

  datatype Sealed = Sealed(plaintext: string)

  datatype Actor = Actor(sub: string, username: string)

  /** A request's config: JSON null is `None`. */
  type Config = map<string, Option<string>>

  datatype Instance = Instance(
    id: string,
    typ: string,
    displayName: string,
    public: map<string, string>,
    secrets: map<string, Sealed>,
    enabled: bool,
    multi: bool,
    createdBy: string,
    createdAt: int,
    updatedBy: string,
    updatedAt: int)

  type Instances = map<string, Instance>

  datatype Error =
    | UnknownType(typ: string)
    | CardinalityConflict
    | AlreadyExists
    | NotFound
    | UnknownFields(names: set<string>)
    | RequiredMissing(name: string)

  datatype CreateRequest = CreateRequest(
    id: string, typ: string, displayName: string, config: Config, multi: bool, enabled: bool)

  datatype UpdateRequest = UpdateRequest(
    displayName: Option<string>, config: Option<Config>, enabled: Option<bool>, multi: Option<bool>)

  // ---- Splitting a config ----

  function Given(config: Config, name: string): Option<string> {
    if name in config then config[name] else None
  }

  predicate IsMissing(f: Field, config: Config) {
    f.required && (Given(config, f.name) == None || Given(config, f.name) == Some(""))
  }

  function FieldNames(fields: seq<Field>): set<string> {
    set f | f in fields :: f.name
  }

  function FirstMissing(fields: seq<Field>, config: Config): (r: Option<string>)
    ensures r.None? <==> forall f :: f in fields ==> !IsMissing(f, config)
    ensures r.Some? ==> exists f :: f in fields && IsMissing(f, config) && f.name == r.value
  {
    if |fields| == 0 then None
    else
      var before := FirstMissing(fields[..|fields| - 1], config);
      var f := fields[|fields| - 1];
      assert fields == fields[..|fields| - 1] + [f];
      if before.Some? then before
      else if IsMissing(f, config) then Some(f.name)
      else None
  }

  function PublicPart(fields: seq<Field>, config: Config): map<string, string> {
    map k | k in config && config[k].Some? && IsPublic(fields, k) :: config[k].value
  }

  function SecretPart(fields: seq<Field>, config: Config): map<string, string> {
    map k | k in config && config[k].Some? && IsSecret(fields, k) :: config[k].value
  }

  function Sealing(plain: map<string, string>): map<string, Sealed> {
    map k | k in plain :: Sealed(plain[k])
  }

  datatype Split = Split(public: map<string, string>, secrets: map<string, string>)

  /** Unknown names first, then the first required field left out or empty. */
  function SplitConfig(fields: seq<Field>, config: Config): Result<Split, Error> {
    var unknown := config.Keys - FieldNames(fields);
    if unknown != {} then Err(UnknownFields(unknown))
    else match FirstMissing(fields, config)
      case Some(name) => Err(RequiredMissing(name))
      case None => Ok(Split(PublicPart(fields, config), SecretPart(fields, config)))
  }

  /** The source's single pass over the declared fields. */
  method SplitConfigLoop(fields: seq<Field>, config: Config)
    returns (result: Result<Split, Error>, encrypted: map<string, Sealed>)
    ensures result == SplitConfig(fields, config)
    ensures result.Ok? ==> encrypted == Sealing(result.value.secrets)
  {
    encrypted := map[];
    var public: map<string, string> := map[];
    var plaintext: map<string, string> := map[];
    var unknown := config.Keys - (set f | f in fields :: f.name);
    if unknown != {} {
      result := Err(UnknownFields(unknown));
      return;
    }
    for i := 0 to |fields|
      invariant FirstMissing(fields[..i], config) == None
      invariant public == PublicPart(fields[..i], config)
      invariant plaintext == SecretPart(fields[..i], config)
      invariant encrypted == Sealing(plaintext)
    {
      var f := fields[i];
      assert fields[..i + 1] == fields[..i] + [f] && fields[..i + 1][..i] == fields[..i];
      PartsStep(fields[..i], f, config);
      var value := Given(config, f.name);
      if f.required && (value == None || value == Some("")) {
        assert FirstMissing(fields[..i + 1], config) == Some(f.name);
        FirstMissingPrefix(fields, config, i + 1);
        result := Err(RequiredMissing(f.name));
        return;
      }
      if value.Some? {
        if f.secret {
          SealingStep(plaintext, f.name, value.value);
          encrypted := encrypted[f.name := Sealed(value.value)];
          plaintext := plaintext[f.name := value.value];
        } else {
          public := public[f.name := value.value];
        }
      }
    }
    assert fields[..|fields|] == fields;
    result := Ok(Split(public, plaintext));
  }

  lemma SealingStep(plain: map<string, string>, name: string, value: string)
    ensures Sealing(plain[name := value]) == Sealing(plain)[name := Sealed(value)]
  {
  }

  lemma PartsStep(fields: seq<Field>, f: Field, config: Config)
    ensures PublicPart(fields + [f], config) ==
            if Given(config, f.name).Some? && !f.secret
            then PublicPart(fields, config)[f.name := Given(config, f.name).value]
            else PublicPart(fields, config)
    ensures SecretPart(fields + [f], config) ==
            if Given(config, f.name).Some? && f.secret
            then SecretPart(fields, config)[f.name := Given(config, f.name).value]
            else SecretPart(fields, config)
  {
    forall k ensures IsPublic(fields + [f], k) <==> IsPublic(fields, k) || (f.name == k && !f.secret) {
      if IsPublic(fields, k) {
        var g :| g in fields && g.name == k && !g.secret;
        assert g in fields + [f];
      }
      assert f in fields + [f];
    }
    forall k ensures IsSecret(fields + [f], k) <==> IsSecret(fields, k) || (f.name == k && f.secret) {
      if IsSecret(fields, k) {
        var g :| g in fields && g.name == k && g.secret;
        assert g in fields + [f];
      }
      assert f in fields + [f];
    }
  }

  lemma {:induction false} FirstMissingPrefix(fields: seq<Field>, config: Config, n: nat)
    requires n <= |fields| && FirstMissing(fields[..n], config).Some?
    ensures FirstMissing(fields, config) == FirstMissing(fields[..n], config)
  {
    if n == |fields| {
      assert fields[..n] == fields;
    } else {
      assert fields[..|fields| - 1][..n] == fields[..n];
      FirstMissingPrefix(fields[..|fields| - 1], config, n);
    }
  }

  // ---- Documents ----

  function BaseDoc(id: string, typ: string, displayName: string): Doc {
    map["id" := Text(id), "type" := Text(typ), "display_name" := Text(displayName)]
  }

  function Switches(enabled: bool, multi: bool): Doc {
    map["enabled" := Flag(enabled), "multi_connection_allowed" := Flag(multi)]
  }

  function Texts(m: map<string, string>): Doc {
    map k | k in m :: Text(m[k])
  }

  /** `<existing>` for each secret field that has a stored value. */
  function ExistingMarks(fields: seq<Field>, secrets: map<string, Sealed>): Doc {
    map k | k in secrets && IsSecret(fields, k) :: EXISTING
  }

  function SecretNames(fields: seq<Field>): seq<string> {
    if |fields| == 0 then []
    else SecretNames(fields[..|fields| - 1])
         + if fields[|fields| - 1].secret then [fields[|fields| - 1].name] else []
  }

  function Create(instances: Instances, actor: Actor, r: CreateRequest, now: int): Result<Instance, Error> {
    match GetType(r.typ)
    case None => Err(UnknownType(r.typ))
    case Some(spec) =>
      if spec.cardinality == Single && r.multi then Err(CardinalityConflict)
      else if r.id in instances then Err(AlreadyExists)
      else match SplitConfig(spec.fields, r.config)
        case Err(e) => Err(e)
        case Ok(split) =>
          Ok(Instance(r.id, r.typ, r.displayName, split.public, Sealing(split.secrets),
                      r.enabled, r.multi, actor.username, now, actor.username, now))
  }

  function CreateRecord(actor: Actor, r: CreateRequest, spec: IntegrationType, split: Split, now: int): Record {
    Record(now, actor.sub, actor.username, "integration.create", r.id, None,
           Some(BaseDoc(r.id, r.typ, r.displayName) + Switches(r.enabled, r.multi)
                + Texts(split.public) + Texts(split.secrets)))
  }

  function Override<T>(given: Option<T>, old': T): T {
    if given.Some? then given.value else old'
  }

  /** The stored document after an accepted update; `split` is absent when no config was sent. */
  function Merge(doc: Instance, actor: Actor, r: UpdateRequest, split: Option<Split>, now: int): Instance {
    doc.(
      displayName := Override(r.displayName, doc.displayName),
      enabled := Override(r.enabled, doc.enabled),
      multi := Override(r.multi, doc.multi),
      public := if split.Some? then doc.public + split.value.public else doc.public,
      secrets := if split.Some? then doc.secrets + Sealing(split.value.secrets) else doc.secrets,
      updatedBy := actor.username,
      updatedAt := now)
  }

  function SplitOptional(fields: seq<Field>, config: Option<Config>): Result<Option<Split>, Error> {
    if config.None? then Ok(None)
    else match SplitConfig(fields, config.value)
      case Err(e) => Err(e)
      case Ok(split) => Ok(Some(split))
  }

  function Update(instances: Instances, actor: Actor, id: string, r: UpdateRequest, now: int): Result<Instance, Error> {
    if id !in instances then Err(NotFound)
    else match GetType(instances[id].typ)
      case None => Err(UnknownType(instances[id].typ))
      case Some(spec) =>
        if r.multi == Some(true) && spec.cardinality == Single then Err(CardinalityConflict)
        else match SplitOptional(spec.fields, r.config)
          case Err(e) => Err(e)
          case Ok(split) => Ok(Merge(instances[id], actor, r, split, now))
  }

  function BeforeDoc(doc: Instance, fields: seq<Field>): Doc {
    BaseDoc(doc.id, doc.typ, doc.displayName) + Switches(doc.enabled, doc.multi)
    + Texts(doc.public) + ExistingMarks(fields, doc.secrets)
  }

  function AfterDoc(doc: Instance, fields: seq<Field>, r: UpdateRequest, split: Option<Split>): Doc {
    var base := BeforeDoc(doc, fields);
    var named := if r.displayName.Some? then base["display_name" := Text(r.displayName.value)] else base;
    var switched := if r.enabled.Some? then named["enabled" := Flag(r.enabled.value)] else named;
    var counted := if r.multi.Some? then switched["multi_connection_allowed" := Flag(r.multi.value)] else switched;
    if split.Some? then counted + Texts(split.value.public) + Texts(split.value.secrets) else counted
  }

  function UpdateRecord(actor: Actor, doc: Instance, spec: IntegrationType, r: UpdateRequest, split: Option<Split>,
                        now: int): Record {
    Record(now, actor.sub, actor.username, "integration.update", doc.id,
           Some(BeforeDoc(doc, spec.fields)), Some(AfterDoc(doc, spec.fields, r, split)))
  }

  function DeleteRecord(actor: Actor, doc: Instance, spec: IntegrationType, now: int): Record {
    Record(now, actor.sub, actor.username, "integration.delete", doc.id,
           Some(BaseDoc(doc.id, doc.typ, doc.displayName) + Texts(doc.public)
               + ExistingMarks(spec.fields, doc.secrets)),
           None)
  }

  // ---- Reading ----

  /** The admin view of an instance: no secret values, only the names that have one. */
  datatype View = View(
    id: string, typ: string, displayName: string, public: map<string, string>,
    enabled: bool, multi: bool, secretFieldsSet: set<string>)

  function Render(doc: Instance): View {
    View(doc.id, doc.typ, doc.displayName, doc.public, doc.enabled, doc.multi, doc.secrets.Keys)
  }

  /** The value a field holds for the hub: public text, or the opened secret. */
  function Lookup(doc: Instance, name: string): Option<string> {
    if name in doc.public then Some(doc.public[name])
    else if name in doc.secrets then Some(doc.secrets[name].plaintext)
    else None
  }
}
