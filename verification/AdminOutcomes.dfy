/**
 What the admin calls on instances and on the role mapping accept, store and log, said by the
 request, the catalogue and the tables.
 */
module AdminOutcomes {
  import opened Wrappers
  import opened Registry
  import opened AuditLog
  import opened Integrations
  import Admin
  import AuditRuns
  import InstanceLife
  import Siam
  import JsonText

  // ---- Configs ----

  /** The field is given a value that is neither null nor empty. */
  predicate Filled(config: Config, name: string) {
    name in config && config[name].Some? && config[name].value != ""
  }

  /** The names in the config that no field declares. */
  function Undeclared(fields: seq<Field>, config: Config): set<string> {
    set k | k in config && (forall f :: f in fields ==> f.name != k)
  }

  /** The first required field that is not filled. */
  ghost predicate IsFirstUnfilled(fields: seq<Field>, config: Config, i: int) {
    && 0 <= i < |fields| && fields[i].required && !Filled(config, fields[i].name)
    && forall j :: 0 <= j < i && fields[j].required ==> Filled(config, fields[j].name)
  }

  ghost predicate AllFilled(fields: seq<Field>, config: Config) {
    forall i :: 0 <= i < |fields| && fields[i].required ==> Filled(config, fields[i].name)
  }

  lemma FirstUnfilledGrows(fields: seq<Field>, config: Config, i: int)
    requires |fields| > 0 && IsFirstUnfilled(fields[..|fields| - 1], config, i)
    ensures IsFirstUnfilled(fields, config, i) && fields[..|fields| - 1][i].name == fields[i].name
  {
  }

  lemma AllFilledStep(fields: seq<Field>, config: Config)
    requires |fields| > 0
    ensures var last := fields[|fields| - 1];
      AllFilled(fields, config) <==>
      AllFilled(fields[..|fields| - 1], config) && (last.required ==> Filled(config, last.name))
  {
    var front := fields[..|fields| - 1];
    if AllFilled(fields, config) {
      forall i | 0 <= i < |front| && front[i].required ensures Filled(config, front[i].name) {
        assert front[i] == fields[i];
      }
    }
  }

  lemma {:induction false} FirstMissingIsFirst(fields: seq<Field>, config: Config)
    ensures FirstMissing(fields, config).None? <==> AllFilled(fields, config)
    ensures FirstMissing(fields, config).Some? ==>
              exists i :: IsFirstUnfilled(fields, config, i) && fields[i].name == FirstMissing(fields, config).value
  {
    if |fields| > 0 {
      var front := fields[..|fields| - 1];
      FirstMissingIsFirst(front, config);
      AllFilledStep(fields, config);
      if FirstMissing(front, config).Some? {
        var i :| IsFirstUnfilled(front, config, i) && front[i].name == FirstMissing(front, config).value;
        FirstUnfilledGrows(fields, config, i);
      } else if FirstMissing(fields, config).Some? {
        LastIsUnfilled(fields, config);
      }
    }
  }

  lemma LastIsUnfilled(fields: seq<Field>, config: Config)
    requires |fields| > 0 && AllFilled(fields[..|fields| - 1], config) && IsMissing(fields[|fields| - 1], config)
    ensures IsFirstUnfilled(fields, config, |fields| - 1)
  {
    var front := fields[..|fields| - 1];
    forall j | 0 <= j < |fields| - 1 && fields[j].required ensures Filled(config, fields[j].name) {
      assert front[j] == fields[j];
    }
  }

  /** Every name declared, and every required field filled. */
  ghost predicate Acceptable(fields: seq<Field>, config: Config) {
    Undeclared(fields, config) == {} && AllFilled(fields, config)
  }

  /** Why a config is refused: its undeclared names, or else its first unfilled required field. */
  ghost predicate RefusesConfig(fields: seq<Field>, config: Config, e: Error) {
    if Undeclared(fields, config) != {} then e == UnknownFields(Undeclared(fields, config))
    else exists i :: IsFirstUnfilled(fields, config, i) && e == RequiredMissing(fields[i].name)
  }

  ghost predicate Declares(fields: seq<Field>, name: string, secret: bool) {
    exists f :: f in fields && f.name == name && f.secret == secret
  }

  /** The values given for the fields of one kind. */
  ghost predicate Sorts(fields: seq<Field>, config: Config, secret: bool, part: map<string, string>) {
    forall k ::
      (k in part <==> k in config && config[k].Some? && Declares(fields, k, secret))
      && (k in part ==> part[k] == config[k].value)
  }

  lemma UndeclaredAreUnknown(fields: seq<Field>, config: Config)
    ensures Undeclared(fields, config) == config.Keys - FieldNames(fields)
  {
  }

  lemma SplitOutcome(fields: seq<Field>, config: Config)
    ensures match SplitConfig(fields, config) {
      case Ok(split) =>
        Acceptable(fields, config) && Sorts(fields, config, false, split.public)
            && Sorts(fields, config, true, split.secrets)
      case Err(e) => !Acceptable(fields, config) && RefusesConfig(fields, config, e)
    }
  {
    UndeclaredAreUnknown(fields, config);
    FirstMissingIsFirst(fields, config);
  }

  // ---- Creating ----

  predicate Conflicts(t: IntegrationType, multi: bool) {
    t.cardinality == Single && multi
  }

  ghost predicate CreateAccepted(instances: Instances, r: CreateRequest) {
    && GetType(r.typ).Some? && !Conflicts(GetType(r.typ).value, r.multi)
    && r.id !in instances && Acceptable(GetType(r.typ).value.fields, r.config)
  }

  /** The stored values of the secrets given. */
  ghost predicate Seals(fields: seq<Field>, config: Config, secrets: map<string, Sealed>) {
    forall k ::
      (k in secrets <==> k in config && config[k].Some? && Declares(fields, k, true))
      && (k in secrets ==> secrets[k].plaintext == config[k].value)
  }

  lemma SealingSeals(fields: seq<Field>, config: Config, secrets: map<string, string>)
    requires Sorts(fields, config, true, secrets)
    ensures Seals(fields, config, Sealing(secrets))
  {
  }

  /**
   A create is accepted exactly for a known type, no conflict of cardinality, a new id and an
   acceptable config, refused in that order; and it stores what was asked, split by the type.
   */
  lemma CreateOutcome(instances: Instances, actor: Actor, r: CreateRequest, now: int)
    ensures match Create(instances, actor, r, now) {
      case Ok(doc) =>
        && CreateAccepted(instances, r)
        && doc.id == r.id && doc.typ == r.typ && doc.displayName == r.displayName
        && doc.enabled == r.enabled && doc.multi == r.multi
        && doc.createdBy == actor.username && doc.createdAt == now
        && doc.updatedBy == actor.username && doc.updatedAt == now
        && Sorts(GetType(r.typ).value.fields, r.config, false, doc.public)
        && Seals(GetType(r.typ).value.fields, r.config, doc.secrets)
      case Err(e) =>
        && !CreateAccepted(instances, r)
        && (if GetType(r.typ).None? then e == UnknownType(r.typ)
            else if Conflicts(GetType(r.typ).value, r.multi) then e == CardinalityConflict
            else if r.id in instances then e == AlreadyExists
            else RefusesConfig(GetType(r.typ).value.fields, r.config, e))
    }
  {
    if GetType(r.typ).Some? {
      var fields := GetType(r.typ).value.fields;
      SplitOutcome(fields, r.config);
      if SplitConfig(fields, r.config).Ok? {
        SealingSeals(fields, r.config, SplitConfig(fields, r.config).value.secrets);
      }
    }
  }

  // ---- Updating ----

  ghost predicate UpdateAccepted(instances: Instances, id: string, r: UpdateRequest) {
    && id in instances && GetType(instances[id].typ).Some?
    && !(r.multi == Some(true) && GetType(instances[id].typ).value.cardinality == Single)
    && (r.config.Some? ==> Acceptable(GetType(instances[id].typ).value.fields, r.config.value))
  }

  predicate Overrides<T(==)>(given: Option<T>, before: T, after: T) {
    if given.Some? then after == given.value else after == before
  }

  /** The values given replace those stored; the others stay. */
  ghost predicate Overlays(fields: seq<Field>, config: Option<Config>, secret: bool, before: map<string, string>,
                           after: map<string, string>) {
    if config.None? then after == before
    else forall k ::
      var given := k in config.value && config.value[k].Some? && Declares(fields, k, secret);
      && (k in after <==> given || k in before)
      && (given ==> after[k] == config.value[k].value)
      && (!given && k in before ==> after[k] == before[k])
  }

  function Opened(secrets: map<string, Sealed>): map<string, string> {
    map k | k in secrets :: secrets[k].plaintext
  }

  lemma OverlayOfPart(fields: seq<Field>, config: Config, secret: bool, before: map<string, string>, part: map<string,
                      string>)
    requires Sorts(fields, config, secret, part)
    ensures Overlays(fields, Some(config), secret, before, before + part)
  {
  }

  lemma OpenedOverlay(before: map<string, Sealed>, part: map<string, string>)
    ensures Opened(before + Sealing(part)) == Opened(before) + part
  {
  }

  /** The document after an accepted update. */
  ghost predicate Updated(before: Instance, after: Instance, actor: Actor, r: UpdateRequest, fields: seq<Field>,
                          now: int) {
    && after.id == before.id && after.typ == before.typ
    && after.createdBy == before.createdBy && after.createdAt == before.createdAt
    && after.updatedBy == actor.username && after.updatedAt == now
    && Overrides(r.displayName, before.displayName, after.displayName)
    && Overrides(r.enabled, before.enabled, after.enabled)
    && Overrides(r.multi, before.multi, after.multi)
    && Overlays(fields, r.config, false, before.public, after.public)
    && Overlays(fields, r.config, true, Opened(before.secrets), Opened(after.secrets))
  }

  /**
   An update is accepted exactly for an instance that exists with a known type, no conflict of
   cardinality, and an acceptable config if one is sent; it changes what was sent and keeps the rest.
   */
  lemma UpdateOutcome(instances: Instances, actor: Actor, id: string, r: UpdateRequest, now: int)
    ensures match Update(instances, actor, id, r, now) {
      case Ok(doc) =>
        UpdateAccepted(instances, id, r)
        && Updated(instances[id], doc, actor, r, GetType(instances[id].typ).value.fields, now)
      case Err(e) =>
        && !UpdateAccepted(instances, id, r)
        && (if id !in instances then e == NotFound
            else if GetType(instances[id].typ).None? then e == UnknownType(instances[id].typ)
            else if r.multi == Some(true) && GetType(instances[id].typ).value.cardinality == Single
            then e == CardinalityConflict
            else r.config.Some? && RefusesConfig(GetType(instances[id].typ).value.fields, r.config.value, e))
    }
  {
    if id in instances && GetType(instances[id].typ).Some? && r.config.Some? {
      var before, fields := instances[id], GetType(instances[id].typ).value.fields;
      SplitOutcome(fields, r.config.value);
      if SplitConfig(fields, r.config.value).Ok? {
        var split := SplitConfig(fields, r.config.value).value;
        OverlayOfPart(fields, r.config.value, false, before.public, split.public);
        OverlayOfPart(fields, r.config.value, true, Opened(before.secrets), split.secrets);
        OpenedOverlay(before.secrets, split.secrets);
      }
    }
  }

  // ---- What the calls leave in the tables ----

  /** One record more, and it is this one, masked. */
  ghost predicate Logs(t: Admin.Tables, t': Admin.Tables) {
    |t'.audit| == |t.audit| + 1 && t'.audit[..|t.audit|] == t.audit
  }

  /** A refused call changes nothing; an accepted one stores its document under its id and logs once. */
  lemma CreateStores(env: Admin.Env, t: Admin.Tables, actor: Actor, r: CreateRequest, now: int)
    ensures var (t', result) := Admin.Create(env, t, actor, r, now);
      match Create(t.instances, actor, r, now) {
        case Err(e) => t' == t && result == Err(Admin.IntegrationError(e))
        case Ok(doc) =>
          && t'.instances == t.instances[r.id := doc] && t'.siam == t.siam && t'.llm == t.llm && Logs(t, t')
          && result.Ok?
      }
  {
  }

  lemma UpdateStores(env: Admin.Env, t: Admin.Tables, actor: Actor, id: string, r: UpdateRequest, now: int)
    ensures var (t', result) := Admin.Update(env, t, actor, id, r, now);
      match Update(t.instances, actor, id, r, now) {
        case Err(e) => t' == t && result == Err(Admin.IntegrationError(e))
        case Ok(doc) =>
          && t'.instances == t.instances[id := doc] && t'.siam == t.siam && t'.llm == t.llm && Logs(t, t')
          && result.Ok?
      }
  {
  }

  /** A delete takes the row of an instance that exists, and logs it if its type is still known. */
  lemma DeleteOutcome(env: Admin.Env, t: Admin.Tables, actor: Actor, id: string, now: int)
    ensures var (t', result) := Admin.Delete(env, t, actor, id, now);
      && t'.siam == t.siam && t'.llm == t.llm
      && (forall k :: k in t'.instances <==> k in t.instances && k != id)
      && (forall k :: k in t'.instances ==> t'.instances[k] == t.instances[k])
      && (result.Ok? <==> id in t.instances && GetType(t.instances[id].typ).Some?)
      && (if result.Ok? then Logs(t, t') else t'.audit == t.audit)
      && (id !in t.instances ==> t' == t && result == Err(Admin.IntegrationError(NotFound)))
  {
  }

  /** The view an admin gets: the stored document without its secrets' values. */
  lemma ViewShows(doc: Instance)
    ensures var v := Render(doc);
      && v.id == doc.id && v.typ == doc.typ && v.displayName == doc.displayName && v.public == doc.public
      && v.enabled == doc.enabled && v.multi == doc.multi
      && (forall k :: k in v.secretFieldsSet <==> k in doc.secrets)
  {
  }

  // ---- What the audit log shows ----

  const HEADS := {"id", "type", "display_name", "enabled", "multi_connection_allowed"}

  lemma FieldsAreNoHeads(t: IntegrationType, f: Field)
    requires t in INTEGRATION_TYPES && f in t.fields
    ensures f.name !in HEADS
  {
    assert f.name in {"tenant_id", "client_id", "client_secret", "base_url", "api_key"};
  }

  /** How a secret value shows: whether it is set, and its fingerprint. */
  function Masks(fp: Fingerprint, value: string): Value {
    if value == "" then Marker(false, None) else Marker(true, Some(fp(value)))
  }

  lemma MaskAt(fp: Fingerprint, doc: Doc, fields: seq<Field>, k: string)
    requires k in doc
    ensures k in Mask(fp, doc, SecretNames(fields))
    ensures IsSecret(fields, k) && doc[k].Text? ==> Mask(fp, doc, SecretNames(fields))[k] == Masks(fp, doc[k].text)
    ensures !IsSecret(fields, k) ==> Mask(fp, doc, SecretNames(fields))[k] == doc[k]
  {
    AuditRuns.SecretNamesAreSecret(fields, k);
  }

  /** The head of a document: the columns that are not config. */
  ghost predicate ShowsHead(d: Doc, id: string, typ: string, displayName: string, enabled: bool, multi: bool) {
    && HEADS <= d.Keys
    && d["id"] == Text(id) && d["type"] == Text(typ) && d["display_name"] == Text(displayName)
    && d["enabled"] == Flag(enabled) && d["multi_connection_allowed"] == Flag(multi)
  }

  /** The config part: public values as they are, secret ones masked, and nothing else. */
  ghost predicate ShowsConfig(fp: Fingerprint, d: Doc, heads: set<string>, public: map<string, string>,
                              secrets: map<string, string>) {
    && d.Keys == heads + public.Keys + secrets.Keys
    && (forall k :: k in public ==> d[k] == Text(public[k]))
    && (forall k :: k in secrets ==> d[k] == Masks(fp, secrets[k]))
  }

  lemma KindOfName(t: IntegrationType, k: string)
    requires t in INTEGRATION_TYPES
    ensures !(IsPublic(t.fields, k) && IsSecret(t.fields, k))
    ensures IsPublic(t.fields, k) || IsSecret(t.fields, k) ==> k !in HEADS
  {
    TypesHaveDistinctNames(t);
    NotBoth(t.fields, k);
    if IsPublic(t.fields, k) || IsSecret(t.fields, k) {
      var f :| f in t.fields && f.name == k;
      FieldsAreNoHeads(t, f);
    }
  }

  ghost predicate Divided(t: IntegrationType, public: map<string, string>, secrets: map<string, string>) {
    && (forall k :: k in public ==> IsPublic(t.fields, k))
    && (forall k :: k in secrets ==> IsSecret(t.fields, k))
  }

  lemma ShownAt(fp: Fingerprint, t: IntegrationType, head: Doc, public: map<string, string>, secrets: map<string,
                string>, k: string)
    requires t in INTEGRATION_TYPES && head.Keys <= HEADS && Divided(t, public, secrets)
    requires k in head || k in public || k in secrets
    ensures var d := Mask(fp, head + Texts(public) + Texts(secrets), SecretNames(t.fields));
      && k in d
      && (k in public ==> d[k] == Text(public[k]))
      && (k in secrets ==> d[k] == Masks(fp, secrets[k]))
      && (k in head ==> d[k] == head[k])
  {
    KindOfName(t, k);
    MaskAt(fp, head + Texts(public) + Texts(secrets), t.fields, k);
  }

  /** A document of an instance of the type, masked. */
  lemma MaskedDocShows(fp: Fingerprint, t: IntegrationType, head: Doc, public: map<string, string>,
                       secrets: map<string, string>)
    requires t in INTEGRATION_TYPES && head.Keys <= HEADS && Divided(t, public, secrets)
    ensures var d := Mask(fp, head + Texts(public) + Texts(secrets), SecretNames(t.fields));
      && ShowsConfig(fp, d, head.Keys, public, secrets)
      && (forall k :: k in head ==> k in d && d[k] == head[k])
  {
    var d := Mask(fp, head + Texts(public) + Texts(secrets), SecretNames(t.fields));
    assert d.Keys == head.Keys + public.Keys + secrets.Keys;
    forall k | k in public ensures d[k] == Text(public[k]) {
      ShownAt(fp, t, head, public, secrets, k);
    }
    forall k | k in secrets ensures d[k] == Masks(fp, secrets[k]) {
      ShownAt(fp, t, head, public, secrets, k);
    }
    forall k | k in head ensures d[k] == head[k] {
      ShownAt(fp, t, head, public, secrets, k);
    }
  }

  function AllHeads(id: string, typ: string, displayName: string, enabled: bool, multi: bool): (d: Doc)
    ensures d.Keys == HEADS
  {
    BaseDoc(id, typ, displayName) + Switches(enabled, multi)
  }

  /** A record of the actor's action on the instance at `now`. */
  ghost predicate Records(e: Record, actor: Actor, action: string, id: string, now: int) {
    e.ts == now && e.actorSub == actor.sub && e.actorUsername == actor.username && e.action == action && e.targetId
        == id
  }

  /** The masked document shows this instance as these values. */
  ghost predicate ShowsInstance(fp: Fingerprint, d: Option<Doc>, id: string, typ: string, displayName: string,
                                enabled: bool,
                                multi: bool, public: map<string, string>, secrets: map<string, string>) {
    d.Some? && ShowsHead(d.value, id, typ, displayName, enabled, multi)
        && ShowsConfig(fp, d.value, HEADS, public, secrets)
  }

  lemma HeadIsShown(d: Doc, id: string, typ: string, displayName: string, enabled: bool, multi: bool)
    requires var head := AllHeads(id, typ, displayName, enabled, multi);
      forall k :: k in head ==> k in d && d[k] == head[k]
    ensures ShowsHead(d, id, typ, displayName, enabled, multi)
  {
    var head := AllHeads(id, typ, displayName, enabled, multi);
    assert {"id", "type", "display_name", "enabled", "multi_connection_allowed"} <= head.Keys;
  }

  /** The document of an instance with these values, before masking. */
  function InstanceDoc(id: string, typ: string, displayName: string, enabled: bool, multi: bool,
                       public: map<string, string>, secrets: map<string, string>): Doc {
    AllHeads(id, typ, displayName, enabled, multi) + Texts(public) + Texts(secrets)
  }

  lemma InstanceDocShows(fp: Fingerprint, t: IntegrationType, id: string, typ: string, displayName: string,
                         enabled: bool,
                         multi: bool, public: map<string, string>, secrets: map<string, string>)
    requires t in INTEGRATION_TYPES && Divided(t, public, secrets)
    ensures var doc := InstanceDoc(id, typ, displayName, enabled, multi, public, secrets);
      ShowsInstance(fp, Some(Mask(fp, doc, SecretNames(t.fields))), id, typ, displayName, enabled, multi, public,
          secrets)
  {
    var head := AllHeads(id, typ, displayName, enabled, multi);
    MaskedDocShows(fp, t, head, public, secrets);
    HeadIsShown(Mask(fp, head + Texts(public) + Texts(secrets), SecretNames(t.fields)), id, typ, displayName, enabled,
        multi);
  }

  lemma CreateRecordShows(fp: Fingerprint, actor: Actor, r: CreateRequest, spec: IntegrationType, split: Split,
                          now: int)
    requires spec in INTEGRATION_TYPES && Divided(spec, split.public, split.secrets)
    ensures var e := Masked(fp, CreateRecord(actor, r, spec, split, now), SecretNames(spec.fields));
      && Records(e, actor, "integration.create", r.id, now) && e.before == None
      && ShowsInstance(fp, e.after, r.id, r.typ, r.displayName, r.enabled, r.multi, split.public, split.secrets)
  {
    InstanceDocShows(fp, spec, r.id, r.typ, r.displayName, r.enabled, r.multi, split.public, split.secrets);
    assert CreateRecord(actor, r, spec, split, now).after
        == Some(InstanceDoc(r.id, r.typ, r.displayName, r.enabled, r.multi, split.public, split.secrets));
  }

  lemma SplitIsDivided(typ: string, config: Config)
    requires GetType(typ).Some?
    ensures Divided(GetType(typ).value, Admin.SplitOf(typ, config).public, Admin.SplitOf(typ, config).secrets)
  {
  }

  lemma CreateLogs(env: Admin.Env, t: Admin.Tables, actor: Actor, r: CreateRequest, now: int)
    requires Create(t.instances, actor, r, now).Ok?
    ensures var t' := Admin.Create(env, t, actor, r, now).0;
      var spec, split := GetType(r.typ).value, Admin.SplitOf(r.typ, r.config);
      && t'.audit == t.audit + [Masked(env.fp, CreateRecord(actor, r, spec, split, now), SecretNames(spec.fields))]
      && r.id in t'.instances && t'.instances[r.id].public == split.public
      && t'.instances[r.id].secrets == Sealing(split.secrets)
  {
  }

  /**
   An accepted create logs who, when, which instance, nothing before, and after it the document
   stored, secrets masked.
   */
  lemma CreateIsLogged(env: Admin.Env, t: Admin.Tables, actor: Actor, r: CreateRequest, now: int)
    requires CreateAccepted(t.instances, r)
    ensures var t' := Admin.Create(env, t, actor, r, now).0;
      && r.id in t'.instances && Logs(t, t')
      && var e, doc := t'.audit[|t.audit|], t'.instances[r.id];
         && Records(e, actor, "integration.create", r.id, now) && e.before == None
         && ShowsInstance(env.fp, e.after, r.id, r.typ, r.displayName, r.enabled, r.multi, doc.public,
             Opened(doc.secrets))
  {
    var spec, split := GetType(r.typ).value, Admin.SplitOf(r.typ, r.config);
    CreateOutcome(t.instances, actor, r, now);
    CreateLogs(env, t, actor, r, now);
    SplitIsDivided(r.typ, r.config);
    CreateRecordShows(env.fp, actor, r, spec, split, now);
    OpenedSealing(split.secrets);
  }

  lemma OpenedSealing(plain: map<string, string>)
    ensures Opened(Sealing(plain)) == plain
  {
  }

  // ---- The records of updates and deletes ----

  /** Stored secrets show as set, under the fingerprint of a marker. */
  function Existing(secrets: map<string, Sealed>): map<string, string> {
    map k | k in secrets :: "<existing>"
  }

  ghost predicate WellStored(doc: Instance, id: string) {
    doc.id == id && GetType(doc.typ).Some? && Divided(GetType(doc.typ).value, doc.public, Existing(doc.secrets))
  }

  /** As every instance is in every run of admin calls. */
  lemma RunsAreWellStored(env: Admin.Env, start: Admin.Tables, ops: seq<Admin.Timed>, id: string)
    requires start.instances == map[] && id in Admin.Run(env, start, ops).instances
    ensures WellStored(Admin.Run(env, start, ops).instances[id], id)
  {
    InstanceLife.InstancesHoldLastGiven(env, start, ops, id);
  }

  lemma BeforeIsInstanceDoc(doc: Instance, id: string)
    requires WellStored(doc, id)
    ensures BeforeDoc(doc, GetType(doc.typ).value.fields)
         == InstanceDoc(id, doc.typ, doc.displayName, doc.enabled, doc.multi, doc.public, Existing(doc.secrets))
  {
    assert ExistingMarks(GetType(doc.typ).value.fields, doc.secrets) == Texts(Existing(doc.secrets));
  }

  function Switched(doc: Instance, r: UpdateRequest): Instance {
    doc.(displayName := if r.displayName.Some? then r.displayName.value else doc.displayName,
         enabled := if r.enabled.Some? then r.enabled.value else doc.enabled,
         multi := if r.multi.Some? then r.multi.value else doc.multi)
  }

  lemma UpdateUnder(head: Doc, p: Doc, s: Doc, k: string, v: Value)
    requires k !in p && k !in s
    ensures (head + p + s)[k := v] == head[k := v] + p + s
  {
  }

  lemma HeadRenamed(id: string, typ: string, displayName: string, enabled: bool, multi: bool, name: string)
    ensures AllHeads(id, typ, displayName, enabled, multi)["display_name" := Text(name)]
         == AllHeads(id, typ, name, enabled, multi)
  {
  }

  lemma HeadEnabled(id: string, typ: string, displayName: string, enabled: bool, multi: bool, on: bool)
    ensures AllHeads(id, typ, displayName, enabled, multi)["enabled" := Flag(on)]
         == AllHeads(id, typ, displayName, on, multi)
  {
  }

  lemma HeadMulti(id: string, typ: string, displayName: string, enabled: bool, multi: bool, several: bool)
    ensures AllHeads(id, typ, displayName, enabled, multi)["multi_connection_allowed" := Flag(several)]
         == AllHeads(id, typ, displayName, enabled, several)
  {
  }

  lemma HeadsAreFree(doc: Instance, id: string, k: string)
    requires WellStored(doc, id) && k in HEADS
    ensures k !in Texts(doc.public) && k !in Texts(Existing(doc.secrets))
  {
    KindOfName(GetType(doc.typ).value, k);
  }

  lemma SwitchedDoc(doc: Instance, id: string, r: UpdateRequest)
    requires WellStored(doc, id)
    ensures AfterDoc(doc, GetType(doc.typ).value.fields, r, None)
         == InstanceDoc(id, doc.typ, Switched(doc, r).displayName, Switched(doc, r).enabled, Switched(doc, r).multi,
                        doc.public, Existing(doc.secrets))
  {
    BeforeIsInstanceDoc(doc, id);
    var p, s, after := Texts(doc.public), Texts(Existing(doc.secrets)), Switched(doc, r);
    HeadsAreFree(doc, id, "display_name");
    HeadsAreFree(doc, id, "enabled");
    HeadsAreFree(doc, id, "multi_connection_allowed");
    var h0 := AllHeads(id, doc.typ, doc.displayName, doc.enabled, doc.multi);
    var h1 := AllHeads(id, doc.typ, after.displayName, doc.enabled, doc.multi);
    var h2 := AllHeads(id, doc.typ, after.displayName, after.enabled, doc.multi);
    HeadRenamed(id, doc.typ, doc.displayName, doc.enabled, doc.multi, after.displayName);
    HeadEnabled(id, doc.typ, after.displayName, doc.enabled, doc.multi, after.enabled);
    HeadMulti(id, doc.typ, after.displayName, after.enabled, doc.multi, after.multi);
    UpdateUnder(h0, p, s, "display_name", Text(after.displayName));
    UpdateUnder(h1, p, s, "enabled", Flag(after.enabled));
    UpdateUnder(h2, p, s, "multi_connection_allowed", Flag(after.multi));
  }

  lemma OverlayCommutes(head: Doc, p: Doc, s: Doc, gp: Doc, gs: Doc)
    requires forall k :: k in s || k in gs ==> k !in p && k !in gp
    ensures head + p + s + gp + gs == head + (p + gp) + (s + gs)
  {
  }

  lemma TextsOverlay(a: map<string, string>, b: map<string, string>)
    ensures Texts(a + b) == Texts(a) + Texts(b)
  {
  }

  /** Overlaying the given halves on a document is the document of the overlaid halves. */
  lemma OverlaidDoc(t: IntegrationType, id: string, typ: string, displayName: string, enabled: bool, multi: bool,
                    public: map<string, string>, secrets: map<string, string>, given: Split)
    requires t in INTEGRATION_TYPES && Divided(t, public, secrets) && Divided(t, given.public, given.secrets)
    ensures InstanceDoc(id, typ, displayName, enabled, multi, public, secrets) + Texts(given.public)
        + Texts(given.secrets)
         == InstanceDoc(id, typ, displayName, enabled, multi, public + given.public, secrets + given.secrets)
  {
    forall k | k in secrets || k in given.secrets ensures k !in public && k !in given.public {
      KindOfName(t, k);
    }
    OverlayCommutes(AllHeads(id, typ, displayName, enabled, multi), Texts(public), Texts(secrets),
                    Texts(given.public), Texts(given.secrets));
    TextsOverlay(public, given.public);
    TextsOverlay(secrets, given.secrets);
  }

  /** What the log shows of the secrets after an update: the ones sent, and that the others exist. */
  function ShownSecrets(doc: Instance, given: Option<Split>): map<string, string> {
    if given.Some? then Existing(doc.secrets) + given.value.secrets else Existing(doc.secrets)
  }

  lemma UpdateRecordShows(fp: Fingerprint, actor: Actor, doc: Instance, id: string, r: UpdateRequest,
                          given: Option<Split>, now: int)
    requires WellStored(doc, id)
    requires given.Some? ==> Divided(GetType(doc.typ).value, given.value.public, given.value.secrets)
    ensures var spec, after := GetType(doc.typ).value, Switched(doc, r);
      var e := Masked(fp, UpdateRecord(actor, doc, spec, r, given, now), SecretNames(spec.fields));
      && Records(e, actor, "integration.update", id, now)
      && ShowsInstance(fp, e.before, id, doc.typ, doc.displayName, doc.enabled, doc.multi, doc.public,
          Existing(doc.secrets))
      && ShowsInstance(fp, e.after, id, doc.typ, after.displayName, after.enabled, after.multi,
                       if given.Some? then doc.public + given.value.public else doc.public, ShownSecrets(doc, given))
  {
    var spec, after := GetType(doc.typ).value, Switched(doc, r);
    BeforeIsInstanceDoc(doc, id);
    SwitchedDoc(doc, id, r);
    InstanceDocShows(fp, spec, id, doc.typ, doc.displayName, doc.enabled, doc.multi, doc.public, Existing(doc.secrets));
    if given.Some? {
      OverlaidDoc(spec, id, doc.typ, after.displayName, after.enabled, after.multi, doc.public, Existing(doc.secrets),
          given.value);
      InstanceDocShows(fp, spec, id, doc.typ, after.displayName, after.enabled, after.multi,
                       doc.public + given.value.public, Existing(doc.secrets) + given.value.secrets);
    } else {
      InstanceDocShows(fp, spec, id, doc.typ, after.displayName, after.enabled, after.multi, doc.public,
          Existing(doc.secrets));
    }
  }

  lemma UpdateLogs(env: Admin.Env, t: Admin.Tables, actor: Actor, id: string, r: UpdateRequest, now: int)
    requires Update(t.instances, actor, id, r, now).Ok?
    ensures var t' := Admin.Update(env, t, actor, id, r, now).0;
      var before, spec := t.instances[id], GetType(t.instances[id].typ).value;
      var given := Admin.SplitOfOptional(before.typ, r.config);
      && t'.audit == t.audit + [Masked(env.fp, UpdateRecord(actor, before, spec, r, given, now),
          SecretNames(spec.fields))]
      && id in t'.instances
      && t'.instances[id].public == (if given.Some? then before.public + given.value.public else before.public)
      && t'.instances[id].displayName == Switched(before, r).displayName
      && t'.instances[id].enabled == Switched(before, r).enabled && t'.instances[id].multi == Switched(before, r).multi
  {
  }

  /** The secrets of an updated instance as the log shows them: the value sent, or else that one exists. */
  ghost predicate ShownFor(before: Instance, fields: seq<Field>, config: Option<Config>, shown: map<string, string>) {
    forall k ::
      var sent := config.Some? && k in config.value && config.value[k].Some? && IsSecret(fields, k);
      && (k in shown <==> sent || k in before.secrets)
      && (k in shown ==> shown[k] == if sent then config.value[k].value else "<existing>")
  }

  /**
   An accepted update logs who, when and which instance, with the document before it and the
   document after it; secrets sent show under their own fingerprints, others as existing.
   */
  lemma UpdateIsLogged(env: Admin.Env, t: Admin.Tables, actor: Actor, id: string, r: UpdateRequest, now: int)
    returns (shown: map<string, string>)
    requires UpdateAccepted(t.instances, id, r) && WellStored(t.instances[id], id)
    ensures ShownFor(t.instances[id], GetType(t.instances[id].typ).value.fields, r.config, shown)
    ensures var t' := Admin.Update(env, t, actor, id, r, now).0;
      && id in t'.instances && Logs(t, t')
      && var e, before, after := t'.audit[|t.audit|], t.instances[id], t'.instances[id];
         && Records(e, actor, "integration.update", id, now)
         && ShowsInstance(env.fp, e.before, id, before.typ, before.displayName, before.enabled, before.multi,
                          before.public, Existing(before.secrets))
         && ShowsInstance(env.fp, e.after, id, before.typ, after.displayName, after.enabled, after.multi, after.public,
             shown)
  {
    var before, spec := t.instances[id], GetType(t.instances[id].typ).value;
    var given := Admin.SplitOfOptional(before.typ, r.config);
    shown := ShownSecrets(before, given);
    UpdateOutcome(t.instances, actor, id, r, now);
    UpdateLogs(env, t, actor, id, r, now);
    if r.config.Some? {
      SplitIsDivided(before.typ, r.config.value);
    }
    UpdateRecordShows(env.fp, actor, before, id, r, given, now);
  }

  /** A logged delete shows the instance it removed, without its switches, and nothing after. */
  lemma DeleteIsLogged(env: Admin.Env, t: Admin.Tables, actor: Actor, id: string, now: int)
    requires id in t.instances && WellStored(t.instances[id], id)
    ensures var t' := Admin.Delete(env, t, actor, id, now).0;
      && Logs(t, t')
      && var e, before := t'.audit[|t.audit|], t.instances[id];
         && Records(e, actor, "integration.delete", id, now) && e.after == None && e.before.Some?
         && ShowsConfig(env.fp, e.before.value, {"id", "type", "display_name"}, before.public, Existing(before.secrets))
         && e.before.value["id"] == Text(id) && e.before.value["type"] == Text(before.typ)
         && e.before.value["display_name"] == Text(before.displayName)
  {
    var before, spec := t.instances[id], GetType(t.instances[id].typ).value;
    var head := BaseDoc(id, before.typ, before.displayName);
    assert ExistingMarks(spec.fields, before.secrets) == Texts(Existing(before.secrets));
    assert head.Keys == {"id", "type", "display_name"};
    MaskedDocShows(env.fp, spec, head, before.public, Existing(before.secrets));
    assert "id" in head && "type" in head && "display_name" in head;
  }

  /** A replace logs the mapping before it and the mapping after it. */
  lemma ReplaceIsLogged(env: Admin.Env, t: Admin.Tables, actor: Actor, mapping: JsonText.Json, now: int)
    ensures var (t', after) := Admin.Replace(env, t, actor, mapping, now);
      && t' == t.(siam := t'.siam, audit := t'.audit) && Logs(t, t') && after == Siam.Normalize(mapping)
      && t'.audit[|t.audit|] == Record(now, actor.sub, actor.username, "siam.update", "default",
           Some(map["mapping" := Roles(Admin.Mapping(t))]), Some(map["mapping" := Roles(Siam.Normalize(mapping))]))
  {
    Siam.NormalizeIsIdempotent(mapping);
    var e := Admin.SiamRecord(actor, Admin.Mapping(t), Siam.Normalize(mapping), now);
    assert Mask(env.fp, e.before.value, []) == e.before.value && Mask(env.fp, e.after.value, []) == e.after.value;
  }
}
