/** What an instance holds after any run of admin calls, against what it was ever given. */
module InstanceLife {
  import opened Wrappers
  import opened Registry
  import opened Integrations
  import Admin

  /** The configs accepted for `id` since it was last created, oldest first. */
  function Accepted(env: Admin.Env, start: Admin.Tables, ops: seq<Admin.Timed>, id: string): seq<Config> {
    if |ops| == 0 then []
    else
      var front := ops[..|ops| - 1];
      NoteAccepted(Admin.Run(env, start, front).instances, Accepted(env, start, front, id), ops[|ops| - 1].op, id)
  }

  function NoteAccepted(instances: Instances, before: seq<Config>, op: Admin.Op, id: string): seq<Config> {
    match op
    case CreateInstance(actor, r) =>
      if r.id == id && Create(instances, actor, r, 0).Ok? then [r.config] else before
    case UpdateInstance(actor, i, r) =>
      if i == id && r.config.Some? && Update(instances, actor, i, r, 0).Ok? then before + [r.config.value]
      else before
    case DeleteInstance(_, i) => if i == id then [] else before
    case _ => before
  }

  /** The last value other than null given for a field. */
  function LastGiven(configs: seq<Config>, name: string): Option<string> {
    if |configs| == 0 then None
    else
      var v := Given(configs[|configs| - 1], name);
      if v.Some? then v else LastGiven(configs[..|configs| - 1], name)
  }

  lemma LastGivenAppend(configs: seq<Config>, config: Config, name: string)
    ensures LastGiven(configs + [config], name) ==
            if Given(config, name).Some? then Given(config, name) else LastGiven(configs, name)
  {
    assert (configs + [config])[..|configs|] == configs;
  }

  /** The stored halves follow the type's declaration, and together hold what was given. */
  ghost predicate Holds(doc: Instance, id: string, configs: seq<Config>) {
    && doc.id == id
    && GetType(doc.typ).Some?
    && (var fields := GetType(doc.typ).value.fields;
        && (forall k :: k in doc.public ==> IsPublic(fields, k))
        && (forall k :: k in doc.secrets ==> IsSecret(fields, k)))
    && (forall k :: Lookup(doc, k) == LastGiven(configs, k))
  }

  lemma AcceptedSplit(fields: seq<Field>, config: Config, k: string)
    requires SplitConfig(fields, config).Ok?
    ensures Given(config, k).Some? ==> IsPublic(fields, k) || IsSecret(fields, k)
    ensures k in PublicPart(fields, config) <==> Given(config, k).Some? && IsPublic(fields, k)
    ensures k in SecretPart(fields, config) <==> Given(config, k).Some? && IsSecret(fields, k)
  {
    if k in config {
      assert k in FieldNames(fields) by {
        assert k !in config.Keys - FieldNames(fields);
      }
      var f :| f in fields && f.name == k;
    }
  }

  lemma CreatedHolds(instances: Instances, actor: Actor, r: CreateRequest, now: int)
    requires Create(instances, actor, r, now).Ok?
    ensures Holds(Create(instances, actor, r, now).value, r.id, [r.config])
  {
    var doc := Create(instances, actor, r, now).value;
    var fields := GetType(r.typ).value.fields;
    TypesHaveDistinctNames(GetType(r.typ).value);
    forall k ensures Lookup(doc, k) == LastGiven([r.config], k) {
      AcceptedSplit(fields, r.config, k);
      NotBoth(fields, k);
      LastGivenAppend([], r.config, k);
      assert [] + [r.config] == [r.config];
    }
  }

  lemma UpdatedHolds(instances: Instances, actor: Actor, id: string, r: UpdateRequest, now: int, configs: seq<Config>)
    requires Update(instances, actor, id, r, now).Ok?
    requires Holds(instances[id], id, configs)
    ensures Holds(Update(instances, actor, id, r, now).value, id,
                  if r.config.Some? then configs + [r.config.value] else configs)
    ensures Update(instances, actor, id, r, now).value.typ == instances[id].typ
  {
    if r.config.Some? {
      var before, doc := instances[id], Update(instances, actor, id, r, now).value;
      var fields := GetType(before.typ).value.fields;
      TypesHaveDistinctNames(GetType(before.typ).value);
      forall k ensures Lookup(doc, k) == LastGiven(configs + [r.config.value], k) {
        AcceptedSplit(fields, r.config.value, k);
        NotBoth(fields, k);
        LastGivenAppend(configs, r.config.value, k);
        assert Lookup(before, k) == LastGiven(configs, k);
      }
    }
  }

  /**
   After every run of admin calls, each instance holds for every field the last non-null
   value accepted since its creation, split between the public and the sealed half by its
   type, under its own id.
   */
  lemma {:induction false} InstancesHoldLastGiven(env: Admin.Env, start: Admin.Tables, ops: seq<Admin.Timed>,
                                                  id: string)
    requires start.instances == map[]
    requires id in Admin.Run(env, start, ops).instances
    ensures Holds(Admin.Run(env, start, ops).instances[id], id, Accepted(env, start, ops, id))
  {
    var front := ops[..|ops| - 1];
    var t := Admin.Run(env, start, front);
    if id in t.instances {
      InstancesHoldLastGiven(env, start, front, id);
    }
    Admin.StepInstances(env, t, ops[|ops| - 1].op, ops[|ops| - 1].now);
    StepHolds(t.instances, ops[|ops| - 1].op, ops[|ops| - 1].now, Accepted(env, start, front, id), id);
  }

  lemma StepHolds(instances: Instances, op: Admin.Op, now: int, before: seq<Config>, id: string)
    requires id in instances ==> Holds(instances[id], id, before)
    requires id in Admin.InstancesAfter(instances, op, now)
    ensures Holds(Admin.InstancesAfter(instances, op, now)[id], id, NoteAccepted(instances, before, op, id))
  {
    match op {
      case CreateInstance(actor, r) =>
        if r.id == id && Create(instances, actor, r, now).Ok? {
          CreatedHolds(instances, actor, r, now);
        }
      case UpdateInstance(actor, i, r) =>
        if i == id && Update(instances, actor, i, r, now).Ok? {
          UpdatedHolds(instances, actor, i, r, now, before);
        }
      case DeleteInstance(_, i) => assert i != id;
      case _ =>
    }
  }

  /** So no field is both public and sealed, and the admin view names exactly the secrets ever given. */
  lemma ViewNamesSecretsGiven(env: Admin.Env, start: Admin.Tables, ops: seq<Admin.Timed>, id: string, name: string)
    requires start.instances == map[]
    requires id in Admin.Run(env, start, ops).instances
    ensures var doc := Admin.Run(env, start, ops).instances[id];
      && doc.public.Keys !! doc.secrets.Keys
      && GetType(doc.typ).Some?
      && (name in Render(doc).secretFieldsSet <==>
            IsSecret(GetType(doc.typ).value.fields, name) && LastGiven(Accepted(env, start, ops, id), name).Some?)
  {
    InstancesHoldLastGiven(env, start, ops, id);
    var doc := Admin.Run(env, start, ops).instances[id];
    var fields := GetType(doc.typ).value.fields;
    TypesHaveDistinctNames(GetType(doc.typ).value);
    forall k ensures !(k in doc.public && k in doc.secrets) {
      NotBoth(fields, k);
    }
    NotBoth(fields, name);
    assert Lookup(doc, name) == LastGiven(Accepted(env, start, ops, id), name);
  }

  /** Between two points of a run without a delete, an instance keeps its id and its type. */
  lemma {:induction false} IdentityIsFixed(env: Admin.Env, t: Admin.Tables, ops: seq<Admin.Timed>, id: string)
    requires id in t.instances && t.instances[id].id == id
    requires forall x :: x in ops ==> !(x.op.DeleteInstance? && x.op.id == id)
    ensures id in Admin.Run(env, t, ops).instances
    ensures Admin.Run(env, t, ops).instances[id].typ == t.instances[id].typ
    ensures Admin.Run(env, t, ops).instances[id].id == id
    ensures Admin.Run(env, t, ops).instances[id].createdBy == t.instances[id].createdBy
  {
    if |ops| > 0 {
      var front, last := ops[..|ops| - 1], ops[|ops| - 1];
      assert last in ops;
      IdentityIsFixed(env, t, front, id);
      StepKeepsIdentity(env, Admin.Run(env, t, front), last.op, last.now, id);
    }
  }

  lemma StepKeepsIdentity(env: Admin.Env, t: Admin.Tables, op: Admin.Op, now: int, id: string)
    requires id in t.instances && t.instances[id].id == id
    requires !(op.DeleteInstance? && op.id == id)
    ensures var t1 := Admin.Step(env, t, op, now);
      && id in t1.instances
      && t1.instances[id].typ == t.instances[id].typ && t1.instances[id].id == id
      && t1.instances[id].createdBy == t.instances[id].createdBy
  {
    Admin.StepInstances(env, t, op, now);
  }
}
