/**
 The audit log as a two-run property: two runs of the same admin calls that differ only
 in non-empty secret values leave the same log, except for the fingerprints; and the same
 log altogether when the fingerprints agree.
 */
module AuditRuns {
  import opened Wrappers
  import opened Registry
  import opened AuditLog
  import opened Admin
  import Integrations
  import Llm = LlmConfig
  import opened LlmLens

  // ---- When two runs look alike ----

  ghost predicate ConfigsAlike(exact: bool, fp: Fingerprint, fields: seq<Field>, x: map<string, Option<string>>,
                               y: map<string, Option<string>>) {
    && x.Keys == y.Keys
    && forall k :: k in x ==>
         x[k] == y[k]
         || (IsSecret(fields, k) && x[k].Some? && y[k].Some? && Alike(exact, fp, x[k].value, y[k].value))
  }

  function FieldsOfType(typ: string): seq<Field> {
    if GetType(typ).Some? then GetType(typ).value.fields else []
  }

  function FieldsOfPayload(reg: Providers, payload: Llm.Payload): seq<Field> {
    if Llm.ResolveProvider(reg, payload).Ok? then Llm.ResolveProvider(reg, payload).value.fields else []
  }

  ghost predicate OptionalConfigsAlike(exact: bool, fp: Fingerprint, fields: seq<Field>,
                                       x: Option<Integrations.Config>, y: Option<Integrations.Config>) {
    (x.Some? <==> y.Some?) && (x.Some? ==> ConfigsAlike(exact, fp, fields, x.value, y.value))
  }

  ghost predicate PayloadsAlike(exact: bool, env: Env, x: Option<Llm.Payload>, y: Option<Llm.Payload>) {
    && (x.Some? <==> y.Some?)
    && (x.Some? ==>
          && Llm.Sent(x.value, "provider") == Llm.Sent(y.value, "provider")
          && ConfigsAlike(exact, env.fp, FieldsOfPayload(env.providers, x.value), x.value, y.value))
  }

  /** The same call, but for the values of fields that are secret in the state it meets. */
  ghost predicate OpsAlike(exact: bool, env: Env, t: Tables, x: Op, y: Op) {
    match (x, y)
    case (CreateInstance(a, r), CreateInstance(b, q)) =>
      a == b && r.(config := map[]) == q.(config := map[])
      && ConfigsAlike(exact, env.fp, FieldsOfType(r.typ), r.config, q.config)
    case (UpdateInstance(a, i, r), UpdateInstance(b, j, q)) =>
      a == b && i == j && r.(config := None) == q.(config := None)
      && OptionalConfigsAlike(exact, env.fp, if i in t.instances then FieldsOfType(t.instances[i].typ) else [],
          r.config, q.config)
    case (UpdateLlm(a, i, e), UpdateLlm(b, j, f)) =>
      a == b && PayloadsAlike(exact, env, i, j) && PayloadsAlike(exact, env, e, f)
    case _ => x == y
  }

  ghost predicate RunsAlike(exact: bool, env: Env, start: Tables, x: seq<Timed>, y: seq<Timed>) {
    && |x| == |y|
    && (|x| > 0 ==>
          var front, last := x[..|x| - 1], |x| - 1;
          && RunsAlike(exact, env, start, front, y[..last])
          && x[last].now == y[last].now
          && OpsAlike(exact, env, Run(env, start, front), x[last].op, y[last].op))
  }

  ghost predicate InstancesAlike(x: Integrations.Instance, y: Integrations.Instance) {
    x.(secrets := map[]) == y.(secrets := map[]) && x.secrets.Keys == y.secrets.Keys
  }

  ghost predicate RowsAlike(x: Llm.Row, y: Llm.Row) {
    && x.Keys == y.Keys
    && forall k :: k in x ==> x[k] == y[k] || (x[k].Encrypted? && y[k].Encrypted?)
  }

  ghost predicate TablesAlike(exact: bool, x: Tables, y: Tables) {
    && x.instances.Keys == y.instances.Keys
    && (forall id :: id in x.instances ==> InstancesAlike(x.instances[id], y.instances[id]))
    && x.siam == y.siam
    && RowsAlike(x.llm, y.llm)
    && LogsAlike(exact, x.audit, y.audit)
  }

  // ---- Integration configs ----

  lemma {:induction false} SecretNamesAreSecret(fields: seq<Field>, name: string)
    ensures name in Integrations.SecretNames(fields) <==> IsSecret(fields, name)
  {
    if |fields| > 0 {
      var front, last := fields[..|fields| - 1], fields[|fields| - 1];
      SecretNamesAreSecret(front, name);
      assert fields == front + [last];
      assert IsSecret(fields, name) <==> IsSecret(front, name) || (last.name == name && last.secret);
    }
  }

  lemma {:induction false} FirstMissingAlike(exact: bool, fp: Fingerprint, all: seq<Field>, fields: seq<Field>,
                                             x: Integrations.Config, y: Integrations.Config)
    requires ConfigsAlike(exact, fp, all, x, y)
    ensures Integrations.FirstMissing(fields, x) == Integrations.FirstMissing(fields, y)
  {
    if |fields| > 0 {
      FirstMissingAlike(exact, fp, all, fields[..|fields| - 1], x, y);
    }
  }

  /** Alike configs are split alike: same verdict, same public half, same secret names. */
  lemma SplitAlike(exact: bool, fp: Fingerprint, fields: seq<Field>, x: Integrations.Config, y: Integrations.Config)
    requires DistinctNames(fields)
    requires ConfigsAlike(exact, fp, fields, x, y)
    ensures var s, u := Integrations.SplitConfig(fields, x), Integrations.SplitConfig(fields, y);
      (s.Ok? <==> u.Ok?) && (s.Err? ==> s == u)
    ensures Integrations.PublicPart(fields, x) == Integrations.PublicPart(fields, y)
    ensures var s, u := Integrations.SecretPart(fields, x), Integrations.SecretPart(fields, y);
      s.Keys == u.Keys && forall k :: k in s ==> Alike(exact, fp, s[k], u[k])
  {
    FirstMissingAlike(exact, fp, fields, fields, x, y);
    forall k | k in x && IsPublic(fields, k) ensures x[k] == y[k] {
      NotBoth(fields, k);
    }
  }

  lemma TextsAlike(exact: bool, fp: Fingerprint, base: Doc, other: Doc, s: map<string, string>, u: map<string, string>,
                   fields: seq<Field>)
    requires DocsAlike(exact, fp, base, other, Integrations.SecretNames(fields))
    requires s.Keys == u.Keys && forall k :: k in s ==> IsSecret(fields, k) && Alike(exact, fp, s[k], u[k])
    ensures DocsAlike(exact, fp, base + Integrations.Texts(s), other + Integrations.Texts(u),
        Integrations.SecretNames(fields))
  {
    forall k | k in s ensures k in Integrations.SecretNames(fields) {
      SecretNamesAreSecret(fields, k);
    }
  }

  /** The verdict of a create does not see the secrets, and what it stores differs only in them. */
  lemma CreatedAlike(exact: bool, fp: Fingerprint, i: Integrations.Instances, j: Integrations.Instances, actor: Actor,
                     r: Integrations.CreateRequest, q: Integrations.CreateRequest, now: int)
    requires i.Keys == j.Keys
    requires r.(config := map[]) == q.(config := map[])
    requires ConfigsAlike(exact, fp, FieldsOfType(r.typ), r.config, q.config)
    ensures var v, w := Integrations.Create(i, actor, r, now), Integrations.Create(j, actor, q, now);
      (v.Ok? <==> w.Ok?) && (v.Ok? ==> InstancesAlike(v.value, w.value))
  {
    if GetType(r.typ).Some? {
      TypesHaveDistinctNames(GetType(r.typ).value);
      SplitAlike(exact, fp, GetType(r.typ).value.fields, r.config, q.config);
    }
  }

  lemma CreateRecordsAlike(exact: bool, env: Env, x: seq<Record>, y: seq<Record>, actor: Actor, spec: IntegrationType,
                           r: Integrations.CreateRequest, q: Integrations.CreateRequest, now: int)
    requires LogsAlike(exact, x, y)
    requires GetType(r.typ) == Some(spec) && r.(config := map[]) == q.(config := map[])
    requires ConfigsAlike(exact, env.fp, spec.fields, r.config, q.config)
    ensures var names := Integrations.SecretNames(spec.fields);
      LogsAlike(exact,
        x + [Masked(env.fp, Integrations.CreateRecord(actor, r, spec, SplitOf(r.typ, r.config), now), names)],
        y + [Masked(env.fp, Integrations.CreateRecord(actor, q, spec, SplitOf(q.typ, q.config), now), names)])
  {
    TypesHaveDistinctNames(spec);
    SplitAlike(exact, env.fp, spec.fields, r.config, q.config);
    var s, v := SplitOf(r.typ, r.config), SplitOf(q.typ, q.config);
    var base := Integrations.BaseDoc(r.id, r.typ, r.displayName) + Integrations.Switches(r.enabled, r.multi)
                + Integrations.Texts(s.public);
    TextsAlike(exact, env.fp, base, base, s.secrets, v.secrets, spec.fields);
    RecordKeepsLogsAlike(exact, env.fp, x, y,
                         Integrations.CreateRecord(actor, r, spec, s, now),
                         Integrations.CreateRecord(actor, q, spec, v, now), Integrations.SecretNames(spec.fields));
  }

  lemma StoredAlike(exact: bool, t: Tables, u: Tables, id: string, x: Integrations.Instance, y: Integrations.Instance,
                    a: seq<Record>, b: seq<Record>)
    requires TablesAlike(exact, t, u) && InstancesAlike(x, y) && LogsAlike(exact, a, b)
    ensures TablesAlike(exact, t.(instances := t.instances[id := x], audit := a),
        u.(instances := u.instances[id := y], audit := b))
  {
  }

  lemma CreateAlike(exact: bool, env: Env, t: Tables, u: Tables, actor: Actor, r: Integrations.CreateRequest,
                    q: Integrations.CreateRequest, now: int)
    requires TablesAlike(exact, t, u)
    requires OpsAlike(exact, env, t, CreateInstance(actor, r), CreateInstance(actor, q))
    ensures TablesAlike(exact, Create(env, t, actor, r, now).0, Create(env, u, actor, q, now).0)
  {
    CreatedAlike(exact, env.fp, t.instances, u.instances, actor, r, q, now);
    var v, w := Integrations.Create(t.instances, actor, r, now), Integrations.Create(u.instances, actor, q, now);
    if v.Ok? {
      CreateRecordsAlike(exact, env, t.audit, u.audit, actor, GetType(r.typ).value, r, q, now);
      StoredAlike(exact, t, u, r.id, v.value, w.value,
                  Create(env, t, actor, r, now).0.audit, Create(env, u, actor, q, now).0.audit);
    }
  }

  lemma BeforeDocsEqual(x: Integrations.Instance, y: Integrations.Instance, fields: seq<Field>)
    requires InstancesAlike(x, y)
    ensures Integrations.BeforeDoc(x, fields) == Integrations.BeforeDoc(y, fields)
    ensures Integrations.ExistingMarks(fields, x.secrets) == Integrations.ExistingMarks(fields, y.secrets)
  {
    assert x.public == y.public;
    assert Integrations.ExistingMarks(fields, x.secrets) == Integrations.ExistingMarks(fields, y.secrets);
  }

  lemma AfterDocsAlike(exact: bool, fp: Fingerprint, x: Integrations.Instance, y: Integrations.Instance,
                       fields: seq<Field>,
                       r: Integrations.UpdateRequest, q: Integrations.UpdateRequest,
                       s: Option<Integrations.Split>, v: Option<Integrations.Split>)
    requires InstancesAlike(x, y) && r.(config := None) == q.(config := None)
    requires s.Some? <==> v.Some?
    requires s.Some? ==> s.value.public == v.value.public
    requires s.Some? ==> s.value.secrets.Keys == v.value.secrets.Keys
    requires s.Some? ==> forall k :: k in s.value.secrets ==>
                           IsSecret(fields, k) && Alike(exact, fp, s.value.secrets[k], v.value.secrets[k])
    ensures DocsAlike(exact, fp, Integrations.AfterDoc(x, fields, r, s), Integrations.AfterDoc(y, fields, q, v),
                      Integrations.SecretNames(fields))
  {
    BeforeDocsEqual(x, y, fields);
    assert Integrations.AfterDoc(x, fields, r, None) == Integrations.AfterDoc(y, fields, q, None);
    if s.Some? {
      var base := Integrations.AfterDoc(x, fields, r, None) + Integrations.Texts(s.value.public);
      TextsAlike(exact, fp, base, base, s.value.secrets, v.value.secrets, fields);
    }
  }

  lemma MergedAlike(x: Integrations.Instance, y: Integrations.Instance, actor: Actor,
                    r: Integrations.UpdateRequest, q: Integrations.UpdateRequest,
                    s: Option<Integrations.Split>, v: Option<Integrations.Split>, now: int)
    requires InstancesAlike(x, y) && r.(config := None) == q.(config := None)
    requires s.Some? <==> v.Some?
    requires s.Some? ==> s.value.public == v.value.public && s.value.secrets.Keys == v.value.secrets.Keys
    ensures InstancesAlike(Integrations.Merge(x, actor, r, s, now), Integrations.Merge(y, actor, q, v, now))
  {
  }

  lemma SplitOptionalAlike(exact: bool, fp: Fingerprint, fields: seq<Field>, x: Option<Integrations.Config>,
                           y: Option<Integrations.Config>)
    requires DistinctNames(fields) && OptionalConfigsAlike(exact, fp, fields, x, y)
    ensures var s, v := Integrations.SplitOptional(fields, x), Integrations.SplitOptional(fields, y);
      && (s.Ok? <==> v.Ok?)
      && (s.Ok? ==> (s.value.Some? <==> v.value.Some?))
      && (s.Ok? && s.value.Some? ==>
            s.value.value.public == v.value.value.public && s.value.value.secrets.Keys == v.value.value.secrets.Keys)
  {
    if x.Some? {
      SplitAlike(exact, fp, fields, x.value, y.value);
    }
  }

  lemma UpdatedAlike(exact: bool, fp: Fingerprint, i: Integrations.Instances, j: Integrations.Instances, actor: Actor,
                     id: string,
                     r: Integrations.UpdateRequest, q: Integrations.UpdateRequest, now: int)
    requires i.Keys == j.Keys && (id in i ==> InstancesAlike(i[id], j[id]))
    requires r.(config := None) == q.(config := None)
    requires OptionalConfigsAlike(exact, fp, if id in i then FieldsOfType(i[id].typ) else [], r.config, q.config)
    ensures var v, w := Integrations.Update(i, actor, id, r, now), Integrations.Update(j, actor, id, q, now);
      (v.Ok? <==> w.Ok?) && (v.Ok? ==> InstancesAlike(v.value, w.value))
  {
    if id in i && GetType(i[id].typ).Some? {
      var fields := GetType(i[id].typ).value.fields;
      TypesHaveDistinctNames(GetType(i[id].typ).value);
      SplitOptionalAlike(exact, fp, fields, r.config, q.config);
      var s, v := Integrations.SplitOptional(fields, r.config), Integrations.SplitOptional(fields, q.config);
      if s.Ok? {
        MergedAlike(i[id], j[id], actor, r, q, s.value, v.value, now);
      }
    }
  }

  lemma UpdateRecordsAlike(exact: bool, env: Env, a: seq<Record>, b: seq<Record>, actor: Actor, spec: IntegrationType,
                           x: Integrations.Instance, y: Integrations.Instance,
                           r: Integrations.UpdateRequest, q: Integrations.UpdateRequest, now: int)
    requires LogsAlike(exact, a, b) && InstancesAlike(x, y)
    requires GetType(x.typ) == Some(spec) && r.(config := None) == q.(config := None)
    requires OptionalConfigsAlike(exact, env.fp, spec.fields, r.config, q.config)
    ensures var names := Integrations.SecretNames(spec.fields);
      LogsAlike(exact,
        a + [Masked(env.fp, Integrations.UpdateRecord(actor, x, spec, r, SplitOfOptional(x.typ, r.config), now),
            names)],
        b + [Masked(env.fp, Integrations.UpdateRecord(actor, y, spec, q, SplitOfOptional(y.typ, q.config), now),
            names)])
  {
    var s, v := SplitOfOptional(x.typ, r.config), SplitOfOptional(y.typ, q.config);
    if r.config.Some? {
      TypesHaveDistinctNames(spec);
      SplitAlike(exact, env.fp, spec.fields, r.config.value, q.config.value);
    }
    AfterDocsAlike(exact, env.fp, x, y, spec.fields, r, q, s, v);
    BeforeDocsEqual(x, y, spec.fields);
    RecordKeepsLogsAlike(exact, env.fp, a, b,
                         Integrations.UpdateRecord(actor, x, spec, r, s, now),
                         Integrations.UpdateRecord(actor, y, spec, q, v, now), Integrations.SecretNames(spec.fields));
  }

  lemma UpdateAlike(exact: bool, env: Env, t: Tables, u: Tables, actor: Actor, id: string,
                    r: Integrations.UpdateRequest, q: Integrations.UpdateRequest, now: int)
    requires TablesAlike(exact, t, u)
    requires OpsAlike(exact, env, t, UpdateInstance(actor, id, r), UpdateInstance(actor, id, q))
    ensures TablesAlike(exact, Update(env, t, actor, id, r, now).0, Update(env, u, actor, id, q, now).0)
  {
    UpdatedAlike(exact, env.fp, t.instances, u.instances, actor, id, r, q, now);
    var v, w := Integrations.Update(t.instances, actor, id, r, now),
        Integrations.Update(u.instances, actor, id, q, now);
    if v.Ok? {
      var x, y := t.instances[id], u.instances[id];
      UpdateRecordsAlike(exact, env, t.audit, u.audit, actor, GetType(x.typ).value, x, y, r, q, now);
      StoredAlike(exact, t, u, id, v.value, w.value,
                  Update(env, t, actor, id, r, now).0.audit, Update(env, u, actor, id, q, now).0.audit);
    }
  }

  lemma DeleteAlike(exact: bool, env: Env, t: Tables, u: Tables, actor: Actor, id: string, now: int)
    requires TablesAlike(exact, t, u)
    ensures TablesAlike(exact, Delete(env, t, actor, id, now).0, Delete(env, u, actor, id, now).0)
  {
    if id in t.instances && GetType(t.instances[id].typ).Some? {
      var x, y := t.instances[id], u.instances[id];
      var spec := GetType(x.typ).value;
      BeforeDocsEqual(x, y, spec.fields);
      RecordKeepsLogsAlike(exact, env.fp, t.audit, u.audit,
                           Integrations.DeleteRecord(actor, x, spec, now),
                           Integrations.DeleteRecord(actor, y, spec, now), Integrations.SecretNames(spec.fields));
    }
  }

  lemma ReplaceAlike(exact: bool, env: Env, t: Tables, u: Tables, actor: Actor, op: Op, now: int)
    requires TablesAlike(exact, t, u) && op.ReplaceMapping?
    ensures TablesAlike(exact, Step(env, t, op, now), Step(env, u, op, now))
  {
    var t1 := t.(siam := Some(Siam.AsJson(Siam.Normalize(op.mapping))));
    var e := SiamRecord(op.actor, Mapping(t), Mapping(t1), now);
    RecordKeepsLogsAlike(exact, env.fp, t.audit, u.audit, e, e, []);
  }

  // ---- LLM payloads ----

  lemma SentAlike(exact: bool, fp: Fingerprint, fields: seq<Field>, x: Llm.Payload, y: Llm.Payload, name: string)
    requires ConfigsAlike(exact, fp, fields, x, y)
    ensures var v, w := Llm.Sent(x, name), Llm.Sent(y, name);
      v == w || (IsSecret(fields, name) && v.Some? && w.Some? && Alike(exact, fp, v.value, w.value))
  {
  }

  lemma {:induction false} FirstLackingAlike(exact: bool, fp: Fingerprint, all: seq<Field>, fields: seq<Field>,
                                             side: Llm.Side,
                                             a: Llm.Row, b: Llm.Row, x: Llm.Payload, y: Llm.Payload)
    requires ConfigsAlike(exact, fp, all, x, y) && RowsAlike(a, b)
    ensures Llm.FirstLacking(a, side, fields, x) == Llm.FirstLacking(b, side, fields, y)
  {
    if |fields| > 0 {
      SentAlike(exact, fp, all, x, y, fields[0].name);
      FirstLackingAlike(exact, fp, all, fields[1..], side, a, b, x, y);
    }
  }

  lemma {:induction false} FieldsWrittenAlike(exact: bool, fp: Fingerprint, all: seq<Field>, fields: seq<Field>,
                                              side: Llm.Side,
                                              a: Llm.Row, b: Llm.Row, x: Llm.Payload, y: Llm.Payload)
    requires DistinctNames(all) && fields <= all
    requires ConfigsAlike(exact, fp, all, x, y) && RowsAlike(a, b)
    ensures RowsAlike(Llm.ApplyFields(a, side, fields, x), Llm.ApplyFields(b, side, fields, y))
  {
    if |fields| > 0 {
      var f := fields[|fields| - 1];
      FieldsWrittenAlike(exact, fp, all, fields[..|fields| - 1], side, a, b, x, y);
      assert f == all[|fields| - 1];
      SentAlike(exact, fp, all, x, y, f.name);
      if !f.secret {
        assert IsPublic(all, f.name);
        NotBoth(all, f.name);
      }
    }
  }

  lemma AfterFieldAlike(exact: bool, fp: Fingerprint, all: seq<Field>, f: Field, side: Llm.Side,
                        d: Doc, e: Doc, x: Llm.Payload, y: Llm.Payload, names: seq<string>)
    requires DistinctNames(all) && f in all
    requires ConfigsAlike(exact, fp, all, x, y)
    requires DocsAlike(exact, fp, d, e, names)
    requires forall k :: k in Llm.SecretSent(side, f, x) ==> k in names
    ensures DocsAlike(exact, fp, Llm.AfterField(d, side, f, x), Llm.AfterField(e, side, f, y), names)
    ensures Llm.SecretSent(side, f, x) == Llm.SecretSent(side, f, y)
  {
    SentAlike(exact, fp, all, x, y, f.name);
    if !f.secret {
      assert IsPublic(all, f.name);
      NotBoth(all, f.name);
    } else if Llm.Sent(x, f.name).Some? {
      assert Llm.PublicKey(side, f.name) in Llm.SecretSent(side, f, x);
    }
  }

  lemma {:induction false} AfterAlike(exact: bool, fp: Fingerprint, all: seq<Field>, fields: seq<Field>, side: Llm.Side,
                                      d: Doc, e: Doc, x: Llm.Payload, y: Llm.Payload, names: seq<string>)
    requires DistinctNames(all) && fields <= all
    requires ConfigsAlike(exact, fp, all, x, y)
    requires DocsAlike(exact, fp, d, e, names)
    requires forall k :: k in Llm.SecretsSent(side, fields, x) ==> k in names
    ensures DocsAlike(exact, fp, Llm.AfterFields(d, side, fields, x), Llm.AfterFields(e, side, fields, y), names)
    ensures Llm.SecretsSent(side, fields, x) == Llm.SecretsSent(side, fields, y)
  {
    if |fields| > 0 {
      var front, f := fields[..|fields| - 1], fields[|fields| - 1];
      AfterAlike(exact, fp, all, front, side, d, e, x, y, names);
      assert f == all[|fields| - 1];
      AfterFieldAlike(exact, fp, all, f, side, Llm.AfterFields(d, side, front, x), Llm.AfterFields(e, side, front, y),
          x, y, names);
    }
  }

  lemma UpdateSideAlike(exact: bool, env: Env, a: Llm.Row, b: Llm.Row, side: Llm.Side, x: Option<Llm.Payload>,
                        y: Option<Llm.Payload>)
    requires WellFormedRegistry(env.providers)
    requires RowsAlike(a, b) && PayloadsAlike(exact, env, x, y)
    ensures var v, w := Llm.UpdateSideOptional(env.providers, a, side, x),
        Llm.UpdateSideOptional(env.providers, b, side, y);
      (v.Ok? <==> w.Ok?) && (v.Ok? ==> RowsAlike(v.value, w.value))
  {
    if x.Some? {
      ValidatedAlike(exact, env, a, b, side, x.value, y.value);
      var provider := Llm.Validate(env.providers, a, side, x.value);
      if provider.Ok? {
        WrittenAlike(exact, env.fp, a, b, side, provider.value, x.value, y.value);
      }
    }
  }

  lemma ValidatedAlike(exact: bool, env: Env, a: Llm.Row, b: Llm.Row, side: Llm.Side, x: Llm.Payload, y: Llm.Payload)
    requires WellFormedRegistry(env.providers)
    requires RowsAlike(a, b) && PayloadsAlike(exact, env, Some(x), Some(y))
    ensures var v := Llm.Validate(env.providers, a, side, x);
      && v == Llm.Validate(env.providers, b, side, y)
      && (v.Ok? ==> DistinctNames(v.value.fields) && ConfigsAlike(exact, env.fp, v.value.fields, x, y))
  {
    var provider := Llm.ResolveProvider(env.providers, x);
    if provider.Ok? {
      FirstLackingAlike(exact, env.fp, provider.value.fields, provider.value.fields, side, a, b, x, y);
    }
  }

  lemma WrittenAlike(exact: bool, fp: Fingerprint, a: Llm.Row, b: Llm.Row, side: Llm.Side, provider: Provider,
                     x: Llm.Payload, y: Llm.Payload)
    requires DistinctNames(provider.fields) && ConfigsAlike(exact, fp, provider.fields, x, y) && RowsAlike(a, b)
    ensures RowsAlike(Llm.Written(a, side, provider, x), Llm.Written(b, side, provider, y))
  {
    var key := Llm.PublicKey(side, "provider");
    FieldsWrittenAlike(exact, fp, provider.fields, provider.fields, side,
                       a[key := Llm.Public(provider.id)], b[key := Llm.Public(provider.id)], x, y);
  }

  lemma AfterSideAlike(exact: bool, env: Env, d: Doc, e: Doc, side: Llm.Side, x: Option<Llm.Payload>,
                       y: Option<Llm.Payload>, names: seq<string>)
    requires WellFormedRegistry(env.providers)
    requires PayloadsAlike(exact, env, x, y)
    requires DocsAlike(exact, env.fp, d, e, names)
    requires forall k :: k in SecretsOptional(env.providers, side, x) ==> k in names
    ensures DocsAlike(exact, env.fp, AfterOptional(env.providers, d, side, x),
        AfterOptional(env.providers, e, side, y), names)
    ensures SecretsOptional(env.providers, side, x) == SecretsOptional(env.providers, side, y)
  {
    if x.Some? && Llm.ResolveProvider(env.providers, x.value).Ok? {
      var provider := Llm.ResolveProvider(env.providers, x.value).value;
      var key := Llm.PublicKey(side, "provider");
      AfterAlike(exact, env.fp, provider.fields, provider.fields, side,
                 d[key := Text(provider.id)], e[key := Text(provider.id)], x.value, y.value, names);
    }
  }

  lemma {:induction false} AuditFieldsEqual(a: Llm.Row, b: Llm.Row, side: Llm.Side, fields: seq<Field>)
    requires RowsAlike(a, b)
    ensures Llm.AuditFields(a, side, fields) == Llm.AuditFields(b, side, fields)
  {
    if |fields| > 0 {
      AuditFieldsEqual(a, b, side, fields[..|fields| - 1]);
    }
  }

  lemma AuditViewsEqual(reg: Providers, a: Llm.Row, b: Llm.Row)
    requires RowsAlike(a, b)
    ensures Llm.AuditView(reg, a) == Llm.AuditView(reg, b)
  {
    AuditSidesEqual(reg, a, b, Llm.Inference);
    AuditSidesEqual(reg, a, b, Llm.Embedding);
  }

  lemma AuditSidesEqual(reg: Providers, a: Llm.Row, b: Llm.Row, side: Llm.Side)
    requires RowsAlike(a, b)
    ensures Llm.AuditSide(reg, a, side) == Llm.AuditSide(reg, b, side)
    ensures Llm.ProviderValue(a, side) == Llm.ProviderValue(b, side)
  {
    var v := Llm.Get(a, Llm.PublicKey(side, "provider"));
    if v.Public? && v.text in reg {
      AuditFieldsEqual(a, b, side, reg[v.text].fields);
    }
  }

  lemma LlmAlike(exact: bool, env: Env, t: Tables, u: Tables, x: Op, y: Op, now: int)
    requires WellFormedRegistry(env.providers)
    requires TablesAlike(exact, t, u)
    requires x.UpdateLlm? && y.UpdateLlm? && OpsAlike(exact, env, t, x, y)
    ensures TablesAlike(exact, Step(env, t, x, now), Step(env, u, y, now))
  {
    LlmRowsAlike(exact, env, t.llm, u.llm, x.inference, x.embedding, y.inference, y.embedding);
    LlmRecordsAlike(exact, env, t, u, x.actor, x.inference, x.embedding, y.inference, y.embedding, now);
  }

  lemma LlmRowsAlike(exact: bool, env: Env, a: Llm.Row, b: Llm.Row, i: Option<Llm.Payload>, e: Option<Llm.Payload>,
                     j: Option<Llm.Payload>, f: Option<Llm.Payload>)
    requires WellFormedRegistry(env.providers) && RowsAlike(a, b)
    requires PayloadsAlike(exact, env, i, j) && PayloadsAlike(exact, env, e, f)
    ensures var v, w := Llm.UpdateRow(env.providers, a, i, e), Llm.UpdateRow(env.providers, b, j, f);
      (v.Ok? <==> w.Ok?) && (v.Ok? ==> RowsAlike(v.value, w.value))
  {
    UpdateSideAlike(exact, env, a, b, Llm.Inference, i, j);
    var v, w := Llm.UpdateSideOptional(env.providers, a, Llm.Inference, i),
        Llm.UpdateSideOptional(env.providers, b, Llm.Inference, j);
    if v.Ok? {
      UpdateSideAlike(exact, env, v.value, w.value, Llm.Embedding, e, f);
    }
  }

  lemma LlmRecordsAlike(exact: bool, env: Env, t: Tables, u: Tables, actor: Actor, i: Option<Llm.Payload>,
                        e: Option<Llm.Payload>,
                        j: Option<Llm.Payload>, f: Option<Llm.Payload>, now: int)
    requires WellFormedRegistry(env.providers) && TablesAlike(exact, t, u)
    requires PayloadsAlike(exact, env, i, j) && PayloadsAlike(exact, env, e, f)
    ensures var reg := env.providers;
      var names := SecretsOptional(reg, Llm.Inference, i) + SecretsOptional(reg, Llm.Embedding, e);
      && names == SecretsOptional(reg, Llm.Inference, j) + SecretsOptional(reg, Llm.Embedding, f)
      && LogsAlike(exact, t.audit + [Masked(env.fp, LlmRecord(env, t, actor, i, e, now), names)],
                   u.audit + [Masked(env.fp, LlmRecord(env, u, actor, j, f, now), names)])
  {
    var reg := env.providers;
    var names := SecretsOptional(reg, Llm.Inference, i) + SecretsOptional(reg, Llm.Embedding, e);
    AuditViewsEqual(reg, t.llm, u.llm);
    var d := Llm.AuditView(reg, t.llm);
    AfterSideAlike(exact, env, d, d, Llm.Inference, i, j, names);
    AfterSideAlike(exact, env, AfterOptional(reg, d, Llm.Inference, i), AfterOptional(reg, d, Llm.Inference, j),
                   Llm.Embedding, e, f, names);
    RecordKeepsLogsAlike(exact, env.fp, t.audit, u.audit,
                         LlmRecord(env, t, actor, i, e, now), LlmRecord(env, u, actor, j, f, now), names);
  }

  // ---- The two-run property ----

  lemma {:induction false} RunsStayAlike(exact: bool, env: Env, start: Tables, x: seq<Timed>, y: seq<Timed>)
    requires WellFormedRegistry(env.providers)
    requires RunsAlike(exact, env, start, x, y)
    ensures TablesAlike(exact, Run(env, start, x), Run(env, start, y))
  {
    if |x| > 0 {
      var last := |x| - 1;
      RunsStayAlike(exact, env, start, x[..last], y[..last]);
      StepsStayAlike(exact, env, Run(env, start, x[..last]), Run(env, start, y[..last]), x[last].op, y[last].op,
          x[last].now);
    }
  }

  lemma StepsStayAlike(exact: bool, env: Env, t: Tables, u: Tables, x: Op, y: Op, now: int)
    requires WellFormedRegistry(env.providers)
    requires TablesAlike(exact, t, u) && OpsAlike(exact, env, t, x, y)
    ensures TablesAlike(exact, Step(env, t, x, now), Step(env, u, y, now))
  {
    match x {
      case CreateInstance(actor, r) => CreateAlike(exact, env, t, u, actor, r, y.create, now);
      case UpdateInstance(actor, id, r) => UpdateAlike(exact, env, t, u, actor, id, r, y.update, now);
      case DeleteInstance(actor, id) => DeleteAlike(exact, env, t, u, actor, id, now);
      case ReplaceMapping(actor, _) => ReplaceAlike(exact, env, t, u, actor, x, now);
      case UpdateLlm(_, _, _) => LlmAlike(exact, env, t, u, x, y, now);
    }
  }

  /** Different secrets, same log once the fingerprints are erased. */
  lemma LogHidesSecrets(env: Env, start: Tables, x: seq<Timed>, y: seq<Timed>)
    requires WellFormedRegistry(env.providers)
    requires RunsAlike(false, env, start, x, y)
    ensures EraseLog(Run(env, start, x).audit) == EraseLog(Run(env, start, y).audit)
  {
    RunsStayAlike(false, env, start, x, y);
  }

  /** Different secrets with the same fingerprints, same log. */
  lemma LogShowsOnlyFingerprints(env: Env, start: Tables, x: seq<Timed>, y: seq<Timed>)
    requires WellFormedRegistry(env.providers)
    requires RunsAlike(true, env, start, x, y)
    ensures Run(env, start, x).audit == Run(env, start, y).audit
  {
    RunsStayAlike(true, env, start, x, y);
  }
}
