/** What an LLM update accepts, and what the audit log shows of it. */
module LlmOutcomes {
  import opened Wrappers
  import opened Registry
  import opened AuditLog
  import opened LlmConfig
  import opened LlmLens
  import Admin

  // ---- Acceptance ----

  /** The field is sent with a value that is neither null nor empty. */
  predicate Filled(payload: Payload, name: string) {
    name in payload && payload[name].Some? && payload[name].value != ""
  }

  /** A required field is filled, or is a secret with a stored value. */
  predicate Satisfied(row: Row, side: Side, f: Field, payload: Payload) {
    f.required && !Filled(payload, f.name) ==>
      f.secret && SecretKey(side, f.name) in row
      && (row[SecretKey(side, f.name)].Encrypted? || (row[SecretKey(side, f.name)].Public?
          && row[SecretKey(side, f.name)].text != ""))
  }

  lemma SatisfiedIffNotLacking(row: Row, side: Side, f: Field, payload: Payload)
    ensures Satisfied(row, side, f, payload) <==> !LacksRequired(row, side, f, payload)
  {
  }

  /** The keys sent that no field declares, the provider's own aside. */
  function Undeclared(fields: seq<Field>, payload: Payload): set<string> {
    set k | k in payload && k != "provider" && (forall f :: f in fields ==> f.name != k)
  }

  ghost predicate IsFirstUnsatisfied(row: Row, side: Side, fields: seq<Field>, payload: Payload, i: int) {
    && 0 <= i < |fields| && !Satisfied(row, side, fields[i], payload)
    && forall j :: 0 <= j < i ==> Satisfied(row, side, fields[j], payload)
  }

  lemma {:induction false} FirstLackingIsFirst(row: Row, side: Side, fields: seq<Field>, payload: Payload)
    ensures FirstLacking(row, side, fields, payload).Some? ==>
              exists i :: IsFirstUnsatisfied(row, side, fields, payload, i)
                          && fields[i].name == FirstLacking(row, side, fields, payload).value
  {
    if |fields| > 0 {
      SatisfiedIffNotLacking(row, side, fields[0], payload);
      if LacksRequired(row, side, fields[0], payload) {
        assert IsFirstUnsatisfied(row, side, fields, payload, 0);
      } else {
        var rest := fields[1..];
        FirstLackingIsFirst(row, side, rest, payload);
        if FirstLacking(row, side, rest, payload).Some? {
          var i :| IsFirstUnsatisfied(row, side, rest, payload, i) && rest[i].name
              == FirstLacking(row, side, rest, payload).value;
          forall j | 0 <= j < i + 1 ensures Satisfied(row, side, fields[j], payload) {
            assert j > 0 ==> fields[j] == rest[j - 1];
          }
          assert IsFirstUnsatisfied(row, side, fields, payload, i + 1) && fields[i + 1] == rest[i];
        }
      }
    }
  }

  ghost predicate Accepted(reg: Providers, row: Row, side: Side, payload: Payload) {
    && Filled(payload, "provider") && payload["provider"].value in reg
    && var fields := reg[payload["provider"].value].fields;
       Undeclared(fields, payload) == {} && forall f :: f in fields ==> Satisfied(row, side, f, payload)
  }

  /**
   A side's payload is accepted exactly when it names a provider of the catalogue, every key is
   declared, and every required field is filled or has a stored secret; refused in that order.
   */
  lemma ValidateOutcome(reg: Providers, row: Row, side: Side, payload: Payload)
    ensures match Validate(reg, row, side, payload) {
      case Ok(provider) => Accepted(reg, row, side, payload) && provider == reg[payload["provider"].value]
      case Err(e) =>
        && !Accepted(reg, row, side, payload)
        && (if !Filled(payload, "provider") then e == ProviderRequired
            else if payload["provider"].value !in reg then e == UnknownProvider(payload["provider"].value)
            else
              var fields := reg[payload["provider"].value].fields;
              if Undeclared(fields, payload) != {} then e == UnknownKeys(Undeclared(fields, payload))
              else exists i :: IsFirstUnsatisfied(row, side, fields, payload, i) && e == FieldRequired(fields[i].name))
    }
  {
    if Filled(payload, "provider") && payload["provider"].value in reg {
      var fields := reg[payload["provider"].value].fields;
      assert Undeclared(fields, payload) == payload.Keys - (Names(fields) + {"provider"});
      FirstLackingIsFirst(row, side, fields, payload);
      forall f | f in fields ensures Satisfied(row, side, f, payload) <==> !LacksRequired(row, side, f, payload) {
        SatisfiedIffNotLacking(row, side, f, payload);
      }
    }
  }

  ghost predicate SideAccepted(reg: Providers, row: Row, side: Side, payload: Option<Payload>) {
    payload.Some? ==> Accepted(reg, row, side, payload.value)
  }

  /** An update is accepted exactly when a side is sent and each side sent is acceptable over the stored row. */
  lemma UpdateRowOutcome(reg: Providers, row: Row, inference: Option<Payload>, embedding: Option<Payload>)
    ensures UpdateRow(reg, row, inference, embedding).Ok? <==>
              (inference.Some? || embedding.Some?)
              && SideAccepted(reg, row, Inference, inference) && SideAccepted(reg, row, Embedding, embedding)
  {
    if inference.Some? {
      ValidateOutcome(reg, row, Inference, inference.value);
    }
    if embedding.Some? {
      ValidateOutcome(reg, row, Embedding, embedding.value);
      if inference.Some? && UpdateSide(reg, row, Inference, inference.value).Ok? {
        AcceptanceIsIndependent(reg, row, Inference, inference.value, embedding.value);
      }
    }
  }

  /** Refused, it changes nothing; accepted, it changes the row and logs once. */
  lemma UpdateLlmOutcome(env: Admin.Env, t: Admin.Tables, actor: Admin.Actor, inference: Option<Payload>,
                         embedding: Option<Payload>, now: int)
    ensures var (t', result) := Admin.UpdateLlmConfig(env, t, actor, inference, embedding, now);
      && (result.Ok? <==>
            (inference.Some? || embedding.Some?)
            && SideAccepted(env.providers, t.llm, Inference, inference)
            && SideAccepted(env.providers, t.llm, Embedding, embedding))
      && (result.Err? ==> t' == t)
      && (result.Ok? ==>
            && UpdateRow(env.providers, t.llm, inference, embedding) == Ok(t'.llm)
            && t' == t.(llm := t'.llm, audit := t'.audit)
            && |t'.audit| == |t.audit| + 1 && t'.audit[..|t.audit|] == t.audit)
  {
    UpdateRowOutcome(env.providers, t.llm, inference, embedding);
  }

  // ---- The record ----

  lemma FieldNamesDiffer(side: Side, fields: seq<Field>, i: nat, j: nat)
    requires WellFormed(fields) && i < |fields| && j < |fields| && i != j
    ensures PublicKey(side, fields[i].name) != PublicKey(side, fields[j].name)
  {
    assert fields[i].name != fields[j].name;
    if PublicKey(side, fields[i].name) == PublicKey(side, fields[j].name) {
      PrefixCancels(Prefix(side), fields[i].name, fields[j].name);
    }
  }

  lemma FieldIsNotProvider(side: Side, fields: seq<Field>, f: Field)
    requires WellFormed(fields) && f in fields
    ensures PublicKey(side, f.name) != PublicKey(side, "provider")
  {
    if PublicKey(side, f.name) == PublicKey(side, "provider") {
      PrefixCancels(Prefix(side), f.name, "provider");
    }
  }

  lemma AfterFieldKeeps(doc: Doc, side: Side, f: Field, payload: Payload, key: string)
    requires PublicKey(side, f.name) != key
    ensures key in AfterField(doc, side, f, payload) <==> key in doc
    ensures key in doc ==> AfterField(doc, side, f, payload)[key] == doc[key]
  {
  }

  lemma {:induction false} AfterFieldsKeep(doc: Doc, side: Side, fields: seq<Field>, payload: Payload, key: string)
    requires forall f :: f in fields ==> PublicKey(side, f.name) != key
    ensures key in AfterFields(doc, side, fields, payload) <==> key in doc
    ensures key in doc ==> AfterFields(doc, side, fields, payload)[key] == doc[key]
  {
    if |fields| > 0 {
      assert fields[|fields| - 1] in fields;
      AfterFieldsKeep(doc, side, fields[..|fields| - 1], payload, key);
      AfterFieldKeeps(AfterFields(doc, side, fields[..|fields| - 1], payload), side, fields[|fields| - 1], payload,
          key);
    }
  }

  /** The field applied last decides its own key and leaves the others. */
  lemma AfterFieldsStep(doc: Doc, side: Side, fields: seq<Field>, payload: Payload, key: string)
    requires |fields| > 0
    ensures var f := fields[|fields| - 1];
      var before := AfterFields(doc, side, fields[..|fields| - 1], payload);
      var d := AfterFields(doc, side, fields, payload);
      && (key != PublicKey(side, f.name) && key in before ==> key in d && d[key] == before[key])
      && (key == PublicKey(side, f.name) && (!f.secret || Sent(payload, f.name).Some?) ==>
            key in d && d[key] == Text(Cleaned(Sent(payload, f.name))))
  {
  }

  /** Each field applied shows in the after document as sent: a public one cleaned, a secret one as its text. */
  lemma {:induction false} AfterFieldsShow(doc: Doc, side: Side, all: seq<Field>, n: nat, payload: Payload, i: nat)
    requires WellFormed(all) && i < n <= |all|
    requires !all[i].secret || Sent(payload, all[i].name).Some?
    ensures var d := AfterFields(doc, side, all[..n], payload);
      && PublicKey(side, all[i].name) in d
      && d[PublicKey(side, all[i].name)] == Text(Cleaned(Sent(payload, all[i].name)))
  {
    assert all[..n][..n - 1] == all[..n - 1];
    assert all[..n][n - 1] == all[n - 1];
    AfterFieldsStep(doc, side, all[..n], payload, PublicKey(side, all[i].name));
    if i < n - 1 {
      AfterFieldsShow(doc, side, all, n - 1, payload, i);
      FieldNamesDiffer(side, all, i, n - 1);
    }
  }

  lemma {:induction false} SecretsSentNames(side: Side, all: seq<Field>, n: nat, payload: Payload, i: nat)
    requires WellFormed(all) && n <= |all| && i < |all|
    ensures PublicKey(side, all[i].name) in SecretsSent(side, all[..n], payload)
       <==> i < n && all[i].secret && Sent(payload, all[i].name).Some?
  {
    if n > 0 {
      assert all[..n][..n - 1] == all[..n - 1];
      SecretsSentNames(side, all, n - 1, payload, i);
      if i != n - 1 {
        FieldNamesDiffer(side, all, i, n - 1);
      }
    }
  }

  lemma {:induction false} SecretsAreOfSide(side: Side, fields: seq<Field>, payload: Payload, key: string)
    requires key in SecretsSent(side, fields, payload)
    ensures OfSide(side, key)
  {
    if key in SecretsSent(side, fields[..|fields| - 1], payload) {
      SecretsAreOfSide(side, fields[..|fields| - 1], payload, key);
    }
  }

  lemma {:induction false} SecretsAreFields(side: Side, fields: seq<Field>, payload: Payload, key: string)
    requires key in SecretsSent(side, fields, payload)
    ensures exists f :: f in fields && key == PublicKey(side, f.name)
  {
    var last := fields[|fields| - 1];
    assert last in fields;
    if key in SecretsSent(side, fields[..|fields| - 1], payload) {
      SecretsAreFields(side, fields[..|fields| - 1], payload, key);
      var f :| f in fields[..|fields| - 1] && key == PublicKey(side, f.name);
      assert f in fields;
    }
  }

  function Masks(fp: Fingerprint, text: string): Value {
    if text == "" then Marker(false, None) else Marker(true, Some(fp(text)))
  }

  /** What the record shows of one side sent: its provider and public fields as sent, its secrets sent masked. */
  ghost predicate ShowsSide(fp: Fingerprint, d: Doc, side: Side, provider: Provider, payload: Payload) {
    && PublicKey(side, "provider") in d && d[PublicKey(side, "provider")] == Text(provider.id)
    && (forall f :: f in provider.fields && !f.secret ==>
          PublicKey(side, f.name) in d
          && d[PublicKey(side, f.name)] == Text(if Filled(payload, f.name) then payload[f.name].value else ""))
    && (forall f :: f in provider.fields && f.secret && f.name in payload && payload[f.name].Some? ==>
          PublicKey(side, f.name) in d && d[PublicKey(side, f.name)] == Masks(fp, payload[f.name].value))
  }

  /** The names to mask are those of the secrets sent on this side, among those of this side. */
  ghost predicate NamesFor(names: seq<string>, side: Side, provider: Provider, payload: Payload) {
    forall key :: OfSide(side, key) ==> (key in names <==> key in SecretsSent(side, provider.fields, payload))
  }

  lemma AfterShowsSide(fp: Fingerprint, doc: Doc, side: Side, provider: Provider, payload: Payload, names: seq<string>)
    requires WellFormed(provider.fields) && NamesFor(names, side, provider, payload)
    ensures ShowsSide(fp, Mask(fp, After(doc, side, provider, payload), names), side, provider, payload)
  {
    var fields := provider.fields;
    var start := doc[PublicKey(side, "provider") := Text(provider.id)];
    ProviderShows(doc, side, provider, payload, names);
    assert fields[..|fields|] == fields;
    forall f | f in fields && (!f.secret || Sent(payload, f.name).Some?)
      ensures var d := Mask(fp, After(doc, side, provider, payload), names);
        && PublicKey(side, f.name) in d
        && d[PublicKey(side, f.name)] ==
           (if f.secret then Masks(fp, payload[f.name].value) else Text(Cleaned(Sent(payload, f.name))))
    {
      var i :| 0 <= i < |fields| && fields[i] == f;
      AfterFieldsShow(start, side, fields, |fields|, payload, i);
      SecretsSentNames(side, fields, |fields|, payload, i);
      assert OfSide(side, PublicKey(side, f.name));
    }
  }

  lemma ProviderShows(doc: Doc, side: Side, provider: Provider, payload: Payload, names: seq<string>)
    requires WellFormed(provider.fields) && NamesFor(names, side, provider, payload)
    ensures var after := After(doc, side, provider, payload);
      && PublicKey(side, "provider") in after && after[PublicKey(side, "provider")] == Text(provider.id)
      && PublicKey(side, "provider") !in names
  {
    forall f | f in provider.fields ensures PublicKey(side, f.name) != PublicKey(side, "provider") {
      FieldIsNotProvider(side, provider.fields, f);
    }
    AfterFieldsKeep(doc[PublicKey(side, "provider") := Text(provider.id)], side, provider.fields, payload,
        PublicKey(side, "provider"));
    assert OfSide(side, PublicKey(side, "provider"));
    if PublicKey(side, "provider") in SecretsSent(side, provider.fields, payload) {
      SecretsAreFields(side, provider.fields, payload, PublicKey(side, "provider"));
    }
  }

  /** The other side's entries are not touched by applying a side. */
  lemma AfterKeepsOtherSide(doc: Doc, side: Side, provider: Provider, payload: Payload, key: string)
    requires !OfSide(side, key)
    ensures key in After(doc, side, provider, payload) <==> key in doc
    ensures key in doc ==> After(doc, side, provider, payload)[key] == doc[key]
  {
    assert OfSide(side, PublicKey(side, "provider"));
    assert forall f :: f in provider.fields ==> OfSide(side, PublicKey(side, f.name));
    AfterFieldsKeep(doc[PublicKey(side, "provider") := Text(provider.id)], side, provider.fields, payload, key);
  }

  // ---- The view before an update ----

  /** The names of the secrets sent: what stands under them is recorded masked. */
  function SecretsGiven(reg: Providers, payload: Option<Payload>): set<string> {
    if payload.None? || ResolveProvider(reg, payload.value).Err? then {}
    else
      set f | f in ResolveProvider(reg, payload.value).value.fields
              && f.secret && f.name in payload.value && payload.value[f.name].Some? :: f.name
  }

  function Hide(fp: Fingerprint, hidden: set<string>, name: string, v: Value): Value {
    if name in hidden then Masks(fp, if v.Text? then v.text else "") else v
  }

  /** What the record shows of a stored side: its provider, and of each field its text, or that a secret exists. */
  ghost predicate ShowsStored(fp: Fingerprint, reg: Providers, row: Row, side: Side, hidden: set<string>, d: Doc) {
    && PublicKey(side, "provider") in d
    && d[PublicKey(side, "provider")] == (if Stores(row, side) then Text(row[PublicKey(side, "provider")].text)
                                          else Null)
    && (Stores(row, side) && row[PublicKey(side, "provider")].text in reg ==>
          forall f :: f in reg[row[PublicKey(side, "provider")].text].fields ==>
            && (!f.secret ==>
                  PublicKey(side, f.name) in d
                  && d[PublicKey(side, f.name)] == Hide(fp, hidden, f.name, AuditText(row, PublicKey(side, f.name))))
            && (f.secret && Truthy(Get(row, SecretKey(side, f.name))) ==>
                  PublicKey(side, f.name) in d
                  && d[PublicKey(side, f.name)] == Hide(fp, hidden, f.name, Text("<existing>"))))
  }

  predicate Stores(row: Row, side: Side) {
    PublicKey(side, "provider") in row && row[PublicKey(side, "provider")].Public?
  }

  /** The last field decides its own key and leaves the others. */
  lemma AuditFieldsStep(row: Row, side: Side, fields: seq<Field>, key: string)
    requires |fields| > 0
    ensures var f := fields[|fields| - 1];
      var before := AuditFields(row, side, fields[..|fields| - 1]);
      var d := AuditFields(row, side, fields);
      && (key != PublicKey(side, f.name) && key in before ==> key in d && d[key] == before[key])
      && (key == PublicKey(side, f.name) && (!f.secret || Truthy(Get(row, SecretKey(side, f.name)))) ==>
            key in d && d[key] == (if f.secret then Text("<existing>") else AuditText(row, key)))
  {
  }

  lemma {:induction false} AuditFieldsShow(row: Row, side: Side, all: seq<Field>, n: nat, i: nat)
    requires WellFormed(all) && i < n <= |all|
    requires !all[i].secret || Truthy(Get(row, SecretKey(side, all[i].name)))
    ensures var d := AuditFields(row, side, all[..n]);
      && PublicKey(side, all[i].name) in d
      && d[PublicKey(side, all[i].name)]
         == (if all[i].secret then Text("<existing>") else AuditText(row, PublicKey(side, all[i].name)))
  {
    assert all[..n][..n - 1] == all[..n - 1];
    assert all[..n][n - 1] == all[n - 1];
    AuditFieldsStep(row, side, all[..n], PublicKey(side, all[i].name));
    if i < n - 1 {
      AuditFieldsShow(row, side, all, n - 1, i);
      FieldNamesDiffer(side, all, i, n - 1);
    }
  }

  lemma {:induction false} AuditFieldsAreOfSide(row: Row, side: Side, fields: seq<Field>, key: string)
    requires key in AuditFields(row, side, fields)
    ensures exists f :: f in fields && key == PublicKey(side, f.name)
  {
    var last := fields[|fields| - 1];
    assert last in fields;
    if key in AuditFields(row, side, fields[..|fields| - 1]) {
      AuditFieldsAreOfSide(row, side, fields[..|fields| - 1], key);
      var f :| f in fields[..|fields| - 1] && key == PublicKey(side, f.name);
      assert f in fields;
    }
  }

  /** The entries of one side: fields of its provider, never the provider itself, never the other side's. */
  lemma AuditSideKeys(reg: Providers, row: Row, side: Side, key: string)
    requires WellFormedRegistry(reg) && key in AuditSide(reg, row, side)
    ensures OfSide(side, key) && key != PublicKey(side, "provider")
  {
    var fields := reg[row[PublicKey(side, "provider")].text].fields;
    AuditFieldsAreOfSide(row, side, fields, key);
    var f :| f in fields && key == PublicKey(side, f.name);
    FieldIsNotProvider(side, fields, f);
  }

  lemma AuditSideShows(reg: Providers, row: Row, side: Side, f: Field)
    requires WellFormedRegistry(reg) && Stores(row, side) && row[PublicKey(side, "provider")].text in reg
    requires f in reg[row[PublicKey(side, "provider")].text].fields
    requires !f.secret || Truthy(Get(row, SecretKey(side, f.name)))
    ensures var d := AuditSide(reg, row, side);
      && PublicKey(side, f.name) in d
      && d[PublicKey(side, f.name)] == (if f.secret then Text("<existing>")
          else AuditText(row, PublicKey(side, f.name)))
  {
    var fields := reg[row[PublicKey(side, "provider")].text].fields;
    var i :| 0 <= i < |fields| && fields[i] == f;
    assert fields[..|fields|] == fields;
    AuditFieldsShow(row, side, fields, |fields|, i);
  }

  /** In the whole view the entries of a side are its own: its provider's, or those of its fields. */
  lemma AuditViewAt(reg: Providers, row: Row, side: Side, key: string)
    requires WellFormedRegistry(reg) && OfSide(side, key)
    ensures var d, own := AuditView(reg, row), AuditSide(reg, row, side);
      && (key in own ==> key in d && d[key] == own[key])
      && (key == PublicKey(side, "provider") ==> key in d && d[key] == ProviderValue(row, side))
  {
    SidesAreDisjoint(side, key);
    if key in AuditSide(reg, row, Other(side)) {
      AuditSideKeys(reg, row, Other(side), key);
    }
    if key in AuditSide(reg, row, side) {
      AuditSideKeys(reg, row, side, key);
    }
    assert OfSide(Other(side), PublicKey(Other(side), "provider"));
  }

  lemma AuditViewShows(fp: Fingerprint, reg: Providers, row: Row, side: Side)
    requires WellFormedRegistry(reg)
    ensures ShowsStored(fp, reg, row, side, {}, AuditView(reg, row))
  {
    var d := AuditView(reg, row);
    assert OfSide(side, PublicKey(side, "provider"));
    AuditViewAt(reg, row, side, PublicKey(side, "provider"));
    if Stores(row, side) && row[PublicKey(side, "provider")].text in reg {
      forall f | f in reg[row[PublicKey(side, "provider")].text].fields
                 && (!f.secret || Truthy(Get(row, SecretKey(side, f.name))))
        ensures PublicKey(side, f.name) in d
        ensures d[PublicKey(side, f.name)] == (if f.secret then Text("<existing>")
            else AuditText(row, PublicKey(side, f.name)))
      {
        AuditSideShows(reg, row, side, f);
        assert OfSide(side, PublicKey(side, f.name));
        AuditViewAt(reg, row, side, PublicKey(side, f.name));
      }
    }
  }

  // ---- The record of an update ----

  function PayloadOf(side: Side, inference: Option<Payload>, embedding: Option<Payload>): Option<Payload> {
    if side.Inference? then inference else embedding
  }

  function NamesSent(reg: Providers, inference: Option<Payload>, embedding: Option<Payload>): seq<string> {
    Admin.SecretsOptional(reg, Inference, inference) + Admin.SecretsOptional(reg, Embedding, embedding)
  }

  lemma NamesAreOfSides(reg: Providers, inference: Option<Payload>, embedding: Option<Payload>, side: Side, key: string)
    requires OfSide(side, key)
    ensures key in NamesSent(reg, inference, embedding)
       <==> key in Admin.SecretsOptional(reg, side, PayloadOf(side, inference, embedding))
  {
    SidesAreDisjoint(side, key);
    var other := PayloadOf(Other(side), inference, embedding);
    if key in Admin.SecretsOptional(reg, Other(side), other) {
      SecretsAreOfSide(Other(side), ResolveProvider(reg, other.value).value.fields, other.value, key);
    }
  }

  function AfterBoth(reg: Providers, doc: Doc, inference: Option<Payload>, embedding: Option<Payload>): Doc {
    Admin.AfterOptional(reg, Admin.AfterOptional(reg, doc, Inference, inference), Embedding, embedding)
  }

  lemma AfterOptionalKeeps(reg: Providers, doc: Doc, side: Side, payload: Option<Payload>, key: string)
    requires !OfSide(side, key)
    ensures key in Admin.AfterOptional(reg, doc, side, payload) <==> key in doc
    ensures key in doc ==> Admin.AfterOptional(reg, doc, side, payload)[key] == doc[key]
  {
    if payload.Some? && ResolveProvider(reg, payload.value).Ok? {
      AfterKeepsOtherSide(doc, side, ResolveProvider(reg, payload.value).value, payload.value, key);
    }
  }

  /** On a key of one side the after document is that side's alone. */
  lemma AfterBothAt(reg: Providers, doc: Doc, inference: Option<Payload>, embedding: Option<Payload>, side: Side,
                    key: string)
    requires OfSide(side, key)
    ensures var own := Admin.AfterOptional(reg, doc, side, PayloadOf(side, inference, embedding));
      && (key in AfterBoth(reg, doc, inference, embedding) <==> key in own)
      && (key in own ==> AfterBoth(reg, doc, inference, embedding)[key] == own[key])
  {
    SidesAreDisjoint(side, key);
    if side.Inference? {
      AfterOptionalKeeps(reg, Admin.AfterOptional(reg, doc, Inference, inference), Embedding, embedding, key);
    } else {
      AfterOptionalKeeps(reg, doc, Inference, inference, key);
      AfterSideReads(reg, Admin.AfterOptional(reg, doc, Inference, inference), doc, Embedding, embedding, key);
    }
  }

  lemma AfterSideReads(reg: Providers, d: Doc, e: Doc, side: Side, payload: Option<Payload>, key: string)
    requires key in d <==> key in e
    requires key in d ==> d[key] == e[key]
    ensures var x, y := Admin.AfterOptional(reg, d, side, payload), Admin.AfterOptional(reg, e, side, payload);
      (key in x <==> key in y) && (key in x ==> x[key] == y[key])
  {
    if payload.Some? && ResolveProvider(reg, payload.value).Ok? {
      var provider := ResolveProvider(reg, payload.value).value;
      var k := PublicKey(side, "provider");
      AfterFieldsRead(d[k := Text(provider.id)], e[k := Text(provider.id)], side, provider.fields, payload.value, key);
    }
  }

  lemma {:induction false} AfterFieldsRead(d: Doc, e: Doc, side: Side, fields: seq<Field>, payload: Payload,
                                           key: string)
    requires key in d <==> key in e
    requires key in d ==> d[key] == e[key]
    ensures var x, y := AfterFields(d, side, fields, payload), AfterFields(e, side, fields, payload);
      (key in x <==> key in y) && (key in x ==> x[key] == y[key])
  {
    if |fields| > 0 {
      AfterFieldsRead(d, e, side, fields[..|fields| - 1], payload, key);
    }
  }

  lemma ShowsSideReads(fp: Fingerprint, d: Doc, e: Doc, side: Side, provider: Provider, payload: Payload)
    requires ShowsSide(fp, d, side, provider, payload)
    requires forall key :: OfSide(side, key) && key in d ==> key in e && e[key] == d[key]
    ensures ShowsSide(fp, e, side, provider, payload)
  {
    assert OfSide(side, PublicKey(side, "provider"));
    forall f | f in provider.fields ensures OfSide(side, PublicKey(side, f.name)) {
    }
  }

  lemma MaskKeepsSide(fp: Fingerprint, d: Doc, e: Doc, names: seq<string>, side: Side)
    requires forall key :: OfSide(side, key) && key in d ==> key in e && e[key] == d[key]
    ensures forall key :: OfSide(side, key) && key in Mask(fp, d, names) ==>
              key in Mask(fp, e, names) && Mask(fp, e, names)[key] == Mask(fp, d, names)[key]
  {
  }

  lemma SentSideShows(reg: Providers, fp: Fingerprint, doc: Doc, inference: Option<Payload>,
                      embedding: Option<Payload>, side: Side)
    requires WellFormedRegistry(reg)
    requires var payload := PayloadOf(side, inference, embedding);
      payload.Some? && ResolveProvider(reg, payload.value).Ok?
    ensures var payload := PayloadOf(side, inference, embedding).value;
      ShowsSide(fp, Mask(fp, AfterBoth(reg, doc, inference, embedding), NamesSent(reg, inference, embedding)), side,
                ResolveProvider(reg, payload).value, payload)
  {
    var payload := PayloadOf(side, inference, embedding).value;
    var provider := ResolveProvider(reg, payload).value;
    var names := NamesSent(reg, inference, embedding);
    var own, both := After(doc, side, provider, payload), AfterBoth(reg, doc, inference, embedding);
    forall key | OfSide(side, key) ensures key in names <==> key in SecretsSent(side, provider.fields, payload) {
      NamesAreOfSides(reg, inference, embedding, side, key);
    }
    AfterShowsSide(fp, doc, side, provider, payload, names);
    forall key | OfSide(side, key) && key in own ensures key in both && both[key] == own[key] {
      AfterBothAt(reg, doc, inference, embedding, side, key);
    }
    MaskKeepsSide(fp, own, both, names, side);
    ShowsSideReads(fp, Mask(fp, own, names), Mask(fp, both, names), side, provider, payload);
  }

  /** A record of the actor's update at `now`, over these two documents. */
  ghost predicate Records(e: Record, actor: Admin.Actor, now: int) {
    && e.ts == now && e.actorSub == actor.sub && e.actorUsername == actor.username
    && e.action == "llm.update" && e.targetId == "default" && e.before.Some? && e.after.Some?
  }

  /**
   An accepted update logs who and when. Before it, the log shows each stored side; after it,
   each side sent as it was sent, and a side not sent as before. What stands under the name
   of a secret sent is masked in both.
   */
  lemma LlmIsLogged(env: Admin.Env, t: Admin.Tables, actor: Admin.Actor, inference: Option<Payload>,
                    embedding: Option<Payload>, now: int, side: Side)
    requires WellFormedRegistry(env.providers)
    requires Admin.UpdateLlmConfig(env, t, actor, inference, embedding, now).1.Ok?
    ensures var t', payload := Admin.UpdateLlmConfig(env, t, actor, inference, embedding, now).0,
        PayloadOf(side, inference, embedding);
      && |t'.audit| == |t.audit| + 1
      && var e := t'.audit[|t.audit|];
         && Records(e, actor, now)
         && ShowsStored(env.fp, env.providers, t.llm, side, SecretsGiven(env.providers, payload), e.before.value)
         && (payload.Some? ==>
               Accepted(env.providers, t.llm, side, payload.value)
               && ShowsSide(env.fp, e.after.value, side, env.providers[payload.value["provider"].value], payload.value))
         && (payload.None? ==> ShowsStored(env.fp, env.providers, t.llm, side, {}, e.after.value))
  {
    var reg, view := env.providers, AuditView(env.providers, t.llm);
    var payload := PayloadOf(side, inference, embedding);
    UpdateLlmOutcome(env, t, actor, inference, embedding, now);
    StoredSideShows(reg, env.fp, t.llm, inference, embedding, side);
    if payload.Some? {
      SentSideShows(reg, env.fp, view, inference, embedding, side);
    } else {
      UnsentSideShows(reg, env.fp, t.llm, inference, embedding, side);
    }
  }

  predicate SendsSecret(fields: seq<Field>, payload: Payload, name: string) {
    exists f :: f in fields && f.name == name && f.secret && Sent(payload, name).Some?
  }

  lemma SecretSentIff(side: Side, fields: seq<Field>, payload: Payload, name: string)
    requires WellFormed(fields)
    ensures PublicKey(side, name) in SecretsSent(side, fields, payload) <==> SendsSecret(fields, payload, name)
  {
    assert fields[..|fields|] == fields;
    if PublicKey(side, name) in SecretsSent(side, fields, payload) {
      SecretsAreFields(side, fields, payload, PublicKey(side, name));
      var f :| f in fields && PublicKey(side, name) == PublicKey(side, f.name);
      PrefixCancels(Prefix(side), f.name, name);
      var i :| 0 <= i < |fields| && fields[i] == f;
      SecretsSentNames(side, fields, |fields|, payload, i);
    }
    if SendsSecret(fields, payload, name) {
      var i :| 0 <= i < |fields| && fields[i].name == name && fields[i].secret;
      SecretsSentNames(side, fields, |fields|, payload, i);
    }
  }

  lemma GivenIff(reg: Providers, payload: Payload, name: string)
    requires ResolveProvider(reg, payload).Ok?
    ensures name in SecretsGiven(reg, Some(payload))
       <==> SendsSecret(ResolveProvider(reg, payload).value.fields, payload, name)
  {
  }

  lemma NameIsGiven(reg: Providers, inference: Option<Payload>, embedding: Option<Payload>, side: Side, name: string)
    requires WellFormedRegistry(reg)
    ensures PublicKey(side, name) in NamesSent(reg, inference, embedding)
       <==> name in SecretsGiven(reg, PayloadOf(side, inference, embedding))
  {
    var payload := PayloadOf(side, inference, embedding);
    NamesAreOfSides(reg, inference, embedding, side, PublicKey(side, name));
    if payload.Some? && ResolveProvider(reg, payload.value).Ok? {
      SecretSentIff(side, ResolveProvider(reg, payload.value).value.fields, payload.value, name);
      GivenIff(reg, payload.value, name);
    }
  }

  /** Masking a view that shows the stored side hides the names given, the provider's never among them. */
  lemma MaskedShows(fp: Fingerprint, reg: Providers, row: Row, side: Side, hidden: set<string>, d: Doc,
                    names: seq<string>)
    requires ShowsStored(fp, reg, row, side, {}, d) && "provider" !in hidden
    requires forall name :: PublicKey(side, name) in names <==> name in hidden
    ensures ShowsStored(fp, reg, row, side, hidden, Mask(fp, d, names))
  {
  }

  lemma StoredSideShows(reg: Providers, fp: Fingerprint, row: Row, inference: Option<Payload>,
                        embedding: Option<Payload>, side: Side)
    requires WellFormedRegistry(reg)
    ensures ShowsStored(fp, reg, row, side, SecretsGiven(reg, PayloadOf(side, inference, embedding)),
                        Mask(fp, AuditView(reg, row), NamesSent(reg, inference, embedding)))
  {
    var hidden := SecretsGiven(reg, PayloadOf(side, inference, embedding));
    AuditViewShows(fp, reg, row, side);
    forall name ensures PublicKey(side, name) in NamesSent(reg, inference, embedding) <==> name in hidden {
      NameIsGiven(reg, inference, embedding, side, name);
    }
    MaskedShows(fp, reg, row, side, hidden, AuditView(reg, row), NamesSent(reg, inference, embedding));
  }

  lemma UnsentSideShows(reg: Providers, fp: Fingerprint, row: Row, inference: Option<Payload>,
                        embedding: Option<Payload>, side: Side)
    requires WellFormedRegistry(reg) && PayloadOf(side, inference, embedding).None?
    ensures var view, names := AuditView(reg, row), NamesSent(reg, inference, embedding);
      ShowsStored(fp, reg, row, side, {}, Mask(fp, AfterBoth(reg, view, inference, embedding), names))
  {
    var view, names := AuditView(reg, row), NamesSent(reg, inference, embedding);
    AuditViewShows(fp, reg, row, side);
    forall key | OfSide(side, key) && key in view
      ensures key !in names
      ensures key in AfterBoth(reg, view, inference, embedding)
      ensures AfterBoth(reg, view, inference, embedding)[key] == view[key]
    {
      NamesAreOfSides(reg, inference, embedding, side, key);
      AfterBothAt(reg, view, inference, embedding, side, key);
    }
    ShowsStoredReads(fp, reg, row, side, view, Mask(fp, AfterBoth(reg, view, inference, embedding), names));
  }

  lemma ShowsStoredReads(fp: Fingerprint, reg: Providers, row: Row, side: Side, d: Doc, e: Doc)
    requires ShowsStored(fp, reg, row, side, {}, d)
    requires forall key :: OfSide(side, key) && key in d ==> key in e && e[key] == d[key]
    ensures ShowsStored(fp, reg, row, side, {}, e)
  {
    assert OfSide(side, PublicKey(side, "provider"));
    assert forall name: string :: OfSide(side, PublicKey(side, name));
  }

  // ---- The view ----

  function Texted(row: Row, key: string): LlmConfig.Shown {
    if key !in row then ShownText("") else if row[key].Public? then ShownText(row[key].text) else ShownNull
  }

  /** The provider's entry, and one of each field: its stored text, or whether a secret is stored. */
  ghost predicate ShowsFields(row: Row, side: Side, fields: seq<Field>, provider: string, view: SideView) {
    && view.Keys == {"provider"} + ViewNames(fields) && view["provider"] == ShownText(provider)
    && (forall f :: f in fields && !f.secret ==>
          f.name in view && view[f.name] == Texted(row, PublicKey(side, f.name)))
    && (forall f :: f in fields && f.secret ==>
          f.name + "_set" in view
          && view[f.name + "_set"] == ShownFlag(Truthy(Get(row, SecretKey(side, f.name)))))
  }

  lemma FieldIsRendered(row: Row, side: Side, fields: seq<Field>, f: Field)
    requires WellFormed(fields) && f in fields
    ensures ViewName(f) != "provider" && ViewName(f) in RenderFields(row, side, fields)
    ensures RenderFields(row, side, fields)[ViewName(f)] == ViewValue(row, side, f)
  {
    var i :| 0 <= i < |fields| && fields[i] == f;
    ViewsAreDistinct(fields);
    RenderedField(row, side, fields, i);
    ViewNameIsNotProvider(fields, f);
  }

  lemma FieldsAreRendered(row: Row, side: Side, fields: seq<Field>, provider: string)
    requires WellFormed(fields)
    ensures ShowsFields(row, side, fields, provider,
                        map["provider" := ShownText(provider)] + RenderFields(row, side, fields))
  {
    RenderedNames(row, side, fields);
    forall f | f in fields
      ensures ViewName(f) != "provider" && ViewName(f) in RenderFields(row, side, fields)
      ensures RenderFields(row, side, fields)[ViewName(f)] == ViewValue(row, side, f)
    {
      FieldIsRendered(row, side, fields, f);
    }
  }

  /**
   A side is shown by the provider stored: when the catalogue has it, by its fields, a public
   one as stored and a secret one as whether something is; otherwise by model and base URL.
   */
  lemma ViewOutcome(reg: Providers, row: Row, side: Side)
    requires WellFormedRegistry(reg)
    ensures var view, key := RenderSide(reg, row, side), PublicKey(side, "provider");
      if Stores(row, side) && row[key].text in reg then
        ShowsFields(row, side, reg[row[key].text].fields, row[key].text, view)
      else
        && view.Keys == {"provider", "model", "base_url"}
        && view["provider"] == (if Stores(row, side) then ShownText(row[key].text) else ShownNull)
        && view["model"] == Texted(row, PublicKey(side, "model"))
        && view["base_url"] == Texted(row, PublicKey(side, "base_url"))
  {
    var key := PublicKey(side, "provider");
    if Stores(row, side) && row[key].text in reg {
      FieldsAreRendered(row, side, reg[row[key].text].fields, row[key].text);
    }
  }
}
