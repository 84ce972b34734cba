/**
 The two sides of the LLM configuration as two independent lenses on one flat row, for
 any registry whose field names cannot be confused with one another.
 */
module LlmLens {
  import opened Wrappers
  import opened Registry
  import opened LlmConfig

  ghost predicate WellFormed(fields: seq<Field>) {
    && DistinctNames(fields)
    && (forall f :: f in fields ==> f.name != "provider")
    && (forall f, g :: f in fields && g in fields ==> f.name != g.name + "_encrypted" && f.name != g.name + "_set")
  }

  ghost predicate WellFormedRegistry(reg: Providers) {
    forall id :: id in reg ==> reg[id].id == id && WellFormed(reg[id].fields)
  }

  /** Names of five to eight letters are shorter than any of them with a suffix. */
  lemma ShortNamesAreWellFormed(fields: seq<Field>)
    requires DistinctNames(fields)
    requires forall f :: f in fields ==> 5 <= |f.name| <= 8 && f.name != "provider"
    ensures WellFormed(fields)
  {
    assert |"_encrypted"| == 10 && |"_set"| == 4;
  }

  lemma ShippedRegistryIsWellFormed()
    ensures WellFormedRegistry(LLM_PROVIDERS)
  {
    forall id | id in LLM_PROVIDERS
      ensures LLM_PROVIDERS[id].id == id && WellFormed(LLM_PROVIDERS[id].fields)
    {
      ShortNamesAreWellFormed(LLM_PROVIDERS[id].fields);
    }
  }

  // ---- Keys ----

  lemma PrefixCancels(p: string, x: string, y: string)
    requires p + x == p + y
    ensures x == y
  {
    assert x == (p + x)[|p|..] && y == (p + y)[|p|..];
  }

  lemma SuffixCancels(x: string, y: string, s: string)
    requires x + s == y + s
    ensures x == y
  {
    assert |x| == |y|;
    assert x == (x + s)[..|x|] && y == (y + s)[..|y|];
  }

  /** On one side, different fields are stored under different keys, and none under `provider`. */
  lemma FieldKeysDiffer(side: Side, fields: seq<Field>, f: Field, g: Field)
    requires WellFormed(fields) && f in fields && g in fields
    ensures KeyOf(side, f) == KeyOf(side, g) ==> f == g
    ensures KeyOf(side, f) != PublicKey(side, "provider")
  {
    var p := Prefix(side);
    if KeyOf(side, f) == KeyOf(side, g) {
      var x := if f.secret then f.name + "_encrypted" else f.name;
      var y := if g.secret then g.name + "_encrypted" else g.name;
      assert KeyOf(side, f) == p + x && KeyOf(side, g) == p + y;
      PrefixCancels(p, x, y);
      if f.secret && g.secret { SuffixCancels(f.name, g.name, "_encrypted"); }
      assert f.name == g.name;
    }
    var z := if f.secret then f.name + "_encrypted" else f.name;
    assert KeyOf(side, f) == p + z && |"_encrypted"| > |"provider"|;
    assert z != "provider";
    if KeyOf(side, f) == PublicKey(side, "provider") {
      PrefixCancels(p, z, "provider");
    }
  }

  predicate OfSide(side: Side, key: string) {
    Prefix(side) <= key
  }

  function Other(side: Side): Side {
    if side.Inference? then Embedding else Inference
  }

  lemma SidesAreDisjoint(side: Side, key: string)
    requires OfSide(side, key)
    ensures !OfSide(Other(side), key)
  {
    var p, q := Prefix(side), Prefix(Other(side));
    assert p[0] != q[0] && key[0] == p[0];
    assert q <= key <==> |q| <= |key| && q == key[..|q|];
    assert |q| <= |key| ==> key[..|q|][0] == key[0];
  }

  // ---- Writes ----

  /** Present in both with the same value, or absent from both. */
  predicate SameAt(a: Row, b: Row, key: string) {
    (key in a <==> key in b) && (key in a ==> a[key] == b[key])
  }

  lemma OtherKeyStays(row: Row, side: Side, f: Field, payload: Payload, key: string)
    requires KeyOf(side, f) != key
    ensures SameAt(ApplyField(row, side, f, payload), row, key)
  {
  }

  lemma OwnKeyIsWritten(row: Row, side: Side, f: Field, payload: Payload)
    ensures Get(ApplyField(row, side, f, payload), KeyOf(side, f)) == FieldValue(row, side, f, payload)
    ensures !f.secret ==> KeyOf(side, f) in ApplyField(row, side, f, payload)
  {
  }

  lemma {:induction false} UnwrittenKeysStay(row: Row, side: Side, fields: seq<Field>, payload: Payload, key: string)
    requires forall f :: f in fields ==> KeyOf(side, f) != key
    ensures SameAt(ApplyFields(row, side, fields, payload), row, key)
  {
    if |fields| > 0 {
      assert fields[|fields| - 1] in fields;
      UnwrittenKeysStay(row, side, fields[..|fields| - 1], payload, key);
      OtherKeyStays(ApplyFields(row, side, fields[..|fields| - 1], payload), side, fields[|fields| - 1], payload, key);
    }
  }

  function FieldValue(row: Row, side: Side, f: Field, payload: Payload): Stored {
    var v := Sent(payload, f.name);
    if !f.secret then Public(Cleaned(v))
    else if v.None? then Get(row, SecretKey(side, f.name))
    else if v.value == "" then Absent
    else Encrypted(v.value)
  }

  lemma LastKeyIsUnwritten(row: Row, side: Side, fields: seq<Field>, payload: Payload, all: seq<Field>)
    requires WellFormed(all) && fields <= all && |fields| > 0
    ensures var front, f := fields[..|fields| - 1], fields[|fields| - 1];
      SameAt(ApplyFields(row, side, front, payload), row, KeyOf(side, f))
  {
    var front, f := fields[..|fields| - 1], fields[|fields| - 1];
    assert f == all[|fields| - 1];
    forall g | g in front ensures KeyOf(side, g) != KeyOf(side, f) {
      var i :| 0 <= i < |front| && front[i] == g;
      assert all[i] == g;
      FieldKeysDiffer(side, all, f, g);
    }
    UnwrittenKeysStay(row, side, front, payload, KeyOf(side, f));
  }

  lemma {:induction false} WrittenKeys(row: Row, side: Side, fields: seq<Field>, payload: Payload, all: seq<Field>,
                                       f: Field)
    requires WellFormed(all) && fields <= all && f in fields
    ensures Get(ApplyFields(row, side, fields, payload), KeyOf(side, f)) == FieldValue(row, side, f, payload)
    ensures !f.secret ==> KeyOf(side, f) in ApplyFields(row, side, fields, payload)
  {
    var front := fields[..|fields| - 1];
    var last := fields[|fields| - 1];
    assert last == all[|fields| - 1];
    if f == last {
      LastKeyIsUnwritten(row, side, fields, payload, all);
      OwnKeyIsWritten(ApplyFields(row, side, front, payload), side, f, payload);
    } else {
      assert f in front && f in all;
      WrittenKeys(row, side, front, payload, all, f);
      FieldKeysDiffer(side, all, f, last);
      OtherKeyStays(ApplyFields(row, side, front, payload), side, last, payload, KeyOf(side, f));
    }
  }

  lemma OtherSideStays(row: Row, side: Side, provider: Provider, payload: Payload, key: string)
    requires !OfSide(side, key)
    ensures SameAt(Written(row, side, provider, payload), row, key)
  {
    assert forall f :: f in provider.fields ==> OfSide(side, KeyOf(side, f));
    assert OfSide(side, PublicKey(side, "provider"));
    UnwrittenKeysStay(row[PublicKey(side, "provider") := Public(provider.id)], side, provider.fields, payload, key);
  }

  // ---- Rendering reads one side only ----

  lemma {:induction false} RenderFieldsReads(a: Row, b: Row, side: Side, fields: seq<Field>)
    requires forall key :: OfSide(side, key) ==> SameAt(a, b, key)
    ensures RenderFields(a, side, fields) == RenderFields(b, side, fields)
  {
    if |fields| > 0 {
      var f := fields[|fields| - 1];
      RenderFieldsReads(a, b, side, fields[..|fields| - 1]);
      assert OfSide(side, PublicKey(side, f.name)) && OfSide(side, SecretKey(side, f.name));
    }
  }

  lemma RenderReadsOneSide(reg: Providers, a: Row, b: Row, side: Side)
    requires forall key :: OfSide(side, key) ==> SameAt(a, b, key)
    ensures RenderSide(reg, a, side) == RenderSide(reg, b, side)
  {
    assert OfSide(side, PublicKey(side, "provider")) && OfSide(side, PublicKey(side, "model"));
    assert OfSide(side, PublicKey(side, "base_url"));
    var provider := Get(a, PublicKey(side, "provider"));
    if provider.Public? && provider.text in reg {
      RenderFieldsReads(a, b, side, reg[provider.text].fields);
    }
  }

  /** Updating one side leaves every stored key outside it, and the other side's view, as they were. */
  lemma UpdateLeavesOtherSide(reg: Providers, row: Row, side: Side, payload: Payload)
    requires UpdateSide(reg, row, side, payload).Ok?
    ensures var row' := UpdateSide(reg, row, side, payload).value;
      && (forall key :: !OfSide(side, key) ==> SameAt(row', row, key))
      && RenderSide(reg, row', Other(side)) == RenderSide(reg, row, Other(side))
  {
    var provider := Validate(reg, row, side, payload).value;
    var row' := Written(row, side, provider, payload);
    forall key | !OfSide(side, key) ensures SameAt(row', row, key) {
      OtherSideStays(row, side, provider, payload, key);
    }
    forall key | OfSide(Other(side), key) ensures SameAt(row', row, key) {
      SidesAreDisjoint(Other(side), key);
    }
    RenderReadsOneSide(reg, row', row, Other(side));
  }

  // ---- What was put is what is read ----

  lemma ViewNamesDiffer(fields: seq<Field>, f: Field, g: Field)
    requires WellFormed(fields) && f in fields && g in fields && f != g
    ensures ViewName(f) != ViewName(g)
  {
    if f.secret && g.secret && ViewName(f) == ViewName(g) {
      SuffixCancels(f.name, g.name, "_set");
    }
  }

  lemma ViewNameIsNotProvider(fields: seq<Field>, f: Field)
    requires WellFormed(fields) && f in fields
    ensures ViewName(f) != "provider"
  {
    var x := f.name + "_set";
    assert x[|x| - 1] == 't';
  }

  ghost predicate DistinctViews(fields: seq<Field>) {
    forall i, j :: 0 <= i < j < |fields| ==> ViewName(fields[i]) != ViewName(fields[j])
  }

  lemma ViewsAreDistinct(fields: seq<Field>)
    requires WellFormed(fields)
    ensures DistinctViews(fields)
  {
    forall i, j | 0 <= i < j < |fields| ensures ViewName(fields[i]) != ViewName(fields[j]) {
      assert fields[i] in fields && fields[j] in fields;
      ViewNamesDiffer(fields, fields[i], fields[j]);
    }
  }

  function ViewNames(fields: seq<Field>): set<string> {
    set f | f in fields :: ViewName(f)
  }

  lemma {:induction false} RenderedNames(row: Row, side: Side, fields: seq<Field>)
    ensures RenderFields(row, side, fields).Keys == ViewNames(fields)
  {
    if |fields| > 0 {
      var front, last := fields[..|fields| - 1], fields[|fields| - 1];
      RenderedNames(row, side, front);
      assert fields == front + [last];
      assert ViewNames(fields) == ViewNames(front) + {ViewName(last)};
    }
  }

  lemma {:induction false} RenderedField(row: Row, side: Side, fields: seq<Field>, i: nat)
    requires DistinctViews(fields) && i < |fields|
    ensures ViewName(fields[i]) in RenderFields(row, side, fields)
    ensures RenderFields(row, side, fields)[ViewName(fields[i])] == ViewValue(row, side, fields[i])
  {
    if i < |fields| - 1 {
      var front := fields[..|fields| - 1];
      assert DistinctViews(front) && front[i] == fields[i];
      RenderedField(row, side, front, i);
      assert ViewName(fields[i]) != ViewName(fields[|fields| - 1]);
    }
  }

  /** What the view should show for a field after a payload was accepted over `row`. */
  function Expected(row: Row, side: Side, f: Field, payload: Payload): Shown {
    var v := Sent(payload, f.name);
    if !f.secret then ShownText(Cleaned(v))
    else if v.Some? then ShownFlag(v.value != "")
    else ShownFlag(Truthy(Get(row, SecretKey(side, f.name))))
  }

  lemma FieldReadsBack(row: Row, side: Side, provider: Provider, payload: Payload, f: Field)
    requires WellFormed(provider.fields) && f in provider.fields
    ensures ViewValue(Written(row, side, provider, payload), side, f) == Expected(row, side, f, payload)
  {
    var start := row[PublicKey(side, "provider") := Public(provider.id)];
    WrittenKeys(start, side, provider.fields, payload, provider.fields, f);
    FieldKeysDiffer(side, provider.fields, f, f);
  }

  lemma ProviderReadsBack(row: Row, side: Side, provider: Provider, payload: Payload)
    requires WellFormed(provider.fields)
    ensures Get(Written(row, side, provider, payload), PublicKey(side, "provider")) == Public(provider.id)
  {
    var start := row[PublicKey(side, "provider") := Public(provider.id)];
    forall f | f in provider.fields ensures KeyOf(side, f) != PublicKey(side, "provider") {
      FieldKeysDiffer(side, provider.fields, f, f);
    }
    UnwrittenKeysStay(start, side, provider.fields, payload, PublicKey(side, "provider"));
  }

  /**
   The updated side reads back the cleaned payload: the provider sent, each public field
   as sent or empty, and each secret's flag true exactly when a non-empty value was sent,
   or none was sent and one was stored.
   */
  lemma UpdatedSideReadsBack(reg: Providers, row: Row, side: Side, payload: Payload)
    requires WellFormedRegistry(reg)
    requires UpdateSide(reg, row, side, payload).Ok?
    ensures var view := RenderSide(reg, UpdateSide(reg, row, side, payload).value, side);
      var provider := Validate(reg, row, side, payload).value;
      && Sent(payload, "provider") == Some(provider.id)
      && view.Keys == {"provider"} + ViewNames(provider.fields)
      && view["provider"] == ShownText(provider.id)
      && (forall f :: f in provider.fields ==> view[ViewName(f)] == Expected(row, side, f, payload))
  {
    var provider := AcceptedProvider(reg, row, side, payload);
    WrittenReadsBack(reg, row, side, provider, payload);
  }

  lemma AcceptedProvider(reg: Providers, row: Row, side: Side, payload: Payload) returns (provider: Provider)
    requires WellFormedRegistry(reg)
    requires Validate(reg, row, side, payload).Ok?
    ensures Validate(reg, row, side, payload) == Ok(provider)
    ensures provider.id in reg && reg[provider.id] == provider && Sent(payload, "provider") == Some(provider.id)
  {
    provider := Validate(reg, row, side, payload).value;
  }

  lemma WrittenReadsBack(reg: Providers, row: Row, side: Side, provider: Provider, payload: Payload)
    requires provider.id in reg && reg[provider.id] == provider && WellFormed(provider.fields)
    ensures var view := RenderSide(reg, Written(row, side, provider, payload), side);
      && view.Keys == {"provider"} + ViewNames(provider.fields)
      && view["provider"] == ShownText(provider.id)
      && (forall f :: f in provider.fields ==> view[ViewName(f)] == Expected(row, side, f, payload))
  {
    var row' := Written(row, side, provider, payload);
    ProviderReadsBack(row, side, provider, payload);
    RenderedNames(row', side, provider.fields);
    forall f | f in provider.fields
      ensures ViewName(f) != "provider" && ViewName(f) in RenderFields(row', side, provider.fields)
      ensures RenderFields(row', side, provider.fields)[ViewName(f)] == Expected(row, side, f, payload)
    {
      FieldIsShown(row, side, provider, payload, f);
    }
    assert "provider" !in ViewNames(provider.fields);
  }

  lemma FieldIsShown(row: Row, side: Side, provider: Provider, payload: Payload, f: Field)
    requires WellFormed(provider.fields) && f in provider.fields
    ensures ViewName(f) != "provider"
    ensures var shown := RenderFields(Written(row, side, provider, payload), side, provider.fields);
      ViewName(f) in shown && shown[ViewName(f)] == Expected(row, side, f, payload)
  {
    var i :| 0 <= i < |provider.fields| && provider.fields[i] == f;
    ViewsAreDistinct(provider.fields);
    RenderedField(Written(row, side, provider, payload), side, provider.fields, i);
    ViewNameIsNotProvider(provider.fields, f);
    FieldReadsBack(row, side, provider, payload, f);
  }

  /** An accepted update leaves a required secret set, unless it was sent empty: that clears it. */
  lemma WhenRequiredSecretIsSet(reg: Providers, row: Row, side: Side, payload: Payload, f: Field)
    requires WellFormedRegistry(reg)
    requires UpdateSide(reg, row, side, payload).Ok?
    requires f in Validate(reg, row, side, payload).value.fields && f.required && f.secret
    ensures Truthy(Get(UpdateSide(reg, row, side, payload).value, SecretKey(side, f.name)))
       <==> Sent(payload, f.name) != Some("")
  {
    var provider := Validate(reg, row, side, payload).value;
    WrittenKeys(row[PublicKey(side, "provider") := Public(provider.id)], side, provider.fields, payload,
        provider.fields, f);
    FieldKeysDiffer(side, provider.fields, f, f);
    assert !LacksRequired(row, side, f, payload);
  }

  /** An empty required secret is accepted over a stored one, and clears it. */
  lemma EmptyRequiredSecretIsAccepted()
    ensures var row: Row := map["inference_provider" := Public("openai"),
        "inference_api_key_encrypted" := Encrypted("k")];
      var payload: Payload := map["provider" := Some("openai"), "model" := Some("m"), "api_key" := Some("")];
      var updated := UpdateSide(LLM_PROVIDERS, row, Inference, payload);
      && Field("api_key", true, true) in LLM_PROVIDERS["openai"].fields
      && Truthy(Get(row, SecretKey(Inference, "api_key")))
      && updated.Ok? && !Truthy(Get(updated.value, SecretKey(Inference, "api_key")))
  {
    var row: Row := map["inference_provider" := Public("openai"), "inference_api_key_encrypted" := Encrypted("k")];
    var payload: Payload := map["provider" := Some("openai"), "model" := Some("m"), "api_key" := Some("")];
    var provider := LLM_PROVIDERS["openai"];
    var fields := provider.fields;
    assert SecretKey(Inference, "api_key") == "inference_api_key_encrypted";
    assert fields[0].name == "base_url" && fields[1].name == "model" && fields[2].name == "api_key";
    assert fields[1] in fields && fields[2] in fields;
    assert payload.Keys <= Names(fields) + {"provider"};
    assert forall f :: f in fields ==> !LacksRequired(row, Inference, f, payload);
    assert Validate(LLM_PROVIDERS, row, Inference, payload) == Ok(provider);
    ShippedRegistryIsWellFormed();
    WhenRequiredSecretIsSet(LLM_PROVIDERS, row, Inference, payload, fields[2]);
  }

  // ---- The two updates commute ----

  lemma FieldPassesUpdate(row: Row, side: Side, f: Field, payload: Payload, key: string, v: Stored)
    requires KeyOf(side, f) != key
    ensures ApplyField(row[key := v], side, f, payload) == ApplyField(row, side, f, payload)[key := v]
  {
  }

  lemma {:induction false} FieldsPassUpdate(row: Row, side: Side, fields: seq<Field>, payload: Payload, key: string,
                                            v: Stored)
    requires !OfSide(side, key)
    ensures ApplyFields(row[key := v], side, fields, payload) == ApplyFields(row, side, fields, payload)[key := v]
  {
    if |fields| > 0 {
      var f := fields[|fields| - 1];
      FieldsPassUpdate(row, side, fields[..|fields| - 1], payload, key, v);
      assert OfSide(side, KeyOf(side, f));
      FieldPassesUpdate(ApplyFields(row, side, fields[..|fields| - 1], payload), side, f, payload, key, v);
    }
  }

  lemma WrittenPassesUpdate(row: Row, side: Side, provider: Provider, payload: Payload, key: string, v: Stored)
    requires !OfSide(side, key)
    ensures Written(row[key := v], side, provider, payload) == Written(row, side, provider, payload)[key := v]
  {
    var head := PublicKey(side, "provider");
    assert OfSide(side, head);
    assert row[key := v][head := Public(provider.id)] == row[head := Public(provider.id)][key := v];
    FieldsPassUpdate(row[head := Public(provider.id)], side, provider.fields, payload, key, v);
  }

  lemma {:induction false} WrittenPassesFields(row: Row, p: Provider, x: Payload, side: Side, fields: seq<Field>,
                                               y: Payload)
    ensures Written(ApplyFields(row, Other(side), fields, y), side, p, x)
         == ApplyFields(Written(row, side, p, x), Other(side), fields, y)
  {
    if |fields| > 0 {
      var f := fields[|fields| - 1];
      var front := fields[..|fields| - 1];
      WrittenPassesFields(row, p, x, side, front, y);
      var middle := ApplyFields(row, Other(side), front, y);
      var key := KeyOf(Other(side), f);
      assert OfSide(Other(side), key);
      SidesAreDisjoint(Other(side), key);
      if !f.secret || Sent(y, f.name).Some? {
        WrittenPassesUpdate(middle, side, p, x, key, ApplyField(middle, Other(side), f, y)[key]);
      }
    }
  }

  lemma WritesCommute(row: Row, side: Side, p: Provider, x: Payload, q: Provider, y: Payload)
    ensures Written(Written(row, side, p, x), Other(side), q, y) == Written(Written(row, Other(side), q, y), side, p, x)
  {
    var head := PublicKey(Other(side), "provider");
    assert OfSide(Other(side), head);
    SidesAreDisjoint(Other(side), head);
    WrittenPassesUpdate(row, side, p, x, head, Public(q.id));
    WrittenPassesFields(row[head := Public(q.id)], p, x, side, q.fields, y);
  }

  lemma {:induction false} LackingReadsOneSide(a: Row, b: Row, side: Side, fields: seq<Field>, payload: Payload)
    requires forall key :: OfSide(side, key) ==> SameAt(a, b, key)
    ensures FirstLacking(a, side, fields, payload) == FirstLacking(b, side, fields, payload)
  {
    if |fields| > 0 {
      assert OfSide(side, SecretKey(side, fields[0].name));
      LackingReadsOneSide(a, b, side, fields[1..], payload);
    }
  }

  lemma ValidateReadsOneSide(reg: Providers, a: Row, b: Row, side: Side, payload: Payload)
    requires forall key :: OfSide(side, key) ==> SameAt(a, b, key)
    ensures Validate(reg, a, side, payload) == Validate(reg, b, side, payload)
  {
    if ResolveProvider(reg, payload).Ok? {
      LackingReadsOneSide(a, b, side, ResolveProvider(reg, payload).value.fields, payload);
    }
  }

  /** Either order of the two side updates is accepted alike and gives the same row. */
  lemma SideUpdatesCommute(reg: Providers, row: Row, x: Payload, y: Payload)
    ensures var viaInference := UpdateSide(reg, row, Inference, x);
      var viaEmbedding := UpdateSide(reg, row, Embedding, y);
      && (viaInference.Ok? && viaEmbedding.Ok? ==>
            var both := UpdateSide(reg, viaInference.value, Embedding, y);
            both.Ok? && both == UpdateSide(reg, viaEmbedding.value, Inference, x))
      && (viaInference.Ok? && viaEmbedding.Err? ==>
            UpdateSide(reg, viaInference.value, Embedding, y) == viaEmbedding)
  {
    if UpdateSide(reg, row, Inference, x).Ok? {
      AcceptanceIsIndependent(reg, row, Inference, x, y);
      if UpdateSide(reg, row, Embedding, y).Ok? {
        AcceptanceIsIndependent(reg, row, Embedding, y, x);
        WritesCommute(row, Inference, Validate(reg, row, Inference, x).value, x,
                      Validate(reg, row, Embedding, y).value, y);
      }
    }
  }

  lemma AcceptanceIsIndependent(reg: Providers, row: Row, side: Side, x: Payload, y: Payload)
    requires UpdateSide(reg, row, side, x).Ok?
    ensures Validate(reg, UpdateSide(reg, row, side, x).value, Other(side), y) == Validate(reg, row, Other(side), y)
  {
    UpdateLeavesOtherSide(reg, row, side, x);
    var row' := UpdateSide(reg, row, side, x).value;
    forall key | OfSide(Other(side), key) ensures SameAt(row', row, key) {
      SidesAreDisjoint(Other(side), key);
    }
    ValidateReadsOneSide(reg, row', row, Other(side), y);
  }
}
