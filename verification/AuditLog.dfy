/**
 The admin audit log. Values under a secret name are recorded as a marker: whether a
 value is set, and its fingerprint under the audit pepper (a function parameter here).
 */
module AuditLog {
  import opened Wrappers

  datatype Value =
    | Null
    | Text(text: string)
    | Flag(flag: bool)
    | Roles(roles: map<string, seq<string>>)
    | Marker(isSet: bool, hmac: Option<string>)

  type Doc = map<string, Value>

  const EXISTING := Text("<existing>")

  datatype Record = Record(
    ts: int,
    actorSub: string,
    actorUsername: string,
    action: string,
    targetId: string,
    before: Option<Doc>,
    after: Option<Doc>)

  type Fingerprint = string -> string

  /** `str(value)`: only texts ever stand under a secret name. */
  function Shown(v: Value): string {
    match v
    case Text(s) => s
    case Flag(b) => if b then "True" else "False"
    case _ => "None"
  }

  function MarkSecret(fp: Fingerprint, v: Value): Value {
    if v == Null || v == Text("") then Marker(false, None)
    else Marker(true, Some(fp(Shown(v))))
  }

  function Mask(fp: Fingerprint, doc: Doc, secretFields: seq<string>): Doc {
    map k | k in doc :: if k in secretFields then MarkSecret(fp, doc[k]) else doc[k]
  }

  function MaskOptional(fp: Fingerprint, doc: Option<Doc>, secretFields: seq<string>): Option<Doc> {
    if doc.Some? then Some(Mask(fp, doc.value, secretFields)) else None
  }

  /** `_mask_secrets`: one pass over the entries, filling a new document. */
  method MaskSecrets(fp: Fingerprint, doc: Doc, secretFields: seq<string>) returns (out: Doc)
    ensures out.Keys == doc.Keys
    ensures forall k :: k in doc && k !in secretFields ==> out[k] == doc[k]
    ensures forall k :: k in doc && k in secretFields ==> out[k].Marker?
    ensures out == Mask(fp, doc, secretFields)
  {
    if |secretFields| == 0 {
      out := doc;
      return;
    }
    out := map[];
    var todo := doc.Keys;
    while todo != {}
      invariant todo <= doc.Keys
      invariant out.Keys == doc.Keys - todo
      invariant forall k :: k in out ==> out[k] == if k in secretFields then MarkSecret(fp, doc[k]) else doc[k]
      decreases todo
    {
      var k :| k in todo;
      out := out[k := if k in secretFields then MarkSecret(fp, doc[k]) else doc[k]];
      todo := todo - {k};
    }
  }

  function Masked(fp: Fingerprint, e: Record, secretFields: seq<string>): Record {
    e.(before := MaskOptional(fp, e.before, secretFields), after := MaskOptional(fp, e.after, secretFields))
  }

  // ---- Comparing logs up to fingerprints ----

  function EraseHmac(v: Value): Value {
    match v
    case Marker(isSet, _) => Marker(isSet, None)
    case _ => v
  }

  function EraseDoc(doc: Option<Doc>): Option<Doc> {
    if doc.Some? then Some(map k | k in doc.value :: EraseHmac(doc.value[k])) else None
  }

  function Erase(e: Record): Record {
    e.(before := EraseDoc(e.before), after := EraseDoc(e.after))
  }

  function EraseLog(log: seq<Record>): seq<Record> {
    seq(|log|, i requires 0 <= i < |log| => Erase(log[i]))
  }

  /** Two secret texts that the log may tell apart only by fingerprint, or, when `exact`, not at all. */
  predicate Alike(exact: bool, fp: Fingerprint, x: string, y: string) {
    (x == "" <==> y == "") && (exact ==> fp(x) == fp(y))
  }

  ghost predicate DocsAlike(exact: bool, fp: Fingerprint, x: Doc, y: Doc, secretFields: seq<string>) {
    && x.Keys == y.Keys
    && forall k :: k in x ==>
         x[k] == y[k]
         || (k in secretFields && x[k].Text? && y[k].Text? && Alike(exact, fp, x[k].text, y[k].text))
  }

  ghost predicate LogsAlike(exact: bool, x: seq<Record>, y: seq<Record>) {
    if exact then x == y else EraseLog(x) == EraseLog(y)
  }

  lemma MaskHidesSecrets(exact: bool, fp: Fingerprint, x: Doc, y: Doc, secretFields: seq<string>)
    requires DocsAlike(exact, fp, x, y, secretFields)
    ensures EraseDoc(Some(Mask(fp, x, secretFields))) == EraseDoc(Some(Mask(fp, y, secretFields)))
    ensures exact ==> Mask(fp, x, secretFields) == Mask(fp, y, secretFields)
  {
    var m, n := Mask(fp, x, secretFields), Mask(fp, y, secretFields);
    assert EraseDoc(Some(m)).value == EraseDoc(Some(n)).value by {
      assert m.Keys == n.Keys;
      forall k | k in m ensures EraseHmac(m[k]) == EraseHmac(n[k]) {
        assert x[k] == y[k] || k in secretFields;
      }
    }
  }

  ghost predicate OptionalAlike(exact: bool, fp: Fingerprint, x: Option<Doc>, y: Option<Doc>,
                                secretFields: seq<string>) {
    (x.Some? <==> y.Some?) && (x.Some? ==> DocsAlike(exact, fp, x.value, y.value, secretFields))
  }

  /** Appending two events that differ only in secret texts keeps the logs alike. */
  lemma RecordKeepsLogsAlike(exact: bool, fp: Fingerprint, x: seq<Record>, y: seq<Record>, e: Record, f: Record,
                             secretFields: seq<string>)
    requires LogsAlike(exact, x, y)
    requires e.(before := None, after := None) == f.(before := None, after := None)
    requires OptionalAlike(exact, fp, e.before, f.before, secretFields)
    requires OptionalAlike(exact, fp, e.after, f.after, secretFields)
    ensures LogsAlike(exact, x + [Masked(fp, e, secretFields)], y + [Masked(fp, f, secretFields)])
  {
    if e.before.Some? { MaskHidesSecrets(exact, fp, e.before.value, f.before.value, secretFields); }
    if e.after.Some? { MaskHidesSecrets(exact, fp, e.after.value, f.after.value, secretFields); }
    var m, n := Masked(fp, e, secretFields), Masked(fp, f, secretFields);
    assert Erase(m) == Erase(n);
    if !exact {
      assert EraseLog(x + [m]) == EraseLog(x) + [Erase(m)];
      assert EraseLog(y + [n]) == EraseLog(y) + [Erase(n)];
    }
  }
}
