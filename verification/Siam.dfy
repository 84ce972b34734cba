/** The role → instances mapping as stored and read: `_normalize` over a JSON value. */
module Siam {
  import opened Wrappers
  import opened Strings
  import opened JsonText

  type Json = JsonText.Json

  type Mapping = map<string, seq<string>>

  function Texts(items: seq<Json>): (r: seq<string>)
    ensures forall x :: x in r <==> JString(x) in items
  {
    if |items| == 0 then []
    else (if items[0].JString? then [items[0].text] else []) + Texts(items[1..])
  }

  /** Keep the roles with a list, and of each list the strings, ascending and once each. */
  function Normalize(j: Json): Mapping {
    if !j.JObject? then map[]
    else map role | role in j.fields && j.fields[role].JList? :: Sorted(Texts(j.fields[role].items))
  }

  method NormalizeLoop(j: Json) returns (out: Mapping)
    ensures out == Normalize(j)
    ensures forall role :: role in out ==> Ascending(out[role])
  {
    out := map[];
    if !j.JObject? {
      return;
    }
    var todo := j.fields.Keys;
    while todo != {}
      invariant todo <= j.fields.Keys
      invariant forall role :: role in out <==> role in j.fields && role !in todo && j.fields[role].JList?
      invariant forall role :: role in out ==> out[role] == Sorted(Texts(j.fields[role].items))
      decreases todo
    {
      var role :| role in todo;
      todo := todo - {role};
      var ids := j.fields[role];
      if ids.JList? {
        out := out[role := Sorted(Texts(ids.items))];
      }
    }
  }

  function AsJson(m: Mapping): Json {
    JObject(map role | role in m :: JList(seq(|m[role]|, i requires 0 <= i < |m[role]| => JString(m[role][i]))))
  }

  /** What a mapping value grants: the set of instances of each role. */
  function Grants(j: Json): map<string, set<string>> {
    if !j.JObject? then map[]
    else map role | role in j.fields && j.fields[role].JList? ::
           set x | x in Texts(j.fields[role].items) :: x
  }

  predicate Mapped(m: Mapping, instanceId: string) {
    exists role :: role in m && instanceId in m[role]
  }

  predicate Authorized(m: Mapping, roles: seq<string>, instanceId: string) {
    exists role :: role in roles && role in m && instanceId in m[role]
  }

  lemma AuthorizedStep(m: Mapping, roles: seq<string>, role: string, instanceId: string)
    ensures Authorized(m, roles + [role], instanceId)
       <==> Authorized(m, roles, instanceId) || (role in m && instanceId in m[role])
  {
    if role in m && instanceId in m[role] {
      assert role in roles + [role];
    }
    if Authorized(m, roles, instanceId) {
      var r :| r in roles && r in m && instanceId in m[r];
      assert r in roles + [role];
    }
  }

  lemma AuthorizedPrefix(m: Mapping, roles: seq<string>, n: nat, instanceId: string)
    requires n <= |roles| && Authorized(m, roles[..n], instanceId)
    ensures Authorized(m, roles, instanceId)
  {
    var r :| r in roles[..n] && r in m && instanceId in m[r];
    assert r in roles;
  }

  lemma TextsOfStrings(s: seq<string>)
    ensures forall x :: x in Texts(seq(|s|, i requires 0 <= i < |s| => JString(s[i]))) <==> x in s
  {
    var items := seq(|s|, i requires 0 <= i < |s| => JString(s[i]));
    forall x ensures JString(x) in items <==> x in s {
      if x in s {
        var i :| 0 <= i < |s| && s[i] == x;
        assert items[i] == JString(x);
      }
    }
  }

  /** Nothing is lost or added: the normal form grants what the value grants. */
  lemma NormalizeKeepsGrants(j: Json)
    ensures Grants(AsJson(Normalize(j))) == Grants(j)
  {
    var n := Normalize(j);
    var k := AsJson(n);
    assert k.fields.Keys == n.Keys;
    forall role | role in n ensures Grants(k)[role] == Grants(j)[role] {
      TextsOfStrings(n[role]);
      assert forall x :: x in Texts(k.fields[role].items) <==> x in n[role];
      assert forall x :: x in Texts(j.fields[role].items) <==> x in n[role];
    }
    assert Grants(k).Keys == Grants(j).Keys;
  }

  /** Two values have the same normal form exactly when they grant the same. */
  lemma NormalFormsCompareGrants(j: Json, k: Json)
    ensures Normalize(j) == Normalize(k) <==> Grants(j) == Grants(k)
  {
    var m, n := Normalize(j), Normalize(k);
    if m == n {
      NormalizeKeepsGrants(j);
      NormalizeKeepsGrants(k);
    }
    if Grants(j) == Grants(k) {
      assert m.Keys == Grants(j).Keys && n.Keys == Grants(k).Keys;
      forall role | role in m ensures m[role] == n[role] {
        forall x ensures x in m[role] <==> x in n[role] {
          assert x in m[role] <==> x in Grants(j)[role];
          assert x in n[role] <==> x in Grants(k)[role];
        }
        AscendingIsCanonical(m[role], n[role]);
      }
    }
  }

  lemma NormalizeIsIdempotent(j: Json)
    ensures Normalize(AsJson(Normalize(j))) == Normalize(j)
  {
    NormalizeKeepsGrants(j);
    NormalFormsCompareGrants(AsJson(Normalize(j)), j);
  }
}
