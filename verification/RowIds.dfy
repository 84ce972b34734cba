/**
 The row id of a connection is the text `user_sub:instance_id:seq`. Nothing escapes a
 colon inside the first two parts, so the text is parsed back from its right end here
 to say exactly when two triples get the same id.
 */
module RowIds {

  function Digit(d: nat): (c: char)
    requires d < 10
    ensures '0' <= c <= '9'
  {
    '0' + d as char
  }

  /** Decimal printing, as `f"{n}"` does it. */
  function Decimal(n: nat): (s: string)
    ensures |s| > 0
    ensures forall c :: c in s ==> '0' <= c <= '9'
  {
    if n < 10 then [Digit(n)] else Decimal(n / 10) + [Digit(n % 10)]
  }

  function Join(userSub: string, instanceId: string): string {
    userSub + ":" + instanceId
  }

  function RowId(userSub: string, instanceId: string, num: nat): string {
    Join(userSub, instanceId) + ":" + Decimal(num)
  }

  predicate ColonFree(s: string) {
    ':' !in s
  }

  /** Reading a text of digits, most significant first. */
  function Numeral(s: string): int {
    if |s| == 0 then 0 else 10 * Numeral(s[..|s| - 1]) + (s[|s| - 1] as int - '0' as int)
  }

  /** The printed number reads as itself, without leading zeros. */
  lemma {:induction false} DecimalReads(n: nat)
    ensures Numeral(Decimal(n)) == n
    ensures Decimal(n)[0] == '0' ==> n == 0
  {
    var s := Decimal(n);
    if n >= 10 {
      assert s[..|s| - 1] == Decimal(n / 10);
      DecimalReads(n / 10);
    } else {
      assert s[..|s| - 1] == "";
    }
  }

  lemma DecimalIsInjective(m: nat, n: nat)
    requires Decimal(m) == Decimal(n)
    ensures m == n
  {
    DecimalReads(m);
    DecimalReads(n);
  }

  /** A text splits in at most one way at a colon with a colon-free right part. */
  lemma SplitAtLastColon(a: string, b: string, x: string, y: string)
    requires a + ":" + x == b + ":" + y
    requires ColonFree(x) && ColonFree(y)
    ensures a == b && x == y
  {
    LastColon(a, x);
    LastColon(b, y);
    var s := a + ":" + x;
    assert s[|a|] == ':' && s[|b|] == ':';
    assert a == s[..|a|] && b == s[..|b|];
    assert x == s[|a| + 1..] && y == s[|b| + 1..];
  }

  lemma LastColon(a: string, x: string)
    requires ColonFree(x)
    ensures var s := a + ":" + x; forall k :: |a| < k < |s| ==> s[k] != ':'
  {
    var s := a + ":" + x;
    forall k | |a| < k < |s| ensures s[k] != ':' {
      assert s[k] == x[k - |a| - 1];
    }
  }

  /** The mirror image: a colon-free left part. */
  lemma SplitAtFirstColon(a: string, b: string, x: string, y: string)
    requires a + ":" + x == b + ":" + y
    requires ColonFree(a) && ColonFree(b)
    ensures a == b && x == y
  {
    FirstColon(a, x);
    FirstColon(b, y);
    var s := a + ":" + x;
    assert s[|a|] == ':' && s[|b|] == ':';
    assert a == s[..|a|] && b == s[..|b|];
    assert x == s[|a| + 1..] && y == s[|b| + 1..];
  }

  lemma FirstColon(a: string, x: string)
    requires ColonFree(a)
    ensures var s := a + ":" + x; forall k :: 0 <= k < |a| ==> s[k] != ':'
  {
    var s := a + ":" + x;
    forall k | 0 <= k < |a| ensures s[k] != ':' {
      assert s[k] == a[k];
    }
  }

  lemma DecimalIsColonFree(n: nat)
    ensures ColonFree(Decimal(n))
  {
  }

  /** Two triples share an id exactly when they share the number and the joined prefix. */
  lemma RowIdCollision(u1: string, i1: string, n1: nat, u2: string, i2: string, n2: nat)
    ensures RowId(u1, i1, n1) == RowId(u2, i2, n2) <==> Join(u1, i1) == Join(u2, i2) && n1 == n2
  {
    if RowId(u1, i1, n1) == RowId(u2, i2, n2) {
      DecimalIsColonFree(n1);
      DecimalIsColonFree(n2);
      SplitAtLastColon(Join(u1, i1), Join(u2, i2), Decimal(n1), Decimal(n2));
      DecimalIsInjective(n1, n2);
    }
  }

  /** Colon-free user subs, or colon-free instance ids, make the prefix unambiguous. */
  lemma JoinIsInjective(u1: string, i1: string, u2: string, i2: string)
    requires (ColonFree(u1) && ColonFree(u2)) || (ColonFree(i1) && ColonFree(i2))
    requires Join(u1, i1) == Join(u2, i2)
    ensures u1 == u2 && i1 == i2
  {
    if ColonFree(u1) && ColonFree(u2) {
      SplitAtFirstColon(u1, u2, i1, i2);
    } else {
      SplitAtLastColon(u1, u2, i1, i2);
    }
  }

  /** Without either restriction, two different pairs do share their first row id. */
  lemma JoinCollides()
    ensures ("a:b", "c") != ("a", "b:c")
    ensures RowId("a:b", "c", 0) == RowId("a", "b:c", 0)
  {
    assert Join("a:b", "c") == "a:b:c" == Join("a", "b:c");
  }
}
