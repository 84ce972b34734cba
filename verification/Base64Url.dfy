/**
 URL-safe base64 (section 5 of RFC 4648) as `base64.urlsafe_b64encode` prints it and as
 `base64.urlsafe_b64decode` reads it: the reader is the lenient one of CPython's binascii,
 a left-to-right machine over `(position in the quad, bits left over, pads seen)` that
 skips characters outside the alphabet and stops at a complete padding.
 */
module Base64Url {
  import opened Wrappers

  type Byte = n: int | 0 <= n < 256
  type Bytes = seq<Byte>

  type Sextet = n: int | 0 <= n < 64

  function Symbol(v: Sextet): char {
    if v < 26 then 'A' + v as char
    else if v < 52 then 'a' + (v - 26) as char
    else if v < 62 then '0' + (v - 52) as char
    else if v == 62 then '-'
    else '_'
  }

  /** The reader also accepts '+' and '/', which the translation to the plain alphabet keeps. */
  function ValueOf(c: char): Option<Sextet> {
    if 'A' <= c <= 'Z' then Some(c as int - 'A' as int)
    else if 'a' <= c <= 'z' then Some(c as int - 'a' as int + 26)
    else if '0' <= c <= '9' then Some(c as int - '0' as int + 52)
    else if c == '-' || c == '+' then Some(62)
    else if c == '_' || c == '/' then Some(63)
    else None
  }

  predicate Unreserved(c: char) {
    'A' <= c <= 'Z' || 'a' <= c <= 'z' || '0' <= c <= '9' || c == '-' || c == '_'
  }

  function Quad(x: Byte, y: Byte, z: Byte): string {
    [Symbol(x / 4), Symbol(x % 4 * 16 + y / 16), Symbol(y % 16 * 4 + z / 64), Symbol(z % 64)]
  }

  lemma QuadIsUnreserved(x: Byte, y: Byte, z: Byte)
    ensures forall c :: c in Quad(x, y, z) ==> Unreserved(c)
  {
  }

  /** The symbols of a byte string, without padding: 6 bits each, zero bits at the end. */
  function Symbols(b: Bytes): (s: string)
    ensures forall c :: c in s ==> Unreserved(c)
    ensures |s| == (4 * |b| + 2) / 3
  {
    if |b| == 0 then ""
    else if |b| == 1 then [Symbol(b[0] / 4), Symbol(b[0] % 4 * 16)]
    else if |b| == 2 then
      [Symbol(b[0] / 4), Symbol(b[0] % 4 * 16 + b[1] / 16), Symbol(b[1] % 16 * 4)]
    else
      QuadIsUnreserved(b[0], b[1], b[2]);
      Quad(b[0], b[1], b[2]) + Symbols(b[3..])
  }

  function Padding(n: nat): string {
    if n % 3 == 0 then "" else if n % 3 == 1 then "==" else "="
  }

  function Encode(b: Bytes): string {
    Symbols(b) + Padding(|b|)
  }

  function StripPadding(s: string): string {
    if |s| > 0 && s[|s| - 1] == '=' then StripPadding(s[..|s| - 1]) else s
  }

  /** `_b64url_no_pad`: encode, then strip the trailing '='. */
  function EncodeNoPad(b: Bytes): string {
    StripPadding(Encode(b))
  }

  function Prepend(x: Byte, rest: Option<Bytes>): Option<Bytes> {
    if rest.Some? then Some([x] + rest.value) else None
  }

  function DecodeFrom(s: string, quad: nat, left: nat, pads: nat): Option<Bytes>
    requires quad < 4 && left < 64
    decreases |s|
  {
    if |s| == 0 then
      if quad == 0 then Some([]) else None
    else if s[0] == '=' then
      if quad >= 2 && quad + pads + 1 >= 4 then Some([])
      else DecodeFrom(s[1..], quad, left, if quad >= 2 then pads + 1 else pads)
    else if ValueOf(s[0]).None? then
      DecodeFrom(s[1..], quad, left, pads)
    else
      var v := ValueOf(s[0]).value;
      if quad == 0 then DecodeFrom(s[1..], 1, v, 0)
      else if quad == 1 then Prepend((left * 4 + v / 16) % 256, DecodeFrom(s[1..], 2, v % 16, 0))
      else if quad == 2 then Prepend((left * 16 + v / 4) % 256, DecodeFrom(s[1..], 3, v % 4, 0))
      else Prepend((left * 64 + v) % 256, DecodeFrom(s[1..], 0, 0, 0))
  }

  predicate Ascii(s: string) {
    forall c :: c in s ==> c < 128 as char
  }

  /** `.encode("ascii")` fails on any other character before the reader starts. */
  function Decode(s: string): Option<Bytes> {
    if Ascii(s) then DecodeFrom(s, 0, 0, 0) else None
  }

  lemma SymbolReadsBack(v: Sextet)
    ensures ValueOf(Symbol(v)) == Some(v) && Symbol(v) != '='
  {
  }

  lemma ReadOne(v: Sextet, rest: string, quad: nat, left: nat, pads: nat)
    requires quad < 4 && left < 64
    ensures DecodeFrom([Symbol(v)] + rest, quad, left, pads) ==
            if quad == 0 then DecodeFrom(rest, 1, v, 0)
            else if quad == 1 then Prepend((left * 4 + v / 16) % 256, DecodeFrom(rest, 2, v % 16, 0))
            else if quad == 2 then Prepend((left * 16 + v / 4) % 256, DecodeFrom(rest, 3, v % 4, 0))
            else Prepend((left * 64 + v) % 256, DecodeFrom(rest, 0, 0, 0))
  {
    SymbolReadsBack(v);
    var s := [Symbol(v)] + rest;
    assert s[0] == Symbol(v) && s[1..] == rest;
  }

  /** Two symbols deliver the first byte and keep the low four bits of the second. */
  lemma ReadTwo(x: Byte, low: Sextet, rest: string)
    requires low < 16
    ensures DecodeFrom([Symbol(x / 4), Symbol(x % 4 * 16 + low)] + rest, 0, 0, 0)
         == Prepend(x, DecodeFrom(rest, 2, low, 0))
  {
    var hi, lo := x / 4, x % 4;
    var v := lo * 16 + low;
    assert x == 4 * hi + lo && hi < 64;
    SecondBits(hi, lo, low);
    assert [Symbol(hi), Symbol(v)] + rest == [Symbol(hi)] + ([Symbol(v)] + rest);
    ReadOne(hi, [Symbol(v)] + rest, 0, 0, 0);
    ReadOne(v, rest, 1, hi, 0);
  }

  lemma SecondBits(hi: nat, lo: nat, low: nat)
    requires hi < 64 && lo < 4 && low < 16
    ensures (lo * 16 + low) / 16 == lo && (lo * 16 + low) % 16 == low
    ensures (hi * 4 + (lo * 16 + low) / 16) % 256 == hi * 4 + lo
  {
  }

  /** A third symbol delivers the second byte and keeps its own low two bits. */
  lemma ReadThird(y: Byte, low: Sextet, rest: string)
    requires low < 4
    ensures DecodeFrom([Symbol(y % 16 * 4 + low)] + rest, 2, y / 16, 0)
         == Prepend(y, DecodeFrom(rest, 3, low, 0))
  {
    var hi, lo := y / 16, y % 16;
    assert y == 16 * hi + lo && 0 <= hi < 16;
    ThirdBits(hi, lo, low);
    ReadOne(lo * 4 + low, rest, 2, hi, 0);
  }

  lemma ThirdBits(hi: nat, lo: nat, low: nat)
    requires hi < 16 && lo < 16 && low < 4
    ensures (lo * 4 + low) / 4 == lo && (lo * 4 + low) % 4 == low
    ensures (hi * 16 + (lo * 4 + low) / 4) % 256 == hi * 16 + lo
  {
  }

  lemma ReadFourth(z: Byte, rest: string)
    ensures DecodeFrom([Symbol(z % 64)] + rest, 3, z / 64, 0) == Prepend(z, DecodeFrom(rest, 0, 0, 0))
  {
    ReadOne(z % 64, rest, 3, z / 64, 0);
  }

  lemma ReadQuad(x: Byte, y: Byte, z: Byte, rest: string)
    ensures DecodeFrom(Quad(x, y, z) + rest, 0, 0, 0)
         == Prepend(x, Prepend(y, Prepend(z, DecodeFrom(rest, 0, 0, 0))))
  {
    var fourth := [Symbol(z % 64)] + rest;
    var third := [Symbol(y % 16 * 4 + z / 64)] + fourth;
    assert Quad(x, y, z) + rest == [Symbol(x / 4), Symbol(x % 4 * 16 + y / 16)] + third;
    ReadTwo(x, y / 16, third);
    ReadThird(y, z / 64, fourth);
    ReadFourth(z, rest);
  }

  lemma ReadQuadThen(x: Byte, y: Byte, z: Byte, b: Bytes, s: string, tail: string)
    requires DecodeFrom(s + tail, 0, 0, 0) == Some(b)
    ensures DecodeFrom(Quad(x, y, z) + s + tail, 0, 0, 0) == Some([x, y, z] + b)
  {
    ReadQuad(x, y, z, s + tail);
    assert Quad(x, y, z) + s + tail == Quad(x, y, z) + (s + tail);
    assert [x, y, z] + b == [x] + ([y] + ([z] + b));
  }

  lemma ReadPair(x: Byte, y: Byte, tail: string)
    requires tail == "=" || tail == "=="
    ensures DecodeFrom(Symbols([x, y]) + tail, 0, 0, 0) == Some([x, y])
  {
    var third := [Symbol(y % 16 * 4)] + tail;
    assert Symbols([x, y]) + tail == [Symbol(x / 4), Symbol(x % 4 * 16 + y / 16)] + third;
    ReadTwo(x, y / 16, third);
    ReadThird(y, 0, tail);
    DecodePads(tail, 3);
    assert [x, y] == [x] + ([y] + []);
  }

  lemma ReadSingle(x: Byte)
    ensures DecodeFrom(Symbols([x]) + "==", 0, 0, 0) == Some([x])
  {
    assert Symbols([x]) + "==" == [Symbol(x / 4), Symbol(x % 4 * 16 + 0)] + "==";
    ReadTwo(x, 0, "==");
    DecodePads("==", 2);
    assert [x] == [x] + [];
  }

  lemma DecodeShort(b: Bytes, tail: string)
    requires |b| < 3
    requires tail == Padding(|b|) || tail == "=="
    ensures DecodeFrom(Symbols(b) + tail, 0, 0, 0) == Some(b)
  {
    if |b| == 0 {
      assert Symbols(b) + tail == tail;
      DecodePads(tail, 0);
    } else if |b| == 1 {
      assert b == [b[0]];
      ReadSingle(b[0]);
    } else {
      assert b == [b[0], b[1]];
      ReadPair(b[0], b[1], tail);
    }
  }

  /** Any tail that is at least the missing padding lets the reader finish with all bytes. */
  lemma {:induction false} DecodeSymbols(b: Bytes, tail: string)
    requires tail == Padding(|b|) || tail == "=="
    ensures DecodeFrom(Symbols(b) + tail, 0, 0, 0) == Some(b)
  {
    if |b| < 3 {
      DecodeShort(b, tail);
    } else {
      var rest := b[3..];
      assert |rest| == |b| - 3 && Padding(|rest|) == Padding(|b|);
      DecodeSymbols(rest, tail);
      ReadQuadThen(b[0], b[1], b[2], b[3..], Symbols(b[3..]), tail);
      assert b == [b[0], b[1], b[2]] + b[3..];
    }
  }

  lemma DecodePads(tail: string, quad: nat)
    requires quad < 4 && quad != 1
    requires tail == "==" || (quad == 0 && tail == "") || (quad == 3 && tail == "=")
    ensures DecodeFrom(tail, quad, 0, 0) == Some([])
  {
    assert DecodeFrom("", 0, 0, 0) == Some([]);
    if tail == "==" {
      var last := tail[1..];
      assert last == "=" && last[1..] == "";
      assert quad == 0 ==> DecodeFrom(last, 0, 0, 0) == DecodeFrom("", 0, 0, 0);
      assert quad == 2 ==> DecodeFrom(last, 2, 0, 1) == Some([]);
    }
  }

  // ---- The text itself ----

  /** The letters, the digits, '-' and '_', as in table 2 of RFC 4648. */
  function Alphabet(): (s: string)
    ensures |s| == 64
  {
    seq(26, i requires 0 <= i < 26 => 'A' + i as char) + seq(26, i requires 0 <= i < 26 => 'a' + i as char)
    + seq(10, i requires 0 <= i < 10 => '0' + i as char) + "-_"
  }

  function ByteAt(b: Bytes, i: nat): nat {
    if i < |b| then b[i] else 0
  }

  /** The group's three bytes as one number, the first highest, with zeros past the end. */
  function Group(b: Bytes, g: nat): nat {
    65536 * ByteAt(b, 3 * g) + 256 * ByteAt(b, 3 * g + 1) + ByteAt(b, 3 * g + 2)
  }

  /** The group's number has these four digits to the base 64, and the text has those of them it prints. */
  ghost predicate Spells(s: string, g: nat, n: nat, v: seq<int>) {
    && |v| == 4 && (forall k :: 0 <= k < 4 ==> 0 <= v[k] < 64)
    && n == 262144 * v[0] + 4096 * v[1] + 64 * v[2] + v[3]
    && (forall k :: 0 <= k < 4 && 4 * g + k < |s| ==> s[4 * g + k] == Alphabet()[v[k]])
  }

  function Sextets(x: Byte, y: Byte, z: Byte): (v: seq<int>)
    ensures |v| == 4 && forall k :: 0 <= k < 4 ==> 0 <= v[k] < 64
    ensures 65536 * x + 256 * y + z == 262144 * v[0] + 4096 * v[1] + 64 * v[2] + v[3]
  {
    [x / 4, x % 4 * 16 + y / 16, y % 16 * 4 + z / 64, z % 64]
  }

  lemma SymbolIsListed(v: Sextet)
    ensures Symbol(v) == Alphabet()[v]
  {
  }

  lemma FirstSymbols(b: Bytes, k: nat)
    requires k < 4 && k < |Symbols(b)|
    ensures Symbols(b)[k] == Symbol(Sextets(ByteAt(b, 0), ByteAt(b, 1), ByteAt(b, 2))[k])
  {
    var x, y, z := ByteAt(b, 0), ByteAt(b, 1), ByteAt(b, 2);
    if |b| >= 3 {
      assert Symbols(b)[k] == Quad(x, y, z)[k];
    } else if |b| == 2 {
      assert Symbols(b) == [Symbol(x / 4), Symbol(x % 4 * 16 + y / 16), Symbol(y % 16 * 4)];
    } else {
      assert Symbols(b) == [Symbol(x / 4), Symbol(x % 4 * 16)];
    }
  }

  lemma FirstGroupIsSpelled(b: Bytes)
    ensures Spells(Symbols(b), 0, Group(b, 0), Sextets(ByteAt(b, 0), ByteAt(b, 1), ByteAt(b, 2)))
  {
    var v := Sextets(ByteAt(b, 0), ByteAt(b, 1), ByteAt(b, 2));
    forall k | 0 <= k < 4 && k < |Symbols(b)| ensures Symbols(b)[k] == Alphabet()[v[k]] {
      FirstSymbols(b, k);
      SymbolIsListed(v[k]);
    }
  }

  /** The text is the bytes taken three at a time, each group spelled by its four digits to the base 64. */
  lemma {:induction false} GroupsAreSpelled(b: Bytes, g: nat) returns (v: seq<int>)
    ensures Spells(Symbols(b), g, Group(b, g), v)
  {
    if g == 0 {
      FirstGroupIsSpelled(b);
      v := Sextets(ByteAt(b, 0), ByteAt(b, 1), ByteAt(b, 2));
    } else if |b| < 3 {
      v := [0, 0, 0, 0];
      assert Group(b, g) == 0 && |Symbols(b)| < 4;
    } else {
      v := GroupsAreSpelled(b[3..], g - 1);
      NextGroup(b, g);
      NextSymbols(b);
      ShiftSpells(Symbols(b), Symbols(b[3..]), g, Group(b, g), v);
    }
  }

  lemma ShiftSpells(s: string, rest: string, g: nat, n: nat, v: seq<int>)
    requires |s| == |rest| + 4 && forall k :: 4 <= k < |s| ==> s[k] == rest[k - 4]
    requires g > 0 && Spells(rest, g - 1, n, v)
    ensures Spells(s, g, n, v)
  {
  }

  lemma NextSymbols(b: Bytes)
    requires |b| >= 3
    ensures |Symbols(b)| == |Symbols(b[3..])| + 4
    ensures forall k :: 4 <= k < |Symbols(b)| ==> Symbols(b)[k] == Symbols(b[3..])[k - 4]
  {
  }

  lemma NextGroup(b: Bytes, g: nat)
    requires |b| >= 3 && g > 0
    ensures Group(b, g) == Group(b[3..], g - 1)
  {
    assert forall i: nat :: ByteAt(b, i + 3) == ByteAt(b[3..], i);
  }

  /** Reading what was printed gives every byte back. */
  lemma RoundTrip(b: Bytes)
    ensures Decode(Encode(b)) == Some(b)
  {
    DecodeSymbols(b, Padding(|b|));
  }

  /** The text without what is neither a symbol nor padding; of the plain alphabet, "+" and "/" become "-" and "_". */
  function Kept(s: string): string {
    if |s| == 0 then ""
    else if Unreserved(s[0]) || s[0] == '=' then [s[0]] + Kept(s[1..])
    else if s[0] == '+' then "-" + Kept(s[1..])
    else if s[0] == '/' then "_" + Kept(s[1..])
    else Kept(s[1..])
  }

  lemma {:induction false} KeptReadsAlike(s: string, quad: nat, left: nat, pads: nat)
    requires quad < 4 && left < 64
    ensures DecodeFrom(Kept(s), quad, left, pads) == DecodeFrom(s, quad, left, pads)
    decreases |s|
  {
    if |s| > 0 {
      var rest := s[1..];
      assert |Kept(s)| > 0 && ValueOf(s[0]).Some? ==> Kept(s)[1..] == Kept(rest);
      if s[0] == '=' {
        assert Kept(s)[1..] == Kept(rest);
        KeptReadsAlike(rest, quad, left, if quad >= 2 then pads + 1 else pads);
      } else if ValueOf(s[0]).None? {
        KeptReadsAlike(rest, quad, left, pads);
      } else {
        var v := ValueOf(s[0]).value;
        assert ValueOf(Kept(s)[0]) == Some(v) && Kept(s)[0] != '=';
        KeptReadsAlike(rest, (quad + 1) % 4,
                       if quad == 0 then v else if quad == 1 then v % 16 else if quad == 2 then v % 4 else 0, 0);
      }
    }
  }

  /** The reader is lenient: foreign characters and the plain alphabet's two symbols make no difference. */
  lemma ReadsLeniently(s: string, b: Bytes)
    requires Ascii(s) && Kept(s) == Encode(b)
    ensures Decode(s) == Some(b)
  {
    RoundTrip(b);
    KeptReadsAlike(s, 0, 0, 0);
  }

  lemma {:induction false} StripIsSymbols(s: string, n: nat)
    requires n <= 2 && forall c :: c in s ==> c != '='
    ensures StripPadding(s + seq(n, _ => '=')) == s
  {
    var t := s + seq(n, _ => '=');
    if n == 0 {
      assert t == s;
      assert |s| > 0 ==> s[|s| - 1] in s;
    } else {
      assert t[..|t| - 1] == s + seq(n - 1, _ => '=');
      StripIsSymbols(s, n - 1);
    }
  }

  /**
   The unpadded form used for PKCE verifiers and nonces: only unreserved characters, a
   length fixed by the number of bytes (43 for 32 bytes, the least length section 4.1 of
   RFC 7636 allows), and nothing lost, since padding it again decodes to the same bytes.
   */
  lemma NoPadRoundTrip(b: Bytes)
    ensures |EncodeNoPad(b)| == (4 * |b| + 2) / 3
    ensures forall c :: c in EncodeNoPad(b) ==> Unreserved(c)
    ensures Decode(EncodeNoPad(b) + "==") == Some(b)
    ensures |b| == 32 ==> |EncodeNoPad(b)| == 43
  {
    var n := |Padding(|b|)|;
    assert Padding(|b|) == seq(n, _ => '=');
    StripIsSymbols(Symbols(b), n);
    assert EncodeNoPad(b) == Symbols(b);
    DecodeSymbols(b, "==");
  }
}
