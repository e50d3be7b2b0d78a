/** `application/x-www-form-urlencoded` of section 5 of the WHATWG URL Standard, and https URLs that carry it. */
module FormUrl {
  import opened Texts
  import opened TextOps

  const AMPERSAND: Unit := 0x26
  const EQUALS: Unit := 0x3D
  const PLUS: Unit := 0x2B
  const PERCENT: Unit := 0x25
  const SPACE: Unit := 0x20

  predicate IsBytes(s: Str) { forall i | 0 <= i < |s| :: s[i] < 0x100 }
  predicate IsAscii(s: Str) { forall i | 0 <= i < |s| :: s[i] < 0x80 }

  /** UTF-8, as a foreign pair of functions between strings and byte strings. */
  datatype Codec = Codec(encode: Str -> Str, decode: Str -> Str)

  /** The encoding gives bytes, and decoding them gives the string back. */
  ghost predicate Faithful(c: Codec, s: Str) {
    IsBytes(c.encode(s)) && c.decode(c.encode(s)) == s
  }

  // ---------- one component ----------

  predicate Alphanumeric(b: Unit) { 0x30 <= b <= 0x39 || 0x41 <= b <= 0x5A || 0x61 <= b <= 0x7A }

  /** Letters, digits and `*`, `-`, `.`, `_`; `~` is not among them. */
  predicate Plain(b: Unit) { Alphanumeric(b) || b in {0x2A, 0x2D, 0x2E, 0x5F} }

  function HexDigit(n: nat): Unit
    requires n < 16
  {
    if n < 10 then 0x30 + n else 0x41 + n - 10
  }

  function EncodeByte(b: Unit): Str
    requires b < 0x100
  {
    if b == SPACE then [PLUS]
    else if Plain(b) then [b]
    else [PERCENT, HexDigit(b / 16), HexDigit(b % 16)]
  }

  function EncodeBytes(s: Str): (r: Str)
    requires IsBytes(s)
    ensures forall u | u in r :: Plain(u) || u == PLUS || u == PERCENT
    decreases |s|
  {
    if s == [] then [] else EncodeByte(s[0]) + EncodeBytes(s[1..])
  }

  /** Replaces `+` by a space and decodes every percent triple. */
  function DecodeBytes(s: Str): Str
    decreases |s|
  {
    if s == [] then []
    else if s[0] == PLUS then [SPACE] + DecodeBytes(s[1..])
    else if s[0] == PERCENT && |s| > 2 && HexValue(s[1]).Some? && HexValue(s[2]).Some? then
      [HexValue(s[1]).value * 16 + HexValue(s[2]).value] + DecodeBytes(s[3..])
    else [s[0]] + DecodeBytes(s[1..])
  }

  lemma DecodeEncodedByte(b: Unit, rest: Str)
    requires b < 0x100
    ensures DecodeBytes(EncodeByte(b) + rest) == [b] + DecodeBytes(rest)
  {
    var s := EncodeByte(b) + rest;
    assert s[|EncodeByte(b)|..] == rest;
    if b != SPACE && !Plain(b) {
      assert s[1] == HexDigit(b / 16) && s[2] == HexDigit(b % 16);
      assert HexValue(s[1]) == Some(b / 16) && HexValue(s[2]) == Some(b % 16);
    }
  }

  lemma {:induction false} DecodeEncoded(s: Str)
    requires IsBytes(s)
    ensures DecodeBytes(EncodeBytes(s)) == s
    decreases |s|
  {
    if s != [] {
      DecodeEncoded(s[1..]);
      DecodeEncodedByte(s[0], EncodeBytes(s[1..]));
      assert s == [s[0]] + s[1..];
    }
  }

  // ---------- the list of pairs ----------

  type Pairs = seq<(Str, Str)>

  function Encode(s: Str, c: Codec): Str
    requires IsBytes(c.encode(s))
  {
    EncodeBytes(c.encode(s))
  }

  ghost predicate AllFaithful(pairs: Pairs, c: Codec) {
    forall i | 0 <= i < |pairs| :: Faithful(c, pairs[i].0) && Faithful(c, pairs[i].1)
  }

  function PairText(p: (Str, Str), c: Codec): Str
    requires IsBytes(c.encode(p.0)) && IsBytes(c.encode(p.1))
  {
    Encode(p.0, c) + [EQUALS] + Encode(p.1, c)
  }

  function PairTexts(pairs: Pairs, c: Codec): (r: seq<Str>)
    requires forall i | 0 <= i < |pairs| :: IsBytes(c.encode(pairs[i].0)) && IsBytes(c.encode(pairs[i].1))
    ensures |r| == |pairs| && forall i | 0 <= i < |r| :: r[i] == PairText(pairs[i], c)
  {
    seq(|pairs|, i requires 0 <= i < |pairs| => PairText(pairs[i], c))
  }

  /** The form serializer. */
  function Serialize(pairs: Pairs, c: Codec): Str
    requires forall i | 0 <= i < |pairs| :: IsBytes(c.encode(pairs[i].0)) && IsBytes(c.encode(pairs[i].1))
  {
    Join(PairTexts(pairs, c), [AMPERSAND])
  }

  function FirstIndex(s: Str, u: Unit): (i: nat)
    ensures i <= |s| && (i < |s| ==> s[i] == u) && forall j | 0 <= j < i :: s[j] != u
    decreases |s|
  {
    if s == [] || s[0] == u then 0 else 1 + FirstIndex(s[1..], u)
  }

  function ParsePair(s: Str, c: Codec): (Str, Str) {
    var i := FirstIndex(s, EQUALS);
    var value := if i < |s| then s[i + 1..] else [];
    (c.decode(DecodeBytes(s[..i])), c.decode(DecodeBytes(value)))
  }

  function ParseParts(parts: seq<Str>, c: Codec): Pairs
    decreases |parts|
  {
    if parts == [] then []
    else if parts[0] == [] then ParseParts(parts[1..], c)
    else [ParsePair(parts[0], c)] + ParseParts(parts[1..], c)
  }

  /** The form parser. */
  function Parse(s: Str, c: Codec): Pairs { ParseParts(Split(s, AMPERSAND), c) }

  lemma SplitAtEquals(a: Str, b: Str)
    requires EQUALS !in a
    ensures FirstIndex(a + [EQUALS] + b, EQUALS) == |a|
  {
    var s := a + [EQUALS] + b;
    assert s[|a|] == EQUALS;
    assert forall j | 0 <= j < |a| :: s[j] == a[j] && a[j] in a;
  }

  lemma ParsePairAt(a: Str, b: Str, c: Codec)
    requires EQUALS !in a
    ensures ParsePair(a + [EQUALS] + b, c) == (c.decode(DecodeBytes(a)), c.decode(DecodeBytes(b)))
  {
    SplitAtEquals(a, b);
    var s := a + [EQUALS] + b;
    assert s[..|a|] == a && s[|a| + 1..] == b;
  }

  lemma EncodedIsSafe(s: Str)
    requires IsBytes(s)
    ensures EQUALS !in EncodeBytes(s) && AMPERSAND !in EncodeBytes(s)
  {
  }

  lemma ParsePairText(p: (Str, Str), c: Codec)
    requires Faithful(c, p.0) && Faithful(c, p.1)
    ensures ParsePair(PairText(p, c), c) == p
    ensures PairText(p, c) != [] && AMPERSAND !in PairText(p, c)
  {
    var x, y := c.encode(p.0), c.encode(p.1);
    EncodedIsSafe(x);
    EncodedIsSafe(y);
    ParsePairAt(EncodeBytes(x), EncodeBytes(y), c);
    DecodeEncoded(x);
    DecodeEncoded(y);
  }

  lemma ParsePartsCons(first: Str, rest: seq<Str>, c: Codec)
    requires first != []
    ensures ParseParts([first] + rest, c) == [ParsePair(first, c)] + ParseParts(rest, c)
  {
    assert ([first] + rest)[1..] == rest;
  }

  lemma {:induction false} ParsePairTexts(pairs: Pairs, c: Codec)
    requires AllFaithful(pairs, c)
    ensures ParseParts(PairTexts(pairs, c), c) == pairs
    decreases |pairs|
  {
    if pairs != [] {
      ParsePairText(pairs[0], c);
      ParsePairTexts(pairs[1..], c);
      assert PairTexts(pairs, c) == [PairText(pairs[0], c)] + PairTexts(pairs[1..], c);
      ParsePartsCons(PairText(pairs[0], c), PairTexts(pairs[1..], c), c);
      assert pairs == [pairs[0]] + pairs[1..];
    }
  }

  lemma NoAmpersands(pairs: Pairs, c: Codec)
    requires AllFaithful(pairs, c)
    ensures forall p | p in PairTexts(pairs, c) :: AMPERSAND !in p
  {
    forall i | 0 <= i < |pairs| ensures AMPERSAND !in PairTexts(pairs, c)[i] { ParsePairText(pairs[i], c); }
  }

  /** Parsing a serialized form gives back every list of pairs. */
  lemma FormRoundTrip(pairs: Pairs, c: Codec)
    requires AllFaithful(pairs, c)
    ensures Parse(Serialize(pairs, c), c) == pairs
  {
    ParsePairTexts(pairs, c);
    if pairs == [] {
      assert Split([], AMPERSAND) == [[]] && ParseParts([[]], c) == ParseParts([[]][1..], c);
    } else {
      NoAmpersands(pairs, c);
      SplitJoin(PairTexts(pairs, c), AMPERSAND);
    }
  }

  // ---------- URLSearchParams ----------

  function Get(pairs: Pairs, name: Str): Option<Str>
    decreases |pairs|
  {
    if pairs == [] then None
    else if pairs[0].0 == name then Some(pairs[0].1)
    else Get(pairs[1..], name)
  }

  /** The value of the first pair with that name. */
  lemma {:induction false} GetIsFirst(pairs: Pairs, name: Str, value: Str)
    ensures Get(pairs, name) == Some(value) <==>
      exists i :: 0 <= i < |pairs| && pairs[i] == (name, value) && forall j | 0 <= j < i :: pairs[j].0 != name
    decreases |pairs|
  {
    if pairs != [] {
      GetIsFirst(pairs[1..], name, value);
      var rest := pairs[1..];
      if i :| 0 <= i < |rest| && rest[i] == (name, value) && forall j | 0 <= j < i :: rest[j].0 != name {
        if pairs[0].0 != name {
          assert pairs[i + 1] == (name, value);
          forall j | 0 <= j < i + 1 ensures pairs[j].0 != name { if j > 0 { assert pairs[1..][j - 1] == pairs[j]; } }
        }
      }
      if i :| 0 <= i < |pairs| && pairs[i] == (name, value) && forall j | 0 <= j < i :: pairs[j].0 != name {
        if i > 0 {
          assert pairs[1..][i - 1] == (name, value);
          forall j | 0 <= j < i - 1 ensures pairs[1..][j].0 != name { assert pairs[1..][j] == pairs[j + 1]; }
        }
      }
    }
  }

  function Without(pairs: Pairs, name: Str): (r: Pairs)
    ensures forall n | n != name :: Get(r, n) == Get(pairs, n)
    ensures Get(r, name).None?
    decreases |pairs|
  {
    if pairs == [] then []
    else if pairs[0].0 == name then Without(pairs[1..], name)
    else
      var rest := Without(pairs[1..], name);
      assert ([pairs[0]] + rest)[1..] == rest;
      [pairs[0]] + rest
  }

  /** Replaces the first pair of the name and drops the others, or appends one. */
  function Set(pairs: Pairs, name: Str, value: Str): (r: Pairs)
    ensures Get(r, name) == Some(value)
    ensures forall n | n != name :: Get(r, n) == Get(pairs, n)
    decreases |pairs|
  {
    if pairs == [] then [(name, value)]
    else if pairs[0].0 == name then
      var rest := Without(pairs[1..], name);
      assert ([(name, value)] + rest)[1..] == rest;
      [(name, value)] + rest
    else
      var rest := Set(pairs[1..], name, value);
      assert ([pairs[0]] + rest)[1..] == rest;
      [pairs[0]] + rest
  }

  lemma {:induction false} WithoutKeeps(pairs: Pairs, name: Str, c: Codec)
    requires AllFaithful(pairs, c)
    ensures AllFaithful(Without(pairs, name), c)
    decreases |pairs|
  {
    if pairs != [] { WithoutKeeps(pairs[1..], name, c); }
  }

  lemma {:induction false} SetKeeps(pairs: Pairs, name: Str, value: Str, c: Codec)
    requires AllFaithful(pairs, c) && Faithful(c, name) && Faithful(c, value)
    ensures AllFaithful(Set(pairs, name, value), c)
    decreases |pairs|
  {
    if pairs != [] {
      SetKeeps(pairs[1..], name, value, c);
      WithoutKeeps(pairs[1..], name, c);
    }
  }

  // ---------- what the encoding looks like ----------

  /** A space becomes `+`, letters, digits and four marks stay, every other byte becomes `%` and two capital digits. */
  lemma EncodedByteLaw(b: Unit)
    requires b < 0x100
    ensures b == 0x20 ==> EncodeByte(b) == S("+")
    ensures EncodeByte(b) == [b] <==>
      || 0x30 <= b <= 0x39 || 0x41 <= b <= 0x5A || 0x61 <= b <= 0x7A
      || b == Code('*') || b == Code('-') || b == Code('.') || b == Code('_')
    ensures b != 0x20 && EncodeByte(b) != [b] ==>
      && |EncodeByte(b)| == 3 && EncodeByte(b)[0] == Code('%')
      && EncodeByte(b)[1] == S("0123456789ABCDEF")[b / 16] && EncodeByte(b)[2] == S("0123456789ABCDEF")[b % 16]
  {
    HexDigitIs(b / 16);
    HexDigitIs(b % 16);
  }

  lemma HexDigitIs(n: nat)
    requires n < 16
    ensures HexDigit(n) == S("0123456789ABCDEF")[n]
  {
  }

  /** `~` is not left alone. */
  lemma TildeIsEncoded()
    ensures EncodeBytes(S("~")) == S("%7E")
  {
    assert S("~")[1..] == [];
    assert 0x7E / 16 == 7 && 0x7E % 16 == 14;
  }

  /** A text of letters, digits and the four marks is its own encoding. */
  lemma {:induction false} PlainEncodes(s: Str)
    requires IsBytes(s) && forall i | 0 <= i < |s| :: Plain(s[i])
    ensures EncodeBytes(s) == s
    decreases |s|
  {
    if s != [] {
      PlainEncodes(s[1..]);
      assert s == [s[0]] + s[1..];
    }
  }
}
