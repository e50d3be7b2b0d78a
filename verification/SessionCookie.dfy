/** Reading the session token back from a Cookie header. */
module SessionCookie {
  import opened Texts
  import opened TextOps

  const SEMICOLON: Unit := 0x3B
  const EQUALS: Unit := 0x3D
  const NAME: Str := S("mo_session")

  /** The first element that starts with the prefix. */
  function FindPrefix(parts: seq<Str>, prefix: Str): (r: Option<Str>)
    ensures r.Some? ==> prefix <= r.value
    decreases |parts|
  {
    if parts == [] then None
    else if prefix <= parts[0] then Some(parts[0])
    else FindPrefix(parts[1..], prefix)
  }

  function TrimAll(parts: seq<Str>): (r: seq<Str>)
    ensures |r| == |parts| && forall i | 0 <= i < |r| :: r[i] == Trim(parts[i])
  {
    seq(|parts|, i requires 0 <= i < |parts| => Trim(parts[i]))
  }

  function NonEmpty(s: Str): Option<Str> { if s == [] then None else Some(s) }

  function ReadSessionCookie(cookie: Option<Str>): Option<Str> {
    match cookie
    case None => None
    case Some(c) =>
      if c == [] then None
      else
        match FindPrefix(TrimAll(Split(c, SEMICOLON)), NAME + [EQUALS])
        case None => None
        case Some(x) => NonEmpty(x[|NAME| + 1..])
  }

  datatype Pair = Pair(name: Str, value: Str)

  /** `name=value` */
  function PairText(p: Pair): Str { p.name + [0x3D] + p.value }

  /** A cookie-pair as section 4.2.1 of RFC 6265 joins them. */
  predicate WellFormed(p: Pair) {
    0x3D !in p.name && 0x3B !in p.name && 0x3B !in p.value && Trimmed(PairText(p))
  }

  function PairTexts(pairs: seq<Pair>): (r: seq<Str>)
    ensures |r| == |pairs| && forall i | 0 <= i < |r| :: r[i] == PairText(pairs[i])
  {
    seq(|pairs|, i requires 0 <= i < |pairs| => PairText(pairs[i]))
  }

  /** The pairs, with a semicolon and a space between them. */
  function Header(pairs: seq<Pair>): Str { Join(PairTexts(pairs), [0x3B, 0x20]) }

  /** The value of the first session pair, or nothing when there is none or it is empty. */
  function FirstSession(pairs: seq<Pair>): Option<Str>
    decreases |pairs|
  {
    if pairs == [] then None
    else if pairs[0].name == S("mo_session") then NonEmpty(pairs[0].value)
    else FirstSession(pairs[1..])
  }

  lemma PrefixNamesPair(p: Pair, name: Str)
    requires EQUALS !in p.name && EQUALS !in name
    ensures name + [EQUALS] <= PairText(p) <==> p.name == name
    ensures p.name == name ==> PairText(p)[|name| + 1..] == p.value
  {
    var t := PairText(p);
    assert forall i | 0 <= i < |p.name| :: t[i] == p.name[i] && p.name[i] in p.name;
    assert t[|p.name|] == EQUALS;
    if name + [EQUALS] <= t {
      assert forall i | 0 <= i < |name| :: t[i] == (name + [EQUALS])[i] == name[i] && name[i] in name;
      assert t[|name|] == (name + [EQUALS])[|name|] == EQUALS;
      assert |name| == |p.name|;
      assert p.name == t[..|name|] == name;
    }
  }

  lemma NameHasNoEquals()
    ensures EQUALS !in NAME
  {
    forall i | 0 <= i < |NAME| ensures NAME[i] != EQUALS {}
  }

  lemma PairSplits(p: Pair)
    requires WellFormed(p)
    ensures SEMICOLON !in PairText(p) && SEMICOLON !in [0x20] + PairText(p)
    ensures Trim(PairText(p)) == PairText(p) && Trim([0x20] + PairText(p)) == PairText(p)
  {
    TrimOfTrimmed(PairText(p));
  }

  lemma FirstText(pairs: seq<Pair>)
    requires |pairs| > 1
    ensures Header(pairs) == PairText(pairs[0]) + [SEMICOLON] + ([0x20] + Header(pairs[1..]))
    ensures PairTexts(pairs) == [PairText(pairs[0])] + PairTexts(pairs[1..])
  {
    assert PairTexts(pairs)[1..] == PairTexts(pairs[1..]);
  }

  lemma {:induction false} SplitHeader(pairs: seq<Pair>)
    requires pairs != [] && forall i | 0 <= i < |pairs| :: WellFormed(pairs[i])
    ensures TrimAll(Split(Header(pairs), SEMICOLON)) == PairTexts(pairs)
    ensures TrimAll(Split([0x20] + Header(pairs), SEMICOLON)) == PairTexts(pairs)
    decreases |pairs|
  {
    var first := PairText(pairs[0]);
    PairSplits(pairs[0]);
    if |pairs| == 1 {
      SplitOne(first, SEMICOLON);
      SplitOne([0x20] + first, SEMICOLON);
    } else {
      var rest := [0x20] + Header(pairs[1..]);
      FirstText(pairs);
      assert [0x20] + Header(pairs) == ([0x20] + first) + [SEMICOLON] + rest;
      SplitHeader(pairs[1..]);
      SplitFirst(first, rest, SEMICOLON);
      SplitFirst([0x20] + first, rest, SEMICOLON);
    }
  }

  lemma {:induction false} FindFirst(pairs: seq<Pair>)
    requires forall i | 0 <= i < |pairs| :: WellFormed(pairs[i])
    ensures var x := FindPrefix(PairTexts(pairs), NAME + [EQUALS]);
            FirstSession(pairs) == if x.None? then None else NonEmpty(x.value[|NAME| + 1..])
    decreases |pairs|
  {
    if pairs != [] {
      assert PairTexts(pairs)[1..] == PairTexts(pairs[1..]);
      NameHasNoEquals();
      PrefixNamesPair(pairs[0], NAME);
      FindFirst(pairs[1..]);
    }
  }

  /** The reader returns the first session pair of every header that RFC 6265 would print. */
  lemma ReadsFirstSession(pairs: seq<Pair>)
    requires forall i | 0 <= i < |pairs| :: WellFormed(pairs[i])
    ensures ReadSessionCookie(Some(Header(pairs))) == FirstSession(pairs)
  {
    if pairs != [] {
      SplitHeader(pairs);
      FindFirst(pairs);
      if Header(pairs) == [] {
        HeaderNotEmpty(pairs);
      }
    }
  }

  lemma HeaderNotEmpty(pairs: seq<Pair>)
    requires pairs != []
    ensures Header(pairs) != []
  {
    assert PairText(pairs[0])[|pairs[0].name|] == EQUALS;
  }
}
