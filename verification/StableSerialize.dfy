/** The canonical serializer, a parser for its texts, and the theorem that each undoes the other. */
module StableSerialize {
  import opened Texts
  import opened Json

  const QUOTE: Unit := 0x22
  const BACKSLASH: Unit := 0x5C
  const COMMA: Unit := 0x2C
  const COLON: Unit := 0x3A
  const LBRACKET: Unit := 0x5B
  const RBRACKET: Unit := 0x5D
  const LBRACE: Unit := 0x7B
  const RBRACE: Unit := 0x7D
  const NULL: Str := [0x6E, 0x75, 0x6C, 0x6C]
  const TRUE: Str := [0x74, 0x72, 0x75, 0x65]
  const FALSE: Str := [0x66, 0x61, 0x6C, 0x73, 0x65]

  // ---------- string quoting: ECMA-262 section 25.5.2.2 ----------

  predicate HighSurrogate(u: Unit) { 0xD800 <= u <= 0xDBFF }
  predicate LowSurrogate(u: Unit) { 0xDC00 <= u <= 0xDFFF }

  function HexDigit(n: nat): Unit
    requires n < 16
  {
    if n < 10 then 0x30 + n else 0x61 + n - 10
  }

  function Hex4(u: Unit): Str {
    [HexDigit(u / 4096), HexDigit(u / 256 % 16), HexDigit(u / 16 % 16), HexDigit(u % 16)]
  }

  function Escape(u: Unit): (e: Str)
  {
    if u == 0x08 then [BACKSLASH, 0x62]
    else if u == 0x09 then [BACKSLASH, 0x74]
    else if u == 0x0A then [BACKSLASH, 0x6E]
    else if u == 0x0C then [BACKSLASH, 0x66]
    else if u == 0x0D then [BACKSLASH, 0x72]
    else if u == QUOTE || u == BACKSLASH then [BACKSLASH, u]
    else if u < 0x20 || HighSurrogate(u) || LowSurrogate(u) then [BACKSLASH, 0x75] + Hex4(u)
    else [u]
  }

  /** A surrogate pair is copied; every other unit is copied or escaped on its own. */
  function QuoteBody(t: Str): Str
    decreases |t|
  {
    if t == [] then []
    else if |t| > 1 && HighSurrogate(t[0]) && LowSurrogate(t[1]) then t[..2] + QuoteBody(t[2..])
    else Escape(t[0]) + QuoteBody(t[1..])
  }

  function Quote(t: Str): Str { [QUOTE] + QuoteBody(t) + [QUOTE] }

  // ---------- the serializer ----------

  /** Stable insertion by key: a property that came first goes ahead of all whose keys are not smaller. */
  function Insert(k: Str, v: Json, f: Fields, less: (Str, Str) -> bool): (r: Fields)
    ensures SizeFields(r) == 1 + Size(v) + SizeFields(f)
    ensures Keys(r) == {k} + Keys(f)
  {
    match f
    case End => Field(k, v, End)
    case Field(k', v', rest) =>
      if less(k', k) then Field(k', v', Insert(k, v, rest, less)) else Field(k, v, f)
    case Hole(k', rest) => Hole(k', Insert(k, v, rest, less))
  }

  /** The entries that are not `undefined`, sorted by key. */
  function SortedEntries(f: Fields, less: (Str, Str) -> bool): (r: Fields)
    ensures SizeFields(r) <= SizeFields(f)
    ensures Keys(r) <= Keys(f)
  {
    match f
    case End => End
    case Field(k, v, rest) => Insert(k, v, SortedEntries(rest, less), less)
    case Hole(_, rest) => SortedEntries(rest, less)
  }

  function Serialize(v: Json, less: (Str, Str) -> bool): Str
    decreases Size(v)
  {
    match v
    case Null => NULL
    case Bool(b) => if b then TRUE else FALSE
    case Num(t) => t
    case Text(t) => Quote(t)
    case Arr(items) => [LBRACKET] + SerializeItems(items, less) + [RBRACKET]
    case Obj(f) => [LBRACE] + SerializeEntries(SortedEntries(f, less), less) + [RBRACE]
  }

  function SerializeItems(items: Items, less: (Str, Str) -> bool): Str
    decreases SizeItems(items)
  {
    match items
    case Nil => []
    case Cons(h, Nil) => Serialize(h, less)
    case Cons(h, t) => Serialize(h, less) + [COMMA] + SerializeItems(t, less)
  }

  function SerializeEntries(f: Fields, less: (Str, Str) -> bool): Str
    decreases SizeFields(f)
  {
    match f
    case End => []
    case Field(k, v, End) => Quote(k) + [COLON] + Serialize(v, less)
    case Field(k, v, r) => Quote(k) + [COLON] + Serialize(v, less) + [COMMA] + SerializeEntries(r, less)
    case Hole(_, r) => SerializeEntries(r, less)
  }

  // ---------- the parser ----------

  datatype Parsed<+T> = Rejected | Parsed(value: T, rest: Str)

  function Unescape(s: Str): (r: Parsed<Unit>)
    ensures r.Parsed? ==> |r.rest| < |s|
  {
    if s == [] then Rejected
    else if s[0] == 0x62 then Parsed(0x08, s[1..])
    else if s[0] == 0x74 then Parsed(0x09, s[1..])
    else if s[0] == 0x6E then Parsed(0x0A, s[1..])
    else if s[0] == 0x66 then Parsed(0x0C, s[1..])
    else if s[0] == 0x72 then Parsed(0x0D, s[1..])
    else if s[0] == QUOTE || s[0] == BACKSLASH || s[0] == 0x2F then Parsed(s[0], s[1..])
    else if s[0] == 0x75 && |s| >= 5 then
      match (HexValue(s[1]), HexValue(s[2]), HexValue(s[3]), HexValue(s[4]))
      case (Some(a), Some(b), Some(c), Some(d)) =>
        var u := a * 4096 + b * 256 + c * 16 + d;
        if u < 0x10000 then Parsed(u, s[5..]) else Rejected
      case _ => Rejected
    else Rejected
  }

  /** Reads a string body up to and including its closing quote. */
  function Unquote(s: Str): (r: Parsed<Str>)
    ensures r.Parsed? ==> |r.rest| < |s|
    decreases |s|
  {
    if s == [] then Rejected
    else if s[0] == QUOTE then Parsed([], s[1..])
    else if s[0] == BACKSLASH then
      match Unescape(s[1..])
      case Rejected => Rejected
      case Parsed(u, rest) =>
        match Unquote(rest)
        case Rejected => Rejected
        case Parsed(t, rest') => Parsed([u] + t, rest')
    else if s[0] < 0x20 then Rejected
    else
      match Unquote(s[1..])
      case Rejected => Rejected
      case Parsed(t, rest) => Parsed([s[0]] + t, rest)
  }

  /** The length of the longest numeral-character prefix. */
  function Span(s: Str): (n: nat)
    ensures n <= |s|
  {
    if s != [] && NumeralUnit(s[0]) then 1 + Span(s[1..]) else 0
  }

  function Keyword(s: Str, word: Str, v: Json): (r: Parsed<Json>)
    ensures r.Parsed? && word != [] ==> |r.rest| < |s|
  {
    if word <= s then Parsed(v, s[|word|..]) else Rejected
  }

  function Parse(s: Str): (r: Parsed<Json>)
    ensures r.Parsed? ==> |r.rest| < |s|
    decreases |s|, 1
  {
    if s == [] then Rejected
    else if s[0] == 0x6E then Keyword(s, NULL, Null)
    else if s[0] == 0x74 then Keyword(s, TRUE, Bool(true))
    else if s[0] == 0x66 then Keyword(s, FALSE, Bool(false))
    else if s[0] == QUOTE then
      match Unquote(s[1..])
      case Rejected => Rejected
      case Parsed(t, rest) => Parsed(Text(t), rest)
    else if s[0] == LBRACKET then
      if |s| > 1 && s[1] == RBRACKET then Parsed(Arr(Nil), s[2..])
      else
        match ParseItems(s[1..])
        case Rejected => Rejected
        case Parsed(items, rest) => Parsed(Arr(items), rest)
    else if s[0] == LBRACE then
      if |s| > 1 && s[1] == RBRACE then Parsed(Obj(End), s[2..])
      else
        match ParseFields(s[1..])
        case Rejected => Rejected
        case Parsed(f, rest) => Parsed(Obj(f), rest)
    else
      var n := Span(s);
      if Numeral(s[..n]) then Parsed(Num(s[..n]), s[n..]) else Rejected
  }

  /** One or more values separated by commas, up to and including the closing bracket. */
  function ParseItems(s: Str): (r: Parsed<Items>)
    ensures r.Parsed? ==> |r.rest| < |s|
    decreases |s|, 2
  {
    match Parse(s)
    case Rejected => Rejected
    case Parsed(v, rest) =>
      if rest != [] && rest[0] == RBRACKET then Parsed(Cons(v, Nil), rest[1..])
      else if rest != [] && rest[0] == COMMA then
        match ParseItems(rest[1..])
        case Rejected => Rejected
        case Parsed(items, rest') => Parsed(Cons(v, items), rest')
      else Rejected
  }

  /** One or more members separated by commas, up to and including the closing brace. */
  function ParseFields(s: Str): (r: Parsed<Fields>)
    ensures r.Parsed? ==> |r.rest| < |s|
    decreases |s|, 2
  {
    if s == [] || s[0] != QUOTE then Rejected
    else
      match Unquote(s[1..])
      case Rejected => Rejected
      case Parsed(k, rest) =>
        if rest == [] || rest[0] != COLON then Rejected
        else
          match Parse(rest[1..])
          case Rejected => Rejected
          case Parsed(v, rest') =>
            if rest' != [] && rest'[0] == RBRACE then Parsed(Field(k, v, End), rest'[1..])
            else if rest' != [] && rest'[0] == COMMA then
              match ParseFields(rest'[1..])
              case Rejected => Rejected
              case Parsed(f, rest'') => Parsed(Field(k, v, f), rest'')
            else Rejected
  }

  // ---------- canonical values ----------

  /** The value with `undefined` properties dropped and keys sorted at every depth. */
  function Canon(v: Json, less: (Str, Str) -> bool): Json
    decreases Size(v)
  {
    match v
    case Arr(items) => Arr(CanonItems(items, less))
    case Obj(f) => Obj(CanonEntries(SortedEntries(f, less), less))
    case _ => v
  }

  function CanonItems(items: Items, less: (Str, Str) -> bool): Items
    decreases SizeItems(items)
  {
    match items
    case Nil => Nil
    case Cons(h, t) => Cons(Canon(h, less), CanonItems(t, less))
  }

  function CanonEntries(f: Fields, less: (Str, Str) -> bool): (r: Fields)
    ensures Keys(r) <= Keys(f)
    decreases SizeFields(f)
  {
    match f
    case End => End
    case Field(k, v, r) => Field(k, Canon(v, less), CanonEntries(r, less))
    case Hole(_, r) => CanonEntries(r, less)
  }

  ghost predicate NoHoles(f: Fields) {
    match f
    case End => true
    case Field(_, _, r) => NoHoles(r)
    case Hole(_, _) => false
  }

  lemma {:induction false} InsertValid(k: Str, v: Json, f: Fields, less: (Str, Str) -> bool)
    requires NoHoles(f) && ValidFields(f) && Valid(v) && k !in Keys(f)
    ensures NoHoles(Insert(k, v, f, less)) && ValidFields(Insert(k, v, f, less))
  {
    if f.Field? && less(f.key, k) {
      InsertValid(k, v, f.rest, less);
    }
  }

  lemma {:induction false} InsertMeaning(k: Str, v: Json, f: Fields, less: (Str, Str) -> bool)
    requires NoHoles(f) && k !in Keys(f)
    ensures MeaningFields(Insert(k, v, f, less)) == MeaningFields(f)[k := Meaning(v)]
  {
    if f.Field? && less(f.key, k) {
      InsertMeaning(k, v, f.rest, less);
      var m: map<Str, Value> := MeaningFields(f.rest);
      var x, y := Meaning(v), Meaning(f.value);
      assert m[k := x][f.key := y] == m[f.key := y][k := x];
    }
  }

  lemma {:induction false} SortKeeps(f: Fields, less: (Str, Str) -> bool)
    requires ValidFields(f)
    ensures NoHoles(SortedEntries(f, less)) && ValidFields(SortedEntries(f, less))
    ensures MeaningFields(SortedEntries(f, less)) == MeaningFields(f)
  {
    match f
    case End =>
    case Field(k, v, r) =>
      SortKeeps(r, less);
      InsertValid(k, v, SortedEntries(r, less), less);
      InsertMeaning(k, v, SortedEntries(r, less), less);
    case Hole(_, r) => SortKeeps(r, less);
  }

  // ---------- strings round trip ----------

  lemma HexDigitValue(n: nat)
    requires n < 16
    ensures HexValue(HexDigit(n)) == Some(n)
  {
  }

  lemma HexSplit(u: nat)
    ensures u / 4096 == u / 16 / 16 / 16 && u / 256 == u / 16 / 16
    ensures u == u / 16 / 16 / 16 * 4096 + u / 16 / 16 % 16 * 256 + u / 16 % 16 * 16 + u % 16
  {
  }

  lemma Hex4RoundTrip(u: Unit, rest: Str)
    ensures Unescape([0x75] + Hex4(u) + rest) == Parsed(u, rest)
  {
    var a, b, c, d := u / 4096, u / 256 % 16, u / 16 % 16, u % 16;
    HexSplit(u);
    HexDigitValue(a);
    HexDigitValue(b);
    HexDigitValue(c);
    HexDigitValue(d);
    var s := [0x75] + [HexDigit(a), HexDigit(b), HexDigit(c), HexDigit(d)] + rest;
    assert s[1] == HexDigit(a) && s[2] == HexDigit(b) && s[3] == HexDigit(c) && s[4] == HexDigit(d);
    assert s[5..] == rest;
  }

  lemma EscapeRoundTrip(u: Unit, rest: Str)
    ensures Escape(u)[0] == BACKSLASH ==> Unescape(Escape(u)[1..] + rest) == Parsed(u, rest)
    ensures Escape(u)[0] != BACKSLASH ==> Escape(u) == [u] && u != QUOTE && u >= 0x20
  {
    if Escape(u) == [BACKSLASH, 0x75] + Hex4(u) {
      Hex4RoundTrip(u, rest);
      assert Escape(u)[1..] == [0x75] + Hex4(u);
    }
  }

  lemma Assoc(a: Str, b: Str, c: Str)
    ensures a + b + c == a + (b + c)
  {
  }

  lemma UnquoteRaw(u: Unit, t: Str, s: Str, rest: Str)
    requires u != QUOTE && u != BACKSLASH && u >= 0x20 && Unquote(s) == Parsed(t, rest)
    ensures Unquote([u] + s) == Parsed([u] + t, rest)
  {
    assert ([u] + s)[1..] == s;
  }

  lemma UnquoteEscaped(u: Unit, t: Str, s: Str, rest: Str)
    requires Escape(u)[0] == BACKSLASH && Unquote(s) == Parsed(t, rest)
    ensures Unquote(Escape(u) + s) == Parsed([u] + t, rest)
  {
    EscapeRoundTrip(u, s);
    assert (Escape(u) + s)[1..] == Escape(u)[1..] + s;
  }

  lemma {:induction false} UnquoteBody(t: Str, close: Str, rest: Str)
    requires Unquote(close) == Parsed([], rest)
    ensures Unquote(QuoteBody(t) + close) == Parsed(t, rest)
    decreases |t|
  {
    if t == [] {
      assert QuoteBody(t) + close == close;
    } else if |t| > 1 && HighSurrogate(t[0]) && LowSurrogate(t[1]) {
      UnquoteBody(t[2..], close, rest);
      UnquotePair(t, QuoteBody(t[2..]), close, rest);
    } else {
      UnquoteBody(t[1..], close, rest);
      UnquoteUnit(t, QuoteBody(t[1..]), close, rest);
    }
  }

  lemma UnquotePair(t: Str, body: Str, close: Str, rest: Str)
    requires |t| > 1 && HighSurrogate(t[0]) && LowSurrogate(t[1])
    requires Unquote(body + close) == Parsed(t[2..], rest)
    ensures Unquote(t[..2] + body + close) == Parsed(t, rest)
  {
    UnquoteRaw(t[1], t[2..], body + close, rest);
    UnquoteRaw(t[0], [t[1]] + t[2..], [t[1]] + (body + close), rest);
    assert t[..2] + body + close == [t[0]] + ([t[1]] + (body + close));
    assert t == [t[0]] + ([t[1]] + t[2..]);
  }

  lemma UnquoteUnit(t: Str, body: Str, close: Str, rest: Str)
    requires t != [] && Unquote(body + close) == Parsed(t[1..], rest)
    ensures Unquote(Escape(t[0]) + body + close) == Parsed(t, rest)
  {
    Assoc(Escape(t[0]), body, close);
    assert t == [t[0]] + t[1..];
    EscapeRoundTrip(t[0], body + close);
    if Escape(t[0])[0] == BACKSLASH {
      UnquoteEscaped(t[0], t[1..], body + close, rest);
    } else {
      UnquoteRaw(t[0], t[1..], body + close, rest);
    }
  }

  /** Reading back a quoted string gives the string, for every sequence of code units. */
  lemma QuoteRoundTrip(t: Str, rest: Str)
    ensures Unquote(QuoteBody(t) + [QUOTE] + rest) == Parsed(t, rest)
  {
    Assoc(QuoteBody(t), [QUOTE], rest);
    assert ([QUOTE] + rest)[1..] == rest;
    UnquoteBody(t, [QUOTE] + rest, rest);
  }

  // ---------- values round trip ----------

  /** What may follow a value: nothing, or a character that no numeral contains. */
  ghost predicate Delimited(rest: Str) { rest != [] ==> !NumeralUnit(rest[0]) }

  lemma {:induction false} SpanOfNumeral(t: Str, rest: Str)
    requires forall u | u in t :: NumeralUnit(u)
    requires Delimited(rest)
    ensures Span(t + rest) == |t|
    decreases |t|
  {
    if t == [] {
      assert t + rest == rest;
    } else {
      assert t[0] in t;
      assert (t + rest)[1..] == t[1..] + rest;
      SpanOfNumeral(t[1..], rest);
    }
  }

  lemma NumeralRoundTrip(t: Str, rest: Str)
    requires Numeral(t) && Delimited(rest)
    ensures Parse(t + rest) == Parsed(Num(t), rest)
  {
    SpanOfNumeral(t, rest);
    assert (t + rest)[..|t|] == t && (t + rest)[|t|..] == rest;
  }

  lemma KeywordRoundTrip(rest: Str)
    ensures Parse(NULL + rest) == Parsed(Null, rest)
    ensures Parse(TRUE + rest) == Parsed(Bool(true), rest)
    ensures Parse(FALSE + rest) == Parsed(Bool(false), rest)
  {
    assert (NULL + rest)[4..] == rest && (TRUE + rest)[4..] == rest && (FALSE + rest)[5..] == rest;
  }

  lemma TextRoundTrip(t: Str, rest: Str)
    ensures Parse(Quote(t) + rest) == Parsed(Text(t), rest)
  {
    QuoteRoundTrip(t, rest);
    assert (Quote(t) + rest)[1..] == QuoteBody(t) + [QUOTE] + rest;
  }

  /** Every serialized value starts with a character that closes no array or object. */
  lemma SerializeStarts(v: Json, less: (Str, Str) -> bool)
    requires Valid(v)
    ensures Serialize(v, less) != []
    ensures Serialize(v, less)[0] != RBRACKET && Serialize(v, less)[0] != RBRACE
  {
  }

  /** Parsing a serialized value gives back its canonical form and exactly the text that follows. */
  lemma {:induction false} ParseSerialize(v: Json, less: (Str, Str) -> bool, rest: Str)
    requires Valid(v) && Delimited(rest)
    ensures Parse(Serialize(v, less) + rest) == Parsed(Canon(v, less), rest)
    decreases Size(v), 1
  {
    match v
    case Null => KeywordRoundTrip(rest);
    case Bool(b) => KeywordRoundTrip(rest);
    case Num(t) => NumeralRoundTrip(t, rest);
    case Text(t) => TextRoundTrip(t, rest);
    case Arr(items) => ParseSerializeArray(items, less, rest);
    case Obj(f) =>
      SortKeeps(f, less);
      ParseSerializeObject(SortedEntries(f, less), less, rest);
  }

  lemma {:induction false} ParseSerializeArray(items: Items, less: (Str, Str) -> bool, rest: Str)
    requires ValidItems(items)
    ensures Parse([LBRACKET] + SerializeItems(items, less) + [RBRACKET] + rest)
         == Parsed(Arr(CanonItems(items, less)), rest)
    decreases SizeItems(items), 3
  {
    var body := SerializeItems(items, less) + [RBRACKET] + rest;
    var s := [LBRACKET] + SerializeItems(items, less) + [RBRACKET] + rest;
    assert s == [LBRACKET] + body && s[1..] == body;
    if items == Nil {
      assert body == [RBRACKET] + rest && s[2..] == rest;
    } else {
      SerializeStarts(items.head, less);
      assert body[0] == Serialize(items.head, less)[0];
      ParseSerializeItems(items, less, rest);
    }
  }

  lemma {:induction false} ParseSerializeItems(items: Items, less: (Str, Str) -> bool, rest: Str)
    requires items.Cons? && ValidItems(items)
    ensures ParseItems(SerializeItems(items, less) + [RBRACKET] + rest) == Parsed(CanonItems(items, less), rest)
    decreases SizeItems(items), 2
  {
    var close := [RBRACKET] + rest;
    var h := Serialize(items.head, less);
    Assoc(SerializeItems(items, less), [RBRACKET], rest);
    if items.tail == Nil {
      ParseSerialize(items.head, less, close);
      assert close[1..] == rest;
    } else {
      var tail := SerializeItems(items.tail, less);
      Assoc(tail, [RBRACKET], rest);
      Assoc(h, [COMMA], tail);
      Assoc(h, [COMMA] + tail, close);
      Assoc([COMMA], tail, close);
      ParseSerialize(items.head, less, [COMMA] + (tail + close));
      assert ([COMMA] + (tail + close))[1..] == tail + close;
      ParseSerializeItems(items.tail, less, rest);
    }
  }

  lemma {:induction false} ParseSerializeObject(f: Fields, less: (Str, Str) -> bool, rest: Str)
    requires ValidFields(f) && NoHoles(f)
    ensures Parse([LBRACE] + SerializeEntries(f, less) + [RBRACE] + rest)
         == Parsed(Obj(CanonEntries(f, less)), rest)
    decreases SizeFields(f), 3
  {
    var body := SerializeEntries(f, less) + [RBRACE] + rest;
    var s := [LBRACE] + SerializeEntries(f, less) + [RBRACE] + rest;
    assert s == [LBRACE] + body && s[1..] == body;
    if f == End {
      assert body == [RBRACE] + rest && s[2..] == rest;
    } else {
      assert body[0] == QUOTE;
      ParseSerializeEntries(f, less, rest);
    }
  }

  /** The text of one member: a quoted key, a colon, and the text of the value before what follows. */
  ghost predicate MemberText(s: Str, key: Str, text: Str) {
    s != [] && s[0] == QUOTE && s[1..] == QuoteBody(key) + [QUOTE] + ([COLON] + text)
  }

  lemma UnquoteMember(s: Str, key: Str, text: Str)
    requires MemberText(s, key, text)
    ensures Unquote(s[1..]) == Parsed(key, [COLON] + text) && ([COLON] + text)[1..] == text
  {
    QuoteRoundTrip(key, [COLON] + text);
  }

  lemma ParseLastMember(s: Str, key: Str, text: Str, v: Json, rest: Str)
    requires MemberText(s, key, text) && Parse(text) == Parsed(v, [RBRACE] + rest)
    ensures ParseFields(s) == Parsed(Field(key, v, End), rest)
  {
    UnquoteMember(s, key, text);
    assert ([RBRACE] + rest)[1..] == rest;
  }

  lemma ParseMoreMembers(s: Str, key: Str, text: Str, v: Json, more: Str, f: Fields, rest: Str)
    requires MemberText(s, key, text) && Parse(text) == Parsed(v, [COMMA] + more)
    requires ParseFields(more) == Parsed(f, rest)
    ensures ParseFields(s) == Parsed(Field(key, v, f), rest)
  {
    UnquoteMember(s, key, text);
    assert ([COMMA] + more)[1..] == more;
  }

  lemma {:induction false} ParseSerializeEntries(f: Fields, less: (Str, Str) -> bool, rest: Str)
    requires f.Field? && ValidFields(f) && NoHoles(f)
    ensures ParseFields(SerializeEntries(f, less) + [RBRACE] + rest) == Parsed(CanonEntries(f, less), rest)
    decreases SizeFields(f), 2
  {
    var s := SerializeEntries(f, less) + [RBRACE] + rest;
    var value, v := Serialize(f.value, less), Canon(f.value, less);
    if f.rest == End {
      var after := [RBRACE] + rest;
      ParseSerialize(f.value, less, after);
      EntrySplits(f, less, rest, s, value, after);
      ParseLastMember(s, f.key, value + after, v, rest);
    } else {
      var more := SerializeEntries(f.rest, less) + [RBRACE] + rest;
      var after := [COMMA] + more;
      ParseSerialize(f.value, less, after);
      EntrySplits(f, less, rest, s, value, after);
      ParseSerializeEntries(f.rest, less, rest);
      ParseMoreMembers(s, f.key, value + after, v, more, CanonEntries(f.rest, less), rest);
    }
  }

  lemma EntrySplits(f: Fields, less: (Str, Str) -> bool, rest: Str, s: Str, value: Str, after: Str)
    requires f.Field?
    requires s == SerializeEntries(f, less) + [RBRACE] + rest
    requires value == Serialize(f.value, less)
    requires after == if f.rest == End then [RBRACE] + rest
                      else [COMMA] + (SerializeEntries(f.rest, less) + [RBRACE] + rest)
    ensures MemberText(s, f.key, value + after)
  {
    var key := Quote(f.key);
    Assoc(SerializeEntries(f, less), [RBRACE], rest);
    if f.rest == End {
      Assoc(key + [COLON], value, after);
    } else {
      var tail := SerializeEntries(f.rest, less);
      Assoc(tail, [RBRACE], rest);
      SplitTail(key + [COLON], value, [COMMA], tail, [RBRACE] + rest);
    }
    Assoc(key, [COLON], value + after);
    assert s == key + ([COLON] + (value + after));
    Assoc([QUOTE], QuoteBody(f.key), [QUOTE]);
    Assoc([QUOTE], QuoteBody(f.key) + [QUOTE], [COLON] + (value + after));
  }

  lemma SplitTail(a: Str, b: Str, c: Str, d: Str, e: Str)
    ensures a + b + c + d + e == a + (b + (c + (d + e)))
  {
    Assoc(a + b + c, d, e);
    Assoc(a + b, c, d + e);
    Assoc(a, b, c + (d + e));
  }

  // ---------- canonical forms and meanings ----------

  lemma {:induction false} CanonKeepsMeaning(v: Json, less: (Str, Str) -> bool)
    requires Valid(v)
    ensures Meaning(Canon(v, less)) == Meaning(v)
    decreases Size(v)
  {
    match v
    case Arr(items) => CanonItemsKeepMeaning(items, less);
    case Obj(f) =>
      SortKeeps(f, less);
      CanonEntriesKeepMeaning(SortedEntries(f, less), less);
    case _ =>
  }

  lemma {:induction false} CanonItemsKeepMeaning(items: Items, less: (Str, Str) -> bool)
    requires ValidItems(items)
    ensures MeaningItems(CanonItems(items, less)) == MeaningItems(items)
    decreases SizeItems(items)
  {
    if items.Cons? {
      CanonKeepsMeaning(items.head, less);
      CanonItemsKeepMeaning(items.tail, less);
    }
  }

  lemma {:induction false} CanonEntriesKeepMeaning(f: Fields, less: (Str, Str) -> bool)
    requires ValidFields(f)
    ensures MeaningFields(CanonEntries(f, less)) == MeaningFields(f)
    decreases SizeFields(f)
  {
    match f
    case End =>
    case Field(_, v, r) =>
      CanonKeepsMeaning(v, less);
      CanonEntriesKeepMeaning(r, less);
    case Hole(_, r) => CanonEntriesKeepMeaning(r, less);
  }

  /** The whole text parses to the canonical form, which means what the value means, with nothing left over. */
  lemma SerializeRoundTrip(v: Json, less: (Str, Str) -> bool)
    requires Valid(v)
    ensures Parse(Serialize(v, less)) == Parsed(Canon(v, less), [])
    ensures Meaning(Canon(v, less)) == Meaning(v)
  {
    ParseSerialize(v, less, []);
    assert Serialize(v, less) + [] == Serialize(v, less);
    CanonKeepsMeaning(v, less);
  }

  // ---------- the text is the text of the canonical form ----------

  lemma {:induction false} SameCanonSameText(v: Json, w: Json, less: (Str, Str) -> bool)
    requires Valid(v) && Valid(w) && Canon(v, less) == Canon(w, less)
    ensures Serialize(v, less) == Serialize(w, less)
    decreases Size(v)
  {
    match v
    case Arr(items) => SameCanonSameItems(items, w.items, less);
    case Obj(f) =>
      SortKeeps(f, less);
      SortKeeps(w.fields, less);
      SameCanonSameEntries(SortedEntries(f, less), SortedEntries(w.fields, less), less);
    case _ =>
  }

  lemma {:induction false} SameCanonSameItems(a: Items, b: Items, less: (Str, Str) -> bool)
    requires ValidItems(a) && ValidItems(b) && CanonItems(a, less) == CanonItems(b, less)
    ensures SerializeItems(a, less) == SerializeItems(b, less)
    decreases SizeItems(a)
  {
    if a.Cons? {
      SameCanonSameText(a.head, b.head, less);
      SameCanonSameItems(a.tail, b.tail, less);
    }
  }

  lemma {:induction false} SameCanonSameEntries(f: Fields, g: Fields, less: (Str, Str) -> bool)
    requires ValidFields(f) && ValidFields(g) && NoHoles(f) && NoHoles(g)
    requires CanonEntries(f, less) == CanonEntries(g, less)
    ensures SerializeEntries(f, less) == SerializeEntries(g, less)
    decreases SizeFields(f)
  {
    if f.Field? {
      SameCanonSameText(f.value, g.value, less);
      SameCanonSameEntries(f.rest, g.rest, less);
    }
  }

  /** Two values print alike exactly when they have one canonical form, whatever the comparator. */
  lemma SameTextIffSameCanon(v: Json, w: Json, less: (Str, Str) -> bool)
    requires Valid(v) && Valid(w)
    ensures Serialize(v, less) == Serialize(w, less) <==> Canon(v, less) == Canon(w, less)
  {
    SerializeRoundTrip(v, less);
    SerializeRoundTrip(w, less);
    if Canon(v, less) == Canon(w, less) { SameCanonSameText(v, w, less); }
  }

  /** One text has one meaning, whatever comparators it was printed with. */
  lemma SameTextSameMeaning(v: Json, w: Json, less: (Str, Str) -> bool, less': (Str, Str) -> bool)
    requires Valid(v) && Valid(w) && Serialize(v, less) == Serialize(w, less')
    ensures Meaning(v) == Meaning(w)
  {
    SerializeRoundTrip(v, less);
    SerializeRoundTrip(w, less');
  }

  // ---------- the tokens ----------

  /** `null`, `true`, `false`, numerals and strings, as RFC 8259 writes them. */
  lemma ScalarTokens(t: Str, less: (Str, Str) -> bool)
    ensures Serialize(Null, less) == S("null")
    ensures Serialize(Bool(true), less) == S("true") && Serialize(Bool(false), less) == S("false")
    ensures Serialize(Num(t), less) == t && Serialize(Text(t), less) == S("\"") + QuoteBody(t) + S("\"")
  {
    assert S("null") == NULL && S("true") == TRUE && S("false") == FALSE && S("\"") == [QUOTE];
  }

  /** Brackets and commas. */
  lemma ListTokens(a: Json, b: Json, less: (Str, Str) -> bool)
    ensures Serialize(Arr(Nil), less) == S("[]")
    ensures Serialize(Arr(Cons(a, Cons(b, Nil))), less)
         == S("[") + (Serialize(a, less) + S(",") + Serialize(b, less)) + S("]")
  {
    assert S("[") == [LBRACKET] && S("]") == [RBRACKET] && S(",") == [COMMA];
    assert S("[]") == [LBRACKET] + [] + [RBRACKET];
    assert SerializeItems(Cons(b, Nil), less) == Serialize(b, less);
    assert SerializeItems(Cons(a, Cons(b, Nil)), less) == Serialize(a, less) + [COMMA] + Serialize(b, less);
  }

  lemma SortsTwo(a: Json, b: Json, k: Str, l: Str, less: (Str, Str) -> bool)
    requires less(k, l)
    ensures SortedEntries(Field(l, b, Field(k, a, End)), less) == Field(k, a, Field(l, b, End))
  {
    assert SortedEntries(End, less) == End;
    assert SortedEntries(Field(k, a, End), less) == Insert(k, a, End, less) == Field(k, a, End);
    assert Insert(l, b, End, less) == Field(l, b, End);
  }

  /** Braces, colons and commas; the smaller key comes first. */
  lemma ObjectTokens(a: Json, b: Json, k: Str, l: Str, less: (Str, Str) -> bool)
    requires less(k, l)
    ensures Serialize(Obj(End), less) == S("{}")
    ensures Serialize(Obj(Field(l, b, Field(k, a, End))), less)
         == S("{") + (Quote(k) + S(":") + Serialize(a, less) + S(",") + (Quote(l) + S(":") + Serialize(b, less)))
            + S("}")
  {
    assert S("{") == [LBRACE] && S("}") == [RBRACE] && S(":") == [COLON] && S(",") == [COMMA];
    assert S("{}") == [LBRACE] + [] + [RBRACE];
    SortsTwo(a, b, k, l, less);
    assert SerializeEntries(Field(l, b, End), less) == Quote(l) + [COLON] + Serialize(b, less);
    assert SerializeEntries(Field(k, a, Field(l, b, End)), less)
        == Quote(k) + [COLON] + Serialize(a, less) + [COMMA] + SerializeEntries(Field(l, b, End), less);
  }

  /** Which units are escaped, and how: everything else is copied. */
  lemma EscapeLaw(u: Unit)
    ensures u == Code('\"') ==> Escape(u) == S("\\\"")
    ensures u == Code('\\') ==> Escape(u) == S("\\\\")
    ensures u == 0x08 ==> Escape(u) == S("\\b")
    ensures u == 0x09 ==> Escape(u) == S("\\t")
    ensures u == 0x0A ==> Escape(u) == S("\\n")
    ensures u == 0x0C ==> Escape(u) == S("\\f")
    ensures u == 0x0D ==> Escape(u) == S("\\r")
    ensures u == Code('\"') || u == Code('\\') || u < 0x20 || 0xD800 <= u <= 0xDFFF <==> Escape(u) != [u]
    ensures Escape(u) != [u] && u !in {Code('\"'), Code('\\'), 0x08, 0x09, 0x0A, 0x0C, 0x0D} ==>
      && |Escape(u)| == 6 && Escape(u)[..2] == S("\\u")
      && Escape(u)[2] == S("0123456789abcdef")[u / 4096] && Escape(u)[3] == S("0123456789abcdef")[u / 256 % 16]
      && Escape(u)[4] == S("0123456789abcdef")[u / 16 % 16] && Escape(u)[5] == S("0123456789abcdef")[u % 16]
  {
    LowerHexDigit(u / 4096);
    LowerHexDigit(u / 256 % 16);
    LowerHexDigit(u / 16 % 16);
    LowerHexDigit(u % 16);
  }

  lemma LowerHexDigit(n: nat)
    requires n < 16
    ensures HexDigit(n) == S("0123456789abcdef")[n]
  {
  }

  /** A surrogate pair is copied. */
  lemma PairIsCopied(h: Unit, l: Unit, rest: Str)
    requires 0xD800 <= h <= 0xDBFF && 0xDC00 <= l <= 0xDFFF
    ensures QuoteBody([h, l] + rest) == [h, l] + QuoteBody(rest)
  {
    assert ([h, l] + rest)[..2] == [h, l] && ([h, l] + rest)[2..] == rest;
  }
}
