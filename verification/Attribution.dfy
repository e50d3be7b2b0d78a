/** The Mini Program's handoff link, and the attribution another module reads back from it. */
module Attribution {
  import opened Texts
  import opened TextOps
  import opened FormUrl

  // ---------- https URLs ----------

  const SCHEME: Str := S("https://")
  const SLASH: Unit := 0x2F
  const QUESTION: Unit := 0x3F
  const HASH: Unit := 0x23

  datatype Url = Url(host: Str, path: Str, params: Pairs)

  /** What comes from outside: the URL parser's host parsing, UTF-8, and `toLowerCase`. */
  datatype Platform = Platform(host: Str -> Option<Str>, codec: Codec, lower: Str -> Str)

  const COLON: Unit := 0x3A
  const OPEN_BRACKET: Unit := 0x5B
  const CLOSE_BRACKET: Unit := 0x5D

  /** Tab, line feed, carriage return, `#`, `/`, `?`, `@` and the backslash end a host or are dropped from it. */
  const DELIMITERS: set<Unit> := {0x09, 0x0A, 0x0D, HASH, SLASH, QUESTION, 0x40, 0x5C}

  /** An IPv6 address in brackets, the only host text that holds colons. */
  predicate Bracketed(h: Str) {
    && |h| > 1 && h[0] == OPEN_BRACKET && h[|h| - 1] == CLOSE_BRACKET
    && forall i | 0 <= i < |h| - 1 :: h[i] != CLOSE_BRACKET
  }

  /** What may stand between `https://` and the path: no delimiter, no credentials, no port. */
  predicate HostText(h: Str) {
    && h != [] && (forall i | 0 <= i < |h| :: h[i] !in DELIMITERS)
    && ((forall i | 0 <= i < |h| :: h[i] != COLON) || Bracketed(h))
  }

  /** The host that the parser makes of this hostname, if any, is a host text that parses to itself. */
  predicate HostSettles(hostname: Str, p: Platform) {
    p.host(hostname).Some? ==>
      HostText(p.host(hostname).value) && p.host(p.host(hostname).value) == p.host(hostname)
  }

  /** UTF-8 leaves ASCII alone, and lower-casing changes only the letters of ASCII. */
  ghost predicate Standard(p: Platform) {
    forall s | IsAscii(s) :: p.codec.encode(s) == s && p.codec.decode(s) == s && p.lower(s) == AsciiLower(s)
  }

  function AsciiLowerUnit(u: Unit): Unit { if 0x41 <= u <= 0x5A then u + 0x20 else u }

  function AsciiLower(s: Str): (r: Str)
    ensures |r| == |s| && forall i | 0 <= i < |s| :: r[i] == AsciiLowerUnit(s[i])
  {
    seq(|s|, i requires 0 <= i < |s| => AsciiLowerUnit(s[i]))
  }

  function StopAt(s: Str, stops: set<Unit>): (i: nat)
    ensures i <= |s| && (i < |s| ==> s[i] in stops) && forall j | 0 <= j < i :: s[j] !in stops
    decreases |s|
  {
    if s == [] || s[0] in stops then 0 else 1 + StopAt(s[1..], stops)
  }

  lemma {:induction false} StopsAfter(a: Str, b: Str, stops: set<Unit>)
    requires forall i | 0 <= i < |a| :: a[i] !in stops
    requires b != [] ==> b[0] in stops
    ensures StopAt(a + b, stops) == |a|
    ensures (a + b)[..|a|] == a && (a + b)[|a|..] == b
    decreases |a|
  {
    if a == [] {
      assert a + b == b;
    } else {
      assert (a + b)[1..] == a[1..] + b;
      StopsAfter(a[1..], b, stops);
    }
  }

  /** The path and the query after the authority; a fragment ends both. */
  function ParseAfterHost(after: Str): (Str, Str) {
    var j := StopAt(after, {QUESTION, HASH});
    var path := if j == 0 then [SLASH] else after[..j];
    var tail := after[j..];
    (path, if tail != [] && tail[0] == QUESTION then tail[1..][..StopAt(tail[1..], {HASH})] else [])
  }

  /** `new URL(text)` for https texts without credentials or port; paths are taken as written. */
  function ParseUrl(s: Str, p: Platform): Option<Url> {
    if !(SCHEME <= s) then None
    else
      var rest := s[|SCHEME|..];
      var i := StopAt(rest, {SLASH, QUESTION, HASH});
      if !HostText(rest[..i]) || p.host(rest[..i]).None? then None
      else
        var (path, query) := ParseAfterHost(rest[i..]);
        Some(Url(p.host(rest[..i]).value, path, Parse(query, p.codec)))
  }

  /** `url.toString()` after the search parameters were set. */
  function Href(u: Url, p: Platform): Str
    requires forall i | 0 <= i < |u.params| ::
      IsBytes(p.codec.encode(u.params[i].0)) && IsBytes(p.codec.encode(u.params[i].1))
  {
    var query := Serialize(u.params, p.codec);
    SCHEME + u.host + u.path + Tail(query)
  }

  lemma {:induction false} JoinHas(parts: seq<Str>, sep: Unit, u: Unit)
    requires u != sep && forall i | 0 <= i < |parts| :: u !in parts[i]
    ensures u !in Join(parts, [sep])
    decreases |parts|
  {
    if |parts| > 1 { JoinHas(parts[1..], sep, u); }
  }

  lemma SerializedHasNoHash(params: Pairs, c: Codec)
    requires AllFaithful(params, c)
    ensures HASH !in Serialize(params, c)
  {
    forall i | 0 <= i < |params| ensures HASH !in PairTexts(params, c)[i] {
      assert HASH !in Encode(params[i].0, c) && HASH !in Encode(params[i].1, c);
    }
    JoinHas(PairTexts(params, c), AMPERSAND, HASH);
  }

  function Tail(q: Str): Str { if q == [] then [] else [QUESTION] + q }

  lemma ParsesAfterHost(q: Str)
    requires HASH !in q
    ensures ParseAfterHost([SLASH] + Tail(q)) == ([SLASH], q)
  {
    StopsAfter([SLASH], Tail(q), {QUESTION, HASH});
    if q != [] {
      assert Tail(q)[1..] == q && q + [] == q;
      StopsAfter(q, [], {HASH});
    }
  }

  lemma ParsesHost(host: Str, after: Str, p: Platform)
    requires HostText(host) && p.host(host) == Some(host) && after != [] && after[0] == SLASH
    ensures ParseUrl(SCHEME + (host + after), p)
         == Some(Url(host, ParseAfterHost(after).0, Parse(ParseAfterHost(after).1, p.codec)))
  {
    var s := SCHEME + (host + after);
    assert s[|SCHEME|..] == host + after;
    StopsAfter(host, after, {SLASH, QUESTION, HASH});
  }

  lemma LinkShape(host: Str, tail: Str)
    ensures SCHEME + host + [SLASH] + tail == SCHEME + (host + ([SLASH] + tail))
  {
    assert SCHEME + host + [SLASH] + tail == (SCHEME + host) + ([SLASH] + tail);
  }

  /** Reading a printed link gives the link back. */
  lemma UrlRoundTrip(u: Url, p: Platform)
    requires HostText(u.host) && p.host(u.host) == Some(u.host) && u.path == [SLASH]
    requires AllFaithful(u.params, p.codec)
    ensures ParseUrl(Href(u, p), p) == Some(u)
  {
    var q := Serialize(u.params, p.codec);
    FormRoundTrip(u.params, p.codec);
    SerializedHasNoHash(u.params, p.codec);
    ParsesAfterHost(q);
    LinkShape(u.host, Tail(q));
    ParsesHost(u.host, [SLASH] + Tail(q), p);
  }

  // ---------- the printer ----------

  const UTM_SOURCE: Str := S("utm_source")
  const UTM_CAMPAIGN: Str := S("utm_campaign")
  const UTM_CONTENT: Str := S("utm_content")
  const MO_SOURCE: Str := S("mo_source")
  const MO_CAMPAIGN: Str := S("mo_campaign")
  const MO_CONTENT: Str := S("mo_content")
  const MO_REFERRAL: Str := S("mo_referral")
  const MINI_PROGRAM: Str := S("wechat-mini-program")

  predicate TokenUnit(u: Unit) { Alphanumeric(u) || u in {0x2E, 0x5F, 0x7E, 0x2D} }

  /** `^[A-Za-z0-9][A-Za-z0-9._~-]{0,79}$` */
  predicate Token(s: Str) {
    1 <= |s| <= 80 && Alphanumeric(s[0]) && forall i | 0 <= i < |s| :: TokenUnit(s[i])
  }

  datatype Entry = Entry(campaign: Option<Str>, content: Option<Str>, referral: Option<Str>)

  /** What the entry parser guarantees. */
  predicate EntryOk(e: Entry) {
    && (e.campaign.Some? ==> Token(e.campaign.value))
    && (e.content.Some? ==> Token(e.content.value))
    && (e.referral.Some? ==> Token(e.referral.value))
  }

  function Content(e: Entry, productId: Str): Str { if e.content.Some? then e.content.value else productId }

  lemma KeysApart()
    ensures UTM_SOURCE !in {UTM_CAMPAIGN, UTM_CONTENT, MO_SOURCE, MO_CAMPAIGN, MO_CONTENT, MO_REFERRAL}
    ensures UTM_CAMPAIGN !in {UTM_CONTENT, MO_SOURCE, MO_CAMPAIGN, MO_CONTENT, MO_REFERRAL}
    ensures UTM_CONTENT !in {MO_SOURCE, MO_CAMPAIGN, MO_CONTENT, MO_REFERRAL}
    ensures MO_REFERRAL !in {MO_SOURCE, MO_CAMPAIGN, MO_CONTENT}
  {
    assert UTM_SOURCE[0] == Code('u') && MO_CONTENT[0] == Code('m') && UTM_CONTENT[0] == Code('u');
    assert MO_REFERRAL[0] == Code('m') && MO_CAMPAIGN[0] == Code('m');
    assert MO_REFERRAL[3] == Code('r') && MO_CAMPAIGN[3] == Code('c');
  }

  lemma AsciiFaithful(s: Str, p: Platform)
    requires Standard(p) && IsAscii(s)
    ensures Faithful(p.codec, s)
  {
  }

  lemma NamesAscii()
    ensures IsAscii(UTM_SOURCE) && IsAscii(UTM_CAMPAIGN) && IsAscii(UTM_CONTENT) && IsAscii(MO_REFERRAL)
    ensures IsAscii(MINI_PROGRAM)
  {
  }

  function SetIf(params: Pairs, name: Str, value: Option<Str>): (r: Pairs)
    ensures forall n | n != name :: Get(r, n) == Get(params, n)
    ensures Get(params, name).None? ==> Get(r, name) == value
  {
    if value.Some? then Set(params, name, value.value) else params
  }

  lemma SetIfKeeps(params: Pairs, name: Str, value: Option<Str>, p: Platform)
    requires Standard(p) && AllFaithful(params, p.codec) && IsAscii(name)
    requires value.Some? ==> Faithful(p.codec, value.value)
    ensures AllFaithful(SetIf(params, name, value), p.codec)
  {
    AsciiFaithful(name, p);
    if value.Some? { SetKeeps(params, name, value.value, p.codec); }
  }

  /** The parameters of the link, in the order they are set. */
  function HandoffParams(e: Entry, productId: Str): Pairs {
    var source := SetIf([], UTM_SOURCE, Some(MINI_PROGRAM));
    var campaign := SetIf(source, UTM_CAMPAIGN, e.campaign);
    var content := SetIf(campaign, UTM_CONTENT, Some(Content(e, productId)));
    SetIf(content, MO_REFERRAL, e.referral)
  }

  lemma HandoffParamsRead(e: Entry, productId: Str)
    ensures var r := HandoffParams(e, productId);
      && Get(r, S("utm_source")) == Some(S("wechat-mini-program")) && Get(r, S("utm_campaign")) == e.campaign
      && Get(r, S("utm_content")) == Some(if e.content.Some? then e.content.value else productId)
      && Get(r, S("mo_referral")) == e.referral
      && Get(r, S("mo_source")).None? && Get(r, S("mo_campaign")).None? && Get(r, S("mo_content")).None?
  {
    KeysApart();
  }

  lemma HandoffParamsFaithful(e: Entry, productId: Str, p: Platform)
    requires Standard(p) && EntryOk(e) && Faithful(p.codec, productId)
    ensures AllFaithful(HandoffParams(e, productId), p.codec)
  {
    NamesAscii();
    AsciiFaithful(MINI_PROGRAM, p);
    if e.campaign.Some? { AsciiFaithful(e.campaign.value, p); }
    if e.content.Some? { AsciiFaithful(e.content.value, p); }
    if e.referral.Some? { AsciiFaithful(e.referral.value, p); }
    var source := SetIf([], UTM_SOURCE, Some(MINI_PROGRAM));
    SetIfKeeps([], UTM_SOURCE, Some(MINI_PROGRAM), p);
    SetIfKeeps(source, UTM_CAMPAIGN, e.campaign, p);
    var campaign := SetIf(source, UTM_CAMPAIGN, e.campaign);
    SetIfKeeps(campaign, UTM_CONTENT, Some(Content(e, productId)), p);
    SetIfKeeps(SetIf(campaign, UTM_CONTENT, Some(Content(e, productId))), MO_REFERRAL, e.referral, p);
  }

  /** The link's search parameters are set in place, one after the other; None when the host is invalid. */
  method HandoffUrl(hostname: Str, e: Entry, productId: Str, p: Platform) returns (text: Option<Str>)
    requires Standard(p) && EntryOk(e) && Faithful(p.codec, productId) && HostText(hostname)
    ensures text.Some? <==> p.host(hostname).Some?
    ensures AllFaithful(HandoffParams(e, productId), p.codec)
    ensures text.Some? ==> text.value == Href(Url(p.host(hostname).value, [SLASH], HandoffParams(e, productId)), p)
  {
    HandoffParamsFaithful(e, productId, p);
    if p.host(hostname).None? { return None; }
    var params: Pairs := [];
    params := Set(params, UTM_SOURCE, MINI_PROGRAM);
    if e.campaign.Some? { params := Set(params, UTM_CAMPAIGN, e.campaign.value); }
    params := Set(params, UTM_CONTENT, Content(e, productId));
    if e.referral.Some? { params := Set(params, MO_REFERRAL, e.referral.value); }
    text := Some(Href(Url(p.host(hostname).value, [SLASH], params), p));
  }

  // ---------- the reader ----------

  datatype State = ATTRIBUTED | DIRECT | UNATTRIBUTED | UNKNOWN

  datatype Acquisition = Acquisition(
    state: State, landingPath: Str,
    source: Option<Str>, campaign: Option<Str>, content: Option<Str>, referral: Option<Str>)

  function SafeToken(value: Option<Str>): Option<Str> {
    if value.Some? && Token(Trim(value.value)) then Some(Trim(value.value)) else None
  }

  function Either(a: Option<Str>, b: Option<Str>): Option<Str> { if a.Some? then a else b }

  /** The Referer, when it is a page of this site. */
  function Landing(referer: Option<Str>, siteHostname: Str, p: Platform): Option<Url> {
    if referer.None? || referer.value == [] then None
    else
      match ParseUrl(referer.value, p)
      case None => None
      case Some(u) => if p.lower(u.host) == p.lower(siteHostname) then Some(u) else None
  }

  function Param(page: Option<Url>, name: Str): Option<Str> {
    if page.Some? then SafeToken(Get(page.value.params, name)) else None
  }

  /** `referrer` is the reported foreign referrer host; `slot` says whether a path shows published content. */
  function Derive(
      referer: Option<Str>, siteHostname: Str, referrer: Option<Str>, slot: Str -> bool, p: Platform): Acquisition
  {
    var page := Landing(referer, siteHostname, p);
    var source := Either(Param(page, UTM_SOURCE), Param(page, MO_SOURCE));
    var campaign := Either(Param(page, UTM_CAMPAIGN), Param(page, MO_CAMPAIGN));
    var content := Either(Param(page, UTM_CONTENT), Param(page, MO_CONTENT));
    var referral := Param(page, MO_REFERRAL);
    var path := if page.Some? && page.value.path != [] then page.value.path else [SLASH];
    var state :=
      if source.Some? && p.lower(source.value) == S("direct") then DIRECT
      else if source.Some? && p.lower(source.value) == S("unattributed") then UNATTRIBUTED
      else if || source.Some? || campaign.Some? || content.Some? || referral.Some?
              || referrer.Some? || slot(path) then ATTRIBUTED
      else if page.Some? then DIRECT
      else UNKNOWN;
    Acquisition(state, path, source, campaign, content, referral)
  }

  lemma TokenIsTrimmed(s: Str)
    requires Token(s)
    ensures Trim(s) == s && SafeToken(Some(s)) == Some(s) && IsAscii(s)
  {
    assert TokenUnit(s[0]) && TokenUnit(s[|s| - 1]);
    TrimOfTrimmed(s);
  }

  lemma MiniProgramIsAttributed(p: Platform)
    requires Standard(p)
    ensures Token(MINI_PROGRAM)
    ensures p.lower(MINI_PROGRAM) != S("direct") && p.lower(MINI_PROGRAM) != S("unattributed")
  {
    NamesAscii();
    assert |p.lower(MINI_PROGRAM)| == |MINI_PROGRAM| == 19;
  }

  /** Used as Referer, the link is recognised exactly when the site's host is its own serialization, up to letter
      case; it then gives back source, campaign, content and referral, and the state ATTRIBUTED. */
  method HandoffRoundTrip(
      hostname: Str, e: Entry, productId: Str, referrer: Option<Str>, slot: Str -> bool, p: Platform)
    returns (text: Option<Str>, read: Acquisition)
    requires Standard(p) && EntryOk(e) && Faithful(p.codec, productId)
    requires HostText(hostname) && HostSettles(hostname, p)
    ensures text.Some? <==> p.host(hostname).Some?
    ensures read == Derive(text, hostname, referrer, slot, p)
    ensures Landing(text, hostname, p).Some? <==>
      p.host(hostname).Some? && p.lower(p.host(hostname).value) == p.lower(hostname)
    ensures Landing(text, hostname, p).Some? ==> read == Acquisition(
      ATTRIBUTED, [SLASH], Some(MINI_PROGRAM), e.campaign, SafeToken(Some(Content(e, productId))), e.referral)
    ensures Landing(text, hostname, p).Some? && e.content.Some? ==> read.content == e.content
  {
    text := HandoffUrl(hostname, e, productId, p);
    read := Derive(text, hostname, referrer, slot, p);
    if text.Some? {
      UrlRoundTrip(Url(p.host(hostname).value, [SLASH], HandoffParams(e, productId)), p);
      HandoffParamsRead(e, productId);
      MiniProgramIsAttributed(p);
      TokenIsTrimmed(MINI_PROGRAM);
      if e.campaign.Some? { TokenIsTrimmed(e.campaign.value); }
      if e.content.Some? { TokenIsTrimmed(e.content.value); }
      if e.referral.Some? { TokenIsTrimmed(e.referral.value); }
    }
  }

  /** The site `127.1`: the URL parser turns its hostname into an IPv4 address, and the link is not recognised. */
  lemma NumericHostNotRecognised(e: Entry, productId: Str, p: Platform)
    requires Standard(p) && EntryOk(e) && Faithful(p.codec, productId)
    requires p.host(S("127.1")) == Some(S("127.0.0.1")) == p.host(S("127.0.0.1"))
    ensures AllFaithful(HandoffParams(e, productId), p.codec)
    ensures var link := Href(Url(S("127.0.0.1"), [SLASH], HandoffParams(e, productId)), p);
      HostText(S("127.1")) && HostSettles(S("127.1"), p) && Landing(Some(link), S("127.1"), p).None?
  {
    HandoffParamsFaithful(e, productId, p);
    NumericHosts();
    UrlRoundTrip(Url(S("127.0.0.1"), [SLASH], HandoffParams(e, productId)), p);
    assert |p.lower(S("127.0.0.1"))| == 9 && |p.lower(S("127.1"))| == 5;
  }

  lemma NumericHosts()
    ensures HostText(S("127.1")) && HostText(S("127.0.0.1"))
    ensures IsAscii(S("127.1")) && IsAscii(S("127.0.0.1"))
  {
  }

  // ---------- what the link looks like ----------

  lemma NameEncodes(name: Str, p: Platform)
    requires Standard(p) && IsAscii(name) && forall i | 0 <= i < |name| :: Plain(name[i])
    ensures IsBytes(p.codec.encode(name)) && Encode(name, p.codec) == name
  {
    PlainEncodes(name);
  }

  lemma SourceNamesPlain()
    ensures forall i | 0 <= i < |UTM_SOURCE| :: Plain(UTM_SOURCE[i])
    ensures forall i | 0 <= i < |MINI_PROGRAM| :: Plain(MINI_PROGRAM[i])
  {
  }

  lemma OtherNamesPlain()
    ensures forall i | 0 <= i < |UTM_CAMPAIGN| :: Plain(UTM_CAMPAIGN[i])
    ensures forall i | 0 <= i < |UTM_CONTENT| :: Plain(UTM_CONTENT[i])
    ensures forall i | 0 <= i < |MO_REFERRAL| :: Plain(MO_REFERRAL[i])
  {
  }

  lemma FullParams(e: Entry, productId: Str)
    requires e.campaign.Some? && e.content.Some? && e.referral.Some?
    ensures HandoffParams(e, productId) == [(UTM_SOURCE, MINI_PROGRAM), (UTM_CAMPAIGN, e.campaign.value),
                                            (UTM_CONTENT, e.content.value), (MO_REFERRAL, e.referral.value)]
  {
    KeysApart();
    var one: Pairs := [(UTM_SOURCE, MINI_PROGRAM)];
    var two: Pairs := [(UTM_SOURCE, MINI_PROGRAM), (UTM_CAMPAIGN, e.campaign.value)];
    var three: Pairs := two + [(UTM_CONTENT, e.content.value)];
    assert Set([], UTM_SOURCE, MINI_PROGRAM) == one;
    SetAppends(one, UTM_CAMPAIGN, e.campaign.value);
    assert one + [(UTM_CAMPAIGN, e.campaign.value)] == two;
    SetAppends(two, UTM_CONTENT, e.content.value);
    SetAppends(three, MO_REFERRAL, e.referral.value);
  }

  lemma {:induction false} SetAppends(pairs: Pairs, name: Str, value: Str)
    requires forall i | 0 <= i < |pairs| :: pairs[i].0 != name
    ensures Set(pairs, name, value) == pairs + [(name, value)]
    decreases |pairs|
  {
    if pairs != [] {
      SetAppends(pairs[1..], name, value);
      assert pairs == [pairs[0]] + pairs[1..];
    }
  }

  lemma JoinMore(a: Str, rest: seq<Str>)
    requires rest != []
    ensures Join([a] + rest, [AMPERSAND]) == a + [AMPERSAND] + Join(rest, [AMPERSAND])
  {
    assert ([a] + rest)[1..] == rest;
  }

  lemma FourJoined(a: Str, b: Str, c: Str, d: Str)
    ensures Join([a, b, c, d], [AMPERSAND]) == a + [AMPERSAND] + (b + [AMPERSAND] + (c + [AMPERSAND] + d))
  {
    JoinMore(a, [b, c, d]);
    JoinMore(b, [c, d]);
    JoinMore(c, [d]);
    assert [a] + [b, c, d] == [a, b, c, d] && [b] + [c, d] == [b, c, d] && [c] + [d] == [c, d];
  }

  /** The query of a link that sets everything: four pairs, each name as it is, each value percent-encoded. */
  lemma FullQuery(e: Entry, productId: Str, p: Platform)
    requires Standard(p) && EntryOk(e) && e.campaign.Some? && e.content.Some? && e.referral.Some?
    ensures AllFaithful(HandoffParams(e, productId), p.codec)
    ensures Serialize(HandoffParams(e, productId), p.codec) ==
      UTM_SOURCE + [EQUALS] + MINI_PROGRAM + [AMPERSAND]
      + (UTM_CAMPAIGN + [EQUALS] + EncodeBytes(e.campaign.value) + [AMPERSAND]
         + (UTM_CONTENT + [EQUALS] + EncodeBytes(e.content.value) + [AMPERSAND]
            + (MO_REFERRAL + [EQUALS] + EncodeBytes(e.referral.value))))
  {
    TokensAscii(e);
    AsciiFaithful(e.content.value, p);
    HandoffParamsFaithful(e, e.content.value, p);
    FullParams(e, productId);
    FullParams(e, e.content.value);
    FullPairTexts(e, productId, p);
    FourJoined(UTM_SOURCE + [EQUALS] + MINI_PROGRAM, UTM_CAMPAIGN + [EQUALS] + EncodeBytes(e.campaign.value),
               UTM_CONTENT + [EQUALS] + EncodeBytes(e.content.value),
               MO_REFERRAL + [EQUALS] + EncodeBytes(e.referral.value));
  }

  lemma TokensAscii(e: Entry)
    requires EntryOk(e) && e.campaign.Some? && e.content.Some? && e.referral.Some?
    ensures IsAscii(e.campaign.value) && IsAscii(e.content.value) && IsAscii(e.referral.value)
  {
    TokenIsTrimmed(e.campaign.value);
    TokenIsTrimmed(e.content.value);
    TokenIsTrimmed(e.referral.value);
  }

  lemma FullPairTexts(e: Entry, productId: Str, p: Platform)
    requires Standard(p) && EntryOk(e) && e.campaign.Some? && e.content.Some? && e.referral.Some?
    requires AllFaithful(HandoffParams(e, productId), p.codec)
    ensures PairTexts(HandoffParams(e, productId), p.codec) == [
      UTM_SOURCE + [EQUALS] + MINI_PROGRAM, UTM_CAMPAIGN + [EQUALS] + EncodeBytes(e.campaign.value),
      UTM_CONTENT + [EQUALS] + EncodeBytes(e.content.value), MO_REFERRAL + [EQUALS] + EncodeBytes(e.referral.value)]
  {
    NamesAscii();
    SourceNamesPlain();
    OtherNamesPlain();
    NameEncodes(UTM_SOURCE, p);
    NameEncodes(MINI_PROGRAM, p);
    NameEncodes(UTM_CAMPAIGN, p);
    NameEncodes(UTM_CONTENT, p);
    NameEncodes(MO_REFERRAL, p);
    TokensAscii(e);
    FullParams(e, productId);
  }

  /** The text of a link: scheme, host, the root path, and the query behind a question mark. */
  lemma LinkText(u: Url, p: Platform)
    requires AllFaithful(u.params, p.codec) && u.path == S("/") && Serialize(u.params, p.codec) != []
    ensures Href(u, p) == S("https://") + u.host + S("/") + (S("?") + Serialize(u.params, p.codec))
  {
    assert S("?") == [QUESTION];
  }

  /** The marks of the query: `=` within a pair, `&` between pairs. */
  lemma QueryMarks()
    ensures S("=") == [EQUALS] && S("&") == [AMPERSAND]
  {
  }

  // ---------- what the reader says ----------

  /** A letter or digit, then at most 79 letters, digits, dots, underscores, tildes or dashes. */
  lemma TokenLaw(s: Str)
    ensures Token(s) <==>
      && 1 <= |s| <= 80
      && (0x30 <= s[0] <= 0x39 || 0x41 <= s[0] <= 0x5A || 0x61 <= s[0] <= 0x7A)
      && forall i | 1 <= i < |s| ::
        || 0x30 <= s[i] <= 0x39 || 0x41 <= s[i] <= 0x5A || 0x61 <= s[i] <= 0x7A
        || s[i] == Code('.') || s[i] == Code('_') || s[i] == Code('~') || s[i] == Code('-')
  {
  }

  /** The value of the first parameter of this name on the page, trimmed, when it is a token. */
  function Reported(page: Option<Url>, name: string): Option<Str> {
    if page.None? || Get(page.value.params, S(name)).None? then None
    else
      var value := Trim(Get(page.value.params, S(name)).value);
      if Token(value) then Some(value) else None
  }

  /** Each field comes from its `utm_` parameter, or else from its `mo_` parameter. */
  lemma FieldsLaw(referer: Option<Str>, site: Str, referrer: Option<Str>, slot: Str -> bool, p: Platform)
    ensures var a, page := Derive(referer, site, referrer, slot, p), Landing(referer, site, p);
      && a.source == (if Reported(page, "utm_source").Some? then Reported(page, "utm_source")
                      else Reported(page, "mo_source"))
      && a.campaign == (if Reported(page, "utm_campaign").Some? then Reported(page, "utm_campaign")
                        else Reported(page, "mo_campaign"))
      && a.content == (if Reported(page, "utm_content").Some? then Reported(page, "utm_content")
                       else Reported(page, "mo_content"))
      && a.referral == Reported(page, "mo_referral")
      && a.landingPath == (if page.Some? && page.value.path != [] then page.value.path else S("/"))
  {
  }

  /** The state follows from the fields: a source that says so decides, then any evidence, then whether there is a
      page. */
  lemma StateLaw(referer: Option<Str>, site: Str, referrer: Option<Str>, slot: Str -> bool, p: Platform)
    ensures var a, page := Derive(referer, site, referrer, slot, p), Landing(referer, site, p);
      var direct := a.source.Some? && p.lower(a.source.value) == S("direct");
      var unattributed := a.source.Some? && p.lower(a.source.value) == S("unattributed");
      var evidence := a.source.Some? || a.campaign.Some? || a.content.Some? || a.referral.Some?
                      || referrer.Some? || slot(a.landingPath);
      && (a.state == DIRECT <==> direct || (page.Some? && !evidence))
      && (a.state == UNATTRIBUTED <==> unattributed)
      && (a.state == ATTRIBUTED <==> evidence && !direct && !unattributed)
      && (a.state == UNKNOWN <==> page.None? && !evidence)
  {
    assert |S("direct")| != |S("unattributed")|;
  }
}
