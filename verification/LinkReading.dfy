/** Whether a client gets out of a link what was put in. The client takes a link apart as
    section 3 of RFC 3986 says, and takes every field but the name literally. */
module LinkReading {
  import opened Domain
  import opened Subscription
  import opened SubscriptionText

  // ---------------------------------------------------------------------------
  // Cutting text
  // ---------------------------------------------------------------------------

  /** Up to the first separator; all of the text if there is none. */
  function Before(s: string, sep: char): (r: string)
    ensures sep !in r && (sep !in s ==> r == s) && forall c :: c in r ==> c in s
  {
    if s == [] || s[0] == sep then [] else [s[0]] + Before(s[1..], sep)
  }

  /** After the first separator; nothing if there is none. */
  function After(s: string, sep: char): (r: string)
    ensures (sep !in s ==> r == []) && forall c :: c in r ==> c in s
  {
    if s == [] then [] else if s[0] == sep then s[1..] else After(s[1..], sep)
  }

  /** Up to the last separator; nothing if there is none. */
  function BeforeLast(s: string, sep: char): (r: string)
    ensures forall c :: c in r ==> c in s
  {
    if s == [] then [] else if s[|s|-1] == sep then s[..|s|-1] else BeforeLast(s[..|s|-1], sep)
  }

  function AfterLast(s: string, sep: char): string {
    if s == [] || s[|s|-1] == sep then [] else AfterLast(s[..|s|-1], sep) + [s[|s|-1]]
  }

  lemma {:induction false} CutFirst(a: string, sep: char, b: string)
    requires sep !in a
    ensures Before(a + [sep] + b, sep) == a && After(a + [sep] + b, sep) == b
    decreases |a|
  {
    var s := a + [sep] + b;
    if a == [] {
      assert s[1..] == b;
    } else {
      CutFirst(a[1..], sep, b);
      assert s[1..] == a[1..] + [sep] + b && a == [a[0]] + a[1..];
    }
  }

  lemma {:induction false} CutLast(a: string, sep: char, b: string)
    requires sep !in b
    ensures BeforeLast(a + [sep] + b, sep) == a && AfterLast(a + [sep] + b, sep) == b
    decreases |b|
  {
    var s := a + [sep] + b;
    if b == [] {
      assert s[..|s|-1] == a && s[|s|-1] == sep;
    } else {
      var front := b[..|b|-1];
      CutLast(a, sep, front);
      assert s[..|s|-1] == a + [sep] + front && b == front + [b[|b|-1]];
    }
  }

  /** Cutting and gluing back. */
  lemma {:induction false} CutRejoins(s: string, sep: char)
    requires sep in s
    ensures s == Before(s, sep) + [sep] + After(s, sep)
    decreases |s|
  {
    if s[0] != sep {
      CutRejoins(s[1..], sep);
      assert s == [s[0]] + s[1..];
    } else {
      assert s == [s[0]] + s[1..];
    }
  }

  // ---------------------------------------------------------------------------
  // The parts of a link, after its scheme
  // ---------------------------------------------------------------------------

  datatype Uri = Uri(secret: string, host: string, port: string, query: string, fragment: string)

  function Parse(rest: string): Uri {
    var main := Before(rest, '#');
    var authority := Before(Before(main, '?'), '/');
    var address := After(authority, '@');
    Uri(Before(authority, '@'), BeforeLast(address, ':'), AfterLast(address, ':'), After(main, '?'), After(rest, '#'))
  }

  /** Ends neither the authority nor the query before it. */
  predicate NoMark(s: string) {
    '#' !in s && '?' !in s && '/' !in s
  }

  /** Whatever is parsed, some characters never come out of some parts. */
  lemma PartsAreFree(rest: string)
    ensures var u := Parse(rest); NoMark(u.secret) && '@' !in u.secret && NoMark(u.host) && '#' !in u.query
  {
  }

  lemma JoinedAuthority(secret: string, host: string, port: string)
    requires NoMark(secret) && NoMark(host) && NoMark(port)
    ensures NoMark(secret + "@" + (host + ":" + port))
  {
  }

  /** With a query. */
  lemma ParseJoined(secret: string, host: string, port: string, query: string, fragment: string)
    requires NoMark(secret) && '@' !in secret && NoMark(host) && NoMark(port) && ':' !in port && '#' !in query
    ensures Parse(secret + "@" + (host + ":" + port) + "?" + query + "#" + fragment)
         == Uri(secret, host, port, query, fragment)
  {
    var address := host + ":" + port;
    var authority := secret + "@" + address;
    var main := authority + "?" + query;
    JoinedAuthority(secret, host, port);
    CutFirst(main, '#', fragment);
    CutFirst(authority, '?', query);
    CutFirst(secret, '@', address);
    CutLast(host, ':', port);
  }

  /** And without one. */
  lemma ParseShort(secret: string, host: string, port: string, fragment: string)
    requires NoMark(secret) && '@' !in secret && NoMark(host) && NoMark(port) && ':' !in port
    ensures Parse(secret + "@" + (host + ":" + port) + "#" + fragment) == Uri(secret, host, port, "", fragment)
  {
    var address := host + ":" + port;
    var authority := secret + "@" + address;
    JoinedAuthority(secret, host, port);
    CutFirst(authority, '#', fragment);
    CutFirst(secret, '@', address);
    CutLast(host, ':', port);
  }

  // ---------------------------------------------------------------------------
  // The server name in the query
  // ---------------------------------------------------------------------------

  function Param(parts: seq<string>, name: string): string {
    if parts == [] then []
    else if name <= parts[0] then parts[0][|name|..]
    else Param(parts[1..], name)
  }

  function Sni(query: string): string {
    Param(Version.Split(query, '&'), "sni=")
  }

  lemma {:induction false} PartsAreIn(s: string, sep: char, i: nat, c: char)
    requires i < |Version.Split(s, sep)| && c in Version.Split(s, sep)[i]
    ensures c in s && c != sep
    decreases |s|
  {
    if s != [] {
      var rest := Version.Split(s[1..], sep);
      if s[0] == sep {
        PartsAreIn(s[1..], sep, i - 1, c);
      } else if i > 0 || c != s[0] {
        assert Version.Split(s, sep)[i] == if i == 0 then [s[0]] + rest[0] else rest[i];
        PartsAreIn(s[1..], sep, i, c);
      }
    }
  }

  lemma {:induction false} ParamIsIn(parts: seq<string>, name: string, c: char)
    requires c in Param(parts, name)
    ensures exists i :: 0 <= i < |parts| && c in parts[i]
    decreases |parts|
  {
    if name <= parts[0] {
      assert c in parts[0];
    } else {
      ParamIsIn(parts[1..], name, c);
      var i :| 0 <= i < |parts[1..]| && c in parts[1..][i];
      assert parts[1..][i] == parts[i + 1];
    }
  }

  lemma SniIsFree(query: string)
    requires '#' !in query
    ensures '#' !in Sni(query) && '&' !in Sni(query)
  {
    forall c | c in Sni(query)
      ensures c in query && c != '&'
    {
      var parts := Version.Split(query, '&');
      ParamIsIn(parts, "sni=", c);
      var i :| 0 <= i < |parts| && c in parts[i];
      PartsAreIn(query, '&', i, c);
    }
  }

  lemma {:induction false} IsSni(sni: string, rest: seq<string>)
    ensures Param(["sni=" + sni] + rest, "sni=") == sni
  {
    var part := "sni=" + sni;
    assert "sni=" <= part && part[4..] == sni;
  }

  lemma {:induction false} NotSni(part: string, rest: seq<string>)
    requires |part| > 1 && (part[0] != 's' || part[1] != 'n')
    ensures Param([part] + rest, "sni=") == Param(rest, "sni=")
  {
    assert "sni="[0] == 's' && "sni="[1] == 'n';
    assert ([part] + rest)[1..] == rest;
  }

  lemma SniOfTls(sni: string)
    requires '&' !in sni
    ensures Sni(Version.Join(TlsParams(sni), '&')) == sni
  {
    var parts := TlsParams(sni);
    assert '&' !in parts[0] && '&' !in parts[1];
    Version.SplitUndoesJoin(parts, '&');
    IsSni(sni, []);
    NotSni(parts[0], ["sni=" + sni] + []);
    assert parts == [parts[0]] + (["sni=" + sni] + []);
  }

  lemma RealityPartsAreFree(sni: string)
    requires '&' !in sni
    ensures forall i :: 0 <= i < |RealityParams(sni)| ==> '&' !in RealityParams(sni)[i]
  {
    var parts := RealityParams(sni);
    assert '&' !in parts[0];
    assert '&' !in parts[1];
    assert '&' !in parts[2];
    assert '&' !in parts[3];
    assert '&' !in parts[4];
    assert '&' !in parts[5];
  }

  lemma {:induction false} RealitySplit(sni: string, p: string, q: string, r: string, rest: seq<string>)
    requires |p| > 1 && p[0] != 's' && |q| > 1 && q[0] != 's' && |r| > 1 && r[1] != 'n'
    ensures Param([p, q, r, "sni=" + sni] + rest, "sni=") == sni
  {
    var tail := ["sni=" + sni] + rest;
    IsSni(sni, rest);
    NotSni(r, tail);
    NotSni(q, [r] + tail);
    NotSni(p, [q] + ([r] + tail));
    assert [p, q, r, "sni=" + sni] + rest == [p] + ([q] + ([r] + tail));
  }

  lemma SniOfReality(sni: string)
    requires '&' !in sni
    ensures Sni(Version.Join(RealityParams(sni), '&')) == sni
  {
    var parts := RealityParams(sni);
    RealityPartsAreFree(sni);
    Version.SplitUndoesJoin(parts, '&');
    RealitySplit(sni, parts[0], parts[1], parts[2], parts[4..]);
    assert parts == [parts[0], parts[1], parts[2], "sni=" + sni] + parts[4..];
  }

  // ---------------------------------------------------------------------------
  // Base64 without padding
  // ---------------------------------------------------------------------------

  function Pads(n: nat): string {
    seq(n, i => '=')
  }

  /** What a client adds before it decodes. */
  function PadUp(s: string): string {
    s + Pads((4 - |s| % 4) % 4)
  }

  function PadSymbols(n: nat): (r: seq<int>)
    ensures |r| == n && forall i :: 0 <= i < n ==> r[i] == Base64.Pad
  {
    if n == 0 then [] else PadSymbols(n - 1) + [Base64.Pad]
  }

  predicate Sextets(y: seq<int>) {
    forall i :: 0 <= i < |y| ==> Base64.IsSextet(y[i])
  }

  /** Whole groups but for the padding, of which there are at most two. */
  ghost predicate Shape(x: seq<int>, y: seq<int>, n: nat) {
    n <= 2 && (|y| + n) % 4 == 0 && Sextets(y) && x == y + PadSymbols(n)
  }

  lemma LastShape(bytes: seq<Base64.Byte>) returns (y: seq<int>, n: nat)
    requires |bytes| <= 2
    ensures Shape(Base64.EncodeSymbols(bytes), y, n)
  {
    if |bytes| == 0 {
      y, n := [], 0;
    } else if |bytes| == 1 {
      Base64.TripleOfQuad(bytes[0], 0, 0);
      y, n := Base64.Quad(bytes[0], 0, 0)[..2], 2;
      assert PadSymbols(2) == [Base64.Pad, Base64.Pad];
    } else {
      Base64.TripleOfQuad(bytes[0], bytes[1], 0);
      y, n := Base64.Quad(bytes[0], bytes[1], 0)[..3], 1;
      assert PadSymbols(1) == [Base64.Pad];
    }
  }

  lemma GroupShape(q: seq<int>, x: seq<int>, y: seq<int>, n: nat)
    requires |q| == 4 && Base64.FullGroup(q) && Shape(x, y, n)
    ensures Shape(q + x, q + y, n)
  {
  }

  lemma {:induction false} SymbolsShape(bytes: seq<Base64.Byte>) returns (y: seq<int>, n: nat)
    ensures Shape(Base64.EncodeSymbols(bytes), y, n)
    decreases |bytes|
  {
    if |bytes| <= 2 {
      y, n := LastShape(bytes);
    } else {
      var q := Base64.Quad(bytes[0], bytes[1], bytes[2]);
      Base64.TripleOfQuad(bytes[0], bytes[1], bytes[2]);
      y, n := SymbolsShape(bytes[3..]);
      GroupShape(q, Base64.EncodeSymbols(bytes[3..]), y, n);
      y := q + y;
    }
  }

  lemma {:induction false} UnpaddedPads(s: string, n: nat)
    requires '=' !in s
    ensures Unpadded(s + Pads(n)) == s
    decreases n
  {
    var all := s + Pads(n);
    if n > 0 {
      assert all[..|all|-1] == s + Pads(n - 1);
      UnpaddedPads(s, n - 1);
    } else {
      assert all == s;
    }
  }

  lemma SextetChar(n: int)
    requires Base64.IsSextet(n)
    ensures Base64.ToChar(n) != '='
  {
  }

  lemma {:induction false} ShapedChars(x: seq<int>, y: seq<int>, n: nat)
    requires Shape(x, y, n) && forall i :: 0 <= i < |x| ==> 0 <= x[i] <= Base64.Pad
    ensures '=' !in Base64.Chars(y) && Base64.Chars(x) == Base64.Chars(y) + Pads(n)
  {
    forall i | 0 <= i < |y|
      ensures Base64.Chars(y)[i] != '='
    {
      SextetChar(y[i]);
    }
    assert Base64.ToChar(Base64.Pad) == '=';
  }

  lemma PadsNeeded(length: nat, n: nat)
    requires n <= 2 && (length + n) % 4 == 0
    ensures n == (4 - length % 4) % 4
  {
  }

  lemma PadUpIs(s: string, n: nat)
    requires n <= 2 && (|s| + n) % 4 == 0
    ensures PadUp(s) == s + Pads(n)
  {
    PadsNeeded(|s|, n);
  }

  /** Padding up undoes stripping the padding, and no padding is left after that. */
  lemma {:induction false} PadUpUndoes(bytes: seq<Base64.Byte>)
    ensures PadUp(Unpadded(Base64.Encode(bytes))) == Base64.Encode(bytes) && '=' !in Unpadded(Base64.Encode(bytes))
  {
    var y, n := SymbolsShape(bytes);
    var s, x := Base64.Chars(y), Base64.EncodeSymbols(bytes);
    ShapedChars(x, y, n);
    PadUpIs(s, n);
    StripPads(Base64.Chars(x), s, n);
  }

  lemma {:induction false} StripPads(all: string, s: string, n: nat)
    requires all == s + Pads(n) && '=' !in s && PadUp(s) == s + Pads(n)
    ensures PadUp(Unpadded(all)) == all && '=' !in Unpadded(all)
  {
    UnpaddedPads(s, n);
  }

  // ---------------------------------------------------------------------------
  // Reading a link
  // ---------------------------------------------------------------------------

  predicate PortIs(text: string, port: nat) {
    text != "" && Version.AllDigits(text) && Version.Value(text) == port
  }

  predicate NameIs(text: string, name: string) {
    Unpercent(text) == Utf8(name)
  }

  /** The user information of a Shadowsocks link decodes to a cipher, a colon and a
      password. */
  ghost predicate UserInfoIs(text: string, cipher: string, password: string) {
    exists plain :: Base64.Decode(PadUp(text)) == Some(Utf8(plain))
      && ':' in plain && Before(plain, ':') == cipher && After(plain, ':') == password
  }

  /** What the scheme and the parts of a line say. */
  ghost predicate ReadsAs(line: string, link: Link) {
    match link
    case VlessLink(uuid, host, port, sni, name) =>
      && "vless://" <= line
      && var u := Parse(line[8..]);
         u.secret == uuid && u.host == host && PortIs(u.port, port) && Sni(u.query) == sni && NameIs(u.fragment, name)
    case TrojanLink(password, host, port, sni, name) =>
      && "trojan://" <= line
      && var u := Parse(line[9..]);
         u.secret == password && u.host == host && PortIs(u.port, port) && Sni(u.query) == sni
             && NameIs(u.fragment, name)
    case ShadowsocksLink(cipher, password, host, port, name) =>
      && "ss://" <= line
      && var u := Parse(line[5..]);
         UserInfoIs(u.secret, cipher, password) && u.host == host && PortIs(u.port, port) && NameIs(u.fragment, name)
  }

  /** A client cannot read two links out of one line. */
  lemma {:induction false} ReadsOne(line: string, a: Link, b: Link)
    requires ReadsAs(line, a) && ReadsAs(line, b)
    ensures a == b
  {
    SchemesDiffer(line);
    Utf8OfNames(a.name, b.name, line);
    if a.ShadowsocksLink? && b.ShadowsocksLink? {
      UserInfoIsOne(Parse(line[5..]).secret, a.cipher, a.password, b.cipher, b.password);
    }
  }

  lemma SchemesDiffer(line: string)
    ensures !("vless://" <= line && "trojan://" <= line)
    ensures !("vless://" <= line && "ss://" <= line)
    ensures !("trojan://" <= line && "ss://" <= line)
  {
    assert "vless://"[0] == 'v' && "trojan://"[0] == 't' && "ss://"[0] == 's';
  }

  lemma {:induction false} Utf8OfNames(a: string, b: string, line: string)
    ensures Utf8(a) == Utf8(b) ==> a == b
  {
    if Utf8(a) == Utf8(b) {
      Utf8Injective(a, b);
    }
  }

  lemma {:induction false} UserInfoIsOne(text: string, c: string, p: string, c': string, p': string)
    requires UserInfoIs(text, c, p) && UserInfoIs(text, c', p')
    ensures c == c' && p == p'
  {
    var x :| Base64.Decode(PadUp(text)) == Some(Utf8(x)) && ':' in x && Before(x, ':') == c && After(x, ':') == p;
    var y :| Base64.Decode(PadUp(text)) == Some(Utf8(y)) && ':' in y && Before(y, ':') == c' && After(y, ':') == p';
    Utf8Injective(x, y);
  }

  // ---------------------------------------------------------------------------
  // Which links are read back
  // ---------------------------------------------------------------------------

  /** What goes into the link as it is holds nothing that ends its part early. The user
      information of Shadowsocks is standard base64, whose slash ends the authority. */
  predicate Plain(link: Link) {
    && NoMark(link.host)
    && match link
       case VlessLink(uuid, _, _, sni, _) => NoMark(uuid) && '@' !in uuid && '#' !in sni && '&' !in sni
       case TrojanLink(password, _, _, sni, _) => NoMark(password) && '@' !in password && '#' !in sni && '&' !in sni
       case ShadowsocksLink(cipher, password, _, _, _) => '/' !in UserInfo(cipher, password) && ':' !in cipher
  }

  lemma {:induction false} PortReads(port: nat)
    ensures PortIs(Version.Print(port), port) && NoMark(Version.Print(port)) && ':' !in Version.Print(port)
  {
    Version.PrintParses(port);
    forall i | 0 <= i < |Version.Print(port)|
      ensures var c := Version.Print(port)[i]; c != '#' && c != '?' && c != '/' && c != ':'
    {
      assert Version.IsDigit(Version.Print(port)[i]);
    }
  }

  lemma SchemeReads(link: Link)
    ensures var n := |SchemeOf(link)|; SchemeOf(link) <= Line(link) && Line(link)[n..] == RestOf(link)
    ensures |SchemeOf(link)| == if link.VlessLink? then 8 else if link.TrojanLink? then 9 else 5
  {
  }

  /** Links with a query: what is read of them. */
  ghost predicate PartsRead(rest: string, secret: string, host: string, port: nat, sni: string, name: string) {
    var u := Parse(rest);
    u.secret == secret && u.host == host && PortIs(u.port, port) && Sni(u.query) == sni && NameIs(u.fragment, name)
  }

  lemma {:induction false} PartsReadIff(secret: string, host: string, port: nat, query: string, sni: string,
                                        name: string)
    requires '#' in query <==> '#' in sni
    requires '&' !in sni ==> Sni(query) == sni
    ensures PartsRead(secret + "@" + (host + ":" + Version.Print(port)) + "?" + query + "#" + Percent(Utf8(name)),
                      secret, host, port, sni, name)
       <==> NoMark(secret) && '@' !in secret && NoMark(host) && '#' !in sni && '&' !in sni
  {
    var rest := secret + "@" + (host + ":" + Version.Print(port)) + "?" + query + "#" + Percent(Utf8(name));
    PartsAreFree(rest);
    SniIsFree(Parse(rest).query);
    PortReads(port);
    NamesSurvive(Utf8(name));
    if NoMark(secret) && '@' !in secret && NoMark(host) && '#' !in sni && '&' !in sni {
      ParseJoined(secret, host, Version.Print(port), query, Percent(Utf8(name)));
    }
  }

  lemma EncodedHasNoMark(bytes: seq<Base64.Byte>)
    ensures var s := Unpadded(Base64.Encode(bytes)); '#' !in s && '?' !in s && '@' !in s
  {
    var x := Base64.EncodeSymbols(bytes);
    forall i | 0 <= i < |x|
      ensures var c := Base64.ToChar(x[i]); c != '#' && c != '?' && c != '@'
    {
    }
  }

  lemma {:induction false} UserInfoReads(cipher: string, password: string)
    requires ':' !in cipher
    ensures UserInfoIs(UserInfo(cipher, password), cipher, password)
  {
    var plain := cipher + ":" + password;
    PadUpUndoes(Utf8(plain));
    Base64.DecodeIff(Base64.Encode(Utf8(plain)), Utf8(plain));
    CutFirst(cipher, ':', password);
    assert plain[|cipher|] == ':';
  }

  /** Whatever is read as this cipher and password has the same characters, padding aside. */
  lemma {:induction false} UserInfoMeans(text: string, cipher: string, password: string)
    requires UserInfoIs(text, cipher, password)
    ensures ':' !in cipher && PadUp(text) == PadUp(UserInfo(cipher, password))
  {
    var plain :| Base64.Decode(PadUp(text)) == Some(Utf8(plain))
      && ':' in plain && Before(plain, ':') == cipher && After(plain, ':') == password;
    CutRejoins(plain, ':');
    Base64.DecodeIff(PadUp(text), Utf8(plain));
    PadUpUndoes(Utf8(plain));
  }

  lemma SlashStays(a: string, b: string)
    requires PadUp(a) == PadUp(b) && '/' !in a
    ensures '/' !in b
  {
    assert '/' !in PadUp(a);
    forall i | 0 <= i < |b|
      ensures b[i] != '/'
    {
      assert PadUp(b)[i] == b[i];
    }
  }

  lemma {:induction false} ShadowsocksReadsIff(link: Link)
    requires link.ShadowsocksLink?
    ensures ReadsAs(Line(link), link) <==> Plain(link)
  {
    var info, rest := UserInfo(link.cipher, link.password), RestOf(link);
    SchemeReads(link);
    PartsAreFree(rest);
    PortReads(link.port);
    NamesSurvive(Utf8(link.name));
    EncodedHasNoMark(Utf8(link.cipher + ":" + link.password));
    if Plain(link) {
      ParseShort(info, link.host, Version.Print(link.port), Name(link));
      UserInfoReads(link.cipher, link.password);
    }
    if ReadsAs(Line(link), link) {
      UserInfoMeans(Parse(rest).secret, link.cipher, link.password);
      SlashStays(Parse(rest).secret, info);
    }
  }

  /** A line gives its link back if and only if the link is plain. */
  lemma {:induction false} LinkReadsIff(link: Link)
    ensures ReadsAs(Line(link), link) <==> Plain(link)
  {
    match link {
      case VlessLink(uuid, host, port, sni, name) =>
        SchemeReads(link);
        RealityHolds(sni, '#');
        if '&' !in sni {
          SniOfReality(sni);
        }
        PartsReadIff(uuid, host, port, Version.Join(RealityParams(sni), '&'), sni, name);
      case TrojanLink(password, host, port, sni, name) =>
        SchemeReads(link);
        TlsHolds(sni, '#');
        if '&' !in sni {
          SniOfTls(sni);
        }
        PartsReadIff(password, host, port, Version.Join(TlsParams(sni), '&'), sni, name);
      case ShadowsocksLink(_, _, _, _, _) =>
        ShadowsocksReadsIff(link);
    }
  }

  // ---------------------------------------------------------------------------
  // The other parameters
  // ---------------------------------------------------------------------------

  /** Told apart by the first two characters. */
  predicate Apart(name: string, part: string) {
    |name| > 1 && |part| > 1 && (name[0] != part[0] || name[1] != part[1])
  }

  lemma {:induction false} ParamAt(parts: seq<string>, name: string, i: nat, value: string)
    requires i < |parts| && parts[i] == name + value && forall j :: 0 <= j < i ==> Apart(name, parts[j])
    ensures Param(parts, name) == value
    decreases i
  {
    if i > 0 {
      ParamAt(parts[1..], name, i - 1, value);
    }
  }

  /** The security a link's text asks for, as a value. */
  function AsksFor(link: Link): Declared {
    var asked := Param(Version.Split(Parse(RestOf(link)).query, '&'), "security=");
    if asked == "reality" then DeclaresReality
    else if asked == "tls" then DeclaresTls
    else DeclaresNothing
  }

  lemma {:induction false} QueryOf(link: Link, parts: seq<string>, secret: string)
    requires Plain(link) && '@' !in secret && NoMark(secret)
    requires |parts| > 0 && '#' !in Version.Join(parts, '&') && forall i :: 0 <= i < |parts| ==> '&' !in parts[i]
    requires RestOf(link) == secret + "@" + Authority(link) + "?" + Version.Join(parts, '&') + "#" + Name(link)
    ensures Version.Split(Parse(RestOf(link)).query, '&') == parts
  {
    PortReads(link.port);
    ParseJoined(secret, link.host, Version.Print(link.port), Version.Join(parts, '&'), Name(link));
    Version.SplitUndoesJoin(parts, '&');
  }

  lemma {:induction false} VlessQuery(link: Link)
    requires Plain(link) && link.VlessLink?
    ensures Version.Split(Parse(RestOf(link)).query, '&') == RealityParams(link.sni)
  {
    RealityHolds(link.sni, '#');
    RealityPartsAreFree(link.sni);
    QueryOf(link, RealityParams(link.sni), link.uuid);
  }

  lemma {:induction false} TrojanQuery(link: Link)
    requires Plain(link) && link.TrojanLink?
    ensures Version.Split(Parse(RestOf(link)).query, '&') == TlsParams(link.sni)
  {
    var parts := TlsParams(link.sni);
    TlsHolds(link.sni, '#');
    assert '&' !in parts[0] && '&' !in parts[1];
    QueryOf(link, parts, link.password);
  }

  lemma {:induction false} FirstRealityReads(parts: seq<string>)
    requires |parts| >= 3
    requires parts[0] == "encryption=" + "none" && parts[1] == "flow=" + "xtls-rprx-vision"
    requires parts[2] == "security=" + "reality"
    ensures Param(parts, "encryption=") == "none" && Param(parts, "flow=") == "xtls-rprx-vision"
    ensures Param(parts, "security=") == "reality"
  {
    ParamAt(parts, "encryption=", 0, "none");
    ParamAt(parts, "flow=", 1, "xtls-rprx-vision");
    ParamAt(parts, "security=", 2, "reality");
  }

  lemma {:induction false} LastRealityReads(parts: seq<string>)
    requires |parts| == 6 && forall j :: 0 <= j < 4 ==> Apart("fp=", parts[j]) && Apart("type=", parts[j])
    requires parts[4] == "fp=" + "chrome" && parts[5] == "type=" + "tcp"
    ensures Param(parts, "fp=") == "chrome" && Param(parts, "type=") == "tcp"
  {
    ParamAt(parts, "fp=", 4, "chrome");
    ParamAt(parts, "type=", 5, "tcp");
  }

  lemma RealityPartsDiffer(sni: string)
    ensures var parts := RealityParams(sni);
            forall j :: 0 <= j < 4 ==> Apart("fp=", parts[j]) && Apart("type=", parts[j])
  {
    var parts := RealityParams(sni);
    assert parts[0][0] == 'e' && parts[1][1] == 'l' && parts[2][0] == 's' && parts[3][0] == 's';
  }

  lemma RealityPartsAre(sni: string)
    ensures RealityParams(sni)[0] == "encryption=" + "none" && RealityParams(sni)[1] == "flow=" + "xtls-rprx-vision"
    ensures RealityParams(sni)[2] == "security=" + "reality"
    ensures RealityParams(sni)[4] == "fp=" + "chrome" && RealityParams(sni)[5] == "type=" + "tcp"
  {
  }

  ghost predicate AsksReality(parts: seq<string>) {
    && Param(parts, "encryption=") == "none" && Param(parts, "flow=") == "xtls-rprx-vision"
    && Param(parts, "security=") == "reality"
    && Param(parts, "fp=") == "chrome" && Param(parts, "type=") == "tcp"
  }

  lemma {:induction false} RealityReads(sni: string)
    ensures AsksReality(RealityParams(sni))
  {
    RealityPartsDiffer(sni);
    RealityPartsAre(sni);
    FirstRealityReads(RealityParams(sni));
    LastRealityReads(RealityParams(sni));
  }

  lemma {:induction false} TlsReads(sni: string)
    ensures Param(TlsParams(sni), "security=") == "tls" && "tls" != "reality"
  {
    assert TlsParams(sni)[0] == "security=" + "tls";
    ParamAt(TlsParams(sni), "security=", 0, "tls");
  }

  /** What a client finds in the query: REALITY with its flow over TCP for VLESS, TLS for
      Trojan, and nothing for Shadowsocks. */
  lemma {:induction false} LinksDeclare(link: Link)
    requires Plain(link)
    ensures AsksFor(link) == DeclaredBy(link)
    ensures link.VlessLink? ==> AsksReality(Version.Split(Parse(RestOf(link)).query, '&'))
  {
    if link.ShadowsocksLink? {
      NothingAsked(link);
    } else if link.VlessLink? {
      VlessQuery(link);
      RealityReads(link.sni);
    } else {
      TrojanQuery(link);
      TlsReads(link.sni);
    }
  }

  lemma {:induction false} NothingAsked(link: Link)
    requires Plain(link) && link.ShadowsocksLink?
    ensures Parse(RestOf(link)).query == "" && AsksFor(link) == DeclaresNothing
  {
    PortReads(link.port);
    EncodedHasNoMark(Utf8(link.cipher + ":" + link.password));
    ParseShort(UserInfo(link.cipher, link.password), link.host, Version.Print(link.port), Name(link));
    assert Version.Split("", '&') == [""];
    assert !("security=" <= "");
    assert [""][1..] == [];
    assert Param([""], "security=") == "";
  }

  lemma Regroup(p: string, at: string, h: string, g: string, tail: string)
    ensures (p + at + h) + at + (g + tail) == p + at + ((h + at + g) + tail)
  {
  }

  /** A condition is needed: an at sign can belong to the secret or to the host. */
  lemma OneLineTwoLinks(p: string, h: string, g: string, port: nat, sni: string, name: string)
    ensures Line(TrojanLink(p + "@" + h, g, port, sni, name)) == Line(TrojanLink(p, h + "@" + g, port, sni, name))
  {
    var tail := ":" + Version.Print(port);
    assert g + ":" + Version.Print(port) == g + tail;
    assert h + "@" + g + ":" + Version.Print(port) == (h + "@" + g) + tail;
    Regroup(p, "@", h, g, tail);
  }

  // ---------------------------------------------------------------------------
  // The whole body
  // ---------------------------------------------------------------------------

  /** Undo base64 and UTF-8, split at line breaks, read each line. */
  ghost predicate ReadsBody(body: string, links: seq<Link>) {
    exists text :: Base64.Decode(body) == Some(Utf8(text)) && ReadsText(text, links)
  }

  function LinesOf(text: string): seq<string> {
    if text == "" then [] else Version.Split(text, '\n')
  }

  ghost predicate ReadsText(text: string, links: seq<Link>) {
    |LinesOf(text)| == |links| && forall i :: 0 <= i < |links| ==> ReadsAs(LinesOf(text)[i], links[i])
  }

  lemma {:induction false} SplitCounts(a: string, sep: char, b: string)
    ensures |Version.Split(a + [sep] + b, sep)| == |Version.Split(a, sep)| + |Version.Split(b, sep)|
    ensures |Version.Split(a, sep)| == 1 <==> sep !in a
    decreases |a|
  {
    var s := a + [sep] + b;
    if a == [] {
      assert s[1..] == b;
    } else {
      SplitCounts(a[1..], sep, b);
      assert s[1..] == a[1..] + [sep] + b;
    }
  }

  lemma {:induction false} JoinCounts(parts: seq<string>, sep: char)
    requires |parts| > 0
    ensures |Version.Split(Version.Join(parts, sep), sep)| >= |parts|
    ensures |Version.Split(Version.Join(parts, sep), sep)| == |parts| ==> forall i :: 0 <= i < |parts| ==>
        sep !in parts[i]
    decreases |parts|
  {
    SplitCounts(parts[0], sep, "");
    if |parts| > 1 {
      JoinCounts(parts[1..], sep);
      SplitCounts(parts[0], sep, Version.Join(parts[1..], sep));
      assert forall i :: 1 <= i < |parts| ==> parts[i] == parts[1..][i - 1];
    }
  }

  lemma LinesStart(links: seq<Link>)
    ensures forall i :: 0 <= i < |links| ==> Lines(links)[i] != ""
    ensures links != [] ==> Plaintext(Lines(links)) != ""
  {
    forall i | 0 <= i < |links|
      ensures Lines(links)[i] != ""
    {
      SchemeReads(links[i]);
    }
    if links != [] {
      assert |Plaintext(Lines(links))| >= |Lines(links)[0]|;
    }
  }

  lemma {:induction false} TextReadsIff(links: seq<Link>)
    ensures ReadsText(Plaintext(Lines(links)), links)
       <==> forall i :: 0 <= i < |links| ==> Clean(links[i]) && Plain(links[i])
  {
    var lines := Lines(links);
    var text := Plaintext(lines);
    LinesStart(links);
    forall i | 0 <= i < |links|
      ensures ('\n' !in lines[i] <==> Clean(links[i])) && (ReadsAs(lines[i], links[i]) <==> Plain(links[i]))
    {
      LineIff(links[i]);
      LinkReadsIff(links[i]);
    }
    TextReadsBackIff(lines);
    if links != [] {
      JoinCounts(lines, '\n');
    }
  }

  /** Clients read back the very links that were put in if and only if all of them are clean
      and plain. */
  lemma {:induction false} ClientsReadTheLinksIff(links: seq<Link>)
    ensures ReadsBody(Body(links), links) <==> forall i :: 0 <= i < |links| ==> Clean(links[i]) && Plain(links[i])
  {
    var text := Plaintext(Lines(links));
    forall other
      ensures Base64.Decode(Body(links)) == Some(Utf8(other)) <==> other == text
    {
      BodyDecodes(text, other);
    }
    TextReadsIff(links);
  }
}
