/** The text of a subscription: links one per line, then UTF-8 and base64. */
module SubscriptionText {
  import opened Domain
  import opened Subscription
  import Base64
  import Profile
  import Version

  type Byte = Base64.Byte

  // ---------------------------------------------------------------------------
  // UTF-8
  // ---------------------------------------------------------------------------

  function Utf8Char(c: char): (b: seq<Byte>)
    ensures b != []
  {
    var n := c as int;
    if n < 0x80 then [n]
    else if n < 0x800 then [0xC0 + n / 64, 0x80 + n % 64]
    else if n < 0x1_0000 then [0xE0 + n / 64 / 64, 0x80 + n / 64 % 64, 0x80 + n % 64]
    else [0xF0 + n / 64 / 64 / 64, 0x80 + n / 64 / 64 % 64, 0x80 + n / 64 % 64, 0x80 + n % 64]
  }

  function Utf8(s: string): seq<Byte> {
    if s == [] then [] else Utf8Char(s[0]) + Utf8(s[1..])
  }

  /** The first byte gives the length. */
  function Width(first: Byte): nat {
    if first < 0xC0 then 1 else if first < 0xE0 then 2 else if first < 0xF0 then 3 else 4
  }

  lemma WidthOf(c: char)
    ensures |Utf8Char(c)| == Width(Utf8Char(c)[0])
  {
  }

  /** The bytes give the code point back. */
  function CodeOf(b: seq<int>): int {
    if |b| == 1 then b[0]
    else if |b| == 2 then (b[0] - 0xC0) * 64 + b[1] - 0x80
    else if |b| == 3 then ((b[0] - 0xE0) * 64 + b[1] - 0x80) * 64 + b[2] - 0x80
    else if |b| == 4 then (((b[0] - 0xF0) * 64 + b[1] - 0x80) * 64 + b[2] - 0x80) * 64 + b[3] - 0x80
    else 0
  }

  lemma SixBits(n: nat)
    ensures n / 64 * 64 + n % 64 == n
  {
  }

  lemma CodeRoundTrip(c: char)
    ensures CodeOf(Utf8Char(c)) == c as int
  {
    var n := c as int;
    SixBits(n);
    SixBits(n / 64);
    SixBits(n / 64 / 64);
  }

  /** The length that secret references are measured in is that of their bytes. */
  lemma {:induction false} LengthInBytes(s: string)
    ensures Profile.Utf8Length(s) == |Utf8(s)|
    decreases |s|
  {
    if s != [] {
      LengthInBytes(s[1..]);
    }
  }

  /** Different texts have different bytes. */
  lemma {:induction false} Utf8Injective(a: string, b: string)
    requires Utf8(a) == Utf8(b)
    ensures a == b
    decreases |a|
  {
    if a != [] && b != [] {
      var x, y := Utf8Char(a[0]), Utf8Char(b[0]);
      assert x[0] == Utf8(a)[0] == Utf8(b)[0] == y[0];
      WidthOf(a[0]);
      WidthOf(b[0]);
      assert x == Utf8(a)[..|x|] == Utf8(b)[..|y|] == y;
      CodeRoundTrip(a[0]);
      CodeRoundTrip(b[0]);
      assert Utf8(a)[|x|..] == Utf8(a[1..]) && Utf8(b)[|y|..] == Utf8(b[1..]);
      Utf8Injective(a[1..], b[1..]);
      assert a == [a[0]] + a[1..] && b == [b[0]] + b[1..];
    }
  }

  // ---------------------------------------------------------------------------
  // Percent encoding of everything that is not an ASCII letter or digit
  // ---------------------------------------------------------------------------

  predicate IsAlphanumeric(b: Byte) {
    0x30 <= b <= 0x39 || 0x41 <= b <= 0x5A || 0x61 <= b <= 0x7A
  }

  function Hex(n: int): char
    requires 0 <= n < 16
  {
    if n < 10 then ('0' as int + n) as char else ('A' as int + n - 10) as char
  }

  function PercentByte(b: Byte): string {
    if IsAlphanumeric(b) then [b as char] else ['%', Hex(b / 16), Hex(b % 16)]
  }

  function Percent(bytes: seq<Byte>): string {
    if bytes == [] then [] else PercentByte(bytes[0]) + Percent(bytes[1..])
  }

  function Unhex(c: char): int {
    if '0' <= c <= '9' then c as int - '0' as int else if 'A' <= c <= 'F' then c as int - 'A' as int + 10 else 0
  }

  /** What a client does to read a name. */
  function Unpercent(s: string): seq<int> {
    if s == [] then []
    else if s[0] == '%' && |s| >= 3 then [Unhex(s[1]) * 16 + Unhex(s[2])] + Unpercent(s[3..])
    else [s[0] as int] + Unpercent(s[1..])
  }

  lemma HexRoundTrip(b: Byte)
    ensures Unhex(Hex(b / 16)) * 16 + Unhex(Hex(b % 16)) == b
  {
  }

  lemma {:induction false} UnpercentByte(b: Byte, rest: string)
    ensures Unpercent(PercentByte(b) + rest) == [b] + Unpercent(rest)
  {
    var s := PercentByte(b) + rest;
    if IsAlphanumeric(b) {
      assert s[0] == b as char && s[0] != '%' && s[1..] == rest;
    } else {
      HexRoundTrip(b);
      assert s[0] == '%' && s[1] == Hex(b / 16) && s[2] == Hex(b % 16) && s[3..] == rest;
    }
  }

  /** Names survive, whatever is in them. */
  lemma {:induction false} NamesSurvive(bytes: seq<Byte>)
    ensures Unpercent(Percent(bytes)) == bytes && '\n' !in Percent(bytes)
    decreases |bytes|
  {
    if bytes != [] {
      NamesSurvive(bytes[1..]);
      UnpercentByte(bytes[0], Percent(bytes[1..]));
      assert bytes == [bytes[0]] + bytes[1..];
    }
  }

  predicate IsPlain(c: char) {
    '0' <= c <= '9' || 'A' <= c <= 'Z' || 'a' <= c <= 'z'
  }

  /** ASCII letters and digits stand for themselves, and beside them there are only escapes:
      a percent sign and two of the digits 0 to 9 and A to F. */
  lemma {:induction false} OnlyLettersAndDigits(bytes: seq<Byte>)
    ensures forall c :: c in Percent(bytes) ==> IsPlain(c) || c == '%'
    ensures (forall i :: 0 <= i < |bytes| ==> IsPlain(bytes[i] as char)) <==> '%' !in Percent(bytes)
    decreases |bytes|
  {
    if bytes != [] {
      OnlyLettersAndDigits(bytes[1..]);
      assert forall i :: 1 <= i < |bytes| ==> bytes[i] == bytes[1..][i - 1];
      assert IsAlphanumeric(bytes[0]) <==> IsPlain(bytes[0] as char);
    }
  }

  // ---------------------------------------------------------------------------
  // Links as text
  // ---------------------------------------------------------------------------

  /** Base64 without padding. */
  function Unpadded(s: string): (r: string)
    ensures r <= s
  {
    if s != [] && s[|s|-1] == '=' then Unpadded(s[..|s|-1]) else s
  }

  function UserInfo(cipher: string, password: string): string {
    Unpadded(Base64.Encode(Utf8(cipher + ":" + password)))
  }

  function Name(link: Link): string {
    Percent(Utf8(link.name))
  }

  function Authority(link: Link): string {
    link.host + ":" + Version.Print(link.port)
  }

  function RealityParams(sni: string): seq<string> {
    ["encryption=none", "flow=xtls-rprx-vision", "security=reality", "sni=" + sni, "fp=chrome", "type=tcp"]
  }

  function TlsParams(sni: string): seq<string> {
    ["security=tls", "sni=" + sni]
  }

  function SchemeOf(link: Link): string {
    match link
    case VlessLink(_, _, _, _, _) => "vless://"
    case TrojanLink(_, _, _, _, _) => "trojan://"
    case ShadowsocksLink(_, _, _, _, _) => "ss://"
  }

  /** The link's text after its scheme. */
  function RestOf(link: Link): string {
    match link
    case VlessLink(uuid, _, _, sni, _) =>
      uuid + "@" + Authority(link) + "?" + Version.Join(RealityParams(sni), '&') + "#" + Name(link)
    case TrojanLink(password, _, _, sni, _) =>
      password + "@" + Authority(link) + "?" + Version.Join(TlsParams(sni), '&') + "#" + Name(link)
    case ShadowsocksLink(cipher, password, _, _, _) =>
      UserInfo(cipher, password) + "@" + Authority(link) + "#" + Name(link)
  }

  function Line(link: Link): string {
    SchemeOf(link) + RestOf(link)
  }

  /** No line break in what goes into the line as it is. Ciphers and passwords of
      Shadowsocks, and all names, are encoded. */
  predicate Clean(link: Link) {
    && '\n' !in link.host
    && match link
       case VlessLink(uuid, _, _, sni, _) => '\n' !in uuid && '\n' !in sni
       case TrojanLink(password, _, _, sni, _) => '\n' !in password && '\n' !in sni
       case ShadowsocksLink(_, _, _, _, _) => true
  }

  lemma EncodedIsOneLine(bytes: seq<Byte>)
    ensures '\n' !in Unpadded(Base64.Encode(bytes))
  {
    var x := Base64.EncodeSymbols(bytes);
    forall i | 0 <= i < |x|
      ensures Base64.ToChar(x[i]) != '\n'
    {
    }
  }

  lemma {:induction false} PortIsOneLine(port: nat)
    ensures '\n' !in Version.Print(port)
  {
    Version.PrintParses(port);
    forall i | 0 <= i < |Version.Print(port)|
      ensures Version.Print(port)[i] != '\n'
    {
      assert Version.IsDigit(Version.Print(port)[i]);
    }
  }

  /** A joined text holds what its parts hold. */
  lemma {:induction false} JoinHolds(parts: seq<string>, sep: char, c: char)
    requires |parts| > 0 && c != sep
    ensures c in Version.Join(parts, sep) <==> exists i :: 0 <= i < |parts| && c in parts[i]
    decreases |parts|
  {
    if |parts| > 1 {
      JoinHolds(parts[1..], sep, c);
      assert forall i :: 0 <= i < |parts| - 1 ==> parts[1..][i] == parts[i + 1];
      if i :| 0 <= i < |parts| && c in parts[i] {
        assert i > 0 ==> parts[1..][i - 1] == parts[i];
      }
    }
  }

  lemma TlsHolds(sni: string, c: char)
    requires c == '\n' || c == '#'
    ensures c in Version.Join(TlsParams(sni), '&') <==> c in sni
  {
    var parts := TlsParams(sni);
    JoinHolds(parts, '&', c);
    assert c !in parts[0] && (c in parts[1] <==> c in sni);
  }

  lemma RealityPartsHold(sni: string, c: char, i: nat)
    requires (c == '\n' || c == '#') && i < 6
    ensures c in RealityParams(sni)[i] <==> i == 3 && c in sni
  {
    var parts := RealityParams(sni);
    if i == 0 {
      assert c !in "encryption=none";
    } else if i == 1 {
      assert c !in "flow=xtls-rprx-vision";
    } else if i == 2 {
      assert c !in "security=reality";
    } else if i == 3 {
      assert c !in "sni=";
    } else if i == 4 {
      assert c !in "fp=chrome";
    } else {
      assert c !in "type=tcp";
    }
  }

  lemma RealityHolds(sni: string, c: char)
    requires c == '\n' || c == '#'
    ensures c in Version.Join(RealityParams(sni), '&') <==> c in sni
  {
    JoinHolds(RealityParams(sni), '&', c);
    forall i | 0 <= i < 6
      ensures c in RealityParams(sni)[i] <==> i == 3 && c in sni
    {
      RealityPartsHold(sni, c, i);
    }
    assert c in sni ==> c in RealityParams(sni)[3];
  }

  lemma FixedTextIsOneLine()
    ensures '\n' !in "vless://" && '\n' !in "trojan://" && '\n' !in "ss://"
    ensures '\n' !in "@" && '\n' !in "#" && '\n' !in ":" && '\n' !in "?"
  {
  }

  /** A link is one line exactly when its raw fields hold no line break. */
  lemma LineIff(link: Link)
    ensures '\n' !in Line(link) <==> Clean(link)
  {
    FixedTextIsOneLine();
    PortIsOneLine(link.port);
    NamesSurvive(Utf8(link.name));
    if !link.ShadowsocksLink? {
      TlsHolds(link.sni, '\n');
      RealityHolds(link.sni, '\n');
    }
    if link.ShadowsocksLink? {
      EncodedIsOneLine(Utf8(link.cipher + ":" + link.password));
    }
  }

  // ---------------------------------------------------------------------------
  // The body
  // ---------------------------------------------------------------------------

  function Lines(links: seq<Link>): (r: seq<string>)
    ensures |r| == |links| && forall i :: 0 <= i < |links| ==> r[i] == Line(links[i])
  {
    seq(|links|, i requires 0 <= i < |links| => Line(links[i]))
  }

  function Plaintext(lines: seq<string>): string {
    if lines == [] then "" else Version.Join(lines, '\n')
  }

  function Body(links: seq<Link>): string {
    Base64.Encode(Utf8(Plaintext(Lines(links))))
  }

  /** What a client reads that undoes base64 and UTF-8 and splits at line breaks. */
  ghost predicate Reads(body: string, lines: seq<string>) {
    exists text :: Base64.Decode(body) == Some(Utf8(text))
        && lines == if text == "" then [] else Version.Split(text, '\n')
  }

  /** The body carries exactly one text. */
  lemma {:induction false} BodyDecodes(text: string, other: string)
    ensures Base64.Decode(Base64.Encode(Utf8(text))) == Some(Utf8(other)) <==> other == text
  {
    Base64.DecodeIff(Base64.Encode(Utf8(text)), Utf8(text));
    if Base64.Decode(Base64.Encode(Utf8(text))) == Some(Utf8(other)) {
      Utf8Injective(text, other);
    }
  }

  lemma {:induction false} PartsHaveNoSeparator(s: string, sep: char)
    ensures forall i :: 0 <= i < |Version.Split(s, sep)| ==> sep !in Version.Split(s, sep)[i]
    decreases |s|
  {
    if s != [] {
      PartsHaveNoSeparator(s[1..], sep);
    }
  }

  /** Clients read back the very lines that were put in if and only if no raw field of any
      link holds a line break. */
  lemma ClientsReadTheLinesIff(links: seq<Link>)
    ensures Reads(Body(links), Lines(links)) <==> forall i :: 0 <= i < |links| ==> Clean(links[i])
  {
    var lines := Lines(links);
    var text := Plaintext(lines);
    forall other
      ensures Base64.Decode(Body(links)) == Some(Utf8(other)) <==> other == text
    {
      BodyDecodes(text, other);
    }
    forall i | 0 <= i < |links|
      ensures '\n' !in lines[i] <==> Clean(links[i])
    {
      LineIff(links[i]);
    }
    TextReadsBackIff(lines);
  }

  lemma TextReadsBackIff(lines: seq<string>)
    requires forall i :: 0 <= i < |lines| ==> lines[i] != ""
    ensures (lines == if Plaintext(lines) == "" then [] else Version.Split(Plaintext(lines), '\n'))
       <==> forall i :: 0 <= i < |lines| ==> '\n' !in lines[i]
  {
    if lines != [] {
      PartsHaveNoSeparator(Plaintext(lines), '\n');
      if forall i :: 0 <= i < |lines| ==> '\n' !in lines[i] {
        Version.SplitUndoesJoin(lines, '\n');
      }
      assert |Plaintext(lines)| >= |lines[0]|;
    }
  }

  // ---------------------------------------------------------------------------
  // The implementation
  // ---------------------------------------------------------------------------

  datatype SubscriptionArtifact = SubscriptionArtifact(sha: Digest, body: string)

  method GenerateSubscriptionArtifact(crypto: Crypto, p: DeployedProfile) returns (a: SubscriptionArtifact)
    ensures a.body == Body(LinksFor(p, p.credentials))
    ensures a.sha == crypto.sha256(a.body)
  {
    var links := GenerateSubscription(p);
    var body := Base64.Encode(Utf8(Plaintext(Lines(links))));
    a := SubscriptionArtifact(crypto.sha256(body), body);
  }
}
