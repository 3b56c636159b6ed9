/** The translation of a profile into an xray configuration. */
module XrayCompiler {
  import opened Domain
  import opened Profile
  import opened Selection
  import Version
  import Base64

  datatype Context = Context(coreVersion: string, secrets: map<string, string>, credentials: seq<Credential>)

  /** An entry of "clients": an id or password and an e-mail label. */
  datatype Client = Client(secret: string, email: string)

  datatype Settings =
    | VlessSettings(clients: seq<Client>)
    | ShadowsocksSettings(cipher: string, password: string)
    | TrojanSettings(clients: seq<Client>)

  datatype Stream =
    | NoStream
    | TlsStream(serverName: string)
    | RealityStream(dest: string, serverNames: seq<string>, privateKey: string, shortIds: seq<string>)

  /** The part of an inbound's JSON that depends on the profile. */
  datatype XrayInbound = XrayInbound(tag: string, listen: string, port: nat, settings: Settings, stream: Stream)

  datatype CompileError =
    | InvalidIr(reference: string)
    | UnsupportedReality(version: string)
    | MissingSecret(reference: string)
    | MissingCredential(inbound: string)
    | MixedShadowsocksMethods(inbound: string)
    | InvalidShadowsocks2022Psk(cipher: string, expectedBytes: nat)
    | UnsupportedProtocol

  datatype InboundOutcome = Emitted(json: XrayInbound) | Refused(error: CompileError)

  datatype CompileOutcome = Compiled(inbounds: seq<XrayInbound>) | Rejected(error: CompileError)

  // ---------------------------------------------------------------------------
  // Pieces
  // ---------------------------------------------------------------------------

  function ClientOf(c: Credential): Client {
    Client(SecretOf(c.material), c.displayName)
  }

  function ClientsOf(cs: seq<Credential>): (r: seq<Client>)
    ensures |r| == |cs| && forall k :: 0 <= k < |cs| ==> r[k] == ClientOf(cs[k])
  {
    seq(|cs|, k requires 0 <= k < |cs| => ClientOf(cs[k]))
  }

  /** How many bytes of key a 2022 cipher takes; other ciphers take any password. */
  function PskBytes(cipher: string): Option<nat> {
    if cipher == "2022-blake3-aes-128-gcm" then Some(16)
    else if cipher == "2022-blake3-aes-256-gcm" then Some(32)
    else None
  }

  function ValidateShadowsocksMethodPassword(cipher: string, password: string): Option<CompileError> {
    match PskBytes(cipher)
    case None => None
    case Some(n) =>
      match Base64.Decode(password)
      case None => Some(InvalidShadowsocks2022Psk(cipher, n))
      case Some(bytes) => if |bytes| == n then None else Some(InvalidShadowsocks2022Psk(cipher, n))
  }

  /** The password is the canonical base64 of as many bytes as the cipher takes. */
  ghost predicate KeyFits(cipher: string, password: string) {
    PskBytes(cipher).Some? ==> exists bytes :: |bytes| == PskBytes(cipher).value && password == Base64.Encode(bytes)
  }

  lemma PskCheck(cipher: string, password: string)
    ensures ValidateShadowsocksMethodPassword(cipher, password).None? <==> KeyFits(cipher, password)
    ensures ValidateShadowsocksMethodPassword(cipher, password).Some? ==>
              && PskBytes(cipher).Some?
              && ValidateShadowsocksMethodPassword(cipher, password).value
                  == InvalidShadowsocks2022Psk(cipher, PskBytes(cipher).value)
  {
    if PskBytes(cipher).Some? {
      forall bytes: seq<Base64.Byte>
        ensures Base64.Decode(password) == Some(bytes) <==> password == Base64.Encode(bytes)
      {
        Base64.DecodeIff(password, bytes);
      }
    }
  }

  /** The password is the canonical base64 of this many bytes. */
  ghost predicate IsKeyOf(password: string, n: nat) {
    exists bytes :: |bytes| == n && password == Base64.Encode(bytes)
  }

  /** In numbers: 16 bytes for the 128-bit cipher, 32 for the 256-bit one, and no condition
      on any other. */
  lemma KeyLengths(cipher: string, password: string)
    ensures KeyFits(cipher, password)
       <==> && (cipher == "2022-blake3-aes-128-gcm" ==> IsKeyOf(password, 16))
            && (cipher == "2022-blake3-aes-256-gcm" ==> IsKeyOf(password, 32))
    ensures ValidateShadowsocksMethodPassword(cipher, password).None? <==> KeyFits(cipher, password)
  {
    CiphersDiffer();
    PskCheck(cipher, password);
  }

  lemma CiphersDiffer()
    ensures "2022-blake3-aes-128-gcm" != "2022-blake3-aes-256-gcm"
  {
    assert "2022-blake3-aes-128-gcm"[16] == '1' && "2022-blake3-aes-256-gcm"[16] == '2';
  }

  function Port443(serverName: string): string {
    serverName + ":443"
  }

  /** The stream settings a security calls for; `keys` resolves key references. */
  function StreamOf(security: Security, keys: map<string, string>): Stream
    requires security.Reality? ==> security.privateKeyRef in keys
  {
    match security
    case NoSecurity => NoStream
    case Tls(name) => TlsStream(name)
    case Reality(name, key, ids) => RealityStream(Port443(name), [name], keys[key], ids)
  }

  function Settle(b: Inbound, settings: Settings, stream: Stream): XrayInbound {
    XrayInbound(b.id, b.listen, b.port, settings, stream)
  }

  // ---------------------------------------------------------------------------
  // When an inbound is well formed, said over positions and not over loops
  // ---------------------------------------------------------------------------

  ghost predicate HasCredential(b: Inbound, ctx: Context) {
    exists x :: Match(b.groupRefs, ctx.credentials, b.protocol, x)
  }

  /** All matching Shadowsocks credentials agree on the cipher. */
  ghost predicate OneCipher(b: Inbound, ctx: Context) {
    var refs, creds := b.groupRefs, ctx.credentials;
    forall x, y :: Match(refs, creds, Shadowsocks, x) && Match(refs, creds, Shadowsocks, y) ==>
      CipherAt(ctx, x.cred) == CipherAt(ctx, y.cred)
  }

  function CipherAt(ctx: Context, j: int): string {
    if 0 <= j < |ctx.credentials| then CipherOf(ctx.credentials[j]) else ""
  }

  /** The key of the first matching credential fits its cipher. */
  ghost predicate FirstKeyFits(b: Inbound, ctx: Context) {
    forall x :: IsFirst(b.groupRefs, ctx.credentials, Shadowsocks, x) ==>
      KeyFits(CipherAt(ctx, x.cred), SecretOf(ctx.credentials[x.cred].material))
  }

  ghost predicate WellFormedInbound(b: Inbound, ctx: Context) {
    match b.protocol
    case Vless => b.security.Reality? ==>
        Version.SupportsReality(ctx.coreVersion) && b.security.privateKeyRef in ctx.secrets
    case Trojan => HasCredential(b, ctx) && !b.security.Reality?
    case Shadowsocks => HasCredential(b, ctx) && OneCipher(b, ctx) && FirstKeyFits(b, ctx)
  }

  ghost predicate WellFormed(inbounds: seq<Inbound>, ctx: Context) {
    && (forall k :: 0 <= k < |inbounds| ==> !HasInlineKey(inbounds[k]))
    && (forall k :: 0 <= k < |inbounds| ==> WellFormedInbound(inbounds[k], ctx))
  }

  // ---------------------------------------------------------------------------
  // What is emitted, and what is reported
  // ---------------------------------------------------------------------------

  ghost function ChosenBy(b: Inbound, ctx: Context): seq<Credential> {
    Chosen(b.groupRefs, ctx.credentials, b.protocol)
  }

  /** The output says what the inbound says: same tag, address and port, the chosen
      credentials as clients, and, except for Shadowsocks, the same stream security. */
  ghost predicate Translates(b: Inbound, ctx: Context, out: XrayInbound) {
    && out.tag == b.id && out.listen == b.listen && out.port == b.port
    && match b.protocol
       case Vless =>
         && out.settings == VlessSettings(ClientsOf(ChosenBy(b, ctx)))
         && (b.security.Reality? ==> b.security.privateKeyRef in ctx.secrets)
         && out.stream == StreamOf(b.security, ctx.secrets)
       case Trojan =>
         && out.settings == TrojanSettings(ClientsOf(ChosenBy(b, ctx)))
         && !b.security.Reality?
         && out.stream == StreamOf(b.security, ctx.secrets)
       case Shadowsocks =>
         && out.stream == NoStream
         && exists x :: IsFirst(b.groupRefs, ctx.credentials, Shadowsocks, x)
              && out.settings == ShadowsocksSettings(CipherAt(ctx, x.cred), SecretOf(ctx.credentials[x.cred].material))
  }

  /** Which error an ill-formed inbound is reported with. */
  ghost predicate Reports(b: Inbound, ctx: Context, e: CompileError) {
    match b.protocol
    case Vless =>
      && b.security.Reality?
      && e == if Version.SupportsReality(ctx.coreVersion) then MissingSecret(b.security.privateKeyRef)
              else UnsupportedReality(ctx.coreVersion)
    case Trojan => e == if HasCredential(b, ctx) then UnsupportedProtocol else MissingCredential(b.id)
    case Shadowsocks =>
      if !HasCredential(b, ctx) then e == MissingCredential(b.id)
      else if !OneCipher(b, ctx) then e == MixedShadowsocksMethods(b.id)
      else exists x :: IsFirst(b.groupRefs, ctx.credentials, Shadowsocks, x) && PskBytes(CipherAt(ctx, x.cred)).Some?
             && e == InvalidShadowsocks2022Psk(CipherAt(ctx, x.cred), PskBytes(CipherAt(ctx, x.cred)).value)
  }

  lemma ChosenIsMatched(b: Inbound, ctx: Context)
    ensures ChosenBy(b, ctx) != [] <==> HasCredential(b, ctx)
  {
    var ps := Positions(b.groupRefs, ctx.credentials, b.protocol);
    ChosenExactly(b.groupRefs, ctx.credentials, b.protocol);
    if ps != [] {
      assert Match(b.groupRefs, ctx.credentials, b.protocol, ps[0]);
    }
    if HasCredential(b, ctx) {
      var x :| Match(b.groupRefs, ctx.credentials, b.protocol, x);
      assert x in ps;
    }
  }

  /** Over the chosen credentials, one cipher means: all share the first one's. */
  lemma CiphersAgree(b: Inbound, ctx: Context)
    requires b.protocol == Shadowsocks
    ensures OneCipher(b, ctx) <==> SameCipher(ChosenBy(b, ctx))
  {
    var ps, cs := Positions(b.groupRefs, ctx.credentials, Shadowsocks), ChosenBy(b, ctx);
    ChosenExactly(b.groupRefs, ctx.credentials, Shadowsocks);
    if OneCipher(b, ctx) {
      forall k | 0 <= k < |cs|
        ensures CipherOf(cs[k]) == CipherOf(cs[0])
      {
        assert CipherAt(ctx, ps[k].cred) == CipherAt(ctx, ps[0].cred);
      }
    }
    if SameCipher(cs) {
      forall x | Match(b.groupRefs, ctx.credentials, Shadowsocks, x)
        ensures CipherAt(ctx, x.cred) == CipherOf(cs[0])
      {
        assert x in ps;
        var k :| 0 <= k < |ps| && ps[k] == x;
        assert CipherOf(cs[k]) == CipherOf(cs[0]);
      }
    }
  }

  function CipherOf(c: Credential): string {
    if c.material.ShadowsocksPassword? then c.material.cipher else ""
  }

  predicate SameCipher(cs: seq<Credential>) {
    forall k :: 0 <= k < |cs| ==> CipherOf(cs[k]) == CipherOf(cs[0])
  }

  /** The first chosen credential is the one at the least matching position. */
  lemma FirstChosen(b: Inbound, ctx: Context) returns (x: Pos)
    requires b.protocol == Shadowsocks && ChosenBy(b, ctx) != []
    ensures IsFirst(b.groupRefs, ctx.credentials, Shadowsocks, x)
    ensures ctx.credentials[x.cred] == ChosenBy(b, ctx)[0]
    ensures forall y :: IsFirst(b.groupRefs, ctx.credentials, Shadowsocks, y) ==> y == x
  {
    FirstIsLeast(b.groupRefs, ctx.credentials, Shadowsocks, Pos(0, 0));
    x := Positions(b.groupRefs, ctx.credentials, Shadowsocks)[0];
    FirstIsLeast(b.groupRefs, ctx.credentials, Shadowsocks, x);
  }

  /** The specification leaves no choice: there is one translation. */
  lemma TranslationIsUnique(b: Inbound, ctx: Context, out: XrayInbound, out': XrayInbound)
    requires Translates(b, ctx, out) && Translates(b, ctx, out')
    ensures out == out'
  {
    if b.protocol == Shadowsocks {
      var x :| IsFirst(b.groupRefs, ctx.credentials, Shadowsocks, x)
        && out.settings == ShadowsocksSettings(CipherAt(ctx, x.cred), SecretOf(ctx.credentials[x.cred].material));
      var y :| IsFirst(b.groupRefs, ctx.credentials, Shadowsocks, y)
        && out'.settings == ShadowsocksSettings(CipherAt(ctx, y.cred), SecretOf(ctx.credentials[y.cred].material));
      assert x == y;
    }
  }

  /** And one report. */
  lemma ReportIsUnique(b: Inbound, ctx: Context, e: CompileError, e': CompileError)
    requires Reports(b, ctx, e) && Reports(b, ctx, e')
    ensures e == e'
  {
  }

  // ---------------------------------------------------------------------------
  // The implementation
  // ---------------------------------------------------------------------------

  /** The loops that push a client for every chosen credential. */
  method PushClients(refs: seq<string>, creds: seq<Credential>, p: Protocol) returns (clients: seq<Client>)
    ensures clients == ClientsOf(Chosen(refs, creds, p))
  {
    clients := [];
    for i := 0 to |refs|
      invariant clients == ClientsOf(Chosen(refs[..i], creds, p))
    {
      VisitRow(refs, creds, p, i);
      for j := 0 to |creds|
        invariant clients == ClientsOf(Visited(refs, creds, p, i, j))
      {
        VisitStep(refs, creds, p, i, j);
        if creds[j].group == refs[i] && creds[j].status == Active && KindOf(creds[j].material) == p {
          clients := clients + [Client(SecretOf(creds[j].material), creds[j].displayName)];
        }
      }
    }
    assert refs[..|refs|] == refs;
  }

  datatype Pick = Nobody | Mixed | Picked(cipher: string, password: string)

  /** The Shadowsocks loops: keep the first, leave at once on a second cipher. */
  method SelectShadowsocks(refs: seq<string>, creds: seq<Credential>) returns (pick: Pick)
    ensures pick.Nobody? <==> Chosen(refs, creds, Shadowsocks) == []
    ensures pick.Mixed? <==> !SameCipher(Chosen(refs, creds, Shadowsocks))
    ensures pick.Picked? ==>
              var first := Chosen(refs, creds, Shadowsocks)[0];
              pick.cipher == CipherOf(first) && pick.password == SecretOf(first.material)
  {
    pick := Nobody;
    ghost var seen := [];
    for i := 0 to |refs|
      invariant seen == Chosen(refs[..i], creds, Shadowsocks)
      invariant KeepsFirst(seen, pick)
    {
      VisitRow(refs, creds, Shadowsocks, i);
      for j := 0 to |creds|
        invariant seen == Visited(refs, creds, Shadowsocks, i, j)
        invariant KeepsFirst(seen, pick)
      {
        VisitStep(refs, creds, Shadowsocks, i, j);
        var c := creds[j];
        if c.group == refs[i] && c.status == Active && c.material.ShadowsocksPassword? {
          seen := seen + [c];
          if pick.Picked? && pick.cipher != c.material.cipher {
            VisitedPrefix(refs, creds, Shadowsocks, i, j + 1);
            assert CipherOf(seen[|seen|-1]) != CipherOf(seen[0]);
            return Mixed;
          }
          if pick.Nobody? {
            pick := Picked(c.material.cipher, c.material.password);
          }
        }
      }
    }
    assert refs[..|refs|] == refs;
  }

  predicate KeepsFirst(seen: seq<Credential>, pick: Pick) {
    if seen == [] then pick == Nobody
    else pick == Picked(CipherOf(seen[0]), SecretOf(seen[0].material)) && SameCipher(seen)
  }

  method ApplyStreamSecurity(json: XrayInbound, security: Security) returns (r: InboundOutcome)
    ensures r.Emitted? <==> !security.Reality?
    ensures r.Emitted? ==>
        r.json == json.(stream := if security.Tls? then TlsStream(security.serverName) else json.stream)
    ensures r.Refused? ==> r.error == UnsupportedProtocol
  {
    match security
    case Tls(name) => r := Emitted(json.(stream := TlsStream(name)));
    case NoSecurity => r := Emitted(json);
    case Reality(_, _, _) => r := Refused(UnsupportedProtocol);
  }

  method CompileVless(b: Inbound, ctx: Context) returns (r: InboundOutcome)
    requires b.protocol == Vless
    ensures r.Emitted? <==> WellFormedInbound(b, ctx)
    ensures r.Emitted? ==> Translates(b, ctx, r.json)
    ensures r.Refused? ==> Reports(b, ctx, r.error)
  {
    var clients := PushClients(b.groupRefs, ctx.credentials, Vless);
    var json := Settle(b, VlessSettings(clients), NoStream);
    match b.security
    case Reality(name, key, ids) =>
      if !Version.SupportsReality(ctx.coreVersion) {
        return Refused(UnsupportedReality(ctx.coreVersion));
      }
      if key !in ctx.secrets {
        return Refused(MissingSecret(key));
      }
      return Emitted(json.(stream := RealityStream(name + ":443", [name], ctx.secrets[key], ids)));
    case Tls(name) => return Emitted(json.(stream := TlsStream(name)));
    case NoSecurity => return Emitted(json);
  }

  method CompileTrojan(b: Inbound, ctx: Context) returns (r: InboundOutcome)
    requires b.protocol == Trojan
    ensures r.Emitted? <==> WellFormedInbound(b, ctx)
    ensures r.Emitted? ==> Translates(b, ctx, r.json)
    ensures r.Refused? ==> Reports(b, ctx, r.error)
  {
    var clients := PushClients(b.groupRefs, ctx.credentials, Trojan);
    ChosenIsMatched(b, ctx);
    if clients == [] {
      return Refused(MissingCredential(b.id));
    }
    r := ApplyStreamSecurity(Settle(b, TrojanSettings(clients), NoStream), b.security);
  }

  method CompileShadowsocks(b: Inbound, ctx: Context) returns (r: InboundOutcome)
    requires b.protocol == Shadowsocks
    ensures r.Emitted? <==> WellFormedInbound(b, ctx)
    ensures r.Emitted? ==> Translates(b, ctx, r.json)
    ensures r.Refused? ==> Reports(b, ctx, r.error)
  {
    var pick := SelectShadowsocks(b.groupRefs, ctx.credentials);
    ChosenIsMatched(b, ctx);
    CiphersAgree(b, ctx);
    match pick
    case Mixed => return Refused(MixedShadowsocksMethods(b.id));
    case Nobody => return Refused(MissingCredential(b.id));
    case Picked(cipher, password) =>
      ghost var x := FirstChosen(b, ctx);
      assert CipherAt(ctx, x.cred) == cipher;
      PskCheck(cipher, password);
      var bad := ValidateShadowsocksMethodPassword(cipher, password);
      if bad.Some? {
        return Refused(bad.value);
      }
      return Emitted(Settle(b, ShadowsocksSettings(cipher, password), NoStream));
  }

  /** Compilation succeeds exactly on well-formed profiles, inbound by inbound and in
      order; otherwise the report is about the first inbound at fault, inline keys first. */
  method CompileProfile(inbounds: seq<Inbound>, ctx: Context) returns (r: CompileOutcome)
    ensures r.Compiled? <==> WellFormed(inbounds, ctx)
    ensures r.Compiled? ==> CompiledTo(inbounds, ctx, r.inbounds)
    ensures r.Rejected? ==> FirstFault(inbounds, ctx, r.error)
  {
    var bad := Validate(inbounds);
    if bad.Some? {
      return Rejected(InvalidIr(bad.value));
    }
    var outs := [];
    for k := 0 to |inbounds|
      invariant |outs| == k
      invariant forall i :: 0 <= i < k ==> WellFormedInbound(inbounds[i], ctx) && Translates(inbounds[i], ctx, outs[i])
    {
      var one;
      match inbounds[k].protocol {
        case Vless => one := CompileVless(inbounds[k], ctx);
        case Trojan => one := CompileTrojan(inbounds[k], ctx);
        case Shadowsocks => one := CompileShadowsocks(inbounds[k], ctx);
      }
      if one.Refused? {
        return Rejected(one.error);
      }
      outs := outs + [one.json];
    }
    return Compiled(outs);
  }

  ghost predicate CompiledTo(inbounds: seq<Inbound>, ctx: Context, outs: seq<XrayInbound>) {
    |outs| == |inbounds| && forall k :: 0 <= k < |inbounds| ==> Translates(inbounds[k], ctx, outs[k])
  }

  ghost predicate FirstFault(inbounds: seq<Inbound>, ctx: Context, e: CompileError) {
    if exists k :: 0 <= k < |inbounds| && HasInlineKey(inbounds[k]) then
      exists k :: 0 <= k < |inbounds| && HasInlineKey(inbounds[k]) && e == InvalidIr(inbounds[k].security.privateKeyRef)
               && forall i :: 0 <= i < k ==> !HasInlineKey(inbounds[i])
    else
      exists k :: 0 <= k < |inbounds| && !WellFormedInbound(inbounds[k], ctx) && Reports(inbounds[k], ctx, e)
               && forall i :: 0 <= i < k ==> WellFormedInbound(inbounds[i], ctx)
  }

  /** The outcome of a compilation is determined by its specification. */
  lemma FaultIsUnique(inbounds: seq<Inbound>, ctx: Context, e: CompileError, e': CompileError)
    requires FirstFault(inbounds, ctx, e) && FirstFault(inbounds, ctx, e')
    ensures e == e'
  {
    if forall k :: 0 <= k < |inbounds| ==> !HasInlineKey(inbounds[k]) {
      var k :| 0 <= k < |inbounds| && !WellFormedInbound(inbounds[k], ctx) && Reports(inbounds[k], ctx, e)
        && forall i :: 0 <= i < k ==> WellFormedInbound(inbounds[i], ctx);
      var k' :| 0 <= k' < |inbounds| && !WellFormedInbound(inbounds[k'], ctx) && Reports(inbounds[k'], ctx, e')
        && forall i :: 0 <= i < k' ==> WellFormedInbound(inbounds[i], ctx);
      ReportIsUnique(inbounds[k], ctx, e, e');
    }
  }

  /** A Shadowsocks inbound with a matching credential and one cipher compiles if and only
      if the password of the first matching credential is a key of the cipher's length. */
  lemma ShadowsocksKeyDecides(b: Inbound, ctx: Context, x: Pos)
    requires b.protocol == Shadowsocks && OneCipher(b, ctx)
    requires IsFirst(b.groupRefs, ctx.credentials, Shadowsocks, x)
    ensures var cipher, password := CipherAt(ctx, x.cred), SecretOf(ctx.credentials[x.cred].material);
            WellFormedInbound(b, ctx)
            <==> && (cipher == "2022-blake3-aes-128-gcm" ==> IsKeyOf(password, 16))
                 && (cipher == "2022-blake3-aes-256-gcm" ==> IsKeyOf(password, 32))
  {
    KeyLengths(CipherAt(ctx, x.cred), SecretOf(ctx.credentials[x.cred].material));
    assert HasCredential(b, ctx);
    assert forall y :: IsFirst(b.groupRefs, ctx.credentials, Shadowsocks, y) ==> y == x;
  }

  /** The entry has the secret of an active credential of a referenced group, and that
      credential's display name. */
  predicate Carries(client: Client, b: Inbound, c: Credential) {
    && c.status == Active && KindOf(c.material) == b.protocol && c.group in b.groupRefs
    && client.email == c.displayName
    && (b.protocol == Vless ==> client.secret == c.material.uuid)
    && (b.protocol == Trojan ==> client.secret == c.material.password)
  }

  lemma ClientsCarryNames(b: Inbound, ctx: Context, out: XrayInbound, k: int)
    requires Translates(b, ctx, out) && b.protocol != Shadowsocks && 0 <= k < |out.settings.clients|
    ensures exists c :: c in ctx.credentials && Carries(out.settings.clients[k], b, c)
  {
    var chosen := Chosen(b.groupRefs, ctx.credentials, b.protocol);
    ChosenIff(b.groupRefs, ctx.credentials, b.protocol, chosen[k]);
    assert Carries(out.settings.clients[k], b, chosen[k]);
  }

  /** What a secured stream says: where REALITY forwards to, for which name, under which key
      and short ids. */
  lemma StreamsSay(b: Inbound, ctx: Context, out: XrayInbound)
    requires Translates(b, ctx, out) && b.protocol != Shadowsocks
    ensures b.security.Reality? ==>
              && b.security.privateKeyRef in ctx.secrets && out.stream.RealityStream?
              && out.stream.dest == b.security.serverName + ":443"
              && out.stream.serverNames == [b.security.serverName]
              && out.stream.privateKey == ctx.secrets[b.security.privateKeyRef]
              && out.stream.shortIds == b.security.shortIds
    ensures b.security.Tls? ==> out.stream.TlsStream? && out.stream.serverName == b.security.serverName
    ensures b.security.NoSecurity? ==> out.stream.NoStream?
  {
  }
}
