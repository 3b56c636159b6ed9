/** The subscription: a second view of a profile's credentials, which must agree with the
    configuration compiled from them. */
module Subscription {
  import opened Domain
  import opened Profile
  import opened Selection
  import opened XrayCompiler
  import Usage

  datatype DeployedProfile = DeployedProfile(host: string, port: nat, serverName: string, credentials: seq<Credential>)

  /** What a link carries. */
  datatype Link =
    | VlessLink(uuid: string, host: string, port: nat, sni: string, name: string)
    | TrojanLink(password: string, host: string, port: nat, sni: string, name: string)
    | ShadowsocksLink(cipher: string, password: string, host: string, port: nat, name: string)

  datatype NotFound = NoProfile | NoNode | NoInbound

  // ---------------------------------------------------------------------------
  // The view
  // ---------------------------------------------------------------------------

  /** Everything that can hide a credential, at one moment. */
  datatype Limits = Limits(
    quotas: map<string, int>, rollups: map<Usage.Key, Usage.Rollup>, expirations: map<string, int>, now: int)

  predicate IsExpired(expirations: map<string, int>, now: int, id: string) {
    id in expirations && expirations[id] <= now
  }

  ghost predicate Suppressed(l: Limits, id: string) {
    || (id in l.quotas && Usage.FilterTotal(l.rollups, id) > l.quotas[id])
    || IsExpired(l.expirations, l.now, id)
  }

  ghost function Unsuppressed(l: Limits, creds: seq<Credential>): seq<Credential> {
    if creds == [] then []
    else
      var c := creds[|creds|-1];
      Unsuppressed(l, creds[..|creds|-1]) + (if Suppressed(l, c.id) then [] else [c])
  }

  function ServerName(security: Security, host: string): string {
    match security
    case Reality(name, _, _) => name
    case Tls(name) => name
    case NoSecurity => host
  }

  ghost function View(inbounds: seq<Inbound>, creds: seq<Credential>, l: Limits, host: string): DeployedProfile
    requires inbounds != []
  {
    DeployedProfile(host, inbounds[0].port, ServerName(inbounds[0].security, host), Unsuppressed(l, creds))
  }

  function LinkFor(p: DeployedProfile, c: Credential): Link {
    match c.material
    case VlessUuid(uuid) => VlessLink(uuid, p.host, p.port, p.serverName, c.displayName)
    case TrojanPassword(password) => TrojanLink(password, p.host, p.port, p.serverName, c.displayName)
    case ShadowsocksPassword(cipher, password) => ShadowsocksLink(cipher, password, p.host, p.port, c.displayName)
  }

  function LinksFor(p: DeployedProfile, creds: seq<Credential>): seq<Link> {
    if creds == [] then []
    else
      var c := creds[|creds|-1];
      LinksFor(p, creds[..|creds|-1]) + (if c.status == Active then [LinkFor(p, c)] else [])
  }

  ghost function Advertised(inbounds: seq<Inbound>, creds: seq<Credential>, l: Limits, host: string): seq<Link>
    requires inbounds != []
  {
    LinksFor(View(inbounds, creds, l, host), Unsuppressed(l, creds))
  }

  lemma {:induction false} UnsuppressedIff(l: Limits, creds: seq<Credential>, c: Credential)
    ensures c in Unsuppressed(l, creds) <==> c in creds && !Suppressed(l, c.id)
    decreases |creds|
  {
    if creds != [] {
      UnsuppressedIff(l, creds[..|creds|-1], c);
      assert creds == creds[..|creds|-1] + [creds[|creds|-1]];
    }
  }

  lemma {:induction false} LinkedIff(p: DeployedProfile, creds: seq<Credential>, link: Link)
    ensures link in LinksFor(p, creds) <==> exists c :: c in creds && c.status == Active && link == LinkFor(p, c)
    decreases |creds|
  {
    if creds != [] {
      var front, last := creds[..|creds|-1], creds[|creds|-1];
      LinkedIff(p, front, link);
      assert creds == front + [last];
    }
  }

  ghost predicate Shown(l: Limits, c: Credential) {
    c.status == Active && !Suppressed(l, c.id)
  }

  /** A link is advertised exactly when an active, unsuppressed credential gives it. */
  lemma AdvertisedIff(inbounds: seq<Inbound>, creds: seq<Credential>, l: Limits, host: string, link: Link)
    requires inbounds != []
    ensures link in Advertised(inbounds, creds, l, host)
       <==> exists c :: c in creds && Shown(l, c) && link == LinkFor(View(inbounds, creds, l, host), c)
  {
    LinkedIff(View(inbounds, creds, l, host), Unsuppressed(l, creds), link);
    forall c: Credential
      ensures c in Unsuppressed(l, creds) <==> c in creds && !Suppressed(l, c.id)
    {
      UnsuppressedIff(l, creds, c);
    }
  }

  function ProtocolOf(link: Link): Protocol {
    match link
    case VlessLink(_, _, _, _, _) => Vless
    case TrojanLink(_, _, _, _, _) => Trojan
    case ShadowsocksLink(_, _, _, _, _) => Shadowsocks
  }

  /** The credential behind an advertised link. */
  lemma CredentialBehind(inbounds: seq<Inbound>, creds: seq<Credential>, l: Limits, host: string, link: Link)
    returns (c: Credential)
    requires inbounds != [] && link in Advertised(inbounds, creds, l, host)
    ensures c in creds && c.status == Active && !Suppressed(l, c.id)
    ensures link == LinkFor(View(inbounds, creds, l, host), c) && KindOf(c.material) == ProtocolOf(link)
  {
    AdvertisedIff(inbounds, creds, l, host, link);
    c :| c in creds && Shown(l, c) && link == LinkFor(View(inbounds, creds, l, host), c);
  }

  /** Over the raw tables: a credential is shown iff it is listed, not over the filter's
      quota if it has one, and not expired if it has an expiry. */
  lemma ShownIff(inbounds: seq<Inbound>, creds: seq<Credential>, l: Limits, host: string, c: Credential)
    requires inbounds != []
    ensures c in View(inbounds, creds, l, host).credentials
       <==> && c in creds
            && (c.id in l.quotas ==> Usage.FilterTotal(l.rollups, c.id) <= l.quotas[c.id])
            && (c.id in l.expirations ==> l.now < l.expirations[c.id])
  {
    UnsuppressedIff(l, creds, c);
  }

  /** Once hidden by its expiry, hidden at every later time; before it, time hides nothing. */
  lemma ExpiryIsFinal(inbounds: seq<Inbound>, creds: seq<Credential>, l: Limits, host: string, c: Credential,
                      later: int)
    requires inbounds != [] && c in creds && c.id in l.expirations && l.now <= later
    ensures var view, view' := View(inbounds, creds, l, host), View(inbounds, creds, l.(now := later), host);
            && (l.expirations[c.id] <= l.now ==> c !in view'.credentials)
            && (later < l.expirations[c.id] ==> (c in view.credentials <==> c in view'.credentials))
  {
    ShownIff(inbounds, creds, l, host, c);
    ShownIff(inbounds, creds, l.(now := later), host, c);
  }

  /** What an advertised link says: the secret and the display name of its credential, and
      the node's own host name where the first inbound names no server. */
  lemma LinksSay(inbounds: seq<Inbound>, creds: seq<Credential>, l: Limits, host: string, link: Link)
    returns (c: Credential)
    requires inbounds != [] && link in Advertised(inbounds, creds, l, host)
    ensures c in creds && c.status == Active && link.name == c.displayName && link.host == host
    ensures link.port == inbounds[0].port && KindOf(c.material) == ProtocolOf(link)
    ensures link.VlessLink? ==> link.uuid == c.material.uuid
    ensures link.TrojanLink? ==> link.password == c.material.password
    ensures link.ShadowsocksLink? ==> link.cipher == c.material.cipher && link.password == c.material.password
    ensures !link.ShadowsocksLink? ==>
              match inbounds[0].security
              case Reality(name, _, _) => link.sni == name
              case Tls(name) => link.sni == name
              case NoSecurity => link.sni == host
  {
    c := CredentialBehind(inbounds, creds, l, host, link);
  }

  // ---------------------------------------------------------------------------
  // Advertised means served
  // ---------------------------------------------------------------------------

  predicate HasClient(clients: seq<Client>, secret: string) {
    exists k :: 0 <= k < |clients| && clients[k].secret == secret
  }

  /** Whether an inbound lets in a client that follows the link. */
  predicate Accepts(out: XrayInbound, link: Link) {
    match link
    case VlessLink(uuid, _, _, _, _) => out.settings.VlessSettings? && HasClient(out.settings.clients, uuid)
    case TrojanLink(password, _, _, _, _) => out.settings.TrojanSettings? && HasClient(out.settings.clients, password)
    case ShadowsocksLink(cipher, password, _, _, _) => out.settings == ShadowsocksSettings(cipher, password)
  }

  /** The credential is one this inbound looks at. */
  predicate Reaches(b: Inbound, c: Credential) {
    c.status == Active && KindOf(c.material) == b.protocol && c.group in b.groupRefs
  }

  /** Exactly the active credentials of referenced groups get in, VLESS and Trojan. */
  lemma ServedIff(b: Inbound, ctx: Context, out: XrayInbound, secret: string)
    requires Translates(b, ctx, out) && b.protocol != Shadowsocks
    ensures HasClient(out.settings.clients, secret)
       <==> exists c :: c in ctx.credentials && Reaches(b, c) && SecretOf(c.material) == secret
  {
    var chosen := Chosen(b.groupRefs, ctx.credentials, b.protocol);
    if HasClient(out.settings.clients, secret) {
      var k :| 0 <= k < |chosen| && out.settings.clients[k].secret == secret;
      ChosenIff(b.groupRefs, ctx.credentials, b.protocol, chosen[k]);
      assert Reaches(b, chosen[k]);
    }
    if c :| c in ctx.credentials && Reaches(b, c) && SecretOf(c.material) == secret {
      ChosenIff(b.groupRefs, ctx.credentials, b.protocol, c);
      var k :| 0 <= k < |chosen| && chosen[k] == c;
      assert out.settings.clients[k].secret == secret;
    }
  }

  /** A credential the inbound reaches gets in, VLESS and Trojan. */
  lemma ReachedIsServed(b: Inbound, ctx: Context, out: XrayInbound, p: DeployedProfile, c: Credential)
    requires Translates(b, ctx, out) && b.protocol != Shadowsocks && c in ctx.credentials && Reaches(b, c)
    ensures Accepts(out, LinkFor(p, c))
  {
    ServedIff(b, ctx, out, SecretOf(c.material));
  }

  /** The first active Shadowsocks credential of a list. */
  predicate IsLead(creds: seq<Credential>, j: int) {
    && 0 <= j < |creds| && IsActiveShadowsocks(creds[j])
    && forall i :: 0 <= i < j ==> !IsActiveShadowsocks(creds[i])
  }

  predicate IsActiveShadowsocks(c: Credential) {
    c.status == Active && c.material.ShadowsocksPassword?
  }

  ghost predicate AllIn(creds: seq<Credential>, group: string) {
    forall j :: 0 <= j < |creds| ==> creds[j].group == group
  }

  lemma {:induction false} LeadExists(creds: seq<Credential>, k: int) returns (j: int)
    requires 0 <= k < |creds| && IsActiveShadowsocks(creds[k])
    ensures IsLead(creds, j)
    decreases k
  {
    if i :| 0 <= i < k && IsActiveShadowsocks(creds[i]) {
      j := LeadExists(creds, i);
    } else {
      j := k;
    }
  }

  lemma {:induction false} LeastIndex(refs: seq<string>, group: string, k: int) returns (r: int)
    requires 0 <= k < |refs| && refs[k] == group
    ensures 0 <= r < |refs| && refs[r] == group && forall i :: 0 <= i < r ==> refs[i] != group
    decreases k
  {
    if i :| 0 <= i < k && refs[i] == group {
      r := LeastIndex(refs, group, i);
    } else {
      r := k;
    }
  }

  /** With all credentials in one referenced group, the lead is at the least matching
      position. */
  lemma LeadIsFirst(refs: seq<string>, creds: seq<Credential>, group: string, j: int) returns (r: int)
    requires AllIn(creds, group) && group in refs && IsLead(creds, j)
    ensures 0 <= r < |refs| && refs[r] == group && IsFirst(refs, creds, Shadowsocks, Pos(r, j))
  {
    var k :| 0 <= k < |refs| && refs[k] == group;
    r := LeastIndex(refs, group, k);
    forall y | Match(refs, creds, Shadowsocks, y)
      ensures y == Pos(r, j) || Before(Pos(r, j), y)
    {
      assert refs[y.ref] == group && IsActiveShadowsocks(creds[y.cred]);
    }
  }

  lemma CiphersMatch(b: Inbound, ctx: Context, r: int, i: int, j: int)
    requires OneCipher(b, ctx)
    requires Match(b.groupRefs, ctx.credentials, Shadowsocks, Pos(r, i))
    requires Match(b.groupRefs, ctx.credentials, Shadowsocks, Pos(r, j))
    ensures CipherOf(ctx.credentials[i]) == CipherOf(ctx.credentials[j])
  {
    assert CipherAt(ctx, Pos(r, i).cred) == CipherAt(ctx, Pos(r, j).cred);
  }

  /** Then a Shadowsocks inbound takes its cipher and password from the lead, whose cipher
      every other active one shares. */
  lemma LeadIsServed(b: Inbound, ctx: Context, out: XrayInbound, group: string, j: int)
    requires Translates(b, ctx, out) && WellFormedInbound(b, ctx) && b.protocol == Shadowsocks
    requires AllIn(ctx.credentials, group) && group in b.groupRefs && IsLead(ctx.credentials, j)
    ensures out.settings == ShadowsocksSettings(CipherOf(ctx.credentials[j]), SecretOf(ctx.credentials[j].material))
    ensures forall c :: c in ctx.credentials && IsActiveShadowsocks(c) ==> CipherOf(c) == CipherOf(ctx.credentials[j])
  {
    var r := LeadIsFirst(b.groupRefs, ctx.credentials, group, j);
    forall c | c in ctx.credentials && IsActiveShadowsocks(c)
      ensures CipherOf(c) == CipherOf(ctx.credentials[j])
    {
      var i :| 0 <= i < |ctx.credentials| && ctx.credentials[i] == c;
      CiphersMatch(b, ctx, r, i, j);
    }
  }

  /** One store state, a profile whose every inbound references the group of all its
      credentials, and a successful compilation of it. */
  ghost predicate Deployed(inbounds: seq<Inbound>, ctx: Context, outs: seq<XrayInbound>, group: string) {
    && inbounds != [] && WellFormed(inbounds, ctx) && CompiledTo(inbounds, ctx, outs)
    && AllIn(ctx.credentials, group)
    && forall k :: 0 <= k < |inbounds| ==> group in inbounds[k].groupRefs
  }

  /** Every advertised VLESS or Trojan link is let in by every inbound of its protocol. */
  lemma AdvertisedIsServed(inbounds: seq<Inbound>, ctx: Context, outs: seq<XrayInbound>, group: string, l: Limits,
                           host: string, link: Link, k: int)
    requires Deployed(inbounds, ctx, outs, group) && 0 <= k < |inbounds|
    requires link in Advertised(inbounds, ctx.credentials, l, host)
    requires ProtocolOf(link) == inbounds[k].protocol && ProtocolOf(link) != Shadowsocks
    ensures Accepts(outs[k], link)
  {
    var p := View(inbounds, ctx.credentials, l, host);
    var c := CredentialBehind(inbounds, ctx.credentials, l, host, link);
    ReachedIsServed(inbounds[k], ctx, outs[k], p, c);
  }

  /** For Shadowsocks the cipher always agrees, and the link is let in exactly when its
      password is the one of the first active Shadowsocks credential. */
  lemma AdvertisedShadowsocks(inbounds: seq<Inbound>, ctx: Context, outs: seq<XrayInbound>, group: string, l: Limits,
                              host: string, link: Link, k: int)
    returns (j: int)
    requires Deployed(inbounds, ctx, outs, group) && 0 <= k < |inbounds|
    requires link in Advertised(inbounds, ctx.credentials, l, host)
    requires ProtocolOf(link) == inbounds[k].protocol == Shadowsocks
    ensures IsLead(ctx.credentials, j)
    ensures outs[k].settings.ShadowsocksSettings? && outs[k].settings.cipher == link.cipher
    ensures Accepts(outs[k], link) <==> link.password == SecretOf(ctx.credentials[j].material)
  {
    var c := CredentialBehind(inbounds, ctx.credentials, l, host, link);
    var i :| 0 <= i < |ctx.credentials| && ctx.credentials[i] == c;
    j := LeadExists(ctx.credentials, i);
    LeadIsServed(inbounds[k], ctx, outs[k], group, j);
    assert CipherOf(c) == link.cipher && SecretOf(c.material) == link.password;
  }

  /** The reverse fails by design of the two views: a credential over quota or expired is
      no longer advertised, yet the compiled configuration still lets it in. */
  lemma SuppressionDoesNotRevoke(inbounds: seq<Inbound>, ctx: Context, outs: seq<XrayInbound>, group: string,
                                 l: Limits, host: string, c: Credential, k: int)
    requires Deployed(inbounds, ctx, outs, group) && 0 <= k < |inbounds|
    requires c in ctx.credentials && c.status == Active && KindOf(c.material) == inbounds[k].protocol
    requires !c.material.ShadowsocksPassword?
    ensures c in View(inbounds, ctx.credentials, l, host).credentials <==> !Suppressed(l, c.id)
    ensures Accepts(outs[k], LinkFor(View(inbounds, ctx.credentials, l, host), c))
  {
    UnsuppressedIff(l, ctx.credentials, c);
    ReachedIsServed(inbounds[k], ctx, outs[k], View(inbounds, ctx.credentials, l, host), c);
  }

  // ---------------------------------------------------------------------------
  // Where links point
  // ---------------------------------------------------------------------------

  datatype Declared = DeclaresReality | DeclaresTls | DeclaresNothing

  /** The security parameter of a link is fixed by its scheme. */
  function DeclaredBy(link: Link): Declared {
    match link
    case VlessLink(_, _, _, _, _) => DeclaresReality
    case TrojanLink(_, _, _, _, _) => DeclaresTls
    case ShadowsocksLink(_, _, _, _, _) => DeclaresNothing
  }

  function OfferedBy(stream: Stream): Declared {
    match stream
    case RealityStream(_, _, _, _) => DeclaresReality
    case TlsStream(_) => DeclaresTls
    case NoStream => DeclaresNothing
  }

  predicate Offers(stream: Stream, name: string) {
    match stream
    case RealityStream(_, names, _, _) => names == [name]
    case TlsStream(n) => n == name
    case NoStream => false
  }

  /** Links lead to the first inbound: its port; for VLESS and Trojan its server name
      whenever it has a secured stream; and the declared security is the offered one
      exactly for VLESS over REALITY, Trojan over TLS, and Shadowsocks. */
  lemma LinksLeadToFirstInbound(inbounds: seq<Inbound>, ctx: Context, outs: seq<XrayInbound>, l: Limits,
                                host: string, link: Link)
    requires inbounds != [] && CompiledTo(inbounds, ctx, outs)
    requires link in Advertised(inbounds, ctx.credentials, l, host)
    requires ProtocolOf(link) == inbounds[0].protocol
    ensures link.host == host && link.port == outs[0].port
    ensures !link.ShadowsocksLink? && !inbounds[0].security.NoSecurity? ==> Offers(outs[0].stream, link.sni)
    ensures DeclaredBy(link) == OfferedBy(outs[0].stream)
       <==> || link.ShadowsocksLink?
            || (link.VlessLink? && inbounds[0].security.Reality?)
            || (link.TrojanLink? && inbounds[0].security.Tls?)
  {
    var c := CredentialBehind(inbounds, ctx.credentials, l, host, link);
    assert Translates(inbounds[0], ctx, outs[0]);
  }

  /** Shadowsocks drops whatever security its inbound asks for; the others keep it. */
  lemma SecurityIsKeptIff(b: Inbound, ctx: Context, out: XrayInbound)
    requires Translates(b, ctx, out) && (b.security.Reality? ==> b.security.privateKeyRef in ctx.secrets)
    ensures out.stream == StreamOf(b.security, ctx.secrets) <==> b.protocol != Shadowsocks || b.security.NoSecurity?
  {
  }

  // ---------------------------------------------------------------------------
  // The implementation
  // ---------------------------------------------------------------------------

  class ProfileStore {
    var profiles: map<string, seq<Inbound>>
    var nodes: map<string, NodeRecord>
    var credentials: map<string, seq<Credential>>
    var expirations: map<string, int>
    const usage: Usage.UsageStore

    constructor (usage: Usage.UsageStore)
      ensures this.usage == usage
      ensures profiles == map[] && nodes == map[] && credentials == map[] && expirations == map[]
    {
      this.usage := usage;
      profiles, nodes, credentials, expirations := map[], map[], map[], map[];
    }

    function CredentialsOf(profileId: string): seq<Credential>
      reads this
    {
      if profileId in credentials then credentials[profileId] else []
    }

    ghost function LimitsAt(now: int): Limits
      reads this, usage
    {
      Limits(usage.quotas, usage.rollups, expirations, now)
    }

    method DeployedProfileForSubscription(profileId: string, now: int) returns (r: Result<DeployedProfile, NotFound>)
      requires usage.Valid()
      ensures r.Ok? <==> profileId in profiles && nodes != map[] && profiles[profileId] != []
      ensures r.Ok? ==>
                exists node :: node in nodes
                  && r.value == View(profiles[profileId], CredentialsOf(profileId), LimitsAt(now), nodes[node].host)
      ensures r.Err? ==>
          r.error == if profileId !in profiles then NoProfile else if nodes == map[] then NoNode else NoInbound
    {
      if profileId !in profiles {
        return Err(NoProfile);
      }
      if |nodes| == 0 {
        return Err(NoNode);
      }
      var node :| node in nodes;
      var inbounds := profiles[profileId];
      if inbounds == [] {
        return Err(NoInbound);
      }
      var creds := CredentialsOf(profileId);
      var kept := [];
      for k := 0 to |creds|
        invariant kept == Unsuppressed(LimitsAt(now), creds[..k])
      {
        assert creds[..k+1][..k] == creds[..k];
        var over := usage.QuotaExceededInMemory(creds[k].id);
        if !over && !IsExpired(expirations, now, creds[k].id) {
          kept := kept + [creds[k]];
        }
      }
      assert creds[..|creds|] == creds;
      var host := nodes[node].host;
      return Ok(DeployedProfile(host, inbounds[0].port, ServerName(inbounds[0].security, host), kept));
    }
  }

  method GenerateSubscription(p: DeployedProfile) returns (links: seq<Link>)
    ensures links == LinksFor(p, p.credentials)
  {
    links := [];
    for k := 0 to |p.credentials|
      invariant links == LinksFor(p, p.credentials[..k])
    {
      var c := p.credentials[k];
      assert p.credentials[..k+1][..k] == p.credentials[..k];
      if c.status == Active {
        match c.material {
          case VlessUuid(uuid) =>
            links := links + [VlessLink(uuid, p.host, p.port, p.serverName, c.displayName)];
          case TrojanPassword(password) =>
            links := links + [TrojanLink(password, p.host, p.port, p.serverName, c.displayName)];
          case ShadowsocksPassword(cipher, password) =>
            links := links + [ShadowsocksLink(cipher, password, p.host, p.port, c.displayName)];
        }
      }
    }
    assert p.credentials[..|p.credentials|] == p.credentials;
  }
}
