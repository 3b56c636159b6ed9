/** Profiles and credentials, as the compiler and the subscription read them. */
module Profile {
  import opened Domain

  datatype CredentialStatus = Active | Revoked | Expired

  datatype Material =
    | VlessUuid(uuid: string)
    | ShadowsocksPassword(cipher: string, password: string)
    | TrojanPassword(password: string)

  datatype Credential = Credential(
    id: string, group: string, displayName: string, status: CredentialStatus, material: Material)

  datatype Protocol = Vless | Shadowsocks | Trojan

  /** The private key of REALITY is a reference into a secret store. */
  datatype Security =
    | Reality(serverName: string, privateKeyRef: string, shortIds: seq<string>)
    | Tls(serverName: string)
    | NoSecurity

  datatype Inbound = Inbound(
    id: string, protocol: Protocol, listen: string, port: nat, security: Security, groupRefs: seq<string>)

  function KindOf(m: Material): Protocol {
    match m
    case VlessUuid(_) => Vless
    case ShadowsocksPassword(_, _) => Shadowsocks
    case TrojanPassword(_) => Trojan
  }

  /** What a client proves it holds. */
  function SecretOf(m: Material): string {
    match m
    case VlessUuid(uuid) => uuid
    case ShadowsocksPassword(_, password) => password
    case TrojanPassword(password) => password
  }

  // ---------------------------------------------------------------------------
  // Secret references
  // ---------------------------------------------------------------------------

  function LowerChar(c: char): char {
    if 'A' <= c <= 'Z' then (c as int + 32) as char else c
  }

  function Lower(s: string): (r: string)
    ensures |r| == |s| && forall i :: 0 <= i < |s| ==> r[i] == LowerChar(s[i])
  {
    seq(|s|, i requires 0 <= i < |s| => LowerChar(s[i]))
  }

  predicate Contains(s: string, part: string) {
    exists i :: 0 <= i <= |s| && part <= s[i..]
  }

  function Utf8Width(c: char): nat {
    if c as int < 0x80 then 1 else if c as int < 0x800 then 2 else if c as int < 0x1_0000 then 3 else 4
  }

  function Utf8Length(s: string): nat {
    if s == [] then 0 else Utf8Width(s[0]) + Utf8Length(s[1..])
  }

  /** Looks like the secret itself instead of a reference to it. */
  predicate IsInline(id: string) {
    "inline:" <= Lower(id) || (Contains(Lower(id), "private_key") && Utf8Length(id) > 48)
  }

  lemma {:induction false} LowerKeepsLength(s: string)
    ensures Utf8Length(Lower(s)) == Utf8Length(s)
    decreases |s|
  {
    if s != [] {
      LowerKeepsLength(s[1..]);
      assert Lower(s)[1..] == Lower(s[1..]);
    }
  }

  /** Respelling a reference in other letter case never gets it past the check. */
  lemma InlineIgnoresCase(a: string, b: string)
    requires Lower(a) == Lower(b)
    ensures IsInline(a) <==> IsInline(b)
  {
    LowerKeepsLength(a);
    LowerKeepsLength(b);
  }

  /** The same letters from position `i` on, in whatever case. */
  predicate SpellsAt(text: string, i: int, word: string) {
    && 0 <= i <= |text| - |word|
    && forall k :: 0 <= k < |word| ==>
         text[i + k] == word[k] || ('a' <= word[k] <= 'z' && text[i + k] as int == word[k] as int - 32)
  }

  lemma SpelledIsLowered(s: string, i: int, word: string)
    requires 0 <= i <= |s| && forall k :: 0 <= k < |word| ==> !('A' <= word[k] <= 'Z')
    ensures word <= Lower(s)[i..] <==> SpellsAt(s, i, word)
  {
    var t := Lower(s)[i..];
    forall k | 0 <= k < |word| && i + |word| <= |s|
      ensures t[k] == LowerChar(s[i + k])
      ensures (s[i + k] == word[k] || ('a' <= word[k] <= 'z' && s[i + k] as int == word[k] as int - 32))
         <==> t[k] == word[k]
    {
    }
    if SpellsAt(s, i, word) {
      assert t[..|word|] == word;
    }
  }

  /** Over the text as it is written: it starts with the word "inline:", or it holds the word
      "private_key" and takes more than 48 bytes. */
  lemma {:induction false} InlineMeans(id: string)
    ensures IsInline(id)
       <==> SpellsAt(id, 0, "inline:") || (Utf8Length(id) >= 49 && exists i :: SpellsAt(id, i, "private_key"))
  {
    SpelledIsLowered(id, 0, "inline:");
    assert Lower(id)[0..] == Lower(id);
    forall i | 0 <= i <= |id|
      ensures "private_key" <= Lower(id)[i..] <==> SpellsAt(id, i, "private_key")
    {
      SpelledIsLowered(id, i, "private_key");
    }
  }

  predicate HasInlineKey(b: Inbound) {
    b.security.Reality? && IsInline(b.security.privateKeyRef)
  }

  /** `ProfileIr::validate`: the first inbound with an inline key, if there is one. */
  method Validate(inbounds: seq<Inbound>) returns (bad: Option<string>)
    ensures bad.None? <==> forall k :: 0 <= k < |inbounds| ==> !HasInlineKey(inbounds[k])
    ensures bad.Some? ==> exists k :: 0 <= k < |inbounds| && HasInlineKey(inbounds[k])
                            && bad.value == inbounds[k].security.privateKeyRef
                            && forall i :: 0 <= i < k ==> !HasInlineKey(inbounds[i])
  {
    for k := 0 to |inbounds|
      invariant forall i :: 0 <= i < k ==> !HasInlineKey(inbounds[i])
    {
      if inbounds[k].security.Reality? && IsInline(inbounds[k].security.privateKeyRef) {
        assert HasInlineKey(inbounds[k]);
        return Some(inbounds[k].security.privateKeyRef);
      }
    }
    return None;
  }
}
