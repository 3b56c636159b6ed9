/** Standard base64 with required padding and no stray bits: section 4 of RFC 4648. */
module Base64 {
  import opened Domain

  type Byte = x: int | 0 <= x < 256

  // ---------------------------------------------------------------------------
  // Characters and symbols: 0 to 63 for the alphabet, 64 for padding
  // ---------------------------------------------------------------------------

  const Pad := 64
  const Foreign := 65

  function ToChar(n: int): char
    requires 0 <= n <= Pad
  {
    if n < 26 then ('A' as int + n) as char
    else if n < 52 then ('a' as int + n - 26) as char
    else if n < 62 then ('0' as int + n - 52) as char
    else if n == 62 then '+'
    else if n == 63 then '/'
    else '='
  }

  function FromChar(c: char): (n: int)
    ensures 0 <= n <= Foreign
  {
    if 'A' <= c <= 'Z' then c as int - 'A' as int
    else if 'a' <= c <= 'z' then c as int - 'a' as int + 26
    else if '0' <= c <= '9' then c as int - '0' as int + 52
    else if c == '+' then 62
    else if c == '/' then 63
    else if c == '=' then Pad
    else Foreign
  }

  function Symbols(s: string): (x: seq<int>)
    ensures |x| == |s| && forall i :: 0 <= i < |s| ==> x[i] == FromChar(s[i])
  {
    if s == [] then [] else [FromChar(s[0])] + Symbols(s[1..])
  }

  function Chars(x: seq<int>): (s: string)
    requires forall i :: 0 <= i < |x| ==> 0 <= x[i] <= Pad
    ensures |s| == |x| && forall i :: 0 <= i < |x| ==> s[i] == ToChar(x[i])
  {
    if x == [] then [] else [ToChar(x[0])] + Chars(x[1..])
  }

  lemma CharRoundTrip(n: int, c: char)
    ensures 0 <= n <= Pad ==> FromChar(ToChar(n)) == n
    ensures FromChar(c) <= Pad ==> ToChar(FromChar(c)) == c
  {
  }

  // ---------------------------------------------------------------------------
  // Bytes and symbols
  // ---------------------------------------------------------------------------

  function Quad(a: Byte, b: Byte, c: Byte): seq<int> {
    [a / 4, a % 4 * 16 + b / 16, b % 16 * 4 + c / 64, c % 64]
  }

  function EncodeSymbols(bytes: seq<Byte>): (x: seq<int>)
    ensures forall i :: 0 <= i < |x| ==> 0 <= x[i] <= Pad
    ensures bytes != [] ==> |x| >= 4
  {
    if |bytes| == 0 then []
    else if |bytes| == 1 then Quad(bytes[0], 0, 0)[..2] + [Pad, Pad]
    else if |bytes| == 2 then Quad(bytes[0], bytes[1], 0)[..3] + [Pad]
    else Quad(bytes[0], bytes[1], bytes[2]) + EncodeSymbols(bytes[3..])
  }

  predicate IsSextet(n: int) {
    0 <= n < 64
  }

  function Triple(w: int, x: int, y: int, z: int): seq<Byte>
    requires IsSextet(w) && IsSextet(x) && IsSextet(y) && IsSextet(z)
  {
    [w * 4 + x / 16, x % 16 * 16 + y / 4, y % 4 * 64 + z]
  }

  /** A last group: one to three bytes, with the unused bits zero. */
  function DecodeLast(x: seq<int>): Option<seq<Byte>>
    requires |x| == 4
  {
    if !IsSextet(x[0]) || !IsSextet(x[1]) then None
    else if x[2] == Pad && x[3] == Pad then
      if x[1] % 16 == 0 then Some(Triple(x[0], x[1], 0, 0)[..1]) else None
    else if !IsSextet(x[2]) then None
    else if x[3] == Pad then
      if x[2] % 4 == 0 then Some(Triple(x[0], x[1], x[2], 0)[..2]) else None
    else if !IsSextet(x[3]) then None
    else Some(Triple(x[0], x[1], x[2], x[3]))
  }

  predicate FullGroup(x: seq<int>) {
    |x| >= 4 && IsSextet(x[0]) && IsSextet(x[1]) && IsSextet(x[2]) && IsSextet(x[3])
  }

  function DecodeSymbols(x: seq<int>): Option<seq<Byte>> {
    if |x| == 0 then Some([])
    else if |x| == 4 then DecodeLast(x)
    else if !FullGroup(x) then None
    else
      match DecodeSymbols(x[4..])
      case None => None
      case Some(rest) => Some(Triple(x[0], x[1], x[2], x[3]) + rest)
  }

  function Encode(bytes: seq<Byte>): string {
    Chars(EncodeSymbols(bytes))
  }

  function Decode(s: string): Option<seq<Byte>> {
    DecodeSymbols(Symbols(s))
  }

  // ---------------------------------------------------------------------------
  // Decoding and encoding are inverse
  // ---------------------------------------------------------------------------

  lemma SplitBits(high: int, base: int, low: int)
    requires 0 <= low < base && (base == 64 || base == 16 || base == 4)
    ensures (high * base + low) / base == high && (high * base + low) % base == low
  {
  }

  lemma JoinBits(n: int, base: int)
    requires base == 64 || base == 16 || base == 4
    ensures n / base * base + n % base == n
  {
  }

  lemma TripleOfQuad(a: Byte, b: Byte, c: Byte)
    ensures var q := Quad(a, b, c);
            && FullGroup(q) && Triple(q[0], q[1], q[2], q[3]) == [a, b, c]
            && q[1] % 16 == b / 16 && q[2] % 4 == c / 64
  {
    var q := Quad(a, b, c);
    SplitBits(a % 4, 16, b / 16);
    SplitBits(b % 16, 4, c / 64);
    assert q[1] / 16 == a % 4 && q[1] % 16 == b / 16 && q[2] / 4 == b % 16 && q[2] % 4 == c / 64;
    JoinBits(a, 4);
    JoinBits(b, 16);
    JoinBits(c, 64);
  }

  /** Three bytes are one number of 24 bits, cut into four of six, the highest first. */
  lemma GroupIsOneNumber(a: Byte, b: Byte, c: Byte)
    ensures var q := Quad(a, b, c);
            ((q[0] * 64 + q[1]) * 64 + q[2]) * 64 + q[3] == (a * 256 + b) * 256 + c
  {
    JoinBits(a, 4);
    JoinBits(b, 16);
    JoinBits(c, 64);
  }

  lemma QuadOfTriple(w: int, x: int, y: int, z: int)
    requires IsSextet(w) && IsSextet(x) && IsSextet(y) && IsSextet(z)
    ensures var t := Triple(w, x, y, z); Quad(t[0], t[1], t[2]) == [w, x, y, z]
  {
    var t := Triple(w, x, y, z);
    SplitBits(w, 4, x / 16);
    SplitBits(x % 16, 16, y / 4);
    SplitBits(y % 4, 64, z);
    assert t[0] / 4 == w && t[0] % 4 == x / 16 && t[1] / 16 == x % 16 && t[1] % 16 == y / 4;
    assert t[2] / 64 == y % 4 && t[2] % 64 == z;
    JoinBits(x, 16);
    JoinBits(y, 4);
  }

  lemma {:induction false} GroupThenRest(q: seq<int>, rest: seq<int>)
    requires |q| == 4 && FullGroup(q) && DecodeSymbols(rest).Some?
    ensures DecodeSymbols(q + rest) == Some(Triple(q[0], q[1], q[2], q[3]) + DecodeSymbols(rest).value)
  {
    if rest == [] {
      assert q + rest == q;
      var t := Triple(q[0], q[1], q[2], q[3]);
      assert t + [] == t;
    } else {
      assert (q + rest)[4..] == rest;
    }
  }

  lemma {:induction false} DecodeUndoesEncode(bytes: seq<Byte>)
    ensures DecodeSymbols(EncodeSymbols(bytes)) == Some(bytes)
    decreases |bytes|
  {
    var x := EncodeSymbols(bytes);
    if |bytes| == 1 {
      TripleOfQuad(bytes[0], 0, 0);
      assert Triple(x[0], x[1], 0, 0)[..1] == bytes;
    } else if |bytes| == 2 {
      TripleOfQuad(bytes[0], bytes[1], 0);
      assert Triple(x[0], x[1], x[2], 0)[..2] == bytes;
    } else if |bytes| > 2 {
      var q, rest := Quad(bytes[0], bytes[1], bytes[2]), EncodeSymbols(bytes[3..]);
      TripleOfQuad(bytes[0], bytes[1], bytes[2]);
      DecodeUndoesEncode(bytes[3..]);
      assert [bytes[0], bytes[1], bytes[2]] + bytes[3..] == bytes;
      GroupThenRest(q, rest);
    }
  }

  lemma LastIsEncoded(x: seq<int>)
    requires |x| == 4 && DecodeLast(x).Some?
    ensures x == EncodeSymbols(DecodeLast(x).value)
  {
    if x[2] == Pad && x[3] == Pad {
      QuadOfTriple(x[0], x[1], 0, 0);
    } else if x[3] == Pad {
      QuadOfTriple(x[0], x[1], x[2], 0);
    } else {
      QuadOfTriple(x[0], x[1], x[2], x[3]);
    }
  }

  /** Nothing decodes except what encoding produces: the accepted texts are canonical. */
  lemma {:induction false} OnlyCanonicalDecodes(x: seq<int>)
    requires DecodeSymbols(x).Some?
    ensures x == EncodeSymbols(DecodeSymbols(x).value)
    decreases |x|
  {
    if |x| == 4 {
      LastIsEncoded(x);
    } else if |x| > 4 {
      var rest := DecodeSymbols(x[4..]).value;
      OnlyCanonicalDecodes(x[4..]);
      QuadOfTriple(x[0], x[1], x[2], x[3]);
      assert DecodeSymbols(x).value[3..] == rest;
      assert x == [x[0], x[1], x[2], x[3]] + x[4..];
    }
  }

  /** A text decodes to some bytes exactly when it is their encoding. */
  lemma DecodeIff(s: string, bytes: seq<Byte>)
    ensures Decode(s) == Some(bytes) <==> s == Encode(bytes)
  {
    forall n | 0 <= n <= Pad
      ensures FromChar(ToChar(n)) == n
    {
      CharRoundTrip(n, 'A');
    }
    forall c | FromChar(c) <= Pad
      ensures ToChar(FromChar(c)) == c
    {
      CharRoundTrip(0, c);
    }
    if Decode(s) == Some(bytes) {
      OnlyCanonicalDecodes(Symbols(s));
      assert s == Encode(bytes);
    }
    if s == Encode(bytes) {
      assert Symbols(s) == EncodeSymbols(bytes);
      DecodeUndoesEncode(bytes);
    }
  }

  lemma FullExamples()
    ensures Encode([102, 111, 111]) == "Zm9v" && Encode([98, 97, 114]) == "YmFy"
  {
    assert EncodeSymbols([102, 111, 111]) == [25, 38, 61, 47];
    assert EncodeSymbols([98, 97, 114]) == [24, 38, 5, 50];
  }

  lemma ShortExamples()
    ensures Encode([]) == "" && Encode([102]) == "Zg==" && Encode([102, 111]) == "Zm8="
  {
    assert EncodeSymbols([102, 111]) == [25, 38, 60, Pad];
    assert EncodeSymbols([102]) == [25, 32, Pad, Pad];
  }

  lemma {:induction false} GroupSymbols(group: seq<Byte>, rest: seq<Byte>)
    requires |group| == 3
    ensures EncodeSymbols(group + rest) == EncodeSymbols(group) + EncodeSymbols(rest)
  {
    var q := Quad(group[0], group[1], group[2]);
    assert (group + rest)[3..] == rest && group[3..] == [];
    assert EncodeSymbols(group) == q + [] == q;
    assert EncodeSymbols(group + rest) == q + EncodeSymbols(rest);
  }

  /** Groups are encoded one by one. */
  lemma {:induction false} EncodeGroups(group: seq<Byte>, rest: seq<Byte>)
    requires |group| == 3
    ensures Encode(group + rest) == Encode(group) + Encode(rest)
  {
    GroupSymbols(group, rest);
    CharsOfSum(EncodeSymbols(group), EncodeSymbols(rest));
  }

  lemma {:induction false} CharsOfSum(x: seq<int>, y: seq<int>)
    requires forall i :: 0 <= i < |x| ==> 0 <= x[i] <= Pad
    requires forall i :: 0 <= i < |y| ==> 0 <= y[i] <= Pad
    ensures Chars(x + y) == Chars(x) + Chars(y)
  {
  }

  /** The examples of section 10 of RFC 4648: the beginnings of "foobar". */
  lemma StandardExamples()
    ensures Encode([]) == "" && Encode([102]) == "Zg==" && Encode([102, 111]) == "Zm8="
    ensures Encode([102, 111, 111]) == "Zm9v" && Encode([102, 111, 111] + [98, 97, 114]) == "Zm9v" + "YmFy"
  {
    ShortExamples();
    FullExamples();
    EncodeGroups([102, 111, 111], [98, 97, 114]);
  }
}
