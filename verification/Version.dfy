/** The gate on the xray-core version: dotted components, of which the unsigned 64-bit
    numbers count and everything else is dropped. */
module Version {
  import opened Domain

  const TwoTo64: nat := 0x1_0000_0000_0000_0000

  /** Splitting at every separator; the result is never empty. */
  function Split(s: string, sep: char): (parts: seq<string>)
    ensures |parts| > 0
  {
    if s == [] then [[]]
    else
      var rest := Split(s[1..], sep);
      if s[0] == sep then [[]] + rest else [[s[0]] + rest[0]] + rest[1..]
  }

  function Join(parts: seq<string>, sep: char): string
    requires |parts| > 0
  {
    if |parts| == 1 then parts[0] else parts[0] + [sep] + Join(parts[1..], sep)
  }

  predicate IsDigit(c: char) {
    '0' <= c <= '9'
  }

  predicate AllDigits(s: string) {
    forall i :: 0 <= i < |s| ==> IsDigit(s[i])
  }

  function Value(s: string): nat
    requires AllDigits(s)
  {
    if s == [] then 0 else Value(s[..|s|-1]) * 10 + (s[|s|-1] as int - '0' as int)
  }

  /** Parsing as an unsigned 64-bit number; a leading plus sign is accepted. */
  function ParseU64(s: string): Option<nat> {
    var digits := if s != [] && s[0] == '+' then s[1..] else s;
    if digits != [] && AllDigits(digits) && Value(digits) < TwoTo64 then Some(Value(digits)) else None
  }

  function Numbers(parts: seq<string>): seq<nat> {
    if parts == [] then []
    else
      match ParseU64(parts[0])
      case Some(n) => [n] + Numbers(parts[1..])
      case None => Numbers(parts[1..])
  }

  predicate AtLeastOneEight(major: nat, minor: nat) {
    major > 1 || (major == 1 && minor >= 8)
  }

  predicate SupportsReality(version: string) {
    var n := Numbers(Split(version, '.'));
    AtLeastOneEight(if |n| > 0 then n[0] else 0, if |n| > 1 then n[1] else 0)
  }

  // ---------------------------------------------------------------------------
  // Printing
  // ---------------------------------------------------------------------------

  function Digit(n: nat): char
    requires n < 10
  {
    ('0' as int + n) as char
  }

  function Print(n: nat): string {
    if n < 10 then [Digit(n)] else Print(n / 10) + [Digit(n % 10)]
  }

  lemma {:induction false} PrintParses(n: nat)
    ensures Print(n) != [] && AllDigits(Print(n)) && Value(Print(n)) == n
    decreases n
  {
    var s := Print(n);
    if n < 10 {
      assert s[..|s|-1] == [];
    } else {
      PrintParses(n / 10);
      assert s[..|s|-1] == Print(n / 10);
    }
  }

  lemma {:induction false} PrintRoundTrip(n: nat)
    requires n < TwoTo64
    ensures ParseU64(Print(n)) == Some(n) && '.' !in Print(n)
  {
    PrintParses(n);
    assert IsDigit(Print(n)[0]);
  }

  /** Numbers of more than 64 bits are not numbers here. */
  lemma {:induction false} ParsesUpTo64Bits(n: nat)
    ensures ParseU64(Print(n)) == if n <= 18446744073709551615 then Some(n) else None
  {
    PrintParses(n);
    assert IsDigit(Print(n)[0]);
  }

  // ---------------------------------------------------------------------------
  // Splitting undoes joining
  // ---------------------------------------------------------------------------

  lemma {:induction false} SplitOne(s: string, sep: char)
    requires sep !in s
    ensures Split(s, sep) == [s]
    decreases |s|
  {
    if s != [] {
      SplitOne(s[1..], sep);
      assert [s[0]] + s[1..] == s;
    }
  }

  lemma {:induction false} SplitHead(head: string, tail: string, sep: char)
    requires sep !in head
    ensures Split(head + [sep] + tail, sep) == [head] + Split(tail, sep)
    decreases |head|
  {
    var s := head + [sep] + tail;
    if head == [] {
      assert s[1..] == tail;
    } else {
      assert s[1..] == head[1..] + [sep] + tail;
      SplitHead(head[1..], tail, sep);
      assert [head[0]] + head[1..] == head;
      assert ([head[1..]] + Split(tail, sep))[1..] == Split(tail, sep);
    }
  }

  /** For any separator-free parts. */
  lemma {:induction false} SplitUndoesJoin(parts: seq<string>, sep: char)
    requires |parts| > 0 && forall i :: 0 <= i < |parts| ==> sep !in parts[i]
    ensures Split(Join(parts, sep), sep) == parts
    decreases |parts|
  {
    if |parts| == 1 {
      SplitOne(parts[0], sep);
    } else {
      SplitUndoesJoin(parts[1..], sep);
      SplitHead(parts[0], Join(parts[1..], sep), sep);
      assert [parts[0]] + parts[1..] == parts;
    }
  }

  // ---------------------------------------------------------------------------
  // The gate
  // ---------------------------------------------------------------------------

  lemma JoinThree(p: string, q: string, r: string)
    ensures Join([p, q, r], '.') == p + "." + q + "." + r
  {
    var parts := [p, q, r];
    assert parts[1..] == [q, r] && [q, r][1..] == [r];
    assert Join([q, r], '.') == q + "." + r;
  }

  lemma NumbersOfThree(p: string, q: string, r: string)
    requires ParseU64(p).Some? && ParseU64(r).Some?
    ensures Numbers([p, q, r])
         == if ParseU64(q).Some? then [ParseU64(p).value, ParseU64(q).value, ParseU64(r).value]
            else [ParseU64(p).value, ParseU64(r).value]
  {
    assert [p, q, r][1..] == [q, r] && [q, r][1..] == [r] && [r][1..] == [];
    assert Numbers([r]) == [ParseU64(r).value];
    assert Numbers([q, r]) == (if ParseU64(q).Some? then [ParseU64(q).value] + Numbers([r]) else Numbers([r]));
  }

  /** What three dot-free components, the outer two numeric, come down to. */
  lemma ThreeComponents(p: string, q: string, r: string)
    requires '.' !in p && '.' !in q && '.' !in r && ParseU64(p).Some? && ParseU64(r).Some?
    ensures SupportsReality(p + "." + q + "." + r)
       <==> AtLeastOneEight(ParseU64(p).value, if ParseU64(q).Some? then ParseU64(q).value else ParseU64(r).value)
  {
    JoinThree(p, q, r);
    SplitUndoesJoin([p, q, r], '.');
    NumbersOfThree(p, q, r);
  }

  /** A printed version of three numbers passes exactly from 1.8 on. */
  lemma {:induction false} VersionGate(a: nat, b: nat, c: nat)
    requires a < TwoTo64 && b < TwoTo64 && c < TwoTo64
    ensures SupportsReality(Print(a) + "." + Print(b) + "." + Print(c)) <==> a >= 2 || (a == 1 && b >= 8)
  {
    PrintRoundTrip(a);
    PrintRoundTrip(b);
    PrintRoundTrip(c);
    ThreeComponents(Print(a), Print(b), Print(c));
  }

  /** Components that are not numbers are skipped, not rejected: the patch number then
      stands in for an unreadable minor version, and "1.x.9" passes. */
  lemma {:induction false} JunkIsSkipped(a: nat, junk: string, c: nat)
    requires a < TwoTo64 && c < TwoTo64 && ParseU64(junk).None? && '.' !in junk
    ensures SupportsReality(Print(a) + "." + junk + "." + Print(c)) <==> a >= 2 || (a == 1 && c >= 8)
  {
    PrintRoundTrip(a);
    PrintRoundTrip(c);
    ThreeComponents(Print(a), junk, Print(c));
  }

  // ---------------------------------------------------------------------------
  // Any text
  // ---------------------------------------------------------------------------

  /** The first component after position `i` that is a number. */
  ghost predicate NextNumber(parts: seq<string>, i: int, k: int) {
    && 0 <= i + 1 <= k < |parts| && ParseU64(parts[k]).Some?
    && forall j :: i < j < k ==> ParseU64(parts[j]).None?
  }

  lemma {:induction false} NumbersFrom(parts: seq<string>, i: int) returns (k: int)
    requires 0 <= i + 1 <= |parts|
    ensures Numbers(parts[i + 1..]) == [] ==> forall j :: !NextNumber(parts, i, j)
    ensures Numbers(parts[i + 1..]) != [] ==>
              && NextNumber(parts, i, k) && (forall j :: NextNumber(parts, i, j) ==> j == k)
              && Numbers(parts[i + 1..]) == [ParseU64(parts[k]).value] + Numbers(parts[k + 1..])
    decreases |parts| - i
  {
    k := i + 1;
    if i + 1 < |parts| {
      var rest := parts[i + 1..];
      assert rest[0] == parts[i + 1] && rest[1..] == parts[i + 2..];
      if ParseU64(parts[i + 1]).None? {
        k := NumbersFrom(parts, i + 1);
        assert forall j :: NextNumber(parts, i, j) <==> NextNumber(parts, i + 1, j);
      }
    }
  }

  ghost predicate AtLeast(parts: seq<string>, i: int, bound: nat) {
    0 <= i < |parts| && ParseU64(parts[i]).Some? && ParseU64(parts[i]).value >= bound
  }

  /** Whatever the text: it passes if and only if its first component that is a number is at
      least 2, or is 1 and the next one that is a number is at least 8. */
  lemma {:induction false} GateDecides(version: string)
    ensures SupportsReality(version)
       <==> var parts := Split(version, '.');
            exists i :: NextNumber(parts, -1, i)
              && (|| AtLeast(parts, i, 2)
                  || (AtLeast(parts, i, 1) && exists k :: NextNumber(parts, i, k) && AtLeast(parts, k, 8)))
  {
    var parts := Split(version, '.');
    var i := NumbersFrom(parts, -1);
    assert parts[0..] == parts;
    if Numbers(parts) != [] {
      var k := NumbersFrom(parts, i);
      SecondNumber(parts, i, k);
      var more := Numbers(parts[i + 1..]) != [];
      assert (exists x :: NextNumber(parts, i, x) && AtLeast(parts, x, 8)) <==> more && AtLeast(parts, k, 8);
      assert SupportsReality(version)
        <==> AtLeast(parts, i, 2) || (AtLeast(parts, i, 1) && more && AtLeast(parts, k, 8));
    }
  }

  lemma {:induction false} SecondNumber(parts: seq<string>, i: int, k: int)
    requires NextNumber(parts, -1, i) && Numbers(parts) == [ParseU64(parts[i]).value] + Numbers(parts[i + 1..])
    requires Numbers(parts[i + 1..]) != [] ==>
               NextNumber(parts, i, k) && Numbers(parts[i + 1..])[0] == ParseU64(parts[k]).value
    ensures Numbers(parts)[0] == ParseU64(parts[i]).value
    ensures if Numbers(parts[i + 1..]) == [] then |Numbers(parts)| == 1
            else |Numbers(parts)| > 1 && Numbers(parts)[1] == ParseU64(parts[k]).value
  {
  }
}
