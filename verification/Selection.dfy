/** Which credentials an inbound picks up: for each group it references, in order, the
    active credentials of that group and of the inbound's protocol, in order. */
module Selection {
  import opened Profile

  predicate Eligible(c: Credential, group: string, p: Protocol) {
    c.group == group && c.status == Active && KindOf(c.material) == p
  }

  function InGroup(group: string, creds: seq<Credential>, p: Protocol): seq<Credential> {
    if creds == [] then []
    else
      var c := creds[|creds|-1];
      InGroup(group, creds[..|creds|-1], p) + (if Eligible(c, group, p) then [c] else [])
  }

  function Chosen(refs: seq<string>, creds: seq<Credential>, p: Protocol): seq<Credential> {
    if refs == [] then []
    else Chosen(refs[..|refs|-1], creds, p) + InGroup(refs[|refs|-1], creds, p)
  }

  // ---------------------------------------------------------------------------
  // Independent reference: matching positions, in lexicographic order
  // ---------------------------------------------------------------------------

  datatype Pos = Pos(ref: int, cred: int)

  predicate Match(refs: seq<string>, creds: seq<Credential>, p: Protocol, x: Pos) {
    0 <= x.ref < |refs| && 0 <= x.cred < |creds| && Eligible(creds[x.cred], refs[x.ref], p)
  }

  predicate Before(x: Pos, y: Pos) {
    x.ref < y.ref || (x.ref == y.ref && x.cred < y.cred)
  }

  ghost predicate Sorted(ps: seq<Pos>) {
    forall a, b :: 0 <= a < b < |ps| ==> Before(ps[a], ps[b])
  }

  /** The sorted list of all matching positions lists exactly the chosen credentials. */
  ghost predicate Lists(refs: seq<string>, creds: seq<Credential>, p: Protocol, ps: seq<Pos>, cs: seq<Credential>) {
    && Sorted(ps)
    && (forall x :: x in ps <==> Match(refs, creds, p, x))
    && |ps| == |cs|
    && forall k :: 0 <= k < |ps| ==> Match(refs, creds, p, ps[k]) && cs[k] == creds[ps[k].cred]
  }

  ghost function RowPositions(r: int, group: string, creds: seq<Credential>, p: Protocol): seq<Pos> {
    if creds == [] then []
    else
      var n := |creds| - 1;
      RowPositions(r, group, creds[..n], p) + (if Eligible(creds[n], group, p) then [Pos(r, n)] else [])
  }

  /** The positions of one row: one reference, all matching credentials. */
  ghost predicate ListsRow(r: int, group: string, creds: seq<Credential>, p: Protocol, ps: seq<Pos>,
                           cs: seq<Credential>) {
    && Sorted(ps)
    && (forall x :: x in ps <==> x.ref == r && 0 <= x.cred < |creds| && Eligible(creds[x.cred], group, p))
    && |ps| == |cs|
    && forall k :: 0 <= k < |ps| ==> ps[k] in ps && cs[k] == creds[ps[k].cred]
  }

  lemma ExtendRow(r: int, group: string, creds: seq<Credential>, c: Credential, p: Protocol, ps: seq<Pos>,
                  cs: seq<Credential>)
    requires ListsRow(r, group, creds, p, ps, cs)
    ensures if Eligible(c, group, p) then ListsRow(r, group, creds + [c], p, ps + [Pos(r, |creds|)], cs + [c])
            else ListsRow(r, group, creds + [c], p, ps, cs)
  {
  }

  lemma {:induction false} RowLists(r: int, group: string, creds: seq<Credential>, p: Protocol)
    ensures ListsRow(r, group, creds, p, RowPositions(r, group, creds, p), InGroup(group, creds, p))
    decreases |creds|
  {
    if creds != [] {
      var front, c := creds[..|creds|-1], creds[|creds|-1];
      RowLists(r, group, front, p);
      ExtendRow(r, group, front, c, p, RowPositions(r, group, front, p), InGroup(group, front, p));
      assert front + [c] == creds;
    }
  }

  ghost function Positions(refs: seq<string>, creds: seq<Credential>, p: Protocol): seq<Pos> {
    if refs == [] then []
    else Positions(refs[..|refs|-1], creds, p) + RowPositions(|refs| - 1, refs[|refs|-1], creds, p)
  }

  /** What is chosen is every matching pair of a reference and a credential, once each,
      by reference and then by credential. */
  lemma {:induction false} ChosenExactly(refs: seq<string>, creds: seq<Credential>, p: Protocol)
    ensures Lists(refs, creds, p, Positions(refs, creds, p), Chosen(refs, creds, p))
    decreases |refs|
  {
    if refs != [] {
      var n := |refs| - 1;
      var front, row := Positions(refs[..n], creds, p), RowPositions(n, refs[n], creds, p);
      ChosenExactly(refs[..n], creds, p);
      RowLists(n, refs[n], creds, p);
      var ps := front + row;
      forall x
        ensures x in ps <==> Match(refs, creds, p, x)
      {
        assert x in front <==> Match(refs[..n], creds, p, x);
      }
      forall a, b | 0 <= a < b < |ps|
        ensures Before(ps[a], ps[b])
      {
        if a < |front| <= b {
          assert front[a] in front && row[b - |front|] in row;
        }
      }
      forall k | 0 <= k < |ps|
        ensures Match(refs, creds, p, ps[k]) && Chosen(refs, creds, p)[k] == creds[ps[k].cred]
      {
        assert ps[k] in ps;
      }
    }
  }

  /** No shorter description of "first" is needed: it is the least matching position. */
  ghost predicate IsFirst(refs: seq<string>, creds: seq<Credential>, p: Protocol, x: Pos) {
    Match(refs, creds, p, x) && forall y :: Match(refs, creds, p, y) ==> y == x || Before(x, y)
  }

  lemma {:induction false} FirstIsLeast(refs: seq<string>, creds: seq<Credential>, p: Protocol, x: Pos)
    ensures IsFirst(refs, creds, p, x) ==> Chosen(refs, creds, p) != [] && Chosen(refs, creds, p)[0] == creds[x.cred]
    ensures Chosen(refs, creds, p) != [] ==>
              Positions(refs, creds, p) != [] && IsFirst(refs, creds, p, Positions(refs, creds, p)[0])
  {
    ChosenExactly(refs, creds, p);
    var ps := Positions(refs, creds, p);
    if IsFirst(refs, creds, p, x) {
      assert x in ps;
      assert Match(refs, creds, p, ps[0]);
      var k :| 0 <= k < |ps| && ps[k] == x;
      assert k == 0;
    }
  }

  lemma {:induction false} RowCount(group: string, creds: seq<Credential>, p: Protocol, c: Credential)
    ensures multiset(InGroup(group, creds, p))[c] == if Eligible(c, group, p) then multiset(creds)[c] else 0
    decreases |creds|
  {
    if creds != [] {
      var n := |creds| - 1;
      RowCount(group, creds[..n], p, c);
      assert creds == creds[..n] + [creds[n]];
    }
  }

  lemma CountLast(refs: seq<string>, group: string)
    requires refs != []
    ensures multiset(refs)[group] == multiset(refs[..|refs|-1])[group] + (if refs[|refs|-1] == group then 1 else 0)
  {
    assert refs == refs[..|refs|-1] + [refs[|refs|-1]];
  }

  lemma Distribute(a: int, b: int)
    ensures a * (b + 1) == a * b + a
  {
  }

  /** A credential is chosen as often as it is listed times as often as its group is
      referenced, provided it is active and of the right kind. */
  lemma {:induction false} ChosenCount(refs: seq<string>, creds: seq<Credential>, p: Protocol, c: Credential)
    ensures multiset(Chosen(refs, creds, p))[c]
         == if Eligible(c, c.group, p) then multiset(creds)[c] * multiset(refs)[c.group] else 0
    decreases |refs|
  {
    if refs != [] {
      var n := |refs| - 1;
      ChosenCount(refs[..n], creds, p, c);
      RowCount(refs[n], creds, p, c);
      CountLast(refs, c.group);
      assert multiset(Chosen(refs, creds, p))[c]
          == multiset(Chosen(refs[..n], creds, p))[c] + multiset(InGroup(refs[n], creds, p))[c];
      Distribute(multiset(creds)[c], multiset(refs[..n])[c.group]);
    }
  }

  lemma CountIffIn<T>(s: seq<T>, x: T)
    ensures x in s <==> multiset(s)[x] > 0
  {
  }

  lemma ProductIsPositive(a: nat, b: nat)
    ensures a * b > 0 <==> a > 0 && b > 0
  {
  }

  lemma {:induction false} ChosenIff(refs: seq<string>, creds: seq<Credential>, p: Protocol, c: Credential)
    ensures c in Chosen(refs, creds, p) <==> c in creds && Eligible(c, c.group, p) && c.group in refs
  {
    ChosenCount(refs, creds, p, c);
    CountIffIn(Chosen(refs, creds, p), c);
    CountIffIn(creds, c);
    CountIffIn(refs, c.group);
    ProductIsPositive(multiset(creds)[c], multiset(refs)[c.group]);
  }

  // ---------------------------------------------------------------------------
  // Prefixes, for the loops
  // ---------------------------------------------------------------------------

  function Visited(refs: seq<string>, creds: seq<Credential>, p: Protocol, i: nat, j: nat): seq<Credential>
    requires i < |refs| && j <= |creds|
  {
    Chosen(refs[..i], creds, p) + InGroup(refs[i], creds[..j], p)
  }

  lemma VisitStep(refs: seq<string>, creds: seq<Credential>, p: Protocol, i: nat, j: nat)
    requires i < |refs| && j < |creds|
    ensures Visited(refs, creds, p, i, j + 1)
         == Visited(refs, creds, p, i, j) + (if Eligible(creds[j], refs[i], p) then [creds[j]] else [])
  {
    assert creds[..j+1][..j] == creds[..j];
  }

  lemma {:induction false} VisitRow(refs: seq<string>, creds: seq<Credential>, p: Protocol, i: nat)
    requires i < |refs|
    ensures Visited(refs, creds, p, i, 0) == Chosen(refs[..i], creds, p)
    ensures Visited(refs, creds, p, i, |creds|) == Chosen(refs[..i+1], creds, p)
  {
    assert refs[..i+1][..i] == refs[..i] && creds[..|creds|] == creds;
  }

  lemma {:induction false} RowPrefix(group: string, creds: seq<Credential>, p: Protocol, j: nat)
    requires j <= |creds|
    ensures InGroup(group, creds[..j], p) <= InGroup(group, creds, p)
    decreases |creds|
  {
    if j < |creds| {
      RowPrefix(group, creds[..|creds|-1], p, j);
      assert creds[..|creds|-1][..j] == creds[..j];
    } else {
      assert creds[..j] == creds;
    }
  }

  lemma {:induction false} ChosenPrefix(refs: seq<string>, creds: seq<Credential>, p: Protocol, i: nat)
    requires i <= |refs|
    ensures Chosen(refs[..i], creds, p) <= Chosen(refs, creds, p)
    decreases |refs|
  {
    if i < |refs| {
      ChosenPrefix(refs[..|refs|-1], creds, p, i);
      assert refs[..|refs|-1][..i] == refs[..i];
    } else {
      assert refs[..i] == refs;
    }
  }

  lemma {:induction false} VisitedPrefix(refs: seq<string>, creds: seq<Credential>, p: Protocol, i: nat, j: nat)
    requires i < |refs| && j <= |creds|
    ensures Visited(refs, creds, p, i, j) <= Chosen(refs, creds, p)
  {
    RowPrefix(refs[i], creds, p, j);
    VisitRow(refs, creds, p, i);
    assert creds[..|creds|] == creds;
    ChosenPrefix(refs, creds, p, i + 1);
  }
}
