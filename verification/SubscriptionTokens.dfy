/** Subscription tokens: issued, rotated, and verified by their hash. */
module SubscriptionTokens {
  import opened Domain

  datatype Record = Record(profile: string, hash: Digest, active: bool)

  datatype State = State(profiles: set<string>, tokens: map<string, Record>)

  /** Calls that reach the store. The id and the token are what the generator drew. */
  datatype Op =
    | AddProfile(profile: string)
    | Issue(profile: string, id: string, token: string)
    | Rotate(profile: string, id: string, token: string)

  function Retire(tokens: map<string, Record>, profile: string): (r: map<string, Record>)
    ensures r.Keys == tokens.Keys
    ensures forall id :: id in tokens ==>
        r[id] == if tokens[id].profile == profile then tokens[id].(active := false) else tokens[id]
  {
    map id | id in tokens :: if tokens[id].profile == profile then tokens[id].(active := false) else tokens[id]
  }

  function Step(hash: string -> Digest, s: State, op: Op): State {
    match op
    case AddProfile(p) => s.(profiles := s.profiles + {p})
    case Issue(p, id, token) =>
      if p in s.profiles then s.(tokens := s.tokens[id := Record(p, hash(token), true)]) else s
    case Rotate(p, id, token) =>
      if p in s.profiles then s.(tokens := Retire(s.tokens, p)[id := Record(p, hash(token), true)]) else s
  }

  function Run(hash: string -> Digest, ops: seq<Op>): State {
    if ops == [] then State({}, map[]) else Step(hash, Run(hash, ops[..|ops|-1]), ops[|ops|-1])
  }

  predicate Verifies(hash: string -> Digest, s: State, profile: string, token: string) {
    exists id :: id in s.tokens && s.tokens[id] == Record(profile, hash(token), true)
  }

  function ActiveIds(s: State, profile: string): set<string> {
    set id | id in s.tokens && s.tokens[id].profile == profile && s.tokens[id].active
  }

  predicate Required(s: State, profile: string) {
    exists id :: id in s.tokens && s.tokens[id].profile == profile && s.tokens[id].active
  }

  // ---------------------------------------------------------------------------
  // The same, read off the calls
  // ---------------------------------------------------------------------------

  predicate Draws(op: Op) {
    op.Issue? || op.Rotate?
  }

  /** Call i returned a token: its profile had been added before. */
  ghost predicate Grants(ops: seq<Op>, i: int) {
    0 <= i < |ops| && Draws(ops[i]) && Known(ops[..i], ops[i].profile)
  }

  predicate Known(ops: seq<Op>, profile: string) {
    AddProfile(profile) in ops
  }

  /** No rotation of its profile after call i. */
  ghost predicate Stands(ops: seq<Op>, i: int) {
    0 <= i < |ops| && forall j :: i < j < |ops| ==> !(ops[j].Rotate? && ops[j].profile == ops[i].profile)
  }

  /** The token came from a call since the last rotation of the profile, that rotation
      included. */
  ghost predicate IssuedSinceRotation(ops: seq<Op>, profile: string, token: string) {
    exists i :: Grants(ops, i) && Stands(ops, i) && ops[i].profile == profile && ops[i].token == token
  }

  ghost predicate FreshIds(ops: seq<Op>) {
    forall i, j :: 0 <= i < j < |ops| && Draws(ops[i]) && Draws(ops[j]) ==> ops[i].id != ops[j].id
  }

  /** No token of the run has the digest of this one, except itself. */
  ghost predicate NoCollision(hash: string -> Digest, ops: seq<Op>, token: string) {
    forall i :: 0 <= i < |ops| && Draws(ops[i]) && hash(ops[i].token) == hash(token) ==> ops[i].token == token
  }

  /** The record that call i leaves behind. */
  ghost predicate Left(hash: string -> Digest, ops: seq<Op>, i: int, tokens: map<string, Record>) {
    && Grants(ops, i)
    && ops[i].id in tokens
    && tokens[ops[i].id] == Record(ops[i].profile, hash(ops[i].token), Stands(ops, i))
  }

  ghost predicate Ledger(hash: string -> Digest, ops: seq<Op>, s: State) {
    && (forall p :: p in s.profiles <==> Known(ops, p))
    && (forall i :: Grants(ops, i) ==> Left(hash, ops, i, s.tokens))
    && (forall id :: id in s.tokens ==> exists i :: Left(hash, ops, i, s.tokens) && ops[i].id == id)
  }

  lemma GrantsFront(ops: seq<Op>, i: int)
    requires ops != [] && 0 <= i < |ops| - 1
    ensures Grants(ops, i) <==> Grants(ops[..|ops|-1], i)
    ensures Stands(ops, i)
        <==> Stands(ops[..|ops|-1], i) && !(ops[|ops|-1].Rotate? && ops[|ops|-1].profile == ops[i].profile)
  {
    var front := ops[..|ops|-1];
    assert front[..i] == ops[..i];
    assert forall j :: 0 <= j < |front| ==> front[j] == ops[j];
  }

  /** One call moves every older record as the ledger says. */
  lemma OlderRecords(hash: string -> Digest, ops: seq<Op>, s: State, i: int)
    requires ops != [] && FreshIds(ops) && Ledger(hash, ops[..|ops|-1], s)
    requires Grants(ops[..|ops|-1], i)
    ensures Left(hash, ops, i, Step(hash, s, ops[|ops|-1]).tokens)
  {
    var front, op := ops[..|ops|-1], ops[|ops|-1];
    GrantsFront(ops, i);
    assert Left(hash, front, i, s.tokens);
    assert front[i] == ops[i];
    if Draws(op) {
      assert ops[i].id != op.id;
    }
    if op.Rotate? && op.profile == ops[i].profile {
      assert Known(front, op.profile);
    }
  }

  /** The store's tokens are what the calls say they are. */
  lemma {:induction false} StoreIsItsCalls(hash: string -> Digest, ops: seq<Op>)
    requires FreshIds(ops)
    ensures Ledger(hash, ops, Run(hash, ops))
    decreases |ops|
  {
    if ops != [] {
      var front, op := ops[..|ops|-1], ops[|ops|-1];
      var n := |front|;
      var s := Run(hash, front);
      var s' := Run(hash, ops);
      assert ops == front + [op];
      StoreIsItsCalls(hash, front);
      forall i | Grants(ops, i)
        ensures Left(hash, ops, i, s'.tokens)
      {
        if i < n {
          GrantsFront(ops, i);
          OlderRecords(hash, ops, s, i);
        }
      }
      forall id | id in s'.tokens
        ensures exists i :: Left(hash, ops, i, s'.tokens) && ops[i].id == id
      {
        if id in s.tokens {
          var i :| Left(hash, front, i, s.tokens) && front[i].id == id;
          OlderRecords(hash, ops, s, i);
        } else {
          assert Grants(ops, n);
        }
      }
    }
  }

  // ---------------------------------------------------------------------------
  // What follows
  // ---------------------------------------------------------------------------

  /** A token verifies for a profile exactly when it was issued since the last rotation. */
  lemma {:induction false} VerifiesIff(hash: string -> Digest, ops: seq<Op>, profile: string, token: string)
    requires FreshIds(ops) && NoCollision(hash, ops, token)
    ensures Verifies(hash, Run(hash, ops), profile, token) <==> IssuedSinceRotation(ops, profile, token)
  {
    var s := Run(hash, ops);
    StoreIsItsCalls(hash, ops);
    if Verifies(hash, s, profile, token) {
      var id :| id in s.tokens && s.tokens[id] == Record(profile, hash(token), true);
      var i :| Left(hash, ops, i, s.tokens) && ops[i].id == id;
      assert Grants(ops, i) && Stands(ops, i) && ops[i].profile == profile && ops[i].token == token;
    }
    if IssuedSinceRotation(ops, profile, token) {
      var i :| Grants(ops, i) && Stands(ops, i) && ops[i].profile == profile && ops[i].token == token;
      assert Left(hash, ops, i, s.tokens);
    }
  }

  /** A granted rotation leaves its own token as the only active one. */
  lemma RotationLeavesOne(hash: string -> Digest, s: State, op: Op)
    requires op.Rotate? && op.profile in s.profiles
    ensures ActiveIds(Step(hash, s, op), op.profile) == {op.id}
    ensures Verifies(hash, Step(hash, s, op), op.profile, op.token)
  {
    var s' := Step(hash, s, op);
    assert s'.tokens[op.id] == Record(op.profile, hash(op.token), true);
  }

  /** The last granted call for a profile: nothing can retire its token. */
  lemma {:induction false} LastGrantStands(ops: seq<Op>, i: int) returns (k: int)
    requires Grants(ops, i)
    ensures Grants(ops, k) && Stands(ops, k) && ops[k].profile == ops[i].profile
    decreases |ops| - i
  {
    if j :| i < j < |ops| && ops[j].Rotate? && ops[j].profile == ops[i].profile {
      assert AddProfile(ops[j].profile) in ops[..j] by {
        var m :| 0 <= m < i && ops[..i][m] == AddProfile(ops[i].profile);
        assert ops[..j][m] == AddProfile(ops[j].profile);
      }
      k := LastGrantStands(ops, j);
    } else {
      k := i;
    }
  }

  /** Tokens are required for a profile exactly when one was ever issued for it, hence
      from the first issue on for ever. */
  lemma {:induction false} RequiredIff(hash: string -> Digest, ops: seq<Op>, profile: string)
    requires FreshIds(ops)
    ensures Required(Run(hash, ops), profile) <==> exists i :: Grants(ops, i) && ops[i].profile == profile
  {
    var s := Run(hash, ops);
    StoreIsItsCalls(hash, ops);
    if Required(s, profile) {
      var id :| id in s.tokens && s.tokens[id].profile == profile && s.tokens[id].active;
      var i :| Left(hash, ops, i, s.tokens) && ops[i].id == id;
      assert Grants(ops, i) && ops[i].profile == profile;
    }
    if i :| Grants(ops, i) && ops[i].profile == profile {
      var k := LastGrantStands(ops, i);
      assert Left(hash, ops, k, s.tokens);
    }
  }

  lemma {:induction false} RequiredStays(hash: string -> Digest, ops: seq<Op>, k: nat, profile: string)
    requires FreshIds(ops) && k <= |ops| && Required(Run(hash, ops[..k]), profile)
    ensures Required(Run(hash, ops), profile)
  {
    assert FreshIds(ops[..k]);
    RequiredIff(hash, ops[..k], profile);
    var i :| Grants(ops[..k], i) && ops[..k][i].profile == profile;
    assert ops[..k][..i] == ops[..i];
    assert Grants(ops, i) && ops[i].profile == profile;
    RequiredIff(hash, ops, profile);
  }

  // ---------------------------------------------------------------------------
  // The implementation
  // ---------------------------------------------------------------------------

  class SubscriptionTokenStore {
    var profiles: set<string>
    var tokens: map<string, Record>
    const hash: string -> Digest

    ghost function View(): State
      reads this
    {
      State(profiles, tokens)
    }

    constructor (hash: string -> Digest)
      ensures this.hash == hash && View() == Run(hash, [])
    {
      this.hash, profiles, tokens := hash, {}, map[];
    }

    method CreateProfile(profile: string)
      modifies this`profiles
      ensures View() == Step(hash, old(View()), AddProfile(profile))
    {
      profiles := profiles + {profile};
    }

    method IssueSubscriptionToken(profile: string, id: string, token: string) returns (ok: bool)
      modifies this`tokens
      ensures ok <==> profile in profiles
      ensures View() == Step(hash, old(View()), Issue(profile, id, token))
    {
      if profile !in profiles {
        return false;
      }
      tokens := tokens[id := Record(profile, hash(token), true)];
      return true;
    }

    method RotateSubscriptionToken(profile: string, id: string, token: string) returns (ok: bool)
      modifies this`tokens
      ensures ok <==> profile in profiles
      ensures View() == Step(hash, old(View()), Rotate(profile, id, token))
    {
      if profile !in profiles {
        return false;
      }
      var rest := tokens.Keys;
      while rest != {}
        invariant rest <= tokens.Keys == old(tokens).Keys
        invariant forall k :: k in tokens ==>
            tokens[k] == if k in rest then old(tokens)[k] else Retire(old(tokens), profile)[k]
        decreases rest
      {
        var k :| k in rest;
        if tokens[k].profile == profile && tokens[k].active {
          tokens := tokens[k := tokens[k].(active := false)];
        }
        rest := rest - {k};
      }
      assert tokens == Retire(old(tokens), profile);
      tokens := tokens[id := Record(profile, hash(token), true)];
      return true;
    }

    method VerifySubscriptionToken(profile: string, token: string) returns (id: Option<string>)
      ensures id.Some? <==> Verifies(hash, View(), profile, token)
      ensures id.Some? ==> id.value in tokens && tokens[id.value] == Record(profile, hash(token), true)
    {
      if k :| k in tokens && tokens[k] == Record(profile, hash(token), true) {
        return Some(k);
      }
      return None;
    }

    method SubscriptionTokenRequired(profile: string) returns (r: Option<bool>)
      ensures r.Some? <==> profile in profiles
      ensures r.Some? ==> (r.value <==> Required(View(), profile))
    {
      if profile !in profiles {
        return None;
      }
      return Some(exists id :: id in tokens && tokens[id].profile == profile && tokens[id].active);
    }
  }
}
