/** One-time node registration tokens. */
module Registration {
  import opened Domain

  datatype TokenStatus = Unused | UsedBy(node: string)

  datatype TokenRecord = TokenRecord(tokenId: string, token: string, status: TokenStatus)

  datatype Event = TokenIssued(tokenId: string) | NodeRegistered(nodeId: string) | TokenUsed(tokenId: string)

  datatype State = State(tokens: map<string, TokenRecord>, nodes: map<string, NodeRecord>, log: seq<Event>)

  datatype Answer = UnknownToken | AlreadyConsumed | Registered(record: TokenRecord)

  const Empty := State(map[], map[], [])

  // ---------------------------------------------------------------------------
  // The two store operations
  // ---------------------------------------------------------------------------

  ghost predicate Holds(tokens: map<string, TokenRecord>, id: string, token: string) {
    id in tokens && tokens[id].token == token
  }

  ghost predicate Exists(s: State, token: string) {
    exists id :: Holds(s.tokens, id, token)
  }

  /** Records sit under their own id, and no token string has two. */
  ghost predicate Valid(tokens: map<string, TokenRecord>) {
    && (forall id :: id in tokens ==> tokens[id].tokenId == id)
    && (forall id, id', token :: Holds(tokens, id, token) && Holds(tokens, id', token) ==> id == id')
  }

  ghost function Create(s: State, id: string, token: string): State {
    if Exists(s, token) then s
    else s.(tokens := s.tokens[id := TokenRecord(id, token, Unused)], log := s.log + [TokenIssued(id)])
  }

  ghost function IdOf(s: State, token: string): (id: string)
    requires Exists(s, token)
    ensures Holds(s.tokens, id, token)
  {
    var id :| Holds(s.tokens, id, token);
    id
  }

  ghost function AnswerTo(s: State, node: string, token: string): Answer {
    if !Exists(s, token) then UnknownToken
    else if s.tokens[IdOf(s, token)].status.UsedBy? then AlreadyConsumed
    else Registered(s.tokens[IdOf(s, token)].(status := UsedBy(node)))
  }

  ghost function Register(s: State, node: NodeRecord, token: string): State {
    var a := AnswerTo(s, node.nodeId, token);
    if !a.Registered? then s
    else State(s.tokens[a.record.tokenId := a.record], s.nodes[node.nodeId := node],
               s.log + [NodeRegistered(node.nodeId), TokenUsed(a.record.tokenId)])
  }

  // ---------------------------------------------------------------------------
  // Runs, and one token's life in them
  // ---------------------------------------------------------------------------

  /** Calls in the order they reach the store. Every handler is a sequence of these, the
      re-creation of the default token included, so any interleaving of handlers is a run. */
  datatype Op = CreateToken(id: string, token: string) | RegisterNode(node: NodeRecord, token: string)

  ghost function Step(s: State, op: Op): State {
    match op
    case CreateToken(id, token) => Create(s, id, token)
    case RegisterNode(node, token) => Register(s, node, token)
  }

  ghost function Run(ops: seq<Op>): State {
    if ops == [] then Empty else Step(Run(ops[..|ops|-1]), ops[|ops|-1])
  }

  /** Reference: what happens to one token, seen alone. */
  datatype Life = Absent | Fresh | Spent(node: string)

  function LifeStep(x: Life, op: Op): Life {
    match op
    case CreateToken(_, _) => if x.Absent? then Fresh else x
    case RegisterNode(node, _) => if x.Fresh? then Spent(node.nodeId) else x
  }

  function LifeOf(ops: seq<Op>, token: string): Life {
    if ops == [] then Absent
    else
      var x, op := LifeOf(ops[..|ops|-1], token), ops[|ops|-1];
      if op.token == token then LifeStep(x, op) else x
  }

  /** What the store knows about a token. */
  ghost function Look(s: State, token: string): Life {
    if !Exists(s, token) then Absent
    else
      match s.tokens[IdOf(s, token)].status
      case Unused => Fresh
      case UsedBy(node) => Spent(node)
  }

  /** Ids are not shared between token strings. */
  ghost predicate DistinctIds(ops: seq<Op>) {
    forall i, j :: 0 <= i < |ops| && 0 <= j < |ops| && ops[i].CreateToken? && ops[j].CreateToken? ==>
      (ops[i].id == ops[j].id ==> ops[i].token == ops[j].token)
  }

  /** Each token string has at most one record, whatever is called in whatever order. */
  lemma {:induction false} OneRecordPerToken(ops: seq<Op>)
    ensures Valid(Run(ops).tokens)
    decreases |ops|
  {
    if ops != [] {
      OneRecordPerToken(ops[..|ops|-1]);
      StepKeepsValid(Run(ops[..|ops|-1]), ops[|ops|-1]);
    }
  }

  lemma StepKeepsValid(s: State, op: Op)
    requires Valid(s.tokens)
    ensures Valid(Step(s, op).tokens)
  {
    var s' := Step(s, op);
    forall id, id', token | Holds(s'.tokens, id, token) && Holds(s'.tokens, id', token)
      ensures id == id'
    {
      if op.RegisterNode? {
        assert Holds(s.tokens, id, token) && Holds(s.tokens, id', token);
      } else {
        assert id != op.id ==> Holds(s.tokens, id, token);
        assert id' != op.id ==> Holds(s.tokens, id', token);
      }
    }
  }

  /** Every record came from a creation of its token under its id. */
  lemma {:induction false} RecordsWereCreated(ops: seq<Op>, id: string)
    requires id in Run(ops).tokens
    ensures CreateToken(id, Run(ops).tokens[id].token) in ops
    decreases |ops|
  {
    if ops != [] {
      var front, op := ops[..|ops|-1], ops[|ops|-1];
      assert ops == front + [op];
      OneRecordPerToken(front);
      if id in Run(front).tokens && Run(front).tokens[id].token == Run(ops).tokens[id].token {
        RecordsWereCreated(front, id);
      }
    }
  }

  lemma LookIs(s: State, id: string, token: string)
    requires Valid(s.tokens) && Holds(s.tokens, id, token)
    ensures Look(s, token) == if s.tokens[id].status.Unused? then Fresh else Spent(s.tokens[id].status.node)
  {
    assert IdOf(s, token) == id;
  }

  /** One creation, seen from one token. */
  lemma CreateLife(s: State, id: string, token: string, t: string)
    requires Valid(s.tokens)
    requires id in s.tokens ==> s.tokens[id].token == token
    ensures Look(Create(s, id, token), t)
         == if t == token then LifeStep(Look(s, t), CreateToken(id, token)) else Look(s, t)
  {
    var s' := Create(s, id, token);
    StepKeepsValid(s, CreateToken(id, token));
    if !Exists(s, token) {
      if t == token {
        LookIs(s', id, t);
      } else if Exists(s, t) {
        LookIs(s', IdOf(s, t), t);
      } else if k :| Holds(s'.tokens, k, t) {
        assert Holds(s.tokens, k, t);
      }
    }
  }

  /** Creating a token leaves every other token as it was if and only if it creates nothing
      or its id is free: under a taken id it wipes out the record that was there. */
  lemma CreateSparesOthersIff(s: State, id: string, token: string)
    requires Valid(s.tokens)
    ensures (forall t :: t != token ==> Look(Create(s, id, token), t) == Look(s, t))
       <==> Exists(s, token) || id !in s.tokens
  {
    if Exists(s, token) || id !in s.tokens {
      forall t | t != token
        ensures Look(Create(s, id, token), t) == Look(s, t)
      {
        if !Exists(s, token) {
          CreateLife(s, id, token, t);
        }
      }
    } else {
      var lost := s.tokens[id].token;
      assert Holds(s.tokens, id, lost);
      forall k
        ensures !Holds(Create(s, id, token).tokens, k, lost)
      {
        assert Holds(s.tokens, k, lost) ==> k == id;
      }
      assert lost != token && Look(s, lost) != Absent && Look(Create(s, id, token), lost) == Absent;
    }
  }

  /** One registration, seen from one token. */
  lemma RegisterLife(s: State, node: NodeRecord, token: string, t: string)
    requires Valid(s.tokens)
    ensures Look(Register(s, node, token), t)
         == if t == token then LifeStep(Look(s, t), RegisterNode(node, token)) else Look(s, t)
  {
    var s' := Register(s, node, token);
    StepKeepsValid(s, RegisterNode(node, token));
    if AnswerTo(s, node.nodeId, token).Registered? {
      if Exists(s, t) {
        LookIs(s', IdOf(s, t), t);
      } else if id :| Holds(s'.tokens, id, t) {
        assert Holds(s.tokens, id, t);
      }
    }
  }

  /** The store runs every token through its own little life, whatever else goes on. */
  lemma {:induction false} StoreIsAllLives(ops: seq<Op>, token: string)
    requires DistinctIds(ops)
    ensures Look(Run(ops), token) == LifeOf(ops, token)
    decreases |ops|
  {
    if ops != [] {
      var front, op := ops[..|ops|-1], ops[|ops|-1];
      assert DistinctIds(front);
      StoreIsAllLives(front, token);
      OneRecordPerToken(front);
      if op.CreateToken? {
        if op.id in Run(front).tokens {
          RecordsWereCreated(front, op.id);
          SharedId(ops, op.id, Run(front).tokens[op.id].token);
        }
        CreateLife(Run(front), op.id, op.token, token);
      } else {
        RegisterLife(Run(front), op.node, op.token, token);
      }
    }
  }

  lemma SharedId(ops: seq<Op>, id: string, token: string)
    requires DistinctIds(ops) && ops != [] && CreateToken(id, token) in ops[..|ops|-1]
    requires ops[|ops|-1].CreateToken? && ops[|ops|-1].id == id
    ensures ops[|ops|-1].token == token
  {
    var i :| 0 <= i < |ops| - 1 && ops[..|ops|-1][i] == CreateToken(id, token);
    assert ops[i] == CreateToken(id, token);
  }

  // ---------------------------------------------------------------------------
  // What follows
  // ---------------------------------------------------------------------------

  /** Call k of the run registered a node with this token. */
  ghost predicate Registers(ops: seq<Op>, k: int, token: string) {
    && 0 <= k < |ops| && ops[k].RegisterNode? && ops[k].token == token
    && AnswerTo(Run(ops[..k]), ops[k].node.nodeId, token).Registered?
  }

  lemma {:induction false} LifeOnlyMovesOn(ops: seq<Op>, k: nat, token: string)
    requires k <= |ops|
    ensures LifeOf(ops[..k], token).Spent? ==> LifeOf(ops, token) == LifeOf(ops[..k], token)
    ensures LifeOf(ops[..k], token).Fresh? ==> !LifeOf(ops, token).Absent?
    decreases |ops|
  {
    if k < |ops| {
      LifeOnlyMovesOn(ops[..|ops|-1], k, token);
      assert ops[..|ops|-1][..k] == ops[..k];
    } else {
      assert ops[..k] == ops;
    }
  }

  /** A used token stays used, by the same node, in every later state. */
  lemma {:induction false} UsedStaysUsed(ops: seq<Op>, k: nat, token: string)
    requires DistinctIds(ops) && k <= |ops| && Look(Run(ops[..k]), token).Spent?
    ensures Look(Run(ops), token) == Look(Run(ops[..k]), token)
  {
    assert DistinctIds(ops[..k]);
    StoreIsAllLives(ops[..k], token);
    StoreIsAllLives(ops, token);
    LifeOnlyMovesOn(ops, k, token);
  }

  predicate IsCreate(op: Op, token: string) {
    op.CreateToken? && op.token == token
  }

  predicate IsRegister(op: Op, token: string) {
    op.RegisterNode? && op.token == token
  }

  ghost predicate Created(ops: seq<Op>, token: string) {
    exists i :: 0 <= i < |ops| && IsCreate(ops[i], token)
  }

  /** Some call tried to register with the token once it had been created. */
  ghost predicate Tried(ops: seq<Op>, token: string) {
    exists i, j :: 0 <= i < j < |ops| && IsCreate(ops[i], token) && IsRegister(ops[j], token)
  }

  lemma {:induction false} LifeFromCalls(ops: seq<Op>, token: string)
    ensures LifeOf(ops, token).Absent? <==> !Created(ops, token)
    ensures LifeOf(ops, token).Spent? <==> Tried(ops, token)
    decreases |ops|
  {
    if ops != [] {
      var front, op := ops[..|ops|-1], ops[|ops|-1];
      LifeFromCalls(front, token);
      assert ops == front + [op];
      assert Created(ops, token) <==> Created(front, token) || IsCreate(op, token) by {
        assert IsCreate(ops[|ops|-1], token) == IsCreate(op, token);
      }
      assert Tried(ops, token) <==> Tried(front, token) || (Created(front, token) && IsRegister(op, token)) by {
        assert IsRegister(ops[|ops|-1], token) == IsRegister(op, token);
        if Tried(front, token) {
          var i, j :| 0 <= i < j < |front| && IsCreate(front[i], token) && IsRegister(front[j], token);
          assert IsCreate(ops[i], token) && IsRegister(ops[j], token);
        }
      }
    }
  }

  /** How a registration is answered, as a matter of the calls alone: unknown while its
      token has not been created, granted to the first that comes after, refused then on. */
  lemma RegistersIff(ops: seq<Op>, k: int, token: string)
    requires DistinctIds(ops) && 0 <= k < |ops| && IsRegister(ops[k], token)
    ensures Registers(ops, k, token) <==> Created(ops[..k], token) && !Tried(ops[..k], token)
    ensures AnswerTo(Run(ops[..k]), ops[k].node.nodeId, token).UnknownToken? <==> !Created(ops[..k], token)
  {
    assert DistinctIds(ops[..k]);
    StoreIsAllLives(ops[..k], token);
    LifeFromCalls(ops[..k], token);
  }

  ghost predicate Stored(s: State, id: string, token: string) {
    id in s.tokens && s.tokens[id] == TokenRecord(id, token, Unused)
  }

  lemma {:induction false} ExistsIffCreated(ops: seq<Op>, token: string)
    requires DistinctIds(ops)
    ensures Exists(Run(ops), token) <==> Created(ops, token)
  {
    StoreIsAllLives(ops, token);
    LifeFromCalls(ops, token);
  }

  /** The issue handler looks the token up under one lock, as of call q, and creates it
      under another, as call r, whatever is called in between. The record it answers with
      is the one stored if and only if no call in between created the token. */
  lemma {:induction false} IssueIsTrueIff(ops: seq<Op>, q: nat, r: nat, id: string, token: string)
    requires DistinctIds(ops) && q <= r < |ops| && ops[r] == CreateToken(id, token)
    requires !Exists(Run(ops[..q]), token) && id !in Run(ops[..r]).tokens
    ensures Stored(Run(ops[..r+1]), id, token) <==> forall k :: q <= k < r ==> !IsCreate(ops[k], token)
  {
    RunStep(ops, r);
    assert DistinctIds(ops[..q]) && DistinctIds(ops[..r]);
    ExistsIffCreated(ops[..q], token);
    ExistsIffCreated(ops[..r], token);
    forall i | 0 <= i < q
      ensures !IsCreate(ops[i], token)
    {
      assert !IsCreate(ops[..q][i], token);
    }
    assert forall i :: 0 <= i < r ==> ops[..r][i] == ops[i];
  }

  /** No token registers twice. */
  lemma RegistersOnce(ops: seq<Op>, j: int, k: int, token: string)
    requires DistinctIds(ops) && Registers(ops, j, token) && j < k < |ops|
    ensures !Registers(ops, k, token)
  {
    RegistersIff(ops, j, token);
    var i :| 0 <= i < j && IsCreate(ops[..j][i], token);
    assert IsCreate(ops[..k][i], token) && IsRegister(ops[..k][j], token);
    if IsRegister(ops[k], token) {
      RegistersIff(ops, k, token);
    }
  }

  // ---------------------------------------------------------------------------
  // Nodes and the log
  // ---------------------------------------------------------------------------

  /** Call k of the run registered this node. */
  ghost predicate RegistersNode(ops: seq<Op>, k: int, node: string) {
    0 <= k < |ops| && ops[k].RegisterNode? && ops[k].node.nodeId == node && Registers(ops, k, ops[k].token)
  }

  ghost predicate LastFor(ops: seq<Op>, k: int, node: string) {
    RegistersNode(ops, k, node) && forall j :: k < j < |ops| ==> !RegistersNode(ops, j, node)
  }

  lemma FrontRegisters(ops: seq<Op>, k: int, node: string)
    requires 0 <= k < |ops| - 1
    ensures RegistersNode(ops, k, node) <==> RegistersNode(ops[..|ops|-1], k, node)
  {
    assert ops[..|ops|-1][..k] == ops[..k];
  }

  lemma {:induction false} LastRegistration(ops: seq<Op>, node: string) returns (k: int)
    ensures node in Run(ops).nodes ==> LastFor(ops, k, node) && Run(ops).nodes[node] == ops[k].node
    ensures node !in Run(ops).nodes ==> forall j :: !RegistersNode(ops, j, node)
    decreases |ops|
  {
    if ops == [] {
      k := 0;
    } else {
      var front, n := ops[..|ops|-1], |ops| - 1;
      k := LastRegistration(front, node);
      NodeStep(Run(front), ops[n], node);
      if RegistersNode(ops, n, node) {
        k := n;
      } else {
        StillLast(front, ops, k, node);
      }
    }
  }

  lemma StillLast(front: seq<Op>, ops: seq<Op>, k: int, node: string)
    requires ops != [] && front == ops[..|ops|-1] && !RegistersNode(ops, |ops| - 1, node)
    ensures LastFor(front, k, node) ==> LastFor(ops, k, node)
    ensures (forall j :: !RegistersNode(front, j, node)) ==> forall j :: !RegistersNode(ops, j, node)
  {
    forall j | 0 <= j < |ops| - 1
      ensures RegistersNode(ops, j, node) <==> RegistersNode(front, j, node)
    {
      FrontRegisters(ops, j, node);
    }
  }

  /** A node is known if and only if some call registered it, with the record that the last
      such call brought. */
  lemma {:induction false} NodesAreTheLastRegistered(ops: seq<Op>, node: string)
    ensures node in Run(ops).nodes <==> exists k :: RegistersNode(ops, k, node)
    ensures forall k :: LastFor(ops, k, node) ==> node in Run(ops).nodes && Run(ops).nodes[node] == ops[k].node
  {
    var last := LastRegistration(ops, node);
    forall k | LastFor(ops, k, node)
      ensures node in Run(ops).nodes && k == last
    {
    }
  }

  lemma NodeStep(s: State, op: Op, node: string)
    ensures var granted := op.RegisterNode? && op.node.nodeId == node && AnswerTo(s, node, op.token).Registered?;
            && (granted ==> node in Step(s, op).nodes && Step(s, op).nodes[node] == op.node)
            && (!granted ==> (node in Step(s, op).nodes <==> node in s.nodes))
            && (!granted && node in s.nodes ==> Step(s, op).nodes[node] == s.nodes[node])
  {
  }

  /** The two events of a registration stand next to each other. */
  ghost predicate LogsUse(log: seq<Event>, node: string, id: string) {
    exists i :: 0 <= i < |log| - 1 && log[i] == NodeRegistered(node) && log[i + 1] == TokenUsed(id)
  }

  /** The log tells the state: which ids were issued, which nodes registered, and for every
      used record the registration that used it. */
  ghost predicate Told(s: State) {
    && (forall id :: TokenIssued(id) in s.log <==> id in s.tokens)
    && (forall node :: NodeRegistered(node) in s.log <==> node in s.nodes)
    && (forall id :: id in s.tokens && s.tokens[id].status.UsedBy? ==>
          LogsUse(s.log, s.tokens[id].status.node, id))
  }

  lemma LogsUseGrows(log: seq<Event>, more: seq<Event>, node: string, id: string)
    requires LogsUse(log, node, id)
    ensures LogsUse(log + more, node, id)
  {
    var i :| 0 <= i < |log| - 1 && log[i] == NodeRegistered(node) && log[i + 1] == TokenUsed(id);
    assert (log + more)[i] == log[i] && (log + more)[i + 1] == log[i + 1];
  }

  lemma CreateIsTold(s: State, id: string, token: string)
    requires Valid(s.tokens) && Told(s)
    ensures Told(Create(s, id, token))
  {
    var s' := Create(s, id, token);
    if !Exists(s, token) {
      assert s'.log == s.log + [TokenIssued(id)];
      forall x | x in s'.tokens && s'.tokens[x].status.UsedBy?
        ensures LogsUse(s'.log, s'.tokens[x].status.node, x)
      {
        LogsUseGrows(s.log, [TokenIssued(id)], s.tokens[x].status.node, x);
      }
    }
  }

  lemma RegisterIsTold(s: State, node: NodeRecord, token: string)
    requires Valid(s.tokens) && Told(s)
    ensures Told(Register(s, node, token))
  {
    var s' := Register(s, node, token);
    if AnswerTo(s, node.nodeId, token).Registered? {
      var id := IdOf(s, token);
      var more := [NodeRegistered(node.nodeId), TokenUsed(id)];
      assert s'.log == s.log + more;
      forall x | x in s'.tokens && s'.tokens[x].status.UsedBy?
        ensures LogsUse(s'.log, s'.tokens[x].status.node, x)
      {
        if x == id {
          assert s'.log[|s.log|] == more[0] && s'.log[|s.log| + 1] == more[1];
        } else {
          LogsUseGrows(s.log, more, s.tokens[x].status.node, x);
        }
      }
    }
  }

  lemma {:induction false} LogTellsTheState(ops: seq<Op>)
    ensures Told(Run(ops))
    decreases |ops|
  {
    if ops != [] {
      var front, op := ops[..|ops|-1], ops[|ops|-1];
      LogTellsTheState(front);
      OneRecordPerToken(front);
      match op {
        case CreateToken(id, token) => CreateIsTold(Run(front), id, token);
        case RegisterNode(node, token) => RegisterIsTold(Run(front), node, token);
      }
    }
  }

  function RevivingRun(id: string, id': string, t: string, u: string, n: NodeRecord): seq<Op> {
    [CreateToken(id, t), RegisterNode(n, t), CreateToken(id, u), CreateToken(id', t), RegisterNode(n, t)]
  }

  /** Sharing an id between two token strings breaks this: the second creation overwrites
      the spent record, and the token can be created and used again. */
  lemma SharedIdsReviveAToken(id: string, id': string, t: string, u: string, n: NodeRecord)
    requires t != u && id != id'
    ensures var ops := RevivingRun(id, id', t, u, n); Registers(ops, 1, t) && Registers(ops, 4, t)
  {
    var ops := RevivingRun(id, id', t, u, n);
    var s1 := Create(Empty, id, t);
    RunStep(ops, 0);
    assert Holds(s1.tokens, id, t);
    var s2 := Register(s1, n, t);
    RunStep(ops, 1);
    assert s2.tokens == map[id := TokenRecord(id, t, UsedBy(n.nodeId))];
    var s3 := Create(s2, id, u);
    RunStep(ops, 2);
    assert s3.tokens == map[id := TokenRecord(id, u, Unused)];
    var s4 := Create(s3, id', t);
    RunStep(ops, 3);
    assert Holds(s4.tokens, id', t);
  }

  lemma RunStep(ops: seq<Op>, k: nat)
    requires k < |ops|
    ensures Run(ops[..k+1]) == Step(Run(ops[..k]), ops[k])
  {
    assert ops[..k+1][..k] == ops[..k];
  }

  // ---------------------------------------------------------------------------
  // The implementation
  // ---------------------------------------------------------------------------

  class RegistrationStore {
    var tokens: map<string, TokenRecord>
    var nodes: map<string, NodeRecord>
    var log: seq<Event>

    ghost function View(): State
      reads this
    {
      State(tokens, nodes, log)
    }

    constructor ()
      ensures View() == Empty
    {
      tokens, nodes, log := map[], map[], [];
    }

    /** Any record with this token, in whatever order the map is searched. */
    method Find(token: string) returns (id: Option<string>)
      ensures id.Some? <==> Exists(View(), token)
      ensures id.Some? ==> Holds(tokens, id.value, token)
    {
      var rest := tokens.Keys;
      while rest != {}
        invariant rest <= tokens.Keys
        invariant forall k :: k in tokens.Keys - rest ==> tokens[k].token != token
        decreases rest
      {
        var k :| k in rest;
        if tokens[k].token == token {
          assert Holds(View().tokens, k, token);
          return Some(k);
        }
        rest := rest - {k};
      }
      return None;
    }

    method CreateNodeRegistrationToken(id: string, token: string)
      modifies this
      ensures View() == Create(old(View()), id, token)
    {
      var found := Find(token);
      if found.Some? {
        return;
      }
      tokens := tokens[id := TokenRecord(id, token, Unused)];
      log := log + [TokenIssued(id)];
    }

    method RegisterNodeWithRegistrationToken(node: NodeRecord, token: string) returns (a: Answer)
      requires Valid(tokens)
      modifies this
      ensures Valid(tokens)
      ensures a == AnswerTo(old(View()), node.nodeId, token)
      ensures View() == Register(old(View()), node, token)
    {
      StepKeepsValid(View(), Op.RegisterNode(node, token));
      var found := Find(token);
      if found.None? {
        return UnknownToken;
      }
      var existing := tokens[found.value];
      if existing.status != Unused {
        return AlreadyConsumed;
      }
      nodes := nodes[node.nodeId := node];
      log := log + [NodeRegistered(node.nodeId)];
      var updated := existing.(status := UsedBy(node.nodeId));
      tokens := tokens[updated.tokenId := updated];
      log := log + [TokenUsed(updated.tokenId)];
      return Registered(updated);
    }

    /** The registration handler: first the default token is created if it is not there.
        A refusal leaves nothing else behind. */
    method RegisterNode(node: NodeRecord, token: string, defaultToken: string) returns (a: Answer)
      requires Valid(tokens)
      modifies this
      ensures Valid(tokens)
      ensures a == AnswerTo(Create(old(View()), "regtok-dev", defaultToken), node.nodeId, token)
      ensures View() == Register(Create(old(View()), "regtok-dev", defaultToken), node, token)
      ensures !a.Registered? ==> View() == Create(old(View()), "regtok-dev", defaultToken)
    {
      StepKeepsValid(View(), CreateToken("regtok-dev", defaultToken));
      CreateNodeRegistrationToken("regtok-dev", defaultToken);
      a := RegisterNodeWithRegistrationToken(node, token);
    }

    /** The issue handler: refuses a token string that is already there. */
    method IssueRegistrationToken(id: string, token: string, defaultToken: string) returns (ok: bool)
      requires Valid(tokens)
      modifies this
      ensures Valid(tokens)
      ensures ok <==> !Exists(Create(old(View()), "regtok-dev", defaultToken), token)
      ensures View() == Create(Create(old(View()), "regtok-dev", defaultToken), id, token)
    {
      ghost var s := Create(View(), "regtok-dev", defaultToken);
      StepKeepsValid(View(), CreateToken("regtok-dev", defaultToken));
      StepKeepsValid(s, CreateToken(id, token));
      CreateNodeRegistrationToken("regtok-dev", defaultToken);
      var found := Find(token);
      if found.Some? {
        return false;
      }
      CreateNodeRegistrationToken(id, token);
      return true;
    }
  }
}
