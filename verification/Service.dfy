/** The compile and result handlers from request to answer, joining the compiler, the
    profile store and the deployment store. */
module Service {
  import opened Domain
  import opened Store
  import opened ControlPlane
  import opened Profile
  import opened XrayCompiler
  import opened Subscription

  /** Reading a node's public key, and checking a signed result under a key. */
  datatype ResultKeys = ResultKeys(
    parse: string -> Option<string>,
    checks: (string, string, DeploymentResult, string) -> bool,
    fallback: string)

  /** The key a node's results are checked under; nodes without one share the fallback. */
  function KeyFor(keys: ResultKeys, node: NodeRecord): Option<string> {
    if node.resultKey == "" then Some(keys.fallback) else keys.parse(node.resultKey)
  }

  predicate Authentic(keys: ResultKeys, nodes: map<string, NodeRecord>, node: string, signed: SignedDeploymentResult) {
    && node in nodes && KeyFor(keys, nodes[node]).Some?
    && signed.nodeId == node
    && keys.checks(KeyFor(keys, nodes[node]).value, node, signed.result, signed.signatureHex)
  }

  /** Whose key counts: a node that registered one is checked under that key only, and the
      shared fallback is for nodes without one. */
  lemma OwnKeyCounts(keys: ResultKeys, nodes: map<string, NodeRecord>, node: string, signed: SignedDeploymentResult)
    requires node in nodes
    ensures Authentic(keys, nodes, node, signed)
       <==> && signed.nodeId == node
            && (nodes[node].resultKey == "" ==> keys.checks(keys.fallback, node, signed.result, signed.signatureHex))
            && (nodes[node].resultKey != "" ==>
                  && keys.parse(nodes[node].resultKey).Some?
                  && keys.checks(keys.parse(nodes[node].resultKey).value, node, signed.result, signed.signatureHex))
  {
  }

  /** The one secret the handler knows: no other reference to a REALITY key compiles. */
  lemma OnlyOneSecret(b: Inbound, version: string, key: string, creds: seq<Credential>)
    requires b.protocol == Vless && b.security.Reality?
    ensures WellFormedInbound(b, SecretContext(version, key, creds))
       <==> Version.SupportsReality(version) && b.security.privateKeyRef == "sec_reality_private"
  {
  }

  function SecretContext(version: string, key: string, creds: seq<Credential>): Context {
    Context(version, map["sec_reality_private" := key], creds)
  }

  datatype Refusal = WrongToken | UnknownNode | BadKey | BadResult(error: DomainError) | UnknownDeployment

  /** `SignedDeploymentResult::verify`: a result only counts for the node it was signed as. */
  method VerifyResult(keys: ResultKeys, key: string, node: string, signed: SignedDeploymentResult)
    returns (r: Result<DeploymentResult, DomainError>)
    ensures r.Ok? <==> signed.nodeId == node && keys.checks(key, node, signed.result, signed.signatureHex)
    ensures r.Ok? ==> r.value == signed.result
    ensures r.Err? ==> r.error == if signed.nodeId != node then NodeScope else Signature
  {
    if signed.nodeId != node {
      return Err(NodeScope);
    }
    if !keys.checks(key, signed.nodeId, signed.result, signed.signatureHex) {
      return Err(Signature);
    }
    return Ok(signed.result);
  }

  datatype CompileAnswer =
    | Created(response: Response)
    | ProfileNotFound
    | NodeNotFound
    | BadRequest(error: CompileError)

  class ControlPlaneService {
    const handlers: Handlers
    const profiles: ProfileStore
    const keys: ResultKeys
    const runnerToken: string
    const realityKey: string
    const render: seq<XrayInbound> -> string

    constructor (handlers: Handlers, profiles: ProfileStore, keys: ResultKeys, runnerToken: string,
                 realityKey: string, render: seq<XrayInbound> -> string)
      ensures this.handlers == handlers && this.profiles == profiles && this.keys == keys
      ensures this.runnerToken == runnerToken && this.realityKey == realityKey && this.render == render
    {
      this.handlers, this.profiles, this.keys := handlers, profiles, keys;
      this.runnerToken, this.realityKey, this.render := runnerToken, realityKey, render;
    }

    ghost predicate Valid()
      reads handlers, profiles
    {
      handlers.store.crypto == handlers.crypto
    }

    /** Recorded and counted exactly when the caller has the runner token, the result is
        authentic for the node in the path, and its deployment is planned. */
    method SubmitRunnerResult(token: Option<string>, node: string, signed: SignedDeploymentResult, now: int)
      returns (refusal: Option<Refusal>)
      modifies handlers`results, handlers.store
      ensures refusal.None? <==>
                && token == Some(runnerToken) && Authentic(keys, profiles.nodes, node, signed)
                && signed.result.deploymentId in old(handlers.store.plans)
      ensures handlers.results == old(handlers.results) + (if refusal.None? then [signed.result] else [])
      ensures handlers.store.View()
           == if refusal.None? then RecordResultSpec(old(handlers.store.View()), signed.result, now)
              else old(handlers.store.View())
    {
      if token != Some(runnerToken) {
        return Some(WrongToken);
      }
      if node !in profiles.nodes {
        return Some(UnknownNode);
      }
      var key := KeyFor(keys, profiles.nodes[node]);
      if key.None? {
        return Some(BadKey);
      }
      var verified := VerifyResult(keys, key.value, node, signed);
      if verified.Err? {
        return Some(BadResult(verified.error));
      }
      var known := handlers.RecordResult(verified.value, now);
      if !known {
        return Some(UnknownDeployment);
      }
      return None;
    }

    /** What a profile compiles to for a node: its version, the one secret, its credentials. */
    ghost function ContextFor(profile: string, node: string): Context
      requires node in profiles.nodes
      reads profiles
    {
      SecretContext(profiles.nodes[node].xrayVersion, realityKey, profiles.CredentialsOf(profile))
    }

    /** A replayed key gets the recorded answer; a missing profile or node and a profile that
        is not well formed are refused with the store unchanged; otherwise the rendered
        translation of the whole profile is stored, planned and queued. */
    method CompileDeployment(r: CompileRequest, stamp: Stamp)
      returns (answer: CompileAnswer, ghost outs: seq<XrayInbound>, ghost previous: Option<string>)
      requires Valid()
      modifies handlers`sequences, handlers.store
      ensures old(IsReplay(handlers.View(), r)) ==>
                handlers.View() == old(handlers.View()) && answer == Created(old(handlers.store.responses)[r.key.value])
      ensures !old(IsReplay(handlers.View(), r)) ==>
                && (answer.ProfileNotFound? <==> r.profile !in profiles.profiles)
                && (answer.NodeNotFound? <==> r.profile in profiles.profiles && r.node !in profiles.nodes)
                && (answer.BadRequest? ==>
                      && r.profile in profiles.profiles && r.node in profiles.nodes
                      && FirstFault(profiles.profiles[r.profile], ContextFor(r.profile, r.node), answer.error))
                && (answer.Created? <==>
                      && r.profile in profiles.profiles && r.node in profiles.nodes
                      && WellFormed(profiles.profiles[r.profile], ContextFor(r.profile, r.node)))
      ensures !answer.Created? ==> handlers.View() == old(handlers.View())
      ensures !old(IsReplay(handlers.View(), r)) && answer.Created? ==>
                && CompiledTo(profiles.profiles[r.profile], ContextFor(r.profile, r.node), outs)
                && IsPrevious(old(handlers.store.Table()), r.node, previous)
                && var s := CompileBody(handlers.crypto, old(handlers.View()), r, render(outs), previous, stamp);
                   && answer.response == ResponseFor(handlers.crypto, s, render(outs))
                   && handlers.View() == Remember(s, r.key, answer.response)
    {
      outs, previous := [], None;
      var store := handlers.store;
      if r.key.Some? && r.key.value in store.responses {
        return Created(store.responses[r.key.value]), outs, previous;
      }
      if r.profile !in profiles.profiles {
        return ProfileNotFound, outs, previous;
      }
      if r.node !in profiles.nodes {
        return NodeNotFound, outs, previous;
      }
      var secrets := map["sec_reality_private" := realityKey];
      var ctx := Context(profiles.nodes[r.node].xrayVersion, secrets, profiles.CredentialsOf(r.profile));
      var compiled := CompileProfile(profiles.profiles[r.profile], ctx);
      if compiled.Rejected? {
        return BadRequest(compiled.error), outs, previous;
      }
      outs := compiled.inbounds;
      var response;
      response, previous := handlers.DeployCompiled(r, render(compiled.inbounds), stamp);
      return Created(response), outs, previous;
    }
  }
}
