/** The control plane's handlers over the store: sequence allocation, compile, rollback,
    result submission, readiness and rollout. Here each handler runs by itself; the
    interleaving of their individual steps is the subject of ControlLoop. */
module ControlPlane {
  import opened Domain
  import opened Store

  /** Lifetime of a command in seconds. */
  const CommandTtl := 60

  const RequiredHealthySamples := 2

  datatype CpState = CpState(store: StoreState, sequences: map<string, nat>)

  /** Values a handler takes from the clock, the id generator and the signing key. */
  datatype Stamp = Stamp(now: int, artifact: string, nonce: string, signature: string)

  function SequenceOf(sequences: map<string, nat>, node: string): nat {
    if node in sequences then sequences[node] else 0
  }

  function NewCommand(sequences: map<string, nat>, node: string, now: int, nonce: string,
                      kind: CommandKind): RunnerCommand {
    RunnerCommand(node, SequenceOf(sequences, node) + 1, nonce, now + CommandTtl, kind)
  }

  function Issue(s: CpState, node: string, stamp: Stamp, kind: CommandKind): CpState {
    var c := NewCommand(s.sequences, node, stamp.now, stamp.nonce, kind);
    CpState(EnqueueSpec(s.store, node, SignedRunnerCommand(c, stamp.signature)), s.sequences[node := c.sequence])
  }

  // ---------------------------------------------------------------------------
  // Readiness
  // ---------------------------------------------------------------------------

  function SamplesOf(health: seq<HealthSample>, id: string): seq<HealthSample> {
    if health == [] then []
    else
      var front := SamplesOf(health[..|health|-1], id);
      if health[|health|-1].deploymentId == id then front + [health[|health|-1]] else front
  }

  function HealthyCount(samples: seq<HealthSample>): nat {
    if samples == [] then 0
    else HealthyCount(samples[..|samples|-1]) + (if samples[|samples|-1].status == Healthy then 1 else 0)
  }

  /** Index of the latest sample; among equally late ones, the last recorded. */
  function LatestIndex(samples: seq<HealthSample>): (k: nat)
    requires samples != []
    ensures k < |samples|
    ensures forall i :: 0 <= i < |samples| ==> samples[i].createdAt <= samples[k].createdAt
    ensures forall i :: k < i < |samples| ==> samples[i].createdAt < samples[k].createdAt
  {
    var n := |samples| - 1;
    if n == 0 then 0
    else
      var k := LatestIndex(samples[..n]);
      if samples[k].createdAt <= samples[n].createdAt then n else k
  }

  datatype Readiness = WaitingForSuccess | LatestUnhealthy | WaitingForSamples | Ready

  function ReadinessOf(status: DeploymentStatus, samples: seq<HealthSample>): Readiness {
    if status != Succeeded then WaitingForSuccess
    else if samples != [] && samples[LatestIndex(samples)].status != Healthy then LatestUnhealthy
    else if HealthyCount(samples) < RequiredHealthySamples then WaitingForSamples
    else Ready
  }

  // ---------------------------------------------------------------------------
  // Rollback and rollout
  // ---------------------------------------------------------------------------

  datatype Outcome = Queued(command: RunnerCommand) | NoPrevious | MissingRecord | Promoted | Waiting

  /** What a rollback request finds out before it allocates a sequence. */
  datatype Finding = Found(node: string, kind: CommandKind) | Refusal(outcome: Outcome)

  function RollbackTarget(crypto: Crypto, st: StoreState, id: string): Finding {
    var d := st.deployments;
    if id !in d.pointers then Refusal(MissingRecord)
    else if d.pointers[id].previousId.None? || d.pointers[id].previousArtifact.None? then Refusal(NoPrevious)
    else if id !in d.snapshots then Refusal(MissingRecord)
    else
      match ArtifactBytes(st.artifacts, d.pointers[id].previousArtifact.value)
      case None => Refusal(MissingRecord)
      case Some(bytes) =>
        Found(d.snapshots[id].node, RollbackDeployment(id, d.pointers[id].previousId.value, crypto.sha256(bytes)))
  }

  datatype Answer = Answer(state: CpState, outcome: Outcome)

  function RollbackSpec(crypto: Crypto, s: CpState, id: string, stamp: Stamp): Answer {
    match RollbackTarget(crypto, s.store, id)
    case Refusal(outcome) => Answer(s, outcome)
    case Found(node, kind) =>
      Answer(Issue(s, node, stamp, kind), Queued(NewCommand(s.sequences, node, stamp.now, stamp.nonce, kind)))
  }

  function AdvanceSpec(crypto: Crypto, s: CpState, id: string, stamp: Stamp): Answer {
    var d := s.store.deployments;
    if id !in d.statuses || id !in d.plans then Answer(s, MissingRecord)
    else
      match ReadinessOf(d.statuses[id], SamplesOf(d.health, id))
      case Ready => Answer(s, Promoted)
      case LatestUnhealthy => RollbackSpec(crypto, s, id, stamp)
      case WaitingForSuccess => Answer(s, Waiting)
      case WaitingForSamples => Answer(s, Waiting)
  }

  // ---------------------------------------------------------------------------
  // Compile
  // ---------------------------------------------------------------------------

  datatype CompileRequest = CompileRequest(key: Option<string>, node: string, profile: string)

  function ApplyKind(crypto: Crypto, config: string): CommandKind {
    ApplyDeploymentPlan(DeploymentIdOf(crypto.sha256(config)), crypto.sha256(config), config)
  }

  /** Blob, plan, sequence, enqueue, as done for a request that is not a replay. */
  function CompileBody(crypto: Crypto, s: CpState, r: CompileRequest, config: string, previous: Option<string>,
                       stamp: Stamp): CpState
    requires previous.Some? ==> previous.value in s.store.deployments.plans
  {
    var sha := crypto.sha256(config);
    var stored := RecordBlobSpec(crypto, s.store, stamp.artifact, sha, config, stamp.now);
    var plan := Plan(r.node, r.profile, stamp.artifact, stamp.now);
    var planned := RecordPlanSpec(stored, DeploymentIdOf(sha), plan, previous);
    Issue(CpState(planned, s.sequences), r.node, stamp, ApplyKind(crypto, config))
  }

  function ResponseFor(crypto: Crypto, s: CpState, config: string): Response {
    Response(DeploymentIdOf(crypto.sha256(config)), crypto.sha256(config), |s.store.logs.audit|, |s.store.logs.outbox|)
  }

  function Remember(s: CpState, key: Option<string>, response: Response): CpState {
    match key
    case None => s
    case Some(k) => s.(store := RecordResponseSpec(s.store, k, response))
  }

  predicate IsReplay(s: CpState, r: CompileRequest) {
    r.key.Some? && r.key.value in s.store.responses
  }

  // ---------------------------------------------------------------------------
  // The handlers
  // ---------------------------------------------------------------------------

  class Handlers {
    const crypto: Crypto
    const store: MemoryStore
    var sequences: map<string, nat>
    var results: seq<DeploymentResult>

    ghost function View(): CpState
      reads this, store
    {
      CpState(store.View(), sequences)
    }

    constructor (crypto: Crypto, store: MemoryStore)
      ensures this.crypto == crypto && this.store == store && sequences == map[] && results == []
    {
      this.crypto, this.store := crypto, store;
      sequences, results := map[], [];
    }

    method NextSequence(node: string) returns (next: nat)
      modifies this`sequences
      ensures next == SequenceOf(old(sequences), node) + 1
      ensures sequences == old(sequences)[node := next]
    {
      if node !in sequences {
        sequences := sequences[node := 0];
      }
      sequences := sequences[node := sequences[node] + 1];
      next := sequences[node];
    }

    method Send(node: string, kind: CommandKind, stamp: Stamp) returns (command: RunnerCommand)
      modifies this`sequences, store`queues
      ensures View() == Issue(old(View()), node, stamp, kind)
      ensures command == NewCommand(old(sequences), node, stamp.now, stamp.nonce, kind)
    {
      var sequence := NextSequence(node);
      command := RunnerCommand(node, sequence, stamp.nonce, stamp.now + CommandTtl, kind);
      store.EnqueueRunnerCommand(node, SignedRunnerCommand(command, stamp.signature));
    }

    /** What a compile handler does once it has the configuration. */
    method DeployCompiled(r: CompileRequest, config: string, stamp: Stamp)
      returns (response: Response, ghost previous: Option<string>)
      requires store.crypto == crypto
      modifies this`sequences, store
      ensures IsPrevious(old(store.Table()), r.node, previous)
      ensures var s := CompileBody(crypto, old(View()), r, config, previous, stamp);
              response == ResponseFor(crypto, s, config) && View() == Remember(s, r.key, response)
    {
      var sha := crypto.sha256(config);
      var ok := store.RecordArtifactBlob(stamp.artifact, sha, config, stamp.now);
      var plan := Plan(r.node, r.profile, stamp.artifact, stamp.now);
      var found := store.RecordDeploymentPlan(DeploymentIdOf(sha), plan);
      previous := found;
      var command := Send(r.node, ApplyKind(crypto, config), stamp);
      assert View() == CompileBody(crypto, old(View()), r, config, previous, stamp);
      response := Response(DeploymentIdOf(sha), sha, |store.audit|, |store.outbox|);
      if r.key.Some? {
        store.RecordIdempotencyResponse(r.key.value, response);
      }
    }

    method EnqueueRollbackCommand(id: string, stamp: Stamp) returns (outcome: Outcome)
      modifies this`sequences, store`queues
      ensures Answer(View(), outcome) == RollbackSpec(crypto, old(View()), id, stamp)
    {
      if id !in store.pointers {
        return MissingRecord;
      }
      var pointer := store.pointers[id];
      if pointer.previousId.None? {
        return NoPrevious;
      }
      if pointer.previousArtifact.None? {
        return NoPrevious;
      }
      if id !in store.snapshots {
        return MissingRecord;
      }
      var snapshot := store.snapshots[id];
      var artifact := pointer.previousArtifact.value;
      if artifact !in store.shas || store.shas[artifact] !in store.blobs {
        return MissingRecord;
      }
      var sha := crypto.sha256(store.blobs[store.shas[artifact]]);
      var command := Send(snapshot.node, RollbackDeployment(id, pointer.previousId.value, sha), stamp);
      outcome := Queued(command);
    }

    /** What the result handler does with a result it has authenticated. */
    method RecordResult(result: DeploymentResult, now: int) returns (known: bool)
      modifies this`results, store
      ensures known <==> result.deploymentId in old(store.plans)
      ensures results == (if known then old(results) + [result] else old(results))
      ensures store.View() == (if known then RecordResultSpec(old(store.View()), result, now) else old(store.View()))
    {
      known := store.RecordDeploymentResult(result, now);
      if known {
        results := results + [result];
      }
    }

    method AdvanceDeploymentRollout(id: string, stamp: Stamp) returns (outcome: Outcome)
      modifies this`sequences, store`queues
      ensures Answer(View(), outcome) == AdvanceSpec(crypto, old(View()), id, stamp)
    {
      if id !in store.statuses || id !in store.plans {
        return MissingRecord;
      }
      match ReadinessOf(store.statuses[id], SamplesOf(store.health, id)) {
        case Ready => return Promoted;
        case LatestUnhealthy => outcome := EnqueueRollbackCommand(id, stamp);
        case _ => return Waiting;
      }
    }
  }
}
