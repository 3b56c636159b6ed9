/** The entities shared by the control plane, the store and the runner. */
module Domain {

  datatype Option<+T> = None | Some(value: T)

  datatype Result<+T, +E> = Ok(value: T) | Err(error: E)

  /** A SHA-256 digest in hex: its first 12 digits, which name deployments, and the rest. */
  datatype Digest = Digest(first12: string, rest: string)

  /** What the code takes from its cryptographic libraries: the digest of a byte
      string, and whether a signature verifies under the control plane's key. */
  datatype Crypto = Crypto(sha256: string -> Digest, verifies: (RunnerCommand, string) -> bool)

  datatype DeploymentStatus = Pending | Succeeded | Failed | RolledBack

  /** Configurations are represented by their rendered bytes. */
  datatype CommandKind =
    | ApplyDeploymentPlan(deploymentId: string, artifactSha256: Digest, config: string)
    | RollbackDeployment(deploymentId: string, rollbackTo: string, artifactSha256: Digest)
    | OtherCommand

  datatype RunnerCommand = RunnerCommand(
    nodeId: string, sequence: nat, nonce: string, expiresAt: int, kind: CommandKind)

  datatype SignedRunnerCommand = SignedRunnerCommand(command: RunnerCommand, signatureHex: string)

  datatype DeploymentResult = DeploymentResult(
    deploymentId: string, status: DeploymentStatus, artifactSha256: Digest)

  datatype SignedDeploymentResult = SignedDeploymentResult(
    nodeId: string, result: DeploymentResult, signatureHex: string)

  datatype NodeRecord = NodeRecord(nodeId: string, host: string, xrayVersion: string, resultKey: string)

  datatype DomainError = CommandExpired | NodeScope | Sequence | NonceReplay | Signature

  /** Deployment ids are content addressed: the first 12 hex digits of the digest. */
  function DeploymentIdOf(digest: Digest): string {
    "dep-" + digest.first12
  }

  lemma DeploymentIdPrefix(a: Digest, b: Digest)
    ensures DeploymentIdOf(a) == DeploymentIdOf(b) <==> a.first12 == b.first12
  {
    if DeploymentIdOf(a) == DeploymentIdOf(b) {
      assert a.first12 == DeploymentIdOf(a)[4..] == DeploymentIdOf(b)[4..] == b.first12;
    }
  }

  ghost predicate Steps(p: nat -> bool, k: nat) {
    p(k) ==> p(k + 1)
  }

  /** Induction, kept apart from what it is about. */
  lemma {:induction false} Climb(p: nat -> bool, n: nat)
    requires p(0) && forall k: nat :: Steps(p, k)
    ensures p(n)
    decreases n
  {
    if n > 0 {
      Climb(p, n - 1);
      assert Steps(p, n - 1);
    }
  }
}
