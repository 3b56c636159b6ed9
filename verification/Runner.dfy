/** The node-side runner: envelope verification and the release directories
    `releases/<id>`, `tmp/<id>` with the `active` link. File-system errors are not
    modelled; the outcomes of `xray run -test`, of the reload command and of the
    health command are oracles. */
module Runner {
  import opened Domain

  /** `active` and `activeNext` hold the release id the symbolic link points at. */
  datatype Fs = Fs(
    releases: map<string, string>,
    tmp: map<string, string>,
    active: Option<string>,
    activeNext: Option<string>)

  datatype RunnerState = RunnerState(
    nodeId: string,
    hasReload: bool,
    hasHealth: bool,
    lastSequence: nat,
    seenNonces: set<string>,
    fs: Fs)

  datatype Oracles = Oracles(test: bool, reload: bool, health: bool)

  const EmptyFs := Fs(map[], map[], None, None)

  /** The configuration reachable through the `active` link. */
  function Served(fs: Fs): Option<string> {
    if fs.active.Some? && fs.active.value in fs.releases then Some(fs.releases[fs.active.value]) else None
  }

  // ---------------------------------------------------------------------------
  // Specification of each operation
  // ---------------------------------------------------------------------------

  datatype Verdict = Verdict(outcome: Result<RunnerCommand, DomainError>, seenNonces: set<string>)

  /** Checks run in order, and the nonce is recorded before the signature is checked. */
  function VerifySpec(crypto: Crypto, r: RunnerState, envelope: SignedRunnerCommand, now: int): Verdict {
    var c := envelope.command;
    if c.nodeId != r.nodeId then Verdict(Err(NodeScope), r.seenNonces)
    else if c.expiresAt <= now then Verdict(Err(CommandExpired), r.seenNonces)
    else if c.sequence <= r.lastSequence then Verdict(Err(Sequence), r.seenNonces)
    else if c.nonce in r.seenNonces then Verdict(Err(NonceReplay), r.seenNonces)
    else if !crypto.verifies(c, envelope.signatureHex) then Verdict(Err(Signature), r.seenNonces + {c.nonce})
    else Verdict(Ok(c), r.seenNonces + {c.nonce})
  }

  function SwitchSpec(fs: Fs, target: string): Fs {
    fs.(active := Some(target), activeNext := None)
  }

  /** Undo of a switch whose reload or health command failed. */
  function RestoreSpec(fs: Fs, previous: Option<string>): (Fs, DeploymentStatus) {
    match previous
    case Some(p) => (SwitchSpec(fs, p), RolledBack)
    case None => (fs.(active := None), Failed)
  }

  /** The release is staged in tmp, tested, moved into releases, and activated. */
  function ApplyDeploymentSpec(r: RunnerState, id: string, config: string, o: Oracles): (Fs, DeploymentStatus) {
    if !o.test then
      (r.fs.(tmp := r.fs.tmp[id := config]), if r.fs.active.Some? then RolledBack else Failed)
    else
      var moved := r.fs.(tmp := r.fs.tmp - {id}, releases := r.fs.releases[id := config]);
      var switched := SwitchSpec(moved, id);
      if (r.hasReload && !o.reload) || (r.hasHealth && !o.health)
      then RestoreSpec(switched, r.fs.active)
      else (switched, Succeeded)
  }

  function RollbackDeploymentSpec(r: RunnerState, target: string): (Fs, DeploymentStatus) {
    if target !in r.fs.releases then (r.fs, Failed) else (SwitchSpec(r.fs, target), RolledBack)
  }

  /** What one envelope does: the new state, whether the command was accepted, and
      the result reported back (none when the envelope is refused or unsupported). */
  datatype Reaction = Reaction(state: RunnerState, accepted: bool, report: Option<DeploymentResult>)

  function ApplySpec(crypto: Crypto, r: RunnerState, envelope: SignedRunnerCommand, now: int, o: Oracles): Reaction {
    var v := VerifySpec(crypto, r, envelope, now);
    if v.outcome.Err? then Reaction(r.(seenNonces := v.seenNonces), false, None)
    else
      var c := v.outcome.value;
      var r1 := r.(seenNonces := v.seenNonces, lastSequence := c.sequence);
      match c.kind
      case ApplyDeploymentPlan(id, sha, config) =>
        var (fs, status) := ApplyDeploymentSpec(r1, id, config, o);
        Reaction(r1.(fs := fs), true, Some(DeploymentResult(id, status, sha)))
      case RollbackDeployment(id, target, sha) =>
        var (fs, status) := RollbackDeploymentSpec(r1, target);
        Reaction(r1.(fs := fs), true, Some(DeploymentResult(id, status, sha)))
      case OtherCommand => Reaction(r1, true, None)
  }

  /** A restarted process keeps the work directory and forgets the rest. */
  function RestartSpec(r: RunnerState): RunnerState {
    r.(lastSequence := 0, seenNonces := {})
  }

  // ---------------------------------------------------------------------------
  // One command
  // ---------------------------------------------------------------------------

  /** What a deployment attempt promises, whatever the three oracles answer. */
  lemma ApplyOutcome(r: RunnerState, id: string, config: string, o: Oracles)
    ensures var (fs, status) := ApplyDeploymentSpec(r, id, config, o);
            && (status == Succeeded <==> o.test && (r.hasReload ==> o.reload) && (r.hasHealth ==> o.health))
            && (status == RolledBack <==> status != Succeeded && r.fs.active.Some?)
            && (status == Failed <==> status != Succeeded && r.fs.active.None?)
            && (status == Succeeded ==> fs.active == Some(id) && Served(fs) == Some(config))
            && (status != Succeeded ==> fs.active == r.fs.active)
            && r.fs.releases.Keys <= fs.releases.Keys <= r.fs.releases.Keys + {id}
            && (forall d :: d in r.fs.releases && d != id ==> fs.releases[d] == r.fs.releases[d])
            && (id in fs.releases ==> fs.releases[id] == config || fs.releases == r.fs.releases)
            && (!o.test ==> fs.releases == r.fs.releases)
  {
  }

  /** A deployment attempt that does not succeed changes the served configuration in
      exactly one situation: it re-deploys the active id with other bytes. */
  lemma FailedApplyKeepsServed(r: RunnerState, id: string, config: string, o: Oracles)
    requires ApplyDeploymentSpec(r, id, config, o).1 != Succeeded
    ensures Served(ApplyDeploymentSpec(r, id, config, o).0) == Served(r.fs)
       <==> !(o.test && r.fs.active == Some(id) && Served(r.fs) != Some(config))
  {
    var (fs, status) := ApplyDeploymentSpec(r, id, config, o);
    assert fs.active == r.fs.active by { ApplyOutcome(r, id, config, o); }
  }

  /** The situation excluded above does occur. */
  lemma FailedApplyCanReplaceServed()
    ensures exists r: RunnerState, id, config, o ::
              && ApplyDeploymentSpec(r, id, config, o).1 == RolledBack
              && Served(ApplyDeploymentSpec(r, id, config, o).0) != Served(r.fs)
  {
    var r := RunnerState("n", true, false, 0, {}, Fs(map["a" := "old"], map[], Some("a"), None));
    var o := Oracles(true, false, true);
    var (fs, status) := ApplyDeploymentSpec(r, "a", "new", o);
    assert status == RolledBack && Served(fs) == Some("new") && Served(r.fs) == Some("old");
  }

  /** What a rollback promises. */
  lemma RollbackOutcome(r: RunnerState, target: string)
    ensures var (fs, status) := RollbackDeploymentSpec(r, target);
            && (status == RolledBack <==> target in r.fs.releases)
            && (status == RolledBack ==> fs.active == Some(target) && Served(fs) == Some(r.fs.releases[target]))
            && (status != RolledBack ==> status == Failed && fs == r.fs)
            && fs.releases == r.fs.releases && fs.tmp == r.fs.tmp
  {
  }

  /** A restarted runner accepts again, until it expires, what it had accepted before. */
  lemma ReplayAfterRestartIff(crypto: Crypto, r: RunnerState, e: SignedRunnerCommand, now: int, o: Oracles,
                              later: int, o': Oracles)
    requires ApplySpec(crypto, r, e, now, o).accepted
    ensures var again := ApplySpec(crypto, RestartSpec(ApplySpec(crypto, r, e, now, o).state), e, later, o');
            again.accepted <==> later < e.command.expiresAt
  {
  }

  // ---------------------------------------------------------------------------
  // Elementary steps: the methods below emit these states one by one
  // ---------------------------------------------------------------------------

  /** The states `switch_active` passes through: as found, leftover link cleared, new link
      made beside the old one, old link removed, new link renamed into place. */
  function SwitchTrace(fs: Fs, target: string): seq<Fs> {
    var cleared := fs.(activeNext := None);
    var linked := cleared.(activeNext := Some(target));
    var unlinked := linked.(active := None);
    [fs, cleared, linked, unlinked, SwitchSpec(fs, target)]
  }

  function RestoreTrace(fs: Fs, previous: Option<string>): seq<Fs> {
    match previous
    case Some(p) => SwitchTrace(fs, p)
    case None => [fs, fs.(active := None)]
  }

  /** The states a deployment passes through: staged in tmp, old release removed, new one
      moved in, link switched, and perhaps switched back. */
  function ApplyTrace(r: RunnerState, id: string, config: string, o: Oracles): seq<Fs> {
    var staged := r.fs.(tmp := r.fs.tmp[id := config]);
    if !o.test then [r.fs, staged]
    else
      var removed := staged.(releases := r.fs.releases - {id});
      var moved := r.fs.(tmp := r.fs.tmp - {id}, releases := r.fs.releases[id := config]);
      var forward := [r.fs, staged, removed] + SwitchTrace(moved, id);
      if (r.hasReload && !o.reload) || (r.hasHealth && !o.health)
      then forward + RestoreTrace(SwitchSpec(moved, id), r.fs.active)
      else forward
  }

  /** The link, at each elementary step, is the old one or the new one. */
  ghost predicate OldOrNew(trace: seq<Fs>, before: Option<string>, after: Option<string>) {
    forall k :: 0 <= k < |trace| ==> trace[k].active == before || trace[k].active == after
  }

  /** The switch is atomic exactly when there is nothing to switch from: with an old link
      in place, a reader can find none. */
  lemma SwitchIsAtomicIff(fs: Fs, target: string)
    ensures OldOrNew(SwitchTrace(fs, target), fs.active, Some(target)) <==> fs.active.None?
    ensures forall k :: 0 <= k < 5 ==> SwitchTrace(fs, target)[k].releases == fs.releases
    ensures SwitchTrace(fs, target)[4] == SwitchSpec(fs, target)
  {
    var trace := SwitchTrace(fs, target);
    assert trace[3].active == None;
  }

  /** A leftover link is cleared before the new one is made, the new one is there to be
      renamed, and none is left over. */
  lemma SwitchLeavesNoLink(fs: Fs, target: string)
    ensures var trace := SwitchTrace(fs, target);
            && trace[1].activeNext.None? && trace[2].activeNext == Some(target) && trace[3].activeNext == Some(target)
            && trace[4].activeNext.None? && trace[4].active == Some(target)
  {
  }

  /** The link, if there is one, leads to a release. */
  predicate Resolves(fs: Fs) {
    fs.active.Some? ==> fs.active.value in fs.releases
  }

  ghost predicate AlwaysResolves(trace: seq<Fs>) {
    forall k :: 0 <= k < |trace| ==> Resolves(trace[k])
  }

  lemma ResolvesAppend(a: seq<Fs>, b: seq<Fs>)
    ensures AlwaysResolves(a + b) <==> AlwaysResolves(a) && AlwaysResolves(b)
  {
    if AlwaysResolves(a + b) {
      assert forall k :: 0 <= k < |a| ==> a[k] == (a + b)[k];
      assert forall k :: 0 <= k < |b| ==> b[k] == (a + b)[|a| + k];
    }
  }

  lemma SwitchResolves(fs: Fs, target: string)
    requires Resolves(fs) && target in fs.releases
    ensures AlwaysResolves(SwitchTrace(fs, target))
  {
  }

  /** During a deployment the link leads to a release at every elementary step, and not
      only in between commands, exactly when the test fails or the deployed id is not the
      active one: re-deploying the active id removes its release before the new one is
      moved in. */
  lemma LinkResolvesThroughoutIff(r: RunnerState, id: string, config: string, o: Oracles)
    requires Resolves(r.fs)
    ensures AlwaysResolves(ApplyTrace(r, id, config, o)) <==> !o.test || r.fs.active != Some(id)
    ensures ApplyTrace(r, id, config, o)[|ApplyTrace(r, id, config, o)|-1] == ApplyDeploymentSpec(r, id, config, o).0
  {
    if o.test {
      var staged := r.fs.(tmp := r.fs.tmp[id := config]);
      var removed := staged.(releases := r.fs.releases - {id});
      var moved := r.fs.(tmp := r.fs.tmp - {id}, releases := r.fs.releases[id := config]);
      var switched := SwitchSpec(moved, id);
      var start := [r.fs, staged, removed];
      assert start[2] == removed;
      ResolvesAppend(start, SwitchTrace(moved, id));
      SwitchResolves(moved, id);
      ResolvesAppend(start + SwitchTrace(moved, id), RestoreTrace(switched, r.fs.active));
      if r.fs.active.Some? {
        SwitchResolves(switched, r.fs.active.value);
      }
      assert AlwaysResolves(start) <==> r.fs.active != Some(id);
    }
  }

  /** Refused envelopes touch nothing but, at most, the nonce set; the nonce of an
      envelope is recorded exactly when the first three checks pass. */
  lemma RefusalChangesNothing(crypto: Crypto, r: RunnerState, envelope: SignedRunnerCommand, now: int, o: Oracles)
    ensures var x := ApplySpec(crypto, r, envelope, now, o);
            var c := envelope.command;
            var inOrder := c.nodeId == r.nodeId && now < c.expiresAt && r.lastSequence < c.sequence;
            && (x.accepted <==> inOrder && c.nonce !in r.seenNonces && crypto.verifies(c, envelope.signatureHex))
            && (!x.accepted ==> x.state == r.(seenNonces := x.state.seenNonces) && x.report.None?)
            && x.state.seenNonces == (if inOrder then r.seenNonces + {c.nonce} else r.seenNonces)
            && (x.accepted ==> x.state.lastSequence == c.sequence)
  {
    if envelope.command.nonce in r.seenNonces {
      assert r.seenNonces + {envelope.command.nonce} == r.seenNonces;
    }
  }

  // ---------------------------------------------------------------------------
  // Whole runs
  // ---------------------------------------------------------------------------

  datatype Input = Receive(envelope: SignedRunnerCommand, now: int, oracles: Oracles) | Restart

  /** A command the runner accepted, and when. */
  datatype Acceptance = Acceptance(command: RunnerCommand, at: int)

  /** Runner state together with the commands accepted since the last restart. */
  datatype Lifetime = Lifetime(state: RunnerState, accepted: seq<Acceptance>)

  function React(crypto: Crypto, l: Lifetime, input: Input): Lifetime {
    match input
    case Restart => Lifetime(RestartSpec(l.state), [])
    case Receive(envelope, now, o) =>
      var x := ApplySpec(crypto, l.state, envelope, now, o);
      Lifetime(x.state, if x.accepted then l.accepted + [Acceptance(envelope.command, now)] else l.accepted)
  }

  function RunAll(crypto: Crypto, start: RunnerState, inputs: seq<Input>): Lifetime {
    if inputs == [] then Lifetime(start, [])
    else React(crypto, RunAll(crypto, start, inputs[..|inputs|-1]), inputs[|inputs|-1])
  }

  ghost predicate FreshStart(r: RunnerState) {
    r.lastSequence == 0 && r.seenNonces == {} && r.fs == EmptyFs
  }

  /** Strictly increasing sequences, distinct nonces, right node, not expired. */
  ghost predicate ProperLog(nodeId: string, log: seq<Acceptance>) {
    && (forall i, j :: 0 <= i < j < |log| ==>
          log[i].command.sequence < log[j].command.sequence && log[i].command.nonce != log[j].command.nonce)
    && (forall i :: 0 <= i < |log| ==>
          log[i].command.nodeId == nodeId && log[i].at < log[i].command.expiresAt && log[i].command.sequence > 0)
  }

  ghost predicate LogMatches(l: Lifetime) {
    && ProperLog(l.state.nodeId, l.accepted)
    && (forall i :: 0 <= i < |l.accepted| ==>
          l.accepted[i].command.sequence <= l.state.lastSequence && l.accepted[i].command.nonce in l.state.seenNonces)
    && l.state.lastSequence == (if l.accepted == [] then 0 else l.accepted[|l.accepted|-1].command.sequence)
  }

  /** A newer command with an unseen nonce extends a proper log. */
  lemma LogGrows(l: Lifetime, state: RunnerState, a: Acceptance)
    requires LogMatches(l) && state.nodeId == l.state.nodeId == a.command.nodeId
    requires a.at < a.command.expiresAt && l.state.lastSequence < a.command.sequence == state.lastSequence
    requires a.command.nonce !in l.state.seenNonces && state.seenNonces == l.state.seenNonces + {a.command.nonce}
    ensures LogMatches(Lifetime(state, l.accepted + [a]))
  {
  }

  lemma ReactKeepsLog(crypto: Crypto, l: Lifetime, input: Input)
    requires LogMatches(l)
    ensures LogMatches(React(crypto, l, input))
    ensures React(crypto, l, input).state.nodeId == l.state.nodeId
  {
    if input.Receive? {
      var x := ApplySpec(crypto, l.state, input.envelope, input.now, input.oracles);
      RefusalChangesNothing(crypto, l.state, input.envelope, input.now, input.oracles);
      assert x.state.nodeId == l.state.nodeId;
      if x.accepted {
        LogGrows(l, x.state, Acceptance(input.envelope.command, input.now));
      } else {
        assert LogMatches(Lifetime(x.state, l.accepted));
      }
    }
  }

  /** For every sequence of envelopes, genuine, forged or replayed, and every
      placement of restarts: what a runner accepts within one lifetime. */
  lemma {:induction false} AcceptedCommandsAreProper(crypto: Crypto, start: RunnerState, inputs: seq<Input>)
    requires FreshStart(start)
    ensures LogMatches(RunAll(crypto, start, inputs))
    ensures RunAll(crypto, start, inputs).state.nodeId == start.nodeId
    decreases |inputs|
  {
    if inputs != [] {
      AcceptedCommandsAreProper(crypto, start, inputs[..|inputs|-1]);
      ReactKeepsLog(crypto, RunAll(crypto, start, inputs[..|inputs|-1]), inputs[|inputs|-1]);
    }
  }

  /** Some received, correctly signed apply command carried this release, and the
      configuration test answered yes for it. */
  ghost predicate Tested(crypto: Crypto, inputs: seq<Input>, id: string, config: string) {
    exists i :: 0 <= i < |inputs| && TestedAt(crypto, inputs[i], id, config)
  }

  ghost predicate TestedAt(crypto: Crypto, input: Input, id: string, config: string) {
    && input.Receive?
    && input.oracles.test
    && crypto.verifies(input.envelope.command, input.envelope.signatureHex)
    && input.envelope.command.kind.ApplyDeploymentPlan?
    && input.envelope.command.kind.deploymentId == id
    && input.envelope.command.kind.config == config
  }

  ghost predicate SafeFs(crypto: Crypto, inputs: seq<Input>, fs: Fs) {
    && (fs.active.Some? ==> fs.active.value in fs.releases)
    && (forall d :: d in fs.releases ==> Tested(crypto, inputs, d, fs.releases[d]))
  }

  lemma TestedIsStable(crypto: Crypto, inputs: seq<Input>, next: Input, id: string, config: string)
    ensures Tested(crypto, inputs + [next], id, config)
       <==> Tested(crypto, inputs, id, config) || TestedAt(crypto, next, id, config)
  {
    var all := inputs + [next];
    if Tested(crypto, inputs, id, config) {
      var i :| 0 <= i < |inputs| && TestedAt(crypto, inputs[i], id, config);
      assert all[i] == inputs[i];
    }
    if TestedAt(crypto, next, id, config) {
      assert all[|inputs|] == next;
    }
  }

  /** Where the releases on disk after one input come from. */
  lemma ReactReleases(crypto: Crypto, l: Lifetime, input: Input, id: string)
    ensures var fs, fs' := l.state.fs, React(crypto, l, input).state.fs;
            id in fs'.releases ==>
              || (id in fs.releases && fs'.releases[id] == fs.releases[id])
              || TestedAt(crypto, input, id, fs'.releases[id])
    ensures var fs, fs' := l.state.fs, React(crypto, l, input).state.fs;
            Resolves(fs) ==> Resolves(fs')
  {
    if input.Receive? && input.envelope.command.kind.ApplyDeploymentPlan? {
      var c := input.envelope.command;
      var r1 := l.state.(seenNonces := l.state.seenNonces + {c.nonce}, lastSequence := c.sequence);
      ApplyOutcome(r1, c.kind.deploymentId, c.kind.config, input.oracles);
    }
  }

  lemma ReactKeepsSafe(crypto: Crypto, inputs: seq<Input>, l: Lifetime, input: Input)
    requires SafeFs(crypto, inputs, l.state.fs)
    ensures SafeFs(crypto, inputs + [input], React(crypto, l, input).state.fs)
  {
    var fs' := React(crypto, l, input).state.fs;
    ReactReleases(crypto, l, input, "");
    forall d | d in fs'.releases
      ensures Tested(crypto, inputs + [input], d, fs'.releases[d])
    {
      ReactReleases(crypto, l, input, d);
      TestedIsStable(crypto, inputs, input, d, fs'.releases[d]);
    }
  }

  /** Over every run: `active` never dangles, and every release on disk, the active
      one included, is a configuration that passed the test. */
  lemma {:induction false} RunnerIsSafe(crypto: Crypto, start: RunnerState, inputs: seq<Input>)
    requires FreshStart(start)
    ensures SafeFs(crypto, inputs, RunAll(crypto, start, inputs).state.fs)
    decreases |inputs|
  {
    if inputs != [] {
      var front, last := inputs[..|inputs|-1], inputs[|inputs|-1];
      RunnerIsSafe(crypto, start, front);
      ReactKeepsSafe(crypto, front, RunAll(crypto, start, front), last);
      assert front + [last] == inputs;
    }
  }

  /** Every accepted apply command in a run, read off at the moment it is handled:
      success activates exactly the commanded bytes, anything else leaves the link. */
  lemma {:induction false} EveryApplyInARun(crypto: Crypto, start: RunnerState, inputs: seq<Input>, k: nat)
    requires FreshStart(start) && k < |inputs| && inputs[k].Receive?
    ensures var before := RunAll(crypto, start, inputs[..k]).state;
            var after := RunAll(crypto, start, inputs[..k+1]).state;
            var x := ApplySpec(crypto, before, inputs[k].envelope, inputs[k].now, inputs[k].oracles);
            var c := inputs[k].envelope.command;
            && after == x.state
            && (x.report.Some? && x.report.value.status == Succeeded ==>
                  && c.kind.ApplyDeploymentPlan? && after.fs.active == Some(c.kind.deploymentId)
                  && Served(after.fs) == Some(c.kind.config))
            && (x.report.Some? && x.report.value.status != Succeeded && c.kind.ApplyDeploymentPlan? ==>
                  after.fs.active == before.fs.active)
            && (!x.accepted ==> after.fs == before.fs && after.lastSequence == before.lastSequence)
            && before.fs.releases.Keys <= after.fs.releases.Keys
  {
    assert inputs[..k+1][..k] == inputs[..k];
    var before := RunAll(crypto, start, inputs[..k]).state;
    var c := inputs[k].envelope.command;
    if c.kind.ApplyDeploymentPlan? {
      var r1 := before.(seenNonces := before.seenNonces + {c.nonce}, lastSequence := c.sequence);
      ApplyOutcome(r1, c.kind.deploymentId, c.kind.config, inputs[k].oracles);
    }
  }

  // ---------------------------------------------------------------------------
  // The implementation
  // ---------------------------------------------------------------------------

  class LocalRunner {
    const nodeId: string
    const crypto: Crypto
    const hasReload: bool
    const hasHealth: bool
    var lastSequence: nat
    var seenNonces: set<string>
    var releases: map<string, string>
    var tmp: map<string, string>
    var active: Option<string>
    var activeNext: Option<string>

    ghost function Disk(): Fs
      reads this
    {
      Fs(releases, tmp, active, activeNext)
    }

    ghost function View(): RunnerState
      reads this
    {
      RunnerState(nodeId, hasReload, hasHealth, lastSequence, seenNonces, Disk())
    }

    constructor (nodeId: string, crypto: Crypto, hasReload: bool, hasHealth: bool)
      ensures View() == RunnerState(nodeId, hasReload, hasHealth, 0, {}, EmptyFs)
      ensures this.crypto == crypto
    {
      this.nodeId, this.crypto, this.hasReload, this.hasHealth := nodeId, crypto, hasReload, hasHealth;
      lastSequence, seenNonces := 0, {};
      releases, tmp, active, activeNext := map[], map[], None, None;
    }

    method Verify(envelope: SignedRunnerCommand, now: int) returns (outcome: Result<RunnerCommand, DomainError>)
      modifies this`seenNonces
      ensures Verdict(outcome, seenNonces) == VerifySpec(crypto, old(View()), envelope, now)
    {
      var c := envelope.command;
      if c.nodeId != nodeId {
        return Err(NodeScope);
      }
      if c.expiresAt <= now {
        return Err(CommandExpired);
      }
      if c.sequence <= lastSequence {
        return Err(Sequence);
      }
      if c.nonce in seenNonces {
        return Err(NonceReplay);
      }
      seenNonces := seenNonces + {c.nonce};
      if !crypto.verifies(c, envelope.signatureHex) {
        return Err(Signature);
      }
      return Ok(c);
    }

    method SwitchActive(target: string) returns (ghost trace: seq<Fs>)
      modifies this`active, this`activeNext
      ensures Disk() == SwitchSpec(old(Disk()), target)
      ensures trace == SwitchTrace(old(Disk()), target)
    {
      trace := [Disk()];
      if activeNext.Some? {
        activeNext := None;
      }
      trace := trace + [Disk()];
      activeNext := Some(target);
      trace := trace + [Disk()];
      if active.Some? {
        active := None;
      }
      trace := trace + [Disk()];
      active, activeNext := activeNext, None;
      trace := trace + [Disk()];
    }

    method RollbackAfterApplyFailure(previous: Option<string>) returns (status: DeploymentStatus, ghost trace: seq<Fs>)
      modifies this`active, this`activeNext
      ensures (Disk(), status) == RestoreSpec(old(Disk()), previous)
      ensures trace == RestoreTrace(old(Disk()), previous)
    {
      if previous.Some? {
        trace := SwitchActive(previous.value);
        status := RolledBack;
      } else {
        trace := [Disk()];
        if active.Some? {
          active := None;
        }
        trace := trace + [Disk()];
        status := Failed;
      }
    }

    /** Staging and testing: whether the deployment may go on. */
    method Stage(id: string, config: string, o: Oracles) returns (passed: bool, ghost trace: seq<Fs>)
      modifies this`tmp
      ensures passed == o.test
      ensures Disk() == old(Disk()).(tmp := old(tmp)[id := config])
      ensures trace == [old(Disk()), Disk()]
    {
      trace := [Disk()];
      tmp := tmp[id := config];
      trace := trace + [Disk()];
      passed := o.test;
    }

    /** Replacing the release by what was staged, and switching to it. */
    method Activate(id: string) returns (ghost trace: seq<Fs>)
      requires id in tmp
      modifies this`releases, this`tmp, this`active, this`activeNext
      ensures var moved := old(Disk()).(tmp := old(tmp) - {id}, releases := old(releases)[id := old(tmp)[id]]);
              && Disk() == SwitchSpec(moved, id)
              && trace == [old(Disk()).(releases := old(releases) - {id})] + SwitchTrace(moved, id)
    {
      if id in releases {
        releases := releases - {id};
      }
      assert releases == old(releases) - {id};
      trace := [Disk()];
      releases := releases[id := tmp[id]];
      tmp := tmp - {id};
      assert releases == old(releases)[id := old(tmp)[id]];
      ghost var switching := SwitchActive(id);
      trace := trace + switching;
    }

    method ApplyDeployment(id: string, config: string, o: Oracles)
      returns (status: DeploymentStatus, ghost trace: seq<Fs>)
      modifies this`releases, this`tmp, this`active, this`activeNext
      ensures (Disk(), status) == ApplyDeploymentSpec(old(View()), id, config, o)
      ensures trace == ApplyTrace(old(View()), id, config, o)
    {
      var passed;
      passed, trace := Stage(id, config, o);
      if !passed {
        return if active.Some? then RolledBack else Failed, trace;
      }
      var previousActive := active;
      assert tmp - {id} == old(tmp) - {id};
      ghost var activating := Activate(id);
      trace := trace + activating;
      assert trace == [old(Disk()), old(Disk()).(tmp := old(tmp)[id := config])] + activating;
      ghost var restoring;
      if hasReload && !o.reload {
        status, restoring := RollbackAfterApplyFailure(previousActive);
        return status, trace + restoring;
      }
      if hasHealth && !o.health {
        status, restoring := RollbackAfterApplyFailure(previousActive);
        return status, trace + restoring;
      }
      status := Succeeded;
    }

    method RollbackDeployment(target: string) returns (status: DeploymentStatus)
      modifies this`active, this`activeNext
      ensures (Disk(), status) == RollbackDeploymentSpec(old(View()), target)
    {
      if target !in releases {
        return Failed;
      }
      ghost var trace := SwitchActive(target);
      status := RolledBack;
    }

    method Apply(envelope: SignedRunnerCommand, now: int, o: Oracles)
      returns (accepted: bool, report: Option<DeploymentResult>)
      modifies this
      ensures Reaction(View(), accepted, report) == ApplySpec(crypto, old(View()), envelope, now, o)
    {
      var verdict := Verify(envelope, now);
      if verdict.Err? {
        return false, None;
      }
      var command := verdict.value;
      lastSequence := command.sequence;
      match command.kind {
        case ApplyDeploymentPlan(id, sha, config) =>
          var status, _ := ApplyDeployment(id, config, o);
          return true, Some(DeploymentResult(id, status, sha));
        case RollbackDeployment(id, target, sha) =>
          var status := RollbackDeployment(target);
          return true, Some(DeploymentResult(id, status, sha));
        case OtherCommand =>
          return true, None;
      }
    }
  }
}
