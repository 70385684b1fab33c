/** The operation registry and approval tables updated in place. Each public method runs one
    transaction: statements write as they go, and a failure rolls all of them back. */
module OperationStore {
  import opened Journal
  import opened Approvals
  import opened OperationRegistry
  import opened OperationHistory

  lemma {:induction false} InsertOneMore(ops: map<string, Spec>, more: seq<Spec>, k: nat)
    requires k < |more|
    ensures InsertSpecs(ops, more[..k + 1]) == InsertSpecs(ops, more[..k])[more[k].name := more[k]]
    decreases k
  {
    if k > 0 {
      assert more[..k + 1][1..] == more[1..][..k] && more[..k][1..] == more[1..][..k - 1];
      InsertOneMore(ops[more[0].name := more[0]], more[1..], k - 1);
    } else {
      assert more[..1][1..] == [];
    }
  }

  /** The scan for duplicate names with a growing set of seen ones. */
  method HasDuplicateName(ops: seq<Spec>) returns (duplicate: bool)
    ensures duplicate <==> !DistinctNames(ops)
  {
    var seen: set<string> := {};
    for k := 0 to |ops|
      invariant DistinctNames(ops[..k])
      invariant forall name :: name in seen <==> exists j | 0 <= j < k :: ops[j].name == name
    {
      if ops[k].name in seen {
        var j :| 0 <= j < k && ops[j].name == ops[k].name;
        return true;
      }
      seen := seen + {ops[k].name};
    }
    assert ops[..|ops|] == ops;
    duplicate := false;
  }

  /** One row per operation; the name is part of the primary key. */
  method InsertOperationRows(ops: seq<Spec>) returns (rows: map<string, Spec>)
    ensures rows == InsertSpecs(map[], ops)
  {
    rows := map[];
    for k := 0 to |ops|
      invariant rows == InsertSpecs(map[], ops[..k])
    {
      InsertOneMore(map[], ops, k);
      rows := rows[ops[k].name := ops[k]];
    }
    assert ops[..|ops|] == ops;
  }

  /** Rebuild the operation list without one name. */
  method FilterOut(ops: map<string, Spec>, name: string) returns (kept: map<string, Spec>)
    ensures kept == Without(ops, name)
  {
    kept := map[];
    var rest := ops.Keys;
    while rest != {}
      invariant rest <= ops.Keys
      invariant kept.Keys == ops.Keys - rest - {name}
      invariant forall key <- kept :: kept[key] == ops[key]
      decreases rest
    {
      var key :| key in rest;
      if key != name {
        kept := kept[key := ops[key]];
      }
      rest := rest - {key};
    }
  }

  /** Rebuild the operation list with the entry of the same name replaced. */
  method ReplaceEntry(ops: map<string, Spec>, spec: Spec) returns (edited: map<string, Spec>)
    requires spec.name in ops
    ensures edited == ops[spec.name := spec]
  {
    edited := map[];
    var rest := ops.Keys;
    while rest != {}
      invariant rest <= ops.Keys
      invariant edited.Keys == ops.Keys - rest
      invariant forall key <- edited :: edited[key] == if key == spec.name then spec else ops[key]
      decreases rest
    {
      var key :| key in rest;
      edited := edited[key := if key == spec.name then spec else ops[key]];
      rest := rest - {key};
    }
  }

  class Store {
    const env: Env
    ghost const first: string
    var log: seq<Event>
    var snapshots: map<string, Snapshot>
    var active: string
    var version: int
    var manifests: map<string, Manifest>
    var approvals: map<string, Approval>
    var proposals: map<string, Proposal>

    function View(): State
      reads this
    {
      State(log, snapshots, active, version, manifests, Tables(approvals, proposals))
    }

    /** The log replays to the live registry. */
    ghost predicate Valid()
      reads this
    {
      Inv(env, first, View())
    }

    constructor (env: Env, baseline: map<string, Spec>)
      ensures this.env == env && View() == Init(env, baseline) && Valid()
    {
      var content := Snapshot(baseline, BuiltinHooks);
      this.env, first := env, env.snapshotId(content);
      log, snapshots, active, version := [], map[env.snapshotId(content) := content], env.snapshotId(content), 1;
      manifests, approvals, proposals := map[], map[], map[];
    }

    method Rollback(saved: State)
      modifies this
      ensures View() == saved
    {
      log, snapshots, active, version := saved.log, saved.snapshots, saved.active, saved.version;
      manifests, approvals, proposals := saved.manifests, saved.tables.approvals, saved.tables.proposals;
    }

    method Append(e: Event)
      modifies this`log
      ensures log == old(log) + [e]
    {
      log := log + [e];
    }

    // ---------------------------------------------------------- Snapshots

    /** One committed row per operation, until there is no room left. */
    method WriteOperations(id: string, all: map<string, Spec>, left: Option<nat>)
      returns (ops: map<string, Spec>, room: Option<nat>)
      modifies this`snapshots
      ensures snapshots == old(snapshots)[id := Snapshot(ops, map[])]
      ensures ops.Keys <= all.Keys && forall name <- ops :: ops[name] == all[name]
      ensures (left.None? ==> room.None?) && (room != Some(0) ==> ops == all)
    {
      ops, room := map[], left;
      snapshots := snapshots[id := Snapshot(ops, map[])];
      var rest := all.Keys;
      while rest != {} && room != Some(0)
        invariant rest <= all.Keys && ops.Keys == all.Keys - rest && (left.None? ==> room.None?)
        invariant forall name <- ops :: ops[name] == all[name]
        invariant snapshots == old(snapshots)[id := Snapshot(ops, map[])]
        decreases rest
      {
        var name :| name in rest;
        ops, rest := ops[name := all[name]], rest - {name};
        snapshots := snapshots[id := Snapshot(ops, map[])];
        room := if room.Some? then Some(room.value - 1) else None;
      }
    }

    /** One committed row per hook binding, until there is no room left. */
    method WriteHooks(id: string, ops: map<string, Spec>, all: map<string, Hook>, left: Option<nat>)
      returns (hooks: map<string, Hook>)
      modifies this`snapshots
      ensures snapshots == old(snapshots)[id := Snapshot(ops, hooks)]
      ensures hooks.Keys <= all.Keys && (forall c <- hooks :: hooks[c] == all[c]) && (left.None? ==> hooks == all)
    {
      hooks := map[];
      snapshots := snapshots[id := Snapshot(ops, hooks)];
      var rest, room := all.Keys, left;
      while rest != {} && room != Some(0)
        invariant rest <= all.Keys && hooks.Keys == all.Keys - rest && (left.None? ==> room.None?)
        invariant forall c <- hooks :: hooks[c] == all[c]
        invariant snapshots == old(snapshots)[id := Snapshot(ops, hooks)]
        decreases rest
      {
        var c :| c in rest;
        hooks, rest := hooks[c := all[c]], rest - {c};
        snapshots := snapshots[id := Snapshot(ops, hooks)];
        room := if room.Some? then Some(room.value - 1) else None;
      }
    }

    /** Write the header and then one row per operation and hook binding, each committed on its
        own. `left` is how many more rows are written before a crash, if there is one. */
    method InsertSnapshotRows(content: Snapshot, left: Option<nat>) returns (id: string, ghost partial: Snapshot)
      modifies this`snapshots
      ensures id == env.snapshotId(content) && PartOf(partial, content) && (left.None? ==> partial == content)
      ensures View() == InterruptedCreate(env, old(View()), content, partial)
    {
      id, partial := env.snapshotId(content), content;
      if id in snapshots {
        return;
      }
      var ops, room := WriteOperations(id, content.ops, left);
      partial := Snapshot(ops, map[]);
      if room != Some(0) {
        var hooks := WriteHooks(id, ops, content.hooks, room);
        partial := Snapshot(ops, hooks);
      }
    }

    method CreateRegistrySnapshot(content: Snapshot) returns (id: string)
      modifies this`snapshots
      ensures (View(), id) == CreateSnapshot(env, old(View()), content)
      ensures old(Valid()) ==> Valid()
    {
      if Valid() { CreateKeeps(env, first, View(), content); }
      var created, _ := InsertSnapshotRows(content, None);
      id := created;
    }

    method ActivateSnapshotTransactional(expected: string, next: string, decisionId: string) returns (r: Result<string>)
      modifies this
      ensures (View(), r) == ActivateSnapshot(old(View()), expected, next, decisionId)
      ensures old(Valid()) ==> Valid()
    {
      if Valid() { StepKeeps(env, first, View(), ActivateStep(expected, next, decisionId)); }
      if active != expected {
        return Err(SnapshotConflict);
      }
      if next !in snapshots {
        return Err(ForeignKeyViolation);
      }
      active, version := next, version + 1;
      Append(ActivationEvent(expected, next, decisionId, None, None));
      r := Ok(next);
    }

    /** Insert a new snapshot and swap it in; part of a transaction. */
    method SwapIn(content: Snapshot) returns (r: Result<()>)
      modifies this`snapshots, this`active, this`version
      ensures match ActivateContent(env, old(View()), content)
              case Ok(s) => r.Ok? && View() == s
              case Err(e) => r == Err(e) && View() == old(View())
    {
      var id := env.snapshotId(content);
      if id in snapshots {
        return Err(UniqueViolation);
      }
      snapshots := snapshots[id := content];
      active, version := id, version + 1;
      r := Ok(());
    }

    method ActivateRegistryTx(ops: seq<Spec>, expected: string) returns (r: Result<()>)
      modifies this`snapshots, this`active, this`version
      ensures match ActivateRegistry(env, old(View()), ops, expected)
              case Ok(s) => r.Ok? && View() == s
              case Err(e) => r == Err(e) && View() == old(View())
    {
      var duplicate := HasDuplicateName(ops);
      if duplicate {
        return Err(RegistryDuplicateOperation);
      }
      if active != expected {
        return Err(StaleExpectedSnapshot);
      }
      if active !in snapshots {
        return Err(RegistryStateNotFound);
      }
      var rows := InsertOperationRows(ops);
      r := SwapIn(Snapshot(rows, InheritedHooks(snapshots[active].hooks)));
    }

    // ---------------------------------------------------------- Manifests

    method InsertManifestTx(m: Manifest) returns (r: Result<()>)
      modifies this`manifests, this`log
      ensures match InsertManifest(env, old(View()), m)
              case Ok(s) => r.Ok? && View() == s
              case Err(e) => r == Err(e) && View() == old(View())
    {
      if exists id <- manifests :: env.manifestId(manifests[id]) == env.manifestId(m) {
        return Err(UniqueViolation);
      }
      manifests := manifests[m.id := m];
      Append(Event(HarnessManifestRegistered, None, None, Some(m.id), Payload(subject := Some(m.id))));
      r := Ok(());
    }

    method RegisterManifestTx(m: Manifest) returns (r: Result<()>)
      modifies this`manifests, this`log
      ensures match RegisterManifest(env, old(View()), m)
              case Ok(s) => r.Ok? && View() == s
              case Err(e) => r == Err(e) && View() == old(View())
    {
      if m.id in manifests {
        var stored := manifests[m.id];
        if env.manifestId(stored) == m.id == env.manifestId(m) && stored == m {
          return Ok(());
        }
        return Err(ManifestIdentityConflict);
      }
      r := InsertManifestTx(m);
    }

    method RegisterReplacementTx(m: Manifest) returns (r: Result<()>)
      modifies this`manifests, this`log
      ensures match RegisterReplacement(env, old(View()), m)
              case Ok(s) => r.Ok? && View() == s
              case Err(e) => r == Err(e) && View() == old(View())
    {
      if m.id in manifests {
        return if env.manifestId(manifests[m.id]) == env.manifestId(m) then Ok(()) else Err(ManifestReuseConflict);
      }
      r := InsertManifestTx(m);
    }

    // ------------------------------------------------- Harnesses and restart

    method EnableHarnessManifest(manifestId: string, expected: string, decisionId: string) returns (r: Result<string>)
      modifies this
      ensures (View(), r) == EnableHarness(env, old(View()), manifestId, expected, decisionId)
      ensures old(Valid()) ==> Valid()
    {
      if Valid() { StepKeeps(env, first, View(), EnableStep(manifestId, expected, decisionId)); }
      if manifestId !in manifests {
        return Err(ManifestNotFound);
      }
      if active != expected {
        return Err(SnapshotConflict);
      }
      if active !in snapshots {
        return Err(RegistrySnapshotUnavailable);
      }
      var m, current := manifests[manifestId], snapshots[active];
      if m.operation in current.ops {
        return Ok(active);
      }
      var id := CreateRegistrySnapshot(current.(ops := EnableOps(env, current.ops, m.(id := manifestId))));
      r := ActivateSnapshotTransactional(expected, id, decisionId);
    }

    method DisableHarnessManifest(manifestId: string, expected: string, decisionId: string) returns (r: Result<string>)
      modifies this
      ensures (View(), r) == DisableHarness(env, old(View()), manifestId, expected, decisionId)
      ensures old(Valid()) ==> Valid()
    {
      if Valid() { StepKeeps(env, first, View(), DisableStep(manifestId, expected, decisionId)); }
      if manifestId !in manifests {
        return Err(ManifestNotFound);
      }
      if active != expected {
        return Err(SnapshotConflict);
      }
      if active !in snapshots {
        return Err(RegistrySnapshotUnavailable);
      }
      var m, current := manifests[manifestId], snapshots[active];
      if m.operation !in current.ops {
        return Ok(active);
      }
      var ops := FilterOut(current.ops, m.operation);
      var id := CreateRegistrySnapshot(current.(ops := ops));
      r := ActivateSnapshotTransactional(expected, id, decisionId);
    }

    /** Bring the active snapshot of an existing database up to date, in at most two moves. An active
        snapshot that is not stored cannot be loaded and stops the boot. */
    method BootRegistry() returns (r: Result<string>)
      modifies this
      ensures old(active) !in old(snapshots) ==> r == Err(RegistrySnapshotUnavailable) && View() == old(View())
      ensures old(active) in old(snapshots) ==> r == Ok(active) && View() == Boot(env, old(View()))
      ensures old(Valid()) ==> Valid()
    {
      if active !in snapshots {
        return Err(RegistrySnapshotUnavailable);
      }
      if Valid() { BootKeeps(env, first, View()); }
      var current := snapshots[active];
      if HasLegacyTime(current.ops) {
        var content := Snapshot(WithControls(env, Without(current.ops, LEGACY_TIME)), InheritedHooks(current.hooks));
        var id := CreateRegistrySnapshot(content);
        var _ := ActivateSnapshotTransactional(active, id, "retire_builtin_time:" + active);
      } else if current.hooks == map[] && env.snapshotId(current.(hooks := BuiltinHooks)) != active {
        var id := CreateRegistrySnapshot(current.(hooks := BuiltinHooks));
        var _ := ActivateSnapshotTransactional(active, id, "hook_bindings_backfill:" + active);
      }
      assert View() == BootFirst(env, old(View()));
      if active in snapshots && !HasControls(env, snapshots[active].ops) {
        var content := snapshots[active].(ops := WithControls(env, snapshots[active].ops));
        var id := CreateRegistrySnapshot(content);
        var _ := ActivateSnapshotTransactional(active, id, "seed_coding_controls:" + active);
      }
      r := Ok(active);
    }

    // ---------------------------------------------------- Direct proposals

    method ActivateCapabilityProposal(proposalId: string, ops: seq<Spec>, expected: string, decisionId: string,
                                      manifest: Option<Manifest>, agent: string, now: int) returns (r: Result<string>)
      modifies this
      ensures (View(), r) == ActivateProposal(env, old(View()), proposalId, ops, expected, decisionId, manifest, agent,
                                              now)
      ensures old(Valid()) ==> Valid()
    {
      if Valid() { ProposalKeeps(env, first, View(), proposalId, ops, expected, decisionId, manifest, agent, now); }
      var saved := View();
      if manifest.Some? {
        var registered := RegisterManifestTx(manifest.value);
        if registered.Err? {
          return Err(registered.error);
        }
      }
      var p := DecidableProposal(View(), proposalId, agent, now);
      if p.Err? {
        Rollback(saved);
        return Err(p.error);
      }
      var activated := ActivateRegistryTx(ops, expected);
      if activated.Err? {
        Rollback(saved);
        return Err(activated.error);
      }
      SettleProposal(proposalId, p.value, expected, decisionId);
      r := Ok(active);
    }

    method SettleProposal(proposalId: string, p: Proposal, previous: string, decisionId: string)
      modifies this`proposals, this`log
      ensures View() == FinishProposal(old(View()), proposalId, p, previous, decisionId)
    {
      proposals := proposals[proposalId := p.(status := ProposalActivated)];
      Append(ActivationEvent(previous, active, decisionId, Some(p.run), Some(p.session)));
      Append(ProposalEvent(CapabilityChangeActivated, p, proposalId));
      assert log == old(log) + [ActivationEvent(previous, active, decisionId, Some(p.run), Some(p.session)),
                                ProposalEvent(CapabilityChangeActivated, p, proposalId)];
    }

    method ActivateSchemaUpgrade(proposalId: string, decisionId: string, m: Manifest, agent: string, now: int)
      returns (r: Result<string>)
      modifies this
      ensures (View(), r) == SchemaUpgrade(env, old(View()), proposalId, decisionId, m, agent, now)
      ensures old(Valid()) ==> Valid()
    {
      if Valid() { UpgradeKeeps(env, first, View(), proposalId, decisionId, m, agent, now); }
      var saved := View();
      var p := DecidableProposal(saved, proposalId, agent, now);
      if p.Err? {
        return Err(p.error);
      }
      var prior := UpgradeTarget(saved, p.value, m);
      if prior.Err? {
        return Err(prior.error);
      }
      var previous, current := active, snapshots[active];
      var registered := RegisterReplacementTx(m);
      if registered.Err? {
        return Err(registered.error);
      }
      var ops := ReplaceEntry(current.ops, UpgradedSpec(prior.value, m));
      var activated := SwapIn(Snapshot(ops, InheritedHooks(current.hooks)));
      if activated.Err? {
        Rollback(saved);
        return Err(activated.error);
      }
      SettleProposal(proposalId, p.value, previous, decisionId);
      r := Ok(active);
    }

    // ---------------------------------------------------- Trusted decisions

    /** Settle both rows, the approval first. On an error the caller rolls back. */
    method PersistTerminalTx(i: Identity, status: ApprovalStatus, proposalStatus: ProposalStatus,
                             result: DecisionResult)
      returns (r: Result<()>)
      modifies this`approvals, this`proposals
      ensures match PersistTerminal(old(View()).tables, i, status, proposalStatus, result)
              case Ok(t) => r.Ok? && View() == old(View()).(tables := t)
              case Err(e) => r == Err(e)
    {
      if i.approvalId !in approvals || !approvals[i.approvalId].status.Pending? {
        return Err(ApprovalNotPending);
      }
      if exists id <- approvals :: approvals[id].decision.decisionId == Some(i.decisionId) {
        return Err(UniqueViolation);
      }
      var d := Decision(Some(i.decisionId), Some(i.payloadDigest), Some(result), Some(i.principal),
                        result.snapshot, result.deployment, result.error);
      approvals := approvals[i.approvalId := Approval(approvals[i.approvalId].terms, status, d)];
      if i.proposalId !in proposals || !proposals[i.proposalId].status.PendingApproval? {
        return Err(ProposalNotPending);
      }
      proposals := proposals[i.proposalId := proposals[i.proposalId].(status := proposalStatus)];
      r := Ok(());
    }

    method FinishTrusted(i: Identity, agent: string, authentic: bool, terminal: ApprovalStatus, error: Option<string>,
                         now: int)
      returns (r: Result<DecisionResult>)
      requires terminal.Rejected? || terminal.ActivationFailed?
      modifies this
      ensures var o := FinishWithoutActivation(old(View()).tables, i, agent, authentic, terminal, error, now);
              r == o.result && View() == old(View()).(tables := o.tables, log := old(log) + o.events)
      ensures old(Valid()) ==> Valid()
    {
      if Valid() { StepKeeps(env, first, View(), FinishStep(i, agent, authentic, terminal, error, now)); }
      var saved := View();
      assert log == log + [];
      var b := LoadValidatedBinding(saved.tables, i, agent, authentic);
      if b.Err? {
        return Err(b.error);
      }
      if !b.value.approval.status.Pending? {
        return ReplayResult(b.value.approval, i, terminal);
      }
      var decidable := ValidateDecidable(b.value, now);
      if decidable.Err? {
        return Err(decidable.error);
      }
      var result := DecisionResult(i.decisionId, terminal, None, None, error, false);
      var settled := PersistTerminalTx(i, terminal, ProposalFor(terminal), result);
      if settled.Err? {
        Rollback(saved);
        return Err(settled.error);
      }
      log := log + FinishEvents(b.value.proposal, i.proposalId, terminal);
      r := Ok(result);
    }

    method FailTrusted(i: Identity, code: string, agent: string, authentic: bool, now: int)
      returns (r: Result<DecisionResult>)
      modifies this
      ensures var o := FailTrustedActivation(old(View()).tables, i, code, agent, authentic, now);
              r == o.result && View() == old(View()).(tables := o.tables, log := old(log) + o.events)
      ensures old(Valid()) ==> Valid()
    {
      if !ErrorCodeOk(code) {
        assert log == log + [];
        return Err(ActivationErrorCodeInvalid);
      }
      r := FinishTrusted(i, agent, authentic, ActivationFailed, Some(code), now);
    }

    method ExpireApproval(approvalId: string, agent: string, now: int) returns (r: Result<bool>)
      modifies this
      ensures var (t, events, result) := Approvals.Expire(old(View()).tables, approvalId, agent, now);
              r == result && View() == old(View()).(tables := t, log := old(log) + events)
      ensures old(Valid()) ==> Valid()
    {
      if Valid() { StepKeeps(env, first, View(), ExpireStep(approvalId, agent, now)); }
      assert log == log + [];
      if approvalId !in approvals || approvals[approvalId].terms.proposalId !in proposals {
        return Err(TrustedApprovalNotFound);
      }
      var a := approvals[approvalId];
      var p := proposals[a.terms.proposalId];
      if p.agent != agent {
        return Err(TrustedApprovalAgentMismatch);
      }
      if !a.status.Pending? || !p.status.PendingApproval? || now < a.terms.expiresAt {
        return Ok(false);
      }
      approvals := approvals[approvalId := Approval(a.terms, Expired, Undecided.(decidedBy := Some("kernel_expiry")))];
      proposals := proposals[a.terms.proposalId := p.(status := ProposalExpired)];
      Append(ProposalEvent(CapabilityChangeExpired, p, a.terms.proposalId));
      r := Ok(true);
    }

    method ActivatePendingTx(i: Identity, m: Manifest, deployment: string, target: string, p: Proposal,
                             grant: Result<bool>)
      returns (r: Result<DecisionResult>)
      modifies this
      ensures (View(), r) == ActivatePending(env, old(View()), i, m, deployment, target, p, grant)
    {
      var saved := View();
      var content := TrustedContent(saved, i, m);
      if content.Err? {
        return Err(content.error);
      }
      if target != env.snapshotId(content.value) {
        return Err(HostDeploymentSnapshotMismatch);
      }
      var registered := RegisterManifestTx(m);
      if registered.Err? {
        return Err(registered.error);
      }
      if active != i.snapshot {
        Rollback(saved);
        return Err(StaleExpectedSnapshot);
      }
      var activated := SwapIn(content.value);
      if activated.Err? || grant.Err? {
        Rollback(saved);
        return Err(if activated.Err? then activated.error else grant.error);
      }
      var result := DecisionResult(i.decisionId, Approved, Some(active), Some(deployment), None, false);
      var settled := PersistTerminalTx(i, Approved, ProposalActivated, result);
      if settled.Err? {
        Rollback(saved);
        return Err(settled.error);
      }
      log := log + TrustedEvents(p, i, active, grant.value);
      r := Ok(result);
    }

    method ActivateTrustedCapability(i: Identity, m: Manifest, deployment: string, target: string, agent: string,
                                     authentic: bool, grant: Result<bool>, now: int) returns (r: Result<DecisionResult>)
      modifies this
      ensures (View(), r) == ActivateTrusted(env, old(View()), i, m, deployment, target, agent, authentic, grant, now)
      ensures old(Valid()) ==> Valid()
    {
      if Valid() { TrustedKeeps(env, first, View(), i, m, deployment, target, agent, authentic, grant, now); }
      if !ManifestMatches(env, m, i) {
        return Err(CapabilityManifestMismatch);
      }
      if Blank(deployment) {
        return Err(HostDeploymentIdMissing);
      }
      var b := LoadValidatedBinding(View().tables, i, agent, authentic);
      if b.Err? {
        return Err(b.error);
      }
      if !b.value.approval.status.Pending? {
        return ReplayActivation(b.value.approval, i, deployment, target);
      }
      var decidable := ValidateDecidable(b.value, now);
      if decidable.Err? {
        return Err(decidable.error);
      }
      r := ActivatePendingTx(i, m, deployment, target, b.value.proposal, grant);
    }
  }
}
