/** What each path of the operation registry installs and when it commits, and who settles the
    approvals in its runs. */
module OperationEffects {
  import opened Journal
  import opened Approvals
  import opened ApprovalRules
  import opened OperationRegistry
  import opened OperationHistory
  import OperationDecisions
  import opened OperationUpgrades

  // ------------------------------------------------------------- Installed content

  /** The operations of one snapshot and this one, which replaces any of its name. */
  predicate Adds(before: Snapshot, after: Snapshot, spec: Spec) {
    && after.ops.Keys == before.ops.Keys + {spec.name} && after.ops[spec.name] == spec
    && forall name <- before.ops | name != spec.name :: after.ops[name] == before.ops[name]
  }

  /** The hooks of one snapshot, or the budget hook of the kernel if it has none. */
  predicate Inherits(before: Snapshot, after: Snapshot) {
    if before.hooks != map[] then after.hooks == before.hooks
    else
      after.hooks == map["run.budget.resolve.v0" := Hook("run.budget.resolve.v0", "builtin:run-budget-default-v0", "v0",
                                                         Builtin, "builtin.run_budget_default", "", "")]
  }

  /** The snapshot becomes active as the next version, stored under its digest beside the others. */
  predicate Installs(env: Env, s: State, s': State, content: Snapshot) {
    && s'.active == env.snapshotId(content) && s'.active !in s.snapshots
    && s'.snapshots == s.snapshots[s'.active := content] && s'.version == s.version + 1
  }

  /** The manifest can be stored: it is stored already, as it is and under its own digest, or
      neither its id nor its digest is taken. */
  predicate Registrable(env: Env, s: State, m: Manifest) {
    if m.id in s.manifests then s.manifests[m.id] == m && env.manifestId(m) == m.id
    else forall id <- s.manifests :: env.manifestId(s.manifests[id]) != env.manifestId(m)
  }

  function Noted(s: State, m: Manifest): seq<Event> {
    if m.id in s.manifests then []
    else [Event(HarnessManifestRegistered, None, None, Some(m.id), Payload(subject := Some(m.id)))]
  }

  /** Registering stores the manifest under its id with one event, unless it is stored already. */
  lemma RegistersExactly(env: Env, s: State, m: Manifest)
    ensures var r := RegisterManifest(env, s, m);
            && (r.Ok? <==> Registrable(env, s, m))
            && (r.Ok? ==> r.value == s.(manifests := s.manifests[m.id := m], log := s.log + Noted(s, m)))
  {
    assert s.log + [] == s.log;
    if m.id in s.manifests && s.manifests[m.id] == m { assert s.manifests[m.id := m] == s.manifests; }
  }

  /** For an upgrade it is enough that a manifest of that id has the same digest; it stays. */
  lemma ReplacesExactly(env: Env, s: State, m: Manifest)
    ensures var r := RegisterReplacement(env, s, m);
            && (r.Ok? <==> if m.id in s.manifests then env.manifestId(s.manifests[m.id]) == env.manifestId(m)
                           else forall id <- s.manifests :: env.manifestId(s.manifests[id]) != env.manifestId(m))
            && (r.Ok? ==> r.value == if m.id in s.manifests then s
                                     else s.(manifests := s.manifests[m.id := m], log := s.log + Noted(s, m)))
  {
  }

  function Activation(previous: string, next: string, decisionId: string, run: Option<string>, session: Option<string>)
    : Event
  {
    Event(RegistrySnapshotActivated, run, session, Some(decisionId),
          Payload(previousSnapshot := Some(previous), newSnapshot := Some(next)))
  }

  // -------------------------------------------------------------- Trusted activation

  /** The manifest is a valid one of the capability host and the one that was approved. */
  predicate IsApprovedManifest(env: Env, m: Manifest, i: Identity) {
    && env.manifestValid(m) && env.manifestId(m) == m.id && env.manifestDigest(m) == i.manifest
    && m.artifact == i.artifact && m.harness == "capability-host-v0" && m.endpoint == "http://127.0.0.1:7300/execute"
    && "external." <= m.operation
  }

  /** The operation a trusted activation adds. */
  function Capability(m: Manifest): Spec {
    Spec(m.operation, ReadOnly, m.description, m.inputSchema, m.idempotent, External, m.id)
  }

  /** `content` is what the activation is to install: the source snapshot and the new operation. */
  predicate IsTrustedContent(s: State, i: Identity, m: Manifest, content: Snapshot) {
    && i.snapshot in s.snapshots && m.operation !in s.snapshots[i.snapshot].ops
    && Adds(s.snapshots[i.snapshot], content, Capability(m)) && Inherits(s.snapshots[i.snapshot], content)
  }

  lemma TrustedContentExactly(s: State, i: Identity, m: Manifest)
    ensures var r := TrustedContent(s, i, m);
            && (r.Ok? <==> i.snapshot in s.snapshots && m.operation !in s.snapshots[i.snapshot].ops)
            && (r.Ok? ==> IsTrustedContent(s, i, m, r.value))
            && (forall content | IsTrustedContent(s, i, m, content) :: r == Ok(content))
  {
    var r := TrustedContent(s, i, m);
    forall content | IsTrustedContent(s, i, m, content) ensures r == Ok(content) {
      assert r.value.ops == content.ops && r.value.hooks == content.hooks;
    }
  }

  /** A trusted activation commits exactly when the manifest is the approved one, the identity may
      decide, the source snapshot is active and lacks the operation, the host was told the digest
      of the content to install, and that content, the manifest and the grant can be stored. */
  predicate MayActivate(env: Env, s: State, i: Identity, m: Manifest, deployment: string, target: string,
                        agent: string, authentic: bool, grant: Result<bool>, now: int, content: Snapshot)
  {
    && IsApprovedManifest(env, m, i) && !Blank(deployment) && MayDecide(s.tables, i, agent, authentic, now)
    && s.active == i.snapshot && IsTrustedContent(s, i, m, content)
    && target == env.snapshotId(content) && target !in s.snapshots && Registrable(env, s, m) && grant.Ok?
  }

  lemma MatchesExactly(env: Env, m: Manifest, i: Identity)
    ensures ManifestMatches(env, m, i) <==> IsApprovedManifest(env, m, i)
  {
    assert |"external."| == 9;
  }

  lemma TrustedCommitsExactly(env: Env, s: State, i: Identity, m: Manifest, deployment: string, target: string,
                              agent: string, authentic: bool, grant: Result<bool>, now: int)
    ensures var r := ActivateTrusted(env, s, i, m, deployment, target, agent, authentic, grant, now).1;
            (r.Ok? && !r.value.replayed) <==>
            exists content :: MayActivate(env, s, i, m, deployment, target, agent, authentic, grant, now, content)
  {
    MatchesExactly(env, m, i);
    BindingExactly(s.tables, i, agent, authentic);
    TrustedContentExactly(s, i, m);
    RegistersExactly(env, s, m);
    var r := ActivateTrusted(env, s, i, m, deployment, target, agent, authentic, grant, now).1;
    if r.Ok? && !r.value.replayed {
      assert MayActivate(env, s, i, m, deployment, target, agent, authentic, grant, now, TrustedContent(s, i, m).value);
    }
  }

  /** What it leaves behind: the source snapshot's operations and hooks with the one new operation,
      the manifest, the settled approval and its events. */
  lemma TrustedInstalls(env: Env, s: State, i: Identity, m: Manifest, deployment: string, target: string,
                        agent: string, authentic: bool, grant: Result<bool>, now: int, content: Snapshot)
    requires MayActivate(env, s, i, m, deployment, target, agent, authentic, grant, now, content)
    ensures var (s', r) := ActivateTrusted(env, s, i, m, deployment, target, agent, authentic, grant, now);
            var result := DecisionResult(i.decisionId, Approved, Some(target), Some(deployment), None, false);
            var p := s.tables.proposals[i.proposalId];
            && r == Ok(result) && Installs(env, s, s', content) && s'.manifests == s.manifests[m.id := m]
            && Records(s.tables, s'.tables, i, Approved, ProposalActivated, result)
            && s'.log == s.log + Noted(s, m)
                         + [About(CapabilityChangeApproved, p, i.proposalId),
                            Activation(i.snapshot, target, i.decisionId, Some(p.run), Some(p.session)),
                            About(CapabilityChangeActivated, p, i.proposalId)]
                         + if grant.value then [About(ExternalOperationGranted, p, i.proposalId)] else []
  {
    MatchesExactly(env, m, i);
    BindingExactly(s.tables, i, agent, authentic);
    TrustedContentExactly(s, i, m);
    RegistersExactly(env, s, m);
  }

  /** The id that the host is told beforehand is the digest of that content. */
  lemma AnnouncesContent(env: Env, s: State, i: Identity, m: Manifest, agent: string, authentic: bool, now: int,
                         content: Snapshot)
    requires IsApprovedManifest(env, m, i) && BoundTo(s.tables, i, agent) && WellFormed(i) && authentic
    requires Waits(s.tables, i, now) && s.active == i.snapshot && IsTrustedContent(s, i, m, content)
    ensures ProspectiveSnapshot(env, s, i, m, agent, authentic, now) == Ok(env.snapshotId(content))
  {
    MatchesExactly(env, m, i);
    BindingExactly(s.tables, i, agent, authentic);
    TrustedContentExactly(s, i, m);
  }

  /** Of a settled approval the host is told the recorded snapshot, and repeating the activation is
      answered exactly for the recorded target and deployment. */
  lemma SettledActivationAnswers(env: Env, s: State, i: Identity, m: Manifest, deployment: string, target: string,
                                 agent: string, authentic: bool, grant: Result<bool>, now: int)
    requires IsApprovedManifest(env, m, i) && BoundTo(s.tables, i, agent) && WellFormed(i) && authentic
    requires !Blank(deployment) && !s.tables.approvals[i.approvalId].status.Pending?
    requires RowShape(s.tables.approvals[i.approvalId])
    ensures var a := s.tables.approvals[i.approvalId];
            var mine := && a.status.Approved? && a.decision.decisionId == Some(i.decisionId)
                        && a.decision.payloadDigest == Some(i.payloadDigest)
                        && a.decision.decidedBy == Some(i.principal);
            && (ProspectiveSnapshot(env, s, i, m, agent, authentic, now).Ok? <==> mine && a.decision.snapshot.Some?)
            && (mine && a.decision.snapshot.Some? ==>
                  ProspectiveSnapshot(env, s, i, m, agent, authentic, now) == Ok(a.decision.snapshot.value))
            && (ActivateTrusted(env, s, i, m, deployment, target, agent, authentic, grant, now).1.Ok? <==>
                  mine && a.decision.snapshot == Some(target) && a.decision.deployment == Some(deployment))
  {
    MatchesExactly(env, m, i);
    BindingExactly(s.tables, i, agent, authentic);
    ReplayExactly(s.tables.approvals[i.approvalId], i, Approved);
  }

  // ---------------------------------------------------------------------- Harnesses

  /** The operation that enabling a harness adds. */
  function HarnessOperation(env: Env, m: Manifest, manifestId: string): Spec {
    Spec(m.operation, env.riskOf(m.operation), m.description, m.inputSchema, m.idempotent, External, manifestId)
  }

  /** The snapshot is active as the next version, stored now or found under its digest. */
  predicate Activates(env: Env, s: State, s': State, content: Snapshot, decisionId: string) {
    var id := env.snapshotId(content);
    s' == s.(active := id, version := s.version + 1, log := s.log + [Activation(s.active, id, decisionId, None, None)],
             snapshots := if id in s.snapshots then s.snapshots else s.snapshots[id := content])
  }

  /** Enabling a harness adds its one operation to the active snapshot, under the same hooks. It
      does nothing if the operation is there, and is refused if the manifest is unknown or another
      snapshot is active than expected. */
  lemma EnableInstalls(env: Env, s: State, manifestId: string, expected: string, d: string, content: Snapshot)
    requires s.active in s.snapshots
    ensures var (s', r) := EnableHarness(env, s, manifestId, expected, d);
            if manifestId !in s.manifests then s' == s && r == Err(ManifestNotFound)
            else if s.active != expected then s' == s && r == Err(SnapshotConflict)
            else
              var m, current := s.manifests[manifestId], s.snapshots[s.active];
              if m.operation in current.ops then s' == s && r == Ok(s.active)
              else
                Adds(current, content, HarnessOperation(env, m, manifestId)) && content.hooks == current.hooks ==>
                  Activates(env, s, s', content, d) && r == Ok(s'.active)
  {
    if manifestId in s.manifests && s.active == expected {
      var m, current := s.manifests[manifestId], s.snapshots[s.active];
      if Adds(current, content, HarnessOperation(env, m, manifestId)) && content.hooks == current.hooks {
        assert content.ops == EnableOps(env, current.ops, m.(id := manifestId));
      }
    }
  }

  predicate Removes(before: Snapshot, after: Snapshot, name: string) {
    && after.ops.Keys == before.ops.Keys - {name}
    && forall other <- after.ops :: after.ops[other] == before.ops[other]
  }

  /** Disabling takes exactly that operation out. */
  lemma DisableInstalls(env: Env, s: State, manifestId: string, expected: string, d: string, content: Snapshot)
    requires s.active in s.snapshots
    ensures var (s', r) := DisableHarness(env, s, manifestId, expected, d);
            if manifestId !in s.manifests then s' == s && r == Err(ManifestNotFound)
            else if s.active != expected then s' == s && r == Err(SnapshotConflict)
            else
              var m, current := s.manifests[manifestId], s.snapshots[s.active];
              if m.operation !in current.ops then s' == s && r == Ok(s.active)
              else
                Removes(current, content, m.operation) && content.hooks == current.hooks ==>
                  Activates(env, s, s', content, d) && r == Ok(s'.active)
  {
    if manifestId in s.manifests && s.active == expected {
      var m, current := s.manifests[manifestId], s.snapshots[s.active];
      if Removes(current, content, m.operation) {
        assert content.ops == Without(current.ops, m.operation);
      }
    }
  }

  // --------------------------------------------------------------------------- Boot

  predicate LegacyClock(ops: map<string, Spec>) {
    "time.now" in ops && ops["time.now"].bindingKind.Builtin? && ops["time.now"].bindingKey == "builtin.time_now"
  }

  /** What a boot makes of a snapshot: the control operation seeded, the retired one and a legacy
      clock gone, every other operation as it was, under the hooks it inherits. */
  predicate Booted(env: Env, before: Snapshot, after: Snapshot) {
    && after.ops.Keys == before.ops.Keys - {"external.coding_hcr_accept"}
                         - (if LegacyClock(before.ops) then {"time.now"} else {}) + {env.control.name}
    && after.ops[env.control.name] == env.control
    && (forall name <- after.ops | name != env.control.name :: after.ops[name] == before.ops[name])
    && Inherits(before, after)
  }

  lemma ClockRetired(env: Env, before: Snapshot)
    requires LegacyClock(before.ops) && env.control.name != LEGACY_TIME && env.control.name != RETIRED_ACCEPT
    ensures Booted(env, before, Snapshot(WithControls(env, Without(before.ops, LEGACY_TIME)),
                                         InheritedHooks(before.hooks)))
  {
  }

  lemma FirstBootContent(env: Env, first: string, s: State)
    requires Inv(env, first, s) && Addressed(env, s.snapshots) && Injective(env)
    requires env.control.name != LEGACY_TIME && env.control.name != RETIRED_ACCEPT
    ensures var s1 := BootFirst(env, s);
            && s1.active in s1.snapshots && s1.manifests == s.manifests && s1.tables == s.tables
            && var before, after := s.snapshots[s.active], s1.snapshots[s1.active];
            && Inherits(before, after)
            && if LegacyClock(before.ops) then Booted(env, before, after) && s1.version == s.version + 1
               else after.ops == before.ops && s.version <= s1.version <= s.version + 1
  {
    var current := s.snapshots[s.active];
    if HasLegacyTime(current.ops) {
      ClockRetired(env, current);
      StoredUnderOwnId(env, first, s, Snapshot(WithControls(env, Without(current.ops, LEGACY_TIME)),
                                               InheritedHooks(current.hooks)),
                       "retire_builtin_time:" + s.active);
    } else if current.hooks == map[] {
      StoredUnderOwnId(env, first, s, current.(hooks := BuiltinHooks), "hook_bindings_backfill:" + s.active);
      assert BUDGET_CONTRACT in BuiltinHooks;
    }
  }

  lemma SecondBootContent(env: Env, first: string, s: State)
    requires Inv(env, first, s) && Addressed(env, s.snapshots) && Injective(env)
    requires env.control.name != LEGACY_TIME && env.control.name != RETIRED_ACCEPT
    requires !LegacyClock(s.snapshots[s.active].ops) && s.snapshots[s.active].hooks != map[]
    ensures var s' := BootSecond(env, s);
            && s'.active in s'.snapshots && Booted(env, s.snapshots[s.active], s'.snapshots[s'.active])
            && (s' == s || s'.version == s.version + 1) && s'.manifests == s.manifests && s'.tables == s.tables
            && (HasControls(env, s.snapshots[s.active].ops) ==> s' == s)
  {
    var current := s.snapshots[s.active];
    if !HasControls(env, current.ops) {
      StoredUnderOwnId(env, first, s, current.(ops := WithControls(env, current.ops)),
                       "seed_coding_controls:" + s.active);
    }
  }

  /** A boot makes exactly that of the active snapshot, in at most two versions, and touches neither
      manifests nor decisions. */
  lemma BootInstalls(env: Env, first: string, s: State)
    requires Inv(env, first, s) && Addressed(env, s.snapshots) && Injective(env)
    requires env.control.name != LEGACY_TIME && env.control.name != RETIRED_ACCEPT
    ensures var s' := Boot(env, s);
            && s'.active in s'.snapshots && Booted(env, s.snapshots[s.active], s'.snapshots[s'.active])
            && s.version <= s'.version <= s.version + 2 && s'.manifests == s.manifests && s'.tables == s.tables
  {
    var s1 := BootFirst(env, s);
    FirstBoot(env, first, s);
    FirstBootContent(env, first, s);
    SecondBootContent(env, first, s1);
    BootedTwice(env, s.snapshots[s.active], s1.snapshots[s1.active], Boot(env, s).snapshots[Boot(env, s).active]);
  }

  lemma BootedTwice(env: Env, before: Snapshot, mid: Snapshot, after: Snapshot)
    requires Inherits(before, mid) && Booted(env, mid, after) && mid.hooks != map[] && !LegacyClock(mid.ops)
    requires if LegacyClock(before.ops) then Booted(env, before, mid) else mid.ops == before.ops
    requires env.control.name != "time.now" && env.control.name != "external.coding_hcr_accept"
    ensures Booted(env, before, after)
  {
    if LegacyClock(before.ops) {
      assert after.ops.Keys == mid.ops.Keys;
    }
  }

  // ----------------------------------------------------------------------- Proposals

  predicate Named(ops: seq<Spec>, name: string) {
    exists k | 0 <= k < |ops| :: ops[k].name == name
  }

  lemma NamedRest(ops: seq<Spec>, name: string)
    requires ops != []
    ensures Named(ops, name) <==> name == ops[0].name || Named(ops[1..], name)
  {
    if k :| 0 <= k < |ops[1..]| && ops[1..][k].name == name { assert ops[k + 1].name == name; }
    if k :| 0 < k < |ops| && ops[k].name == name { assert ops[1..][k - 1].name == name; }
  }

  lemma {:induction false} InsertedSpec(before: map<string, Spec>, ops: seq<Spec>, name: string)
    requires DistinctNames(ops)
    ensures var after := InsertSpecs(before, ops);
            && (name in after <==> name in before || Named(ops, name))
            && (name in before && !Named(ops, name) ==> after[name] == before[name])
            && forall k | 0 <= k < |ops| && ops[k].name == name :: after[name] == ops[k]
    decreases |ops|
  {
    if ops != [] {
      var rest := ops[1..];
      assert forall k | 0 <= k < |rest| :: rest[k] == ops[k + 1];
      InsertedSpec(before[ops[0].name := ops[0]], rest, name);
      NamedRest(ops, name);
    }
  }

  /** Exactly the listed operations, each under its own name. */
  predicate Lists(content: Snapshot, ops: seq<Spec>) {
    && (forall name <- content.ops :: Named(ops, name))
    && (forall k | 0 <= k < |ops| :: ops[k].name in content.ops && content.ops[ops[k].name] == ops[k])
  }

  /** The proposal waits, has not expired and is for this agent. */
  predicate ProposalWaits(t: Tables, proposalId: string, agent: string, now: int) {
    && proposalId in t.proposals && t.proposals[proposalId].status.PendingApproval?
    && now < t.proposals[proposalId].expiresAt && t.proposals[proposalId].agent == agent
  }

  /** The proposal alone is marked activated, and the log says so after the activation. */
  predicate Concludes(s: State, s': State, noted: seq<Event>, proposalId: string, previous: string, decisionId: string)
    requires proposalId in s.tables.proposals
  {
    var p := s.tables.proposals[proposalId];
    && s'.tables == Tables(s.tables.approvals, s.tables.proposals[proposalId := p.(status := ProposalActivated)])
    && s'.log == s.log + noted + [Activation(previous, s'.active, decisionId, Some(p.run), Some(p.session)),
                                  About(CapabilityChangeActivated, p, proposalId)]
  }

  /** Activating a proposal commits exactly when it waits, the expected snapshot is active, the
      listed names are distinct, and its manifest and the content are new; it then installs the
      listed operations and no others, under the hooks of the active snapshot. */
  lemma ProposalInstalls(env: Env, s: State, proposalId: string, ops: seq<Spec>, expected: string, decisionId: string,
                         manifest: Option<Manifest>, agent: string, now: int, content: Snapshot)
    requires s.active in s.snapshots && Lists(content, ops) && Inherits(s.snapshots[s.active], content)
    ensures var (s', r) := ActivateProposal(env, s, proposalId, ops, expected, decisionId, manifest, agent, now);
            && (r.Ok? <==>
                  && ProposalWaits(s.tables, proposalId, agent, now) && s.active == expected && DistinctNames(ops)
                  && (manifest.Some? ==> Registrable(env, s, manifest.value))
                  && env.snapshotId(content) !in s.snapshots)
            && (r.Err? ==> s' == s)
            && (r.Ok? ==>
                  && r == Ok(s'.active) && Installs(env, s, s', content)
                  && s'.manifests == (if manifest.Some? then s.manifests[manifest.value.id := manifest.value]
                                      else s.manifests)
                  && Concludes(s, s', if manifest.Some? then Noted(s, manifest.value) else [],
                               proposalId, expected, decisionId))
  {
    if manifest.Some? { RegistersExactly(env, s, manifest.value); }
    if DistinctNames(ops) { ListedContent(content, ops); }
    assert s.log + [] == s.log;
  }

  lemma ListedContent(content: Snapshot, ops: seq<Spec>)
    requires DistinctNames(ops) && Lists(content, ops)
    ensures content.ops == InsertSpecs(map[], ops)
  {
    var all := InsertSpecs(map[], ops);
    forall name ensures name in content.ops <==> name in all
      ensures name in all && name in content.ops ==> all[name] == content.ops[name]
    {
      InsertedSpec(map[], ops, name);
    }
  }

  /** An upgrade replaces the one operation by the manifest's, which keeps its risk, and leaves every
      other operation and the hooks alone. */
  lemma UpgradeInstalls(env: Env, s: State, proposalId: string, decisionId: string, m: Manifest, agent: string,
                        now: int, content: Snapshot)
    requires s.active in s.snapshots && m.operation in s.snapshots[s.active].ops
    requires var current := s.snapshots[s.active];
             && Adds(current, content, Spec(m.operation, current.ops[m.operation].risk, m.description, m.inputSchema,
                                            m.idempotent, External, m.id))
             && Inherits(current, content)
    ensures var (s', r) := SchemaUpgrade(env, s, proposalId, decisionId, m, agent, now);
            && (r.Ok? <==>
                  && ProposalWaits(s.tables, proposalId, agent, now)
                  && Upgradable(s, s.tables.proposals[proposalId], m.operation)
                  && RegisterReplacement(env, s, m).Ok? && env.snapshotId(content) !in s.snapshots)
            && (r.Err? ==> s' == s)
            && (r.Ok? ==>
                  && r == Ok(s'.active) && Installs(env, s, s', content)
                  && s'.manifests == (if m.id in s.manifests then s.manifests else s.manifests[m.id := m])
                  && Concludes(s, s', Noted(s, m), proposalId, s.active, decisionId))
  {
    var current := s.snapshots[s.active];
    ReplacesExactly(env, s, m);
    assert content.ops == current.ops[m.operation := content.ops[m.operation]];
    assert s.log + [] == s.log;
  }

  // ----------------------------------------------------------- Settled in whole runs

  /** The step settles the approval by right: a decision by the identity it is bound to before it
      expires, or its expiry after that. What service activations do is proved in their own runs. */
  predicate SettlesByRight(t: Tables, step: Step, id: string)
    requires id in t.approvals
  {
    match step
    case TrustedStep(i, _, _, _, agent, authentic, _, now) =>
      i.approvalId == id && MayDecide(t, i, agent, authentic, now)
    case FinishStep(i, agent, authentic, _, _, now) => i.approvalId == id && MayDecide(t, i, agent, authentic, now)
    case ExpireStep(approvalId, _, now) => approvalId == id && now >= t.approvals[id].terms.expiresAt
    case OtherDecisionStep(_, _) => true
    case _ => false
  }

  lemma TrustedSettlesByRight(env: Env, s: State, i: Identity, m: Manifest, deployment: string, target: string,
                              agent: string, authentic: bool, grant: Result<bool>, now: int, id: string)
    requires var t' := ActivateTrusted(env, s, i, m, deployment, target, agent, authentic, grant, now).0.tables;
             id in s.tables.approvals && id in t'.approvals && t'.approvals[id] != s.tables.approvals[id]
    ensures i.approvalId == id && MayDecide(s.tables, i, agent, authentic, now)
  {
    var (s', r) := ActivateTrusted(env, s, i, m, deployment, target, agent, authentic, grant, now);
    assert r.Ok? && !r.value.replayed;
    TrustedCommitsExactly(env, s, i, m, deployment, target, agent, authentic, grant, now);
    OperationHistory.TrustedCommit(env, s, i, m, deployment, target, agent, authentic, grant, now);
  }

  lemma OtherStepsSettleNothing(env: Env, s: State, step: Step, id: string)
    requires s.active in s.snapshots && id in s.tables.approvals && OperationHistory.Enabled(s, step)
    requires !step.TrustedStep? && !step.FinishStep? && !step.ExpireStep? && !step.OtherDecisionStep?
    requires id in Apply(env, s, step).tables.approvals
    ensures Apply(env, s, step).tables.approvals[id] == s.tables.approvals[id]
  {
    if step.BootStep? { OperationDecisions.BootKeepsTables(env, s); }
  }

  lemma StepSettlesByRight(env: Env, first: string, s: State, step: Step, id: string)
    requires Inv(env, first, s) && OperationHistory.Enabled(s, step) && id in s.tables.approvals
    requires id in Apply(env, s, step).tables.approvals
    requires s.tables.approvals[id].status.Pending? && !Apply(env, s, step).tables.approvals[id].status.Pending?
    ensures SettlesByRight(s.tables, step, id)
  {
    match step
    case TrustedStep(i, m, deployment, target, agent, authentic, grant, now) =>
      TrustedSettlesByRight(env, s, i, m, deployment, target, agent, authentic, grant, now, id);
    case FinishStep(i, agent, authentic, terminal, error, now) =>
      FinishSettlesByRight(s.tables, i, agent, authentic, terminal, error, now, id);
    case ExpireStep(approvalId, agent, now) => ExpirySettlesByRight(s.tables, approvalId, agent, now, id);
    case OtherDecisionStep(_, _) =>
    case _ => OtherStepsSettleNothing(env, s, step, id);
  }

  /** In every run, whatever settled an approval did so by right, and the row it wrote is the row
      that stays. */
  lemma {:induction false} SettledByRight(env: Env, baseline: map<string, Spec>, steps: seq<Step>, states: seq<State>,
                                          n: nat, id: string)
    requires IsRun(env, baseline, steps, states) && n <= |steps|
    requires id in states[n].tables.approvals && !states[n].tables.approvals[id].status.Pending?
    ensures exists k | 0 <= k < n ::
              && id in states[k].tables.approvals && states[k].tables.approvals[id].status.Pending?
              && SettlesByRight(states[k].tables, steps[k], id)
              && id in states[k + 1].tables.approvals
              && states[k + 1].tables.approvals[id] == states[n].tables.approvals[id]
  {
    assert n > 0;
    var before, after := states[n - 1].tables, states[n].tables;
    OperationDecisions.RunShifts(env, baseline, steps, states, n - 1);
    KnownBefore(before, after, id);
    if before.approvals[id].status.Pending? {
      RunInvariant(env, baseline, steps, states, n - 1);
      assert TakesStep(env, steps, states, n - 1);
      StepSettlesByRight(env, OperationRegistry.Init(env, baseline).active, states[n - 1], steps[n - 1], id);
    } else {
      SettledByRight(env, baseline, steps, states, n - 1, id);
      ShiftsFreezes(before, after, id);
    }
  }
}
