/** Whole histories of the operation registry: the log replays to the live registry whatever
    mix of the five activation paths moved it. */
module OperationHistory {
  import opened Journal
  import opened Approvals
  import opened OperationRegistry
  import opened Replaying

  // -------------------------------------------------------------- Invariant

  /** Snapshots are stored under the digest of their own content. */
  ghost predicate Addressed(env: Env, snapshots: map<string, Snapshot>) {
    forall id <- snapshots :: env.snapshotId(snapshots[id]) == id
  }

  ghost predicate Inv(env: Env, first: string, s: State) {
    && Unbroken(OperationSnapshots, first, s.log)
    && Replay(OperationSnapshots, first, s.log) == Live(s.active, s.version)
    && s.active in s.snapshots
  }

  /** Stored snapshots never change and the log only grows. */
  ghost predicate Persists(s: State, s': State) {
    && s.log <= s'.log
    && forall id <- s.snapshots :: id in s'.snapshots && s'.snapshots[id] == s.snapshots[id]
  }

  /** And what is added is stored under the digest of its own content. */
  ghost predicate Grows(env: Env, s: State, s': State) {
    Persists(s, s') && forall id <- s'.snapshots :: id in s.snapshots || env.snapshotId(s'.snapshots[id]) == id
  }

  /** A transaction that activates nothing. */
  lemma QuietStep(env: Env, first: string, s: State, s': State, more: seq<Event>)
    requires Inv(env, first, s)
    requires s'.log == s.log + more && Quiet(OperationSnapshots, more)
    requires s'.active == s.active && s'.version == s.version
    requires Persists(s, s')
    ensures Inv(env, first, s')
  {
    QuietTail(OperationSnapshots, first, s.log, more);
  }

  /** A transaction that activates once. */
  lemma ActivatingStep(env: Env, first: string, s: State, s': State, before: seq<Event>, e: Event, after: seq<Event>)
    requires Inv(env, first, s)
    requires s'.log == s.log + before + [e] + after && Quiet(OperationSnapshots, before)
    requires Quiet(OperationSnapshots, after)
    requires e.kind.RegistrySnapshotActivated?
    requires e.payload.previousSnapshot == Some(s.active) && e.payload.newSnapshot == Some(s'.active)
    requires s'.version == s.version + 1
    requires s'.active in s'.snapshots
    ensures Inv(env, first, s')
  {
    OneMove(OperationSnapshots, first, s.log, before, e, after);
  }

  // --------------------------------------------------------- Each transaction

  lemma CreateAndActivate(env: Env, first: string, s: State, content: Snapshot, expected: string, decisionId: string)
    requires Inv(env, first, s)
    ensures var (s1, id) := CreateSnapshot(env, s, content);
            var (s', r) := ActivateSnapshot(s1, expected, id, decisionId);
            && Inv(env, first, s') && Grows(env, s, s')
            && (r.Ok? <==> s.active == expected)
            && (r.Ok? ==> s'.active == id && s'.version == s.version + 1
                          && s'.log == s.log + [ActivationEvent(s.active, id, decisionId, None, None)])
            && (r.Err? ==> s'.active == s.active && s'.version == s.version && s'.log == s.log)
            && s'.snapshots == s1.snapshots && s'.manifests == s.manifests && s'.tables == s.tables
  {
    var (s1, id) := CreateSnapshot(env, s, content);
    CreateKeeps(env, first, s, content);
    ActivateKeeps(env, first, s1, expected, id, decisionId);
  }

  lemma CreateKeeps(env: Env, first: string, s: State, content: Snapshot)
    requires Inv(env, first, s)
    ensures var s' := CreateSnapshot(env, s, content).0; Inv(env, first, s') && Grows(env, s, s')
  {
    assert s.log == s.log + [];
    QuietStep(env, first, s, CreateSnapshot(env, s, content).0, []);
  }

  lemma InterruptedCreateKeeps(env: Env, first: string, s: State, content: Snapshot, partial: Snapshot)
    requires Inv(env, first, s)
    ensures var s' := InterruptedCreate(env, s, content, partial); Inv(env, first, s') && Persists(s, s')
  {
    assert s.log == s.log + [];
    QuietStep(env, first, s, InterruptedCreate(env, s, content, partial), []);
  }

  lemma ActivateKeeps(env: Env, first: string, s: State, expected: string, id: string, decisionId: string)
    requires Inv(env, first, s) && id in s.snapshots
    ensures var s' := ActivateSnapshot(s, expected, id, decisionId).0; Inv(env, first, s') && Grows(env, s, s')
  {
    if s.active == expected {
      var s' := ActivateSnapshot(s, expected, id, decisionId).0;
      var e := ActivationEvent(expected, id, decisionId, None, None);
      assert s'.log == s.log + [] + [e] + [];
      ActivatingStep(env, first, s, s', [], e, []);
    }
  }

  lemma HarnessKeeps(env: Env, first: string, s: State, manifestId: string, expected: string, decisionId: string)
    requires Inv(env, first, s)
    ensures var s' := EnableHarness(env, s, manifestId, expected, decisionId).0;
            Inv(env, first, s') && Grows(env, s, s')
    ensures var s' := DisableHarness(env, s, manifestId, expected, decisionId).0;
            Inv(env, first, s') && Grows(env, s, s')
  {
    if manifestId in s.manifests && s.active == expected {
      var m, current := s.manifests[manifestId], s.snapshots[s.active];
      CreateAndActivate(env, first, s, current.(ops := EnableOps(env, current.ops, m.(id := manifestId))), expected,
                        decisionId);
      CreateAndActivate(env, first, s, current.(ops := Without(current.ops, m.operation)), expected, decisionId);
    }
  }

  lemma FirstBootKeeps(env: Env, first: string, s: State)
    requires Inv(env, first, s)
    ensures Inv(env, first, BootFirst(env, s)) && Grows(env, s, BootFirst(env, s))
  {
    var current := s.snapshots[s.active];
    CreateAndActivate(env, first, s, Snapshot(WithControls(env, Without(current.ops, LEGACY_TIME)),
                                              InheritedHooks(current.hooks)),
                      s.active, "retire_builtin_time:" + s.active);
    CreateAndActivate(env, first, s, current.(hooks := BuiltinHooks), s.active, "hook_bindings_backfill:" + s.active);
  }

  lemma SecondBootKeeps(env: Env, first: string, s: State)
    requires Inv(env, first, s)
    ensures Inv(env, first, BootSecond(env, s)) && Grows(env, s, BootSecond(env, s))
  {
    var current := s.snapshots[s.active];
    CreateAndActivate(env, first, s, current.(ops := WithControls(env, current.ops)), s.active,
                      "seed_coding_controls:" + s.active);
  }

  lemma BootKeeps(env: Env, first: string, s: State)
    requires Inv(env, first, s)
    ensures Inv(env, first, BootFirst(env, s)) && Grows(env, s, BootFirst(env, s))
    ensures Inv(env, first, Boot(env, s)) && Grows(env, s, Boot(env, s))
  {
    FirstBootKeeps(env, first, s);
    SecondBootKeeps(env, first, BootFirst(env, s));
  }

  /** Registering a manifest appends at most its own event and touches nothing else. */
  lemma RegistrationIsQuiet(env: Env, s: State, m: Manifest)
    ensures var r := RegisterManifest(env, s, m); r.Ok? ==> Registered(s, r.value)
    ensures var r := RegisterReplacement(env, s, m); r.Ok? ==> Registered(s, r.value)
  {
    assert s.log + [] == s.log;
  }

  ghost predicate Registered(s: State, s': State) {
    && s' == s.(log := s'.log, manifests := s'.manifests)
    && exists more :: Quiet(OperationSnapshots, more) && s'.log == s.log + more
  }

  lemma ActivationCommits(env: Env, first: string, s: State, s1: State, content: Snapshot, s': State, previous: string,
                          decisionId: string, run: Option<string>, session: Option<string>,
                          before: seq<Event>, after: seq<Event>)
    requires Inv(env, first, s) && Registered(s, s1)
    requires ActivateContent(env, s1, content).Ok? && previous == s.active
    requires var s2 := ActivateContent(env, s1, content).value;
             && s' == s2.(log := s'.log, tables := s'.tables)
             && s'.log == s2.log + before + [ActivationEvent(previous, s2.active, decisionId, run, session)] + after
    requires Quiet(OperationSnapshots, before) && Quiet(OperationSnapshots, after)
    ensures Inv(env, first, s') && Grows(env, s, s')
  {
    var more :| Quiet(OperationSnapshots, more) && s1.log == s.log + more;
    var e := ActivationEvent(previous, s'.active, decisionId, run, session);
    assert s'.log == s.log + (more + before) + [e] + after;
    assert Quiet(OperationSnapshots, more + before);
    ActivatingStep(env, first, s, s', more + before, e, after);
  }

  lemma ProposalKeeps(env: Env, first: string, s: State, proposalId: string, ops: seq<Spec>, expected: string,
                      decisionId: string, manifest: Option<Manifest>, agent: string, now: int)
    requires Inv(env, first, s)
    ensures var s' := ActivateProposal(env, s, proposalId, ops, expected, decisionId, manifest, agent, now).0;
            Inv(env, first, s') && Grows(env, s, s')
  {
    var (s', r) := ActivateProposal(env, s, proposalId, ops, expected, decisionId, manifest, agent, now);
    if r.Ok? {
      var s1 := if manifest.Some? then RegisterManifest(env, s, manifest.value).value else s;
      if manifest.Some? { RegistrationIsQuiet(env, s, manifest.value); }
      assert Registered(s, s1) by { assert s.log + [] == s.log; assert Quiet(OperationSnapshots, []); }
      var p := s1.tables.proposals[proposalId];
      var content := Snapshot(InsertSpecs(map[], ops), InheritedHooks(s1.snapshots[s1.active].hooks));
      var after := [ProposalEvent(CapabilityChangeActivated, p, proposalId)];
      var s2 := ActivateContent(env, s1, content).value;
      var e := ActivationEvent(expected, s2.active, decisionId, Some(p.run), Some(p.session));
      assert s'.log == s2.log + [] + [e] + after;
      ActivationCommits(env, first, s, s1, content, s', expected, decisionId, Some(p.run), Some(p.session), [], after);
    }
  }

  lemma UpgradeKeeps(env: Env, first: string, s: State, proposalId: string, decisionId: string, m: Manifest,
                     agent: string, now: int)
    requires Inv(env, first, s)
    ensures var s' := SchemaUpgrade(env, s, proposalId, decisionId, m, agent, now).0;
            Inv(env, first, s') && Grows(env, s, s')
  {
    var (s', r) := SchemaUpgrade(env, s, proposalId, decisionId, m, agent, now);
    if r.Ok? {
      RegistrationIsQuiet(env, s, m);
      var s1 := RegisterReplacement(env, s, m).value;
      var p := s.tables.proposals[proposalId];
      var content := UpgradeContent(s.snapshots[s.active], UpgradeTarget(s, p, m).value, m);
      var after := [ProposalEvent(CapabilityChangeActivated, p, proposalId)];
      var s2 := ActivateContent(env, s1, content).value;
      var e := ActivationEvent(s.active, s2.active, decisionId, Some(p.run), Some(p.session));
      assert s'.log == s2.log + [] + [e] + after;
      ActivationCommits(env, first, s, s1, content, s', s.active, decisionId, Some(p.run), Some(p.session), [], after);
    }
  }

  /** What a committing trusted activation did, in terms of the state it met. */
  lemma TrustedCommit(env: Env, s: State, i: Identity, m: Manifest, deployment: string, target: string,
                      agent: string, authentic: bool, grant: Result<bool>, now: int)
    requires var (s', r) := ActivateTrusted(env, s, i, m, deployment, target, agent, authentic, grant, now);
             r.Ok? && !r.value.replayed
    ensures var (s', r) := ActivateTrusted(env, s, i, m, deployment, target, agent, authentic, grant, now);
            && s.active == i.snapshot && i.snapshot in s.snapshots
            && LoadValidatedBinding(s.tables, i, agent, authentic).Ok?
            && TrustedContent(s, i, m).Ok? && env.snapshotId(TrustedContent(s, i, m).value) == target == s'.active
            && RegisterManifest(env, s, m).Ok?
            && ActivateContent(env, RegisterManifest(env, s, m).value, TrustedContent(s, i, m).value).Ok?
            && Settles(s.tables, s'.tables, i.approvalId)
            && r.value == DecisionResult(i.decisionId, Approved, Some(target), Some(deployment), None, false)
            && s'.tables.approvals[i.approvalId].decision.result == Some(r.value)
  {
    var (s', r) := ActivateTrusted(env, s, i, m, deployment, target, agent, authentic, grant, now);
    var result := DecisionResult(i.decisionId, Approved, Some(target), Some(deployment), None, false);
    PersistTerminalSettles(s.tables, i, Approved, result);
  }

  lemma TrustedLog(env: Env, s: State, i: Identity, m: Manifest, deployment: string, target: string,
                   agent: string, authentic: bool, grant: Result<bool>, now: int)
    requires var r := ActivateTrusted(env, s, i, m, deployment, target, agent, authentic, grant, now).1;
             r.Ok? && !r.value.replayed
    requires RegisterManifest(env, s, m).Ok? && TrustedContent(s, i, m).Ok? && i.proposalId in s.tables.proposals
    requires ActivateContent(env, RegisterManifest(env, s, m).value, TrustedContent(s, i, m).value).Ok?
    ensures var s' := ActivateTrusted(env, s, i, m, deployment, target, agent, authentic, grant, now).0;
            var s2 := ActivateContent(env, RegisterManifest(env, s, m).value, TrustedContent(s, i, m).value).value;
            && grant.Ok?
            && s' == s2.(tables := s'.tables,
                         log := s2.log + TrustedEvents(s.tables.proposals[i.proposalId], i, s2.active, grant.value))
  {
  }

  lemma TrustedKeeps(env: Env, first: string, s: State, i: Identity, m: Manifest, deployment: string, target: string,
                     agent: string, authentic: bool, grant: Result<bool>, now: int)
    requires Inv(env, first, s)
    ensures var s' := ActivateTrusted(env, s, i, m, deployment, target, agent, authentic, grant, now).0;
            Inv(env, first, s') && Grows(env, s, s') && Evolves(s.tables, s'.tables)
  {
    var (s', r) := ActivateTrusted(env, s, i, m, deployment, target, agent, authentic, grant, now);
    if r.Ok? && !r.value.replayed {
      TrustedCommit(env, s, i, m, deployment, target, agent, authentic, grant, now);
      RegistrationIsQuiet(env, s, m);
      TrustedLog(env, s, i, m, deployment, target, agent, authentic, grant, now);
      TrustedMoves(env, first, s, RegisterManifest(env, s, m).value, s', i, TrustedContent(s, i, m).value,
                   s.tables.proposals[i.proposalId], grant.value);
    } else {
      assert s' == s;
    }
  }

  lemma TrustedMoves(env: Env, first: string, s: State, s1: State, s': State, i: Identity, content: Snapshot,
                     p: Proposal, granted: bool)
    requires Inv(env, first, s) && Registered(s, s1) && s.active == i.snapshot && ActivateContent(env, s1, content).Ok?
    requires var s2 := ActivateContent(env, s1, content).value;
             s' == s2.(tables := s'.tables, log := s2.log + TrustedEvents(p, i, s2.active, granted))
    ensures Inv(env, first, s') && Grows(env, s, s')
  {
    var s2 := ActivateContent(env, s1, content).value;
    var before := [ProposalEvent(CapabilityChangeApproved, p, i.proposalId)];
    var after := [ProposalEvent(CapabilityChangeActivated, p, i.proposalId)]
                 + (if granted then [ProposalEvent(ExternalOperationGranted, p, i.proposalId)] else []);
    var e := ActivationEvent(i.snapshot, s2.active, i.decisionId, Some(p.run), Some(p.session));
    assert TrustedEvents(p, i, s2.active, granted) == before + [e] + after;
    assert s'.log == s2.log + before + [e] + after;
    ActivationCommits(env, first, s, s1, content, s', i.snapshot, i.decisionId, Some(p.run), Some(p.session), before,
                      after);
  }

  // -------------------------------------------------------------------- Runs

  datatype Step =
    | BootStep
    | EnableStep(manifestId: string, expected: string, decisionId: string)
    | DisableStep(manifestId: string, expected: string, decisionId: string)
    | ProposalStep(proposalId: string, ops: seq<Spec>, expected: string, decisionId: string,
                   manifest: Option<Manifest>, agent: string, now: int)
    | UpgradeStep(proposalId: string, decisionId: string, m: Manifest, agent: string, now: int)
    | TrustedStep(i: Identity, m: Manifest, deployment: string, target: string, agent: string, authentic: bool,
                  grant: Result<bool>, now: int)
    | FinishStep(i: Identity, agent: string, authentic: bool, terminal: ApprovalStatus, error: Option<string>, now: int)
    | ExpireStep(approvalId: string, agent: string, now: int)
    | SubmitStep(approvalId: string, terms: Terms, p: Proposal)
    | ManifestStep(m: Manifest)
    | CreateStep(content: Snapshot)
    | InterruptedCreateStep(content: Snapshot, partial: Snapshot)
    | ActivateStep(expected: string, next: string, decisionId: string)
    | OtherDecisionStep(tables: Tables, more: seq<Event>)
    | OtherAppendStep(e: Event)

  /** Creating and activating a snapshot are separate commits of enabling, disabling and booting,
      so both are steps of their own, and creation may stop half-way. The approval and proposal
      tables are shared: service activations and direct decisions change them as well. */
  ghost predicate Enabled(s: State, step: Step) {
    match step
    case FinishStep(_, _, _, terminal, _, _) => terminal.Rejected? || terminal.ActivationFailed?
    case InterruptedCreateStep(content, partial) => PartOf(partial, content)
    case OtherDecisionStep(tables, more) => Shifts(s.tables, tables) && Quiet(OperationSnapshots, more)
    case OtherAppendStep(e) => !e.kind.RegistrySnapshotActivated?
    case _ => true
  }

  function Apply(env: Env, s: State, step: Step): State
    requires step.FinishStep? ==> step.terminal.Rejected? || step.terminal.ActivationFailed?
  {
    match step
    case BootStep => if s.active in s.snapshots then Boot(env, s) else s
    case EnableStep(manifestId, expected, decisionId) => EnableHarness(env, s, manifestId, expected, decisionId).0
    case DisableStep(manifestId, expected, decisionId) => DisableHarness(env, s, manifestId, expected, decisionId).0
    case ProposalStep(proposalId, ops, expected, decisionId, manifest, agent, now) =>
      ActivateProposal(env, s, proposalId, ops, expected, decisionId, manifest, agent, now).0
    case UpgradeStep(proposalId, decisionId, m, agent, now) =>
      SchemaUpgrade(env, s, proposalId, decisionId, m, agent, now).0
    case TrustedStep(i, m, deployment, target, agent, authentic, grant, now) =>
      ActivateTrusted(env, s, i, m, deployment, target, agent, authentic, grant, now).0
    case FinishStep(i, agent, authentic, terminal, error, now) =>
      var o := FinishWithoutActivation(s.tables, i, agent, authentic, terminal, error, now);
      s.(tables := o.tables, log := s.log + o.events)
    case ExpireStep(approvalId, agent, now) =>
      var (tables, events, _) := Approvals.Expire(s.tables, approvalId, agent, now);
      s.(tables := tables, log := s.log + events)
    case SubmitStep(approvalId, terms, p) =>
      var r := Submit(s.tables, approvalId, terms, p);
      if r.Ok? then s.(tables := r.value) else s
    case ManifestStep(m) => var r := RegisterManifest(env, s, m); if r.Ok? then r.value else s
    case CreateStep(content) => CreateSnapshot(env, s, content).0
    case InterruptedCreateStep(content, partial) => InterruptedCreate(env, s, content, partial)
    case ActivateStep(expected, next, decisionId) => ActivateSnapshot(s, expected, next, decisionId).0
    case OtherDecisionStep(tables, more) => s.(tables := tables, log := s.log + more)
    case OtherAppendStep(e) => s.(log := s.log + [e])
  }

  lemma FinishIsQuiet(t: Tables, i: Identity, agent: string, authentic: bool, terminal: ApprovalStatus,
                      error: Option<string>, now: int)
    requires terminal.Rejected? || terminal.ActivationFailed?
    ensures Quiet(OperationSnapshots, FinishWithoutActivation(t, i, agent, authentic, terminal, error, now).events)
  {
  }

  lemma ManifestKeeps(env: Env, first: string, s: State, m: Manifest)
    requires Inv(env, first, s)
    ensures var s' := Apply(env, s, ManifestStep(m)); Inv(env, first, s') && Grows(env, s, s')
  {
    RegistrationIsQuiet(env, s, m);
    var r := RegisterManifest(env, s, m);
    if r.Ok? {
      var more :| Quiet(OperationSnapshots, more) && r.value.log == s.log + more;
      QuietStep(env, first, s, r.value, more);
    }
  }

  lemma StepKeeps(env: Env, first: string, s: State, step: Step)
    requires Inv(env, first, s) && Enabled(s, step)
    ensures Inv(env, first, Apply(env, s, step)) && Persists(s, Apply(env, s, step))
    ensures !step.InterruptedCreateStep? ==> Grows(env, s, Apply(env, s, step))
  {
    match step
    case BootStep => BootKeeps(env, first, s);
    case EnableStep(manifestId, expected, decisionId) => HarnessKeeps(env, first, s, manifestId, expected, decisionId);
    case DisableStep(manifestId, expected, decisionId) => HarnessKeeps(env, first, s, manifestId, expected, decisionId);
    case ProposalStep(proposalId, ops, expected, decisionId, manifest, agent, now) =>
      ProposalKeeps(env, first, s, proposalId, ops, expected, decisionId, manifest, agent, now);
    case UpgradeStep(proposalId, decisionId, m, agent, now) =>
      UpgradeKeeps(env, first, s, proposalId, decisionId, m, agent, now);
    case TrustedStep(i, m, deployment, target, agent, authentic, grant, now) =>
      TrustedKeeps(env, first, s, i, m, deployment, target, agent, authentic, grant, now);
    case FinishStep(i, agent, authentic, terminal, error, now) =>
      FinishIsQuiet(s.tables, i, agent, authentic, terminal, error, now);
      var o := FinishWithoutActivation(s.tables, i, agent, authentic, terminal, error, now);
      QuietStep(env, first, s, s.(tables := o.tables, log := s.log + o.events), o.events);
    case ExpireStep(approvalId, agent, now) =>
      var (tables, events, _) := Approvals.Expire(s.tables, approvalId, agent, now);
      QuietStep(env, first, s, s.(tables := tables, log := s.log + events), events);
    case SubmitStep(approvalId, terms, p) => QuietStep(env, first, s, Apply(env, s, step), []);
    case ManifestStep(m) => ManifestKeeps(env, first, s, m);
    case CreateStep(content) => CreateKeeps(env, first, s, content);
    case InterruptedCreateStep(content, partial) => InterruptedCreateKeeps(env, first, s, content, partial);
    case ActivateStep(expected, next, decisionId) =>
      if next in s.snapshots { ActivateKeeps(env, first, s, expected, next, decisionId); }
    case OtherDecisionStep(_, more) => QuietStep(env, first, s, Apply(env, s, step), more);
    case OtherAppendStep(e) => QuietStep(env, first, s, Apply(env, s, step), [e]);
  }

  ghost predicate IsRun(env: Env, baseline: map<string, Spec>, steps: seq<Step>, states: seq<State>) {
    && |states| == |steps| + 1
    && states[0] == Init(env, baseline)
    && forall k | 0 <= k < |steps| :: TakesStep(env, steps, states, k)
  }

  ghost predicate TakesStep(env: Env, steps: seq<Step>, states: seq<State>, k: nat)
    requires |states| == |steps| + 1 && k < |steps|
  {
    Enabled(states[k], steps[k]) && states[k + 1] == Apply(env, states[k], steps[k])
  }

  lemma {:induction false} RunInvariant(env: Env, baseline: map<string, Spec>, steps: seq<Step>, states: seq<State>,
                                        n: nat)
    requires IsRun(env, baseline, steps, states) && n <= |steps|
    ensures Inv(env, Init(env, baseline).active, states[n])
  {
    if n > 0 {
      RunInvariant(env, baseline, steps, states, n - 1);
      assert TakesStep(env, steps, states, n - 1);
      StepKeeps(env, Init(env, baseline).active, states[n - 1], steps[n - 1]);
    }
  }

  lemma {:induction false} RunPersists(env: Env, baseline: map<string, Spec>, steps: seq<Step>, states: seq<State>,
                                       m: nat, n: nat)
    requires IsRun(env, baseline, steps, states) && m <= n <= |steps|
    ensures Persists(states[m], states[n])
  {
    if m < n {
      RunPersists(env, baseline, steps, states, m, n - 1);
      RunInvariant(env, baseline, steps, states, n - 1);
      assert TakesStep(env, steps, states, n - 1);
      StepKeeps(env, Init(env, baseline).active, states[n - 1], steps[n - 1]);
    }
  }

  /** In every state of every run, folding the activation events of the log from the first
      snapshot rebuilds the active snapshot and the version, each event continues where the one
      before it ended, and the version is one plus the number of activations. Interrupted
      snapshot creations are part of the runs. */
  lemma LogReplaysToRegistry(env: Env, baseline: map<string, Spec>, steps: seq<Step>, states: seq<State>, s: State)
    requires IsRun(env, baseline, steps, states) && s in states
    ensures Replay(OperationSnapshots, Init(env, baseline).active, s.log) == Live(s.active, s.version)
    ensures Unbroken(OperationSnapshots, Init(env, baseline).active, s.log)
    ensures s.version == 1 + |MovesOf(OperationSnapshots, s.log)|
    ensures s.active in s.snapshots
  {
    var n :| 0 <= n < |states| && states[n] == s;
    RunInvariant(env, baseline, steps, states, n);
    ReplayCounts(OperationSnapshots, Init(env, baseline).active, s.log);
  }

  // ---------------------------------------------------------- Content addressing

  /** An interruption does no harm when the id was stored before or nothing was missing. */
  predicate Harmless(env: Env, s: State, step: Step) {
    step.InterruptedCreateStep? ==>
      || env.snapshotId(step.content) in s.snapshots
      || env.snapshotId(step.partial) == env.snapshotId(step.content)
  }

  lemma StepAddressesExactly(env: Env, first: string, s: State, step: Step)
    requires Inv(env, first, s) && Enabled(s, step)
    ensures Addressed(env, Apply(env, s, step).snapshots) <==> Addressed(env, s.snapshots) && Harmless(env, s, step)
  {
    StepKeeps(env, first, s, step);
    if step.InterruptedCreateStep? && !Harmless(env, s, step) {
      assert env.snapshotId(step.content) in Apply(env, s, step).snapshots;
    }
    if Addressed(env, Apply(env, s, step).snapshots) {
      assert forall id <- s.snapshots :: s.snapshots[id] == Apply(env, s, step).snapshots[id];
    }
  }

  /** The snapshot table is content-addressed in a state of a run exactly when every interrupted
      creation up to it was harmless. */
  lemma {:induction false} RunAddressedExactly(env: Env, baseline: map<string, Spec>, steps: seq<Step>,
                                               states: seq<State>, n: nat)
    requires IsRun(env, baseline, steps, states) && n <= |steps|
    ensures Addressed(env, states[n].snapshots) <==> forall k | 0 <= k < n :: Harmless(env, states[k], steps[k])
  {
    if n > 0 {
      RunAddressedExactly(env, baseline, steps, states, n - 1);
      RunInvariant(env, baseline, steps, states, n - 1);
      assert TakesStep(env, steps, states, n - 1);
      StepAddressesExactly(env, Init(env, baseline).active, states[n - 1], steps[n - 1]);
    }
  }
}
