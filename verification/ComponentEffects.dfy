/** What deployments and control decisions install, when they commit, and who takes them. */
module ComponentEffects {
  import opened Journal
  import opened Approvals
  import opened ApprovalRules
  import opened Components
  import opened ComponentHistory
  import opened ComponentSafety
  import Versions

  // --------------------------------------------------------------------- Deployment

  function Note(kind: Kind, origin: Option<Proposal>, subject: string): Event {
    Event(kind, if origin.Some? then Some(origin.value.run) else None,
          if origin.Some? then Some(origin.value.session) else None, Some(subject), Payload(subject := Some(subject)))
  }

  function Move(kind: Kind, origin: Option<Proposal>, component: string, deployment: string, previous: string,
                next: string)
    : Event
  {
    Event(kind, if origin.Some? then Some(origin.value.run) else None,
          if origin.Some? then Some(origin.value.session) else None, Some(component),
          Payload(subject := Some(component), deployment := Some(deployment), previousSnapshot := Some(previous),
                  newSnapshot := Some(next)))
  }

  /** The intent repeats the decision and the manifest. */
  predicate IsIntentOf(intent: DeploymentIntent, i: Identity, m: ServiceManifest) {
    && intent == DeploymentIntent(intent.intentId, intent.invocationId, i.proposalId, i.decisionId, i.manifest,
                                  i.artifact, m.version)
    && m.artifact == i.artifact
  }

  /** A deployment intent is admitted exactly when it repeats the decision and the manifest, the
      identity could decide now on the source snapshot it names, the approval is for the
      manifest's component, and the version is newer than the active one. */
  lemma AdmissibleExactly(env: Env, first: string, s: State, i: Identity, intent: DeploymentIntent, m: ServiceManifest,
                          agent: string, authentic: bool, now: int)
    requires Inv(env, first, s)
    ensures Admissible(env, s, i, intent, m, agent, authentic, now) <==>
            && env.manifestValid(m) && env.intentValid(intent) && IsIntentOf(intent, i, m)
            && BoundTo(s.tables, i, agent) && WellFormed(i) && authentic && Waits(s.tables, i, now)
            && s.operationSnapshot == i.snapshot && s.tables.proposals[i.proposalId].linkOperation == m.component
            && (m.component in ActiveEntries(s) ==> Versions.Newer(m.version, ActiveEntries(s)[m.component].version))
  {
    BindingExactly(s.tables, i, agent, authentic);
  }

  /** Recording an intent stores it under its own id as it is, with the approval and a note. */
  lemma RecordStores(env: Env, s: State, i: Identity, intent: DeploymentIntent, m: ServiceManifest, agent: string,
                     authentic: bool, now: int)
    requires Recordable(env, s, i, intent, m, agent, authentic, now) && intent.intentId !in s.deployments
    ensures i.proposalId in s.tables.proposals
    ensures var p := s.tables.proposals[i.proposalId];
            RecordDeployment(env, s, i, intent, m, agent, authentic, now).0 ==
            s.(deployments := s.deployments[intent.intentId := DeployRow(m.component, intent)],
               log := s.log + [About(CapabilityChangeApproved, p, i.proposalId),
                               Note(DeploymentIntentRecorded, Some(p), intent.intentId)])
  {
    BindingExactly(s.tables, i, agent, authentic);
  }

  /** The receipt answers the intent: the same ids, digests and version, the deployment id derived
      from it, and healthy. */
  predicate IsReceiptOf(env: Env, r: DeploymentReceipt, intent: DeploymentIntent, component: string) {
    && r == DeploymentReceipt(r.receiptId, intent.invocationId, intent.intentId, intent.proposalId, intent.decisionId,
                              env.deploymentId(intent, component), component, intent.manifestDigest, intent.artifact,
                              intent.expectedVersion, r.endpoint, r.previousArtifact, true)
    && env.receiptFormatValid(r)
  }

  /** What a deployment must find to commit. */
  predicate MayDeploy(env: Env, s: State, i: Identity, intent: DeploymentIntent, m: ServiceManifest,
                      r: DeploymentReceipt, agent: string, authentic: bool, now: int)
  {
    && env.manifestValid(m) && env.intentValid(intent) && IsReceiptOf(env, r, intent, m.component)
    && m.id != "" && intent.manifestDigest == i.manifest && m.artifact == i.artifact
    && MayDecide(s.tables, i, agent, authentic, now) && s.operationSnapshot == i.snapshot
    && s.tables.proposals[i.proposalId].linkOperation == m.component
    && intent.intentId in s.deployments && s.deployments[intent.intentId] == DeployRow(m.component, intent)
    && r.receiptId !in s.receipts
    && (forall k <- s.receipts ::
          s.receipts[k].deploymentId != r.deploymentId && s.receipts[k].invocationId != r.invocationId)
    && if m.component in ActiveEntries(s) then
         && Versions.Newer(m.version, ActiveEntries(s)[m.component].version)
         && r.previousArtifact == Some(ActiveEntries(s)[m.component].artifact)
       else r.previousArtifact.None?
  }

  /** A deployment commits exactly when its intent is recorded, its receipt answers that intent and
      is new, the identity may decide, and it replaces an older version of the artifact it says it
      replaces, or nothing. */
  lemma DeploysExactly(env: Env, first: string, s: State, i: Identity, intent: DeploymentIntent, m: ServiceManifest,
                       r: DeploymentReceipt, agent: string, authentic: bool, now: int)
    requires Inv(env, first, s)
    ensures Committed(ActivateService(env, s, i, intent, m, r, agent, authentic, now).1) <==>
            MayDeploy(env, s, i, intent, m, r, agent, authentic, now)
  {
    PersistWorks(env, s, ActiveEntries(s)[m.component := Deployed(i, m, r)], now);
    LoadedDeploysExactly(env, s, i, intent, m, r, agent, authentic, now);
  }

  lemma LoadedDeploysExactly(env: Env, s: State, i: Identity, intent: DeploymentIntent, m: ServiceManifest,
                             r: DeploymentReceipt, agent: string, authentic: bool, now: int)
    requires Load(env, s.snapshots, s.active) == Ok(ActiveEntries(s))
    requires Persist(env, s.snapshots, ActiveEntries(s)[m.component := Deployed(i, m, r)], now).Ok?
    ensures Committed(ActivateService(env, s, i, intent, m, r, agent, authentic, now).1) <==>
            MayDeploy(env, s, i, intent, m, r, agent, authentic, now)
  {
    BindingExactly(s.tables, i, agent, authentic);
    assert IsReceiptOf(env, r, intent, m.component) <==> ReceiptFor(env, r, intent, m.component);
  }

  lemma PersistWorks(env: Env, s: State, entries: map<string, Component>, now: int)
    requires SnapshotInv(env, s)
    ensures Persist(env, s.snapshots, entries, now).Ok? && Load(env, s.snapshots, s.active) == Ok(ActiveEntries(s))
  {
  }

  /** What it leaves behind: the component as the manifest and the receipt describe it, healthy, and
      every other entry as it was; the receipt, the settled approval and the events. */
  lemma DeployInstalls(env: Env, first: string, s: State, i: Identity, intent: DeploymentIntent, m: ServiceManifest,
                       r: DeploymentReceipt, agent: string, authentic: bool, now: int)
    requires Inv(env, first, s) && Injective(env) && MayDeploy(env, s, i, intent, m, r, agent, authentic, now)
    ensures var (s', result) := ActivateService(env, s, i, intent, m, r, agent, authentic, now);
            var p := s.tables.proposals[i.proposalId];
            var decided := DecisionResult(i.decisionId, Approved, Some(s'.active), Some(r.deploymentId), None, false);
            && result == Ok(decided)
            && ActiveEntries(s') == ActiveEntries(s)[m.component :=
                 Component(m.component, m.kind, m.id, i.manifest, m.artifact, m.version, r.endpoint, r.deploymentId,
                           r.receiptId, Healthy, m.contracts, m.permissions)]
            && Records(s.tables, s'.tables, i, Approved, ProposalActivated, decided)
            && s'.receipts == s.receipts[r.receiptId := r] && s'.version == s.version + 1
            && s'.deployments == s.deployments && s'.controls == s.controls && s'.outcomes == s.outcomes
            && s'.log == s.log + [About(CapabilityChangeApproved, p, i.proposalId),
                                  Note(DeploymentReceiptRecorded, Some(p), r.receiptId),
                                  Move(ComponentRegistered, Some(p), m.component, r.deploymentId, s.active, s'.active),
                                  About(CapabilityChangeActivated, p, i.proposalId)]
  {
    DeploysExactly(env, first, s, i, intent, m, r, agent, authentic, now);
    DeploymentRaisesVersion(env, s, i, intent, m, r, agent, authentic, now);
    DeployWrites(env, s, i, intent, m, r, agent, authentic, now);
  }

  lemma DeployWrites(env: Env, s: State, i: Identity, intent: DeploymentIntent, m: ServiceManifest,
                     r: DeploymentReceipt, agent: string, authentic: bool, now: int)
    requires Committed(ActivateService(env, s, i, intent, m, r, agent, authentic, now).1)
    requires i.proposalId in s.tables.proposals
    ensures var (s', result) := ActivateService(env, s, i, intent, m, r, agent, authentic, now);
            var p := s.tables.proposals[i.proposalId];
            var decided := DecisionResult(i.decisionId, Approved, Some(s'.active), Some(r.deploymentId), None, false);
            && result == Ok(decided) && Records(s.tables, s'.tables, i, Approved, ProposalActivated, decided)
            && s'.receipts == s.receipts[r.receiptId := r] && s'.version == s.version + 1
            && s'.deployments == s.deployments && s'.controls == s.controls && s'.outcomes == s.outcomes
            && s'.log == s.log + [About(CapabilityChangeApproved, p, i.proposalId),
                                  Note(DeploymentReceiptRecorded, Some(p), r.receiptId),
                                  Move(ComponentRegistered, Some(p), m.component, r.deploymentId, s.active, s'.active),
                                  About(CapabilityChangeActivated, p, i.proposalId)]
  {
    BindingExactly(s.tables, i, agent, authentic);
  }

  /** Repeating a deployment of a settled approval is answered exactly for the recorded one. */
  lemma SettledDeploymentAnswers(env: Env, s: State, i: Identity, intent: DeploymentIntent, m: ServiceManifest,
                                 r: DeploymentReceipt, agent: string, authentic: bool, now: int)
    requires env.manifestValid(m) && env.intentValid(intent) && IsReceiptOf(env, r, intent, m.component)
    requires m.id != "" && intent.manifestDigest == i.manifest && m.artifact == i.artifact
    requires BoundTo(s.tables, i, agent) && WellFormed(i) && authentic
    requires !s.tables.approvals[i.approvalId].status.Pending? && RowShape(s.tables.approvals[i.approvalId])
    ensures var a := s.tables.approvals[i.approvalId];
            ActivateService(env, s, i, intent, m, r, agent, authentic, now).1.Ok? <==>
            && a.status.Approved? && a.decision.decisionId == Some(i.decisionId)
            && a.decision.payloadDigest == Some(i.payloadDigest) && a.decision.decidedBy == Some(i.principal)
            && a.decision.deployment == Some(r.deploymentId)
  {
    BindingExactly(s.tables, i, agent, authentic);
    ReplayExactly(s.tables.approvals[i.approvalId], i, Approved);
  }

  // ------------------------------------------------------------------------ Control

  /** What recording a control decision must find: a valid intent of the owner, a new decision, no
      other effect in flight on the component, and the expected deployment active in a state that
      allows the action. */
  predicate MayControl(env: Env, s: State, intent: ControlIntent, owner: string) {
    && env.controlValid(intent) && intent.principal == "feishu:open_id:" + owner && intent.decisionId !in s.controls
    && (forall d <- s.controls ::
          s.controls[d].intent.component == intent.component ==> !s.controls[d].status.ControlPending?)
    && (forall d <- s.deployments, a <- s.tables.approvals ::
          s.deployments[d].component == intent.component
          && s.tables.approvals[a].terms.proposalId == s.deployments[d].intent.proposalId ==>
            !s.tables.approvals[a].status.Pending?)
    && s.active == intent.expectedSnapshot && intent.component in ActiveEntries(s)
    && var c := ActiveEntries(s)[intent.component];
    && c.deploymentId == intent.expectedDeployment
    && (if intent.action.Rollback? then c.status.Healthy? else !c.status.Disabled?)
  }

  /** A control decision is recorded exactly then, as pending, with its note. A repeat succeeds
      without a change unless the decision was for something else or has failed. */
  lemma RecordsControlExactly(env: Env, first: string, s: State, intent: ControlIntent, owner: string)
    requires Inv(env, first, s)
    ensures var (s', r) := RecordControl(env, s, intent, owner);
            && (s' != s <==> MayControl(env, s, intent, owner))
            && (s' != s ==>
                  && r.Ok?
                  && s' == s.(controls := s.controls[intent.decisionId := ControlRow(intent, ControlPending)],
                              log := s.log + [Note(ComponentControlIntentRecorded, None, intent.decisionId)]))
            && (s' == s ==>
                  (r.Ok? <==> && env.controlValid(intent) && intent.principal == "feishu:open_id:" + owner
                              && intent.decisionId in s.controls && s.controls[intent.decisionId].intent == intent
                              && !s.controls[intent.decisionId].status.ControlFailed?))
  {
    PersistWorks(env, s, map[], 0);
    LoadedRecordsExactly(env, s, intent, owner);
  }

  lemma LoadedRecordsExactly(env: Env, s: State, intent: ControlIntent, owner: string)
    requires Load(env, s.snapshots, s.active) == Ok(ActiveEntries(s))
    ensures var (s', r) := RecordControl(env, s, intent, owner);
            && (s' != s <==> MayControl(env, s, intent, owner))
            && (s' != s ==>
                  && r.Ok?
                  && s' == s.(controls := s.controls[intent.decisionId := ControlRow(intent, ControlPending)],
                              log := s.log + [Note(ComponentControlIntentRecorded, None, intent.decisionId)]))
            && (s' == s ==>
                  (r.Ok? <==> && env.controlValid(intent) && intent.principal == "feishu:open_id:" + owner
                              && intent.decisionId in s.controls && s.controls[intent.decisionId].intent == intent
                              && !s.controls[intent.decisionId].status.ControlFailed?))
  {
    var s' := RecordControl(env, s, intent, owner).0;
    if intent.decisionId !in s.controls && intent.decisionId in s'.controls { assert s'.controls != s.controls; }
  }

  /** A control decision fails exactly while it is pending. */
  lemma FailsControlExactly(s: State, d: string)
    ensures var (s', r) := FailControl(s, d);
            && (r.Ok? <==> d in s.controls && s.controls[d].status.ControlPending?)
            && (r.Ok? ==> s' == s.(controls := s.controls[d := ControlRow(s.controls[d].intent, ControlFailed)]))
            && (r.Err? ==> s' == s)
  {
  }

  /** The receipt answers the control intent. */
  predicate IsControlReceiptOf(env: Env, r: ControlReceipt, intent: ControlIntent) {
    && r.ok && env.controlReceiptFormatValid(r)
    && r.action == intent.action && r.decisionId == intent.decisionId && r.component == intent.component
  }

  /** Some stored snapshot has the component in this deployment. */
  predicate WasDeployed(s: State, r: ControlReceipt) {
    exists id <- s.snapshots ::
      && r.component in s.snapshots[id].entries
      && var c := s.snapshots[id].entries[r.component];
      && c.deploymentId == r.deploymentId && c.artifact == r.artifact && c.version == r.version
  }

  /** A disable names the deployment that is active; a rollback names another one that was deployed
      before, with the artifact that the active one replaced. */
  predicate TargetOk(s: State, intent: ControlIntent, r: ControlReceipt, c: Component) {
    if intent.action.Disable? then
      r.deploymentId == c.deploymentId && r.artifact == c.artifact && r.version == c.version
    else
      && c.receiptId in s.receipts && s.receipts[c.receiptId].previousArtifact == Some(r.artifact)
      && r.deploymentId != c.deploymentId && WasDeployed(s, r)
  }

  /** What settling a control decision must find: the recorded intent still pending on the snapshot
      and deployment it expects, and a new receipt that answers it and names a proper target. */
  predicate MaySettle(env: Env, s: State, intent: ControlIntent, r: ControlReceipt) {
    && env.controlValid(intent) && IsControlReceiptOf(env, r, intent)
    && intent.decisionId in s.controls && s.controls[intent.decisionId] == ControlRow(intent, ControlPending)
    && (forall d <- s.outcomes :: s.outcomes[d].receipt.receiptId != r.receiptId)
    && s.active == intent.expectedSnapshot && intent.component in ActiveEntries(s)
    && var c := ActiveEntries(s)[intent.component];
    && c.deploymentId == intent.expectedDeployment
    && TargetOk(s, intent, r, c)
  }

  lemma TargetExactly(env: Env, s: State, intent: ControlIntent, r: ControlReceipt, pick: Option<string>)
    requires SnapshotInv(env, s) && ReceiptInv(env, s) && IsHistorical(s, r, pick)
    requires intent.component in ActiveEntries(s) && r.component == intent.component
    ensures var c := ActiveEntries(s)[intent.component];
            ControlTarget(env, s, intent, r, c, pick).Ok? <==>
            TargetOk(s, intent, r, c)
  {
    ActiveIsReceived(env, s, intent.component);
    HistoricalExactly(s, r, pick);
    LoadedTargetExactly(env, s, intent, r, ActiveEntries(s)[intent.component], pick);
  }

  lemma ActiveIsReceived(env: Env, s: State, component: string)
    requires SnapshotInv(env, s) && ReceiptInv(env, s) && component in ActiveEntries(s)
    ensures var c := ActiveEntries(s)[component];
            && c.receiptId in s.receipts
            && var d := s.receipts[c.receiptId];
            && d.receiptId == c.receiptId && d.deploymentId == c.deploymentId
            && d.artifact == c.artifact && d.version == c.version
  {
    assert AllTraced(env, s.receipts, ActiveEntries(s));
    assert Grounded(env, s, ActiveEntries(s)[component].receiptId);
  }

  lemma HistoricalExactly(s: State, r: ControlReceipt, pick: Option<string>)
    requires IsHistorical(s, r, pick)
    ensures WasDeployed(s, r) <==> pick.Some?
  {
  }

  lemma LoadedTargetExactly(env: Env, s: State, intent: ControlIntent, r: ControlReceipt, c: Component,
                            pick: Option<string>)
    requires c.receiptId in s.receipts
    requires var d := s.receipts[c.receiptId];
             && d.receiptId == c.receiptId && d.deploymentId == c.deploymentId
             && d.artifact == c.artifact && d.version == c.version
    requires WasDeployed(s, r) <==> pick.Some?
    requires pick.Some? ==> pick.value in s.snapshots && HistoricalMatch(s.snapshots[pick.value], r)
                            && env.snapshotId(s.snapshots[pick.value].entries) == pick.value
    ensures ControlTarget(env, s, intent, r, c, pick).Ok? <==> TargetOk(s, intent, r, c)
  {
  }

  /** In every state of every run, a control decision is settled exactly then. */
  lemma SettlesControlExactly(env: Env, start: State, steps: seq<Step>, states: seq<State>, n: nat,
                              intent: ControlIntent, r: ControlReceipt, pick: Option<string>, now: int)
    requires IsInit(env, start) && IsRun(env, start, steps, states) && n <= |steps| && IsHistorical(states[n], r, pick)
    ensures ControlCommitted(SettleControl(env, states[n], intent, r, pick, now).1) <==>
            MaySettle(env, states[n], intent, r)
  {
    RunInvariant(env, start, steps, states, n);
    SettleCommits(env, states[n], intent, r, pick, now);
  }

  lemma SettleCommits(env: Env, s: State, intent: ControlIntent, r: ControlReceipt, pick: Option<string>, now: int)
    requires SnapshotInv(env, s) && ReceiptInv(env, s) && ControlInv(env, s) && IsHistorical(s, r, pick)
    ensures ControlCommitted(SettleControl(env, s, intent, r, pick, now).1) <==> MaySettle(env, s, intent, r)
  {
    PersistWorks(env, s, map[], 0);
    assert forall d <- s.outcomes :: OutcomeGrounded(env, s, d);
    if intent.component in ActiveEntries(s) && r.component == intent.component {
      TargetExactly(env, s, intent, r, pick);
      var target := ControlTarget(env, s, intent, r, ActiveEntries(s)[intent.component], pick);
      if target.Ok? { PersistWorks(env, s, ActiveEntries(s)[intent.component := Controlled(target.value, r)], now); }
    }
    LoadedSettlesExactly(env, s, intent, r, pick, now);
  }

  lemma LoadedSettlesExactly(env: Env, s: State, intent: ControlIntent, r: ControlReceipt, pick: Option<string>,
                             now: int)
    requires Load(env, s.snapshots, s.active) == Ok(ActiveEntries(s))
    requires intent.decisionId in s.controls && s.controls[intent.decisionId].status.ControlPending? ==>
               intent.decisionId !in s.outcomes
    requires intent.component in ActiveEntries(s) && r.component == intent.component ==>
               var target := ControlTarget(env, s, intent, r, ActiveEntries(s)[intent.component], pick);
               && (target.Ok? <==> TargetOk(s, intent, r, ActiveEntries(s)[intent.component]))
               && (target.Ok? ==>
                     Persist(env, s.snapshots, ActiveEntries(s)[intent.component := Controlled(target.value, r)],
                             now).Ok?)
    ensures ControlCommitted(SettleControl(env, s, intent, r, pick, now).1) <==> MaySettle(env, s, intent, r)
  {
  }

  /** What settling leaves behind besides the entry: the decision succeeded with its receipt, the
      registry moved by one version, and the log says which way. */
  lemma SettleWrites(env: Env, s: State, intent: ControlIntent, r: ControlReceipt, pick: Option<string>, now: int)
    requires ControlCommitted(SettleControl(env, s, intent, r, pick, now).1)
    ensures var (s', result) := SettleControl(env, s, intent, r, pick, now);
            && result.value.target == s'.active && result.value.receiptId == r.receiptId
            && s'.controls == s.controls[intent.decisionId := ControlRow(intent, ControlSucceeded)]
            && s'.outcomes == s.outcomes[intent.decisionId := ControlOutcome(s'.active, r)]
            && s'.version == s.version + 1 && s'.receipts == s.receipts && s'.deployments == s.deployments
            && s'.tables == s.tables
            && s'.active in s'.snapshots && (s'.active !in s.snapshots ==> s'.snapshots[s'.active].createdAt == now)
            && s'.log == s.log + [Note(ComponentControlReceiptRecorded, None, r.receiptId),
                                  Move(if intent.action.Disable? then ComponentDisabled else ComponentRolledBack, None,
                                       intent.component, r.deploymentId, s.active, s'.active)]
  {
    SettleControlEffect(env, s, intent, r, pick, now);
  }

  lemma RollbackTarget(env: Env, s: State, intent: ControlIntent, r: ControlReceipt, pick: Option<string>, now: int)
    requires SnapshotInv(env, s) && IsHistorical(s, r, pick) && intent.action.Rollback?
    requires ControlCommitted(SettleControl(env, s, intent, r, pick, now).1)
    ensures pick.Some? && pick.value in s.snapshots && HistoricalMatch(s.snapshots[pick.value], r)
    ensures r.component == intent.component
    ensures SettleControl(env, s, intent, r, pick, now).1.value.component
            == s.snapshots[pick.value].entries[r.component].(endpoint := r.endpoint, status := RolledBack)
  {
    SettleControlEffect(env, s, intent, r, pick, now);
  }

  /** Up to endpoint and status, the entry is what every stored snapshot has under its deployment. */
  ghost predicate AsStored(s: State, c: Component) {
    forall id, k | id in s.snapshots && k in s.snapshots[id].entries :: SameIfDeployed(s.snapshots[id].entries[k], c)
  }

  predicate SameIfDeployed(stored: Component, c: Component) {
    stored.deploymentId == c.deploymentId ==> c == stored.(endpoint := c.endpoint, status := c.status)
  }

  lemma StoredAlike(env: Env, s: State, pick: string, component: string, c: Component)
    requires SnapshotInv(env, s) && ReceiptInv(env, s) && pick in s.snapshots && component in s.snapshots[pick].entries
    requires c == s.snapshots[pick].entries[component].(endpoint := c.endpoint, status := c.status)
    ensures AsStored(s, c)
  {
    forall id, k | id in s.snapshots && k in s.snapshots[id].entries
      ensures SameIfDeployed(s.snapshots[id].entries[k], c)
    {
      if s.snapshots[id].entries[k].deploymentId == c.deploymentId { SameDeployment(env, s, pick, component, id, k); }
    }
  }

  lemma RollbackEntry(env: Env, s: State, intent: ControlIntent, r: ControlReceipt, pick: Option<string>, now: int)
    requires SnapshotInv(env, s) && ReceiptInv(env, s) && ControlInv(env, s) && Injective(env)
    requires intent.action.Rollback? && IsHistorical(s, r, pick)
    requires ControlCommitted(SettleControl(env, s, intent, r, pick, now).1)
    ensures var (s', result) := SettleControl(env, s, intent, r, pick, now);
            && intent.component in ActiveEntries(s)
            && ActiveEntries(s') == ActiveEntries(s)[intent.component := result.value.component]
  {
    RollbackEffect(env, s, intent, r, pick, now);
  }

  /** In every run, a rollback that commits makes active what its receipt names: that endpoint,
      deployment, version and artifact. In everything else the entry is the one that any stored
      snapshot has under that deployment, and no other entry changes. */
  lemma RollbackInstalls(env: Env, start: State, steps: seq<Step>, states: seq<State>, n: nat,
                         intent: ControlIntent, r: ControlReceipt, pick: Option<string>, now: int)
    requires IsInit(env, start) && IsRun(env, start, steps, states) && n <= |steps| && Injective(env)
    requires intent.action.Rollback? && IsHistorical(states[n], r, pick)
    requires ControlCommitted(SettleControl(env, states[n], intent, r, pick, now).1)
    ensures var s, s' := states[n], SettleControl(env, states[n], intent, r, pick, now).0;
            && intent.component in ActiveEntries(s')
            && var c := ActiveEntries(s')[intent.component];
            && ActiveEntries(s') == ActiveEntries(s)[intent.component := c] && intent.component in ActiveEntries(s)
            && c.id == intent.component && c.endpoint == r.endpoint && c.deploymentId == r.deploymentId
            && c.version == r.version && c.artifact == r.artifact && c.status.RolledBack? && AsStored(s, c)
  {
    var s := states[n];
    RunInvariant(env, start, steps, states, n);
    RollbackEntry(env, s, intent, r, pick, now);
    RollbackTarget(env, s, intent, r, pick, now);
    StoredAlike(env, s, pick.value, r.component, SettleControl(env, s, intent, r, pick, now).1.value.component);
    assert AllTraced(env, s.receipts, s.snapshots[pick.value].entries);
  }

  // ------------------------------------------------------------- Owners in whole runs

  lemma OtherStepsAddNoDecision(env: Env, s: State, step: Step)
    requires Enabled(env, s, step) && !step.RecordControlStep?
    ensures Apply(env, s, step).controls.Keys == s.controls.Keys
  {
    match step
    case RecordDeploymentStep(i, intent, m, agent, authentic, now) =>
      RecordDeploymentEffect(env, s, i, intent, m, agent, authentic, now);
    case ActivateStep(i, intent, m, r, agent, authentic, now) =>
      ActivateServiceEffect(env, s, i, intent, m, r, agent, authentic, now);
    case SettleControlStep(control, receipt, pick, now) => SettleControlEffect(env, s, control, receipt, pick, now);
    case _ =>
  }

  lemma NewDecisionIsOwned(env: Env, first: string, s: State, step: Step, d: string)
    requires Inv(env, first, s) && Enabled(env, s, step) && d in Apply(env, s, step).controls && d !in s.controls
    ensures step.RecordControlStep? && MayControl(env, s, step.control, step.owner)
    ensures Apply(env, s, step).controls[d].intent == step.control
  {
    if step.RecordControlStep? {
      RecordsControlExactly(env, first, s, step.control, step.owner);
    } else {
      OtherStepsAddNoDecision(env, s, step);
    }
  }

  lemma RunOwnsDecision(env: Env, start: State, steps: seq<Step>, states: seq<State>, n: nat, d: string)
    requires IsInit(env, start) && IsRun(env, start, steps, states) && n < |steps|
    requires d in states[n + 1].controls && d !in states[n].controls
    ensures steps[n].RecordControlStep? && MayControl(env, states[n], steps[n].control, steps[n].owner)
    ensures states[n + 1].controls[d].intent == steps[n].control
  {
    RunInvariant(env, start, steps, states, n);
    assert TakesStep(env, steps, states, n);
    NewDecisionIsOwned(env, start.active, states[n], steps[n], d);
  }

  lemma RunKeepsIntent(env: Env, start: State, steps: seq<Step>, states: seq<State>, n: nat, d: string)
    requires IsInit(env, start) && IsRun(env, start, steps, states) && n < |steps| && d in states[n].controls
    ensures d in states[n + 1].controls && states[n + 1].controls[d].intent == states[n].controls[d].intent
  {
    RunStepGrows(env, start, steps, states, n);
  }

  /** In every run, each control decision was recorded for the owner who took it, at a state that
      allowed it. */
  lemma {:induction false} ControlsAreOwned(env: Env, start: State, steps: seq<Step>, states: seq<State>, n: nat,
                                            d: string)
    requires IsInit(env, start) && IsRun(env, start, steps, states) && n <= |steps| && d in states[n].controls
    ensures exists k | 0 <= k < n ::
              && steps[k].RecordControlStep? && steps[k].control == states[n].controls[d].intent
              && MayControl(env, states[k], steps[k].control, steps[k].owner)
  {
    assert n > 0;
    if d in states[n - 1].controls {
      ControlsAreOwned(env, start, steps, states, n - 1, d);
      RunKeepsIntent(env, start, steps, states, n - 1, d);
    } else {
      RunOwnsDecision(env, start, steps, states, n - 1, d);
    }
  }

  // ----------------------------------------------------------- Settled in whole runs

  /** The step settles the approval by right: a decision by the identity it is bound to before it
      expires, or its expiry after that. What capability activations do is proved in their own
      runs. */
  predicate SettlesByRight(t: Tables, step: Step, id: string)
    requires id in t.approvals
  {
    match step
    case ActivateStep(i, _, _, _, agent, authentic, now) => i.approvalId == id && MayDecide(t, i, agent, authentic, now)
    case FinishStep(i, agent, authentic, _, _, now) => i.approvalId == id && MayDecide(t, i, agent, authentic, now)
    case ExpireStep(approvalId, _, now) => approvalId == id && now >= t.approvals[id].terms.expiresAt
    case OtherDecisionStep(_, _, _) => true
    case _ => false
  }

  lemma DeploySettlesByRight(env: Env, first: string, s: State, i: Identity, intent: DeploymentIntent,
                             m: ServiceManifest, r: DeploymentReceipt, agent: string, authentic: bool, now: int,
                             id: string)
    requires Inv(env, first, s)
    requires var t' := ActivateService(env, s, i, intent, m, r, agent, authentic, now).0.tables;
             id in s.tables.approvals && id in t'.approvals && t'.approvals[id] != s.tables.approvals[id]
    ensures i.approvalId == id && MayDecide(s.tables, i, agent, authentic, now)
  {
    ActivateServiceEffect(env, s, i, intent, m, r, agent, authentic, now);
    DeploysExactly(env, first, s, i, intent, m, r, agent, authentic, now);
  }

  lemma OtherStepsSettleNothing(env: Env, s: State, step: Step, id: string)
    requires Enabled(env, s, step) && id in s.tables.approvals && id in Apply(env, s, step).tables.approvals
    requires !step.ActivateStep? && !step.FinishStep? && !step.ExpireStep? && !step.OtherDecisionStep?
    ensures Apply(env, s, step).tables.approvals[id] == s.tables.approvals[id]
  {
    match step
    case RecordDeploymentStep(i, intent, m, agent, authentic, now) =>
      RecordDeploymentEffect(env, s, i, intent, m, agent, authentic, now);
    case RecordControlStep(control, owner) => RecordControlEffect(env, s, control, owner);
    case SettleControlStep(control, receipt, pick, now) => SettleControlEffect(env, s, control, receipt, pick, now);
    case _ =>
  }

  lemma StepSettlesByRight(env: Env, first: string, s: State, step: Step, id: string)
    requires Inv(env, first, s) && Enabled(env, s, step) && id in s.tables.approvals
    requires id in Apply(env, s, step).tables.approvals
    requires s.tables.approvals[id].status.Pending? && !Apply(env, s, step).tables.approvals[id].status.Pending?
    ensures SettlesByRight(s.tables, step, id)
  {
    match step
    case ActivateStep(i, intent, m, r, agent, authentic, now) =>
      DeploySettlesByRight(env, first, s, i, intent, m, r, agent, authentic, now, id);
    case FinishStep(i, agent, authentic, terminal, error, now) =>
      FinishSettlesByRight(s.tables, i, agent, authentic, terminal, error, now, id);
    case ExpireStep(approvalId, agent, now) => ExpirySettlesByRight(s.tables, approvalId, agent, now, id);
    case OtherDecisionStep(_, _, _) =>
    case _ => OtherStepsSettleNothing(env, s, step, id);
  }

  /** In every run, whatever settled an approval did so by right, and the row it wrote is the row
      that stays. */
  lemma {:induction false} SettledByRight(env: Env, start: State, steps: seq<Step>, states: seq<State>, n: nat,
                                          id: string)
    requires IsInit(env, start) && IsRun(env, start, steps, states) && n <= |steps|
    requires id in states[n].tables.approvals && !states[n].tables.approvals[id].status.Pending?
    ensures exists k | 0 <= k < n ::
              && id in states[k].tables.approvals && states[k].tables.approvals[id].status.Pending?
              && SettlesByRight(states[k].tables, steps[k], id)
              && id in states[k + 1].tables.approvals
              && states[k + 1].tables.approvals[id] == states[n].tables.approvals[id]
  {
    assert n > 0;
    var before, after := states[n - 1].tables, states[n].tables;
    assert TakesStep(env, steps, states, n - 1);
    StepShifts(env, states[n - 1], steps[n - 1]);
    KnownBefore(before, after, id);
    if before.approvals[id].status.Pending? {
      RunInvariant(env, start, steps, states, n - 1);
      StepSettlesByRight(env, start.active, states[n - 1], steps[n - 1], id);
    } else {
      SettledByRight(env, start, steps, states, n - 1, id);
      ShiftsFreezes(before, after, id);
    }
  }
}
