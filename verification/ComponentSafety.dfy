/** What holds in every state of every run of the component registry. */
module ComponentSafety {
  import opened Journal
  import opened Approvals
  import opened Replaying
  import opened Components
  import opened ComponentHistory
  import Versions

  // ----------------------------------------------------------------- Provenance

  /** Every component of every stored snapshot, active or historical, names a stored deployment
      receipt with the same component, deployment, artifact, version and manifest, through any
      mix of deployments, disables and rollbacks. */
  lemma EveryEntryHasItsReceipt(env: Env, start: State, steps: seq<Step>, states: seq<State>, s: State, id: string,
                                k: string)
    requires IsInit(env, start) && IsRun(env, start, steps, states) && s in states
    requires id in s.snapshots && k in s.snapshots[id].entries
    ensures var c := s.snapshots[id].entries[k];
            && c.id == k && c.receiptId in s.receipts
            && var r := s.receipts[c.receiptId];
            && r.receiptId == c.receiptId && r.component == k && r.deploymentId == c.deploymentId
            && r.artifact == c.artifact && r.version == c.version && r.manifestDigest == c.manifestDigest
  {
    var n :| 0 <= n < |states| && states[n] == s;
    RunInvariant(env, start, steps, states, n);
    assert AllTraced(env, s.receipts, s.snapshots[id].entries);
    assert Grounded(env, s, s.snapshots[id].entries[k].receiptId);
  }

  lemma SameDeployment(env: Env, s: State, id1: string, k1: string, id2: string, k2: string)
    requires SnapshotInv(env, s) && ReceiptInv(env, s)
    requires id1 in s.snapshots && k1 in s.snapshots[id1].entries
    requires id2 in s.snapshots && k2 in s.snapshots[id2].entries
    requires s.snapshots[id1].entries[k1].deploymentId == s.snapshots[id2].entries[k2].deploymentId
    ensures var c1, c2 := s.snapshots[id1].entries[k1], s.snapshots[id2].entries[k2];
            c1 == c2.(endpoint := c1.endpoint, status := c1.status)
  {
    assert AllTraced(env, s.receipts, s.snapshots[id1].entries);
    assert AllTraced(env, s.receipts, s.snapshots[id2].entries);
  }

  lemma TargetsAgree(env: Env, s: State, intent: ControlIntent, r: ControlReceipt, active: Component,
                     p: Option<string>, q: Option<string>)
    requires SnapshotInv(env, s) && ReceiptInv(env, s) && IsHistorical(s, r, p) && IsHistorical(s, r, q)
    ensures var tp, tq := ControlTarget(env, s, intent, r, active, p), ControlTarget(env, s, intent, r, active, q);
            if tp.Ok? then tq.Ok? && Controlled(tp.value, r) == Controlled(tq.value, r) else tq == tp
  {
    if p.Some? && intent.action.Rollback? && ValidateRollbackTarget(s, active, r).Ok? {
      SameDeployment(env, s, p.value, r.component, q.value, r.component);
      LoadedTarget(env, s, intent, r, active, p);
      LoadedTarget(env, s, intent, r, active, q);
    }
  }

  lemma LoadedTarget(env: Env, s: State, intent: ControlIntent, r: ControlReceipt, active: Component,
                     pick: Option<string>)
    requires Addressed(env, s.snapshots) && pick.Some? && pick.value in s.snapshots
    requires HistoricalMatch(s.snapshots[pick.value], r)
    requires intent.action.Rollback? && ValidateRollbackTarget(s, active, r).Ok?
    ensures ControlTarget(env, s, intent, r, active, pick) == Ok(s.snapshots[pick.value].entries[r.component])
  {
  }

  lemma SettleSame(env: Env, s: State, intent: ControlIntent, r: ControlReceipt, p: Option<string>, q: Option<string>,
                   now: int)
    requires ActiveComponent(env, s, intent).Ok? ==>
               var active := ActiveComponent(env, s, intent).value;
               var tp, tq := ControlTarget(env, s, intent, r, active, p), ControlTarget(env, s, intent, r, active, q);
               if tp.Ok? then tq.Ok? && Controlled(tp.value, r) == Controlled(tq.value, r) else tq == tp
    ensures SettleControl(env, s, intent, r, p, now) == SettleControl(env, s, intent, r, q, now)
  {
  }

  /** The historical lookup is well defined: whichever of several snapshots of the same age it
      picks, settling gives the same state and the same result. */
  lemma HistoricalPickDoesNotMatter(env: Env, start: State, steps: seq<Step>, states: seq<State>, n: nat,
                                    intent: ControlIntent, r: ControlReceipt, p: Option<string>, q: Option<string>,
                                    now: int)
    requires IsInit(env, start) && IsRun(env, start, steps, states) && n <= |steps|
    requires IsHistorical(states[n], r, p) && IsHistorical(states[n], r, q)
    ensures SettleControl(env, states[n], intent, r, p, now) == SettleControl(env, states[n], intent, r, q, now)
  {
    RunInvariant(env, start, steps, states, n);
    var active := ActiveComponent(env, states[n], intent);
    if active.Ok? { TargetsAgree(env, states[n], intent, r, active.value, p, q); }
    SettleSame(env, states[n], intent, r, p, q, now);
  }

  // ---------------------------------------------------------------- Replayed log

  /** In every state of every run, folding the registered, disabled and rolled-back events of the
      log rebuilds the active snapshot and the version. */
  lemma LogReplaysToComponents(env: Env, start: State, steps: seq<Step>, states: seq<State>, s: State)
    requires IsInit(env, start) && IsRun(env, start, steps, states) && s in states
    ensures Replay(ComponentSnapshots, start.active, s.log) == Live(s.active, s.version)
    ensures Unbroken(ComponentSnapshots, start.active, s.log)
    ensures s.version == 1 + |MovesOf(ComponentSnapshots, s.log)|
    ensures s.active in s.snapshots
  {
    var n :| 0 <= n < |states| && states[n] == s;
    RunInvariant(env, start, steps, states, n);
    ReplayCounts(ComponentSnapshots, start.active, s.log);
  }

  // ------------------------------------------------------------------- Rollback

  /** The log shows which artifact a deployment replaced when it was activated. */
  ghost predicate ReplacedArtifact(s: State, component: string, deployment: string, artifact: string) {
    exists e <- s.log ::
      && e.kind.ComponentRegistered? && e.payload.subject == Some(component) && e.payload.deployment == Some(deployment)
      && e.payload.previousSnapshot.Some? && e.payload.previousSnapshot.value in s.snapshots
      && ArtifactIn(s.snapshots[e.payload.previousSnapshot.value].entries, component) == Some(artifact)
  }

  lemma LineageFromReceipt(env: Env, s: State, rid: string, artifact: string)
    requires rid in s.receipts && Grounded(env, s, rid) && s.receipts[rid].previousArtifact == Some(artifact)
    ensures ReplacedArtifact(s, s.receipts[rid].component, s.receipts[rid].deploymentId, artifact)
  {
  }

  /** A rollback that commits acts on a component that is still healthy, although its status was
      only looked at when the intent was recorded, and puts back the artifact that was replaced
      when the deployment it removes was activated. Nothing else in the registry changes. */
  lemma RollbackRestoresReplacedArtifact(env: Env, start: State, steps: seq<Step>, states: seq<State>, n: nat,
                                         intent: ControlIntent, r: ControlReceipt, pick: Option<string>, now: int)
    requires IsInit(env, start) && IsRun(env, start, steps, states) && n <= |steps| && Injective(env)
    requires intent.action.Rollback? && IsHistorical(states[n], r, pick)
    requires ControlCommitted(SettleControl(env, states[n], intent, r, pick, now).1)
    ensures var s := states[n];
            var (s', result) := SettleControl(env, s, intent, r, pick, now);
            && s.active in s.snapshots && intent.component in s.snapshots[s.active].entries
            && var removed := s.snapshots[s.active].entries[intent.component];
            && removed.status.Healthy? && removed.deploymentId == intent.expectedDeployment
            && var restored := result.value.component;
            && restored.status.RolledBack? && restored.deploymentId != removed.deploymentId
            && ReplacedArtifact(s, intent.component, removed.deploymentId, restored.artifact)
            && s'.active in s'.snapshots
            && s'.snapshots[s'.active].entries == s.snapshots[s.active].entries[intent.component := restored]
  {
    RunInvariant(env, start, steps, states, n);
    RollbackEffect(env, states[n], intent, r, pick, now);
  }

  lemma RollbackEffect(env: Env, s: State, intent: ControlIntent, r: ControlReceipt, pick: Option<string>, now: int)
    requires SnapshotInv(env, s) && ReceiptInv(env, s) && ControlInv(env, s) && Injective(env)
    requires intent.action.Rollback? && IsHistorical(s, r, pick)
    requires ControlCommitted(SettleControl(env, s, intent, r, pick, now).1)
    ensures var (s', result) := SettleControl(env, s, intent, r, pick, now);
            && s.active in s.snapshots && intent.component in s.snapshots[s.active].entries
            && var removed := s.snapshots[s.active].entries[intent.component];
            && removed.status.Healthy? && removed.deploymentId == intent.expectedDeployment
            && var restored := result.value.component;
            && restored.status.RolledBack? && restored.deploymentId != removed.deploymentId
            && ReplacedArtifact(s, intent.component, removed.deploymentId, restored.artifact)
            && s'.active in s'.snapshots
            && s'.snapshots[s'.active].entries == s.snapshots[s.active].entries[intent.component := restored]
  {
    SettleControlEffect(env, s, intent, r, pick, now);
    RollbackLineage(env, s, intent, r, pick);
    var (s', result) := SettleControl(env, s, intent, r, pick, now);
    InstalledContent(env, s, s', s.snapshots[s.active].entries[intent.component := result.value.component]);
  }

  lemma RollbackLineage(env: Env, s: State, intent: ControlIntent, r: ControlReceipt, pick: Option<string>)
    requires SnapshotInv(env, s) && ReceiptInv(env, s) && ControlInv(env, s)
    requires intent.action.Rollback? && r.component == intent.component
    requires intent.decisionId in s.controls && s.controls[intent.decisionId].intent == intent
    requires IsHistorical(s, r, pick) && ActiveComponent(env, s, intent).Ok?
    requires ControlTarget(env, s, intent, r, ActiveComponent(env, s, intent).value, pick).Ok?
    ensures var active := ActiveComponent(env, s, intent).value;
            var target := ControlTarget(env, s, intent, r, active, pick).value;
            && active.status.Healthy? && target.deploymentId != active.deploymentId
            && ReplacedArtifact(s, intent.component, active.deploymentId, target.artifact)
  {
    var active := ActiveComponent(env, s, intent).value;
    TargetIsStored(env, s, intent, r, pick);
    HealthyAtRecording(env, s, intent);
    assert AllTraced(env, s.receipts, s.snapshots[s.active].entries);
    assert Grounded(env, s, active.receiptId);
    LineageFromReceipt(env, s, active.receiptId, r.artifact);
  }

  /** Stored snapshots do not change, so what was allowed when the intent was recorded against
      the active snapshot still is when that snapshot is active again. */
  lemma HealthyAtRecording(env: Env, s: State, intent: ControlIntent)
    requires ControlInv(env, s) && intent.decisionId in s.controls && s.controls[intent.decisionId].intent == intent
    requires s.active == intent.expectedSnapshot
    ensures s.active in s.snapshots && intent.component in s.snapshots[s.active].entries
    ensures ControlAllowed(intent.action, s.snapshots[s.active].entries[intent.component].status)
  {
  }

  /** A disable that commits changes the status and endpoint of that one component only. */
  lemma DisableChangesOneStatus(env: Env, start: State, steps: seq<Step>, states: seq<State>, n: nat,
                                intent: ControlIntent, r: ControlReceipt, pick: Option<string>, now: int)
    requires IsInit(env, start) && IsRun(env, start, steps, states) && n <= |steps| && Injective(env)
    requires intent.action.Disable? && ControlCommitted(SettleControl(env, states[n], intent, r, pick, now).1)
    ensures var s := states[n];
            var s' := SettleControl(env, s, intent, r, pick, now).0;
            && s.active in s.snapshots && intent.component in s.snapshots[s.active].entries && s'.active in s'.snapshots
            && var c := s.snapshots[s.active].entries[intent.component];
            && !c.status.Disabled?
            && s'.snapshots[s'.active].entries
               == s.snapshots[s.active].entries[intent.component := c.(endpoint := r.endpoint, status := Disabled)]
  {
    RunInvariant(env, start, steps, states, n);
    DisableEffect(env, states[n], intent, r, pick, now);
  }

  lemma DisableEffect(env: Env, s: State, intent: ControlIntent, r: ControlReceipt, pick: Option<string>, now: int)
    requires SnapshotInv(env, s) && ControlInv(env, s) && Injective(env)
    requires intent.action.Disable? && ControlCommitted(SettleControl(env, s, intent, r, pick, now).1)
    ensures var s' := SettleControl(env, s, intent, r, pick, now).0;
            && s.active in s.snapshots && intent.component in s.snapshots[s.active].entries && s'.active in s'.snapshots
            && var c := s.snapshots[s.active].entries[intent.component];
            && !c.status.Disabled?
            && s'.snapshots[s'.active].entries
               == s.snapshots[s.active].entries[intent.component := c.(endpoint := r.endpoint, status := Disabled)]
  {
    SettleControlEffect(env, s, intent, r, pick, now);
    TargetIsStored(env, s, intent, r, pick);
    HealthyAtRecording(env, s, intent);
    var s' := SettleControl(env, s, intent, r, pick, now).0;
    var c := s.snapshots[s.active].entries[intent.component];
    InstalledContent(env, s, s', s.snapshots[s.active].entries[intent.component := Controlled(c, r)]);
  }

  // -------------------------------------------------------------- One effect at a time

  /** In every state, a component with a pending control decision has no other, and no deployment
      of it still waits for its approval. */
  lemma OneEffectAtATime(env: Env, start: State, steps: seq<Step>, states: seq<State>, s: State, d: string)
    requires IsInit(env, start) && IsRun(env, start, steps, states) && s in states
    requires d in s.controls && s.controls[d].status.ControlPending?
    ensures !DeploymentIsPending(s, s.controls[d].intent.component)
    ensures forall other <- s.controls
              | other != d && s.controls[other].intent.component == s.controls[d].intent.component ::
              !s.controls[other].status.ControlPending?
  {
    var n :| 0 <= n < |states| && states[n] == s;
    RunInvariant(env, start, steps, states, n);
    var c := s.controls[d].intent.component;
    assert PendingFor(s, d, c);
    assert forall other <- s.controls | other != d && s.controls[other].intent.component == c ::
      !PendingFor(s, other, c);
  }

  // ------------------------------------------------------------------- Versions

  function ActiveEntries(s: State): map<string, Component> {
    if s.active in s.snapshots then s.snapshots[s.active].entries else map[]
  }

  predicate IsRollback(step: Step) {
    step.SettleControlStep? && step.control.action.Rollback?
  }

  /** No component loses its entry, and no version goes down. */
  ghost predicate NoVersionFalls(before: map<string, Component>, after: map<string, Component>) {
    forall k <- before ::
      k in after && (after[k].version == before[k].version || Versions.Newer(after[k].version, before[k].version))
  }

  /** A deployment that commits puts a strictly newer version over the entry it replaces. */
  lemma DeploymentRaisesVersion(env: Env, s: State, i: Identity, intent: DeploymentIntent, m: ServiceManifest,
                                r: DeploymentReceipt, agent: string, authentic: bool, now: int)
    requires SnapshotInv(env, s) && Injective(env)
    requires Committed(ActivateService(env, s, i, intent, m, r, agent, authentic, now).1)
    ensures var s' := ActivateService(env, s, i, intent, m, r, agent, authentic, now).0;
            && ActiveEntries(s') == ActiveEntries(s)[m.component := Deployed(i, m, r)]
            && (m.component in ActiveEntries(s) ==>
                  && Versions.Newer(m.version, ActiveEntries(s)[m.component].version)
                  && r.previousArtifact == Some(ActiveEntries(s)[m.component].artifact))
            && NoVersionFalls(ActiveEntries(s), ActiveEntries(s'))
  {
    ActivateServiceEffect(env, s, i, intent, m, r, agent, authentic, now);
    var s' := ActivateService(env, s, i, intent, m, r, agent, authentic, now).0;
    DeployRaises(env, s, s', i, intent, m, r, LoadValidatedBinding(s.tables, i, agent, authentic).value.proposal);
  }

  lemma DeployRaises(env: Env, s: State, s': State, i: Identity, intent: DeploymentIntent, m: ServiceManifest,
                     r: DeploymentReceipt, p: Proposal)
    requires SnapshotInv(env, s) && Injective(env) && Deploys(env, s, s', i, intent, m, r, p)
    ensures ActiveEntries(s') == ActiveEntries(s)[m.component := Deployed(i, m, r)]
    ensures m.component in ActiveEntries(s) ==>
              && Versions.Newer(m.version, ActiveEntries(s)[m.component].version)
              && r.previousArtifact == Some(ActiveEntries(s)[m.component].artifact)
    ensures NoVersionFalls(ActiveEntries(s), ActiveEntries(s'))
  {
    InstalledContent(env, s, s', ActiveEntries(s)[m.component := Deployed(i, m, r)]);
  }

  predicate IsMove(step: Step) {
    step.ActivateStep? || step.SettleControlStep?
  }

  lemma OtherStepsKeepEntries(env: Env, s: State, step: Step)
    requires Enabled(env, s, step) && !IsMove(step)
    ensures ActiveEntries(Apply(env, s, step)) == ActiveEntries(s)
  {
    match step
    case RecordDeploymentStep(i, intent, m, agent, authentic, now) =>
      RecordDeploymentEffect(env, s, i, intent, m, agent, authentic, now);
    case RecordControlStep(control, owner) => RecordControlEffect(env, s, control, owner);
    case FailControlStep(_) =>
    case _ => TableStepsKeepEntries(env, s, step);
  }

  lemma TableStepsKeepEntries(env: Env, s: State, step: Step)
    requires Enabled(env, s, step)
    requires step.FinishStep? || step.ExpireStep? || step.SubmitStep? || step.OtherDecisionStep?
             || step.OtherAppendStep?
    ensures ActiveEntries(Apply(env, s, step)) == ActiveEntries(s)
  {
  }

  lemma ActivationKeepsVersions(env: Env, s: State, i: Identity, intent: DeploymentIntent, m: ServiceManifest,
                                r: DeploymentReceipt, agent: string, authentic: bool, now: int)
    requires SnapshotInv(env, s) && Injective(env)
    ensures NoVersionFalls(ActiveEntries(s),
                           ActiveEntries(ActivateService(env, s, i, intent, m, r, agent, authentic, now).0))
  {
    ActivateServiceEffect(env, s, i, intent, m, r, agent, authentic, now);
    if Committed(ActivateService(env, s, i, intent, m, r, agent, authentic, now).1) {
      DeploymentRaisesVersion(env, s, i, intent, m, r, agent, authentic, now);
    }
  }

  /** Only a rollback can lower a version: across every other step of every run each active
      component keeps its entry, with the same version or a strictly newer one. */
  lemma OnlyRollbackLowersVersions(env: Env, start: State, steps: seq<Step>, states: seq<State>, n: nat)
    requires IsInit(env, start) && IsRun(env, start, steps, states) && n < |steps| && Injective(env)
    requires !IsRollback(steps[n])
    ensures NoVersionFalls(ActiveEntries(states[n]), ActiveEntries(states[n + 1]))
  {
    var s := states[n];
    assert TakesStep(env, steps, states, n);
    if steps[n].ActivateStep? {
      RunInvariant(env, start, steps, states, n);
      var ActivateStep(i, intent, m, r, agent, authentic, now) := steps[n];
      ActivationKeepsVersions(env, s, i, intent, m, r, agent, authentic, now);
    } else if steps[n].SettleControlStep? {
      var SettleControlStep(control, receipt, pick, now) := steps[n];
      SettleControlEffect(env, s, control, receipt, pick, now);
      if ControlCommitted(SettleControl(env, s, control, receipt, pick, now).1) {
        DisableChangesOneStatus(env, start, steps, states, n, control, receipt, pick, now);
      }
    } else {
      OtherStepsKeepEntries(env, s, steps[n]);
    }
  }

  // --------------------------------------------------------------------- Replays

  /** The control decision has been settled with this receipt and result. */
  predicate SettledAs(env: Env, s: State, intent: ControlIntent, r: ControlReceipt, target: string, c: Component) {
    && env.controlValid(intent) && ControlReceiptFor(env, r, intent)
    && intent.decisionId in s.controls && s.controls[intent.decisionId] == ControlRow(intent, ControlSucceeded)
    && intent.decisionId in s.outcomes && s.outcomes[intent.decisionId] == ControlOutcome(target, r)
    && target in s.snapshots && env.snapshotId(s.snapshots[target].entries) == target
    && intent.component in s.snapshots[target].entries && s.snapshots[target].entries[intent.component] == c
  }

  lemma SettledReplays(env: Env, s: State, intent: ControlIntent, r: ControlReceipt, target: string, c: Component,
                       r': ControlReceipt, pick: Option<string>, now: int)
    requires SettledAs(env, s, intent, r, target, c)
    ensures ReplayControl(env, s, intent) == Ok(Some(ControlResult(target, r.receiptId, c, true)))
    ensures SettleControl(env, s, intent, r, pick, now) == (s, Ok(ControlResult(target, r.receiptId, c, true)))
    ensures var (s', result) := SettleControl(env, s, intent, r', pick, now); r' != r ==> s' == s && result.Err?
  {
  }

  lemma CommitSettles(env: Env, s: State, intent: ControlIntent, r: ControlReceipt, pick: Option<string>, now: int)
    requires SnapshotInv(env, s) && Injective(env)
    requires ControlCommitted(SettleControl(env, s, intent, r, pick, now).1)
    ensures var (s', result) := SettleControl(env, s, intent, r, pick, now);
            && result.value == ControlResult(s'.active, r.receiptId, result.value.component, false)
            && SettledAs(env, s', intent, r, s'.active, result.value.component)
  {
    SettleControlEffect(env, s, intent, r, pick, now);
    var (s', result) := SettleControl(env, s, intent, r, pick, now);
    InstalledContent(env, s, s', s.snapshots[s.active].entries[intent.component := result.value.component]);
  }

  lemma RunSettles(env: Env, start: State, steps: seq<Step>, states: seq<State>, j: nat,
                   intent: ControlIntent, r: ControlReceipt, pick: Option<string>, now: int)
    requires IsInit(env, start) && IsRun(env, start, steps, states) && j < |steps| && Injective(env)
    requires steps[j] == SettleControlStep(intent, r, pick, now)
    requires ControlCommitted(SettleControl(env, states[j], intent, r, pick, now).1)
    ensures var result := SettleControl(env, states[j], intent, r, pick, now).1.value;
            && result == ControlResult(states[j + 1].active, r.receiptId, result.component, false)
            && SettledAs(env, states[j + 1], intent, r, result.target, result.component)
  {
    RunInvariant(env, start, steps, states, j);
    assert TakesStep(env, steps, states, j);
    CommitSettles(env, states[j], intent, r, pick, now);
  }

  lemma SettledStays(env: Env, s: State, t: State, intent: ControlIntent, r: ControlReceipt, target: string,
                     c: Component)
    requires SettledAs(env, s, intent, r, target, c) && Grows(s, t)
    ensures SettledAs(env, t, intent, r, target, c)
  {
  }

  /** A settled control decision replays its recorded result at every later state, whatever has
      been installed since: through the lookup, and through settling again with the same receipt.
      A different receipt is refused. None of this changes anything. */
  lemma ControlReplaysForever(env: Env, start: State, steps: seq<Step>, states: seq<State>, j: nat, k: nat,
                              intent: ControlIntent, r: ControlReceipt, pick: Option<string>, now: int,
                              r': ControlReceipt, pick': Option<string>, now': int)
    requires IsInit(env, start) && IsRun(env, start, steps, states) && j < k <= |steps| && Injective(env)
    requires steps[j] == SettleControlStep(intent, r, pick, now)
    requires ControlCommitted(SettleControl(env, states[j], intent, r, pick, now).1)
    ensures var result := SettleControl(env, states[j], intent, r, pick, now).1.value.(replayed := true);
            && ReplayControl(env, states[k], intent) == Ok(Some(result))
            && SettleControl(env, states[k], intent, r, pick', now') == (states[k], Ok(result))
    ensures r' != r ==> SettleControl(env, states[k], intent, r', pick', now').0 == states[k]
                        && SettleControl(env, states[k], intent, r', pick', now').1.Err?
  {
    RunSettles(env, start, steps, states, j, intent, r, pick, now);
    RunGrows(env, start, steps, states, j + 1, k);
    var result := SettleControl(env, states[j], intent, r, pick, now).1.value;
    SettledStays(env, states[j + 1], states[k], intent, r, result.target, result.component);
    SettledReplays(env, states[k], intent, r, result.target, result.component, r', pick', now');
  }

  lemma FailedRefuses(env: Env, s: State, intent: ControlIntent, owner: string, r: ControlReceipt, pick: Option<string>,
                      now: int)
    requires ControlInv(env, s)
    requires intent.decisionId in s.controls && s.controls[intent.decisionId].status.ControlFailed?
    ensures RecordControl(env, s, intent, owner).0 == s && RecordControl(env, s, intent, owner).1.Err?
    ensures var (s', result) := SettleControl(env, s, intent, r, pick, now); s' == s && result.Err?
  {
    SettleControlEffect(env, s, intent, r, pick, now);
    assert intent.decisionId !in s.outcomes by {
      assert forall d <- s.outcomes :: OutcomeGrounded(env, s, d);
    }
  }

  /** A failed control decision is final: it is never accepted or settled again. */
  lemma FailedControlIsFinal(env: Env, start: State, steps: seq<Step>, states: seq<State>, j: nat, k: nat,
                             intent: ControlIntent, owner: string, r: ControlReceipt, pick: Option<string>, now: int)
    requires IsInit(env, start) && IsRun(env, start, steps, states) && j <= k <= |steps|
    requires intent.decisionId in states[j].controls && states[j].controls[intent.decisionId].status.ControlFailed?
    ensures RecordControl(env, states[k], intent, owner).0 == states[k]
    ensures RecordControl(env, states[k], intent, owner).1.Err?
    ensures var (s', result) := SettleControl(env, states[k], intent, r, pick, now); s' == states[k] && result.Err?
  {
    RunGrows(env, start, steps, states, j, k);
    RunInvariant(env, start, steps, states, k);
    FailedRefuses(env, states[k], intent, owner, r, pick, now);
  }

  lemma StepShifts(env: Env, s: State, step: Step)
    requires Enabled(env, s, step)
    ensures Shifts(s.tables, Apply(env, s, step).tables)
  {
    match step
    case RecordDeploymentStep(i, intent, m, agent, authentic, now) =>
      RecordDeploymentEffect(env, s, i, intent, m, agent, authentic, now);
    case ActivateStep(i, intent, m, r, agent, authentic, now) =>
      ActivateServiceEffect(env, s, i, intent, m, r, agent, authentic, now);
    case RecordControlStep(control, owner) => RecordControlEffect(env, s, control, owner);
    case SettleControlStep(control, receipt, pick, now) => SettleControlEffect(env, s, control, receipt, pick, now);
    case FinishStep(i, agent, authentic, terminal, error, now) =>
      FinishEvolves(s.tables, i, agent, authentic, terminal, error, now);
    case ExpireStep(approvalId, agent, now) => ExpireEvolves(s.tables, approvalId, agent, now);
    case SubmitStep(approvalId, terms, p) => SubmitEvolves(s.tables, approvalId, terms, p);
    case _ =>
  }

  function TablesOf(states: seq<State>): (ts: seq<Tables>)
    ensures |ts| == |states| && forall k | 0 <= k < |ts| :: ts[k] == states[k].tables
  {
    seq(|states|, k requires 0 <= k < |states| => states[k].tables)
  }

  lemma RunIsHistory(env: Env, start: State, steps: seq<Step>, states: seq<State>)
    requires IsInit(env, start) && IsRun(env, start, steps, states)
    ensures IsHistory(TablesOf(states))
  {
    var ts := TablesOf(states);
    forall k | 0 <= k < |ts| - 1 ensures Shifts(ts[k], ts[k + 1]) {
      assert TakesStep(env, steps, states, k);
      StepShifts(env, states[k], steps[k]);
    }
  }

  /** In every state of every run, capability activations and direct decisions included, every
      approval has its own proposal and a settled one has it in the corresponding status. */
  lemma RunPaired(env: Env, start: State, steps: seq<Step>, states: seq<State>, n: nat)
    requires IsInit(env, start) && IsRun(env, start, steps, states) && n <= |steps|
    ensures Paired(states[n].tables)
  {
    RunIsHistory(env, start, steps, states);
    HistoryPaired(TablesOf(states), n);
  }

  /** A state of a run is in lockstep exactly when no step before it decided a proposal directly
      for which an approval was pending. */
  lemma RunLockstepExactly(env: Env, start: State, steps: seq<Step>, states: seq<State>, n: nat)
    requires IsInit(env, start) && IsRun(env, start, steps, states) && n <= |steps|
    ensures Lockstep(states[n].tables) <==> forall k | 0 <= k < n :: Guarded(states[k].tables, states[k + 1].tables)
  {
    var ts := TablesOf(states);
    RunIsHistory(env, start, steps, states);
    HistoryLockstepExactly(ts, n);
    assert forall k | 0 <= k < n :: Guarded(states[k].tables, states[k + 1].tables) <==> Guarded(ts[k], ts[k + 1]);
  }

  /** With direct decisions behind the route, every state of every run is in lockstep. */
  lemma RoutedRunLockstep(env: Env, start: State, steps: seq<Step>, states: seq<State>, n: nat)
    requires IsInit(env, start) && IsRun(env, start, steps, states) && n <= |steps| && Routed(TablesOf(states))
    ensures Lockstep(states[n].tables)
  {
    RunIsHistory(env, start, steps, states);
    RoutedLockstep(TablesOf(states), n);
  }

  lemma StepFreezes(env: Env, s: State, step: Step, id: string)
    requires Enabled(env, s, step) && id in s.tables.approvals
    ensures FrozenIn(s.tables, Apply(env, s, step).tables, id)
  {
    StepShifts(env, s, step);
    ShiftsFreezes(s.tables, Apply(env, s, step).tables, id);
  }

  lemma {:induction false} RunFreezes(env: Env, start: State, steps: seq<Step>, states: seq<State>, m: nat, n: nat,
                                      id: string)
    requires IsRun(env, start, steps, states) && m <= n <= |steps| && id in states[m].tables.approvals
    ensures FrozenIn(states[m].tables, states[n].tables, id)
  {
    if m < n {
      RunFreezes(env, start, steps, states, m, n - 1, id);
      assert TakesStep(env, steps, states, n - 1);
      StepFreezes(env, states[n - 1], steps[n - 1], id);
      FreezesTwice(states[m].tables, states[n - 1].tables, states[n].tables, id);
    }
  }

  /** A decision transaction on this approval: recording its deployment, activating, rejecting,
      failing or expiring it. */
  predicate Decides(step: Step, id: string) {
    || (step.RecordDeploymentStep? && step.i.approvalId == id)
    || (step.ActivateStep? && step.i.approvalId == id)
    || (step.FinishStep? && step.i.approvalId == id)
    || (step.ExpireStep? && step.approvalId == id)
  }

  /** The call changes nothing and answers with the recorded result or an error. */
  ghost predicate Inert(env: Env, s: State, step: Step, a: Approval)
    requires Enabled(env, s, step)
  {
    && Apply(env, s, step) == s
    && match step
       case RecordDeploymentStep(i, intent, m, agent, authentic, now) =>
         RecordDeployment(env, s, i, intent, m, agent, authentic, now).1.Err?
       case ActivateStep(i, intent, m, r, agent, authentic, now) =>
         Replays(a, ActivateService(env, s, i, intent, m, r, agent, authentic, now).1)
       case FinishStep(i, agent, authentic, terminal, error, now) =>
         Replays(a, FinishWithoutActivation(s.tables, i, agent, authentic, terminal, error, now).result)
       case ExpireStep(approvalId, agent, now) => Approvals.Expire(s.tables, approvalId, agent, now).2 != Ok(true)
       case _ => true
  }

  lemma SettledIsInert(env: Env, s: State, step: Step, id: string)
    requires Enabled(env, s, step) && Decides(step, id) && id in s.tables.approvals
    requires !s.tables.approvals[id].status.Pending?
    ensures Inert(env, s, step, s.tables.approvals[id])
  {
    assert s.log + [] == s.log;
  }

  /** Once an approval is settled, every later decision call on it, with whatever arguments and at
      whatever later state of the run, changes nothing and returns the result recorded when it
      settled, or fails. */
  lemma SettledDecisionsAreInert(env: Env, start: State, steps: seq<Step>, states: seq<State>, j: nat, k: nat,
                                 id: string, call: Step)
    requires IsRun(env, start, steps, states) && j <= k <= |steps|
    requires id in states[j].tables.approvals && !states[j].tables.approvals[id].status.Pending?
    requires Decides(call, id) && Enabled(env, states[k], call)
    ensures Inert(env, states[k], call, states[j].tables.approvals[id])
  {
    RunFreezes(env, start, steps, states, j, k, id);
    SettledIsInert(env, states[k], call, id);
  }

  lemma CommittedRow(env: Env, s: State, i: Identity, intent: DeploymentIntent, m: ServiceManifest,
                     r: DeploymentReceipt, agent: string, now: int)
    requires Committed(ActivateService(env, s, i, intent, m, r, agent, true, now).1)
    ensures var (s', result) := ActivateService(env, s, i, intent, m, r, agent, true, now);
            && WellBound(env, i, intent, m, r)
            && i.approvalId in s.tables.approvals && i.approvalId in s'.tables.approvals
            && LoadValidatedBinding(s.tables, i, agent, true).Ok?
            && result.value == DecisionResult(i.decisionId, Approved, Some(s'.active), Some(r.deploymentId), None,
                                              false)
            && s'.tables.approvals[i.approvalId]
               == Approval(s.tables.approvals[i.approvalId].terms, Approved,
                           Decision(Some(i.decisionId), Some(i.payloadDigest), Some(result.value), Some(i.principal),
                                    Some(s'.active), Some(r.deploymentId), None))
  {
  }

  /** The static checks of an activation, which only look at its arguments. */
  predicate WellBound(env: Env, i: Identity, intent: DeploymentIntent, m: ServiceManifest, r: DeploymentReceipt) {
    && env.manifestValid(m) && env.intentValid(intent) && ReceiptFor(env, r, intent, m.component)
    && m.id != "" && intent.manifestDigest == i.manifest && m.artifact == i.artifact
  }

  lemma ApprovedReplays(env: Env, t: State, i: Identity, intent: DeploymentIntent, m: ServiceManifest,
                        r: DeploymentReceipt, agent: string, now: int, b: Binding, result: DecisionResult)
    requires WellBound(env, i, intent, m, r) && LoadValidatedBinding(t.tables, i, agent, true) == Ok(b)
    requires result.decisionId == i.decisionId && result.status.Approved? && result.deployment == Some(r.deploymentId)
    requires b.approval.status.Approved?
    requires b.approval.decision == Decision(Some(i.decisionId), Some(i.payloadDigest), Some(result), Some(i.principal),
                                             result.snapshot, result.deployment, result.error)
    ensures ActivateService(env, t, i, intent, m, r, agent, true, now) == (t, Ok(result.(replayed := true)))
  {
  }

  /** Once a service activation commits, repeating it at any later state of the run returns the
      first result marked replayed and changes nothing. */
  lemma ServiceActivationReplaysForever(env: Env, start: State, steps: seq<Step>, states: seq<State>, j: nat, k: nat,
                                        i: Identity, intent: DeploymentIntent, m: ServiceManifest, r: DeploymentReceipt,
                                        agent: string, now: int, now': int)
    requires IsRun(env, start, steps, states) && j < k <= |steps|
    requires steps[j] == ActivateStep(i, intent, m, r, agent, true, now)
    requires Committed(ActivateService(env, states[j], i, intent, m, r, agent, true, now).1)
    ensures var result := ActivateService(env, states[j], i, intent, m, r, agent, true, now).1.value;
            ActivateService(env, states[k], i, intent, m, r, agent, true, now')
              == (states[k], Ok(result.(replayed := true)))
  {
    assert TakesStep(env, steps, states, j);
    CommittedRow(env, states[j], i, intent, m, r, agent, now);
    RunFreezes(env, start, steps, states, j, k, i.approvalId);
    RunFreezes(env, start, steps, states, j + 1, k, i.approvalId);
    LoadStable(states[j].tables, states[k].tables, i, agent);
    ApprovedReplays(env, states[k], i, intent, m, r, agent, now',
                    Binding(states[k].tables.approvals[i.approvalId], states[k].tables.proposals[i.proposalId]),
                    ActivateService(env, states[j], i, intent, m, r, agent, true, now).1.value);
  }

  // --------------------------------------------------- Recording a deployment intent

  /** The checks a deployment intent must pass before it is looked up: its binding, its pending
      approval and a version newer than the active one. */
  predicate Admissible(env: Env, s: State, i: Identity, intent: DeploymentIntent, m: ServiceManifest, agent: string,
                       authentic: bool, now: int)
  {
    && env.manifestValid(m) && env.intentValid(intent) && IntentBound(intent, i, m)
    && var binding := LoadValidatedBinding(s.tables, i, agent, authentic);
    && binding.Ok? && ValidatePending(s, binding.value, i, now).Ok?
    && binding.value.proposal.linkOperation == m.component
    && var entries := Load(env, s.snapshots, s.active);
    && entries.Ok? && (m.component in entries.value ==> Versions.Newer(m.version, entries.value[m.component].version))
  }

  /** What a deployment intent must meet to be recorded, now or again. */
  predicate Recordable(env: Env, s: State, i: Identity, intent: DeploymentIntent, m: ServiceManifest, agent: string,
                       authentic: bool, now: int)
  {
    && Admissible(env, s, i, intent, m, agent, authentic, now)
    && if intent.intentId in s.deployments then s.deployments[intent.intentId] == DeployRow(m.component, intent)
       else
         && !ApprovedDeploymentInFlight(s, m.component, intent.intentId) && !ControlIsPending(s, m.component)
         && DeploymentKeysFree(s, intent)
  }

  /** Recording a deployment intent is not idempotent on the log: a call leaves the state as it
      was exactly when the intent cannot be recorded, repeats included. */
  lemma RecordIsNoOpExactly(env: Env, s: State, i: Identity, intent: DeploymentIntent, m: ServiceManifest,
                            agent: string, authentic: bool, now: int)
    ensures var (s', r) := RecordDeployment(env, s, i, intent, m, agent, authentic, now);
            && (s' == s <==> !Recordable(env, s, i, intent, m, agent, authentic, now))
            && (r.Ok? <==> Recordable(env, s, i, intent, m, agent, authentic, now))
  {
    var (s', r) := RecordDeployment(env, s, i, intent, m, agent, authentic, now);
    if r.Ok? { assert |s'.log| > |s.log|; }
  }

  /** A successful record repeated at once succeeds again, adds a second approval event and
      changes no table. */
  lemma RepeatedRecordAppendsApproval(env: Env, s: State, i: Identity, intent: DeploymentIntent, m: ServiceManifest,
                                      agent: string, authentic: bool, now: int)
    requires Recordable(env, s, i, intent, m, agent, authentic, now)
    ensures var s1 := RecordDeployment(env, s, i, intent, m, agent, authentic, now).0;
            var p := LoadValidatedBinding(s.tables, i, agent, authentic).value.proposal;
            RecordDeployment(env, s1, i, intent, m, agent, authentic, now)
            == (s1.(log := s1.log + [ProposalEvent(CapabilityChangeApproved, p, i.proposalId)]), Ok(()))
  {
  }
}
