/** Deployments of one component that are in flight at the same time: when the kernel refuses a
    second one, when two overlap, and what still holds of them. */
module ComponentOverlap {
  import opened Journal
  import opened Approvals
  import opened Components
  import opened ComponentHistory
  import opened ComponentSafety
  import Versions

  // ----------------------------------------------------------- The in-flight check

  /** An intent is refused as in flight exactly when it passes the checks before, is new, and a
      control decision is pending or a recorded deployment of the component has a proposal in
      status Approved and no receipt. */
  lemma InFlightRefusedExactly(env: Env, s: State, i: Identity, intent: DeploymentIntent, m: ServiceManifest,
                               agent: string, authentic: bool, now: int)
    ensures RecordDeployment(env, s, i, intent, m, agent, authentic, now).1 == Err(ServiceComponentEffectInFlight) <==>
            && Admissible(env, s, i, intent, m, agent, authentic, now) && intent.intentId !in s.deployments
            && (ApprovedDeploymentInFlight(s, m.component, intent.intentId) || ControlIsPending(s, m.component))
  {
  }

  predicate NoneApproved(t: Tables) {
    forall proposalId <- t.proposals :: !t.proposals[proposalId].status.ProposalApproved?
  }

  /** The change leaves no proposal in status Approved by deciding or storing it directly. */
  ghost predicate ApprovesNothing(t: Tables, t': Tables) {
    forall proposalId | DirectlyDecides(t, t', proposalId) || ArrivesAlone(t, t', proposalId) ::
      !t'.proposals[proposalId].status.ProposalApproved?
  }

  lemma ShiftsKeepsNoneApproved(t: Tables, t': Tables)
    requires NoneApproved(t) && Shifts(t, t') && ApprovesNothing(t, t')
    ensures NoneApproved(t')
  {
    if proposalId :| DirectlyDecides(t, t', proposalId) || ArrivesAlone(t, t', proposalId) {
      assert !t'.proposals[proposalId].status.ProposalApproved?;
    } else if Evolves(t, t') && t' != t {
      var id :| Settles(t, t', id) || Arrives(t, t', id);
    }
  }

  lemma {:induction false} RunNoneApproved(env: Env, start: State, steps: seq<Step>, states: seq<State>, n: nat)
    requires IsInit(env, start) && IsRun(env, start, steps, states) && n <= |steps|
    requires forall k | 0 <= k < n :: ApprovesNothing(states[k].tables, states[k + 1].tables)
    ensures NoneApproved(states[n].tables)
  {
    if n > 0 {
      RunNoneApproved(env, start, steps, states, n - 1);
      assert TakesStep(env, steps, states, n - 1);
      assert ApprovesNothing(states[n - 1].tables, states[n - 1 + 1].tables);
      StepShifts(env, states[n - 1], steps[n - 1]);
      ShiftsKeepsNoneApproved(states[n - 1].tables, states[n].tables);
    }
  }

  /** No trusted step sets status Approved. In every run whose direct decisions do not either, only
      a pending control decision refuses an intent as in flight, however many deployments of the
      component are on their way. */
  lemma OnlyControlsRefuse(env: Env, start: State, steps: seq<Step>, states: seq<State>, n: nat, i: Identity,
                           intent: DeploymentIntent, m: ServiceManifest, agent: string, authentic: bool, now: int)
    requires IsInit(env, start) && IsRun(env, start, steps, states) && n <= |steps|
    requires forall k | 0 <= k < n :: ApprovesNothing(states[k].tables, states[k + 1].tables)
    ensures RecordDeployment(env, states[n], i, intent, m, agent, authentic, now).1
            == Err(ServiceComponentEffectInFlight) <==>
            && Admissible(env, states[n], i, intent, m, agent, authentic, now)
            && intent.intentId !in states[n].deployments
            && ControlIsPending(states[n], m.component)
  {
    RunNoneApproved(env, start, steps, states, n);
    InFlightRefusedExactly(env, states[n], i, intent, m, agent, authentic, now);
  }

  // ---------------------------------------------------------- One deployment at a time

  /** A recorded deployment of the component whose approval is still pending. */
  predicate InFlight(s: State, d: string, component: string) {
    && d in s.deployments && s.deployments[d].component == component
    && exists a <- s.tables.approvals ::
         && s.tables.approvals[a].terms.proposalId == s.deployments[d].intent.proposalId
         && s.tables.approvals[a].status.Pending?
  }

  /** At most one deployment of each component is in flight. */
  ghost predicate Solo(s: State) {
    forall d, e, c | InFlight(s, d, c) && InFlight(s, e, c) :: d == e
  }

  /** The step records a new intent for a component that already has a deployment in flight. */
  predicate Overlaps(env: Env, s: State, step: Step) {
    && step.RecordDeploymentStep? && step.intent.intentId !in s.deployments && DeploymentIsPending(s, step.m.component)
    && Recordable(env, s, step.i, step.intent, step.m, step.agent, step.authentic, step.now)
  }

  lemma PendingExactly(s: State, component: string)
    ensures DeploymentIsPending(s, component) <==> exists d :: InFlight(s, d, component)
  {
    if DeploymentIsPending(s, component) {
      var d, a :| && d in s.deployments && a in s.tables.approvals && s.deployments[d].component == component
                  && s.tables.approvals[a].terms.proposalId == s.deployments[d].intent.proposalId
                  && s.tables.approvals[a].status.Pending?;
      assert InFlight(s, d, component);
    }
  }

  lemma OtherStepsKeepDeployments(env: Env, s: State, step: Step)
    requires Enabled(env, s, step) && !step.RecordDeploymentStep?
    ensures Apply(env, s, step).deployments == s.deployments
  {
    match step
    case ActivateStep(i, intent, m, r, agent, authentic, now) =>
      ActivateServiceEffect(env, s, i, intent, m, r, agent, authentic, now);
    case RecordControlStep(control, owner) => RecordControlEffect(env, s, control, owner);
    case SettleControlStep(control, receipt, pick, now) => SettleControlEffect(env, s, control, receipt, pick, now);
    case _ =>
  }

  lemma InFlightBefore(env: Env, s: State, s': State, d: string, component: string)
    requires ControlInv(env, s) && Shifts(s.tables, s'.tables) && s'.deployments == s.deployments
    requires InFlight(s', d, component)
    ensures InFlight(s, d, component)
  {
    var a :| && a in s'.tables.approvals && s'.tables.approvals[a].status.Pending?
             && s'.tables.approvals[a].terms.proposalId == s'.deployments[d].intent.proposalId;
    assert RowBound(env, s.tables, d, s.deployments[d]);
    PendingBefore(s.tables, s'.tables, a);
  }

  lemma NewIntentSoloExactly(s: State, s': State, d: string, component: string)
    requires Solo(s) && d !in s.deployments && d in s'.deployments && s'.tables == s.tables
    requires s'.deployments == s.deployments[d := s'.deployments[d]] && InFlight(s', d, component)
    ensures Solo(s') <==> !DeploymentIsPending(s, component)
  {
    PendingExactly(s, component);
    assert forall e, c | e != d :: InFlight(s', e, c) <==> InFlight(s, e, c);
    if e :| InFlight(s, e, component) {
      assert InFlight(s', e, component);
    }
  }

  lemma RecordedIsInFlight(env: Env, s: State, i: Identity, intent: DeploymentIntent, m: ServiceManifest, agent: string,
                           authentic: bool, now: int)
    requires Recordable(env, s, i, intent, m, agent, authentic, now)
    ensures var s' := RecordDeployment(env, s, i, intent, m, agent, authentic, now).0;
            && s'.tables == s.tables && intent.intentId in s'.deployments
            && s'.deployments == s.deployments[intent.intentId := s'.deployments[intent.intentId]]
            && (intent.intentId in s.deployments ==> s'.deployments == s.deployments)
            && InFlight(s', intent.intentId, m.component)
  {
    assert i.approvalId in s.tables.approvals;
  }

  lemma StepSoloExactly(env: Env, first: string, s: State, step: Step)
    requires Inv(env, first, s) && Enabled(env, s, step) && Solo(s)
    ensures Solo(Apply(env, s, step)) <==> !Overlaps(env, s, step)
  {
    var s' := Apply(env, s, step);
    if step.RecordDeploymentStep? {
      var RecordDeploymentStep(i, intent, m, agent, authentic, now) := step;
      RecordIsNoOpExactly(env, s, i, intent, m, agent, authentic, now);
      if Recordable(env, s, i, intent, m, agent, authentic, now) {
        RecordedIsInFlight(env, s, i, intent, m, agent, authentic, now);
        if intent.intentId in s.deployments {
          assert forall d, c :: InFlight(s', d, c) <==> InFlight(s, d, c);
        } else {
          NewIntentSoloExactly(s, s', intent.intentId, m.component);
        }
      }
    } else {
      OtherStepsKeepDeployments(env, s, step);
      StepShifts(env, s, step);
      forall d, c | InFlight(s', d, c) ensures InFlight(s, d, c) { InFlightBefore(env, s, s', d, c); }
    }
  }

  lemma RunStepSolo(env: Env, start: State, steps: seq<Step>, states: seq<State>, n: nat)
    requires IsInit(env, start) && IsRun(env, start, steps, states) && n < |steps|
    ensures Solo(states[n]) ==> (Solo(states[n + 1]) <==> !Overlaps(env, states[n], steps[n]))
  {
    RunInvariant(env, start, steps, states, n);
    assert TakesStep(env, steps, states, n);
    if Solo(states[n]) { StepSoloExactly(env, start.active, states[n], steps[n]); }
  }

  lemma {:induction false} RunStaysSolo(env: Env, start: State, steps: seq<Step>, states: seq<State>, n: nat)
    requires IsInit(env, start) && IsRun(env, start, steps, states) && n <= |steps|
    requires forall k | 0 <= k < n :: !Overlaps(env, states[k], steps[k])
    ensures Solo(states[n])
  {
    if n > 0 {
      RunStaysSolo(env, start, steps, states, n - 1);
      RunStepSolo(env, start, steps, states, n - 1);
    }
  }

  /** Deployments of a component exclude each other throughout a run exactly when no intent is
      recorded while one of its component is in flight, which the kernel does not check. */
  lemma RunSoloExactly(env: Env, start: State, steps: seq<Step>, states: seq<State>, n: nat)
    requires IsInit(env, start) && IsRun(env, start, steps, states) && n <= |steps|
    ensures (forall k | 0 <= k <= n :: Solo(states[k])) <==>
            forall k | 0 <= k < n :: !Overlaps(env, states[k], steps[k])
  {
    if forall k | 0 <= k < n :: !Overlaps(env, states[k], steps[k]) {
      forall k | 0 <= k <= n ensures Solo(states[k]) { RunStaysSolo(env, start, steps, states, k); }
    } else {
      var k :| 0 <= k < n && Overlaps(env, states[k], steps[k]);
      RunStepSolo(env, start, steps, states, k);
    }
  }

  // ------------------------------------------------------------ What overlap leaves

  /** The component is active with this version or a newer one. */
  predicate AtLeast(s: State, component: string, version: string) {
    && component in ActiveEntries(s)
    && var v := ActiveEntries(s)[component].version; v == version || Versions.Newer(v, version)
  }

  predicate RollsBack(step: Step, component: string) {
    IsRollback(step) && step.control.component == component
  }

  lemma StepKeepsAtLeast(env: Env, start: State, steps: seq<Step>, states: seq<State>, n: nat, component: string,
                         version: string)
    requires IsInit(env, start) && IsRun(env, start, steps, states) && n < |steps| && Injective(env)
    requires AtLeast(states[n], component, version) && !RollsBack(steps[n], component)
    ensures AtLeast(states[n + 1], component, version)
  {
    if IsRollback(steps[n]) {
      assert TakesStep(env, steps, states, n);
      var SettleControlStep(control, receipt, pick, now) := steps[n];
      SettleControlEffect(env, states[n], control, receipt, pick, now);
      if ControlCommitted(SettleControl(env, states[n], control, receipt, pick, now).1) {
        RollbackRestoresReplacedArtifact(env, start, steps, states, n, control, receipt, pick, now);
      }
    } else {
      OnlyRollbackLowersVersions(env, start, steps, states, n);
      var v, v' := ActiveEntries(states[n])[component].version, ActiveEntries(states[n + 1])[component].version;
      Versions.NewerIsStrictOrder(v', v, version);
    }
  }

  lemma {:induction false} RunKeepsAtLeast(env: Env, start: State, steps: seq<Step>, states: seq<State>, m: nat, n: nat,
                                           component: string, version: string)
    requires IsInit(env, start) && IsRun(env, start, steps, states) && m <= n <= |steps| && Injective(env)
    requires AtLeast(states[m], component, version) && forall k | m <= k < n :: !RollsBack(steps[k], component)
    ensures AtLeast(states[n], component, version)
  {
    if m < n {
      RunKeepsAtLeast(env, start, steps, states, m, n - 1, component, version);
      StepKeepsAtLeast(env, start, steps, states, n - 1, component, version);
    }
  }

  /** The activation step commits a deployment of the manifest. */
  predicate Commits(env: Env, s: State, step: Step) {
    && step.ActivateStep?
    && Committed(ActivateService(env, s, step.i, step.intent, step.m, step.r, step.agent, step.authentic, step.now).1)
  }

  lemma CommitReaches(env: Env, start: State, steps: seq<Step>, states: seq<State>, n: nat)
    requires IsInit(env, start) && IsRun(env, start, steps, states) && n < |steps| && Injective(env)
    requires Commits(env, states[n], steps[n])
    ensures AtLeast(states[n + 1], steps[n].m.component, steps[n].m.version)
    ensures forall v | AtLeast(states[n], steps[n].m.component, v) :: Versions.Newer(steps[n].m.version, v)
  {
    var ActivateStep(i, intent, m, r, agent, authentic, now) := steps[n];
    RunInvariant(env, start, steps, states, n);
    assert TakesStep(env, steps, states, n);
    DeploymentRaisesVersion(env, states[n], i, intent, m, r, agent, authentic, now);
    forall v | AtLeast(states[n], m.component, v) ensures Versions.Newer(m.version, v) {
      Versions.NewerIsStrictOrder(m.version, ActiveEntries(states[n])[m.component].version, v);
    }
  }

  /** However deployments of one component overlap, they take effect one after the other and only
      upwards: with no rollback of the component in between, the later one to commit has the
      strictly newer version. So of two in flight with the same version at most one commits. */
  lemma LaterDeploymentIsNewer(env: Env, start: State, steps: seq<Step>, states: seq<State>, j: nat, k: nat)
    requires IsInit(env, start) && IsRun(env, start, steps, states) && j < k < |steps| && Injective(env)
    requires Commits(env, states[j], steps[j]) && Commits(env, states[k], steps[k])
    requires steps[j].m.component == steps[k].m.component
    requires forall x | j < x < k :: !RollsBack(steps[x], steps[j].m.component)
    ensures Versions.Newer(steps[k].m.version, steps[j].m.version) && steps[k].m.version != steps[j].m.version
  {
    var component, version := steps[j].m.component, steps[j].m.version;
    CommitReaches(env, start, steps, states, j);
    RunKeepsAtLeast(env, start, steps, states, j + 1, k, component, version);
    CommitReaches(env, start, steps, states, k);
    Versions.NewerIsStrictOrder(steps[k].m.version, version, version);
  }
}
