/** Trusted decisions in whole runs of the operation registry: the predicted snapshot is the
    installed one, and settled decisions replay. */
module OperationDecisions {
  import opened Journal
  import opened Approvals
  import opened OperationRegistry
  import opened OperationHistory

  // ------------------------------------------------------------- Prospective id

  /** The id predicted before the host is contacted is the id that activation installs, whatever
      happened in between, whenever the activation commits: with a host that was told anything
      else it does not commit. */
  lemma ProspectiveIsInstalled(env: Env, baseline: map<string, Spec>, steps: seq<Step>, states: seq<State>,
                               j: nat, k: nat, i: Identity, m: Manifest, deployment: string, target: string,
                               agent: string, authentic: bool, authentic': bool, grant: Result<bool>, now: int,
                               now': int)
    requires IsRun(env, baseline, steps, states) && j <= k <= |steps|
    requires i.approvalId in states[j].tables.approvals && states[j].tables.approvals[i.approvalId].status.Pending?
    requires ProspectiveSnapshot(env, states[j], i, m, agent, authentic, now).Ok?
    requires var r := ActivateTrusted(env, states[k], i, m, deployment, target, agent, authentic', grant, now').1;
             r.Ok? && !r.value.replayed
    ensures var predicted := ProspectiveSnapshot(env, states[j], i, m, agent, authentic, now).value;
            var s' := ActivateTrusted(env, states[k], i, m, deployment, target, agent, authentic', grant, now').0;
            target == predicted == s'.active
  {
    RunInvariant(env, baseline, steps, states, j);
    RunPersists(env, baseline, steps, states, j, k);
    TrustedCommit(env, states[k], i, m, deployment, target, agent, authentic', grant, now');
    assert states[k].snapshots[i.snapshot] == states[j].snapshots[i.snapshot];
  }

  // --------------------------------------------------- Decisions in whole runs

  lemma BootKeepsTables(env: Env, s: State)
    requires s.active in s.snapshots
    ensures Boot(env, s).tables == s.tables
  {
    assert BootFirst(env, s).tables == s.tables;
  }

  lemma ProposalShifts(env: Env, s: State, proposalId: string, ops: seq<Spec>, expected: string,
                       decisionId: string, manifest: Option<Manifest>, agent: string, now: int)
    ensures var s' := ActivateProposal(env, s, proposalId, ops, expected, decisionId, manifest, agent, now).0;
            Shifts(s.tables, s'.tables)
  {
    var (s', r) := ActivateProposal(env, s, proposalId, ops, expected, decisionId, manifest, agent, now);
    if r.Ok? { assert DirectlyDecides(s.tables, s'.tables, proposalId); }
  }

  lemma UpgradeShifts(env: Env, s: State, proposalId: string, decisionId: string, m: Manifest, agent: string, now: int)
    ensures Shifts(s.tables, SchemaUpgrade(env, s, proposalId, decisionId, m, agent, now).0.tables)
  {
    var (s', r) := SchemaUpgrade(env, s, proposalId, decisionId, m, agent, now);
    if r.Ok? { assert DirectlyDecides(s.tables, s'.tables, proposalId); }
  }

  lemma StepShifts(env: Env, first: string, s: State, step: Step)
    requires Inv(env, first, s) && Enabled(s, step)
    ensures Shifts(s.tables, Apply(env, s, step).tables)
  {
    match step
    case BootStep => BootKeepsTables(env, s);
    case ProposalStep(proposalId, ops, expected, decisionId, manifest, agent, now) =>
      ProposalShifts(env, s, proposalId, ops, expected, decisionId, manifest, agent, now);
    case UpgradeStep(proposalId, decisionId, m, agent, now) =>
      UpgradeShifts(env, s, proposalId, decisionId, m, agent, now);
    case TrustedStep(i, m, deployment, target, agent, authentic, grant, now) =>
      TrustedKeeps(env, first, s, i, m, deployment, target, agent, authentic, grant, now);
    case FinishStep(i, agent, authentic, terminal, error, now) =>
      FinishEvolves(s.tables, i, agent, authentic, terminal, error, now);
    case ExpireStep(approvalId, agent, now) => ExpireEvolves(s.tables, approvalId, agent, now);
    case SubmitStep(approvalId, terms, p) => SubmitEvolves(s.tables, approvalId, terms, p);
    case _ =>
  }

  lemma RunShifts(env: Env, baseline: map<string, Spec>, steps: seq<Step>, states: seq<State>, n: nat)
    requires IsRun(env, baseline, steps, states) && n < |steps|
    ensures Shifts(states[n].tables, states[n + 1].tables)
  {
    RunInvariant(env, baseline, steps, states, n);
    assert TakesStep(env, steps, states, n);
    StepShifts(env, Init(env, baseline).active, states[n], steps[n]);
  }

  function TablesOf(states: seq<State>): (ts: seq<Tables>)
    ensures |ts| == |states| && forall k | 0 <= k < |ts| :: ts[k] == states[k].tables
  {
    seq(|states|, k requires 0 <= k < |states| => states[k].tables)
  }

  lemma RunIsHistory(env: Env, baseline: map<string, Spec>, steps: seq<Step>, states: seq<State>)
    requires IsRun(env, baseline, steps, states)
    ensures IsHistory(TablesOf(states))
  {
    var ts := TablesOf(states);
    forall k | 0 <= k < |ts| - 1 ensures Shifts(ts[k], ts[k + 1]) { RunShifts(env, baseline, steps, states, k); }
  }

  lemma RunFreezes(env: Env, baseline: map<string, Spec>, steps: seq<Step>, states: seq<State>, m: nat, n: nat,
                   id: string)
    requires IsRun(env, baseline, steps, states) && m <= n <= |steps| && id in states[m].tables.approvals
    ensures FrozenIn(states[m].tables, states[n].tables, id)
  {
    RunIsHistory(env, baseline, steps, states);
    HistoryFreezes(TablesOf(states), m, n, id);
  }

  /** In every state of every run, direct decisions and service activations included, every
      approval has its own proposal and a settled one has it in the corresponding status. */
  lemma RunPaired(env: Env, baseline: map<string, Spec>, steps: seq<Step>, states: seq<State>, n: nat)
    requires IsRun(env, baseline, steps, states) && n <= |steps|
    ensures Paired(states[n].tables)
  {
    RunIsHistory(env, baseline, steps, states);
    HistoryPaired(TablesOf(states), n);
  }

  /** A state of a run is in lockstep exactly when no step before it decided a proposal directly
      for which an approval was pending. */
  lemma RunLockstepExactly(env: Env, baseline: map<string, Spec>, steps: seq<Step>, states: seq<State>, n: nat)
    requires IsRun(env, baseline, steps, states) && n <= |steps|
    ensures Lockstep(states[n].tables) <==> forall k | 0 <= k < n :: Guarded(states[k].tables, states[k + 1].tables)
  {
    var ts := TablesOf(states);
    RunIsHistory(env, baseline, steps, states);
    HistoryLockstepExactly(ts, n);
    assert forall k | 0 <= k < n :: Guarded(states[k].tables, states[k + 1].tables) <==> Guarded(ts[k], ts[k + 1]);
  }

  /** With direct decisions behind the route, every state of every run is in lockstep. */
  lemma RoutedRunLockstep(env: Env, baseline: map<string, Spec>, steps: seq<Step>, states: seq<State>, n: nat)
    requires IsRun(env, baseline, steps, states) && n <= |steps| && Routed(TablesOf(states))
    ensures Lockstep(states[n].tables)
  {
    RunIsHistory(env, baseline, steps, states);
    RoutedLockstep(TablesOf(states), n);
  }

  // ------------------------------------------------------------ After settlement

  /** A decision transaction on this approval: activating, rejecting, failing or expiring it. */
  predicate Decides(step: Step, id: string) {
    || (step.TrustedStep? && step.i.approvalId == id)
    || (step.FinishStep? && step.i.approvalId == id)
    || (step.ExpireStep? && step.approvalId == id)
  }

  /** The call changes nothing and answers with the recorded result or an error. */
  ghost predicate Inert(env: Env, s: State, step: Step, a: Approval)
    requires Enabled(s, step)
  {
    && Apply(env, s, step) == s
    && match step
       case TrustedStep(i, m, deployment, target, agent, authentic, grant, now) =>
         Replays(a, ActivateTrusted(env, s, i, m, deployment, target, agent, authentic, grant, now).1)
       case FinishStep(i, agent, authentic, terminal, error, now) =>
         Replays(a, FinishWithoutActivation(s.tables, i, agent, authentic, terminal, error, now).result)
       case ExpireStep(approvalId, agent, now) => Approvals.Expire(s.tables, approvalId, agent, now).2 != Ok(true)
       case _ => true
  }

  lemma SettledIsInert(env: Env, s: State, step: Step, id: string)
    requires Enabled(s, step) && Decides(step, id) && id in s.tables.approvals
    requires !s.tables.approvals[id].status.Pending?
    ensures Inert(env, s, step, s.tables.approvals[id])
  {
    assert s.log + [] == s.log;
  }

  /** Once an approval is settled, every later decision call on it, with whatever arguments and at
      whatever later state of the run, changes nothing and returns the result recorded when it
      settled, or fails. */
  lemma SettledDecisionsAreInert(env: Env, baseline: map<string, Spec>, steps: seq<Step>, states: seq<State>, j: nat,
                                 k: nat, id: string, call: Step)
    requires IsRun(env, baseline, steps, states) && j <= k <= |steps|
    requires id in states[j].tables.approvals && !states[j].tables.approvals[id].status.Pending?
    requires Decides(call, id) && Enabled(states[k], call)
    ensures Inert(env, states[k], call, states[j].tables.approvals[id])
  {
    RunFreezes(env, baseline, steps, states, j, k, id);
    SettledIsInert(env, states[k], call, id);
  }

  /** After a rejection or a failed activation commits in a run, repeating the call at any later
      state, with whatever error code and clock, returns the very result of the first call marked
      replayed, and so does the lookup. */
  lemma FinishReplaysForever(env: Env, baseline: map<string, Spec>, steps: seq<Step>, states: seq<State>, j: nat,
                             k: nat, i: Identity, agent: string, terminal: ApprovalStatus, error: Option<string>,
                             now: int,
                             error': Option<string>, now': int)
    requires terminal.Rejected? || terminal.ActivationFailed?
    requires IsRun(env, baseline, steps, states) && j < k <= |steps|
    requires steps[j] == FinishStep(i, agent, true, terminal, error, now)
    requires var first := FinishWithoutActivation(states[j].tables, i, agent, true, terminal, error, now);
             first.result.Ok? && !first.result.value.replayed
    ensures var first := FinishWithoutActivation(states[j].tables, i, agent, true, terminal, error, now).result.value;
            && FinishWithoutActivation(states[k].tables, i, agent, true, terminal, error', now')
               == Outcome(states[k].tables, [], Ok(first.(replayed := true)))
            && ReplayDecision(states[k].tables, i, agent, true, terminal) == Ok(Some(first.(replayed := true)))
  {
    assert TakesStep(env, steps, states, j);
    RunFreezes(env, baseline, steps, states, j, k, i.approvalId);
    RunFreezes(env, baseline, steps, states, j + 1, k, i.approvalId);
    FinishReplaysLater(states[j].tables, states[k].tables, i, agent, terminal, error, now, error', now');
  }

  /** Once a trusted activation commits, repeating it at any later state of the run returns the
      first result marked replayed and changes nothing, even when the registry has moved on. */
  lemma ActivationReplaysForever(env: Env, baseline: map<string, Spec>, steps: seq<Step>, states: seq<State>, j: nat,
                                 k: nat, i: Identity, m: Manifest, deployment: string, target: string, agent: string,
                                 grant: Result<bool>, now: int, grant': Result<bool>, now': int)
    requires IsRun(env, baseline, steps, states) && j < k <= |steps|
    requires steps[j] == TrustedStep(i, m, deployment, target, agent, true, grant, now)
    requires var r := ActivateTrusted(env, states[j], i, m, deployment, target, agent, true, grant, now).1;
             r.Ok? && !r.value.replayed
    ensures var r := ActivateTrusted(env, states[j], i, m, deployment, target, agent, true, grant, now).1;
            ActivateTrusted(env, states[k], i, m, deployment, target, agent, true, grant', now')
            == (states[k], Ok(r.value.(replayed := true)))
  {
    assert TakesStep(env, steps, states, j);
    TrustedCommit(env, states[j], i, m, deployment, target, agent, true, grant, now);
    RunFreezes(env, baseline, steps, states, j, k, i.approvalId);
    RunFreezes(env, baseline, steps, states, j + 1, k, i.approvalId);
    LoadStable(states[j].tables, states[k].tables, i, agent);
    CommittedRow(env, states[j], i, m, deployment, target, agent, grant, now);
    ReplayExactly(states[k].tables.approvals[i.approvalId], i, Approved);
  }

  lemma CommittedRow(env: Env, s: State, i: Identity, m: Manifest, deployment: string, target: string, agent: string,
                     grant: Result<bool>, now: int)
    requires var r := ActivateTrusted(env, s, i, m, deployment, target, agent, true, grant, now).1;
             r.Ok? && !r.value.replayed
    ensures var s' := ActivateTrusted(env, s, i, m, deployment, target, agent, true, grant, now).0;
            && ManifestMatches(env, m, i) && !Blank(deployment)
            && i.approvalId in s'.tables.approvals
            && var a := s'.tables.approvals[i.approvalId];
            && a.status.Approved? && RowShape(a) && a.decision.decisionId == Some(i.decisionId)
            && a.decision.payloadDigest == Some(i.payloadDigest) && a.decision.decidedBy == Some(i.principal)
            && a.decision.snapshot == Some(target) && a.decision.deployment == Some(deployment)
  {
  }
}
