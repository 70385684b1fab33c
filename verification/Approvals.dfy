/** The approval and proposal tables behind trusted decisions, the transactions that settle
    them, and the replay of a settled decision. */
module Approvals {
  import opened Journal

  datatype ApprovalStatus = Pending | Approved | Rejected | ActivationFailed | Expired

  datatype ProposalStatus =
    | PendingApproval
    | ProposalActivated
    | ProposalRejected
    | ProposalActivationFailed
    | ProposalExpired
    | ProposalApproved

  datatype DecisionResult = DecisionResult(
    decisionId: string,
    status: ApprovalStatus,
    snapshot: Option<string>,
    deployment: Option<string>,
    error: Option<string>,
    replayed: bool)

  /** What an approval is bound to, fixed when the proposal is submitted. */
  datatype Terms = Terms(
    proposalId: string,
    owner: string,
    snapshot: string,
    candidate: string,
    artifact: string,
    manifest: string,
    nonce: string,
    expiresAt: int)

  /** The columns a decision writes. */
  datatype Decision = Decision(
    decisionId: Option<string>,
    payloadDigest: Option<string>,
    result: Option<DecisionResult>,
    decidedBy: Option<string>,
    snapshot: Option<string>,
    deployment: Option<string>,
    error: Option<string>)

  const Undecided := Decision(None, None, None, None, None, None, None)

  datatype Approval = Approval(terms: Terms, status: ApprovalStatus, decision: Decision)

  /** A proposal together with its acceptance link. */
  datatype Proposal = Proposal(
    submitter: string,
    agent: string,
    run: string,
    session: string,
    artifact: string,
    artifactRef: string,
    manifest: string,
    evidence: string,
    expectedSnapshot: string,
    requested: seq<string>,
    expiresAt: int,
    linkOperation: string,
    linkCandidate: string,
    linkArtifact: string,
    linkArtifactRef: string,
    linkSnapshot: string,
    linkEvidence: string,
    status: ProposalStatus)

  datatype Tables = Tables(approvals: map<string, Approval>, proposals: map<string, Proposal>)

  datatype Identity = Identity(
    proposalId: string,
    approvalId: string,
    nonce: string,
    principal: string,
    snapshot: string,
    candidate: string,
    artifact: string,
    manifest: string,
    decisionId: string,
    payloadDigest: string)

  datatype Binding = Binding(approval: Approval, proposal: Proposal)

  // --------------------------------------------------------------- Validation

  predicate IsSha256(text: string) {
    && |text| == 71
    && text[..7] == "sha256:"
    && forall i | 7 <= i < |text| :: '0' <= text[i] <= '9' || 'a' <= text[i] <= 'f'
  }

  predicate Blank(text: string) {
    forall c <- text :: c == ' ' || '\t' <= c <= '\r'
  }

  predicate SafeTargetName(text: string) {
    && 0 < |text| <= 128
    && forall c <- text :: 'a' <= c <= 'z' || '0' <= c <= '9' || c == '.' || c == '_' || c == '-'
  }

  predicate Matches(b: Binding, i: Identity, agent: string) {
    var terms, p := b.approval.terms, b.proposal;
    && !Blank(i.decisionId) && !Blank(i.principal)
    && terms.proposalId == i.proposalId && terms.owner == i.principal && p.submitter == i.principal
    && p.agent == agent && terms.nonce == i.nonce
    && p.expectedSnapshot == i.snapshot && p.linkSnapshot == i.snapshot && terms.snapshot == i.snapshot
    && p.linkCandidate == i.candidate && terms.candidate == i.candidate
    && p.artifact == i.artifact && p.artifactRef == i.artifact && p.linkArtifact == i.artifact
    && p.linkArtifactRef == i.artifact && terms.artifact == i.artifact
    && p.manifest == i.manifest && terms.manifest == i.manifest
    && p.evidence == p.linkEvidence && p.expiresAt == terms.expiresAt
  }

  /** Load the rows a decision names and check them against its identity. `authentic` is the
      verdict of the acceptance receipt and origin checks, which read other tables. */
  function LoadValidatedBinding(t: Tables, i: Identity, agent: string, authentic: bool): Result<Binding> {
    if i.approvalId !in t.approvals || t.approvals[i.approvalId].terms.proposalId != i.proposalId
       || i.proposalId !in t.proposals then
      Err(TrustedApprovalNotFound)
    else
      var b := Binding(t.approvals[i.approvalId], t.proposals[i.proposalId]);
      if !(IsSha256(i.candidate) && IsSha256(i.artifact) && IsSha256(i.manifest) && IsSha256(i.payloadDigest)) then
        Err(InvalidDigest)
      else if !Matches(b, i, agent) then
        Err(TrustedApprovalBindingMismatch)
      else if b.proposal.requested != [b.proposal.linkOperation] || !SafeTargetName(b.proposal.linkOperation) then
        Err(TrustedApprovalOperationMismatch)
      else if !authentic then
        Err(TrustedAcceptanceReceiptMismatch)
      else
        Ok(b)
  }

  function ValidateDecidable(b: Binding, now: int): Result<()> {
    if !b.approval.status.Pending? || !b.proposal.status.PendingApproval? then Err(ApprovalNotPending)
    else if now >= b.approval.terms.expiresAt then Err(ApprovalExpired)
    else Ok(())
  }

  /** The recorded result of a settled approval, if the caller is the one that settled it. */
  function ReplayResult(a: Approval, i: Identity, expected: ApprovalStatus): Result<DecisionResult> {
    var d := a.decision;
    if a.status != expected || d.decisionId != Some(i.decisionId) || d.payloadDigest != Some(i.payloadDigest)
       || d.decidedBy != Some(i.principal) then
      Err(ApprovalDecisionConflict)
    else if d.result.None? then
      Err(ApprovalReplayResultCorrupt)
    else if d.result.value.decisionId != i.decisionId || d.result.value.status != expected
            || d.result.value.snapshot != d.snapshot || d.result.value.deployment != d.deployment
            || d.result.value.error != d.error then
      Err(ApprovalReplayResultCorrupt)
    else
      Ok(d.result.value.(replayed := true))
  }

  // -------------------------------------------------------------- Settlement

  function ProposalFor(status: ApprovalStatus): ProposalStatus {
    match status
    case Pending => PendingApproval
    case Approved => ProposalActivated
    case Rejected => ProposalRejected
    case ActivationFailed => ProposalActivationFailed
    case Expired => ProposalExpired
  }

  /** `decision_id` is unique in the approval table. */
  predicate DecisionIdFree(t: Tables, decisionId: string) {
    forall id <- t.approvals :: t.approvals[id].decision.decisionId != Some(decisionId)
  }

  /** Compare-and-set of both rows from pending to settled; refusing either refuses both. */
  function PersistTerminal(t: Tables, i: Identity, status: ApprovalStatus, proposalStatus: ProposalStatus,
                           result: DecisionResult): Result<Tables>
  {
    if i.approvalId !in t.approvals || !t.approvals[i.approvalId].status.Pending? then
      Err(ApprovalNotPending)
    else if !DecisionIdFree(t, i.decisionId) then
      Err(UniqueViolation)
    else if i.proposalId !in t.proposals || !t.proposals[i.proposalId].status.PendingApproval? then
      Err(ProposalNotPending)
    else
      var a := t.approvals[i.approvalId];
      var d := Decision(Some(i.decisionId), Some(i.payloadDigest), Some(result), Some(i.principal),
                        result.snapshot, result.deployment, result.error);
      Ok(Tables(
           t.approvals[i.approvalId := Approval(a.terms, status, d)],
           t.proposals[i.proposalId := t.proposals[i.proposalId].(status := proposalStatus)]))
  }

  function ProposalEvent(kind: Kind, p: Proposal, proposalId: string): Event {
    Event(kind, Some(p.run), Some(p.session), Some(proposalId), Payload(subject := Some(proposalId)))
  }

  datatype Outcome = Outcome(tables: Tables, events: seq<Event>, result: Result<DecisionResult>)

  /** `CapabilityChangeRejected`, or the approval event followed by the failure event. */
  function FinishEvents(p: Proposal, proposalId: string, terminal: ApprovalStatus): seq<Event> {
    if terminal.Rejected? then [ProposalEvent(CapabilityChangeRejected, p, proposalId)]
    else [ProposalEvent(CapabilityChangeApproved, p, proposalId),
          ProposalEvent(CapabilityChangeActivationFailed, p, proposalId)]
  }

  function FinishWithoutActivation(t: Tables, i: Identity, agent: string, authentic: bool,
                                   terminal: ApprovalStatus, error: Option<string>, now: int): Outcome
    requires terminal.Rejected? || terminal.ActivationFailed?
  {
    match LoadValidatedBinding(t, i, agent, authentic)
    case Err(e) => Outcome(t, [], Err(e))
    case Ok(b) =>
      if !b.approval.status.Pending? then
        Outcome(t, [], ReplayResult(b.approval, i, terminal))
      else
        match ValidateDecidable(b, now)
        case Err(e) => Outcome(t, [], Err(e))
        case Ok(_) =>
          var result := DecisionResult(i.decisionId, terminal, None, None, error, false);
          match PersistTerminal(t, i, terminal, ProposalFor(terminal), result)
          case Err(e) => Outcome(t, [], Err(e))
          case Ok(t') => Outcome(t', FinishEvents(b.proposal, i.proposalId, terminal), Ok(result))
  }

  predicate ErrorCodeOk(code: string) {
    0 < |code| <= 120 && forall c <- code :: 'A' <= c <= 'Z' || '0' <= c <= '9' || c == '_'
  }

  function FailTrustedActivation(t: Tables, i: Identity, code: string, agent: string, authentic: bool,
                                 now: int): Outcome {
    if !ErrorCodeOk(code) then Outcome(t, [], Err(ActivationErrorCodeInvalid))
    else FinishWithoutActivation(t, i, agent, authentic, ActivationFailed, Some(code), now)
  }

  function Expire(t: Tables, approvalId: string, agent: string, now: int): (Tables, seq<Event>, Result<bool>) {
    if approvalId !in t.approvals || t.approvals[approvalId].terms.proposalId !in t.proposals then
      (t, [], Err(TrustedApprovalNotFound))
    else
      var a := t.approvals[approvalId];
      var p := t.proposals[a.terms.proposalId];
      if p.agent != agent then (t, [], Err(TrustedApprovalAgentMismatch))
      else if !a.status.Pending? || !p.status.PendingApproval? || now < a.terms.expiresAt then (t, [], Ok(false))
      else
        (Tables(
           t.approvals[approvalId := Approval(a.terms, Expired, Undecided.(decidedBy := Some("kernel_expiry")))],
           t.proposals[a.terms.proposalId := p.(status := ProposalExpired)]),
         [ProposalEvent(CapabilityChangeExpired, p, a.terms.proposalId)],
         Ok(true))
  }

  /** The tables right after a proposal with its pending approval is submitted. */
  function Submit(t: Tables, approvalId: string, terms: Terms, p: Proposal): Result<Tables> {
    if approvalId in t.approvals || terms.proposalId in t.proposals then Err(UniqueViolation)
    else Ok(Tables(
              t.approvals[approvalId := Approval(terms, Pending, Undecided)],
              t.proposals[terms.proposalId := p.(status := PendingApproval)]))
  }

  /** Look up a settled result without deciding anything. */
  function ReplayDecision(t: Tables, i: Identity, agent: string, authentic: bool, expected: ApprovalStatus)
    : Result<Option<DecisionResult>>
  {
    if expected.Pending? || expected.Expired? then Err(ApprovalReplayTerminalInvalid)
    else
      match LoadValidatedBinding(t, i, agent, authentic)
      case Err(e) => Err(e)
      case Ok(b) =>
        if b.approval.status.Pending? then Ok(None)
        else
          match ReplayResult(b.approval, i, expected)
          case Err(e) => Err(e)
          case Ok(r) => Ok(Some(r))
  }

  // ---------------------------------------------------- How the tables evolve

  /** The shape of an approval row in each status: undecided, decided with a result that the
      other columns repeat, or expired with none. */
  predicate RowShape(a: Approval) {
    match a.status
    case Pending => a.decision == Undecided
    case Expired => a.decision == Undecided.(decidedBy := a.decision.decidedBy)
    case _ =>
      var d := a.decision;
      && d.decisionId.Some? && d.payloadDigest.Some? && d.decidedBy.Some?
      && d.result == Some(DecisionResult(d.decisionId.value, a.status, d.snapshot, d.deployment, d.error, false))
  }

  /** One approval and its proposal settle together; nothing else changes. */
  predicate Settles(t: Tables, t': Tables, id: string) {
    && id in t.approvals && id in t'.approvals
    && var a, a' := t.approvals[id], t'.approvals[id];
    && a.terms.proposalId in t.proposals
    && var p := t.proposals[a.terms.proposalId];
    && a.status.Pending? && p.status.PendingApproval?
    && !a'.status.Pending? && a'.terms == a.terms && RowShape(a')
    && t'.approvals == t.approvals[id := a']
    && t'.proposals == t.proposals[a.terms.proposalId := p.(status := ProposalFor(a'.status))]
  }

  /** A new approval and its proposal arrive together, both pending. */
  predicate Arrives(t: Tables, t': Tables, id: string) {
    && id !in t.approvals && id in t'.approvals
    && var a := t'.approvals[id];
    && a.status.Pending? && RowShape(a)
    && a.terms.proposalId !in t.proposals && a.terms.proposalId in t'.proposals
    && var p := t'.proposals[a.terms.proposalId];
    && p.status.PendingApproval?
    && t'.approvals == t.approvals[id := a]
    && t'.proposals == t.proposals[a.terms.proposalId := p]
  }

  ghost predicate Evolves(t: Tables, t': Tables) {
    t' == t || exists id :: Settles(t, t', id) || Arrives(t, t', id)
  }

  /** Every approval has its own proposal, and the two rows are in corresponding states. */
  ghost predicate Lockstep(t: Tables) {
    && (forall id <- t.approvals ::
          && RowShape(t.approvals[id])
          && t.approvals[id].terms.proposalId in t.proposals
          && t.proposals[t.approvals[id].terms.proposalId].status == ProposalFor(t.approvals[id].status))
    && (forall id, other | id in t.approvals && other in t.approvals && id != other ::
          t.approvals[id].terms.proposalId != t.approvals[other].terms.proposalId)
  }

  lemma SettlesKeepsLockstep(t: Tables, t': Tables, id: string)
    requires Lockstep(t) && Settles(t, t', id)
    ensures Lockstep(t')
  {
  }

  lemma ArrivesKeepsLockstep(t: Tables, t': Tables, id: string)
    requires Lockstep(t) && Arrives(t, t', id)
    ensures Lockstep(t')
  {
  }

  lemma EvolvesKeepsLockstep(t: Tables, t': Tables)
    requires Lockstep(t) && Evolves(t, t')
    ensures Lockstep(t')
  {
    if t' != t {
      var id :| Settles(t, t', id) || Arrives(t, t', id);
      if Settles(t, t', id) { SettlesKeepsLockstep(t, t', id); } else { ArrivesKeepsLockstep(t, t', id); }
    }
  }

  // ------------------------------------------------------- Direct proposal steps

  /** A decision taken on an undecided proposal without its approval. */
  predicate DirectlyDecides(t: Tables, t': Tables, proposalId: string) {
    && t'.approvals == t.approvals
    && proposalId in t.proposals && proposalId in t'.proposals
    && (t.proposals[proposalId].status.PendingApproval? || t.proposals[proposalId].status.ProposalApproved?)
    && var status := t'.proposals[proposalId].status;
    && !status.PendingApproval? && status != t.proposals[proposalId].status
    && t'.proposals == t.proposals[proposalId := t.proposals[proposalId].(status := status)]
  }

  /** A proposal that needs no approval arrives. */
  predicate ArrivesAlone(t: Tables, t': Tables, proposalId: string) {
    && t'.approvals == t.approvals
    && proposalId !in t.proposals && proposalId in t'.proposals
    && t'.proposals == t.proposals[proposalId := t'.proposals[proposalId]]
  }

  /** Everything the kernel does to the two tables in one transaction. */
  ghost predicate Shifts(t: Tables, t': Tables) {
    Evolves(t, t') || exists proposalId :: DirectlyDecides(t, t', proposalId) || ArrivesAlone(t, t', proposalId)
  }

  /** What survives direct decisions: every approval has its own proposal, and a settled approval
      has a proposal in the corresponding status. */
  ghost predicate Paired(t: Tables) {
    && (forall id <- t.approvals ::
          && RowShape(t.approvals[id])
          && t.approvals[id].terms.proposalId in t.proposals
          && (!t.approvals[id].status.Pending? ==>
                t.proposals[t.approvals[id].terms.proposalId].status == ProposalFor(t.approvals[id].status)))
    && (forall id, other | id in t.approvals && other in t.approvals && id != other ::
          t.approvals[id].terms.proposalId != t.approvals[other].terms.proposalId)
  }

  /** No pending approval waits for the proposal. */
  predicate NoneWaits(t: Tables, proposalId: string) {
    forall id <- t.approvals | t.approvals[id].terms.proposalId == proposalId :: !t.approvals[id].status.Pending?
  }

  /** A direct decision keeps the lockstep exactly when no pending approval waits for that
      proposal. */
  lemma DirectDecisionKeepsLockstepExactly(t: Tables, t': Tables, proposalId: string)
    requires Lockstep(t) && DirectlyDecides(t, t', proposalId)
    ensures Lockstep(t') <==> NoneWaits(t, proposalId)
  {
    if id :| id in t.approvals && t.approvals[id].terms.proposalId == proposalId && t.approvals[id].status.Pending? {
      assert t'.proposals[proposalId].status != ProposalFor(t'.approvals[id].status);
    }
  }

  lemma SettlesKeepsPaired(t: Tables, t': Tables, id: string)
    requires Paired(t) && Settles(t, t', id)
    ensures Paired(t')
  {
  }

  lemma ArrivesKeepsPaired(t: Tables, t': Tables, id: string)
    requires Paired(t) && Arrives(t, t', id)
    ensures Paired(t')
  {
  }

  lemma ShiftsKeepsPaired(t: Tables, t': Tables)
    requires Paired(t) && Shifts(t, t')
    ensures Paired(t')
  {
    if t' != t {
      if id :| Settles(t, t', id) {
        SettlesKeepsPaired(t, t', id);
      } else if id :| Arrives(t, t', id) {
        ArrivesKeepsPaired(t, t', id);
      }
    }
  }

  // --------------------------------------------------------- When lockstep holds

  /** The change decides no proposal directly for which an approval is pending. */
  ghost predicate Guarded(t: Tables, t': Tables) {
    forall proposalId | DirectlyDecides(t, t', proposalId) :: NoneWaits(t, proposalId)
  }

  /** The approval is pending although its proposal was decided without it. */
  predicate Broken(t: Tables, id: string) {
    && id in t.approvals && t.approvals[id].status.Pending?
    && t.approvals[id].terms.proposalId in t.proposals
    && !t.proposals[t.approvals[id].terms.proposalId].status.PendingApproval?
  }

  /** A broken pair stays broken: no transaction settles its approval or reopens its proposal. */
  lemma StaysBroken(t: Tables, t': Tables, id: string)
    requires Broken(t, id) && Shifts(t, t')
    ensures Broken(t', id)
  {
    if Evolves(t, t') && t' != t {
      var changed :| Settles(t, t', changed) || Arrives(t, t', changed);
    }
  }

  lemma BrokenExactly(t: Tables)
    requires Paired(t)
    ensures Lockstep(t) <==> forall id :: !Broken(t, id)
  {
    if Lockstep(t) {
      assert forall id <- t.approvals :: !Broken(t, id);
    } else {
      assert exists id <- t.approvals :: Broken(t, id);
    }
  }

  lemma GuardedKeepsLockstepExactly(t: Tables, t': Tables)
    requires Lockstep(t) && Shifts(t, t')
    ensures Lockstep(t') <==> Guarded(t, t')
  {
    if proposalId :| DirectlyDecides(t, t', proposalId) {
      DirectDecisionKeepsLockstepExactly(t, t', proposalId);
      assert forall other | DirectlyDecides(t, t', other) :: other == proposalId;
    } else if Evolves(t, t') {
      EvolvesKeepsLockstep(t, t');
    }
  }

  /** Of all that can happen to the tables, exactly the unguarded direct decisions end the
      lockstep, and nothing brings it back. */
  lemma ShiftsLockstepExactly(t: Tables, t': Tables)
    requires Paired(t) && Shifts(t, t')
    ensures Lockstep(t') <==> Lockstep(t) && Guarded(t, t')
  {
    if Lockstep(t) {
      GuardedKeepsLockstepExactly(t, t');
    } else {
      BrokenExactly(t);
      var id :| Broken(t, id);
      StaysBroken(t, t', id);
      ShiftsKeepsPaired(t, t');
      BrokenExactly(t');
    }
  }

  // ---------------------------------------------------------------- Frozen rows

  /** The terms of an approval and the content of its proposal never change, and a settled row
      with its recorded result is frozen. */
  predicate FrozenIn(t: Tables, t': Tables, id: string)
    requires id in t.approvals
  {
    var proposalId := t.approvals[id].terms.proposalId;
    && id in t'.approvals
    && t'.approvals[id].terms == t.approvals[id].terms
    && (!t.approvals[id].status.Pending? ==> t'.approvals[id] == t.approvals[id])
    && (proposalId in t.proposals ==>
          && proposalId in t'.proposals
          && t'.proposals[proposalId] == t.proposals[proposalId].(status := t'.proposals[proposalId].status))
  }

  lemma EvolvesFreezes(t: Tables, t': Tables, id: string)
    requires Evolves(t, t') && id in t.approvals
    ensures FrozenIn(t, t', id)
  {
  }

  lemma ShiftsFreezes(t: Tables, t': Tables, id: string)
    requires Shifts(t, t') && id in t.approvals
    ensures FrozenIn(t, t', id)
  {
    if Evolves(t, t') { EvolvesFreezes(t, t', id); }
  }

  /** An approval of a known proposal that is pending was pending before. */
  lemma PendingBefore(t: Tables, t': Tables, id: string)
    requires Shifts(t, t') && id in t'.approvals && t'.approvals[id].status.Pending?
    requires t'.approvals[id].terms.proposalId in t.proposals
    ensures id in t.approvals && t.approvals[id].status.Pending? && t.approvals[id].terms == t'.approvals[id].terms
  {
    if Evolves(t, t') && t' != t {
      var changed :| Settles(t, t', changed) || Arrives(t, t', changed);
    }
  }

  lemma FreezesTwice(t: Tables, t1: Tables, t2: Tables, id: string)
    requires id in t.approvals && FrozenIn(t, t1, id) && FrozenIn(t1, t2, id)
    ensures FrozenIn(t, t2, id)
  {
  }

  ghost predicate IsHistory(ts: seq<Tables>) {
    && ts != [] && ts[0] == Tables(map[], map[])
    && forall k | 0 <= k < |ts| - 1 :: Shifts(ts[k], ts[k + 1])
  }

  lemma {:induction false} HistoryPaired(ts: seq<Tables>, n: nat)
    requires IsHistory(ts) && n < |ts|
    ensures Paired(ts[n])
  {
    if n > 0 {
      HistoryPaired(ts, n - 1);
      assert Shifts(ts[n - 1], ts[n - 1 + 1]);
      ShiftsKeepsPaired(ts[n - 1], ts[n]);
    }
  }

  lemma {:induction false} HistoryFreezes(ts: seq<Tables>, m: nat, n: nat, id: string)
    requires IsHistory(ts) && m <= n < |ts| && id in ts[m].approvals
    ensures FrozenIn(ts[m], ts[n], id)
  {
    if m < n {
      HistoryFreezes(ts, m, n - 1, id);
      assert Shifts(ts[n - 1], ts[n - 1 + 1]);
      ShiftsFreezes(ts[n - 1], ts[n], id);
    }
  }

  /** Each approval settles at most once, in every history of the tables, direct decisions on
      proposals included: its terms never change, the row it settles into is the row it keeps,
      and from then on its proposal is in the corresponding state. */
  lemma ApprovalsSettleAtMostOnce(ts: seq<Tables>, m: nat, n: nat, id: string)
    requires IsHistory(ts) && m <= n < |ts| && id in ts[m].approvals
    ensures id in ts[n].approvals && ts[n].approvals[id].terms == ts[m].approvals[id].terms
    ensures !ts[m].approvals[id].status.Pending? ==> ts[n].approvals[id] == ts[m].approvals[id]
    ensures var a := ts[n].approvals[id];
            && a.terms.proposalId in ts[n].proposals
            && (!a.status.Pending? ==> ts[n].proposals[a.terms.proposalId].status == ProposalFor(a.status))
  {
    HistoryFreezes(ts, m, n, id);
    HistoryPaired(ts, n);
  }

  /** In every history, approvals and proposals are in lockstep up to the first direct decision on
      a proposal for which an approval is pending, and never again after it. */
  lemma {:induction false} HistoryLockstepExactly(ts: seq<Tables>, n: nat)
    requires IsHistory(ts) && n < |ts|
    ensures Lockstep(ts[n]) <==> forall k | 0 <= k < n :: Guarded(ts[k], ts[k + 1])
  {
    if n > 0 {
      HistoryLockstepExactly(ts, n - 1);
      HistoryPaired(ts, n - 1);
      assert Shifts(ts[n - 1], ts[n - 1 + 1]);
      ShiftsLockstepExactly(ts[n - 1], ts[n]);
    }
  }

  /** A stored proposal that no approval names. */
  predicate Unlinked(t: Tables, proposalId: string) {
    proposalId in t.proposals && forall id <- t.approvals :: t.approvals[id].terms.proposalId != proposalId
  }

  /** An approval arrives only together with its proposal, so none is ever added to a stored one. */
  lemma {:induction false} UnlinkedStays(ts: seq<Tables>, m: nat, n: nat, proposalId: string)
    requires IsHistory(ts) && m <= n < |ts| && Unlinked(ts[m], proposalId)
    ensures Unlinked(ts[n], proposalId)
  {
    if m < n {
      UnlinkedStays(ts, m, n - 1, proposalId);
      assert Shifts(ts[n - 1], ts[n - 1 + 1]);
    }
  }

  /** Every direct decision is taken on a proposal that was looked up earlier and found without an
      approval: the route that leads to direct decisions sends all others to the trusted path. */
  ghost predicate Routed(ts: seq<Tables>) {
    forall k | 0 <= k < |ts| - 1 :: RoutedAt(ts, k)
  }

  ghost predicate RoutedAt(ts: seq<Tables>, k: nat)
    requires k < |ts| - 1
  {
    forall proposalId | DirectlyDecides(ts[k], ts[k + 1], proposalId) :: FoundUnlinked(ts, k, proposalId)
  }

  ghost predicate FoundUnlinked(ts: seq<Tables>, k: nat, proposalId: string)
    requires k < |ts|
  {
    exists j | 0 <= j <= k :: Unlinked(ts[j], proposalId)
  }

  /** With direct decisions behind that route, approvals and proposals are always in lockstep,
      however much happened between the lookup and the decision. */
  lemma RoutedLockstep(ts: seq<Tables>, n: nat)
    requires IsHistory(ts) && n < |ts| && Routed(ts)
    ensures Lockstep(ts[n])
  {
    forall k | 0 <= k < n ensures Guarded(ts[k], ts[k + 1]) {
      assert RoutedAt(ts, k);
      forall proposalId | DirectlyDecides(ts[k], ts[k + 1], proposalId) ensures NoneWaits(ts[k], proposalId) {
        assert FoundUnlinked(ts, k, proposalId);
        var j :| 0 <= j <= k && Unlinked(ts[j], proposalId);
        UnlinkedStays(ts, j, k, proposalId);
      }
    }
    HistoryLockstepExactly(ts, n);
  }

  // ------------------------------------------- The transactions evolve the tables

  lemma PersistTerminalSettles(t: Tables, i: Identity, status: ApprovalStatus, result: DecisionResult)
    requires !status.Pending? && !status.Expired?
    requires result.decisionId == i.decisionId && result.status == status && !result.replayed
    requires i.approvalId in t.approvals && t.approvals[i.approvalId].terms.proposalId == i.proposalId
    ensures var r := PersistTerminal(t, i, status, ProposalFor(status), result);
            r.Ok? ==> Settles(t, r.value, i.approvalId)
  {
  }

  lemma FinishEvolves(t: Tables, i: Identity, agent: string, authentic: bool, terminal: ApprovalStatus,
                      error: Option<string>, now: int)
    requires terminal.Rejected? || terminal.ActivationFailed?
    ensures Evolves(t, FinishWithoutActivation(t, i, agent, authentic, terminal, error, now).tables)
  {
    var load := LoadValidatedBinding(t, i, agent, authentic);
    if load.Ok? {
      PersistTerminalSettles(t, i, terminal, DecisionResult(i.decisionId, terminal, None, None, error, false));
    }
  }

  lemma ExpireEvolves(t: Tables, approvalId: string, agent: string, now: int)
    ensures Evolves(t, Expire(t, approvalId, agent, now).0)
  {
    var t' := Expire(t, approvalId, agent, now).0;
    if t' != t { assert Settles(t, t', approvalId); }
  }

  lemma SubmitEvolves(t: Tables, approvalId: string, terms: Terms, p: Proposal)
    ensures var r := Submit(t, approvalId, terms, p); r.Ok? ==> Evolves(t, r.value)
  {
    var r := Submit(t, approvalId, terms, p);
    if r.Ok? { assert Arrives(t, r.value, approvalId); }
  }

  // ------------------------------------------------------------------ Replay

  /** A replay of a settled approval succeeds exactly for the decision, payload, principal and
      outcome it was settled with, and returns the recorded result marked replayed. */
  lemma ReplayExactly(a: Approval, i: Identity, expected: ApprovalStatus)
    requires RowShape(a) && !expected.Pending? && !expected.Expired?
    ensures ReplayResult(a, i, expected).Ok? <==>
            && a.status == expected && a.decision.decisionId == Some(i.decisionId)
            && a.decision.payloadDigest == Some(i.payloadDigest) && a.decision.decidedBy == Some(i.principal)
    ensures ReplayResult(a, i, expected).Ok? ==>
            ReplayResult(a, i, expected).value
            == DecisionResult(i.decisionId, a.status, a.decision.snapshot, a.decision.deployment, a.decision.error,
                              true)
  {
  }

  /** What a decision was checked against stays valid for as long as the tables evolve. */
  lemma LoadStable(t: Tables, t': Tables, i: Identity, agent: string)
    requires LoadValidatedBinding(t, i, agent, true).Ok? && FrozenIn(t, t', i.approvalId)
    ensures LoadValidatedBinding(t', i, agent, true)
            == Ok(Binding(t'.approvals[i.approvalId], t'.proposals[i.proposalId]))
  {
  }

  /** The answer to a call on a settled approval: the recorded result marked replayed, or an
      error. */
  predicate Replays(a: Approval, r: Result<DecisionResult>) {
    r.Ok? ==> a.decision.result.Some? && r.value == a.decision.result.value.(replayed := true)
  }

  /** Once a rejection or failure has committed, the call repeats its first result on every table
      in which the approval is frozen, and so does the lookup. */
  lemma FinishReplaysLater(t: Tables, later: Tables, i: Identity, agent: string, terminal: ApprovalStatus,
                           error: Option<string>, now: int, error': Option<string>, now': int)
    requires terminal.Rejected? || terminal.ActivationFailed?
    requires var first := FinishWithoutActivation(t, i, agent, true, terminal, error, now);
             && first.result.Ok? && !first.result.value.replayed && FrozenIn(t, later, i.approvalId)
             && i.approvalId in first.tables.approvals && FrozenIn(first.tables, later, i.approvalId)
    ensures var first := FinishWithoutActivation(t, i, agent, true, terminal, error, now);
            && FinishWithoutActivation(later, i, agent, true, terminal, error', now')
               == Outcome(later, [], Ok(first.result.value.(replayed := true)))
            && ReplayDecision(later, i, agent, true, terminal) == Ok(Some(first.result.value.(replayed := true)))
  {
    LoadStable(t, later, i, agent);
  }
}
