/** Who may settle an approval, until when, and what is recorded then. */
module ApprovalRules {
  import opened Journal
  import opened Approvals

  // -------------------------------------------------------------------- Identity

  /** The approval and its proposal are bound to this identity and agent, column by column. */
  predicate BoundTo(t: Tables, i: Identity, agent: string) {
    && i.approvalId in t.approvals && i.proposalId in t.proposals
    && var a, p := t.approvals[i.approvalId], t.proposals[i.proposalId];
    && a.terms == Terms(i.proposalId, i.principal, i.snapshot, i.candidate, i.artifact, i.manifest, i.nonce,
                        p.expiresAt)
    && p == Proposal(i.principal, agent, p.run, p.session, i.artifact, i.artifact, i.manifest, p.evidence, i.snapshot,
                     [p.linkOperation], p.expiresAt, p.linkOperation, i.candidate, i.artifact, i.artifact, i.snapshot,
                     p.evidence, p.status)
    && SafeTargetName(p.linkOperation)
  }

  /** The formats an identity must have. */
  predicate WellFormed(i: Identity) {
    && IsSha256(i.candidate) && IsSha256(i.artifact) && IsSha256(i.manifest) && IsSha256(i.payloadDigest)
    && !Blank(i.decisionId) && !Blank(i.principal)
  }

  /** A decision is admitted exactly for an authentic, well-formed identity to which the approval
      is bound, and is then shown the two rows. */
  lemma BindingExactly(t: Tables, i: Identity, agent: string, authentic: bool)
    ensures var b := LoadValidatedBinding(t, i, agent, authentic);
            && (b.Ok? <==> BoundTo(t, i, agent) && WellFormed(i) && authentic)
            && (b.Ok? ==> b.value == Binding(t.approvals[i.approvalId], t.proposals[i.proposalId]))
  {
  }

  /** Whoever else is admitted for the same approval agrees on everything but the decision id and
      the digest of the payload. */
  lemma OneIdentity(t: Tables, i: Identity, agent: string, j: Identity, other: string)
    requires LoadValidatedBinding(t, i, agent, true).Ok? && LoadValidatedBinding(t, j, other, true).Ok?
    requires i.approvalId == j.approvalId
    ensures other == agent && j == i.(decisionId := j.decisionId, payloadDigest := j.payloadDigest)
  {
    BindingExactly(t, i, agent, true);
    BindingExactly(t, j, other, true);
  }

  /** Both rows wait, and the approval has not expired. */
  predicate Waits(t: Tables, i: Identity, now: int) {
    && i.approvalId in t.approvals && i.proposalId in t.proposals
    && t.approvals[i.approvalId].status.Pending? && t.proposals[i.proposalId].status.PendingApproval?
    && now < t.approvals[i.approvalId].terms.expiresAt
  }

  predicate UnusedDecision(t: Tables, i: Identity) {
    forall id <- t.approvals :: t.approvals[id].decision.decisionId != Some(i.decisionId)
  }

  /** Everything that a decision needs of the approval. */
  predicate MayDecide(t: Tables, i: Identity, agent: string, authentic: bool, now: int) {
    BoundTo(t, i, agent) && WellFormed(i) && authentic && Waits(t, i, now) && UnusedDecision(t, i)
  }

  /** What a decision records: the status, who decided what with which payload, and the result. */
  predicate Records(t: Tables, t': Tables, i: Identity, status: ApprovalStatus, proposal: ProposalStatus,
                    result: DecisionResult)
  {
    && i.approvalId in t.approvals && i.proposalId in t.proposals
    && t'.approvals == t.approvals[i.approvalId :=
         Approval(t.approvals[i.approvalId].terms, status,
                  Decision(Some(i.decisionId), Some(i.payloadDigest), Some(result), Some(i.principal), result.snapshot,
                           result.deployment, result.error))]
    && t'.proposals == t.proposals[i.proposalId := t.proposals[i.proposalId].(status := proposal)]
  }

  function About(kind: Kind, p: Proposal, proposalId: string): Event {
    Event(kind, Some(p.run), Some(p.session), Some(proposalId), Payload(subject := Some(proposalId)))
  }

  // ------------------------------------------------------------------- Decisions

  /** A rejection commits exactly when the identity may decide, and then records itself as one. */
  lemma RejectsExactly(t: Tables, i: Identity, agent: string, authentic: bool, error: Option<string>, now: int)
    ensures var o := FinishWithoutActivation(t, i, agent, authentic, Rejected, error, now);
            var result := DecisionResult(i.decisionId, Rejected, None, None, error, false);
            && (o.result == Ok(result) <==> MayDecide(t, i, agent, authentic, now))
            && (o.result.Ok? && !o.result.value.replayed ==> o.result == Ok(result))
            && (o.result == Ok(result) ==>
                  && Records(t, o.tables, i, Rejected, ProposalRejected, result)
                  && o.events == [About(CapabilityChangeRejected, t.proposals[i.proposalId], i.proposalId)])
            && (o.result != Ok(result) ==> o.tables == t && o.events == [])
  {
    BindingExactly(t, i, agent, authentic);
  }

  /** A failed activation is recorded under the same conditions, for a well-formed error code, as
      an approval followed by its failure. */
  lemma FailsExactly(t: Tables, i: Identity, code: string, agent: string, authentic: bool, now: int)
    ensures var o := FailTrustedActivation(t, i, code, agent, authentic, now);
            var result := DecisionResult(i.decisionId, ActivationFailed, None, None, Some(code), false);
            && (o.result == Ok(result) <==> ErrorCodeOk(code) && MayDecide(t, i, agent, authentic, now))
            && (o.result.Ok? && !o.result.value.replayed ==> o.result == Ok(result))
            && (o.result == Ok(result) ==>
                  && Records(t, o.tables, i, ActivationFailed, ProposalActivationFailed, result)
                  && o.events == [About(CapabilityChangeApproved, t.proposals[i.proposalId], i.proposalId),
                                  About(CapabilityChangeActivationFailed, t.proposals[i.proposalId], i.proposalId)])
            && (o.result != Ok(result) ==> o.tables == t && o.events == [])
  {
    BindingExactly(t, i, agent, authentic);
  }

  /** An approval expires exactly when both rows wait and its time is over, on behalf of the agent
      of its proposal. */
  lemma ExpiresExactly(t: Tables, id: string, agent: string, now: int)
    ensures var (t', events, r) := Expire(t, id, agent, now);
            && (r == Ok(true) <==>
                  && id in t.approvals && t.approvals[id].terms.proposalId in t.proposals
                  && var a, p := t.approvals[id], t.proposals[t.approvals[id].terms.proposalId];
                  && a.status.Pending? && p.status.PendingApproval? && p.agent == agent && now >= a.terms.expiresAt)
            && (r == Ok(true) ==>
                  var proposalId := t.approvals[id].terms.proposalId;
                  && id in t'.approvals && t'.approvals == t.approvals[id := t'.approvals[id]]
                  && t'.approvals[id].status.Expired? && t'.approvals[id].terms == t.approvals[id].terms
                  && t'.approvals[id].decision == Decision(None, None, None, Some("kernel_expiry"), None, None, None)
                  && t'.proposals == t.proposals[proposalId := t.proposals[proposalId].(status := ProposalExpired)]
                  && events == [About(CapabilityChangeExpired, t.proposals[proposalId], proposalId)])
            && (r != Ok(true) ==> t' == t && events == [])
  {
  }

  /** A proposal and its approval are submitted exactly under new ids, both pending and as given. */
  lemma SubmitsExactly(t: Tables, id: string, terms: Terms, p: Proposal)
    ensures var r := Submit(t, id, terms, p);
            && (r.Ok? <==> id !in t.approvals && terms.proposalId !in t.proposals)
            && (r.Ok? ==>
                  && r.value.approvals ==
                     t.approvals[id := Approval(terms, Pending, Decision(None, None, None, None, None, None, None))]
                  && r.value.proposals == t.proposals[terms.proposalId := p.(status := PendingApproval)])
  {
  }

  /** The lookup finds nothing while the approval waits, and else what repeating the decision
      would return. */
  lemma LookupExactly(t: Tables, i: Identity, agent: string, authentic: bool, expected: ApprovalStatus)
    requires expected.Approved? || expected.Rejected? || expected.ActivationFailed?
    ensures var r := ReplayDecision(t, i, agent, authentic, expected);
            && (r == Ok(None) <==>
                  BoundTo(t, i, agent) && WellFormed(i) && authentic && t.approvals[i.approvalId].status.Pending?)
            && (r.Ok? && r.value.Some? ==> ReplayResult(t.approvals[i.approvalId], i, expected) == Ok(r.value.value))
  {
    BindingExactly(t, i, agent, authentic);
  }

  // ------------------------------------------------------------------ Settled rows

  /** A rejection or failure that changes an approval had the right to. */
  lemma FinishSettlesByRight(t: Tables, i: Identity, agent: string, authentic: bool, terminal: ApprovalStatus,
                             error: Option<string>, now: int, id: string)
    requires terminal.Rejected? || terminal.ActivationFailed?
    requires var t' := FinishWithoutActivation(t, i, agent, authentic, terminal, error, now).tables;
             id in t.approvals && id in t'.approvals && t'.approvals[id] != t.approvals[id]
    ensures i.approvalId == id && MayDecide(t, i, agent, authentic, now)
  {
    BindingExactly(t, i, agent, authentic);
  }

  /** An expiry that changes an approval comes after its time. */
  lemma ExpirySettlesByRight(t: Tables, approvalId: string, agent: string, now: int, id: string)
    requires id in t.approvals && id in Expire(t, approvalId, agent, now).0.approvals
    requires Expire(t, approvalId, agent, now).0.approvals[id] != t.approvals[id]
    ensures approvalId == id && now >= t.approvals[id].terms.expiresAt
  {
  }

  /** An approval never arrives settled. */
  lemma KnownBefore(t: Tables, t': Tables, id: string)
    requires Shifts(t, t') && id in t'.approvals && !t'.approvals[id].status.Pending?
    ensures id in t.approvals
  {
    if Evolves(t, t') && t' != t {
      var changed :| Settles(t, t', changed) || Arrives(t, t', changed);
    }
  }
}
