/** Whole histories of the component registry: where every entry comes from, what a rollback
    restores, which effects exclude each other, and that decisions settle once. */
module ComponentHistory {
  import opened Journal
  import opened Approvals
  import opened Replaying
  import opened Components
  import Versions

  // ------------------------------------------------------------------ Invariant

  /** The component a deployment receipt stands for when it is first installed. */
  function Original(env: Env, r: DeploymentReceipt): Component {
    var m := env.manifestOf(r.manifestDigest);
    Component(m.component, m.kind, m.id, r.manifestDigest, r.artifact, r.version, r.endpoint, r.deploymentId,
              r.receiptId, Healthy, m.contracts, m.permissions)
  }

  /** A registered component is its stored receipt's original, up to endpoint and status. */
  predicate Traced(env: Env, receipts: map<string, DeploymentReceipt>, c: Component) {
    && c.receiptId in receipts
    && c == Original(env, receipts[c.receiptId]).(endpoint := c.endpoint, status := c.status)
  }

  ghost predicate AllTraced(env: Env, receipts: map<string, DeploymentReceipt>, entries: map<string, Component>) {
    forall k <- entries :: entries[k].id == k && Traced(env, receipts, entries[k])
  }

  function ArtifactIn(entries: map<string, Component>, component: string): Option<string> {
    if component in entries then Some(entries[component].artifact) else None
  }

  /** The log records the activation of this receipt, on top of a snapshot that holds exactly
      the artifact the receipt says it replaced. */
  predicate Replaced(snapshots: map<string, Stored>, r: DeploymentReceipt, e: Event) {
    && e.kind.ComponentRegistered?
    && e.payload.subject == Some(r.component) && e.payload.deployment == Some(r.deploymentId)
    && e.payload.previousSnapshot.Some? && e.payload.previousSnapshot.value in snapshots
    && r.previousArtifact == ArtifactIn(snapshots[e.payload.previousSnapshot.value].entries, r.component)
  }

  ghost predicate Grounded(env: Env, s: State, rid: string)
    requires rid in s.receipts
  {
    var r := s.receipts[rid];
    && r.receiptId == rid && r.component == env.manifestOf(r.manifestDigest).component
    && exists e <- s.log :: Replaced(s.snapshots, r, e)
  }

  ghost predicate Addressed(env: Env, snapshots: map<string, Stored>) {
    forall id <- snapshots :: env.snapshotId(snapshots[id].entries) == id
  }

  ghost predicate LogInv(first: string, s: State) {
    && Unbroken(ComponentSnapshots, first, s.log)
    && Replay(ComponentSnapshots, first, s.log) == Live(s.active, s.version)
  }

  ghost predicate SnapshotInv(env: Env, s: State) {
    && s.active in s.snapshots && Addressed(env, s.snapshots)
    && forall id <- s.snapshots :: AllTraced(env, s.receipts, s.snapshots[id].entries)
  }

  ghost predicate ReceiptInv(env: Env, s: State) {
    && (forall rid <- s.receipts :: Grounded(env, s, rid))
    && (forall a, b | a in s.receipts && b in s.receipts && a != b ::
          s.receipts[a].deploymentId != s.receipts[b].deploymentId)
  }

  ghost predicate RegistryInv(env: Env, first: string, s: State) {
    LogInv(first, s) && SnapshotInv(env, s) && ReceiptInv(env, s)
  }

  /** A recorded deployment intent repeats the manifest it was recorded for. */
  predicate RowBound(env: Env, t: Tables, id: string, row: DeployRow) {
    var m := env.manifestOf(row.intent.manifestDigest);
    && row.intent.intentId == id && row.component == m.component
    && row.intent.expectedVersion == m.version && row.intent.artifact == m.artifact
    && row.intent.proposalId in t.proposals
  }

  /** A recorded control intent names a stored snapshot in which its action was allowed. */
  predicate ControlGrounded(snapshots: map<string, Stored>, intent: ControlIntent) {
    && intent.expectedSnapshot in snapshots
    && var entries := snapshots[intent.expectedSnapshot].entries;
    && intent.component in entries
    && entries[intent.component].deploymentId == intent.expectedDeployment
    && ControlAllowed(intent.action, entries[intent.component].status)
  }

  /** The digest tells component snapshots apart. */
  ghost predicate Injective(env: Env) {
    forall a, b | env.snapshotId(a) == env.snapshotId(b) :: a == b
  }

  ghost predicate OutcomeGrounded(env: Env, s: State, d: string)
    requires d in s.outcomes
  {
    && d in s.controls && s.controls[d].status.ControlSucceeded?
    && s.outcomes[d].target in s.snapshots
    && (Injective(env) ==> s.controls[d].intent.component in s.snapshots[s.outcomes[d].target].entries)
    && env.controlValid(s.controls[d].intent)
    && ControlReceiptFor(env, s.outcomes[d].receipt, s.controls[d].intent)
  }

  ghost predicate ControlInv(env: Env, s: State) {
    && (forall d <- s.deployments :: RowBound(env, s.tables, d, s.deployments[d]))
    && (forall d <- s.controls ::
          s.controls[d].intent.decisionId == d && ControlGrounded(s.snapshots, s.controls[d].intent))
    && (forall d <- s.controls :: s.controls[d].status.ControlSucceeded? ==> d in s.outcomes)
    && (forall d <- s.outcomes :: OutcomeGrounded(env, s, d))
  }

  predicate PendingFor(s: State, d: string, component: string) {
    d in s.controls && s.controls[d].status.ControlPending? && s.controls[d].intent.component == component
  }

  /** One effect at a time: a pending control decision excludes every other, and every
      deployment that still waits for its approval. */
  ghost predicate Exclusive(s: State) {
    && (forall a, b, c | PendingFor(s, a, c) && PendingFor(s, b, c) :: a == b)
    && (forall a, c | PendingFor(s, a, c) :: !DeploymentIsPending(s, c))
  }

  ghost predicate Inv(env: Env, first: string, s: State) {
    RegistryInv(env, first, s) && ControlInv(env, s) && Exclusive(s)
  }

  /** Nothing stored is ever changed or removed. */
  ghost predicate Grows(s: State, s': State) {
    && s.log <= s'.log
    && (forall id <- s.snapshots :: id in s'.snapshots && s'.snapshots[id] == s.snapshots[id])
    && (forall id <- s.receipts :: id in s'.receipts && s'.receipts[id] == s.receipts[id])
    && (forall d <- s.outcomes :: d in s'.outcomes && s'.outcomes[d] == s.outcomes[d])
    && (forall d <- s.controls ::
          && d in s'.controls && s'.controls[d].intent == s.controls[d].intent
          && (s.controls[d].status.ControlPending? || s'.controls[d] == s.controls[d]))
  }

  // ------------------------------------------------------- Steps that move nothing

  lemma QuietKeepsRegistry(env: Env, first: string, s: State, s': State, more: seq<Event>)
    requires RegistryInv(env, first, s)
    requires s'.log == s.log + more && Quiet(ComponentSnapshots, more)
    requires s'.active == s.active && s'.version == s.version && s'.snapshots == s.snapshots
    requires s'.receipts == s.receipts
    ensures RegistryInv(env, first, s')
  {
    QuietTail(ComponentSnapshots, first, s.log, more);
    forall rid <- s'.receipts ensures Grounded(env, s', rid) {
      assert Grounded(env, s, rid);
    }
  }

  /** No approval of an existing proposal goes back to pending. */
  lemma PendingDeploymentsShrink(env: Env, s: State, s': State, component: string)
    requires ControlInv(env, s) && Shifts(s.tables, s'.tables) && s'.deployments == s.deployments
    requires DeploymentIsPending(s', component)
    ensures DeploymentIsPending(s, component)
  {
    var d, a :| && d in s'.deployments && a in s'.tables.approvals
                && s'.deployments[d].component == component
                && s'.tables.approvals[a].terms.proposalId == s'.deployments[d].intent.proposalId
                && s'.tables.approvals[a].status.Pending?;
    assert RowBound(env, s.tables, d, s.deployments[d]);
    PendingBefore(s.tables, s'.tables, a);
  }

  lemma TablesKeep(env: Env, first: string, s: State, s': State, more: seq<Event>)
    requires Inv(env, first, s) && Shifts(s.tables, s'.tables) && Quiet(ComponentSnapshots, more)
    requires s' == s.(tables := s'.tables, log := s.log + more)
    ensures Inv(env, first, s') && Grows(s, s')
  {
    QuietKeepsRegistry(env, first, s, s', more);
    TablesKeepControl(env, s, s');
    TablesKeepExclusive(env, s, s');
  }

  lemma TablesKeepControl(env: Env, s: State, s': State)
    requires ControlInv(env, s) && Shifts(s.tables, s'.tables) && s' == s.(tables := s'.tables, log := s'.log)
    ensures ControlInv(env, s')
  {
    forall d <- s'.deployments ensures RowBound(env, s'.tables, d, s'.deployments[d]) {
      assert RowBound(env, s.tables, d, s.deployments[d]);
    }
    forall d <- s'.outcomes ensures OutcomeGrounded(env, s', d) {
      assert OutcomeGrounded(env, s, d);
    }
  }

  lemma TablesKeepExclusive(env: Env, s: State, s': State)
    requires ControlInv(env, s) && Exclusive(s) && Shifts(s.tables, s'.tables)
    requires s' == s.(tables := s'.tables, log := s'.log)
    ensures Exclusive(s')
  {
    forall a, c | PendingFor(s', a, c) ensures PendingFor(s, a, c) && !DeploymentIsPending(s', c) {
      assert PendingFor(s, a, c);
      if DeploymentIsPending(s', c) { PendingDeploymentsShrink(env, s, s', c); }
    }
  }

  // ------------------------------------------------------------ Recording intents

  lemma AppendKeeps(env: Env, first: string, s: State, s': State, more: seq<Event>)
    requires Inv(env, first, s) && Quiet(ComponentSnapshots, more) && s' == s.(log := s.log + more)
    ensures Inv(env, first, s') && Grows(s, s')
  {
    TablesKeep(env, first, s, s', more);
  }

  lemma NewDeploymentKeepsControl(env: Env, s: State, s': State, row: DeployRow)
    requires ControlInv(env, s) && s' == s.(deployments := s.deployments[row.intent.intentId := row], log := s'.log)
    requires RowBound(env, s.tables, row.intent.intentId, row)
    ensures ControlInv(env, s')
  {
    forall d <- s'.outcomes ensures OutcomeGrounded(env, s', d) {
      assert OutcomeGrounded(env, s, d);
    }
  }

  lemma NewDeploymentKeepsExclusive(s: State, s': State, row: DeployRow)
    requires Exclusive(s) && s' == s.(deployments := s.deployments[row.intent.intentId := row], log := s'.log)
    requires !ControlIsPending(s, row.component)
    ensures Exclusive(s')
  {
    forall a, c | PendingFor(s', a, c) ensures !DeploymentIsPending(s', c) {
      assert PendingFor(s, a, c) && c != row.component;
    }
    forall a, b, c | PendingFor(s', a, c) && PendingFor(s', b, c) ensures a == b {
      assert PendingFor(s, a, c) && PendingFor(s, b, c);
    }
  }

  lemma NewDeploymentKeeps(env: Env, first: string, s: State, s': State, row: DeployRow, more: seq<Event>)
    requires Inv(env, first, s) && Quiet(ComponentSnapshots, more)
    requires s' == s.(deployments := s.deployments[row.intent.intentId := row], log := s.log + more)
    requires RowBound(env, s.tables, row.intent.intentId, row) && !ControlIsPending(s, row.component)
    ensures Inv(env, first, s') && Grows(s, s')
  {
    QuietKeepsRegistry(env, first, s, s', more);
    NewDeploymentKeepsControl(env, s, s', row);
    NewDeploymentKeepsExclusive(s, s', row);
  }

  /** The caller passes the manifest stored under the digest of the decision. */
  predicate ManifestFetched(env: Env, i: Identity, m: ServiceManifest) {
    m == env.manifestOf(i.manifest)
  }

  /** What recording a deployment does: nothing, or one approval event for an intent that is
      already recorded, or the new intent with both events. */
  predicate RecordsDeployment(env: Env, s: State, s': State, p: Proposal, row: DeployRow) {
    var approved := [ProposalEvent(CapabilityChangeApproved, p, row.intent.proposalId)];
    var noted := approved + [NoteEvent(DeploymentIntentRecorded, Some(p), row.intent.intentId)];
    if row.intent.intentId in s.deployments then
      s.deployments[row.intent.intentId] == row && s' == s.(log := s.log + approved)
    else
      && s' == s.(deployments := s.deployments[row.intent.intentId := row], log := s.log + noted)
      && RowBound(env, s.tables, row.intent.intentId, row) && !ControlIsPending(s, row.component)
  }

  lemma RecordDeploymentEffect(env: Env, s: State, i: Identity, intent: DeploymentIntent, m: ServiceManifest,
                               agent: string, authentic: bool, now: int)
    requires ManifestFetched(env, i, m)
    ensures var (s', r) := RecordDeployment(env, s, i, intent, m, agent, authentic, now);
            if r.Err? then s' == s
            else
              && LoadValidatedBinding(s.tables, i, agent, authentic).Ok?
              && RecordsDeployment(env, s, s', LoadValidatedBinding(s.tables, i, agent, authentic).value.proposal,
                                   DeployRow(m.component, intent))
  {
    var r := RecordDeployment(env, s, i, intent, m, agent, authentic, now).1;
    if r.Ok? {
      var p := LoadValidatedBinding(s.tables, i, agent, authentic).value.proposal;
      var approved := [ProposalEvent(CapabilityChangeApproved, p, intent.proposalId)];
      var note := [NoteEvent(DeploymentIntentRecorded, Some(p), intent.intentId)];
      assert s.log + approved + note == s.log + (approved + note);
    }
  }

  lemma RecordDeploymentKeeps(env: Env, first: string, s: State, i: Identity, intent: DeploymentIntent,
                              m: ServiceManifest, agent: string, authentic: bool, now: int)
    requires Inv(env, first, s) && ManifestFetched(env, i, m)
    ensures var s' := RecordDeployment(env, s, i, intent, m, agent, authentic, now).0;
            Inv(env, first, s') && Grows(s, s')
  {
    var (s', r) := RecordDeployment(env, s, i, intent, m, agent, authentic, now);
    RecordDeploymentEffect(env, s, i, intent, m, agent, authentic, now);
    if r.Ok? {
      var p, row := LoadValidatedBinding(s.tables, i, agent, authentic).value.proposal, DeployRow(m.component, intent);
      RecordedKeeps(env, first, s, s', p, row);
    }
  }

  lemma RecordedKeeps(env: Env, first: string, s: State, s': State, p: Proposal, row: DeployRow)
    requires Inv(env, first, s) && RecordsDeployment(env, s, s', p, row)
    ensures Inv(env, first, s') && Grows(s, s')
  {
    var approved := [ProposalEvent(CapabilityChangeApproved, p, row.intent.proposalId)];
    if row.intent.intentId in s.deployments {
      AppendKeeps(env, first, s, s', approved);
    } else {
      var note := [NoteEvent(DeploymentIntentRecorded, Some(p), row.intent.intentId)];
      NewDeploymentKeeps(env, first, s, s', row, approved + note);
    }
  }

  /** What recording a control decision does when it is new. */
  predicate RecordsControl(s: State, s': State, intent: ControlIntent) {
    && intent.decisionId !in s.controls && !ControlIsPending(s, intent.component)
    && !DeploymentIsPending(s, intent.component)
    && ControlGrounded(s.snapshots, intent)
    && s' == s.(controls := s.controls[intent.decisionId := ControlRow(intent, ControlPending)],
                log := s.log + [NoteEvent(ComponentControlIntentRecorded, None, intent.decisionId)])
  }

  lemma RecordControlEffect(env: Env, s: State, intent: ControlIntent, owner: string)
    ensures var s' := RecordControl(env, s, intent, owner).0; s' == s || RecordsControl(s, s', intent)
  {
  }

  lemma NewControlKeepsControl(env: Env, s: State, s': State, intent: ControlIntent)
    requires ControlInv(env, s) && RecordsControl(s, s', intent)
    ensures ControlInv(env, s')
  {
    forall d <- s'.outcomes ensures OutcomeGrounded(env, s', d) {
      assert OutcomeGrounded(env, s, d);
    }
  }

  lemma NewControlKeepsExclusive(s: State, s': State, intent: ControlIntent)
    requires Exclusive(s) && RecordsControl(s, s', intent)
    ensures Exclusive(s')
  {
    forall a, c | PendingFor(s', a, c)
      ensures !DeploymentIsPending(s', c) && (a != intent.decisionId ==> PendingFor(s, a, c) && c != intent.component)
    {
      if a != intent.decisionId { assert PendingFor(s, a, c); }
    }
  }

  lemma RecordControlKeeps(env: Env, first: string, s: State, intent: ControlIntent, owner: string)
    requires Inv(env, first, s)
    ensures var s' := RecordControl(env, s, intent, owner).0; Inv(env, first, s') && Grows(s, s')
  {
    var s' := RecordControl(env, s, intent, owner).0;
    RecordControlEffect(env, s, intent, owner);
    if s' != s { NewControlKeeps(env, first, s, s', intent); }
  }

  lemma NewControlKeeps(env: Env, first: string, s: State, s': State, intent: ControlIntent)
    requires Inv(env, first, s) && RecordsControl(s, s', intent)
    ensures Inv(env, first, s') && Grows(s, s')
  {
    QuietKeepsRegistry(env, first, s, s', [NoteEvent(ComponentControlIntentRecorded, None, intent.decisionId)]);
    NewControlKeepsControl(env, s, s', intent);
    NewControlKeepsExclusive(s, s', intent);
    NewControlGrows(s, s', intent);
  }

  lemma NewControlGrows(s: State, s': State, intent: ControlIntent)
    requires RecordsControl(s, s', intent)
    ensures Grows(s, s')
  {
  }

  /** Settling a control row, either way, cannot create an exclusion conflict. */
  lemma SettledControlKeepsExclusive(s: State, s': State, d: string, row: ControlRow)
    requires Exclusive(s) && d in s.controls && s'.deployments == s.deployments && s'.tables == s.tables
    requires !row.status.ControlPending? && s'.controls == s.controls[d := row]
    ensures Exclusive(s')
  {
    forall a, c | PendingFor(s', a, c) ensures PendingFor(s, a, c) && !DeploymentIsPending(s', c) {
      assert PendingFor(s, a, c) && !DeploymentIsPending(s, c);
    }
  }

  lemma FailedKeepsControl(env: Env, s: State, s': State, d: string)
    requires ControlInv(env, s) && FailsControl(s, s', d)
    ensures ControlInv(env, s')
  {
    forall o <- s'.outcomes ensures OutcomeGrounded(env, s', o) {
      assert OutcomeGrounded(env, s, o);
    }
  }

  predicate FailsControl(s: State, s': State, d: string) {
    && d in s.controls && s.controls[d].status.ControlPending?
    && s' == s.(controls := s.controls[d := s.controls[d].(status := ControlFailed)])
  }

  lemma FailedGrows(s: State, s': State, d: string)
    requires FailsControl(s, s', d)
    ensures Grows(s, s')
  {
  }

  lemma FailedKeeps(env: Env, first: string, s: State, s': State, d: string)
    requires Inv(env, first, s) && FailsControl(s, s', d)
    ensures Inv(env, first, s') && Grows(s, s')
  {
    FailedKeepsRegistry(env, first, s, s', d);
    FailedKeepsControl(env, s, s', d);
    FailedKeepsExclusive(s, s', d);
    FailedGrows(s, s', d);
  }

  lemma FailedKeepsRegistry(env: Env, first: string, s: State, s': State, d: string)
    requires RegistryInv(env, first, s) && FailsControl(s, s', d)
    ensures RegistryInv(env, first, s')
  {
    assert s'.log == s.log + [];
    QuietKeepsRegistry(env, first, s, s', []);
  }

  lemma FailedKeepsExclusive(s: State, s': State, d: string)
    requires Exclusive(s) && FailsControl(s, s', d)
    ensures Exclusive(s')
  {
    SettledControlKeepsExclusive(s, s', d, s.controls[d].(status := ControlFailed));
  }

  lemma FailControlKeeps(env: Env, first: string, s: State, d: string)
    requires Inv(env, first, s)
    ensures var s' := FailControl(s, d).0; Inv(env, first, s') && Grows(s, s')
  {
    if FailControl(s, d).1.Ok? { FailedKeeps(env, first, s, FailControl(s, d).0, d); }
  }

  // ------------------------------------------------------------- Steps that move

  lemma StillGrounded(env: Env, s: State, s': State, rid: string)
    requires Grows(s, s') && rid in s.receipts && Grounded(env, s, rid)
    ensures Grounded(env, s', rid)
  {
    var why :| why in s.log && Replaced(s.snapshots, s.receipts[rid], why);
    assert why in s'.log && Replaced(s'.snapshots, s'.receipts[rid], why);
  }

  lemma StillTraced(env: Env, s: State, s': State, entries: map<string, Component>)
    requires Grows(s, s') && AllTraced(env, s.receipts, entries)
    ensures AllTraced(env, s'.receipts, entries)
  {
  }

  /** The persisted snapshot is the given one, or one stored before under the same digest. */
  ghost predicate Installed(env: Env, s: State, s': State, entries: map<string, Component>) {
    var target := env.snapshotId(entries);
    && s'.active == target && s'.version == s.version + 1
    && target in s'.snapshots
    && (forall id <- s.snapshots :: id in s'.snapshots && s'.snapshots[id] == s.snapshots[id])
    && (forall id <- s'.snapshots :: id in s.snapshots || (id == target && s'.snapshots[id].entries == entries))
  }

  lemma InstalledContent(env: Env, s: State, s': State, entries: map<string, Component>)
    requires SnapshotInv(env, s) && Installed(env, s, s', entries) && Injective(env)
    ensures s'.snapshots[s'.active].entries == entries
  {
  }

  lemma MoveKeepsLog(first: string, s: State, s': State, before: seq<Event>, e: Event, after: seq<Event>)
    requires LogInv(first, s) && s'.version == s.version + 1
    requires s'.log == s.log + before + [e] + after && Quiet(ComponentSnapshots, before)
    requires Quiet(ComponentSnapshots, after)
    requires Moves(ComponentSnapshots, e.kind)
    requires e.payload.previousSnapshot == Some(s.active) && e.payload.newSnapshot == Some(s'.active)
    ensures LogInv(first, s')
  {
    OneMove(ComponentSnapshots, first, s.log, before, e, after);
  }

  /** A snapshot whose entries are all traced becomes active. */
  lemma MoveKeepsSnapshots(env: Env, s: State, s': State, entries: map<string, Component>)
    requires SnapshotInv(env, s) && Grows(s, s') && Installed(env, s, s', entries)
    requires AllTraced(env, s'.receipts, entries)
    ensures SnapshotInv(env, s')
  {
    forall id <- s'.snapshots ensures AllTraced(env, s'.receipts, s'.snapshots[id].entries) {
      if id in s.snapshots { StillTraced(env, s, s', s.snapshots[id].entries); }
    }
  }

  // ----------------------------------------------------------------- Deployments

  predicate Committed(r: Result<DecisionResult>) {
    r.Ok? && !r.value.replayed
  }

  /** What a committing deployment does. */
  ghost predicate Deploys(env: Env, s: State, s': State, i: Identity, intent: DeploymentIntent, m: ServiceManifest,
                          r: DeploymentReceipt, p: Proposal)
  {
    && s.active in s.snapshots
    && var entries := s.snapshots[s.active].entries;
    && ReplacementAllowed(entries, m, r).Ok? && ReceiptKeysFree(s, r)
    && ReceiptFor(env, r, intent, m.component) && intent.manifestDigest == i.manifest
    && intent.intentId in s.deployments && s.deployments[intent.intentId] == DeployRow(m.component, intent)
    && Installed(env, s, s', entries[m.component := Deployed(i, m, r)])
    && Settles(s.tables, s'.tables, i.approvalId)
    && s' == s.(snapshots := s'.snapshots, active := s'.active, version := s'.version, tables := s'.tables,
                receipts := s.receipts[r.receiptId := r],
                log := s.log + DeployEvents(p, i, m, r, s.active, s'.active))
  }

  lemma ActivateServiceEffect(env: Env, s: State, i: Identity, intent: DeploymentIntent, m: ServiceManifest,
                              r: DeploymentReceipt, agent: string, authentic: bool, now: int)
    ensures var (s', result) := ActivateService(env, s, i, intent, m, r, agent, authentic, now);
            if !Committed(result) then s' == s
            else
              && LoadValidatedBinding(s.tables, i, agent, authentic).Ok?
              && Deploys(env, s, s', i, intent, m, r,
                         LoadValidatedBinding(s.tables, i, agent, authentic).value.proposal)
  {
    var result := ActivateService(env, s, i, intent, m, r, agent, authentic, now).1;
    if Committed(result) {
      PersistTerminalSettles(s.tables, i, Approved, result.value);
    }
  }

  lemma DeployedIsOriginal(env: Env, s: State, i: Identity, intent: DeploymentIntent, m: ServiceManifest,
                           r: DeploymentReceipt)
    requires ManifestFetched(env, i, m) && intent.manifestDigest == i.manifest
    requires ReceiptFor(env, r, intent, m.component)
    requires RowBound(env, s.tables, intent.intentId, DeployRow(m.component, intent))
    ensures Deployed(i, m, r) == Original(env, r)
  {
  }

  lemma DeployGrows(env: Env, s: State, s': State, i: Identity, intent: DeploymentIntent, m: ServiceManifest,
                    r: DeploymentReceipt, p: Proposal)
    requires Deploys(env, s, s', i, intent, m, r, p)
    ensures Grows(s, s')
  {
  }

  lemma DeployTraces(env: Env, s: State, s': State, i: Identity, intent: DeploymentIntent, m: ServiceManifest,
                     r: DeploymentReceipt, p: Proposal)
    requires Deploys(env, s, s', i, intent, m, r, p) && ManifestFetched(env, i, m)
    requires AllTraced(env, s.receipts, s.snapshots[s.active].entries)
    requires RowBound(env, s.tables, intent.intentId, DeployRow(m.component, intent))
    ensures AllTraced(env, s'.receipts, s.snapshots[s.active].entries[m.component := Deployed(i, m, r)])
  {
    DeployGrows(env, s, s', i, intent, m, r, p);
    StillTraced(env, s, s', s.snapshots[s.active].entries);
    DeployedIsOriginal(env, s, i, intent, m, r);
  }

  lemma DeployGrounds(env: Env, s: State, s': State, i: Identity, intent: DeploymentIntent, m: ServiceManifest,
                      r: DeploymentReceipt, p: Proposal)
    requires Deploys(env, s, s', i, intent, m, r, p) && ManifestFetched(env, i, m)
    ensures Grounded(env, s', r.receiptId)
  {
    var e := DeployEvents(p, i, m, r, s.active, s'.active)[2];
    assert s'.log[|s.log| + 2] == e;
    assert e in s'.log && Replaced(s'.snapshots, r, e);
  }

  lemma DeployKeepsReceipts(env: Env, s: State, s': State, i: Identity, intent: DeploymentIntent, m: ServiceManifest,
                            r: DeploymentReceipt, p: Proposal)
    requires ReceiptInv(env, s) && Deploys(env, s, s', i, intent, m, r, p) && ManifestFetched(env, i, m)
    ensures ReceiptInv(env, s')
  {
    DeployGrows(env, s, s', i, intent, m, r, p);
    DeployGrounds(env, s, s', i, intent, m, r, p);
    forall rid <- s'.receipts ensures Grounded(env, s', rid) {
      if rid in s.receipts { StillGrounded(env, s, s', rid); }
    }
  }

  lemma DeployKeepsRegistry(env: Env, first: string, s: State, s': State, i: Identity, intent: DeploymentIntent,
                            m: ServiceManifest, r: DeploymentReceipt, p: Proposal)
    requires RegistryInv(env, first, s) && Deploys(env, s, s', i, intent, m, r, p) && ManifestFetched(env, i, m)
    requires RowBound(env, s.tables, intent.intentId, DeployRow(m.component, intent))
    ensures RegistryInv(env, first, s')
  {
    var events := DeployEvents(p, i, m, r, s.active, s'.active);
    assert s'.log == s.log + events[..2] + [events[2]] + events[3..];
    MoveKeepsLog(first, s, s', events[..2], events[2], events[3..]);
    DeployGrows(env, s, s', i, intent, m, r, p);
    DeployTraces(env, s, s', i, intent, m, r, p);
    MoveKeepsSnapshots(env, s, s', s.snapshots[s.active].entries[m.component := Deployed(i, m, r)]);
    DeployKeepsReceipts(env, s, s', i, intent, m, r, p);
  }

  lemma DeployKeepsControl(env: Env, s: State, s': State, i: Identity, intent: DeploymentIntent, m: ServiceManifest,
                           r: DeploymentReceipt, p: Proposal)
    requires ControlInv(env, s) && Deploys(env, s, s', i, intent, m, r, p)
    ensures ControlInv(env, s')
  {
    forall d <- s'.deployments ensures RowBound(env, s'.tables, d, s'.deployments[d]) {
      assert RowBound(env, s.tables, d, s.deployments[d]);
    }
    forall d <- s'.outcomes ensures OutcomeGrounded(env, s', d) {
      assert OutcomeGrounded(env, s, d);
    }
  }

  lemma DeployKeepsExclusive(env: Env, s: State, s': State, i: Identity, intent: DeploymentIntent, m: ServiceManifest,
                             r: DeploymentReceipt, p: Proposal)
    requires ControlInv(env, s) && Exclusive(s) && Deploys(env, s, s', i, intent, m, r, p)
    ensures Exclusive(s')
  {
    forall a, c | PendingFor(s', a, c) ensures PendingFor(s, a, c) && !DeploymentIsPending(s', c) {
      assert PendingFor(s, a, c);
      if DeploymentIsPending(s', c) { PendingDeploymentsShrink(env, s, s', c); }
    }
  }

  lemma DeployKeeps(env: Env, first: string, s: State, s': State, i: Identity, intent: DeploymentIntent,
                    m: ServiceManifest, r: DeploymentReceipt, p: Proposal)
    requires Inv(env, first, s) && Deploys(env, s, s', i, intent, m, r, p) && ManifestFetched(env, i, m)
    ensures Inv(env, first, s') && Grows(s, s')
  {
    assert RowBound(env, s.tables, intent.intentId, s.deployments[intent.intentId]);
    DeployKeepsRegistry(env, first, s, s', i, intent, m, r, p);
    DeployKeepsControl(env, s, s', i, intent, m, r, p);
    DeployKeepsExclusive(env, s, s', i, intent, m, r, p);
    DeployGrows(env, s, s', i, intent, m, r, p);
  }

  // ---------------------------------------------------------- Disable and rollback

  /** What a committing control decision does. */
  ghost predicate Controls(env: Env, s: State, s': State, intent: ControlIntent, r: ControlReceipt, target: Component) {
    && s.active == intent.expectedSnapshot && s.active in s.snapshots
    && intent.decisionId in s.controls && s.controls[intent.decisionId] == ControlRow(intent, ControlPending)
    && env.controlValid(intent) && ControlReceiptFor(env, r, intent)
    && intent.decisionId !in s.outcomes
    && Installed(env, s, s', s.snapshots[s.active].entries[intent.component := Controlled(target, r)])
    && s' == s.(snapshots := s'.snapshots, active := s'.active, version := s'.version,
                outcomes := s.outcomes[intent.decisionId := ControlOutcome(s'.active, r)],
                controls := s.controls[intent.decisionId := ControlRow(intent, ControlSucceeded)],
                log := s.log + ControlEvents(intent, r, s'.active))
  }

  predicate ControlCommitted(r: Result<ControlResult>) {
    r.Ok? && !r.value.replayed
  }

  lemma InstallControlEffect(env: Env, s: State, intent: ControlIntent, r: ControlReceipt, target: Component, now: int)
    requires intent.decisionId in s.controls && s.controls[intent.decisionId].intent == intent
    requires env.controlValid(intent) && ControlReceiptFor(env, r, intent) && intent.decisionId !in s.outcomes
    ensures var (s', result) := InstallControl(env, s, intent, r, Controlled(target, r), now);
            if result.Err? then s' == s
            else
              && Controls(env, s, s', intent, r, target)
              && result.value == ControlResult(s'.active, r.receiptId, Controlled(target, r), false)
  {
  }

  lemma SettleControlEffect(env: Env, s: State, intent: ControlIntent, r: ControlReceipt, pick: Option<string>,
                            now: int)
    ensures var (s', result) := SettleControl(env, s, intent, r, pick, now);
            if !ControlCommitted(result) then s' == s
            else
              && ActiveComponent(env, s, intent).Ok?
              && var active := ActiveComponent(env, s, intent).value;
              && ControlTarget(env, s, intent, r, active, pick).Ok?
              && var target := ControlTarget(env, s, intent, r, active, pick).value;
              && Controls(env, s, s', intent, r, target)
              && result.value == ControlResult(s'.active, r.receiptId, Controlled(target, r), false)
  {
    if && intent.decisionId in s.controls && s.controls[intent.decisionId].intent == intent
       && env.controlValid(intent) && ControlReceiptFor(env, r, intent) && intent.decisionId !in s.outcomes
       && ActiveComponent(env, s, intent).Ok?
    {
      var target := ControlTarget(env, s, intent, r, ActiveComponent(env, s, intent).value, pick);
      if target.Ok? { InstallControlEffect(env, s, intent, r, target.value, now); }
    }
  }

  lemma ControlGrows(env: Env, s: State, s': State, intent: ControlIntent, r: ControlReceipt, target: Component)
    requires Controls(env, s, s', intent, r, target)
    ensures Grows(s, s')
  {
  }

  /** Where the component to install comes from. */
  lemma TargetIsStored(env: Env, s: State, intent: ControlIntent, r: ControlReceipt, pick: Option<string>)
    requires ActiveComponent(env, s, intent).Ok?
    requires ControlTarget(env, s, intent, r, ActiveComponent(env, s, intent).value, pick).Ok?
    ensures var active := ActiveComponent(env, s, intent).value;
            var target := ControlTarget(env, s, intent, r, active, pick).value;
            && s.active in s.snapshots && intent.component in s.snapshots[s.active].entries
            && active == s.snapshots[s.active].entries[intent.component]
            && (intent.action.Disable? ==> target == active)
            && (intent.action.Rollback? ==>
                  && ValidateRollbackTarget(s, active, r).Ok?
                  && pick.Some? && pick.value in s.snapshots && r.component in s.snapshots[pick.value].entries
                  && target == s.snapshots[pick.value].entries[r.component])
  {
  }

  /** Whatever a control decision installs is traced to the same receipts as before. */
  lemma TargetIsTraced(env: Env, s: State, intent: ControlIntent, r: ControlReceipt, pick: Option<string>)
    requires SnapshotInv(env, s) && ActiveComponent(env, s, intent).Ok?
    requires ControlTarget(env, s, intent, r, ActiveComponent(env, s, intent).value, pick).Ok?
    requires r.component == intent.component
    ensures var target := ControlTarget(env, s, intent, r, ActiveComponent(env, s, intent).value, pick).value;
            target.id == intent.component && Traced(env, s.receipts, target)
  {
  }

  lemma ControlKeepsReceipts(env: Env, s: State, s': State, intent: ControlIntent, r: ControlReceipt, target: Component)
    requires ReceiptInv(env, s) && Controls(env, s, s', intent, r, target)
    ensures ReceiptInv(env, s')
  {
    ControlGrows(env, s, s', intent, r, target);
    forall rid <- s'.receipts ensures Grounded(env, s', rid) { StillGrounded(env, s, s', rid); }
  }

  lemma ControlMovesLog(env: Env, first: string, s: State, s': State, intent: ControlIntent, r: ControlReceipt,
                        target: Component)
    requires LogInv(first, s) && Controls(env, s, s', intent, r, target)
    ensures LogInv(first, s')
  {
    var events := ControlEvents(intent, r, s'.active);
    assert s'.log == s.log + events[..1] + [events[1]] + [];
    MoveKeepsLog(first, s, s', events[..1], events[1], []);
  }

  lemma ControlKeepsSnapshots(env: Env, s: State, s': State, intent: ControlIntent, r: ControlReceipt,
                              target: Component)
    requires SnapshotInv(env, s) && Controls(env, s, s', intent, r, target)
    requires target.id == intent.component && Traced(env, s.receipts, target)
    ensures SnapshotInv(env, s')
  {
  }

  lemma ControlKeepsOutcomes(env: Env, s: State, s': State, intent: ControlIntent, r: ControlReceipt, target: Component)
    requires SnapshotInv(env, s) && Controls(env, s, s', intent, r, target)
    requires forall d <- s.outcomes :: OutcomeGrounded(env, s, d)
    ensures forall d <- s'.outcomes :: OutcomeGrounded(env, s', d)
  {
  }

  lemma ControlKeepsRows(env: Env, s: State, s': State, intent: ControlIntent, r: ControlReceipt, target: Component)
    requires Controls(env, s, s', intent, r, target)
    requires forall d <- s.controls ::
               s.controls[d].intent.decisionId == d && ControlGrounded(s.snapshots, s.controls[d].intent)
    ensures forall d <- s'.controls ::
              s'.controls[d].intent.decisionId == d && ControlGrounded(s'.snapshots, s'.controls[d].intent)
  {
  }

  lemma ControlKeepsControl(env: Env, s: State, s': State, intent: ControlIntent, r: ControlReceipt, target: Component)
    requires SnapshotInv(env, s) && ControlInv(env, s) && Controls(env, s, s', intent, r, target)
    ensures ControlInv(env, s')
  {
    ControlKeepsOutcomes(env, s, s', intent, r, target);
    ControlKeepsRows(env, s, s', intent, r, target);
  }

  lemma ControlKeeps(env: Env, first: string, s: State, s': State, intent: ControlIntent, r: ControlReceipt,
                     target: Component)
    requires Inv(env, first, s) && Controls(env, s, s', intent, r, target)
    requires target.id == intent.component && Traced(env, s.receipts, target)
    ensures Inv(env, first, s') && Grows(s, s')
  {
    ControlMovesLog(env, first, s, s', intent, r, target);
    ControlKeepsSnapshots(env, s, s', intent, r, target);
    ControlKeepsReceipts(env, s, s', intent, r, target);
    ControlKeepsControl(env, s, s', intent, r, target);
    SettledControlKeepsExclusive(s, s', intent.decisionId, ControlRow(intent, ControlSucceeded));
    ControlGrows(env, s, s', intent, r, target);
  }

  lemma SettleControlKeeps(env: Env, first: string, s: State, intent: ControlIntent, r: ControlReceipt,
                           pick: Option<string>, now: int)
    requires Inv(env, first, s)
    ensures var s' := SettleControl(env, s, intent, r, pick, now).0; Inv(env, first, s') && Grows(s, s')
  {
    var (s', result) := SettleControl(env, s, intent, r, pick, now);
    SettleControlEffect(env, s, intent, r, pick, now);
    if ControlCommitted(result) {
      TargetIsTraced(env, s, intent, r, pick);
      ControlKeeps(env, first, s, s', intent, r,
                   ControlTarget(env, s, intent, r, ActiveComponent(env, s, intent).value, pick).value);
    }
  }

  lemma ActivateServiceKeeps(env: Env, first: string, s: State, i: Identity, intent: DeploymentIntent,
                             m: ServiceManifest, r: DeploymentReceipt, agent: string, authentic: bool, now: int)
    requires Inv(env, first, s) && ManifestFetched(env, i, m)
    ensures var s' := ActivateService(env, s, i, intent, m, r, agent, authentic, now).0;
            Inv(env, first, s') && Grows(s, s')
  {
    var (s', result) := ActivateService(env, s, i, intent, m, r, agent, authentic, now);
    ActivateServiceEffect(env, s, i, intent, m, r, agent, authentic, now);
    if Committed(result) {
      DeployKeeps(env, first, s, s', i, intent, m, r,
                  LoadValidatedBinding(s.tables, i, agent, authentic).value.proposal);
    }
  }

  // ----------------------------------------------------------------------- Runs

  datatype Step =
    | RecordDeploymentStep(i: Identity, intent: DeploymentIntent, m: ServiceManifest, agent: string, authentic: bool,
                           now: int)
    | ActivateStep(i: Identity, intent: DeploymentIntent, m: ServiceManifest, r: DeploymentReceipt, agent: string,
                   authentic: bool, now: int)
    | RecordControlStep(control: ControlIntent, owner: string)
    | FailControlStep(decisionId: string)
    | SettleControlStep(control: ControlIntent, receipt: ControlReceipt, pick: Option<string>, now: int)
    | FinishStep(i: Identity, agent: string, authentic: bool, terminal: ApprovalStatus, error: Option<string>, now: int)
    | ExpireStep(approvalId: string, agent: string, now: int)
    | SubmitStep(approvalId: string, terms: Terms, proposal: Proposal)
    | OtherDecisionStep(tables: Tables, more: seq<Event>, snapshot: string)
    | OtherAppendStep(e: Event)

  /** What the environment guarantees of a step: the manifest passed in is the one stored under
      the decision's digest, the historical lookup answers its query, and nobody else writes
      component events. Capability activations and direct decisions share the approval and
      proposal tables and move the operation registry. */
  ghost predicate Enabled(env: Env, s: State, step: Step) {
    match step
    case RecordDeploymentStep(i, _, m, _, _, _) => ManifestFetched(env, i, m)
    case ActivateStep(i, _, m, _, _, _, _) => ManifestFetched(env, i, m)
    case SettleControlStep(_, receipt, pick, _) => IsHistorical(s, receipt, pick)
    case FinishStep(_, _, _, terminal, _, _) => terminal.Rejected? || terminal.ActivationFailed?
    case OtherDecisionStep(tables, more, _) => Shifts(s.tables, tables) && Quiet(ComponentSnapshots, more)
    case OtherAppendStep(e) => !Moves(ComponentSnapshots, e.kind)
    case _ => true
  }

  function Apply(env: Env, s: State, step: Step): State
    requires step.FinishStep? ==> step.terminal.Rejected? || step.terminal.ActivationFailed?
  {
    match step
    case RecordDeploymentStep(i, intent, m, agent, authentic, now) =>
      RecordDeployment(env, s, i, intent, m, agent, authentic, now).0
    case ActivateStep(i, intent, m, r, agent, authentic, now) =>
      ActivateService(env, s, i, intent, m, r, agent, authentic, now).0
    case RecordControlStep(control, owner) => RecordControl(env, s, control, owner).0
    case FailControlStep(decisionId) => FailControl(s, decisionId).0
    case SettleControlStep(control, receipt, pick, now) => SettleControl(env, s, control, receipt, pick, now).0
    case FinishStep(i, agent, authentic, terminal, error, now) =>
      var o := FinishWithoutActivation(s.tables, i, agent, authentic, terminal, error, now);
      s.(tables := o.tables, log := s.log + o.events)
    case ExpireStep(approvalId, agent, now) =>
      var (tables, events, _) := Approvals.Expire(s.tables, approvalId, agent, now);
      s.(tables := tables, log := s.log + events)
    case SubmitStep(approvalId, terms, p) =>
      var r := Submit(s.tables, approvalId, terms, p);
      if r.Ok? then s.(tables := r.value) else s
    case OtherDecisionStep(tables, more, snapshot) =>
      s.(tables := tables, log := s.log + more, operationSnapshot := snapshot)
    case OtherAppendStep(e) => s.(log := s.log + [e])
  }

  lemma FinishIsQuiet(t: Tables, i: Identity, agent: string, authentic: bool, terminal: ApprovalStatus,
                      error: Option<string>, now: int)
    requires terminal.Rejected? || terminal.ActivationFailed?
    ensures Quiet(ComponentSnapshots, FinishWithoutActivation(t, i, agent, authentic, terminal, error, now).events)
  {
  }

  lemma FinishKeeps(env: Env, first: string, s: State, i: Identity, agent: string, authentic: bool,
                    terminal: ApprovalStatus, error: Option<string>, now: int)
    requires Inv(env, first, s) && (terminal.Rejected? || terminal.ActivationFailed?)
    ensures var s' := Apply(env, s, FinishStep(i, agent, authentic, terminal, error, now));
            Inv(env, first, s') && Grows(s, s')
  {
    FinishIsQuiet(s.tables, i, agent, authentic, terminal, error, now);
    FinishEvolves(s.tables, i, agent, authentic, terminal, error, now);
    OutcomeKeeps(env, first, s, FinishWithoutActivation(s.tables, i, agent, authentic, terminal, error, now));
  }

  lemma OutcomeKeeps(env: Env, first: string, s: State, o: Outcome)
    requires Inv(env, first, s) && Evolves(s.tables, o.tables) && Quiet(ComponentSnapshots, o.events)
    ensures var s' := s.(tables := o.tables, log := s.log + o.events); Inv(env, first, s') && Grows(s, s')
  {
    TablesKeep(env, first, s, s.(tables := o.tables, log := s.log + o.events), o.events);
  }

  lemma ExpireKeeps(env: Env, first: string, s: State, approvalId: string, agent: string, now: int)
    requires Inv(env, first, s)
    ensures var s' := Apply(env, s, ExpireStep(approvalId, agent, now)); Inv(env, first, s') && Grows(s, s')
  {
    var (tables, events, _) := Approvals.Expire(s.tables, approvalId, agent, now);
    ExpireEvolves(s.tables, approvalId, agent, now);
    TablesKeep(env, first, s, s.(tables := tables, log := s.log + events), events);
  }

  lemma SubmitKeeps(env: Env, first: string, s: State, approvalId: string, terms: Terms, p: Proposal)
    requires Inv(env, first, s)
    ensures var s' := Apply(env, s, SubmitStep(approvalId, terms, p)); Inv(env, first, s') && Grows(s, s')
  {
    var r := Submit(s.tables, approvalId, terms, p);
    SubmitEvolves(s.tables, approvalId, terms, p);
    assert s.log == s.log + [];
    if r.Ok? { TablesKeep(env, first, s, s.(tables := r.value), []); }
  }

  lemma OperationMoveKeeps(env: Env, first: string, s: State, snapshot: string)
    requires Inv(env, first, s)
    ensures var s' := s.(operationSnapshot := snapshot); Inv(env, first, s') && Grows(s, s')
  {
    var s' := s.(operationSnapshot := snapshot);
    assert s'.log == s.log + [];
    QuietKeepsRegistry(env, first, s, s', []);
    forall d <- s'.outcomes ensures OutcomeGrounded(env, s', d) { assert OutcomeGrounded(env, s, d); }
    forall a, c | PendingFor(s', a, c) ensures PendingFor(s, a, c) && !DeploymentIsPending(s', c) {
      assert PendingFor(s, a, c) && !DeploymentIsPending(s, c);
    }
  }

  lemma OtherDecisionKeeps(env: Env, first: string, s: State, tables: Tables, more: seq<Event>, snapshot: string)
    requires Inv(env, first, s) && Shifts(s.tables, tables) && Quiet(ComponentSnapshots, more)
    ensures var s' := s.(tables := tables, log := s.log + more, operationSnapshot := snapshot);
            Inv(env, first, s') && Grows(s, s')
  {
    OperationMoveKeeps(env, first, s, snapshot);
    var moved := s.(operationSnapshot := snapshot);
    TablesKeep(env, first, moved, moved.(tables := tables, log := s.log + more), more);
  }

  lemma StepKeeps(env: Env, first: string, s: State, step: Step)
    requires Inv(env, first, s) && Enabled(env, s, step)
    ensures Inv(env, first, Apply(env, s, step)) && Grows(s, Apply(env, s, step))
  {
    match step
    case RecordDeploymentStep(i, intent, m, agent, authentic, now) =>
      RecordDeploymentKeeps(env, first, s, i, intent, m, agent, authentic, now);
    case ActivateStep(i, intent, m, r, agent, authentic, now) =>
      ActivateServiceKeeps(env, first, s, i, intent, m, r, agent, authentic, now);
    case RecordControlStep(control, owner) => RecordControlKeeps(env, first, s, control, owner);
    case FailControlStep(decisionId) => FailControlKeeps(env, first, s, decisionId);
    case SettleControlStep(control, receipt, pick, now) =>
      SettleControlKeeps(env, first, s, control, receipt, pick, now);
    case OtherDecisionStep(tables, more, snapshot) => OtherDecisionKeeps(env, first, s, tables, more, snapshot);
    case OtherAppendStep(e) => AppendKeeps(env, first, s, Apply(env, s, step), [e]);
    case FinishStep(i, agent, authentic, terminal, error, now) =>
      FinishKeeps(env, first, s, i, agent, authentic, terminal, error, now);
    case ExpireStep(approvalId, agent, now) => ExpireKeeps(env, first, s, approvalId, agent, now);
    case SubmitStep(approvalId, terms, p) => SubmitKeeps(env, first, s, approvalId, terms, p);
  }

  ghost predicate IsRun(env: Env, start: State, steps: seq<Step>, states: seq<State>) {
    && |states| == |steps| + 1
    && states[0] == start
    && forall k | 0 <= k < |steps| :: TakesStep(env, steps, states, k)
  }

  ghost predicate TakesStep(env: Env, steps: seq<Step>, states: seq<State>, k: nat)
    requires |states| == |steps| + 1 && k < |steps|
  {
    Enabled(env, states[k], steps[k]) && states[k + 1] == Apply(env, states[k], steps[k])
  }

  /** A freshly initialized registry. */
  predicate IsInit(env: Env, s: State) {
    s == Init(env, if s.active in s.snapshots then s.snapshots[s.active].createdAt else 0, s.operationSnapshot)
  }

  lemma InitKeeps(env: Env, s: State)
    requires IsInit(env, s)
    ensures Inv(env, s.active, s)
  {
  }

  lemma StepInvariant(env: Env, first: string, s: State, step: Step, s': State)
    requires Inv(env, first, s) && Enabled(env, s, step) && s' == Apply(env, s, step)
    ensures Inv(env, first, s')
  {
    StepKeeps(env, first, s, step);
  }

  lemma {:induction false} RunInvariant(env: Env, start: State, steps: seq<Step>, states: seq<State>, n: nat)
    requires IsInit(env, start) && IsRun(env, start, steps, states) && n <= |steps|
    ensures Inv(env, start.active, states[n])
  {
    if n == 0 {
      InitKeeps(env, start);
    } else {
      RunInvariant(env, start, steps, states, n - 1);
      assert TakesStep(env, steps, states, n - 1);
      StepInvariant(env, start.active, states[n - 1], steps[n - 1], states[n]);
    }
  }

  lemma RunStepGrows(env: Env, start: State, steps: seq<Step>, states: seq<State>, n: nat)
    requires IsInit(env, start) && IsRun(env, start, steps, states) && n < |steps|
    ensures Grows(states[n], states[n + 1])
  {
    RunInvariant(env, start, steps, states, n);
    assert TakesStep(env, steps, states, n);
    StepKeeps(env, start.active, states[n], steps[n]);
  }

  lemma RunGrows(env: Env, start: State, steps: seq<Step>, states: seq<State>, m: nat, n: nat)
    requires IsInit(env, start) && IsRun(env, start, steps, states) && m <= n <= |steps|
    ensures Grows(states[m], states[n])
  {
    forall k | 0 <= k < |states| - 1 ensures Grows(states[k], states[k + 1]) {
      RunStepGrows(env, start, steps, states, k);
    }
    ChainGrows(states, m, n);
  }

  lemma {:induction false} ChainGrows(states: seq<State>, m: nat, n: nat)
    requires m <= n < |states| && forall k | 0 <= k < |states| - 1 :: Grows(states[k], states[k + 1])
    ensures Grows(states[m], states[n])
  {
    if m < n {
      ChainGrows(states, m, n - 1);
      assert Grows(states[n - 1], states[n - 1 + 1]);
      GrowsTransitive(states[m], states[n - 1], states[n]);
    }
  }

  lemma GrowsTransitive(a: State, b: State, c: State)
    requires Grows(a, b) && Grows(b, c)
    ensures Grows(a, c)
  {
  }
}
