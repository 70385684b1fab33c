/** The component registry updated in place. A snapshot travels as a list of components: it is
    read row by row, edited, and written back under the digest of its canonical map. */
module ComponentStore {
  import opened Journal
  import opened Approvals
  import opened Components
  import opened ComponentHistory
  import Versions

  // -------------------------------------------------------- Component lists

  /** The ordered map that the digest is taken of: a later entry replaces an earlier one. */
  function Canonical(list: seq<Component>): map<string, Component> {
    if list == [] then map[]
    else
      var last := list[|list| - 1];
      Canonical(list[..|list| - 1])[last.id := last]
  }

  method CanonicalMap(list: seq<Component>) returns (canonical: map<string, Component>)
    ensures canonical == Canonical(list)
  {
    canonical := map[];
    for k := 0 to |list|
      invariant canonical == Canonical(list[..k])
    {
      canonical := canonical[list[k].id := list[k]];
      assert list[..k + 1][..k] == list[..k];
    }
    assert list[..|list|] == list;
  }

  predicate Keyed(entries: map<string, Component>) {
    forall k <- entries :: entries[k].id == k
  }

  /** Read the rows of a snapshot. */
  method Rows(entries: map<string, Component>) returns (list: seq<Component>)
    requires Keyed(entries)
    ensures Canonical(list) == entries
  {
    list := [];
    var rest := entries.Keys;
    while rest != {}
      invariant rest <= entries.Keys
      invariant Canonical(list).Keys == entries.Keys - rest
      invariant forall k <- Canonical(list) :: Canonical(list)[k] == entries[k]
      decreases rest
    {
      var k :| k in rest;
      ghost var before := list;
      list := list + [entries[k]];
      assert list[..|list| - 1] == before;
      rest := rest - {k};
    }
  }

  lemma CanonicalAppend(list: seq<Component>, c: Component)
    ensures Canonical(list + [c]) == Canonical(list)[c.id := c]
  {
  }

  /** Drop the entry with the component's id and append the component. */
  method Replace(list: seq<Component>, c: Component) returns (edited: seq<Component>)
    ensures Canonical(edited) == Canonical(list)[c.id := c]
  {
    edited := [];
    for k := 0 to |list|
      invariant Canonical(edited).Keys == Canonical(list[..k]).Keys - {c.id}
      invariant forall id <- Canonical(edited) :: Canonical(edited)[id] == Canonical(list[..k])[id]
    {
      CanonicalAppend(list[..k], list[k]);
      assert list[..k + 1] == list[..k] + [list[k]];
      if list[k].id != c.id {
        CanonicalAppend(edited, list[k]);
        edited := edited + [list[k]];
      }
    }
    assert list[..|list|] == list;
    CanonicalAppend(edited, c);
    edited := edited + [c];
  }

  // ----------------------------------------------------------------- Store

  class Store {
    const env: Env
    ghost const first: string
    var log: seq<Event>
    var snapshots: map<string, Stored>
    var active: string
    var version: int
    var deployments: map<string, DeployRow>
    var receipts: map<string, DeploymentReceipt>
    var controls: map<string, ControlRow>
    var outcomes: map<string, ControlOutcome>
    var approvals: map<string, Approval>
    var proposals: map<string, Proposal>
    var operationSnapshot: string

    function View(): State
      reads this
    {
      State(log, snapshots, active, version, deployments, receipts, controls, outcomes, Tables(approvals, proposals),
            operationSnapshot)
    }

    /** The component id is part of the primary key of an entry. */
    predicate KeyedRows()
      reads this
    {
      forall id <- snapshots :: Keyed(snapshots[id].entries)
    }

    /** Provenance, lineage, exclusion and the replay of the log. */
    ghost predicate Valid()
      reads this
    {
      Inv(env, first, View())
    }

    constructor (env: Env, now: int, operationSnapshot: string)
      ensures this.env == env && KeyedRows() && View() == Init(env, now, operationSnapshot) && Valid()
    {
      var id := env.snapshotId(map[]);
      this.env, first := env, id;
      log, snapshots, active, version := [], map[id := Stored(now, map[])], id, 1;
      deployments, receipts, controls, outcomes, approvals, proposals := map[], map[], map[], map[], map[], map[];
      this.operationSnapshot := operationSnapshot;
    }

    method Rollback(saved: State)
      modifies this
      ensures View() == saved
    {
      log, snapshots, active, version := saved.log, saved.snapshots, saved.active, saved.version;
      deployments, receipts, controls, outcomes := saved.deployments, saved.receipts, saved.controls, saved.outcomes;
      approvals, proposals := saved.tables.approvals, saved.tables.proposals;
      operationSnapshot := saved.operationSnapshot;
    }

    method LoadSnapshot(id: string) returns (r: Result<seq<Component>>)
      requires KeyedRows()
      ensures match Load(env, snapshots, id)
              case Err(e) => r == Err(e)
              case Ok(entries) => r.Ok? && Canonical(r.value) == entries
    {
      if id !in snapshots {
        return Err(ComponentSnapshotNotFound);
      }
      var list := Rows(snapshots[id].entries);
      var canonical := CanonicalMap(list);
      if env.snapshotId(canonical) != id {
        return Err(ComponentSnapshotDigestMismatch);
      }
      r := Ok(list);
    }

    method PersistSnapshot(list: seq<Component>, now: int) returns (r: Result<string>)
      requires KeyedRows()
      modifies this`snapshots
      ensures match Persist(env, old(snapshots), Canonical(list), now)
              case Err(e) => r == Err(e) && View() == old(View())
              case Ok((stored, id)) => r == Ok(id) && View() == old(View()).(snapshots := stored)
      ensures KeyedRows()
    {
      var canonical := CanonicalMap(list);
      CanonicalIsKeyed(list);
      var id := env.snapshotId(canonical);
      if id in snapshots {
        var loaded := LoadSnapshot(id);
        return if loaded.Err? then Err(loaded.error) else Ok(id);
      }
      snapshots := snapshots[id := Stored(now, canonical)];
      r := Ok(id);
    }

    static lemma {:induction false} CanonicalIsKeyed(list: seq<Component>)
      ensures Keyed(Canonical(list))
    {
      if list != [] { CanonicalIsKeyed(list[..|list| - 1]); }
    }

    /** The newest snapshot that holds the component exactly as the receipt names it. */
    method HistoricalSnapshot(r: ControlReceipt) returns (pick: Option<string>)
      ensures IsHistorical(View(), r, pick)
    {
      pick := None;
      var rest := snapshots.Keys;
      while rest != {}
        invariant rest <= snapshots.Keys
        invariant pick.None? ==> forall id <- snapshots.Keys - rest :: !HistoricalMatch(snapshots[id], r)
        invariant pick.Some? ==> pick.value in snapshots && HistoricalMatch(snapshots[pick.value], r)
        invariant pick.Some? ==> forall id <- snapshots.Keys - rest | HistoricalMatch(snapshots[id], r) ::
                    snapshots[id].createdAt <= snapshots[pick.value].createdAt
        decreases rest
      {
        var id :| id in rest;
        if HistoricalMatch(snapshots[id], r)
          && (pick.None? || snapshots[pick.value].createdAt < snapshots[id].createdAt) {
          pick := Some(id);
        }
        rest := rest - {id};
      }
      assert snapshots.Keys - rest == snapshots.Keys;
    }

    // ---------------------------------------------------------- Deployments

    method RecordTrustedServiceDeploymentIntent(i: Identity, intent: DeploymentIntent, m: ServiceManifest,
                                                agent: string, authentic: bool, now: int) returns (r: Result<()>)
      requires KeyedRows()
      modifies this
      ensures (View(), r) == RecordDeployment(env, old(View()), i, intent, m, agent, authentic, now)
      ensures KeyedRows()
      ensures old(Valid()) && ManifestFetched(env, i, m) ==> Valid()
    {
      if Valid() && ManifestFetched(env, i, m) {
        RecordDeploymentKeeps(env, first, View(), i, intent, m, agent, authentic, now);
      }
      r := RecordTx(i, intent, m, agent, authentic, now);
    }

    method RecordTx(i: Identity, intent: DeploymentIntent, m: ServiceManifest, agent: string, authentic: bool, now: int)
      returns (r: Result<()>)
      requires KeyedRows()
      modifies this
      ensures (View(), r) == RecordDeployment(env, old(View()), i, intent, m, agent, authentic, now)
      ensures KeyedRows()
    {
      if !env.manifestValid(m) || !env.intentValid(intent) {
        return Err(DeploymentIntentInvalid);
      }
      if !IntentBound(intent, i, m) {
        return Err(DeploymentIntentBindingMismatch);
      }
      var saved := View();
      var b := LoadValidatedBinding(saved.tables, i, agent, authentic);
      if b.Err? {
        return Err(b.error);
      }
      var pending := ValidatePending(saved, b.value, i, now);
      if pending.Err? {
        return Err(pending.error);
      }
      if b.value.proposal.linkOperation != m.component {
        return Err(ServiceComponentBindingMismatch);
      }
      log := log + [ProposalEvent(CapabilityChangeApproved, b.value.proposal, intent.proposalId)];
      var components := LoadSnapshot(active);
      if components.Err? {
        Rollback(saved);
        return Err(components.error);
      }
      var entries := CanonicalMap(components.value);
      if m.component in entries && !Versions.Newer(m.version, entries[m.component].version) {
        Rollback(saved);
        return Err(ServiceVersionNotMonotonic);
      }
      var row := DeployRow(m.component, intent);
      if intent.intentId in deployments {
        if deployments[intent.intentId] != row {
          Rollback(saved);
          return Err(DeploymentIntentConflict);
        }
        return Ok(());
      }
      if ApprovedDeploymentInFlight(saved, m.component, intent.intentId) || ControlIsPending(saved, m.component) {
        Rollback(saved);
        return Err(ServiceComponentEffectInFlight);
      }
      if !DeploymentKeysFree(saved, intent) {
        Rollback(saved);
        return Err(UniqueViolation);
      }
      deployments := deployments[intent.intentId := row];
      log := log + [NoteEvent(DeploymentIntentRecorded, Some(b.value.proposal), intent.intentId)];
      r := Ok(());
    }

    method ActivateTrustedService(i: Identity, intent: DeploymentIntent, m: ServiceManifest, receipt: DeploymentReceipt,
                                  agent: string, authentic: bool, now: int) returns (r: Result<DecisionResult>)
      requires KeyedRows()
      modifies this
      ensures (View(), r) == ActivateService(env, old(View()), i, intent, m, receipt, agent, authentic, now)
      ensures KeyedRows()
      ensures old(Valid()) && ManifestFetched(env, i, m) ==> Valid()
    {
      if Valid() && ManifestFetched(env, i, m) {
        ActivateServiceKeeps(env, first, View(), i, intent, m, receipt, agent, authentic, now);
      }
      if !env.manifestValid(m) || !env.intentValid(intent) {
        return Err(ServiceManifestInvalid);
      }
      if !ReceiptFor(env, receipt, intent, m.component) {
        return Err(DeploymentReceiptBindingInvalid);
      }
      if m.id == "" || intent.manifestDigest != i.manifest || m.artifact != i.artifact {
        return Err(ServiceActivationBindingMismatch);
      }
      var b := LoadValidatedBinding(View().tables, i, agent, authentic);
      if b.Err? {
        return Err(b.error);
      }
      if !b.value.approval.status.Pending? {
        return ReplayService(b.value.approval, i, receipt.deploymentId);
      }
      var pending := ValidatePending(View(), b.value, i, now);
      if pending.Err? {
        return Err(pending.error);
      }
      if b.value.proposal.linkOperation != m.component {
        return Err(ServiceComponentBindingMismatch);
      }
      if intent.intentId !in deployments {
        return Err(DeploymentIntentNotRecorded);
      }
      if deployments[intent.intentId] != DeployRow(m.component, intent) {
        return Err(DeploymentIntentBindingMismatch);
      }
      r := DeployTx(i, m, receipt, b.value.proposal, now);
    }

    method DeployTx(i: Identity, m: ServiceManifest, receipt: DeploymentReceipt, p: Proposal, now: int)
      returns (r: Result<DecisionResult>)
      requires KeyedRows()
      modifies this
      ensures (View(), r) == DeployPending(env, old(View()), i, m, receipt, p, now)
      ensures KeyedRows()
    {
      var saved := View();
      var source := LoadSnapshot(active);
      if source.Err? {
        return Err(source.error);
      }
      var entries := CanonicalMap(source.value);
      var allowed := ReplacementAllowed(entries, m, receipt);
      if allowed.Err? {
        return Err(allowed.error);
      }
      if !ReceiptKeysFree(saved, receipt) {
        return Err(UniqueViolation);
      }
      var components := Replace(source.value, Deployed(i, m, receipt));
      r := PublishTx(i, m, receipt, p, components, now);
    }

    method PublishTx(i: Identity, m: ServiceManifest, receipt: DeploymentReceipt, p: Proposal,
                     components: seq<Component>, now: int)
      returns (r: Result<DecisionResult>)
      requires KeyedRows()
      modifies this
      ensures (View(), r) == PublishDeployment(env, old(View()), i, m, receipt, p, Canonical(components), now)
      ensures KeyedRows()
    {
      var saved := View();
      receipts := receipts[receipt.receiptId := receipt];
      var target := PersistSnapshot(components, now);
      if target.Err? {
        Rollback(saved);
        return Err(target.error);
      }
      r := SettleDeployment(saved, i, m, receipt, p, target.value);
    }

    method SettleDeployment(saved: State, i: Identity, m: ServiceManifest, receipt: DeploymentReceipt, p: Proposal,
                            target: string)
      returns (r: Result<DecisionResult>)
      requires View() == saved.(snapshots := snapshots, receipts := saved.receipts[receipt.receiptId := receipt])
      modifies this
      ensures snapshots == old(snapshots) || snapshots == saved.snapshots
      ensures (View(), r) == FinishDeployment(saved, i, m, receipt, p, old(snapshots), target)
    {
      active, version := target, version + 1;
      var result := DecisionResult(i.decisionId, Approved, Some(target), Some(receipt.deploymentId), None, false);
      var settled := SettleApproval(i, result);
      if settled.Err? {
        Rollback(saved);
        return Err(settled.error);
      }
      log := log + DeployEvents(p, i, m, receipt, saved.active, target);
      r := Ok(result);
    }

    /** Settle the approval row and then the proposal row. On an error the caller rolls back. */
    method SettleApproval(i: Identity, result: DecisionResult) returns (r: Result<()>)
      modifies this`approvals, this`proposals
      ensures match PersistTerminal(old(View()).tables, i, Approved, ProposalActivated, result)
              case Err(e) => r == Err(e)
              case Ok(t) => r == Ok(()) && View() == old(View()).(tables := t)
    {
      if i.approvalId !in approvals || !approvals[i.approvalId].status.Pending? {
        return Err(ApprovalNotPending);
      }
      if exists id <- approvals :: approvals[id].decision.decisionId == Some(i.decisionId) {
        return Err(UniqueViolation);
      }
      var d := Decision(Some(i.decisionId), Some(i.payloadDigest), Some(result), Some(i.principal),
                        result.snapshot, result.deployment, result.error);
      approvals := approvals[i.approvalId := Approval(approvals[i.approvalId].terms, Approved, d)];
      if i.proposalId !in proposals || !proposals[i.proposalId].status.PendingApproval? {
        return Err(ProposalNotPending);
      }
      proposals := proposals[i.proposalId := proposals[i.proposalId].(status := ProposalActivated)];
      r := Ok(());
    }

    // -------------------------------------------------- Disable and rollback

    method RecordComponentControlIntent(intent: ControlIntent, owner: string) returns (r: Result<()>)
      requires KeyedRows()
      modifies this
      ensures (View(), r) == RecordControl(env, old(View()), intent, owner)
      ensures KeyedRows()
      ensures old(Valid()) ==> Valid()
    {
      if Valid() { RecordControlKeeps(env, first, View(), intent, owner); }
      if !env.controlValid(intent) {
        return Err(ComponentControlIntentInvalid);
      }
      if intent.principal != "feishu:open_id:" + owner {
        return Err(ComponentControlOwnerMismatch);
      }
      if intent.decisionId in controls {
        if controls[intent.decisionId].intent != intent {
          return Err(ComponentControlDecisionConflict);
        }
        if controls[intent.decisionId].status.ControlFailed? {
          return Err(ComponentControlDecisionTerminal);
        }
        return Ok(());
      }
      if ControlIsPending(View(), intent.component) || DeploymentIsPending(View(), intent.component) {
        return Err(ComponentControlEffectInFlight);
      }
      var current := ActiveComponent(env, View(), intent);
      if current.Err? {
        return Err(current.error);
      }
      if intent.action.Rollback? && !current.value.status.Healthy? {
        return Err(ComponentRollbackStateInvalid);
      }
      if intent.action.Disable? && !(current.value.status.Healthy? || current.value.status.RolledBack?) {
        return Err(ComponentDisableStateInvalid);
      }
      controls := controls[intent.decisionId := ControlRow(intent, ControlPending)];
      log := log + [NoteEvent(ComponentControlIntentRecorded, None, intent.decisionId)];
      r := Ok(());
    }

    method FailComponentControlIntent(decisionId: string) returns (r: Result<()>)
      requires KeyedRows()
      modifies this`controls
      ensures (View(), r) == FailControl(old(View()), decisionId)
      ensures KeyedRows()
      ensures old(Valid()) ==> Valid()
    {
      if Valid() { FailControlKeeps(env, first, View(), decisionId); }
      r := FailTx(decisionId);
    }

    method FailTx(decisionId: string) returns (r: Result<()>)
      modifies this`controls
      ensures (View(), r) == FailControl(old(View()), decisionId)
    {
      if decisionId !in controls || !controls[decisionId].status.ControlPending? {
        return Err(ComponentControlDecisionConflict);
      }
      controls := controls[decisionId := controls[decisionId].(status := ControlFailed)];
      r := Ok(());
    }

    method SettleComponentControl(intent: ControlIntent, receipt: ControlReceipt, now: int)
      returns (r: Result<ControlResult>, ghost pick: Option<string>)
      requires KeyedRows()
      modifies this
      ensures IsHistorical(old(View()), receipt, pick)
      ensures (View(), r) == SettleControl(env, old(View()), intent, receipt, pick, now)
      ensures KeyedRows()
      ensures old(Valid()) ==> Valid()
    {
      var found := HistoricalSnapshot(receipt);
      pick := found;
      if Valid() { SettleControlKeeps(env, first, View(), intent, receipt, found, now); }
      if !env.controlValid(intent) {
        return Err(ComponentControlIntentInvalid), pick;
      }
      if !ControlReceiptFor(env, receipt, intent) {
        return Err(ComponentControlReceiptInvalid), pick;
      }
      if intent.decisionId !in controls {
        return Err(ComponentControlIntentNotRecorded), pick;
      }
      if controls[intent.decisionId].intent != intent {
        return Err(ComponentControlIntentConflict), pick;
      }
      if intent.decisionId in outcomes {
        if outcomes[intent.decisionId].receipt != receipt {
          return Err(ComponentControlReceiptConflict), pick;
        }
        return RecordedControl(env, View(), intent), pick;
      }
      var current := ActiveComponent(env, View(), intent);
      if current.Err? {
        return Err(current.error), pick;
      }
      var target := ControlTarget(env, View(), intent, receipt, current.value, found);
      if target.Err? {
        return Err(target.error), pick;
      }
      TargetHasId(target.value, current.value, intent, receipt, found);
      r := InstallTx(intent, receipt, Controlled(target.value, receipt), now);
    }

    lemma TargetHasId(target: Component, current: Component, intent: ControlIntent, receipt: ControlReceipt,
                      found: Option<string>)
      requires KeyedRows() && ControlReceiptFor(env, receipt, intent)
      requires ActiveComponent(env, View(), intent) == Ok(current)
      requires ControlTarget(env, View(), intent, receipt, current, found) == Ok(target)
      ensures target.id == intent.component
    {
    }

    method InstallTx(intent: ControlIntent, receipt: ControlReceipt, component: Component, now: int)
      returns (r: Result<ControlResult>)
      requires KeyedRows() && component.id == intent.component
      modifies this
      ensures (View(), r) == InstallControl(env, old(View()), intent, receipt, component, now)
      ensures KeyedRows()
    {
      var saved := View();
      var source := LoadSnapshot(intent.expectedSnapshot);
      if source.Err? {
        return Err(source.error);
      }
      var components := Replace(source.value, component);
      var target := PersistSnapshot(components, now);
      if target.Err? {
        return Err(target.error);
      }
      r := PublishControlTx(saved, intent, receipt, component, target.value);
    }

    method PublishControlTx(saved: State, intent: ControlIntent, receipt: ControlReceipt, component: Component,
                            target: string)
      returns (r: Result<ControlResult>)
      requires View() == saved.(snapshots := snapshots)
      modifies this
      ensures snapshots == old(snapshots) || snapshots == saved.snapshots
      ensures (View(), r) == PublishControl(saved, intent, receipt, component, old(snapshots), target)
    {
      if active != intent.expectedSnapshot {
        Rollback(saved);
        return Err(ComponentControlSnapshotConflict);
      }
      active, version := target, version + 1;
      if !OutcomeKeysFree(saved, receipt) {
        Rollback(saved);
        return Err(UniqueViolation);
      }
      outcomes := outcomes[intent.decisionId := ControlOutcome(target, receipt)];
      if intent.decisionId !in controls || !controls[intent.decisionId].status.ControlPending? {
        Rollback(saved);
        return Err(ComponentControlDecisionConflict);
      }
      controls := controls[intent.decisionId := controls[intent.decisionId].(status := ControlSucceeded)];
      log := log + ControlEvents(intent, receipt, target);
      r := Ok(ControlResult(target, receipt.receiptId, component, false));
    }
  }
}
