/** The managed-component registry: deployments decided by trusted approvals, disable and
    rollback decided by the owner, and one active snapshot that all of them move. */
module Components {
  import opened Journal
  import opened Approvals
  import Versions

  datatype ComponentStatus = Healthy | Disabled | RolledBack

  datatype Component = Component(
    id: string,
    kind: string,
    manifestId: string,
    manifestDigest: string,
    artifact: string,
    version: string,
    endpoint: string,
    deploymentId: string,
    receiptId: string,
    status: ComponentStatus,
    contracts: seq<string>,
    permissions: seq<string>)

  datatype Stored = Stored(createdAt: int, entries: map<string, Component>)

  datatype ServiceManifest = ServiceManifest(
    id: string,
    component: string,
    kind: string,
    artifact: string,
    version: string,
    contracts: seq<string>,
    permissions: seq<string>)

  datatype DeploymentIntent = DeploymentIntent(
    intentId: string,
    invocationId: string,
    proposalId: string,
    decisionId: string,
    manifestDigest: string,
    artifact: string,
    expectedVersion: string)

  datatype DeploymentReceipt = DeploymentReceipt(
    receiptId: string,
    invocationId: string,
    intentId: string,
    proposalId: string,
    decisionId: string,
    deploymentId: string,
    component: string,
    manifestDigest: string,
    artifact: string,
    version: string,
    endpoint: string,
    previousArtifact: Option<string>,
    healthy: bool)

  datatype Action = Disable | Rollback

  datatype ControlIntent = ControlIntent(
    decisionId: string,
    nonce: string,
    principal: string,
    component: string,
    action: Action,
    expectedSnapshot: string,
    expectedDeployment: string)

  datatype ControlReceipt = ControlReceipt(
    receiptId: string,
    action: Action,
    decisionId: string,
    component: string,
    deploymentId: string,
    artifact: string,
    version: string,
    endpoint: string,
    logRef: string,
    ok: bool)

  datatype ControlStatus = ControlPending | ControlSucceeded | ControlFailed
  datatype ControlRow = ControlRow(intent: ControlIntent, status: ControlStatus)
  datatype ControlOutcome = ControlOutcome(target: string, receipt: ControlReceipt)
  datatype ControlResult = ControlResult(target: string, receiptId: string, component: Component, replayed: bool)
  datatype DeployRow = DeployRow(component: string, intent: DeploymentIntent)

  /** Digests, the content-addressed manifest store and the format checks of the protocol
      messages. */
  datatype Env = Env(
    snapshotId: map<string, Component> -> string,
    manifestOf: string -> ServiceManifest,
    deploymentId: (DeploymentIntent, string) -> string,
    manifestValid: ServiceManifest -> bool,
    intentValid: DeploymentIntent -> bool,
    receiptFormatValid: DeploymentReceipt -> bool,
    controlValid: ControlIntent -> bool,
    controlReceiptFormatValid: ControlReceipt -> bool)

  datatype State = State(
    log: seq<Event>,
    snapshots: map<string, Stored>,
    active: string,
    version: int,
    deployments: map<string, DeployRow>,
    receipts: map<string, DeploymentReceipt>,
    controls: map<string, ControlRow>,
    outcomes: map<string, ControlOutcome>,
    tables: Tables,
    operationSnapshot: string)

  // ---------------------------------------------------------------- Snapshots

  /** Loading re-checks the digest of what was stored. */
  function Load(env: Env, snapshots: map<string, Stored>, id: string): Result<map<string, Component>> {
    if id !in snapshots then Err(ComponentSnapshotNotFound)
    else if env.snapshotId(snapshots[id].entries) != id then Err(ComponentSnapshotDigestMismatch)
    else Ok(snapshots[id].entries)
  }

  /** Store a snapshot under its digest, or reuse the stored one. */
  function Persist(env: Env, snapshots: map<string, Stored>, entries: map<string, Component>, now: int)
    : Result<(map<string, Stored>, string)>
  {
    var id := env.snapshotId(entries);
    if id in snapshots then
      match Load(env, snapshots, id)
      case Err(e) => Err(e)
      case Ok(_) => Ok((snapshots, id))
    else
      Ok((snapshots[id := Stored(now, entries)], id))
  }

  /** A move of the active snapshot; a deployment carries the run and session of its proposal. */
  function SnapshotEvent(kind: Kind, origin: Option<Proposal>, component: string, deployment: string, previous: string,
                         next: string): Event
  {
    Event(kind, if origin.Some? then Some(origin.value.run) else None,
          if origin.Some? then Some(origin.value.session) else None, Some(component),
          Payload(subject := Some(component), deployment := Some(deployment),
                  previousSnapshot := Some(previous), newSnapshot := Some(next)))
  }

  function NoteEvent(kind: Kind, origin: Option<Proposal>, correlation: string): Event {
    Event(kind, if origin.Some? then Some(origin.value.run) else None,
          if origin.Some? then Some(origin.value.session) else None, Some(correlation),
          Payload(subject := Some(correlation)))
  }

  function Init(env: Env, now: int, operationSnapshot: string): State {
    var id := env.snapshotId(map[]);
    State([], map[id := Stored(now, map[])], id, 1, map[], map[], map[], map[], Tables(map[], map[]), operationSnapshot)
  }

  // --------------------------------------------------------------- Deployment

  predicate ControlIsPending(s: State, component: string) {
    exists d <- s.controls :: s.controls[d].intent.component == component && s.controls[d].status.ControlPending?
  }

  /** A deployment of the component whose approval is still pending. */
  predicate DeploymentIsPending(s: State, component: string) {
    exists d <- s.deployments, a <- s.tables.approvals ::
      && s.deployments[d].component == component
      && s.tables.approvals[a].terms.proposalId == s.deployments[d].intent.proposalId
      && s.tables.approvals[a].status.Pending?
  }

  /** The in-flight count of the kernel, which only sees proposals in status Approved. */
  predicate ApprovedDeploymentInFlight(s: State, component: string, intentId: string) {
    exists d <- s.deployments ::
      && s.deployments[d].component == component && d != intentId
      && s.deployments[d].intent.proposalId in s.tables.proposals
      && s.tables.proposals[s.deployments[d].intent.proposalId].status.ProposalApproved?
      && forall r <- s.receipts ::
           !(s.receipts[r].proposalId == s.deployments[d].intent.proposalId && s.receipts[r].component == component)
  }

  predicate IntentBound(intent: DeploymentIntent, i: Identity, m: ServiceManifest) {
    && intent.proposalId == i.proposalId && intent.decisionId == i.decisionId
    && intent.manifestDigest == i.manifest && intent.artifact == i.artifact
    && intent.expectedVersion == m.version && intent.artifact == m.artifact
  }

  function ValidatePending(s: State, b: Binding, i: Identity, now: int): Result<()> {
    match ValidateDecidable(b, now)
    case Err(e) => Err(e)
    case Ok(_) => if s.operationSnapshot != i.snapshot then Err(SourceRegistrySnapshotChanged) else Ok(())
  }

  /** Uniqueness of invocation and decision ids among deployment intents. */
  predicate DeploymentKeysFree(s: State, intent: DeploymentIntent) {
    forall d <- s.deployments ::
      s.deployments[d].intent.invocationId != intent.invocationId
        && s.deployments[d].intent.decisionId != intent.decisionId
  }

  function RecordDeployment(env: Env, s: State, i: Identity, intent: DeploymentIntent, m: ServiceManifest,
                            agent: string, authentic: bool, now: int): (State, Result<()>)
  {
    if !env.manifestValid(m) || !env.intentValid(intent) then (s, Err(DeploymentIntentInvalid))
    else if !IntentBound(intent, i, m) then (s, Err(DeploymentIntentBindingMismatch))
    else
      match LoadValidatedBinding(s.tables, i, agent, authentic)
      case Err(e) => (s, Err(e))
      case Ok(b) =>
        if ValidatePending(s, b, i, now).Err? then (s, Err(ValidatePending(s, b, i, now).error))
        else if b.proposal.linkOperation != m.component then (s, Err(ServiceComponentBindingMismatch))
        else
          match Load(env, s.snapshots, s.active)
          case Err(e) => (s, Err(e))
          case Ok(entries) =>
            if m.component in entries && !Versions.Newer(m.version, entries[m.component].version) then
              (s, Err(ServiceVersionNotMonotonic))
            else InsertDeployment(s, b.proposal, intent, m.component)
  }

  /** The approval event is written before the intent is known to be new, so a repeated record
      appends it again. */
  function InsertDeployment(s: State, p: Proposal, intent: DeploymentIntent, component: string): (State, Result<()>) {
    var approved := s.log + [ProposalEvent(CapabilityChangeApproved, p, intent.proposalId)];
    if intent.intentId in s.deployments then
      if s.deployments[intent.intentId] != DeployRow(component, intent) then (s, Err(DeploymentIntentConflict))
      else (s.(log := approved), Ok(()))
    else if ApprovedDeploymentInFlight(s, component, intent.intentId) || ControlIsPending(s, component) then
      (s, Err(ServiceComponentEffectInFlight))
    else if !DeploymentKeysFree(s, intent) then (s, Err(UniqueViolation))
    else
      (s.(deployments := s.deployments[intent.intentId := DeployRow(component, intent)],
          log := approved + [NoteEvent(DeploymentIntentRecorded, Some(p), intent.intentId)]),
       Ok(()))
  }

  predicate ReceiptFor(env: Env, r: DeploymentReceipt, intent: DeploymentIntent, component: string) {
    && r.invocationId == intent.invocationId && r.intentId == intent.intentId
    && r.proposalId == intent.proposalId && r.decisionId == intent.decisionId
    && r.deploymentId == env.deploymentId(intent, component) && r.component == component
    && r.manifestDigest == intent.manifestDigest && r.artifact == intent.artifact
    && r.version == intent.expectedVersion && r.healthy && env.receiptFormatValid(r)
  }

  predicate ReceiptKeysFree(s: State, r: DeploymentReceipt) {
    && r.receiptId !in s.receipts
    && forall k <- s.receipts ::
      s.receipts[k].deploymentId != r.deploymentId && s.receipts[k].invocationId != r.invocationId
  }

  function Deployed(i: Identity, m: ServiceManifest, r: DeploymentReceipt): Component {
    Component(m.component, m.kind, m.id, i.manifest, m.artifact, m.version, r.endpoint, r.deploymentId, r.receiptId,
              Healthy, m.contracts, m.permissions)
  }

  function ActivateService(env: Env, s: State, i: Identity, intent: DeploymentIntent, m: ServiceManifest,
                           r: DeploymentReceipt, agent: string, authentic: bool,
                           now: int): (State, Result<DecisionResult>)
  {
    if !env.manifestValid(m) || !env.intentValid(intent) then (s, Err(ServiceManifestInvalid))
    else if !ReceiptFor(env, r, intent, m.component) then (s, Err(DeploymentReceiptBindingInvalid))
    else if m.id == "" || intent.manifestDigest != i.manifest || m.artifact != i.artifact then
      (s, Err(ServiceActivationBindingMismatch))
    else
      match LoadValidatedBinding(s.tables, i, agent, authentic)
      case Err(e) => (s, Err(e))
      case Ok(b) =>
        if !b.approval.status.Pending? then (s, ReplayService(b.approval, i, r.deploymentId))
        else if ValidatePending(s, b, i, now).Err? then (s, Err(ValidatePending(s, b, i, now).error))
        else if b.proposal.linkOperation != m.component then (s, Err(ServiceComponentBindingMismatch))
        else if intent.intentId !in s.deployments then (s, Err(DeploymentIntentNotRecorded))
        else if s.deployments[intent.intentId] != DeployRow(m.component, intent) then
          (s, Err(DeploymentIntentBindingMismatch))
        else DeployPending(env, s, i, m, r, b.proposal, now)
  }

  function ReplayService(a: Approval, i: Identity, deploymentId: string): Result<DecisionResult> {
    match ReplayResult(a, i, Approved)
    case Err(e) => Err(e)
    case Ok(r) => if r.deployment != Some(deploymentId) then Err(ApprovalDecisionConflict) else Ok(r)
  }

  /** What the entry being replaced demands of a deployment. */
  function ReplacementAllowed(entries: map<string, Component>, m: ServiceManifest, r: DeploymentReceipt): Result<()> {
    if m.component in entries then
      var current := entries[m.component];
      if !Versions.Newer(m.version, current.version) then Err(ServiceVersionNotMonotonic)
      else if r.previousArtifact != Some(current.artifact) then Err(ServicePreviousArtifactMismatch)
      else Ok(())
    else if r.previousArtifact.Some? then Err(ServicePreviousArtifactMismatch)
    else Ok(())
  }

  function DeployPending(env: Env, s: State, i: Identity, m: ServiceManifest, r: DeploymentReceipt, p: Proposal,
                         now: int)
    : (State, Result<DecisionResult>)
  {
    match Load(env, s.snapshots, s.active)
    case Err(e) => (s, Err(e))
    case Ok(entries) =>
      if ReplacementAllowed(entries, m, r).Err? then (s, Err(ReplacementAllowed(entries, m, r).error))
      else if !ReceiptKeysFree(s, r) then (s, Err(UniqueViolation))
      else PublishDeployment(env, s, i, m, r, p, entries[m.component := Deployed(i, m, r)], now)
  }

  /** Store the receipt and the new snapshot, make it active and settle the approval. */
  function PublishDeployment(env: Env, s: State, i: Identity, m: ServiceManifest, r: DeploymentReceipt, p: Proposal,
                             entries: map<string, Component>, now: int): (State, Result<DecisionResult>)
  {
    match Persist(env, s.snapshots, entries, now)
    case Err(e) => (s, Err(e))
    case Ok((snapshots, target)) => FinishDeployment(s, i, m, r, p, snapshots, target)
  }

  function FinishDeployment(s: State, i: Identity, m: ServiceManifest, r: DeploymentReceipt, p: Proposal,
                            snapshots: map<string, Stored>, target: string): (State, Result<DecisionResult>)
  {
    var result := DecisionResult(i.decisionId, Approved, Some(target), Some(r.deploymentId), None, false);
    match PersistTerminal(s.tables, i, Approved, ProposalActivated, result)
    case Err(e) => (s, Err(e))
    case Ok(tables) =>
      (s.(snapshots := snapshots, receipts := s.receipts[r.receiptId := r], active := target, version := s.version + 1,
          tables := tables, log := s.log + DeployEvents(p, i, m, r, s.active, target)),
       Ok(result))
  }

  function DeployEvents(p: Proposal, i: Identity, m: ServiceManifest, r: DeploymentReceipt, previous: string,
                        next: string): seq<Event> {
    [ProposalEvent(CapabilityChangeApproved, p, i.proposalId),
     NoteEvent(DeploymentReceiptRecorded, Some(p), r.receiptId)]
    + [SnapshotEvent(ComponentRegistered, Some(p), m.component, r.deploymentId, previous, next)]
    + [ProposalEvent(CapabilityChangeActivated, p, i.proposalId)]
  }

  // ------------------------------------------------------------------ Control

  function ActiveComponent(env: Env, s: State, intent: ControlIntent): Result<Component> {
    if s.active != intent.expectedSnapshot then Err(ComponentControlSnapshotConflict)
    else
      match Load(env, s.snapshots, s.active)
      case Err(e) => Err(e)
      case Ok(entries) =>
        if intent.component !in entries then Err(ComponentNotRegistered)
        else if entries[intent.component].deploymentId != intent.expectedDeployment then
          Err(ComponentControlDeploymentConflict)
        else Ok(entries[intent.component])
  }

  predicate ControlAllowed(action: Action, status: ComponentStatus) {
    match action
    case Rollback => status.Healthy?
    case Disable => status.Healthy? || status.RolledBack?
  }

  function RecordControl(env: Env, s: State, intent: ControlIntent, owner: string): (State, Result<()>) {
    if !env.controlValid(intent) then (s, Err(ComponentControlIntentInvalid))
    else if intent.principal != "feishu:open_id:" + owner then (s, Err(ComponentControlOwnerMismatch))
    else if intent.decisionId in s.controls then
      if s.controls[intent.decisionId].intent != intent then (s, Err(ComponentControlDecisionConflict))
      else if s.controls[intent.decisionId].status.ControlFailed? then (s, Err(ComponentControlDecisionTerminal))
      else (s, Ok(()))
    else if ControlIsPending(s, intent.component) || DeploymentIsPending(s, intent.component) then
      (s, Err(ComponentControlEffectInFlight))
    else
      match ActiveComponent(env, s, intent)
      case Err(e) => (s, Err(e))
      case Ok(active) =>
        if !ControlAllowed(intent.action, active.status) then
          (s, Err(if intent.action.Rollback? then ComponentRollbackStateInvalid else ComponentDisableStateInvalid))
        else
          (s.(controls := s.controls[intent.decisionId := ControlRow(intent, ControlPending)],
              log := s.log + [NoteEvent(ComponentControlIntentRecorded, None, intent.decisionId)]),
           Ok(()))
  }

  function FailControl(s: State, decisionId: string): (State, Result<()>) {
    if decisionId !in s.controls || !s.controls[decisionId].status.ControlPending? then
      (s, Err(ComponentControlDecisionConflict))
    else
      (s.(controls := s.controls[decisionId := s.controls[decisionId].(status := ControlFailed)]), Ok(()))
  }

  predicate ControlReceiptFor(env: Env, r: ControlReceipt, intent: ControlIntent) {
    && r.ok && r.action == intent.action && r.decisionId == intent.decisionId && r.component == intent.component
    && (intent.action.Disable? ==> r.deploymentId == intent.expectedDeployment)
    && env.controlReceiptFormatValid(r)
  }

  /** The lineage check: the deployment that is active now replaced the artifact to go back to. */
  function ValidateRollbackTarget(s: State, active: Component, r: ControlReceipt): Result<()> {
    if active.receiptId !in s.receipts then Err(ComponentRollbackLineageMissing)
    else
      var d := s.receipts[active.receiptId];
      if d.receiptId != active.receiptId || d.deploymentId != active.deploymentId || d.artifact != active.artifact
         || d.version != active.version || d.previousArtifact != Some(r.artifact)
         || r.deploymentId == active.deploymentId
      then Err(ComponentRollbackLineageInvalid)
      else Ok(())
  }

  predicate HistoricalMatch(stored: Stored, r: ControlReceipt) {
    && r.component in stored.entries
    && stored.entries[r.component].artifact == r.artifact
    && stored.entries[r.component].version == r.version
    && stored.entries[r.component].deploymentId == r.deploymentId
  }

  /** `ORDER BY created_at DESC LIMIT 1`; snapshots created at the same time are left open. */
  ghost predicate IsHistorical(s: State, r: ControlReceipt, pick: Option<string>) {
    match pick
    case None => forall id <- s.snapshots :: !HistoricalMatch(s.snapshots[id], r)
    case Some(best) =>
      && best in s.snapshots && HistoricalMatch(s.snapshots[best], r)
      && forall id <- s.snapshots | HistoricalMatch(s.snapshots[id], r) ::
        s.snapshots[id].createdAt <= s.snapshots[best].createdAt
  }

  /** The component to install, before the receipt's endpoint and the new status are set. */
  function ControlTarget(env: Env, s: State, intent: ControlIntent, r: ControlReceipt, active: Component,
                         pick: Option<string>)
    : Result<Component>
  {
    match intent.action
    case Disable =>
      if r.deploymentId != active.deploymentId || r.artifact != active.artifact || r.version != active.version then
        Err(ComponentDisableReceiptBindingMismatch)
      else Ok(active)
    case Rollback =>
      match ValidateRollbackTarget(s, active, r)
      case Err(e) => Err(e)
      case Ok(_) =>
        if pick.None? then Err(ComponentRollbackTargetUntrusted)
        else
          match Load(env, s.snapshots, pick.value)
          case Err(e) => Err(e)
          case Ok(entries) =>
            if r.component in entries then Ok(entries[r.component]) else Err(ComponentRollbackTargetUntrusted)
  }

  function Controlled(target: Component, r: ControlReceipt): Component {
    target.(endpoint := r.endpoint, status := if r.action.Disable? then Disabled else RolledBack)
  }

  predicate OutcomeKeysFree(s: State, r: ControlReceipt) {
    forall d <- s.outcomes :: s.outcomes[d].receipt.receiptId != r.receiptId
  }

  function SettleControl(env: Env, s: State, intent: ControlIntent, r: ControlReceipt, pick: Option<string>, now: int)
    : (State, Result<ControlResult>)
  {
    if !env.controlValid(intent) then (s, Err(ComponentControlIntentInvalid))
    else if !ControlReceiptFor(env, r, intent) then (s, Err(ComponentControlReceiptInvalid))
    else if intent.decisionId !in s.controls then (s, Err(ComponentControlIntentNotRecorded))
    else if s.controls[intent.decisionId].intent != intent then (s, Err(ComponentControlIntentConflict))
    else if intent.decisionId in s.outcomes then
      if s.outcomes[intent.decisionId].receipt != r then (s, Err(ComponentControlReceiptConflict))
      else (s, RecordedControl(env, s, intent))
    else
      match ActiveComponent(env, s, intent)
      case Err(e) => (s, Err(e))
      case Ok(active) =>
        match ControlTarget(env, s, intent, r, active, pick)
        case Err(e) => (s, Err(e))
        case Ok(target) => InstallControl(env, s, intent, r, Controlled(target, r), now)
  }

  function RecordedControl(env: Env, s: State, intent: ControlIntent): Result<ControlResult>
    requires intent.decisionId in s.outcomes
  {
    var o := s.outcomes[intent.decisionId];
    match Load(env, s.snapshots, o.target)
    case Err(e) => Err(e)
    case Ok(entries) =>
      if intent.component !in entries then Err(ComponentControlResultCorrupt)
      else Ok(ControlResult(o.target, o.receipt.receiptId, entries[intent.component], true))
  }

  function InstallControl(env: Env, s: State, intent: ControlIntent, r: ControlReceipt, component: Component, now: int)
    : (State, Result<ControlResult>)
  {
    match Load(env, s.snapshots, intent.expectedSnapshot)
    case Err(e) => (s, Err(e))
    case Ok(entries) =>
      match Persist(env, s.snapshots, entries[intent.component := component], now)
      case Err(e) => (s, Err(e))
      case Ok((snapshots, target)) => PublishControl(s, intent, r, component, snapshots, target)
  }

  /** Move the active snapshot and settle the decision. */
  function PublishControl(s: State, intent: ControlIntent, r: ControlReceipt, component: Component,
                          snapshots: map<string, Stored>, target: string): (State, Result<ControlResult>)
  {
    if s.active != intent.expectedSnapshot then (s, Err(ComponentControlSnapshotConflict))
    else if !OutcomeKeysFree(s, r) then (s, Err(UniqueViolation))
    else if intent.decisionId !in s.controls || !s.controls[intent.decisionId].status.ControlPending? then
      (s, Err(ComponentControlDecisionConflict))
    else
      (s.(snapshots := snapshots, active := target, version := s.version + 1,
          outcomes := s.outcomes[intent.decisionId := ControlOutcome(target, r)],
          controls := s.controls[intent.decisionId := s.controls[intent.decisionId].(status := ControlSucceeded)],
          log := s.log + ControlEvents(intent, r, target)),
       Ok(ControlResult(target, r.receiptId, component, false)))
  }

  function ControlEvents(intent: ControlIntent, r: ControlReceipt, target: string): seq<Event> {
    [NoteEvent(ComponentControlReceiptRecorded, None, r.receiptId)]
    + [SnapshotEvent(if intent.action.Disable? then ComponentDisabled else ComponentRolledBack, None,
                     intent.component, r.deploymentId, intent.expectedSnapshot, target)]
  }

  /** Look up a settled control decision without deciding anything. */
  function ReplayControl(env: Env, s: State, intent: ControlIntent): Result<Option<ControlResult>> {
    if !env.controlValid(intent) then Err(ComponentControlIntentInvalid)
    else if intent.decisionId !in s.controls then Err(ComponentControlIntentNotRecorded)
    else if s.controls[intent.decisionId].intent != intent then Err(ComponentControlIntentConflict)
    else if intent.decisionId !in s.outcomes then Ok(None)
    else if !ControlReceiptFor(env, s.outcomes[intent.decisionId].receipt, intent) then
      Err(ComponentControlResultCorrupt)
    else
      match RecordedControl(env, s, intent)
      case Err(e) => Err(e)
      case Ok(result) => Ok(Some(result))
  }
}
