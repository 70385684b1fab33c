/** The operation registry: immutable snapshots of operations and hook bindings, one active
    snapshot moved by compare-and-swap, and the five paths that move it. */
module OperationRegistry {
  import opened Journal
  import opened Approvals

  datatype Risk = ReadOnly | Write
  datatype BindingKind = Builtin | External

  datatype Spec = Spec(
    name: string,
    risk: Risk,
    description: string,
    parameters: string,
    idempotent: bool,
    bindingKind: BindingKind,
    bindingKey: string)

  datatype Hook = Hook(
    contract: string,
    hookId: string,
    hookVersion: string,
    bindingKind: BindingKind,
    bindingKey: string,
    providerId: string,
    endpoint: string)

  datatype Manifest = Manifest(
    id: string,
    harness: string,
    artifact: string,
    protocol: string,
    endpoint: string,
    operation: string,
    description: string,
    inputSchema: string,
    outputSchema: string,
    idempotent: bool,
    createdAt: int)

  /** Operations by name and hooks by contract: the primary keys of the snapshot tables, and all
      that the canonical form of a snapshot depends on. */
  datatype Snapshot = Snapshot(ops: map<string, Spec>, hooks: map<string, Hook>)

  /** What the registry takes from elsewhere: the digests, the manifest schema check, the risk
      table of coding operations and the baseline control operation. */
  datatype Env = Env(
    snapshotId: Snapshot -> string,
    manifestId: Manifest -> string,
    manifestDigest: Manifest -> string,
    manifestValid: Manifest -> bool,
    riskOf: string -> Risk,
    control: Spec)

  datatype State = State(
    log: seq<Event>,
    snapshots: map<string, Snapshot>,
    active: string,
    version: int,
    manifests: map<string, Manifest>,
    tables: Tables)

  const BUDGET_CONTRACT := "run.budget.resolve.v0"
  const BuiltinHooks: map<string, Hook> :=
    map[BUDGET_CONTRACT := Hook(BUDGET_CONTRACT, "builtin:run-budget-default-v0", "v0", Builtin,
                                "builtin.run_budget_default", "", "")]

  // ----------------------------------------------------------------- Content

  function InsertSpecs(ops: map<string, Spec>, more: seq<Spec>): map<string, Spec>
    decreases |more|
  {
    if more == [] then ops else InsertSpecs(ops[more[0].name := more[0]], more[1..])
  }

  predicate DistinctNames(ops: seq<Spec>) {
    forall i, j | 0 <= i < j < |ops| :: ops[i].name != ops[j].name
  }

  /** New snapshots inherit the hook bindings, or the bootstrap set if there are none. */
  function InheritedHooks(hooks: map<string, Hook>): map<string, Hook> {
    if hooks == map[] then BuiltinHooks else hooks
  }

  function ActivationEvent(previous: string, next: string, decisionId: string, run: Option<string>,
                           session: Option<string>): Event {
    Event(RegistrySnapshotActivated, run, session, Some(decisionId),
          Payload(previousSnapshot := Some(previous), newSnapshot := Some(next)))
  }

  // ------------------------------------------------------------ Building blocks

  /** Create a snapshot, or find the one with the same digest. */
  function CreateSnapshot(env: Env, s: State, content: Snapshot): (State, string) {
    var id := env.snapshotId(content);
    (if id in s.snapshots then s else s.(snapshots := s.snapshots[id := content]), id)
  }

  /** What creation has written when it stops half-way: the header, then operations, then hook
      bindings, each committed on its own. */
  predicate PartOf(partial: Snapshot, content: Snapshot) {
    && partial.ops.Keys <= content.ops.Keys && (forall name <- partial.ops :: partial.ops[name] == content.ops[name])
    && partial.hooks.Keys <= content.hooks.Keys && (forall c <- partial.hooks :: partial.hooks[c] == content.hooks[c])
    && (partial.hooks != map[] ==> partial.ops == content.ops)
  }

  /** Creation cut short; the header alone makes the id exist. */
  function InterruptedCreate(env: Env, s: State, content: Snapshot, partial: Snapshot): State {
    var id := env.snapshotId(content);
    if id in s.snapshots then s else s.(snapshots := s.snapshots[id := partial])
  }

  /** Compare-and-swap of the active snapshot with its activation event. */
  function ActivateSnapshot(s: State, expected: string, next: string, decisionId: string): (State, Result<string>) {
    if s.active != expected then (s, Err(SnapshotConflict))
    else if next !in s.snapshots then (s, Err(ForeignKeyViolation))
    else
      (s.(active := next, version := s.version + 1,
          log := s.log + [ActivationEvent(expected, next, decisionId, None, None)]),
       Ok(next))
  }

  /** The core all proposal paths share: insert a new snapshot, which must not exist yet, and
      swap it in. Callers add the events. */
  function ActivateContent(env: Env, s: State, content: Snapshot): Result<State> {
    var id := env.snapshotId(content);
    if id in s.snapshots then Err(UniqueViolation)
    else Ok(s.(snapshots := s.snapshots[id := content], active := id, version := s.version + 1))
  }

  /** The core as called with a caller-made operation list. The other two proposal paths extend
      or replace an entry of a stored snapshot, whose names are distinct. */
  function ActivateRegistry(env: Env, s: State, ops: seq<Spec>, expected: string): Result<State> {
    if !DistinctNames(ops) then Err(RegistryDuplicateOperation)
    else if s.active != expected then Err(StaleExpectedSnapshot)
    else if s.active !in s.snapshots then Err(RegistryStateNotFound)
    else ActivateContent(env, s, Snapshot(InsertSpecs(map[], ops), InheritedHooks(s.snapshots[s.active].hooks)))
  }

  function InsertManifest(env: Env, s: State, m: Manifest): Result<State> {
    if exists id <- s.manifests :: env.manifestId(s.manifests[id]) == env.manifestId(m) then
      Err(UniqueViolation)
    else
      Ok(s.(manifests := s.manifests[m.id := m],
            log := s.log + [Event(HarnessManifestRegistered, None, None, Some(m.id), Payload(subject := Some(m.id)))]))
  }

  /** Reuse an identical stored manifest, refuse a different one under the same id, or insert. */
  function RegisterManifest(env: Env, s: State, m: Manifest): Result<State> {
    if m.id in s.manifests then
      if env.manifestId(s.manifests[m.id]) == m.id == env.manifestId(m) && s.manifests[m.id] == m then Ok(s)
      else Err(ManifestIdentityConflict)
    else
      InsertManifest(env, s, m)
  }

  /** The upgrade variant only compares the content digest, which leaves out the creation time. */
  function RegisterReplacement(env: Env, s: State, m: Manifest): Result<State> {
    if m.id in s.manifests then
      if env.manifestId(s.manifests[m.id]) == env.manifestId(m) then Ok(s) else Err(ManifestReuseConflict)
    else
      InsertManifest(env, s, m)
  }

  // ------------------------------------------------- Paths 1 and 2: boot, harness

  function Without(ops: map<string, Spec>, name: string): map<string, Spec> {
    map key <- ops | key != name :: ops[key]
  }

  function EnableOps(env: Env, ops: map<string, Spec>, m: Manifest): map<string, Spec> {
    ops[m.operation := Spec(m.operation, env.riskOf(m.operation), m.description, m.inputSchema, m.idempotent, External,
                            m.id)]
  }

  function EnableHarness(env: Env, s: State, manifestId: string, expected: string,
                         decisionId: string): (State, Result<string>) {
    if manifestId !in s.manifests then (s, Err(ManifestNotFound))
    else if s.active != expected then (s, Err(SnapshotConflict))
    else if s.active !in s.snapshots then (s, Err(RegistrySnapshotUnavailable))
    else
      var m, current := s.manifests[manifestId], s.snapshots[s.active];
      if m.operation in current.ops then (s, Ok(s.active))
      else
        var (s1, id) := CreateSnapshot(env, s, current.(ops := EnableOps(env, current.ops, m.(id := manifestId))));
        ActivateSnapshot(s1, expected, id, decisionId)
  }

  function DisableHarness(env: Env, s: State, manifestId: string, expected: string,
                          decisionId: string): (State, Result<string>) {
    if manifestId !in s.manifests then (s, Err(ManifestNotFound))
    else if s.active != expected then (s, Err(SnapshotConflict))
    else if s.active !in s.snapshots then (s, Err(RegistrySnapshotUnavailable))
    else
      var m, current := s.manifests[manifestId], s.snapshots[s.active];
      if m.operation !in current.ops then (s, Ok(s.active))
      else
        var (s1, id) := CreateSnapshot(env, s, current.(ops := Without(current.ops, m.operation)));
        ActivateSnapshot(s1, expected, id, decisionId)
  }

  const LEGACY_TIME := "time.now"
  const LEGACY_TIME_BINDING := "builtin.time_now"
  const RETIRED_ACCEPT := "external.coding_hcr_accept"

  predicate HasLegacyTime(ops: map<string, Spec>) {
    LEGACY_TIME in ops && ops[LEGACY_TIME].bindingKind.Builtin? && ops[LEGACY_TIME].bindingKey == LEGACY_TIME_BINDING
  }

  /** Replace the control operation by the baseline one and drop the retired one. */
  function WithControls(env: Env, ops: map<string, Spec>): map<string, Spec> {
    Without(Without(ops, env.control.name), RETIRED_ACCEPT)[env.control.name := env.control]
  }

  predicate HasControls(env: Env, ops: map<string, Spec>) {
    RETIRED_ACCEPT !in ops && env.control.name in ops && ops[env.control.name] == env.control
  }

  function BootActivate(env: Env, s: State, content: Snapshot, decisionId: string): State {
    var (s1, id) := CreateSnapshot(env, s, content);
    ActivateSnapshot(s1, s.active, id, decisionId).0
  }

  /** Retire the legacy clock together with the control seed, or else give a snapshot without
      hooks the bootstrap set. */
  function BootFirst(env: Env, s: State): State
    requires s.active in s.snapshots
  {
    var current := s.snapshots[s.active];
    if HasLegacyTime(current.ops) then
      BootActivate(env, s, Snapshot(WithControls(env, Without(current.ops, LEGACY_TIME)),
                                    InheritedHooks(current.hooks)),
                   "retire_builtin_time:" + s.active)
    else if current.hooks == map[] && env.snapshotId(current.(hooks := BuiltinHooks)) != s.active then
      BootActivate(env, s, current.(hooks := BuiltinHooks), "hook_bindings_backfill:" + s.active)
    else s
  }

  function BootSecond(env: Env, s: State): State
    requires s.active in s.snapshots
  {
    var current := s.snapshots[s.active];
    if HasControls(env, current.ops) then s
    else BootActivate(env, s, current.(ops := WithControls(env, current.ops)), "seed_coding_controls:" + s.active)
  }

  /** Restart on an initialized registry. */
  function Boot(env: Env, s: State): State
    requires s.active in s.snapshots
  {
    var s1 := BootFirst(env, s);
    if s1.active in s1.snapshots then BootSecond(env, s1) else s1
  }

  /** First boot on a fresh database. */
  function Init(env: Env, baseline: map<string, Spec>): State {
    var content := Snapshot(baseline, BuiltinHooks);
    var id := env.snapshotId(content);
    State([], map[id := content], id, 1, map[], Tables(map[], map[]))
  }

  // ---------------------------------------------- Paths 3 and 4: direct proposals

  function DecidableProposal(s: State, proposalId: string, agent: string, now: int): Result<Proposal> {
    if proposalId !in s.tables.proposals then Err(ProposalIsNotFound)
    else
      var p := s.tables.proposals[proposalId];
      if !p.status.PendingApproval? then Err(ProposalIsNotPending)
      else if now >= p.expiresAt then Err(ProposalIsExpired)
      else if p.agent != agent then Err(TargetAgentMismatch)
      else Ok(p)
  }

  /** Settle the proposal row and append both activation events. */
  function FinishProposal(s: State, proposalId: string, p: Proposal, previous: string, decisionId: string): State
  {
    s.(tables := s.tables.(proposals := s.tables.proposals[proposalId := p.(status := ProposalActivated)]),
       log := s.log + [ActivationEvent(previous, s.active, decisionId, Some(p.run), Some(p.session)),
                       ProposalEvent(CapabilityChangeActivated, p, proposalId)])
  }

  function ActivateProposal(env: Env, s: State, proposalId: string, ops: seq<Spec>, expected: string,
                            decisionId: string, manifest: Option<Manifest>, agent: string, now: int)
    : (State, Result<string>)
  {
    match (if manifest.Some? then RegisterManifest(env, s, manifest.value) else Ok(s))
    case Err(e) => (s, Err(e))
    case Ok(s1) =>
      match DecidableProposal(s1, proposalId, agent, now)
      case Err(e) => (s, Err(e))
      case Ok(p) =>
        match ActivateRegistry(env, s1, ops, expected)
        case Err(e) => (s, Err(e))
        case Ok(s2) => (FinishProposal(s2, proposalId, p, expected, decisionId), Ok(s2.active))
  }

  function UpgradedSpec(prior: Spec, m: Manifest): Spec {
    Spec(m.operation, prior.risk, m.description, m.inputSchema, m.idempotent, External, m.id)
  }

  /** An operation can be upgraded when it is active, external and unchanged since the snapshot
      the proposal was made against, and the manifest it is bound to names it. */
  predicate Upgradable(s: State, p: Proposal, name: string) {
    && s.active in s.snapshots && p.expectedSnapshot in s.snapshots
    && name in s.snapshots[s.active].ops && name in s.snapshots[p.expectedSnapshot].ops
    && var spec := s.snapshots[s.active].ops[name];
    && spec == s.snapshots[p.expectedSnapshot].ops[name] && spec.bindingKind.External?
    && spec.bindingKey in s.manifests && s.manifests[spec.bindingKey].operation == name
  }

  /** The checks of a schema upgrade in the order of the source. */
  function UpgradeTarget(s: State, p: Proposal, m: Manifest): (r: Result<Spec>)
    ensures r.Ok? <==> Upgradable(s, p, m.operation)
    ensures r.Ok? ==> r.value == s.snapshots[s.active].ops[m.operation]
  {
    if p.expectedSnapshot !in s.snapshots || s.active !in s.snapshots then Err(SnapshotNotFound)
    else
      var base, current := s.snapshots[p.expectedSnapshot].ops, s.snapshots[s.active].ops;
      if m.operation !in base then Err(ExpectedOpNotFound)
      else if m.operation !in current then Err(CurrentOpNotFound)
      else if base[m.operation] != current[m.operation] then Err(TargetOperationChanged)
      else if !base[m.operation].bindingKind.External? then Err(UpgradeNotExternal)
      else if base[m.operation].bindingKey !in s.manifests then Err(OldManifestNotFound)
      else if s.manifests[base[m.operation].bindingKey].operation != m.operation then
        Err(UpgradeRenames)
      else Ok(current[m.operation])
  }

  function UpgradeContent(current: Snapshot, prior: Spec, m: Manifest): Snapshot {
    Snapshot(current.ops[m.operation := UpgradedSpec(prior, m)], InheritedHooks(current.hooks))
  }

  function SchemaUpgrade(env: Env, s: State, proposalId: string, decisionId: string, m: Manifest, agent: string,
                         now: int)
    : (State, Result<string>)
  {
    match DecidableProposal(s, proposalId, agent, now)
    case Err(e) => (s, Err(e))
    case Ok(p) =>
      match UpgradeTarget(s, p, m)
      case Err(e) => (s, Err(e))
      case Ok(prior) =>
        match RegisterReplacement(env, s, m)
        case Err(e) => (s, Err(e))
        case Ok(s1) =>
          match ActivateContent(env, s1, UpgradeContent(s.snapshots[s.active], prior, m))
          case Err(e) => (s, Err(e))
          case Ok(s2) => (FinishProposal(s2, proposalId, p, s.active, decisionId), Ok(s2.active))
  }

  // ------------------------------------------------------ Path 5: trusted decisions

  predicate ManifestMatches(env: Env, m: Manifest, i: Identity) {
    && env.manifestValid(m)
    && env.manifestId(m) == m.id
    && m.harness == "capability-host-v0"
    && m.endpoint == "http://127.0.0.1:7300/execute"
    && m.artifact == i.artifact
    && |m.operation| >= 9 && m.operation[..9] == "external."
    && env.manifestDigest(m) == i.manifest
  }

  /** The content the trusted path will install: the source snapshot plus the new operation,
      under its inherited hooks. It depends on the source snapshot alone. */
  function TrustedContent(s: State, i: Identity, m: Manifest): Result<Snapshot> {
    if i.snapshot !in s.snapshots then Err(SnapshotNotFound)
    else
      var source := s.snapshots[i.snapshot];
      if m.operation in source.ops then Err(CapabilityAlreadyRegistered)
      else
        Ok(Snapshot(
             source.ops[m.operation := Spec(m.operation, ReadOnly, m.description, m.inputSchema, m.idempotent, External,
                                            m.id)],
             InheritedHooks(source.hooks)))
  }

  /** The snapshot id announced to the capability host before activation. */
  function ProspectiveSnapshot(env: Env, s: State, i: Identity, m: Manifest, agent: string, authentic: bool,
                               now: int): Result<string> {
    if !ManifestMatches(env, m, i) then Err(CapabilityManifestMismatch)
    else
      match LoadValidatedBinding(s.tables, i, agent, authentic)
      case Err(e) => Err(e)
      case Ok(b) =>
        if !b.approval.status.Pending? then
          match ReplayResult(b.approval, i, Approved)
          case Err(e) => Err(e)
          case Ok(r) => if r.snapshot.Some? then Ok(r.snapshot.value) else Err(ApprovalReplayResultCorrupt)
        else if ValidateDecidable(b, now).Err? then Err(ValidateDecidable(b, now).error)
        else if s.active != i.snapshot then Err(SourceRegistrySnapshotChanged)
        else
          match TrustedContent(s, i, m)
          case Err(e) => Err(e)
          case Ok(content) => Ok(env.snapshotId(content))
  }

  function TrustedEvents(p: Proposal, i: Identity, next: string, granted: bool): seq<Event> {
    [ProposalEvent(CapabilityChangeApproved, p, i.proposalId),
     ActivationEvent(i.snapshot, next, i.decisionId, Some(p.run), Some(p.session)),
     ProposalEvent(CapabilityChangeActivated, p, i.proposalId)]
    + (if granted then [ProposalEvent(ExternalOperationGranted, p, i.proposalId)] else [])
  }

  /** `grant` is the outcome of inserting the operation grant: refused, or whether it is new. */
  function ActivateTrusted(env: Env, s: State, i: Identity, m: Manifest, deployment: string, target: string,
                           agent: string, authentic: bool, grant: Result<bool>,
                           now: int): (State, Result<DecisionResult>)
  {
    if !ManifestMatches(env, m, i) then (s, Err(CapabilityManifestMismatch))
    else if Blank(deployment) then (s, Err(HostDeploymentIdMissing))
    else
      match LoadValidatedBinding(s.tables, i, agent, authentic)
      case Err(e) => (s, Err(e))
      case Ok(b) =>
        if !b.approval.status.Pending? then (s, ReplayActivation(b.approval, i, deployment, target))
        else if ValidateDecidable(b, now).Err? then (s, Err(ValidateDecidable(b, now).error))
        else ActivatePending(env, s, i, m, deployment, target, b.proposal, grant)
  }

  function ReplayActivation(a: Approval, i: Identity, deployment: string, target: string): Result<DecisionResult> {
    match ReplayResult(a, i, Approved)
    case Err(e) => Err(e)
    case Ok(r) =>
      if r.deployment != Some(deployment) || r.snapshot != Some(target) then Err(ApprovalDecisionConflict) else Ok(r)
  }

  function ActivatePending(env: Env, s: State, i: Identity, m: Manifest, deployment: string, target: string,
                           p: Proposal, grant: Result<bool>): (State, Result<DecisionResult>)
  {
    match TrustedContent(s, i, m)
    case Err(e) => (s, Err(e))
    case Ok(content) =>
      if target != env.snapshotId(content) then (s, Err(HostDeploymentSnapshotMismatch))
      else
        match RegisterManifest(env, s, m)
        case Err(e) => (s, Err(e))
        case Ok(s1) =>
          if s.active != i.snapshot then (s, Err(StaleExpectedSnapshot))
          else
            match ActivateContent(env, s1, content)
            case Err(e) => (s, Err(e))
            case Ok(s2) =>
              if grant.Err? then (s, Err(grant.error))
              else
                var result := DecisionResult(i.decisionId, Approved, Some(s2.active), Some(deployment), None, false);
                match PersistTerminal(s.tables, i, Approved, ProposalActivated, result)
                case Err(e) => (s, Err(e))
                case Ok(tables) =>
                  (s2.(tables := tables, log := s2.log + TrustedEvents(p, i, s2.active, grant.value)), Ok(result))
  }
}
