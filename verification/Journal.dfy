/** The append-only event log that every kernel protocol shares.

    An event keeps its kind, the three identity columns and the payload fields that some
    reader looks at. The sequence number of an event is its position plus one. The hash
    columns are modelled in `HashChain`. */
module Journal {

  datatype Option<+T> = None | Some(value: T)

  /** A transaction either commits with a value or bails with an error code and leaves the
      state as it was. */
  datatype Result<+T> = Ok(value: T) | Err(error: Error)

  /** The error codes, plus the constraint violations a table can raise. */
  datatype Error =
    | TrustedApprovalNotFound | InvalidDigest | TrustedApprovalBindingMismatch | TrustedApprovalOperationMismatch
    | TrustedAcceptanceReceiptMismatch | ApprovalNotPending | ApprovalExpired | ApprovalDecisionConflict
    | ApprovalReplayResultCorrupt | UniqueViolation | ProposalNotPending | ActivationErrorCodeInvalid
    | TrustedApprovalAgentMismatch | ApprovalReplayTerminalInvalid | OutboxDispatchNotStartable
    | OutboxTerminalTransitionNotAllowed | ComponentSnapshotNotFound | ComponentSnapshotDigestMismatch
    | DeploymentIntentInvalid | DeploymentIntentBindingMismatch | ServiceComponentBindingMismatch
    | ServiceVersionNotMonotonic | DeploymentIntentConflict | ServiceComponentEffectInFlight | ServiceManifestInvalid
    | DeploymentReceiptBindingInvalid | ServiceActivationBindingMismatch | DeploymentIntentNotRecorded
    | ComponentControlIntentInvalid | ComponentControlOwnerMismatch | ComponentControlDecisionConflict
    | ComponentControlDecisionTerminal | ComponentControlEffectInFlight | ComponentRollbackStateInvalid
    | ComponentDisableStateInvalid | ComponentControlReceiptInvalid | ComponentControlIntentNotRecorded
    | ComponentControlIntentConflict | ComponentControlReceiptConflict | ComponentControlSnapshotConflict
    | SourceRegistrySnapshotChanged | ServicePreviousArtifactMismatch | ComponentNotRegistered
    | ComponentControlDeploymentConflict | ComponentRollbackLineageMissing | ComponentRollbackLineageInvalid
    | ComponentDisableReceiptBindingMismatch | ComponentRollbackTargetUntrusted | ComponentControlResultCorrupt
    | SnapshotConflict | ForeignKeyViolation | RegistryDuplicateOperation | StaleExpectedSnapshot
    | RegistryStateNotFound | ManifestIdentityConflict | ManifestReuseConflict | ManifestNotFound
    | RegistrySnapshotUnavailable | ProposalIsNotFound | ProposalIsNotPending | ProposalIsExpired
    | TargetAgentMismatch | SnapshotNotFound | ExpectedOpNotFound | CurrentOpNotFound | TargetOperationChanged
    | UpgradeNotExternal | OldManifestNotFound | UpgradeRenames | CapabilityAlreadyRegistered
    | CapabilityManifestMismatch | HostDeploymentIdMissing | HostDeploymentSnapshotMismatch | InvalidLimit
    | JournalCorrupt | MissingSourceMessageId | MissingCodingSubmissionIdentity | CheckViolation
    | CodingSubmissionReplayIdentityConflict | CodingSubmissionResultMissing | CodingOutcomeUnknown
    | CodingTaskAlreadyInProgress | CodingSubmissionAlreadySucceeded | CodingSubmissionFinishConflict
    | CodingSubmissionNotFound

  datatype Kind =
    | IngressAccepted
    | RunStarted
    | RunCompleted
    | RunFailed
    | AssistantReplyDelivered
    | OutboxQueued
    | DispatchStarted
    | ReceiptReceived
    | OutboxDispatchUnknown
    | OutboxDispatchFailed
    | OutboxDispatchDead
    | InvocationProposed
    | InvocationApproved
    | CodingSubmissionOutcomeUnknown
    | HarnessManifestRegistered
    | RegistrySnapshotActivated
    | CapabilityChangeApproved
    | CapabilityChangeActivated
    | CapabilityChangeActivationFailed
    | CapabilityChangeRejected
    | CapabilityChangeExpired
    | ExternalOperationGranted
    | DeploymentIntentRecorded
    | DeploymentReceiptRecorded
    | ComponentRegistered
    | ComponentControlIntentRecorded
    | ComponentControlReceiptRecorded
    | ComponentDisabled
    | ComponentRolledBack
    | OtherKind(text: string)

  /** The `status` string of a payload, as far as readers distinguish it. */
  datatype StatusText = TextSucceeded | TextFailed | TextOther

  /** The string members of a JSON payload that some reader looks at; `None` is an absent
      or non-string member. */
  datatype Payload = Payload(
    nameonly eventId: Option<string> := None,
    nameonly text: Option<string> := None,
    nameonly runId: Option<string> := None,
    nameonly sessionId: Option<string> := None,
    nameonly invocationId: Option<string> := None,
    nameonly status: Option<StatusText> := None,
    nameonly subject: Option<string> := None,
    nameonly deployment: Option<string> := None,
    nameonly previousSnapshot: Option<string> := None,
    nameonly newSnapshot: Option<string> := None)

  datatype Event = Event(
    kind: Kind,
    run: Option<string>,
    session: Option<string>,
    correlation: Option<string>,
    payload: Payload)
}
