/** The outbox dispatch protocol as a transactional state: every function below is one
    committed transaction of the kernel, and a refused transaction returns an error and the
    state it was given. */
module Outbox {
  import opened Journal
  import Retry

  /** `Leased` is declared by the kernel and written by no transaction. */
  datatype DispatchStatus =
    Pending | Leased | Dispatching | Succeeded | Failed | RetryableFailed | Unknown | Dead

  /** `lock` is the pair (locked_by, locked_until), which the kernel sets and clears together. */
  datatype Row = Row(
    run: string,
    session: Option<string>,
    operation: string,
    text: Option<string>,
    status: DispatchStatus,
    attempts: int,
    availableAt: int,
    lock: Option<int>,
    lastError: Option<string>,
    createdAt: int)

  datatype RunStatus = CompletedRun | FailedRun | UnknownRun | OtherRun

  datatype State = State(log: seq<Event>, rows: map<string, Row>, runs: map<string, RunStatus>)

  datatype ReceiptStatus = ReceiptSucceeded | ReceiptFailed | ReceiptUnknown

  const LEASE_MS := 300_000

  // ------------------------------------------------------------------ Events

  function ReceiptText(status: ReceiptStatus): StatusText {
    match status
    case ReceiptSucceeded => TextSucceeded
    case ReceiptFailed => TextFailed
    case ReceiptUnknown => TextOther
  }

  function ReceiptEvent(inv: string, run: Option<string>, session: Option<string>, status: StatusText): Event {
    Event(ReceiptReceived, run, session, Some(inv), Payload(status := Some(status)))
  }

  function UnknownEvent(inv: string, run: Option<string>, session: Option<string>): Event {
    Event(OutboxDispatchUnknown, run, session, Some(inv), Payload(invocationId := Some(inv), status := Some(TextOther)))
  }

  function StartedEvent(inv: string, run: string, session: Option<string>): Event {
    Event(DispatchStarted, Some(run), session, Some(inv), Payload())
  }

  function PlainEvent(kind: Kind, inv: string, run: string, session: Option<string>): Event {
    Event(kind, Some(run), session, Some(inv), Payload(invocationId := Some(inv)))
  }

  predicate IsReplyOperation(operation: string) {
    operation == "stdout.send_text" || operation == "feishu.send_message"
  }

  /** The reply event of a delivered reply operation; other operations, a missing session or
      a missing text produce none. */
  function ReplyEvents(row: Row, inv: string, run: string, session: Option<string>): seq<Event> {
    if IsReplyOperation(row.operation) && session.Some? && row.text.Some? then
      [Event(AssistantReplyDelivered, Some(run), session, Some(inv),
             Payload(sessionId := session, runId := Some(run), invocationId := Some(inv), text := row.text))]
    else
      []
  }

  // ------------------------------------------------------------ Transactions

  function Queue(s: State, inv: string, run: string, session: Option<string>, operation: string,
                 text: Option<string>, now: int): State
  {
    if inv in s.rows then s
    else State(
        s.log + [PlainEvent(OutboxQueued, inv, run, session)],
        s.rows[inv := Row(run, session, operation, text, Pending, 0, now, None, None, now)],
        s.runs)
  }

  predicate Ready(row: Row, now: int) {
    (row.status.Pending? || row.status.RetryableFailed?) && row.availableAt <= now
  }

  /** `ORDER BY available_at, created_at LIMIT 1` over the ready rows; ties are left open. */
  ghost predicate IsNext(rows: map<string, Row>, now: int, inv: string) {
    && inv in rows
    && Ready(rows[inv], now)
    && forall other <- rows | Ready(rows[other], now) ::
         || rows[inv].availableAt < rows[other].availableAt
         || (rows[inv].availableAt == rows[other].availableAt && rows[inv].createdAt <= rows[other].createdAt)
  }

  function Lease(s: State, inv: string, now: int): State
    requires inv in s.rows
  {
    var row := s.rows[inv];
    State(
      s.log + [StartedEvent(inv, row.run, row.session)],
      s.rows[inv := row.(status := Dispatching, attempts := row.attempts + 1, lock := Some(now + LEASE_MS))],
      s.runs)
  }

  function Start(s: State, inv: string, run: string, session: Option<string>): (State, Result<()>) {
    if inv in s.rows && s.rows[inv].status.Pending? then
      var row := s.rows[inv];
      (State(
         s.log + [StartedEvent(inv, run, session)],
         s.rows[inv := row.(status := Dispatching, attempts := row.attempts + 1)],
         s.runs),
       Ok(()))
    else
      (s, Err(OutboxDispatchNotStartable))
  }

  predicate InFlight(s: State, inv: string) {
    inv in s.rows && s.rows[inv].status.Dispatching?
  }

  function SetRun(runs: map<string, RunStatus>, run: string, status: RunStatus): map<string, RunStatus> {
    if run in runs then runs[run := status] else runs
  }

  predicate RunHasFailed(s: State, run: string) {
    run in s.runs && s.runs[run].FailedRun?
  }

  function SucceedEvents(s: State, inv: string, status: ReceiptStatus, run: string, session: Option<string>): seq<Event>
    requires inv in s.rows
  {
    [ReceiptEvent(inv, Some(run), session, ReceiptText(status))]
    + (if status.ReceiptSucceeded? then ReplyEvents(s.rows[inv], inv, run, session) else [])
    + (if RunHasFailed(s, run) then [] else [PlainEvent(RunCompleted, inv, run, session)])
  }

  function Succeed(s: State, inv: string, status: ReceiptStatus, run: string,
                   session: Option<string>): (State, Result<()>) {
    if InFlight(s, inv) then
      (State(
         s.log + SucceedEvents(s, inv, status, run, session),
         s.rows[inv := s.rows[inv].(status := Succeeded)],
         if RunHasFailed(s, run) then s.runs else SetRun(s.runs, run, CompletedRun)),
       Ok(()))
    else
      (s, Err(OutboxTerminalTransitionNotAllowed))
  }

  function Fail(s: State, inv: string, run: string, session: Option<string>, error: string): (State, Result<()>) {
    if InFlight(s, inv) then
      (State(
         s.log + [ReceiptEvent(inv, Some(run), session, TextFailed), PlainEvent(RunFailed, inv, run, session)],
         s.rows[inv := s.rows[inv].(status := Failed, lock := None, lastError := Some(error))],
         SetRun(s.runs, run, FailedRun)),
       Ok(()))
    else
      (s, Err(OutboxTerminalTransitionNotAllowed))
  }

  function MarkUnknown(s: State, inv: string, run: string, session: Option<string>,
                       error: string): (State, Result<()>) {
    if InFlight(s, inv) then
      (State(
         s.log + [UnknownEvent(inv, Some(run), session)],
         s.rows[inv := s.rows[inv].(status := Unknown, lock := None, lastError := Some(error))],
         s.runs),
       Ok(()))
    else
      (s, Err(OutboxTerminalTransitionNotAllowed))
  }

  /** Neither marking transaction looks at the status of the row it overwrites. */
  function MarkDead(s: State, inv: string, run: string, session: Option<string>, error: string): State {
    State(
      s.log + [PlainEvent(OutboxDispatchDead, inv, run, session)],
      if inv in s.rows then s.rows[inv := s.rows[inv].(status := Dead, lock := None, lastError := Some(error))]
      else s.rows,
      s.runs)
  }

  function Attempts(s: State, inv: string): int {
    if inv in s.rows then s.rows[inv].attempts else 0
  }

  /** The delay is fed the attempt count as a 64-bit integer. */
  function Backoff(attempts: int, policy: Retry.RetryPolicy): int {
    if -Retry.TWO63 <= attempts + 1 < Retry.TWO63 then
      Retry.NextRetryDelayMs(attempts + 1, policy.baseRetryDelayMs, policy.maxRetryDelayMs)
    else 0
  }

  function MarkRetryable(s: State, inv: string, run: string, session: Option<string>, error: string,
                         policy: Retry.RetryPolicy, now: int): State
  {
    if Attempts(s, inv) >= policy.maxOutboxAttempts then
      MarkDead(s, inv, run, session, error)
    else
      State(
        s.log + [PlainEvent(OutboxDispatchFailed, inv, run, session)],
        if inv in s.rows then
          s.rows[inv := s.rows[inv].(status := RetryableFailed, lock := None, lastError := Some(error),
                                     availableAt := now + Backoff(Attempts(s, inv), policy))]
        else s.rows,
        s.runs)
  }

  // ---------------------------------------------------------- Terminal facts

  predicate IsTerminal(e: Event, inv: string) {
    e.correlation == Some(inv) && (e.kind.ReceiptReceived? || e.kind.OutboxDispatchUnknown?)
  }

  /** The terminal facts of one invocation, oldest first. */
  function TerminalFacts(log: seq<Event>, inv: string): seq<Event> {
    if log == [] then []
    else
      var last := log[|log| - 1];
      TerminalFacts(log[..|log| - 1], inv) + (if IsTerminal(last, inv) then [last] else [])
  }

  predicate IsStart(e: Event, inv: string) {
    e.kind.DispatchStarted? && e.correlation == Some(inv)
  }

  /** How many times the log says one invocation was handed out. */
  function Starts(log: seq<Event>, inv: string): nat {
    if log == [] then 0
    else Starts(log[..|log| - 1], inv) + (if IsStart(log[|log| - 1], inv) then 1 else 0)
  }

  // ------------------------------------------------------ Drift (health view)

  /** Some fact of the invocation in the log has this kind and, if asked for, this status. */
  predicate HasReceipt(facts: seq<Event>, status: StatusText) {
    exists e <- facts :: e.kind.ReceiptReceived? && e.payload.status == Some(status)
  }

  predicate HasUnknown(facts: seq<Event>) {
    exists e <- facts :: e.kind.OutboxDispatchUnknown?
  }

  /** A row drifts when the log has a terminal fact but the row is not in a terminal state
      that some fact of the log supports. */
  predicate Drifts(status: DispatchStatus, facts: seq<Event>) {
    && facts != []
    && !(|| (status.Succeeded? && HasReceipt(facts, TextSucceeded))
         || (status.Failed? && HasReceipt(facts, TextFailed))
         || (status.Unknown? && HasUnknown(facts)))
  }

  function DriftSet(s: State): set<string> {
    set inv <- s.rows | Drifts(s.rows[inv].status, TerminalFacts(s.log, inv))
  }

  // ---------------------------------------------------------------- Recovery

  /** What `unknown_invocations` groups by. */
  datatype Key = Key(inv: string, run: Option<string>, session: Option<string>)

  function KeyOf(e: Event): Key
    requires e.correlation.Some?
  {
    Key(e.correlation.value, e.run, e.session)
  }

  predicate Unresolved(log: seq<Event>, e: Event) {
    e.kind.DispatchStarted? && e.correlation.Some? && TerminalFacts(log, e.correlation.value) == []
  }

  /** The distinct keys of unresolved dispatches among the first `n` events, by first occurrence. */
  function CandidatesUpTo(log: seq<Event>, n: nat): seq<Key>
    requires n <= |log|
  {
    if n == 0 then []
    else
      AddCandidate(CandidatesUpTo(log, n - 1), log, log[n - 1])
  }

  function AddCandidate(keys: seq<Key>, log: seq<Event>, e: Event): seq<Key> {
    if Unresolved(log, e) && KeyOf(e) !in keys then keys + [KeyOf(e)] else keys
  }

  function Candidates(log: seq<Event>): seq<Key> {
    CandidatesUpTo(log, |log|)
  }

  function RecoverOne(s: State, key: Key): State {
    State(
      s.log + [UnknownEvent(key.inv, key.run, key.session)],
      if key.inv in s.rows then s.rows[key.inv := s.rows[key.inv].(status := Unknown, lock := None)] else s.rows,
      if key.run.Some? then SetRun(s.runs, key.run.value, UnknownRun) else s.runs)
  }

  function RecoverAll(s: State, keys: seq<Key>): State {
    if keys == [] then s else RecoverOne(RecoverAll(s, keys[..|keys| - 1]), keys[|keys| - 1])
  }

  /** The projection target of a terminal fact: kind of the latest fact, and the payload of
      the latest receipt. */
  function ClassifyTerminalFact(kind: Option<Kind>, receipt: Option<Payload>): DispatchStatus {
    match kind
    case Some(OutboxDispatchUnknown) => Unknown
    case Some(ReceiptReceived) =>
      if receipt.Some? && receipt.value.status == Some(TextSucceeded) then Succeeded
      else if receipt.Some? && receipt.value.status == Some(TextFailed) then Failed
      else Unknown
    case _ => Unknown
  }

  function LatestKind(facts: seq<Event>): Option<Kind> {
    if facts == [] then None else Some(facts[|facts| - 1].kind)
  }

  function LatestReceipt(facts: seq<Event>): Option<Payload> {
    if facts == [] then None
    else if facts[|facts| - 1].kind.ReceiptReceived? then Some(facts[|facts| - 1].payload)
    else LatestReceipt(facts[..|facts| - 1])
  }

  function RepairTarget(facts: seq<Event>): DispatchStatus {
    ClassifyTerminalFact(LatestKind(facts), LatestReceipt(facts))
  }

  predicate IsStale(row: Row, facts: seq<Event>, now: int) {
    row.status.Dispatching? && (row.lock.None? || row.lock.value <= now) && facts != []
  }

  function StaleSet(s: State, now: int): set<string> {
    set inv <- s.rows | IsStale(s.rows[inv], TerminalFacts(s.log, inv), now)
  }

  function RepairRow(row: Row, facts: seq<Event>): Row {
    row.(status := RepairTarget(facts), lock := None)
  }

  /** Repair the stale rows in `chosen`. */
  function Repair(s: State, chosen: set<string>): State {
    s.(rows := map inv <- s.rows ::
         if inv in chosen then RepairRow(s.rows[inv], TerminalFacts(s.log, inv)) else s.rows[inv])
  }

  function Recover(s: State, now: int): State {
    var resolved := RecoverAll(s, Candidates(s.log));
    Repair(resolved, StaleSet(resolved, now))
  }

  function RecoverCount(s: State, now: int): nat {
    |Candidates(s.log)| + |StaleSet(RecoverAll(s, Candidates(s.log)), now)|
  }
}
