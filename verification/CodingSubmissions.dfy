/** Ordered ownership of coding submissions: one open attempt per source message, a new one only
    after a definitive rejection, and one terminal event per finished attempt. */
module CodingSubmissions {
  import opened Journal
  import opened Approvals

  datatype AttemptStatus = Running | SubmissionSucceeded | DefinitivelyRejected | OutcomeUnknown

  datatype Attempt = Attempt(
    message: string,
    sequence: int,
    callKey: string,
    digest: string,
    invocation: string,
    run: string,
    session: string,
    status: AttemptStatus,
    result: Option<string>,
    error: Option<string>)

  datatype State = State(log: seq<Event>, attempts: map<string, Attempt>)

  datatype Claim =
    | Claimed(attemptId: string, invocation: string)
    | InProgress(attemptId: string, invocation: string)
    | AlreadySucceeded(invocation: string, result: string)
    | AlreadyRejected(errorCode: string)

  datatype Request = Request(
    message: string,
    callKey: string,
    digest: string,
    attemptId: string,
    invocation: string,
    run: string,
    session: string,
    decisionId: string)

  // ------------------------------------------------------------------- Queries

  /** The lookup by call key, which is unique. */
  ghost predicate IsHit(s: State, callKey: string, hit: Option<string>) {
    match hit
    case None => forall id <- s.attempts :: s.attempts[id].callKey != callKey
    case Some(id) => id in s.attempts && s.attempts[id].callKey == callKey
  }

  /** `ORDER BY attempt_sequence DESC LIMIT 1` over the attempts of a message. */
  ghost predicate IsLatest(s: State, message: string, latest: Option<string>) {
    match latest
    case None => forall id <- s.attempts :: s.attempts[id].message != message
    case Some(best) =>
      && best in s.attempts && s.attempts[best].message == message
      && forall id <- s.attempts | s.attempts[id].message == message ::
        s.attempts[id].sequence <= s.attempts[best].sequence
  }

  /** The columns that must differ between any two attempts. */
  predicate Distinct(a: Attempt, b: Attempt) {
    a.callKey != b.callKey && a.invocation != b.invocation && !(a.message == b.message && a.sequence == b.sequence)
  }

  /** The primary key and the uniqueness constraints. */
  predicate KeysFree(s: State, r: Request, sequence: int) {
    && r.attemptId !in s.attempts
    && forall id <- s.attempts :: Distinct(s.attempts[id], NewAttempt(r, sequence))
  }

  // -------------------------------------------------------------------- Events

  function AttemptEvent(kind: Kind, attemptId: string, a: Attempt, status: Option<StatusText>): Event {
    Event(kind, Some(a.run), Some(a.session), Some(a.invocation),
          Payload(subject := Some(attemptId), invocationId := Some(a.invocation), status := status))
  }

  function ClaimEvents(attemptId: string, a: Attempt): seq<Event> {
    [AttemptEvent(InvocationProposed, attemptId, a, None), AttemptEvent(InvocationApproved, attemptId, a, None)]
  }

  function TerminalEvent(attemptId: string, a: Attempt): Event
    requires !a.status.Running?
  {
    match a.status
    case SubmissionSucceeded => AttemptEvent(ReceiptReceived, attemptId, a, Some(TextSucceeded))
    case DefinitivelyRejected => AttemptEvent(ReceiptReceived, attemptId, a, Some(TextFailed))
    case OutcomeUnknown => AttemptEvent(CodingSubmissionOutcomeUnknown, attemptId, a, Some(TextOther))
  }

  // -------------------------------------------------------------- Transactions

  /** The answer to a call that is already recorded. */
  function ReplayClaim(attemptId: string, a: Attempt, r: Request): Result<Claim> {
    if a.message != r.message || a.digest != r.digest then Err(CodingSubmissionReplayIdentityConflict)
    else
      match a.status
      case Running => Ok(InProgress(attemptId, a.invocation))
      case SubmissionSucceeded =>
        if a.result.Some? then Ok(AlreadySucceeded(a.invocation, a.result.value))
        else Err(CodingSubmissionResultMissing)
      case DefinitivelyRejected =>
        Ok(AlreadyRejected(if a.error.Some? then a.error.value else "CODING_HARNESS_REJECTED"))
      case OutcomeUnknown => Err(CodingOutcomeUnknown)
  }

  /** The sequence number a new attempt of the message would get. */
  function NextSequence(s: State, latest: Option<string>): Result<int>
    requires latest.Some? ==> latest.value in s.attempts
  {
    if latest.None? then Ok(1)
    else
      match s.attempts[latest.value].status
      case Running => Err(CodingTaskAlreadyInProgress)
      case SubmissionSucceeded => Err(CodingSubmissionAlreadySucceeded)
      case OutcomeUnknown => Err(CodingOutcomeUnknown)
      case DefinitivelyRejected => Ok(s.attempts[latest.value].sequence + 1)
  }

  function ValidateRequest(r: Request): Result<()> {
    if Blank(r.message) then Err(MissingSourceMessageId)
    else if Blank(r.callKey) || Blank(r.attemptId) || Blank(r.decisionId) then Err(MissingCodingSubmissionIdentity)
    else if !IsSha256(r.digest) then Err(InvalidDigest)
    else Ok(())
  }

  function NewAttempt(r: Request, sequence: int): Attempt {
    Attempt(r.message, sequence, r.callKey, r.digest, r.invocation, r.run, r.session, Running, None, None)
  }

  function ClaimSubmission(s: State, r: Request, hit: Option<string>, latest: Option<string>): (State, Result<Claim>)
    requires hit.Some? ==> hit.value in s.attempts
    requires latest.Some? ==> latest.value in s.attempts
  {
    if ValidateRequest(r).Err? then (s, Err(ValidateRequest(r).error))
    else if hit.Some? then (s, ReplayClaim(hit.value, s.attempts[hit.value], r))
    else
      match NextSequence(s, latest)
      case Err(e) => (s, Err(e))
      case Ok(sequence) =>
        if !KeysFree(s, r, sequence) then (s, Err(UniqueViolation))
        else if sequence <= 0 || r.invocation == "" || r.run == "" || r.session == "" then (s, Err(CheckViolation))
        else
          var a := NewAttempt(r, sequence);
          (State(s.log + ClaimEvents(r.attemptId, a), s.attempts[r.attemptId := a]),
           Ok(Claimed(r.attemptId, r.invocation)))
  }

  datatype Outcome = Complete(result: string) | Reject(code: string) | MarkUnknown

  function Finished(a: Attempt, outcome: Outcome): Attempt {
    match outcome
    case Complete(result) => a.(status := SubmissionSucceeded, result := Some(result), error := None)
    case Reject(code) => a.(status := DefinitivelyRejected, result := None, error := Some(code))
    case MarkUnknown => a.(status := OutcomeUnknown, result := None, error := Some("OUTCOME_UNKNOWN"))
  }

  function FinishSubmission(s: State, attemptId: string, invocation: string, outcome: Outcome): (State, Result<()>) {
    if attemptId !in s.attempts || s.attempts[attemptId].invocation != invocation then
      (s, Err(CodingSubmissionNotFound))
    else
      var a := s.attempts[attemptId];
      var done := Finished(a, outcome);
      if a.status == done.status then (s, if a == done then Ok(()) else Err(CodingSubmissionFinishConflict))
      else if !a.status.Running? then (s, Err(CodingSubmissionFinishConflict))
      else (State(s.log + [TerminalEvent(attemptId, done)], s.attempts[attemptId := done]), Ok(()))
  }

  // ----------------------------------------------------------------- Invariant

  ghost predicate UniqueKeys(s: State) {
    forall a, b | a in s.attempts && b in s.attempts && a != b :: Distinct(s.attempts[a], s.attempts[b])
  }

  /** The attempt before this one exists and was definitively rejected. */
  predicate Precedes(s: State, before: string, id: string)
    requires id in s.attempts
  {
    && before in s.attempts && s.attempts[before].message == s.attempts[id].message
    && s.attempts[before].sequence == s.attempts[id].sequence - 1 && s.attempts[before].status.DefinitivelyRejected?
  }

  ghost predicate HasPredecessor(s: State, id: string) {
    id in s.attempts && exists before :: Precedes(s, before, id)
  }

  ghost predicate Chained(s: State) {
    && (forall id <- s.attempts :: s.attempts[id].sequence >= 1)
    && (forall id {:trigger HasPredecessor(s, id)} | id in s.attempts && s.attempts[id].sequence > 1 ::
          HasPredecessor(s, id))
  }

  predicate IsTerminal(e: Event, invocation: string) {
    (e.kind.ReceiptReceived? || e.kind.CodingSubmissionOutcomeUnknown?) && e.correlation == Some(invocation)
  }

  function Terminals(log: seq<Event>, invocation: string): seq<Event> {
    if log == [] then []
    else
      Terminals(log[..|log| - 1], invocation)
      + (if IsTerminal(log[|log| - 1], invocation) then [log[|log| - 1]] else [])
  }

  /** The terminal events of an attempt: none while it runs, then exactly its own. */
  predicate Settled(log: seq<Event>, id: string, a: Attempt) {
    Terminals(log, a.invocation) == if a.status.Running? then [] else [TerminalEvent(id, a)]
  }

  /** `coding` tells the invocation ids minted for coding submissions from all others. */
  ghost predicate Recorded(coding: string -> bool, s: State) {
    && (forall id <- s.attempts :: coding(s.attempts[id].invocation) && Settled(s.log, id, s.attempts[id]))
    && (forall inv | coding(inv) && (forall id <- s.attempts :: s.attempts[id].invocation != inv) ::
          Terminals(s.log, inv) == [])
  }

  ghost predicate Inv(coding: string -> bool, s: State) {
    UniqueKeys(s) && Chained(s) && Recorded(coding, s)
  }

  lemma TerminalsOfOne(log: seq<Event>, e: Event, inv: string)
    ensures Terminals(log + [e], inv) == Terminals(log, inv) + if IsTerminal(e, inv) then [e] else []
  {
  }

  lemma TerminalsOfClaim(log: seq<Event>, id: string, a: Attempt, inv: string)
    ensures Terminals(log + ClaimEvents(id, a), inv) == Terminals(log, inv)
  {
    var events := ClaimEvents(id, a);
    assert log + events == log + [events[0]] + [events[1]];
    TerminalsOfOne(log, events[0], inv);
    TerminalsOfOne(log + [events[0]], events[1], inv);
  }

  // ---------------------------------------------------------------- Each step

  predicate Claims(s: State, s': State, r: Request, sequence: int) {
    && KeysFree(s, r, sequence)
    && s' == State(s.log + ClaimEvents(r.attemptId, NewAttempt(r, sequence)),
                   s.attempts[r.attemptId := NewAttempt(r, sequence)])
  }

  lemma ClaimKeepsUnique(s: State, s': State, r: Request, sequence: int)
    requires UniqueKeys(s) && Claims(s, s', r, sequence)
    ensures UniqueKeys(s')
  {
  }

  lemma FinishKeepsUnique(s: State, s': State, id: string, outcome: Outcome)
    requires UniqueKeys(s) && Finishes(s, s', id, outcome)
    ensures UniqueKeys(s')
  {
  }

  lemma ClaimKeepsChain(s: State, s': State, r: Request, sequence: int, latest: Option<string>)
    requires Chained(s) && Claims(s, s', r, sequence) && (latest.Some? ==> latest.value in s.attempts)
    requires IsLatest(s, r.message, latest) && NextSequence(s, latest) == Ok(sequence)
    ensures Chained(s')
  {
    forall id | id in s'.attempts && s'.attempts[id].sequence > 1 ensures HasPredecessor(s', id) {
      if id == r.attemptId {
        assert Precedes(s', latest.value, id);
      } else {
        assert HasPredecessor(s, id);
        var before :| Precedes(s, before, id);
        assert Precedes(s', before, id);
      }
    }
  }

  lemma ClaimKeepsRecord(coding: string -> bool, s: State, s': State, r: Request, sequence: int)
    requires Recorded(coding, s) && Claims(s, s', r, sequence) && coding(r.invocation)
    ensures Recorded(coding, s')
  {
    var a := NewAttempt(r, sequence);
    forall inv ensures Terminals(s'.log, inv) == Terminals(s.log, inv) { TerminalsOfClaim(s.log, r.attemptId, a, inv); }
    forall id <- s'.attempts ensures coding(s'.attempts[id].invocation) && Settled(s'.log, id, s'.attempts[id]) {
      if id != r.attemptId { assert Settled(s.log, id, s.attempts[id]); }
    }
    forall inv | coding(inv) && (forall id <- s'.attempts :: s'.attempts[id].invocation != inv)
      ensures Terminals(s'.log, inv) == []
    {
      forall id <- s.attempts ensures s.attempts[id].invocation != inv { assert s'.attempts[id].invocation != inv; }
    }
  }

  lemma ClaimEffect(s: State, r: Request, hit: Option<string>, latest: Option<string>)
    requires IsHit(s, r.callKey, hit) && IsLatest(s, r.message, latest)
    ensures var s' := ClaimSubmission(s, r, hit, latest).0;
            s' == s || (NextSequence(s, latest).Ok? && Claims(s, s', r, NextSequence(s, latest).value))
  {
  }

  lemma ClaimKeeps(coding: string -> bool, s: State, r: Request, hit: Option<string>, latest: Option<string>)
    requires Inv(coding, s) && coding(r.invocation) && IsHit(s, r.callKey, hit) && IsLatest(s, r.message, latest)
    ensures Inv(coding, ClaimSubmission(s, r, hit, latest).0)
  {
    var s' := ClaimSubmission(s, r, hit, latest).0;
    ClaimEffect(s, r, hit, latest);
    if s' != s { NewClaimKeeps(coding, s, s', r, NextSequence(s, latest).value, latest); }
  }

  lemma NewClaimKeeps(coding: string -> bool, s: State, s': State, r: Request, sequence: int, latest: Option<string>)
    requires Inv(coding, s) && coding(r.invocation) && IsLatest(s, r.message, latest)
    requires NextSequence(s, latest) == Ok(sequence) && Claims(s, s', r, sequence)
    ensures Inv(coding, s')
  {
    ClaimKeepsUnique(s, s', r, sequence);
    ClaimKeepsChain(s, s', r, sequence, latest);
    ClaimKeepsRecord(coding, s, s', r, sequence);
  }

  predicate Finishes(s: State, s': State, id: string, outcome: Outcome) {
    && id in s.attempts && s.attempts[id].status.Running?
    && var done := Finished(s.attempts[id], outcome);
    && s' == State(s.log + [TerminalEvent(id, done)], s.attempts[id := done])
  }

  lemma FinishKeepsChain(s: State, s': State, id: string, outcome: Outcome)
    requires Chained(s) && Finishes(s, s', id, outcome)
    ensures Chained(s')
  {
    forall k | k in s'.attempts && s'.attempts[k].sequence > 1 ensures HasPredecessor(s', k) {
      assert HasPredecessor(s, k);
      var before :| Precedes(s, before, k);
      assert Precedes(s', before, k);
    }
  }

  lemma FinishedTerminals(s: State, s': State, id: string, outcome: Outcome, inv: string)
    requires Finishes(s, s', id, outcome)
    ensures Terminals(s'.log, inv)
            == Terminals(s.log, inv)
               + if inv == s.attempts[id].invocation then [TerminalEvent(id, s'.attempts[id])] else []
  {
  }

  lemma FinishSettles(s: State, s': State, id: string, outcome: Outcome, k: string)
    requires UniqueKeys(s) && Finishes(s, s', id, outcome) && k in s.attempts && Settled(s.log, k, s.attempts[k])
    ensures Settled(s'.log, k, s'.attempts[k])
  {
  }

  lemma FinishKeepsRecord(coding: string -> bool, s: State, s': State, id: string, outcome: Outcome)
    requires Recorded(coding, s) && UniqueKeys(s) && Finishes(s, s', id, outcome)
    ensures Recorded(coding, s')
  {
    forall k <- s'.attempts ensures coding(s'.attempts[k].invocation) && Settled(s'.log, k, s'.attempts[k]) {
      assert coding(s.attempts[k].invocation);
      FinishSettles(s, s', id, outcome, k);
    }
    forall inv | coding(inv) && (forall k <- s'.attempts :: s'.attempts[k].invocation != inv)
      ensures Terminals(s'.log, inv) == []
    {
      forall k <- s.attempts ensures s.attempts[k].invocation != inv { assert s'.attempts[k].invocation != inv; }
      FinishedTerminals(s, s', id, outcome, inv);
    }
  }

  lemma FinishKeeps(coding: string -> bool, s: State, id: string, invocation: string, outcome: Outcome)
    requires Inv(coding, s)
    ensures Inv(coding, FinishSubmission(s, id, invocation, outcome).0)
  {
    var s' := FinishSubmission(s, id, invocation, outcome).0;
    if s' != s {
      FinishKeepsUnique(s, s', id, outcome);
      FinishKeepsChain(s, s', id, outcome);
      FinishKeepsRecord(coding, s, s', id, outcome);
    }
  }

  lemma AppendKeeps(coding: string -> bool, s: State, e: Event)
    requires Inv(coding, s) && forall inv | coding(inv) :: !IsTerminal(e, inv)
    ensures Inv(coding, s.(log := s.log + [e]))
  {
    var s' := s.(log := s.log + [e]);
    forall inv | coding(inv) ensures Terminals(s'.log, inv) == Terminals(s.log, inv) { TerminalsOfOne(s.log, e, inv); }
    forall id <- s'.attempts ensures Settled(s'.log, id, s'.attempts[id]) { assert Settled(s.log, id, s.attempts[id]); }
    forall id | id in s'.attempts && s'.attempts[id].sequence > 1 ensures HasPredecessor(s', id) {
      assert HasPredecessor(s, id);
      var before :| Precedes(s, before, id);
      assert Precedes(s', before, id);
    }
  }

  // ---------------------------------------------------------------------- Runs

  datatype Step =
    | ClaimStep(r: Request, hit: Option<string>, latest: Option<string>)
    | FinishStep(attemptId: string, invocation: string, outcome: Outcome)
    | OtherAppendStep(e: Event)

  /** Queries answer correctly, submissions use their own invocation ids, and nobody else writes
      terminal events for those. */
  ghost predicate Enabled(coding: string -> bool, s: State, step: Step) {
    match step
    case ClaimStep(r, hit, latest) => coding(r.invocation) && IsHit(s, r.callKey, hit) && IsLatest(s, r.message, latest)
    case FinishStep(_, _, _) => true
    case OtherAppendStep(e) => forall inv | coding(inv) :: !IsTerminal(e, inv)
  }

  ghost predicate Next(coding: string -> bool, s: State, step: Step, s': State) {
    && Enabled(coding, s, step)
    && match step
       case ClaimStep(r, hit, latest) => s' == ClaimSubmission(s, r, hit, latest).0
       case FinishStep(attemptId, invocation, outcome) => s' == FinishSubmission(s, attemptId, invocation, outcome).0
       case OtherAppendStep(e) => s' == s.(log := s.log + [e])
  }

  ghost predicate IsRun(coding: string -> bool, steps: seq<Step>, states: seq<State>) {
    && |states| == |steps| + 1
    && states[0].attempts == map[] && (forall inv | coding(inv) :: Terminals(states[0].log, inv) == [])
    && forall k | 0 <= k < |steps| :: Next(coding, states[k], steps[k], states[k + 1])
  }

  lemma NextKeeps(coding: string -> bool, s: State, step: Step, s': State)
    requires Inv(coding, s) && Next(coding, s, step, s')
    ensures Inv(coding, s')
  {
    match step
    case ClaimStep(r, hit, latest) => ClaimKeeps(coding, s, r, hit, latest);
    case FinishStep(attemptId, invocation, outcome) => FinishKeeps(coding, s, attemptId, invocation, outcome);
    case OtherAppendStep(e) => AppendKeeps(coding, s, e);
  }

  lemma {:induction false} RunInvariant(coding: string -> bool, steps: seq<Step>, states: seq<State>, n: nat)
    requires IsRun(coding, steps, states) && n <= |steps|
    ensures Inv(coding, states[n])
  {
    if n > 0 {
      RunInvariant(coding, steps, states, n - 1);
      assert Next(coding, states[n - 1], steps[n - 1], states[n - 1 + 1]);
      NextKeeps(coding, states[n - 1], steps[n - 1], states[n]);
    }
  }

  // -------------------------------------------------------------- Main theorems

  lemma {:induction false} EarlierAttempts(s: State, id: string, k: int)
    requires Chained(s) && UniqueKeys(s) && id in s.attempts && 1 <= k < s.attempts[id].sequence
    ensures exists before <- s.attempts ::
              && s.attempts[before].message == s.attempts[id].message && s.attempts[before].sequence == k
              && s.attempts[before].status.DefinitivelyRejected?
    decreases s.attempts[id].sequence
  {
    assert HasPredecessor(s, id);
    var before :| Precedes(s, before, id);
    if k < s.attempts[before].sequence { EarlierAttempts(s, before, k); }
  }

  /** In every state the attempts of a message are numbered from 1 without gaps or repeats, and
      every attempt but the last was definitively rejected. */
  lemma AttemptsAreConsecutive(coding: string -> bool, steps: seq<Step>, states: seq<State>, s: State, id: string,
                               k: int)
    requires IsRun(coding, steps, states) && s in states
    requires id in s.attempts && 1 <= k <= s.attempts[id].sequence
    ensures exists other <- s.attempts ::
              s.attempts[other].message == s.attempts[id].message && s.attempts[other].sequence == k
    ensures forall other <- s.attempts
              | s.attempts[other].message == s.attempts[id].message && s.attempts[other].sequence == k ::
              k < s.attempts[id].sequence ==> s.attempts[other].status.DefinitivelyRejected?
    ensures forall a, b | a in s.attempts && b in s.attempts
                          && s.attempts[a].message == s.attempts[b].message
                          && s.attempts[a].sequence == s.attempts[b].sequence :: a == b
  {
    var n :| 0 <= n < |states| && states[n] == s;
    RunInvariant(coding, steps, states, n);
    if k < s.attempts[id].sequence { EarlierAttempts(s, id, k); }
  }

  /** A message has at most one attempt that is running, succeeded or unknown, and it is the last. */
  lemma AtMostOneOpenAttempt(coding: string -> bool, steps: seq<Step>, states: seq<State>, s: State, open: string,
                             other: string)
    requires IsRun(coding, steps, states) && s in states && open in s.attempts && other in s.attempts && other != open
    requires s.attempts[other].message == s.attempts[open].message && !s.attempts[open].status.DefinitivelyRejected?
    ensures s.attempts[other].sequence < s.attempts[open].sequence && s.attempts[other].status.DefinitivelyRejected?
  {
    var n :| 0 <= n < |states| && states[n] == s;
    RunInvariant(coding, steps, states, n);
    if s.attempts[open].sequence < s.attempts[other].sequence {
      EarlierAttempts(s, other, s.attempts[open].sequence);
    } else {
      EarlierAttempts(s, open, s.attempts[other].sequence);
    }
  }

  /** Each attempt has exactly one terminal event once it is finished, the one for its status,
      and none before. */
  lemma OneTerminalEventPerAttempt(coding: string -> bool, steps: seq<Step>, states: seq<State>, s: State, id: string)
    requires IsRun(coding, steps, states) && s in states && id in s.attempts
    ensures var a := s.attempts[id];
            Terminals(s.log, a.invocation) == if a.status.Running? then [] else [TerminalEvent(id, a)]
  {
    var n :| 0 <= n < |states| && states[n] == s;
    RunInvariant(coding, steps, states, n);
  }

  /** A new attempt is granted exactly when the message has none yet or its last one was
      definitively rejected, and the ids are new. */
  lemma ClaimedExactly(s: State, r: Request, hit: Option<string>, latest: Option<string>)
    requires IsHit(s, r.callKey, hit) && IsLatest(s, r.message, latest) && Chained(s)
    ensures var (s', result) := ClaimSubmission(s, r, hit, latest);
            (result.Ok? && result.value.Claimed?) <==>
            && ValidateRequest(r).Ok? && hit.None? && r.invocation != "" && r.run != "" && r.session != ""
            && (latest.Some? ==> s.attempts[latest.value].status.DefinitivelyRejected?)
            && KeysFree(s, r, if latest.Some? then s.attempts[latest.value].sequence + 1 else 1)
  {
  }

  /** Attempts are never removed or renamed; a finished one never changes. */
  ghost predicate Keeps(s: State, s': State) {
    forall id <- s.attempts ::
      && id in s'.attempts && SameAttempt(s.attempts[id], s'.attempts[id])
      && (s.attempts[id].status.Running? || s'.attempts[id] == s.attempts[id])
  }

  predicate SameAttempt(a: Attempt, b: Attempt) {
    b == a.(status := b.status, result := b.result, error := b.error)
  }

  lemma {:induction false} RunKeeps(coding: string -> bool, steps: seq<Step>, states: seq<State>, m: nat, n: nat)
    requires IsRun(coding, steps, states) && m <= n <= |steps|
    ensures Keeps(states[m], states[n])
  {
    if m < n {
      RunKeeps(coding, steps, states, m, n - 1);
      assert Next(coding, states[n - 1], steps[n - 1], states[n - 1 + 1]);
    }
  }

  /** What a call is told about its own recorded attempt. */
  function Recall(id: string, a: Attempt): Result<Claim> {
    match a.status
    case Running => Ok(InProgress(id, a.invocation))
    case SubmissionSucceeded =>
      if a.result.Some? then Ok(AlreadySucceeded(a.invocation, a.result.value)) else Err(CodingSubmissionResultMissing)
    case DefinitivelyRejected =>
      if a.error.Some? then Ok(AlreadyRejected(a.error.value)) else Err(CodingSubmissionResultMissing)
    case OutcomeUnknown => Err(CodingOutcomeUnknown)
  }

  /** A finished attempt has the column its status calls for. */
  ghost predicate Shaped(s: State) {
    forall id <- s.attempts ::
      && (s.attempts[id].status.SubmissionSucceeded? ==> s.attempts[id].result.Some?)
      && (s.attempts[id].status.DefinitivelyRejected? ==> s.attempts[id].error.Some?)
  }

  lemma {:induction false} RunShaped(coding: string -> bool, steps: seq<Step>, states: seq<State>, n: nat)
    requires IsRun(coding, steps, states) && n <= |steps|
    ensures Shaped(states[n])
  {
    if n > 0 {
      RunShaped(coding, steps, states, n - 1);
      assert Next(coding, states[n - 1], steps[n - 1], states[n - 1 + 1]);
    }
  }

  lemma HitIsUnique(s: State, id: string, hit: Option<string>)
    requires UniqueKeys(s) && id in s.attempts && IsHit(s, s.attempts[id].callKey, hit)
    ensures hit == Some(id)
  {
    assert forall other <- s.attempts | other != id :: Distinct(s.attempts[other], s.attempts[id]);
  }

  /** Once a call key has been granted an attempt, every later call under it changes nothing. With
      the same message and request it is told how that very attempt stands: in progress,
      succeeded with the recorded result, rejected with the recorded code, or unknown, and once it
      is finished the answer never changes. With another message or request it is refused. */
  lemma RecordedCallRecalls(coding: string -> bool, steps: seq<Step>, states: seq<State>, m: nat, n: nat, id: string,
                            r: Request, hit: Option<string>, latest: Option<string>)
    requires IsRun(coding, steps, states) && m <= n <= |steps| && id in states[m].attempts
    requires states[m].attempts[id].callKey == r.callKey
    requires IsHit(states[n], r.callKey, hit) && IsLatest(states[n], r.message, latest)
    ensures ClaimSubmission(states[n], r, hit, latest).0 == states[n]
    ensures id in states[n].attempts && Recall(id, states[n].attempts[id]) != Err(CodingSubmissionResultMissing)
    ensures !states[m].attempts[id].status.Running? ==> states[n].attempts[id] == states[m].attempts[id]
    ensures ClaimSubmission(states[n], r, hit, latest).1 ==
            if ValidateRequest(r).Err? then Err(ValidateRequest(r).error)
            else if r.message != states[m].attempts[id].message || r.digest != states[m].attempts[id].digest
            then Err(CodingSubmissionReplayIdentityConflict)
            else Recall(id, states[n].attempts[id])
  {
    RunKeeps(coding, steps, states, m, n);
    RunShaped(coding, steps, states, n);
    RunHit(coding, steps, states, n, id, hit);
    RecallsAttempt(states[n], id, r, latest);
  }

  lemma RunHit(coding: string -> bool, steps: seq<Step>, states: seq<State>, n: nat, id: string, hit: Option<string>)
    requires IsRun(coding, steps, states) && n <= |steps| && id in states[n].attempts
    requires IsHit(states[n], states[n].attempts[id].callKey, hit)
    ensures hit == Some(id)
  {
    RunInvariant(coding, steps, states, n);
    HitIsUnique(states[n], id, hit);
  }

  lemma RecallsAttempt(s: State, id: string, r: Request, latest: Option<string>)
    requires Shaped(s) && id in s.attempts && (latest.Some? ==> latest.value in s.attempts)
    ensures ClaimSubmission(s, r, Some(id), latest).0 == s
    ensures Recall(id, s.attempts[id]) != Err(CodingSubmissionResultMissing)
    ensures ClaimSubmission(s, r, Some(id), latest).1 ==
            if ValidateRequest(r).Err? then Err(ValidateRequest(r).error)
            else if r.message != s.attempts[id].message || r.digest != s.attempts[id].digest
            then Err(CodingSubmissionReplayIdentityConflict)
            else Recall(id, s.attempts[id])
  {
  }

  /** Once an attempt is finished, finishing it the same way at any later state succeeds without a
      row or an event, and finishing it any other way is refused. */
  lemma FinishIsFinal(coding: string -> bool, steps: seq<Step>, states: seq<State>, m: nat, n: nat, id: string,
                      invocation: string, outcome: Outcome, again: Outcome)
    requires IsRun(coding, steps, states) && m < n <= |steps|
    requires steps[m] == FinishStep(id, invocation, outcome)
    requires FinishSubmission(states[m], id, invocation, outcome).1.Ok?
    ensures FinishSubmission(states[n], id, invocation, again).0 == states[n]
    ensures FinishSubmission(states[n], id, invocation, again).1.Ok? <==> again == outcome
  {
    assert Next(coding, states[m], steps[m], states[m + 1]);
    RunKeeps(coding, steps, states, m + 1, n);
    var a := states[n].attempts[id];
    assert a == states[m + 1].attempts[id] == Finished(a, outcome);
  }
}
