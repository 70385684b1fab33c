/** What the callers of the coding ledger are told: the answers to every call after a claim and
    after each way an attempt can end, in every later state of every run. */
module CodingAnswers {
  import opened Journal
  import Approvals
  import opened CodingSubmissions

  /** A request is refused before anything is looked up exactly when an id is blank or the digest
      malformed. */
  lemma ValidExactly(r: Request)
    ensures ValidateRequest(r).Ok? <==>
            && !Approvals.Blank(r.message) && !Approvals.Blank(r.callKey)
            && !Approvals.Blank(r.attemptId) && !Approvals.Blank(r.decisionId)
            && |r.digest| == 71 && r.digest[..7] == "sha256:"
            && forall i | 7 <= i < 71 :: r.digest[i] in "0123456789abcdef"
  {
    assert forall c: char :: c in "0123456789abcdef" <==> '0' <= c <= '9' || 'a' <= c <= 'f';
  }

  // -------------------------------------------------------------------- Claiming

  /** The step grants a new attempt. */
  ghost predicate Grants(coding: string -> bool, steps: seq<Step>, states: seq<State>, m: nat)
    requires IsRun(coding, steps, states) && m < |steps|
  {
    steps[m].ClaimStep? && states[m + 1] != states[m]
  }

  /** A granted claim tells its caller the ids it came with, proposes and approves the invocation
      in the log, and stores the request as a running attempt: number 1, or one more than the
      last one of the message, which was rejected. */
  lemma GrantedAsRequested(coding: string -> bool, steps: seq<Step>, states: seq<State>, m: nat)
    requires IsRun(coding, steps, states) && m < |steps| && Grants(coding, steps, states, m)
    ensures var s, s', r, latest := states[m], states[m + 1], steps[m].r, steps[m].latest;
            && (steps[m].hit.Some? ==> steps[m].hit.value in s.attempts)
            && (latest.Some? ==> latest.value in s.attempts)
            && ClaimSubmission(s, r, steps[m].hit, latest).1 == Ok(Claimed(r.attemptId, r.invocation))
            && s'.attempts == s.attempts[r.attemptId :=
                 Attempt(r.message, if latest.Some? then s.attempts[latest.value].sequence + 1 else 1,
                         r.callKey, r.digest, r.invocation, r.run, r.session, Running, None, None)]
            && (latest.Some? ==> s.attempts[latest.value].status.DefinitivelyRejected?)
            && r.attemptId !in s.attempts && |s'.log| == |s.log| + 2 && s.log <= s'.log
            && s'.log[|s.log|].kind.InvocationProposed? && s'.log[|s.log| + 1].kind.InvocationApproved?
            && forall k | |s.log| <= k < |s'.log| ::
                 && s'.log[k].run == Some(r.run) && s'.log[k].session == Some(r.session)
                 && s'.log[k].correlation == Some(r.invocation)
  {
    assert Next(coding, states[m], steps[m], states[m + 1]);
  }

  // --------------------------------------------------------------------- Finishing

  /** The step ends a running attempt. */
  ghost predicate Ends(coding: string -> bool, steps: seq<Step>, states: seq<State>, m: nat)
    requires IsRun(coding, steps, states) && m < |steps|
  {
    steps[m].FinishStep? && states[m + 1] != states[m]
  }

  /** What the log and the callers are told about each outcome. */
  predicate Reports(e: Event, outcome: Outcome) {
    match outcome
    case Complete(_) => e.kind.ReceiptReceived? && e.payload.status == Some(TextSucceeded)
    case Reject(_) => e.kind.ReceiptReceived? && e.payload.status == Some(TextFailed)
    case MarkUnknown => e.kind.CodingSubmissionOutcomeUnknown?
  }

  function Answer(outcome: Outcome, invocation: string): Result<Claim> {
    match outcome
    case Complete(value) => Ok(AlreadySucceeded(invocation, value))
    case Reject(code) => Ok(AlreadyRejected(code))
    case MarkUnknown => Err(CodingOutcomeUnknown)
  }

  /** What ending an attempt writes: the one event that reports the outcome, under the ids of the
      attempt, and no row but its own. */
  lemma EndIsReported(coding: string -> bool, steps: seq<Step>, states: seq<State>, m: nat)
    requires IsRun(coding, steps, states) && m < |steps| && Ends(coding, steps, states, m)
    ensures var s, s', id := states[m], states[m + 1], steps[m].attemptId;
            && FinishSubmission(s, id, steps[m].invocation, steps[m].outcome).1.Ok?
            && id in s.attempts && s.attempts[id].status.Running? && s.attempts[id].invocation == steps[m].invocation
            && id in s'.attempts && s'.attempts == s.attempts[id := s'.attempts[id]]
            && |s'.log| == |s.log| + 1 && s.log <= s'.log && Reports(s'.log[|s.log|], steps[m].outcome)
            && s'.log[|s.log|].correlation == Some(steps[m].invocation)
            && s'.log[|s.log|].run == Some(s.attempts[id].run)
            && s'.log[|s.log|].session == Some(s.attempts[id].session)
  {
    assert Next(coding, states[m], steps[m], states[m + 1]);
  }

  lemma EndedRow(coding: string -> bool, steps: seq<Step>, states: seq<State>, m: nat, n: nat)
    requires IsRun(coding, steps, states) && m < n <= |steps| && Ends(coding, steps, states, m)
    ensures var id, a := steps[m].attemptId, states[m].attempts[steps[m].attemptId];
            && id in states[n].attempts
            && states[n].attempts[id] == match steps[m].outcome
                                         case Complete(value) =>
                                           a.(status := SubmissionSucceeded, result := Some(value))
                                         case Reject(code) => a.(status := DefinitivelyRejected, error := Some(code))
                                         case MarkUnknown =>
                                           a.(status := OutcomeUnknown, error := Some("OUTCOME_UNKNOWN"))
  {
    EndIsReported(coding, steps, states, m);
    RunningIsBlank(coding, steps, states, m, steps[m].attemptId);
    assert Next(coding, states[m], steps[m], states[m + 1]);
    RunKeeps(coding, steps, states, m + 1, n);
  }

  /** A running attempt has neither result nor code. */
  lemma {:induction false} RunningIsBlank(coding: string -> bool, steps: seq<Step>, states: seq<State>, n: nat,
                                          id: string)
    requires IsRun(coding, steps, states) && n <= |steps| && id in states[n].attempts
    ensures states[n].attempts[id].status.Running? ==>
              states[n].attempts[id].result.None? && states[n].attempts[id].error.None?
  {
    if n > 0 {
      assert Next(coding, states[n - 1], steps[n - 1], states[n - 1 + 1]);
      if id in states[n - 1].attempts { RunningIsBlank(coding, steps, states, n - 1, id); }
    }
  }

  /** Once an attempt has ended, every later call under its key with the same message and request
      is told that outcome: succeeded with the very result, rejected with the very code, or
      unknown. */
  lemma EndedCallIsAnswered(coding: string -> bool, steps: seq<Step>, states: seq<State>, m: nat, n: nat, r: Request,
                            hit: Option<string>, latest: Option<string>)
    requires IsRun(coding, steps, states) && m < n <= |steps| && Ends(coding, steps, states, m)
    requires IsHit(states[n], r.callKey, hit) && IsLatest(states[n], r.message, latest) && ValidateRequest(r).Ok?
    requires steps[m].attemptId in states[m].attempts
    requires var a := states[m].attempts[steps[m].attemptId];
             r.callKey == a.callKey && r.message == a.message && r.digest == a.digest
    ensures ClaimSubmission(states[n], r, hit, latest) == (states[n], Answer(steps[m].outcome, steps[m].invocation))
  {
    EndIsReported(coding, steps, states, m);
    EndedRow(coding, steps, states, m, n);
    RunHit(coding, steps, states, n, steps[m].attemptId, hit);
  }

  /** A message whose attempt succeeded or has an unknown outcome is never granted another one,
      whatever the call key. */
  lemma EndedMessageIsClosed(coding: string -> bool, steps: seq<Step>, states: seq<State>, m: nat, n: nat, r: Request,
                             hit: Option<string>, latest: Option<string>)
    requires IsRun(coding, steps, states) && m < n <= |steps| && Ends(coding, steps, states, m)
    requires IsHit(states[n], r.callKey, hit) && IsLatest(states[n], r.message, latest) && ValidateRequest(r).Ok?
    requires steps[m].attemptId in states[m].attempts && r.message == states[m].attempts[steps[m].attemptId].message
    requires hit.None? && !steps[m].outcome.Reject?
    ensures ClaimSubmission(states[n], r, hit, latest) ==
            (states[n], Err(if steps[m].outcome.Complete? then CodingSubmissionAlreadySucceeded
                            else CodingOutcomeUnknown))
  {
    var id := steps[m].attemptId;
    EndedRow(coding, steps, states, m, n);
    if latest != Some(id) {
      AtMostOneOpenAttempt(coding, steps, states, states[n], id, latest.value);
      assert false;
    }
  }

  /** After a rejection the message is open again: as long as the rejected attempt is the last one,
      a new call is granted the next number, with fresh ids of its own. */
  lemma RejectedMessageIsOpen(coding: string -> bool, steps: seq<Step>, states: seq<State>, m: nat, n: nat, r: Request,
                              hit: Option<string>)
    requires IsRun(coding, steps, states) && m < n <= |steps| && Ends(coding, steps, states, m)
    requires steps[m].outcome.Reject? && steps[m].attemptId in states[m].attempts
    requires IsHit(states[n], r.callKey, hit) && IsLatest(states[n], r.message, Some(steps[m].attemptId))
    requires ValidateRequest(r).Ok? && hit.None?
    ensures ClaimSubmission(states[n], r, hit, Some(steps[m].attemptId)).1
            == Ok(Claimed(r.attemptId, r.invocation)) <==>
            && r.attemptId !in states[n].attempts && r.invocation != "" && r.run != "" && r.session != ""
            && forall other <- states[n].attempts :: states[n].attempts[other].invocation != r.invocation
  {
    var s, id := states[n], steps[m].attemptId;
    EndedRow(coding, steps, states, m, n);
    RunInvariant(coding, steps, states, n);
    ClaimedExactly(s, r, hit, Some(id));
    assert forall other <- s.attempts | s.attempts[other].message == r.message ::
      s.attempts[other].sequence < s.attempts[id].sequence + 1;
  }

  /** While an attempt runs, its own call is told that it does, and any other call for the message
      is refused. */
  lemma RunningIsAnswered(coding: string -> bool, steps: seq<Step>, states: seq<State>, n: nat, id: string, r: Request,
                          hit: Option<string>, latest: Option<string>)
    requires IsRun(coding, steps, states) && n <= |steps| && id in states[n].attempts
    requires states[n].attempts[id].status.Running? && r.message == states[n].attempts[id].message
    requires IsHit(states[n], r.callKey, hit) && IsLatest(states[n], r.message, latest) && ValidateRequest(r).Ok?
    ensures r.callKey == states[n].attempts[id].callKey && r.digest == states[n].attempts[id].digest ==>
              ClaimSubmission(states[n], r, hit, latest)
                == (states[n], Ok(InProgress(id, states[n].attempts[id].invocation)))
    ensures hit.None? ==> ClaimSubmission(states[n], r, hit, latest) == (states[n], Err(CodingTaskAlreadyInProgress))
  {
    if r.callKey == states[n].attempts[id].callKey { RunHit(coding, steps, states, n, id, hit); }
    if latest != Some(id) {
      AtMostOneOpenAttempt(coding, steps, states, states[n], id, latest.value);
      assert false;
    }
  }
}
