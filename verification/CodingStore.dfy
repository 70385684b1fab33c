/** The table of coding submissions updated in place. */
module CodingStore {
  import opened Journal
  import opened CodingSubmissions

  class Store {
    var log: seq<Event>
    var attempts: map<string, Attempt>

    function View(): State
      reads this
    {
      State(log, attempts)
    }

    constructor ()
      ensures View() == State([], map[])
    {
      log, attempts := [], map[];
    }

    method FindByCallKey(callKey: string) returns (hit: Option<string>)
      ensures IsHit(View(), callKey, hit)
    {
      var rest := attempts.Keys;
      while rest != {}
        invariant rest <= attempts.Keys
        invariant forall id <- attempts.Keys - rest :: attempts[id].callKey != callKey
        decreases rest
      {
        var id :| id in rest;
        if attempts[id].callKey == callKey {
          return Some(id);
        }
        rest := rest - {id};
      }
      assert attempts.Keys - rest == attempts.Keys;
      hit := None;
    }

    method LatestAttempt(message: string) returns (latest: Option<string>)
      ensures IsLatest(View(), message, latest)
    {
      latest := None;
      var rest := attempts.Keys;
      while rest != {}
        invariant rest <= attempts.Keys
        invariant latest.None? ==> forall id <- attempts.Keys - rest :: attempts[id].message != message
        invariant latest.Some? ==> latest.value in attempts && attempts[latest.value].message == message
        invariant latest.Some? ==> forall id <- attempts.Keys - rest | attempts[id].message == message ::
                    attempts[id].sequence <= attempts[latest.value].sequence
        decreases rest
      {
        var id :| id in rest;
        if attempts[id].message == message
           && (latest.None? || attempts[latest.value].sequence < attempts[id].sequence) {
          latest := Some(id);
        }
        rest := rest - {id};
      }
      assert attempts.Keys - rest == attempts.Keys;
    }

    method ClaimCodingTaskSubmission(r: Request)
      returns (claim: Result<Claim>, ghost hit: Option<string>, ghost latest: Option<string>)
      modifies this
      ensures IsHit(old(View()), r.callKey, hit) && IsLatest(old(View()), r.message, latest)
      ensures (View(), claim) == ClaimSubmission(old(View()), r, hit, latest)
    {
      var found := FindByCallKey(r.callKey);
      var previous := LatestAttempt(r.message);
      hit, latest := found, previous;
      var valid := ValidateRequest(r);
      if valid.Err? {
        return Err(valid.error), hit, latest;
      }
      if found.Some? {
        return ReplayClaim(found.value, attempts[found.value], r), hit, latest;
      }
      var sequence := NextSequence(View(), previous);
      if sequence.Err? {
        return Err(sequence.error), hit, latest;
      }
      if !KeysFree(View(), r, sequence.value) {
        return Err(UniqueViolation), hit, latest;
      }
      if sequence.value <= 0 || r.invocation == "" || r.run == "" || r.session == "" {
        return Err(CheckViolation), hit, latest;
      }
      var a := NewAttempt(r, sequence.value);
      attempts := attempts[r.attemptId := a];
      log := log + [AttemptEvent(InvocationProposed, r.attemptId, a, None)];
      log := log + [AttemptEvent(InvocationApproved, r.attemptId, a, None)];
      assert log == old(log) + ClaimEvents(r.attemptId, a);
      claim := Ok(Claimed(r.attemptId, r.invocation));
    }

    method FinishCodingTaskSubmission(attemptId: string, invocation: string, outcome: Outcome) returns (r: Result<()>)
      modifies this
      ensures (View(), r) == FinishSubmission(old(View()), attemptId, invocation, outcome)
    {
      if attemptId !in attempts || attempts[attemptId].invocation != invocation {
        return Err(CodingSubmissionNotFound);
      }
      var a := attempts[attemptId];
      var done := Finished(a, outcome);
      if a.status == done.status {
        return if a.result == done.result && a.error == done.error then Ok(()) else Err(CodingSubmissionFinishConflict);
      }
      if !a.status.Running? {
        return Err(CodingSubmissionFinishConflict);
      }
      log := log + [TerminalEvent(attemptId, done)];
      attempts := attempts[attemptId := done];
      r := Ok(());
    }
  }
}
