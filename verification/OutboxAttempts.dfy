/** Under one fixed policy the dispatcher hands out a bounded number of attempts. */
module OutboxAttempts {
  import opened Journal
  import opened Outbox
  import opened OutboxAgreement
  import Retry

  function Cap(limit: int): int {
    if limit > 1 then limit else 1
  }

  /** A waiting row has never been attempted, and a row waiting for a retry still may be. */
  predicate RowWithin(row: Row, limit: int) {
    && 0 <= row.attempts <= Cap(limit)
    && (row.status.Pending? ==> row.attempts == 0)
    && (row.status.RetryableFailed? ==> row.attempts < limit)
  }

  ghost predicate Within(s: State, limit: int) {
    forall inv <- s.rows :: RowWithin(s.rows[inv], limit)
  }

  predicate UsesPolicy(step: Step, limit: int) {
    step.RetryStep? ==> step.policy.maxOutboxAttempts == limit
  }

  lemma {:induction false} RecoverAllWithin(s: State, keys: seq<Key>, limit: int)
    requires Within(s, limit)
    ensures Within(RecoverAll(s, keys), limit) && RecoverAll(s, keys).rows.Keys == s.rows.Keys
  {
    if keys != [] { RecoverAllWithin(s, keys[..|keys| - 1], limit); }
  }

  lemma RepairWithin(s: State, chosen: set<string>, limit: int)
    requires Within(s, limit)
    ensures Within(Repair(s, chosen), limit)
  {
  }

  lemma StepWithin(outbox: string -> bool, s: State, step: Step, limit: int)
    requires Within(s, limit) && Enabled(outbox, s, step) && UsesPolicy(step, limit)
    ensures Within(Apply(outbox, s, step), limit)
  {
    match step
    case CrashedRecoveryStep(n) => RecoverAllWithin(s, Candidates(s.log)[..n], limit);
    case RecoverStep(now) =>
      RecoverAllWithin(s, Candidates(s.log), limit);
      RepairWithin(RecoverAll(s, Candidates(s.log)), StaleSet(RecoverAll(s, Candidates(s.log)), now), limit);
    case _ =>
      forall inv <- Apply(outbox, s, step).rows ensures RowWithin(Apply(outbox, s, step).rows[inv], limit) {
        OtherStepWithin(outbox, s, step, limit, inv);
      }
  }

  lemma OtherStepWithin(outbox: string -> bool, s: State, step: Step, limit: int, inv: string)
    requires Enabled(outbox, s, step) && UsesPolicy(step, limit) && !step.RecoverStep? && !step.CrashedRecoveryStep?
    requires inv in Apply(outbox, s, step).rows && (inv in s.rows ==> RowWithin(s.rows[inv], limit))
    ensures RowWithin(Apply(outbox, s, step).rows[inv], limit)
  {
  }

  lemma {:induction false} RunWithin(outbox: string -> bool, runs: map<string, RunStatus>, steps: seq<Step>,
                                     states: seq<State>, limit: int, n: nat)
    requires IsRun(outbox, runs, steps, states) && n <= |steps|
    requires forall step <- steps :: UsesPolicy(step, limit)
    ensures Within(states[n], limit)
  {
    if n > 0 {
      RunWithin(outbox, runs, steps, states, limit, n - 1);
      assert steps[n - 1] in steps && TakesStep(outbox, steps, states, n - 1);
      StepWithin(outbox, states[n - 1], steps[n - 1], limit);
    }
  }

  // ------------------------------------------------------------ Total work

  /** All hand-outs the log records, over all invocations. */
  function HandOuts(log: seq<Event>): nat {
    if log == [] then 0
    else
      var last := log[|log| - 1];
      HandOuts(log[..|log| - 1]) + (if last.kind.DispatchStarted? && last.correlation.Some? then 1 else 0)
  }

  /** The hand-outs that concern one of `keys`. */
  function HandOutsOf(log: seq<Event>, keys: set<string>): nat {
    if log == [] then 0
    else
      var last := log[|log| - 1];
      HandOutsOf(log[..|log| - 1], keys)
      + (if last.kind.DispatchStarted? && last.correlation.Some? && last.correlation.value in keys then 1 else 0)
  }

  lemma {:induction false} HandOutsSplit(log: seq<Event>, keys: set<string>, inv: string)
    requires inv in keys
    ensures HandOutsOf(log, keys) == Starts(log, inv) + HandOutsOf(log, keys - {inv})
  {
    if log != [] { HandOutsSplit(log[..|log| - 1], keys, inv); }
  }

  lemma {:induction false} HandOutsOfNone(log: seq<Event>)
    ensures HandOutsOf(log, {}) == 0
  {
    if log != [] { HandOutsOfNone(log[..|log| - 1]); }
  }

  lemma {:induction false} HandOutsBounded(s: State, keys: set<string>, limit: int)
    requires Counted(s) && Within(s, limit) && keys <= s.rows.Keys
    ensures HandOutsOf(s.log, keys) <= |keys| * Cap(limit)
    decreases |keys|
  {
    if keys == {} {
      HandOutsOfNone(s.log);
    } else {
      var inv :| inv in keys;
      HandOutsSplit(s.log, keys, inv);
      HandOutsBounded(s, keys - {inv}, limit);
      assert RowWithin(s.rows[inv], limit);
      assert Starts(s.log, inv) == Attempts(s, inv) <= Cap(limit);
      assert |keys| * Cap(limit) == |keys - {inv}| * Cap(limit) + Cap(limit);
    }
  }

  lemma {:induction false} AllHandOutsOwned(s: State, n: nat)
    requires OwnStarts(s) && n <= |s.log|
    ensures HandOuts(s.log[..n]) == HandOutsOf(s.log[..n], s.rows.Keys)
  {
    if n > 0 {
      AllHandOutsOwned(s, n - 1);
      assert s.log[..n][..n - 1] == s.log[..n - 1];
    }
  }

  /** In every run under one policy: the attempt counter of an invocation is its number of
      started facts and never exceeds max(1, limit); and all hand-outs together number at most
      max(1, limit) per queued invocation, so once queueing stops leasing does too. */
  lemma AttemptsAreBounded(outbox: string -> bool, runs: map<string, RunStatus>, steps: seq<Step>, states: seq<State>,
                           limit: int, s: State)
    requires IsRun(outbox, runs, steps, states) && s in states
    requires forall step <- steps :: UsesPolicy(step, limit)
    ensures forall inv <- s.rows :: s.rows[inv].attempts == Starts(s.log, inv) <= Cap(limit)
    ensures HandOuts(s.log) <= |s.rows| * Cap(limit)
  {
    var n :| 0 <= n < |states| && states[n] == s;
    RunInvariant(outbox, runs, steps, states, n);
    RunWithin(outbox, runs, steps, states, limit, n);
    forall inv <- s.rows ensures s.rows[inv].attempts == Starts(s.log, inv) <= Cap(limit) {
      assert RowWithin(s.rows[inv], limit);
      assert Starts(s.log, inv) == Attempts(s, inv);
    }
    AllHandOutsOwned(s, |s.log|);
    assert s.log[..|s.log|] == s.log;
    HandOutsBounded(s, s.rows.Keys, limit);
  }
}
