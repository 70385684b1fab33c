/** What each outbox transaction does to the tables and the log, column by column, and what
    recovery does to rows, runs and log in terms of the log it found. */
module OutboxEffects {
  import opened Journal
  import opened Outbox
  import opened OutboxAgreement
  import opened OutboxRecovery
  import OutboxCallers
  import Retry

  // ---------------------------------------------------------------------- Recovery

  predicate HasTerminalFact(log: seq<Event>, inv: string) {
    exists e <- log :: e.correlation == Some(inv) && (e.kind.ReceiptReceived? || e.kind.OutboxDispatchUnknown?)
  }

  /** The event starts a dispatch that the log says nothing more about. */
  predicate IsOpenStart(log: seq<Event>, e: Event) {
    e.kind.DispatchStarted? && e.correlation.Some? && !HasTerminalFact(log, e.correlation.value)
  }

  lemma {:induction false} FactsReadLog(log: seq<Event>, inv: string)
    ensures TerminalFacts(log, inv) == [] <==> !HasTerminalFact(log, inv)
  {
    FactsMembers(log, inv);
    if TerminalFacts(log, inv) != [] {
      var e := TerminalFacts(log, inv)[0];
      assert e in TerminalFacts(log, inv) && e in log;
    }
    if HasTerminalFact(log, inv) {
      var e :| e in log && e.correlation == Some(inv) && (e.kind.ReceiptReceived? || e.kind.OutboxDispatchUnknown?);
      assert e in TerminalFacts(log, inv);
    }
  }

  predicate NamesOpenStart(log: seq<Event>, run: string) {
    exists e <- log :: IsOpenStart(log, e) && e.run == Some(run)
  }

  lemma {:induction false} RecoverAllRuns(s: State, keys: seq<Key>)
    ensures RecoverAll(s, keys).runs.Keys == s.runs.Keys
    ensures forall run <- s.runs ::
              RecoverAll(s, keys).runs[run]
              == if exists key <- keys :: key.run == Some(run) then UnknownRun else s.runs[run]
  {
    if keys != [] {
      var front, last := keys[..|keys| - 1], keys[|keys| - 1];
      RecoverAllRuns(s, front);
      assert keys == front + [last];
    }
  }

  lemma CandidatesNameRun(log: seq<Event>, run: string)
    ensures (exists key <- Candidates(log) :: key.run == Some(run)) <==> NamesOpenStart(log, run)
  {
    CandidateKeys(log, |log|);
    if key :| key in Candidates(log) && key.run == Some(run) {
      var k :| 0 <= k < |log| && Unresolved(log, log[k]) && KeyOf(log[k]) == key;
      FactsReadLog(log, key.inv);
      assert IsOpenStart(log, log[k]) && log[k] in log;
    }
    if NamesOpenStart(log, run) {
      var e :| e in log && IsOpenStart(log, e) && e.run == Some(run);
      var k :| 0 <= k < |log| && log[k] == e;
      FactsReadLog(log, e.correlation.value);
      assert KeyOf(log[k]) in Candidates(log);
    }
  }

  /** From any start, recovery makes a run unknown exactly when the log starts a dispatch of that
      run and has no terminal fact about it; every other run keeps its status. */
  lemma RecoveredRuns(s: State, now: int)
    ensures Recover(s, now).runs.Keys == s.runs.Keys
    ensures forall run <- s.runs ::
              Recover(s, now).runs[run] == if NamesOpenStart(s.log, run) then UnknownRun else s.runs[run]
  {
    RecoverAllRuns(s, Candidates(s.log));
    forall run <- s.runs
      ensures Recover(s, now).runs[run] == if NamesOpenStart(s.log, run) then UnknownRun else s.runs[run]
    {
      CandidatesNameRun(s.log, run);
    }
  }

  predicate SameDispatch(a: Event, b: Event) {
    a.correlation == b.correlation && a.run == b.run && a.session == b.session
  }

  /** The event ends an open dispatch of the log as unknown. */
  predicate EndsOpenStart(log: seq<Event>, e: Event) {
    && e.kind.OutboxDispatchUnknown? && e.payload.invocationId == e.correlation
    && exists start <- log :: IsOpenStart(log, start) && SameDispatch(start, e)
  }

  lemma RecoveredEvent(s: State, now: int, i: nat)
    requires i < |Candidates(s.log)|
    ensures var key, log' := Candidates(s.log)[i], Recover(s, now).log;
            && |log'| == |s.log| + |Candidates(s.log)|
            && log'[|s.log| + i] == Event(OutboxDispatchUnknown, key.run, key.session, Some(key.inv),
                                          log'[|s.log| + i].payload)
            && EndsOpenStart(s.log, log'[|s.log| + i])
  {
    var keys := Candidates(s.log);
    RecoverEffect(s, now);
    OutboxCallers.UnknownEventAt(keys, i);
    CandidateKeys(s.log, |s.log|);
    assert keys[i] in keys;
    var k :| 0 <= k < |s.log| && Unresolved(s.log, s.log[k]) && KeyOf(s.log[k]) == keys[i];
    FactsReadLog(s.log, keys[i].inv);
    assert s.log[k] in s.log;
    assert IsOpenStart(s.log, s.log[k]);
    assert SameDispatch(s.log[k], Recover(s, now).log[|s.log| + i]);
  }

  lemma RecoveredLength(s: State, now: int)
    ensures s.log <= Recover(s, now).log && |Recover(s, now).log| == |s.log| + |Candidates(s.log)|
  {
    RecoverEffect(s, now);
    if Candidates(s.log) != [] { RecoveredEvent(s, now, 0); }
  }

  /** From position `n` on, the log has an event about this dispatch. */
  predicate EndedAfter(log: seq<Event>, n: nat, e: Event) {
    exists k | n <= k < |log| :: SameDispatch(e, log[k])
  }

  lemma DistinctEnds(s: State, now: int, i: nat, j: nat)
    requires i < j < |Candidates(s.log)|
    ensures var log' := Recover(s, now).log;
            |log'| == |s.log| + |Candidates(s.log)| && !SameDispatch(log'[|s.log| + i], log'[|s.log| + j])
  {
    RecoveredEvent(s, now, i);
    RecoveredEvent(s, now, j);
    CandidateKeys(s.log, |s.log|);
  }

  lemma OpenStartIsEnded(s: State, now: int, e: Event)
    requires e in s.log && IsOpenStart(s.log, e)
    ensures EndedAfter(Recover(s, now).log, |s.log|, e)
  {
    var keys := Candidates(s.log);
    CandidateKeys(s.log, |s.log|);
    var k :| 0 <= k < |s.log| && s.log[k] == e;
    FactsReadLog(s.log, e.correlation.value);
    assert KeyOf(s.log[k]) in keys;
    var i :| 0 <= i < |keys| && keys[i] == KeyOf(s.log[k]);
    RecoveredEvent(s, now, i);
    assert SameDispatch(e, Recover(s, now).log[|s.log| + i]);
  }

  predicate OnlyEnds(log: seq<Event>, log': seq<Event>) {
    log <= log' && forall k | |log| <= k < |log'| :: EndsOpenStart(log, log'[k])
  }

  predicate AllEnded(log: seq<Event>, log': seq<Event>) {
    forall e <- log | IsOpenStart(log, e) :: EndedAfter(log', |log|, e)
  }

  predicate EndedOnce(log: seq<Event>, log': seq<Event>) {
    forall j, k | |log| <= j < k < |log'| :: !SameDispatch(log'[j], log'[k])
  }

  lemma RecoveryOnlyEnds(s: State, now: int)
    ensures OnlyEnds(s.log, Recover(s, now).log)
  {
    var log' := Recover(s, now).log;
    RecoveredLength(s, now);
    forall k | |s.log| <= k < |log'| ensures EndsOpenStart(s.log, log'[k]) { RecoveredEvent(s, now, k - |s.log|); }
  }

  lemma RecoveryEndsAll(s: State, now: int)
    ensures AllEnded(s.log, Recover(s, now).log)
  {
    forall e <- s.log | IsOpenStart(s.log, e) ensures EndedAfter(Recover(s, now).log, |s.log|, e) {
      OpenStartIsEnded(s, now, e);
    }
  }

  lemma RecoveryEndsOnce(s: State, now: int)
    ensures EndedOnce(s.log, Recover(s, now).log)
  {
    var log' := Recover(s, now).log;
    RecoveredLength(s, now);
    forall j, k | |s.log| <= j < k < |log'| ensures !SameDispatch(log'[j], log'[k]) {
      DistinctEnds(s, now, j - |s.log|, k - |s.log|);
    }
  }

  /** From any start, recovery appends exactly one unknown event for each invocation, run and
      session under which an open dispatch was started, and nothing else. */
  lemma RecoveredLog(s: State, now: int)
    ensures OnlyEnds(s.log, Recover(s, now).log)
    ensures AllEnded(s.log, Recover(s, now).log)
    ensures EndedOnce(s.log, Recover(s, now).log)
  {
    RecoveryOnlyEnds(s, now);
    RecoveryEndsAll(s, now);
    RecoveryEndsOnce(s, now);
  }

  /** The last terminal fact about the invocation is at position `k`. */
  predicate LastFact(log: seq<Event>, inv: string, k: nat) {
    k < |log| && IsFact(log[k], inv) && forall j | k < j < |log| :: !IsFact(log[j], inv)
  }

  predicate IsFact(e: Event, inv: string) {
    e.correlation == Some(inv) && (e.kind.ReceiptReceived? || e.kind.OutboxDispatchUnknown?)
  }

  lemma {:induction false} LastOfFacts(log: seq<Event>, inv: string, k: nat)
    requires LastFact(log, inv, k)
    ensures var facts := TerminalFacts(log, inv); facts != [] && facts[|facts| - 1] == log[k]
  {
    if k < |log| - 1 { LastOfFacts(log[..|log| - 1], inv, k); }
  }

  /** What a terminal fact says about the dispatch. */
  function Said(e: Event): DispatchStatus {
    if e.kind.ReceiptReceived? && e.payload.status == Some(TextSucceeded) then Succeeded
    else if e.kind.ReceiptReceived? && e.payload.status == Some(TextFailed) then Failed
    else Unknown
  }

  predicate HasOpenStart(log: seq<Event>, inv: string) {
    exists e <- log :: IsOpenStart(log, e) && e.correlation == Some(inv)
  }

  /** In flight with no lease or an expired one. */
  predicate Abandoned(row: Row, now: int) {
    row.status.Dispatching? && (row.lock.None? || row.lock.value <= now)
  }

  lemma DanglingExactly(log: seq<Event>, inv: string)
    ensures Dangling(log, inv) <==> HasOpenStart(log, inv)
  {
    FactsReadLog(log, inv);
    if HasOpenStart(log, inv) {
      var e :| e in log && IsOpenStart(log, e) && e.correlation == Some(inv);
      var k :| 0 <= k < |log| && log[k] == e;
      assert IsStart(log[k], inv);
    }
    if Dangling(log, inv) {
      var k :| 0 <= k < |log| && IsStart(log[k], inv);
      assert log[k] in log && IsOpenStart(log, log[k]);
    }
  }

  /** From any start, recovery turns the row of an open dispatch unknown, gives an abandoned row
      the status its last terminal fact states, and leaves every other row as it was. */
  lemma RecoveredRows(s: State, now: int, inv: string)
    requires inv in s.rows
    ensures inv in Recover(s, now).rows
    ensures var row, row' := s.rows[inv], Recover(s, now).rows[inv];
            && (HasOpenStart(s.log, inv) ==> row' == row.(status := Unknown, lock := None))
            && (!HasOpenStart(s.log, inv) && !(Abandoned(row, now) && HasTerminalFact(s.log, inv)) ==> row' == row)
            && forall k: nat | LastFact(s.log, inv, k) && Abandoned(row, now) ::
                 row' == row.(status := Said(s.log[k]), lock := None)
  {
    RecoverEffect(s, now);
    DanglingExactly(s.log, inv);
    FactsReadLog(s.log, inv);
    forall k: nat | LastFact(s.log, inv, k) && Abandoned(s.rows[inv], now)
      ensures Recover(s, now).rows[inv] == s.rows[inv].(status := Said(s.log[k]), lock := None)
    {
      LastOfFacts(s.log, inv, k);
      RepairTargetOfLatest(s.log, inv);
      assert s.log[k] in s.log;
    }
  }

  lemma RecoveredCount(s: State, now: int)
    ensures RecoverCount(s, now) ==
            |Recover(s, now).log| - |s.log|
            + |set inv <- s.rows | Abandoned(s.rows[inv], now) && HasTerminalFact(s.log, inv)|
  {
    var keys := Candidates(s.log);
    var mid := RecoverAll(s, keys);
    var stale := set inv <- s.rows | Abandoned(s.rows[inv], now) && HasTerminalFact(s.log, inv);
    RecoverEffect(s, now);
    UnknownEventsOnly(keys);
    RecoverAllEffect(s, keys);
    if keys != [] { OutboxCallers.UnknownEventAt(keys, 0); }
    forall inv ensures inv in StaleSet(mid, now) <==> inv in stale {
      if inv in s.rows { StaleAfterResolving(s, now, inv); }
    }
    assert StaleSet(mid, now) == stale;
  }

  lemma StaleAfterResolving(s: State, now: int, inv: string)
    requires inv in s.rows
    ensures var mid := RecoverAll(s, Candidates(s.log));
            inv in StaleSet(mid, now) <==> Abandoned(s.rows[inv], now) && HasTerminalFact(s.log, inv)
  {
    RecoverAllEffect(s, Candidates(s.log));
    FactsAfter(s, inv);
    FactsReadLog(s.log, inv);
    CandidatesMention(s.log, inv);
  }

  /** A row drifts exactly when the log has a terminal fact about it and none that supports its
      status. */
  lemma DriftExactly(s: State, inv: string)
    ensures inv in DriftSet(s) <==>
            && inv in s.rows && HasTerminalFact(s.log, inv)
            && !(s.rows[inv].status.Succeeded? && Logged(s.log, inv, ReceiptReceived, Some(TextSucceeded)))
            && !(s.rows[inv].status.Failed? && Logged(s.log, inv, ReceiptReceived, Some(TextFailed)))
            && !(s.rows[inv].status.Unknown? && Logged(s.log, inv, OutboxDispatchUnknown, None))
  {
    FactsReadLog(s.log, inv);
    FactsMembers(s.log, inv);
    forall status
      ensures HasReceipt(TerminalFacts(s.log, inv), status) <==> Logged(s.log, inv, ReceiptReceived, Some(status))
    {
      if k :| 0 <= k < |s.log| && s.log[k].correlation == Some(inv) && s.log[k].kind.ReceiptReceived?
              && s.log[k].payload.status == Some(status) {
        assert s.log[k] in TerminalFacts(s.log, inv);
      }
    }
    if k :| 0 <= k < |s.log| && s.log[k].correlation == Some(inv) && s.log[k].kind.OutboxDispatchUnknown? {
      assert s.log[k] in TerminalFacts(s.log, inv);
    }
  }

  // ------------------------------------------------------------------ Transactions

  /** The log grew by events of these kinds, all about this invocation, run and session. */
  predicate Wrote(log: seq<Event>, log': seq<Event>, kinds: seq<Kind>, inv: string, run: string,
                  session: Option<string>) {
    && log <= log' && |log'| == |log| + |kinds|
    && forall k | 0 <= k < |kinds| ::
         && log'[|log| + k].kind == kinds[k] && log'[|log| + k].correlation == Some(inv)
         && log'[|log| + k].run == Some(run) && log'[|log| + k].session == session
  }

  /** Only this row differs, and it still is the same dispatch. */
  predicate OneRow(s: State, s': State, inv: string) {
    && inv in s.rows && inv in s'.rows && s'.rows == s.rows[inv := s'.rows[inv]]
    && var row, row' := s.rows[inv], s'.rows[inv];
    && row'.run == row.run && row'.session == row.session && row'.operation == row.operation
    && row'.text == row.text && row'.createdAt == row.createdAt
  }

  /** The status of this run alone is set, if the run is in the table. */
  predicate OneRun(s: State, s': State, run: string, status: RunStatus) {
    s'.runs == if run in s.runs then s.runs[run := status] else s.runs
  }

  /** Queueing a new invocation makes it ready from now on, never attempted; a known one is left
      alone. */
  lemma QueueEffect(s: State, inv: string, run: string, session: Option<string>, operation: string,
                    text: Option<string>, now: int)
    ensures var s' := Queue(s, inv, run, session, operation, text, now);
            if inv in s.rows then s' == s
            else
              && Wrote(s.log, s'.log, [OutboxQueued], inv, run, session) && s'.runs == s.runs
              && inv in s'.rows && s'.rows == s.rows[inv := s'.rows[inv]]
              && var row := s'.rows[inv];
              && row.run == run && row.session == session && row.operation == operation && row.text == text
              && row.createdAt == now && row.attempts == 0 && row.lock.None? && row.lastError.None?
              && row.status.Pending? && forall t :: Ready(row, t) <==> t >= now
  {
  }

  /** Leasing hands the dispatch out once more, under its own run and session, and nobody takes it
      for abandoned before five minutes are over. */
  lemma LeaseEffect(s: State, inv: string, now: int)
    requires inv in s.rows
    ensures var s' := Lease(s, inv, now);
            && Wrote(s.log, s'.log, [DispatchStarted], inv, s.rows[inv].run, s.rows[inv].session)
            && OneRow(s, s', inv) && s'.runs == s.runs
            && var row, row' := s.rows[inv], s'.rows[inv];
            && row'.status.Dispatching? && row'.attempts == row.attempts + 1
            && row'.availableAt == row.availableAt && row'.lastError == row.lastError
            && (forall t :: !Ready(row', t)) && forall t :: Abandoned(row', t) <==> t >= now + 300_000
  {
  }

  predicate Waits(row: Row) {
    row.status.Pending? || row.status.RetryableFailed?
  }

  /** The row that is leased next is ready, and no ready row became available before it, or at the
      same time and was created before it. */
  lemma NextIsFirst(rows: map<string, Row>, now: int, inv: string)
    requires IsNext(rows, now, inv)
    ensures inv in rows && Waits(rows[inv]) && rows[inv].availableAt <= now
    ensures forall other <- rows | Waits(rows[other]) && rows[other].availableAt <= now ::
              && rows[other].availableAt >= rows[inv].availableAt
              && (rows[other].availableAt == rows[inv].availableAt ==> rows[other].createdAt >= rows[inv].createdAt)
  {
  }

  /** Starting commits exactly for a pending row and hands it out once, without a lease. */
  lemma StartEffect(s: State, inv: string, run: string, session: Option<string>)
    ensures var (s', r) := Start(s, inv, run, session);
            && (r.Ok? <==> inv in s.rows && s.rows[inv].status.Pending?)
            && (r.Err? ==> s' == s && r == Err(OutboxDispatchNotStartable))
            && (r.Ok? ==>
                  && Wrote(s.log, s'.log, [DispatchStarted], inv, run, session) && OneRow(s, s', inv)
                  && s'.runs == s.runs
                  && var row, row' := s.rows[inv], s'.rows[inv];
                  && row' == row.(status := Dispatching, attempts := row.attempts + 1))
  {
  }

  /** A settling transaction commits exactly for a row in flight and else changes nothing. */
  predicate Settles(s: State, s': State, inv: string, r: Result<()>) {
    && (r.Ok? <==> inv in s.rows && s.rows[inv].status.Dispatching?)
    && (r.Err? ==> s' == s && r == Err(OutboxTerminalTransitionNotAllowed))
    && (r.Ok? ==>
          && OneRow(s, s', inv) && s'.rows[inv].attempts == s.rows[inv].attempts
          && s'.rows[inv].availableAt == s.rows[inv].availableAt)
  }

  /** The reply event is written for a delivered reply operation with a known text and session. */
  predicate Replies(row: Row, status: ReceiptStatus, session: Option<string>) {
    && status.ReceiptSucceeded? && session.Some? && row.text.Some?
    && (row.operation == "stdout.send_text" || row.operation == "feishu.send_message")
  }

  /** A delivery settles the row and completes the run unless it has failed. */
  lemma SucceedEffect(s: State, inv: string, status: ReceiptStatus, run: string, session: Option<string>)
    ensures var (s', r) := Succeed(s, inv, status, run, session);
            && Settles(s, s', inv, r)
            && (r.Ok? ==>
                  && s'.rows[inv].status.Succeeded? && s'.rows[inv].lock == s.rows[inv].lock
                  && s'.rows[inv].lastError == s.rows[inv].lastError
                  && if run in s.runs && s.runs[run].FailedRun? then s'.runs == s.runs
                     else OneRun(s, s', run, CompletedRun))
  {
  }

  function TextOf(status: ReceiptStatus): StatusText {
    match status
    case ReceiptSucceeded => TextSucceeded
    case ReceiptFailed => TextFailed
    case ReceiptUnknown => TextOther
  }

  /** It writes the receipt with its status, the reply if there is one, and the completion of a run
      that has not failed. */
  lemma SucceedWrites(s: State, inv: string, status: ReceiptStatus, run: string, session: Option<string>)
    requires InFlight(s, inv)
    ensures var log', reply := Succeed(s, inv, status, run, session).0.log, Replies(s.rows[inv], status, session);
            var failed := run in s.runs && s.runs[run].FailedRun?;
            && Wrote(s.log, log', [ReceiptReceived] + (if reply then [AssistantReplyDelivered] else [])
                                  + (if failed then [] else [RunCompleted]), inv, run, session)
            && log'[|s.log|].payload.status == Some(TextOf(status))
            && (reply ==> log'[|s.log| + 1].payload.text == s.rows[inv].text)
  {
  }

  /** A failure writes a failed receipt, fails the run, keeps the error and drops the lease. */
  lemma FailEffect(s: State, inv: string, run: string, session: Option<string>, error: string)
    ensures var (s', r) := Fail(s, inv, run, session, error);
            && Settles(s, s', inv, r)
            && (r.Ok? ==>
                  && s'.rows[inv].status.Failed? && s'.rows[inv].lock.None? && s'.rows[inv].lastError == Some(error)
                  && OneRun(s, s', run, FailedRun)
                  && Wrote(s.log, s'.log, [ReceiptReceived, RunFailed], inv, run, session)
                  && s'.log[|s.log|].payload.status == Some(TextFailed))
  {
  }

  /** An unknown outcome writes its event, keeps the error, drops the lease and leaves the run as
      it was. */
  lemma UnknownEffect(s: State, inv: string, run: string, session: Option<string>, error: string)
    ensures var (s', r) := MarkUnknown(s, inv, run, session, error);
            && Settles(s, s', inv, r)
            && (r.Ok? ==>
                  && s'.rows[inv].status.Unknown? && s'.rows[inv].lock.None? && s'.rows[inv].lastError == Some(error)
                  && s'.runs == s.runs && Wrote(s.log, s'.log, [OutboxDispatchUnknown], inv, run, session))
  {
  }

  /** Marking dead overwrites whatever the row says; without a row only the event is written. */
  lemma DeadEffect(s: State, inv: string, run: string, session: Option<string>, error: string)
    ensures var s' := MarkDead(s, inv, run, session, error);
            && s'.runs == s.runs && Wrote(s.log, s'.log, [OutboxDispatchDead], inv, run, session)
            && if inv !in s.rows then s'.rows == s.rows
               else
                 && OneRow(s, s', inv) && s'.rows[inv].attempts == s.rows[inv].attempts
                 && s'.rows[inv].availableAt == s.rows[inv].availableAt
                 && s'.rows[inv].status.Dead? && s'.rows[inv].lock.None? && s'.rows[inv].lastError == Some(error)
                 && forall t :: !Ready(s'.rows[inv], t)
  {
  }

  /** A retryable failure below the limit makes the row ready again exactly after the capped
      exponential delay of its attempts, up to 2^32 of them; at the limit the row dies. */
  lemma RetryEffect(s: State, inv: string, run: string, session: Option<string>, error: string,
                    policy: Retry.RetryPolicy, now: int)
    requires inv in s.rows && 0 <= s.rows[inv].attempts < Retry.TWO32
    requires policy.baseRetryDelayMs >= 0 && policy.maxRetryDelayMs >= 0
    ensures var s', row := MarkRetryable(s, inv, run, session, error, policy, now), s.rows[inv];
            && s'.runs == s.runs && OneRow(s, s', inv) && s'.rows[inv].attempts == row.attempts
            && s'.rows[inv].lock.None? && s'.rows[inv].lastError == Some(error)
            && if row.attempts >= policy.maxOutboxAttempts then
                 && Wrote(s.log, s'.log, [OutboxDispatchDead], inv, run, session)
                 && s'.rows[inv].status.Dead? && forall t :: !Ready(s'.rows[inv], t)
               else
                 && Wrote(s.log, s'.log, [OutboxDispatchFailed], inv, run, session)
                 && s'.rows[inv].status.RetryableFailed?
                 && forall t :: Ready(s'.rows[inv], t) <==>
                      t >= now + Retry.IdealDelay(row.attempts, policy.baseRetryDelayMs, policy.maxRetryDelayMs)
  {
    Retry.BackoffIsCappedExponential(s.rows[inv].attempts + 1, policy.baseRetryDelayMs, policy.maxRetryDelayMs);
  }

  // ------------------------------------------------------------- Rows in whole runs

  /** What a row was queued with. */
  predicate QueuedAs(row: Row, step: Step) {
    && step.QueueStep? && row.run == step.run && row.session == step.session && row.operation == step.operation
    && row.text == step.text && row.createdAt == step.now
  }

  predicate SameRow(a: Row, b: Row) {
    && b.run == a.run && b.session == a.session && b.operation == a.operation && b.text == a.text
    && b.createdAt == a.createdAt
  }

  lemma {:induction false} ResolvedIsSame(s: State, keys: seq<Key>)
    ensures RecoverAll(s, keys).rows.Keys == s.rows.Keys
    ensures forall inv <- s.rows :: SameRow(s.rows[inv], RecoverAll(s, keys).rows[inv])
  {
    if keys != [] { ResolvedIsSame(s, keys[..|keys| - 1]); }
  }

  lemma StepSameRow(outbox: string -> bool, s: State, step: Step, inv: string)
    requires Enabled(outbox, s, step) && inv in Apply(outbox, s, step).rows
    ensures if inv in s.rows then SameRow(s.rows[inv], Apply(outbox, s, step).rows[inv])
            else step.QueueStep? && step.inv == inv && QueuedAs(Apply(outbox, s, step).rows[inv], step)
  {
    match step
    case CrashedRecoveryStep(n) => ResolvedIsSame(s, Candidates(s.log)[..n]);
    case RecoverStep(now) => ResolvedIsSame(s, Candidates(s.log));
    case _ =>
  }

  /** In every state of every run, each row carries the run, session, operation, text and creation
      time of the step that first queued it, whatever happened to it since. */
  lemma {:induction false} RowsStayAsQueued(outbox: string -> bool, runs: map<string, RunStatus>, steps: seq<Step>,
                                            states: seq<State>, n: nat, inv: string)
    requires IsRun(outbox, runs, steps, states) && n <= |steps| && inv in states[n].rows
    ensures exists k | 0 <= k < n ::
              && steps[k].QueueStep? && steps[k].inv == inv && inv !in states[k].rows
              && QueuedAs(states[n].rows[inv], steps[k])
  {
    assert n > 0;
    assert TakesStep(outbox, steps, states, n - 1);
    StepSameRow(outbox, states[n - 1], steps[n - 1], inv);
    if inv in states[n - 1].rows {
      RowsStayAsQueued(outbox, runs, steps, states, n - 1, inv);
      var k :| 0 <= k < n - 1 && steps[k].QueueStep? && steps[k].inv == inv && inv !in states[k].rows
               && QueuedAs(states[n - 1].rows[inv], steps[k]);
      assert QueuedAs(states[n].rows[inv], steps[k]);
    }
  }
}
