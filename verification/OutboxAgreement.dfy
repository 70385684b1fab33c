/** Safety of whole outbox runs: the outbox table always agrees with the facts in the log,
    however the transactions, crashes and recoveries interleave. */
module OutboxAgreement {
  import opened Journal
  import opened Outbox
  import Retry

  // ------------------------------------------------------ Facts and appending

  lemma {:induction false} FactsConcat(log: seq<Event>, more: seq<Event>, inv: string)
    ensures TerminalFacts(log + more, inv) == TerminalFacts(log, inv) + TerminalFacts(more, inv)
    decreases |more|
  {
    if more == [] {
      assert log + more == log;
    } else {
      var front := more[..|more| - 1];
      assert (log + more)[..|log + more| - 1] == log + front;
      FactsConcat(log, front, inv);
    }
  }

  lemma {:induction false} StartsConcat(log: seq<Event>, more: seq<Event>, inv: string)
    ensures Starts(log + more, inv) == Starts(log, inv) + Starts(more, inv)
    decreases |more|
  {
    if more == [] {
      assert log + more == log;
    } else {
      var front := more[..|more| - 1];
      assert (log + more)[..|log + more| - 1] == log + front;
      StartsConcat(log, front, inv);
    }
  }

  /** Appending events of other kinds or invocations changes no fact of this one. */
  lemma {:induction false} NothingNew(more: seq<Event>, inv: string)
    ensures (forall e <- more :: !IsTerminal(e, inv)) ==> TerminalFacts(more, inv) == []
    ensures (forall e <- more :: !IsStart(e, inv)) ==> Starts(more, inv) == 0
  {
    if more != [] { NothingNew(more[..|more| - 1], inv); }
  }

  lemma {:induction false} FactsMembers(log: seq<Event>, inv: string)
    ensures forall e :: e in TerminalFacts(log, inv) <==> e in log && IsTerminal(e, inv)
  {
    if log != [] {
      var front, last := log[..|log| - 1], log[|log| - 1];
      FactsMembers(front, inv);
      assert log == front + [last];
    }
  }

  /** One entry per terminal event: two positions make two facts. */
  lemma {:induction false} FactsCountPositions(log: seq<Event>, inv: string, j: nat, k: nat)
    requires j < k < |log| && IsTerminal(log[j], inv) && IsTerminal(log[k], inv)
    ensures |TerminalFacts(log, inv)| >= 2
  {
    var front := log[..|log| - 1];
    if k < |log| - 1 {
      FactsCountPositions(front, inv, j, k);
    } else {
      FactsMembers(front, inv);
      assert front[j] in front && front[j] in TerminalFacts(front, inv);
    }
  }

  // ---------------------------------------------------------------- Invariant

  /** The facts that justify a row status: exactly one matching fact for a settled row and
      none for any other. */
  predicate Supports(status: DispatchStatus, facts: seq<Event>) {
    match status
    case Succeeded => |facts| == 1 && facts[0].kind.ReceiptReceived? && facts[0].payload.status == Some(TextSucceeded)
    case Failed => |facts| == 1 && facts[0].kind.ReceiptReceived? && facts[0].payload.status == Some(TextFailed)
    case Unknown => |facts| == 1 && facts[0].kind.OutboxDispatchUnknown?
    case _ => facts == []
  }

  predicate AgreesAt(s: State, inv: string) {
    if inv in s.rows then Supports(s.rows[inv].status, TerminalFacts(s.log, inv))
    else TerminalFacts(s.log, inv) == []
  }

  /** The table agrees with the log on the invocations of the outbox. `outbox` tells the ids
      minted for dispatches from the ids of tools and coding submissions, whose receipts are in
      the same log and have no row. */
  ghost predicate Agreement(outbox: string -> bool, s: State) {
    && (forall inv <- s.rows :: outbox(inv))
    && (forall inv: string | outbox(inv) :: AgreesAt(s, inv))
  }

  /** Every dispatch was started under the run and session of its own row. */
  ghost predicate OwnStarts(s: State) {
    forall k | 0 <= k < |s.log| && s.log[k].kind.DispatchStarted? && s.log[k].correlation.Some? ::
      var inv := s.log[k].correlation.value;
      inv in s.rows && KeyOf(s.log[k]) == Key(inv, Some(s.rows[inv].run), s.rows[inv].session)
  }

  /** The attempt counter is the number of started facts. */
  ghost predicate Counted(s: State) {
    forall inv: string :: Starts(s.log, inv) == Attempts(s, inv)
  }

  ghost predicate Inv(outbox: string -> bool, s: State) {
    Agreement(outbox, s) && OwnStarts(s) && Counted(s)
  }

  /** How a transaction touches the table: at most one row, keeping its run and session. */
  predicate RowChange(rows: map<string, Row>, rows': map<string, Row>, inv: string) {
    && rows'.Keys - {inv} == rows.Keys - {inv}
    && (inv in rows ==> inv in rows' && rows'[inv].run == rows[inv].run && rows'[inv].session == rows[inv].session)
    && forall other <- rows | other != inv :: other in rows' && rows'[other] == rows[other]
  }

  /** The one frame argument behind every transaction: events about one invocation and a
      change of its row leave every other invocation as it was. */
  lemma OneRowStep(outbox: string -> bool, s: State, s': State, inv: string, more: seq<Event>)
    requires Inv(outbox, s) && (inv in s'.rows ==> outbox(inv))
    requires s'.log == s.log + more
    requires RowChange(s.rows, s'.rows, inv)
    requires forall e <- more :: e.correlation == Some(inv)
    requires outbox(inv) ==> AgreesAt(s', inv)
    requires Starts(more, inv) == Attempts(s', inv) - Attempts(s, inv)
    requires forall e <- more | e.kind.DispatchStarted? ::
               inv in s'.rows && KeyOf(e) == Key(inv, Some(s'.rows[inv].run), s'.rows[inv].session)
    ensures Inv(outbox, s')
  {
    forall other: string
      ensures (outbox(other) ==> AgreesAt(s', other)) && Starts(s'.log, other) == Attempts(s', other)
    {
      FactsConcat(s.log, more, other);
      StartsConcat(s.log, more, other);
      NothingNew(more, other);
      assert outbox(other) ==> AgreesAt(s, other);
      assert Starts(s.log, other) == Attempts(s, other);
      if other != inv {
        assert other in s'.rows.Keys - {inv} <==> other in s.rows.Keys - {inv};
      }
    }
    forall other <- s'.rows ensures outbox(other) {
      if other != inv { assert other in s'.rows.Keys - {inv} && other in s.rows.Keys - {inv}; }
    }
    forall k | 0 <= k < |s'.log| && s'.log[k].kind.DispatchStarted? && s'.log[k].correlation.Some?
      ensures var i := s'.log[k].correlation.value;
              i in s'.rows && KeyOf(s'.log[k]) == Key(i, Some(s'.rows[i].run), s'.rows[i].session)
    {
      if k < |s.log| {
        assert s'.log[k] == s.log[k];
        var i := s.log[k].correlation.value;
        assert i in s.rows;
        assert i != inv ==> i in s.rows.Keys - {inv};
      } else {
        assert s'.log[k] == more[k - |s.log|];
      }
    }
  }

  // ------------------------------------------------------ Each transaction

  lemma QueueKeeps(outbox: string -> bool, s: State, inv: string, run: string, session: Option<string>,
                   operation: string, text: Option<string>, now: int)
    requires Inv(outbox, s) && outbox(inv)
    ensures Inv(outbox, Queue(s, inv, run, session, operation, text, now))
  {
    if inv !in s.rows {
      var more := [PlainEvent(OutboxQueued, inv, run, session)];
      FactsConcat(s.log, more, inv);
      assert AgreesAt(s, inv);
      OneRowStep(outbox, s, Queue(s, inv, run, session, operation, text, now), inv, more);
    }
  }

  lemma LeaseKeeps(outbox: string -> bool, s: State, inv: string, now: int)
    requires Inv(outbox, s) && IsNext(s.rows, now, inv)
    ensures Inv(outbox, Lease(s, inv, now))
  {
    var more := [StartedEvent(inv, s.rows[inv].run, s.rows[inv].session)];
    FactsConcat(s.log, more, inv);
    assert AgreesAt(s, inv);
    OneRowStep(outbox, s, Lease(s, inv, now), inv, more);
  }

  /** Only a start under the run and session of its row lets recovery group the dispatches of an
      invocation; `StartThenRetryRecoversExactly` shows what another key leads to. */
  lemma StartKeeps(outbox: string -> bool, s: State, inv: string, run: string, session: Option<string>)
    requires Inv(outbox, s)
    requires inv in s.rows && s.rows[inv].status.Pending? ==> run == s.rows[inv].run && session == s.rows[inv].session
    ensures Inv(outbox, Start(s, inv, run, session).0)
  {
    if inv in s.rows && s.rows[inv].status.Pending? {
      var more := [StartedEvent(inv, run, session)];
      FactsConcat(s.log, more, inv);
      assert AgreesAt(s, inv);
      OneRowStep(outbox, s, Start(s, inv, run, session).0, inv, more);
    }
  }

  lemma ReplyIsHarmless(row: Row, inv: string, run: string, session: Option<string>, e: Event)
    requires e in ReplyEvents(row, inv, run, session)
    ensures IsHarmless(e, inv)
  {
  }

  lemma SucceedTail(s: State, inv: string, status: ReceiptStatus, run: string, session: Option<string>)
    requires inv in s.rows
    ensures var more := SucceedEvents(s, inv, status, run, session);
            && TerminalFacts(more, inv) == [ReceiptEvent(inv, Some(run), session, ReceiptText(status))]
            && Starts(more, inv) == 0
            && forall e <- more :: e.correlation == Some(inv) && !e.kind.DispatchStarted?
  {
    var receipt := ReceiptEvent(inv, Some(run), session, ReceiptText(status));
    var reply := if status.ReceiptSucceeded? then ReplyEvents(s.rows[inv], inv, run, session) else [];
    var done := if RunHasFailed(s, run) then [] else [PlainEvent(RunCompleted, inv, run, session)];
    assert SucceedEvents(s, inv, status, run, session) == [receipt] + (reply + done);
    forall e: Event | e in reply ensures IsHarmless(e, inv) { ReplyIsHarmless(s.rows[inv], inv, run, session, e); }
    HarmlessTail(receipt, reply + done, inv);
  }

  predicate IsHarmless(e: Event, inv: string) {
    e.correlation == Some(inv) && (e.kind.AssistantReplyDelivered? || e.kind.RunCompleted? || e.kind.RunFailed?)
  }

  lemma HarmlessTail(receipt: Event, tail: seq<Event>, inv: string)
    requires IsTerminal(receipt, inv) && !receipt.kind.DispatchStarted? && forall e <- tail :: IsHarmless(e, inv)
    ensures TerminalFacts([receipt] + tail, inv) == [receipt] && Starts([receipt] + tail, inv) == 0
    ensures forall e <- [receipt] + tail :: e.correlation == Some(inv) && !e.kind.DispatchStarted?
  {
    FactsConcat([receipt], tail, inv);
    StartsConcat([receipt], tail, inv);
    NothingNew(tail, inv);
    assert [receipt][..0] == [];
  }

  lemma SucceedFacts(s: State, inv: string, status: ReceiptStatus, run: string, session: Option<string>)
    requires InFlight(s, inv) && TerminalFacts(s.log, inv) == []
    ensures TerminalFacts(Succeed(s, inv, status, run, session).0.log, inv)
            == [ReceiptEvent(inv, Some(run), session, ReceiptText(status))]
  {
    SucceedTail(s, inv, status, run, session);
    FactsConcat(s.log, SucceedEvents(s, inv, status, run, session), inv);
  }

  lemma SucceedKeeps(outbox: string -> bool, s: State, inv: string, run: string, session: Option<string>)
    requires Inv(outbox, s) && InFlight(s, inv) && TerminalFacts(s.log, inv) == []
    ensures Inv(outbox, Succeed(s, inv, ReceiptSucceeded, run, session).0)
  {
    SucceedTail(s, inv, ReceiptSucceeded, run, session);
    SucceedFacts(s, inv, ReceiptSucceeded, run, session);
    OneRowStep(outbox, s, Succeed(s, inv, ReceiptSucceeded, run, session).0, inv,
               SucceedEvents(s, inv, ReceiptSucceeded, run, session));
  }

  /** Settling a dispatch as succeeded keeps the agreement exactly when no row is in flight or
      the receipt really says succeeded. */
  lemma SucceedKeepsExactly(outbox: string -> bool, s: State, inv: string, status: ReceiptStatus, run: string,
                            session: Option<string>)
    requires Inv(outbox, s)
    ensures var s' := Succeed(s, inv, status, run, session).0;
            && (Agreement(outbox, s') <==> (InFlight(s, inv) ==> status.ReceiptSucceeded?))
            && (Agreement(outbox, s') ==> Inv(outbox, s'))
  {
    if InFlight(s, inv) {
      assert outbox(inv) && AgreesAt(s, inv);
      if status.ReceiptSucceeded? {
        SucceedKeeps(outbox, s, inv, run, session);
      } else {
        SucceedFacts(s, inv, status, run, session);
        assert !AgreesAt(Succeed(s, inv, status, run, session).0, inv);
      }
    }
  }

  lemma FailKeeps(outbox: string -> bool, s: State, inv: string, run: string, session: Option<string>, error: string)
    requires Inv(outbox, s)
    ensures Inv(outbox, Fail(s, inv, run, session, error).0)
  {
    if InFlight(s, inv) {
      var receipt := ReceiptEvent(inv, Some(run), session, TextFailed);
      var failed := PlainEvent(RunFailed, inv, run, session);
      assert [receipt, failed] == [receipt] + [failed];
      HarmlessTail(receipt, [failed], inv);
      FactsConcat(s.log, [receipt, failed], inv);
      assert AgreesAt(s, inv);
      OneRowStep(outbox, s, Fail(s, inv, run, session, error).0, inv, [receipt, failed]);
    }
  }

  lemma MarkUnknownKeeps(outbox: string -> bool, s: State, inv: string, run: string, session: Option<string>,
                         error: string)
    requires Inv(outbox, s)
    ensures Inv(outbox, MarkUnknown(s, inv, run, session, error).0)
  {
    if InFlight(s, inv) {
      var more := [UnknownEvent(inv, Some(run), session)];
      FactsConcat(s.log, more, inv);
      assert AgreesAt(s, inv);
      OneRowStep(outbox, s, MarkUnknown(s, inv, run, session, error).0, inv, more);
    }
  }

  predicate Settled(status: DispatchStatus) {
    status.Succeeded? || status.Failed? || status.Unknown?
  }

  /** What the two unguarded marking transactions need from their caller. */
  predicate NotSettled(s: State, inv: string) {
    inv in s.rows ==> !Settled(s.rows[inv].status)
  }

  /** A row marked without a guard, and one event that is neither a start nor a terminal fact. */
  lemma MarkKeepsExactly(outbox: string -> bool, s: State, s': State, inv: string, e: Event)
    requires Inv(outbox, s) && s'.log == s.log + [e] && e.correlation == Some(inv)
    requires e.kind.OutboxDispatchDead? || e.kind.OutboxDispatchFailed?
    requires RowChange(s.rows, s'.rows, inv) && (inv in s'.rows <==> inv in s.rows)
             && Attempts(s', inv) == Attempts(s, inv)
    requires inv in s'.rows ==> s'.rows[inv].status.Dead? || s'.rows[inv].status.RetryableFailed?
    ensures (Agreement(outbox, s') <==> NotSettled(s, inv)) && (Agreement(outbox, s') ==> Inv(outbox, s'))
  {
    FactsConcat(s.log, [e], inv);
    StartsConcat(s.log, [e], inv);
    NothingNew([e], inv);
    assert inv in s.rows ==> AgreesAt(s, inv);
    if NotSettled(s, inv) {
      assert outbox(inv) ==> AgreesAt(s, inv);
      OneRowStep(outbox, s, s', inv, [e]);
    } else {
      assert !AgreesAt(s', inv);
    }
  }

  lemma MarkDeadKeepsExactly(outbox: string -> bool, s: State, inv: string, run: string, session: Option<string>,
                             error: string)
    requires Inv(outbox, s)
    ensures var s' := MarkDead(s, inv, run, session, error);
            (Agreement(outbox, s') <==> NotSettled(s, inv)) && (Agreement(outbox, s') ==> Inv(outbox, s'))
  {
    MarkKeepsExactly(outbox, s, MarkDead(s, inv, run, session, error), inv,
                     PlainEvent(OutboxDispatchDead, inv, run, session));
  }

  /** Marking for retry keeps the agreement exactly when the row is not already settled. */
  lemma MarkRetryableKeepsExactly(outbox: string -> bool, s: State, inv: string, run: string, session: Option<string>,
                                  error: string, policy: Retry.RetryPolicy, now: int)
    requires Inv(outbox, s)
    ensures var s' := MarkRetryable(s, inv, run, session, error, policy, now);
            (Agreement(outbox, s') <==> NotSettled(s, inv)) && (Agreement(outbox, s') ==> Inv(outbox, s'))
  {
    if Attempts(s, inv) >= policy.maxOutboxAttempts {
      MarkDeadKeepsExactly(outbox, s, inv, run, session, error);
    } else {
      MarkKeepsExactly(outbox, s, MarkRetryable(s, inv, run, session, error, policy, now), inv,
                       PlainEvent(OutboxDispatchFailed, inv, run, session));
    }
  }

  // ------------------------------------------------- Recovery inside a run

  lemma {:induction false} CandidateKeys(log: seq<Event>, n: nat)
    requires n <= |log|
    ensures forall key :: key in CandidatesUpTo(log, n) <==>
              exists k :: 0 <= k < n && Unresolved(log, log[k]) && KeyOf(log[k]) == key
    ensures forall i, j | 0 <= i < j < |CandidatesUpTo(log, n)| ::
              CandidatesUpTo(log, n)[i] != CandidatesUpTo(log, n)[j]
  {
    if n > 0 {
      CandidateKeys(log, n - 1);
      var before, keys := CandidatesUpTo(log, n - 1), CandidatesUpTo(log, n);
      forall key
        ensures key in keys <==> exists k :: 0 <= k < n && Unresolved(log, log[k]) && KeyOf(log[k]) == key
      {
        if exists k :: 0 <= k < n && Unresolved(log, log[k]) && KeyOf(log[k]) == key {
          var k :| 0 <= k < n && Unresolved(log, log[k]) && KeyOf(log[k]) == key;
          if k < n - 1 { assert key in before; }
        }
        if key in keys && key !in before {
          assert Unresolved(log, log[n - 1]) && KeyOf(log[n - 1]) == key;
        }
      }
    }
  }

  /** In a run each unresolved invocation is one candidate: all its dispatches share a key. */
  lemma CandidatesDistinctInvocations(s: State, i: nat, j: nat)
    requires OwnStarts(s)
    requires i < j < |Candidates(s.log)|
    ensures Candidates(s.log)[i].inv != Candidates(s.log)[j].inv
  {
    CandidateKeys(s.log, |s.log|);
    var keys := Candidates(s.log);
    assert keys[i] in keys && keys[j] in keys;
    var a :| 0 <= a < |s.log| && Unresolved(s.log, s.log[a]) && KeyOf(s.log[a]) == keys[i];
    var b :| 0 <= b < |s.log| && Unresolved(s.log, s.log[b]) && KeyOf(s.log[b]) == keys[j];
  }

  lemma RecoverOneKeeps(outbox: string -> bool, s: State, key: Key)
    requires Inv(outbox, s) && key.inv in s.rows && TerminalFacts(s.log, key.inv) == []
    ensures Inv(outbox, RecoverOne(s, key))
  {
    var more := [UnknownEvent(key.inv, key.run, key.session)];
    FactsConcat(s.log, more, key.inv);
    assert AgreesAt(s, key.inv);
    OneRowStep(outbox, s, RecoverOne(s, key), key.inv, more);
  }

  lemma CandidateIsUnresolved(s: State, key: Key)
    requires OwnStarts(s) && key in Candidates(s.log)
    ensures key.inv in s.rows && TerminalFacts(s.log, key.inv) == []
  {
    CandidateKeys(s.log, |s.log|);
    var k :| 0 <= k < |s.log| && Unresolved(s.log, s.log[k]) && KeyOf(s.log[k]) == key;
  }

  lemma OthersStayOpen(s: State, mid: State, n: nat)
    requires OwnStarts(s) && n < |Candidates(s.log)|
    requires forall k | n <= k < |Candidates(s.log)| :: TerminalFacts(mid.log, Candidates(s.log)[k].inv) == []
    ensures forall k | n < k < |Candidates(s.log)| ::
              TerminalFacts(RecoverOne(mid, Candidates(s.log)[n]).log, Candidates(s.log)[k].inv) == []
  {
    var keys := Candidates(s.log);
    forall k | n < k < |keys| ensures TerminalFacts(RecoverOne(mid, keys[n]).log, keys[k].inv) == [] {
      CandidatesDistinctInvocations(s, n, k);
      FactsConcat(mid.log, [UnknownEvent(keys[n].inv, keys[n].run, keys[n].session)], keys[k].inv);
    }
  }

  /** Every prefix of the recovery transactions keeps the invariant, so a crash in the middle of
      recovery is as good as a crash before it. */
  lemma {:induction false} RecoverPrefixKeeps(outbox: string -> bool, s: State, n: nat)
    requires Inv(outbox, s) && n <= |Candidates(s.log)|
    ensures var s' := RecoverAll(s, Candidates(s.log)[..n]);
            && Inv(outbox, s') && s'.rows.Keys == s.rows.Keys
            && forall k | n <= k < |Candidates(s.log)| :: TerminalFacts(s'.log, Candidates(s.log)[k].inv) == []
  {
    var keys := Candidates(s.log);
    if n == 0 {
      forall k | 0 <= k < |keys| ensures TerminalFacts(s.log, keys[k].inv) == [] {
        CandidateIsUnresolved(s, keys[k]);
      }
    } else {
      RecoverPrefixKeeps(outbox, s, n - 1);
      var mid := RecoverAll(s, keys[..n - 1]);
      assert keys[..n][..n - 1] == keys[..n - 1];
      CandidateIsUnresolved(s, keys[n - 1]);
      RecoverOneKeeps(outbox, mid, keys[n - 1]);
      OthersStayOpen(s, mid, n - 1);
    }
  }

  /** In a run the repair phase has nothing to do: an in-flight row has no terminal fact. */
  lemma NoStaleInRun(outbox: string -> bool, s: State, now: int)
    requires Agreement(outbox, s)
    ensures StaleSet(s, now) == {}
  {
    forall inv <- s.rows ensures !IsStale(s.rows[inv], TerminalFacts(s.log, inv), now) {
      assert AgreesAt(s, inv);
    }
  }

  // ---------------------------------------------------------------- Runs

  datatype Step =
    | QueueStep(inv: string, run: string, session: Option<string>, operation: string, text: Option<string>, now: int)
    | LeaseStep(inv: string, now: int)
    | StartStep(inv: string, run: string, session: Option<string>)
    | SucceedStep(inv: string, status: ReceiptStatus, run: string, session: Option<string>)
    | FailStep(inv: string, run: string, session: Option<string>, error: string)
    | UnknownStep(inv: string, run: string, session: Option<string>, error: string)
    | RetryStep(inv: string, run: string, session: Option<string>, error: string, policy: Retry.RetryPolicy, now: int)
    | DeadStep(inv: string, run: string, session: Option<string>, error: string)
    | CrashedRecoveryStep(done: nat)
    | RecoverStep(now: int)
    | OtherAppendStep(e: Event)

  function Apply(outbox: string -> bool, s: State, step: Step): State
    requires Enabled(outbox, s, step)
  {
    match step
    case QueueStep(inv, run, session, operation, text, now) => Queue(s, inv, run, session, operation, text, now)
    case LeaseStep(inv, now) => Lease(s, inv, now)
    case StartStep(inv, run, session) => Start(s, inv, run, session).0
    case SucceedStep(inv, status, run, session) => Succeed(s, inv, status, run, session).0
    case FailStep(inv, run, session, error) => Fail(s, inv, run, session, error).0
    case UnknownStep(inv, run, session, error) => MarkUnknown(s, inv, run, session, error).0
    case RetryStep(inv, run, session, error, policy, now) => MarkRetryable(s, inv, run, session, error, policy, now)
    case DeadStep(inv, run, session, error) => MarkDead(s, inv, run, session, error)
    case CrashedRecoveryStep(n) => RecoverAll(s, Candidates(s.log)[..n])
    case RecoverStep(now) => Recover(s, now)
    case OtherAppendStep(e) => s.(log := s.log + [e])
  }

  /** What the callers of the transactions guarantee. For the settling and marking transactions
      the `KeepsExactly` lemmas show that the condition is the weakest one. Everybody else may
      write any event that is not a start, receipts of tools and coding submissions included,
      except a terminal fact about a dispatch. */
  ghost predicate Enabled(outbox: string -> bool, s: State, step: Step) {
    match step
    case QueueStep(inv, _, _, _, _, _) => outbox(inv)
    case LeaseStep(inv, now) => IsNext(s.rows, now, inv)
    case StartStep(inv, run, session) =>
      inv in s.rows && s.rows[inv].status.Pending? ==> run == s.rows[inv].run && session == s.rows[inv].session
    case SucceedStep(inv, status, _, _) => InFlight(s, inv) ==> status.ReceiptSucceeded?
    case RetryStep(inv, _, _, _, _, _) => NotSettled(s, inv)
    case DeadStep(inv, _, _, _) => NotSettled(s, inv)
    case CrashedRecoveryStep(n) => n <= |Candidates(s.log)|
    case OtherAppendStep(e) => !e.kind.DispatchStarted? && forall inv | outbox(inv) :: !IsTerminal(e, inv)
    case _ => true
  }

  lemma StepKeeps(outbox: string -> bool, s: State, step: Step)
    requires Inv(outbox, s) && Enabled(outbox, s, step)
    ensures Inv(outbox, Apply(outbox, s, step))
  {
    match step
    case QueueStep(inv, run, session, operation, text, now) =>
      QueueKeeps(outbox, s, inv, run, session, operation, text, now);
    case LeaseStep(inv, now) => LeaseKeeps(outbox, s, inv, now);
    case StartStep(inv, run, session) => StartKeeps(outbox, s, inv, run, session);
    case SucceedStep(inv, status, run, session) => SucceedKeepsExactly(outbox, s, inv, status, run, session);
    case FailStep(inv, run, session, error) => FailKeeps(outbox, s, inv, run, session, error);
    case UnknownStep(inv, run, session, error) => MarkUnknownKeeps(outbox, s, inv, run, session, error);
    case RetryStep(inv, run, session, error, policy, now) =>
      MarkRetryableKeepsExactly(outbox, s, inv, run, session, error, policy, now);
    case DeadStep(inv, run, session, error) => MarkDeadKeepsExactly(outbox, s, inv, run, session, error);
    case CrashedRecoveryStep(n) => RecoverPrefixKeeps(outbox, s, n);
    case RecoverStep(now) =>
      var keys := Candidates(s.log);
      RecoverPrefixKeeps(outbox, s, |keys|);
      assert keys[..|keys|] == keys;
      var mid := RecoverAll(s, keys);
      NoStaleInRun(outbox, mid, now);
      assert Repair(mid, {}).rows == mid.rows;
    case OtherAppendStep(e) => OtherAppendKeeps(outbox, s, e);
  }

  lemma OtherAppendKeeps(outbox: string -> bool, s: State, e: Event)
    requires Inv(outbox, s) && Enabled(outbox, s, OtherAppendStep(e))
    ensures Inv(outbox, s.(log := s.log + [e]))
  {
    var s' := s.(log := s.log + [e]);
    forall inv: string ensures (outbox(inv) ==> AgreesAt(s', inv)) && Starts(s'.log, inv) == Attempts(s', inv) {
      FactsConcat(s.log, [e], inv);
      StartsConcat(s.log, [e], inv);
      NothingNew([e], inv);
      assert outbox(inv) ==> AgreesAt(s, inv);
    }
    forall k | 0 <= k < |s'.log| && s'.log[k].kind.DispatchStarted? && s'.log[k].correlation.Some?
      ensures var i := s'.log[k].correlation.value;
              i in s'.rows && KeyOf(s'.log[k]) == Key(i, Some(s'.rows[i].run), s'.rows[i].session)
    {
      assert k < |s.log| && s'.log[k] == s.log[k];
    }
  }

  /** `states` is what a kernel that starts with an empty outbox goes through under `steps`. */
  ghost predicate IsRun(outbox: string -> bool, runs: map<string, RunStatus>, steps: seq<Step>, states: seq<State>) {
    && |states| == |steps| + 1
    && states[0] == State([], map[], runs)
    && forall k | 0 <= k < |steps| :: TakesStep(outbox, steps, states, k)
  }

  ghost predicate TakesStep(outbox: string -> bool, steps: seq<Step>, states: seq<State>, k: nat)
    requires |states| == |steps| + 1 && k < |steps|
  {
    Enabled(outbox, states[k], steps[k]) && states[k + 1] == Apply(outbox, states[k], steps[k])
  }

  lemma {:induction false} RunInvariant(outbox: string -> bool, runs: map<string, RunStatus>, steps: seq<Step>,
                                        states: seq<State>, n: nat)
    requires IsRun(outbox, runs, steps, states) && n <= |steps|
    ensures Inv(outbox, states[n])
  {
    if n == 0 {
      assert forall inv: string :: AgreesAt(states[0], inv);
    } else {
      RunInvariant(outbox, runs, steps, states, n - 1);
      assert TakesStep(outbox, steps, states, n - 1);
      StepKeeps(outbox, states[n - 1], steps[n - 1]);
    }
  }

  /** The log holds a fact of this shape about the invocation. */
  ghost predicate Logged(log: seq<Event>, inv: string, kind: Kind, status: Option<StatusText>) {
    exists k :: 0 <= k < |log| && log[k].correlation == Some(inv) && log[k].kind == kind
                && (status.Some? ==> log[k].payload.status == status)
  }

  /** The main theorem. In every state of every run, whatever receipts tools and coding
      submissions write in between: a dispatch has at most one terminal fact; its row says
      succeeded, failed or unknown exactly when the log holds the matching fact; and the health
      view counts no drift. */
  lemma TableAgreesWithLog(outbox: string -> bool, runs: map<string, RunStatus>, steps: seq<Step>, states: seq<State>,
                           s: State)
    requires IsRun(outbox, runs, steps, states) && s in states
    ensures forall inv <- s.rows :: outbox(inv)
    ensures forall inv, j, k | outbox(inv) && 0 <= j < |s.log| && 0 <= k < |s.log|
                             && IsTerminal(s.log[j], inv) && IsTerminal(s.log[k], inv) :: j == k
    ensures forall inv: string | outbox(inv) ::
              && ((inv in s.rows && s.rows[inv].status.Succeeded?) <==>
                  Logged(s.log, inv, ReceiptReceived, Some(TextSucceeded)))
              && ((inv in s.rows && s.rows[inv].status.Failed?) <==>
                  Logged(s.log, inv, ReceiptReceived, Some(TextFailed)))
              && ((inv in s.rows && s.rows[inv].status.Unknown?) <==> Logged(s.log, inv, OutboxDispatchUnknown, None))
    ensures DriftSet(s) == {}
  {
    var n :| 0 <= n < |states| && states[n] == s;
    RunInvariant(outbox, runs, steps, states, n);
    forall inv, j, k | outbox(inv) && 0 <= j < |s.log| && 0 <= k < |s.log|
                       && IsTerminal(s.log[j], inv) && IsTerminal(s.log[k], inv)
      ensures j == k
    {
      assert AgreesAt(s, inv);
      if j < k { FactsCountPositions(s.log, inv, j, k); }
      if k < j { FactsCountPositions(s.log, inv, k, j); }
    }
    forall inv: string | outbox(inv)
      ensures (inv in s.rows && s.rows[inv].status.Succeeded?) <==>
              Logged(s.log, inv, ReceiptReceived, Some(TextSucceeded))
      ensures (inv in s.rows && s.rows[inv].status.Failed?) <==> Logged(s.log, inv, ReceiptReceived, Some(TextFailed))
      ensures (inv in s.rows && s.rows[inv].status.Unknown?) <==> Logged(s.log, inv, OutboxDispatchUnknown, None)
    {
      AgreementReadsLog(outbox, s, inv);
    }
    forall inv <- s.rows ensures !Drifts(s.rows[inv].status, TerminalFacts(s.log, inv)) {
      assert AgreesAt(s, inv);
      var facts := TerminalFacts(s.log, inv);
      assert facts != [] ==> facts[0] in facts;
    }
  }

  lemma AgreementReadsLog(outbox: string -> bool, s: State, inv: string)
    requires Agreement(outbox, s) && outbox(inv)
    ensures (inv in s.rows && s.rows[inv].status.Succeeded?) <==>
            Logged(s.log, inv, ReceiptReceived, Some(TextSucceeded))
    ensures (inv in s.rows && s.rows[inv].status.Failed?) <==> Logged(s.log, inv, ReceiptReceived, Some(TextFailed))
    ensures (inv in s.rows && s.rows[inv].status.Unknown?) <==> Logged(s.log, inv, OutboxDispatchUnknown, None)
  {
    var facts := TerminalFacts(s.log, inv);
    FactsMembers(s.log, inv);
    assert AgreesAt(s, inv);
    if facts != [] {
      assert facts[0] in facts;
      var k :| 0 <= k < |s.log| && s.log[k] == facts[0];
    }
    forall k | 0 <= k < |s.log| && IsTerminal(s.log[k], inv) ensures facts == [s.log[k]] {
      assert s.log[k] in s.log && s.log[k] in facts;
    }
  }
}
