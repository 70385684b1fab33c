/** What the outbox transactions rely on their callers for: the exact conditions under which the
    table stays in agreement with the log, and runs that end badly without them. */
module OutboxCallers {
  import opened Journal
  import opened Outbox
  import opened OutboxAgreement
  import opened OutboxRecovery
  import Retry

  // --------------------------------------------------- Recovery and dispatch keys

  /** All starts of the invocation are under one run and session. */
  ghost predicate OneKey(log: seq<Event>, inv: string) {
    forall j, k | 0 <= j < |log| && 0 <= k < |log| && IsStart(log[j], inv) && IsStart(log[k], inv) ::
      KeyOf(log[j]) == KeyOf(log[k])
  }

  lemma {:induction false} UnknownEventAt(keys: seq<Key>, i: nat)
    requires i < |keys|
    ensures |UnknownEvents(keys)| == |keys|
    ensures UnknownEvents(keys)[i] == UnknownEvent(keys[i].inv, keys[i].run, keys[i].session)
  {
    UnknownEventsOnly(keys);
    UnknownEventsOnly(keys[..|keys| - 1]);
    if i < |keys| - 1 { UnknownEventAt(keys[..|keys| - 1], i); }
  }

  /** One candidate about the invocation makes one unknown fact. */
  lemma {:induction false} SingleMention(keys: seq<Key>, inv: string, i: nat)
    requires i < |keys| && keys[i].inv == inv && forall j | 0 <= j < |keys| && j != i :: keys[j].inv != inv
    ensures |TerminalFacts(UnknownEvents(keys), inv)| == 1
  {
    var n := |keys| - 1;
    var front, events := keys[..n], UnknownEvents(keys);
    assert events[..|events| - 1] == UnknownEvents(front);
    UnknownFacts(front, inv);
    if i < n {
      SingleMention(front, inv, i);
    } else {
      assert !Mentions(front, inv) by { assert forall key <- front :: key.inv != inv; }
    }
  }

  /** Two candidates about it make two. */
  lemma DoubleMention(keys: seq<Key>, inv: string, i: nat, j: nat)
    requires i < j < |keys| && keys[i].inv == inv && keys[j].inv == inv
    ensures |TerminalFacts(UnknownEvents(keys), inv)| >= 2
  {
    UnknownEventAt(keys, i);
    UnknownEventAt(keys, j);
    FactsCountPositions(UnknownEvents(keys), inv, i, j);
  }

  /** A dangling invocation is one candidate exactly when it has one key. */
  lemma CandidatesOfDangling(log: seq<Event>, inv: string)
    requires Dangling(log, inv)
    ensures |TerminalFacts(UnknownEvents(Candidates(log)), inv)| == 1 <==> OneKey(log, inv)
  {
    var keys := Candidates(log);
    CandidateKeys(log, |log|);
    CandidatesMention(log, inv);
    var key :| key in keys && key.inv == inv;
    var i :| 0 <= i < |keys| && keys[i] == key;
    if OneKey(log, inv) {
      SingleCandidate(log, inv, i);
      SingleMention(keys, inv, i);
    } else {
      TwoCandidates(log, inv);
    }
  }

  lemma SingleCandidate(log: seq<Event>, inv: string, i: nat)
    requires OneKey(log, inv) && i < |Candidates(log)| && Candidates(log)[i].inv == inv
    ensures forall j | 0 <= j < |Candidates(log)| && j != i :: Candidates(log)[j].inv != inv
  {
    var keys := Candidates(log);
    CandidateKeys(log, |log|);
    assert keys[i] in keys;
    forall j | 0 <= j < |keys| && j != i ensures keys[j].inv != inv {
      assert keys[j] in keys;
      var a :| 0 <= a < |log| && Unresolved(log, log[a]) && KeyOf(log[a]) == keys[i];
      var b :| 0 <= b < |log| && Unresolved(log, log[b]) && KeyOf(log[b]) == keys[j];
      assert IsStart(log[a], inv);
    }
  }

  lemma TwoCandidates(log: seq<Event>, inv: string)
    requires TerminalFacts(log, inv) == [] && !OneKey(log, inv)
    ensures |TerminalFacts(UnknownEvents(Candidates(log)), inv)| >= 2
  {
    var keys := Candidates(log);
    CandidateKeys(log, |log|);
    var a, b :| 0 <= a < |log| && 0 <= b < |log| && IsStart(log[a], inv) && IsStart(log[b], inv)
      && KeyOf(log[a]) != KeyOf(log[b]);
    assert Unresolved(log, log[a]) && Unresolved(log, log[b]);
    assert KeyOf(log[a]) in keys && KeyOf(log[b]) in keys;
    var j :| 0 <= j < |keys| && keys[j] == KeyOf(log[a]);
    var k :| 0 <= k < |keys| && keys[k] == KeyOf(log[b]);
    if j < k { DoubleMention(keys, inv, j, k); } else { DoubleMention(keys, inv, k, j); }
  }

  /** What recovery does to an invocation in agreement: its row turns unknown if it dangles, and
      its facts grow by the unknown facts about it. */
  lemma RecoveredAt(s: State, now: int, inv: string)
    requires AgreesAt(s, inv)
    ensures var s' := Recover(s, now);
            && (inv in s'.rows <==> inv in s.rows)
            && (inv in s.rows ==> s'.rows[inv].status == if Dangling(s.log, inv) then Unknown else s.rows[inv].status)
            && TerminalFacts(s'.log, inv)
              == TerminalFacts(s.log, inv) + TerminalFacts(UnknownEvents(Candidates(s.log)), inv)
  {
    RecoverEffect(s, now);
    FactsConcat(s.log, UnknownEvents(Candidates(s.log)), inv);
  }

  lemma RecoveredAgreesExactly(s: State, now: int, inv: string)
    requires AgreesAt(s, inv)
    ensures AgreesAt(Recover(s, now), inv) <==> (Dangling(s.log, inv) ==> inv in s.rows && OneKey(s.log, inv))
  {
    RecoveredAt(s, now, inv);
    UnknownFacts(Candidates(s.log), inv);
    CandidatesMention(s.log, inv);
    if Dangling(s.log, inv) { CandidatesOfDangling(s.log, inv); }
    AgreesAfter(s, Recover(s, now), inv, TerminalFacts(UnknownEvents(Candidates(s.log)), inv));
  }

  /** Adding unknown facts to an invocation in agreement and marking its row unknown keeps the
      agreement exactly when none or, on a row without facts, one is added. */
  lemma AgreesAfter(s: State, s': State, inv: string, added: seq<Event>)
    requires AgreesAt(s, inv) && (inv in s'.rows <==> inv in s.rows)
    requires forall e <- added :: e.kind.OutboxDispatchUnknown?
    requires TerminalFacts(s'.log, inv) == TerminalFacts(s.log, inv) + added
    requires added != [] ==> TerminalFacts(s.log, inv) == []
    requires inv in s.rows ==> s'.rows[inv].status == if added != [] then Unknown else s.rows[inv].status
    ensures AgreesAt(s', inv) <==> (added != [] ==> inv in s.rows && |added| == 1)
  {
    if added != [] {
      assert TerminalFacts(s'.log, inv) == added && added[0] in added;
    } else {
      assert TerminalFacts(s'.log, inv) == TerminalFacts(s.log, inv);
    }
  }

  /** From any table and log in agreement, recovery keeps the agreement exactly when every
      dispatch that it resolves has a row and was always started under one run and session. */
  lemma RecoveryKeepsAgreementExactly(outbox: string -> bool, s: State, now: int)
    requires Agreement(outbox, s)
    ensures Agreement(outbox, Recover(s, now)) <==>
            forall inv | outbox(inv) && Dangling(s.log, inv) :: inv in s.rows && OneKey(s.log, inv)
  {
    var s' := Recover(s, now);
    RecoverEffect(s, now);
    forall inv: string | outbox(inv)
      ensures AgreesAt(s', inv) <==> (Dangling(s.log, inv) ==> inv in s.rows && OneKey(s.log, inv))
    {
      RecoveredAgreesExactly(s, now, inv);
    }
  }

  /** The state after a start, a retryable failure and the lease that follows it. */
  function StartRetryLease(s: State, inv: string, run: string, session: Option<string>, error: string,
                           policy: Retry.RetryPolicy, now: int, later: int): State
    requires inv in s.rows
  {
    Lease(MarkRetryable(Start(s, inv, run, session).0, inv, run, session, error, policy, now), inv, later)
  }

  lemma StartRetryLeaseLog(s: State, inv: string, run: string, session: Option<string>, error: string,
                           policy: Retry.RetryPolicy, now: int, later: int)
    requires inv in s.rows && s.rows[inv].status.Pending? && s.rows[inv].attempts + 1 < policy.maxOutboxAttempts
    ensures var s' := StartRetryLease(s, inv, run, session, error, policy, now, later);
            && s'.log == s.log + [StartedEvent(inv, run, session), PlainEvent(OutboxDispatchFailed, inv, run, session),
                                  StartedEvent(inv, s.rows[inv].run, s.rows[inv].session)]
            && s'.rows == s.rows[inv := s'.rows[inv]] && s'.rows[inv].status.Dispatching?
  {
  }

  lemma StartRetryLeaseAgrees(outbox: string -> bool, s: State, s': State, inv: string, more: seq<Event>)
    requires Agreement(outbox, s) && s'.log == s.log + more
    requires forall e <- more :: !e.kind.ReceiptReceived? && !e.kind.OutboxDispatchUnknown?
    requires inv in s.rows && s.rows[inv].status.Pending?
    requires inv in s'.rows && s'.rows == s.rows[inv := s'.rows[inv]] && s'.rows[inv].status.Dispatching?
    ensures Agreement(outbox, s') && TerminalFacts(s'.log, inv) == []
  {
    forall other: string | outbox(other)
      ensures AgreesAt(s', other) && (other == inv ==> TerminalFacts(s'.log, inv) == [])
    {
      FactsConcat(s.log, more, other);
      NothingNew(more, other);
      assert AgreesAt(s, other);
    }
  }

  /** What a start under the wrong run or session leads to: after a retry, recovery of the
      invocation keeps the agreement exactly when the start was under the row's own. */
  lemma StartThenRetryRecoversExactly(outbox: string -> bool, s: State, inv: string, run: string,
                                      session: Option<string>, error: string, policy: Retry.RetryPolicy, now: int,
                                      later: int, atLast: int)
    requires Inv(outbox, s)
    requires inv in s.rows && s.rows[inv].status.Pending? && s.rows[inv].attempts + 1 < policy.maxOutboxAttempts
    ensures var s' := StartRetryLease(s, inv, run, session, error, policy, now, later);
            && Agreement(outbox, s')
            && (Agreement(outbox, Recover(s', atLast)) <==> run == s.rows[inv].run && session == s.rows[inv].session)
  {
    var s' := StartRetryLease(s, inv, run, session, error, policy, now, later);
    var more := [StartedEvent(inv, run, session), PlainEvent(OutboxDispatchFailed, inv, run, session),
                 StartedEvent(inv, s.rows[inv].run, s.rows[inv].session)];
    StartRetryLeaseLog(s, inv, run, session, error, policy, now, later);
    StartRetryLeaseAgrees(outbox, s, s', inv, more);
    if run == s.rows[inv].run && session == s.rows[inv].session {
      OwnStartsRecover(outbox, s, s', more, inv, atLast);
    } else {
      assert s'.log[|s.log|] == more[0] && s'.log[|s.log| + 2] == more[2];
      ForeignStartBreaks(outbox, s', inv, |s.log|, |s.log| + 2, atLast);
    }
  }

  lemma OwnStartsRecover(outbox: string -> bool, s: State, s': State, more: seq<Event>, inv: string, now: int)
    requires Agreement(outbox, s') && OwnStarts(s) && s'.log == s.log + more && inv in s.rows
    requires s'.rows.Keys == s.rows.Keys
    requires forall e <- more | e.kind.DispatchStarted? :: e == StartedEvent(inv, s.rows[inv].run, s.rows[inv].session)
    ensures Agreement(outbox, Recover(s', now))
  {
    OwnKeys(s, s', more, inv);
    RecoveryKeepsAgreementExactly(outbox, s', now);
  }

  lemma ForeignStartBreaks(outbox: string -> bool, s: State, inv: string, j: nat, k: nat, now: int)
    requires outbox(inv) && AgreesAt(s, inv) && TerminalFacts(s.log, inv) == [] && j < |s.log| && k < |s.log|
    requires IsStart(s.log[j], inv) && IsStart(s.log[k], inv) && KeyOf(s.log[j]) != KeyOf(s.log[k])
    ensures !Agreement(outbox, Recover(s, now))
  {
    RecoveredAgreesExactly(s, now, inv);
    assert Dangling(s.log, inv) && !OneKey(s.log, inv);
  }

  lemma OwnKeys(s: State, s': State, more: seq<Event>, inv: string)
    requires OwnStarts(s) && s'.log == s.log + more && inv in s.rows && s'.rows.Keys == s.rows.Keys
    requires forall e <- more | e.kind.DispatchStarted? :: e == StartedEvent(inv, s.rows[inv].run, s.rows[inv].session)
    ensures forall other | Dangling(s'.log, other) :: other in s'.rows && OneKey(s'.log, other)
  {
    forall k, other | 0 <= k < |s'.log| && IsStart(s'.log[k], other)
      ensures other in s.rows && KeyOf(s'.log[k]) == Key(other, Some(s.rows[other].run), s.rows[other].session)
    {
      if k < |s.log| {
        assert s'.log[k] == s.log[k];
      } else {
        assert s'.log[k] == more[k - |s.log|] && s'.log[k] in more;
      }
    }
  }

  // ------------------------------------------------------------- Runs that end badly

  const AnyId: string -> bool := _ => true
  const Limits := Retry.RetryPolicy(3, 1_000, 30_000)
  const S0 := State([], map[], map[])
  const S1 := Queue(S0, "i", "r", None, "op", None, 0)
  const S2 := Lease(S1, "i", 0)
  const S3 := Succeed(S2, "i", ReceiptSucceeded, "r", None).0

  function SampleSteps(): seq<Step> {
    [QueueStep("i", "r", None, "op", None, 0), LeaseStep("i", 0), SucceedStep("i", ReceiptSucceeded, "r", None)]
  }

  lemma SampleRows()
    ensures S1.rows == map["i" := Row("r", None, "op", None, Pending, 0, 0, None, None, 0)]
    ensures S2.rows.Keys == S3.rows.Keys == {"i"} && S3.rows["i"].attempts == 1
    ensures S2.rows["i"].status.Dispatching? && S3.rows["i"].status.Succeeded?
  {
  }

  /** A dispatch that is queued, leased and delivered is a run. */
  lemma SampleIsRun()
    ensures IsRun(AnyId, map[], SampleSteps(), [S0, S1, S2, S3])
  {
    SampleRows();
    var steps, states := SampleSteps(), [S0, S1, S2, S3];
    assert TakesStep(AnyId, steps, states, 0);
    assert TakesStep(AnyId, steps, states, 1);
    assert TakesStep(AnyId, steps, states, 2);
    assert forall k | 0 <= k < |steps| :: TakesStep(AnyId, steps, states, k);
  }

  lemma SampleRun()
    ensures Inv(AnyId, S1) && Inv(AnyId, S2) && Inv(AnyId, S3)
    ensures S1.rows == map["i" := Row("r", None, "op", None, Pending, 0, 0, None, None, 0)]
    ensures S2.rows.Keys == S3.rows.Keys == {"i"} && S3.rows["i"].attempts == 1
    ensures S2.rows["i"].status.Dispatching? && S3.rows["i"].status.Succeeded?
  {
    SampleRows();
    SampleIsRun();
    RunInvariant(AnyId, map[], SampleSteps(), [S0, S1, S2, S3], 1);
    RunInvariant(AnyId, map[], SampleSteps(), [S0, S1, S2, S3], 2);
    RunInvariant(AnyId, map[], SampleSteps(), [S0, S1, S2, S3], 3);
  }

  /** A table with one row that drifts. */
  lemma OnlyDrift(s: State, inv: string)
    requires s.rows.Keys == {inv} && Drifts(s.rows[inv].status, TerminalFacts(s.log, inv))
    ensures DriftSet(s) == {inv}
  {
  }

  lemma MismatchDrifts(s: State, inv: string, run: string, session: Option<string>)
    requires Inv(AnyId, s) && s.rows.Keys == {inv} && InFlight(s, inv)
    ensures var bad := Succeed(s, inv, ReceiptFailed, run, session).0;
            !Agreement(AnyId, bad) && DriftSet(bad) == {inv} && !bad.rows[inv].status.Dispatching?
  {
    var bad := Succeed(s, inv, ReceiptFailed, run, session).0;
    SucceedKeepsExactly(AnyId, s, inv, ReceiptFailed, run, session);
    assert AgreesAt(s, inv);
    SucceedFacts(s, inv, ReceiptFailed, run, session);
    OnlyDrift(bad, inv);
  }

  /** Settling the leased dispatch as succeeded with a receipt that says failed drifts, and the
      drift outlives recovery: the row is not in flight any more, so nothing looks at it. */
  lemma DriftSurvivesRecovery(now: int)
    ensures var bad := Succeed(S2, "i", ReceiptFailed, "r", None).0;
            !Agreement(AnyId, bad) && DriftSet(bad) == {"i"} && DriftSet(Recover(bad, now)) == {"i"}
  {
    SampleRun();
    MismatchDrifts(S2, "i", "r", None);
    DriftAfterRecovery(Succeed(S2, "i", ReceiptFailed, "r", None).0, now);
  }

  lemma MarkedSettledDrifts(s: State, s': State, inv: string, e: Event)
    requires Agreement(AnyId, s) && s.rows.Keys == {inv} && Settled(s.rows[inv].status)
    requires s'.log == s.log + [e] && s'.rows.Keys == {inv} && !Settled(s'.rows[inv].status)
    ensures DriftSet(s') == {inv}
  {
    FactsConcat(s.log, [e], inv);
    assert AgreesAt(s, inv);
    OnlyDrift(s', inv);
  }

  /** Marking a delivered dispatch dead overwrites the row and drifts. */
  lemma DeadAfterSuccess(error: string)
    ensures var bad := MarkDead(S3, "i", "r", None, error); !Agreement(AnyId, bad) && DriftSet(bad) == {"i"}
  {
    SampleRun();
    MarkDeadKeepsExactly(AnyId, S3, "i", "r", None, error);
    MarkedSettledDrifts(S3, MarkDead(S3, "i", "r", None, error), "i", PlainEvent(OutboxDispatchDead, "i", "r", None));
  }

  /** Marking it for retry drifts too, and hands the delivered dispatch out a second time. */
  lemma RetryAfterSuccess(error: string)
    ensures var bad := MarkRetryable(S3, "i", "r", None, error, Limits, 0);
            && !Agreement(AnyId, bad) && DriftSet(bad) == {"i"}
            && exists later :: IsNext(bad.rows, later, "i")
  {
    SampleRun();
    var bad := MarkRetryable(S3, "i", "r", None, error, Limits, 0);
    MarkRetryableKeepsExactly(AnyId, S3, "i", "r", None, error, Limits, 0);
    MarkedSettledDrifts(S3, bad, "i", PlainEvent(OutboxDispatchFailed, "i", "r", None));
    assert IsNext(bad.rows, bad.rows["i"].availableAt, "i");
  }

  /** A start under another run, a retry and a lease leave table and log in agreement, and the
      recovery that follows breaks it. */
  lemma ForeignStartWitness(error: string, now: int)
    ensures var bad := StartRetryLease(S1, "i", "other", None, error, Limits, 0, 0);
            Agreement(AnyId, bad) && !Agreement(AnyId, Recover(bad, now))
  {
    SampleRun();
    StartThenRetryRecoversExactly(AnyId, S1, "i", "other", None, error, Limits, 0, 0, now);
  }
}
