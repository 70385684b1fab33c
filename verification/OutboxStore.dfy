/** The outbox tables updated in place, transaction by transaction, and the startup recovery
    that walks over them. Every method is tied to the step of the same name in `Outbox`. */
module OutboxStore {
  import opened Journal
  import opened Outbox
  import Retry

  class Store {
    var log: seq<Event>
    var rows: map<string, Row>
    var runs: map<string, RunStatus>

    ghost function View(): State
      reads this
    {
      State(log, rows, runs)
    }

    constructor (runs: map<string, RunStatus>)
      ensures View() == State([], map[], runs)
    {
      log, rows := [], map[];
      this.runs := runs;
    }

    method Append(kind: Kind, run: Option<string>, session: Option<string>, correlation: Option<string>,
                  payload: Payload)
      modifies this`log
      ensures log == old(log) + [Event(kind, run, session, correlation, payload)]
    {
      log := log + [Event(kind, run, session, correlation, payload)];
    }

    method SetRunStatus(run: string, status: RunStatus)
      modifies this`runs
      ensures runs == SetRun(old(runs), run, status)
    {
      if run in runs {
        runs := runs[run := status];
      }
    }

    method QueueOutboxDispatch(inv: string, run: string, session: Option<string>, operation: string,
                               text: Option<string>, now: int)
      modifies this
      ensures View() == Queue(old(View()), inv, run, session, operation, text, now)
    {
      if inv !in rows {
        rows := rows[inv := Row(run, session, operation, text, Pending, 0, now, None, None, now)];
        Append(OutboxQueued, Some(run), session, Some(inv), Payload(invocationId := Some(inv)));
      }
    }

    /** Scan the ready rows for the earliest one. */
    method SelectReady(now: int) returns (next: Option<string>)
      ensures next.Some? ==> IsNext(rows, now, next.value)
      ensures next.None? ==> forall inv <- rows :: !Ready(rows[inv], now)
    {
      next := None;
      var rest := rows.Keys;
      while rest != {}
        invariant rest <= rows.Keys
        invariant next.None? ==> forall inv <- rows.Keys - rest :: !Ready(rows[inv], now)
        invariant next.Some? ==> next.value in rows && Ready(rows[next.value], now)
        invariant next.Some? ==> forall inv <- rows.Keys - rest | Ready(rows[inv], now) ::
                    Earlier(rows[next.value], rows[inv])
        decreases rest
      {
        var inv :| inv in rest;
        if Ready(rows[inv], now) && (next.None? || !Earlier(rows[next.value], rows[inv])) {
          next := Some(inv);
        }
        rest := rest - {inv};
      }
      assert rows.Keys - rest == rows.Keys;
    }

    predicate Earlier(a: Row, b: Row) {
      a.availableAt < b.availableAt || (a.availableAt == b.availableAt && a.createdAt <= b.createdAt)
    }

    method LeaseNextOutboxDispatch(now: int) returns (leased: Option<string>)
      modifies this
      ensures leased.None? ==> View() == old(View()) && forall inv <- rows :: !Ready(rows[inv], now)
      ensures leased.Some? ==> IsNext(old(rows), now, leased.value) && View() == Lease(old(View()), leased.value, now)
    {
      leased := SelectReady(now);
      if leased.Some? {
        var inv := leased.value;
        var row := rows[inv];
        rows := rows[inv := row.(status := Dispatching, attempts := row.attempts + 1, lock := Some(now + LEASE_MS))];
        Append(DispatchStarted, Some(row.run), row.session, Some(inv), Payload());
      }
    }

    method StartOutboxDispatch(inv: string, run: string, session: Option<string>) returns (r: Result<()>)
      modifies this
      ensures (View(), r) == Start(old(View()), inv, run, session)
    {
      if inv !in rows || !rows[inv].status.Pending? {
        return Err(OutboxDispatchNotStartable);
      }
      rows := rows[inv := rows[inv].(status := Dispatching, attempts := rows[inv].attempts + 1)];
      Append(DispatchStarted, Some(run), session, Some(inv), Payload());
      r := Ok(());
    }

    method SucceedOutboxDispatch(inv: string, status: ReceiptStatus, run: string, session: Option<string>)
      returns (r: Result<()>)
      modifies this
      ensures (View(), r) == Succeed(old(View()), inv, status, run, session)
    {
      if inv !in rows || !rows[inv].status.Dispatching? {
        return Err(OutboxTerminalTransitionNotAllowed);
      }
      rows := rows[inv := rows[inv].(status := Succeeded)];
      Append(ReceiptReceived, Some(run), session, Some(inv), Payload(status := Some(ReceiptText(status))));
      if status.ReceiptSucceeded? && session.Some? {
        RecordAssistantReply(inv, run, session.value);
      }
      if !(run in runs && runs[run].FailedRun?) {
        SetRunStatus(run, CompletedRun);
        Append(RunCompleted, Some(run), session, Some(inv), Payload(invocationId := Some(inv)));
      }
      assert log == old(log) + SucceedEvents(old(View()), inv, status, run, session);
      r := Ok(());
    }

    method RecordAssistantReply(inv: string, run: string, session: string)
      requires inv in rows
      modifies this`log
      ensures log == old(log) + ReplyEvents(rows[inv], inv, run, Some(session))
    {
      var row := rows[inv];
      if row.operation != "stdout.send_text" && row.operation != "feishu.send_message" {
        return;
      }
      if row.text.Some? {
        Append(AssistantReplyDelivered, Some(run), Some(session), Some(inv),
               Payload(sessionId := Some(session), runId := Some(run), invocationId := Some(inv), text := row.text));
      }
    }

    method FailOutboxDispatch(inv: string, run: string, session: Option<string>, error: string) returns (r: Result<()>)
      modifies this
      ensures (View(), r) == Fail(old(View()), inv, run, session, error)
    {
      if inv !in rows || !rows[inv].status.Dispatching? {
        return Err(OutboxTerminalTransitionNotAllowed);
      }
      rows := rows[inv := rows[inv].(status := Failed, lock := None, lastError := Some(error))];
      Append(ReceiptReceived, Some(run), session, Some(inv), Payload(status := Some(TextFailed)));
      SetRunStatus(run, FailedRun);
      Append(RunFailed, Some(run), session, Some(inv), Payload(invocationId := Some(inv)));
      assert log == old(log) + [ReceiptEvent(inv, Some(run), session, TextFailed),
                                PlainEvent(RunFailed, inv, run, session)];
      r := Ok(());
    }

    method UnknownOutboxDispatch(inv: string, run: string, session: Option<string>, error: string)
      returns (r: Result<()>)
      modifies this
      ensures (View(), r) == MarkUnknown(old(View()), inv, run, session, error)
    {
      if inv !in rows || !rows[inv].status.Dispatching? {
        return Err(OutboxTerminalTransitionNotAllowed);
      }
      rows := rows[inv := rows[inv].(status := Unknown, lock := None, lastError := Some(error))];
      Append(OutboxDispatchUnknown, Some(run), session, Some(inv),
             Payload(invocationId := Some(inv), status := Some(TextOther)));
      r := Ok(());
    }

    method MarkOutboxRetryableFailed(inv: string, run: string, session: Option<string>, error: string,
                                     policy: Retry.RetryPolicy, now: int)
      modifies this
      ensures View() == MarkRetryable(old(View()), inv, run, session, error, policy, now)
    {
      var attempts := if inv in rows then rows[inv].attempts else 0;
      if attempts >= policy.maxOutboxAttempts {
        MarkOutboxDead(inv, run, session, error);
        return;
      }
      var availableAt := now + Backoff(attempts, policy);
      Append(OutboxDispatchFailed, Some(run), session, Some(inv), Payload(invocationId := Some(inv)));
      if inv in rows {
        rows := rows[inv := rows[inv].(status := RetryableFailed, lock := None, lastError := Some(error),
                                       availableAt := availableAt)];
      }
    }

    method MarkOutboxDead(inv: string, run: string, session: Option<string>, error: string)
      modifies this
      ensures View() == MarkDead(old(View()), inv, run, session, error)
    {
      Append(OutboxDispatchDead, Some(run), session, Some(inv), Payload(invocationId := Some(inv)));
      if inv in rows {
        rows := rows[inv := rows[inv].(status := Dead, lock := None, lastError := Some(error))];
      }
    }

    // -------------------------------------------------------------- Recovery

    method UnknownInvocations() returns (keys: seq<Key>)
      ensures keys == Candidates(log)
    {
      var events := log;
      keys := [];
      for n := 0 to |events|
        invariant keys == CandidatesUpTo(events, n)
      {
        keys := AddCandidate(keys, events, events[n]);
        assert keys == CandidatesUpTo(events, n + 1);
      }
    }

    /** The in-flight rows with an expired or missing lease and a terminal fact in the log, each
        with the status that fact implies. */
    method StaleDispatchingWithTerminalJournal(now: int) returns (stale: map<string, DispatchStatus>)
      ensures stale.Keys == StaleSet(View(), now)
      ensures forall inv <- stale :: stale[inv] == RepairTarget(TerminalFacts(log, inv))
    {
      stale := map[];
      var rest := rows.Keys;
      while rest != {}
        invariant rest <= rows.Keys
        invariant forall inv <- stale :: inv in rows && stale[inv] == RepairTarget(TerminalFacts(log, inv))
        invariant forall inv <- rows.Keys - rest ::
                    inv in stale <==> IsStale(rows[inv], TerminalFacts(log, inv), now)
        invariant forall inv <- stale :: inv !in rest
        decreases rest
      {
        var inv :| inv in rest;
        var facts := TerminalFacts(log, inv);
        if IsStale(rows[inv], facts, now) {
          stale := stale[inv := ClassifyTerminalFact(LatestKind(facts), LatestReceipt(facts))];
        }
        rest := rest - {inv};
      }
      assert rows.Keys - rest == rows.Keys;
    }

    method ResolveOne(key: Key)
      modifies this
      ensures View() == RecoverOne(old(View()), key)
    {
      Append(OutboxDispatchUnknown, key.run, key.session, Some(key.inv),
             Payload(invocationId := Some(key.inv), status := Some(TextOther)));
      if key.inv in rows {
        rows := rows[key.inv := rows[key.inv].(status := Unknown, lock := None)];
      }
      if key.run.Some? {
        SetRunStatus(key.run.value, UnknownRun);
      }
    }

    /** One guarded update per listed row. */
    method ApplyRepairs(stale: map<string, DispatchStatus>)
      requires forall inv <- stale :: inv in rows && rows[inv].status.Dispatching?
      modifies this`rows
      ensures rows.Keys == old(rows.Keys)
      ensures forall inv <- rows ::
                rows[inv]
                == if inv in stale then old(rows[inv]).(status := stale[inv], lock := None) else old(rows[inv])
    {
      ghost var before := rows;
      var rest := stale.Keys;
      while rest != {}
        invariant rest <= stale.Keys
        invariant rows.Keys == before.Keys
        invariant forall inv <- rows ::
                    rows[inv] == if inv in stale && inv !in rest then before[inv].(status := stale[inv], lock := None)
                                 else before[inv]
        decreases rest
      {
        var inv :| inv in rest;
        if rows[inv].status.Dispatching? {
          rows := rows[inv := rows[inv].(status := stale[inv], lock := None)];
        }
        rest := rest - {inv};
      }
    }

    method RepairStale(now: int) returns (repaired: nat)
      modifies this
      ensures View() == Repair(old(View()), StaleSet(old(View()), now))
      ensures repaired == |StaleSet(old(View()), now)|
    {
      ghost var before := View();
      var stale := StaleDispatchingWithTerminalJournal(now);
      ApplyRepairs(stale);
      repaired := |stale.Keys|;
      assert rows == Repair(before, stale.Keys).rows;
    }

    method RecoverUnknownInvocations(now: int) returns (recovered: nat)
      modifies this
      ensures View() == Recover(old(View()), now)
      ensures recovered == RecoverCount(old(View()), now)
    {
      recovered := 0;
      var candidates := UnknownInvocations();
      for i := 0 to |candidates|
        invariant recovered == i
        invariant View() == RecoverAll(old(View()), candidates[..i])
      {
        assert candidates[..i + 1][..i] == candidates[..i];
        ResolveOne(candidates[i]);
        recovered := recovered + 1;
      }
      assert candidates[..|candidates|] == candidates;
      var repaired := RepairStale(now);
      recovered := recovered + repaired;
    }
  }
}
