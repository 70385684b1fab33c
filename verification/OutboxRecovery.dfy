/** Startup recovery, from an arbitrary log and outbox table: nothing is assumed about how
    they came to be. */
module OutboxRecovery {
  import opened Journal
  import opened Outbox
  import opened OutboxAgreement

  // ------------------------------------------------ The first recovery phase

  /** Some unresolved dispatch of this invocation is in the log. */
  ghost predicate Dangling(log: seq<Event>, inv: string) {
    exists k :: 0 <= k < |log| && IsStart(log[k], inv) && TerminalFacts(log, inv) == []
  }

  function UnknownEvents(keys: seq<Key>): seq<Event> {
    if keys == [] then []
    else
      var last := keys[|keys| - 1];
      UnknownEvents(keys[..|keys| - 1]) + [UnknownEvent(last.inv, last.run, last.session)]
  }

  predicate Mentions(keys: seq<Key>, inv: string) {
    exists key <- keys :: key.inv == inv
  }

  /** Resolving candidates appends one unknown fact each and turns exactly their rows unknown. */
  lemma {:induction false} RecoverAllEffect(s: State, keys: seq<Key>)
    ensures var s' := RecoverAll(s, keys);
            && s'.log == s.log + UnknownEvents(keys)
            && s'.rows.Keys == s.rows.Keys
            && forall inv <- s.rows :: s'.rows[inv] ==
                 if Mentions(keys, inv) then s.rows[inv].(status := Unknown, lock := None) else s.rows[inv]
  {
    if keys == [] {
      assert s.log + [] == s.log;
    } else {
      var front, key := keys[..|keys| - 1], keys[|keys| - 1];
      RecoverAllEffect(s, front);
      var mid := RecoverAll(s, front);
      assert s.log + UnknownEvents(keys) == mid.log + [UnknownEvent(key.inv, key.run, key.session)];
      forall inv <- s.rows
        ensures RecoverAll(s, keys).rows[inv] ==
                if Mentions(keys, inv) then s.rows[inv].(status := Unknown, lock := None) else s.rows[inv]
      {
        MentionsLast(keys, inv);
      }
    }
  }

  lemma MentionsLast(keys: seq<Key>, inv: string)
    requires keys != []
    ensures Mentions(keys, inv) <==> Mentions(keys[..|keys| - 1], inv) || keys[|keys| - 1].inv == inv
  {
  }

  /** The unknown facts added about one invocation: none unless it is mentioned. */
  lemma {:induction false} UnknownFacts(keys: seq<Key>, inv: string)
    ensures var facts := TerminalFacts(UnknownEvents(keys), inv);
            && (facts != [] <==> Mentions(keys, inv))
            && forall e <- facts :: e.kind.OutboxDispatchUnknown?
  {
    if keys != [] {
      var front := keys[..|keys| - 1];
      UnknownFacts(front, inv);
      MentionsLast(keys, inv);
      var events := UnknownEvents(keys);
      assert events[..|events| - 1] == UnknownEvents(front);
    }
  }

  lemma CandidatesMention(log: seq<Event>, inv: string)
    ensures Mentions(Candidates(log), inv) <==> Dangling(log, inv)
  {
    CandidateKeys(log, |log|);
    if Mentions(Candidates(log), inv) {
      var key :| key in Candidates(log) && key.inv == inv;
      var k :| 0 <= k < |log| && Unresolved(log, log[k]) && KeyOf(log[k]) == key;
      assert IsStart(log[k], inv);
    }
    if Dangling(log, inv) {
      var k :| 0 <= k < |log| && IsStart(log[k], inv) && TerminalFacts(log, inv) == [];
      assert Unresolved(log, log[k]);
      assert KeyOf(log[k]) in Candidates(log);
    }
  }

  // ------------------------------------------------------- What recovery does

  /** The final row of an invocation, in terms of the log and row recovery found: dangling
      dispatches become unknown, stale rows follow the latest terminal fact, the rest stay. */
  ghost function RecoveredRow(s: State, inv: string, now: int): Row
    requires inv in s.rows
  {
    var facts := TerminalFacts(s.log, inv);
    if Dangling(s.log, inv) then s.rows[inv].(status := Unknown, lock := None)
    else if IsStale(s.rows[inv], facts, now) then RepairRow(s.rows[inv], facts)
    else s.rows[inv]
  }

  /** The terminal facts after recovery are the old ones, or only new unknown facts where there
      were none. */
  lemma FactsAfter(s: State, inv: string)
    ensures var facts, facts' := TerminalFacts(s.log, inv), TerminalFacts(RecoverAll(s, Candidates(s.log)).log, inv);
            if Dangling(s.log, inv) then facts' != [] && (forall e <- facts' :: e.kind.OutboxDispatchUnknown?)
            else facts' == facts
  {
    var keys := Candidates(s.log);
    RecoverAllEffect(s, keys);
    FactsConcat(s.log, UnknownEvents(keys), inv);
    UnknownFacts(keys, inv);
    CandidatesMention(s.log, inv);
  }

  lemma RecoverEffect(s: State, now: int)
    ensures var s' := Recover(s, now);
            && s'.log == s.log + UnknownEvents(Candidates(s.log))
            && s'.rows.Keys == s.rows.Keys
            && forall inv <- s.rows :: s'.rows[inv] == RecoveredRow(s, inv, now)
  {
    var keys := Candidates(s.log);
    var mid := RecoverAll(s, keys);
    RecoverAllEffect(s, keys);
    forall inv <- s.rows ensures Recover(s, now).rows[inv] == RecoveredRow(s, inv, now) {
      FactsAfter(s, inv);
      CandidatesMention(s.log, inv);
    }
  }

  /** After recovery no started dispatch is without a terminal fact. */
  lemma NothingDangles(s: State, now: int, inv: string)
    ensures !Dangling(Recover(s, now).log, inv)
  {
    RecoverEffect(s, now);
    var s' := Recover(s, now);
    FactsAfter(s, inv);
    RecoverAllEffect(s, Candidates(s.log));
    NeverRedispatches(s, now);
    forall k | 0 <= k < |s'.log| && IsStart(s'.log[k], inv) ensures TerminalFacts(s'.log, inv) != [] {
      assert k < |s.log| && IsStart(s.log[k], inv);
      assert TerminalFacts(s.log, inv) == [] ==> Dangling(s.log, inv);
    }
  }

  lemma {:induction false} UnknownEventsOnly(keys: seq<Key>)
    ensures |UnknownEvents(keys)| == |keys|
    ensures forall e <- UnknownEvents(keys) :: e.kind.OutboxDispatchUnknown?
  {
    if keys != [] { UnknownEventsOnly(keys[..|keys| - 1]); }
  }

  lemma RecoveredRowSettles(s: State, inv: string, now: int)
    requires inv in s.rows
    ensures RecoveredRow(s, inv, now) == s.rows[inv] || Settled(RecoveredRow(s, inv, now).status)
  {
  }

  /** Recovery never sends a row back to be dispatched: a row it touches ends settled, and it
      writes no receipt, no start and no run outcome event. */
  lemma NeverRedispatches(s: State, now: int)
    ensures forall inv <- s.rows ::
              && inv in Recover(s, now).rows
              && (Recover(s, now).rows[inv] == s.rows[inv] || Settled(Recover(s, now).rows[inv].status))
    ensures forall k | |s.log| <= k < |Recover(s, now).log| :: Recover(s, now).log[k].kind.OutboxDispatchUnknown?
  {
    RecoverEffect(s, now);
    UnknownEventsOnly(Candidates(s.log));
    forall inv <- s.rows ensures RecoveredRow(s, inv, now) == s.rows[inv] || Settled(RecoveredRow(s, inv, now).status) {
      RecoveredRowSettles(s, inv, now);
    }
    forall k | |s.log| <= k < |Recover(s, now).log| ensures Recover(s, now).log[k].kind.OutboxDispatchUnknown? {
      assert Recover(s, now).log[k] == UnknownEvents(Candidates(s.log))[k - |s.log|];
    }
  }

  lemma NoneDangleNoCandidates(log: seq<Event>)
    requires forall inv: string :: !Dangling(log, inv)
    ensures Candidates(log) == []
  {
    var keys := Candidates(log);
    if keys != [] {
      assert keys[0] in keys;
      assert Mentions(keys, keys[0].inv);
      CandidatesMention(log, keys[0].inv);
    }
  }

  lemma NotStaleAfter(s: State, now: int, inv: string)
    requires inv in Recover(s, now).rows
    ensures !IsStale(Recover(s, now).rows[inv], TerminalFacts(Recover(s, now).log, inv), now)
  {
    RecoverEffect(s, now);
    FactsAfter(s, inv);
    RecoverAllEffect(s, Candidates(s.log));
    var facts := TerminalFacts(s.log, inv);
    if IsStale(s.rows[inv], facts, now) { assert Settled(RepairTarget(facts)); }
  }

  /** Recovering again at the same instant finds nothing, changes nothing and returns 0. */
  lemma RecoveryIsIdempotent(s: State, now: int)
    ensures Recover(Recover(s, now), now) == Recover(s, now)
    ensures RecoverCount(Recover(s, now), now) == 0
  {
    var s' := Recover(s, now);
    RecoverEffect(s, now);
    forall inv: string ensures !Dangling(s'.log, inv) { NothingDangles(s, now, inv); }
    NoneDangleNoCandidates(s'.log);
    forall inv <- s'.rows ensures !IsStale(s'.rows[inv], TerminalFacts(s'.log, inv), now) {
      NotStaleAfter(s, now, inv);
    }
    assert StaleSet(s', now) == {};
    assert Repair(s', {}).rows == s'.rows;
  }

  // ------------------------------------------------------------------- Drift

  /** A stale row whose facts let the repair target stand on its own feet: the latest fact is a
      readable receipt or an unknown fact, or an unknown fact is there besides. */
  predicate Repairable(facts: seq<Event>) {
    && facts != []
    && (|| facts[|facts| - 1].kind.OutboxDispatchUnknown?
        || facts[|facts| - 1].payload.status == Some(TextSucceeded)
        || facts[|facts| - 1].payload.status == Some(TextFailed)
        || HasUnknown(facts))
  }

  lemma RepairTargetOfLatest(log: seq<Event>, inv: string)
    requires TerminalFacts(log, inv) != []
    ensures var facts := TerminalFacts(log, inv); var last := facts[|facts| - 1];
            RepairTarget(facts) ==
            if last.kind.OutboxDispatchUnknown? then Unknown
            else if last.payload.status == Some(TextSucceeded) then Succeeded
            else if last.payload.status == Some(TextFailed) then Failed
            else Unknown
  {
  }

  /** A repaired row stops drifting exactly when its facts are repairable. */
  lemma RepairedDrifts(log: seq<Event>, inv: string)
    requires TerminalFacts(log, inv) != []
    ensures Drifts(RepairTarget(TerminalFacts(log, inv)), TerminalFacts(log, inv)) <==>
            !Repairable(TerminalFacts(log, inv))
  {
  }

  /** Drift after recovery is exactly the drift before it, less the stale rows with repairable
      facts. */
  lemma DriftAfterRecovery(s: State, now: int)
    ensures DriftSet(Recover(s, now)) ==
            set inv <- DriftSet(s) | !(IsStale(s.rows[inv], TerminalFacts(s.log, inv), now)
                                       && Repairable(TerminalFacts(s.log, inv)))
  {
    var s' := Recover(s, now);
    RecoverEffect(s, now);
    RecoverAllEffect(s, Candidates(s.log));
    forall inv <- s.rows
      ensures Drifts(s'.rows[inv].status, TerminalFacts(s'.log, inv)) <==>
              Drifts(s.rows[inv].status, TerminalFacts(s.log, inv))
              && !(IsStale(s.rows[inv], TerminalFacts(s.log, inv), now) && Repairable(TerminalFacts(s.log, inv)))
    {
      DriftOfRow(s, now, inv);
    }
  }

  lemma DriftOfRow(s: State, now: int, inv: string)
    requires inv in s.rows
    ensures var facts, facts' := TerminalFacts(s.log, inv), TerminalFacts(RecoverAll(s, Candidates(s.log)).log, inv);
            Drifts(RecoveredRow(s, inv, now).status, facts') <==>
            Drifts(s.rows[inv].status, facts) && !(IsStale(s.rows[inv], facts, now) && Repairable(facts))
  {
    FactsAfter(s, inv);
    if Dangling(s.log, inv) {
      UnknownSettles(TerminalFacts(RecoverAll(s, Candidates(s.log)).log, inv));
    } else if IsStale(s.rows[inv], TerminalFacts(s.log, inv), now) {
      RepairedDrifts(s.log, inv);
      StaleDrifts(s.rows[inv], TerminalFacts(s.log, inv), now);
    }
  }

  lemma UnknownSettles(facts: seq<Event>)
    requires facts != [] && forall e <- facts :: e.kind.OutboxDispatchUnknown?
    ensures !Drifts(Unknown, facts)
  {
    assert facts[0] in facts;
  }

  lemma StaleDrifts(row: Row, facts: seq<Event>, now: int)
    requires IsStale(row, facts, now)
    ensures Drifts(row.status, facts)
  {
  }

  /** Recovery reconciles all drift exactly when every drifting row is stale and repairable. */
  lemma RecoveryClearsDriftExactly(s: State, now: int)
    ensures DriftSet(Recover(s, now)) == {} <==>
            forall inv <- DriftSet(s) :: IsStale(s.rows[inv], TerminalFacts(s.log, inv), now)
                                         && Repairable(TerminalFacts(s.log, inv))
  {
    DriftAfterRecovery(s, now);
    var after := DriftSet(Recover(s, now));
    if after == {} {
      forall inv <- DriftSet(s)
        ensures IsStale(s.rows[inv], TerminalFacts(s.log, inv), now) && Repairable(TerminalFacts(s.log, inv))
      {
        assert inv !in after;
      }
    }
  }
}
