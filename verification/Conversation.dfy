/** Rebuilding the turns of a session from the journal with hash maps. */
module Conversation {
  import opened Journal
  import Outbox

  datatype Turn = Turn(user: string, assistant: string)

  const USIZE_MAX := 0x1_0000_0000_0000_0000 - 1

  // ------------------------------------------------------ Relational specification

  predicate IsIngress(e: Event, skip: Option<string>, id: string) {
    e.kind.IngressAccepted? && e.payload.eventId == Some(id) && skip != Some(id) && e.payload.text.Some?
  }

  /** A delivered reply whose payload agrees with its envelope. */
  predicate IsReply(e: Event, session: string, run: string) {
    && e.kind.AssistantReplyDelivered? && e.session == Some(session) && e.payload.sessionId == Some(session)
    && e.run == Some(run) && e.payload.runId == Some(run)
    && e.payload.invocationId.Some? && e.payload.invocationId.value != "" && e.correlation == e.payload.invocationId
    && e.payload.text.Some?
  }

  predicate IsStart(e: Event, session: string) {
    e.kind.RunStarted? && e.session == Some(session) && e.correlation.Some? && e.payload.runId.Some?
  }

  /** The text of the latest ingress event with that id. */
  function IngressText(events: seq<Event>, skip: Option<string>, id: string): Option<string> {
    if events == [] then None
    else
      var last := events[|events| - 1];
      if IsIngress(last, skip, id) then last.payload.text else IngressText(events[..|events| - 1], skip, id)
  }

  /** The text of the first consistent reply of the run. */
  function ReplyText(events: seq<Event>, session: string, run: string): Option<string> {
    if events == [] then None
    else
      var front, last := events[..|events| - 1], events[|events| - 1];
      if ReplyText(front, session, run).Some? then ReplyText(front, session, run)
      else if IsReply(last, session, run) then last.payload.text
      else None
  }

  /** The turn a started run contributes, if both of its sides are in the journal. */
  function TurnOf(events: seq<Event>, session: string, skip: Option<string>, e: Event): seq<Turn> {
    if !IsStart(e, session) then []
    else
      var user := IngressText(events, skip, e.correlation.value);
      var assistant := ReplyText(events, session, e.payload.runId.value);
      if user.Some? && assistant.Some? then [Turn(user.value, assistant.value)] else []
  }

  /** The turns of the first `n` events, with both sides looked up in the whole journal. */
  function Turns(events: seq<Event>, session: string, skip: Option<string>, n: nat): seq<Turn>
    requires n <= |events|
  {
    if n == 0 then [] else Turns(events, session, skip, n - 1) + TurnOf(events, session, skip, events[n - 1])
  }

  function Suffix(turns: seq<Turn>, limit: nat): seq<Turn> {
    if |turns| <= limit then turns else turns[|turns| - limit..]
  }

  /** Of several ingress events with one id the last one speaks. */
  lemma {:induction false} IngressTextIsLatest(events: seq<Event>, skip: Option<string>, id: string)
    ensures match IngressText(events, skip, id)
            case None => forall e <- events :: !IsIngress(e, skip, id)
            case Some(text) =>
              exists i | 0 <= i < |events| ::
                && IsIngress(events[i], skip, id) && events[i].payload.text == Some(text)
                && forall j | i < j < |events| :: !IsIngress(events[j], skip, id)
  {
    if events != [] {
      var n := |events| - 1;
      assert events == events[..n] + [events[n]];
      if !IsIngress(events[n], skip, id) {
        IngressTextIsLatest(events[..n], skip, id);
        if IngressText(events, skip, id).Some? {
          var i :| 0 <= i < n && IsIngress(events[..n][i], skip, id)
                   && events[..n][i].payload.text == Some(IngressText(events, skip, id).value)
                   && forall j | i < j < n :: !IsIngress(events[..n][j], skip, id);
          forall j | i < j < |events| ensures !IsIngress(events[j], skip, id) {
            if j < n { assert events[..n][j] == events[j]; }
          }
          assert IsIngress(events[i], skip, id);
        }
      }
    }
  }

  /** Of several deliveries for one run the first consistent one speaks, so a retried delivery
      never changes a turn. */
  lemma {:induction false} ReplyTextIsFirst(events: seq<Event>, session: string, run: string)
    ensures match ReplyText(events, session, run)
            case None => forall e <- events :: !IsReply(e, session, run)
            case Some(text) =>
              exists i | 0 <= i < |events| ::
                && IsReply(events[i], session, run) && events[i].payload.text == Some(text)
                && forall j | 0 <= j < i :: !IsReply(events[j], session, run)
  {
    if events != [] {
      var n := |events| - 1;
      assert events == events[..n] + [events[n]];
      ReplyTextIsFirst(events[..n], session, run);
      var before := ReplyText(events[..n], session, run);
      if before.Some? {
        var i :| 0 <= i < n && IsReply(events[..n][i], session, run) && events[..n][i].payload.text == before
                 && forall j | 0 <= j < i :: !IsReply(events[..n][j], session, run);
        assert forall j | 0 <= j < i :: events[..n][j] == events[j];
        assert IsReply(events[i], session, run);
      } else if IsReply(events[n], session, run) {
        assert forall j | 0 <= j < n :: events[j] in events[..n];
      }
    }
  }

  /** A reply that was found never changes when later events arrive. */
  lemma {:induction false} LaterEventsKeepReply(events: seq<Event>, more: seq<Event>, session: string, run: string)
    requires ReplyText(events, session, run).Some?
    ensures ReplyText(events + more, session, run) == ReplyText(events, session, run)
    decreases |more|
  {
    if more == [] {
      assert events + more == events;
    } else {
      assert (events + more)[..|events + more| - 1] == events + more[..|more| - 1];
      LaterEventsKeepReply(events, more[..|more| - 1], session, run);
    }
  }

  // ------------------------------------------------------------ What a turn joins

  /** The last ingress event of that id, skipped or not, that carries a text carries this one. */
  ghost predicate SaysUser(events: seq<Event>, skip: Option<string>, id: string, text: string) {
    && skip != Some(id)
    && exists i | 0 <= i < |events| ::
         && events[i].kind.IngressAccepted? && events[i].payload.eventId == Some(id)
         && events[i].payload.text == Some(text)
         && forall j | i < j < |events| ::
              !(events[j].kind.IngressAccepted? && events[j].payload.eventId == Some(id)
                && events[j].payload.text.Some?)
  }

  /** The event delivers a reply of the run in the session, under one non-empty invocation id. */
  predicate Delivers(e: Event, session: string, run: string) {
    && e.kind.AssistantReplyDelivered? && e.session == Some(session) && e.payload.sessionId == Some(session)
    && e.run == Some(run) && e.payload.runId == Some(run) && e.payload.text.Some?
    && e.correlation.Some? && e.correlation.value != "" && e.payload.invocationId == e.correlation
  }

  ghost predicate SaysAssistant(events: seq<Event>, session: string, run: string, text: string) {
    exists i | 0 <= i < |events| ::
      && Delivers(events[i], session, run) && events[i].payload.text == Some(text)
      && forall j | 0 <= j < i :: !Delivers(events[j], session, run)
  }

  lemma SaysUserExactly(events: seq<Event>, skip: Option<string>, id: string, text: string)
    ensures SaysUser(events, skip, id, text) <==> IngressText(events, skip, id) == Some(text)
  {
    IngressTextIsLatest(events, skip, id);
    match IngressText(events, skip, id)
    case None =>
      assert forall i | 0 <= i < |events| :: !IsIngress(events[i], skip, id) by {
        assert forall i | 0 <= i < |events| :: events[i] in events;
      }
    case Some(found) =>
      var i :| 0 <= i < |events| && IsIngress(events[i], skip, id) && events[i].payload.text == Some(found)
               && forall j | i < j < |events| :: !IsIngress(events[j], skip, id);
      assert SaysUser(events, skip, id, found);
      if SaysUser(events, skip, id, text) {
        var k :| 0 <= k < |events| && IsIngress(events[k], skip, id) && events[k].payload.text == Some(text)
                 && forall j | k < j < |events| :: !IsIngress(events[j], skip, id);
        assert i == k;
      }
  }

  lemma SaysAssistantExactly(events: seq<Event>, session: string, run: string, text: string)
    ensures SaysAssistant(events, session, run, text) <==> ReplyText(events, session, run) == Some(text)
  {
    ReplyTextIsFirst(events, session, run);
    assert forall e :: Delivers(e, session, run) <==> IsReply(e, session, run);
    match ReplyText(events, session, run)
    case None => assert forall i | 0 <= i < |events| :: events[i] in events;
    case Some(found) =>
      var i :| 0 <= i < |events| && IsReply(events[i], session, run) && events[i].payload.text == Some(found)
               && forall j | 0 <= j < i :: !IsReply(events[j], session, run);
      assert SaysAssistant(events, session, run, found);
      if SaysAssistant(events, session, run, text) {
        var k :| 0 <= k < |events| && Delivers(events[k], session, run) && events[k].payload.text == Some(text)
                 && forall j | 0 <= j < k :: !Delivers(events[j], session, run);
        assert i == k;
      }
  }

  /** The event starts the run of the session that this turn is the conversation of. */
  ghost predicate StartsTurn(events: seq<Event>, session: string, skip: Option<string>, e: Event, turn: Turn) {
    && e.kind.RunStarted? && e.session == Some(session) && e.correlation.Some? && e.payload.runId.Some?
    && SaysUser(events, skip, e.correlation.value, turn.user)
    && SaysAssistant(events, session, e.payload.runId.value, turn.assistant)
  }

  lemma TurnOfExactly(events: seq<Event>, session: string, skip: Option<string>, e: Event, turn: Turn)
    ensures TurnOf(events, session, skip, e) == [turn] <==> StartsTurn(events, session, skip, e, turn)
    ensures |TurnOf(events, session, skip, e)| <= 1
  {
    if IsStart(e, session) {
      SaysUserExactly(events, skip, e.correlation.value, turn.user);
      SaysAssistantExactly(events, session, e.payload.runId.value, turn.assistant);
    }
  }

  /** The turns of a session are those of its started runs, read declaratively: the last text of the
      message that started the run, and the first reply delivered for it. */
  lemma {:induction false} TurnsExactly(events: seq<Event>, session: string, skip: Option<string>, n: nat, turn: Turn)
    requires n <= |events|
    ensures turn in Turns(events, session, skip, n) <==>
            exists k | 0 <= k < n :: StartsTurn(events, session, skip, events[k], turn)
  {
    if n > 0 {
      TurnsExactly(events, session, skip, n - 1, turn);
      TurnOfExactly(events, session, skip, events[n - 1], turn);
      assert turn in TurnOf(events, session, skip, events[n - 1]) <==>
        TurnOf(events, session, skip, events[n - 1]) == [turn];
    }
  }

  /** They are in the order in which the runs were started, one for each. */
  lemma {:induction false} TurnsInOrder(events: seq<Event>, session: string, skip: Option<string>, m: nat, n: nat)
    requires m < n <= |events|
    ensures var turns := Turns(events, session, skip, n);
            var before, here := Turns(events, session, skip, m), TurnOf(events, session, skip, events[m]);
            |before + here| <= |turns| && turns[..|before + here|] == before + here
  {
    if m < n - 1 {
      TurnsInOrder(events, session, skip, m, n - 1);
    }
  }

  // ------------------------------------------------------- From dispatch to turn

  /** The reply event that a delivered dispatch writes is consistent, so it can close a turn. */
  lemma DeliveredReplyIsConsistent(row: Outbox.Row, inv: string, run: string, session: string)
    requires inv != "" && Outbox.IsReplyOperation(row.operation) && row.text.Some?
    ensures var events := Outbox.ReplyEvents(row, inv, run, Some(session));
            |events| == 1 && IsReply(events[0], session, run) && events[0].payload.text == row.text
  {
  }

  lemma {:induction false} OtherMessagesKeepIngress(events: seq<Event>, more: seq<Event>, skip: Option<string>,
                                                    id: string)
    requires forall e <- more :: !IsIngress(e, skip, id)
    ensures IngressText(events + more, skip, id) == IngressText(events, skip, id)
    decreases |more|
  {
    if more == [] {
      assert events + more == events;
    } else {
      assert (events + more)[..|events + more| - 1] == events + more[..|more| - 1];
      OtherMessagesKeepIngress(events, more[..|more| - 1], skip, id);
    }
  }

  lemma {:induction false} OtherEventsKeepReply(events: seq<Event>, more: seq<Event>, session: string, run: string)
    requires forall e <- more :: !IsReply(e, session, run)
    ensures ReplyText(events + more, session, run) == ReplyText(events, session, run)
    decreases |more|
  {
    if more == [] {
      assert events + more == events;
    } else {
      assert (events + more)[..|events + more| - 1] == events + more[..|more| - 1];
      OtherEventsKeepReply(events, more[..|more| - 1], session, run);
    }
  }

  lemma {:induction false} TurnIsIncluded(events: seq<Event>, session: string, skip: Option<string>, k: nat, n: nat)
    requires k < n <= |events|
    ensures forall t <- TurnOf(events, session, skip, events[k]) :: t in Turns(events, session, skip, n)
  {
    if k < n - 1 { TurnIsIncluded(events, session, skip, k, n - 1); }
  }

  lemma ReplyJoins(log: seq<Event>, before: seq<Event>, reply: Event, after: seq<Event>, session: string,
                   skip: Option<string>, id: string, run: string)
    requires ReplyText(log, session, run).None? && IsReply(reply, session, run)
    requires forall e <- before + after :: !IsIngress(e, skip, id) && !IsReply(e, session, run)
    ensures var log' := log + before + [reply] + after;
            IngressText(log', skip, id) == IngressText(log, skip, id)
              && ReplyText(log', session, run) == reply.payload.text
  {
    var joined := log + before + [reply];
    assert forall e <- before :: e in before + after;
    assert forall e <- after :: e in before + after;
    OtherMessagesKeepIngress(log, before, skip, id);
    OtherEventsKeepReply(log, before, session, run);
    assert joined[..|log + before|] == log + before;
    OtherMessagesKeepIngress(joined, after, skip, id);
    OtherEventsKeepReply(joined, after, session, run);
  }

  /** A message that was found stays found, whatever later message takes over its id. */
  lemma {:induction false} LaterEventsKeepIngress(events: seq<Event>, more: seq<Event>, skip: Option<string>,
                                                  id: string)
    requires IngressText(events, skip, id).Some?
    ensures IngressText(events + more, skip, id).Some?
    decreases |more|
  {
    if more == [] {
      assert events + more == events;
    } else {
      assert (events + more)[..|events + more| - 1] == events + more[..|more| - 1];
      LaterEventsKeepIngress(events, more[..|more| - 1], skip, id);
    }
  }

  /** The log right after the delivery of a reply joins its message with the delivered text. */
  lemma DeliveryJoins(s: Outbox.State, inv: string, run: string, session: string, skip: Option<string>, id: string)
    requires Outbox.InFlight(s, inv) && inv != "" && Outbox.IsReplyOperation(s.rows[inv].operation)
    requires s.rows[inv].text.Some?
    requires ReplyText(s.log, session, run).None?
    ensures var log := Outbox.Succeed(s, inv, Outbox.ReceiptSucceeded, run, Some(session)).0.log;
            && s.log <= log && IngressText(log, skip, id) == IngressText(s.log, skip, id)
            && ReplyText(log, session, run) == s.rows[inv].text
  {
    var log := Outbox.Succeed(s, inv, Outbox.ReceiptSucceeded, run, Some(session)).0.log;
    var receipt := Outbox.ReceiptEvent(inv, Some(run), Some(session), TextSucceeded);
    var reply := Outbox.ReplyEvents(s.rows[inv], inv, run, Some(session))[0];
    var done := if Outbox.RunHasFailed(s, run) then [] else [Outbox.PlainEvent(RunCompleted, inv, run, Some(session))];
    DeliveredReplyIsConsistent(s.rows[inv], inv, run, session);
    assert log == s.log + [receipt] + [reply] + done;
    ReplyJoins(s.log, [receipt], reply, done, session, skip, id, run);
  }

  /** Delivering the first reply of a run that was started by a known message gives the session
      the turn of that message and the delivered text, and in every later log the run still has
      its one turn, with the delivered text. Only a later message under the same id changes the
      other side. */
  lemma DeliveryYieldsTurn(s: Outbox.State, inv: string, run: string, session: string, skip: Option<string>, k: nat,
                           more: seq<Event>)
    requires Outbox.InFlight(s, inv) && inv != "" && Outbox.IsReplyOperation(s.rows[inv].operation)
    requires s.rows[inv].text.Some?
    requires k < |s.log| && IsStart(s.log[k], session) && s.log[k].payload.runId == Some(run)
    requires IngressText(s.log, skip, s.log[k].correlation.value).Some? && ReplyText(s.log, session, run).None?
    ensures var id := s.log[k].correlation.value;
            var log := Outbox.Succeed(s, inv, Outbox.ReceiptSucceeded, run, Some(session)).0.log + more;
            && IngressText(log, skip, id).Some?
            && TurnOf(log, session, skip, s.log[k]) == [Turn(IngressText(log, skip, id).value, s.rows[inv].text.value)]
            && Turn(IngressText(log, skip, id).value, s.rows[inv].text.value) in Turns(log, session, skip, |log|)
            && ((forall e <- more :: !IsIngress(e, skip, id)) ==>
                IngressText(log, skip, id) == IngressText(s.log, skip, id))
  {
    var id := s.log[k].correlation.value;
    var delivered := Outbox.Succeed(s, inv, Outbox.ReceiptSucceeded, run, Some(session)).0.log;
    var log := delivered + more;
    DeliveryJoins(s, inv, run, session, skip, id);
    LaterEventsKeepReply(delivered, more, session, run);
    LaterEventsKeepIngress(delivered, more, skip, id);
    if forall e <- more :: !IsIngress(e, skip, id) { OtherMessagesKeepIngress(delivered, more, skip, id); }
    assert log[k] == s.log[k];
    TurnIsIncluded(log, session, skip, k, |log|);
  }

  // -------------------------------------------------------------- The hash-map join

  method CollectIngress(events: seq<Event>, skip: Option<string>) returns (texts: map<string, string>)
    ensures forall id :: (if id in texts then Some(texts[id]) else None) == IngressText(events, skip, id)
  {
    texts := map[];
    for k := 0 to |events|
      invariant forall id :: (if id in texts then Some(texts[id]) else None) == IngressText(events[..k], skip, id)
    {
      var e := events[k];
      assert events[..k + 1][..k] == events[..k];
      if e.kind.IngressAccepted? && e.payload.eventId.Some? && skip != e.payload.eventId && e.payload.text.Some? {
        texts := texts[e.payload.eventId.value := e.payload.text.value];
      }
    }
    assert events[..|events|] == events;
  }

  method CollectReplies(events: seq<Event>, session: string) returns (replies: map<string, string>)
    ensures forall run :: (if run in replies then Some(replies[run]) else None) == ReplyText(events, session, run)
  {
    replies := map[];
    for k := 0 to |events|
      invariant forall run ::
                  (if run in replies then Some(replies[run]) else None) == ReplyText(events[..k], session, run)
    {
      var e := events[k];
      assert events[..k + 1][..k] == events[..k];
      if e.run.Some? && IsReply(e, session, e.run.value) && e.run.value !in replies {
        replies := replies[e.run.value := e.payload.text.value];
      }
    }
    assert events[..|events|] == events;
  }

  /** The join equals the relational specification, cut to its last `limit` turns. */
  method RecentConversationTurns(events: seq<Event>, session: string, limit: nat, skip: Option<string>)
    returns (turns: seq<Turn>)
    ensures turns == Suffix(Turns(events, session, skip, |events|), limit)
  {
    if limit == 0 {
      return [];
    }
    var texts := CollectIngress(events, skip);
    var replies := CollectReplies(events, session);
    var complete: seq<Turn> := [];
    for k := 0 to |events|
      invariant complete == Turns(events, session, skip, k)
    {
      var e := events[k];
      if IsStart(e, session) && e.correlation.value in texts && e.payload.runId.value in replies {
        complete := complete + [Turn(texts[e.correlation.value], replies[e.payload.runId.value])];
      }
    }
    var start := if |complete| > limit then |complete| - limit else 0;
    turns := complete[start..];
  }

  /** Every turn of the session: the builder with the largest limit there is. */
  method ConversationTurns(events: seq<Event>, session: string, skip: Option<string>) returns (turns: seq<Turn>)
    ensures |events| <= USIZE_MAX ==> turns == Turns(events, session, skip, |events|)
  {
    turns := RecentConversationTurns(events, session, USIZE_MAX, skip);
    TurnsBounded(events, session, skip, |events|);
  }

  lemma {:induction false} TurnsBounded(events: seq<Event>, session: string, skip: Option<string>, n: nat)
    requires n <= |events|
    ensures |Turns(events, session, skip, n)| <= n
  {
    if n > 0 { TurnsBounded(events, session, skip, n - 1); }
  }
}
