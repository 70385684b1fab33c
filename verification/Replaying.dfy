/** Replaying a registry from the log. The operation registry and the component registry both
    keep one active snapshot with a version, and both write every move of it to the log. */
module Replaying {
  import opened Journal

  datatype Registry = OperationSnapshots | ComponentSnapshots

  /** The event kinds that move the active snapshot of a registry. */
  predicate Moves(registry: Registry, kind: Kind) {
    match registry
    case OperationSnapshots => kind.RegistrySnapshotActivated?
    case ComponentSnapshots => kind.ComponentRegistered? || kind.ComponentDisabled? || kind.ComponentRolledBack?
  }

  datatype Live = Live(active: string, version: int)

  /** Start from the first snapshot at version 1 and follow the moves in the log. */
  function Replay(registry: Registry, first: string, log: seq<Event>): Live {
    if log == [] then Live(first, 1)
    else
      var before, last := Replay(registry, first, log[..|log| - 1]), log[|log| - 1];
      if Moves(registry, last.kind) && last.payload.newSnapshot.Some?
      then Live(last.payload.newSnapshot.value, before.version + 1)
      else before
  }

  /** Every move names as its previous snapshot the one that replaying the log up to it
      arrives at. */
  ghost predicate Unbroken(registry: Registry, first: string, log: seq<Event>) {
    forall k | 0 <= k < |log| && Moves(registry, log[k].kind) ::
      && log[k].payload.newSnapshot.Some?
      && log[k].payload.previousSnapshot == Some(Replay(registry, first, log[..k]).active)
  }

  predicate Quiet(registry: Registry, events: seq<Event>) {
    forall e <- events :: !Moves(registry, e.kind)
  }

  /** The moves in a log. */
  function MovesOf(registry: Registry, log: seq<Event>): seq<Event> {
    if log == [] then []
    else MovesOf(registry, log[..|log| - 1])
         + (if Moves(registry, log[|log| - 1].kind) then [log[|log| - 1]] else [])
  }

  lemma {:induction false} QuietTail(registry: Registry, first: string, log: seq<Event>, more: seq<Event>)
    requires Unbroken(registry, first, log) && Quiet(registry, more)
    ensures Replay(registry, first, log + more) == Replay(registry, first, log) && Unbroken(registry, first, log + more)
    decreases |more|
  {
    if more == [] {
      assert log + more == log;
    } else {
      var front := more[..|more| - 1];
      QuietTail(registry, first, log, front);
      assert log + more == (log + front) + [more[|more| - 1]];
      ExtendUnbroken(registry, first, log + front, more[|more| - 1]);
    }
  }

  lemma ExtendUnbroken(registry: Registry, first: string, log: seq<Event>, e: Event)
    requires Unbroken(registry, first, log)
    requires Moves(registry, e.kind) ==>
               && e.payload.newSnapshot.Some?
               && e.payload.previousSnapshot == Some(Replay(registry, first, log).active)
    ensures Unbroken(registry, first, log + [e])
    ensures Replay(registry, first, log + [e]) ==
            if Moves(registry, e.kind) then Live(e.payload.newSnapshot.value, Replay(registry, first, log).version + 1)
            else Replay(registry, first, log)
  {
    var log' := log + [e];
    assert log'[..|log|] == log;
    forall k | 0 <= k < |log'| && Moves(registry, log'[k].kind)
      ensures && log'[k].payload.newSnapshot.Some?
              && log'[k].payload.previousSnapshot == Some(Replay(registry, first, log'[..k]).active)
    {
      if k < |log| {
        assert log'[..k] == log[..k];
        assert Moves(registry, log[k].kind);
      }
    }
  }

  /** A transaction whose events move the registry exactly once. */
  lemma OneMove(registry: Registry, first: string, log: seq<Event>, before: seq<Event>, e: Event, after: seq<Event>)
    requires Unbroken(registry, first, log) && Quiet(registry, before) && Quiet(registry, after)
    requires Moves(registry, e.kind) && e.payload.newSnapshot.Some?
    requires e.payload.previousSnapshot == Some(Replay(registry, first, log).active)
    ensures Unbroken(registry, first, log + before + [e] + after)
    ensures Replay(registry, first, log + before + [e] + after)
            == Live(e.payload.newSnapshot.value, Replay(registry, first, log).version + 1)
  {
    QuietTail(registry, first, log, before);
    ExtendUnbroken(registry, first, log + before, e);
    QuietTail(registry, first, log + before + [e], after);
  }

  /** In an unbroken log the version counts the moves. */
  lemma {:induction false} ReplayCounts(registry: Registry, first: string, log: seq<Event>)
    requires Unbroken(registry, first, log)
    ensures Replay(registry, first, log).version == 1 + |MovesOf(registry, log)|
  {
    if log != [] {
      var front := log[..|log| - 1];
      assert forall k | 0 <= k < |front| :: front[..k] == log[..k];
      ReplayCounts(registry, first, front);
    }
  }
}
