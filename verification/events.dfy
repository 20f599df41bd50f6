/** What PersistMessage makes of several events about one VM. */
module Events {
  import opened Resources
  import opened Model
  import opened State
  import opened Transactions

  /** The events one after another, as a reader of the loop would expect. */
  function InSequence(a: Instance, events: seq<RunnerEvent>, now: int): Instance {
    if events == [] then a
    else
      var before := InSequence(a, events[..|events| - 1], now);
      if events[|events| - 1].vm == a.id then Witnessed(before, events[|events| - 1], now) else before
  }

  predicate Started(events: seq<RunnerEvent>, vm: Key) {
    exists i | 0 <= i < |events| :: events[i].vm == vm && events[i].kind == BusyEvent
  }

  /** The result the last completion of the VM carries, or the old one. */
  function LastResult(events: seq<RunnerEvent>, vm: Key, old_: Key): Key {
    if events == [] then old_
    else if events[|events| - 1].vm == vm && events[|events| - 1].kind == CompleteEvent then events[|events| - 1].result
    else LastResult(events[..|events| - 1], vm, old_)
  }

  lemma {:induction false} SequenceEffect(a: Instance, events: seq<RunnerEvent>, now: int)
    ensures var b := InSequence(a, events, now);
            && b == a.(state := b.state, result := b.result, updated := b.updated)
            && b.state == (if Started(events, a.id) && a.Active() then Busy else a.state)
            && b.result == LastResult(events, a.id, a.result)
            && b.updated == (if LastEvent(events, a.id).Some? then now else a.updated)
  {
    if events != [] {
      var front := events[..|events| - 1];
      SequenceEffect(a, front, now);
      assert events == front + [events[|events| - 1]];
      assert Started(events, a.id) <==> Started(front, a.id) || (events[|events| - 1].vm == a.id && events[|events| - 1].kind == BusyEvent) by {
        assert forall i | 0 <= i < |front| :: events[i] == front[i];
      }
    }
  }

  /** Whether the last event naming the VM leaves everything as all of them
      would: a completion that follows a start loses the Busy state of an
      active VM, and a start that follows a completion loses the result. */
  predicate LastTells(a: Instance, events: seq<RunnerEvent>) {
    match LastEvent(events, a.id)
    case None => true
    case Some(e) =>
      if e.kind == BusyEvent then LastResult(events, a.id, a.result) == a.result
      else Started(events, a.id) && a.Active() ==> a.state == Busy
  }

  lemma {:induction false} LastEventSound(events: seq<RunnerEvent>, vm: Key)
    ensures LastEvent(events, vm).None? ==> !Started(events, vm) && forall r :: LastResult(events, vm, r) == r
    ensures LastEvent(events, vm).Some? ==> LastEvent(events, vm).value.vm == vm
    ensures LastEvent(events, vm).Some? && LastEvent(events, vm).value.kind == BusyEvent ==> Started(events, vm)
    ensures LastEvent(events, vm).Some? && LastEvent(events, vm).value.kind == CompleteEvent ==>
              forall r :: LastResult(events, vm, r) == LastEvent(events, vm).value.result
  {
    if events != [] && events[|events| - 1].vm != vm {
      var front := events[..|events| - 1];
      LastEventSound(front, vm);
      assert forall i | 0 <= i < |front| :: events[i] == front[i];
      assert Started(events, vm) <==> Started(front, vm);
    }
  }

  /** The loop applies every event to the row as it was first read, so it
      agrees with applying them in order exactly when the last one tells. */
  lemma {:induction false} EventsInSequence(a: Instance, pool: Key, events: seq<RunnerEvent>, now: int)
    requires a.pool.name == pool
    ensures AfterEvents(a, pool, events, now) == InSequence(a, events, now) <==> LastTells(a, events)
  {
    SequenceEffect(a, events, now);
    LastEventSound(events, a.id);
  }

  /** A VM whose job started and completed within one message: its result is
      kept, its Busy state is not. */
  lemma {:induction false} StartIsLost(a: Instance, result: Key, now: int)
    requires a.state == Idle
    ensures var events := [RunnerEvent(a.id, BusyEvent, NONE), RunnerEvent(a.id, CompleteEvent, result)];
            && AfterEvents(a, a.pool.name, events, now).state == Idle
            && AfterEvents(a, a.pool.name, events, now).result == result
            && InSequence(a, events, now).state == Busy
  {
    var events := [RunnerEvent(a.id, BusyEvent, NONE), RunnerEvent(a.id, CompleteEvent, result)];
    SequenceEffect(a, events, now);
    assert events[0].kind == BusyEvent;
  }
}
