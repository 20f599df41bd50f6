/** First come, first placed, over whole runs. */
module Fifo {
  import opened Resources
  import opened Model
  import opened Order
  import opened Validate
  import opened Ledger
  import opened State
  import opened Transactions
  import opened Sync
  import opened Consistency
  import opened Movement
  import opened Soundness
  import opened Dispatching
  import opened Runs
  import opened Lifecycle

  /** No task still waits that was submitted before a placed one of its pool. */
  ghost predicate Fair(tasks: seq<Task>) {
    forall i, j | 0 <= i < |tasks| && 0 <= j < |tasks| ::
      tasks[i].Queued() && tasks[j].instance != NONE && tasks[i].spec.pool == tasks[j].spec.pool ==> tasks[j].created <= tasks[i].created
  }

  ghost predicate Past(tasks: seq<Task>, now: int) {
    forall i | 0 <= i < |tasks| :: tasks[i].created <= now
  }

  // ---- Transactions that place nothing ----

  predicate Quiet(t: Task, u: Task) {
    u.created == t.created && u.spec == t.spec && u.instance == t.instance && (u.Queued() ==> t.Queued())
  }

  ghost predicate QuietAll(tasks: seq<Task>, after: seq<Task>) {
    |after| == |tasks| && forall i | 0 <= i < |tasks| :: Quiet(tasks[i], after[i])
  }

  lemma {:induction false} QuietFair(tasks: seq<Task>, after: seq<Task>, now: int)
    requires Fair(tasks) && Past(tasks, now) && QuietAll(tasks, after)
    ensures Fair(after) && Past(after, now)
  {
    forall i, j | 0 <= i < |after| && 0 <= j < |after| && after[i].Queued() && after[j].instance != NONE
                  && after[i].spec.pool == after[j].spec.pool
      ensures after[j].created <= after[i].created
    {
      assert Quiet(tasks[i], after[i]) && Quiet(tasks[j], after[j]);
    }
    assert forall i | 0 <= i < |after| :: Quiet(tasks[i], after[i]);
  }

  lemma {:induction false} SavedQuiet(tasks: seq<Task>, id: Key, u: Task)
    requires UniqueTasks(tasks) && FindTask(tasks, id).Some? && u.id == id && Quiet(FindTask(tasks, id).value, u)
    ensures QuietAll(tasks, SaveTask(tasks, u))
  {
    FindTaskSound(tasks, id);
    SavedTasks(tasks, FindTask(tasks, id).value, u);
  }

  lemma {:induction false} CancelQuiet(s: Store, client: Key, id: Key, now: int)
    requires UniqueTasks(s.tasks)
    ensures QuietAll(s.tasks, CancelTask(s, client, id, now).store.tasks)
  {
    if CancelTask(s, client, id, now).store != s {
      CancelFrame(s, client, id, now);
      var t := FindTask(s.tasks, id).value;
      FindTaskSound(s.tasks, id);
      SavedQuiet(s.tasks, id, AsCancelled(t, now));
    }
  }

  lemma {:induction false} ReportQuiet(s: Store, node: Key, id: Key, r: TaskReport, now: int)
    requires UniqueTasks(s.tasks)
    ensures QuietAll(s.tasks, ReportTask(s, node, id, r, now).store.tasks)
  {
    if ReportTask(s, node, id, r, now).store != s {
      var u := ReportFrame(s, node, id, r, now);
      FindTaskSound(s.tasks, id);
      SavedQuiet(s.tasks, id, u);
    }
  }

  lemma {:induction false} RevokeQuiet(s: Store, client: Key, now: int)
    ensures QuietAll(s.tasks, RevokeClient(s, client, now).store.tasks)
  {
    assert forall i | 0 <= i < |s.tasks| :: Quiet(s.tasks[i], RevokedTask(s.runs, s.tasks[i], client, now));
  }

  lemma {:induction false} SyncQuiet(s: Store, name: Key, o: NodeReport, now: int)
    ensures QuietAll(s.tasks, SyncNode(s, name, o, now).store.tasks)
  {
    SyncFrame(s, name, o, now);
  }

  lemma {:induction false} StepQuiet(s: Store, op: Op, now: int)
    requires UniqueTasks(s.tasks) && !op.DoSubmit? && !op.DoDispatch?
    ensures QuietAll(s.tasks, Step(s, op, now).tasks)
  {
    match op
    case DoCancel(client, id) => CancelQuiet(s, client, id, now);
    case DoRevoke(client) => RevokeQuiet(s, client, now);
    case DoReport(node, id, r) => ReportQuiet(s, node, id, r, now);
    case DoSync(node, o) => SyncQuiet(s, node, o, now);
    case _ => OtherTasks(s, op, now);
  }

  // ---- Submission ----

  lemma {:induction false} GrownFair(tasks: seq<Task>, t: Task)
    requires Fair(tasks) && Past(tasks, t.created) && t.instance == NONE
    ensures Fair(tasks + [t]) && Past(tasks + [t], t.created)
  {
  }

  lemma {:induction false} BoundFair(tasks: seq<Task>, t: Task, u: Task)
    requires UniqueTasks(tasks) && Fair(tasks) && Past(tasks, t.created) && t in tasks
    requires u.id == t.id && u.spec == t.spec && u.created == t.created && u.instance != NONE
    requires !OlderInPool(tasks, t)
    ensures Fair(SaveTask(tasks, u)) && Past(SaveTask(tasks, u), t.created)
  {
    SavedTasks(tasks, t, u);
    AloneInPool(tasks, t);
    var after := SaveTask(tasks, u);
    var k :| 0 <= k < |tasks| && tasks[k] == t;
    forall i, j | 0 <= i < |after| && 0 <= j < |after| && after[i].Queued() && after[j].instance != NONE
                  && after[i].spec.pool == after[j].spec.pool
      ensures after[j].created <= after[i].created
    {
      assert i != k && after[i] == tasks[i];
      assert tasks[i].id != tasks[k].id;
      assert j != k;
    }
  }

  lemma {:induction false} SubmitFair(s: Store, client: Key, spec: TaskSpec, id: Key, instanceID: Key, now: int)
    requires Sound(s) && Fair(s.tasks) && Past(s.tasks, now)
    ensures Fair(Submit(s, client, spec, id, instanceID, now).store.tasks)
    ensures Past(Submit(s, client, spec, id, instanceID, now).store.tasks, now)
  {
    var s' := Submit(s, client, spec, id, instanceID, now).store;
    if s'.tasks != s.tasks {
      var t := NewTask(client, spec, id, now);
      var tasks := s.tasks + [t];
      SubmittedRunning(s, t);
      GrownFair(s.tasks, t);
      NewFrame(s, t, instanceID, now);
      DispatchOneRuns(s.config, s.obs, now, Tables(s.runs, tasks), t, instanceID);
      if s'.tasks != tasks {
        assert tasks[|s.tasks|] == t;
        BoundFair(tasks, t, t.(instance := instanceID, updated := now));
      }
    }
  }

  /** A new task is placed at once only if no other of its pool waits. */
  lemma {:induction false} AloneInPool(tasks: seq<Task>, t: Task)
    requires UniqueTasks(tasks) && !OlderInPool(tasks, t)
    ensures forall i | 0 <= i < |tasks| :: tasks[i].Queued() && tasks[i].spec.pool == t.spec.pool ==> tasks[i].id == t.id
  {
    QueueSound(tasks);
    forall i | 0 <= i < |tasks| && tasks[i].Queued() && tasks[i].spec.pool == t.spec.pool
      ensures tasks[i].id == t.id
    {
      assert tasks[i] in QueuedTasks(tasks);
      var k :| 0 <= k < |QueuedTasks(tasks)| && QueuedTasks(tasks)[k] == tasks[i];
    }
  }

  // ---- Dispatching ----

  /** Of two tasks waiting before, the one placed is not the younger. */
  lemma {:induction false} DispatchedInOrder(s: Store, draw: Key -> Key, now: int, i: nat, j: nat)
    requires Sound(s) && s.revision > 0 && DispatchTasks(s, draw, now).reply.Ok?
    requires i < |s.tasks| && j < |s.tasks| && s.tasks[i].Queued() && s.tasks[j].Queued()
    requires s.tasks[i].spec.pool == s.tasks[j].spec.pool
    requires var s' := DispatchTasks(s, draw, now).store;
             && |s'.tasks| == |s.tasks| && UniqueTasks(s'.tasks)
             && s'.tasks[i].id == s.tasks[i].id && s'.tasks[i].Queued()
             && s'.tasks[j].id == s.tasks[j].id && s'.tasks[j].instance != NONE
    ensures s.tasks[j].created <= s.tasks[i].created
  {
    var queued, s' := QueuedTasks(s.tasks), DispatchTasks(s, draw, now).store;
    QueueSound(s.tasks);
    assert s.tasks[i] in queued && s.tasks[j] in queued;
    var x :| 0 <= x < |queued| && queued[x] == s.tasks[i];
    var y :| 0 <= y < |queued| && queued[y] == s.tasks[j];
    TaskAt(s'.tasks, i);
    TaskAt(s'.tasks, j);
    DispatchIsFair(s, draw, now, x);
    assert y < x;
    assert !Older(queued[x], queued[y]);
  }

  lemma {:induction false} DispatchFair(s: Store, draw: Key -> Key, now: int)
    requires Sound(s) && Fair(s.tasks) && Past(s.tasks, now)
    ensures Fair(DispatchTasks(s, draw, now).store.tasks)
    ensures Past(DispatchTasks(s, draw, now).store.tasks, now)
  {
    var s' := DispatchTasks(s, draw, now).store;
    DispatchSound(s, draw, now);
    DispatchMoves(s, draw, now);
    forall i | 0 <= i < |s.tasks|
      ensures Dispatched(s.tasks[i], s'.tasks[i], now)
    {
    }
    forall i, j | 0 <= i < |s'.tasks| && 0 <= j < |s'.tasks| && s'.tasks[i].Queued() && s'.tasks[j].instance != NONE
                  && s'.tasks[i].spec.pool == s'.tasks[j].spec.pool
      ensures s'.tasks[j].created <= s'.tasks[i].created
    {
      assert s'.tasks[i] == s.tasks[i];
      if s'.tasks[j] != s.tasks[j] {
        DispatchedInOrder(s, draw, now, i, j);
      }
    }
  }

  // ---- Runs ----

  /** On a clock that never goes back, a task is never overtaken in its pool,
      however submissions, dispatches, cancellations and releases interleave. */
  lemma {:induction false} AlwaysFair(ops: seq<Timed>, now: int)
    requires Monotone(ops) && (ops != [] ==> ops[|ops| - 1].now <= now)
    ensures Fair(Run(ops).tasks) && Past(Run(ops).tasks, now)
  {
    if ops != [] {
      var front, last := ops[..|ops| - 1], ops[|ops| - 1];
      AlwaysFair(front, last.now);
      AlwaysSound(front);
      StepFair(Run(front), last.op, last.now);
    }
  }

  lemma {:induction false} StepFair(s: Store, op: Op, now: int)
    requires Sound(s) && Fair(s.tasks) && Past(s.tasks, now)
    ensures Fair(Step(s, op, now).tasks) && Past(Step(s, op, now).tasks, now)
  {
    if op.DoSubmit? {
      SubmitFair(s, op.client, op.spec, op.id, op.instanceID, now);
    } else if op.DoDispatch? {
      DispatchFair(s, op.draw, now);
    } else {
      StepQuiet(s, op, now);
      QuietFair(s.tasks, Step(s, op, now).tasks, now);
    }
  }
}
