/** What the controller's short transactions promise across calls: retries
    change nothing, and what one decides the next does not undo. */
module Handlers {
  import opened Resources
  import opened Model
  import opened Order
  import opened Ledger
  import opened Placement
  import opened State
  import opened Transactions
  import opened Sync
  import opened Consistency
  import opened Soundness

  lemma {:induction false} FoundSaved(runs: seq<Instance>, a: Instance, b: Instance)
    requires UniqueInstances(runs) && FindInstance(runs, a.id) == Some(a) && b.id == a.id
    ensures FindInstance(SaveInstance(runs, b), a.id) == Some(b)
  {
    FindInstanceSound(runs, a.id);
    SavedRuns(runs, a, b);
    var after := SaveInstance(runs, b);
    var k :| 0 <= k < |runs| && runs[k] == a;
    assert forall i | 0 <= i < |runs| :: after[i].id == runs[i].id;
    assert after[k] == b;
    InstanceAt(after, k);
  }

  /** A registration is never replaced, whatever GitHub answers later. */
  lemma {:induction false} RegisteredOnce(s: Store, id: Key, runnerID: int, size: nat, now: int, other: int, more: nat, later: int)
    requires UniqueInstances(s.runs)
    ensures var r := SetJIT(s, id, runnerID, size, now);
            r.reply.Ok? ==> SetJIT(r.store, id, other, more, later).store == r.store
  {
    var r := SetJIT(s, id, runnerID, size, now);
    if r.reply.Ok? {
      FindInstanceSound(s.runs, id);
      var a := FindInstance(s.runs, id).value;
      if !a.jitReady {
        FoundSaved(s.runs, a, a.(jitReady := true, runnerID := runnerID, state := Provisioning, updated := now, jit := size));
      }
    }
  }

  /** The two fences are independent: setting both, in either order, gives the
      same store, and blocks the pool if either is up. */
  lemma {:induction false} FencesIndependent(s: Store, pool: Key, barrier: bool, intake: bool)
    ensures var x := SetDemandFlag(SetDemandFlag(s, Barrier, pool, barrier).store, Intake, pool, intake).store;
            && x == SetDemandFlag(SetDemandFlag(s, Intake, pool, intake).store, Barrier, pool, barrier).store
            && (pool != NONE && pool in s.demand ==> (x.demand[pool].Blocked() <==> barrier || intake))
  {
    var x := SetDemandFlag(SetDemandFlag(s, Barrier, pool, barrier).store, Intake, pool, intake).store;
    var y := SetDemandFlag(SetDemandFlag(s, Intake, pool, intake).store, Barrier, pool, barrier).store;
    assert x.demand == y.demand;
  }

  /** A poll of GitHub clears the barrier but not the intake fence. */
  lemma {:induction false} RefreshKeepsFence(s: Store, pool: Key, desired: int, now: int)
    requires RefreshDemand(s, pool, desired, now).reply.Ok? && pool in s.demand
    ensures RefreshDemand(s, pool, desired, now).store.demand[pool].Blocked() <==> s.demand[pool].intake
  {
  }

  /** A drained node stays drained through its own reports, and gets no VM
      whatever it reports. */
  lemma {:induction false} DrainSticks(s: Store, node: Key, o: NodeReport, now: int, p: Pool, n: Node, later: int)
    requires Drain(s, node, true).reply.Ok? && n.name == node
    ensures var after := SyncNode(Drain(s, node, true).store, node, o, now).store;
            && node in after.obs && after.obs[node].drained
            && !Feasible(after.config, p, after.runs, after.obs, later, n)
  {
    var after := SyncNode(Drain(s, node, true).store, node, o, now).store;
    if Feasible(after.config, p, after.runs, after.obs, later, n) {
      FeasibleRow(after.config, p, after.runs, after.obs, later, n);
    }
  }

  lemma {:induction false} TaskSaved(tasks: seq<Task>, t: Task, u: Task)
    requires UniqueTasks(tasks) && FindTask(tasks, t.id) == Some(t) && u.id == t.id
    ensures FindTask(SaveTask(tasks, u), t.id) == Some(u) && UniqueTasks(SaveTask(tasks, u))
  {
    FindTaskSound(tasks, t.id);
    FindSaved(tasks, t, u, t.id);
    SavedTasks(tasks, t, u);
    assert forall i | 0 <= i < |tasks| :: SaveTask(tasks, u)[i].id == tasks[i].id;
  }

  lemma {:induction false} CancelMarks(s: Store, client: Key, id: Key, now: int)
    requires UniqueTasks(s.tasks) && CancelTask(s, client, id, now).reply == Ok(true)
    ensures var t, u := FindTask(s.tasks, id), FindTask(CancelTask(s, client, id, now).store.tasks, id);
            t.Some? && u.Some? && u.value.cancelled && u.value.client == t.value.client && (client == NONE || t.value.client == client)
    ensures UniqueTasks(CancelTask(s, client, id, now).store.tasks)
  {
    var t := FindTask(s.tasks, id).value;
    FindTaskSound(s.tasks, id);
    TaskSaved(s.tasks, t, t.(cancelled := true, updated := now, secret := false));
    TaskSaved(s.tasks, t, t.(cancelled := true, updated := now));
  }

  /** Cancelling again changes nothing. */
  lemma {:induction false} CancelledOnce(s: Store, client: Key, id: Key, now: int, later: int)
    requires UniqueTasks(s.tasks) && CancelTask(s, client, id, now).reply.Ok?
    ensures CancelTask(CancelTask(s, client, id, now).store, client, id, later).store == CancelTask(s, client, id, now).store
  {
    if CancelTask(s, client, id, now).reply == Ok(true) {
      CancelMarks(s, client, id, now);
    } else {
      CancelRepeats(s, client, id, now, later);
    }
  }

  lemma {:induction false} CancelRepeats(s: Store, client: Key, id: Key, now: int, later: int)
    requires CancelTask(s, client, id, now).reply == Ok(false)
    ensures CancelTask(s, client, id, now).store == s && CancelTask(s, client, id, later).store == s
  {
  }

  /** And a cancelled task waits for no VM any more. */
  lemma {:induction false} CancelledNeverPlaced(s: Store, client: Key, id: Key, now: int)
    requires UniqueTasks(s.tasks) && CancelTask(s, client, id, now).reply == Ok(true)
    ensures forall t | t in QueuedTasks(CancelTask(s, client, id, now).store.tasks) :: t.id != id
  {
    CancelMarks(s, client, id, now);
    CancelledWaits(CancelTask(s, client, id, now).store.tasks, id);
  }

  lemma {:induction false} CancelledWaits(tasks: seq<Task>, id: Key)
    requires UniqueTasks(tasks) && FindTask(tasks, id).Some? && FindTask(tasks, id).value.cancelled
    ensures forall t | t in QueuedTasks(tasks) :: t.id != id
  {
    QueueSound(tasks);
    forall t | t in QueuedTasks(tasks)
      ensures t.id != id
    {
      assert t in tasks && t.Queued();
      var k :| 0 <= k < |tasks| && tasks[k] == t;
      TaskAt(tasks, k);
    }
  }

  function Noted(t: Task, a: Instance, r: TaskReport, now: int): Task {
    var live := a.state == Provisioning || a.state == Idle || a.state == Busy || a.state == InstanceState.Stopping;
    var noted := if r.progress > 0 && live then t.(progress := r.progress) else t;
    if r.result.Some? && t.result.None? then noted.(result := r.result, updated := now) else noted
  }

  predicate Reportable(s: Store, node: Key, id: Key, r: TaskReport) {
    && node != NONE && id != NONE && r.instance != NONE && r.progress <= MAX_PROGRESS && (r.progress > 0 || r.result.Some?)
    && (r.result.Some? ==> r.result.value.wellFormed)
    && FindTask(s.tasks, id).Some? && FindInstance(s.runs, r.instance).Some?
    && var t, a := FindTask(s.tasks, id).value, FindInstance(s.runs, r.instance).value;
       && a.task == id && t.instance == a.id && a.node == node
       && (r.result.Some? ==> a.state == Deleting || a.state == Deleted)
  }

  /** Only the node that runs the task's VM may report, and a result only once
      the VM has stopped. */
  lemma {:induction false} ReportExactly(s: Store, node: Key, id: Key, r: TaskReport, now: int)
    ensures ReportTask(s, node, id, r, now).reply.Ok? <==> Reportable(s, node, id, r)
    ensures Reportable(s, node, id, r) ==>
              ReportTask(s, node, id, r, now)
              == Outcome(s.(tasks := SaveTask(s.tasks, Noted(FindTask(s.tasks, id).value, FindInstance(s.runs, r.instance).value, r, now))), Ok(true))
  {
  }

  /** A report that is sent again, because its reply was lost, changes
      nothing: the first result stays. */
  lemma {:induction false} ReportedOnce(s: Store, node: Key, id: Key, r: TaskReport, now: int, later: int)
    requires UniqueTasks(s.tasks) && ReportTask(s, node, id, r, now).reply.Ok?
    ensures ReportTask(ReportTask(s, node, id, r, now).store, node, id, r, later) == ReportTask(s, node, id, r, now)
  {
    var s' := ReportTask(s, node, id, r, now).store;
    ReportExactly(s, node, id, r, now);
    ReportExactly(s', node, id, r, later);
    var t, a := FindTask(s.tasks, id).value, FindInstance(s.runs, r.instance).value;
    FindTaskSound(s.tasks, id);
    TaskSaved(s.tasks, t, Noted(t, a, r, now));
    assert Noted(Noted(t, a, r, now), a, r, later) == Noted(t, a, r, now);
    SavedTwice(s.tasks, Noted(t, a, r, now));
  }

  lemma {:induction false} SavedTwice(tasks: seq<Task>, u: Task)
    ensures SaveTask(SaveTask(tasks, u), u) == SaveTask(tasks, u)
  {
  }

  /** A revoked client is never approved again, and nothing of its is
      delivered to a VM. */
  lemma {:induction false} RevokedForGood(s: Store, client: Key, now: int, replacing: bool, item: Pending)
    requires RevokeClient(s, client, now).reply.Ok?
    ensures var after := RevokeClient(s, client, now).store;
            && ApproveClient(after, client, replacing).store == after
            && (item.action == EnsureVM && item.instance.task != NONE && FindTask(after.tasks, item.instance.task).Some?
                && FindTask(after.tasks, item.instance.task).value.client == client
                ==> LoadOf(after.tasks, after.clients, item) == Ok(None))
  {
  }
}
