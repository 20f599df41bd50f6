/** What a node's report changes: which reports are accepted, and each table
    afterwards, told by the rows before and the report. */
module Reports {
  import opened Resources
  import opened Model
  import opened Ledger
  import opened State
  import opened Transactions
  import opened Sync
  import opened Consistency
  import opened Soundness
  import opened Movement
  import opened Teardown
  import Handlers

  // ---- Acceptance ----

  predicate Presentable(name: Key, o: NodeReport) {
    && name != NONE && o.node == name && o.sequence >= 1 && o.bootKnown
    && 1 <= o.ceiling.cpu <= 65536 && 512 <= o.ceiling.memory <= 1073741824 && 1 <= o.ceiling.disk <= 1073741824
    && 0 <= o.freeDiskGiB <= 1073741824 && |o.vms| <= 10000 && |o.digests| <= 4096
    && forall i, j | 0 <= i < j < |o.vms| :: o.vms[i].id != o.vms[j].id
  }

  /** No row of the node contradicts the report: nothing is deleted that was
      not being deleted, and every state is a known one. */
  predicate Plausible(runs: seq<Instance>, name: Key, o: NodeReport) {
    forall i, j | 0 <= i < |runs| && 0 <= j < |o.vms| && runs[i].node == name && runs[i].state != Deleted && o.vms[j].id == runs[i].id ::
      o.vms[j].state != VMOther && (o.vms[j].state == VMDeleted ==> runs[i].state == Deleting)
  }

  lemma {:induction false} StateIff(vms: seq<VMReport>, id: Key, r: ReportState)
    requires forall i, j | 0 <= i < j < |vms| :: vms[i].id != vms[j].id
    ensures StateOf(vms, id) == Some(r) <==> exists j | 0 <= j < |vms| :: vms[j].id == id && vms[j].state == r
    ensures StateOf(vms, id) == None <==> forall j | 0 <= j < |vms| :: vms[j].id != id
  {
    if vms != [] {
      var front := vms[..|vms| - 1];
      StateIff(front, id, r);
      assert forall j | 0 <= j < |front| :: front[j] == vms[j];
    }
  }

  lemma {:induction false} RowsFaultIff(name: Key, vms: seq<VMReport>, runs: seq<Instance>)
    ensures RowsFault(name, vms, runs).None? <==>
            forall i | 0 <= i < |runs| && Concerns(name, runs[i]) :: RowFault(runs[i], StateOf(vms, runs[i].id)).None?
  {
    if runs != [] {
      RowsFaultIff(name, vms, Init(runs));
      assert forall i | 0 <= i < |runs| - 1 :: Init(runs)[i] == runs[i];
    }
  }

  lemma {:induction false} PlausibleIff(runs: seq<Instance>, name: Key, o: NodeReport)
    requires forall i, j | 0 <= i < j < |o.vms| :: o.vms[i].id != o.vms[j].id
    ensures RowsFault(name, o.vms, runs).None? <==> Plausible(runs, name, o)
  {
    RowsFaultIff(name, o.vms, runs);
    forall i | 0 <= i < |runs| && Concerns(name, runs[i])
      ensures RowFault(runs[i], StateOf(o.vms, runs[i].id)).None? <==>
              forall j | 0 <= j < |o.vms| && o.vms[j].id == runs[i].id ::
                o.vms[j].state != VMOther && (o.vms[j].state == VMDeleted ==> runs[i].state == Deleting)
    {
      StateIff(o.vms, runs[i].id, VMOther);
      StateIff(o.vms, runs[i].id, VMDeleted);
    }
  }

  /** A report is accepted exactly when it is presentable, of a configured
      node whose budget its ceiling covers, newer than the last one, and
      plausible. */
  lemma {:induction false} AcceptedExactly(s: Store, name: Key, o: NodeReport, now: int)
    requires Sound(s)
    ensures SyncNode(s, name, o, now).reply.Ok? <==>
            && Presentable(name, o) && s.config.Node(name).Some? && s.config.Node(name).value.budget.Fits(o.ceiling)
            && (name in s.obs ==> s.obs[name].sequence < o.sequence)
            && Plausible(s.runs, name, o)
    ensures SyncNode(s, name, o, now).reply.Err? ==> SyncNode(s, name, o, now).store == s
  {
    if SyncFault(s, name, o).None? {
      AcceptedIsAnswered(s, name, o, now);
    }
    if Sync.Distinct(o.vms) {
      PlausibleIff(s.runs, name, o);
    }
  }

  /** After an accepted report no other with the same or a smaller number is:
      a repeated or overtaken report changes nothing. */
  lemma {:induction false} NewestOnly(s: Store, name: Key, o: NodeReport, now: int, other: NodeReport, later: int)
    requires Sound(s) && SyncNode(s, name, o, now).reply.Ok? && other.sequence <= o.sequence
    ensures var after := SyncNode(s, name, o, now).store;
            SyncNode(after, name, other, later).reply.Err? && SyncNode(after, name, other, later).store == after
  {
    var after := SyncNode(s, name, o, now).store;
    SyncSound(s, name, o, now);
    AcceptedExactly(after, name, other, later);
  }

  // ---- The tables afterwards ----

  /** One row of the node: its next state, what it holds, its registration. */
  predicate RowTold(a: Instance, r: Option<ReportState>, now: int, b: Instance) {
    && b == a.(state := b.state, held := b.held, jit := b.jit, updated := now)
    && (r == Some(VMDeleted) ==> a.state == Deleting && b.state == Deleted && b.held == ZERO && b.jit == 0)
    && (r == Some(VMStopped) ==> b.state == Deleting && b.held == Resources(0, 0, a.held.disk) && b.jit == a.jit)
    && (r == Some(VMFailed) ==> b.state == Stopping && b.held == a.held && b.jit == a.jit)
    && (r == Some(VMRunning) ==> b.state == (if a.state == Provisioning then Idle else a.state) && b.held == a.held && b.jit == a.jit)
    && (r == None || r == Some(VMUnknown) ==> b.state == a.state && b.held == a.held && b.jit == a.jit)
  }

  lemma {:induction false} ObservedTold(a: Instance, r: Option<ReportState>, now: int)
    requires RowFault(a, r).None?
    ensures RowTold(a, r, now, Observed(a, r, now))
  {
  }

  lemma {:induction false} RowsTold(s: Store, name: Key, o: NodeReport, now: int, i: nat)
    requires SyncNode(s, name, o, now).reply.Ok? && i < |s.runs|
    ensures var after := SyncNode(s, name, o, now).store.runs;
            && |after| == |s.runs|
            && if s.runs[i].node == name && s.runs[i].state != Deleted
               then RowTold(s.runs[i], StateOf(o.vms, s.runs[i].id), now, after[i])
               else after[i] == s.runs[i]
  {
    if Concerns(name, s.runs[i]) {
      NoRowFault(name, o.vms, s.runs, i);
      ObservedTold(s.runs[i], StateOf(o.vms, s.runs[i].id), now);
    }
  }

  /** A runner VM stopped before GitHub reported its job's end. */
  predicate StoppedEarly(name: Key, vms: seq<VMReport>, a: Instance, pool: Key) {
    && a.node == name && a.state != Deleted && a.pool.name == pool && StateOf(vms, a.id) == Some(VMStopped)
    && a.task == NONE && a.result == NONE && 0 < a.held.cpu
  }

  lemma {:induction false} BarrierTold(s: Store, name: Key, o: NodeReport, now: int, pool: Key)
    requires SyncNode(s, name, o, now).reply.Ok?
    ensures var after := SyncNode(s, name, o, now).store.demand;
            && (pool in after <==> pool in s.demand)
            && (pool in s.demand ==>
                  after[pool] == s.demand[pool].(barrier := s.demand[pool].barrier
                    || exists i :: 0 <= i < |s.runs| && StoppedEarly(name, o.vms, s.runs[i], pool)))
  {
    if i :| 0 <= i < |s.runs| && StoppedEarly(name, o.vms, s.runs[i], pool) {
      assert RaisesBarrier(name, o.vms, s.runs[i]);
    }
    if pool in Barred(name, o.vms, s.runs) {
      var i :| 0 <= i < |s.runs| && RaisesBarrier(name, o.vms, s.runs[i]) && s.runs[i].pool.name == pool;
      assert StoppedEarly(name, o.vms, s.runs[i], pool);
    }
  }

  /** The VM of a task is confirmed deleted. */
  predicate Confirms(name: Key, vms: seq<VMReport>, a: Instance, task: Key) {
    a.node == name && a.state != Deleted && a.task == task && task != NONE && StateOf(vms, a.id) == Some(VMDeleted)
  }

  lemma {:induction false} SecretsTold(s: Store, name: Key, o: NodeReport, now: int, j: nat)
    requires SyncNode(s, name, o, now).reply.Ok? && j < |s.tasks|
    ensures var t, after := s.tasks[j], SyncNode(s, name, o, now).store.tasks;
            && |after| == |s.tasks|
            && after[j] == t.(secret := t.secret && !exists i :: 0 <= i < |s.runs| && Confirms(name, o.vms, s.runs[i], t.id))
  {
    var t := s.tasks[j];
    if i :| 0 <= i < |s.runs| && Confirms(name, o.vms, s.runs[i], t.id) {
      assert Departs(name, o.vms, s.runs[i]);
    }
    if t.id in Gone(name, o.vms, s.runs) {
      var i :| 0 <= i < |s.runs| && Departs(name, o.vms, s.runs[i]) && s.runs[i].task != NONE && s.runs[i].task == t.id;
      assert Confirms(name, o.vms, s.runs[i], t.id);
    }
  }

  /** The node's row holds the report; only the operator drains a node. */
  lemma {:induction false} NodeTold(s: Store, name: Key, o: NodeReport, now: int)
    requires SyncNode(s, name, o, now).reply.Ok?
    ensures var after := SyncNode(s, name, o, now).store;
            && after.obs.Keys == s.obs.Keys + {name} && (forall n | n in s.obs && n != name :: after.obs[n] == s.obs[n])
            && var v := after.obs[name];
               && v.sequence == o.sequence && v.seen == now && v.ready == o.ready && v.isolation == o.isolation
               && v.ceiling == o.ceiling && v.freeDiskGiB == o.freeDiskGiB && v.digests == o.digests
               && (v.drained <==> name in s.obs && s.obs[name].drained)
    ensures var after := SyncNode(s, name, o, now).store;
            after == s.(obs := after.obs, runs := after.runs, demand := after.demand, tasks := after.tasks)
  {
  }

  // ---- A task's report ----

  predicate AtWork(a: Instance) {
    a.state == Provisioning || a.state == Idle || a.state == Busy || a.state == Stopping
  }

  predicate ReportFits(node: Key, id: Key, r: TaskReport) {
    && node != NONE && id != NONE && r.instance != NONE && r.progress <= 32768 && (0 < r.progress || r.result.Some?)
    && (r.result.Some? ==> r.result.value.wellFormed)
  }

  predicate ReportOwned(node: Key, t: Task, a: Instance, r: TaskReport) {
    && ReportFits(node, t.id, r) && a.task == t.id && t.instance == a.id && a.node == node
    && (r.result.Some? ==> a.state == Deleting || a.state == Deleted)
  }

  lemma {:induction false} OwnedIff(s: Store, node: Key, t: Task, a: Instance, r: TaskReport, now: int)
    requires FindTask(s.tasks, t.id) == Some(t) && FindInstance(s.runs, r.instance) == Some(a)
    ensures ReportTask(s, node, t.id, r, now).reply.Ok? <==> ReportOwned(node, t, a, r)
    ensures ReportTask(s, node, t.id, r, now).reply.Err? ==> ReportTask(s, node, t.id, r, now).store == s
    ensures ReportTask(s, node, t.id, r, now).reply.Ok? ==>
              ReportTask(s, node, t.id, r, now).store == s.(tasks := SaveTask(s.tasks, Handlers.Noted(t, a, r, now)))
  {
    Handlers.ReportExactly(s, node, t.id, r, now);
  }

  /** One task row after a report: the newest progress of a VM at work and the
      first result. */
  predicate TaskNoted(t: Task, a: Instance, r: TaskReport, u: Task) {
    && u == t.(progress := u.progress, result := u.result, updated := u.updated)
    && u.progress == (if 0 < r.progress && AtWork(a) then r.progress else t.progress)
    && u.result == (if t.result.Some? then t.result else r.result)
  }

  lemma {:induction false} SavedAt(tasks: seq<Task>, i: nat, u: Task)
    requires UniqueTasks(tasks) && i < |tasks| && u.id == tasks[i].id
    ensures SaveTask(tasks, u) == tasks[i := u]
  {
  }

  lemma {:induction false} NotedTold(t: Task, a: Instance, r: TaskReport, now: int)
    ensures TaskNoted(t, a, r, Handlers.Noted(t, a, r, now)) && Handlers.Noted(t, a, r, now).id == t.id
  {
  }

  /** A task's node may report its progress, or its result once the VM has
      stopped, and nothing but the task's row changes. */
  lemma {:induction false} TaskTold(s: Store, node: Key, r: TaskReport, now: int, i: nat, k: nat)
    requires UniqueTasks(s.tasks) && UniqueInstances(s.runs)
    requires i < |s.tasks| && k < |s.runs| && s.runs[k].id == r.instance
    ensures var o := ReportTask(s, node, s.tasks[i].id, r, now);
            && (o.reply.Ok? <==> ReportOwned(node, s.tasks[i], s.runs[k], r))
            && (o.reply.Err? ==> o.store == s)
            && (o.reply.Ok? ==> |o.store.tasks| == |s.tasks| && o.store == s.(tasks := s.tasks[i := o.store.tasks[i]])
                                && TaskNoted(s.tasks[i], s.runs[k], r, o.store.tasks[i]))
  {
    var t, a := s.tasks[i], s.runs[k];
    TaskAt(s.tasks, i);
    InstanceAt(s.runs, k);
    OwnedIff(s, node, t, a, r, now);
    NotedTold(t, a, r, now);
    SavedAt(s.tasks, i, Handlers.Noted(t, a, r, now));
  }
}
