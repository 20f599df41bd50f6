/** The state a client sees for its task (deriveTaskState of
    internal/core/task.go) only ever moves forward. */
module Lifecycle {
  import opened Resources
  import opened Model
  import opened Order
  import opened Validate
  import opened Ledger
  import opened State
  import opened Transactions
  import opened Sync
  import opened Consistency
  import opened Movement
  import opened Soundness
  import opened Runs

  datatype Seen = Queued | Starting | Running | Stopping | Collecting | Finished | Succeeded | Failed | Cancelled | Expired

  function Derive(t: Task, inst: Option<Instance>, now: int): Seen {
    if t.expired then Seen.Expired
    else if t.result.Some? && Transactions.Finished(inst) then
      if t.result.value.status == StatusSucceeded then Seen.Succeeded
      else if t.cancelled then Seen.Cancelled
      else Seen.Failed
    else
      match inst
      case None => if t.cancelled then Seen.Cancelled else if t.instance == NONE then Seen.Queued else Seen.Finished
      case Some(a) =>
        match a.state
        case Stopping => Seen.Stopping
        case Deleting => Seen.Collecting
        case Deleted =>
          if t.cancelled then Seen.Cancelled
          else if now - a.updated > COLLECTING_GRACE then Seen.Finished
          else Seen.Collecting
        case _ =>
          if t.cancelled || now >= a.deadline then Seen.Stopping
          else if a.state == Idle || a.state == Busy then Seen.Running
          else Seen.Starting
  }

  function View(s: Store, i: nat, now: int): Seen
    requires i < |s.tasks|
  {
    var t := s.tasks[i];
    Derive(t, if t.instance == NONE then None else FindInstance(s.runs, t.instance), now)
  }

  // ---- The order of states ----

  function Stage(x: Seen): nat {
    match x
    case Queued => 0
    case Starting => 1
    case Running => 2
    case Stopping => 3
    case Collecting => 4
    case _ => 5
  }

  /** What may follow: a later stage, or one of the late edges that a result
      arriving after the end still takes. Only a queued task expires. */
  predicate Follows(x: Seen, y: Seen) {
    || x == y
    || (Stage(x) < Stage(y) && (y == Seen.Expired ==> x == Seen.Queued))
    || (x == Seen.Finished && (y == Seen.Succeeded || y == Seen.Failed))
    || (x == Seen.Cancelled && y == Seen.Succeeded)
  }

  lemma {:induction false} FollowsTransitive(x: Seen, y: Seen, z: Seen)
    requires Follows(x, y) && Follows(y, z)
    ensures Follows(x, z)
  {
  }

  /** Succeeded, Failed and Expired are absorbing. */
  lemma {:induction false} Absorbing(x: Seen, y: Seen)
    requires x == Seen.Succeeded || x == Seen.Failed || x == Seen.Expired
    ensures Follows(x, y) <==> y == x
  {
  }

  // ---- One step, one task ----

  function Phase(x: InstanceState): nat {
    match x
    case Reserved => 0
    case Provisioning => 1
    case Idle => 2
    case Busy => 2
    case Stopping => 3
    case Deleting => 4
    case Deleted => 5
  }

  /** A task VM's row moves forward, and a deleted one never changes. */
  predicate RowForward(a: Instance, b: Instance, now: int) {
    && b.id == a.id && b.task == a.task && b.deadline == a.deadline
    && (a.task != NONE ==>
          && Phase(a.state) <= Phase(b.state)
          && (a.state == Deleted ==> b == a)
          && (a.state != Deleted && b.state == Deleted ==> b.updated == now))
  }

  predicate NewRow(x: Instance) {
    (x.state == Provisioning || x.state == Reserved) && x.held == x.pool.Charge()
  }

  ghost predicate Moves(before: seq<Instance>, after: seq<Instance>, now: int) {
    && |before| <= |after|
    && (forall i | 0 <= i < |before| :: RowForward(before[i], after[i], now))
    && (forall i | |before| <= i < |after| :: NewRow(after[i]))
  }

  /** How a task row may change, given its VM beforehand. */
  predicate TaskForward(t: Task, a: Option<Instance>, u: Task) {
    && u.id == t.id && u.spec == t.spec && u.created == t.created && u.client == t.client
    && (t.instance != NONE ==> u.instance == t.instance)
    && (t.instance == NONE && u.instance != NONE ==> t.Queued() && !u.cancelled && !u.expired && u.result == t.result)
    && (t.cancelled ==> u.cancelled) && (t.expired ==> u.expired)
    && (u.cancelled && !t.cancelled ==> !t.expired && (t.instance != NONE ==> !Transactions.Finished(a)))
    && (u.expired && !t.expired ==> t.Queued())
    && (t.result.Some? ==> u.result == t.result)
    && (u.result.Some? && t.result.None? ==> t.instance != NONE && Transactions.Finished(a) && u.cancelled == t.cancelled)
  }

  /** A result is stored only once its VM is finished. */
  predicate ResultRule(t: Task, a: Option<Instance>) {
    t.result.Some? ==> t.instance != NONE && Transactions.Finished(a)
  }

  function VMOf(s: Store, t: Task): Option<Instance> {
    if t.instance == NONE then None else FindInstance(s.runs, t.instance)
  }

  ghost predicate ResultsLate(s: Store) {
    forall i | 0 <= i < |s.tasks| :: ResultRule(s.tasks[i], VMOf(s, s.tasks[i]))
  }

  /** Time passes and one transaction commits: the visible state follows. */
  lemma {:induction false} DeriveFollows(t: Task, a: Option<Instance>, u: Task, b: Option<Instance>, before: int, now: int, after: int)
    requires before <= now <= after && TaskOK(t) && TaskOK(u)
    requires TaskForward(t, a, u) && ResultRule(t, a)
    requires (t.instance == NONE ==> a.None?) && (u.instance == NONE ==> b.None?)
    requires t.instance != NONE ==> a.Some? && b.Some? && a.value.task != NONE && RowForward(a.value, b.value, now)
    requires t.instance == NONE && u.instance != NONE ==> b.Some? && Phase(b.value.state) <= 1
    ensures Follows(Derive(t, a, before), Derive(u, b, after))
  {
  }

  // ---- Where it would go back ----

  /** A host report of Failed takes a task's visible state back exactly when
      its VM is being deleted. */
  lemma {:induction false} FailedExactly(t: Task, a: Instance, now: int)
    requires !t.expired && a.state != Deleted
    ensures Follows(Derive(t, Some(a), now), Derive(t, Some(Observed(a, Some(VMFailed), now)), now)) <==> a.state != Deleting
  {
    var b := Observed(a, Some(VMFailed), now);
    assert b.state == InstanceState.Stopping && Derive(t, Some(b), now) == Seen.Stopping;
  }

  /** A runner event about a task's VM would take it back exactly when it
      makes a stopping VM busy again, or restarts the grace of a deleted one. */
  lemma {:induction false} EventExactly(t: Task, a: Instance, e: RunnerEvent, now: int)
    requires !t.expired
    ensures Follows(Derive(t, Some(a), now), Derive(t, Some(Witnessed(a, e, now)), now)) <==>
            && !(e.kind == BusyEvent && a.state == InstanceState.Stopping && !t.cancelled && now < a.deadline)
            && !(a.state == Deleted && t.result.None? && !t.cancelled && now - a.updated > COLLECTING_GRACE)
  {
    var b := Witnessed(a, e, now);
    assert b.updated == now && b.deadline == a.deadline;
    assert b.state == if e.kind == BusyEvent && a.Active() then Busy else a.state;
  }

  // ---- One step, all rows ----

  /** What the theorem excludes: a host report of Failed, which Inventory
      never makes, and GitHub events that name a task's VM, which GitHub has
      never heard of. */
  predicate Regular(s: Store, op: Op) {
    && (op.DoSync? ==> forall i | 0 <= i < |op.observation.vms| :: op.observation.vms[i].state != VMFailed)
    && (op.DoPersist? ==> forall i, j | 0 <= i < |op.events| && 0 <= j < |s.runs| :: s.runs[j].task != NONE ==> op.events[i].vm != s.runs[j].id)
  }

  lemma {:induction false} NoEvent(events: seq<RunnerEvent>, vm: Key)
    requires forall i | 0 <= i < |events| :: events[i].vm != vm
    ensures LastEvent(events, vm) == None
  {
    if events != [] {
      NoEvent(events[..|events| - 1], vm);
    }
  }

  lemma {:induction false} NotFailed(vms: seq<VMReport>, id: Key)
    requires forall i | 0 <= i < |vms| :: vms[i].state != VMFailed
    ensures StateOf(vms, id) != Some(VMFailed)
  {
    if vms != [] {
      NotFailed(vms[..|vms| - 1], id);
    }
  }

  lemma {:induction false} SameForward(runs: seq<Instance>, now: int)
    ensures Moves(runs, runs, now)
  {
  }

  lemma {:induction false} StoppingForward(runs: seq<Instance>, id: Key, updated: int, now: int)
    requires UniqueInstances(runs)
    requires FindInstance(runs, id).Some? && FindInstance(runs, id).value.Active()
    ensures Moves(runs, SaveInstance(runs, FindInstance(runs, id).value.(state := InstanceState.Stopping, updated := updated)), now)
  {
    FindInstanceSound(runs, id);
    SavedRuns(runs, FindInstance(runs, id).value, FindInstance(runs, id).value.(state := InstanceState.Stopping, updated := updated));
  }

  lemma {:induction false} StopForward(s: Store, id: Key, now: int)
    requires UniqueInstances(s.runs)
    ensures Moves(s.runs, StopInstance(s, id).store.runs, now)
  {
    SameForward(s.runs, now);
    var a := FindInstance(s.runs, id);
    if a.Some? && a.value.Active() {
      StoppingForward(s.runs, id, a.value.updated, now);
      assert a.value.(state := InstanceState.Stopping) == a.value.(state := InstanceState.Stopping, updated := a.value.updated);
    }
  }

  lemma {:induction false} CancelForward(s: Store, client: Key, id: Key, now: int)
    requires UniqueInstances(s.runs)
    ensures Moves(s.runs, CancelTask(s, client, id, now).store.runs, now)
  {
    SameForward(s.runs, now);
    if CancelTask(s, client, id, now).store.runs != s.runs {
      StoppingForward(s.runs, FindTask(s.tasks, id).value.instance, now, now);
    }
  }

  lemma {:induction false} RevokeForward(s: Store, client: Key, now: int)
    requires UniqueInstances(s.runs)
    ensures Moves(s.runs, RevokeClient(s, client, now).store.runs, now)
  {
    forall i | 0 <= i < |s.runs|
      ensures RowForward(s.runs[i], StopFor(s.runs, s.tasks, client, s.runs[i], now), now)
    {
      InstanceAt(s.runs, i);
    }
  }

  lemma {:induction false} SetJITForward(s: Store, id: Key, runnerID: int, size: nat, now: int)
    requires UniqueInstances(s.runs) && (forall i | 0 <= i < |s.runs| :: RowOK(s.runs[i]))
    ensures Moves(s.runs, SetJIT(s, id, runnerID, size, now).store.runs, now)
  {
    SameForward(s.runs, now);
    if SetJIT(s, id, runnerID, size, now).store.runs != s.runs {
      var a := FindInstance(s.runs, id).value;
      FindInstanceSound(s.runs, id);
      SavedRuns(s.runs, a, a.(jitReady := true, runnerID := runnerID, state := Provisioning, updated := now, jit := size));
    }
  }

  lemma {:induction false} PersistForward(s: Store, id: MessageID, pool: Key, desired: int, events: seq<RunnerEvent>, hold: bool, now: int)
    requires Regular(s, DoPersist(id, pool, desired, events, hold))
    ensures Moves(s.runs, PersistMessage(s, id, pool, desired, events, hold, now).store.runs, now)
  {
    SameForward(s.runs, now);
    forall i | 0 <= i < |s.runs|
      ensures RowForward(s.runs[i], AfterEvents(s.runs[i], pool, events, now), now)
    {
      if s.runs[i].task != NONE {
        NoEvent(events, s.runs[i].id);
      }
    }
  }

  lemma {:induction false} SyncRowForward(node: Key, vms: seq<VMReport>, now: int, a: Instance)
    requires StateOf(vms, a.id) != Some(VMFailed)
    requires Concerns(node, a) ==> RowFault(a, StateOf(vms, a.id)).None?
    ensures RowForward(a, SyncRow(node, vms, now, a), now)
  {
  }

  lemma {:induction false} SyncForward(s: Store, name: Key, o: NodeReport, now: int)
    requires Regular(s, DoSync(name, o))
    ensures Moves(s.runs, SyncNode(s, name, o, now).store.runs, now)
  {
    SameForward(s.runs, now);
    if SyncNode(s, name, o, now).store.runs != s.runs {
      assert RowsFault(name, o.vms, s.runs).None?;
      forall i | 0 <= i < |s.runs|
        ensures RowForward(s.runs[i], SyncRow(name, o.vms, now, s.runs[i]), now)
      {
        NotFailed(o.vms, s.runs[i].id);
        if Concerns(name, s.runs[i]) {
          NoRowFault(name, o.vms, s.runs, i);
        }
        SyncRowForward(name, o.vms, now, s.runs[i]);
      }
    }
  }

  // ---- Dispatching, row by row ----

  predicate Dispatched(t: Task, u: Task, now: int) {
    || u == t
    || (t.Queued() && u == Expire(t, now))
    || (t.Queued() && u.instance != NONE && u == t.(instance := u.instance, updated := now))
  }

  ghost predicate DispatchedAll(start: Tables, after: Tables, now: int) {
    && Moves(start.runs, after.runs, now) && start.runs <= after.runs
    && |after.tasks| == |start.tasks|
    && forall i | 0 <= i < |start.tasks| :: Dispatched(start.tasks[i], after.tasks[i], now)
  }

  lemma {:induction false} MovesGrown(runs: seq<Instance>, after: seq<Instance>, x: Instance, now: int)
    requires Moves(runs, after, now) && NewRow(x)
    ensures Moves(runs, after + [x], now)
  {
  }

  lemma {:induction false} SavedDispatched(start: Tables, d: Tables, q: Task, u: Task, now: int)
    requires DispatchedAll(start, d, now) && UniqueTasks(d.tasks)
    requires q in d.tasks && q.Queued() && u.id == q.id && Dispatched(q, u, now)
    ensures DispatchedAll(start, d.(tasks := SaveTask(d.tasks, u)), now)
  {
    SavedTasks(d.tasks, q, u);
  }

  lemma {:induction false} DispatchStepMoves(c: Config, obs: map<Key, Observation>, now: int, draw: Key -> Key, start: Tables, d: Dispatch, q: Task)
    requires DispatchedAll(start, d.tables, now) && UniqueTasks(d.tables.tasks)
    requires q in d.tables.tasks && q.Queued()
    requires DispatchStep(c, obs, now, draw, d, q).Ok?
    ensures DispatchedAll(start, DispatchStep(c, obs, now, draw, d, q).value.tables, now)
  {
    var after := DispatchStep(c, obs, now, draw, d, q).value.tables;
    if after != d.tables {
      if now - q.created > QUEUE_LIFETIME {
        SavedDispatched(start, d.tables, q, Expire(q, now), now);
      } else {
        var id := draw(q.id);
        SavedDispatched(start, d.tables, q, q.(instance := id, updated := now), now);
        MovesGrown(start.runs, d.tables.runs, Last(after.runs), now);
      }
    }
  }

  lemma {:induction false} DispatchQueueMoves(c: Config, obs: map<Key, Observation>, now: int, draw: Key -> Key, start: Tables, queued: seq<Task>, k: nat)
    requires Valid(c) && Soundness.Running(c, start) && UniqueTasks(queued) && k <= |queued|
    requires StillQueued(queued, 0, start.tasks)
    requires DispatchQueue(c, obs, now, draw, start, queued[..k]).Ok?
    ensures DispatchedAll(start, DispatchQueue(c, obs, now, draw, start, queued[..k]).value.tables, now)
  {
    if k == 0 {
      SameForward(start.runs, now);
    } else {
      assert queued[..k][..k - 1] == queued[..k - 1];
      DispatchQueueMoves(c, obs, now, draw, start, queued, k - 1);
      DispatchQueueKeeps(c, obs, now, draw, start, queued, k - 1);
      DispatchStepMoves(c, obs, now, draw, start, DispatchQueue(c, obs, now, draw, start, queued[..k - 1]).value, queued[k - 1]);
    }
  }

  lemma {:induction false} DispatchMoves(s: Store, draw: Key -> Key, now: int)
    requires Sound(s)
    ensures var s' := DispatchTasks(s, draw, now).store;
            DispatchedAll(Tables(s.runs, s.tasks), Tables(s'.runs, s'.tasks), now)
  {
    SameForward(s.runs, now);
    if DispatchTasks(s, draw, now).store != s {
      var queued := QueuedTasks(s.tasks);
      QueueSound(s.tasks);
      assert queued[..|queued|] == queued;
      DispatchQueueMoves(s.config, s.obs, now, draw, Tables(s.runs, s.tasks), queued, |queued|);
    }
  }

  // ---- One step, whichever it is ----

  lemma {:induction false} AppendMoves(s: Store, s': Store, now: int)
    requires s'.runs == s.runs || (|s'.runs| == |s.runs| + 1 && s'.runs[..|s.runs|] == s.runs
                                   && NewRow(Last(s'.runs)))
    ensures Moves(s.runs, s'.runs, now)
  {
    SameForward(s.runs, now);
    if s'.runs != s.runs {
      assert s'.runs == s.runs + [Last(s'.runs)];
      MovesGrown(s.runs, s.runs, Last(s'.runs), now);
    }
  }

  lemma {:induction false} DispatchOneRuns(c: Config, obs: map<Key, Observation>, now: int, tables: Tables, t: Task, id: Key)
    ensures var r := DispatchOne(c, obs, now, tables, t, id);
            r.Ok? && r.value.Some? ==>
              && |r.value.value.runs| == |tables.runs| + 1 && r.value.value.runs[..|tables.runs|] == tables.runs
              && Last(r.value.value.runs).state == Provisioning && NewRow(Last(r.value.value.runs))
              && r.value.value.tasks == SaveTask(tables.tasks, t.(instance := id, updated := now))
              && id != NONE
  {
  }

  lemma {:induction false} SubmitFrame(s: Store, client: Key, spec: TaskSpec, id: Key, instanceID: Key, now: int)
    ensures var s' := Submit(s, client, spec, id, instanceID, now).store;
            s' == s || s' == SubmitNew(s, NewTask(client, spec, id, now), instanceID, now).store
  {
  }

  lemma {:induction false} NewMoves(s: Store, t: Task, instanceID: Key, now: int)
    ensures Moves(s.runs, SubmitNew(s, t, instanceID, now).store.runs, now)
  {
    DispatchOneRuns(s.config, s.obs, now, Tables(s.runs, s.tasks + [t]), t, instanceID);
    NewFrame(s, t, instanceID, now);
    AppendMoves(s, SubmitNew(s, t, instanceID, now).store, now);
  }

  lemma {:induction false} SubmitMoves(s: Store, client: Key, spec: TaskSpec, id: Key, instanceID: Key, now: int)
    ensures Moves(s.runs, Submit(s, client, spec, id, instanceID, now).store.runs, now)
  {
    SubmitFrame(s, client, spec, id, instanceID, now);
    SameForward(s.runs, now);
    NewMoves(s, NewTask(client, spec, id, now), instanceID, now);
  }

  lemma {:induction false} AllocateFrame(s: Store, id: Key, request: Request, pool: Key, now: int)
    ensures var s' := Allocate(s, id, request, pool, now).store;
            s' == s || (s' == s.(runs := s'.runs) && |s'.runs| == |s.runs| + 1 && s'.runs[..|s.runs|] == s.runs && NewRow(Last(s'.runs)))
  {
  }

  lemma {:induction false} AllocateMoves(s: Store, id: Key, request: Request, pool: Key, now: int)
    ensures Moves(s.runs, Allocate(s, id, request, pool, now).store.runs, now)
  {
    AllocateFrame(s, id, request, pool, now);
    AppendMoves(s, Allocate(s, id, request, pool, now).store, now);
  }

  lemma {:induction false} ApplyFrame(s: Store, id: Key, now: int)
    ensures Apply(s, id, now).store.runs == s.runs && Apply(s, id, now).store.tasks == s.tasks
  {
  }

  lemma {:induction false} ApproveFrame(s: Store, id: Key, invited: bool)
    ensures Approve(s, id, invited).store.runs == s.runs && Approve(s, id, invited).store.tasks == s.tasks
  {
  }

  lemma {:induction false} ConfigFrame(s: Store, op: Op, now: int)
    requires ByConfig(op)
    ensures Step(s, op, now).runs == s.runs && Step(s, op, now).tasks == s.tasks
  {
    match op
    case DoPlan(id, c) => PlanFrame(s, id, c, now);
    case DoApply(id) => ApplyFrame(s, id, now);
    case DoApprove(id, invited) => ApproveFrame(s, id, invited);
  }

  lemma {:induction false} ReportRuns(s: Store, node: Key, id: Key, r: TaskReport, now: int)
    ensures ReportTask(s, node, id, r, now).store.runs == s.runs
  {
  }

  lemma {:induction false} ClientStepMoves(s: Store, op: Op, now: int)
    requires Sound(s) && ByClient(op)
    ensures Moves(s.runs, Step(s, op, now).runs, now)
  {
    match op
    case DoSubmit(client, spec, id, instanceID) => SubmitMoves(s, client, spec, id, instanceID, now);
    case DoDispatch(draw) => DispatchMoves(s, draw, now);
    case DoCancel(client, id) => CancelForward(s, client, id, now);
    case DoRevoke(client) => RevokeForward(s, client, now);
    case DoReport(node, id, r) =>
      SameForward(s.runs, now);
      ReportRuns(s, node, id, r, now);
  }

  lemma {:induction false} StepMoves(s: Store, op: Op, now: int)
    requires Sound(s) && Regular(s, op)
    ensures Moves(s.runs, Step(s, op, now).runs, now)
  {
    if Aside(op) {
      AsideFrame(s, op, now);
      SameForward(s.runs, now);
    } else if ByConfig(op) {
      ConfigFrame(s, op, now);
      SameForward(s.runs, now);
    } else if ByClient(op) {
      ClientStepMoves(s, op, now);
    } else {
      match op
      case DoAllocate(id, request, pool) => AllocateMoves(s, id, Runner(request), pool, now);
      case DoSetJIT(id, runnerID, size) => SetJITForward(s, id, runnerID, size, now);
      case DoSync(node, o) => SyncForward(s, node, o, now);
      case DoStop(id) => StopForward(s, id, now);
      case DoPersist(m, pool, desired, events, hold) => PersistForward(s, m, pool, desired, events, hold, now);
    }
  }

  // ---- Tasks in one step ----

  ghost predicate TasksForward(s: Store, s': Store) {
    && |s.tasks| <= |s'.tasks|
    && (forall i | 0 <= i < |s.tasks| :: TaskForward(s.tasks[i], VMOf(s, s.tasks[i]), s'.tasks[i]))
    && forall i | |s.tasks| <= i < |s'.tasks| :: s'.tasks[i].result.None?
  }

  lemma {:induction false} SameTasksForward(s: Store, s': Store)
    requires s'.tasks == s.tasks
    ensures TasksForward(s, s')
  {
  }

  lemma {:induction false} SavedForward(s: Store, s': Store, id: Key, u: Task)
    requires UniqueTasks(s.tasks) && FindTask(s.tasks, id).Some? && s'.tasks == SaveTask(s.tasks, u)
    requires var t := FindTask(s.tasks, id).value; TaskForward(t, VMOf(s, t), u)
    ensures TasksForward(s, s')
  {
    FindTaskSound(s.tasks, id);
    SavedTasks(s.tasks, FindTask(s.tasks, id).value, u);
  }

  lemma {:induction false} CancelTasks(s: Store, client: Key, id: Key, now: int)
    requires UniqueTasks(s.tasks)
    ensures TasksForward(s, CancelTask(s, client, id, now).store)
  {
    var s' := CancelTask(s, client, id, now).store;
    if s'.tasks == s.tasks {
      SameTasksForward(s, s');
    } else {
      var t := FindTask(s.tasks, id).value;
      SavedForward(s, s', id, t.(cancelled := true, updated := now, secret := t.secret && t.instance != NONE));
    }
  }

  lemma {:induction false} RevokeTasks(s: Store, client: Key, now: int)
    ensures TasksForward(s, RevokeClient(s, client, now).store)
  {
  }

  lemma {:induction false} NotedForward(s: Store, t: Task, u: Task, instance: Key)
    requires u == t.(progress := u.progress, result := u.result, updated := u.updated)
    requires u.result != t.result ==>
               t.result.None? && RunNamed(s.runs, instance) && t.instance == instance && !FindInstance(s.runs, instance).value.Active()
    ensures TaskForward(t, VMOf(s, t), u)
  {
  }

  predicate RunNamed(runs: seq<Instance>, id: Key) {
    id != NONE && FindInstance(runs, id).Some?
  }

  lemma {:induction false} ReportTasks(s: Store, node: Key, id: Key, r: TaskReport, now: int)
    requires UniqueTasks(s.tasks)
    ensures TasksForward(s, ReportTask(s, node, id, r, now).store)
  {
    var s' := ReportTask(s, node, id, r, now).store;
    if s' == s {
      SameTasksForward(s, s');
    } else {
      var t := FindTask(s.tasks, id).value;
      var u := ReportFrame(s, node, id, r, now);
      assert r.instance != NONE;
      FindInstanceSound(s.runs, r.instance);
      FindTaskSound(s.tasks, id);
      NotedForward(s, t, u, r.instance);
      SavedForward(s, s', id, u);
    }
  }

  lemma {:induction false} DispatchedForward(t: Task, a: Option<Instance>, u: Task, now: int)
    requires Dispatched(t, u, now)
    ensures TaskForward(t, a, u)
  {
  }

  lemma {:induction false} DispatchTasksForward(s: Store, draw: Key -> Key, now: int)
    requires Sound(s)
    ensures TasksForward(s, DispatchTasks(s, draw, now).store)
  {
    var s' := DispatchTasks(s, draw, now).store;
    DispatchMoves(s, draw, now);
    forall i | 0 <= i < |s.tasks|
      ensures TaskForward(s.tasks[i], VMOf(s, s.tasks[i]), s'.tasks[i])
    {
      DispatchedForward(s.tasks[i], VMOf(s, s.tasks[i]), s'.tasks[i], now);
    }
  }

  lemma {:induction false} GrownTasks(s: Store, s': Store, t: Task, u: Task)
    requires FindTask(s.tasks, t.id).None? && t.result.None? && u.id == t.id && u.result.None?
    requires s'.tasks == s.tasks + [t] || s'.tasks == SaveTask(s.tasks + [t], u)
    ensures TasksForward(s, s')
  {
    FindTaskSound(s.tasks, t.id);
  }

  lemma {:induction false} SubmitTasks(s: Store, client: Key, spec: TaskSpec, id: Key, instanceID: Key, now: int)
    ensures TasksForward(s, Submit(s, client, spec, id, instanceID, now).store)
  {
    var s' := Submit(s, client, spec, id, instanceID, now).store;
    if s'.tasks == s.tasks {
      SameTasksForward(s, s');
    } else {
      var t := NewTask(client, spec, id, now);
      assert FindTask(s.tasks, id).None? && s' == SubmitNew(s, t, instanceID, now).store;
      DispatchOneRuns(s.config, s.obs, now, Tables(s.runs, s.tasks + [t]), t, instanceID);
      NewFrame(s, t, instanceID, now);
      GrownTasks(s, s', t, t.(instance := instanceID, updated := now));
    }
  }

  lemma {:induction false} SyncFrame(s: Store, name: Key, o: NodeReport, now: int)
    ensures SyncNode(s, name, o, now).store == s || SyncNode(s, name, o, now).store == Reported(s, name, o, now)
  {
  }

  lemma {:induction false} ErasedForward(s: Store, s': Store, gone: set<Key>)
    requires s'.tasks == EraseSecrets(s.tasks, gone)
    ensures TasksForward(s, s')
  {
  }

  lemma {:induction false} SyncTasks(s: Store, name: Key, o: NodeReport, now: int)
    ensures TasksForward(s, SyncNode(s, name, o, now).store)
  {
    SyncFrame(s, name, o, now);
    SameTasksForward(s, s);
    ErasedForward(s, Reported(s, name, o, now), Gone(name, o.vms, s.runs));
  }

  lemma {:induction false} OtherTasks(s: Store, op: Op, now: int)
    requires !ByClient(op) && !op.DoSync?
    ensures Step(s, op, now).tasks == s.tasks
  {
    if Aside(op) {
      AsideFrame(s, op, now);
    } else if ByConfig(op) {
      ConfigFrame(s, op, now);
    } else {
      RunTasks(s, op, now);
    }
  }

  lemma {:induction false} AllocateTasks(s: Store, id: Key, request: Request, pool: Key, now: int)
    ensures Allocate(s, id, request, pool, now).store.tasks == s.tasks
  {
  }

  lemma {:induction false} PersistTasks(s: Store, id: MessageID, pool: Key, desired: int, events: seq<RunnerEvent>, hold: bool, now: int)
    ensures PersistMessage(s, id, pool, desired, events, hold, now).store.tasks == s.tasks
  {
  }

  lemma {:induction false} RunTasks(s: Store, op: Op, now: int)
    requires op.DoAllocate? || op.DoSetJIT? || op.DoStop? || op.DoPersist?
    ensures Step(s, op, now).tasks == s.tasks
  {
    match op
    case DoAllocate(id, request, pool) => AllocateTasks(s, id, Runner(request), pool, now);
    case DoSetJIT(id, runnerID, size) => RunFrames(s, id, runnerID, size, now);
    case DoStop(id) => RunFrames(s, id, 0, 0, now);
    case DoPersist(m, pool, desired, events, hold) => PersistTasks(s, m, pool, desired, events, hold, now);
  }

  lemma {:induction false} ClientTasks(s: Store, op: Op, now: int)
    requires Sound(s) && ByClient(op)
    ensures TasksForward(s, Step(s, op, now))
  {
    match op
    case DoSubmit(client, spec, id, instanceID) => SubmitTasks(s, client, spec, id, instanceID, now);
    case DoDispatch(draw) => DispatchTasksForward(s, draw, now);
    case DoCancel(client, id) => CancelTasks(s, client, id, now);
    case DoRevoke(client) => RevokeTasks(s, client, now);
    case DoReport(node, id, r) => ReportTasks(s, node, id, r, now);
  }

  lemma {:induction false} StepTasks(s: Store, op: Op, now: int)
    requires Sound(s)
    ensures TasksForward(s, Step(s, op, now))
  {
    if ByClient(op) {
      ClientTasks(s, op, now);
    } else if op.DoSync? {
      SyncTasks(s, op.node, op.observation, now);
    } else {
      OtherTasks(s, op, now);
      SameTasksForward(s, Step(s, op, now));
    }
  }

  // ---- Together ----

  /** The VM of an already placed task is found at the same place. */
  lemma {:induction false} PlacedVM(s: Store, s': Store, i: nat, now: int)
    requires Sound(s) && UniqueInstances(s'.runs) && Moves(s.runs, s'.runs, now)
    requires i < |s.tasks| && s.tasks[i].instance != NONE
    ensures var a, b := FindInstance(s.runs, s.tasks[i].instance), FindInstance(s'.runs, s.tasks[i].instance);
            a.Some? && b.Some? && a.value.task == s.tasks[i].id && RowForward(a.value, b.value, now)
  {
    var id := s.tasks[i].instance;
    assert LinkedTask(s.runs, s.tasks[i]);
    FindInstanceSound(s.runs, id);
    var k :| 0 <= k < |s.runs| && s.runs[k] == FindInstance(s.runs, id).value && s.runs[k].id == id;
    assert RowForward(s.runs[k], s'.runs[k], now);
    InstanceAt(s'.runs, k);
  }

  lemma {:induction false} UnplacedOwnsNone(s: Store, i: nat)
    requires Sound(s) && i < |s.tasks| && s.tasks[i].instance == NONE
    ensures forall k | 0 <= k < |s.runs| :: s.runs[k].task != s.tasks[i].id
  {
    TaskAt(s.tasks, i);
    forall k | 0 <= k < |s.runs|
      ensures s.runs[k].task != s.tasks[i].id
    {
      assert RowOK(s.runs[k]) && LinkedRun(s.tasks, s.runs[k]) && TaskOK(s.tasks[i]);
    }
  }

  /** The VM of a task placed just now is new. */
  lemma {:induction false} NewVM(s: Store, s': Store, i: nat, now: int)
    requires Sound(s) && Sound(s') && Moves(s.runs, s'.runs, now) && TasksForward(s, s')
    requires i < |s.tasks| && s.tasks[i].instance == NONE && s'.tasks[i].instance != NONE
    ensures FindInstance(s'.runs, s'.tasks[i].instance).Some?
    ensures Phase(FindInstance(s'.runs, s'.tasks[i].instance).value.state) <= 1
  {
    var id := s'.tasks[i].instance;
    assert RunOf(s'.runs, id, s.tasks[i].id) by {
      assert LinkedTask(s'.runs, s'.tasks[i]);
      assert TaskForward(s.tasks[i], VMOf(s, s.tasks[i]), s'.tasks[i]);
    }
    assert forall k | 0 <= k < |s.runs| :: s.runs[k].task != s.tasks[i].id by {
      UnplacedOwnsNone(s, i);
    }
    AddedVM(s.runs, s'.runs, id, s.tasks[i].id, now);
  }

  lemma {:induction false} AddedVM(before: seq<Instance>, after: seq<Instance>, id: Key, task: Key, now: int)
    requires Moves(before, after, now) && RunOf(after, id, task)
    requires forall k | 0 <= k < |before| :: before[k].task != task
    ensures Phase(FindInstance(after, id).value.state) <= 1
  {
    FindInstanceSound(after, id);
    forall k | 0 <= k < |before|
      ensures after[k].task != task
    {
      assert RowForward(before[k], after[k], now);
    }
    var k :| 0 <= k < |after| && after[k] == FindInstance(after, id).value && after[k].id == id;
  }

  predicate VMForward(t: Task, a: Option<Instance>, u: Task, b: Option<Instance>, now: int) {
    && (t.instance == NONE ==> a.None?) && (u.instance == NONE ==> b.None?)
    && (t.instance != NONE ==> a.Some? && b.Some? && a.value.task != NONE && RowForward(a.value, b.value, now))
    && (t.instance == NONE && u.instance != NONE ==> b.Some? && Phase(b.value.state) <= 1)
  }

  lemma {:induction false} TaskVMs(s: Store, s': Store, i: nat, now: int)
    requires Sound(s) && Sound(s') && Moves(s.runs, s'.runs, now) && TasksForward(s, s') && i < |s.tasks|
    ensures VMForward(s.tasks[i], VMOf(s, s.tasks[i]), s'.tasks[i], VMOf(s', s'.tasks[i]), now)
    ensures TaskOK(s.tasks[i]) && TaskOK(s'.tasks[i])
  {
    var t, u := s.tasks[i], s'.tasks[i];
    assert TaskOK(t) && TaskOK(u) && TaskForward(t, VMOf(s, t), u);
    if t.instance != NONE {
      PlacedVM(s, s', i, now);
    } else if u.instance != NONE {
      NewVM(s, s', i, now);
    }
  }

  lemma {:induction false} TaskFollows(s: Store, s': Store, i: nat, before: int, now: int, after: int)
    requires Sound(s) && Sound(s') && ResultsLate(s) && before <= now <= after
    requires Moves(s.runs, s'.runs, now) && TasksForward(s, s') && i < |s.tasks|
    ensures Follows(View(s, i, before), View(s', i, after))
    ensures ResultRule(s'.tasks[i], VMOf(s', s'.tasks[i]))
  {
    var t, u := s.tasks[i], s'.tasks[i];
    var a, b := VMOf(s, t), VMOf(s', u);
    assert TaskOK(t) && TaskOK(u) && VMForward(t, a, u, b, now) by {
      TaskVMs(s, s', i, now);
    }
    assert ResultRule(t, a) && TaskForward(t, a, u);
    DeriveFollows(t, a, u, b, before, now, after);
  }

  /** One transaction: what any client sees of any task follows what it saw,
      and the first result is never replaced. */
  lemma {:induction false} StepFollows(s: Store, op: Op, i: nat, before: int, now: int, after: int)
    requires Sound(s) && ResultsLate(s) && Regular(s, op) && before <= now <= after && i < |s.tasks|
    ensures i < |Step(s, op, now).tasks|
    ensures Follows(View(s, i, before), View(Step(s, op, now), i, after))
    ensures s.tasks[i].result.Some? ==> Step(s, op, now).tasks[i].result == s.tasks[i].result
  {
    StepSound(s, op, now);
    StepMoves(s, op, now);
    StepTasks(s, op, now);
    TaskFollows(s, Step(s, op, now), i, before, now, after);
    assert TaskForward(s.tasks[i], VMOf(s, s.tasks[i]), Step(s, op, now).tasks[i]);
  }

  lemma {:induction false} StepResultsLate(s: Store, op: Op, now: int)
    requires Sound(s) && ResultsLate(s) && Regular(s, op)
    ensures ResultsLate(Step(s, op, now))
  {
    var s' := Step(s, op, now);
    StepSound(s, op, now);
    StepMoves(s, op, now);
    StepTasks(s, op, now);
    forall i | 0 <= i < |s'.tasks|
      ensures ResultRule(s'.tasks[i], VMOf(s', s'.tasks[i]))
    {
      if i < |s.tasks| {
        TaskFollows(s, s', i, now, now, now);
      }
    }
  }

  // ---- Whole runs ----

  ghost predicate RegularRun(ops: seq<Timed>) {
    ops == [] || (RegularRun(ops[..|ops| - 1]) && Regular(Run(ops[..|ops| - 1]), ops[|ops| - 1].op))
  }

  /** A clock that never goes back. */
  predicate Monotone(ops: seq<Timed>) {
    forall i, j | 0 <= i < j < |ops| :: ops[i].now <= ops[j].now
  }

  lemma {:induction false} AlwaysResultsLate(ops: seq<Timed>)
    requires RegularRun(ops)
    ensures ResultsLate(Run(ops))
  {
    if ops != [] {
      var n := |ops| - 1;
      AlwaysResultsLate(ops[..n]);
      AlwaysSound(ops[..n]);
      StepResultsLate(Run(ops[..n]), ops[n].op, ops[n].now);
    }
  }

  /** What one look at a task promises about a later one. */
  ghost predicate Onward(s: Store, i: nat, before: int, s': Store, after: int) {
    && i < |s.tasks| && i < |s'.tasks|
    && Follows(View(s, i, before), View(s', i, after))
    && (s.tasks[i].result.Some? ==> s'.tasks[i].result == s.tasks[i].result)
  }

  lemma {:induction false} OnwardTransitive(s: Store, i: nat, x: int, s': Store, y: int, s'': Store, z: int)
    requires Onward(s, i, x, s', y) && Onward(s', i, y, s'', z)
    ensures Onward(s, i, x, s'', z)
  {
    FollowsTransitive(View(s, i, x), View(s', i, y), View(s'', i, z));
  }

  /** Over any stretch of a run, from any look at a task to any later one,
      its visible state moves forward and a stored result stays. */
  lemma {:induction false} AlwaysForward(ops: seq<Timed>, n: nat, i: nat, before: int, after: int)
    requires RegularRun(ops) && Monotone(ops) && n <= |ops| && i < |Run(ops[..n]).tasks| && before <= after
    requires forall k | n <= k < |ops| :: before <= ops[k].now <= after
    ensures Onward(Run(ops[..n]), i, before, Run(ops), after)
    decreases |ops|
  {
    var m := |ops|;
    if n == m {
      assert ops[..n] == ops;
      AlwaysSound(ops);
      AlwaysResultsLate(ops);
      Waits(Run(ops), i, before, after);
    } else {
      assert ops[..m - 1][..n] == ops[..n];
      AlwaysForward(ops[..m - 1], n, i, before, ops[m - 1].now);
      LastFollows(ops, i, after);
      OnwardTransitive(Run(ops[..n]), i, before, Run(ops[..m - 1]), ops[m - 1].now, Run(ops), after);
    }
  }

  lemma {:induction false} LastFollows(ops: seq<Timed>, i: nat, after: int)
    requires RegularRun(ops) && ops != []
    requires i < |Run(ops[..|ops| - 1]).tasks| && ops[|ops| - 1].now <= after
    ensures Onward(Run(ops[..|ops| - 1]), i, ops[|ops| - 1].now, Run(ops), after)
  {
    var m := |ops| - 1;
    AlwaysSound(ops[..m]);
    AlwaysResultsLate(ops[..m]);
    StepFollows(Run(ops[..m]), ops[m].op, i, ops[m].now, ops[m].now, after);
  }

  lemma {:induction false} Waits(s: Store, i: nat, before: int, after: int)
    requires Sound(s) && ResultsLate(s) && i < |s.tasks| && before <= after
    ensures Follows(View(s, i, before), View(s, i, after))
  {
    SameForward(s.runs, before);
    SameTasksForward(s, s);
    TaskFollows(s, s, i, before, before, after);
  }
}
