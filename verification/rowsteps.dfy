/** What any transaction does to the VM rows it finds, for the composition
    with a host. */
module RowSteps {
  import opened Resources
  import opened Model
  import opened Validate
  import opened Ledger
  import opened State
  import opened Transactions
  import opened Sync
  import opened Consistency
  import opened Movement
  import opened Soundness
  import opened Runs
  import opened Lifecycle

  /** Rows found keep what they hold and whether they are active; rows added
      hold their whole charge. */
  ghost predicate Extends(before: seq<Instance>, after: seq<Instance>) {
    && |before| <= |after|
    && (forall i | 0 <= i < |before| :: Steady(before[i], after[i]))
    && forall i | |before| <= i < |after| :: NewRow(after[i])
  }

  lemma {:induction false} SteadyExtends(before: seq<Instance>, after: seq<Instance>)
    requires SteadyAll(before, after)
    ensures Extends(before, after)
  {
  }

  lemma {:induction false} PrefixExtends(before: seq<Instance>, after: seq<Instance>, now: int)
    requires before <= after && Moves(before, after, now)
    ensures Extends(before, after)
  {
    SameSteady(before);
    forall i | 0 <= i < |before|
      ensures Steady(before[i], after[i])
    {
      assert after[i] == before[i];
    }
  }

  lemma {:induction false} NewExtends(s: Store, t: Task, instanceID: Key, now: int)
    ensures Extends(s.runs, SubmitNew(s, t, instanceID, now).store.runs)
  {
    NewMoves(s, t, instanceID, now);
    DispatchOneRuns(s.config, s.obs, now, Tables(s.runs, s.tasks + [t]), t, instanceID);
    NewFrame(s, t, instanceID, now);
    PrefixExtends(s.runs, SubmitNew(s, t, instanceID, now).store.runs, now);
  }

  lemma {:induction false} SubmitExtends(s: Store, client: Key, spec: TaskSpec, id: Key, instanceID: Key, now: int)
    ensures Extends(s.runs, Submit(s, client, spec, id, instanceID, now).store.runs)
  {
    SubmitFrame(s, client, spec, id, instanceID, now);
    NewExtends(s, NewTask(client, spec, id, now), instanceID, now);
    SameExtends(s.runs);
  }

  lemma {:induction false} SameExtends(runs: seq<Instance>)
    ensures Extends(runs, runs)
  {
    SameSteady(runs);
  }

  lemma {:induction false} AllocateExtends(s: Store, id: Key, request: Request, pool: Key, now: int)
    ensures Extends(s.runs, Allocate(s, id, request, pool, now).store.runs)
  {
    AllocateMoves(s, id, request, pool, now);
    PrefixExtends(s.runs, Allocate(s, id, request, pool, now).store.runs, now);
  }

  lemma {:induction false} DispatchExtends(s: Store, draw: Key -> Key, now: int)
    requires Sound(s)
    ensures Extends(s.runs, DispatchTasks(s, draw, now).store.runs)
  {
    DispatchMoves(s, draw, now);
    PrefixExtends(s.runs, DispatchTasks(s, draw, now).store.runs, now);
  }

  lemma {:induction false} CancelExtends(s: Store, client: Key, id: Key, now: int)
    requires UniqueInstances(s.runs)
    ensures Extends(s.runs, CancelTask(s, client, id, now).store.runs)
    ensures Extends(s.runs, RevokeClient(s, client, now).store.runs)
  {
    CancelSteady(s, client, id, now);
    SteadyExtends(s.runs, CancelTask(s, client, id, now).store.runs);
    RevokeSteady(s, client, now);
    SteadyExtends(s.runs, RevokeClient(s, client, now).store.runs);
  }

  lemma {:induction false} ReportExtends(s: Store, node: Key, id: Key, r: TaskReport, now: int)
    ensures Extends(s.runs, ReportTask(s, node, id, r, now).store.runs)
  {
    ReportRuns(s, node, id, r, now);
    SameSteady(s.runs);
  }

  lemma {:induction false} ClientExtends(s: Store, op: Op, now: int)
    requires Sound(s) && ByClient(op)
    ensures Extends(s.runs, Step(s, op, now).runs)
  {
    match op
    case DoSubmit(client, spec, id, instanceID) => SubmitExtends(s, client, spec, id, instanceID, now);
    case DoDispatch(draw) => DispatchExtends(s, draw, now);
    case DoCancel(client, id) => CancelExtends(s, client, id, now);
    case DoRevoke(client) => CancelExtends(s, client, NONE, now);
    case DoReport(node, id, r) => ReportExtends(s, node, id, r, now);
  }

  lemma {:induction false} RunExtends(s: Store, op: Op, now: int)
    requires Sound(s) && (op.DoAllocate? || op.DoSetJIT? || op.DoStop? || op.DoPersist?)
    ensures Extends(s.runs, Step(s, op, now).runs)
  {
    match op
    case DoAllocate(id, request, pool) => AllocateExtends(s, id, Runner(request), pool, now);
    case DoSetJIT(id, runnerID, size) =>
      SetJITSteady(s, id, runnerID, size, now);
      SteadyExtends(s.runs, SetJIT(s, id, runnerID, size, now).store.runs);
    case DoStop(id) =>
      StopSteady(s, id);
      SteadyExtends(s.runs, StopInstance(s, id).store.runs);
    case DoPersist(m, pool, desired, events, hold) =>
      PersistSteady(s, m, pool, desired, events, hold, now);
      SteadyExtends(s.runs, PersistMessage(s, m, pool, desired, events, hold, now).store.runs);
  }

  /** No transaction but a node's report ever releases anything. */
  lemma {:induction false} StepExtends(s: Store, op: Op, now: int)
    requires Sound(s) && !op.DoSync?
    ensures Extends(s.runs, Step(s, op, now).runs)
  {
    if Aside(op) {
      AsideFrame(s, op, now);
      SameSteady(s.runs);
    } else if ByConfig(op) {
      ConfigFrame(s, op, now);
      SameSteady(s.runs);
    } else if ByClient(op) {
      ClientExtends(s, op, now);
    } else {
      RunExtends(s, op, now);
    }
  }
}
