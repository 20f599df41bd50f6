/** Runs of the controller: every sequence of transactions, at any times and
    with any inputs, and what holds in every state they reach. */
module Runs {
  import opened Resources
  import opened Model
  import opened Validate
  import opened Ledger
  import opened Placement
  import opened State
  import opened Transactions
  import opened Sync
  import opened Consistency
  import opened Movement
  import opened Soundness

  datatype Op =
    | DoPlan(id: Key, config: Config)
    | DoApply(id: Key)
    | DoEnroll(id: Key, name: Key, ceiling: Resources)
    | DoApprove(id: Key, invited: bool)
    | DoAllocate(id: Key, request: Key, pool: Key)
    | DoSetJIT(id: Key, runnerID: int, size: nat)
    | DoSync(node: Key, observation: NodeReport)
    | DoStop(id: Key)
    | DoDrain(node: Key, drained: bool)
    | DoPersist(message: MessageID, pool: Key, desired: int, events: seq<RunnerEvent>, hold: bool)
    | DoRefresh(pool: Key, desired: int)
    | DoFlag(flag: Flag, pool: Key, blocked: bool)
    | DoApproveClient(client: Key, replacing: bool)
    | DoSubmit(client: Key, spec: TaskSpec, id: Key, instanceID: Key)
    | DoDispatch(draw: Key -> Key)
    | DoCancel(client: Key, id: Key)
    | DoRevoke(client: Key)
    | DoReport(node: Key, id: Key, report: TaskReport)

  ghost function Step(s: Store, op: Op, now: int): Store {
    match op
    case DoPlan(id, c) => Plan(s, id, c, now).store
    case DoApply(id) => Apply(s, id, now).store
    case DoEnroll(id, name, ceiling) => Enroll(s, id, name, ceiling)
    case DoApprove(id, invited) => Approve(s, id, invited).store
    case DoAllocate(id, request, pool) => Allocate(s, id, Runner(request), pool, now).store
    case DoSetJIT(id, runnerID, size) => SetJIT(s, id, runnerID, size, now).store
    case DoSync(node, o) => SyncNode(s, node, o, now).store
    case DoStop(id) => StopInstance(s, id).store
    case DoDrain(node, drained) => Drain(s, node, drained).store
    case DoPersist(m, pool, desired, events, hold) => PersistMessage(s, m, pool, desired, events, hold, now).store
    case DoRefresh(pool, desired) => RefreshDemand(s, pool, desired, now).store
    case DoFlag(flag, pool, blocked) => SetDemandFlag(s, flag, pool, blocked).store
    case DoApproveClient(client, replacing) => ApproveClient(s, client, replacing).store
    case DoSubmit(client, spec, id, instanceID) => Submit(s, client, spec, id, instanceID, now).store
    case DoDispatch(draw) => DispatchTasks(s, draw, now).store
    case DoCancel(client, id) => CancelTask(s, client, id, now).store
    case DoRevoke(client) => RevokeClient(s, client, now).store
    case DoReport(node, id, r) => ReportTask(s, node, id, r, now).store
  }

  datatype Timed = Timed(op: Op, now: int)

  ghost function Run(ops: seq<Timed>): Store {
    if ops == [] then INITIAL else Step(Run(ops[..|ops| - 1]), ops[|ops| - 1].op, ops[|ops| - 1].now)
  }

  lemma {:induction false} RunsOn(ops: seq<Timed>, k: nat)
    requires k < |ops|
    ensures Run(ops[..k + 1]) == Step(Run(ops[..k]), ops[k].op, ops[k].now)
    ensures ops[..|ops|] == ops
  {
    assert ops[..k + 1][..k] == ops[..k];
  }

  // ---- Transactions that touch neither instances, tasks nor configuration ----

  lemma {:induction false} AsideSound(s: Store, s': Store)
    requires Sound(s) && SameConfig(s, s') && s'.runs == s.runs && s'.tasks == s.tasks
    ensures Sound(s')
  {
    assert forall k | k in s'.plans :: PlanOK(s, k) && PlanOK(s', k);
  }

  predicate Aside(op: Op) {
    op.DoEnroll? || op.DoDrain? || op.DoRefresh? || op.DoFlag? || op.DoApproveClient?
  }

  lemma {:induction false} DeskFrame(s: Store, pool: Key, desired: int, flag: Flag, blocked: bool, now: int)
    ensures var s' := RefreshDemand(s, pool, desired, now).store; s' == s.(demand := s'.demand)
    ensures var s' := SetDemandFlag(s, flag, pool, blocked).store; s' == s.(demand := s'.demand)
  {
  }

  lemma {:induction false} RosterFrame(s: Store, id: Key, name: Key, ceiling: Resources, drained: bool)
    ensures var s' := Enroll(s, id, name, ceiling); s' == s.(enrollments := s'.enrollments)
    ensures var s' := Drain(s, name, drained).store; s' == s.(obs := s'.obs)
    ensures var s' := ApproveClient(s, name, drained).store; s' == s.(clients := s'.clients)
  {
  }

  lemma {:induction false} AsideFrame(s: Store, op: Op, now: int)
    requires Aside(op)
    ensures var s' := Step(s, op, now);
            SameConfig(s, s') && s'.runs == s.runs && s'.tasks == s.tasks
  {
    match op
    case DoRefresh(pool, desired) => DeskFrame(s, pool, desired, Barrier, false, now);
    case DoFlag(flag, pool, blocked) => DeskFrame(s, pool, 0, flag, blocked, now);
    case DoEnroll(id, name, ceiling) => RosterFrame(s, id, name, ceiling, false);
    case DoDrain(node, drained) => RosterFrame(s, NONE, node, ZERO, drained);
    case DoApproveClient(client, replacing) => RosterFrame(s, NONE, client, ZERO, replacing);
  }

  predicate ByClient(op: Op) {
    op.DoSubmit? || op.DoDispatch? || op.DoCancel? || op.DoRevoke? || op.DoReport?
  }

  lemma {:induction false} PlacingStepSound(s: Store, op: Op, now: int)
    requires Sound(s) && (op.DoSubmit? || op.DoDispatch?)
    ensures Sound(Step(s, op, now))
  {
    match op
    case DoSubmit(client, spec, id, instanceID) => SubmitSound(s, client, spec, id, instanceID, now);
    case DoDispatch(draw) => DispatchSound(s, draw, now);
  }

  lemma {:induction false} EndingStepSound(s: Store, op: Op, now: int)
    requires Sound(s) && (op.DoCancel? || op.DoRevoke?)
    ensures Sound(Step(s, op, now))
  {
    match op
    case DoCancel(client, id) => CancelSound(s, client, id, now);
    case DoRevoke(client) => RevokeSound(s, client, now);
  }

  lemma {:induction false} ClientStepSound(s: Store, op: Op, now: int)
    requires Sound(s) && ByClient(op)
    ensures Sound(Step(s, op, now))
  {
    if op.DoReport? {
      ReportSound(s, op.node, op.id, op.report, now);
    } else if op.DoCancel? || op.DoRevoke? {
      EndingStepSound(s, op, now);
    } else {
      PlacingStepSound(s, op, now);
    }
  }

  predicate ByConfig(op: Op) {
    op.DoPlan? || op.DoApply? || op.DoApprove?
  }

  lemma {:induction false} ConfigStepSound(s: Store, op: Op, now: int)
    requires Sound(s) && ByConfig(op)
    ensures Sound(Step(s, op, now))
  {
    match op
    case DoPlan(id, c) => PlanSound(s, id, c, now);
    case DoApply(id) => ApplySound(s, id, now);
    case DoApprove(id, invited) => ApproveSound(s, id, invited);
  }

  lemma {:induction false} StepSound(s: Store, op: Op, now: int)
    requires Sound(s)
    ensures Sound(Step(s, op, now))
  {
    if Aside(op) {
      AsideFrame(s, op, now);
      AsideSound(s, Step(s, op, now));
    } else if ByClient(op) {
      ClientStepSound(s, op, now);
    } else if ByConfig(op) {
      ConfigStepSound(s, op, now);
    } else {
      match op
      case DoAllocate(id, request, pool) => AllocateSound(s, id, Runner(request), pool, now);
      case DoSetJIT(id, runnerID, size) => SetJITSound(s, id, runnerID, size, now);
      case DoSync(node, o) => SyncSound(s, node, o, now);
      case DoStop(id) => StopSound(s, id);
      case DoPersist(m, pool, desired, events, hold) => PersistSound(s, m, pool, desired, events, hold, now);
    }
  }

  /** Every reachable state satisfies the ledger, linkage, secret and limit
      invariants, whatever the operations, their order and their times. */
  lemma {:induction false} AlwaysSound(ops: seq<Timed>)
    ensures Sound(Run(ops))
  {
    if ops != [] {
      AlwaysSound(ops[..|ops| - 1]);
      StepSound(Run(ops[..|ops| - 1]), ops[|ops| - 1].op, ops[|ops| - 1].now);
    }
  }

  // ---- What that means for a reader of the state ----

  /** On every node, at every time, held plus protected resources fit the
      budget; no pool exceeds its runner limit. */
  lemma {:induction false} AlwaysWithinBudget(ops: seq<Timed>)
    ensures var s := Run(ops);
            && (forall i | 0 <= i < |s.config.nodes| :: Committed(s.config, s.runs, s.config.nodes[i]))
            && (forall i | 0 <= i < |s.config.pools| :: CountPool(s.runs, s.config.pools[i].name) <= s.config.pools[i].maxRunners)
  {
    AlwaysSound(ops);
  }

  /** The hard reservation guarantee in every reachable state, for any
      observations and at any time. */
  lemma {:induction false} AlwaysReserved(ops: seq<Timed>, i: nat, j: nat, obs: map<Key, Observation>, now: int)
    requires i < |Run(ops).config.nodes| && j < |Run(ops).config.pools|
    ensures var c, runs := Run(ops).config, Run(ops).runs;
            var row := Row(c, c.pools[j], runs, obs, now, c.nodes[i]);
            && RESERVATION_INCONSISTENT !in row.reasons
            && ((exists k | 0 <= k < |c.reservations| :: Offers(c, c.reservations[k], c.nodes[i].name, runs, c.pools[j].name))
                ==> row.reservation != NONE && INSUFFICIENT_BUDGET !in row.reasons)
  {
    AlwaysSound(ops);
    FindPoolUnique(Run(ops).config.pools, j);
    HardReservation(Run(ops).config, Run(ops).config.pools[j], Run(ops).runs, obs, now, i);
  }

  /** The secret rule and the one-to-one link, by task. */
  lemma {:induction false} AlwaysLinked(ops: seq<Timed>, i: nat)
    requires i < |Run(ops).tasks|
    ensures var s, t := Run(ops), Run(ops).tasks[i];
            && (t.secret <==> !(t.expired || (t.cancelled && t.instance == NONE)
                                || exists k :: 0 <= k < |s.runs| && s.runs[k].id == t.instance && s.runs[k].state == Deleted))
            && !(t.expired && t.cancelled)
            && (t.instance != NONE ==>
                  exists k :: 0 <= k < |s.runs| && s.runs[k].id == t.instance && s.runs[k].task == t.id
                              && forall m | 0 <= m < |s.runs| && s.runs[m].task == t.id :: m == k)
            && OpenTasks(s.tasks, t.client) <= MAX_CLIENT_TASKS
  {
    var s, t := Run(ops), Run(ops).tasks[i];
    AlwaysSound(ops);
    assert TaskOK(t) && LinkedTask(s.runs, t) && SecretRule(s.runs, t);
    FindInstanceSound(s.runs, t.instance);
    forall k | 0 <= k < |s.runs|
      ensures s.runs[k].id != NONE && FindInstance(s.runs, s.runs[k].id) == Some(s.runs[k])
      ensures s.runs[k].task == t.id ==> s.runs[k].id == t.instance
    {
      assert RowOK(s.runs[k]) && LinkedRun(s.tasks, s.runs[k]);
      InstanceAt(s.runs, k);
      TaskAt(s.tasks, i);
    }
  }

  /** And by VM: each task VM belongs to exactly one task. */
  lemma {:induction false} AlwaysOwned(ops: seq<Timed>, k: nat)
    requires k < |Run(ops).runs| && Run(ops).runs[k].task != NONE
    ensures exists i :: 0 <= i < |Run(ops).tasks| && Run(ops).tasks[i].id == Run(ops).runs[k].task
                        && Run(ops).tasks[i].instance == Run(ops).runs[k].id
  {
    AlwaysSound(ops);
    assert LinkedRun(Run(ops).tasks, Run(ops).runs[k]);
    FindTaskSound(Run(ops).tasks, Run(ops).runs[k].task);
  }
}
