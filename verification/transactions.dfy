/** What each controller transaction does to the tables: the specification of
    internal/core/store.go, task.go, runtime.go and of Approve. */
module Transactions {
  import opened Resources
  import opened Model
  import opened Order
  import opened Validate
  import opened Ledger
  import opened Capacity
  import opened Placement
  import opened State

  // ---- Configuration ----

  ghost function Plan(s: Store, id: Key, c: Config, now: int): Outcome<Key> {
    if !Valid(c) then Refuse(s, InvalidConfig)
    else if s.revision > 0 && s.config.name != c.name then Refuse(s, ClusterMismatch)
    else
      var merged := MergeConfig(s.config, c);
      if !Valid(merged) then Refuse(s, InvalidConfig)
      else if id in s.plans then Refuse(s, UniqueViolation)
      else Outcome(s.(plans := s.plans[id := PlanRow(s.revision, Unix(now + 10 * MINUTE), merged, None)]), Ok(id))
  }

  ghost function Apply(s: Store, id: Key, now: int): Outcome<nat> {
    if id !in s.plans then Refuse(s, PlanNotFound)
    else
      var plan := s.plans[id];
      if plan.applied.Some? then Outcome(s, Ok(plan.applied.value))
      else if Unix(now) >= plan.expires then Refuse(s, PlanExpired)
      else if s.revision != plan.base then Refuse(s, RevisionConflict)
      else if !Valid(plan.config) then Refuse(s, InvalidConfig)
      else
        match CapacityFault(plan.config, s.runs)
        case Some(f) => Refuse(s, f)
        case None =>
          var revision := if s.config == plan.config then s.revision else s.revision + 1;
          Outcome(s.(config := plan.config, revision := revision, plans := s.plans[id := plan.(applied := Some(revision))]),
                  Ok(revision))
  }

  /** A join request names a node and the ceiling its owner approved. */
  function Enroll(s: Store, id: Key, name: Key, ceiling: Resources): Store {
    if id in s.enrollments then s else s.(enrollments := s.enrollments[id := Enrollment(name, ceiling, false)])
  }

  function AdmittedNode(c: Config, name: Key, ceiling: Resources): Node {
    Node(name, ceiling, ceiling, map[], AdmittedPools(c.pools, ceiling))
  }

  /** GitHub pools that fit the new node; task pools are opted in by hand. */
  function AdmittedPools(ps: seq<Pool>, ceiling: Resources): seq<Key> {
    if ps == [] then []
    else
      var p := ps[|ps| - 1];
      AdmittedPools(ps[..|ps| - 1], ceiling) + if p.Charge().Fits(ceiling) && !p.tasks then [p.name] else []
  }

  ghost function Approve(s: Store, id: Key, invited: bool): Outcome<bool> {
    if id !in s.enrollments then Refuse(s, InstanceNotFound)
    else
      var e := s.enrollments[id];
      if e.approved then Outcome(s, Ok(true))
      else if !invited then Refuse(s, InvalidRequest)
      else if s.revision == 0 then Refuse(s, NotConfigured)
      else if e.name in s.identities then Refuse(s, NodeNameExists)
      else
        var known := s.config.Node(e.name);
        if known.Some? && !known.value.budget.Fits(e.ceiling) then Refuse(s, LocalCeiling)
        else
          var c := if known.Some? then s.config
                   else s.config.(nodes := s.config.nodes + [AdmittedNode(s.config, e.name, e.ceiling)]);
          if !Valid(c) then Refuse(s, InvalidConfig)
          else
            Outcome(s.(config := c, revision := s.revision + 1, identities := s.identities + {e.name},
                       enrollments := s.enrollments[id := e.(approved := true)]),
                    Ok(true))
  }

  // ---- Placement ----

  const NO_IMAGE := Image(NONE, NONE, 0)

  /** placeTx: an unsaved instance on the best node, or no capacity. */
  function Place(c: Config, p: Pool, runs: seq<Instance>, obs: map<Key, Observation>, id: Key, request: Request, now: int): Result<Instance> {
    var rows := Candidates(c, p, runs, obs, now);
    if rows == [] || rows[0].reasons != [] then Err(NoCapacity)
    else
      var image := match c.Image(p.image) case Some(im) => im case None => NO_IMAGE;
      Ok(Instance(id, request, rows[0].node, p, image, Reserved, rows[0].reservation, p.Charge(), 0, NONE,
                  now, now + (p.executionMinutes + 10) * MINUTE, now, false, NONE, 0))
  }

  /** Whether the insert fails; a drawn ID is never empty. */
  predicate Taken(runs: seq<Instance>, x: Instance) {
    x.id == NONE || FindInstance(runs, x.id).Some? || FindRequest(runs, x.request).Some?
  }

  function Allocate(s: Store, id: Key, request: Request, pool: Key, now: int): Outcome<Instance> {
    if request == Runner(NONE) then Refuse(s, InvalidRequest)
    else
      match FindRequest(s.runs, request)
      case Some(a) => if a.pool.name != pool then Refuse(s, IdempotencyConflict) else Outcome(s, Ok(a))
      case None =>
        match s.config.Pool(pool)
        case None => Refuse(s, PoolNotFound)
        case Some(p) =>
          if p.tasks then Refuse(s, TaskPool)
          else
            match Place(s.config, p, s.runs, s.obs, id, request, now)
            case Err(f) => Refuse(s, f)
            case Ok(x) =>
              if Taken(s.runs, x) then Refuse(s, UniqueViolation)
              else Outcome(s.(runs := s.runs + [x]), Ok(x))
  }

  function SetJIT(s: Store, id: Key, runnerID: int, size: nat, now: int): Outcome<bool> {
    if size == 0 || size > MAX_JIT || runnerID <= 0 then Refuse(s, InvalidRequest)
    else
      match FindInstance(s.runs, id)
      case None => Refuse(s, InstanceNotFound)
      case Some(a) =>
        if a.jitReady then Outcome(s, Ok(false))
        else if a.state != Reserved then Refuse(s, InvalidRequest)
        else
          var row := a.(jitReady := true, runnerID := runnerID, state := Provisioning, updated := now, jit := size);
          Outcome(s.(runs := SaveInstance(s.runs, row)), Ok(true))
  }

  // ---- GitHub messages and demand ----

  /** The last event that names the instance. */
  function LastEvent(events: seq<RunnerEvent>, vm: Key): Option<RunnerEvent> {
    if events == [] then None
    else if events[|events| - 1].vm == vm then Some(events[|events| - 1])
    else LastEvent(events[..|events| - 1], vm)
  }

  function Witnessed(a: Instance, e: RunnerEvent, now: int): Instance {
    match e.kind
    case BusyEvent => if a.Active() then a.(state := Busy, updated := now) else a.(updated := now)
    case CompleteEvent => a.(result := e.result, updated := now)
  }

  /** Each event is applied to the row as it was read before the loop, so
      only the last event of a message that names a VM has an effect. */
  function AfterEvents(a: Instance, pool: Key, events: seq<RunnerEvent>, now: int): Instance {
    if a.pool.name != pool then a
    else
      match LastEvent(events, a.id)
      case None => a
      case Some(e) => Witnessed(a, e, now)
  }

  function EventRows(runs: seq<Instance>, pool: Key, events: seq<RunnerEvent>, now: int): seq<Instance> {
    seq(|runs|, i requires 0 <= i < |runs| => AfterEvents(runs[i], pool, events, now))
  }

  function HeldIntake(demand: map<Key, Demand>, pool: Key): bool {
    pool in demand && demand[pool].intake
  }

  function PersistMessage(s: Store, id: MessageID, pool: Key, desired: int, events: seq<RunnerEvent>, hold: bool, now: int): Outcome<bool> {
    if desired < 0 || desired > 1000000 || id.number < 0 then Refuse(s, InvalidRequest)
    else
      var m := Message(pool, desired, events);
      if id in s.inbox then (if s.inbox[id] != m then Refuse(s, MessageConflict) else Outcome(s, Ok(false)))
      else
        Outcome(s.(runs := EventRows(s.runs, pool, events, now),
                   demand := s.demand[pool := Demand(desired, now, false, hold || HeldIntake(s.demand, pool))],
                   inbox := s.inbox[id := m]),
                Ok(true))
  }

  function RefreshDemand(s: Store, pool: Key, desired: int, now: int): Outcome<bool> {
    if pool == NONE || desired < 0 || desired > 1000000 then Refuse(s, InvalidRequest)
    else Outcome(s.(demand := s.demand[pool := Demand(desired, now, false, HeldIntake(s.demand, pool))]), Ok(true))
  }

  datatype Flag = Barrier | Intake

  function SetDemandFlag(s: Store, flag: Flag, pool: Key, blocked: bool): Outcome<bool> {
    if pool == NONE then Refuse(s, InvalidRequest)
    else if pool !in s.demand then Refuse(s, DemandNotFound)
    else
      var d := s.demand[pool];
      Outcome(s.(demand := s.demand[pool := if flag == Barrier then d.(barrier := blocked) else d.(intake := blocked)]), Ok(true))
  }

  function StopInstance(s: Store, id: Key): Outcome<bool> {
    match FindInstance(s.runs, id)
    case None => Refuse(s, InstanceNotFound)
    case Some(a) =>
      if a.state == Deleted || a.state == Deleting then Outcome(s, Ok(false))
      else Outcome(s.(runs := SaveInstance(s.runs, a.(state := Stopping))), Ok(true))
  }

  function Drain(s: Store, node: Key, drained: bool): Outcome<bool> {
    if node !in s.obs then Refuse(s, NodeNotObserved)
    else Outcome(s.(obs := s.obs[node := s.obs[node].(drained := drained)]), Ok(true))
  }

  // ---- Agent tasks ----

  predicate Older(a: Task, b: Task) {
    a.created < b.created || (a.created == b.created && a.id < b.id)
  }

  function Waiting(tasks: seq<Task>): seq<Task> {
    if tasks == [] then []
    else Waiting(tasks[..|tasks| - 1]) + if tasks[|tasks| - 1].Queued() then [tasks[|tasks| - 1]] else []
  }

  /** queuedTasks: unplaced, live tasks in submission order. */
  function QueuedTasks(tasks: seq<Task>): seq<Task> {
    Sort(Older, Waiting(tasks))
  }

  datatype Tables = Tables(runs: seq<Instance>, tasks: seq<Task>)

  /** dispatchTx: place one queued task, or leave it queued. */
  function DispatchOne(c: Config, obs: map<Key, Observation>, now: int, tables: Tables, t: Task, id: Key): Result<Option<Tables>> {
    var pool := c.Pool(t.spec.pool);
    if pool.None? || !pool.value.tasks || !pool.value.enabled then Ok(None)
    else
      match Place(c, pool.value, tables.runs, obs, id, ForTask(t.id), now)
      case Err(_) => Ok(None)
      case Ok(x) =>
        if Taken(tables.runs, x) then Err(UniqueViolation)
        else
          var inst := x.(task := t.id, state := Provisioning, jitReady := true);
          Ok(Some(Tables(tables.runs + [inst], SaveTask(tables.tasks, t.(instance := id, updated := now)))))
  }

  function Submit(s: Store, client: Key, spec: TaskSpec, taskID: Key, instanceID: Key, now: int): Outcome<Key> {
    if client == NONE then Refuse(s, ClientUnauthorized)
    else if !spec.Valid() then Refuse(s, InvalidTask)
    else
      match FindSubmission(s.tasks, client, spec.request)
      case Some(t) => if t.spec != spec then Refuse(s, IdempotencyConflict) else Outcome(s, Ok(t.id))
      case None =>
        if s.revision == 0 then Refuse(s, NotConfigured)
        else
          var pool := s.config.Pool(spec.pool);
          if pool.None? || !pool.value.tasks then Refuse(s, TaskPool)
          else if !pool.value.enabled then Refuse(s, PoolDisabled)
          else if OpenTasks(s.tasks, client) >= MAX_CLIENT_TASKS then Refuse(s, TaskLimit)
          else if taskID == NONE || FindTask(s.tasks, taskID).Some? then Refuse(s, UniqueViolation)
          else SubmitNew(s, NewTask(client, spec, taskID, now), instanceID, now)
  }

  function NewTask(client: Key, spec: TaskSpec, id: Key, now: int): Task {
    Task(id, client, spec, NONE, false, false, now, now, true, None, 0)
  }

  predicate OlderInPool(tasks: seq<Task>, t: Task) {
    var queued := QueuedTasks(tasks);
    exists i | 0 <= i < |queued| :: queued[i].spec.pool == t.spec.pool && queued[i].id != t.id
  }

  function SubmitNew(s: Store, t: Task, instanceID: Key, now: int): Outcome<Key> {
    var tasks := s.tasks + [t];
    if OlderInPool(tasks, t) then Outcome(s.(tasks := tasks), Ok(t.id))
    else
      match DispatchOne(s.config, s.obs, now, Tables(s.runs, tasks), t, instanceID)
      case Err(f) => Refuse(s, f)
      case Ok(None) => Outcome(s.(tasks := tasks), Ok(t.id))
      case Ok(Some(tables)) => Outcome(s.(runs := tables.runs, tasks := tables.tasks), Ok(t.id))
  }

  function OpenTasks(tasks: seq<Task>, client: Key): nat {
    if tasks == [] then 0
    else
      var t := tasks[|tasks| - 1];
      OpenTasks(tasks[..|tasks| - 1], client) + if t.client == client && t.secret then 1 else 0
  }

  datatype Dispatch = Dispatch(tables: Tables, blocked: set<Key>, placed: nat)

  function Expire(t: Task, now: int): Task {
    t.(expired := true, updated := now, secret := false)
  }

  function DispatchStep(c: Config, obs: map<Key, Observation>, now: int, draw: Key -> Key, d: Dispatch, t: Task): Result<Dispatch> {
    if now - t.created > QUEUE_LIFETIME then
      Ok(d.(tables := d.tables.(tasks := SaveTask(d.tables.tasks, Expire(t, now)))))
    else if t.spec.pool in d.blocked then Ok(d)
    else
      match DispatchOne(c, obs, now, d.tables, t, draw(t.id))
      case Err(f) => Err(f)
      case Ok(None) => Ok(d.(blocked := d.blocked + {t.spec.pool}))
      case Ok(Some(tables)) => Ok(d.(tables := tables, placed := d.placed + 1))
  }

  function DispatchQueue(c: Config, obs: map<Key, Observation>, now: int, draw: Key -> Key, start: Tables, queued: seq<Task>): Result<Dispatch> {
    if queued == [] then Ok(Dispatch(start, {}, 0))
    else
      match DispatchQueue(c, obs, now, draw, start, queued[..|queued| - 1])
      case Err(f) => Err(f)
      case Ok(d) => DispatchStep(c, obs, now, draw, d, queued[|queued| - 1])
  }

  /** DispatchTasks; `draw` gives the random ID drawn for each placement. */
  function DispatchTasks(s: Store, draw: Key -> Key, now: int): Outcome<nat> {
    if s.revision == 0 then Outcome(s, Ok(0))
    else
      match DispatchQueue(s.config, s.obs, now, draw, Tables(s.runs, s.tasks), QueuedTasks(s.tasks))
      case Err(f) => Refuse(s, f)
      case Ok(d) => Outcome(s.(runs := d.tables.runs, tasks := d.tables.tasks), Ok(d.placed))
  }

  predicate Finished(a: Option<Instance>) {
    a.None? || a.value.state == Deleting || a.value.state == Deleted
  }

  function CancelTask(s: Store, client: Key, id: Key, now: int): Outcome<bool> {
    match FindTask(s.tasks, id)
    case None => Refuse(s, TaskNotFound)
    case Some(t) =>
      if client != NONE && t.client != client then Refuse(s, TaskNotFound)
      else if t.cancelled || t.expired || t.result.Some? then Outcome(s, Ok(false))
      else if t.instance == NONE then
        Outcome(s.(tasks := SaveTask(s.tasks, t.(cancelled := true, updated := now, secret := false))), Ok(true))
      else
        var inst := FindInstance(s.runs, t.instance);
        if Finished(inst) then Outcome(s, Ok(false))
        else
          Outcome(s.(tasks := SaveTask(s.tasks, t.(cancelled := true, updated := now)),
                     runs := SaveInstance(s.runs, inst.value.(state := Stopping, updated := now))),
                  Ok(true))
  }

  /** A node's report: progress text of some length, a result, or both. */
  datatype TaskReport = TaskReport(instance: Key, progress: nat, result: Option<TaskResult>)

  const MAX_PROGRESS := 32768

  function ReportTask(s: Store, node: Key, id: Key, r: TaskReport, now: int): Outcome<bool> {
    if node == NONE || id == NONE || r.instance == NONE || r.progress > MAX_PROGRESS || (r.progress == 0 && r.result.None?) then
      Refuse(s, InvalidRequest)
    else if r.result.Some? && !r.result.value.wellFormed then Refuse(s, InvalidRequest)
    else
      match FindTask(s.tasks, id)
      case None => Refuse(s, TaskNotFound)
      case Some(t) =>
        match FindInstance(s.runs, r.instance)
        case None => Refuse(s, TaskNotOwned)
        case Some(a) =>
          if a.task != id || t.instance != a.id || a.node != node then Refuse(s, TaskNotOwned)
          else if r.result.Some? && a.state != Deleting && a.state != Deleted then Refuse(s, TaskStillRunning)
          else
            var live := a.state == Provisioning || a.state == Idle || a.state == Busy || a.state == Stopping;
            var noted := if r.progress > 0 && live then t.(progress := r.progress) else t;
            var final := if r.result.Some? && t.result.None? then noted.(result := r.result, updated := now) else noted;
            Outcome(s.(tasks := SaveTask(s.tasks, final)), Ok(true))
  }

  /** The tasks that a revocation cancels, and what becomes of the others. */
  predicate Revoked(runs: seq<Instance>, t: Task, client: Key) {
    && t.client == client && t.secret && !t.cancelled && !t.expired
    && (t.instance == NONE || !Finished(FindInstance(runs, t.instance)))
  }

  function RevokedTask(runs: seq<Instance>, t: Task, client: Key, now: int): Task {
    if !Revoked(runs, t, client) then t
    else t.(cancelled := true, updated := now, secret := t.instance != NONE)
  }

  function StopFor(runs: seq<Instance>, tasks: seq<Task>, client: Key, a: Instance, now: int): Instance {
    if exists j | 0 <= j < |tasks| :: Revoked(runs, tasks[j], client) && tasks[j].instance == a.id && a.id != NONE
    then a.(state := Stopping, updated := now) else a
  }

  function RevokeClient(s: Store, client: Key, now: int): Outcome<bool> {
    if client !in s.clients then Refuse(s, ClientNotFound)
    else
      Outcome(s.(clients := s.clients[client := true],
                 tasks := seq(|s.tasks|, i requires 0 <= i < |s.tasks| => RevokedTask(s.runs, s.tasks[i], client, now)),
                 runs := seq(|s.runs|, i requires 0 <= i < |s.runs| => StopFor(s.runs, s.tasks, client, s.runs[i], now))),
              Ok(true))
  }

  function ApproveClient(s: Store, client: Key, replace_: bool): Outcome<bool> {
    if client == NONE then Refuse(s, InvalidRequest)
    else if s.revision == 0 then Refuse(s, NotConfigured)
    else if client in s.clients && s.clients[client] then Refuse(s, ClientRevoked)
    else if client in s.clients && !replace_ then Refuse(s, ClientExists)
    else Outcome(s.(clients := s.clients[client := false]), Ok(true))
  }
}
