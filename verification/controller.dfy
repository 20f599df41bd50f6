/** The controller's store as the source has it: tables that each transaction
    updates in place, all or nothing. */
module Controller {
  import opened Resources
  import opened Model
  import opened Order
  import opened Validate
  import opened Ledger
  import opened Capacity
  import opened Placement
  import opened State
  import T = Transactions
  import Consistency
  import Answers
  import opened Sync
  import opened Reply

  class Database {
    var config: Config
    var revision: nat
    var plans: map<Key, PlanRow>
    var runs: seq<Instance>
    var obs: map<Key, Observation>
    var demand: map<Key, Demand>
    var inbox: map<MessageID, Message>
    var tasks: seq<Task>
    var clients: map<Key, bool>
    var enrollments: map<Key, Enrollment>
    var identities: set<Key>

    constructor ()
      ensures View() == INITIAL
    {
      config, revision, plans, runs, obs, demand := EMPTY_CONFIG, 0, map[], [], map[], map[];
      inbox, tasks, clients, enrollments, identities := map[], [], map[], map[], {};
    }

    function View(): Store
      reads this
    {
      Store(config, revision, plans, runs, obs, demand, inbox, tasks, clients, enrollments, identities)
    }

    // ---- Configuration ----

    method Plan(id: Key, c: Config, now: int) returns (r: Result<Key>)
      modifies `plans
      ensures State.Outcome(View(), r) == T.Plan(old(View()), id, c, now)
    {
      var ok := Validate.Validate(c);
      if !ok {
        return Err(InvalidConfig);
      }
      if revision > 0 && config.name != c.name {
        return Err(ClusterMismatch);
      }
      var nodes := Merge(NodeKey, config.nodes, c.nodes);
      var pools := Merge(PoolKey, config.pools, c.pools);
      var images := Merge(ImageKey, config.images, c.images);
      var reservations := Merge(ReservationKey, config.reservations, c.reservations);
      var merged := c.(nodes := nodes, pools := pools, images := images, reservations := reservations);
      ok := Validate.Validate(merged);
      if !ok {
        return Err(InvalidConfig);
      }
      if id in plans {
        return Err(UniqueViolation);
      }
      plans := plans[id := PlanRow(revision, Unix(now + 10 * MINUTE), merged, None)];
      return Ok(id);
    }

    method Apply(id: Key, now: int) returns (r: Result<nat>)
      modifies `config, `revision, `plans
      ensures State.Outcome(View(), r) == T.Apply(old(View()), id, now)
    {
      if id !in plans {
        return Err(PlanNotFound);
      }
      var plan := plans[id];
      if plan.applied.Some? {
        return Ok(plan.applied.value);
      }
      if Unix(now) >= plan.expires {
        return Err(PlanExpired);
      }
      if revision != plan.base {
        return Err(RevisionConflict);
      }
      var ok := Validate.Validate(plan.config);
      if !ok {
        return Err(InvalidConfig);
      }
      var fault := CheckCapacityUpdate(plan.config, runs);
      if fault.Some? {
        return Err(fault.value);
      }
      if config != plan.config {
        config, revision := plan.config, revision + 1;
      }
      plans := plans[id := plan.(applied := Some(revision))];
      return Ok(revision);
    }

    method AdmitPools(ceiling: Resources) returns (allowed: seq<Key>)
      ensures allowed == T.AdmittedPools(config.pools, ceiling)
    {
      allowed := [];
      for i := 0 to |config.pools|
        invariant allowed == T.AdmittedPools(config.pools[..i], ceiling)
      {
        assert config.pools[..i + 1][..i] == config.pools[..i];
        if config.pools[i].Charge().Fits(ceiling) && !config.pools[i].tasks {
          allowed := allowed + [config.pools[i].name];
        }
      }
      assert config.pools[..|config.pools|] == config.pools;
    }

    /** The configuration with the node in it. */
    method WithNode(name: Key, ceiling: Resources) returns (c: Config)
      ensures c == if config.Node(name).Some? then config
                   else config.(nodes := config.nodes + [T.AdmittedNode(config, name, ceiling)])
    {
      c := config;
      if c.Node(name).None? {
        var allowed := AdmitPools(ceiling);
        c := c.(nodes := c.nodes + [Model.Node(name, ceiling, ceiling, map[], allowed)]);
      }
    }

    /** Join, once the invitation is accepted: a recorded request is kept as it
        is, and a new one awaits approval. */
    method Enroll(id: Key, name: Key, ceiling: Resources)
      modifies `enrollments
      ensures View() == T.Enroll(old(View()), id, name, ceiling)
      ensures forall k | k in old(enrollments) :: k in enrollments && enrollments[k] == old(enrollments)[k]
      ensures forall k | k in enrollments && k !in old(enrollments) :: k == id && !enrollments[k].approved && enrollments[k].ceiling == ceiling
    {
      if id !in enrollments {
        enrollments := enrollments[id := Enrollment(name, ceiling, false)];
      }
    }

    method Approve(id: Key, invited: bool) returns (r: Result<bool>)
      modifies `config, `revision, `identities, `enrollments
      ensures State.Outcome(View(), r) == T.Approve(old(View()), id, invited)
    {
      if id !in enrollments {
        return Err(InstanceNotFound);
      }
      var e := enrollments[id];
      if e.approved {
        return Ok(true);
      }
      if !invited {
        return Err(InvalidRequest);
      }
      if revision == 0 {
        return Err(NotConfigured);
      }
      if e.name in identities {
        return Err(NodeNameExists);
      }
      var known := config.Node(e.name);
      if known.Some? && !known.value.budget.Fits(e.ceiling) {
        return Err(LocalCeiling);
      }
      var c := WithNode(e.name, e.ceiling);
      var ok := Validate.Validate(c);
      if !ok {
        return Err(InvalidConfig);
      }
      Admit(id, e, c);
      return Ok(true);
    }

    /** The rows an admission writes. */
    method Admit(id: Key, e: Enrollment, c: Config)
      modifies `config, `revision, `identities, `enrollments
      ensures config == c && revision == old(revision) + 1
      ensures identities == old(identities) + {e.name} && enrollments == old(enrollments)[id := e.(approved := true)]
    {
      identities := identities + {e.name};
      enrollments := enrollments[id := e.(approved := true)];
      config, revision := c, revision + 1;
    }

    // ---- Instances ----

    /** placeTx. */
    method Place(p: Pool, table: seq<Instance>, id: Key, request: Request, now: int) returns (r: Result<Instance>)
      ensures r == T.Place(config, p, table, obs, id, request, now)
    {
      var rows := FindCandidates(config, p, table, obs, now);
      if rows == [] || rows[0].reasons != [] {
        return Err(NoCapacity);
      }
      var image := match config.Image(p.image) case Some(im) => im case None => T.NO_IMAGE;
      return Ok(Instance(id, request, rows[0].node, p, image, Reserved, rows[0].reservation, p.Charge(), 0, NONE,
                         now, now + (p.executionMinutes + 10) * MINUTE, now, false, NONE, 0));
    }

    method Allocate(id: Key, request: Request, pool: Key, now: int) returns (r: Result<Instance>)
      modifies `runs
      ensures State.Outcome(View(), r) == T.Allocate(old(View()), id, request, pool, now)
    {
      if request == Runner(NONE) {
        return Err(InvalidRequest);
      }
      assert runs[..|runs|] == runs;
      for i := |runs| downto 0
        invariant FindRequest(runs[..i], request) == FindRequest(runs, request)
      {
        assert Init(runs[..i + 1]) == runs[..i];
        if runs[i].request == request {
          return if runs[i].pool.name != pool then Err(IdempotencyConflict) else Ok(runs[i]);
        }
      }
      assert FindRequest(runs, request).None?;
      var p := config.Pool(pool);
      if p.None? {
        return Err(PoolNotFound);
      }
      if p.value.tasks {
        return Err(TaskPool);
      }
      var placed := Place(p.value, runs, id, request, now);
      if placed.Err? {
        return placed;
      }
      if T.Taken(runs, placed.value) {
        return Err(UniqueViolation);
      }
      runs := runs + [placed.value];
      return placed;
    }

    method SetJIT(id: Key, runnerID: int, size: nat, now: int) returns (r: Result<bool>)
      modifies `runs
      ensures State.Outcome(View(), r) == T.SetJIT(old(View()), id, runnerID, size, now)
      ensures UniqueInstances(old(runs)) ==> OnlyRegisters(old(runs), runs, id, r == Ok(true))
    {
      if size == 0 || size > MAX_JIT || runnerID <= 0 {
        return Err(InvalidRequest);
      }
      var a := FindInstance(runs, id);
      if a.None? {
        return Err(InstanceNotFound);
      }
      if a.value.jitReady {
        return Ok(false);
      }
      if a.value.state != Reserved {
        return Err(InvalidRequest);
      }
      var row := a.value.(jitReady := true, runnerID := runnerID);
      row := row.(state := Provisioning, updated := now);
      ChangedRun(runs, id, row.(jit := size));
      runs := SaveInstance(runs, row.(jit := size));
      return Ok(true);
    }

    method StopInstance(id: Key) returns (r: Result<bool>)
      modifies `runs
      ensures State.Outcome(View(), r) == T.StopInstance(old(View()), id)
    {
      assert runs[..|runs|] == runs;
      for i := |runs| downto 0
        invariant FindInstance(runs[..i], id) == FindInstance(runs, id)
      {
        assert Init(runs[..i + 1]) == runs[..i];
        if runs[i].id == id {
          var a := runs[i];
          if a.state == Deleted || a.state == Deleting {
            return Ok(false);
          }
          runs := SaveInstance(runs, a.(state := Stopping));
          return Ok(true);
        }
      }
      return Err(InstanceNotFound);
    }

    // ---- GitHub messages and demand ----

    /** One event against every row, each as it was read before the loop. */
    method WitnessEvent(rows: seq<Instance>, table: seq<Instance>, pool: Key, events: seq<RunnerEvent>, k: nat, now: int)
      returns (after: seq<Instance>)
      requires k < |events| && table == T.EventRows(rows, pool, events[..k], now)
      ensures after == T.EventRows(rows, pool, events[..k + 1], now)
    {
      after := table;
      var e := events[k];
      assert events[..k + 1][..k] == events[..k];
      for i := 0 to |rows|
        invariant |after| == |rows|
        invariant forall j | 0 <= j < i :: after[j] == T.AfterEvents(rows[j], pool, events[..k + 1], now)
        invariant forall j | i <= j < |rows| :: after[j] == T.AfterEvents(rows[j], pool, events[..k], now)
      {
        var a := rows[i];
        if a.id != e.vm || a.pool.name != pool {
          continue;
        }
        if e.kind == BusyEvent && a.Active() {
          a := a.(state := Busy);
        }
        if e.kind == CompleteEvent {
          a := a.(result := e.result);
        }
        after := after[i := a.(updated := now)];
      }
    }

    method PersistMessage(id: MessageID, pool: Key, desired: int, events: seq<RunnerEvent>, hold: bool, now: int)
      returns (r: Result<bool>)
      modifies `runs, `demand, `inbox
      ensures State.Outcome(View(), r) == T.PersistMessage(old(View()), id, pool, desired, events, hold, now)
    {
      if desired < 0 || desired > 1000000 || id.number < 0 {
        return Err(InvalidRequest);
      }
      var m := Message(pool, desired, events);
      if id in inbox {
        return if inbox[id] != m then Err(MessageConflict) else Ok(false);
      }
      var table := runs;
      assert table == T.EventRows(runs, pool, events[..0], now);
      for k := 0 to |events|
        invariant table == T.EventRows(runs, pool, events[..k], now)
        modifies {}
      {
        table := WitnessEvent(runs, table, pool, events, k, now);
      }
      assert events[..|events|] == events;
      runs := table;
      demand := demand[pool := Demand(desired, now, false, hold || (pool in demand && demand[pool].intake))];
      inbox := inbox[id := m];
      return Ok(true);
    }

    method RefreshDemand(pool: Key, desired: int, now: int) returns (r: Result<bool>)
      modifies `demand
      ensures State.Outcome(View(), r) == T.RefreshDemand(old(View()), pool, desired, now)
      ensures forall p | p != pool :: (p in demand <==> p in old(demand)) && (p in demand ==> demand[p] == old(demand)[p])
      ensures r.Ok? ==> pool in demand && !demand[pool].barrier && demand[pool].intake == (pool in old(demand) && old(demand)[pool].intake)
    {
      if pool == NONE || desired < 0 || desired > 1000000 {
        return Err(InvalidRequest);
      }
      if pool in demand {
        demand := demand[pool := demand[pool].(desired := desired, seen := now, barrier := false)];
      } else {
        demand := demand[pool := Demand(desired, now, false, false)];
      }
      return Ok(true);
    }

    method SetDemandFlag(flag: T.Flag, pool: Key, blocked: bool) returns (r: Result<bool>)
      modifies `demand
      ensures State.Outcome(View(), r) == T.SetDemandFlag(old(View()), flag, pool, blocked)
      ensures demand.Keys == old(demand).Keys && forall p | p in demand && p != pool :: demand[p] == old(demand)[p]
      ensures r.Ok? ==> pool in demand && demand[pool].desired == old(demand)[pool].desired && demand[pool].seen == old(demand)[pool].seen
      ensures r.Ok? && flag == T.Barrier ==> demand[pool].barrier == blocked && demand[pool].intake == old(demand)[pool].intake
      ensures r.Ok? && flag == T.Intake ==> demand[pool].intake == blocked && demand[pool].barrier == old(demand)[pool].barrier
    {
      if pool == NONE {
        return Err(InvalidRequest);
      }
      if pool !in demand {
        return Err(DemandNotFound);
      }
      var d := demand[pool];
      if flag == T.Barrier {
        d := d.(barrier := blocked);
      } else {
        d := d.(intake := blocked);
      }
      demand := demand[pool := d];
      return Ok(true);
    }

    method Drain(node: Key, drained: bool) returns (r: Result<bool>)
      modifies `obs
      ensures State.Outcome(View(), r) == T.Drain(old(View()), node, drained)
      ensures obs.Keys == old(obs).Keys && forall n | n in obs && n != node :: obs[n] == old(obs)[n]
      ensures node in obs ==> obs[node].drained == drained && obs[node].(drained := old(obs)[node].drained) == old(obs)[node]
    {
      if node !in obs {
        return Err(NodeNotObserved);
      }
      obs := obs[node := obs[node].(drained := drained)];
      return Ok(true);
    }

    // ---- Agent tasks ----

    method QueuedTasks() returns (queued: seq<Task>)
      ensures queued == T.QueuedTasks(tasks)
    {
      queued := [];
      for i := 0 to |tasks|
        invariant queued == T.Waiting(tasks[..i])
      {
        assert tasks[..i + 1][..i] == tasks[..i];
        if tasks[i].Queued() {
          queued := queued + [tasks[i]];
        }
      }
      assert tasks[..|tasks|] == tasks;
      queued := Sort(T.Older, queued);
    }

    /** dispatchTx, on the tables of the running transaction. */
    method DispatchOne(tables: T.Tables, t: Task, id: Key, now: int) returns (r: Result<Option<T.Tables>>)
      ensures r == T.DispatchOne(config, obs, now, tables, t, id)
    {
      var pool := config.Pool(t.spec.pool);
      if pool.None? || !pool.value.tasks || !pool.value.enabled {
        return Ok(None);
      }
      var placed := Place(pool.value, tables.runs, id, ForTask(t.id), now);
      if placed.Err? {
        return Ok(None);
      }
      var inst := placed.value.(task := t.id, state := Provisioning);
      inst := inst.(jitReady := true);
      if T.Taken(tables.runs, placed.value) {
        return Err(UniqueViolation);
      }
      return Ok(Some(T.Tables(tables.runs + [inst], SaveTask(tables.tasks, t.(instance := id, updated := now)))));
    }

    method DispatchTasks(draw: Key -> Key, now: int) returns (r: Result<nat>)
      modifies `runs, `tasks
      ensures State.Outcome(View(), r) == T.DispatchTasks(old(View()), draw, now)
    {
      if revision == 0 {
        return Ok(0);
      }
      var queued := QueuedTasks();
      var tables := T.Tables(runs, tasks);
      var blocked, placed := {}, 0;
      for i := 0 to |queued|
        invariant T.DispatchQueue(config, obs, now, draw, T.Tables(runs, tasks), queued[..i]) == Ok(T.Dispatch(tables, blocked, placed))
        modifies {}
      {
        var t := queued[i];
        assert queued[..i + 1][..i] == queued[..i];
        if now - t.created > QUEUE_LIFETIME {
          tables := tables.(tasks := SaveTask(tables.tasks, t.(expired := true, updated := now, secret := false)));
          continue;
        }
        if t.spec.pool in blocked {
          continue;
        }
        var one := DispatchOne(tables, t, draw(t.id), now);
        if one.Err? {
          FirstDispatchFault(config, obs, now, draw, T.Tables(runs, tasks), queued, i);
          assert T.DispatchStep(config, obs, now, draw, T.Dispatch(tables, blocked, placed), t) == Err(one.fault);
          return Err(one.fault);
        }
        if one.value.None? {
          blocked := blocked + {t.spec.pool};
          continue;
        }
        tables := one.value.value;
        placed := placed + 1;
      }
      assert queued[..|queued|] == queued;
      runs, tasks := tables.runs, tables.tasks;
      return Ok(placed);
    }

    method CountOpen(client: Key) returns (open: nat)
      ensures open == T.OpenTasks(tasks, client)
    {
      open := 0;
      for i := 0 to |tasks|
        invariant open == T.OpenTasks(tasks[..i], client)
      {
        assert tasks[..i + 1][..i] == tasks[..i];
        if tasks[i].client == client && tasks[i].secret {
          open := open + 1;
        }
      }
      assert tasks[..|tasks|] == tasks;
    }

    method SubmitTask(client: Key, spec: TaskSpec, taskID: Key, instanceID: Key, now: int) returns (r: Result<Key>)
      modifies `runs, `tasks
      ensures State.Outcome(View(), r) == T.Submit(old(View()), client, spec, taskID, instanceID, now)
    {
      if client == NONE {
        return Err(ClientUnauthorized);
      }
      if !spec.Valid() {
        return Err(InvalidTask);
      }
      var existing := FindSubmission(tasks, client, spec.request);
      if existing.Some? {
        return if existing.value.spec != spec then Err(IdempotencyConflict) else Ok(existing.value.id);
      }
      if revision == 0 {
        return Err(NotConfigured);
      }
      var pool := config.Pool(spec.pool);
      if pool.None? || !pool.value.tasks {
        return Err(TaskPool);
      }
      if !pool.value.enabled {
        return Err(PoolDisabled);
      }
      var open := CountOpen(client);
      if open >= MAX_CLIENT_TASKS {
        return Err(TaskLimit);
      }
      if taskID == NONE || FindTask(tasks, taskID).Some? {
        return Err(UniqueViolation);
      }
      r := SubmitNew(T.NewTask(client, spec, taskID, now), instanceID, now);
    }

    /** The insertion, and the placement unless an older task waits. */
    method SubmitNew(t: Task, instanceID: Key, now: int) returns (r: Result<Key>)
      modifies `runs, `tasks
      ensures State.Outcome(View(), r) == T.SubmitNew(old(View()), t, instanceID, now)
    {
      var before := tasks;
      tasks := tasks + [t];
      var queued := QueuedTasks();
      for i := 0 to |queued|
        invariant forall k | 0 <= k < i :: queued[k].spec.pool != t.spec.pool || queued[k].id == t.id
      {
        if queued[i].spec.pool == t.spec.pool && queued[i].id != t.id {
          assert T.OlderInPool(tasks, t);
          return Ok(t.id);
        }
      }
      assert !T.OlderInPool(tasks, t);
      var one := DispatchOne(T.Tables(runs, tasks), t, instanceID, now);
      if one.Err? {
        tasks := before;
        return Err(one.fault);
      }
      if one.value.Some? {
        runs, tasks := one.value.value.runs, one.value.value.tasks;
      }
      return Ok(t.id);
    }

    method CancelTask(client: Key, id: Key, now: int) returns (r: Result<bool>)
      modifies `runs, `tasks
      ensures State.Outcome(View(), r) == T.CancelTask(old(View()), client, id, now)
      ensures UniqueTasks(old(tasks)) ==> OnlyCancels(old(tasks), tasks, client, id, r == Ok(true))
      ensures UniqueInstances(old(runs)) ==> OnlyStops(old(runs), runs)
      ensures r == Ok(true) ==> Ends(old(tasks), tasks, runs, id)
    {
      var found := FindTask(tasks, id);
      if found.None? || (client != NONE && found.value.client != client) {
        return Err(TaskNotFound);
      }
      var t := found.value;
      if t.cancelled || t.expired || t.result.Some? {
        return Ok(false);
      }
      if t.instance == NONE {
        ChangedTask(tasks, id, t.(cancelled := true, updated := now, secret := false));
        EndsHere(tasks, id, t.(cancelled := true, updated := now, secret := false), runs);
        tasks := SaveTask(tasks, t.(cancelled := true, updated := now, secret := false));
        return Ok(true);
      }
      var inst := FindInstance(runs, t.instance);
      if inst.None? || inst.value.state == Deleting || inst.value.state == Deleted {
        return Ok(false);
      }
      ChangedTask(tasks, id, t.(cancelled := true, updated := now));
      ChangedRun(runs, t.instance, inst.value.(state := Stopping, updated := now));
      StopsHere(runs, inst.value.(state := Stopping, updated := now));
      EndsHere(tasks, id, t.(cancelled := true, updated := now), SaveInstance(runs, inst.value.(state := Stopping, updated := now)));
      tasks := SaveTask(tasks, t.(cancelled := true, updated := now));
      runs := SaveInstance(runs, inst.value.(state := Stopping, updated := now));
      return Ok(true);
    }

    method ReportTask(node: Key, id: Key, report: T.TaskReport, now: int) returns (r: Result<bool>)
      modifies `tasks
      ensures State.Outcome(View(), r) == T.ReportTask(old(View()), node, id, report, now)
      ensures UniqueTasks(old(tasks)) ==> OnlyReports(old(tasks), tasks, id, report.result)
    {
      if node == NONE || id == NONE || report.instance == NONE || report.progress > T.MAX_PROGRESS
         || (report.progress == 0 && report.result.None?) {
        return Err(InvalidRequest);
      }
      if report.result.Some? && !report.result.value.wellFormed {
        return Err(InvalidRequest);
      }
      var found := FindTask(tasks, id);
      if found.None? {
        return Err(TaskNotFound);
      }
      var t := found.value;
      var inst := FindInstance(runs, report.instance);
      if inst.None? || inst.value.task != id || t.instance != inst.value.id || inst.value.node != node {
        return Err(TaskNotOwned);
      }
      var a := inst.value;
      if report.result.Some? && a.state != Deleting && a.state != Deleted {
        return Err(TaskStillRunning);
      }
      if report.progress > 0 && (a.state == Provisioning || a.state == Idle || a.state == Busy || a.state == Stopping) {
        t := t.(progress := report.progress);
      }
      if report.result.Some? && t.result.None? {
        t := t.(result := report.result, updated := now);
      }
      ChangedTask(tasks, id, t);
      tasks := SaveTask(tasks, t);
      return Ok(true);
    }

    method ApproveClient(client: Key, replacing: bool) returns (r: Result<bool>)
      modifies `clients
      ensures State.Outcome(View(), r) == T.ApproveClient(old(View()), client, replacing)
      ensures forall c | c in old(clients) && old(clients)[c] :: c in clients && clients[c]
      ensures forall c | c in clients && !clients[c] :: (c in old(clients) && !old(clients)[c]) || (c == client && r == Ok(true))
    {
      if client == NONE {
        return Err(InvalidRequest);
      }
      if revision == 0 {
        return Err(NotConfigured);
      }
      if client in clients && clients[client] {
        return Err(ClientRevoked);
      }
      if client in clients && !replacing {
        return Err(ClientExists);
      }
      clients := clients[client := false];
      return Ok(true);
    }

    /** IDs are the primary key of the instances table. */
    method RevokeClient(client: Key, now: int) returns (r: Result<bool>)
      requires UniqueInstances(runs)
      modifies `runs, `tasks, `clients
      ensures State.Outcome(View(), r) == T.RevokeClient(old(View()), client, now)
    {
      if client !in clients {
        return Err(ClientNotFound);
      }
      var table, kept := runs, tasks;
      assert table == StoppedBy(runs, tasks[..0], client, now);
      for i := 0 to |tasks|
        invariant table == StoppedBy(runs, tasks[..i], client, now)
        invariant |kept| == |tasks|
        invariant forall j | 0 <= j < i :: kept[j] == T.RevokedTask(runs, tasks[j], client, now)
        invariant forall j | i <= j < |tasks| :: kept[j] == tasks[j]
        modifies {}
      {
        var t := tasks[i];
        assert tasks[..i + 1] == tasks[..i] + [t];
        StoppedFound(runs, tasks[..i], client, now, t.instance);
        StoppedMore(runs, tasks[..i], t, client, now);
        if t.client != client || !t.secret || t.cancelled || t.expired {
          continue;
        }
        if t.instance == NONE {
          kept := kept[i := t.(cancelled := true, updated := now, secret := false)];
          continue;
        }
        var inst := FindInstance(table, t.instance);
        if inst.None? || inst.value.state == Deleting || inst.value.state == Deleted {
          continue;
        }
        table := SaveInstance(table, inst.value.(state := Stopping, updated := now));
        kept := kept[i := t.(cancelled := true, updated := now)];
      }
      assert tasks[..|tasks|] == tasks;
      assert table == T.RevokeClient(View(), client, now).store.runs;
      assert kept == T.RevokeClient(View(), client, now).store.tasks;
      runs, tasks, clients := table, kept, clients[client := true];
      return Ok(true);
    }

    // ---- Sync ----

    /** The source's `reports` map. */
    method IndexReports(vms: seq<VMReport>) returns (ok: bool, reports: map<Key, ReportState>)
      ensures ok <==> Distinct(vms)
      ensures ok ==> forall id :: StateOf(vms, id) == if id in reports then Some(reports[id]) else None
    {
      reports := map[];
      for i := 0 to |vms|
        invariant forall id :: StateOf(vms[..i], id) == if id in reports then Some(reports[id]) else None
        invariant forall j, k | 0 <= j < k < i :: vms[j].id != vms[k].id
        invariant forall j | 0 <= j < i :: vms[j].id in reports
        invariant forall id | id in reports :: exists j | 0 <= j < i :: vms[j].id == id
      {
        assert vms[..i + 1][..i] == vms[..i];
        if vms[i].id in reports {
          return false, reports;
        }
        reports := reports[vms[i].id := vms[i].state];
      }
      assert vms[..|vms|] == vms;
      ok := true;
    }

    /** One row: the state change, or the fault that rolls everything back. */
    method SyncOne(node: Key, vms: seq<VMReport>, report: Option<ReportState>, a: Instance, now: int) returns (r: Result<Instance>)
      requires Concerns(node, a) && report == StateOf(vms, a.id)
      ensures r == match RowFault(a, StateOf(vms, a.id)) case Some(f) => Err(f) case None => Ok(SyncRow(node, vms, now, a))
    {
      var b := a;
      match report {
        case Some(VMRunning) =>
          if b.state == Provisioning {
            b := b.(state := Idle);
          }
        case Some(VMStopped) => b := b.(state := Deleting, held := b.held.(cpu := 0, memory := 0));
        case Some(VMDeleted) =>
          if b.state != Deleting {
            return Err(UnexpectedDeletion);
          }
          b := b.(state := Deleted, held := ZERO, jit := 0);
        case Some(VMFailed) => b := b.(state := Stopping);
        case Some(VMUnknown) =>
        case Some(VMOther) => return Err(Fault.ReportState);
        case None =>
      }
      return Ok(b.(updated := now));
    }

    /** Every row of the node in turn: its state, its pool's barrier, its
        task's payload, and the command it needs. */
    method SyncTables(node: Key, vms: seq<VMReport>, reports: map<Key, ReportState>, now: int)
      returns (fault: Option<Fault>, table: seq<Instance>, fences: map<Key, Demand>, kept: seq<Task>, pending: seq<Pending>)
      requires forall id :: StateOf(vms, id) == if id in reports then Some(reports[id]) else None
      ensures fault == RowsFault(node, vms, runs)
      ensures fault.None? ==>
                && table == SyncRows(node, vms, now, runs)
                && fences == BarDemand(demand, Barred(node, vms, runs))
                && kept == EraseSecrets(tasks, Gone(node, vms, runs))
                && pending == PendingAll(node, vms, now, runs)
    {
      table, fences, kept, pending := [], demand, tasks, [];
      ghost var none: seq<Instance> := [];
      assert runs[..0] == none;
      NothingSynced(node, vms, demand, tasks);
      for i := 0 to |runs|
        invariant RowsFault(node, vms, runs[..i]).None?
        invariant table == SyncRows(node, vms, now, runs[..i])
        invariant fences == BarDemand(demand, Barred(node, vms, runs[..i]))
        invariant kept == EraseSecrets(tasks, Gone(node, vms, runs[..i]))
        invariant pending == PendingAll(node, vms, now, runs[..i])
        modifies {}
      {
        var a := runs[i];
        var report := if a.id in reports then Some(reports[a.id]) else None;
        assert runs[..i + 1] == runs[..i] + [a];
        SyncedMore(node, vms, now, runs[..i], a, demand, tasks);
        if !Concerns(node, a) {
          table := table + [a];
          continue;
        }
        var b := SyncOne(node, vms, report, a, now);
        if b.Err? {
          FirstRowFault(node, vms, runs, i);
          return Some(b.fault), table, fences, kept, pending;
        }
        if report == Some(VMStopped) && a.result == NONE && a.held.cpu > 0 && a.task == NONE && a.pool.name in fences {
          fences := fences[a.pool.name := fences[a.pool.name].(barrier := true)];
        }
        if report == Some(VMDeleted) && a.task != NONE {
          kept := EraseSecrets(kept, {a.task});
        }
        table := table + [b.value];
        var action := ActionFor(b.value, report, now);
        if action.Some? {
          pending := pending + [Pending(b.value, action.value)];
        }
      }
      assert runs[..|runs|] == runs;
      fault := None;
    }

    /** Everything that is checked before any row is looked at. */
    method Screen(name: Key, o: NodeReport) returns (fault: Option<Fault>, reports: map<Key, ReportState>)
      ensures fault.Some? ==> SyncFault(View(), name, o) == fault
      ensures fault.None? ==> SyncFault(View(), name, o) == RowsFault(name, o.vms, runs)
      ensures fault.None? ==> forall id :: StateOf(o.vms, id) == if id in reports then Some(reports[id]) else None
    {
      reports := map[];
      if !WellFormed(name, o) {
        return Some(Fault.NodeReport), reports;
      }
      var n := config.Node(name);
      if n.None? {
        return Some(NodeNotConfigured), reports;
      }
      if !n.value.budget.Fits(o.ceiling) {
        return Some(LocalCeiling), reports;
      }
      if name in obs && obs[name].sequence >= o.sequence {
        return Some(StaleReport), reports;
      }
      var distinct;
      distinct, reports := IndexReports(o.vms);
      return if distinct then None else Some(DuplicateReport), reports;
    }

    method Sync(name: Key, o: NodeReport, now: int) returns (r: Result<seq<Command>>)
      modifies `obs, `runs, `demand, `tasks
      ensures State.Outcome(View(), r) == SyncNode(old(View()), name, o, now)
      ensures Answered(old(View()), State.Outcome(View(), r), name, o.vms, now)
    {
      SyncAnswered(View(), name, o, now);
      var fault, reports := Screen(name, o);
      if fault.Some? {
        return Err(fault.value);
      }
      var table, fences, kept, pending;
      fault, table, fences, kept, pending := SyncTables(name, o.vms, reports, now);
      assert SyncFault(View(), name, o) == fault;
      if fault.Some? {
        return Err(fault.value);
      }
      r := Compose(kept, clients, Sort(Sooner, pending));
      if r.Ok? {
        Write(name, o, now, table, fences, kept);
      }
    }

    /** The rows an accepted report writes. */
    method Write(name: Key, o: NodeReport, now: int, table: seq<Instance>, fences: map<Key, Demand>, kept: seq<Task>)
      modifies `obs, `runs, `demand, `tasks
      ensures View() == old(View()).(obs := Recorded(old(obs), name, o, now), runs := table, demand := fences, tasks := kept)
    {
      var drained := name in obs && obs[name].drained;
      obs := obs[name := Observation(o.sequence, now, o.ready, drained, o.isolation, o.ceiling, o.freeDiskGiB, o.digests)];
      runs, demand, tasks := table, fences, kept;
    }
  }

  // ---- What a handler may change ----

  /** A VM that awaits its registration gets one, and keeps its hold. */
  predicate OnlyRegisters(before: seq<Instance>, after: seq<Instance>, id: Key, done: bool) {
    && |after| == |before|
    && forall i | 0 <= i < |before| && after[i] != before[i] ::
         && done && before[i].id == id && before[i].state == Reserved && !before[i].jitReady
         && after[i].jitReady && 0 < after[i].jit <= MAX_JIT && after[i].held == before[i].held
  }

  /** The client's own task ends, and loses its payload only if it never had
      a VM. */
  predicate OnlyCancels(before: seq<Task>, after: seq<Task>, client: Key, id: Key, done: bool) {
    && |after| == |before|
    && forall i | 0 <= i < |before| && after[i] != before[i] ::
         && done && before[i].id == id && (client == NONE || before[i].client == client)
         && before[i].result.None? && after[i].result.None?
         && after[i].cancelled && !after[i].Queued() && after[i].instance == before[i].instance
         && (after[i].secret != before[i].secret ==> before[i].instance == NONE)
  }

  /** The task is cancelled now, and its VM, if it has one, is told to stop. */
  predicate Ends(before: seq<Task>, after: seq<Task>, runs: seq<Instance>, id: Key) {
    exists j | 0 <= j < |before| == |after| ::
      && before[j].id == id && !before[j].cancelled && after[j].cancelled
      && (before[j].instance != NONE ==> AllStopping(runs, before[j].instance))
  }

  predicate OnlyStops(before: seq<Instance>, after: seq<Instance>) {
    && |after| == |before|
    && forall i | 0 <= i < |before| && after[i] != before[i] ::
         after[i].state == Stopping && after[i].held == before[i].held && before[i].state != Deleting && before[i].state != Deleted
  }

  /** The first result stays, and only the reported one is ever stored. */
  predicate OnlyReports(before: seq<Task>, after: seq<Task>, id: Key, result: Option<TaskResult>) {
    && |after| == |before|
    && forall i | 0 <= i < |before| && after[i] != before[i] ::
         && before[i].id == id && after[i].secret == before[i].secret && after[i].instance == before[i].instance
         && (before[i].result.Some? ==> after[i].result == before[i].result)
         && (after[i].result != before[i].result ==> after[i].result == result)
  }

  lemma {:induction false} ChangedTask(tasks: seq<Task>, id: Key, u: Task)
    requires FindTask(tasks, id).Some? && u.id == FindTask(tasks, id).value.id
    ensures UniqueTasks(tasks) ==>
              forall i | 0 <= i < |tasks| && SaveTask(tasks, u)[i] != tasks[i] ::
                tasks[i] == FindTask(tasks, id).value && SaveTask(tasks, u)[i] == u
    ensures FindTask(tasks, id).value.id == id
  {
    FindTaskSound(tasks, id);
    if UniqueTasks(tasks) {
      Consistency.SavedTasks(tasks, FindTask(tasks, id).value, u);
    }
  }

  predicate AllStopping(runs: seq<Instance>, id: Key) {
    && (exists k | 0 <= k < |runs| :: runs[k].id == id)
    && forall k | 0 <= k < |runs| && runs[k].id == id :: runs[k].state == Stopping
  }

  lemma {:induction false} StopsHere(runs: seq<Instance>, b: Instance)
    requires FindInstance(runs, b.id).Some? && b.state == Stopping
    ensures AllStopping(SaveInstance(runs, b), b.id)
  {
    FindInstanceSound(runs, b.id);
    var k :| 0 <= k < |runs| && runs[k].id == b.id;
    assert SaveInstance(runs, b)[k] == b;
  }

  lemma {:induction false} EndsHere(tasks: seq<Task>, id: Key, u: Task, runs: seq<Instance>)
    requires FindTask(tasks, id).Some? && !FindTask(tasks, id).value.cancelled
    requires u.id == FindTask(tasks, id).value.id && u.cancelled
    requires FindTask(tasks, id).value.instance != NONE ==> AllStopping(runs, FindTask(tasks, id).value.instance)
    ensures Ends(tasks, SaveTask(tasks, u), runs, id)
  {
    FindTaskSound(tasks, id);
    var j :| 0 <= j < |tasks| && tasks[j] == FindTask(tasks, id).value && tasks[j].id == id;
    assert SaveTask(tasks, u)[j] == u;
  }

  lemma {:induction false} ChangedRun(runs: seq<Instance>, id: Key, b: Instance)
    requires FindInstance(runs, id).Some? && b.id == FindInstance(runs, id).value.id
    ensures UniqueInstances(runs) ==>
              forall i | 0 <= i < |runs| && SaveInstance(runs, b)[i] != runs[i] ::
                runs[i] == FindInstance(runs, id).value && SaveInstance(runs, b)[i] == b
    ensures FindInstance(runs, id).value.id == id
  {
    FindInstanceSound(runs, id);
    if UniqueInstances(runs) {
      Consistency.SavedRuns(runs, FindInstance(runs, id).value, b);
    }
  }

  // ---- Sync, one row after another ----

  /** In a consistent store the reply is the proper one. */
  ghost predicate Answered(s: Store, o: State.Outcome<seq<Command>>, name: Key, vms: seq<VMReport>, now: int) {
    Consistency.Sound(s) && o.reply.Ok? ==> Answers.Proper(o.store, name, vms, now, o.reply.value)
  }

  lemma {:induction false} SyncAnswered(s: Store, name: Key, o: NodeReport, now: int)
    ensures Answered(s, SyncNode(s, name, o, now), name, o.vms, now)
  {
    if Consistency.Sound(s) && SyncFault(s, name, o).None? {
      Answers.ReplyExactly(s, name, o, now);
    }
  }

  lemma {:induction false} NothingSynced(node: Key, vms: seq<VMReport>, demand: map<Key, Demand>, tasks: seq<Task>)
    ensures BarDemand(demand, Barred(node, vms, [])) == demand
    ensures EraseSecrets(tasks, Gone(node, vms, [])) == tasks
  {
    var none: seq<Instance> := [];
    assert Barred(node, vms, none) == {} && Gone(node, vms, none) == {};
  }

  lemma {:induction false} SetsMore(node: Key, vms: seq<VMReport>, runs: seq<Instance>, a: Instance)
    ensures Barred(node, vms, runs + [a]) == Barred(node, vms, runs) + if RaisesBarrier(node, vms, a) then {a.pool.name} else {}
    ensures Gone(node, vms, runs + [a]) == Gone(node, vms, runs) + if Departs(node, vms, a) && a.task != NONE then {a.task} else {}
  {
    var more := runs + [a];
    assert more[|runs|] == a;
    assert forall i | 0 <= i < |runs| :: more[i] == runs[i];
    forall p
      ensures p in Barred(node, vms, runs) ==> p in Barred(node, vms, more)
      ensures p in Gone(node, vms, runs) ==> p in Gone(node, vms, more)
    {
      if p in Barred(node, vms, runs) {
        var i :| 0 <= i < |runs| && RaisesBarrier(node, vms, runs[i]) && runs[i].pool.name == p;
        assert RaisesBarrier(node, vms, more[i]);
      }
      if p in Gone(node, vms, runs) {
        var i :| 0 <= i < |runs| && Departs(node, vms, runs[i]) && runs[i].task != NONE && runs[i].task == p;
        assert Departs(node, vms, more[i]);
      }
    }
  }

  lemma {:induction false} BarMore(demand: map<Key, Demand>, pools: set<Key>, p: Key)
    ensures BarDemand(demand, pools + {}) == BarDemand(demand, pools)
    ensures BarDemand(demand, pools + {p})
         == if p in demand then BarDemand(demand, pools)[p := demand[p].(barrier := true)] else BarDemand(demand, pools)
  {
    assert pools + {} == pools;
  }

  lemma {:induction false} EraseMore(tasks: seq<Task>, gone: set<Key>, id: Key)
    ensures EraseSecrets(tasks, gone + {}) == EraseSecrets(tasks, gone)
    ensures EraseSecrets(tasks, gone + {id}) == EraseSecrets(EraseSecrets(tasks, gone), {id})
  {
    assert gone + {} == gone;
  }

  lemma {:induction false} SyncedMore(node: Key, vms: seq<VMReport>, now: int, runs: seq<Instance>, a: Instance, demand: map<Key, Demand>, tasks: seq<Task>)
    ensures SyncRows(node, vms, now, runs + [a]) == SyncRows(node, vms, now, runs) + [SyncRow(node, vms, now, a)]
    ensures PendingAll(node, vms, now, runs + [a]) == PendingAll(node, vms, now, runs) + PendingOf(node, vms, now, a)
    ensures RowsFault(node, vms, runs).None? ==>
              RowsFault(node, vms, runs + [a]) == if Concerns(node, a) then RowFault(a, StateOf(vms, a.id)) else None
    ensures var fences := BarDemand(demand, Barred(node, vms, runs));
            BarDemand(demand, Barred(node, vms, runs + [a]))
              == if RaisesBarrier(node, vms, a) && a.pool.name in fences
                 then fences[a.pool.name := fences[a.pool.name].(barrier := true)] else fences
    ensures var kept := EraseSecrets(tasks, Gone(node, vms, runs));
            EraseSecrets(tasks, Gone(node, vms, runs + [a]))
              == if Departs(node, vms, a) && a.task != NONE then EraseSecrets(kept, {a.task}) else kept
  {
    Grown(runs, a);
    SetsMore(node, vms, runs, a);
    BarMore(demand, Barred(node, vms, runs), a.pool.name);
    EraseMore(tasks, Gone(node, vms, runs), a.task);
  }

  lemma {:induction false} FirstRowFault(node: Key, vms: seq<VMReport>, runs: seq<Instance>, i: nat)
    requires i < |runs| && RowsFault(node, vms, runs[..i]).None?
    requires Concerns(node, runs[i]) && RowFault(runs[i], StateOf(vms, runs[i].id)).Some?
    ensures RowsFault(node, vms, runs) == RowFault(runs[i], StateOf(vms, runs[i].id))
    decreases |runs|
  {
    if i < |runs| - 1 {
      assert Init(runs)[..i] == runs[..i] && Init(runs)[i] == runs[i];
      FirstRowFault(node, vms, Init(runs), i);
    } else {
      assert runs[..i] == Init(runs);
    }
  }

  // ---- Revocation, one task after another ----

  function StoppedBy(runs: seq<Instance>, tasks: seq<Task>, client: Key, now: int): seq<Instance> {
    seq(|runs|, i requires 0 <= i < |runs| => T.StopFor(runs, tasks, client, runs[i], now))
  }

  /** Rows already stopped are still found, and still unfinished. */
  lemma {:induction false} StoppedFound(runs: seq<Instance>, tasks: seq<Task>, client: Key, now: int, id: Key)
    requires UniqueInstances(runs)
    ensures var table := StoppedBy(runs, tasks, client, now);
            && UniqueInstances(table)
            && (FindInstance(runs, id).None? <==> FindInstance(table, id).None?)
            && (FindInstance(runs, id).Some? ==>
                  FindInstance(table, id).value == T.StopFor(runs, tasks, client, FindInstance(runs, id).value, now))
            && (T.Finished(FindInstance(runs, id)) <==> T.Finished(FindInstance(table, id)))
  {
    var table := StoppedBy(runs, tasks, client, now);
    FindInstanceSound(runs, id);
    FindInstanceSound(table, id);
    assert forall i | 0 <= i < |runs| :: table[i].id == runs[i].id;
    assert UniqueInstances(table);
    if i :| 0 <= i < |runs| && runs[i].id == id {
      InstanceAt(runs, i);
      InstanceAt(table, i);
      StopUnfinished(runs, tasks, client, runs[i], now);
    }
  }

  lemma {:induction false} StopUnfinished(runs: seq<Instance>, tasks: seq<Task>, client: Key, a: Instance, now: int)
    requires FindInstance(runs, a.id) == Some(a)
    ensures T.Finished(Some(a)) <==> T.Finished(Some(T.StopFor(runs, tasks, client, a, now)))
  {
  }

  predicate Stopper(runs: seq<Instance>, t: Task, client: Key, a: Instance) {
    T.Revoked(runs, t, client) && t.instance == a.id && a.id != NONE
  }

  lemma {:induction false} StopMore(runs: seq<Instance>, tasks: seq<Task>, t: Task, client: Key, a: Instance, now: int)
    ensures T.StopFor(runs, tasks + [t], client, a, now)
         == if Stopper(runs, t, client, a) then a.(state := Stopping, updated := now) else T.StopFor(runs, tasks, client, a, now)
  {
    var more := tasks + [t];
    assert more[|tasks|] == t;
    assert forall j | 0 <= j < |tasks| :: more[j] == tasks[j];
    if j :| 0 <= j < |tasks| && T.Revoked(runs, tasks[j], client) && tasks[j].instance == a.id && a.id != NONE {
      assert T.Revoked(runs, more[j], client) && more[j].instance == a.id;
    }
  }

  lemma {:induction false} StoppedMore(runs: seq<Instance>, tasks: seq<Task>, t: Task, client: Key, now: int)
    requires UniqueInstances(runs)
    ensures t.instance != NONE && T.Revoked(runs, t, client) ==> FindInstance(StoppedBy(runs, tasks, client, now), t.instance).Some?
    ensures var table, after := StoppedBy(runs, tasks, client, now), StoppedBy(runs, tasks + [t], client, now);
            if t.instance != NONE && T.Revoked(runs, t, client)
            then after == SaveInstance(table, FindInstance(table, t.instance).value.(state := Stopping, updated := now))
            else after == table
  {
    var table, after := StoppedBy(runs, tasks, client, now), StoppedBy(runs, tasks + [t], client, now);
    StoppedFound(runs, tasks, client, now, t.instance);
    FindInstanceSound(runs, t.instance);
    forall i | 0 <= i < |runs|
      ensures after[i] == if Stopper(runs, t, client, runs[i]) then runs[i].(state := Stopping, updated := now) else table[i]
      ensures runs[i].id == t.instance ==> FindInstance(runs, t.instance) == Some(runs[i])
      ensures table[i].id == runs[i].id && table[i] == runs[i].(state := table[i].state, updated := table[i].updated)
    {
      StopMore(runs, tasks, t, client, runs[i], now);
      InstanceAt(runs, i);
    }
  }

  lemma {:induction false} FirstDispatchFault(c: Config, obs: map<Key, Observation>, now: int, draw: Key -> Key, start: T.Tables,
                                              queued: seq<Task>, i: nat)
    requires i < |queued| && T.DispatchQueue(c, obs, now, draw, start, queued[..i]).Ok?
    requires T.DispatchStep(c, obs, now, draw, T.DispatchQueue(c, obs, now, draw, start, queued[..i]).value, queued[i]).Err?
    ensures T.DispatchQueue(c, obs, now, draw, start, queued)
         == Err(T.DispatchStep(c, obs, now, draw, T.DispatchQueue(c, obs, now, draw, start, queued[..i]).value, queued[i]).fault)
    decreases |queued|
  {
    var front := queued[..|queued| - 1];
    if i < |front| {
      assert front[..i] == queued[..i];
      FirstDispatchFault(c, obs, now, draw, start, front, i);
    } else {
      assert front == queued[..i];
    }
  }
}
