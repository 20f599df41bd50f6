/** Every transaction of the controller keeps the state sound. */
module Soundness {
  import opened Resources
  import opened Model
  import opened Order
  import opened Validate
  import opened Ledger
  import opened Capacity
  import opened Placement
  import opened State
  import opened Transactions
  import opened Sync
  import opened Consistency
  import opened Movement

  // ---- Updates in place ----

  ghost predicate SameConfig(s: Store, s': Store) {
    s'.config == s.config && s'.revision == s.revision && s'.plans == s.plans
  }

  ghost predicate TasksKept(runs: seq<Instance>, tasks: seq<Task>, tasks': seq<Task>) {
    && SameTasks(tasks, tasks')
    && forall i | 0 <= i < |tasks| :: Keeps(tasks[i], tasks'[i]) && TaskOK(tasks'[i]) && SecretRule(runs, tasks'[i])
  }

  lemma {:induction false} UpdateSound(s: Store, s': Store)
    requires Sound(s) && SameConfig(s, s')
    requires ShrinksAll(s.runs, s'.runs) && (forall i | 0 <= i < |s'.runs| :: RowOK(s'.runs[i]))
    requires TasksKept(s'.runs, s.tasks, s'.tasks)
    ensures Sound(s')
  {
    if s.revision > 0 {
      ReleaseKeepsBalance(s.config, s.runs, s'.runs);
    }
    assert SameRows(s.runs, s'.runs) by {
      assert forall i | 0 <= i < |s.runs| :: Shrinks(s.runs[i], s'.runs[i]);
    }
    TiedAfter(s.runs, s.tasks, s'.runs, s'.tasks);
    LimitedAfter(s.tasks, s'.tasks);
    assert forall id | id in s'.plans :: PlanOK(s, id) && PlanOK(s', id);
  }

  /** The same, for transactions that release nothing. */
  lemma {:induction false} SteadySound(s: Store, s': Store)
    requires Sound(s) && SameConfig(s, s') && SteadyAll(s.runs, s'.runs)
    requires TasksKept(s.runs, s.tasks, s'.tasks)
    ensures Sound(s')
  {
    forall i | 0 <= i < |s.runs|
      ensures Shrinks(s.runs[i], s'.runs[i]) && SameRow(s.runs[i], s'.runs[i]) && RowOK(s'.runs[i])
      ensures s'.runs[i].state == Deleted <==> s.runs[i].state == Deleted
    {
      assert Steady(s.runs[i], s'.runs[i]) && RowOK(s.runs[i]);
      SteadyShrinks(s.runs[i], s'.runs[i]);
    }
    forall i | 0 <= i < |s.tasks|
      ensures SecretRule(s'.runs, s'.tasks[i])
    {
      SecretsAfter(s.runs, s'.runs, s'.tasks[i]);
    }
    UpdateSound(s, s');
  }

  lemma {:induction false} TasksUntouched(s: Store)
    requires Sound(s)
    ensures TasksKept(s.runs, s.tasks, s.tasks)
  {
    assert forall i | 0 <= i < |s.tasks| :: SecretRule(s.runs, s.tasks[i]);
  }

  lemma {:induction false} SavedTasksKept(s: Store, t: Task, u: Task)
    requires Sound(s) && FindTask(s.tasks, t.id) == Some(t) && SameTask(t, u)
    requires Keeps(t, u) && TaskOK(u) && SecretRule(s.runs, u)
    ensures TasksKept(s.runs, s.tasks, SaveTask(s.tasks, u))
  {
    FindTaskSound(s.tasks, t.id);
    SavedTasks(s.tasks, t, u);
    assert forall i | 0 <= i < |s.tasks| :: SecretRule(s.runs, s.tasks[i]);
  }

  lemma {:induction false} Found(s: Store, id: Key)
    requires Sound(s) && FindTask(s.tasks, id).Some?
    ensures var t := FindTask(s.tasks, id).value;
            t.id == id && t in s.tasks && TaskOK(t) && SecretRule(s.runs, t) && LinkedTask(s.runs, t)
  {
    FindTaskSound(s.tasks, id);
  }

  lemma {:induction false} RunsSound(s: Store, s': Store)
    requires Sound(s) && RunsOnly(s, s') && SteadyAll(s.runs, s'.runs)
    ensures Sound(s')
  {
    TasksUntouched(s);
    SteadySound(s, s');
  }

  ghost predicate RunsOnly(s: Store, s': Store) {
    SameConfig(s, s') && s'.tasks == s.tasks
  }

  lemma {:induction false} RunFrames(s: Store, id: Key, runnerID: int, size: nat, now: int)
    ensures RunsOnly(s, SetJIT(s, id, runnerID, size, now).store)
    ensures RunsOnly(s, StopInstance(s, id).store)
  {
  }

  lemma {:induction false} SetJITSound(s: Store, id: Key, runnerID: int, size: nat, now: int)
    requires Sound(s)
    ensures Sound(SetJIT(s, id, runnerID, size, now).store)
  {
    RunFrames(s, id, runnerID, size, now);
    SetJITSteady(s, id, runnerID, size, now);
    RunsSound(s, SetJIT(s, id, runnerID, size, now).store);
  }

  lemma {:induction false} PersistSound(s: Store, id: MessageID, pool: Key, desired: int, events: seq<RunnerEvent>, hold: bool, now: int)
    requires Sound(s)
    ensures Sound(PersistMessage(s, id, pool, desired, events, hold, now).store)
  {
    PersistSteady(s, id, pool, desired, events, hold, now);
    RunsSound(s, PersistMessage(s, id, pool, desired, events, hold, now).store);
  }

  lemma {:induction false} StopSound(s: Store, id: Key)
    requires Sound(s)
    ensures Sound(StopInstance(s, id).store)
  {
    RunFrames(s, id, 0, 0, 0);
    StopSteady(s, id);
    RunsSound(s, StopInstance(s, id).store);
  }

  lemma {:induction false} CancelFrame(s: Store, client: Key, id: Key, now: int)
    requires CancelTask(s, client, id, now).store != s
    ensures FindTask(s.tasks, id).Some?
    ensures var s', t := CancelTask(s, client, id, now).store, FindTask(s.tasks, id).value;
            && s' == s.(runs := s'.runs, tasks := SaveTask(s.tasks, AsCancelled(t, now)))
            && !t.cancelled && !t.expired && t.result.None?
  {
  }

  function AsCancelled(t: Task, now: int): Task {
    t.(cancelled := true, updated := now, secret := t.secret && t.instance != NONE)
  }

  lemma {:induction false} CancelSound(s: Store, client: Key, id: Key, now: int)
    requires Sound(s)
    ensures Sound(CancelTask(s, client, id, now).store)
  {
    var s' := CancelTask(s, client, id, now).store;
    if s' != s {
      CancelFrame(s, client, id, now);
      CancelSteady(s, client, id, now);
      var t := FindTask(s.tasks, id).value;
      Found(s, id);
      SavedTasksKept(s, t, AsCancelled(t, now));
      SteadySound(s, s');
    }
  }

  lemma {:induction false} RevokeSound(s: Store, client: Key, now: int)
    requires Sound(s)
    ensures Sound(RevokeClient(s, client, now).store)
  {
    var s' := RevokeClient(s, client, now).store;
    TasksUntouched(s);
    RevokeSteady(s, client, now);
    forall i | 0 <= i < |s.tasks|
      ensures var u := RevokedTask(s.runs, s.tasks[i], client, now);
              SameTask(s.tasks[i], u) && Keeps(s.tasks[i], u) && TaskOK(u) && SecretRule(s.runs, u)
    {
      assert TaskOK(s.tasks[i]) && SecretRule(s.runs, s.tasks[i]);
    }
    SteadySound(s, s');
  }

  /** The saved row differs in what was reported only. */
  lemma {:induction false} ReportFrame(s: Store, node: Key, id: Key, r: TaskReport, now: int) returns (u: Task)
    requires ReportTask(s, node, id, r, now).store != s
    ensures FindTask(s.tasks, id).Some?
    ensures var t := FindTask(s.tasks, id).value;
            && u == t.(progress := u.progress, result := u.result, updated := u.updated)
            && ReportTask(s, node, id, r, now).store == s.(tasks := SaveTask(s.tasks, u))
            && (u.result != t.result ==>
                  && t.result.None? && FindInstance(s.runs, r.instance).Some?
                  && FindInstance(s.runs, r.instance).value.id == t.instance && !FindInstance(s.runs, r.instance).value.Active())
  {
    var t, a := FindTask(s.tasks, id).value, FindInstance(s.runs, r.instance).value;
    var live := a.state == Provisioning || a.state == Idle || a.state == Busy || a.state == Stopping;
    u := if r.progress > 0 && live then t.(progress := r.progress) else t;
    u := if r.result.Some? && t.result.None? then u.(result := r.result, updated := now) else u;
  }

  lemma {:induction false} ReportSound(s: Store, node: Key, id: Key, r: TaskReport, now: int)
    requires Sound(s)
    ensures Sound(ReportTask(s, node, id, r, now).store)
  {
    var s' := ReportTask(s, node, id, r, now).store;
    if s' != s {
      var u := ReportFrame(s, node, id, r, now);
      SameSteady(s.runs);
      Found(s, id);
      SavedTasksKept(s, FindTask(s.tasks, id).value, u);
      SteadySound(s, s');
    }
  }

  // ---- Reports ----

  /** A task's payload goes with the confirmed deletion of its own VM. */
  lemma {:induction false} GoneIff(s: Store, node: Key, vms: seq<VMReport>, i: nat, k: nat)
    requires Tied(s.runs, s.tasks) && i < |s.tasks| && k < |s.runs|
    requires s.tasks[i].instance != NONE && s.runs[k].id == s.tasks[i].instance
    ensures s.tasks[i].id in Gone(node, vms, s.runs) <==> Departs(node, vms, s.runs[k])
  {
    var t := s.tasks[i];
    assert TaskOK(t) && LinkedTask(s.runs, t);
    InstanceAt(s.runs, k);
    TaskAt(s.tasks, i);
    if t.id in Gone(node, vms, s.runs) {
      var j :| 0 <= j < |s.runs| && Departs(node, vms, s.runs[j]) && s.runs[j].task == t.id;
      assert LinkedRun(s.tasks, s.runs[j]);
    }
  }

  lemma {:induction false} UnplacedStays(s: Store, node: Key, vms: seq<VMReport>, i: nat)
    requires Tied(s.runs, s.tasks) && i < |s.tasks| && s.tasks[i].instance == NONE
    ensures s.tasks[i].id !in Gone(node, vms, s.runs)
  {
    TaskAt(s.tasks, i);
    forall j | 0 <= j < |s.runs| && s.runs[j].task != NONE
      ensures s.runs[j].task != s.tasks[i].id
    {
      assert RowOK(s.runs[j]) && LinkedRun(s.tasks, s.runs[j]);
    }
  }

  lemma {:induction false} ErasedAfter(s: Store, node: Key, vms: seq<VMReport>, now: int, i: nat)
    requires Tied(s.runs, s.tasks) && i < |s.tasks|
    requires SameRows(s.runs, SyncRows(node, vms, now, s.runs))
    ensures SecretRule(SyncRows(node, vms, now, s.runs), EraseSecrets(s.tasks, Gone(node, vms, s.runs))[i])
  {
    var t := s.tasks[i];
    assert LinkedTask(s.runs, t) && SecretRule(s.runs, t);
    if t.instance == NONE {
      UnplacedStays(s, node, vms, i);
    } else {
      var k := FoundAfter(s.runs, SyncRows(node, vms, now, s.runs), t.instance);
      GoneIff(s, node, vms, i, k);
    }
  }

  lemma {:induction false} AcceptedSound(s: Store, name: Key, o: NodeReport, now: int)
    requires Sound(s) && SyncFault(s, name, o).None?
    ensures Sound(Reported(s, name, o, now))
  {
    var s' := Reported(s, name, o, now);
    forall i | 0 <= i < |s.runs|
      ensures Shrinks(s.runs[i], s'.runs[i]) && SameRow(s.runs[i], s'.runs[i]) && RowOK(s'.runs[i])
    {
      assert HoldingOK(s.runs[i]) && RowOK(s.runs[i]);
      if Concerns(name, s.runs[i]) {
        NoRowFault(name, o.vms, s.runs, i);
      }
      SyncShrinks(name, o.vms, now, s.runs[i]);
    }
    forall i | 0 <= i < |s.tasks|
      ensures SecretRule(s'.runs, s'.tasks[i]) && Keeps(s.tasks[i], s'.tasks[i]) && TaskOK(s'.tasks[i])
    {
      assert TaskOK(s.tasks[i]);
      ErasedAfter(s, name, o.vms, now, i);
    }
    UpdateSound(s, s');
  }

  lemma {:induction false} SyncSound(s: Store, name: Key, o: NodeReport, now: int)
    requires Sound(s)
    ensures Sound(SyncNode(s, name, o, now).store)
  {
    if SyncFault(s, name, o).None? {
      AcceptedSound(s, name, o, now);
    }
  }

  // ---- Configuration ----

  lemma {:induction false} PlanFrame(s: Store, id: Key, c: Config, now: int)
    ensures var s' := Plan(s, id, c, now).store;
            s' == s || (id !in s.plans && s' == s.(plans := s.plans[id := s'.plans[id]])
                        && s'.plans[id].base == s.revision && s'.plans[id].config == MergeConfig(s.config, c))
  {
  }

  lemma {:induction false} PlanSound(s: Store, id: Key, c: Config, now: int)
    requires Sound(s)
    ensures Sound(Plan(s, id, c, now).store)
  {
    var s' := Plan(s, id, c, now).store;
    PlanFrame(s, id, c, now);
    if s' != s {
      assert Covers(s.config, s'.plans[id].config) by {
        MergeCovers(s.config, c);
      }
      forall k | k in s'.plans
        ensures PlanOK(s', k)
      {
        assert k in s.plans ==> PlanOK(s, k);
      }
    }
  }

  lemma {:induction false} HoldersKnown(s: Store, i: nat)
    requires Sound(s) && i < |s.runs|
    ensures HoldingOK(s.runs[i]) && s.config.Pool(s.runs[i].pool.name).Some? && s.config.Node(s.runs[i].node).Some?
  {
    assert Backed(s.config, s.runs[i]);
  }

  lemma {:induction false} ApplySound(s: Store, id: Key, now: int)
    requires Sound(s)
    ensures Sound(Apply(s, id, now).store)
  {
    var s' := Apply(s, id, now).store;
    if s' != s {
      var plan := s.plans[id];
      assert PlanOK(s, id);
      forall i | 0 <= i < |s.runs|
        ensures HoldingOK(s.runs[i]) && s.config.Pool(s.runs[i].pool.name).Some? && s.config.Node(s.runs[i].node).Some?
      {
        HoldersKnown(s, i);
      }
      AcceptedChangeBalances(s.config, plan.config, s.runs);
      forall k | k in s'.plans
        ensures PlanOK(s', k)
      {
        assert PlanOK(s, k);
      }
    }
  }

  // A node without VMs or reservations commits nothing.

  lemma {:induction false} NothingHeld(c: Config, runs: seq<Instance>, node: Key, k: Kind)
    requires forall i | 0 <= i < |runs| :: runs[i].node != node
    ensures HeldOf(runs, node, k) == 0
  {
    if runs != [] {
      NothingHeld(c, Init(runs), node, k);
    }
  }

  lemma {:induction false} SameProtection(c: Config, d: Config, rs: seq<Reservation>, node: Key, runs: seq<Instance>, k: Kind)
    requires d.pools == c.pools
    ensures ProtectedOf(d, rs, node, runs, k) == ProtectedOf(c, rs, node, runs, k)
    ensures (forall i | 0 <= i < |rs| :: rs[i].node != node) ==> ProtectedOf(d, rs, node, runs, k) == 0
  {
    if rs != [] {
      SameProtection(c, d, rs[..|rs| - 1], node, runs, k);
      assert Protect(d, rs[|rs| - 1], runs) == Protect(c, rs[|rs| - 1], runs);
    }
  }

  lemma {:induction false} NodeAppended(ns: seq<Node>, n: Node, name: Key)
    ensures FindNode(ns + [n], name) == if FindNode(ns, name).Some? then FindNode(ns, name) else if n.name == name then Some(n) else None
  {
    if ns != [] {
      assert (ns + [n])[1..] == ns[1..] + [n];
      NodeAppended(ns[1..], n, name);
    } else {
      assert ([] + [n])[1..] == [];
    }
  }

  predicate Unused(c: Config, runs: seq<Instance>, node: Key) {
    && (forall i | 0 <= i < |runs| :: runs[i].node != node)
    && forall i | 0 <= i < |c.reservations| :: c.reservations[i].node != node
  }

  lemma {:induction false} CommittedWith(c: Config, d: Config, runs: seq<Instance>, n: Node)
    requires d.pools == c.pools && d.reservations == c.reservations
    ensures Committed(d, runs, n) <==> Committed(c, runs, n)
  {
    SameProtection(c, d, c.reservations, n.name, runs, CPU);
    SameProtection(c, d, c.reservations, n.name, runs, Memory);
    SameProtection(c, d, c.reservations, n.name, runs, Disk);
  }

  lemma {:induction false} UnusedCommits(c: Config, runs: seq<Instance>, n: Node)
    requires n.budget.NonNegative() && Unused(c, runs, n.name)
    ensures Committed(c, runs, n)
  {
    var none := HeldOn(runs, n.name).Add(ProtectedOn(c, c.reservations, n.name, runs));
    forall k: Kind
      ensures none.Of(k) == 0
    {
      NothingHeld(c, runs, n.name, k);
      SameProtection(c, c, c.reservations, n.name, runs, k);
    }
    assert none.Of(CPU) == 0 && none.Of(Memory) == 0 && none.Of(Disk) == 0;
  }

  /** Admitting a node bypasses Apply, yet keeps the ledger: nothing runs on
      it and nothing is reserved there. */
  lemma {:induction false} AdmittedBalances(c: Config, d: Config, runs: seq<Instance>, n: Node)
    requires Valid(c) && Balanced(c, runs) && c.Node(n.name).None?
    requires d == c.(nodes := c.nodes + [n]) && Valid(d)
    ensures Balanced(d, runs)
  {
    forall name
      ensures d.Node(name) == if c.Node(name).Some? then c.Node(name) else if n.name == name then Some(n) else None
    {
      NodeAppended(c.nodes, n, name);
    }
    forall i | 0 <= i < |runs|
      ensures Backed(d, runs[i]) && d.Node(runs[i].node).Some? && OwnerOK(d, runs[i]) && runs[i].node != n.name
    {
      assert Backed(c, runs[i]) && OwnerOK(c, runs[i]);
    }
    assert forall i | 0 <= i < |c.reservations| :: ReservationOK(c, c.reservations[i]);
    assert NodeOK(d.nodes[|c.nodes|]);
    forall i | 0 <= i < |d.nodes|
      ensures Committed(d, runs, d.nodes[i])
    {
      if i < |c.nodes| {
        assert Committed(c, runs, c.nodes[i]);
        CommittedWith(c, d, runs, d.nodes[i]);
      } else {
        UnusedCommits(d, runs, n);
      }
    }
  }

  lemma {:induction false} ApproveSound(s: Store, id: Key, invited: bool)
    requires Sound(s)
    ensures Sound(Approve(s, id, invited).store)
  {
    var s' := Approve(s, id, invited).store;
    if s' != s {
      var e := s.enrollments[id];
      assert s'.revision == s.revision + 1 && s'.plans == s.plans && s'.runs == s.runs && s'.tasks == s.tasks;
      assert Configured(s') by {
        if s.config.Node(e.name).None? {
          AdmittedBalances(s.config, s'.config, s.runs, AdmittedNode(s.config, e.name, e.ceiling));
        }
      }
      assert forall k | k in s'.plans :: PlanOK(s, k) && PlanOK(s', k);
    }
  }

  // ---- Placements ----

  lemma {:induction false} AllocateSound(s: Store, id: Key, request: Request, pool: Key, now: int)
    requires Sound(s) && request.Runner?
    ensures Sound(Allocate(s, id, request, pool, now).store)
  {
    var s' := Allocate(s, id, request, pool, now).store;
    if s' != s {
      var p := s.config.Pool(pool).value;
      FindPoolSound(s.config.pools, pool);
      var x := Place(s.config, p, s.runs, s.obs, id, request, now).value;
      var n := PlaceSound(s.config, p, s.runs, s.obs, id, request, now, x);
      RunnerTied(s.runs, s.tasks, x);
      GrownSound(s, s', x);
    }
  }

  lemma {:induction false} GrownSound(s: Store, s': Store, x: Instance)
    requires Sound(s) && s.revision > 0 && s' == s.(runs := s.runs + [x])
    requires Balanced(s.config, s'.runs) && Tied(s'.runs, s.tasks)
    ensures Sound(s')
  {
    assert forall k | k in s'.plans :: PlanOK(s, k) && PlanOK(s', k);
  }

  /** The tables alone: what dispatching keeps from task to task. */
  ghost predicate Running(c: Config, tables: Tables) {
    Balanced(c, tables.runs) && Tied(tables.runs, tables.tasks) && Limited(tables.tasks)
  }

  lemma {:induction false} BoundRunning(c: Config, tables: Tables, t: Task, y: Instance, u: Task)
    requires Running(c, tables) && Balanced(c, tables.runs + [y]) && t in tables.tasks && t.Queued()
    requires !Taken(tables.runs, y) && RowOK(y) && y.task == t.id && y.state != Deleted
    requires u == t.(instance := y.id, updated := u.updated)
    ensures Running(c, Tables(tables.runs + [y], SaveTask(tables.tasks, u)))
  {
    var k :| 0 <= k < |tables.tasks| && tables.tasks[k] == t;
    assert TaskOK(tables.tasks[k]);
    BoundTied(tables.runs, tables.tasks, t, y, u);
    SavedTasks(tables.tasks, t, u);
    LimitedAfter(tables.tasks, SaveTask(tables.tasks, u));
  }

  lemma {:induction false} DispatchOneKeeps(c: Config, obs: map<Key, Observation>, now: int, tables: Tables, t: Task, id: Key)
    requires Valid(c) && Running(c, tables) && t in tables.tasks && t.Queued()
    ensures DispatchOne(c, obs, now, tables, t, id).Ok? && DispatchOne(c, obs, now, tables, t, id).value.Some? ==>
              var after := DispatchOne(c, obs, now, tables, t, id).value.value;
              && Running(c, after)
              && forall u | u in tables.tasks && u.id != t.id :: u in after.tasks
  {
    var r := DispatchOne(c, obs, now, tables, t, id);
    if r.Ok? && r.value.Some? {
      var p := c.Pool(t.spec.pool).value;
      var x := Place(c, p, tables.runs, obs, id, ForTask(t.id), now).value;
      var y := x.(task := t.id, state := Provisioning, jitReady := true);
      var u := t.(instance := id, updated := now);
      assert Balanced(c, tables.runs + [y]) && RowOK(y) by {
        FindPoolSound(c.pools, t.spec.pool);
        var n := PlaceSound(c, p, tables.runs, obs, id, ForTask(t.id), now, y);
        var k :| 0 <= k < |tables.tasks| && tables.tasks[k] == t;
        assert TaskOK(tables.tasks[k]);
      }
      BoundRunning(c, tables, t, y, u);
      SavedOthers(tables.tasks, t, u);
    }
  }

  lemma {:induction false} SavedOthers(tasks: seq<Task>, t: Task, u: Task)
    requires UniqueTasks(tasks) && t in tasks && u.id == t.id
    ensures forall v | v in tasks && v.id != t.id :: v in SaveTask(tasks, u)
    ensures u in SaveTask(tasks, u)
  {
    SavedTasks(tasks, t, u);
    forall v | v in tasks && v.id != t.id
      ensures v in SaveTask(tasks, u)
    {
      var k :| 0 <= k < |tasks| && tasks[k] == v;
      assert SaveTask(tasks, u)[k] == v;
    }
    var k :| 0 <= k < |tasks| && tasks[k] == t;
    assert SaveTask(tasks, u)[k] == u;
  }

  lemma {:induction false} ExpireKeeps(c: Config, tables: Tables, t: Task, now: int)
    requires Running(c, tables) && t in tables.tasks && t.Queued()
    ensures Running(c, tables.(tasks := SaveTask(tables.tasks, Expire(t, now))))
    ensures forall u | u in tables.tasks && u.id != t.id :: u in SaveTask(tables.tasks, Expire(t, now))
  {
    var u := Expire(t, now);
    var tasks' := SaveTask(tables.tasks, u);
    SavedTasks(tables.tasks, t, u);
    SavedOthers(tables.tasks, t, u);
    LimitedAfter(tables.tasks, tasks');
    forall i | 0 <= i < |tasks'|
      ensures TaskOK(tasks'[i]) && SecretRule(tables.runs, tasks'[i])
    {
      assert TaskOK(tables.tasks[i]) && SecretRule(tables.runs, tables.tasks[i]);
    }
    TiedAfter(tables.runs, tables.tasks, tables.runs, tasks');
  }

  ghost predicate StillQueued(queued: seq<Task>, k: nat, tasks: seq<Task>) {
    forall i | k <= i < |queued| :: queued[i] in tasks && queued[i].Queued()
  }

  lemma {:induction false} DispatchStepKeeps(c: Config, obs: map<Key, Observation>, now: int, draw: Key -> Key, d: Dispatch, queued: seq<Task>, k: nat)
    requires Valid(c) && Running(c, d.tables) && UniqueTasks(queued) && k < |queued|
    requires StillQueued(queued, k, d.tables.tasks)
    ensures DispatchStep(c, obs, now, draw, d, queued[k]).Ok? ==>
              var after := DispatchStep(c, obs, now, draw, d, queued[k]).value;
              Running(c, after.tables) && StillQueued(queued, k + 1, after.tables.tasks)
  {
    var t := queued[k];
    if now - t.created > QUEUE_LIFETIME {
      ExpireKeeps(c, d.tables, t, now);
    } else if t.spec.pool !in d.blocked {
      DispatchOneKeeps(c, obs, now, d.tables, t, draw(t.id));
    }
  }

  lemma {:induction false} DispatchQueueKeeps(c: Config, obs: map<Key, Observation>, now: int, draw: Key -> Key, start: Tables, queued: seq<Task>, k: nat)
    requires Valid(c) && Running(c, start) && UniqueTasks(queued) && k <= |queued|
    requires StillQueued(queued, 0, start.tasks)
    ensures DispatchQueue(c, obs, now, draw, start, queued[..k]).Ok? ==>
              var d := DispatchQueue(c, obs, now, draw, start, queued[..k]).value;
              Running(c, d.tables) && StillQueued(queued, k, d.tables.tasks)
  {
    if k > 0 {
      assert queued[..k][..k - 1] == queued[..k - 1];
      DispatchQueueKeeps(c, obs, now, draw, start, queued, k - 1);
      var before := DispatchQueue(c, obs, now, draw, start, queued[..k - 1]);
      if before.Ok? {
        DispatchStepKeeps(c, obs, now, draw, before.value, queued, k - 1);
      }
    }
  }

  // ---- The queue ----

  lemma {:induction false} WaitingSound(tasks: seq<Task>)
    requires UniqueTasks(tasks)
    ensures forall t :: t in Waiting(tasks) <==> t in tasks && t.Queued()
    ensures UniqueTasks(Waiting(tasks))
  {
    if tasks != [] {
      var front := tasks[..|tasks| - 1];
      WaitingSound(front);
      assert tasks == front + [tasks[|tasks| - 1]];
      forall t | t in front
        ensures t.id != tasks[|tasks| - 1].id
      {
        var k :| 0 <= k < |front| && front[k] == t;
        assert tasks[k] == t;
      }
      assert forall i | 0 <= i < |Waiting(front)| :: Waiting(front)[i] in front;
    }
  }

  lemma {:induction false} OlderTotal(s: set<Task>)
    requires forall a, b | a in s && b in s && a.id == b.id :: a == b
    ensures StrictTotalOn(Older, s)
  {
  }

  lemma {:induction false} DistinctOnce<T>(s: seq<T>, x: T)
    requires forall i, j | 0 <= i < j < |s| :: s[i] != s[j]
    ensures multiset(s)[x] <= 1
  {
    if s != [] {
      var t := s[1..];
      DistinctOnce(t, x);
      assert s == [s[0]] + t;
      if s[0] == x {
        forall i | 0 <= i < |t|
          ensures t[i] != x
        {
          assert t[i] == s[i + 1];
        }
        assert x !in multiset(t);
      }
    }
  }

  lemma {:induction false} OnceDistinct<T>(s: seq<T>, i: nat, j: nat)
    requires i < j < |s| && multiset(s)[s[i]] <= 1
    ensures s[i] != s[j]
  {
    assert s == s[..j] + s[j..];
    assert multiset(s) == multiset(s[..j]) + multiset(s[j..]);
    assert s[..j][i] in multiset(s[..j]) && s[j..][0] in multiset(s[j..]);
  }

  /** queuedTasks: every queued task once, oldest first. */
  lemma {:induction false} QueueSound(tasks: seq<Task>)
    requires UniqueTasks(tasks)
    ensures Sorted(Older, QueuedTasks(tasks)) && UniqueTasks(QueuedTasks(tasks))
    ensures forall t :: t in QueuedTasks(tasks) <==> t in tasks && t.Queued()
  {
    var waiting, queued := Waiting(tasks), QueuedTasks(tasks);
    WaitingSound(tasks);
    SortPermutes(Older, waiting);
    OlderTotal(Elements(waiting));
    SortSorts(Older, waiting);
    forall i, j | 0 <= i < j < |queued|
      ensures queued[i].id != queued[j].id
    {
      DistinctOnce(waiting, queued[i]);
      OnceDistinct(queued, i, j);
      assert queued[i] in waiting && queued[j] in waiting;
      var x, y := queued[i], queued[j];
      assert x in waiting && y in waiting && x != y;
    }
  }

  lemma {:induction false} DispatchSound(s: Store, draw: Key -> Key, now: int)
    requires Sound(s)
    ensures Sound(DispatchTasks(s, draw, now).store)
  {
    if s.revision > 0 {
      var queued := QueuedTasks(s.tasks);
      QueueSound(s.tasks);
      DispatchQueueKeeps(s.config, s.obs, now, draw, Tables(s.runs, s.tasks), queued, |queued|);
      assert queued[..|queued|] == queued;
      TablesSound(s, DispatchTasks(s, draw, now).store);
    }
  }

  lemma {:induction false} SubmittedRunning(s: Store, t: Task)
    requires Sound(s) && s.revision > 0 && FindTask(s.tasks, t.id).None? && TaskOK(t) && t.Queued()
    requires OpenTasks(s.tasks, t.client) < MAX_CLIENT_TASKS
    ensures Running(s.config, Tables(s.runs, s.tasks + [t]))
  {
    TaskTied(s.runs, s.tasks, t);
    var tasks := s.tasks + [t];
    assert tasks[..|tasks| - 1] == s.tasks;
    assert forall client :: OpenTasks(tasks, client) == OpenTasks(s.tasks, client) + if t.client == client then 1 else 0;
  }

  lemma {:induction false} TablesSound(s: Store, s': Store)
    requires Sound(s) && s.revision > 0 && SameConfig(s, s')
    requires Running(s.config, Tables(s'.runs, s'.tasks))
    ensures Sound(s')
  {
    assert forall k | k in s'.plans :: PlanOK(s, k) && PlanOK(s', k);
  }

  lemma {:induction false} SubmitSound(s: Store, client: Key, spec: TaskSpec, taskID: Key, instanceID: Key, now: int)
    requires Sound(s)
    ensures Sound(Submit(s, client, spec, taskID, instanceID, now).store)
  {
    var s' := Submit(s, client, spec, taskID, instanceID, now).store;
    if s' != s {
      var t := NewTask(client, spec, taskID, now);
      SubmittedRunning(s, t);
      NewSound(s, t, instanceID, now);
    }
  }

  lemma {:induction false} NewSound(s: Store, t: Task, instanceID: Key, now: int)
    requires Sound(s) && s.revision > 0 && t.Queued()
    requires Running(s.config, Tables(s.runs, s.tasks + [t]))
    ensures Sound(SubmitNew(s, t, instanceID, now).store)
  {
    var start := Tables(s.runs, s.tasks + [t]);
    var s' := SubmitNew(s, t, instanceID, now).store;
    if s' != s {
      assert start.tasks[|s.tasks|] == t;
      DispatchOneKeeps(s.config, s.obs, now, start, t, instanceID);
      NewFrame(s, t, instanceID, now);
      TablesSound(s, s');
    }
  }

  lemma {:induction false} NewFrame(s: Store, t: Task, instanceID: Key, now: int)
    ensures var s', start := SubmitNew(s, t, instanceID, now).store, Tables(s.runs, s.tasks + [t]);
            var r := DispatchOne(s.config, s.obs, now, start, t, instanceID);
            && s' == s.(runs := s'.runs, tasks := s'.tasks)
            && (s' == s || Tables(s'.runs, s'.tasks) == start
                || (r.Ok? && r.value.Some? && Tables(s'.runs, s'.tasks) == r.value.value))
  {
    var start := Tables(s.runs, s.tasks + [t]);
    var r := DispatchOne(s.config, s.obs, now, start, t, instanceID);
    if !OlderInPool(s.tasks + [t], t) && r.Err? {
      assert SubmitNew(s, t, instanceID, now).store == s;
    }
  }
}
