/** What the controller's other transactions store: registrations, stops,
    GitHub's messages, admissions, a dispatch as a whole, and a pass of
    provisioning. */
module Outcomes {
  import opened Resources
  import opened Model
  import opened Order
  import opened Validate
  import opened Ledger
  import opened Placement
  import opened State
  import opened Transactions
  import opened Sync
  import opened Consistency
  import opened Soundness
  import opened Lifecycle
  import opened Dispatching
  import opened Choice
  import opened Effects
  import Intake

  // ---- One VM's row ----

  predicate Registers(a: Instance, runnerID: int, size: nat) {
    0 < size <= 131072 && 0 < runnerID && a.state == Reserved && !a.jitReady
  }

  /** A reserved VM takes its one registration. */
  lemma {:induction false} RegisterExactly(s: Store, runnerID: int, size: nat, now: int, k: nat)
    requires UniqueInstances(s.runs) && k < |s.runs|
    ensures var a, o := s.runs[k], SetJIT(s, s.runs[k].id, runnerID, size, now);
            && (o.reply == Ok(true) <==> Registers(a, runnerID, size))
            && (o.reply == Ok(false) <==> 0 < size <= 131072 && 0 < runnerID && a.jitReady)
            && (o.reply != Ok(true) ==> o.store == s)
            && (o.reply == Ok(true) ==>
                  o.store == s.(runs := s.runs[k := a.(state := Provisioning, jitReady := true, runnerID := runnerID, jit := size, updated := now)]))
  {
    var b := s.runs[k].(state := Provisioning, jitReady := true, runnerID := runnerID, jit := size, updated := now);
    Intake.SavedRow(s.runs, k, b);
  }

  /** A VM that is neither deleted nor being deleted is told to stop. */
  lemma {:induction false} StopExactly(s: Store, k: nat)
    requires UniqueInstances(s.runs) && k < |s.runs|
    ensures var a, o := s.runs[k], StopInstance(s, s.runs[k].id);
            && o.reply == Ok(a.state != Deleting && a.state != Deleted)
            && o.store == (if a.state != Deleting && a.state != Deleted
                           then s.(runs := s.runs[k := a.(state := InstanceState.Stopping)]) else s)
  {
    Intake.SavedRow(s.runs, k, s.runs[k].(state := InstanceState.Stopping));
  }

  // ---- GitHub's messages ----

  /** The last event of a message that names the VM. */
  predicate LastNaming(events: seq<RunnerEvent>, vm: Key, j: nat) {
    j < |events| && events[j].vm == vm && forall i | j < i < |events| :: events[i].vm != vm
  }

  lemma {:induction false} LastNamed(events: seq<RunnerEvent>, vm: Key)
    ensures LastEvent(events, vm) == None <==> forall i | 0 <= i < |events| :: events[i].vm != vm
    ensures forall j: nat | LastNaming(events, vm, j) :: LastEvent(events, vm) == Some(events[j])
  {
    if events != [] {
      var front := events[..|events| - 1];
      LastNamed(front, vm);
      assert forall i | 0 <= i < |front| :: front[i] == events[i];
      forall j: nat | LastNaming(events, vm, j)
        ensures LastEvent(events, vm) == Some(events[j])
      {
        assert j < |front| ==> LastNaming(front, vm, j);
      }
    }
  }

  /** A start makes an active VM busy, a completion records its result. */
  predicate EventTold(a: Instance, e: RunnerEvent, now: int, b: Instance) {
    && b == a.(state := b.state, result := b.result, updated := now)
    && b.state == (if e.kind == BusyEvent && a.state != Deleting && a.state != Deleted then Busy else a.state)
    && b.result == (if e.kind == CompleteEvent then e.result else a.result)
  }

  ghost predicate RowHears(a: Instance, pool: Key, events: seq<RunnerEvent>, now: int, b: Instance) {
    if a.pool.name == pool && exists j: nat :: LastNaming(events, a.id, j)
    then forall j: nat | LastNaming(events, a.id, j) :: EventTold(a, events[j], now, b)
    else b == a
  }

  lemma {:induction false} SomeLast(events: seq<RunnerEvent>, vm: Key, i: nat) returns (j: nat)
    requires i < |events| && events[i].vm == vm
    ensures LastNaming(events, vm, j)
  {
    j := i;
    for k := i + 1 to |events|
      invariant i <= j < k && events[j].vm == vm && forall m | j < m < k :: events[m].vm != vm
    {
      if events[k].vm == vm {
        j := k;
      }
    }
  }

  lemma {:induction false} RowHeard(a: Instance, pool: Key, events: seq<RunnerEvent>, now: int)
    ensures RowHears(a, pool, events, now, AfterEvents(a, pool, events, now))
  {
    LastNamed(events, a.id);
    if i :| 0 <= i < |events| && events[i].vm == a.id {
      var j := SomeLast(events, a.id, i);
    }
  }

  predicate Acceptable(desired: int, id: MessageID) {
    0 <= desired <= 1000000 && 0 <= id.number
  }

  /** A message persisted for the first time: the demand it states, seen now,
      with the barrier down and the intake fence up if asked for or up before;
      each VM it names by the last event that does; and the message itself. */
  ghost predicate Persists(s: Store, s': Store, id: MessageID, pool: Key, desired: int, events: seq<RunnerEvent>, hold: bool, now: int) {
    && s' == s.(runs := s'.runs, demand := s'.demand, inbox := s'.inbox)
    && s'.demand.Keys == s.demand.Keys + {pool} && (forall p | p in s.demand && p != pool :: s'.demand[p] == s.demand[p])
    && s'.demand[pool].desired == desired && s'.demand[pool].seen == now && !s'.demand[pool].barrier
    && (s'.demand[pool].intake <==> hold || (pool in s.demand && s.demand[pool].intake))
    && s'.inbox.Keys == s.inbox.Keys + {id} && (forall m | m in s.inbox :: s'.inbox[m] == s.inbox[m])
    && s'.inbox[id] == Message(pool, desired, events)
    && |s'.runs| == |s.runs| && forall k | 0 <= k < |s.runs| :: RowHears(s.runs[k], pool, events, now, s'.runs[k])
  }

  lemma {:induction false} PersistExactly(s: Store, id: MessageID, pool: Key, desired: int, events: seq<RunnerEvent>, hold: bool, now: int)
    ensures var o := PersistMessage(s, id, pool, desired, events, hold, now);
            if !Acceptable(desired, id) then o == Outcome(s, Err(InvalidRequest))
            else if id !in s.inbox then o.reply == Ok(true) && Persists(s, o.store, id, pool, desired, events, hold, now)
            else if s.inbox[id] == Message(pool, desired, events) then o == Outcome(s, Ok(false))
            else o == Outcome(s, Err(MessageConflict))
  {
    forall k | 0 <= k < |s.runs|
      ensures RowHears(s.runs[k], pool, events, now, AfterEvents(s.runs[k], pool, events, now))
    {
      RowHeard(s.runs[k], pool, events, now);
    }
  }

  /** A stop that the operator asked for outlives a message exactly if the
      last event that names the VM is not the start of its job. */
  lemma {:induction false} StopSurvives(s: Store, k: nat, id: MessageID, desired: int, events: seq<RunnerEvent>, hold: bool, now: int)
    requires UniqueInstances(s.runs) && k < |s.runs| && s.runs[k].state != Deleting && s.runs[k].state != Deleted
    requires Acceptable(desired, id) && id !in s.inbox
    ensures var a, stopped := s.runs[k], StopInstance(s, s.runs[k].id).store;
            var after := PersistMessage(stopped, id, a.pool.name, desired, events, hold, now).store.runs;
            && |after| == |s.runs|
            && (after[k].state == InstanceState.Stopping <==>
                !exists j: nat :: LastNaming(events, a.id, j) && events[j].kind == BusyEvent)
  {
    var a, stopped := s.runs[k], StopInstance(s, s.runs[k].id).store;
    StopExactly(s, k);
    PersistExactly(stopped, id, a.pool.name, desired, events, hold, now);
    var b := PersistMessage(stopped, id, a.pool.name, desired, events, hold, now).store.runs[k];
    assert RowHears(stopped.runs[k], a.pool.name, events, now, b);
    LastNamedOnce(events, a.id);
  }

  lemma {:induction false} LastNamedOnce(events: seq<RunnerEvent>, vm: Key)
    ensures forall i: nat, j: nat | LastNaming(events, vm, i) && LastNaming(events, vm, j) :: i == j
  {
  }

  /** The start of its job brings a stopping VM back. */
  lemma {:induction false} StopUndone(s: Store, k: nat, id: MessageID, now: int)
    requires UniqueInstances(s.runs) && k < |s.runs| && s.runs[k].state == Idle && 0 <= id.number && id !in s.inbox
    ensures var a, stopped := s.runs[k], StopInstance(s, s.runs[k].id).store;
            && stopped.runs[k].state == InstanceState.Stopping
            && PersistMessage(stopped, id, a.pool.name, 1, [RunnerEvent(a.id, BusyEvent, NONE)], false, now).store.runs[k].state == Busy
  {
    var a, stopped := s.runs[k], StopInstance(s, s.runs[k].id).store;
    var e := RunnerEvent(a.id, BusyEvent, NONE);
    StopExactly(s, k);
    PersistExactly(stopped, id, a.pool.name, 1, [e], false, now);
    HearsStart(stopped.runs[k], e, now, PersistMessage(stopped, id, a.pool.name, 1, [e], false, now).store.runs[k]);
  }

  lemma {:induction false} HearsStart(a: Instance, e: RunnerEvent, now: int, b: Instance)
    requires RowHears(a, a.pool.name, [e], now, b) && e.vm == a.id && e.kind == BusyEvent
    requires a.state != Deleting && a.state != Deleted
    ensures b.state == Busy
  {
    assert LastNaming([e], a.id, 0);
  }

  /** A poll of GitHub states the demand, seen now, and takes the barrier
      down; the intake fence stays as it was. */
  lemma {:induction false} RefreshExactly(s: Store, pool: Key, desired: int, now: int)
    ensures var o := RefreshDemand(s, pool, desired, now);
            && (o.reply.Ok? <==> pool != NONE && 0 <= desired <= 1000000)
            && (o.reply.Err? ==> o.store == s)
            && (o.reply.Ok? ==>
                  && o.store == s.(demand := o.store.demand) && o.store.demand.Keys == s.demand.Keys + {pool}
                  && (forall p | p in s.demand && p != pool :: o.store.demand[p] == s.demand[p])
                  && o.store.demand[pool].desired == desired && o.store.demand[pool].seen == now && !o.store.demand[pool].barrier
                  && (o.store.demand[pool].intake <==> pool in s.demand && s.demand[pool].intake))
  {
  }

  // ---- Clients ----

  /** A client is approved unless it was revoked, or is known and no renewal
      was asked for; nobody else's standing changes. */
  lemma {:induction false} ApproveClientExactly(s: Store, client: Key, replacing: bool)
    ensures var o := ApproveClient(s, client, replacing);
            && (o.reply.Ok? <==> client != NONE && s.revision > 0 && (client in s.clients ==> !s.clients[client] && replacing))
            && (o.reply.Err? ==> o.store == s)
            && (o.reply.Ok? ==>
                  && o.store == s.(clients := o.store.clients) && o.store.clients.Keys == s.clients.Keys + {client}
                  && !o.store.clients[client] && forall k | k in s.clients && k != client :: o.store.clients[k] == s.clients[k])
  {
  }

  // ---- Admission ----

  lemma {:induction false} AdmittedIff(ps: seq<Pool>, ceiling: Resources, name: Key)
    ensures name in AdmittedPools(ps, ceiling) <==>
            exists i | 0 <= i < |ps| :: ps[i].name == name && !ps[i].tasks && ps[i].Charge().Fits(ceiling)
  {
    if ps != [] {
      var front := ps[..|ps| - 1];
      AdmittedIff(front, ceiling, name);
      assert forall i | 0 <= i < |front| :: front[i] == ps[i];
    }
  }

  /** An admitted node of a new name offers what its owner approved, to every
      runner pool that fits, and needs no label. */
  ghost predicate Joins(s: Store, s': Store, e: Enrollment) {
    && |s'.config.nodes| == |s.config.nodes| + 1 && s'.config == s.config.(nodes := s'.config.nodes)
    && (forall i | 0 <= i < |s.config.nodes| :: s'.config.nodes[i] == s.config.nodes[i])
    && var n := s'.config.nodes[|s.config.nodes|];
       && n.name == e.name && n.budget == e.ceiling && n.localCeiling == e.ceiling && n.labels == map[]
       && forall pool :: pool in n.allowedPools <==>
            exists i | 0 <= i < |s.config.pools| ::
              s.config.pools[i].name == pool && !s.config.pools[i].tasks && s.config.pools[i].Charge().Fits(e.ceiling)
  }

  /** Approving a join request binds the name to this host and raises the
      revision; a name already in the configuration keeps its entry. */
  lemma {:induction false} ApproveExactly(s: Store, id: Key, invited: bool)
    requires id in s.enrollments && !s.enrollments[id].approved && Approve(s, id, invited).reply.Ok?
    ensures var e, s' := s.enrollments[id], Approve(s, id, invited).store;
            && invited && e.name !in s.identities && s'.identities == s.identities + {e.name}
            && s'.revision == s.revision + 1 && s.revision > 0 && Valid(s'.config)
            && s'.enrollments == s.enrollments[id := e.(approved := true)]
            && s'.runs == s.runs && s'.tasks == s.tasks && s'.plans == s.plans
            && (if s.config.Node(e.name).Some? then s'.config == s.config && s.config.Node(e.name).value.budget.Fits(e.ceiling)
                else Joins(s, s', e))
  {
    var e := s.enrollments[id];
    forall pool
      ensures pool in AdmittedPools(s.config.pools, e.ceiling) <==>
              exists i | 0 <= i < |s.config.pools| ::
                s.config.pools[i].name == pool && !s.config.pools[i].tasks && s.config.pools[i].Charge().Fits(e.ceiling)
    {
      AdmittedIff(s.config.pools, e.ceiling, pool);
    }
  }

  // ---- Dispatching as a whole ----

  /** How many VMs were added, and which tasks expired. */
  ghost predicate Dispatches(start: Tables, d: Dispatch, now: int) {
    && |d.tables.tasks| == |start.tasks| && |d.tables.runs| == |start.runs| + d.placed
    && forall i | 0 <= i < |start.tasks| :: d.tables.tasks[i].expired ==>
         start.tasks[i].expired || (start.tasks[i].Queued() && 3600_000_000_000 < now - start.tasks[i].created)
  }

  lemma {:induction false} SavedExpires(start: Tables, tables: Tables, q: Task, u: Task, now: int)
    requires UniqueTasks(tables.tasks) && q in tables.tasks && q.Queued() && u.id == q.id
    requires |tables.tasks| == |start.tasks| && DispatchedAll(start, tables, now)
    requires u.expired ==> 3600_000_000_000 < now - q.created
    requires forall i | 0 <= i < |start.tasks| :: tables.tasks[i].expired ==>
               start.tasks[i].expired || (start.tasks[i].Queued() && 3600_000_000_000 < now - start.tasks[i].created)
    ensures forall i | 0 <= i < |start.tasks| :: SaveTask(tables.tasks, u)[i].expired ==>
               start.tasks[i].expired || (start.tasks[i].Queued() && 3600_000_000_000 < now - start.tasks[i].created)
  {
    SavedTasks(tables.tasks, q, u);
    forall i | 0 <= i < |start.tasks| && tables.tasks[i] == q
      ensures start.tasks[i].Queued() && start.tasks[i].created == q.created
    {
      assert Dispatched(start.tasks[i], tables.tasks[i], now);
    }
  }

  lemma {:induction false} DispatchesStep(c: Config, obs: map<Key, Observation>, now: int, draw: Key -> Key, start: Tables, d: Dispatch, q: Task)
    requires Dispatches(start, d, now) && DispatchedAll(start, d.tables, now) && UniqueTasks(d.tables.tasks)
    requires q in d.tables.tasks && q.Queued() && DispatchStep(c, obs, now, draw, d, q).Ok?
    ensures Dispatches(start, DispatchStep(c, obs, now, draw, d, q).value, now)
  {
    var after := DispatchStep(c, obs, now, draw, d, q).value;
    if after.tables != d.tables {
      if now - q.created > QUEUE_LIFETIME {
        SavedExpires(start, d.tables, q, Expire(q, now), now);
      } else {
        SavedExpires(start, d.tables, q, q.(instance := draw(q.id), updated := now), now);
      }
    }
  }

  lemma {:induction false} QueueDispatches(c: Config, obs: map<Key, Observation>, now: int, draw: Key -> Key, start: Tables, queued: seq<Task>, k: nat)
    requires Valid(c) && Soundness.Running(c, start) && UniqueTasks(queued) && k <= |queued|
    requires StillQueued(queued, 0, start.tasks)
    requires DispatchQueue(c, obs, now, draw, start, queued[..k]).Ok?
    ensures Dispatches(start, DispatchQueue(c, obs, now, draw, start, queued[..k]).value, now)
  {
    if k > 0 {
      assert queued[..k][..k - 1] == queued[..k - 1];
      QueueDispatches(c, obs, now, draw, start, queued, k - 1);
      DispatchQueueMoves(c, obs, now, draw, start, queued, k - 1);
      DispatchQueueKeeps(c, obs, now, draw, start, queued, k - 1);
      DispatchesStep(c, obs, now, draw, start, DispatchQueue(c, obs, now, draw, start, queued[..k - 1]).value, queued[k - 1]);
    }
  }

  lemma {:induction false} QueuedExpire(s: Store, draw: Key -> Key, now: int, i: nat)
    requires Sound(s) && s.revision > 0 && DispatchTasks(s, draw, now).reply.Ok?
    requires i < |s.tasks| && s.tasks[i].Queued() && 3600_000_000_000 < now - s.tasks[i].created
    ensures i < |DispatchTasks(s, draw, now).store.tasks| && DispatchTasks(s, draw, now).store.tasks[i].expired
  {
    var t, s', queued := s.tasks[i], DispatchTasks(s, draw, now).store, QueuedTasks(s.tasks);
    DispatchMoves(s, draw, now);
    DispatchSound(s, draw, now);
    QueueSound(s.tasks);
    assert t in queued;
    var j :| 0 <= j < |queued| && queued[j] == t;
    DispatchIsFair(s, draw, now, j);
    assert Dispatched(s.tasks[i], s'.tasks[i], now);
    TaskAt(s'.tasks, i);
  }

  lemma {:induction false} AllDispatches(s: Store, draw: Key -> Key, now: int)
    requires Sound(s) && s.revision > 0
    requires DispatchQueue(s.config, s.obs, now, draw, Tables(s.runs, s.tasks), QueuedTasks(s.tasks)).Ok?
    ensures Dispatches(Tables(s.runs, s.tasks),
                       DispatchQueue(s.config, s.obs, now, draw, Tables(s.runs, s.tasks), QueuedTasks(s.tasks)).value, now)
  {
    var queued := QueuedTasks(s.tasks);
    QueueSound(s.tasks);
    assert queued[..|queued|] == queued;
    QueueDispatches(s.config, s.obs, now, draw, Tables(s.runs, s.tasks), queued, |queued|);
  }

  /** A dispatch reports how many VMs it added, and expires exactly the tasks
      that waited for more than an hour. */
  lemma {:induction false} DispatchCounts(s: Store, draw: Key -> Key, now: int, i: nat)
    requires Sound(s) && s.revision > 0 && DispatchTasks(s, draw, now).reply.Ok? && i < |s.tasks|
    ensures var o := DispatchTasks(s, draw, now);
            && o.reply == Ok(|o.store.runs| - |s.runs|) && |o.store.tasks| == |s.tasks|
            && (o.store.tasks[i].expired <==> s.tasks[i].expired || (s.tasks[i].Queued() && 3600_000_000_000 < now - s.tasks[i].created))
  {
    AllDispatches(s, draw, now);
    assert s.tasks[i].expired ==> DispatchTasks(s, draw, now).store.tasks[i].expired by {
      DispatchMoves(s, draw, now);
      assert Dispatched(s.tasks[i], DispatchTasks(s, draw, now).store.tasks[i], now);
    }
    if s.tasks[i].Queued() && 3600_000_000_000 < now - s.tasks[i].created {
      QueuedExpire(s, draw, now, i);
    }
  }

  // ---- A pass of provisioning ----

  /** The pool's demand is known, at most 90 seconds old and unblocked, and
      fewer VMs hold resources than it asks for and allows. */
  predicate Wants(s: Store, p: Pool, now: int) {
    && p.name in s.demand && now - s.demand[p.name].seen <= 90_000_000_000
    && !s.demand[p.name].barrier && !s.demand[p.name].intake
    && p.enabled && CountPool(s.runs, p.name) < p.maxRunners
    && CountPool(s.runs, p.name) < s.demand[p.name].desired + p.warmIdle
  }

  lemma {:induction false} WantsIff(s: Store, p: Pool, now: int)
    ensures Wants(s, p, now) <==> !Intake.Dormant(s, p.name, now) && Intake.Short(s, p)
  {
  }

  lemma {:induction false} EnlistedRows(s: Store, s': Store, pool: Key, now: int, ok: bool)
    requires Intake.Enlisted(s, s', pool, now, ok)
    ensures |s'.runs| == |s.runs|
    ensures forall i | 0 <= i < |s.runs| :: s'.runs[i].id == s.runs[i].id && s'.runs[i].node == s.runs[i].node
                                            && s'.runs[i].pool == s.runs[i].pool && s'.runs[i].request == s.runs[i].request
  {
    var n :| Intake.EnlistedUpTo(s, s', pool, now, n);
    forall i | 0 <= i < |s.runs|
      ensures s'.runs[i].id == s.runs[i].id && s'.runs[i].node == s.runs[i].node
      ensures s'.runs[i].pool == s.runs[i].pool && s'.runs[i].request == s.runs[i].request
    {
      assert i < n ==> Intake.Enlists(s.runs[i], s'.runs[i], pool, now);
    }
  }

  /** The one VM a pass adds. */
  ghost predicate Adds(s: Store, s': Store, p: Pool, id: Key, request: Key, now: int) {
    && |s'.runs| == |s.runs| + 1
    && var y := s'.runs[|s.runs|];
       && y.id == id && y.request == Runner(request) && y.pool == p
       && exists n :: Best(s.config, p, s.runs, s.obs, now, n) && y.node == n.name
  }

  /** A pass adds a VM exactly when the pool wants one and some node can host
      it, on the best node; a dormant pool is left alone entirely. */
  lemma {:induction false} ProvisionsExactly(s: Store, s': Store, p: Pool, id: Key, request: Key, now: int, ok: bool)
    requires Sound(s) && Intake.Reconciled(s, s', p, id, request, now, ok)
    requires s.config.Pool(p.name) == Some(p) && !p.tasks && request != NONE && Untaken(s.runs, id, Runner(request))
    ensures if Wants(s, p, now) && Somewhere(s.config, p, s.runs, s.obs, now) then Adds(s, s', p, id, request, now)
            else |s'.runs| == |s.runs|
  {
    WantsIff(s, p, now);
    AllocateExactly(s, id, request, p.name, now);
    var r := Allocate(s, id, Runner(request), p.name, now);
    if !Intake.Dormant(s, p.name, now) {
      if !Intake.Short(s, p) {
        EnlistedRows(s, s', p.name, now, ok);
      } else if r.reply.Ok? {
        EnlistedRows(r.store, s', p.name, now, ok);
        LandsThere(s, s', p, id, request, now, r);
      }
    }
  }

  lemma {:induction false} LandsThere(s: Store, s': Store, p: Pool, id: Key, request: Key, now: int, r: Outcome<Instance>)
    requires r.reply.Ok? && r.store == s.(runs := s.runs + [r.reply.value])
    requires Lands(s.config, p, s.runs, s.obs, id, Runner(request), now, r.reply.value)
    requires |s'.runs| == |r.store.runs|
    requires forall i | 0 <= i < |s'.runs| :: s'.runs[i].id == r.store.runs[i].id && s'.runs[i].node == r.store.runs[i].node
                                              && s'.runs[i].pool == r.store.runs[i].pool && s'.runs[i].request == r.store.runs[i].request
    ensures Adds(s, s', p, id, request, now)
  {
    assert r.store.runs[|s.runs|] == r.reply.value;
  }
}
