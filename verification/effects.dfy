/** What the controller's transactions store, told field by field for whoever
    reads the tables next. */
module Effects {
  import opened Resources
  import opened Model
  import opened Order
  import opened Validate
  import opened Ledger
  import opened Placement
  import opened State
  import opened Transactions
  import opened Sync
  import opened Consistency
  import opened Soundness
  import opened Choice

  // ---- Counting ----

  /** The places in a table whose rows are counted. */
  function Hits<T>(s: seq<T>, keep: T -> bool): set<int> {
    set i | 0 <= i < |s| && keep(s[i])
  }

  lemma {:induction false} HitsMore<T>(s: seq<T>, keep: T -> bool)
    requires s != []
    ensures |Hits(s, keep)| == |Hits(s[..|s| - 1], keep)| + if keep(s[|s| - 1]) then 1 else 0
  {
    var n, front := |s| - 1, s[..|s| - 1];
    assert Hits(s, keep) == Hits(front, keep) + if keep(s[n]) then {n} else {};
    assert n !in Hits(front, keep);
  }

  function InSlot(reservation: Key): Instance -> bool {
    (a: Instance) => a.reservation == reservation && a.held != ZERO
  }

  function InPool(pool: Key): Instance -> bool {
    (a: Instance) => a.pool.name == pool && a.held != ZERO
  }

  function OpenFor(client: Key): Task -> bool {
    (t: Task) => t.client == client && t.secret
  }

  lemma {:induction false} SlotsCounted(runs: seq<Instance>, reservation: Key)
    ensures UsedSlots(runs, reservation) == |Hits(runs, InSlot(reservation))|
  {
    if runs != [] {
      SlotsCounted(Init(runs), reservation);
      HitsMore(runs, InSlot(reservation));
    }
  }

  lemma {:induction false} PoolCounted(runs: seq<Instance>, pool: Key)
    ensures CountPool(runs, pool) == |Hits(runs, InPool(pool))|
  {
    if runs != [] {
      PoolCounted(Init(runs), pool);
      HitsMore(runs, InPool(pool));
    }
  }

  lemma {:induction false} OpenCounted(tasks: seq<Task>, client: Key)
    ensures OpenTasks(tasks, client) == |Hits(tasks, OpenFor(client))|
  {
    if tasks != [] {
      OpenCounted(tasks[..|tasks| - 1], client);
      HitsMore(tasks, OpenFor(client));
    }
  }

  // ---- Placing ----

  ghost predicate Somewhere(c: Config, p: Pool, runs: seq<Instance>, obs: map<Key, Observation>, now: int) {
    exists n :: n in c.nodes && CanHost(c, p, runs, obs, now, n)
  }

  /** The row is a new VM of the pool on the best node there is. */
  ghost predicate Lands(c: Config, p: Pool, runs: seq<Instance>, obs: map<Key, Observation>, id: Key, request: Request, now: int, x: Instance) {
    exists n :: Best(c, p, runs, obs, now, n) && FirstSlot(c, runs, n.name, p.name, x.reservation)
                && Fresh(c, p, n, x.reservation, id, request, now, x)
  }

  predicate Untaken(runs: seq<Instance>, id: Key, request: Request) {
    id != NONE && forall i | 0 <= i < |runs| :: runs[i].id != id && runs[i].request != request
  }

  lemma {:induction false} TakenIff(runs: seq<Instance>, x: Instance)
    ensures Taken(runs, x) <==> !Untaken(runs, x.id, x.request)
  {
    FindInstanceSound(runs, x.id);
    FindRequestSound(runs, x.request);
  }

  lemma {:induction false} PoolFound(c: Config, pool: Key)
    ensures c.Pool(pool).Some? ==> c.Pool(c.Pool(pool).value.name) == c.Pool(pool) && c.Pool(pool).value.name == pool
  {
    FindPoolSound(c.pools, pool);
  }

  /** placeTx finds a place exactly when there is one, and the insertion
      succeeds exactly when the drawn ID and the request are unused. */
  lemma {:induction false} PlaceLands(c: Config, p: Pool, runs: seq<Instance>, obs: map<Key, Observation>, id: Key, request: Request, now: int)
    requires Valid(c) && Balanced(c, runs) && (exists pool :: c.Pool(pool) == Some(p))
    ensures var r := Place(c, p, runs, obs, id, request, now);
            && (r.Ok? <==> Somewhere(c, p, runs, obs, now))
            && (r.Ok? ==> Lands(c, p, runs, obs, id, request, now, r.value) && (Taken(runs, r.value) <==> !Untaken(runs, id, request)))
  {
    var pool :| c.Pool(pool) == Some(p);
    PoolFound(c, pool);
    PlacedWell(c, p, runs, obs, id, request, now);
    var r := Place(c, p, runs, obs, id, request, now);
    if r.Ok? {
      TakenIff(runs, r.value);
    }
  }

  /** A request that is on record is answered with its VM. */
  lemma {:induction false} AllocateReplays(s: Store, id: Key, key: Key, pool: Key, now: int, k: nat)
    requires Sound(s) && key != NONE && k < |s.runs| && s.runs[k].request == Runner(key)
    ensures Allocate(s, id, Runner(key), pool, now)
         == Outcome(s, if s.runs[k].pool.name == pool then Ok(s.runs[k]) else Err(IdempotencyConflict))
  {
    FindRequestSound(s.runs, Runner(key));
    var a := FindRequest(s.runs, Runner(key)).value;
    var m :| 0 <= m < |s.runs| && s.runs[m] == a;
    RequestAt(s.runs, Runner(key));
    assert m == k;
  }

  lemma {:induction false} RequestAt(runs: seq<Instance>, request: Request)
    ensures FindRequest(runs, request).Some? ==> FindRequest(runs, request).value.request == request
  {
    if runs != [] && Last(runs).request != request {
      RequestAt(Init(runs), request);
    }
  }

  lemma {:induction false} AllocateDecides(s: Store, id: Key, key: Key, pool: Key, now: int, p: Pool)
    requires Valid(s.config) && Balanced(s.config, s.runs) && key != NONE
    requires forall i | 0 <= i < |s.runs| :: s.runs[i].request != Runner(key)
    requires s.config.Pool(pool) == Some(p) && !p.tasks
    ensures var o := Allocate(s, id, Runner(key), pool, now);
            && (o.reply.Ok? <==> Somewhere(s.config, p, s.runs, s.obs, now) && Untaken(s.runs, id, Runner(key)))
            && (o.reply.Err? ==> o.store == s)
            && (o.reply.Ok? ==> o.store == s.(runs := s.runs + [o.reply.value])
                                && Lands(s.config, p, s.runs, s.obs, id, Runner(key), now, o.reply.value))
  {
    FindRequestSound(s.runs, Runner(key));
    PlaceLands(s.config, p, s.runs, s.obs, id, Runner(key), now);
  }

  /** A new request gets a VM exactly when the pool is a runner pool, some
      node can host it and the drawn ID is unused; the VM lands on the best
      node, and nothing else changes. */
  lemma {:induction false} AllocateExactly(s: Store, id: Key, key: Key, pool: Key, now: int)
    requires Sound(s) && key != NONE && forall i | 0 <= i < |s.runs| :: s.runs[i].request != Runner(key)
    ensures var o := Allocate(s, id, Runner(key), pool, now);
            && (o.reply.Ok? <==> s.config.Pool(pool).Some? && !s.config.Pool(pool).value.tasks
                                 && Somewhere(s.config, s.config.Pool(pool).value, s.runs, s.obs, now) && Untaken(s.runs, id, Runner(key)))
            && (o.reply.Err? ==> o.store == s)
            && (o.reply.Ok? ==> o.store == s.(runs := s.runs + [o.reply.value])
                                && Lands(s.config, s.config.Pool(pool).value, s.runs, s.obs, id, Runner(key), now, o.reply.value))
  {
    FindRequestSound(s.runs, Runner(key));
    if s.config.Pool(pool).Some? && !s.config.Pool(pool).value.tasks {
      AllocateDecides(s, id, key, pool, now, s.config.Pool(pool).value);
    }
  }

  /** The pool takes tasks and some node can host one more. */
  ghost predicate Takes(c: Config, pool: Key, runs: seq<Instance>, obs: map<Key, Observation>, now: int) {
    && c.Pool(pool).Some? && c.Pool(pool).value.tasks && c.Pool(pool).value.enabled
    && Somewhere(c, c.Pool(pool).value, runs, obs, now)
  }

  /** A task's VM, ready for delivery from the start. */
  ghost predicate LandsFor(c: Config, runs: seq<Instance>, obs: map<Key, Observation>, t: Task, id: Key, now: int, y: Instance) {
    && c.Pool(t.spec.pool).Some?
    && y.task == t.id && y.state == Provisioning && y.jitReady
    && Lands(c, c.Pool(t.spec.pool).value, runs, obs, id, ForTask(t.id), now, y.(task := NONE, state := Reserved, jitReady := false))
  }

  /** The tables with the task's VM in them, and the task bound to it. */
  ghost predicate PlacedFor(c: Config, tables: Tables, obs: map<Key, Observation>, t: Task, id: Key, now: int, after: Tables) {
    && |after.runs| == |tables.runs| + 1 && after.runs == tables.runs + [Last(after.runs)]
    && LandsFor(c, tables.runs, obs, t, id, now, Last(after.runs))
    && after.tasks == SaveTask(tables.tasks, t.(instance := id, updated := now))
  }

  lemma {:induction false} PlacedForBy(c: Config, tables: Tables, obs: map<Key, Observation>, t: Task, id: Key, now: int, x: Instance)
    requires c.Pool(t.spec.pool).Some? && Lands(c, c.Pool(t.spec.pool).value, tables.runs, obs, id, ForTask(t.id), now, x)
    ensures PlacedFor(c, tables, obs, t, id, now,
                      Tables(tables.runs + [x.(task := t.id, state := Provisioning, jitReady := true)],
                             SaveTask(tables.tasks, t.(instance := id, updated := now))))
  {
    var y := x.(task := t.id, state := Provisioning, jitReady := true);
    LandedFor(c, tables.runs, obs, t, id, now, x);
    assert Last(tables.runs + [y]) == y;
  }

  lemma {:induction false} LandedFor(c: Config, runs: seq<Instance>, obs: map<Key, Observation>, t: Task, id: Key, now: int, x: Instance)
    requires c.Pool(t.spec.pool).Some? && Lands(c, c.Pool(t.spec.pool).value, runs, obs, id, ForTask(t.id), now, x)
    ensures LandsFor(c, runs, obs, t, id, now, x.(task := t.id, state := Provisioning, jitReady := true))
  {
    var y := x.(task := t.id, state := Provisioning, jitReady := true);
    assert y.(task := NONE, state := Reserved, jitReady := false) == x;
  }

  lemma {:induction false} DispatchFrom(c: Config, obs: map<Key, Observation>, now: int, tables: Tables, t: Task, id: Key, p: Pool, r: Result<Instance>)
    requires c.Pool(t.spec.pool) == Some(p) && p.tasks && p.enabled && r == Place(c, p, tables.runs, obs, id, ForTask(t.id), now)
    requires r.Ok? ==> Lands(c, p, tables.runs, obs, id, ForTask(t.id), now, r.value)
    ensures var d := DispatchOne(c, obs, now, tables, t, id);
            if r.Err? then d == Ok(None)
            else if Taken(tables.runs, r.value) then d == Err(UniqueViolation)
            else d.Ok? && d.value.Some? && PlacedFor(c, tables, obs, t, id, now, d.value.value)
  {
    if r.Ok? {
      PlacedForBy(c, tables, obs, t, id, now, r.value);
    }
  }

  lemma {:induction false} DispatchDecides(c: Config, obs: map<Key, Observation>, now: int, tables: Tables, t: Task, id: Key, p: Pool)
    requires Valid(c) && Balanced(c, tables.runs) && c.Pool(t.spec.pool) == Some(p) && p.tasks && p.enabled
    ensures var r := DispatchOne(c, obs, now, tables, t, id);
            if !Somewhere(c, p, tables.runs, obs, now) then r == Ok(None)
            else if !Untaken(tables.runs, id, ForTask(t.id)) then r == Err(UniqueViolation)
            else r.Ok? && r.value.Some? && PlacedFor(c, tables, obs, t, id, now, r.value.value)
  {
    PlaceLands(c, p, tables.runs, obs, id, ForTask(t.id), now);
    DispatchFrom(c, obs, now, tables, t, id, p, Place(c, p, tables.runs, obs, id, ForTask(t.id), now));
  }

  /** dispatchTx places a task exactly when its pool takes tasks and some node
      can host it. */
  lemma {:induction false} DispatchExactly(c: Config, obs: map<Key, Observation>, now: int, tables: Tables, t: Task, id: Key)
    requires Valid(c) && Balanced(c, tables.runs)
    ensures var r := DispatchOne(c, obs, now, tables, t, id);
            if !Takes(c, t.spec.pool, tables.runs, obs, now) then r == Ok(None)
            else if !Untaken(tables.runs, id, ForTask(t.id)) then r == Err(UniqueViolation)
            else r.Ok? && r.value.Some? && PlacedFor(c, tables, obs, t, id, now, r.value.value)
  {
    var pool := c.Pool(t.spec.pool);
    if pool.Some? && pool.value.tasks && pool.value.enabled {
      DispatchDecides(c, obs, now, tables, t, id, pool.value);
    }
  }

  // ---- Submitting ----

  predicate Behind(tasks: seq<Task>, pool: Key) {
    exists i | 0 <= i < |tasks| :: tasks[i].Queued() && tasks[i].spec.pool == pool
  }

  lemma {:induction false} OlderIff(tasks: seq<Task>, t: Task)
    requires UniqueTasks(tasks + [t])
    ensures OlderInPool(tasks + [t], t) <==> Behind(tasks, t.spec.pool)
  {
    var all := tasks + [t];
    QueueSound(all);
    var queued := QueuedTasks(all);
    if OlderInPool(all, t) {
      var i :| 0 <= i < |queued| && queued[i].spec.pool == t.spec.pool && queued[i].id != t.id;
      assert queued[i] in queued;
      var k :| 0 <= k < |all| && all[k] == queued[i];
      assert k < |tasks| && tasks[k] == all[k];
    }
    if Behind(tasks, t.spec.pool) {
      var k :| 0 <= k < |tasks| && tasks[k].Queued() && tasks[k].spec.pool == t.spec.pool;
      assert all[k] == tasks[k] && all[|tasks|] == t;
      assert tasks[k] in queued;
      var i :| 0 <= i < |queued| && queued[i] == tasks[k];
    }
  }

  /** Submitted for the first time, by a known client, to a pool that takes
      tasks. */
  predicate Submittable(s: Store, client: Key, spec: TaskSpec, id: Key) {
    && client != NONE && spec.Valid() && s.revision > 0 && id != NONE
    && (forall i | 0 <= i < |s.tasks| :: s.tasks[i].id != id && !(s.tasks[i].client == client && s.tasks[i].spec.request == spec.request))
    && s.config.Pool(spec.pool).Some? && s.config.Pool(spec.pool).value.tasks && s.config.Pool(spec.pool).value.enabled
  }

  predicate NewlyQueued(t: Task, client: Key, spec: TaskSpec, id: Key, now: int) {
    && t.id == id && t.client == client && t.spec == spec && t.created == now && t.updated == now
    && t.secret && t.instance == NONE && !t.cancelled && !t.expired && t.result == None && t.progress == 0
  }

  lemma {:induction false} SubmitLimit(s: Store, client: Key, spec: TaskSpec, id: Key, instanceID: Key, now: int)
    requires Submittable(s, client, spec, id)
    ensures var open := |Hits(s.tasks, OpenFor(client))|;
            Submit(s, client, spec, id, instanceID, now)
            == if 64 <= open then Outcome(s, Err(TaskLimit)) else SubmitNew(s, NewTask(client, spec, id, now), instanceID, now)
  {
    FindSubmissionSound(s.tasks, client, spec.request);
    FindTaskSound(s.tasks, id);
    OpenCounted(s.tasks, client);
  }

  lemma {:induction false} SavedLast(tasks: seq<Task>, t: Task, u: Task)
    requires UniqueTasks(tasks + [t]) && u.id == t.id
    ensures SaveTask(tasks + [t], u) == tasks + [u]
  {
    var all := tasks + [t];
    assert all[|tasks|] == t;
    assert forall i | 0 <= i < |tasks| :: all[i] == tasks[i];
  }

  /** What a first submission within the limit does: the task is appended, and
      placed at once exactly when no other task of its pool waits and some
      node can host it. */
  ghost predicate Submitted(s: Store, o: Outcome<Key>, t: Task, instanceID: Key, now: int) {
    if Behind(s.tasks, t.spec.pool) || !Takes(s.config, t.spec.pool, s.runs, s.obs, now)
    then o == Outcome(s.(tasks := s.tasks + [t]), Ok(t.id))
    else if !Untaken(s.runs, instanceID, ForTask(t.id)) then o == Outcome(s, Err(UniqueViolation))
    else
      && o.reply == Ok(t.id) && |o.store.runs| == |s.runs| + 1
      && o.store == s.(runs := s.runs + [Last(o.store.runs)], tasks := s.tasks + [t.(instance := instanceID, updated := now)])
      && LandsFor(s.config, s.runs, s.obs, t, instanceID, now, Last(o.store.runs))
  }

  lemma {:induction false} NewExactly(s: Store, t: Task, instanceID: Key, now: int)
    requires Valid(s.config) && Balanced(s.config, s.runs) && UniqueTasks(s.tasks + [t])
    ensures Submitted(s, SubmitNew(s, t, instanceID, now), t, instanceID, now)
  {
    OlderIff(s.tasks, t);
    DispatchExactly(s.config, s.obs, now, Tables(s.runs, s.tasks + [t]), t, instanceID);
    SavedLast(s.tasks, t, t.(instance := instanceID, updated := now));
  }

  lemma {:induction false} SubmitExactly(s: Store, client: Key, spec: TaskSpec, id: Key, instanceID: Key, now: int) returns (t: Task)
    requires Sound(s) && Submittable(s, client, spec, id)
    ensures NewlyQueued(t, client, spec, id, now)
    ensures var open := |Hits(s.tasks, OpenFor(client))|;
            var o := Submit(s, client, spec, id, instanceID, now);
            if 64 <= open then o == Outcome(s, Err(TaskLimit)) else Submitted(s, o, t, instanceID, now)
  {
    t := NewTask(client, spec, id, now);
    SubmitLimit(s, client, spec, id, instanceID, now);
    NewExactly(s, t, instanceID, now);
  }
}
