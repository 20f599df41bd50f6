/** DispatchTasks is first-in first-out per pool and leaves no placeable head
    behind. */
module Dispatching {
  import opened Resources
  import opened Model
  import opened Order
  import opened Validate
  import opened Ledger
  import opened Placement
  import opened State
  import opened Transactions
  import opened Consistency
  import opened Movement
  import opened Soundness

  /** Whether a task of the pool could be placed right now. */
  ghost predicate Open(c: Config, pool: Key, runs: seq<Instance>, obs: map<Key, Observation>, now: int) {
    && c.Pool(pool).Some? && c.Pool(pool).value.tasks && c.Pool(pool).value.enabled
    && Placeable(c, c.Pool(pool).value, runs, obs, now)
  }

  /** dispatchTx leaves a task queued exactly when its pool is not open. */
  lemma {:induction false} BlockedIff(c: Config, obs: map<Key, Observation>, now: int, tables: Tables, t: Task, id: Key)
    requires UniqueNodes(c.nodes)
    ensures DispatchOne(c, obs, now, tables, t, id) == Ok(None) <==> !Open(c, t.spec.pool, tables.runs, obs, now)
  {
    var pool := c.Pool(t.spec.pool);
    if pool.Some? {
      HeadFeasible(c, pool.value, tables.runs, obs, now);
    }
  }

  /** Placing one VM opens no pool. */
  lemma {:induction false} PlacementOpensNothing(c: Config, obs: map<Key, Observation>, now: int, tables: Tables, t: Task, id: Key, pool: Key)
    requires Valid(c) && Running(c, tables)
    requires DispatchOne(c, obs, now, tables, t, id).Ok? && DispatchOne(c, obs, now, tables, t, id).value.Some?
    ensures var after := DispatchOne(c, obs, now, tables, t, id).value.value;
            Open(c, pool, after.runs, obs, now) ==> Open(c, pool, tables.runs, obs, now)
  {
    var p := c.Pool(t.spec.pool).value;
    FindPoolSound(c.pools, t.spec.pool);
    var x := Place(c, p, tables.runs, obs, id, ForTask(t.id), now).value;
    var y := x.(task := t.id, state := Provisioning, jitReady := true);
    var n := PlaceSound(c, p, tables.runs, obs, id, ForTask(t.id), now, y);
    var r := PlacementTakes(c, p, tables.runs, n, y);
    var after := DispatchOne(c, obs, now, tables, t, id).value.value;
    if Open(c, pool, after.runs, obs, now) {
      var q := c.Pool(pool).value;
      FindPoolSound(c.pools, pool);
      var i :| 0 <= i < |c.nodes| && Feasible(c, q, after.runs, obs, now, c.nodes[i]);
      FeasibleAntitone(c, q, tables.runs, obs, now, c.nodes[i], y, r);
    }
  }

  predicate Expiring(t: Task, now: int) {
    now - t.created > QUEUE_LIFETIME
  }

  predicate PlacedIn(tasks: seq<Task>, t: Task) {
    FindTask(tasks, t.id).Some? && FindTask(tasks, t.id).value.instance != NONE
  }

  predicate ExpiredIn(tasks: seq<Task>, t: Task) {
    FindTask(tasks, t.id).Some? && FindTask(tasks, t.id).value.expired
  }

  /** Expired tasks aside, the placed part of each pool's queue is a prefix. */
  ghost predicate Ordered(tasks: seq<Task>, blocked: set<Key>, queued: seq<Task>, k: nat, now: int)
    requires k <= |queued|
  {
    && (forall i | 0 <= i < k && !Expiring(queued[i], now) :: PlacedIn(tasks, queued[i]) || queued[i].spec.pool in blocked)
    && (forall i, j | 0 <= i < j < k && queued[i].spec.pool == queued[j].spec.pool && !Expiring(queued[i], now) ::
          PlacedIn(tasks, queued[j]) ==> PlacedIn(tasks, queued[i]))
    && (forall i | 0 <= i < k && Expiring(queued[i], now) :: ExpiredIn(tasks, queued[i]) && !PlacedIn(tasks, queued[i]))
  }

  /** What remains of a blocked pool cannot be placed. */
  ghost predicate BlockedShut(c: Config, obs: map<Key, Observation>, now: int, d: Dispatch) {
    forall pool | pool in d.blocked :: !Open(c, pool, d.tables.runs, obs, now)
  }

  ghost predicate InOrder(c: Config, obs: map<Key, Observation>, now: int, d: Dispatch, queued: seq<Task>, k: nat)
    requires k <= |queued|
  {
    Ordered(d.tables.tasks, d.blocked, queued, k, now) && BlockedShut(c, obs, now, d)
  }

  lemma {:induction false} PlacedAfter(tasks: seq<Task>, t: Task, u: Task, v: Task)
    requires UniqueTasks(tasks) && t in tasks && u.id == t.id
    ensures v.id != t.id ==> FindTask(SaveTask(tasks, u), v.id) == FindTask(tasks, v.id)
    ensures FindTask(SaveTask(tasks, u), t.id) == Some(u)
  {
    FindSaved(tasks, t, u, v.id);
    FindSaved(tasks, t, u, t.id);
  }

  /** What one step of the loop does to the tasks. */
  lemma {:induction false} StepPlaces(c: Config, obs: map<Key, Observation>, now: int, draw: Key -> Key, d: Dispatch, t: Task, v: Task)
    requires UniqueTasks(d.tables.tasks) && t in d.tables.tasks && t.Queued()
    requires DispatchStep(c, obs, now, draw, d, t).Ok?
    ensures var after := DispatchStep(c, obs, now, draw, d, t).value;
            && d.blocked <= after.blocked
            && (v.id != t.id ==> FindTask(after.tables.tasks, v.id) == FindTask(d.tables.tasks, v.id))
            && (Expiring(t, now) ==> ExpiredIn(after.tables.tasks, t))
            && (PlacedIn(after.tables.tasks, t) ==> !Expiring(t, now) && t.spec.pool !in d.blocked)
            && (!Expiring(t, now) ==> PlacedIn(after.tables.tasks, t) || t.spec.pool in after.blocked)
  {
    var k :| 0 <= k < |d.tables.tasks| && d.tables.tasks[k] == t;
    TaskAt(d.tables.tasks, k);
    if Expiring(t, now) {
      PlacedAfter(d.tables.tasks, t, Expire(t, now), v);
    } else if t.spec.pool !in d.blocked {
      PlacedAfter(d.tables.tasks, t, t.(instance := draw(t.id), updated := now), v);
      assert DispatchOne(c, obs, now, d.tables, t, draw(t.id)).value.Some? ==> draw(t.id) != NONE;
    }
  }

  lemma {:induction false} StepBlocks(c: Config, obs: map<Key, Observation>, now: int, draw: Key -> Key, d: Dispatch, t: Task, pool: Key)
    requires Valid(c) && Running(c, d.tables)
    requires DispatchStep(c, obs, now, draw, d, t).Ok?
    requires pool in d.blocked ==> !Open(c, pool, d.tables.runs, obs, now)
    ensures var after := DispatchStep(c, obs, now, draw, d, t).value;
            pool in after.blocked ==> !Open(c, pool, after.tables.runs, obs, now)
  {
    if !Expiring(t, now) && t.spec.pool !in d.blocked {
      BlockedIff(c, obs, now, d.tables, t, draw(t.id));
      if DispatchOne(c, obs, now, d.tables, t, draw(t.id)).value.Some? {
        PlacementOpensNothing(c, obs, now, d.tables, t, draw(t.id), pool);
      }
    }
  }

  lemma {:induction false} Extended(tasks: seq<Task>, blocked: set<Key>, tasks': seq<Task>, blocked': set<Key>, queued: seq<Task>, k: nat, now: int)
    requires k < |queued| && Ordered(tasks, blocked, queued, k, now) && blocked <= blocked'
    requires forall i | 0 <= i < k :: FindTask(tasks', queued[i].id) == FindTask(tasks, queued[i].id)
    requires Expiring(queued[k], now) ==> ExpiredIn(tasks', queued[k])
    requires PlacedIn(tasks', queued[k]) ==> !Expiring(queued[k], now) && queued[k].spec.pool !in blocked
    requires !Expiring(queued[k], now) ==> PlacedIn(tasks', queued[k]) || queued[k].spec.pool in blocked'
    ensures Ordered(tasks', blocked', queued, k + 1, now)
  {
    forall i | 0 <= i < k
      ensures PlacedIn(tasks', queued[i]) <==> PlacedIn(tasks, queued[i])
      ensures ExpiredIn(tasks', queued[i]) <==> ExpiredIn(tasks, queued[i])
    {
      assert FindTask(tasks', queued[i].id) == FindTask(tasks, queued[i].id);
    }
  }

  lemma {:induction false} StepInOrder(c: Config, obs: map<Key, Observation>, now: int, draw: Key -> Key, d: Dispatch, queued: seq<Task>, k: nat)
    requires Valid(c) && Running(c, d.tables) && UniqueTasks(queued) && k < |queued|
    requires StillQueued(queued, k, d.tables.tasks)
    requires InOrder(c, obs, now, d, queued, k)
    requires DispatchStep(c, obs, now, draw, d, queued[k]).Ok?
    ensures InOrder(c, obs, now, DispatchStep(c, obs, now, draw, d, queued[k]).value, queued, k + 1)
  {
    var t, after := queued[k], DispatchStep(c, obs, now, draw, d, queued[k]).value;
    forall i | 0 <= i < k
      ensures FindTask(after.tables.tasks, queued[i].id) == FindTask(d.tables.tasks, queued[i].id)
    {
      StepPlaces(c, obs, now, draw, d, t, queued[i]);
    }
    StepPlaces(c, obs, now, draw, d, t, t);
    Extended(d.tables.tasks, d.blocked, after.tables.tasks, after.blocked, queued, k, now);
    forall pool | pool in after.blocked
      ensures !Open(c, pool, after.tables.runs, obs, now)
    {
      StepBlocks(c, obs, now, draw, d, t, pool);
    }
  }

  lemma {:induction false} QueueInOrder(c: Config, obs: map<Key, Observation>, now: int, draw: Key -> Key, start: Tables, queued: seq<Task>, k: nat)
    requires Valid(c) && Running(c, start) && UniqueTasks(queued) && k <= |queued|
    requires StillQueued(queued, 0, start.tasks)
    requires DispatchQueue(c, obs, now, draw, start, queued[..k]).Ok?
    ensures InOrder(c, obs, now, DispatchQueue(c, obs, now, draw, start, queued[..k]).value, queued, k)
  {
    if k > 0 {
      assert queued[..k][..k - 1] == queued[..k - 1];
      QueueInOrder(c, obs, now, draw, start, queued, k - 1);
      DispatchQueueKeeps(c, obs, now, draw, start, queued, k - 1);
      StepInOrder(c, obs, now, draw, DispatchQueue(c, obs, now, draw, start, queued[..k - 1]).value, queued, k - 1);
    }
  }

  /** DispatchTasks, as a client sees it: of two queued tasks of one pool the
      older is placed whenever the younger is, expired tasks are never
      placed, and when it returns no live task is left waiting whose pool
      could still be placed. */
  lemma {:induction false} DispatchIsFair(s: Store, draw: Key -> Key, now: int, i: nat)
    requires Sound(s) && s.revision > 0 && DispatchTasks(s, draw, now).reply.Ok?
    requires i < |QueuedTasks(s.tasks)|
    ensures var queued, s' := QueuedTasks(s.tasks), DispatchTasks(s, draw, now).store;
            && (forall j | i < j < |queued| && queued[j].spec.pool == queued[i].spec.pool
                           && PlacedIn(s'.tasks, queued[j]) && !Expiring(queued[i], now) ::
                  PlacedIn(s'.tasks, queued[i]))
            && (Expiring(queued[i], now) ==> ExpiredIn(s'.tasks, queued[i]) && !PlacedIn(s'.tasks, queued[i]))
            && (!Expiring(queued[i], now) && !PlacedIn(s'.tasks, queued[i])
                ==> !Open(s.config, queued[i].spec.pool, s'.runs, s.obs, now))
  {
    var queued := QueuedTasks(s.tasks);
    QueueSound(s.tasks);
    assert queued[..|queued|] == queued;
    QueueInOrder(s.config, s.obs, now, draw, Tables(s.runs, s.tasks), queued, |queued|);
  }
}
