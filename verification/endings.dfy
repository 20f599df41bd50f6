/** Cancelling a task and revoking a client end the VMs concerned: which rows
    change, to what, and that the host's VM is gone in the end. */
module Endings {
  import opened Resources
  import opened Model
  import opened Ledger
  import opened State
  import opened Transactions
  import opened Sync
  import opened Consistency
  import opened Soundness
  import opened Runs
  import opened Hosting
  import opened World
  import opened Composition
  import opened Teardown
  import opened Cost
  import opened Lifecycle
  import opened Agents
  import opened HostSafety

  // ---- Which rows change ----

  /** Some VM row of that ID is neither being deleted nor deleted. */
  predicate Alive(runs: seq<Instance>, id: Key) {
    exists k | 0 <= k < |runs| :: runs[k].id == id && runs[k].state != Deleting && runs[k].state != Deleted
  }

  lemma {:induction false} AliveIff(runs: seq<Instance>, id: Key)
    requires UniqueInstances(runs)
    ensures Alive(runs, id) <==> !Transactions.Finished(FindInstance(runs, id))
  {
    FindInstanceSound(runs, id);
  }

  predicate Stops(a: Instance, b: Instance, now: int) {
    b == a.(state := InstanceState.Stopping, updated := now)
  }

  /** A task may be cancelled while nothing is decided about it. */
  predicate Cancellable(s: Store, t: Task) {
    !t.cancelled && !t.expired && t.result == None && (t.instance == NONE || Alive(s.runs, t.instance))
  }

  ghost predicate CancelledIn(s: Store, s': Store, j: nat, now: int)
    requires j < |s.tasks|
  {
    var t := s.tasks[j];
    && |s'.tasks| == |s.tasks| && (forall m | 0 <= m < |s.tasks| && m != j :: s'.tasks[m] == s.tasks[m])
    && s'.tasks[j] == t.(cancelled := true, updated := now, secret := t.secret && t.instance != NONE)
    && |s'.runs| == |s.runs|
    && forall k | 0 <= k < |s.runs| ::
         if t.instance != NONE && s.runs[k].id == t.instance then Stops(s.runs[k], s'.runs[k], now)
         else s'.runs[k] == s.runs[k]
  }

  lemma {:induction false} CancelAnswer(s: Store, client: Key, now: int, t: Task)
    requires UniqueInstances(s.runs) && FindTask(s.tasks, t.id) == Some(t)
    ensures var o := CancelTask(s, client, t.id, now);
            && (o.reply.Ok? <==> client == NONE || client == t.client)
            && (o.reply == Ok(true) <==> (client == NONE || client == t.client) && Cancellable(s, t))
            && (o.reply != Ok(true) ==> o.store == s)
  {
    AliveIff(s.runs, t.instance);
  }

  lemma {:induction false} SavedAt(tasks: seq<Task>, j: nat, u: Task)
    requires UniqueTasks(tasks) && j < |tasks| && u.id == tasks[j].id
    ensures |SaveTask(tasks, u)| == |tasks| && SaveTask(tasks, u)[j] == u
    ensures forall m | 0 <= m < |tasks| && m != j :: SaveTask(tasks, u)[m] == tasks[m]
  {
  }

  lemma {:induction false} CancelRuns(s: Store, client: Key, now: int, t: Task)
    requires UniqueInstances(s.runs) && FindTask(s.tasks, t.id) == Some(t)
    requires CancelTask(s, client, t.id, now).reply == Ok(true)
    ensures var runs := CancelTask(s, client, t.id, now).store.runs;
            |runs| == |s.runs|
            && forall k | 0 <= k < |s.runs| ::
                 if t.instance != NONE && s.runs[k].id == t.instance then Stops(s.runs[k], runs[k], now) else runs[k] == s.runs[k]
  {
    if t.instance != NONE {
      FindInstanceSound(s.runs, t.instance);
      var a := FindInstance(s.runs, t.instance).value;
      SavedRuns(s.runs, a, a.(state := InstanceState.Stopping, updated := now));
    }
  }

  lemma {:induction false} CancelEffect(s: Store, client: Key, now: int, j: nat)
    requires UniqueInstances(s.runs) && UniqueTasks(s.tasks) && j < |s.tasks|
    requires CancelTask(s, client, s.tasks[j].id, now).reply == Ok(true)
    ensures CancelledIn(s, CancelTask(s, client, s.tasks[j].id, now).store, j, now)
  {
    var t, s' := s.tasks[j], CancelTask(s, client, s.tasks[j].id, now).store;
    TaskAt(s.tasks, j);
    CancelRuns(s, client, now, t);
    assert s'.tasks == SaveTask(s.tasks, AsCancelled(t, now)) by {
      CancelTasksSaved(s, client, t, now);
    }
    SavedAt(s.tasks, j, AsCancelled(t, now));
  }

  lemma {:induction false} CancelTasksSaved(s: Store, client: Key, t: Task, now: int)
    requires FindTask(s.tasks, t.id) == Some(t) && CancelTask(s, client, t.id, now).reply == Ok(true)
    ensures CancelTask(s, client, t.id, now).store.tasks == SaveTask(s.tasks, AsCancelled(t, now))
  {
  }

  /** Only the owner, or the operator, may cancel a task; when it is still
      open it becomes cancelled, an unplaced one loses its payload, and a
      placed one's VM becomes Stopping. */
  lemma {:induction false} CancelExactly(s: Store, client: Key, now: int, j: nat)
    requires Sound(s) && j < |s.tasks|
    ensures var t, o := s.tasks[j], CancelTask(s, client, s.tasks[j].id, now);
            && (o.reply.Ok? <==> client == NONE || client == t.client)
            && (o.reply == Ok(true) <==> (client == NONE || client == t.client) && Cancellable(s, t))
            && (o.reply == Ok(true) ==> CancelledIn(s, o.store, j, now))
            && (o.reply != Ok(true) ==> o.store == s)
  {
    TaskAt(s.tasks, j);
    CancelAnswer(s, client, now, s.tasks[j]);
    if CancelTask(s, client, s.tasks[j].id, now).reply == Ok(true) {
      CancelEffect(s, client, now, j);
    }
  }

  predicate RevokedBy(s: Store, client: Key, t: Task) {
    t.client == client && !t.cancelled && !t.expired && (t.instance == NONE || Alive(s.runs, t.instance))
  }

  ghost predicate RevokedIn(s: Store, s': Store, client: Key, now: int) {
    && |s'.tasks| == |s.tasks| && |s'.runs| == |s.runs|
    && (forall j | 0 <= j < |s.tasks| :: var t := s.tasks[j];
          s'.tasks[j] == if RevokedBy(s, client, t) then t.(cancelled := true, updated := now, secret := t.instance != NONE) else t)
    && forall k | 0 <= k < |s.runs| ::
         if exists j | 0 <= j < |s.tasks| :: RevokedBy(s, client, s.tasks[j]) && s.tasks[j].instance == s.runs[k].id
         then Stops(s.runs[k], s'.runs[k], now) else s'.runs[k] == s.runs[k]
  }

  lemma {:induction false} RevokedIff(s: Store, client: Key, j: nat)
    requires Sound(s) && j < |s.tasks|
    ensures Revoked(s.runs, s.tasks[j], client) <==> RevokedBy(s, client, s.tasks[j])
  {
    var t := s.tasks[j];
    assert SecretRule(s.runs, t);
    AliveIff(s.runs, t.instance);
  }

  lemma {:induction false} RevokeExactly(s: Store, client: Key, now: int)
    requires Sound(s) && client in s.clients
    ensures var o := RevokeClient(s, client, now);
            o.reply == Ok(true) && RevokedIn(s, o.store, client, now)
            && client in o.store.clients && o.store.clients[client]
  {
    forall j | 0 <= j < |s.tasks|
      ensures Revoked(s.runs, s.tasks[j], client) <==> RevokedBy(s, client, s.tasks[j])
    {
      RevokedIff(s, client, j);
    }
    forall k | 0 <= k < |s.runs|
      ensures s.runs[k].id != NONE
    {
      assert RowOK(s.runs[k]);
    }
  }

  // ---- A task's VM that is to go stays on its way ----

  /** Without host reports of Failed and GitHub events about task VMs. */
  predicate RegularMove(w: World, m: Move) {
    m.Otherwise? && m.event.ByController? ==> Regular(w.store, m.event.op)
  }

  /** The row of a task's VM keeps its identity and goes no step back. */
  ghost predicate Onwards(w: World, w': World, i: nat) {
    i < |w.store.runs| && w.store.runs[i].task != NONE ==>
      && i < |w'.store.runs|
      && w'.store.runs[i].id == w.store.runs[i].id && w'.store.runs[i].node == w.store.runs[i].node
      && w'.store.runs[i].task == w.store.runs[i].task
      && Lifecycle.Phase(w.store.runs[i].state) <= Lifecycle.Phase(w'.store.runs[i].state)
  }

  lemma {:induction false} ReportOnwards(w: World, node: Key, o: NodeReport, now: int, w': World, i: nat)
    requires forall j | 0 <= j < |o.vms| :: o.vms[j].state != VMFailed
    requires w'.store.runs == SyncNode(w.store, node, o, now).store.runs
    ensures Onwards(w, w', i)
  {
    SyncForward(w.store, node, o, now);
    SyncFrame(w.store, node, o, now);
    if i < |w.store.runs| {
      assert RowForward(w.store.runs[i], w'.store.runs[i], now);
    }
  }

  lemma {:induction false} ControllerOnwards(policy: Policy, w: World, op: Op, now: int, i: nat)
    requires Sound(w.store) && Regular(w.store, op) && !(op.DoSync? && op.node == policy.node)
    ensures i < |w.store.runs| && w.store.runs[i].node == policy.node ==> Onwards(w, w.(store := Step(w.store, op, now)), i)
  {
    var after := Step(w.store, op, now).runs;
    StepMoves(w.store, op, now);
    ElsewhereSteady(w.store, op, now, policy.node);
    if i < |w.store.runs| {
      assert RowForward(w.store.runs[i], after[i], now) && RowStays(policy.node, w.store.runs[i], after[i]);
    }
  }

  lemma {:induction false} SurveyNotFailed(h: Host, h': Host, vms: seq<VMReport>, uncertain: set<Key>)
    requires Surveyed(h, h', |h.files|, vms, uncertain)
    ensures forall j | 0 <= j < |vms| :: vms[j].state != VMFailed
  {
    forall j | 0 <= j < |vms|
      ensures vms[j].state != VMFailed
    {
      assert Hosting.Reported(h, h', h.files[j], vms[j].state, h.files[j] in uncertain);
    }
  }

  lemma {:induction false} StepReports(policy: Policy, w: World, o: NodeReport, now: int, w': World)
    requires AgentStep(policy, w, o, now, w')
    ensures forall j | 0 <= j < |o.vms| :: o.vms[j].state != VMFailed
    ensures w'.store.runs == SyncNode(w.store, policy.node, o, now).store.runs
  {
    var h1 :| o.node == policy.node && Surveyed(w.host, h1, |w.host.files|, o.vms, {})
              && SyncNode(w.store, policy.node, o, now).reply.Ok?
              && Obeyed(policy, h1, SyncNode(w.store, policy.node, o, now).reply.value, w'.host);
    SurveyNotFailed(w.host, h1, o.vms, {});
  }

  lemma {:induction false} PostedNotFailed(policy: Policy, w: World, o: NodeReport)
    requires WorldOK(policy, w) && o in w.posted
    ensures forall j | 0 <= j < |o.vms| :: o.vms[j].state != VMFailed
  {
    assert ReportOK(policy.node, w.host, o);
    assert forall j | 0 <= j < |o.vms| :: Truthful(w.host, o.vms[j]);
  }

  lemma {:induction false} EventOnwards(policy: Policy, w: World, e: Event, w': World, i: nat)
    requires WorldOK(policy, w) && Happens(policy, w, e, w') && RegularMove(w, Otherwise(e))
    requires i < |w.store.runs| && w.store.runs[i].node == policy.node
    ensures Onwards(w, w', i)
  {
    match e
    case ByController(op, now) => ControllerOnwards(policy, w, op, now, i);
    case Delivered(o, now) =>
      PostedNotFailed(policy, w, o);
      ReportOnwards(w, policy.node, o, now, w', i);
    case _ => assert w'.store == w.store;
  }

  lemma {:induction false} MoveOnwards(policy: Policy, w: World, m: Move, w': World, i: nat)
    requires WorldOK(policy, w) && Moved(policy, w, m, w') && RegularMove(w, m)
    requires i < |w.store.runs| && w.store.runs[i].node == policy.node
    ensures Onwards(w, w', i)
  {
    match m
    case Smooth(o, now) =>
      StepReports(policy, w, o, now, w');
      ReportOnwards(w, policy.node, o, now, w', i);
    case Otherwise(e) => EventOnwards(policy, w, e, w', i);
  }

  // ---- Along a journey ----

  /** A task's VM on the node that is stopping, being deleted or deleted. */
  predicate Leaving(node: Key, w: World, i: nat, id: Key) {
    && i < |w.store.runs| && w.store.runs[i].id == id && w.store.runs[i].node == node && w.store.runs[i].task != NONE
    && (w.store.runs[i].state == InstanceState.Stopping || w.store.runs[i].state == Deleting || w.store.runs[i].state == Deleted)
  }

  predicate DeletedIn(w: World, i: nat) {
    i < |w.store.runs| && w.store.runs[i].state == Deleted
  }

  ghost predicate RegularJourney(ws: seq<World>, ms: seq<Move>)
    requires |ws| == |ms| + 1
  {
    forall k | 0 <= k < |ms| :: RegularMove(ws[k], ms[k])
  }

  /** One move leaves it leaving, and deleted if it was. */
  ghost predicate LeavesOn(node: Key, w: World, w': World, i: nat, id: Key) {
    Leaving(node, w, i, id) ==> Leaving(node, w', i, id) && (DeletedIn(w, i) ==> DeletedIn(w', i))
  }

  lemma {:induction false} OnwardsLeaves(node: Key, w: World, w': World, i: nat, id: Key)
    requires Onwards(w, w', i)
    ensures LeavesOn(node, w, w', i, id)
  {
  }

  lemma {:induction false} MoveLeaves(policy: Policy, w: World, m: Move, w': World, i: nat, id: Key)
    requires WorldOK(policy, w) && Moved(policy, w, m, w') && RegularMove(w, m)
    ensures LeavesOn(policy.node, w, w', i, id)
  {
    if Leaving(policy.node, w, i, id) {
      MoveOnwards(policy, w, m, w', i);
      OnwardsLeaves(policy.node, w, w', i, id);
    }
  }

  /** So does each of the first n moves. */
  ghost predicate AllLeave(node: Key, ws: seq<World>, i: nat, id: Key, n: nat)
    requires n < |ws|
  {
    n == 0 || (AllLeave(node, ws, i, id, n - 1) && LeavesOn(node, ws[n - 1], ws[n], i, id))
  }

  lemma {:induction false} LeavesAt(policy: Policy, ws: seq<World>, ms: seq<Move>, i: nat, id: Key, k: nat)
    requires Journey(policy, ws, ms) && WorldOK(policy, ws[0]) && RegularJourney(ws, ms) && k < |ms|
    ensures LeavesOn(policy.node, ws[k], ws[k + 1], i, id)
  {
    JourneyOK(policy, ws, ms, k);
    MoveLeaves(policy, ws[k], ms[k], ws[k + 1], i, id);
  }

  lemma {:induction false} JourneyLeaves(policy: Policy, ws: seq<World>, ms: seq<Move>, i: nat, id: Key, n: nat)
    requires Journey(policy, ws, ms) && WorldOK(policy, ws[0]) && RegularJourney(ws, ms) && n <= |ms|
    ensures AllLeave(policy.node, ws, i, id, n)
  {
    if n > 0 {
      JourneyLeaves(policy, ws, ms, i, id, n - 1);
      LeavesAt(policy, ws, ms, i, id, n - 1);
    }
  }

  lemma {:induction false} FirstLeave(node: Key, ws: seq<World>, i: nat, id: Key, k: nat, n: nat)
    requires k <= n < |ws| && AllLeave(node, ws, i, id, n)
    ensures AllLeave(node, ws, i, id, k)
  {
    if k < n {
      FirstLeave(node, ws, i, id, k, n - 1);
    }
  }

  lemma {:induction false} StillLeaving(node: Key, ws: seq<World>, i: nat, id: Key, k: nat, n: nat)
    requires k <= n < |ws| && AllLeave(node, ws, i, id, n) && Leaving(node, ws[k], i, id)
    ensures Leaving(node, ws[n], i, id) && (DeletedIn(ws[k], i) ==> DeletedIn(ws[n], i))
  {
    if k < n {
      StillLeaving(node, ws, i, id, k, n - 1);
    }
  }

  /** Error-free agent steps among the first n moves. */
  function Smooths(ms: seq<Move>, n: nat): nat
    requires n <= |ms|
  {
    if n == 0 then 0 else Smooths(ms, n - 1) + if ms[n - 1].Smooth? then 1 else 0
  }

  lemma {:induction false} LeavingIsDue(node: Key, w: World, i: nat, id: Key, now: int)
    requires Leaving(node, w, i, id) && !DeletedIn(w, i)
    ensures AnyDue(node, w.store.runs, now)
  {
    assert Due(node, w.store.runs[i], now);
  }

  /** While it is not deleted, every error-free step has something to do. */
  lemma {:induction false} AllBusy(policy: Policy, ws: seq<World>, ms: seq<Move>, i: nat, id: Key, n: nat)
    requires |ws| == |ms| + 1 && n <= |ms|
    requires forall k | 0 <= k < n :: Leaving(policy.node, ws[k], i, id) && !DeletedIn(ws[k], i)
    ensures Cost.Busy(policy, ws, ms, n) == Smooths(ms, n)
  {
    if n > 0 {
      AllBusy(policy, ws, ms, i, id, n - 1);
      if ms[n - 1].Smooth? {
        LeavingIsDue(policy.node, ws[n - 1], i, id, ms[n - 1].now);
      }
    }
  }

  lemma {:induction false} LeavingDeleted(policy: Policy, ws: seq<World>, ms: seq<Move>, i: nat, id: Key)
    requires |ws| == |ms| + 1 && AllLeave(policy.node, ws, i, id, |ms|) && Leaving(policy.node, ws[0], i, id)
    requires Cost.Busy(policy, ws, ms, |ms|) < Smooths(ms, |ms|)
    ensures DeletedIn(ws[|ms|], i)
  {
    forall k | 0 <= k <= |ms|
      ensures Leaving(policy.node, ws[k], i, id) && (DeletedIn(ws[k], i) ==> DeletedIn(ws[|ms|], i))
    {
      FirstLeave(policy.node, ws, i, id, k, |ms|);
      StillLeaving(policy.node, ws, i, id, 0, k);
      StillLeaving(policy.node, ws, i, id, k, |ms|);
    }
    if !DeletedIn(ws[|ms|], i) {
      AllBusy(policy, ws, ms, i, id, |ms|);
    }
  }

  ghost predicate GoneFrom(w: World, id: Key) {
    && (exists k | 0 <= k < |w.store.runs| :: w.store.runs[k].id == id && w.store.runs[k].state == Deleted)
    && id !in w.host.domains && id !in w.host.dirs
  }

  lemma {:induction false} DeletedGone(policy: Policy, w: World, i: nat)
    requires WorldOK(policy, w) && i < |w.store.runs| && w.store.runs[i].node == policy.node && w.store.runs[i].state == Deleted
    ensures GoneFrom(w, w.store.runs[i].id)
  {
    assert VMOK(w.host, w.store.runs[i].id);
    RowDying(policy, w, i);
  }

  /** A task's VM that is to go is gone from the controller and from its host
      once there were more error-free agent steps than four for each VM ever
      placed there, whatever else happens meanwhile, in any order. */
  lemma {:induction false} LeavingEnds(policy: Policy, ws: seq<World>, ms: seq<Move>, i: nat, id: Key)
    requires Journey(policy, ws, ms) && Reachable(policy, ws[0]) && policy.ceiling.NonNegative() && RegularJourney(ws, ms)
    requires Leaving(policy.node, ws[0], i, id)
    requires 4 * Placed(policy.node, ws[|ms|].store.runs) < Smooths(ms, |ms|)
    ensures GoneFrom(ws[|ms|], id)
  {
    TeardownCostsFour(policy, ws, ms);
    assert WorldOK(policy, ws[0]) by {
      ReachableOK(policy, ws[0]);
    }
    JourneyLeaves(policy, ws, ms, i, id, |ms|);
    LeavingDeleted(policy, ws, ms, i, id);
    StillLeaving(policy.node, ws, i, id, 0, |ms|);
    JourneyOK(policy, ws, ms, |ms|);
    DeletedGone(policy, ws[|ms|], i);
  }

  // ---- Cancelled, revoked ----

  /** One row was told to stop, at its place. */
  ghost predicate Told(s: Store, s': Store, i: nat) {
    && i < |s.runs| == |s'.runs|
    && s'.runs[i].id == s.runs[i].id && s'.runs[i].node == s.runs[i].node && s'.runs[i].task == s.runs[i].task
    && s'.runs[i].state == InstanceState.Stopping
    && FindInstance(s'.runs, s.runs[i].id) == Some(s'.runs[i])
  }

  lemma {:induction false} CancelTells(s: Store, client: Key, now: int, j: nat, i: nat)
    requires Sound(s) && j < |s.tasks| && CancelTask(s, client, s.tasks[j].id, now).reply == Ok(true)
    requires i < |s.runs| && s.runs[i].id == s.tasks[j].instance
    ensures Told(s, CancelTask(s, client, s.tasks[j].id, now).store, i)
  {
    var s' := CancelTask(s, client, s.tasks[j].id, now).store;
    CancelExactly(s, client, now, j);
    assert RowOK(s.runs[i]) && Stops(s.runs[i], s'.runs[i], now);
    assert UniqueInstances(s'.runs);
    InstanceAt(s'.runs, i);
  }

  lemma {:induction false} RevokeTells(s: Store, client: Key, now: int, j: nat, i: nat)
    requires Sound(s) && client in s.clients && j < |s.tasks|
    requires !s.tasks[j].cancelled && RevokeClient(s, client, now).store.tasks[j].cancelled
    requires i < |s.runs| && s.runs[i].id == s.tasks[j].instance
    ensures Told(s, RevokeClient(s, client, now).store, i)
  {
    var s' := RevokeClient(s, client, now).store;
    RevokeExactly(s, client, now);
    assert RevokedBy(s, client, s.tasks[j]);
    assert Stops(s.runs[i], s'.runs[i], now);
    assert UniqueInstances(s'.runs);
    InstanceAt(s'.runs, i);
  }

  /** A cancelled task's VM is told to stop: from then on it is due on its
      node, whatever the time. */
  lemma {:induction false} CancelStopsVM(s: Store, client: Key, now: int, j: nat, time: int)
    requires Sound(s) && j < |s.tasks| && s.tasks[j].instance != NONE
    requires CancelTask(s, client, s.tasks[j].id, now).reply == Ok(true)
    ensures var vm := FindInstance(CancelTask(s, client, s.tasks[j].id, now).store.runs, s.tasks[j].instance);
            vm.Some? && vm.value.state == InstanceState.Stopping && Due(vm.value.node, vm.value, time)
  {
    CancelExactly(s, client, now, j);
    var i :| 0 <= i < |s.runs| && s.runs[i].id == s.tasks[j].instance;
    CancelTells(s, client, now, j, i);
  }

  /** So is the VM of every task that revoking a client cancels. */
  lemma {:induction false} RevokeStopsVM(s: Store, client: Key, now: int, j: nat, time: int)
    requires Sound(s) && client in s.clients && j < |s.tasks| && s.tasks[j].instance != NONE
    requires !s.tasks[j].cancelled && RevokeClient(s, client, now).store.tasks[j].cancelled
    ensures var vm := FindInstance(RevokeClient(s, client, now).store.runs, s.tasks[j].instance);
            vm.Some? && vm.value.state == InstanceState.Stopping && Due(vm.value.node, vm.value, time)
  {
    RevokeExactly(s, client, now);
    assert RevokedBy(s, client, s.tasks[j]);
    var i :| 0 <= i < |s.runs| && s.runs[i].id == s.tasks[j].instance;
    RevokeTells(s, client, now, j, i);
  }

  lemma {:induction false} ReachableSound(policy: Policy, w: World)
    requires Reachable(policy, w) && policy.ceiling.NonNegative()
    ensures Sound(w.store)
  {
    ReachableOK(policy, w);
  }

  lemma {:induction false} EndingHappens(policy: Policy, w: World, client: Key, id: Key, now: int)
    requires Reachable(policy, w)
    ensures Reachable(policy, w.(store := CancelTask(w.store, client, id, now).store))
    ensures Reachable(policy, w.(store := RevokeClient(w.store, client, now).store))
  {
    OneMoreEvent(policy, w, ByController(DoCancel(client, id), now), w.(store := CancelTask(w.store, client, id, now).store));
    OneMoreEvent(policy, w, ByController(DoRevoke(client), now), w.(store := RevokeClient(w.store, client, now).store));
  }

  lemma {:induction false} OwnVM(s: Store, j: nat, i: nat)
    requires Sound(s) && j < |s.tasks| && i < |s.runs| && s.runs[i].id == s.tasks[j].instance
    ensures s.runs[i].task == s.tasks[j].id && s.tasks[j].id != NONE
  {
    assert RowOK(s.runs[i]) && TaskOK(s.tasks[j]) && LinkedTask(s.runs, s.tasks[j]);
    InstanceAt(s.runs, i);
  }

  /** A placed task, and the row of its VM on this node. */
  predicate PlacedHere(policy: Policy, s: Store, j: nat, i: nat) {
    && j < |s.tasks| && i < |s.runs|
    && s.runs[i].id == s.tasks[j].instance && s.runs[i].node == policy.node
  }

  /** Cancelling a placed task ends its VM: however the system goes on, the VM
      is gone from the controller and from the host after more error-free agent
      steps than four for each VM ever placed there. */
  lemma {:induction false} CancelEndsVM(policy: Policy, w: World, client: Key, now: int, j: nat, i: nat, ws: seq<World>, ms: seq<Move>)
    requires Reachable(policy, w) && policy.ceiling.NonNegative() && PlacedHere(policy, w.store, j, i)
    requires CancelTask(w.store, client, w.store.tasks[j].id, now).reply == Ok(true)
    requires Journey(policy, ws, ms) && RegularJourney(ws, ms)
    requires ws[0] == w.(store := CancelTask(w.store, client, w.store.tasks[j].id, now).store)
    requires 4 * Placed(policy.node, ws[|ms|].store.runs) < Smooths(ms, |ms|)
    ensures GoneFrom(ws[|ms|], w.store.tasks[j].instance)
  {
    var id := w.store.tasks[j].instance;
    assert Leaving(policy.node, ws[0], i, id) by {
      ReachableSound(policy, w);
      CancelTells(w.store, client, now, j, i);
      OwnVM(w.store, j, i);
    }
    EndingHappens(policy, w, client, w.store.tasks[j].id, now);
    LeavingEnds(policy, ws, ms, i, id);
  }

  /** So does the VM of every task that revoking a client cancels. */
  lemma {:induction false} RevokeEndsVMs(policy: Policy, w: World, client: Key, now: int, j: nat, i: nat, ws: seq<World>, ms: seq<Move>)
    requires Reachable(policy, w) && policy.ceiling.NonNegative() && PlacedHere(policy, w.store, j, i) && client in w.store.clients
    requires !w.store.tasks[j].cancelled && RevokeClient(w.store, client, now).store.tasks[j].cancelled
    requires Journey(policy, ws, ms) && RegularJourney(ws, ms)
    requires ws[0] == w.(store := RevokeClient(w.store, client, now).store)
    requires 4 * Placed(policy.node, ws[|ms|].store.runs) < Smooths(ms, |ms|)
    ensures GoneFrom(ws[|ms|], w.store.tasks[j].instance)
  {
    var id := w.store.tasks[j].instance;
    assert Leaving(policy.node, ws[0], i, id) by {
      ReachableSound(policy, w);
      RevokeTells(w.store, client, now, j, i);
      OwnVM(w.store, j, i);
    }
    EndingHappens(policy, w, client, NONE, now);
    LeavingEnds(policy, ws, ms, i, id);
  }
}
