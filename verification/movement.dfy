/** How transactions move instance rows: only a node's own report releases
    resources, everything else leaves holds and release states alone. */
module Movement {
  import opened Resources
  import opened Model
  import opened Order
  import opened Validate
  import opened Ledger
  import opened Capacity
  import opened Placement
  import opened State
  import opened Transactions
  import opened Sync
  import opened Consistency

  /** A row after a transaction other than its node's report: it holds what
      it held, and it is active exactly if it was. */
  predicate Steady(a: Instance, b: Instance) {
    && b.id == a.id && b.request == a.request && b.node == a.node && b.pool == a.pool && b.image == a.image
    && b.reservation == a.reservation && b.task == a.task && b.created == a.created && b.deadline == a.deadline
    && b.held == a.held && (a.jitReady ==> b.jitReady)
    && (if a.Active() then b.Active() else b.state == a.state)
    && (RowOK(a) ==> RowOK(b))
  }

  ghost predicate SteadyAll(before: seq<Instance>, after: seq<Instance>) {
    |after| == |before| && forall i | 0 <= i < |before| :: Steady(before[i], after[i])
  }

  lemma {:induction false} SteadyShrinks(a: Instance, b: Instance)
    requires Steady(a, b) && HoldingOK(a)
    ensures Shrinks(a, b) && SameRow(a, b)
    ensures b.state == Deleted <==> a.state == Deleted
  {
  }

  lemma {:induction false} SaveSteady(runs: seq<Instance>, a: Instance, b: Instance)
    requires UniqueInstances(runs) && FindInstance(runs, b.id) == Some(a) && Steady(a, b)
    ensures SteadyAll(runs, SaveInstance(runs, b))
    ensures a in runs
    ensures forall i | 0 <= i < |runs| :: SaveInstance(runs, b)[i] == if runs[i] == a then b else runs[i]
  {
    FindInstanceSound(runs, b.id);
    SavedRuns(runs, a, b);
  }

  lemma {:induction false} SetJITSteady(s: Store, id: Key, runnerID: int, size: nat, now: int)
    requires UniqueInstances(s.runs)
    ensures SteadyAll(s.runs, SetJIT(s, id, runnerID, size, now).store.runs)
  {
    FindInstanceSound(s.runs, id);
    var a := FindInstance(s.runs, id);
    if size > 0 && size <= MAX_JIT && runnerID > 0 && a.Some? && !a.value.jitReady && a.value.state == Reserved {
      SaveSteady(s.runs, a.value,
                 a.value.(jitReady := true, runnerID := runnerID, state := Provisioning, updated := now, jit := size));
    }
  }

  lemma {:induction false} PersistSteady(s: Store, id: MessageID, pool: Key, desired: int, events: seq<RunnerEvent>, hold: bool, now: int)
    ensures SteadyAll(s.runs, PersistMessage(s, id, pool, desired, events, hold, now).store.runs)
  {
  }

  lemma {:induction false} StoppingSteady(a: Instance, updated: int)
    requires a.Active()
    ensures Steady(a, a.(state := Stopping, updated := updated))
  {
  }

  lemma {:induction false} SaveStopping(runs: seq<Instance>, id: Key, updated: int)
    requires UniqueInstances(runs)
    requires FindInstance(runs, id).Some? && FindInstance(runs, id).value.Active()
    ensures SteadyAll(runs, SaveInstance(runs, FindInstance(runs, id).value.(state := Stopping, updated := updated)))
  {
    FindInstanceSound(runs, id);
    var a := FindInstance(runs, id).value;
    StoppingSteady(a, updated);
    SaveSteady(runs, a, a.(state := Stopping, updated := updated));
  }

  lemma {:induction false} SameSteady(runs: seq<Instance>)
    ensures SteadyAll(runs, runs)
  {
  }

  lemma {:induction false} StopSteady(s: Store, id: Key)
    requires UniqueInstances(s.runs)
    ensures SteadyAll(s.runs, StopInstance(s, id).store.runs)
  {
    SameSteady(s.runs);
    var a := FindInstance(s.runs, id);
    if a.Some? && a.value.Active() {
      SaveStopping(s.runs, id, a.value.updated);
      assert a.value.(state := Stopping) == a.value.(state := Stopping, updated := a.value.updated);
    }
  }

  lemma {:induction false} CancelSteady(s: Store, client: Key, id: Key, now: int)
    requires UniqueInstances(s.runs)
    ensures SteadyAll(s.runs, CancelTask(s, client, id, now).store.runs)
  {
    SameSteady(s.runs);
    var runs := CancelTask(s, client, id, now).store.runs;
    if runs != s.runs {
      SaveStopping(s.runs, FindTask(s.tasks, id).value.instance, now);
    }
  }

  lemma {:induction false} RevokeSteady(s: Store, client: Key, now: int)
    requires UniqueInstances(s.runs)
    ensures SteadyAll(s.runs, RevokeClient(s, client, now).store.runs)
  {
    SameSteady(s.runs);
    forall i | 0 <= i < |s.runs|
      ensures Steady(s.runs[i], StopFor(s.runs, s.tasks, client, s.runs[i], now))
    {
      InstanceAt(s.runs, i);
      if StopFor(s.runs, s.tasks, client, s.runs[i], now) != s.runs[i] {
        StoppingSteady(s.runs[i], now);
      }
    }
  }

  /** The node's own report is the only step that lets go of resources, and
      it does so row by row, against what the host says. */
  lemma {:induction false} SyncShrinks(node: Key, vms: seq<VMReport>, now: int, a: Instance)
    requires HoldingOK(a) && RowOK(a)
    requires Concerns(node, a) ==> RowFault(a, StateOf(vms, a.id)).None?
    ensures var b := SyncRow(node, vms, now, a);
            && Shrinks(a, b) && SameRow(a, b) && RowOK(b)
            && (b.held != a.held ==> a.node == node && StateOf(vms, a.id) in {Some(VMStopped), Some(VMDeleted)})
            && (b.state == Deleted && a.state != Deleted ==>
                  a.state == Deleting && StateOf(vms, a.id) == Some(VMDeleted))
  {
  }

  lemma {:induction false} NoRowFault(node: Key, vms: seq<VMReport>, runs: seq<Instance>, i: nat)
    requires RowsFault(node, vms, runs).None? && i < |runs| && Concerns(node, runs[i])
    ensures RowFault(runs[i], StateOf(vms, runs[i].id)).None?
  {
    if i < |runs| - 1 {
      assert Init(runs)[i] == runs[i];
      NoRowFault(node, vms, Init(runs), i);
    }
  }

  // ---- Placements ----

  /** The row dispatchTx and Allocate insert, as placeTx chose it. */
  predicate FromPlacement(x: Instance, y: Instance) {
    && y.(state := x.state, task := x.task, jitReady := x.jitReady) == x
    && y.Active()
  }

  /** placeTx finds a node that can host the VM, whenever there is one, and
      adding the VM keeps the ledger. */
  lemma {:induction false} PlaceSound(c: Config, p: Pool, runs: seq<Instance>, obs: map<Key, Observation>, id: Key, request: Request, now: int, y: Instance)
    returns (n: Node)
    requires Valid(c) && Balanced(c, runs) && c.Pool(p.name) == Some(p)
    requires Place(c, p, runs, obs, id, request, now).Ok?
    requires FromPlacement(Place(c, p, runs, obs, id, request, now).value, y)
    ensures n in c.nodes && y.node == n.name && Feasible(c, p, runs, obs, now, n)
    ensures y.held == p.Charge() && y.pool == p && y.id == id && y.request == request && y.jit == 0
    ensures y.reservation == FreeSlot(c, c.reservations, n.name, runs, p.name)
    ensures c.Image(p.image) == Some(y.image)
    ensures Balanced(c, runs + [y])
    ensures HoldingOK(y) && (id != NONE ==> ValidInstance(y))
  {
    CandidatesDetermined(c, p, runs, obs, now, Candidates(c, p, runs, obs, now));
    var i := HeadIsRow(c, p, runs, obs, now);
    n := c.nodes[i];
    FindPoolSound(c.pools, p.name);
    var j :| 0 <= j < |c.pools| && c.pools[j] == p;
    assert PoolOK(c, c.pools[j]);
    FeasibleRow(c, p, runs, obs, now, n);
    PlacedValid(c, p, n, j);
    PlacementKeepsBalance(c, p, runs, obs, now, n, y);
    assert (runs + [y])[|runs|] == y;
  }

  /** An enabled pool of an accepted configuration fits some node, so its
      size is one that hosts accept. */
  lemma {:induction false} PlacedValid(c: Config, p: Pool, n: Node, j: nat)
    requires Valid(c) && j < |c.pools| && c.pools[j] == p && p.enabled && n in c.nodes
    ensures p.SizesOK() && p.Charge().Valid() && p.name != NONE && n.name != NONE
    ensures c.Image(p.image).Some? && c.Image(p.image).value.digest != NONE
  {
    assert PoolOK(c, c.pools[j]);
    var i :| 0 <= i < |c.nodes| && Eligible(p, c.nodes[i]) && p.Charge().Fits(c.nodes[i].budget);
    assert NodeOK(c.nodes[i]);
    var k :| 0 <= k < |c.nodes| && c.nodes[k] == n;
    assert NodeOK(c.nodes[k]);
    FindImageSound(c.images, p.image);
    var m :| 0 <= m < |c.images| && c.images[m] == c.Image(p.image).value;
    assert ImageOK(c.images[m]);
  }
}
