/** Which node a VM is placed on, told by configuration, rows and reports: the
    meaning of candidates and placeTx. */
module Choice {
  import opened Resources
  import opened Model
  import opened Order
  import opened Validate
  import opened Ledger
  import opened Placement
  import opened State
  import opened Transactions

  // ---- Room ----

  /** What a node has given away: its reservations in full, and what the VMs
      outside every reservation hold. */
  function Promised(c: Config, runs: seq<Instance>, node: Key, k: Kind): int {
    ReservedOf(c, c.reservations, node, k) + GeneralOf(runs, node, k)
  }

  predicate SlotOpen(runs: seq<Instance>, r: Reservation, node: Key, pool: Key) {
    r.node == node && r.pool == pool && UsedSlots(runs, r.name) < r.slots
  }

  /** The pool has an unused reserved slot on the node. */
  predicate Open(c: Config, runs: seq<Instance>, node: Key, pool: Key) {
    exists j | 0 <= j < |c.reservations| :: SlotOpen(runs, c.reservations[j], node, pool)
  }

  /** A reserved slot needs no budget of its own; the disk beneath everything
      promised must exist, with 2 GiB to spare. */
  predicate HasRoom(c: Config, p: Pool, runs: seq<Instance>, o: Observation, n: Node) {
    if Open(c, runs, n.name, p.name) then Promised(c, runs, n.name, Disk) + 2 <= o.freeDiskGiB
    else
      && (forall k: Kind :: Promised(c, runs, n.name, k) + p.Charge().Of(k) <= n.budget.Of(k))
      && Promised(c, runs, n.name, Disk) + p.Charge().disk + 2 <= o.freeDiskGiB
  }

  predicate Allows(p: Pool, n: Node) {
    && p.name in n.allowedPools
    && (p.nodeName == NONE || p.nodeName == n.name)
    && forall k | k in p.nodeSelector :: p.nodeSelector[k] == if k in n.labels then n.labels[k] else NONE
  }

  predicate Healthy(o: Observation, now: int, n: Node) {
    o.ready && !o.drained && o.isolation && 0 <= now - o.seen <= 45_000_000_000 && n.budget.Fits(o.ceiling)
  }

  predicate CanHost(c: Config, p: Pool, runs: seq<Instance>, obs: map<Key, Observation>, now: int, n: Node) {
    && p.enabled && Allows(p, n) && CountPool(runs, p.name) < p.maxRunners
    && n.name in obs && Healthy(obs[n.name], now, n)
    && c.Image(p.image).Some? && c.Image(p.image).value.digest in obs[n.name].digests
    && HasRoom(c, p, runs, obs[n.name], n)
  }

  // ---- A row without reasons ----

  lemma {:induction false} OpenIff(c: Config, runs: seq<Instance>, node: Key, pool: Key)
    requires Valid(c) && Books(c, runs)
    ensures forall j | 0 <= j < |c.reservations| ::
              Offers(c, c.reservations[j], node, runs, pool) <==> SlotOpen(runs, c.reservations[j], node, pool)
    ensures FreeSlot(c, c.reservations, node, runs, pool) != NONE <==> Open(c, runs, node, pool)
  {
    forall j | 0 <= j < |c.reservations|
      ensures Offers(c, c.reservations[j], node, runs, pool) <==> SlotOpen(runs, c.reservations[j], node, pool)
    {
      ProtectionBalances(c, runs, j);
      assert Accounted(c, runs, c.reservations[j]);
    }
    AllAccounted(c, runs, node);
    FreeSlotSound(c, c.reservations, node, runs, pool);
  }

  lemma {:induction false} TotalPromised(c: Config, runs: seq<Instance>, node: Key)
    requires Valid(c) && Books(c, runs)
    ensures forall k: Kind :: HeldOf(runs, node, k) + ProtectedOf(c, c.reservations, node, runs, k) == Promised(c, runs, node, k)
  {
    forall k: Kind
      ensures HeldOf(runs, node, k) + ProtectedOf(c, c.reservations, node, runs, k) == Promised(c, runs, node, k)
    {
      Conservation(c, runs, node, k);
    }
  }

  lemma {:induction false} RoomIff(c: Config, p: Pool, runs: seq<Instance>, o: Observation, n: Node)
    requires Valid(c) && Balanced(c, runs) && n in c.nodes && p.Charge().NonNegative()
    ensures HasRoom(c, p, runs, o, n)
       <==> p.Charge().Fits(Available(c, p, runs, n)) && p.Charge().disk <= Physical(c, p, runs, o, n)
  {
    OpenIff(c, runs, n.name, p.name);
    TotalPromised(c, runs, n.name);
    var charge, left := p.Charge(), Available(c, p, runs, n);
    FitsByKind(charge, left);
    assert forall k: Kind :: left.Of(k) == n.budget.Of(k) - Promised(c, runs, n.name, k)
                               + if Open(c, runs, n.name, p.name) then charge.Of(k) else 0;
    assert forall k: Kind :: 0 <= charge.Of(k);
    assert forall k: Kind :: Promised(c, runs, n.name, k) <= n.budget.Of(k) by {
      assert Committed(c, runs, n);
      CommittedByKind(c, runs, n);
      assert forall k: Kind :: WithinBudget(c, runs, n, k);
    }
  }

  lemma {:induction false} NoReasons(a: seq<Reason>, b: seq<Reason>)
    ensures a + b == [] <==> a == [] && b == []
  {
    if a + b == [] {
      assert |a + b| == |a| + |b|;
    }
  }

  lemma {:induction false} EarlyIff(c: Config, p: Pool, runs: seq<Instance>, obs: map<Key, Observation>, now: int, n: Node)
    requires c.Image(p.image).Some?
    ensures EarlyReasons(c, p, runs, obs, now, n) == []
       <==> && OwnersOK(c, runs) && p.enabled && Allows(p, n) && CountPool(runs, p.name) < p.maxRunners
            && n.name in obs && Healthy(obs[n.name], now, n) && c.Image(p.image).value.digest in obs[n.name].digests
  {
  }

  /** candidates finds nothing against a node exactly when it can host the
      pool. */
  lemma {:induction false} FeasibleExactly(c: Config, p: Pool, runs: seq<Instance>, obs: map<Key, Observation>, now: int, n: Node)
    requires Valid(c) && Balanced(c, runs) && c.Pool(p.name) == Some(p) && n in c.nodes
    ensures Row(c, p, runs, obs, now, n).reasons == [] <==> CanHost(c, p, runs, obs, now, n)
  {
    ChargeBounded(c, p.name);
    PoolKnown(c, p);
    AllAccounted(c, runs, n.name);
    EarlyIff(c, p, runs, obs, now, n);
    RoomIff(c, p, runs, ReportOf(obs, n.name), n);
    var early, budget, disk := EarlyReasons(c, p, runs, obs, now, n),
                               If(!p.Charge().Fits(Available(c, p, runs, n)), INSUFFICIENT_BUDGET),
                               If(Physical(c, p, runs, ReportOf(obs, n.name), n) < p.Charge().disk, INSUFFICIENT_PHYSICAL_DISK);
    NoReasons(early, Complaints(c, c.reservations, n.name, runs));
    NoReasons(early + Complaints(c, c.reservations, n.name, runs), budget);
    NoReasons(early + Complaints(c, c.reservations, n.name, runs) + budget, disk);
  }

  lemma {:induction false} PoolKnown(c: Config, p: Pool)
    requires Valid(c) && c.Pool(p.name) == Some(p)
    ensures c.Image(p.image).Some? && p.Charge().NonNegative()
  {
    FindPoolSound(c.pools, p.name);
    var j :| 0 <= j < |c.pools| && c.pools[j] == p;
    assert PoolOK(c, c.pools[j]);
  }

  // ---- The order of the rows ----

  /** Feasible rows first, then rows with a reserved slot, then the least
      memory left, then the name. */
  predicate Precedes(a: Candidate, b: Candidate) {
    && (b.reasons == [] ==> a.reasons == [])
    && ((a.reasons == [] <==> b.reasons == []) ==>
          && (b.reservation != NONE ==> a.reservation != NONE)
          && ((a.reservation != NONE <==> b.reservation != NONE) ==>
                && a.available.memory <= b.available.memory
                && (a.available.memory == b.available.memory ==> a.node <= b.node)))
  }

  lemma {:induction false} PrecedesIff(a: Candidate, b: Candidate)
    ensures Precedes(a, b) <==> !RowLess(b, a)
  {
  }

  lemma {:induction false} CandidatesOrdered(c: Config, p: Pool, runs: seq<Instance>, obs: map<Key, Observation>, now: int, i: nat, j: nat)
    requires UniqueNodes(c.nodes) && i < j < |Candidates(c, p, runs, obs, now)|
    ensures Precedes(Candidates(c, p, runs, obs, now)[i], Candidates(c, p, runs, obs, now)[j])
  {
    var rows := Candidates(c, p, runs, obs, now);
    CandidatesDetermined(c, p, runs, obs, now, rows);
    PrecedesIff(rows[i], rows[j]);
  }

  // ---- The choice ----

  /** Memory left on the node; a reserved slot counts as free. */
  function Left(c: Config, p: Pool, runs: seq<Instance>, n: Node): int {
    n.budget.memory - Promised(c, runs, n.name, Memory) + if Open(c, runs, n.name, p.name) then p.Charge().memory else 0
  }

  predicate AtLeastAsGood(c: Config, p: Pool, runs: seq<Instance>, n: Node, m: Node) {
    && (Open(c, runs, m.name, p.name) ==> Open(c, runs, n.name, p.name))
    && ((Open(c, runs, m.name, p.name) <==> Open(c, runs, n.name, p.name)) ==>
          Left(c, p, runs, n) < Left(c, p, runs, m) || (Left(c, p, runs, n) == Left(c, p, runs, m) && n.name <= m.name))
  }

  ghost predicate Best(c: Config, p: Pool, runs: seq<Instance>, obs: map<Key, Observation>, now: int, n: Node) {
    && n in c.nodes && CanHost(c, p, runs, obs, now, n)
    && forall m | m in c.nodes && CanHost(c, p, runs, obs, now, m) :: AtLeastAsGood(c, p, runs, n, m)
  }

  /** The first reservation of the pool on the node with an open slot, in the
      order of the configuration; NONE where there is none. */
  ghost predicate FirstSlot(c: Config, runs: seq<Instance>, node: Key, pool: Key, name: Key) {
    if Open(c, runs, node, pool) then
      exists j | 0 <= j < |c.reservations| ::
        && SlotOpen(runs, c.reservations[j], node, pool) && c.reservations[j].name == name
        && forall i | 0 <= i < j :: !SlotOpen(runs, c.reservations[i], node, pool)
    else name == NONE
  }

  lemma {:induction false} FreeSlotFirst(c: Config, rs: seq<Reservation>, node: Key, runs: seq<Instance>, pool: Key)
    requires forall i | 0 <= i < |rs| :: rs[i].name != NONE
    ensures FreeSlot(c, rs, node, runs, pool) != NONE ==>
              exists j | 0 <= j < |rs| :: Offers(c, rs[j], node, runs, pool) && rs[j].name == FreeSlot(c, rs, node, runs, pool)
                                          && forall i | 0 <= i < j :: !Offers(c, rs[i], node, runs, pool)
  {
    if rs != [] {
      var front := rs[..|rs| - 1];
      assert forall i | 0 <= i < |front| :: front[i] == rs[i];
      FreeSlotFirst(c, front, node, runs, pool);
      FreeSlotSound(c, front, node, runs, pool);
      if FreeSlot(c, front, node, runs, pool) != NONE {
        var j :| 0 <= j < |front| && Offers(c, front[j], node, runs, pool) && front[j].name == FreeSlot(c, front, node, runs, pool)
                 && forall i | 0 <= i < j :: !Offers(c, front[i], node, runs, pool);
        assert Offers(c, rs[j], node, runs, pool);
      }
    }
  }

  lemma {:induction false} RowSlot(c: Config, runs: seq<Instance>, node: Key, pool: Key)
    requires Valid(c) && Books(c, runs)
    ensures FirstSlot(c, runs, node, pool, FreeSlot(c, c.reservations, node, runs, pool))
  {
    OpenIff(c, runs, node, pool);
    AllAccounted(c, runs, node);
    FreeSlotFirst(c, c.reservations, node, runs, pool);
    if Open(c, runs, node, pool) {
      var j :| 0 <= j < |c.reservations| && Offers(c, c.reservations[j], node, runs, pool)
               && c.reservations[j].name == FreeSlot(c, c.reservations, node, runs, pool)
               && forall i | 0 <= i < j :: !Offers(c, c.reservations[i], node, runs, pool);
      assert SlotOpen(runs, c.reservations[j], node, pool);
    }
  }

  /** What a node's row says. */
  ghost predicate Describes(c: Config, p: Pool, runs: seq<Instance>, obs: map<Key, Observation>, now: int, n: Node, row: Candidate) {
    && row.node == n.name && (row.reasons == [] <==> CanHost(c, p, runs, obs, now, n))
    && (row.reservation != NONE <==> Open(c, runs, n.name, p.name)) && FirstSlot(c, runs, n.name, p.name, row.reservation)
    && row.available.memory == Left(c, p, runs, n)
  }

  lemma {:induction false} RowFacts(c: Config, p: Pool, runs: seq<Instance>, obs: map<Key, Observation>, now: int, n: Node)
    requires Valid(c) && Balanced(c, runs) && c.Pool(p.name) == Some(p) && n in c.nodes
    ensures Describes(c, p, runs, obs, now, n, Row(c, p, runs, obs, now, n))
  {
    FeasibleExactly(c, p, runs, obs, now, n);
    OpenIff(c, runs, n.name, p.name);
    RowSlot(c, runs, n.name, p.name);
    Conservation(c, runs, n.name, Memory);
  }

  lemma {:induction false} RowBeats(c: Config, p: Pool, runs: seq<Instance>, obs: map<Key, Observation>, now: int,
                                    n: Node, a: Candidate, m: Node, b: Candidate)
    requires Describes(c, p, runs, obs, now, n, a) && Describes(c, p, runs, obs, now, m, b)
    requires Precedes(a, b) && a.reasons == [] && b.reasons == []
    ensures AtLeastAsGood(c, p, runs, n, m)
  {
  }

  lemma {:induction false} RowListed(c: Config, p: Pool, runs: seq<Instance>, obs: map<Key, Observation>, now: int, m: nat)
    requires m < |c.nodes|
    ensures Row(c, p, runs, obs, now, c.nodes[m]) in Candidates(c, p, runs, obs, now)
  {
    var raw := Rows(c, p, runs, obs, now, c.nodes);
    RowsAt(c, p, runs, obs, now, c.nodes);
    SortPermutes(RowLess, raw);
    assert raw[m] in raw;
  }

  lemma {:induction false} HeadPrecedes(c: Config, p: Pool, runs: seq<Instance>, obs: map<Key, Observation>, now: int, m: nat)
    requires UniqueNodes(c.nodes) && m < |c.nodes|
    ensures Candidates(c, p, runs, obs, now) != []
    ensures Precedes(Candidates(c, p, runs, obs, now)[0], Row(c, p, runs, obs, now, c.nodes[m]))
  {
    var rows := Candidates(c, p, runs, obs, now);
    RowListed(c, p, runs, obs, now, m);
    var j :| 0 <= j < |rows| && rows[j] == Row(c, p, runs, obs, now, c.nodes[m]);
    if j > 0 {
      CandidatesOrdered(c, p, runs, obs, now, 0, j);
    }
  }

  lemma {:induction false} HeadBest(c: Config, p: Pool, runs: seq<Instance>, obs: map<Key, Observation>, now: int, n: Node)
    requires Valid(c) && Balanced(c, runs) && c.Pool(p.name) == Some(p) && n in c.nodes
    requires Candidates(c, p, runs, obs, now) != [] && Candidates(c, p, runs, obs, now)[0] == Row(c, p, runs, obs, now, n)
    requires Row(c, p, runs, obs, now, n).reasons == []
    ensures Best(c, p, runs, obs, now, n)
  {
    var row := Row(c, p, runs, obs, now, n);
    RowFacts(c, p, runs, obs, now, n);
    forall m | m in c.nodes && CanHost(c, p, runs, obs, now, m)
      ensures AtLeastAsGood(c, p, runs, n, m)
    {
      var j :| 0 <= j < |c.nodes| && c.nodes[j] == m;
      RowFacts(c, p, runs, obs, now, m);
      HeadPrecedes(c, p, runs, obs, now, j);
      RowBeats(c, p, runs, obs, now, n, row, m, Row(c, p, runs, obs, now, m));
    }
  }

  /** The row a placement inserts. */
  predicate Fresh(c: Config, p: Pool, n: Node, slot: Key, id: Key, request: Request, now: int, x: Instance) {
    && x.id == id && x.request == request && x.node == n.name && x.reservation == slot
    && x.pool == p && c.Image(p.image) == Some(x.image)
    && x.held == Resources(p.vcpu, p.memoryMiB + p.overheadMiB, p.rootGiB + p.scratchGiB + p.diskOverheadGiB)
    && x.state == Reserved && x.runnerID == 0 && x.result == NONE && !x.jitReady && x.task == NONE && x.jit == 0
    && x.created == now && x.updated == now && x.deadline == now + (p.executionMinutes + 10) * 60_000_000_000
  }

  lemma {:induction false} PlaceIff(c: Config, p: Pool, runs: seq<Instance>, obs: map<Key, Observation>, id: Key, request: Request, now: int)
    requires Valid(c) && Balanced(c, runs) && c.Pool(p.name) == Some(p)
    ensures var r := Place(c, p, runs, obs, id, request, now);
            && (r.Ok? <==> exists n :: n in c.nodes && CanHost(c, p, runs, obs, now, n))
            && (r.Err? ==> r.fault == NoCapacity)
  {
    HeadFeasible(c, p, runs, obs, now);
    forall i | 0 <= i < |c.nodes|
      ensures Feasible(c, p, runs, obs, now, c.nodes[i]) <==> CanHost(c, p, runs, obs, now, c.nodes[i])
    {
      FeasibleExactly(c, p, runs, obs, now, c.nodes[i]);
    }
  }

  lemma {:induction false} PlacedFresh(c: Config, p: Pool, runs: seq<Instance>, obs: map<Key, Observation>, id: Key, request: Request, now: int,
                                       n: Node)
    requires Place(c, p, runs, obs, id, request, now).Ok? && c.Image(p.image).Some?
    requires Candidates(c, p, runs, obs, now)[0] == Row(c, p, runs, obs, now, n)
    ensures var x := Place(c, p, runs, obs, id, request, now).value;
            x.reservation == Row(c, p, runs, obs, now, n).reservation && Fresh(c, p, n, x.reservation, id, request, now, x)
  {
  }

  /** A VM is placed exactly when some node can host it, and then on the best
      one: in a reserved slot if any node that can host it has one, where the
      least memory is left, first by name. */
  lemma {:induction false} PlacedWell(c: Config, p: Pool, runs: seq<Instance>, obs: map<Key, Observation>, id: Key, request: Request, now: int)
    requires Valid(c) && Balanced(c, runs) && c.Pool(p.name) == Some(p)
    ensures var r := Place(c, p, runs, obs, id, request, now);
            && (r.Ok? <==> exists n :: n in c.nodes && CanHost(c, p, runs, obs, now, n))
            && (r.Err? ==> r.fault == NoCapacity)
            && (r.Ok? ==> exists n :: Best(c, p, runs, obs, now, n)
                                      && FirstSlot(c, runs, n.name, p.name, r.value.reservation)
                                      && Fresh(c, p, n, r.value.reservation, id, request, now, r.value))
  {
    var r := Place(c, p, runs, obs, id, request, now);
    PlaceIff(c, p, runs, obs, id, request, now);
    if r.Ok? {
      var k := HeadIsRow(c, p, runs, obs, now);
      var n := c.nodes[k];
      PoolKnown(c, p);
      PlacedFresh(c, p, runs, obs, id, request, now, n);
      RowFacts(c, p, runs, obs, now, n);
      HeadBest(c, p, runs, obs, now, n);
    }
  }

  // ---- What an accepted configuration promises ----

  /** An unused reserved slot can be taken on its own node whenever the node is
      healthy and has the image, and the disk beneath what is promised. */
  lemma {:induction false} SlotHosts(c: Config, p: Pool, runs: seq<Instance>, obs: map<Key, Observation>, now: int, j: nat, n: Node)
    requires Valid(c) && c.Pool(p.name) == Some(p) && j < |c.reservations|
    requires SlotOpen(runs, c.reservations[j], n.name, p.name) && c.Node(n.name) == Some(n)
    requires p.enabled && CountPool(runs, p.name) < p.maxRunners
    requires n.name in obs && Healthy(obs[n.name], now, n)
    requires c.Image(p.image).Some? && c.Image(p.image).value.digest in obs[n.name].digests
    requires Promised(c, runs, n.name, Disk) + 2 <= obs[n.name].freeDiskGiB
    ensures CanHost(c, p, runs, obs, now, n)
  {
    assert ReservationOK(c, c.reservations[j]);
  }

  lemma {:induction false} NothingPromised(c: Config, rs: seq<Reservation>, runs: seq<Instance>, node: Key, k: Kind)
    requires (forall j | 0 <= j < |rs| :: rs[j].node != node) && (forall i | 0 <= i < |runs| :: runs[i].node != node)
    ensures ReservedOf(c, rs, node, k) == 0 && GeneralOf(runs, node, k) == 0
  {
    if rs != [] {
      NothingPromised(c, rs[..|rs| - 1], runs, node, k);
    } else if runs != [] {
      assert runs[|runs| - 1].node != node;
      NothingPromised(c, rs, Init(runs), node, k);
    }
  }

  /** Every enabled pool has a node that can host it while it is empty,
      unreserved, healthy and large enough. */
  lemma {:induction false} OfferedHosts(c: Config, j: nat) returns (n: Node)
    requires Valid(c) && j < |c.pools| && c.pools[j].enabled
    ensures n in c.nodes
    ensures forall runs: seq<Instance>, obs: map<Key, Observation>, now: int |
              && (forall m | 0 <= m < |c.reservations| :: c.reservations[m].node != n.name)
              && (forall i | 0 <= i < |runs| :: runs[i].node != n.name)
              && CountPool(runs, c.pools[j].name) < c.pools[j].maxRunners
              && n.name in obs && Healthy(obs[n.name], now, n)
              && c.Image(c.pools[j].image).Some? && c.Image(c.pools[j].image).value.digest in obs[n.name].digests
              && c.pools[j].Charge().disk + 2 <= obs[n.name].freeDiskGiB ::
              CanHost(c, c.pools[j], runs, obs, now, n)
  {
    var p := c.pools[j];
    assert PoolOK(c, p);
    var i :| 0 <= i < |c.nodes| && Eligible(p, c.nodes[i]) && p.Charge().Fits(c.nodes[i].budget);
    n := c.nodes[i];
    forall runs: seq<Instance>, obs: map<Key, Observation>, now: int |
      && (forall m | 0 <= m < |c.reservations| :: c.reservations[m].node != n.name)
      && (forall i | 0 <= i < |runs| :: runs[i].node != n.name)
      && CountPool(runs, p.name) < p.maxRunners
      && n.name in obs && Healthy(obs[n.name], now, n)
      && c.Image(p.image).Some? && c.Image(p.image).value.digest in obs[n.name].digests
      && p.Charge().disk + 2 <= obs[n.name].freeDiskGiB
      ensures CanHost(c, p, runs, obs, now, n)
    {
      forall k: Kind
        ensures Promised(c, runs, n.name, k) + p.Charge().Of(k) <= n.budget.Of(k) && Promised(c, runs, n.name, k) == 0
      {
        NothingPromised(c, c.reservations, runs, n.name, k);
      }
      assert Promised(c, runs, n.name, Disk) == 0;
    }
  }
}
