/** candidates of internal/core/store.go and placeTx of internal/core/task.go:
    where a new VM may go. */
module Placement {
  import opened Resources
  import opened Model
  import opened Order
  import opened Validate
  import opened Ledger
  import opened Capacity

  datatype Reason =
    | RESERVATION_INCONSISTENT | POOL_DISABLED | NODE_NOT_ALLOWED | POOL_LIMIT | NODE_NOT_READY
    | NETWORK_NOT_VERIFIED | LOCAL_CEILING | IMAGE_MISSING | INSUFFICIENT_BUDGET | INSUFFICIENT_PHYSICAL_DISK

  datatype Candidate = Candidate(node: Key, available: Resources, reservation: Key, reasons: seq<Reason>)

  const FRESHNESS := 45 * SECOND

  /** The zero observation, read when a node never reported. */
  const NO_REPORT := Observation(0, 0, false, false, false, ZERO, 0, [])

  function ReportOf(obs: map<Key, Observation>, node: Key): Observation {
    if node in obs then obs[node] else NO_REPORT
  }

  predicate Unready(obs: map<Key, Observation>, node: Key, now: int) {
    || node !in obs
    || !obs[node].ready || obs[node].drained
    || now - obs[node].seen > FRESHNESS || now < obs[node].seen
  }

  function DigestOf(c: Config, image: Key): Key {
    match c.Image(image)
    case Some(im) => im.digest
    case None => NONE
  }

  function If(b: bool, r: Reason): seq<Reason> {
    if b then [r] else []
  }

  /** One complaint for every reservation on the node whose books fail. */
  function Complaints(c: Config, rs: seq<Reservation>, node: Key, runs: seq<Instance>): seq<Reason> {
    if rs == [] then []
    else
      var r := rs[|rs| - 1];
      Complaints(c, rs[..|rs| - 1], node, runs)
        + If(r.node == node && Protect(c, r, runs).Err?, RESERVATION_INCONSISTENT)
  }

  predicate Offers(c: Config, r: Reservation, node: Key, runs: seq<Instance>, pool: Key) {
    r.node == node && r.pool == pool && Protect(c, r, runs).Ok? && Protect(c, r, runs).value.unused > 0
  }

  /** The first reservation of the pool on the node with a free slot. */
  function FreeSlot(c: Config, rs: seq<Reservation>, node: Key, runs: seq<Instance>, pool: Key): Key {
    if rs == [] then NONE
    else
      var r := rs[|rs| - 1];
      var before := FreeSlot(c, rs[..|rs| - 1], node, runs, pool);
      if before != NONE then before else if Offers(c, r, node, runs, pool) then r.name else NONE
  }

  /** Reasons found before the reservations are looked at. */
  function EarlyReasons(c: Config, p: Pool, runs: seq<Instance>, obs: map<Key, Observation>, now: int, n: Node): seq<Reason> {
    var o := ReportOf(obs, n.name);
    If(!OwnersOK(c, runs), RESERVATION_INCONSISTENT)
    + If(!p.enabled, POOL_DISABLED)
    + If(!Eligible(p, n), NODE_NOT_ALLOWED)
    + If(CountPool(runs, p.name) >= p.maxRunners, POOL_LIMIT)
    + If(Unready(obs, n.name, now), NODE_NOT_READY)
    + If(!o.isolation, NETWORK_NOT_VERIFIED)
    + If(!n.budget.Fits(o.ceiling), LOCAL_CEILING)
    + If(DigestOf(c, p.image) !in o.digests, IMAGE_MISSING)
  }

  function Available(c: Config, p: Pool, runs: seq<Instance>, n: Node): Resources {
    var rest := n.budget.Sub(HeldOn(runs, n.name)).Sub(ProtectedOn(c, c.reservations, n.name, runs));
    if FreeSlot(c, c.reservations, n.name, runs, p.name) != NONE then rest.Add(p.Charge()) else rest
  }

  function Physical(c: Config, p: Pool, runs: seq<Instance>, o: Observation, n: Node): int {
    o.freeDiskGiB - 2 - HeldOf(runs, n.name, Disk) - ProtectedOf(c, c.reservations, n.name, runs, Disk)
    + if FreeSlot(c, c.reservations, n.name, runs, p.name) != NONE then p.Charge().disk else 0
  }

  function Row(c: Config, p: Pool, runs: seq<Instance>, obs: map<Key, Observation>, now: int, n: Node): Candidate {
    var available := Available(c, p, runs, n);
    Candidate(n.name, available, FreeSlot(c, c.reservations, n.name, runs, p.name),
              EarlyReasons(c, p, runs, obs, now, n)
              + Complaints(c, c.reservations, n.name, runs)
              + If(!p.Charge().Fits(available), INSUFFICIENT_BUDGET)
              + If(Physical(c, p, runs, ReportOf(obs, n.name), n) < p.Charge().disk, INSUFFICIENT_PHYSICAL_DISK))
  }

  function Rows(c: Config, p: Pool, runs: seq<Instance>, obs: map<Key, Observation>, now: int, ns: seq<Node>): seq<Candidate> {
    if ns == [] then []
    else Rows(c, p, runs, obs, now, ns[..|ns| - 1]) + [Row(c, p, runs, obs, now, ns[|ns| - 1])]
  }

  predicate RowLess(a: Candidate, b: Candidate) {
    if (a.reasons == []) != (b.reasons == []) then a.reasons == []
    else if (a.reservation != NONE) != (b.reservation != NONE) then a.reservation != NONE
    else if a.available.memory != b.available.memory then a.available.memory < b.available.memory
    else a.node < b.node
  }

  function Candidates(c: Config, p: Pool, runs: seq<Instance>, obs: map<Key, Observation>, now: int): seq<Candidate> {
    Sort(RowLess, Rows(c, p, runs, obs, now, c.nodes))
  }

  // ---- The imperative loops ----

  method ScanReservations(c: Config, p: Pool, runs: seq<Instance>, node: Key)
    returns (unused: Resources, reservation: Key, complaints: seq<Reason>)
    ensures unused == ProtectedOn(c, c.reservations, node, runs)
    ensures reservation == FreeSlot(c, c.reservations, node, runs, p.name)
    ensures complaints == Complaints(c, c.reservations, node, runs)
  {
    unused, reservation, complaints := ZERO, NONE, [];
    var rs := c.reservations;
    for i := 0 to |rs|
      invariant unused == ProtectedOn(c, rs[..i], node, runs)
      invariant reservation == FreeSlot(c, rs[..i], node, runs, p.name)
      invariant complaints == Complaints(c, rs[..i], node, runs)
    {
      var r := rs[i];
      assert rs[..i + 1][..i] == rs[..i];
      if r.node != node {
        continue;
      }
      var protected := ReservationProtection(c, r, runs);
      if protected.Err? {
        complaints := complaints + [RESERVATION_INCONSISTENT];
        continue;
      }
      unused := unused.Add(protected.value.amount);
      if protected.value.unused > 0 && r.pool == p.name && reservation == NONE {
        reservation := r.name;
      }
    }
    assert rs[..|rs|] == rs;
  }

  method CandidateRow(c: Config, p: Pool, runs: seq<Instance>, obs: map<Key, Observation>, now: int, n: Node,
                      owners: bool, count: int)
    returns (v: Candidate)
    requires owners == OwnersOK(c, runs) && count == CountPool(runs, p.name)
    ensures v == Row(c, p, runs, obs, now, n)
  {
    var o := ReportOf(obs, n.name);
    var reasons := If(!owners, RESERVATION_INCONSISTENT);
    reasons := reasons + If(!p.enabled, POOL_DISABLED);
    reasons := reasons + If(!Eligible(p, n), NODE_NOT_ALLOWED);
    reasons := reasons + If(count >= p.maxRunners, POOL_LIMIT);
    reasons := reasons + If(Unready(obs, n.name, now), NODE_NOT_READY);
    reasons := reasons + If(!o.isolation, NETWORK_NOT_VERIFIED);
    reasons := reasons + If(!n.budget.Fits(o.ceiling), LOCAL_CEILING);
    reasons := reasons + If(DigestOf(c, p.image) !in o.digests, IMAGE_MISSING);
    var held := SumHolds(runs, n.name);
    var unused, reservation, complaints := ScanReservations(c, p, runs, n.name);
    reasons := reasons + complaints;
    var available := n.budget.Sub(held).Sub(unused);
    var physical := o.freeDiskGiB - 2 - held.disk - unused.disk;
    if reservation != NONE {
      available := available.Add(p.Charge());
      physical := physical + p.Charge().disk;
    }
    reasons := reasons + If(!p.Charge().Fits(available), INSUFFICIENT_BUDGET);
    reasons := reasons + If(physical < p.Charge().disk, INSUFFICIENT_PHYSICAL_DISK);
    v := Candidate(n.name, available, reservation, reasons);
  }

  method FindCandidates(c: Config, p: Pool, runs: seq<Instance>, obs: map<Key, Observation>, now: int)
    returns (rows: seq<Candidate>)
    ensures rows == Candidates(c, p, runs, obs, now)
  {
    var owners := ValidateReservationOwners(c, runs);
    var count := CountHolders(runs, p.name);
    rows := [];
    for i := 0 to |c.nodes|
      invariant rows == Rows(c, p, runs, obs, now, c.nodes[..i])
    {
      assert c.nodes[..i + 1][..i] == c.nodes[..i];
      var v := CandidateRow(c, p, runs, obs, now, c.nodes[i], owners, count);
      rows := rows + [v];
    }
    assert c.nodes[..|c.nodes|] == c.nodes;
    rows := Sort(RowLess, rows);
  }

  // ---- The order is total, so the choice is deterministic ----

  lemma {:induction false} RowsAt(c: Config, p: Pool, runs: seq<Instance>, obs: map<Key, Observation>, now: int, ns: seq<Node>)
    ensures |Rows(c, p, runs, obs, now, ns)| == |ns|
    ensures forall i | 0 <= i < |ns| :: Rows(c, p, runs, obs, now, ns)[i] == Row(c, p, runs, obs, now, ns[i])
  {
    if ns != [] {
      RowsAt(c, p, runs, obs, now, ns[..|ns| - 1]);
    }
  }

  lemma {:induction false} RowOrderTotal(s: set<Candidate>)
    requires forall a, b | a in s && b in s && a.node == b.node :: a == b
    ensures StrictTotalOn(RowLess, s)
  {
  }

  lemma {:induction false} RowsTotal(c: Config, p: Pool, runs: seq<Instance>, obs: map<Key, Observation>, now: int)
    requires UniqueNodes(c.nodes)
    ensures StrictTotalOn(RowLess, Elements(Rows(c, p, runs, obs, now, c.nodes)))
  {
    var rows := Rows(c, p, runs, obs, now, c.nodes);
    RowsAt(c, p, runs, obs, now, c.nodes);
    forall a, b | a in Elements(rows) && b in Elements(rows) && a.node == b.node
      ensures a == b
    {
      var i :| 0 <= i < |rows| && rows[i] == a;
      var j :| 0 <= j < |rows| && rows[j] == b;
      assert c.nodes[i].name == c.nodes[j].name;
    }
    RowOrderTotal(Elements(rows));
  }

  ghost predicate Feasible(c: Config, p: Pool, runs: seq<Instance>, obs: map<Key, Observation>, now: int, n: Node) {
    Row(c, p, runs, obs, now, n).reasons == []
  }

  /** candidates lists every node once, in an order that no choice of
      sorting algorithm can change. */
  lemma {:induction false} CandidatesDetermined(c: Config, p: Pool, runs: seq<Instance>, obs: map<Key, Observation>, now: int, t: seq<Candidate>)
    requires UniqueNodes(c.nodes)
    ensures |Candidates(c, p, runs, obs, now)| == |c.nodes|
    ensures t == Candidates(c, p, runs, obs, now) <==>
            multiset(t) == multiset(Rows(c, p, runs, obs, now, c.nodes)) && Sorted(RowLess, t)
  {
    var raw := Rows(c, p, runs, obs, now, c.nodes);
    RowsAt(c, p, runs, obs, now, c.nodes);
    RowsTotal(c, p, runs, obs, now);
    SortPermutes(RowLess, raw);
    SortSorts(RowLess, raw);
    if multiset(t) == multiset(raw) && Sorted(RowLess, t) {
      SameElements(t, raw);
      assert Elements(t) == Elements(raw);
      SortUnique(RowLess, t, Sort(RowLess, raw));
    }
  }

  lemma {:induction false} HeadBest(rows: seq<Candidate>, i: nat)
    requires Sorted(RowLess, rows) && i < |rows| && rows[i].reasons == []
    ensures rows[0].reasons == []
  {
    assert i > 0 ==> !RowLess(rows[i], rows[0]);
  }

  lemma {:induction false} HeadIsRow(c: Config, p: Pool, runs: seq<Instance>, obs: map<Key, Observation>, now: int) returns (i: nat)
    requires UniqueNodes(c.nodes) && c.nodes != []
    ensures Candidates(c, p, runs, obs, now) != []
    ensures i < |c.nodes| && Candidates(c, p, runs, obs, now)[0] == Row(c, p, runs, obs, now, c.nodes[i])
  {
    var raw := Rows(c, p, runs, obs, now, c.nodes);
    var rows := Candidates(c, p, runs, obs, now);
    RowsAt(c, p, runs, obs, now, c.nodes);
    SortPermutes(RowLess, raw);
    assert rows[0] in raw;
    i :| 0 <= i < |raw| && raw[i] == rows[0];
  }

  lemma {:induction false} SortedHead(raw: seq<Candidate>, i: nat)
    requires i < |raw| && raw[i].reasons == [] && StrictTotalOn(RowLess, Elements(raw))
    ensures Sort(RowLess, raw) != [] && Sort(RowLess, raw)[0].reasons == []
  {
    var rows := Sort(RowLess, raw);
    SortPermutes(RowLess, raw);
    SortSorts(RowLess, raw);
    assert raw[i] in rows;
    var j :| 0 <= j < |rows| && rows[j] == raw[i];
    HeadBest(rows, j);
  }

  lemma {:induction false} FeasibleReachesHead(c: Config, p: Pool, runs: seq<Instance>, obs: map<Key, Observation>, now: int, i: nat)
    requires UniqueNodes(c.nodes) && i < |c.nodes| && Feasible(c, p, runs, obs, now, c.nodes[i])
    ensures Candidates(c, p, runs, obs, now) != [] && Candidates(c, p, runs, obs, now)[0].reasons == []
  {
    RowsAt(c, p, runs, obs, now, c.nodes);
    RowsTotal(c, p, runs, obs, now);
    SortedHead(Rows(c, p, runs, obs, now, c.nodes), i);
  }

  ghost predicate Placeable(c: Config, p: Pool, runs: seq<Instance>, obs: map<Key, Observation>, now: int) {
    exists i | 0 <= i < |c.nodes| :: Feasible(c, p, runs, obs, now, c.nodes[i])
  }

  /** Placement is complete: the head row is feasible exactly when some node
      is. */
  lemma {:induction false} HeadFeasible(c: Config, p: Pool, runs: seq<Instance>, obs: map<Key, Observation>, now: int)
    requires UniqueNodes(c.nodes)
    ensures (Candidates(c, p, runs, obs, now) != [] && Candidates(c, p, runs, obs, now)[0].reasons == [])
        <==> Placeable(c, p, runs, obs, now)
  {
    CandidatesDetermined(c, p, runs, obs, now, Candidates(c, p, runs, obs, now));
    if c.nodes != [] {
      var k := HeadIsRow(c, p, runs, obs, now);
      assert Candidates(c, p, runs, obs, now)[0].reasons == [] ==> Feasible(c, p, runs, obs, now, c.nodes[k]);
    }
    if Placeable(c, p, runs, obs, now) {
      var i :| 0 <= i < |c.nodes| && Feasible(c, p, runs, obs, now, c.nodes[i]);
      FeasibleReachesHead(c, p, runs, obs, now, i);
    }
  }

  // ---- What the ledger guarantees about rows ----

  lemma {:induction false} NoComplaints(c: Config, rs: seq<Reservation>, node: Key, runs: seq<Instance>)
    requires forall i | 0 <= i < |rs| :: Protect(c, rs[i], runs).Ok?
    ensures Complaints(c, rs, node, runs) == []
  {
    if rs != [] {
      NoComplaints(c, rs[..|rs| - 1], node, runs);
      assert Protect(c, rs[|rs| - 1], runs).Ok?;
    }
  }

  lemma {:induction false} FreeSlotSound(c: Config, rs: seq<Reservation>, node: Key, runs: seq<Instance>, pool: Key)
    requires forall i | 0 <= i < |rs| :: rs[i].name != NONE
    ensures FreeSlot(c, rs, node, runs, pool) != NONE <==> exists i | 0 <= i < |rs| :: Offers(c, rs[i], node, runs, pool)
    ensures FreeSlot(c, rs, node, runs, pool) != NONE ==>
              exists i | 0 <= i < |rs| :: rs[i].name == FreeSlot(c, rs, node, runs, pool) && Offers(c, rs[i], node, runs, pool)
  {
    if rs != [] {
      var front := rs[..|rs| - 1];
      FreeSlotSound(c, front, node, runs, pool);
      assert forall i | 0 <= i < |front| :: front[i] == rs[i];
    }
  }

  lemma {:induction false} AllAccounted(c: Config, runs: seq<Instance>, node: Key)
    requires Valid(c) && Books(c, runs)
    ensures forall j | 0 <= j < |c.reservations| :: Protect(c, c.reservations[j], runs).Ok? && c.reservations[j].name != NONE
    ensures Complaints(c, c.reservations, node, runs) == []
  {
    forall j | 0 <= j < |c.reservations|
      ensures Protect(c, c.reservations[j], runs).Ok? && c.reservations[j].name != NONE
    {
      ProtectionBalances(c, runs, j);
      assert ReservationOK(c, c.reservations[j]);
    }
    NoComplaints(c, c.reservations, node, runs);
  }

  lemma {:induction false} BudgetSuffices(c: Config, p: Pool, runs: seq<Instance>, n: Node)
    requires Committed(c, runs, n) && p.Charge().NonNegative()
    requires FreeSlot(c, c.reservations, n.name, runs, p.name) != NONE
    ensures p.Charge().Fits(Available(c, p, runs, n))
  {
  }

  /** The hard reservation guarantee: no row ever reports inconsistent
      reservations, and a node where the pool still has a free reserved slot
      never lacks budget for it, whatever else runs there and however far the
      reserved VMs are through their release. */
  lemma {:induction false} HardReservation(c: Config, p: Pool, runs: seq<Instance>, obs: map<Key, Observation>, now: int, i: nat)
    requires Valid(c) && Balanced(c, runs) && i < |c.nodes| && c.Pool(p.name) == Some(p)
    ensures var row := Row(c, p, runs, obs, now, c.nodes[i]);
            && RESERVATION_INCONSISTENT !in row.reasons
            && ((exists j | 0 <= j < |c.reservations| :: Offers(c, c.reservations[j], c.nodes[i].name, runs, p.name))
                ==> row.reservation != NONE && INSUFFICIENT_BUDGET !in row.reasons)
  {
    var n := c.nodes[i];
    var slot := FreeSlot(c, c.reservations, n.name, runs, p.name);
    assert Complaints(c, c.reservations, n.name, runs) == []
        && ((exists j | 0 <= j < |c.reservations| :: Offers(c, c.reservations[j], n.name, runs, p.name)) ==> slot != NONE) by {
      AllAccounted(c, runs, n.name);
      FreeSlotSound(c, c.reservations, n.name, runs, p.name);
    }
    assert slot != NONE ==> p.Charge().Fits(Available(c, p, runs, n)) by {
      ChargeBounded(c, p.name);
      assert Committed(c, runs, n);
      if slot != NONE {
        BudgetSuffices(c, p, runs, n);
      }
    }
    EarlyKinds(c, p, runs, obs, now, n);
  }

  lemma {:induction false} EarlyKinds(c: Config, p: Pool, runs: seq<Instance>, obs: map<Key, Observation>, now: int, n: Node)
    ensures INSUFFICIENT_BUDGET !in EarlyReasons(c, p, runs, obs, now, n)
    ensures OwnersOK(c, runs) ==> RESERVATION_INCONSISTENT !in EarlyReasons(c, p, runs, obs, now, n)
  {
  }

  /** Infeasible for lack of budget means what it says: for a feasible row
      without a reservation, everything committed there plus one more charge
      is within the node's budget. */
  lemma {:induction false} FeasibleRow(c: Config, p: Pool, runs: seq<Instance>, obs: map<Key, Observation>, now: int, n: Node)
    requires Feasible(c, p, runs, obs, now, n)
    ensures p.enabled && Eligible(p, n) && CountPool(runs, p.name) < p.maxRunners
    ensures n.name in obs && obs[n.name].ready && !obs[n.name].drained && obs[n.name].isolation
    ensures 0 <= now - obs[n.name].seen <= FRESHNESS
    ensures DigestOf(c, p.image) in obs[n.name].digests
    ensures FreeSlot(c, c.reservations, n.name, runs, p.name) == NONE ==>
              forall k: Kind :: Total(c, runs, n.name, k) + p.Charge().Of(k) <= n.budget.Of(k)
  {
    var row := Row(c, p, runs, obs, now, n);
    assert EarlyReasons(c, p, runs, obs, now, n) == [];
    assert If(!p.enabled, POOL_DISABLED) == [] && If(!Eligible(p, n), NODE_NOT_ALLOWED) == [];
    assert If(CountPool(runs, p.name) >= p.maxRunners, POOL_LIMIT) == [];
    assert If(!p.Charge().Fits(row.available), INSUFFICIENT_BUDGET) == [];
  }

  // ---- Placing at the head ----

  /** placeTx: the instance created from a feasible row. */
  function Placed(c: Config, p: Pool, row: Candidate, id: Key, request: Request, now: int): Instance
    requires c.Image(p.image).Some?
  {
    Instance(id, request, row.node, p, c.Image(p.image).value, Reserved, row.reservation, p.Charge(),
             0, NONE, now, now + (p.executionMinutes + 10) * MINUTE, now, false, NONE, 0)
  }

  /** Every placement keeps the ledger; in a reservation it moves protection
      into holds, otherwise it adds exactly one charge to its node. */
  lemma {:induction false} PlacementKeepsBalance(c: Config, p: Pool, runs: seq<Instance>, obs: map<Key, Observation>, now: int, n: Node, x: Instance)
    requires Valid(c) && Balanced(c, runs) && c.Pool(p.name) == Some(p) && n in c.nodes
    requires Feasible(c, p, runs, obs, now, n)
    requires x.node == n.name && x.pool == p && c.Image(p.image) == Some(x.image) && x.held == p.Charge()
    requires x.reservation == FreeSlot(c, c.reservations, n.name, runs, p.name)
    requires x.state != Deleted && x.state != Deleting
    ensures Balanced(c, runs + [x])
    ensures forall k: Kind, node: Key ::
              Total(c, runs + [x], node, k) == Total(c, runs, node, k)
                + if x.reservation == NONE && node == x.node then p.Charge().Of(k) else 0
  {
    FeasibleRow(c, p, runs, obs, now, n);
    var r := PlacementTakes(c, p, runs, n, x);
    PlaceKeepsBalance(c, runs, x, r);
    forall k: Kind, node: Key
      ensures Total(c, runs + [x], node, k) == Total(c, runs, node, k)
                + if x.reservation == NONE && node == x.node then p.Charge().Of(k) else 0
    {
      PlaceTotals(c, runs, x, r, node, k);
    }
  }

  lemma {:induction false} PlacementTakes(c: Config, p: Pool, runs: seq<Instance>, n: Node, x: Instance) returns (r: Option<nat>)
    requires Valid(c) && Books(c, runs) && c.Pool(p.name) == Some(p) && n in c.nodes
    requires x.node == n.name && x.pool == p && c.Image(p.image) == Some(x.image) && x.held == p.Charge()
    requires x.reservation == FreeSlot(c, c.reservations, n.name, runs, p.name)
    requires x.state != Deleted && x.state != Deleting
    ensures Takes(c, runs, x, r)
    ensures r.None? <==> x.reservation == NONE
    ensures c.Node(x.node) == Some(n)
  {
    FindPoolSound(c.pools, p.name);
    var j :| 0 <= j < |c.pools| && c.pools[j] == p;
    assert PoolOK(c, c.pools[j]);
    var m :| 0 <= m < |c.nodes| && c.nodes[m] == n;
    FindNodeUnique(c.nodes, m);
    assert forall i | 0 <= i < |c.reservations| :: ReservationOK(c, c.reservations[i]);
    FreeSlotSound(c, c.reservations, n.name, runs, p.name);
    if x.reservation == NONE {
      r := None;
    } else {
      var i :| 0 <= i < |c.reservations| && c.reservations[i].name == x.reservation
               && Offers(c, c.reservations[i], n.name, runs, p.name);
      r := Some(i);
    }
  }

  // ---- Feasibility can only be lost as VMs are added ----

  /** Once a pool cannot be placed on a node, adding more VMs cannot make it
      placeable there: a reserved placement frees nothing, a general one only
      takes. */
  lemma {:induction false} FeasibleAntitone(c: Config, p: Pool, runs: seq<Instance>, obs: map<Key, Observation>, now: int, n: Node,
                         x: Instance, r: Option<nat>)
    requires Valid(c) && Balanced(c, runs) && Takes(c, runs, x, r)
    requires c.Pool(p.name) == Some(p)
    requires Balanced(c, runs + [x])
    requires Feasible(c, p, runs + [x], obs, now, n)
    ensures Feasible(c, p, runs, obs, now, n)
  {
    var grown := runs + [x];
    Grown(runs, x);
    assert EarlyReasons(c, p, grown, obs, now, n) == [];
    SlotLost(c, runs, x, n.name, p.name);
    AllAccounted(c, runs, n.name);
    forall k: Kind
      ensures Total(c, runs, n.name, k) <= Total(c, grown, n.name, k)
    {
      PlaceTotals(c, runs, x, r, n.name, k);
    }
    AvailableShrinks(c, p, runs, grown, n);
    assert EarlyReasons(c, p, runs, obs, now, n) == [] by {
      CountGrows(c, p, runs, obs, now, n, x);
    }
    assert If(!p.Charge().Fits(Available(c, p, grown, n)), INSUFFICIENT_BUDGET) == [];
    assert If(Physical(c, p, grown, ReportOf(obs, n.name), n) < p.Charge().disk, INSUFFICIENT_PHYSICAL_DISK) == [];
  }

  lemma {:induction false} CountGrows(c: Config, p: Pool, runs: seq<Instance>, obs: map<Key, Observation>, now: int, n: Node, x: Instance)
    requires OwnersOK(c, runs)
    requires EarlyReasons(c, p, runs + [x], obs, now, n) == []
    ensures EarlyReasons(c, p, runs, obs, now, n) == []
  {
    Grown(runs, x);
    assert If(CountPool(runs + [x], p.name) >= p.maxRunners, POOL_LIMIT) == [];
  }

  lemma {:induction false} SlotLost(c: Config, runs: seq<Instance>, x: Instance, node: Key, pool: Key)
    requires Valid(c) && Books(c, runs) && Books(c, runs + [x])
    ensures FreeSlot(c, c.reservations, node, runs + [x], pool) != NONE ==> FreeSlot(c, c.reservations, node, runs, pool) != NONE
  {
    Grown(runs, x);
    assert forall i | 0 <= i < |c.reservations| :: ReservationOK(c, c.reservations[i]);
    FreeSlotSound(c, c.reservations, node, runs, pool);
    FreeSlotSound(c, c.reservations, node, runs + [x], pool);
    if i :| 0 <= i < |c.reservations| && Offers(c, c.reservations[i], node, runs + [x], pool) {
      ProtectionBalances(c, runs, i);
      ProtectionBalances(c, runs + [x], i);
      assert Offers(c, c.reservations[i], node, runs, pool);
    }
  }

  lemma {:induction false} AvailableShrinks(c: Config, p: Pool, runs: seq<Instance>, grown: seq<Instance>, n: Node)
    requires forall k: Kind :: Total(c, runs, n.name, k) <= Total(c, grown, n.name, k)
    requires FreeSlot(c, c.reservations, n.name, grown, p.name) != NONE ==> FreeSlot(c, c.reservations, n.name, runs, p.name) != NONE
    requires p.Charge().NonNegative()
    ensures p.Charge().Fits(Available(c, p, grown, n)) ==> p.Charge().Fits(Available(c, p, runs, n))
    ensures forall o :: Physical(c, p, grown, o, n) <= Physical(c, p, runs, o, n)
  {
    assert Total(c, runs, n.name, CPU) <= Total(c, grown, n.name, CPU);
    assert Total(c, runs, n.name, Memory) <= Total(c, grown, n.name, Memory);
    assert Total(c, runs, n.name, Disk) <= Total(c, grown, n.name, Disk);
  }
}
