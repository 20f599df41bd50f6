/** The one resource ledger of internal/core: holds, hard reservations and
    what a reservation still protects (internal/core/reservations.go). */
module Ledger {
  import opened Resources
  import opened Model
  import opened Validate

  datatype Fault =
    | InvalidConfig | ClusterMismatch | PlanNotFound | PlanExpired | RevisionConflict
    | NotConfigured | ReservationBusy | ReservationInconsistent | PoolLimitBusy | PoolInUse | BudgetBusy
    | NoCapacity | IdempotencyConflict | PoolNotFound | TaskPool | PoolDisabled
    | NodeReport | NodeNotConfigured | LocalCeiling | StaleReport | DuplicateReport
    | UnexpectedDeletion | ReportState | InstanceNotFound | InvalidRequest | UniqueViolation
    | MessageConflict | TaskNotFound | TaskNotOwned | TaskStillRunning | TaskLimit | InvalidTask
    | ClientUnauthorized | ClientNotFound | ClientRevoked | ClientExists
    | NodeNotObserved | DemandNotFound | Corrupt | NodeNameExists

  datatype Result<+T> = Ok(value: T) | Err(fault: Fault)

  // ---- Sums over the instances table ----

  function Last(runs: seq<Instance>): Instance
    requires runs != []
  {
    runs[|runs| - 1]
  }

  function Init(runs: seq<Instance>): seq<Instance>
    requires runs != []
  {
    runs[..|runs| - 1]
  }

  function HeldOf(runs: seq<Instance>, node: Key, k: Kind): int {
    if runs == [] then 0
    else HeldOf(Init(runs), node, k) + if Last(runs).node == node then Last(runs).held.Of(k) else 0
  }

  /** What the VMs of one reservation hold. */
  function HeldByOf(runs: seq<Instance>, reservation: Key, k: Kind): int {
    if runs == [] then 0
    else HeldByOf(Init(runs), reservation, k) + if Last(runs).reservation == reservation then Last(runs).held.Of(k) else 0
  }

  /** What the VMs placed outside every reservation hold on one node. */
  function GeneralOf(runs: seq<Instance>, node: Key, k: Kind): int {
    if runs == [] then 0
    else
      GeneralOf(Init(runs), node, k)
        + if Last(runs).node == node && Last(runs).reservation == NONE then Last(runs).held.Of(k) else 0
  }

  function HeldOn(runs: seq<Instance>, node: Key): Resources {
    Resources(HeldOf(runs, node, CPU), HeldOf(runs, node, Memory), HeldOf(runs, node, Disk))
  }

  function HeldBy(runs: seq<Instance>, reservation: Key): Resources {
    Resources(HeldByOf(runs, reservation, CPU), HeldByOf(runs, reservation, Memory), HeldByOf(runs, reservation, Disk))
  }

  function UsedSlots(runs: seq<Instance>, reservation: Key): int {
    if runs == [] then 0
    else UsedSlots(Init(runs), reservation) +
         if Last(runs).reservation == reservation && !Last(runs).held.Empty() then 1 else 0
  }

  function CountPool(runs: seq<Instance>, pool: Key): int {
    if runs == [] then 0
    else CountPool(Init(runs), pool) +
         if Last(runs).pool.name == pool && !Last(runs).held.Empty() then 1 else 0
  }

  /** What the reservations located on one node hold together. */
  function HeldByAllOf(rs: seq<Reservation>, node: Key, runs: seq<Instance>, k: Kind): int {
    if rs == [] then 0
    else
      var r := rs[|rs| - 1];
      HeldByAllOf(rs[..|rs| - 1], node, runs, k) + if r.node == node then HeldByOf(runs, r.name, k) else 0
  }

  // ---- reservationProtection ----

  /** The source's `byName`: a later reservation replaces an earlier one. */
  function ByName(rs: seq<Reservation>): map<Key, Reservation> {
    if rs == [] then map[] else ByName(rs[..|rs| - 1])[rs[|rs| - 1].name := rs[|rs| - 1]]
  }

  predicate OwnerOK(c: Config, a: Instance) {
    || a.reservation == NONE || a.held.Empty()
    || (var byName := ByName(c.reservations);
        && a.reservation in byName
        && byName[a.reservation].node == a.node
        && byName[a.reservation].pool == a.pool.name)
  }

  predicate OwnersOK(c: Config, runs: seq<Instance>) {
    forall i | 0 <= i < |runs| :: OwnerOK(c, runs[i])
  }

  predicate SlotMatches(p: Pool, r: Reservation, a: Instance) {
    || a.reservation != r.name || a.held.Empty()
    || (a.node == r.node && a.pool.name == r.pool && a.held.Fits(p.Charge()))
  }

  datatype Protection = Protection(amount: Resources, unused: int)

  function Protect(c: Config, r: Reservation, runs: seq<Instance>): Result<Protection> {
    match c.Pool(r.pool)
    case None => Err(ReservationInconsistent)
    case Some(p) =>
      if exists i | 0 <= i < |runs| :: !SlotMatches(p, r, runs[i]) then Err(ReservationInconsistent)
      else if UsedSlots(runs, r.name) > r.slots then Err(ReservationBusy)
      else Ok(Protection(p.Charge().Mul(r.slots).Sub(HeldBy(runs, r.name)), r.slots - UsedSlots(runs, r.name)))
  }

  method ValidateReservationOwners(c: Config, runs: seq<Instance>) returns (ok: bool)
    ensures ok <==> OwnersOK(c, runs)
  {
    var byName: map<Key, Reservation> := map[];
    for i := 0 to |c.reservations|
      invariant byName == ByName(c.reservations[..i])
    {
      assert c.reservations[..i + 1][..i] == c.reservations[..i];
      byName := byName[c.reservations[i].name := c.reservations[i]];
    }
    assert c.reservations[..|c.reservations|] == c.reservations;
    for i := 0 to |runs|
      invariant OwnersOK(c, runs[..i])
    {
      var a := runs[i];
      if a.reservation == NONE || a.held.Empty() {
        assert OwnerOK(c, runs[i]);
        continue;
      }
      if a.reservation !in byName || byName[a.reservation].node != a.node || byName[a.reservation].pool != a.pool.name {
        assert !OwnerOK(c, runs[i]);
        return false;
      }
    }
    return true;
  }

  method ReservationProtection(c: Config, r: Reservation, runs: seq<Instance>) returns (res: Result<Protection>)
    ensures res == Protect(c, r, runs)
  {
    var p := c.Pool(r.pool);
    if p.None? {
      return Err(ReservationInconsistent);
    }
    var used, held := 0, ZERO;
    for i := 0 to |runs|
      invariant forall k | 0 <= k < i :: SlotMatches(p.value, r, runs[k])
      invariant used == UsedSlots(runs[..i], r.name) && held == HeldBy(runs[..i], r.name)
    {
      var a := runs[i];
      assert Init(runs[..i + 1]) == runs[..i];
      if a.reservation != r.name || a.held.Empty() {
        continue;
      }
      if a.node != r.node || a.pool.name != r.pool || !a.held.Fits(p.value.Charge()) {
        assert !SlotMatches(p.value, r, runs[i]);
        return Err(ReservationInconsistent);
      }
      used := used + 1;
      held := held.Add(a.held);
    }
    assert runs[..|runs|] == runs;
    if used > r.slots {
      return Err(ReservationBusy);
    }
    return Ok(Protection(p.value.Charge().Mul(r.slots).Sub(held), r.slots - used));
  }

  /** Everything the reservations of a node still protect. The source skips
      a reservation whose books do not balance and reports it instead. */
  function ProtectedOf(c: Config, rs: seq<Reservation>, node: Key, runs: seq<Instance>, k: Kind): int {
    if rs == [] then 0
    else
      var r := rs[|rs| - 1];
      ProtectedOf(c, rs[..|rs| - 1], node, runs, k)
        + if r.node == node && Protect(c, r, runs).Ok? then Protect(c, r, runs).value.amount.Of(k) else 0
  }

  function ProtectedOn(c: Config, rs: seq<Reservation>, node: Key, runs: seq<Instance>): Resources {
    Resources(ProtectedOf(c, rs, node, runs, CPU), ProtectedOf(c, rs, node, runs, Memory), ProtectedOf(c, rs, node, runs, Disk))
  }

  lemma {:induction false} ByNameSound(rs: seq<Reservation>, name: Key)
    ensures name in ByName(rs) <==> exists i | 0 <= i < |rs| :: rs[i].name == name
    ensures name in ByName(rs) ==> ByName(rs)[name] in rs && ByName(rs)[name].name == name
  {
    if rs != [] {
      var front := rs[..|rs| - 1];
      ByNameSound(front, name);
      assert forall i | 0 <= i < |front| :: front[i] == rs[i];
      if i :| 0 <= i < |rs| && rs[i].name == name && i < |front| {
        assert front[i].name == name;
      }
    }
  }

  lemma {:induction false} ByNameUnique(rs: seq<Reservation>, i: nat)
    requires i < |rs| && UniqueReservations(rs)
    ensures rs[i].name in ByName(rs) && ByName(rs)[rs[i].name] == rs[i]
  {
    if i < |rs| - 1 {
      ByNameUnique(rs[..|rs| - 1], i);
      assert rs[i].name != rs[|rs| - 1].name;
    }
  }

  // ---- The ledger invariant ----

  /** What one instance may hold in each state: its whole charge, the disk
      part after a confirmed stop, nothing once deleted. */
  predicate HoldingOK(a: Instance) {
    && a.pool.SizesOK()
    && (a.held == a.pool.Charge() || a.held == a.pool.Charge().DiskPart() || a.held == ZERO)
    && (a.held == ZERO <==> a.state == Deleted)
    && (a.state == Deleting ==> a.held == a.pool.Charge().DiskPart())
  }

  /** A VM in use keeps its size, image and kind in the configuration. */
  predicate Backed(c: Config, a: Instance) {
    && c.Pool(a.pool.name).Some?
    && (!a.held.Empty() ==>
          var p := c.Pool(a.pool.name).value;
          && p.Charge() == a.pool.Charge()
          && p.tasks == a.pool.tasks
          && c.Image(p.image).Some?
          && c.Image(p.image).value.digest == a.image.digest)
  }

  predicate Committed(c: Config, runs: seq<Instance>, n: Node) {
    HeldOn(runs, n.name).Add(ProtectedOn(c, c.reservations, n.name, runs)).Fits(n.budget)
  }

  /** Instances and reservations refer to each other consistently. */
  ghost predicate Books(c: Config, runs: seq<Instance>) {
    && (forall i | 0 <= i < |runs| :: HoldingOK(runs[i]) && Backed(c, runs[i]) && c.Node(runs[i].node).Some?)
    && OwnersOK(c, runs)
    && (forall i | 0 <= i < |c.reservations| :: UsedSlots(runs, c.reservations[i].name) <= c.reservations[i].slots)
  }

  /** What every transaction keeps about commitments: on each node, held plus
      protected resources are within the budget; each pool is within its
      runner limit; every reservation's books balance. */
  ghost predicate Balanced(c: Config, runs: seq<Instance>) {
    && Books(c, runs)
    && (forall i | 0 <= i < |c.nodes| :: Committed(c, runs, c.nodes[i]))
    && (forall i | 0 <= i < |c.pools| :: CountPool(runs, c.pools[i].name) <= c.pools[i].maxRunners)
  }

  // ---- Conservation ----

  /** Held plus protected resources of one kind on one node. */
  function Total(c: Config, runs: seq<Instance>, node: Key, k: Kind): int {
    HeldOf(runs, node, k) + ProtectedOf(c, c.reservations, node, runs, k)
  }

  /** Whether the named reservation is located on the node. */
  predicate Located(rs: seq<Reservation>, name: Key, node: Key) {
    exists i | 0 <= i < |rs| :: rs[i].name == name && rs[i].node == node
  }

  lemma {:induction false} LocatedStep(rs: seq<Reservation>, name: Key, node: Key)
    requires rs != [] && UniqueReservations(rs)
    ensures var r, front := rs[|rs| - 1], rs[..|rs| - 1];
            if r.name == name then Located(rs, name, node) == (r.node == node) && !Located(front, name, node)
            else Located(rs, name, node) == Located(front, name, node)
  {
    var r, front := rs[|rs| - 1], rs[..|rs| - 1];
    assert forall i | 0 <= i < |front| :: front[i] == rs[i];
    if i :| 0 <= i < |rs| && rs[i].name == name && rs[i].node == node && i < |front| {
      assert front[i] == rs[i];
    }
  }

  /** One hold, once for every matching reservation. */
  function Shares(rs: seq<Reservation>, name: Key, node: Key, held: int): int {
    if rs == [] then 0
    else
      var r := rs[|rs| - 1];
      Shares(rs[..|rs| - 1], name, node, held) + if r.node == node && r.name == name then held else 0
  }

  lemma {:induction false} SharesUnique(rs: seq<Reservation>, name: Key, node: Key, held: int)
    requires UniqueReservations(rs)
    ensures Shares(rs, name, node, held) == if Located(rs, name, node) then held else 0
  {
    if rs != [] {
      SharesUnique(rs[..|rs| - 1], name, node, held);
      LocatedStep(rs, name, node);
    }
  }

  lemma {:induction false} HeldByAllStep(rs: seq<Reservation>, node: Key, runs: seq<Instance>, k: Kind)
    requires runs != []
    ensures HeldByAllOf(rs, node, runs, k)
         == HeldByAllOf(rs, node, Init(runs), k) + Shares(rs, Last(runs).reservation, node, Last(runs).held.Of(k))
  {
    if rs != [] {
      HeldByAllStep(rs[..|rs| - 1], node, runs, k);
    }
  }

  lemma {:induction false} HeldByAllNone(rs: seq<Reservation>, node: Key, k: Kind)
    ensures HeldByAllOf(rs, node, [], k) == 0
  {
    if rs != [] {
      HeldByAllNone(rs[..|rs| - 1], node, k);
    }
  }

  lemma {:induction false} OwnerLocated(c: Config, a: Instance, node: Key)
    requires UniqueReservations(c.reservations) && OwnerOK(c, a)
    requires a.reservation != NONE && !a.held.Empty()
    ensures Located(c.reservations, a.reservation, node) <==> a.node == node
  {
    var rs := c.reservations;
    ByNameSound(rs, a.reservation);
    var i :| 0 <= i < |rs| && rs[i] == ByName(rs)[a.reservation];
    if k :| 0 <= k < |rs| && rs[k].name == a.reservation && rs[k].node == node {
      ByNameUnique(rs, k);
    }
  }

  lemma {:induction false} NotLocated(rs: seq<Reservation>, node: Key)
    requires forall i | 0 <= i < |rs| :: rs[i].name != NONE
    ensures !Located(rs, NONE, node)
  {
  }

  /** Each hold on a node is a general one or belongs to exactly one of the
      reservations located there. */
  lemma {:induction false} HeldSplits(c: Config, runs: seq<Instance>, node: Key, k: Kind)
    requires UniqueReservations(c.reservations) && OwnersOK(c, runs)
    requires forall i | 0 <= i < |c.reservations| :: c.reservations[i].name != NONE
    ensures HeldOf(runs, node, k) == GeneralOf(runs, node, k) + HeldByAllOf(c.reservations, node, runs, k)
  {
    if runs == [] {
      HeldByAllNone(c.reservations, node, k);
    } else {
      var a := Last(runs);
      HeldSplits(c, Init(runs), node, k);
      HeldByAllStep(c.reservations, node, runs, k);
      SharesUnique(c.reservations, a.reservation, node, a.held.Of(k));
      assert OwnerOK(c, runs[|runs| - 1]);
      if a.reservation == NONE {
        NotLocated(c.reservations, node);
      } else if !a.held.Empty() {
        OwnerLocated(c, a, node);
      }
    }
  }

  lemma {:induction false} HeldByWithin(c: Config, r: Reservation, runs: seq<Instance>, k: Kind)
    requires c.Pool(r.pool).Some? && c.ChargeOf(r.pool).NonNegative()
    requires forall i | 0 <= i < |runs| :: SlotMatches(c.Pool(r.pool).value, r, runs[i])
    ensures 0 <= UsedSlots(runs, r.name)
    ensures 0 <= HeldByOf(runs, r.name, k) <= c.ChargeOf(r.pool).Mul(UsedSlots(runs, r.name)).Of(k)
  {
    if runs != [] {
      HeldByWithin(c, r, Init(runs), k);
      MulSucc(c.ChargeOf(r.pool), UsedSlots(Init(runs), r.name), k);
      assert SlotMatches(c.Pool(r.pool).value, r, runs[|runs| - 1]);
    }
  }

  /** The reservation's own VMs match its node, pool and size. */
  lemma {:induction false} BooksMatch(c: Config, runs: seq<Instance>, i: nat)
    requires Valid(c) && Books(c, runs) && i < |c.reservations|
    ensures c.Pool(c.reservations[i].pool).Some?
    ensures forall j | 0 <= j < |runs| :: SlotMatches(c.Pool(c.reservations[i].pool).value, c.reservations[i], runs[j])
  {
    var r := c.reservations[i];
    assert ReservationOK(c, r);
    forall j | 0 <= j < |runs|
      ensures SlotMatches(c.Pool(r.pool).value, r, runs[j])
    {
      var a := runs[j];
      assert OwnerOK(c, a) && HoldingOK(a) && Backed(c, a);
      if a.reservation == r.name && !a.held.Empty() {
        ByNameUnique(c.reservations, i);
      }
    }
  }

  ghost predicate Accounted(c: Config, runs: seq<Instance>, r: Reservation) {
    && Protect(c, r, runs).Ok?
    && Protect(c, r, runs).value.unused == r.slots - UsedSlots(runs, r.name) >= 0
    && forall k: Kind ::
         && 0 <= Protect(c, r, runs).value.amount.Of(k)
         && Protect(c, r, runs).value.amount.Of(k) + HeldByOf(runs, r.name, k) == c.ChargeOf(r.pool).Mul(r.slots).Of(k)
  }

  /** The books of every reservation balance: what it protects plus what its
      VMs hold is its full size, whatever mixture of unused, running, stopped
      and deleted slots it has. */
  lemma {:induction false} ProtectionBalances(c: Config, runs: seq<Instance>, i: nat)
    requires Valid(c) && Books(c, runs) && i < |c.reservations|
    ensures Accounted(c, runs, c.reservations[i])
  {
    var r := c.reservations[i];
    BooksMatch(c, runs, i);
    ChargeBounded(c, r.pool);
    forall k: Kind
      ensures HeldByOf(runs, r.name, k) <= c.ChargeOf(r.pool).Mul(r.slots).Of(k)
    {
      HeldByWithin(c, r, runs, k);
      MulMonotone(c.ChargeOf(r.pool), UsedSlots(runs, r.name), r.slots, k);
    }
  }

  /** The reservations whose books balance, one after another. */
  lemma {:induction false} ProtectedSums(c: Config, rs: seq<Reservation>, node: Key, runs: seq<Instance>, k: Kind)
    requires forall i | 0 <= i < |rs| :: Accounted(c, runs, rs[i])
    ensures ProtectedOf(c, rs, node, runs, k) + HeldByAllOf(rs, node, runs, k) == ReservedOf(c, rs, node, k)
    ensures 0 <= ProtectedOf(c, rs, node, runs, k)
  {
    if rs != [] {
      ProtectedSums(c, rs[..|rs| - 1], node, runs, k);
      assert Accounted(c, runs, rs[|rs| - 1]);
    }
  }

  /** Conservation: on every node, held plus protected resources always equal
      the node's reservations plus its general holds. A reserved VM moving
      through its life shifts resources between the two terms only. */
  lemma {:induction false} Conservation(c: Config, runs: seq<Instance>, node: Key, k: Kind)
    requires Valid(c) && Books(c, runs)
    ensures Total(c, runs, node, k) == ReservedOf(c, c.reservations, node, k) + GeneralOf(runs, node, k)
    ensures 0 <= ProtectedOf(c, c.reservations, node, runs, k)
  {
    assert forall i | 0 <= i < |c.reservations| :: ReservationOK(c, c.reservations[i]);
    HeldSplits(c, runs, node, k);
    forall i | 0 <= i < |c.reservations|
      ensures Accounted(c, runs, c.reservations[i])
    {
      ProtectionBalances(c, runs, i);
    }
    ProtectedSums(c, c.reservations, node, runs, k);
  }

  predicate WithinBudget(c: Config, runs: seq<Instance>, n: Node, k: Kind) {
    0 <= ReservedOf(c, c.reservations, n.name, k) + GeneralOf(runs, n.name, k) <= n.budget.Of(k)
  }

  lemma {:induction false} CommittedByKind(c: Config, runs: seq<Instance>, n: Node)
    requires Valid(c) && Books(c, runs)
    ensures Committed(c, runs, n) <==> forall k: Kind :: WithinBudget(c, runs, n, k)
  {
    var total := HeldOn(runs, n.name).Add(ProtectedOn(c, c.reservations, n.name, runs));
    forall k: Kind
      ensures total.Of(k) == ReservedOf(c, c.reservations, n.name, k) + GeneralOf(runs, n.name, k)
    {
      Conservation(c, runs, n.name, k);
    }
    FitsByKind(total, n.budget);
    assert forall k: Kind :: WithinBudget(c, runs, n, k) <==> 0 <= total.Of(k) <= n.budget.Of(k);
  }

  lemma {:induction false} GeneralNonNegative(runs: seq<Instance>, node: Key, k: Kind)
    requires forall i | 0 <= i < |runs| :: HoldingOK(runs[i])
    ensures 0 <= GeneralOf(runs, node, k) <= HeldOf(runs, node, k)
  {
    if runs != [] {
      GeneralNonNegative(Init(runs), node, k);
      assert HoldingOK(runs[|runs| - 1]);
    }
  }

  // ---- Placing one VM ----

  lemma {:induction false} Grown(runs: seq<Instance>, x: Instance)
    ensures Init(runs + [x]) == runs && Last(runs + [x]) == x
  {
  }

  /** Where a new VM's hold comes from: a free slot of a reservation on its
      node, or else the node's general capacity. */
  predicate Takes(c: Config, runs: seq<Instance>, x: Instance, r: Option<nat>) {
    && HoldingOK(x) && x.held == x.pool.Charge()
    && c.Pool(x.pool.name) == Some(x.pool) && c.Image(x.pool.image) == Some(x.image)
    && c.Node(x.node).Some?
    && match r
       case None => x.reservation == NONE
       case Some(i) =>
         && i < |c.reservations|
         && var v := c.reservations[i];
            x.reservation == v.name && x.node == v.node && x.pool.name == v.pool && UsedSlots(runs, v.name) < v.slots
  }

  /** Placing in a reservation leaves held plus protected unchanged
      everywhere; placing in general capacity adds exactly one charge. */
  lemma {:induction false} PlaceTotals(c: Config, runs: seq<Instance>, x: Instance, r: Option<nat>, node: Key, k: Kind)
    requires Valid(c) && Books(c, runs) && Takes(c, runs, x, r)
    ensures Total(c, runs + [x], node, k) == Total(c, runs, node, k) + if r.None? && node == x.node then x.held.Of(k) else 0
  {
    Grown(runs, x);
    PlaceKeepsBooks(c, runs, x, r);
    Conservation(c, runs, node, k);
    Conservation(c, runs + [x], node, k);
    if r.Some? {
      assert ReservationOK(c, c.reservations[r.value]);
    }
  }

  /** A new VM that takes a free slot, or fits beside everything held and
      protected on its node, keeps the ledger. */
  lemma {:induction false} PlaceKeepsBalance(c: Config, runs: seq<Instance>, x: Instance, r: Option<nat>)
    requires Valid(c) && Balanced(c, runs) && Takes(c, runs, x, r)
    requires CountPool(runs, x.pool.name) < x.pool.maxRunners
    requires r.None? ==>
      forall k: Kind :: Total(c, runs, x.node, k) + x.held.Of(k) <= c.Node(x.node).value.budget.Of(k)
    ensures Balanced(c, runs + [x])
  {
    var grown := runs + [x];
    Grown(runs, x);
    PlaceKeepsBooks(c, runs, x, r);
    forall i | 0 <= i < |c.nodes|
      ensures Committed(c, grown, c.nodes[i])
    {
      var n := c.nodes[i];
      assert Committed(c, runs, n);
      CommittedByKind(c, runs, n);
      CommittedByKind(c, grown, n);
      FindNodeUnique(c.nodes, i);
      forall k: Kind
        ensures WithinBudget(c, grown, n, k)
      {
        assert WithinBudget(c, runs, n, k) && x.held.Of(k) >= 0;
        PlaceTotals(c, runs, x, r, n.name, k);
        Conservation(c, runs, n.name, k);
        Conservation(c, grown, n.name, k);
      }
    }
    forall i | 0 <= i < |c.pools|
      ensures CountPool(grown, c.pools[i].name) <= c.pools[i].maxRunners
    {
      FindPoolUnique(c.pools, i);
    }
  }

  lemma {:induction false} PlaceKeepsBooks(c: Config, runs: seq<Instance>, x: Instance, r: Option<nat>)
    requires Valid(c) && Books(c, runs) && Takes(c, runs, x, r)
    ensures Books(c, runs + [x])
  {
    var grown := runs + [x];
    Grown(runs, x);
    assert OwnerOK(c, x) by {
      if r.Some? {
        ByNameUnique(c.reservations, r.value);
      }
    }
    assert OwnersOK(c, grown);
    forall i | 0 <= i < |c.reservations|
      ensures UsedSlots(grown, c.reservations[i].name) <= c.reservations[i].slots
    {
      assert ReservationOK(c, c.reservations[i]);
      assert UsedSlots(grown, c.reservations[i].name) <= UsedSlots(runs, c.reservations[i].name) + 1;
      if r.Some? && i != r.value {
        assert c.reservations[i].name != c.reservations[r.value].name;
      }
    }
  }

  // ---- Releasing resources ----

  /** One instance row after another: identity never changes, holds only
      shrink. */
  predicate Shrinks(a: Instance, b: Instance) {
    && b.id == a.id && b.request == a.request && b.node == a.node && b.pool == a.pool && b.image == a.image
    && b.reservation == a.reservation && b.task == a.task && b.created == a.created && b.deadline == a.deadline
    && (b.held == a.held || b.held == a.pool.Charge().DiskPart() || b.held == ZERO)
    && HoldingOK(b)
    && (a.held == ZERO ==> b.held == ZERO)
  }

  ghost predicate ShrinksAll(before: seq<Instance>, after: seq<Instance>) {
    |after| == |before| && forall i | 0 <= i < |before| :: Shrinks(before[i], after[i])
  }

  lemma {:induction false} ShrinkSums(before: seq<Instance>, after: seq<Instance>, key: Key, k: Kind)
    requires ShrinksAll(before, after)
    requires forall i | 0 <= i < |before| :: HoldingOK(before[i])
    ensures GeneralOf(after, key, k) <= GeneralOf(before, key, k)
    ensures HeldOf(after, key, k) <= HeldOf(before, key, k)
    ensures UsedSlots(after, key) <= UsedSlots(before, key)
    ensures CountPool(after, key) <= CountPool(before, key)
  {
    if before != [] {
      assert Shrinks(before[|before| - 1], after[|after| - 1]);
      assert HoldingOK(before[|before| - 1]);
      ShrinkSums(Init(before), Init(after), key, k);
    }
  }

  /** Confirmed stops and deletions keep the ledger: a reserved VM's release
      becomes protection, a general one's becomes free. */
  lemma {:induction false} ReleaseKeepsBalance(c: Config, before: seq<Instance>, after: seq<Instance>)
    requires Valid(c) && Balanced(c, before) && ShrinksAll(before, after)
    ensures Balanced(c, after)
    ensures forall k: Kind, node: Key :: Total(c, after, node, k) <= Total(c, before, node, k)
  {
    forall i | 0 <= i < |after|
      ensures HoldingOK(after[i]) && Backed(c, after[i]) && c.Node(after[i].node).Some? && OwnerOK(c, after[i])
    {
      assert Shrinks(before[i], after[i]);
      assert HoldingOK(before[i]) && Backed(c, before[i]) && OwnerOK(c, before[i]);
    }
    forall i | 0 <= i < |c.reservations|
      ensures UsedSlots(after, c.reservations[i].name) <= c.reservations[i].slots
    {
      ShrinkSums(before, after, c.reservations[i].name, CPU);
    }
    assert Books(c, after);
    forall k: Kind, node: Key
      ensures Total(c, after, node, k) <= Total(c, before, node, k)
    {
      Conservation(c, before, node, k);
      Conservation(c, after, node, k);
      ShrinkSums(before, after, node, k);
    }
    forall i | 0 <= i < |c.nodes|
      ensures Committed(c, after, c.nodes[i])
    {
      var n := c.nodes[i];
      assert Committed(c, before, n);
      CommittedByKind(c, before, n);
      CommittedByKind(c, after, n);
      forall k: Kind
        ensures WithinBudget(c, after, n, k)
      {
        assert WithinBudget(c, before, n, k);
        ShrinkSums(before, after, n.name, k);
        GeneralNonNegative(after, n.name, k);
        ReservedNonNegative(c, n.name, k);
      }
    }
    forall i | 0 <= i < |c.pools|
      ensures CountPool(after, c.pools[i].name) <= c.pools[i].maxRunners
    {
      ShrinkSums(before, after, c.pools[i].name, CPU);
    }
  }

  lemma {:induction false} ReservedNonNegative(c: Config, node: Key, k: Kind)
    requires Valid(c)
    ensures 0 <= ReservedOf(c, c.reservations, node, k)
  {
    assert forall i | 0 <= i < |c.reservations| :: ReservationOK(c, c.reservations[i]);
    assert forall i | 0 <= i < |c.pools| :: PoolOK(c, c.pools[i]);
    ReservedOfBounded(c, c.reservations, node, k);
  }
}
