/** Config.Validate of internal/core/model.go: what an accepted configuration
    guarantees, and that its 64-bit sums cannot wrap into acceptance. */
module Validate {
  import opened Resources
  import opened Model

  /** Texts are opaque here: of the name and digest patterns only
      non-emptiness is used. */
  predicate ValidName(s: Key) {
    s != NONE
  }

  predicate WithinLimits(c: Config) {
    |c.nodes| <= 1024 && |c.pools| <= 1024 && |c.images| <= 1024 && |c.reservations| <= 4096
  }

  predicate ImageOK(im: Image) {
    ValidName(im.name) && ValidName(im.digest) && 0 < im.minimumRootGiB <= 1048576
  }

  predicate NodeOK(n: Node) {
    && ValidName(n.name)
    && n.budget.Valid() && n.localCeiling.Valid() && n.budget.Fits(n.localCeiling)
    && forall k | k in n.labels :: ValidName(k) && ValidName(n.labels[k])
  }

  predicate Offered(c: Config, p: Pool) {
    exists i | 0 <= i < |c.nodes| :: Eligible(p, c.nodes[i]) && p.Charge().Fits(c.nodes[i].budget)
  }

  predicate PoolOK(c: Config, p: Pool) {
    && ValidName(p.name)
    && (if p.tasks then (p.runnerName == NONE || ValidName(p.runnerName)) && p.warmIdle == 0 && 30 <= p.executionMinutes
        else ValidName(p.runnerName))
    && c.Image(p.image).Some?
    && p.SizesOK() && c.MinimumRoot(p.image) <= p.rootGiB
    && 1 <= p.maxRunners <= 10000 && 0 <= p.warmIdle <= p.maxRunners
    && 1 <= p.executionMinutes <= 7200
    && (p.nodeName == NONE || c.Node(p.nodeName).Some?)
    && (forall k | k in p.nodeSelector :: ValidName(k) && ValidName(p.nodeSelector[k]))
    && (p.enabled ==> Offered(c, p))
  }

  predicate AllowedPoolsOK(c: Config, n: Node) {
    && (forall i | 0 <= i < |n.allowedPools| :: c.Pool(n.allowedPools[i]).Some?)
    && forall i, j | 0 <= i < j < |n.allowedPools| :: n.allowedPools[i] != n.allowedPools[j]
  }

  predicate ReservationOK(c: Config, r: Reservation) {
    && ValidName(r.name)
    && c.Pool(r.pool).Some? && c.Node(r.node).Some?
    && Eligible(c.Pool(r.pool).value, c.Node(r.node).value)
    && 1 <= r.slots <= 10000
  }

  /** Everything the reservations of one node set aside, of one kind. */
  function ReservedOf(c: Config, rs: seq<Reservation>, node: Key, k: Kind): int {
    if rs == [] then 0
    else
      var r := rs[|rs| - 1];
      ReservedOf(c, rs[..|rs| - 1], node, k)
        + if r.node == node then c.ChargeOf(r.pool).Mul(r.slots).Of(k) else 0
  }

  function ReservedOn(c: Config, rs: seq<Reservation>, node: Key): Resources {
    Resources(ReservedOf(c, rs, node, CPU), ReservedOf(c, rs, node, Memory), ReservedOf(c, rs, node, Disk))
  }

  function SlotsOf(rs: seq<Reservation>, pool: Key): int {
    if rs == [] then 0
    else
      var r := rs[|rs| - 1];
      SlotsOf(rs[..|rs| - 1], pool) + if r.pool == pool then r.slots else 0
  }

  /** The checks that involve no sum. */
  predicate Listed(c: Config) {
    && c.supported && ValidName(c.name)
    && (c.UsesGitHub() ==> c.github.accepted)
    && WithinLimits(c)
    && UniqueImages(c.images) && (forall i | 0 <= i < |c.images| :: ImageOK(c.images[i]))
    && UniqueNodes(c.nodes) && (forall i | 0 <= i < |c.nodes| :: NodeOK(c.nodes[i]))
    && UniquePools(c.pools) && (forall i | 0 <= i < |c.pools| :: PoolOK(c, c.pools[i]))
    && (forall i, j | 0 <= i < j < |c.pools| && c.pools[i].runnerName != NONE ::
          c.pools[i].runnerName != c.pools[j].runnerName)
    && (forall i | 0 <= i < |c.nodes| :: AllowedPoolsOK(c, c.nodes[i]))
  }

  predicate AllSizes(c: Config) {
    forall i | 0 <= i < |c.pools| :: c.pools[i].SizesOK()
  }

  predicate AcceptedTo(c: Config, rs: seq<Reservation>, n: nat)
    requires n <= |rs|
  {
    && (forall k | 0 <= k < n :: ReservationOK(c, rs[k]))
    && (forall k, m | 0 <= k < m < n :: rs[k].name != rs[m].name)
  }

  predicate ReservationsOK(c: Config) {
    && UniqueReservations(c.reservations)
    && forall i | 0 <= i < |c.reservations| :: ReservationOK(c, c.reservations[i])
  }

  ghost predicate ReservedFits(c: Config) {
    forall i | 0 <= i < |c.nodes| :: ReservedOn(c, c.reservations, c.nodes[i].name).Fits(c.nodes[i].budget)
  }

  ghost predicate SlotsFit(c: Config) {
    forall i | 0 <= i < |c.pools| :: SlotsOf(c.reservations, c.pools[i].name) <= c.pools[i].maxRunners
  }

  /** The configurations that Validate accepts, over unbounded integers. */
  ghost predicate Valid(c: Config) {
    && Listed(c)
    && ReservationsOK(c)
    && ReservedFits(c)
    && SlotsFit(c)
  }

  // ---- 64-bit evaluation ----

  const SLOT_BOUND := 10000 * (1073741824 + 1048576)

  lemma {:induction false} ReservedOfBounded(c: Config, rs: seq<Reservation>, node: Key, k: Kind)
    requires AllSizes(c)
    requires forall i | 0 <= i < |rs| :: 1 <= rs[i].slots <= 10000
    ensures 0 <= ReservedOf(c, rs, node, k) <= |rs| * SLOT_BOUND
  {
    if rs != [] {
      var r := rs[|rs| - 1];
      ReservedOfBounded(c, rs[..|rs| - 1], node, k);
      ChargeBounded(c, r.pool);
      MulBounded(c.ChargeOf(r.pool), r.slots);
    }
  }

  lemma {:induction false} ReservedOnBounded(c: Config, rs: seq<Reservation>, node: Key)
    requires AllSizes(c)
    requires forall i | 0 <= i < |rs| :: 1 <= rs[i].slots <= 10000
    ensures ReservedOn(c, rs, node).NonNegative()
    ensures ReservedOn(c, rs, node).Within(|rs| * SLOT_BOUND)
  {
    ReservedOfBounded(c, rs, node, CPU);
    ReservedOfBounded(c, rs, node, Memory);
    ReservedOfBounded(c, rs, node, Disk);
  }

  lemma {:induction false} ChargeBounded(c: Config, pool: Key)
    requires AllSizes(c)
    ensures c.ChargeOf(pool).NonNegative() && c.ChargeOf(pool).Within(1073741824 + 1048576)
  {
    FindPoolSound(c.pools, pool);
  }

  lemma {:induction false} ProductBounded(a: int, n: int, limit: int, most: int)
    requires 0 <= a <= limit && 0 <= n <= most
    ensures 0 <= a * n <= limit * most
  {
    assert a * n <= limit * n <= limit * most;
  }

  lemma {:induction false} MulBounded(r: Resources, n: int)
    requires r.NonNegative() && r.Within(1073741824 + 1048576) && 1 <= n <= 10000
    ensures r.Mul(n).NonNegative() && r.Mul(n).Within(SLOT_BOUND)
  {
    ProductBounded(r.cpu, n, 1073741824 + 1048576, 10000);
    ProductBounded(r.memory, n, 1073741824 + 1048576, 10000);
    ProductBounded(r.disk, n, 1073741824 + 1048576, 10000);
  }

  lemma {:induction false} SlotsBounded(rs: seq<Reservation>, pool: Key)
    requires forall i | 0 <= i < |rs| :: 1 <= rs[i].slots <= 10000
    ensures 0 <= SlotsOf(rs, pool) <= |rs| * 10000
  {
    if rs != [] {
      SlotsBounded(rs[..|rs| - 1], pool);
    }
  }

  /** `m[k]` of a Go map: absent keys read as zero. */
  function At(m: map<Key, Resources>, k: Key): Resources {
    if k in m then m[k] else ZERO
  }

  function CountAt(m: map<Key, int>, k: Key): int {
    if k in m then m[k] else 0
  }

  ghost predicate Tallied(c: Config, rs: seq<Reservation>, reserved: map<Key, Resources>, slots: map<Key, int>) {
    && (forall k :: At(reserved, k) == ReservedOn(c, rs, k))
    && (forall k :: CountAt(slots, k) == SlotsOf(rs, k))
    && (forall k | k in reserved :: c.Node(k).Some?)
    && (forall k | k in slots :: c.Pool(k).Some?)
  }

  lemma {:induction false} ReservedStep(c: Config, rs: seq<Reservation>, r: Reservation, k: Key)
    requires |rs| < 4096
    requires AllSizes(c)
    requires forall i | 0 <= i < |rs| :: 1 <= rs[i].slots <= 10000
    requires 1 <= r.slots <= 10000
    ensures ReservedOn(c, rs + [r], k) ==
            if r.node == k then Add64(ReservedOn(c, rs, k), Mul64(c.ChargeOf(r.pool), r.slots)) else ReservedOn(c, rs, k)
  {
    ChargeBounded(c, r.pool);
    MulBounded(c.ChargeOf(r.pool), r.slots);
    ReservedOnBounded(c, rs, k);
    WrapAllIdentity(c.ChargeOf(r.pool).Mul(r.slots));
    WrapAllIdentity(ReservedOn(c, rs, k).Add(c.ChargeOf(r.pool).Mul(r.slots)));
    assert (rs + [r])[..|rs + [r]| - 1] == rs;
  }

  lemma {:induction false} SlotsStep(rs: seq<Reservation>, r: Reservation, k: Key)
    requires |rs| < 4096
    requires forall i | 0 <= i < |rs| :: 1 <= rs[i].slots <= 10000
    requires 1 <= r.slots <= 10000
    ensures SlotsOf(rs + [r], k) == if r.pool == k then Wrap(SlotsOf(rs, k) + r.slots) else SlotsOf(rs, k)
  {
    SlotsBounded(rs, k);
    assert (rs + [r])[..|rs + [r]| - 1] == rs;
  }

  lemma {:induction false} TallyStep(c: Config, rs: seq<Reservation>, r: Reservation, reserved: map<Key, Resources>, slots: map<Key, int>,
                  charge: Resources, count: int)
    requires Tallied(c, rs, reserved, slots)
    requires c.Node(r.node).Some? && c.Pool(r.pool).Some?
    requires forall k :: ReservedOn(c, rs + [r], k) == if r.node == k then charge else ReservedOn(c, rs, k)
    requires forall k :: SlotsOf(rs + [r], k) == if r.pool == k then count else SlotsOf(rs, k)
    ensures Tallied(c, rs + [r], reserved[r.node := charge], slots[r.pool := count])
  {
  }

  /** One accepted reservation is added without wrapping. */
  lemma {:induction false} TallyAccepted(c: Config, rs: seq<Reservation>, r: Reservation, reserved: map<Key, Resources>, slots: map<Key, int>,
                      charge: Resources, count: int)
    requires |rs| < 4096 && Tallied(c, rs, reserved, slots)
    requires AllSizes(c)
    requires forall i | 0 <= i < |rs| :: 1 <= rs[i].slots <= 10000
    requires 1 <= r.slots <= 10000 && c.Node(r.node).Some? && c.Pool(r.pool).Some?
    requires charge == Add64(At(reserved, r.node), Mul64(c.ChargeOf(r.pool), r.slots))
    requires count == Wrap(CountAt(slots, r.pool) + r.slots)
    ensures Tallied(c, rs + [r], reserved[r.node := charge], slots[r.pool := count])
  {
    assert At(reserved, r.node) == ReservedOn(c, rs, r.node);
    assert CountAt(slots, r.pool) == SlotsOf(rs, r.pool);
    forall k
      ensures ReservedOn(c, rs + [r], k) == if r.node == k then charge else ReservedOn(c, rs, k)
    {
      ReservedStep(c, rs, r, k);
    }
    forall k
      ensures SlotsOf(rs + [r], k) == if r.pool == k then count else SlotsOf(rs, k)
    {
      SlotsStep(rs, r, k);
    }
    TallyStep(c, rs, r, reserved, slots, charge, count);
  }

  /** The reservation loop: `reserved` and `slots` are filled with wrapping
      64-bit sums, yet equal the mathematical sums of accepted entries. */
  method SumReservations(c: Config)
    returns (ok: bool, reserved: map<Key, Resources>, slots: map<Key, int>)
    requires |c.reservations| <= 4096
    ensures ok <==> ReservationsOK(c)
    ensures ok && AllSizes(c) ==> Tallied(c, c.reservations, reserved, slots)
  {
    ok, reserved, slots := true, map[], map[];
    var names: set<Key> := {};
    var rs := c.reservations;
    for i := 0 to |rs|
      invariant names == set k | 0 <= k < i :: rs[k].name
      invariant ok <==> AcceptedTo(c, rs, i)
      invariant ok && AllSizes(c) ==> Tallied(c, rs[..i], reserved, slots)
    {
      var r := rs[i];
      assert r.name in names <==> exists k | 0 <= k < i :: rs[k].name == r.name;
      ok := ok && ReservationOK(c, r) && r.name !in names;
      names := names + {r.name};
      assert rs[..i + 1] == rs[..i] + [r];
      if 1 <= r.slots <= 10000 {
        var charge := Add64(At(reserved, r.node), Mul64(c.ChargeOf(r.pool), r.slots));
        var count := Wrap(CountAt(slots, r.pool) + r.slots);
        if ok && AllSizes(c) {
          TallyAccepted(c, rs[..i], r, reserved, slots, charge, count);
        }
        reserved := reserved[r.node := charge];
        slots := slots[r.pool := count];
      }
    }
    assert rs[..|rs|] == rs;
  }

  predicate AllFit(c: Config, reserved: map<Key, Resources>) {
    forall k | k in reserved :: c.Node(k).Some? && reserved[k].Fits(c.Node(k).value.budget)
  }

  predicate AllCounted(c: Config, slots: map<Key, int>) {
    forall k | k in slots :: c.Pool(k).Some? && slots[k] <= c.Pool(k).value.maxRunners
  }

  /** Validate: with Go's wrapping sums it accepts exactly the configurations
      whose unbounded sums are within every budget. */
  method Validate(c: Config) returns (ok: bool)
    ensures ok <==> Valid(c)
  {
    if !WithinLimits(c) {
      return false;
    }
    var listed := Listed(c);
    var reservations, reserved, slots := SumReservations(c);
    var fits := AllFit(c, reserved);
    var counts := AllCounted(c, slots);
    ok := listed && reservations && fits && counts;
    if listed && reservations {
      ReservedAgree(c, reserved, slots);
      SlotsAgree(c, reserved, slots);
    }
  }

  lemma {:induction false} ReservedAgree(c: Config, reserved: map<Key, Resources>, slots: map<Key, int>)
    requires UniqueNodes(c.nodes) && (forall i | 0 <= i < |c.nodes| :: NodeOK(c.nodes[i]))
    requires forall i | 0 <= i < |c.reservations| :: ReservationOK(c, c.reservations[i])
    requires Tallied(c, c.reservations, reserved, slots)
    ensures AllFit(c, reserved) <==> ReservedFits(c)
  {
    forall i | 0 <= i < |c.nodes|
      ensures c.Node(c.nodes[i].name) == Some(c.nodes[i])
      ensures At(reserved, c.nodes[i].name) == ReservedOn(c, c.reservations, c.nodes[i].name)
    {
      FindNodeUnique(c.nodes, i);
    }
    forall k | k in reserved
      ensures exists i | 0 <= i < |c.nodes| :: c.nodes[i].name == k
      ensures reserved[k] == At(reserved, k)
    {
      FindNodeSound(c.nodes, k);
    }
  }

  lemma {:induction false} SlotsAgree(c: Config, reserved: map<Key, Resources>, slots: map<Key, int>)
    requires UniquePools(c.pools) && (forall i | 0 <= i < |c.pools| :: PoolOK(c, c.pools[i]))
    requires forall i | 0 <= i < |c.reservations| :: ReservationOK(c, c.reservations[i])
    requires Tallied(c, c.reservations, reserved, slots)
    ensures AllCounted(c, slots) <==> SlotsFit(c)
  {
    forall i | 0 <= i < |c.pools|
      ensures c.Pool(c.pools[i].name) == Some(c.pools[i])
      ensures CountAt(slots, c.pools[i].name) == SlotsOf(c.reservations, c.pools[i].name)
    {
      FindPoolUnique(c.pools, i);
    }
    forall k | k in slots
      ensures exists i | 0 <= i < |c.pools| :: c.pools[i].name == k
      ensures slots[k] == CountAt(slots, k)
    {
      FindPoolSound(c.pools, k);
    }
  }
}
