/** checkCapacityUpdate in 64-bit arithmetic: whichever valid configuration is
    applied to whichever reachable tables, its verdict rests on no wrapped
    sum, before anything is known of the new ledger. */
module ApplyExact {
  import opened Resources
  import opened Model
  import opened Validate
  import opened Ledger
  import opened Capacity
  import opened State
  import opened Consistency
  import opened Runs
  import opened NoWrap

  // ---- The check as Go evaluates it ----

  function HeldPlus64(c: Config, rs: seq<Reservation>, node: Key, runs: seq<Instance>): Resources {
    if rs == [] then HeldOn64(runs, node)
    else
      var r := rs[|rs| - 1];
      var before := HeldPlus64(c, rs[..|rs| - 1], node, runs);
      if r.node == node && Protect64(c, r, runs).Ok? then Add64(before, Protect64(c, r, runs).value.amount) else before
  }

  function ReservationFault64(c: Config, rs: seq<Reservation>, node: Key, runs: seq<Instance>): Option<Fault> {
    if rs == [] then None
    else
      var r := rs[|rs| - 1];
      match ReservationFault64(c, rs[..|rs| - 1], node, runs)
      case Some(f) => Some(f)
      case None => if r.node == node && Protect64(c, r, runs).Err? then Some(Protect64(c, r, runs).fault) else None
  }

  function NodeFault64(c: Config, runs: seq<Instance>, n: Node): Option<Fault> {
    if exists i | 0 <= i < |runs| :: runs[i].node == n.name && Resized(c, runs[i]) then Some(PoolInUse)
    else
      match ReservationFault64(c, c.reservations, n.name, runs)
      case Some(f) => Some(f)
      case None => if HeldPlus64(c, c.reservations, n.name, runs).Fits(n.budget) then None else Some(BudgetBusy)
  }

  function NodeCheck64(c: Config, runs: seq<Instance>): Node -> Option<Fault> {
    n => NodeFault64(c, runs, n)
  }

  function CapacityFault64(c: Config, runs: seq<Instance>): Option<Fault> {
    if !OwnersOK(c, runs) then Some(ReservationBusy)
    else if !PoolsWithinLimits(c, runs) then Some(PoolLimitBusy)
    else FirstFault(NodeCheck64(c, runs), c.nodes)
  }

  // ---- One reservation ----

  predicate Sized(c: Config, r: Reservation) {
    c.Pool(r.pool).Some? && 1 <= r.slots <= 10000
  }

  ghost predicate WithinSlots(c: Config, r: Reservation, runs: seq<Instance>) {
    Protect(c, r, runs).Ok? ==>
      forall k: Kind :: 0 <= Protect(c, r, runs).value.amount.Of(k) <= c.ChargeOf(r.pool).Mul(r.slots).Of(k)
  }

  /** What protects a reservation is exact whether or not its VMs fit the new
      configuration. */
  lemma {:induction false} AnyProtectExact(c: Config, r: Reservation, runs: seq<Instance>)
    requires AllSizes(c) && Sized(c, r) && forall i | 0 <= i < |runs| :: HoldingOK(runs[i])
    ensures Protect64(c, r, runs) == Protect(c, r, runs) && WithinSlots(c, r, runs)
  {
    if Protect(c, r, runs).Ok? {
      var charge, used := c.ChargeOf(r.pool), UsedSlots(runs, r.name);
      ChargeBounded(c, r.pool);
      forall k: Kind
        ensures 0 <= HeldByOf(runs, r.name, k) <= charge.Mul(r.slots).Of(k)
      {
        HeldByWithin(c, r, runs, k);
        MulMonotone(charge, used, r.slots, k);
      }
      MulBounded(charge, r.slots);
      FullExact(charge.Mul(r.slots), HeldBy(runs, r.name));
      HeldByExact(runs, r.name);
      UsedBounded(runs, r.name);
    }
  }

  lemma {:induction false} FullExact(full: Resources, held: Resources)
    requires full.NonNegative() && full.Within(SLOT_BOUND) && forall k: Kind :: 0 <= held.Of(k) <= full.Of(k)
    ensures WrapAll(full) == full && WrapAll(full.Sub(held)) == full.Sub(held) && Modest(held)
    ensures forall k: Kind :: 0 <= full.Sub(held).Of(k) <= full.Of(k)
  {
    assert 0 <= held.Of(CPU) <= full.Of(CPU) && 0 <= held.Of(Memory) <= full.Of(Memory) && 0 <= held.Of(Disk) <= full.Of(Disk);
    WrapAllIdentity(full);
    WrapAllIdentity(full.Sub(held));
  }

  // ---- One node ----

  lemma {:induction false} ProtectedBounded(c: Config, rs: seq<Reservation>, node: Key, runs: seq<Instance>, k: Kind)
    requires AllSizes(c) && |rs| <= 4096 && (forall i | 0 <= i < |rs| :: Sized(c, rs[i]))
    requires forall i | 0 <= i < |runs| :: HoldingOK(runs[i])
    ensures 0 <= ProtectedOf(c, rs, node, runs, k) <= ReservedOf(c, rs, node, k) <= |rs| * SLOT_BOUND
  {
    ReservedOfBounded(c, rs, node, k);
    if rs != [] {
      var front, r := rs[..|rs| - 1], rs[|rs| - 1];
      assert forall i | 0 <= i < |front| :: front[i] == rs[i];
      ProtectedBounded(c, front, node, runs, k);
      AnyProtectExact(c, r, runs);
      ChargeBounded(c, r.pool);
      MulBounded(c.ChargeOf(r.pool), r.slots);
    }
  }

  predicate Small(r: Resources) {
    r.NonNegative() && r.Within(1073741824)
  }

  ghost predicate AllSized(c: Config, rs: seq<Reservation>, runs: seq<Instance>) {
    && AllSizes(c) && |rs| <= 4096 && (forall i | 0 <= i < |rs| :: Sized(c, rs[i]))
    && (forall i | 0 <= i < |runs| :: HoldingOK(runs[i]))
  }

  lemma {:induction false} FrontSized(c: Config, rs: seq<Reservation>, runs: seq<Instance>)
    requires AllSized(c, rs, runs) && rs != []
    ensures AllSized(c, rs[..|rs| - 1], runs)
    ensures Protect64(c, rs[|rs| - 1], runs) == Protect(c, rs[|rs| - 1], runs)
  {
    assert forall i | 0 <= i < |rs| - 1 :: rs[..|rs| - 1][i] == rs[i];
    AnyProtectExact(c, rs[|rs| - 1], runs);
  }

  lemma {:induction false} FaultsExact(c: Config, rs: seq<Reservation>, node: Key, runs: seq<Instance>)
    requires AllSized(c, rs, runs)
    ensures ReservationFault64(c, rs, node, runs) == ReservationFault(c, rs, node, runs)
  {
    if rs != [] {
      FrontSized(c, rs, runs);
      FaultsExact(c, rs[..|rs| - 1], node, runs);
    }
  }

  lemma {:induction false} ProtectedStep(c: Config, rs: seq<Reservation>, node: Key, runs: seq<Instance>)
    requires rs != []
    ensures var r, before := rs[|rs| - 1], ProtectedOn(c, rs[..|rs| - 1], node, runs);
            ProtectedOn(c, rs, node, runs)
              == if r.node == node && Protect(c, r, runs).Ok? then before.Add(Protect(c, r, runs).value.amount) else before
  {
  }

  lemma {:induction false} HeldPlusExact(c: Config, rs: seq<Reservation>, node: Key, runs: seq<Instance>)
    requires AllSized(c, rs, runs) && Small(HeldOn(runs, node))
    ensures HeldPlus64(c, rs, node, runs) == HeldOn(runs, node).Add(ProtectedOn(c, rs, node, runs))
  {
    if rs == [] {
      HeldExact(runs, node);
    } else {
      FrontSized(c, rs, runs);
      HeldPlusExact(c, rs[..|rs| - 1], node, runs);
      ProtectedStep(c, rs, node, runs);
      var r, held, before := rs[|rs| - 1], HeldOn(runs, node), ProtectedOn(c, rs[..|rs| - 1], node, runs);
      if r.node == node && Protect(c, r, runs).Ok? {
        AllBounded(c, rs, node, runs);
        OneMoreExact(held, before, Protect(c, r, runs).value.amount, ProtectedOn(c, rs, node, runs));
      }
    }
  }

  lemma {:induction false} OneMoreExact(held: Resources, before: Resources, amount: Resources, after: Resources)
    requires Small(held) && after == before.Add(amount) && after.NonNegative() && after.Within(4096 * SLOT_BOUND)
    ensures Add64(held.Add(before), amount) == held.Add(after)
  {
    WrapAllIdentity(held.Add(after));
  }

  lemma {:induction false} AllBounded(c: Config, rs: seq<Reservation>, node: Key, runs: seq<Instance>)
    requires AllSizes(c) && |rs| <= 4096 && (forall i | 0 <= i < |rs| :: Sized(c, rs[i]))
    requires forall i | 0 <= i < |runs| :: HoldingOK(runs[i])
    ensures ProtectedOn(c, rs, node, runs).NonNegative() && ProtectedOn(c, rs, node, runs).Within(4096 * SLOT_BOUND)
  {
    ProtectedBounded(c, rs, node, runs, CPU);
    ProtectedBounded(c, rs, node, runs, Memory);
    ProtectedBounded(c, rs, node, runs, Disk);
  }

  // ---- The whole check ----

  lemma {:induction false} HoldsNothing(runs: seq<Instance>, node: Key)
    requires forall i | 0 <= i < |runs| :: runs[i].node != node
    ensures HeldOn(runs, node) == ZERO
  {
    if runs != [] {
      HoldsNothing(Init(runs), node);
    }
  }

  /** What runs on any node, known to the configuration or not, is small. */
  lemma {:induction false} HeldSmall(c: Config, runs: seq<Instance>, node: Key)
    requires Valid(c) && Balanced(c, runs)
    ensures Small(HeldOn(runs, node))
  {
    if i :| 0 <= i < |runs| && runs[i].node == node {
      FindNodeSound(c.nodes, node);
      var k :| 0 <= k < |c.nodes| && c.nodes[k].name == node;
      NodeSums(c, runs, k);
    } else {
      HoldsNothing(runs, node);
    }
  }

  lemma {:induction false} SameFirst<A>(f: A -> Option<Fault>, g: A -> Option<Fault>, s: seq<A>)
    requires forall i | 0 <= i < |s| :: f(s[i]) == g(s[i])
    ensures FirstFault(f, s) == FirstFault(g, s)
  {
    if s != [] {
      var front := s[..|s| - 1];
      assert forall i | 0 <= i < |front| :: front[i] == s[i];
      SameFirst(f, g, front);
    }
  }

  ghost predicate SmallHolds(runs: seq<Instance>) {
    (forall i | 0 <= i < |runs| :: HoldingOK(runs[i])) && forall node :: Small(HeldOn(runs, node))
  }

  /** Whatever valid configuration is to replace the one that runs. */
  lemma {:induction false} ChangeExact(next: Config, runs: seq<Instance>)
    requires SmallHolds(runs) && Valid(next)
    ensures CapacityFault64(next, runs) == CapacityFault(next, runs)
  {
    assert AllSizes(next) by {
      assert forall i | 0 <= i < |next.pools| :: PoolOK(next, next.pools[i]);
    }
    forall i | 0 <= i < |next.reservations|
      ensures Sized(next, next.reservations[i])
    {
      assert ReservationOK(next, next.reservations[i]);
    }
    forall i | 0 <= i < |next.nodes|
      ensures NodeCheck64(next, runs)(next.nodes[i]) == NodeCheck(next, runs)(next.nodes[i])
    {
      HeldPlusExact(next, next.reservations, next.nodes[i].name, runs);
      FaultsExact(next, next.reservations, next.nodes[i].name, runs);
    }
    SameFirst(NodeCheck64(next, runs), NodeCheck(next, runs), next.nodes);
  }

  lemma {:induction false} ReachedSmall(s: Store)
    requires Sound(s)
    ensures SmallHolds(s.runs)
  {
    forall node
      ensures Small(HeldOn(s.runs, node))
    {
      if s.revision == 0 {
        HoldsNothing(s.runs, node);
      } else {
        HeldSmall(s.config, s.runs, node);
      }
    }
  }

  /** No verdict of Apply in any reachable state rests on a wrapped sum. */
  lemma {:induction false} ApplyNeverWraps(ops: seq<Timed>, next: Config)
    requires Valid(next)
    ensures CapacityFault64(next, Run(ops).runs) == CapacityFault(next, Run(ops).runs)
  {
    AlwaysSound(ops);
    ReachedSmall(Run(ops));
    ChangeExact(next, Run(ops).runs);
  }
}
