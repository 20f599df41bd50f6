/** In every reachable state, the 64-bit sums of reservationProtection and
    candidates equal their mathematical values. */
module NoWrap {
  import opened Resources
  import opened Model
  import opened Validate
  import opened Ledger
  import opened Capacity
  import opened Placement
  import opened State
  import opened Transactions
  import opened Sync
  import opened Consistency
  import opened Runs
  import opened Soundness
  import opened Lifecycle

  // ---- The sums as Go evaluates them ----

  function HeldOn64(runs: seq<Instance>, node: Key): Resources {
    if runs == [] then ZERO
    else if Last(runs).node == node then Add64(HeldOn64(Init(runs), node), Last(runs).held)
    else HeldOn64(Init(runs), node)
  }

  function HeldBy64(runs: seq<Instance>, reservation: Key): Resources {
    if runs == [] then ZERO
    else if Last(runs).reservation == reservation then Add64(HeldBy64(Init(runs), reservation), Last(runs).held)
    else HeldBy64(Init(runs), reservation)
  }

  function Protect64(c: Config, r: Reservation, runs: seq<Instance>): Result<Protection> {
    match c.Pool(r.pool)
    case None => Err(ReservationInconsistent)
    case Some(p) =>
      if exists i | 0 <= i < |runs| :: !SlotMatches(p, r, runs[i]) then Err(ReservationInconsistent)
      else if UsedSlots(runs, r.name) > r.slots then Err(ReservationBusy)
      else Ok(Protection(Sub64(Mul64(p.Charge(), r.slots), HeldBy64(runs, r.name)), Wrap(r.slots - UsedSlots(runs, r.name))))
  }

  function ProtectedOn64(c: Config, rs: seq<Reservation>, node: Key, runs: seq<Instance>): Resources {
    if rs == [] then ZERO
    else
      var r := rs[|rs| - 1];
      var before := ProtectedOn64(c, rs[..|rs| - 1], node, runs);
      if r.node == node && Protect64(c, r, runs).Ok? then Add64(before, Protect64(c, r, runs).value.amount) else before
  }

  function Available64(c: Config, p: Pool, runs: seq<Instance>, n: Node): Resources {
    var rest := Sub64(Sub64(n.budget, HeldOn64(runs, n.name)), ProtectedOn64(c, c.reservations, n.name, runs));
    if FreeSlot(c, c.reservations, n.name, runs, p.name) != NONE then Add64(rest, p.Charge()) else rest
  }

  function Physical64(c: Config, p: Pool, runs: seq<Instance>, o: Observation, n: Node): int {
    var free := Wrap(Wrap(Wrap(o.freeDiskGiB - 2) - HeldOn64(runs, n.name).disk) - ProtectedOn64(c, c.reservations, n.name, runs).disk);
    if FreeSlot(c, c.reservations, n.name, runs, p.name) != NONE then Wrap(free + p.Charge().disk) else free
  }

  // ---- Bounds ----

  /** Far below 2^63, far above anything the limits allow. */
  const ROOM := 0x4000_0000_0000_0000

  predicate Modest(r: Resources) {
    r.NonNegative() && r.Within(ROOM)
  }

  lemma {:induction false} AddExact(a: Resources, b: Resources)
    requires Modest(a) && b.NonNegative() && Modest(a.Add(b))
    ensures Add64(a, b) == a.Add(b)
  {
    WrapAllIdentity(a.Add(b));
  }

  lemma {:induction false} HeldExact(runs: seq<Instance>, node: Key)
    requires forall i | 0 <= i < |runs| :: HoldingOK(runs[i])
    requires Modest(HeldOn(runs, node))
    ensures HeldOn64(runs, node) == HeldOn(runs, node)
  {
    if runs != [] {
      assert HoldingOK(runs[|runs| - 1]);
      assert HeldOn(runs, node) == if Last(runs).node == node then HeldOn(Init(runs), node).Add(Last(runs).held) else HeldOn(Init(runs), node);
      HeldPositive(Init(runs), node);
      HeldExact(Init(runs), node);
      if Last(runs).node == node {
        AddExact(HeldOn(Init(runs), node), Last(runs).held);
      }
    }
  }

  lemma {:induction false} HeldPositive(runs: seq<Instance>, node: Key)
    requires forall i | 0 <= i < |runs| :: HoldingOK(runs[i])
    ensures HeldOn(runs, node).NonNegative()
  {
    GeneralNonNegative(runs, node, CPU);
    GeneralNonNegative(runs, node, Memory);
    GeneralNonNegative(runs, node, Disk);
  }

  lemma {:induction false} HeldByPositive(runs: seq<Instance>, reservation: Key)
    requires forall i | 0 <= i < |runs| :: HoldingOK(runs[i])
    ensures HeldBy(runs, reservation).NonNegative()
  {
    if runs != [] {
      assert HoldingOK(runs[|runs| - 1]);
      HeldByPositive(Init(runs), reservation);
    }
  }

  lemma {:induction false} HeldByExact(runs: seq<Instance>, reservation: Key)
    requires forall i | 0 <= i < |runs| :: HoldingOK(runs[i])
    requires Modest(HeldBy(runs, reservation))
    ensures HeldBy64(runs, reservation) == HeldBy(runs, reservation)
  {
    if runs != [] {
      assert HoldingOK(runs[|runs| - 1]);
      assert HeldBy(runs, reservation)
          == if Last(runs).reservation == reservation then HeldBy(Init(runs), reservation).Add(Last(runs).held) else HeldBy(Init(runs), reservation);
      HeldByPositive(Init(runs), reservation);
      HeldByExact(Init(runs), reservation);
      if Last(runs).reservation == reservation {
        AddExact(HeldBy(Init(runs), reservation), Last(runs).held);
      }
    }
  }

  lemma {:induction false} UsedBounded(runs: seq<Instance>, name: Key)
    ensures 0 <= UsedSlots(runs, name)
  {
    if runs != [] {
      UsedBounded(Init(runs), name);
    }
  }

  /** reservationProtection never wraps on books that balance. */
  lemma {:induction false} ProtectExact(c: Config, runs: seq<Instance>, i: nat)
    requires Valid(c) && Books(c, runs) && i < |c.reservations|
    ensures Protect64(c, c.reservations[i], runs) == Protect(c, c.reservations[i], runs)
    ensures Protect(c, c.reservations[i], runs).Ok? && Modest(Protect(c, c.reservations[i], runs).value.amount)
  {
    var r := c.reservations[i];
    ProtectionBalances(c, runs, i);
    assert ReservationOK(c, r);
    assert Accounted(c, runs, r);
    ChargeBounded(c, r.pool) by {
      assert forall j | 0 <= j < |c.pools| :: PoolOK(c, c.pools[j]);
    }
    var full, held := c.ChargeOf(r.pool).Mul(r.slots), HeldBy(runs, r.name);
    MulBounded(c.ChargeOf(r.pool), r.slots);
    HeldByPositive(runs, r.name);
    var amount := Protect(c, r, runs).value.amount;
    assert amount == full.Sub(held);
    assert 0 <= amount.Of(CPU) && 0 <= amount.Of(Memory) && 0 <= amount.Of(Disk);
    HeldByExact(runs, r.name);
    WrapAllIdentity(full);
    WrapAllIdentity(amount);
    UsedBounded(runs, r.name);
  }

  lemma {:induction false} ProtectedExact(c: Config, rs: seq<Reservation>, node: Key, runs: seq<Instance>)
    requires forall i | 0 <= i < |rs| ::
               Protect64(c, rs[i], runs) == Protect(c, rs[i], runs) && Protect(c, rs[i], runs).Ok?
               && Protect(c, rs[i], runs).value.amount.NonNegative()
    requires Modest(ProtectedOn(c, rs, node, runs))
    ensures ProtectedOn64(c, rs, node, runs) == ProtectedOn(c, rs, node, runs)
    ensures ProtectedOn(c, rs, node, runs).NonNegative()
  {
    if rs != [] {
      var front, r := rs[..|rs| - 1], rs[|rs| - 1];
      assert forall i | 0 <= i < |front| :: front[i] == rs[i];
      var amount := Protect(c, r, runs).value.amount;
      assert ProtectedOn(c, rs, node, runs) == if r.node == node then ProtectedOn(c, front, node, runs).Add(amount) else ProtectedOn(c, front, node, runs);
      ProtectedPositive(c, front, node, runs);
      ProtectedExact(c, front, node, runs);
      if r.node == node {
        AddExact(ProtectedOn(c, front, node, runs), amount);
      }
    }
  }

  lemma {:induction false} ProtectedPositive(c: Config, rs: seq<Reservation>, node: Key, runs: seq<Instance>)
    requires forall i | 0 <= i < |rs| :: Protect(c, rs[i], runs).Ok? && Protect(c, rs[i], runs).value.amount.NonNegative()
    ensures ProtectedOn(c, rs, node, runs).NonNegative()
  {
    if rs != [] {
      assert Protect(c, rs[|rs| - 1], runs).Ok?;
      ProtectedPositive(c, rs[..|rs| - 1], node, runs);
    }
  }

  lemma {:induction false} NodeSums(c: Config, runs: seq<Instance>, i: nat)
    requires Valid(c) && Balanced(c, runs) && i < |c.nodes|
    ensures var n := c.nodes[i];
            && n.budget.Within(1073741824) && n.budget.NonNegative()
            && Modest(HeldOn(runs, n.name)) && HeldOn(runs, n.name).Within(1073741824)
            && Modest(ProtectedOn(c, c.reservations, n.name, runs)) && ProtectedOn(c, c.reservations, n.name, runs).Within(1073741824)
  {
    var n := c.nodes[i];
    assert NodeOK(n) && Committed(c, runs, n);
    HeldPositive(runs, n.name);
    Conservation(c, runs, n.name, CPU);
    Conservation(c, runs, n.name, Memory);
    Conservation(c, runs, n.name, Disk);
  }

  ghost predicate BooksExact(c: Config, runs: seq<Instance>) {
    forall j | 0 <= j < |c.reservations| ::
      && Protect64(c, c.reservations[j], runs) == Protect(c, c.reservations[j], runs)
      && Protect(c, c.reservations[j], runs).Ok? && Protect(c, c.reservations[j], runs).value.amount.NonNegative()
  }

  lemma {:induction false} AllBooksExact(c: Config, runs: seq<Instance>)
    requires Valid(c) && Books(c, runs)
    ensures BooksExact(c, runs)
  {
    forall j | 0 <= j < |c.reservations|
      ensures Protect64(c, c.reservations[j], runs) == Protect(c, c.reservations[j], runs)
      ensures Protect(c, c.reservations[j], runs).Ok? && Protect(c, c.reservations[j], runs).value.amount.NonNegative()
    {
      ProtectExact(c, runs, j);
    }
  }

  lemma {:induction false} SumsExact(c: Config, runs: seq<Instance>, i: nat)
    requires Valid(c) && Balanced(c, runs) && i < |c.nodes| && BooksExact(c, runs)
    ensures HeldOn64(runs, c.nodes[i].name) == HeldOn(runs, c.nodes[i].name)
    ensures ProtectedOn64(c, c.reservations, c.nodes[i].name, runs) == ProtectedOn(c, c.reservations, c.nodes[i].name, runs)
  {
    NodeSums(c, runs, i);
    HeldExact(runs, c.nodes[i].name);
    ProtectedExact(c, c.reservations, c.nodes[i].name, runs);
  }

  /** Every Add, Mul and Sub that candidates and reservationProtection
      evaluate is exact. */
  lemma {:induction false} CandidatesExact(c: Config, p: Pool, runs: seq<Instance>, o: Observation, i: nat)
    requires Valid(c) && Balanced(c, runs) && i < |c.nodes| && c.Pool(p.name) == Some(p)
    requires 0 <= o.freeDiskGiB <= 1073741824
    ensures forall j | 0 <= j < |c.reservations| :: Protect64(c, c.reservations[j], runs) == Protect(c, c.reservations[j], runs)
    ensures Available64(c, p, runs, c.nodes[i]) == Available(c, p, runs, c.nodes[i])
    ensures Physical64(c, p, runs, o, c.nodes[i]) == Physical(c, p, runs, o, c.nodes[i])
  {
    var n := c.nodes[i];
    assert BooksExact(c, runs) by {
      AllBooksExact(c, runs);
    }
    assert Exact(c, runs, n) && p.Charge().NonNegative() && p.Charge().Within(1073741824 + 1048576) by {
      SumsExact(c, runs, i);
      NodeSums(c, runs, i);
      assert forall j | 0 <= j < |c.pools| :: PoolOK(c, c.pools[j]);
      ChargeBounded(c, p.name);
    }
    RowExact(c, p, runs, o, n);
  }

  predicate Exact(c: Config, runs: seq<Instance>, n: Node) {
    var held, unused := HeldOn(runs, n.name), ProtectedOn(c, c.reservations, n.name, runs);
    && HeldOn64(runs, n.name) == held && ProtectedOn64(c, c.reservations, n.name, runs) == unused
    && n.budget.NonNegative() && n.budget.Within(1073741824)
    && held.NonNegative() && held.Within(1073741824) && unused.NonNegative() && unused.Within(1073741824)
  }

  lemma {:induction false} RowExact(c: Config, p: Pool, runs: seq<Instance>, o: Observation, n: Node)
    requires Exact(c, runs, n) && 0 <= o.freeDiskGiB <= 1073741824
    requires p.Charge().NonNegative() && p.Charge().Within(1073741824 + 1048576)
    ensures Available64(c, p, runs, n) == Available(c, p, runs, n)
    ensures Physical64(c, p, runs, o, n) == Physical(c, p, runs, o, n)
  {
    RestExact(n.budget, HeldOn(runs, n.name), ProtectedOn(c, c.reservations, n.name, runs), p.Charge());
  }

  lemma {:induction false} RestExact(budget: Resources, held: Resources, unused: Resources, charge: Resources)
    requires budget.NonNegative() && budget.Within(1073741824)
    requires held.NonNegative() && held.Within(1073741824) && unused.NonNegative() && unused.Within(1073741824)
    requires charge.NonNegative() && charge.Within(1073741824 + 1048576)
    ensures Sub64(Sub64(budget, held), unused) == budget.Sub(held).Sub(unused)
    ensures Add64(budget.Sub(held).Sub(unused), charge) == budget.Sub(held).Sub(unused).Add(charge)
  {
    WrapAllIdentity(budget.Sub(held));
    WrapAllIdentity(budget.Sub(held).Sub(unused));
    WrapAllIdentity(budget.Sub(held).Sub(unused).Add(charge));
  }

  // ---- In every reachable state ----

  ghost predicate Measured(obs: map<Key, Observation>) {
    forall k | k in obs :: 0 <= obs[k].freeDiskGiB <= 1073741824
  }

  lemma {:induction false} ConfigMeasures(s: Store, op: Op, now: int)
    requires ByConfig(op)
    ensures Step(s, op, now).obs == s.obs
  {
    match op
    case DoPlan(id, c) =>
    case DoApply(id) =>
    case DoApprove(id, invited) =>
  }

  lemma {:induction false} AsideMeasures(s: Store, op: Op, now: int)
    requires Measured(s.obs) && Aside(op)
    ensures Measured(Step(s, op, now).obs)
  {
  }

  lemma {:induction false} RunMeasures(s: Store, op: Op, now: int)
    requires op.DoAllocate? || op.DoSetJIT? || op.DoStop? || op.DoPersist?
    ensures Step(s, op, now).obs == s.obs
  {
  }

  lemma {:induction false} SubmitMeasures(s: Store, client: Key, spec: TaskSpec, id: Key, instanceID: Key, now: int)
    ensures Submit(s, client, spec, id, instanceID, now).store.obs == s.obs
  {
    if Submit(s, client, spec, id, instanceID, now).store != s {
      NewFrame(s, NewTask(client, spec, id, now), instanceID, now);
    }
  }

  lemma {:induction false} ReportMeasures(s: Store, node: Key, id: Key, r: TaskReport, now: int)
    ensures ReportTask(s, node, id, r, now).store.obs == s.obs
  {
    if ReportTask(s, node, id, r, now).store != s {
      var u := ReportFrame(s, node, id, r, now);
    }
  }

  lemma {:induction false} CancelMeasures(s: Store, client: Key, id: Key, now: int)
    ensures CancelTask(s, client, id, now).store.obs == s.obs
  {
  }

  lemma {:induction false} ClientMeasures(s: Store, op: Op, now: int)
    requires ByClient(op)
    ensures Step(s, op, now).obs == s.obs
  {
    match op
    case DoSubmit(client, spec, id, instanceID) => SubmitMeasures(s, client, spec, id, instanceID, now);
    case DoDispatch(draw) =>
    case DoCancel(client, id) => CancelMeasures(s, client, id, now);
    case DoRevoke(client) =>
    case DoReport(node, id, r) => ReportMeasures(s, node, id, r, now);
  }

  lemma {:induction false} SyncMeasures(s: Store, name: Key, o: NodeReport, now: int)
    requires Measured(s.obs)
    ensures Measured(SyncNode(s, name, o, now).store.obs)
  {
    SyncFrame(s, name, o, now);
  }

  lemma {:induction false} StepMeasures(s: Store, op: Op, now: int)
    requires Measured(s.obs)
    ensures Measured(Step(s, op, now).obs)
  {
    if Aside(op) {
      AsideMeasures(s, op, now);
    } else if ByConfig(op) {
      ConfigMeasures(s, op, now);
    } else if ByClient(op) {
      ClientMeasures(s, op, now);
    } else if op.DoSync? {
      SyncMeasures(s, op.node, op.observation, now);
    } else {
      RunMeasures(s, op, now);
    }
  }

  lemma {:induction false} AlwaysMeasured(ops: seq<Timed>)
    ensures Measured(Run(ops).obs)
  {
    if ops != [] {
      AlwaysMeasured(ops[..|ops| - 1]);
      StepMeasures(Run(ops[..|ops| - 1]), ops[|ops| - 1].op, ops[|ops| - 1].now);
    }
  }

  /** No placement decision in any reachable state rests on a wrapped sum. */
  lemma {:induction false} NeverWraps(ops: seq<Timed>, i: nat, j: nat)
    requires i < |Run(ops).config.nodes| && j < |Run(ops).config.pools|
    ensures var s := Run(ops);
            var n, p := s.config.nodes[i], s.config.pools[j];
            && (forall k | 0 <= k < |s.config.reservations| ::
                  Protect64(s.config, s.config.reservations[k], s.runs) == Protect(s.config, s.config.reservations[k], s.runs))
            && Available64(s.config, p, s.runs, n) == Available(s.config, p, s.runs, n)
            && Physical64(s.config, p, s.runs, ReportOf(s.obs, n.name), n) == Physical(s.config, p, s.runs, ReportOf(s.obs, n.name), n)
  {
    var s := Run(ops);
    assert Valid(s.config) && Balanced(s.config, s.runs) by {
      AlwaysSound(ops);
    }
    AlwaysMeasured(ops);
    FindPoolUnique(s.config.pools, j);
    CandidatesExact(s.config, s.config.pools[j], s.runs, ReportOf(s.obs, s.config.nodes[i].name), i);
  }
}
