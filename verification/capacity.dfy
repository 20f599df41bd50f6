/** checkCapacityUpdate and mergeConfig of internal/core/store.go: which
    configuration changes running VMs allow. */
module Capacity {
  import opened Resources
  import opened Model
  import opened Validate
  import opened Ledger

  predicate Resized(c: Config, a: Instance) {
    && !a.held.Empty()
    && match c.Pool(a.pool.name)
       case None => true
       case Some(p) =>
         || p.Charge() != a.pool.Charge()
         || (match c.Image(p.image) case None => NONE case Some(im) => im.digest) != a.image.digest
         || p.tasks != a.pool.tasks
  }

  function ReservationFault(c: Config, rs: seq<Reservation>, node: Key, runs: seq<Instance>): Option<Fault> {
    if rs == [] then None
    else
      var r := rs[|rs| - 1];
      match ReservationFault(c, rs[..|rs| - 1], node, runs)
      case Some(f) => Some(f)
      case None => if r.node == node && Protect(c, r, runs).Err? then Some(Protect(c, r, runs).fault) else None
  }

  function NodeFault(c: Config, runs: seq<Instance>, n: Node): Option<Fault> {
    if exists i | 0 <= i < |runs| :: runs[i].node == n.name && Resized(c, runs[i]) then Some(PoolInUse)
    else
      match ReservationFault(c, c.reservations, n.name, runs)
      case Some(f) => Some(f)
      case None => if Committed(c, runs, n) then None else Some(BudgetBusy)
  }

  /** The first fault that a check finds, in order. */
  function FirstFault<A>(check: A -> Option<Fault>, s: seq<A>): Option<Fault> {
    if s == [] then None
    else
      match FirstFault(check, s[..|s| - 1])
      case Some(f) => Some(f)
      case None => check(s[|s| - 1])
  }

  lemma {:induction false} FirstFaultAt<A>(check: A -> Option<Fault>, s: seq<A>, i: nat)
    requires i < |s| && FirstFault(check, s[..i]) == None && check(s[i]).Some?
    ensures FirstFault(check, s) == check(s[i])
    decreases |s|
  {
    var front := s[..|s| - 1];
    if i < |front| {
      assert front[..i] == s[..i];
      FirstFaultAt(check, front, i);
    } else {
      assert s[..i] == front;
    }
  }

  lemma {:induction false} NoFaultAt<A>(check: A -> Option<Fault>, s: seq<A>, i: nat)
    requires FirstFault(check, s) == None && i < |s|
    ensures check(s[i]) == None
  {
    if i < |s| - 1 {
      NoFaultAt(check, s[..|s| - 1], i);
    }
  }

  function NodeCheck(c: Config, runs: seq<Instance>): Node -> Option<Fault> {
    n => NodeFault(c, runs, n)
  }

  predicate PoolsWithinLimits(c: Config, runs: seq<Instance>) {
    forall i | 0 <= i < |c.pools| :: CountPool(runs, c.pools[i].name) <= c.pools[i].maxRunners
  }

  /** The first fault that checkCapacityUpdate reports, if any. */
  function CapacityFault(c: Config, runs: seq<Instance>): Option<Fault> {
    if !OwnersOK(c, runs) then Some(ReservationBusy)
    else if !PoolsWithinLimits(c, runs) then Some(PoolLimitBusy)
    else FirstFault(NodeCheck(c, runs), c.nodes)
  }

  method CountHolders(runs: seq<Instance>, pool: Key) returns (count: int)
    ensures count == CountPool(runs, pool)
  {
    count := 0;
    for i := 0 to |runs|
      invariant count == CountPool(runs[..i], pool)
    {
      assert Init(runs[..i + 1]) == runs[..i];
      if runs[i].pool.name == pool && !runs[i].held.Empty() {
        count := count + 1;
      }
    }
    assert runs[..|runs|] == runs;
  }

  method SumHolds(runs: seq<Instance>, node: Key) returns (held: Resources)
    ensures held == HeldOn(runs, node)
  {
    held := ZERO;
    for i := 0 to |runs|
      invariant held == HeldOn(runs[..i], node)
    {
      assert Init(runs[..i + 1]) == runs[..i];
      if runs[i].node == node {
        held := held.Add(runs[i].held);
      }
    }
    assert runs[..|runs|] == runs;
  }

  method CheckNode(c: Config, runs: seq<Instance>, n: Node) returns (fault: Option<Fault>)
    ensures fault == NodeFault(c, runs, n)
  {
    for i := 0 to |runs|
      invariant forall k | 0 <= k < i :: !(runs[k].node == n.name && Resized(c, runs[k]))
    {
      if runs[i].node == n.name && Resized(c, runs[i]) {
        return Some(PoolInUse);
      }
    }
    var held := SumHolds(runs, n.name);
    var protected := ZERO;
    var rs := c.reservations;
    for i := 0 to |rs|
      invariant ReservationFault(c, rs[..i], n.name, runs) == None
      invariant protected == ProtectedOn(c, rs[..i], n.name, runs)
    {
      assert rs[..i + 1][..i] == rs[..i];
      if rs[i].node != n.name {
        continue;
      }
      var p := ReservationProtection(c, rs[i], runs);
      if p.Err? {
        FirstReservationFault(c, rs, i, n.name, runs);
        assert rs[..|rs|] == rs;
        return Some(p.fault);
      }
      protected := protected.Add(p.value.amount);
    }
    assert rs[..|rs|] == rs;
    if !held.Add(protected).Fits(n.budget) {
      return Some(BudgetBusy);
    }
    return None;
  }

  lemma {:induction false} FirstReservationFault(c: Config, rs: seq<Reservation>, i: nat, node: Key, runs: seq<Instance>)
    requires i < |rs| && ReservationFault(c, rs[..i], node, runs) == None
    requires rs[i].node == node && Protect(c, rs[i], runs).Err?
    ensures ReservationFault(c, rs, node, runs) == Some(Protect(c, rs[i], runs).fault)
    decreases |rs|
  {
    var front := rs[..|rs| - 1];
    if i < |front| {
      assert front[..i] == rs[..i];
      FirstReservationFault(c, front, i, node, runs);
    } else {
      assert rs[..i] == front;
    }
  }

  method CheckPools(c: Config, runs: seq<Instance>) returns (ok: bool)
    ensures ok <==> PoolsWithinLimits(c, runs)
  {
    for i := 0 to |c.pools|
      invariant forall k | 0 <= k < i :: CountPool(runs, c.pools[k].name) <= c.pools[k].maxRunners
    {
      var count := CountHolders(runs, c.pools[i].name);
      if count > c.pools[i].maxRunners {
        return false;
      }
    }
    return true;
  }

  method CheckNodeAs(c: Config, runs: seq<Instance>, n: Node) returns (fault: Option<Fault>)
    ensures fault == NodeCheck(c, runs)(n)
  {
    fault := CheckNode(c, runs, n);
  }

  method CheckNodes(c: Config, runs: seq<Instance>) returns (fault: Option<Fault>)
    ensures fault == FirstFault(NodeCheck(c, runs), c.nodes)
  {
    ghost var check := NodeCheck(c, runs);
    for i := 0 to |c.nodes|
      invariant FirstFault(check, c.nodes[..i]) == None
    {
      assert c.nodes[..i + 1][..i] == c.nodes[..i];
      fault := CheckNodeAs(c, runs, c.nodes[i]);
      if fault.Some? {
        FirstFaultAt(check, c.nodes, i);
        return;
      }
    }
    assert c.nodes[..|c.nodes|] == c.nodes;
    return None;
  }

  method CheckCapacityUpdate(c: Config, runs: seq<Instance>) returns (fault: Option<Fault>)
    ensures fault == CapacityFault(c, runs)
  {
    var ok := ValidateReservationOwners(c, runs);
    if !ok {
      return Some(ReservationBusy);
    }
    ok := CheckPools(c, runs);
    if !ok {
      return Some(PoolLimitBusy);
    }
    fault := CheckNodes(c, runs);
  }

  lemma {:induction false} NoReservationFault(c: Config, rs: seq<Reservation>, node: Key, runs: seq<Instance>, i: nat)
    requires ReservationFault(c, rs, node, runs) == None && i < |rs| && rs[i].node == node
    ensures Protect(c, rs[i], runs).Ok?
  {
    if i < |rs| - 1 {
      NoReservationFault(c, rs[..|rs| - 1], node, runs, i);
    }
  }

  /** Names that exist keep existing. */
  ghost predicate Covers(before: Config, next: Config) {
    && (forall name :: before.Node(name).Some? ==> next.Node(name).Some?)
    && (forall name :: before.Pool(name).Some? ==> next.Pool(name).Some?)
  }

  lemma {:induction false} NodePasses(c: Config, runs: seq<Instance>, node: Key) returns (n: Node)
    requires CapacityFault(c, runs) == None && c.Node(node).Some?
    ensures n.name == node && NodeFault(c, runs, n) == None
  {
    FindNodeSound(c.nodes, node);
    var i :| 0 <= i < |c.nodes| && c.nodes[i].name == node;
    NoFaultAt(NodeCheck(c, runs), c.nodes, i);
    n := c.nodes[i];
  }

  lemma {:induction false} HolderBacked(c: Config, runs: seq<Instance>, i: nat)
    requires Valid(c) && CapacityFault(c, runs) == None && i < |runs|
    requires c.Node(runs[i].node).Some? && c.Pool(runs[i].pool.name).Some?
    ensures Backed(c, runs[i])
  {
    var n := NodePasses(c, runs, runs[i].node);
    assert !Resized(c, runs[i]);
    FindPoolSound(c.pools, runs[i].pool.name);
    var k :| 0 <= k < |c.pools| && c.pools[k] == c.Pool(runs[i].pool.name).value;
    assert PoolOK(c, c.pools[k]);
  }

  lemma {:induction false} SlotsSuffice(c: Config, runs: seq<Instance>, i: nat)
    requires Valid(c) && CapacityFault(c, runs) == None && i < |c.reservations|
    ensures UsedSlots(runs, c.reservations[i].name) <= c.reservations[i].slots
  {
    var r := c.reservations[i];
    assert ReservationOK(c, r);
    var n := NodePasses(c, runs, r.node);
    NoReservationFault(c, c.reservations, r.node, runs, i);
  }

  lemma {:induction false} NodesCommitted(c: Config, runs: seq<Instance>)
    requires CapacityFault(c, runs) == None
    ensures forall i | 0 <= i < |c.nodes| :: Committed(c, runs, c.nodes[i])
    ensures forall i | 0 <= i < |c.pools| :: CountPool(runs, c.pools[i].name) <= c.pools[i].maxRunners
    ensures OwnersOK(c, runs)
  {
    forall i | 0 <= i < |c.nodes|
      ensures Committed(c, runs, c.nodes[i])
    {
      NoFaultAt(NodeCheck(c, runs), c.nodes, i);
    }
  }

  lemma {:induction false} ChangedBooks(before: Config, next: Config, runs: seq<Instance>)
    requires Valid(next) && CapacityFault(next, runs) == None && OwnersOK(next, runs)
    requires Covers(before, next)
    requires forall i | 0 <= i < |runs| ::
               HoldingOK(runs[i]) && before.Pool(runs[i].pool.name).Some? && before.Node(runs[i].node).Some?
    ensures Books(next, runs)
  {
    forall i | 0 <= i < |runs|
      ensures Backed(next, runs[i]) && next.Node(runs[i].node).Some?
    {
      HolderBacked(next, runs, i);
    }
    forall i | 0 <= i < |next.reservations|
      ensures UsedSlots(runs, next.reservations[i].name) <= next.reservations[i].slots
    {
      SlotsSuffice(next, runs, i);
    }
  }

  /** A change that checkCapacityUpdate accepts keeps the whole ledger: the
      new budgets, limits, sizes and reservations all cover what runs. */
  lemma {:induction false} AcceptedChangeBalances(before: Config, next: Config, runs: seq<Instance>)
    requires Valid(next) && CapacityFault(next, runs) == None
    requires Covers(before, next)
    requires forall i | 0 <= i < |runs| ::
               HoldingOK(runs[i]) && before.Pool(runs[i].pool.name).Some? && before.Node(runs[i].node).Some?
    ensures Balanced(next, runs)
  {
    NodesCommitted(next, runs);
    assert Books(next, runs) by {
      ChangedBooks(before, next, runs);
    }
  }

  // ---- mergeConfig ----

  predicate HasName<T(!new)>(name: T -> Key, s: seq<T>, key: Key) {
    exists i | 0 <= i < |s| :: name(s[i]) == key
  }

  /** Omission keeps: entries whose names are missing are carried over. */
  function Merged<T(!new)>(name: T -> Key, olds: seq<T>, next: seq<T>): seq<T> {
    if olds == [] then next
    else
      var kept := Merged(name, olds[..|olds| - 1], next);
      var v := olds[|olds| - 1];
      if HasName(name, kept, name(v)) then kept else kept + [v]
  }

  method Merge<T(!new)>(name: T -> Key, olds: seq<T>, next: seq<T>) returns (r: seq<T>)
    ensures r == Merged(name, olds, next)
  {
    r := next;
    for i := 0 to |olds|
      invariant r == Merged(name, olds[..i], next)
    {
      assert olds[..i + 1][..i] == olds[..i];
      if !HasName(name, r, name(olds[i])) {
        r := r + [olds[i]];
      }
    }
    assert olds[..|olds|] == olds;
  }

  lemma {:induction false} MergedKeeps<T(!new)>(name: T -> Key, olds: seq<T>, next: seq<T>)
    ensures next <= Merged(name, olds, next)
    ensures forall i | 0 <= i < |olds| :: HasName(name, Merged(name, olds, next), name(olds[i]))
    ensures forall v | v in Merged(name, olds, next) :: v in next || (v in olds && !HasName(name, next, name(v)))
  {
    if olds != [] {
      var front, v := olds[..|olds| - 1], olds[|olds| - 1];
      MergedKeeps(name, front, next);
      var kept, all := Merged(name, front, next), Merged(name, olds, next);
      assert forall i | 0 <= i < |kept| :: all[i] == kept[i];
      forall i | 0 <= i < |olds|
        ensures HasName(name, all, name(olds[i]))
      {
        if i < |front| {
          assert front[i] == olds[i];
          var j :| 0 <= j < |kept| && name(kept[j]) == name(olds[i]);
          assert name(all[j]) == name(olds[i]);
        } else if all != kept {
          assert all[|kept|] == v;
        }
      }
      assert forall i | 0 <= i < |next| :: next[i] == kept[i];
    }
  }

  function NodeKey(n: Node): Key { n.name }
  function PoolKey(p: Pool): Key { p.name }
  function ImageKey(im: Image): Key { im.name }
  function ReservationKey(r: Reservation): Key { r.name }

  function MergeConfig(before: Config, next: Config): Config {
    next.(nodes := Merged(NodeKey, before.nodes, next.nodes),
          pools := Merged(PoolKey, before.pools, next.pools),
          images := Merged(ImageKey, before.images, next.images),
          reservations := Merged(ReservationKey, before.reservations, next.reservations))
  }

  /** A merged plan never loses a node or a pool, so no VM can be orphaned by
      a later apply. */
  lemma {:induction false} MergeCovers(before: Config, next: Config)
    ensures Covers(before, MergeConfig(before, next))
    ensures next.nodes <= MergeConfig(before, next).nodes
    ensures next.pools <= MergeConfig(before, next).pools
    ensures next.reservations <= MergeConfig(before, next).reservations
  {
    var m := MergeConfig(before, next);
    MergedKeeps(NodeKey, before.nodes, next.nodes);
    MergedKeeps(PoolKey, before.pools, next.pools);
    MergedKeeps(ReservationKey, before.reservations, next.reservations);
    forall name | before.Node(name).Some?
      ensures m.Node(name).Some?
    {
      FindNodeSound(before.nodes, name);
      var i :| 0 <= i < |before.nodes| && before.nodes[i].name == name;
      assert HasName(NodeKey, m.nodes, NodeKey(before.nodes[i]));
      FindNodeSound(m.nodes, name);
    }
    forall name | before.Pool(name).Some?
      ensures m.Pool(name).Some?
    {
      FindPoolSound(before.pools, name);
      var i :| 0 <= i < |before.pools| && before.pools[i].name == name;
      assert HasName(PoolKey, m.pools, PoolKey(before.pools[i]));
      FindPoolSound(m.pools, name);
    }
  }
}
