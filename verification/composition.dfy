/** The claim the whole system rests on: what the controller counts as free
    is free on the host. */
module Composition {
  import opened Resources
  import opened Model
  import opened Validate
  import opened Ledger
  import opened State
  import opened Sync
  import opened Consistency
  import opened Hosting
  import opened HostSafety
  import opened World

  /** Any run: events of any kind, in any order, from nothing. */
  ghost predicate WorldRun(policy: Policy, ws: seq<World>, es: seq<Event>) {
    && |ws| == |es| + 1 && ws[0] == START
    && forall i | 0 <= i < |es| :: Happens(policy, ws[i], es[i], ws[i + 1])
  }

  /** What holds at first and is kept by every step holds throughout. */
  lemma {:induction false} Throughout<W>(inv: W -> bool, ws: seq<W>, n: nat)
    requires n < |ws| && inv(ws[0])
    requires forall k | 0 < k <= n && inv(ws[k - 1]) :: inv(ws[k])
    ensures inv(ws[n])
  {
    if n > 0 {
      Throughout(inv, ws, n - 1);
    }
  }

  lemma {:induction false} StartOK(policy: Policy)
    requires policy.ceiling.NonNegative()
    ensures WorldOK(policy, START)
  {
  }

  lemma {:induction false} AlwaysWorldOK(policy: Policy, ws: seq<World>, es: seq<Event>, n: nat)
    requires WorldRun(policy, ws, es) && policy.ceiling.NonNegative() && n < |ws|
    ensures WorldOK(policy, ws[n])
  {
    if n == 0 {
      StartOK(policy);
    } else {
      AlwaysWorldOK(policy, ws, es, n - 1);
      EventKeeps(policy, ws[n - 1], es[n - 1], ws[n]);
    }
  }

  ghost predicate Reachable(policy: Policy, w: World) {
    exists ws, es :: WorldRun(policy, ws, es) && ws[|es|] == w
  }

  lemma {:induction false} ReachableOK(policy: Policy, w: World)
    requires Reachable(policy, w) && policy.ceiling.NonNegative()
    ensures WorldOK(policy, w)
  {
    var ws, es :| WorldRun(policy, ws, es) && ws[|es|] == w;
    AlwaysWorldOK(policy, ws, es, |es|);
  }

  // ---- Resource safety ----

  lemma {:induction false} ManifestRow(policy: Policy, w: World, id: Key) returns (i: nat)
    requires Reachable(policy, w) && policy.ceiling.NonNegative() && id in w.host.manifests
    ensures i < |w.store.runs| && w.store.runs[i].id == id && w.store.runs[i].node == policy.node
    ensures w.store.runs[i].pool == w.host.manifests[id].instance.pool
    ensures HeldShape(w.store.runs[i]) && Confirmed(w.host, w.store.runs[i])
  {
    var runs := w.store.runs;
    assert ManifestKnown(policy.node, runs, w.host, id) && RowsAgree(policy.node, runs, w.host) by {
      ReachableOK(policy, w);
    }
    FindInstanceSound(runs, id);
    i :| 0 <= i < |runs| && runs[i] == FindInstance(runs, id).value && runs[i].id == id;
  }

  /** The row that pays for a VM of this node, with the VM's own size. */
  predicate Pays(policy: Policy, w: World, id: Key, a: Instance) {
    a.id == id && a.node == policy.node && id in w.host.manifests && a.pool == w.host.manifests[id].instance.pool
  }

  /** In every reachable state: a running domain's whole charge is held for
      it, and a VM disk directory's disk charge is held for it, on this node,
      whatever was lost, repeated, delayed or cut short. */
  lemma {:induction false} ResourceSafety(policy: Policy, w: World, id: Key)
    requires Reachable(policy, w) && policy.ceiling.NonNegative()
    ensures IsUp(w.host, id) ==>
              exists i :: 0 <= i < |w.store.runs| && Pays(policy, w, id, w.store.runs[i])
                          && w.store.runs[i].held == w.store.runs[i].pool.Charge()
    ensures id in w.host.dirs ==>
              exists i :: 0 <= i < |w.store.runs| && Pays(policy, w, id, w.store.runs[i])
                          && w.store.runs[i].held.disk == w.store.runs[i].pool.Charge().disk
  {
    assert VMOK(w.host, id) by {
      ReachableOK(policy, w);
    }
    if IsUp(w.host, id) || id in w.host.dirs {
      var i := ManifestRow(policy, w, id);
      var a := w.store.runs[i];
      assert Pays(policy, w, id, a);
      assert a.state != Deleted;
      assert IsUp(w.host, id) ==> a.Active();
    }
  }

  /** What the running domains of recorded VMs use, of one kind. */
  function RunningOf(runs: seq<Instance>, node: Key, h: Host, k: Kind): int {
    if runs == [] then 0
    else
      RunningOf(Init(runs), node, h, k)
        + if Last(runs).node == node && IsUp(h, Last(runs).id) then Last(runs).pool.Charge().Of(k) else 0
  }

  function DisksOf(runs: seq<Instance>, node: Key, h: Host): int {
    if runs == [] then 0
    else
      DisksOf(Init(runs), node, h)
        + if Last(runs).node == node && Last(runs).id in h.dirs then Last(runs).pool.Charge().disk else 0
  }

  predicate Paid(node: Key, h: Host, a: Instance) {
    && a.held.NonNegative()
    && (a.node == node && IsUp(h, a.id) ==> a.held == a.pool.Charge())
    && (a.node == node && a.id in h.dirs ==> a.held.disk == a.pool.Charge().disk)
  }

  lemma {:induction false} RunningHeld(runs: seq<Instance>, node: Key, h: Host, k: Kind)
    requires forall i | 0 <= i < |runs| :: Paid(node, h, runs[i])
    ensures RunningOf(runs, node, h, k) <= HeldOf(runs, node, k)
    ensures DisksOf(runs, node, h) <= HeldOf(runs, node, Disk)
  {
    if runs != [] {
      RunningHeld(Init(runs), node, h, k);
      assert Paid(node, h, runs[|runs| - 1]);
    }
  }

  lemma {:induction false} ShapePays(node: Key, h: Host, a: Instance)
    requires HoldingOK(a) && VMOK(h, a.id) && (a.node == node ==> HeldShape(a) && Confirmed(h, a))
    ensures Paid(node, h, a)
  {
  }

  lemma {:induction false} RowPaid(policy: Policy, w: World, i: nat)
    requires WorldOK(policy, w) && i < |w.store.runs|
    ensures Paid(policy.node, w.host, w.store.runs[i])
  {
    var a := w.store.runs[i];
    assert HoldingOK(a) && VMOK(w.host, a.id) && (a.node == policy.node ==> HeldShape(a) && Confirmed(w.host, a));
    ShapePays(policy.node, w.host, a);
  }

  /** The node's budget bounds what really runs there, and what its disks
      really occupy. */
  lemma {:induction false} PhysicalWithinBudget(policy: Policy, w: World, j: nat, k: Kind)
    requires Reachable(policy, w) && policy.ceiling.NonNegative()
    requires j < |w.store.config.nodes| && w.store.config.nodes[j].name == policy.node
    ensures RunningOf(w.store.runs, policy.node, w.host, k) <= w.store.config.nodes[j].budget.Of(k)
    ensures DisksOf(w.store.runs, policy.node, w.host) <= w.store.config.nodes[j].budget.disk
  {
    forall i | 0 <= i < |w.store.runs|
      ensures Paid(policy.node, w.host, w.store.runs[i])
    {
      ReachableOK(policy, w);
      RowPaid(policy, w, i);
    }
    RunningHeld(w.store.runs, policy.node, w.host, k);
    forall kind: Kind
      ensures HeldOf(w.store.runs, policy.node, kind) <= w.store.config.nodes[j].budget.Of(kind)
    {
      ReachableOK(policy, w);
      HeldWithinBudget(w.store.config, w.store.runs, j, kind);
    }
    assert HeldOf(w.store.runs, policy.node, Disk) <= w.store.config.nodes[j].budget.Of(Disk);
  }

  lemma {:induction false} HeldWithinBudget(c: Config, runs: seq<Instance>, j: nat, k: Kind)
    requires Valid(c) && Balanced(c, runs) && j < |c.nodes|
    ensures HeldOf(runs, c.nodes[j].name, k) <= c.nodes[j].budget.Of(k)
  {
    var n := c.nodes[j];
    assert Committed(c, runs, n);
    CommittedByKind(c, runs, n);
    Conservation(c, runs, n.name, k);
    assert WithinBudget(c, runs, n, k);
  }

  // ---- The deletion handshake ----

  /** What a VM holds is decided by its state alone, in every reachable
      state: the whole charge while active, the disk part while being
      deleted, nothing once deleted. */
  lemma {:induction false} AlwaysHeldShape(policy: Policy, w: World, i: nat)
    requires Reachable(policy, w) && policy.ceiling.NonNegative()
    requires i < |w.store.runs| && w.store.runs[i].node == policy.node
    ensures HeldShape(w.store.runs[i])
    ensures w.store.runs[i].held == ZERO <==> w.store.runs[i].state == Deleted
  {
    ReachableOK(policy, w);
    assert HeldShape(w.store.runs[i]) && HoldingOK(w.store.runs[i]);
  }

  lemma {:induction false} RowNotFaulted(node: Key, h: Host, o: NodeReport, a: Instance)
    requires ReportOK(node, h, o)
    requires a.node == node && HeldShape(a) && (PhaseAtLeast(h, a.id, PhaseDeleted) ==> !a.Active())
    ensures Concerns(node, a) ==> RowFault(a, StateOf(o.vms, a.id)).None?
  {
    Claimed(o.vms, a.id);
    if StateOf(o.vms, a.id).Some? {
      var i :| 0 <= i < |o.vms| && o.vms[i] == VMReport(a.id, StateOf(o.vms, a.id).value);
      assert Truthful(h, o.vms[i]);
    }
  }

  lemma {:induction false} NeverFaulted(node: Key, vms: seq<VMReport>, runs: seq<Instance>)
    requires forall i | 0 <= i < |runs| && Concerns(node, runs[i]) :: RowFault(runs[i], StateOf(vms, runs[i].id)).None?
    ensures RowsFault(node, vms, runs).None?
  {
    if runs != [] {
      assert forall i | 0 <= i < |runs| - 1 :: Init(runs)[i] == runs[i];
      NeverFaulted(node, vms, Init(runs));
    }
  }

  lemma {:induction false} RowDying(policy: Policy, w: World, i: nat)
    requires WorldOK(policy, w) && i < |w.store.runs| && w.store.runs[i].node == policy.node
    ensures HeldShape(w.store.runs[i]) && Confirmed(w.host, w.store.runs[i])
    ensures PhaseAtLeast(w.host, w.store.runs[i].id, PhaseDeleted) ==> !w.store.runs[i].Active()
  {
    var a := w.store.runs[i];
    if PhaseAtLeast(w.host, a.id, PhaseDeleted) {
      assert ManifestKnown(policy.node, w.store.runs, w.host, a.id);
      InstanceAt(w.store.runs, i);
    }
  }

  /** No report an agent ever sent, whenever it arrives, is refused for a
      duplicate VM, an unknown VM state or an unexpected deletion. */
  lemma {:induction false} DeletionHandshake(policy: Policy, w: World, o: NodeReport)
    requires Reachable(policy, w) && policy.ceiling.NonNegative() && o in w.posted
    ensures Sync.Distinct(o.vms) && RowsFault(policy.node, o.vms, w.store.runs).None?
    ensures SyncFault(w.store, policy.node, o) !in {Some(UnexpectedDeletion), Some(Fault.ReportState), Some(DuplicateReport)}
  {
    assert Sync.Distinct(o.vms) && RowsFault(policy.node, o.vms, w.store.runs).None? by {
      ReachableOK(policy, w);
      ReportUnfaulted(policy, w, o);
    }
  }

  lemma {:induction false} ReportUnfaulted(policy: Policy, w: World, o: NodeReport)
    requires WorldOK(policy, w) && o in w.posted
    ensures Sync.Distinct(o.vms) && RowsFault(policy.node, o.vms, w.store.runs).None?
  {
    assert ReportOK(policy.node, w.host, o);
    forall i | 0 <= i < |w.store.runs| && Concerns(policy.node, w.store.runs[i])
      ensures RowFault(w.store.runs[i], StateOf(o.vms, w.store.runs[i].id)).None?
    {
      RowDying(policy, w, i);
      RowNotFaulted(policy.node, w.host, o, w.store.runs[i]);
    }
    NeverFaulted(policy.node, o.vms, w.store.runs);
  }

  /** Once the controller has deleted a VM, no domain and no disk of it is
      left on the host. */
  lemma {:induction false} DeletedIsGone(policy: Policy, w: World, i: nat)
    requires Reachable(policy, w) && policy.ceiling.NonNegative()
    requires i < |w.store.runs| && w.store.runs[i].node == policy.node
    ensures w.store.runs[i].state == Deleted ==> w.store.runs[i].id !in w.host.domains && w.store.runs[i].id !in w.host.dirs
    ensures w.store.runs[i].state == Deleting ==> !IsUp(w.host, w.store.runs[i].id)
  {
    assert Confirmed(w.host, w.store.runs[i]) && VMOK(w.host, w.store.runs[i].id) by {
      ReachableOK(policy, w);
      RowDying(policy, w, i);
    }
  }
}
