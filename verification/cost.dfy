/** What teardown costs in any run at all: agent steps may fail, be lost or be
    delayed, and the controller may do anything meanwhile. */
module Cost {
  import opened Resources
  import opened Model
  import opened Ledger
  import opened State
  import opened Sync
  import opened Consistency
  import opened Movement
  import opened Lifecycle
  import opened Runs
  import opened Hosting
  import opened HostSafety
  import opened World
  import opened Composition
  import opened Teardown

  /** An error-free agent step, or any event of the world. */
  datatype Move = Smooth(report: NodeReport, now: int) | Otherwise(event: Event)

  ghost predicate Moved(policy: Policy, w: World, m: Move, w': World) {
    match m
    case Smooth(o, now) => AgentStep(policy, w, o, now, w')
    case Otherwise(e) => Happens(policy, w, e, w')
  }

  ghost predicate Journey(policy: Policy, ws: seq<World>, ms: seq<Move>) {
    && |ws| == |ms| + 1
    && forall i | 0 <= i < |ms| :: Moved(policy, ws[i], ms[i], ws[i + 1])
  }

  /** VMs ever placed on the node. */
  function Placed(node: Key, runs: seq<Instance>): nat {
    if runs == [] then 0 else Placed(node, Init(runs)) + if Last(runs).node == node then 1 else 0
  }

  /** Error-free steps so far that had something to stop or delete. */
  ghost function Busy(policy: Policy, ws: seq<World>, ms: seq<Move>, n: nat): nat
    requires n <= |ms| && |ws| == |ms| + 1
  {
    if n == 0 then 0
    else Busy(policy, ws, ms, n - 1) + if ms[n - 1].Smooth? && AnyDue(policy.node, ws[n - 1].store.runs, ms[n - 1].now) then 1 else 0
  }

  // ---- Nothing takes a VM further away ----

  lemma {:induction false} MeasurePlaced(node: Key, runs: seq<Instance>, h: Host)
    ensures Measure(node, runs, h) <= 4 * Placed(node, runs)
  {
    if runs != [] {
      MeasurePlaced(node, Init(runs), h);
    }
  }

  /** A new VM is at most four steps away; the others stay where they are. */
  lemma {:induction false} SteadyMeasure(node: Key, before: seq<Instance>, after: seq<Instance>, h: Host)
    requires NodeSteady(node, before, after)
    ensures Measure(node, after, h) - Measure(node, before, h) <= 4 * Placed(node, after) - 4 * Placed(node, before)
    decreases |after|
  {
    if |after| > |before| {
      var front := Init(after);
      assert forall i | 0 <= i < |before| :: front[i] == after[i];
      SteadyMeasure(node, before, front, h);
    } else if after != [] {
      var n := |after| - 1;
      assert RowStays(node, before[n], after[n]);
      assert forall i | 0 <= i < n :: Init(before)[i] == before[i] && Init(after)[i] == after[i];
      SteadyMeasure(node, Init(before), Init(after), h);
      assert before[n].node == node ==> Steady(before[n], after[n]);
    }
  }

  lemma {:induction false} SyncPlaced(node: Key, vms: seq<VMReport>, now: int, runs: seq<Instance>)
    ensures Placed(node, SyncRows(node, vms, now, runs)) == Placed(node, runs)
  {
    if runs != [] {
      SyncPlaced(node, vms, now, Init(runs));
      assert Init(SyncRows(node, vms, now, runs)) == SyncRows(node, vms, now, Init(runs));
    }
  }

  lemma {:induction false} HostMeasure(node: Key, runs: seq<Instance>, h: Host, h': Host)
    requires Advances(h, h')
    ensures Measure(node, runs, h') <= Measure(node, runs, h)
  {
    HostNearer(node, runs, h, h');
    MeasureShrinks(node, runs, h, runs, h');
  }

  lemma {:induction false} DeliveryMeasure(policy: Policy, w: World, o: NodeReport, now: int)
    requires WorldOK(policy, w) && o in w.posted
    ensures var runs := SyncNode(w.store, policy.node, o, now).store.runs;
            && Measure(policy.node, runs, w.host) <= Measure(policy.node, w.store.runs, w.host)
            && Placed(policy.node, runs) == Placed(policy.node, w.store.runs)
  {
    if SyncNode(w.store, policy.node, o, now).reply.Ok? {
      assert ReportOK(policy.node, w.host, o) && RowsFault(policy.node, o.vms, w.store.runs).None?;
      SyncNearerAll(policy.node, w.host, o, now, w.store.runs);
      MeasureShrinks(policy.node, w.store.runs, w.host, SyncRows(policy.node, o.vms, now, w.store.runs), w.host);
      SyncPlaced(policy.node, o.vms, now, w.store.runs);
    }
  }

  lemma {:induction false} HostAdvances(policy: Policy, w: World, e: Event, w': World)
    requires HostOK(policy, w.host) && Happens(policy, w, e, w') && !e.ByController? && !e.Delivered?
    ensures Advances(w.host, w'.host) && w'.store == w.store
  {
    match e
    case Surveys(o, uncertain, h') =>
      SurveyCut(w.host, h', |w.host.files|, o.vms, uncertain);
      SurveyKeeps(policy, w.host, h');
    case SurveyFails(h') => SurveyKeeps(policy, w.host, h');
    case Ensured(c, job, now, free, h', r) => EnsureKeeps(policy, w.host, h', c.instance, job, now, free, r);
    case Stopped(c, between, first, h', r) =>
      CertifyKeeps(policy, w.host, between, c.instance, first);
      if h' != between {
        StopKeeps(policy, between, h', c.instance.id, r);
        AdvancesTransitive(w.host, between, h');
      }
    case Erased(c, h', r) => DeleteKeeps(policy, w.host, h', c.instance.id, r);
    case PowersOff(h') => FadeKeeps(policy, w.host, h');
  }

  lemma {:induction false} EventMeasure(policy: Policy, w: World, e: Event, w': World)
    requires WorldOK(policy, w) && Happens(policy, w, e, w')
    ensures Measure(policy.node, w'.store.runs, w'.host) - Measure(policy.node, w.store.runs, w.host)
         <= 4 * Placed(policy.node, w'.store.runs) - 4 * Placed(policy.node, w.store.runs)
  {
    match e
    case ByController(op, now) =>
      ElsewhereSteady(w.store, op, now, policy.node);
      SteadyMeasure(policy.node, w.store.runs, w'.store.runs, w.host);
    case Delivered(o, now) => DeliveryMeasure(policy, w, o, now);
    case _ =>
      HostAdvances(policy, w, e, w');
      HostMeasure(policy.node, w.store.runs, w.host, w'.host);
  }

  lemma {:induction false} StepPlaced(policy: Policy, w: World, o: NodeReport, now: int, w': World)
    requires AgentStep(policy, w, o, now, w')
    ensures Placed(policy.node, w'.store.runs) == Placed(policy.node, w.store.runs)
  {
    SyncPlaced(policy.node, o.vms, now, w.store.runs);
    assert w'.store.runs == SyncRows(policy.node, o.vms, now, w.store.runs);
  }

  // ---- The bill ----

  /** What one move may cost beside what it brings. */
  ghost predicate Affordable(policy: Policy, w: World, m: Move, w': World) {
    (if m.Smooth? && AnyDue(policy.node, w.store.runs, m.now) then 1 else 0)
      + Measure(policy.node, w'.store.runs, w'.host) - Measure(policy.node, w.store.runs, w.host)
    <= 4 * Placed(policy.node, w'.store.runs) - 4 * Placed(policy.node, w.store.runs)
  }

  lemma {:induction false} MoveCosts(policy: Policy, w: World, m: Move, w': World)
    requires WorldOK(policy, w) && Moved(policy, w, m, w')
    ensures WorldOK(policy, w')
    ensures Affordable(policy, w, m, w')
  {
    match m
    case Smooth(o, now) =>
      StepProgress(policy, w, o, now, w');
      StepPlaced(policy, w, o, now, w');
    case Otherwise(e) =>
      EventKeeps(policy, w, e, w');
      EventMeasure(policy, w, e, w');
  }

  lemma {:induction false} MoveOK(policy: Policy, w: World, m: Move, w': World)
    requires Moved(policy, w, m, w')
    ensures WorldOK(policy, w) ==> WorldOK(policy, w')
  {
    if WorldOK(policy, w) {
      MoveCosts(policy, w, m, w');
    }
  }

  lemma {:induction false} JourneyOK(policy: Policy, ws: seq<World>, ms: seq<Move>, n: nat)
    requires Journey(policy, ws, ms) && WorldOK(policy, ws[0]) && n <= |ms|
    ensures WorldOK(policy, ws[n])
  {
    var inv := w => WorldOK(policy, w);
    forall k | 0 < k <= n && inv(ws[k - 1])
      ensures inv(ws[k])
    {
      MoveOK(policy, ws[k - 1], ms[k - 1], ws[k]);
    }
    Throughout(inv, ws, n);
  }

  ghost predicate AllAffordable(policy: Policy, ws: seq<World>, ms: seq<Move>)
    requires |ws| == |ms| + 1
  {
    forall k | 0 <= k < |ms| :: Affordable(policy, ws[k], ms[k], ws[k + 1])
  }

  lemma {:induction false} JourneyAffordable(policy: Policy, ws: seq<World>, ms: seq<Move>)
    requires Journey(policy, ws, ms) && WorldOK(policy, ws[0])
    ensures AllAffordable(policy, ws, ms)
  {
    forall k | 0 <= k < |ms|
      ensures Affordable(policy, ws[k], ms[k], ws[k + 1])
    {
      JourneyOK(policy, ws, ms, k);
      MoveCosts(policy, ws[k], ms[k], ws[k + 1]);
    }
  }

  lemma {:induction false} JourneyCosts(policy: Policy, ws: seq<World>, ms: seq<Move>, n: nat)
    requires |ws| == |ms| + 1 && AllAffordable(policy, ws, ms) && n <= |ms|
    ensures Busy(policy, ws, ms, n) + Measure(policy.node, ws[n].store.runs, ws[n].host) <= 4 * Placed(policy.node, ws[n].store.runs)
  {
    if n == 0 {
      MeasurePlaced(policy.node, ws[0].store.runs, ws[0].host);
    } else {
      JourneyCosts(policy, ws, ms, n - 1);
      assert Affordable(policy, ws[n - 1], ms[n - 1], ws[n]);
    }
  }

  /** In any run, whatever fails, is lost or is submitted in between, each VM
      ever placed on the node costs at most four error-free agent steps that
      found something to tear down. */
  lemma {:induction false} TeardownCostsFour(policy: Policy, ws: seq<World>, ms: seq<Move>)
    requires Journey(policy, ws, ms) && Reachable(policy, ws[0]) && policy.ceiling.NonNegative()
    ensures Busy(policy, ws, ms, |ms|) <= 4 * Placed(policy.node, ws[|ms|].store.runs)
  {
    assert AllAffordable(policy, ws, ms) by {
      ReachableOK(policy, ws[0]);
      JourneyAffordable(policy, ws, ms);
    }
    JourneyCosts(policy, ws, ms, |ms|);
  }
}
