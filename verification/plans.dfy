/** Planning a configuration and applying it: when a plan takes effect, what
    takes effect, and which plans never will. */
module Plans {
  import opened Resources
  import opened Model
  import opened Validate
  import opened Ledger
  import opened Capacity
  import opened State
  import opened Transactions
  import opened Sync
  import opened Consistency
  import opened Soundness
  import opened Runs
  import Lifecycle

  // ---- Plan, then apply ----

  lemma {:induction false} BackedKeepsSize(c: Config, a: Instance)
    requires Backed(c, a)
    ensures !Resized(c, a)
  {
  }

  lemma {:induction false} AllProtected(c: Config, runs: seq<Instance>)
    requires Valid(c) && Books(c, runs)
    ensures forall j | 0 <= j < |c.reservations| :: Protect(c, c.reservations[j], runs).Ok?
  {
    forall j | 0 <= j < |c.reservations|
      ensures Protect(c, c.reservations[j], runs).Ok?
    {
      ProtectionBalances(c, runs, j);
      assert Accounted(c, runs, c.reservations[j]);
    }
  }

  lemma {:induction false} BalancedNodePasses(c: Config, runs: seq<Instance>, n: Node)
    requires Valid(c) && Balanced(c, runs) && n in c.nodes
    ensures NodeFault(c, runs, n) == None
  {
    forall i | 0 <= i < |runs|
      ensures !Resized(c, runs[i])
    {
      BackedKeepsSize(c, runs[i]);
    }
    AllProtected(c, runs);
    NoProtectionFault(c, c.reservations, n.name, runs);
  }

  lemma {:induction false} NoProtectionFault(c: Config, rs: seq<Reservation>, node: Key, runs: seq<Instance>)
    requires forall j | 0 <= j < |rs| :: Protect(c, rs[j], runs).Ok?
    ensures ReservationFault(c, rs, node, runs) == None
  {
    if rs != [] {
      NoProtectionFault(c, rs[..|rs| - 1], node, runs);
    }
  }

  lemma {:induction false} NoFirstFault<A>(check: A -> Option<Fault>, s: seq<A>)
    requires forall i | 0 <= i < |s| :: check(s[i]) == None
    ensures FirstFault(check, s) == None
  {
    if s != [] {
      NoFirstFault(check, s[..|s| - 1]);
    }
  }

  /** checkCapacityUpdate finds nothing against a configuration that loses no
      node and no pool exactly when the ledger balances under it. */
  lemma {:induction false} CapacityExactly(before: Config, next: Config, runs: seq<Instance>)
    requires Valid(next) && Covers(before, next)
    requires forall i | 0 <= i < |runs| ::
               HoldingOK(runs[i]) && before.Pool(runs[i].pool.name).Some? && before.Node(runs[i].node).Some?
    ensures CapacityFault(next, runs) == None <==> Balanced(next, runs)
  {
    if CapacityFault(next, runs) == None {
      AcceptedChangeBalances(before, next, runs);
    }
    if Balanced(next, runs) {
      forall i | 0 <= i < |next.nodes|
        ensures NodeCheck(next, runs)(next.nodes[i]) == None
      {
        BalancedNodePasses(next, runs, next.nodes[i]);
      }
      NoFirstFault(NodeCheck(next, runs), next.nodes);
    }
  }

  // ---- One plan ----

  ghost predicate Planned(s: Store, s': Store, id: Key, c: Config, now: int) {
    && id !in s.plans && s' == s.(plans := s'.plans)
    && s'.plans.Keys == s.plans.Keys + {id} && (forall k | k in s.plans :: s'.plans[k] == s.plans[k])
    && s'.plans[id].applied == None && s'.plans[id].base == s.revision
    && s'.plans[id].config == MergeConfig(s.config, c) && s'.plans[id].expires == Unix(now) + 600
  }

  lemma {:induction false} PlanStores(s: Store, id: Key, c: Config, now: int)
    requires Plan(s, id, c, now).reply.Ok?
    ensures Planned(s, Plan(s, id, c, now).store, id, c, now) && Valid(MergeConfig(s.config, c))
    ensures Plan(s, id, c, now).reply == Ok(id)
  {
  }

  /** An unapplied plan is applied exactly while it has not expired, the
      configuration is the one it was made for, and the ledger balances under
      it. */
  lemma {:induction false} ApplyExactly(s: Store, id: Key, now: int)
    requires Sound(s) && id in s.plans && s.plans[id].applied == None
    ensures var plan, a := s.plans[id], Apply(s, id, now);
            && (a.reply.Ok? <==> Unix(now) < plan.expires && s.revision == plan.base && Valid(plan.config) && Balanced(plan.config, s.runs))
            && (a.reply.Err? ==> a.store == s)
  {
    var plan := s.plans[id];
    assert PlanOK(s, id);
    if s.revision == plan.base && Valid(plan.config) {
      forall i | 0 <= i < |s.runs|
        ensures HoldingOK(s.runs[i]) && s.config.Pool(s.runs[i].pool.name).Some? && s.config.Node(s.runs[i].node).Some?
      {
        HoldersKnown(s, i);
      }
      CapacityExactly(s.config, plan.config, s.runs);
    }
  }

  ghost predicate Applied(s: Store, s': Store, id: Key) {
    && id in s.plans && s' == s.(config := s.plans[id].config, revision := s'.revision, plans := s'.plans)
    && s'.revision == (if s.config == s.plans[id].config then s.revision else s.revision + 1)
    && s'.plans.Keys == s.plans.Keys && (forall k | k in s.plans && k != id :: s'.plans[k] == s.plans[k])
    && s'.plans[id] == s.plans[id].(applied := Some(s'.revision))
  }

  lemma {:induction false} ApplyStores(s: Store, id: Key, now: int)
    requires id in s.plans && s.plans[id].applied == None && Apply(s, id, now).reply.Ok?
    ensures Applied(s, Apply(s, id, now).store, id) && Apply(s, id, now).reply == Ok(Apply(s, id, now).store.revision)
  {
  }

  /** Applying a plan again answers as the first time and changes nothing,
      even once it has expired. */
  lemma {:induction false} AppliedOnce(s: Store, id: Key, now: int, later: int)
    requires Apply(s, id, now).reply.Ok?
    ensures Apply(Apply(s, id, now).store, id, later) == Outcome(Apply(s, id, now).store, Apply(s, id, now).reply)
  {
  }

  /** A plan applied within ten minutes, to the second, with nothing in
      between, installs the submitted configuration merged into the old one,
      if and only if the ledger balances under it; the revision counts changes
      only. */
  lemma {:induction false} PlanThenApply(s: Store, id: Key, c: Config, now: int, later: int)
    requires Sound(s) && Plan(s, id, c, now).reply.Ok?
    ensures var p := Plan(s, id, c, now).store;
            var a, merged := Apply(p, id, later), MergeConfig(s.config, c);
            && (a.reply.Ok? <==> Unix(later) < Unix(now) + 600 && Balanced(merged, s.runs))
            && (a.reply.Err? ==> a.store == p)
            && (a.reply.Ok? ==>
                  && a.store.config == merged && a.store.revision == (if merged == s.config then s.revision else s.revision + 1)
                  && a.store.runs == s.runs && a.store.tasks == s.tasks && a.reply == Ok(a.store.revision))
  {
    var p := Plan(s, id, c, now).store;
    PlanStores(s, id, c, now);
    PlanSound(s, id, c, now);
    ApplyExactly(p, id, later);
    if Apply(p, id, later).reply.Ok? {
      ApplyStores(p, id, later);
    }
  }

  // ---- Plans overtaken ----

  lemma {:induction false} SubmitKeepsPlans(s: Store, client: Key, spec: TaskSpec, id: Key, instanceID: Key, now: int)
    ensures SameConfig(s, Submit(s, client, spec, id, instanceID, now).store)
  {
    Lifecycle.SubmitFrame(s, client, spec, id, instanceID, now);
    NewFrame(s, NewTask(client, spec, id, now), instanceID, now);
  }

  lemma {:induction false} RunsKeepPlans(s: Store, op: Op, now: int)
    requires op.DoAllocate? || op.DoSetJIT? || op.DoStop? || op.DoPersist? || op.DoSync?
    ensures SameConfig(s, Step(s, op, now))
  {
    match op
    case DoAllocate(id, request, pool) => AllocateKeepsPlans(s, id, Runner(request), pool, now);
    case DoSetJIT(id, runnerID, size) => RunFrames(s, id, runnerID, size, now);
    case DoStop(id) => RunFrames(s, id, 0, 0, now);
    case DoPersist(m, pool, desired, events, hold) => PersistKeepsPlans(s, m, pool, desired, events, hold, now);
    case DoSync(node, o) => SyncKeepsPlans(s, node, o, now);
  }

  lemma {:induction false} AllocateKeepsPlans(s: Store, id: Key, request: Request, pool: Key, now: int)
    ensures SameConfig(s, Allocate(s, id, request, pool, now).store)
  {
  }

  lemma {:induction false} PersistKeepsPlans(s: Store, id: MessageID, pool: Key, desired: int, events: seq<RunnerEvent>, hold: bool, now: int)
    ensures SameConfig(s, PersistMessage(s, id, pool, desired, events, hold, now).store)
  {
  }

  lemma {:induction false} SyncKeepsPlans(s: Store, name: Key, o: NodeReport, now: int)
    ensures SameConfig(s, SyncNode(s, name, o, now).store)
  {
  }

  lemma {:induction false} DispatchKeepsPlans(s: Store, draw: Key -> Key, now: int)
    ensures SameConfig(s, DispatchTasks(s, draw, now).store)
  {
  }

  lemma {:induction false} CancelKeepsPlans(s: Store, client: Key, id: Key, now: int)
    ensures SameConfig(s, CancelTask(s, client, id, now).store)
  {
    if CancelTask(s, client, id, now).store != s {
      CancelFrame(s, client, id, now);
    }
  }

  lemma {:induction false} RevokeKeepsPlans(s: Store, client: Key, now: int)
    ensures SameConfig(s, RevokeClient(s, client, now).store)
  {
  }

  lemma {:induction false} ReportKeepsPlans(s: Store, node: Key, id: Key, r: TaskReport, now: int)
    ensures SameConfig(s, ReportTask(s, node, id, r, now).store)
  {
    if ReportTask(s, node, id, r, now).store != s {
      var u := ReportFrame(s, node, id, r, now);
    }
  }

  lemma {:induction false} ClientKeepsPlans(s: Store, op: Op, now: int)
    requires ByClient(op)
    ensures SameConfig(s, Step(s, op, now))
  {
    match op
    case DoSubmit(client, spec, id, instanceID) => SubmitKeepsPlans(s, client, spec, id, instanceID, now);
    case DoDispatch(draw) => DispatchKeepsPlans(s, draw, now);
    case DoCancel(client, id) => CancelKeepsPlans(s, client, id, now);
    case DoRevoke(client) => RevokeKeepsPlans(s, client, now);
    case DoReport(node, id, r) => ReportKeepsPlans(s, node, id, r, now);
  }

  /** The plan is there, unapplied, and was made for an earlier revision. */
  ghost predicate Overtaken(s: Store, id: Key) {
    id in s.plans && s.plans[id].applied == None && s.plans[id].base < s.revision
  }

  lemma {:induction false} ConfigOvertaken(s: Store, op: Op, now: int, id: Key)
    requires ByConfig(op) && Overtaken(s, id)
    ensures Overtaken(Step(s, op, now), id)
  {
    match op
    case DoPlan(k, c) => PlanFrame(s, k, c, now);
    case DoApply(k) => ApplyOvertaken(s, k, now, id);
    case DoApprove(k, invited) => ApproveOvertaken(s, k, invited, id);
  }

  lemma {:induction false} ApplyOvertaken(s: Store, k: Key, now: int, id: Key)
    requires Overtaken(s, id)
    ensures Overtaken(Apply(s, k, now).store, id)
  {
  }

  lemma {:induction false} ApproveOvertaken(s: Store, k: Key, invited: bool, id: Key)
    requires Overtaken(s, id)
    ensures Overtaken(Approve(s, k, invited).store, id)
  {
  }

  lemma {:induction false} StepOvertaken(s: Store, op: Op, now: int, id: Key)
    requires Overtaken(s, id)
    ensures Overtaken(Step(s, op, now), id)
  {
    if Aside(op) {
      AsideFrame(s, op, now);
    } else if ByConfig(op) {
      ConfigOvertaken(s, op, now, id);
    } else if ByClient(op) {
      ClientKeepsPlans(s, op, now);
    } else {
      RunsKeepPlans(s, op, now);
    }
  }

  lemma {:induction false} OvertakenNext(s: Store, op: Op, now: int, s': Store, id: Key)
    requires Overtaken(s, id) && s' == Step(s, op, now)
    ensures Overtaken(s', id)
  {
    StepOvertaken(s, op, now, id);
  }

  lemma {:induction false} StaysOvertaken(ops: seq<Timed>, n: nat, k: nat, id: Key)
    requires n <= k <= |ops| && Overtaken(Run(ops[..n]), id)
    ensures Overtaken(Run(ops[..k]), id)
    decreases k
  {
    if n < k {
      StaysOvertaken(ops, n, k - 1, id);
      RunsOn(ops, k - 1);
      OvertakenNext(Run(ops[..k - 1]), ops[k - 1].op, ops[k - 1].now, Run(ops[..k]), id);
    }
  }

  /** Of the plans made for one revision at most one is ever carried out:
      once another change was applied, a plan is refused for good. */
  lemma {:induction false} OvertakenForGood(ops: seq<Timed>, n: nat, id: Key, now: int)
    requires n <= |ops| && Overtaken(Run(ops[..n]), id)
    ensures Apply(Run(ops), id, now).reply.Err? && Apply(Run(ops), id, now).store == Run(ops)
  {
    StaysOvertaken(ops, n, |ops|, id);
    assert ops[..|ops|] == ops;
  }

  /** Applying one of two plans made for the same revision overtakes the
      other, if it changes anything. */
  lemma {:induction false} FirstPlanWins(s: Store, id: Key, other: Key, now: int)
    requires Sound(s) && id in s.plans && other in s.plans && id != other
    requires s.plans[id].applied == None && s.plans[other].applied == None && s.plans[other].base <= s.revision
    requires Apply(s, id, now).reply.Ok? && s.plans[id].config != s.config
    ensures Overtaken(Apply(s, id, now).store, other)
  {
    ApplyStores(s, id, now);
  }

  // ---- The cluster's name ----

  /** No plan that may still be applied renames the cluster. */
  ghost predicate NameKept(s: Store) {
    forall id | id in s.plans ::
      && s.plans[id].base <= s.revision
      && (s.revision > 0 && s.plans[id].base == s.revision && s.plans[id].applied == None ==> s.plans[id].config.name == s.config.name)
  }

  ghost predicate SameCluster(s: Store, s': Store) {
    s.revision <= s'.revision && (s.revision > 0 ==> s'.config.name == s.config.name)
  }

  lemma {:induction false} PlanName(s: Store, id: Key, c: Config, now: int)
    requires NameKept(s)
    ensures NameKept(Plan(s, id, c, now).store) && SameCluster(s, Plan(s, id, c, now).store)
  {
    if Plan(s, id, c, now).reply.Ok? {
      PlanStores(s, id, c, now);
      assert s.revision > 0 ==> MergeConfig(s.config, c).name == s.config.name;
    }
  }

  lemma {:induction false} ApplyName(s: Store, id: Key, now: int)
    requires NameKept(s)
    ensures NameKept(Apply(s, id, now).store) && SameCluster(s, Apply(s, id, now).store)
  {
    if Apply(s, id, now).reply.Ok? && s.plans[id].applied == None {
      ApplyStores(s, id, now);
    }
  }

  lemma {:induction false} ApproveName(s: Store, id: Key, invited: bool)
    requires NameKept(s)
    ensures NameKept(Approve(s, id, invited).store) && SameCluster(s, Approve(s, id, invited).store)
  {
  }

  lemma {:induction false} StepName(s: Store, op: Op, now: int, s': Store)
    requires NameKept(s) && s' == Step(s, op, now)
    ensures NameKept(s') && SameCluster(s, s')
  {
    if Aside(op) {
      AsideFrame(s, op, now);
    } else if op.DoPlan? {
      PlanName(s, op.id, op.config, now);
    } else if op.DoApply? {
      ApplyName(s, op.id, now);
    } else if op.DoApprove? {
      ApproveName(s, op.id, op.invited);
    } else if ByClient(op) {
      ClientKeepsPlans(s, op, now);
    } else {
      RunsKeepPlans(s, op, now);
    }
  }

  lemma {:induction false} AlwaysNameKept(ops: seq<Timed>, k: nat)
    requires k <= |ops|
    ensures NameKept(Run(ops[..k]))
  {
    if k > 0 {
      AlwaysNameKept(ops, k - 1);
      RunsOn(ops, k - 1);
      StepName(Run(ops[..k - 1]), ops[k - 1].op, ops[k - 1].now, Run(ops[..k]));
    }
  }

  lemma {:induction false} NextName(ops: seq<Timed>, k: nat)
    requires k < |ops|
    ensures SameCluster(Run(ops[..k]), Run(ops[..k + 1]))
  {
    AlwaysNameKept(ops, k);
    RunsOn(ops, k);
    StepName(Run(ops[..k]), ops[k].op, ops[k].now, Run(ops[..k + 1]));
  }

  lemma {:induction false} NameAlong(stores: seq<Store>, n: nat, k: nat)
    requires n <= k < |stores| && forall j | 0 < j < |stores| :: SameCluster(stores[j - 1], stores[j])
    ensures SameCluster(stores[n], stores[k])
  {
    if n < k {
      NameAlong(stores, n, k - 1);
    }
  }

  /** Once a configuration is in force the cluster keeps its name, and
      revisions never go back. */
  lemma {:induction false} ClusterNameStays(ops: seq<Timed>, n: nat, k: nat)
    requires n <= k <= |ops|
    ensures SameCluster(Run(ops[..n]), Run(ops[..k]))
  {
    var stores := seq(|ops| + 1, j requires 0 <= j <= |ops| => Run(ops[..j]));
    forall j | 0 < j < |stores|
      ensures SameCluster(stores[j - 1], stores[j])
    {
      NextName(ops, j - 1);
    }
    NameAlong(stores, n, k);
  }
}
