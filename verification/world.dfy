/** One node and the controller together: an agent whose reports and commands
    may be lost, repeated or delayed at will, guests that power off, an agent
    that crashes between any two effects, and a controller that runs any
    transactions meanwhile. */
module World {
  import opened Resources
  import opened Model
  import opened Validate
  import opened Ledger
  import opened State
  import opened Transactions
  import opened Sync
  import opened Consistency
  import opened Movement
  import opened Soundness
  import opened Runs
  import opened Lifecycle
  import opened RowSteps
  import opened Reply
  import opened Hosting
  import opened HostSafety

  /** `posted` holds every report the agent ever sent, `issued` every command
      the controller ever sent to this node: any of them may arrive, again and
      in any order, or never. */
  datatype World = World(store: Store, host: Host, posted: set<NodeReport>, issued: set<Command>)

  const START := World(INITIAL, EMPTY_HOST, {}, {})

  /** acceptCommand: what the agent checks before acting. */
  predicate Accepted(policy: Policy, c: Command) {
    && c.instance.node == policy.node
    && (c.action == EnsureVM ==> c.instance.pool.Charge().Fits(policy.ceiling))
    && (c.task.Some? ==> c.action == EnsureVM && c.instance.task != NONE && c.task.value.id == c.instance.task)
    && (c.action == EnsureVM && (c.instance.task != NONE || c.instance.pool.tasks) ==>
          c.task.Some? && c.jit == 0 && c.instance.pool.tasks && c.instance.task != NONE)
  }

  datatype Event =
    | ByController(op: Op, now: int)
    | Delivered(report: NodeReport, now: int)
    | Surveys(report: NodeReport, uncertain: set<Key>, host: Host)
    | SurveyFails(host: Host)
    | Ensured(command: Command, job: Job, now: int, freeGiB: int, host: Host, effect: Effect)
    | Stopped(command: Command, between: Host, first: Effect, host: Host, effect: Effect)
    | Erased(command: Command, host: Host, effect: Effect)
    | PowersOff(host: Host)

  function Replied(r: Result<seq<Command>>): set<Command> {
    match r
    case Err(_) => {}
    case Ok(commands) => set c | c in commands
  }

  /** The agent obeys a stop by certifying a VM it never created, then
      stopping; it may crash in between. */
  ghost predicate ObeysStop(policy: Policy, h: Host, a: Instance, between: Host, first: Effect, h': Host, r: Effect) {
    && CertifiesStop(policy, h, between, a, first)
    && (h' == between || (first == Done && Stops(between, h', a.id, r)))
  }

  ghost predicate Happens(policy: Policy, w: World, e: Event, w': World) {
    match e
    case ByController(op, now) => !(op.DoSync? && op.node == policy.node) && w' == w.(store := Step(w.store, op, now))
    case Delivered(o, now) =>
      && o in w.posted
      && var r := SyncNode(w.store, policy.node, o, now);
         w' == w.(store := r.store, issued := w.issued + Replied(r.reply))
    case Surveys(o, uncertain, h') =>
      && o.node == policy.node && Surveyed(w.host, h', |w.host.files|, o.vms, uncertain)
      && w' == w.(host := h', posted := w.posted + {o})
    case SurveyFails(h') => CutShort(w.host, h') && w' == w.(host := h')
    case Ensured(c, job, now, free, h', r) =>
      && c in w.issued && Accepted(policy, c) && c.action == EnsureVM
      && Ensures(policy, w.host, h', c.instance, job, now, free, r) && w' == w.(host := h')
    case Stopped(c, between, first, h', r) =>
      && c in w.issued && Accepted(policy, c) && c.action == StopVM
      && ObeysStop(policy, w.host, c.instance, between, first, h', r) && w' == w.(host := h')
    case Erased(c, h', r) =>
      && c in w.issued && Accepted(policy, c) && c.action == DeleteVM
      && Deletes(w.host, h', c.instance.id, r) && w' == w.(host := h')
    case PowersOff(h') => Untouched(w.host, h') && w' == w.(host := h')
  }

  // ---- The invariant ----

  /** Without host reports of Failed, what a VM holds is decided by its state. */
  predicate HeldShape(a: Instance) {
    a.held == if a.Active() then a.pool.Charge() else if a.state == Deleting then a.pool.Charge().DiskPart() else ZERO
  }

  /** The controller believes a VM stopped or deleted only if it is. */
  ghost predicate Confirmed(h: Host, a: Instance) {
    && (a.state == Deleting ==> PhaseAtLeast(h, a.id, PhaseStopped))
    && (a.state == Deleted ==> PhaseAtLeast(h, a.id, PhaseDeleted))
  }

  ghost predicate RowsAgree(node: Key, runs: seq<Instance>, h: Host) {
    forall i | 0 <= i < |runs| && runs[i].node == node :: HeldShape(runs[i]) && Confirmed(h, runs[i])
  }

  /** A report's claims about stops and deletions, which never cease to hold. */
  ghost predicate Truthful(h: Host, r: VMReport) {
    && (r.state == VMRunning || r.state == VMStopped || r.state == VMDeleted || r.state == VMUnknown)
    && (r.state == VMStopped ==> PhaseAtLeast(h, r.id, PhaseStopped))
    && (r.state == VMDeleted ==> PhaseAtLeast(h, r.id, PhaseDeleted))
  }

  ghost predicate ReportOK(node: Key, h: Host, o: NodeReport) {
    && o.node == node && Sync.Distinct(o.vms)
    && forall i | 0 <= i < |o.vms| :: Truthful(h, o.vms[i])
  }

  /** The row a VM of this node belongs to. */
  predicate RowFor(node: Key, runs: seq<Instance>, id: Key, pool: Pool) {
    FindInstance(runs, id).Some? && FindInstance(runs, id).value.node == node && FindInstance(runs, id).value.pool == pool
  }

  predicate Dying(runs: seq<Instance>, id: Key) {
    FindInstance(runs, id).Some? && !FindInstance(runs, id).value.Active()
  }

  ghost predicate ManifestKnown(node: Key, runs: seq<Instance>, h: Host, id: Key)
    requires id in h.manifests
  {
    && RowFor(node, runs, id, h.manifests[id].instance.pool)
    && (h.manifests[id].phase == PhaseDeleted ==> Dying(runs, id))
  }

  ghost predicate CommandOK(node: Key, runs: seq<Instance>, c: Command) {
    && RowFor(node, runs, c.instance.id, c.instance.pool)
    && (c.action == DeleteVM ==> Dying(runs, c.instance.id))
  }

  ghost predicate WorldOK(policy: Policy, w: World) {
    && Sound(w.store) && HostOK(policy, w.host)
    && RowsAgree(policy.node, w.store.runs, w.host)
    && (forall o | o in w.posted :: ReportOK(policy.node, w.host, o))
    && (forall id | id in w.host.manifests :: ManifestKnown(policy.node, w.store.runs, w.host, id))
    && (forall c | c in w.issued :: CommandOK(policy.node, w.store.runs, c))
  }

  // ---- The controller moves ----

  /** A row keeps its identity, and stays dying if it was. */
  predicate RowStays(node: Key, a: Instance, b: Instance) {
    b.id == a.id && b.node == a.node && b.pool == a.pool && (a.node == node && !a.Active() ==> !b.Active())
  }

  ghost predicate RowsStay(node: Key, before: seq<Instance>, after: seq<Instance>) {
    |before| <= |after| && forall i | 0 <= i < |before| :: RowStays(node, before[i], after[i])
  }

  /** Rows of this node after a transaction that is not its own report. */
  ghost predicate NodeSteady(node: Key, before: seq<Instance>, after: seq<Instance>) {
    && RowsStay(node, before, after)
    && (forall i | 0 <= i < |before| && before[i].node == node :: Steady(before[i], after[i]))
    && forall i | |before| <= i < |after| :: NewRow(after[i])
  }

  lemma {:induction false} ExtendsSteady(node: Key, before: seq<Instance>, after: seq<Instance>)
    requires Extends(before, after)
    ensures NodeSteady(node, before, after)
  {
    forall i | 0 <= i < |before|
      ensures RowStays(node, before[i], after[i])
    {
      assert Steady(before[i], after[i]);
    }
  }

  lemma {:induction false} SyncElsewhere(runs: seq<Instance>, name: Key, vms: seq<VMReport>, now: int, node: Key)
    requires name != node
    ensures NodeSteady(node, runs, SyncRows(name, vms, now, runs))
  {
    SameSteady(runs);
    forall i | 0 <= i < |runs|
      ensures RowStays(node, runs[i], SyncRow(name, vms, now, runs[i]))
      ensures runs[i].node == node ==> SyncRow(name, vms, now, runs[i]) == runs[i]
    {
    }
  }

  lemma {:induction false} ElsewhereSteady(s: Store, op: Op, now: int, node: Key)
    requires Sound(s) && !(op.DoSync? && op.node == node)
    ensures NodeSteady(node, s.runs, Step(s, op, now).runs)
  {
    if op.DoSync? {
      SyncFrame(s, op.node, op.observation, now);
      SyncElsewhere(s.runs, op.node, op.observation.vms, now, node);
      SteadyExtends(s.runs, s.runs) by {
        SameSteady(s.runs);
      }
      ExtendsSteady(node, s.runs, s.runs);
    } else {
      StepExtends(s, op, now);
      ExtendsSteady(node, s.runs, Step(s, op, now).runs);
    }
  }

  lemma {:induction false} RowKept(node: Key, runs: seq<Instance>, after: seq<Instance>, id: Key, pool: Pool)
    requires UniqueInstances(after) && RowFor(node, runs, id, pool) && RowsStay(node, runs, after)
    ensures RowFor(node, after, id, pool)
    ensures Dying(runs, id) ==> Dying(after, id)
  {
    FindInstanceSound(runs, id);
    var i :| 0 <= i < |runs| && runs[i] == FindInstance(runs, id).value && runs[i].id == id;
    assert RowStays(node, runs[i], after[i]);
    InstanceAt(after, i);
  }

  lemma {:induction false} RowsKept(policy: Policy, w: World, after: seq<Instance>)
    requires WorldOK(policy, w) && UniqueInstances(after) && RowsStay(policy.node, w.store.runs, after)
    ensures forall id | id in w.host.manifests :: ManifestKnown(policy.node, after, w.host, id)
    ensures forall c | c in w.issued :: CommandOK(policy.node, after, c)
  {
    forall id | id in w.host.manifests
      ensures ManifestKnown(policy.node, after, w.host, id)
    {
      assert ManifestKnown(policy.node, w.store.runs, w.host, id);
      RowKept(policy.node, w.store.runs, after, id, w.host.manifests[id].instance.pool);
    }
    forall c | c in w.issued
      ensures CommandOK(policy.node, after, c)
    {
      assert CommandOK(policy.node, w.store.runs, c);
      RowKept(policy.node, w.store.runs, after, c.instance.id, c.instance.pool);
    }
  }

  lemma {:induction false} SteadyAgree(node: Key, before: seq<Instance>, after: seq<Instance>, h: Host)
    requires RowsAgree(node, before, h) && NodeSteady(node, before, after)
    ensures RowsAgree(node, after, h)
  {
    forall i | 0 <= i < |after| && after[i].node == node
      ensures HeldShape(after[i]) && Confirmed(h, after[i])
    {
      if i < |before| {
        assert Steady(before[i], after[i]);
      } else {
        assert NewRow(after[i]);
      }
    }
  }

  lemma {:induction false} StoreKeeps(policy: Policy, w: World, s': Store)
    requires WorldOK(policy, w) && Sound(s')
    requires RowsStay(policy.node, w.store.runs, s'.runs) && RowsAgree(policy.node, s'.runs, w.host)
    ensures WorldOK(policy, w.(store := s'))
  {
    RowsKept(policy, w, s'.runs);
  }

  lemma {:induction false} ControllerKeeps(policy: Policy, w: World, op: Op, now: int)
    requires WorldOK(policy, w) && !(op.DoSync? && op.node == policy.node)
    ensures WorldOK(policy, w.(store := Step(w.store, op, now)))
  {
    var s' := Step(w.store, op, now);
    StepSound(w.store, op, now);
    ElsewhereSteady(w.store, op, now, policy.node);
    SteadyAgree(policy.node, w.store.runs, s'.runs, w.host);
    StoreKeeps(policy, w, s');
  }

  // ---- A report arrives ----

  lemma {:induction false} Claimed(vms: seq<VMReport>, id: Key)
    ensures StateOf(vms, id).Some? ==> exists i | 0 <= i < |vms| :: vms[i] == VMReport(id, StateOf(vms, id).value)
  {
    if vms != [] && vms[|vms| - 1].id != id {
      Claimed(vms[..|vms| - 1], id);
    }
  }

  lemma {:induction false} SyncAgrees(node: Key, h: Host, o: NodeReport, now: int, a: Instance)
    requires ReportOK(node, h, o) && a.node == node && HeldShape(a) && Confirmed(h, a) && a.pool.SizesOK()
    requires Concerns(node, a) ==> RowFault(a, StateOf(o.vms, a.id)).None?
    ensures var b := SyncRow(node, o.vms, now, a);
            && HeldShape(b) && Confirmed(h, b) && b.id == a.id && b.node == a.node && b.pool == a.pool
            && (!a.Active() ==> !b.Active())
  {
    Claimed(o.vms, a.id);
    if StateOf(o.vms, a.id).Some? {
      var i :| 0 <= i < |o.vms| && o.vms[i] == VMReport(a.id, StateOf(o.vms, a.id).value);
      assert Truthful(h, o.vms[i]);
    }
  }

  lemma {:induction false} ReportAgrees(node: Key, s: Store, h: Host, o: NodeReport, now: int)
    requires Sound(s) && RowsAgree(node, s.runs, h) && ReportOK(node, h, o) && SyncFault(s, node, o).None?
    ensures RowsStay(node, s.runs, SyncRows(node, o.vms, now, s.runs))
    ensures RowsAgree(node, SyncRows(node, o.vms, now, s.runs), h)
  {
    forall i | 0 <= i < |s.runs|
      ensures RowStays(node, s.runs[i], SyncRow(node, o.vms, now, s.runs[i]))
      ensures s.runs[i].node == node ==>
                HeldShape(SyncRow(node, o.vms, now, s.runs[i])) && Confirmed(h, SyncRow(node, o.vms, now, s.runs[i]))
    {
      assert HoldingOK(s.runs[i]);
      if s.runs[i].node == node {
        if Concerns(node, s.runs[i]) {
          NoRowFault(node, o.vms, s.runs, i);
        }
        SyncAgrees(node, h, o, now, s.runs[i]);
      }
    }
  }

  lemma {:induction false} ReportedKeeps(policy: Policy, w: World, o: NodeReport, now: int)
    requires WorldOK(policy, w) && o in w.posted && SyncFault(w.store, policy.node, o).None?
    ensures WorldOK(policy, w.(store := Sync.Reported(w.store, policy.node, o, now)))
  {
    AcceptedSound(w.store, policy.node, o, now);
    ReportAgrees(policy.node, w.store, w.host, o, now);
    StoreKeeps(policy, w, Sync.Reported(w.store, policy.node, o, now));
  }

  /** Each command of a reply speaks of a row as the report left it. */
  lemma {:induction false} CommandFrom(s: Store, node: Key, o: NodeReport, now: int, c: Command) returns (i: nat)
    requires Sound(s) && SyncNode(s, node, o, now).reply.Ok? && c in SyncNode(s, node, o, now).reply.value
    ensures i < |s.runs| && s.runs[i].node == node && c.instance == SyncRow(node, o.vms, now, s.runs[i])
    ensures ActionFor(c.instance, StateOf(o.vms, s.runs[i].id), now) == Some(c.action)
    ensures c.action != EnsureVM ==> c.jit == 0 && c.task.None?
  {
    assert forall k | 0 <= k < |s.tasks| :: TaskOK(s.tasks[k]);
    assert forall k | 0 <= k < |s.runs| :: RowOK(s.runs[k]);
    ReplyPolicy(s, node, o, now);
    var after := Sync.Reported(s, node, o, now);
    var item :| Wanted(s, node, o, now, item) && Carries(after.tasks, s.clients, item, c);
    i :| 0 <= i < |s.runs| && From(node, o.vms, now, s.runs[i], item);
  }

  lemma {:induction false} CommandsFresh(policy: Policy, w: World, o: NodeReport, now: int, c: Command)
    requires WorldOK(policy, w) && o in w.posted
    requires SyncNode(w.store, policy.node, o, now).reply.Ok? && c in SyncNode(w.store, policy.node, o, now).reply.value
    ensures CommandOK(policy.node, Sync.Reported(w.store, policy.node, o, now).runs, c)
  {
    var after := Sync.Reported(w.store, policy.node, o, now).runs;
    AcceptedSound(w.store, policy.node, o, now);
    ReportAgrees(policy.node, w.store, w.host, o, now);
    var i := CommandFrom(w.store, policy.node, o, now, c);
    assert after[i] == c.instance && RowStays(policy.node, w.store.runs[i], after[i]);
    InstanceAt(after, i);
  }

  lemma {:induction false} DeliveryKeeps(policy: Policy, w: World, o: NodeReport, now: int)
    requires WorldOK(policy, w) && o in w.posted
    ensures var r := SyncNode(w.store, policy.node, o, now);
            WorldOK(policy, w.(store := r.store, issued := w.issued + Replied(r.reply)))
  {
    var r := SyncNode(w.store, policy.node, o, now);
    if r.reply.Ok? {
      ReportedKeeps(policy, w, o, now);
      forall c | c in Replied(r.reply)
        ensures CommandOK(policy.node, r.store.runs, c)
      {
        CommandsFresh(policy, w, o, now, c);
      }
    } else {
      assert w.(store := r.store, issued := w.issued + Replied(r.reply)) == w;
    }
  }

  // ---- The host moves ----

  /** New records come from the command obeyed, and so do deletions. */
  ghost predicate Obeys(h: Host, h': Host, c: Option<Command>) {
    forall id | id in h'.manifests ::
      || (id in h.manifests && h'.manifests[id].instance.pool == h.manifests[id].instance.pool
          && (h'.manifests[id].phase == PhaseDeleted ==> h.manifests[id].phase == PhaseDeleted))
      || (c.Some? && id == c.value.instance.id && h'.manifests[id].instance.pool == c.value.instance.pool
          && (h'.manifests[id].phase == PhaseDeleted ==> c.value.action == DeleteVM))
  }

  lemma {:induction false} HostKeeps(policy: Policy, w: World, h': Host, c: Option<Command>)
    requires WorldOK(policy, w) && HostOK(policy, h') && Advances(w.host, h') && Obeys(w.host, h', c)
    requires c.Some? ==> c.value in w.issued
    ensures WorldOK(policy, w.(host := h'))
  {
    forall id, p | PhaseAtLeast(w.host, id, p)
      ensures PhaseAtLeast(h', id, p)
    {
    }
    forall i | 0 <= i < |w.store.runs| && w.store.runs[i].node == policy.node
      ensures HeldShape(w.store.runs[i]) && Confirmed(h', w.store.runs[i])
    {
      assert Confirmed(w.host, w.store.runs[i]);
    }
    forall o | o in w.posted
      ensures ReportOK(policy.node, h', o)
    {
      assert ReportOK(policy.node, w.host, o);
      assert forall i | 0 <= i < |o.vms| :: Truthful(w.host, o.vms[i]) ==> Truthful(h', o.vms[i]);
    }
    forall id | id in h'.manifests
      ensures ManifestKnown(policy.node, w.store.runs, h', id)
    {
      assert c.Some? ==> CommandOK(policy.node, w.store.runs, c.value);
      assert id in w.host.manifests ==> ManifestKnown(policy.node, w.store.runs, w.host, id);
    }
  }

  /** What an agent writes into its report holds of the host from then on. */
  lemma {:induction false} SurveyTruthful(policy: Policy, h: Host, h': Host, o: NodeReport, uncertain: set<Key>)
    requires HostOK(policy, h) && o.node == policy.node && Surveyed(h, h', |h.files|, o.vms, uncertain)
    ensures ReportOK(policy.node, h', o)
  {
    forall i | 0 <= i < |o.vms|
      ensures Truthful(h', o.vms[i])
    {
      assert Hosting.Reported(h, h', h.files[i], o.vms[i].state, h.files[i] in uncertain);
    }
  }

  lemma {:induction false} HostEventKeeps(policy: Policy, w: World, e: Event, w': World)
    requires WorldOK(policy, w) && Happens(policy, w, e, w') && (e.Ensured? || e.Stopped? || e.Erased?)
    ensures WorldOK(policy, w')
  {
    match e
    case Ensured(c, job, now, free, h', r) =>
      EnsureKeeps(policy, w.host, h', c.instance, job, now, free, r);
      EnsureObeys(policy, w.host, h', c, job, now, free, r);
      HostKeeps(policy, w, h', Some(c));
    case Stopped(c, between, first, h', r) =>
      StopObeys(policy, w.host, between, h', c, first, r);
      HostKeeps(policy, w, h', Some(c));
    case Erased(c, h', r) =>
      DeleteKeeps(policy, w.host, h', c.instance.id, r);
      DeleteObeys(policy, w, h', c, r);
      HostKeeps(policy, w, h', Some(c));
  }

  lemma {:induction false} PostKeeps(policy: Policy, w: World, o: NodeReport)
    requires WorldOK(policy, w) && ReportOK(policy.node, w.host, o)
    ensures WorldOK(policy, w.(posted := w.posted + {o}))
  {
  }

  lemma {:induction false} SurveyOnlyKeeps(policy: Policy, w: World, h': Host)
    requires WorldOK(policy, w) && CutShort(w.host, h')
    ensures WorldOK(policy, w.(host := h'))
  {
    SurveyKeeps(policy, w.host, h');
    HostKeeps(policy, w, h', None);
  }

  lemma {:induction false} SurveyPosts(policy: Policy, w: World, h': Host, o: NodeReport, uncertain: set<Key>)
    requires WorldOK(policy, w) && o.node == policy.node && Surveyed(w.host, h', |w.host.files|, o.vms, uncertain)
    ensures WorldOK(policy, w.(host := h', posted := w.posted + {o}))
  {
    SurveyCut(w.host, h', |w.host.files|, o.vms, uncertain);
    SurveyOnlyKeeps(policy, w, h');
    SurveyTruthful(policy, w.host, h', o, uncertain);
    PostKeeps(policy, w.(host := h'), o);
  }

  lemma {:induction false} PowerOffKeeps(policy: Policy, w: World, h': Host)
    requires WorldOK(policy, w) && Untouched(w.host, h')
    ensures WorldOK(policy, w.(host := h'))
  {
    FadeKeeps(policy, w.host, h');
    HostKeeps(policy, w, h', None);
  }

  lemma {:induction false} EventKeeps(policy: Policy, w: World, e: Event, w': World)
    requires WorldOK(policy, w) && Happens(policy, w, e, w')
    ensures WorldOK(policy, w')
  {
    if e.Ensured? || e.Stopped? || e.Erased? {
      HostEventKeeps(policy, w, e, w');
    } else {
      match e
      case ByController(op, now) => ControllerKeeps(policy, w, op, now);
      case Delivered(o, now) => DeliveryKeeps(policy, w, o, now);
      case Surveys(o, uncertain, h') => SurveyPosts(policy, w, h', o, uncertain);
      case SurveyFails(h') => SurveyOnlyKeeps(policy, w, h');
      case PowersOff(h') => PowerOffKeeps(policy, w, h');
    }
  }

  lemma {:induction false} EnsureObeys(policy: Policy, h: Host, h': Host, c: Command, job: Job, now: int, free: int, r: Effect)
    requires Ensures(policy, h, h', c.instance, job, now, free, r)
    ensures Obeys(h, h', Some(c))
  {
  }

  lemma {:induction false} CertifyObeys(policy: Policy, h: Host, h': Host, c: Command, r: Effect)
    requires CertifiesStop(policy, h, h', c.instance, r)
    ensures Obeys(h, h', Some(c))
  {
  }

  lemma {:induction false} StopOnlyObeys(h: Host, h': Host, c: Command, r: Effect)
    requires Stops(h, h', c.instance.id, r)
    ensures Obeys(h, h', None)
  {
  }

  lemma {:induction false} ObeysTransitive(h: Host, h': Host, h'': Host, c: Command)
    requires Obeys(h, h', Some(c)) && Obeys(h', h'', None)
    ensures Obeys(h, h'', Some(c))
  {
  }

  lemma {:induction false} StopObeys(policy: Policy, h: Host, between: Host, h': Host, c: Command, first: Effect, r: Effect)
    requires HostOK(policy, h) && ObeysStop(policy, h, c.instance, between, first, h', r)
    ensures HostOK(policy, h') && Advances(h, h') && Obeys(h, h', Some(c))
  {
    CertifyKeeps(policy, h, between, c.instance, first);
    CertifyObeys(policy, h, between, c, first);
    if h' != between {
      StopKeeps(policy, between, h', c.instance.id, r);
      AdvancesTransitive(h, between, h');
      StopOnlyObeys(between, h', c, r);
      ObeysTransitive(h, between, h', c);
    }
  }

  lemma {:induction false} DeleteObeys(policy: Policy, w: World, h': Host, c: Command, r: Effect)
    requires WorldOK(policy, w) && c in w.issued && c.action == DeleteVM && Deletes(w.host, h', c.instance.id, r)
    ensures Obeys(w.host, h', Some(c))
  {
    var id := c.instance.id;
    if id in w.host.manifests {
      assert ManifestKnown(policy.node, w.store.runs, w.host, id);
      assert CommandOK(policy.node, w.store.runs, c);
    }
  }
}
