/** Teardown terminates: every error-free agent step with something to stop or
    delete makes progress, four commands at a time. */
module Teardown {
  import opened Resources
  import opened Model
  import opened Order
  import opened Validate
  import opened Ledger
  import opened State
  import opened Sync
  import opened Consistency
  import opened Soundness
  import opened Movement
  import opened Reply
  import opened Hosting
  import opened HostSafety
  import opened World
  import opened Composition

  // ---- Replies are always composed ----

  lemma {:induction false} LoadComposed(s: Store, node: Key, vms: seq<VMReport>, now: int, a: Instance, item: Pending, tasks: seq<Task>)
    requires RowOK(a) && LinkedRun(s.tasks, a) && From(node, vms, now, a, item)
    requires UniqueTasks(s.tasks) && SameTasks(s.tasks, tasks)
    ensures LoadOf(tasks, s.clients, item).Ok?
  {
    var k := TaskFoundAfter(s.tasks, tasks, a.task);
    var b := item.instance;
    assert b.task == a.task && (b.jitReady <==> a.jitReady) && (b.state != Deleted ==> b.jit == a.jit);
  }

  lemma {:induction false} DeliverComposed(tasks: seq<Task>, clients: map<Key, bool>, items: seq<Pending>)
    requires forall i | 0 <= i < |items| :: LoadOf(tasks, clients, items[i]).Ok?
    ensures Deliver(tasks, clients, items).Ok?
  {
    if items != [] {
      DeliverComposed(tasks, clients, items[..|items| - 1]);
    }
  }

  /** An accepted report is always answered: no secret is ever missing that
      a pending command needs. */
  lemma {:induction false} AcceptedIsAnswered(s: Store, node: Key, o: NodeReport, now: int)
    requires Sound(s) && SyncFault(s, node, o).None?
    ensures SyncNode(s, node, o, now).reply.Ok?
  {
    var items := Schedule(node, o.vms, now, s.runs);
    var after := Sync.Reported(s, node, o, now);
    ScheduleOrdered(node, o.vms, now, s.runs);
    assert SameTasks(s.tasks, after.tasks);
    forall k | 0 <= k < |items|
      ensures LoadOf(after.tasks, s.clients, items[k]).Ok?
    {
      assert items[k] in items;
      var i :| 0 <= i < |s.runs| && From(node, o.vms, now, s.runs[i], items[k]);
      assert RowOK(s.runs[i]) && LinkedRun(s.tasks, s.runs[i]);
      LoadComposed(s, node, o.vms, now, s.runs[i], items[k], after.tasks);
    }
    DeliverComposed(after.tasks, s.clients, items);
  }

  // ---- The measure ----

  /** How far one VM is from being deleted. */
  function Distance(a: Instance, h: Host): nat {
    match a.state
    case Deleted => 0
    case Deleting => if a.id in h.manifests && h.manifests[a.id].phase == PhaseDeleted then 1 else 2
    case _ => if a.id in h.manifests && PhaseRank(PhaseStopped) <= PhaseRank(h.manifests[a.id].phase) then 3 else 4
  }

  function Measure(node: Key, runs: seq<Instance>, h: Host): nat {
    if runs == [] then 0
    else Measure(node, Init(runs), h) + if Last(runs).node == node then Distance(Last(runs), h) else 0
  }

  predicate Nearer(node: Key, a: Instance, h: Host, b: Instance, h': Host) {
    b.node == a.node && (a.node == node ==> Distance(b, h') <= Distance(a, h))
  }

  ghost predicate NearerAll(node: Key, runs: seq<Instance>, h: Host, after: seq<Instance>, h': Host) {
    |after| == |runs| && forall i | 0 <= i < |runs| :: Nearer(node, runs[i], h, after[i], h')
  }

  lemma {:induction false} MeasureShrinks(node: Key, runs: seq<Instance>, h: Host, after: seq<Instance>, h': Host)
    requires NearerAll(node, runs, h, after, h')
    ensures Measure(node, after, h') <= Measure(node, runs, h)
    ensures (exists i :: 0 <= i < |runs| && runs[i].node == node && Distance(after[i], h') < Distance(runs[i], h))
            ==> Measure(node, after, h') < Measure(node, runs, h)
  {
    if runs != [] {
      var n := |runs| - 1;
      assert forall i | 0 <= i < n :: Init(runs)[i] == runs[i] && Init(after)[i] == after[i];
      MeasureShrinks(node, Init(runs), h, Init(after), h');
      assert Nearer(node, runs[n], h, after[n], h');
    }
  }

  lemma {:induction false} HostNearer(node: Key, runs: seq<Instance>, h: Host, h': Host)
    requires Advances(h, h')
    ensures NearerAll(node, runs, h, runs, h')
  {
  }

  lemma {:induction false} NearerTransitive(node: Key, x: seq<Instance>, h: Host, y: seq<Instance>, h': Host, z: seq<Instance>, h'': Host)
    requires NearerAll(node, x, h, y, h') && NearerAll(node, y, h', z, h'')
    ensures NearerAll(node, x, h, z, h'')
  {
    forall i | 0 <= i < |x|
      ensures Nearer(node, x[i], h, z[i], h'')
    {
      assert Nearer(node, x[i], h, y[i], h') && Nearer(node, y[i], h', z[i], h'');
    }
  }

  // ---- One agent step ----

  /** The commands of a reply, obeyed in order. A teardown command finishes;
      an ensure may end in any way, and one the agent's own check refuses
      ends the step there. */
  ghost predicate Obeyed(policy: Policy, h: Host, commands: seq<Command>, h': Host)
    decreases |commands|
  {
    if commands == [] then h' == h
    else
      var c := commands[0];
      if !Accepted(policy, c) then h' == h
      else
        exists next :: Carried(policy, h, c, next) && Obeyed(policy, next, commands[1..], h')
  }

  ghost predicate Carried(policy: Policy, h: Host, c: Command, h': Host) {
    match c.action
    case DeleteVM => Deletes(h, h', c.instance.id, Done)
    case StopVM => exists between :: CertifiesStop(policy, h, between, c.instance, Done) && Stops(between, h', c.instance.id, Done)
    case EnsureVM => exists job, now, free, r :: Ensures(policy, h, h', c.instance, job, now, free, r)
  }

  /** Survey, report, reply, commands: an agent step in which no effect fails
      and the report is accepted. */
  ghost predicate AgentStep(policy: Policy, w: World, o: NodeReport, now: int, w': World) {
    exists h1 ::
      && o.node == policy.node && Surveyed(w.host, h1, |w.host.files|, o.vms, {})
      && SyncFault(w.store, policy.node, o).None?
      && var r := SyncNode(w.store, policy.node, o, now);
         && r.reply.Ok? && Obeyed(policy, h1, r.reply.value, w'.host)
         && w' == World(r.store, w'.host, w.posted + {o}, w.issued + Replied(r.reply))
  }

  lemma {:induction false} StopCarried(policy: Policy, h: Host, between: Host, h': Host, a: Instance)
    requires HostOK(policy, h) && CertifiesStop(policy, h, between, a, Done) && Stops(between, h', a.id, Done)
    ensures HostOK(policy, h') && Advances(h, h') && PhaseAtLeast(h', a.id, PhaseStopped)
  {
    CertifyKeeps(policy, h, between, a, Done);
    StopKeeps(policy, between, h', a.id, Done);
    AdvancesTransitive(h, between, h');
    assert a.id in between.manifests;
  }

  lemma {:induction false} CarriedKeeps(policy: Policy, h: Host, c: Command, h': Host)
    requires HostOK(policy, h) && Carried(policy, h, c, h')
    ensures HostOK(policy, h') && Advances(h, h')
    ensures c.action == DeleteVM && c.instance.id in h.manifests ==> PhaseAtLeast(h', c.instance.id, PhaseDeleted)
    ensures c.action == StopVM ==> PhaseAtLeast(h', c.instance.id, PhaseStopped)
  {
    match c.action
    case DeleteVM => DeleteKeeps(policy, h, h', c.instance.id, Done);
    case StopVM =>
      var between :| CertifiesStop(policy, h, between, c.instance, Done) && Stops(between, h', c.instance.id, Done);
      StopCarried(policy, h, between, h', c.instance);
    case EnsureVM =>
      var job, now, free, r :| Ensures(policy, h, h', c.instance, job, now, free, r);
      EnsureKeeps(policy, h, h', c.instance, job, now, free, r);
  }

  lemma {:induction false} ObeyedKeeps(policy: Policy, h: Host, commands: seq<Command>, h': Host)
    requires HostOK(policy, h) && Obeyed(policy, h, commands, h')
    ensures HostOK(policy, h') && Advances(h, h')
    decreases |commands|
  {
    if commands != [] && Accepted(policy, commands[0]) {
      var next :| Carried(policy, h, commands[0], next) && Obeyed(policy, next, commands[1..], h');
      CarriedKeeps(policy, h, commands[0], next);
      ObeyedKeeps(policy, next, commands[1..], h');
      AdvancesTransitive(h, next, h');
    }
  }

  /** The first command, when it tears down, takes effect. */
  lemma {:induction false} FirstTakesEffect(policy: Policy, h: Host, commands: seq<Command>, h': Host)
    requires HostOK(policy, h) && Obeyed(policy, h, commands, h')
    requires commands != [] && Accepted(policy, commands[0])
    ensures commands[0].action == DeleteVM && commands[0].instance.id in h.manifests ==>
              PhaseAtLeast(h', commands[0].instance.id, PhaseDeleted)
    ensures commands[0].action == StopVM ==> PhaseAtLeast(h', commands[0].instance.id, PhaseStopped)
  {
    var next :| Carried(policy, h, commands[0], next) && Obeyed(policy, next, commands[1..], h');
    CarriedKeeps(policy, h, commands[0], next);
    ObeyedKeeps(policy, next, commands[1..], h');
  }

  // ---- Teardown commands are accepted and never refused ----

  lemma {:induction false} TeardownAccepted(policy: Policy, c: Command)
    requires c.instance.node == policy.node && c.action != EnsureVM && c.task.None?
    ensures Accepted(policy, c)
  {
  }

  /** A stop or deletion the controller asks for is never refused by the
      host, so only failing effects can delay it. */
  lemma {:induction false} TeardownNotRefused(policy: Policy, w: World, i: nat, h': Host, r: Effect)
    requires WorldOK(policy, w) && i < |w.store.runs| && w.store.runs[i].node == policy.node
    ensures var a := w.store.runs[i];
            && (CertifiesStop(policy, w.host, h', a, r) ==> r != Refused)
            && (a.id in w.host.manifests && Stops(w.host, h', a.id, r) ==> r != Refused)
            && (a.state == Deleting && Deletes(w.host, h', a.id, r) ==> r != Refused)
  {
    var a := w.store.runs[i];
    assert ValidInstance(a) && VMOK(w.host, a.id) && Confirmed(w.host, a) by {
      assert RowOK(a);
    }
    NotRefused(policy, w.host, a, h', r);
  }

  lemma {:induction false} NotRefused(policy: Policy, h: Host, a: Instance, h': Host, r: Effect)
    requires ValidInstance(a) && a.node == policy.node && VMOK(h, a.id) && Confirmed(h, a)
    ensures CertifiesStop(policy, h, h', a, r) ==> r != Refused
    ensures a.id in h.manifests && Stops(h, h', a.id, r) ==> r != Refused
    ensures a.state == Deleting && Deletes(h, h', a.id, r) ==> r != Refused
  {
  }

  // ---- Progress ----

  lemma {:induction false} StateAt(vms: seq<VMReport>, i: nat)
    requires Sync.Distinct(vms) && i < |vms|
    ensures StateOf(vms, vms[i].id) == Some(vms[i].state)
  {
    if i < |vms| - 1 {
      assert vms[i].id != vms[|vms| - 1].id;
      StateAt(vms[..|vms| - 1], i);
    }
  }

  /** A survey without doubts reports every stop and every deletion. */
  ghost predicate Complete(h: Host, vms: seq<VMReport>, id: Key) {
    && (PhaseAtLeast(h, id, PhaseStopped) ==> StateOf(vms, id) == Some(VMStopped) || StateOf(vms, id) == Some(VMDeleted))
    && (PhaseAtLeast(h, id, PhaseDeleted) ==> StateOf(vms, id) == Some(VMDeleted))
  }

  lemma {:induction false} SeenComplete(h: Host, h1: Host, id: Key, state: ReportState)
    requires VMOK(h, id) && id in h.manifests && id in h1.manifests && Hosting.Reported(h, h1, id, state, false)
    ensures PhaseAtLeast(h1, id, PhaseStopped) ==> state == VMStopped || state == VMDeleted
    ensures PhaseAtLeast(h1, id, PhaseDeleted) ==> state == VMDeleted
  {
  }

  lemma {:induction false} SurveyComplete(policy: Policy, h: Host, h1: Host, o: NodeReport, id: Key)
    requires HostOK(policy, h) && Surveyed(h, h1, |h.files|, o.vms, {}) && Sync.Distinct(o.vms)
    ensures Complete(h1, o.vms, id)
  {
    if id in h1.manifests {
      assert VMOK(h, id) && id in h.files;
      var i :| 0 <= i < |h.files| && h.files[i] == id;
      assert Hosting.Reported(h, h1, h.files[i], o.vms[i].state, false);
      SeenComplete(h, h1, id, o.vms[i].state);
      StateAt(o.vms, i);
    }
  }

  lemma {:induction false} SyncNearer(node: Key, h: Host, o: NodeReport, now: int, a: Instance)
    requires ReportOK(node, h, o) && (Concerns(node, a) ==> RowFault(a, StateOf(o.vms, a.id)).None?)
    ensures Nearer(node, a, h, SyncRow(node, o.vms, now, a), h)
  {
    Claimed(o.vms, a.id);
    if StateOf(o.vms, a.id).Some? {
      var i :| 0 <= i < |o.vms| && o.vms[i] == VMReport(a.id, StateOf(o.vms, a.id).value);
      assert Truthful(h, o.vms[i]);
    }
  }

  lemma {:induction false} SyncNearerAll(node: Key, h: Host, o: NodeReport, now: int, runs: seq<Instance>)
    requires ReportOK(node, h, o) && RowsFault(node, o.vms, runs).None?
    ensures NearerAll(node, runs, h, SyncRows(node, o.vms, now, runs), h)
  {
    forall i | 0 <= i < |runs|
      ensures Nearer(node, runs[i], h, SyncRow(node, o.vms, now, runs[i]), h)
    {
      if Concerns(node, runs[i]) {
        NoRowFault(node, o.vms, runs, i);
      }
      SyncNearer(node, h, o, now, runs[i]);
    }
  }

  /** Something on the node is to be stopped or deleted. */
  predicate Due(node: Key, a: Instance, now: int) {
    a.node == node && a.state != Deleted && (a.state == Stopping || a.state == Deleting || now >= a.deadline)
  }

  lemma {:induction false} DueWanted(s: Store, node: Key, o: NodeReport, now: int, i: nat)
    requires i < |s.runs| && Due(node, s.runs[i], now)
    ensures var b := SyncRow(node, o.vms, now, s.runs[i]);
            b.state == Deleted || exists item :: From(node, o.vms, now, s.runs[i], item) && Teardown(item)
  {
    var b := SyncRow(node, o.vms, now, s.runs[i]);
    if b.state != Deleted {
      var action := ActionFor(b, StateOf(o.vms, s.runs[i].id), now);
      assert From(node, o.vms, now, s.runs[i], Pending(b, action.value));
    }
  }

  /** With teardown due, the reply begins with a teardown command. */
  lemma {:induction false} FirstIsTeardown(s: Store, node: Key, o: NodeReport, now: int, i: nat, item: Pending)
    requires Sound(s) && SyncNode(s, node, o, now).reply.Ok?
    requires i < |s.runs| && From(node, o.vms, now, s.runs[i], item) && Teardown(item)
    ensures var reply := SyncNode(s, node, o, now).reply.value;
            reply != [] && reply[0].action != EnsureVM
  {
    var items, reply, after := Schedule(node, o.vms, now, s.runs), SyncNode(s, node, o, now).reply.value, Sync.Reported(s, node, o, now);
    ScheduleOrdered(node, o.vms, now, s.runs);
    assert item in items;
    FrontAll(items);
    var m := Front(items);
    DeliverFront(after.tasks, s.clients, items[..m]);
    DeliverGrows(after.tasks, s.clients, items, m);
    assert Commands(items[..m][..Least(MAX_COMMANDS, m)])[0] == reply[0];
  }

  /** What the first teardown command achieves. */
  lemma {:induction false} FirstNearer(node: Key, h: Host, vms: seq<VMReport>, now: int, a: Instance, h': Host, c: Command)
    requires Complete(h, vms, a.id) && Advances(h, h')
    requires a.node == node && c.instance == SyncRow(node, vms, now, a) && Confirmed(h, c.instance)
    requires Concerns(node, a) ==> RowFault(a, StateOf(vms, a.id)).None?
    requires ActionFor(c.instance, StateOf(vms, a.id), now) == Some(c.action)
    requires c.action == DeleteVM && c.instance.id in h.manifests ==> PhaseAtLeast(h', c.instance.id, PhaseDeleted)
    requires c.action == StopVM ==> PhaseAtLeast(h', c.instance.id, PhaseStopped)
    ensures c.action != EnsureVM ==> Distance(c.instance, h') < Distance(c.instance, h)
  {
    if c.action == StopVM {
      assert !PhaseAtLeast(h, a.id, PhaseStopped);
    } else if c.action == DeleteVM {
      assert !PhaseAtLeast(h, a.id, PhaseDeleted);
    }
  }

  /** Some VM comes strictly nearer when teardown is due. */
  lemma {:induction false} StepStrict(policy: Policy, s: Store, h1: Host, o: NodeReport, now: int, h': Host, i: nat) returns (k: nat)
    requires Sound(s) && HostOK(policy, h1) && RowsAgree(policy.node, s.runs, h1) && ReportOK(policy.node, h1, o)
    requires forall id :: Complete(h1, o.vms, id)
    requires SyncFault(s, policy.node, o).None? && SyncNode(s, policy.node, o, now).reply.Ok?
    requires Obeyed(policy, h1, SyncNode(s, policy.node, o, now).reply.value, h')
    requires i < |s.runs| && Due(policy.node, s.runs[i], now) && Advances(h1, h')
    ensures k < |s.runs| && s.runs[k].node == policy.node
    ensures Distance(SyncRow(policy.node, o.vms, now, s.runs[k]), h') < Distance(s.runs[k], h1)
  {
    var reply := SyncNode(s, policy.node, o, now).reply.value;
    DueWanted(s, policy.node, o, now, i);
    if SyncRow(policy.node, o.vms, now, s.runs[i]).state == Deleted {
      k := i;
    } else {
      assert reply != [] && reply[0].action != EnsureVM by {
        var item :| From(policy.node, o.vms, now, s.runs[i], item) && Teardown(item);
        FirstIsTeardown(s, policy.node, o, now, i, item);
      }
      k := FirstRow(policy, s, h1, o, now);
      RowStrict(policy, h1, o, now, s.runs[k], reply, h');
    }
  }

  lemma {:induction false} FirstRow(policy: Policy, s: Store, h1: Host, o: NodeReport, now: int) returns (k: nat)
    requires Sound(s) && RowsAgree(policy.node, s.runs, h1) && ReportOK(policy.node, h1, o)
    requires SyncFault(s, policy.node, o).None? && SyncNode(s, policy.node, o, now).reply.Ok?
    requires var reply := SyncNode(s, policy.node, o, now).reply.value; reply != [] && reply[0].action != EnsureVM
    ensures k < |s.runs| && s.runs[k].node == policy.node && RowFaultFree(policy.node, o.vms, s.runs[k])
    ensures var c := SyncNode(s, policy.node, o, now).reply.value[0];
            && c.instance == SyncRow(policy.node, o.vms, now, s.runs[k])
            && ActionFor(c.instance, StateOf(o.vms, s.runs[k].id), now) == Some(c.action)
            && Confirmed(h1, c.instance) && Accepted(policy, c)
  {
    var c := SyncNode(s, policy.node, o, now).reply.value[0];
    k := CommandFrom(s, policy.node, o, now, c);
    assert Accepted(policy, c) by {
      TeardownAccepted(policy, c);
    }
    assert Confirmed(h1, c.instance) by {
      ReportAgrees(policy.node, s, h1, o, now);
      assert c.instance == SyncRows(policy.node, o.vms, now, s.runs)[k];
    }
    assert RowFaultFree(policy.node, o.vms, s.runs[k]) by {
      if Concerns(policy.node, s.runs[k]) {
        NoRowFault(policy.node, o.vms, s.runs, k);
      }
    }
  }

  lemma {:induction false} RowStrict(policy: Policy, h1: Host, o: NodeReport, now: int, a: Instance, reply: seq<Command>, h': Host)
    requires HostOK(policy, h1) && ReportOK(policy.node, h1, o) && Complete(h1, o.vms, a.id)
    requires reply != [] && reply[0].action != EnsureVM && Accepted(policy, reply[0])
    requires Obeyed(policy, h1, reply, h') && Advances(h1, h')
    requires a.node == policy.node && RowFaultFree(policy.node, o.vms, a)
    requires var c := reply[0];
             && c.instance == SyncRow(policy.node, o.vms, now, a) && Confirmed(h1, c.instance)
             && ActionFor(c.instance, StateOf(o.vms, a.id), now) == Some(c.action)
    ensures Distance(SyncRow(policy.node, o.vms, now, a), h') < Distance(a, h1)
  {
    FirstTakesEffect(policy, h1, reply, h');
    FirstNearer(policy.node, h1, o.vms, now, a, h', reply[0]);
    SyncNearer(policy.node, h1, o, now, a);
  }

  predicate RowFaultFree(node: Key, vms: seq<VMReport>, a: Instance) {
    Concerns(node, a) ==> RowFault(a, StateOf(vms, a.id)).None?
  }

  // ---- The step as a whole ----

  lemma {:induction false} CarriedWorld(policy: Policy, w: World, c: Command, h': Host)
    requires WorldOK(policy, w) && c in w.issued && Accepted(policy, c) && Carried(policy, w.host, c, h')
    ensures WorldOK(policy, w.(host := h'))
  {
    var w' := w.(host := h');
    match c.action
    case DeleteVM => HostEventKeeps(policy, w, Erased(c, h', Done), w');
    case StopVM =>
      var between :| CertifiesStop(policy, w.host, between, c.instance, Done) && Stops(between, h', c.instance.id, Done);
      HostEventKeeps(policy, w, Stopped(c, between, Done, h', Done), w');
    case EnsureVM =>
      var job, now, free, r :| Ensures(policy, w.host, h', c.instance, job, now, free, r);
      HostEventKeeps(policy, w, Ensured(c, job, now, free, h', r), w');
  }

  lemma {:induction false} ObeyedWorld(policy: Policy, w: World, commands: seq<Command>, h': Host)
    requires WorldOK(policy, w) && (forall c | c in commands :: c in w.issued) && Obeyed(policy, w.host, commands, h')
    ensures WorldOK(policy, w.(host := h'))
    decreases |commands|
  {
    if commands == [] || !Accepted(policy, commands[0]) {
      assert w.(host := h') == w;
    } else {
      var next :| Carried(policy, w.host, commands[0], next) && Obeyed(policy, next, commands[1..], h');
      CarriedWorld(policy, w, commands[0], next);
      ObeyedWorld(policy, w.(host := next), commands[1..], h');
    }
  }

  /** The survey and the delivery of an agent step, as events of the world. */
  lemma {:induction false} StepWorlds(policy: Policy, w: World, o: NodeReport, now: int, h1: Host) returns (w2: World)
    requires WorldOK(policy, w) && o.node == policy.node && Surveyed(w.host, h1, |w.host.files|, o.vms, {})
    ensures var r := SyncNode(w.store, policy.node, o, now);
            w2 == World(r.store, h1, w.posted + {o}, w.issued + Replied(r.reply))
    ensures WorldOK(policy, w2) && HostOK(policy, h1) && RowsAgree(policy.node, w.store.runs, h1) && Advances(w.host, h1)
    ensures ReportOK(policy.node, h1, o) && Sound(w.store)
    ensures forall id :: Complete(h1, o.vms, id)
  {
    var w1 := w.(host := h1, posted := w.posted + {o});
    SurveyPosts(policy, w, h1, o, {});
    SurveyCut(w.host, h1, |w.host.files|, o.vms, {});
    SurveyKeeps(policy, w.host, h1);
    assert ReportOK(policy.node, h1, o);
    forall id
      ensures Complete(h1, o.vms, id)
    {
      SurveyComplete(policy, w.host, h1, o, id);
    }
    DeliveryKeeps(policy, w1, o, now);
    var r := SyncNode(w.store, policy.node, o, now);
    w2 := World(r.store, h1, w.posted + {o}, w.issued + Replied(r.reply));
    assert w2 == w1.(store := r.store, issued := w1.issued + Replied(r.reply));
  }

  lemma {:induction false} StepNearer(policy: Policy, runs: seq<Instance>, h: Host, h1: Host, o: NodeReport, now: int, h': Host)
    requires Advances(h, h1) && Advances(h1, h') && ReportOK(policy.node, h1, o) && RowsFault(policy.node, o.vms, runs).None?
    ensures NearerAll(policy.node, runs, h, SyncRows(policy.node, o.vms, now, runs), h')
  {
    var after := SyncRows(policy.node, o.vms, now, runs);
    HostNearer(policy.node, runs, h, h1);
    SyncNearerAll(policy.node, h1, o, now, runs);
    HostNearer(policy.node, after, h1, h');
    NearerTransitive(policy.node, runs, h, runs, h1, after, h1);
    NearerTransitive(policy.node, runs, h, after, h1, after, h');
  }

  ghost predicate AnyDue(node: Key, runs: seq<Instance>, now: int) {
    exists i :: 0 <= i < |runs| && Due(node, runs[i], now)
  }

  lemma {:induction false} StepMeasure(policy: Policy, s: Store, h: Host, h1: Host, o: NodeReport, now: int, h': Host)
    requires Sound(s) && HostOK(policy, h1) && RowsAgree(policy.node, s.runs, h1) && ReportOK(policy.node, h1, o)
    requires forall id :: Complete(h1, o.vms, id)
    requires Advances(h, h1)
    requires SyncFault(s, policy.node, o).None? && SyncNode(s, policy.node, o, now).reply.Ok?
    requires Obeyed(policy, h1, SyncNode(s, policy.node, o, now).reply.value, h')
    ensures var after := SyncRows(policy.node, o.vms, now, s.runs);
            && Measure(policy.node, after, h') <= Measure(policy.node, s.runs, h)
            && (AnyDue(policy.node, s.runs, now) ==> Measure(policy.node, after, h') < Measure(policy.node, s.runs, h))
  {
    var node, after := policy.node, SyncRows(policy.node, o.vms, now, s.runs);
    assert Advances(h1, h') by {
      ObeyedKeeps(policy, h1, SyncNode(s, node, o, now).reply.value, h');
    }
    StepNearer(policy, s.runs, h, h1, o, now, h');
    MeasureShrinks(node, s.runs, h, after, h');
    if AnyDue(node, s.runs, now) {
      var i :| 0 <= i < |s.runs| && Due(node, s.runs[i], now);
      var k := StepStrict(policy, s, h1, o, now, h', i);
      assert Distance(s.runs[k], h1) <= Distance(s.runs[k], h) by {
        HostNearer(node, s.runs, h, h1);
        assert Nearer(node, s.runs[k], h, s.runs[k], h1);
      }
      assert Distance(after[k], h') < Distance(s.runs[k], h);
    }
  }

  /** Every error-free agent step with teardown due brings the node's VMs
      strictly nearer to deletion, and no agent step ever takes one back:
      after at most four such steps per VM nothing is left to tear down,
      despite the limit of four commands and even when an ensure in the same
      reply is refused. */
  lemma {:induction false} StepProgress(policy: Policy, w: World, o: NodeReport, now: int, w': World)
    requires WorldOK(policy, w) && AgentStep(policy, w, o, now, w')
    ensures WorldOK(policy, w')
    ensures Measure(policy.node, w'.store.runs, w'.host) <= Measure(policy.node, w.store.runs, w.host)
    ensures AnyDue(policy.node, w.store.runs, now) ==>
              Measure(policy.node, w'.store.runs, w'.host) < Measure(policy.node, w.store.runs, w.host)
  {
    var node := policy.node;
    var h1 :| o.node == node && Surveyed(w.host, h1, |w.host.files|, o.vms, {})
              && SyncNode(w.store, node, o, now).reply.Ok? && Obeyed(policy, h1, SyncNode(w.store, node, o, now).reply.value, w'.host);
    var w2 := StepWorlds(policy, w, o, now, h1);
    assert WorldOK(policy, w') by {
      ObeyedWorld(policy, w2, SyncNode(w.store, node, o, now).reply.value, w'.host);
      assert w' == w2.(host := w'.host);
    }
    assert w'.store.runs == SyncRows(node, o.vms, now, w.store.runs);
    StepMeasure(policy, w.store, w.host, h1, o, now, w'.host);
  }

  // ---- Nothing else takes a VM further away ----

  lemma {:induction false} MeasureBounded(node: Key, runs: seq<Instance>, h: Host)
    ensures Measure(node, runs, h) <= 4 * |runs|
  {
    if runs != [] {
      MeasureBounded(node, Init(runs), h);
    }
  }

  datatype Round = Round(report: NodeReport, now: int, world: World)

  /** A run of error-free agent steps; each round names the world it leaves. */
  ghost predicate AgentRun(policy: Policy, start: World, rounds: seq<Round>)
    decreases |rounds|
  {
    rounds == []
    || (AgentStep(policy, start, rounds[0].report, rounds[0].now, rounds[0].world)
        && AgentRun(policy, rounds[0].world, rounds[1..]))
  }

  /** Some round of the run found nothing left to stop or delete. */
  ghost predicate Settles(node: Key, start: World, rounds: seq<Round>)
    decreases |rounds|
  {
    && rounds != []
    && (!AnyDue(node, start.store.runs, rounds[0].now) || Settles(node, rounds[0].world, rounds[1..]))
  }

  lemma {:induction false} MeasureSettles(policy: Policy, start: World, rounds: seq<Round>)
    requires WorldOK(policy, start) && AgentRun(policy, start, rounds)
    requires Measure(policy.node, start.store.runs, start.host) < |rounds|
    ensures Settles(policy.node, start, rounds)
    decreases |rounds|
  {
    var r := rounds[0];
    if AnyDue(policy.node, start.store.runs, r.now) {
      assert WorldOK(policy, r.world)
             && Measure(policy.node, r.world.store.runs, r.world.host) < Measure(policy.node, start.store.runs, start.host) by {
        StepProgress(policy, start, r.report, r.now, r.world);
      }
      MeasureSettles(policy, r.world, rounds[1..]);
    }
  }

  /** Once a run of error-free agent steps is longer than four steps per VM,
      some step found nothing left to tear down. */
  lemma {:induction false} TeardownTerminates(policy: Policy, start: World, rounds: seq<Round>)
    requires Reachable(policy, start) && policy.ceiling.NonNegative() && AgentRun(policy, start, rounds)
    requires 4 * |start.store.runs| < |rounds|
    ensures Settles(policy.node, start, rounds)
  {
    assert WorldOK(policy, start) by {
      ReachableOK(policy, start);
    }
    MeasureBounded(policy.node, start.store.runs, start.host);
    MeasureSettles(policy, start, rounds);
  }

  /** What "nothing due" means for a VM that ought to go. */
  lemma {:induction false} NothingDue(node: Key, runs: seq<Instance>, now: int, i: nat)
    requires !AnyDue(node, runs, now) && i < |runs| && runs[i].node == node
    ensures runs[i].deadline <= now || runs[i].state == Stopping || runs[i].state == Deleting ==> runs[i].state == Deleted
  {
    assert !Due(node, runs[i], now);
  }
}
