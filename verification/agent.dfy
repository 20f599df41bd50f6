/** The agent's loop body (Step of internal/agent/agent.go): survey, report,
    then the commands of the reply, one after another. */
module Agents {
  import opened Resources
  import opened Model
  import opened Ledger
  import opened State
  import opened Transactions
  import opened Sync
  import opened Hosting
  import opened HostSafety
  import opened World
  import opened Composition
  import opened Teardown
  import opened Provider
  import opened Consistency
  import opened Answers

  const MAX_REPLY := 8

  /** How far a step came. `effects` has one entry per command carried out. */
  datatype Ending =
    | NotSurveyed
    | NotSent
    | NotAnswered(report: NodeReport, uncertain: set<Key>)
    | Answered(report: NodeReport, uncertain: set<Key>, commands: seq<Command>, effects: seq<Effect>)

  // ---- What a step is ----

  /** One command, carried out as far as the effects went. */
  ghost predicate Acted(policy: Policy, h: Host, c: Command, now: int, h': Host, r: Effect) {
    match c.action
    case EnsureVM =>
      exists job, freeGiB :: EnsureActed(policy, h, c, job, now, freeGiB, h', r)
    case StopVM =>
      exists between, first :: StopActed(policy, h, c.instance, between, first, h', r)
    case DeleteVM => Deletes(h, h', c.instance.id, r)
  }

  /** A task's payload is provisioned as a task, a GitHub configuration as a
      runner. */
  ghost predicate EnsureActed(policy: Policy, h: Host, c: Command, job: Job, now: int, freeGiB: int, h': Host, r: Effect) {
    (job.kind == if c.task.Some? then TaskJob else RunnerJob) && Ensures(policy, h, h', c.instance, job, now, freeGiB, r)
  }

  /** A stop follows only a certificate that succeeded. */
  ghost predicate StopActed(policy: Policy, h: Host, a: Instance, between: Host, first: Effect, h': Host, r: Effect) {
    && CertifiesStop(policy, h, between, a, first)
    && if first == Done then Stops(between, h', a.id, r) else h' == between && r == first
  }

  /** Every command in turn; a failing one does not keep the next from being
      tried, but one the agent's own check refuses ends the loop. */
  ghost predicate Walked(policy: Policy, h: Host, commands: seq<Command>, effects: seq<Effect>, now: int, h': Host)
    decreases |commands|
  {
    if commands == [] || !Accepted(policy, commands[0]) then effects == [] && h' == h
    else
      && effects != []
      && exists next :: Acted(policy, h, commands[0], now, next, effects[0])
                        && Walked(policy, next, commands[1..], effects[1..], now, h')
  }

  ghost predicate Steps(policy: Policy, w: World, ending: Ending, now: int, w': World) {
    match ending
    case NotSurveyed | NotSent => CutShort(w.host, w'.host) && w' == w.(host := w'.host)
    case NotAnswered(o, uncertain) =>
      && o.node == policy.node && Surveyed(w.host, w'.host, |w.host.files|, o.vms, uncertain)
      && var r := SyncNode(w.store, policy.node, o, now);
         || w' == World(w.store, w'.host, w.posted + {o}, w.issued)
         || w' == World(r.store, w'.host, w.posted + {o}, w.issued + Replied(r.reply))
    case Answered(o, uncertain, commands, effects) =>
      && o.node == policy.node && SyncNode(w.store, policy.node, o, now).reply == Ok(commands)
      && w' == World(SyncNode(w.store, policy.node, o, now).store, w'.host, w.posted + {o}, w.issued + Replied(Ok(commands)))
      && exists h1 ::
           && Surveyed(w.host, h1, |w.host.files|, o.vms, uncertain)
           && Walked(policy, h1, if |commands| > MAX_REPLY then [] else commands, effects, now, w'.host)
  }

  /** Nothing failed on the way: every query was certain, the reply came, and
      each command finished or was refused. */
  predicate Unfailed(ending: Ending) {
    ending.Answered? && ending.uncertain == {} && Faulted !in ending.effects
  }

  predicate Declined(node: Key, controller: Store, ending: Ending, now: int) {
    ending.NotAnswered? && SyncNode(controller, node, ending.report, now).reply.Err?
  }

  // ---- The agent ----

  /** `controller` is the database at the other end of the connection; what was
      ever posted and issued is kept for the record only. */
  class Agent {
    const provider: Libvirt
    var sequence: int
    var controller: Store
    ghost var posted: set<NodeReport>
    ghost var issued: set<Command>
    /** How often a file, the connection or the controller has failed. */
    ghost var losses: nat

    constructor (policy: Policy)
      ensures fresh(provider) && provider.policy == policy && Whole() == START
    {
      provider := new Libvirt(policy);
      sequence, controller, posted, issued, losses := 0, INITIAL, {}, {}, 0;
    }

    method Lost() returns (lost: bool)
      modifies `losses
      ensures losses == old(losses) + if lost then 1 else 0
    {
      lost := *;
      if lost {
        losses := losses + 1;
      }
    }

    ghost function Whole(): World
      reads this, provider
    {
      World(controller, provider.View(), posted, issued)
    }

    /** The report goes out; it or the reply may be lost. */
    method Post(o: NodeReport, now: int) returns (reply: Option<seq<Command>>)
      modifies `controller, `posted, `issued, `losses
      ensures posted == old(posted) + {o} && losses >= old(losses)
      ensures reply.None? ==> losses > old(losses) || SyncNode(old(controller), provider.policy.node, o, now).reply.Err?
      ensures var r := SyncNode(old(controller), provider.policy.node, o, now);
              && (reply.Some? ==> r.reply == Ok(reply.value))
              && ((reply.None? && controller == old(controller) && issued == old(issued))
                  || (controller == r.store && issued == old(issued) + Replied(r.reply)))
    {
      posted := posted + {o};
      var lost := Lost();
      if lost {
        return None;
      }
      var r := SyncNode(controller, provider.policy.node, o, now);
      controller := r.store;
      issued := issued + Replied(r.reply);
      lost := Lost();
      if lost {
        return None;
      }
      return match r.reply case Ok(commands) => Some(commands) case Err(_) => None;
    }

    /** One accepted command. */
    method Obey(c: Command, now: int) returns (r: Effect)
      requires HostOK(provider.policy, provider.View())
      modifies provider
      ensures provider.failures >= old(provider.failures) && (r == Faulted ==> provider.failures > old(provider.failures))
      ensures Acted(provider.policy, old(provider.View()), c, now, provider.View(), r)
    {
      match c.action
      case EnsureVM =>
        var secret: Key := *;
        var size: nat := *;
        var freeGiB: int := *;
        var job := Job(secret, size, if c.task.Some? then TaskJob else RunnerJob);
        r := provider.Ensure(c.instance, job, now, freeGiB);
        EnsureIsActed(provider.policy, old(provider.View()), c, job, now, freeGiB, provider.View(), r);
      case StopVM =>
        r := provider.EnsureStopIntent(c.instance);
        ghost var between, first := provider.View(), r;
        if r == Done {
          CertifyKeeps(provider.policy, old(provider.View()), between, c.instance, first);
          r := provider.Stop(c.instance.id);
        }
        assert StopActed(provider.policy, old(provider.View()), c.instance, between, first, provider.View(), r);
      case DeleteVM =>
        r := provider.Delete(c.instance.id);
    }

    /** The commands of a reply, in order. */
    method ObeyAll(commands: seq<Command>, now: int) returns (effects: seq<Effect>)
      requires HostOK(provider.policy, provider.View())
      modifies provider
      ensures provider.failures >= old(provider.failures) && (Faulted in effects ==> provider.failures > old(provider.failures))
      ensures Walked(provider.policy, old(provider.View()), commands, effects, now, provider.View())
    {
      effects := [];
      ghost var start, sound := provider.View(), provider.failures;
      NonePassed(provider.policy, start, commands, now);
      for i := 0 to |commands|
        invariant |effects| == i && HostOK(provider.policy, provider.View())
        invariant provider.failures >= sound && (Faulted in effects ==> provider.failures > sound)
        invariant Passed(provider.policy, start, commands, i, effects, now, provider.View())
      {
        if !Accepted(provider.policy, commands[i]) {
          WalkEnds(provider.policy, start, commands, i, effects, now, provider.View());
          return;
        }
        ghost var before := provider.View();
        var r := Obey(commands[i], now);
        ActedKeeps(provider.policy, before, commands[i], now, provider.View(), r);
        OnePassed(provider.policy, start, commands, i, effects, now, before, r, provider.View());
        effects := effects + [r];
      }
      WalkEnds(provider.policy, start, commands, |commands|, effects, now, provider.View());
    }

    /** Step. Whether the host is ready, what is cached and how much disk is
        free are looked up elsewhere. */
    method Step(now: int) returns (ending: Ending)
      requires HostOK(provider.policy, provider.View())
      modifies this, provider
      ensures Steps(provider.policy, old(Whole()), ending, now, Whole())
      ensures ending.NotAnswered? || ending.Answered? ==>
                sequence == old(sequence) + 1 == ending.report.sequence && ending.report.ceiling == provider.policy.ceiling
      ensures losses == old(losses) && provider.failures == old(provider.failures) ==>
                Unfailed(ending) || Declined(provider.policy.node, old(controller), ending, now)
    {
      ghost var w := Whole();
      var surveyed, reports, uncertain := provider.Inventory();
      if !surveyed {
        return NotSurveyed;
      }
      ghost var h1 := provider.View();
      SurveyCut(w.host, h1, |w.host.files|, reports, uncertain);
      var lost := Lost();
      if lost {
        return NotSent;
      }
      sequence := sequence + 1;
      lost := Lost();
      if lost {
        return NotSent;
      }
      var ready: bool := *;
      var freeGiB: int := *;
      var digests: seq<Key> := *;
      var o := NodeReport.NodeReport(provider.policy.node, sequence, true, ready, ready, provider.policy.ceiling, freeGiB, digests, reports);
      var reply := Post(o, now);
      var dropped := Lost();
      if reply.None? || dropped {
        return NotAnswered(o, uncertain);  // lost, or the image catalog could not be saved
      }
      SurveyKeeps(provider.policy, w.host, h1);
      var effects := ObeyAll(if |reply.value| > MAX_REPLY then [] else reply.value, now);
      return Answered(o, uncertain, reply.value, effects);
    }
  }

  // ---- The loop ----

  lemma {:induction false} ActedKeeps(policy: Policy, h: Host, c: Command, now: int, h': Host, r: Effect)
    requires HostOK(policy, h) && Acted(policy, h, c, now, h', r)
    ensures HostOK(policy, h') && Advances(h, h')
  {
    match c.action
    case EnsureVM =>
      var job, freeGiB :| EnsureActed(policy, h, c, job, now, freeGiB, h', r);
      EnsureKeeps(policy, h, h', c.instance, job, now, freeGiB, r);
    case StopVM =>
      var between, first :| StopActed(policy, h, c.instance, between, first, h', r);
      CertifyKeeps(policy, h, between, c.instance, first);
      if first == Done {
        StopKeeps(policy, between, h', c.instance.id, r);
        AdvancesTransitive(h, between, h');
      }
    case DeleteVM => DeleteKeeps(policy, h, h', c.instance.id, r);
  }

  lemma {:induction false} EnsureIsActed(policy: Policy, h: Host, c: Command, job: Job, now: int, freeGiB: int, h': Host, r: Effect)
    requires c.action == EnsureVM && EnsureActed(policy, h, c, job, now, freeGiB, h', r)
    ensures Acted(policy, h, c, now, h', r)
  {
  }

  /** The loop's state after i commands: whatever finishes the walk from here
      finishes it from the start. */
  ghost predicate Passed(policy: Policy, start: Host, commands: seq<Command>, i: nat, effects: seq<Effect>, now: int, h: Host)
    requires i <= |commands|
  {
    forall rest, h' :: Walked(policy, h, commands[i..], rest, now, h') ==> Walked(policy, start, commands, effects + rest, now, h')
  }

  lemma {:induction false} NonePassed(policy: Policy, start: Host, commands: seq<Command>, now: int)
    ensures Passed(policy, start, commands, 0, [], now, start)
  {
    assert commands[0..] == commands;
    assert forall rest: seq<Effect> :: [] + rest == rest;
  }

  lemma {:induction false} WalkEnds(policy: Policy, start: Host, commands: seq<Command>, i: nat, effects: seq<Effect>, now: int, h: Host)
    requires i <= |commands| && Passed(policy, start, commands, i, effects, now, h)
    requires i < |commands| ==> !Accepted(policy, commands[i])
    ensures Walked(policy, start, commands, effects, now, h)
  {
    assert Walked(policy, h, commands[i..], [], now, h);
    assert effects + [] == effects;
  }

  lemma {:induction false} OnePassed(policy: Policy, start: Host, commands: seq<Command>, i: nat, effects: seq<Effect>, now: int,
                                     before: Host, r: Effect, h: Host)
    requires i < |commands| && Passed(policy, start, commands, i, effects, now, before)
    requires Accepted(policy, commands[i]) && Acted(policy, before, commands[i], now, h, r)
    ensures Passed(policy, start, commands, i + 1, effects + [r], now, h)
  {
    forall rest, h' | Walked(policy, h, commands[i + 1..], rest, now, h')
      ensures Walked(policy, start, commands, effects + [r] + rest, now, h')
    {
      assert commands[i..][1..] == commands[i + 1..];
      assert ([r] + rest)[1..] == rest;
      assert Walked(policy, before, commands[i..], [r] + rest, now, h');
      assert effects + [r] + rest == effects + ([r] + rest);
    }
  }

  // ---- An agent step is a run of the world ----

  lemma {:induction false} OneMoreEvent(policy: Policy, w: World, e: Event, w': World)
    requires Reachable(policy, w) && Happens(policy, w, e, w')
    ensures Reachable(policy, w')
  {
    var ws, es :| WorldRun(policy, ws, es) && ws[|es|] == w;
    assert WorldRun(policy, ws + [w'], es + [e]);
  }

  lemma {:induction false} ActedHappens(policy: Policy, w: World, c: Command, now: int, h': Host, r: Effect)
    requires Reachable(policy, w) && c in w.issued && Accepted(policy, c) && Acted(policy, w.host, c, now, h', r)
    ensures Reachable(policy, w.(host := h'))
  {
    var w' := w.(host := h');
    match c.action
    case EnsureVM =>
      var job, freeGiB :| EnsureActed(policy, w.host, c, job, now, freeGiB, h', r);
      OneMoreEvent(policy, w, Ensured(c, job, now, freeGiB, h', r), w');
    case StopVM =>
      var between, first :| StopActed(policy, w.host, c.instance, between, first, h', r);
      assert ObeysStop(policy, w.host, c.instance, between, first, h', r);
      OneMoreEvent(policy, w, Stopped(c, between, first, h', r), w');
    case DeleteVM => OneMoreEvent(policy, w, Erased(c, h', r), w');
  }

  lemma {:induction false} WalkedHappens(policy: Policy, w: World, commands: seq<Command>, effects: seq<Effect>, now: int, h': Host)
    requires Reachable(policy, w) && (forall c | c in commands :: c in w.issued)
    requires Walked(policy, w.host, commands, effects, now, h')
    ensures Reachable(policy, w.(host := h'))
    decreases |commands|
  {
    if commands == [] || !Accepted(policy, commands[0]) {
      assert w.(host := h') == w;
    } else {
      var next :| Acted(policy, w.host, commands[0], now, next, effects[0])
                  && Walked(policy, next, commands[1..], effects[1..], now, h');
      ActedHappens(policy, w, commands[0], now, next, effects[0]);
      WalkedHappens(policy, w.(host := next), commands[1..], effects[1..], now, h');
    }
  }

  lemma {:induction false} ReportHappens(policy: Policy, w: World, o: NodeReport, uncertain: set<Key>, now: int, h1: Host)
    requires Reachable(policy, w) && o.node == policy.node && Surveyed(w.host, h1, |w.host.files|, o.vms, uncertain)
    ensures Reachable(policy, World(w.store, h1, w.posted + {o}, w.issued))
    ensures var r := SyncNode(w.store, policy.node, o, now);
            Reachable(policy, World(r.store, h1, w.posted + {o}, w.issued + Replied(r.reply)))
  {
    var w1 := World(w.store, h1, w.posted + {o}, w.issued);
    var r := SyncNode(w.store, policy.node, o, now);
    OneMoreEvent(policy, w, Surveys(o, uncertain, h1), w1);
    OneMoreEvent(policy, w1, Delivered(o, now), World(r.store, h1, w.posted + {o}, w.issued + Replied(r.reply)));
  }

  /** Wherever a step is cut short, it is a run of the world: all that holds
      of reachable worlds holds after any number of agent steps. */
  lemma {:induction false} StepIsRun(policy: Policy, w: World, ending: Ending, now: int, w': World)
    requires Reachable(policy, w) && Steps(policy, w, ending, now, w')
    ensures Reachable(policy, w')
  {
    match ending
    case NotSurveyed | NotSent => OneMoreEvent(policy, w, SurveyFails(w'.host), w');
    case NotAnswered(o, uncertain) => ReportHappens(policy, w, o, uncertain, now, w'.host);
    case Answered(o, uncertain, commands, effects) =>
      var obeyed := if |commands| > MAX_REPLY then [] else commands;
      var h1 :| Surveyed(w.host, h1, |w.host.files|, o.vms, uncertain) && Walked(policy, h1, obeyed, effects, now, w'.host);
      ReportHappens(policy, w, o, uncertain, now, h1);
      WalkedHappens(policy, w'.(host := h1), obeyed, effects, now, w'.host);
  }

  // ---- A step in which nothing fails ----

  lemma {:induction false} ShortReply(tasks: seq<Task>, clients: map<Key, bool>, items: seq<Pending>)
    requires Deliver(tasks, clients, items).Ok?
    ensures |Deliver(tasks, clients, items).value.commands| <= MAX_COMMANDS
  {
    if items != [] {
      ShortReply(tasks, clients, items[..|items| - 1]);
    }
  }

  /** Every stop and deletion that was tried succeeded. */
  predicate TornDown(commands: seq<Command>, effects: seq<Effect>) {
    forall i | 0 <= i < |commands| && i < |effects| && commands[i].action != EnsureVM :: effects[i] == Done
  }

  lemma {:induction false} WalkedObeys(policy: Policy, h: Host, commands: seq<Command>, effects: seq<Effect>, now: int, h': Host)
    requires Walked(policy, h, commands, effects, now, h') && TornDown(commands, effects)
    ensures Obeyed(policy, h, commands, h')
    decreases |commands|
  {
    if commands != [] && Accepted(policy, commands[0]) {
      var next :| Acted(policy, h, commands[0], now, next, effects[0])
                  && Walked(policy, next, commands[1..], effects[1..], now, h');
      ActedCarries(policy, h, commands[0], now, next, effects[0]);
      WalkedObeys(policy, next, commands[1..], effects[1..], now, h');
    }
  }

  lemma {:induction false} ActedCarries(policy: Policy, h: Host, c: Command, now: int, h': Host, r: Effect)
    requires Acted(policy, h, c, now, h', r) && (c.action != EnsureVM ==> r == Done)
    ensures Carried(policy, h, c, h')
  {
    match c.action
    case EnsureVM =>
      var job, freeGiB :| EnsureActed(policy, h, c, job, now, freeGiB, h', r);
    case StopVM =>
      var between, first :| StopActed(policy, h, c.instance, between, first, h', r);
      assert CertifiesStop(policy, h, between, c.instance, Done) && Stops(between, h', c.instance.id, Done);
    case DeleteVM =>
  }

  /** The step whose progress Teardown measures is the code's, once every
      query, stop and deletion in it succeeds. */
  lemma {:induction false} SmoothStep(policy: Policy, w: World, ending: Ending, now: int, w': World)
    requires Steps(policy, w, ending, now, w') && ending.Answered?
    requires ending.uncertain == {} && TornDown(ending.commands, ending.effects)
    ensures AgentStep(policy, w, ending.report, now, w')
  {
    var o, commands, effects := ending.report, ending.commands, ending.effects;
    assert |commands| <= MAX_COMMANDS by {
      var after := Sync.Reported(w.store, policy.node, o, now);
      ShortReply(after.tasks, after.clients, Schedule(policy.node, o.vms, now, w.store.runs));
    }
    var h1 :| Surveyed(w.host, h1, |w.host.files|, o.vms, {}) && Walked(policy, h1, commands, effects, now, w'.host);
    WalkedObeys(policy, h1, commands, effects, now, w'.host);
  }

  /** A command that a row of this node calls for. */
  ghost predicate CalledFor(policy: Policy, s: Store, c: Command) {
    && (exists i | 0 <= i < |s.runs| :: s.runs[i] == c.instance) && c.instance.node == policy.node
    && (c.action == DeleteVM ==> c.instance.state == Deleting)
  }

  lemma {:induction false} ActedDone(policy: Policy, w: World, c: Command, now: int, h': Host, r: Effect)
    requires WorldOK(policy, w) && CalledFor(policy, w.store, c) && c.action != EnsureVM
    requires Acted(policy, w.host, c, now, h', r) && r != Faulted
    ensures r == Done
  {
    var i :| 0 <= i < |w.store.runs| && w.store.runs[i] == c.instance;
    if c.action == DeleteVM {
      TeardownNotRefused(policy, w, i, h', r);
    } else {
      var between, first :| StopActed(policy, w.host, c.instance, between, first, h', r);
      TeardownNotRefused(policy, w, i, between, first);
    }
  }

  lemma {:induction false} ReachableDone(policy: Policy, w: World, c: Command, now: int, h': Host, r: Effect)
    requires Reachable(policy, w) && policy.ceiling.NonNegative() && CalledFor(policy, w.store, c)
    requires Acted(policy, w.host, c, now, h', r) && r != Faulted
    ensures c.action != EnsureVM ==> r == Done
  {
    if c.action != EnsureVM {
      ReachableOK(policy, w);
      ActedDone(policy, w, c, now, h', r);
    }
  }

  lemma {:induction false} WalkedTearsDown(policy: Policy, w: World, commands: seq<Command>, effects: seq<Effect>, now: int, h': Host)
    requires Reachable(policy, w) && policy.ceiling.NonNegative()
    requires forall c | c in commands :: c in w.issued && CalledFor(policy, w.store, c)
    requires Walked(policy, w.host, commands, effects, now, h') && Faulted !in effects
    ensures TornDown(commands, effects)
    decreases |commands|
  {
    if commands != [] && Accepted(policy, commands[0]) {
      var next :| Acted(policy, w.host, commands[0], now, next, effects[0])
                  && Walked(policy, next, commands[1..], effects[1..], now, h');
      ReachableDone(policy, w, commands[0], now, next, effects[0]);
      ActedHappens(policy, w, commands[0], now, next, effects[0]);
      WalkedTearsDown(policy, w.(host := next), commands[1..], effects[1..], now, h');
      TornMore(commands, effects);
    }
  }

  lemma {:induction false} TornMore(commands: seq<Command>, effects: seq<Effect>)
    requires commands != [] && effects != [] && TornDown(commands[1..], effects[1..])
    requires commands[0].action != EnsureVM ==> effects[0] == Done
    ensures TornDown(commands, effects)
  {
    forall i | 0 <= i < |commands| && i < |effects| && commands[i].action != EnsureVM
      ensures effects[i] == Done
    {
      if i > 0 {
        assert commands[1..][i - 1] == commands[i] && effects[1..][i - 1] == effects[i];
      }
    }
  }

  lemma {:induction false} ReplyCalledFor(policy: Policy, s: Store, o: NodeReport, now: int)
    requires Sound(s) && o.node == policy.node && SyncNode(s, policy.node, o, now).reply.Ok?
    ensures forall c | c in SyncNode(s, policy.node, o, now).reply.value :: CalledFor(policy, SyncNode(s, policy.node, o, now).store, c)
  {
    ReplyExactly(s, policy.node, o, now);
    var after := SyncNode(s, policy.node, o, now).store;
    forall c | c in SyncNode(s, policy.node, o, now).reply.value
      ensures CalledFor(policy, after, c)
    {
      assert Answer(after, policy.node, o.vms, now, c);
    }
  }

  lemma {:induction false} UnfailedTearsDown(policy: Policy, w: World, ending: Ending, now: int, w': World)
    requires Reachable(policy, w) && policy.ceiling.NonNegative() && Steps(policy, w, ending, now, w') && Unfailed(ending)
    ensures TornDown(ending.commands, ending.effects)
  {
    var o := ending.report;
    var commands := if |ending.commands| > MAX_REPLY then [] else ending.commands;
    var h1 :| Surveyed(w.host, h1, |w.host.files|, o.vms, ending.uncertain) && Walked(policy, h1, commands, ending.effects, now, w'.host);
    ReportHappens(policy, w, o, ending.uncertain, now, h1);
    assert Sound(w.store) by {
      ReachableOK(policy, w);
    }
    ReplyCalledFor(policy, w.store, o, now);
    WalkedTearsDown(policy, w'.(host := h1), commands, ending.effects, now, w'.host);
    assert |ending.commands| > MAX_REPLY ==> ending.effects == [];
  }

  /** A step of the code in which nothing failed is the step whose progress
      Teardown measures: in a reachable world no stop or deletion is refused. */
  lemma {:induction false} UnfailedStep(policy: Policy, w: World, ending: Ending, now: int, w': World)
    requires Reachable(policy, w) && policy.ceiling.NonNegative() && Steps(policy, w, ending, now, w') && Unfailed(ending)
    ensures AgentStep(policy, w, ending.report, now, w')
  {
    UnfailedTearsDown(policy, w, ending, now, w');
    SmoothStep(policy, w, ending, now, w');
  }
}
