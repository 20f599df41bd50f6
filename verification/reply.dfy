/** The reply policy of Store.Sync: which pending commands a reply carries,
    in which order, and how large it can grow. */
module Reply {
  import opened Resources
  import opened Model
  import opened Order
  import opened Ledger
  import opened State
  import opened Transactions
  import opened Sync

  // ---- Where pending commands come from ----

  ghost predicate From(node: Key, vms: seq<VMReport>, now: int, a: Instance, item: Pending) {
    && Concerns(node, a)
    && item.instance == SyncRow(node, vms, now, a)
    && ActionFor(item.instance, StateOf(vms, a.id), now) == Some(item.action)
  }

  lemma {:induction false} PendingIff(node: Key, vms: seq<VMReport>, now: int, runs: seq<Instance>, item: Pending)
    ensures item in PendingAll(node, vms, now, runs) <==> exists i | 0 <= i < |runs| :: From(node, vms, now, runs[i], item)
  {
    if runs != [] {
      PendingIff(node, vms, now, Init(runs), item);
      assert forall i | 0 <= i < |runs| - 1 :: Init(runs)[i] == runs[i];
      assert item in PendingOf(node, vms, now, Last(runs)) <==> From(node, vms, now, Last(runs), item);
      if i :| 0 <= i < |runs| && From(node, vms, now, runs[i], item) && i < |runs| - 1 {
        assert From(node, vms, now, Init(runs)[i], item);
      }
    }
  }

  lemma {:induction false} PendingAt(node: Key, vms: seq<VMReport>, now: int, runs: seq<Instance>, item: Pending) returns (i: nat)
    requires item in PendingAll(node, vms, now, runs)
    ensures i < |runs| && From(node, vms, now, runs[i], item) && item.instance.id == runs[i].id
  {
    PendingIff(node, vms, now, runs, item);
    i :| 0 <= i < |runs| && From(node, vms, now, runs[i], item);
  }

  lemma {:induction false} PendingOrdered(node: Key, vms: seq<VMReport>, now: int, runs: seq<Instance>)
    requires UniqueInstances(runs)
    ensures StrictTotalOn(Sooner, Elements(PendingAll(node, vms, now, runs)))
  {
    var items := PendingAll(node, vms, now, runs);
    forall a, b | a in Elements(items) && b in Elements(items) && a.instance.id == b.instance.id
      ensures a == b
    {
      var i := PendingAt(node, vms, now, runs, a);
      var j := PendingAt(node, vms, now, runs, b);
      SamePending(node, vms, now, runs[i], a, b) by {
        assert i == j;
      }
    }
    SoonerTotal(Elements(items));
  }

  lemma {:induction false} SamePending(node: Key, vms: seq<VMReport>, now: int, a: Instance, x: Pending, y: Pending)
    requires From(node, vms, now, a, x) && From(node, vms, now, a, y)
    ensures x == y
  {
  }

  lemma {:induction false} ScheduleOrdered(node: Key, vms: seq<VMReport>, now: int, runs: seq<Instance>)
    requires UniqueInstances(runs)
    ensures Sorted(Sooner, Schedule(node, vms, now, runs))
    ensures forall item :: item in Schedule(node, vms, now, runs)
                      <==> exists i | 0 <= i < |runs| :: From(node, vms, now, runs[i], item)
  {
    var items := PendingAll(node, vms, now, runs);
    PendingOrdered(node, vms, now, runs);
    SortPermutes(Sooner, items);
    SortSorts(Sooner, items);
    forall item
      ensures item in items <==> exists i | 0 <= i < |runs| :: From(node, vms, now, runs[i], item)
    {
      PendingIff(node, vms, now, runs, item);
    }
  }

  lemma {:induction false} SoonerTotal(s: set<Pending>)
    requires forall a, b | a in s && b in s && a.instance.id == b.instance.id :: a == b
    ensures StrictTotalOn(Sooner, s)
  {
  }

  // ---- Teardown first ----

  predicate Teardown(item: Pending) {
    item.action != EnsureVM
  }

  function Bare(item: Pending): Command {
    Command(item.instance, item.action, 0, None)
  }

  function Commands(items: seq<Pending>): seq<Command> {
    seq(|items|, i requires 0 <= i < |items| => Bare(items[i]))
  }

  /** How many items at the front of the schedule are teardown. */
  function Front(items: seq<Pending>): (m: nat)
    ensures m <= |items|
    ensures forall i | 0 <= i < m :: Teardown(items[i])
    ensures m < |items| ==> !Teardown(items[m])
  {
    if items == [] || !Teardown(items[0]) then 0 else
      var m := Front(items[1..]);
      assert forall i | 1 <= i < m + 1 :: items[i] == items[1..][i - 1];
      1 + m
  }

  lemma {:induction false} FrontAll(items: seq<Pending>)
    requires Sorted(Sooner, items)
    ensures forall i | 0 <= i < |items| :: Teardown(items[i]) <==> i < Front(items)
  {
    var m := Front(items);
    forall i | m <= i < |items|
      ensures !Teardown(items[i])
    {
      assert i > m ==> !Sooner(items[i], items[m]);
    }
  }

  function Least(a: nat, b: nat): nat {
    if a < b then a else b
  }

  lemma {:induction false} DeliverFront(tasks: seq<Task>, clients: map<Key, bool>, items: seq<Pending>)
    requires forall i | 0 <= i < |items| :: Teardown(items[i])
    ensures var m := Least(MAX_COMMANDS, |items|);
            Deliver(tasks, clients, items) == Ok(Batch(Commands(items[..m]), REPLY_BUDGET - m * COMMAND_SIZE))
  {
    if items == [] {
      assert Commands(items[..0]) == [];
    } else {
      var n := |items| - 1;
      DeliverFront(tasks, clients, items[..n]);
      assert items[..n][..Least(MAX_COMMANDS, n)] == items[..Least(MAX_COMMANDS, n)];
      if n < MAX_COMMANDS {
        assert items[..n + 1] == items[..n] + [items[n]];
        assert Commands(items[..n + 1]) == Commands(items[..n]) + [Bare(items[n])];
      }
    }
  }

  lemma {:induction false} DeliverGrows(tasks: seq<Task>, clients: map<Key, bool>, items: seq<Pending>, k: nat)
    requires k <= |items| && Deliver(tasks, clients, items).Ok?
    ensures Deliver(tasks, clients, items[..k]).Ok?
    ensures Deliver(tasks, clients, items[..k]).value.commands <= Deliver(tasks, clients, items).value.commands
    decreases |items|
  {
    if k == |items| {
      assert items[..k] == items;
    } else {
      var front := items[..|items| - 1];
      assert front[..k] == items[..k];
      DeliverGrows(tasks, clients, front, k);
    }
  }

  // ---- Size ----

  function SizeOf(c: Command): nat {
    COMMAND_SIZE + c.jit + match c.task case None => 0 case Some(p) => p.spec.size
  }

  function Size(commands: seq<Command>): nat {
    if commands == [] then 0 else Size(commands[..|commands| - 1]) + SizeOf(commands[|commands| - 1])
  }

  /** The limits that SetJIT and SubmitTask enforce. */
  ghost predicate SizesOK(tasks: seq<Task>, items: seq<Pending>) {
    && (forall i | 0 <= i < |tasks| :: tasks[i].spec.size <= MAX_TASK_PAYLOAD)
    && forall i | 0 <= i < |items| :: items[i].instance.jit <= MAX_JIT
  }

  lemma {:induction false} LoadBounded(tasks: seq<Task>, clients: map<Key, bool>, item: Pending, l: Load)
    requires SizesOK(tasks, [item]) && LoadOf(tasks, clients, item) == Ok(Some(l))
    ensures l.size <= COMMAND_SIZE + MAX_TASK_PAYLOAD
    ensures l.size == SizeOf(Command(item.instance, item.action, l.jit, l.task))
  {
    assert [item][0] == item;
    if item.action == EnsureVM && item.instance.task != NONE {
      FindTaskSound(tasks, item.instance.task);
    }
  }

  lemma {:induction false} DeliverSized(tasks: seq<Task>, clients: map<Key, bool>, items: seq<Pending>)
    requires SizesOK(tasks, items) && Deliver(tasks, clients, items).Ok?
    ensures var b := Deliver(tasks, clients, items).value;
            |b.commands| <= MAX_COMMANDS && 0 <= b.budget && Size(b.commands) + b.budget == REPLY_BUDGET
  {
    if items != [] {
      var item := items[|items| - 1];
      DeliverSized(tasks, clients, items[..|items| - 1]);
      var b := Deliver(tasks, clients, items[..|items| - 1]).value;
      var load := LoadOf(tasks, clients, item);
      if |b.commands| < MAX_COMMANDS && load.value.Some? {
        var l := load.value.value;
        LoadBounded(tasks, clients, item, l);
        var c := Command(item.instance, item.action, l.jit, l.task);
        assert (b.commands + [c])[..|b.commands|] == b.commands;
      }
    }
  }

  // ---- Every command is a pending one, and withholding has a reason ----

  ghost predicate Carries(tasks: seq<Task>, clients: map<Key, bool>, item: Pending, c: Command) {
    && c.instance == item.instance && c.action == item.action
    && LoadOf(tasks, clients, item) == Ok(Some(Load(SizeOf(c), c.jit, c.task)))
  }

  ghost predicate Sent(tasks: seq<Task>, clients: map<Key, bool>, items: seq<Pending>, c: Command) {
    exists i | 0 <= i < |items| :: Carries(tasks, clients, items[i], c)
  }

  lemma {:induction false} DeliverSound(tasks: seq<Task>, clients: map<Key, bool>, items: seq<Pending>)
    requires SizesOK(tasks, items) && Deliver(tasks, clients, items).Ok?
    ensures forall c | c in Deliver(tasks, clients, items).value.commands :: Sent(tasks, clients, items, c)
    ensures Deliver(tasks, clients, items).value.commands == [] ==>
              forall i | 0 <= i < |items| :: LoadOf(tasks, clients, items[i]) == Ok(None)
  {
    if items != [] {
      var front, item := items[..|items| - 1], items[|items| - 1];
      DeliverSound(tasks, clients, front);
      assert forall i | 0 <= i < |front| :: front[i] == items[i];
      var b := Deliver(tasks, clients, front).value;
      forall c | c in b.commands
        ensures Sent(tasks, clients, items, c)
      {
        var i :| 0 <= i < |front| && Carries(tasks, clients, front[i], c);
        assert Carries(tasks, clients, items[i], c);
      }
      var load := LoadOf(tasks, clients, item);
      if |b.commands| < MAX_COMMANDS && load.Ok? && load.value.Some? {
        var l := load.value.value;
        LoadBounded(tasks, clients, item, l);
        assert Carries(tasks, clients, items[|items| - 1], Command(item.instance, item.action, l.jit, l.task));
      }
    }
  }

  // ---- The policy ----

  /** How an accepted report is answered: at most four commands within
      900 KiB; teardown first, as much of it as fits, so an ensure appears
      only beside every pending deletion and stop; and something whenever
      anything may be delivered. */
  lemma {:induction false} Policy(tasks: seq<Task>, clients: map<Key, bool>, items: seq<Pending>, reply: seq<Command>)
    requires Sorted(Sooner, items) && SizesOK(tasks, items)
    requires Deliver(tasks, clients, items).Ok? && reply == Deliver(tasks, clients, items).value.commands
    ensures |reply| <= MAX_COMMANDS && Size(reply) <= REPLY_BUDGET
    ensures forall c | c in reply :: Sent(tasks, clients, items, c)
    ensures Commands(items[..Least(MAX_COMMANDS, Front(items))]) <= reply
    ensures forall i | Least(MAX_COMMANDS, Front(items)) <= i < |reply| :: reply[i].action == EnsureVM
    ensures (exists c :: c in reply && c.action == EnsureVM) ==>
              forall i | 0 <= i < |items| && Teardown(items[i]) :: Bare(items[i]) in reply
    ensures (exists i :: 0 <= i < |items| && LoadOf(tasks, clients, items[i]) != Ok(None)) ==> reply != []
  {
    var m := Front(items);
    var n := Least(MAX_COMMANDS, m);
    FrontAll(items);
    DeliverSized(tasks, clients, items);
    DeliverSound(tasks, clients, items);
    assert Commands(items[..n]) <= reply by {
      DeliverFront(tasks, clients, items[..m]);
      DeliverGrows(tasks, clients, items, m);
      assert items[..m][..n] == items[..n];
    }
    TailEnsures(tasks, clients, items, m);
    if c :| c in reply && c.action == EnsureVM {
      EnsureLast(items, reply, c);
    }
  }

  /** An ensure in the reply leaves no room for doubt about the teardown. */
  lemma {:induction false} EnsureLast(items: seq<Pending>, reply: seq<Command>, c: Command)
    requires |reply| <= MAX_COMMANDS && c in reply && c.action == EnsureVM
    requires Commands(items[..Least(MAX_COMMANDS, Front(items))]) <= reply
    requires forall i | 0 <= i < |items| :: Teardown(items[i]) <==> i < Front(items)
    ensures forall i | 0 <= i < |items| && Teardown(items[i]) :: Bare(items[i]) in reply
  {
    var n := Least(MAX_COMMANDS, Front(items));
    forall j | 0 <= j < n
      ensures reply[j] == Bare(items[j]) && (Teardown(items[j]) ==> reply[j].action != EnsureVM)
    {
      assert reply[j] == Commands(items[..n])[j];
    }
    var k :| 0 <= k < |reply| && reply[k] == c;
    assert n <= k && n == Front(items);
  }

  lemma {:induction false} TailEnsures(tasks: seq<Task>, clients: map<Key, bool>, items: seq<Pending>, m: nat)
    requires m <= |items| && Deliver(tasks, clients, items).Ok?
    requires forall i | 0 <= i < |items| :: Teardown(items[i]) <==> i < m
    ensures forall i | Least(MAX_COMMANDS, m) <= i < |Deliver(tasks, clients, items).value.commands| ::
              Deliver(tasks, clients, items).value.commands[i].action == EnsureVM
  {
    if |items| == m {
      DeliverFront(tasks, clients, items);
    } else {
      TailEnsures(tasks, clients, items[..|items| - 1], m);
    }
  }

  /** A command some row of the node needs after the report. */
  ghost predicate Wanted(s: Store, name: Key, o: NodeReport, now: int, item: Pending) {
    exists i | 0 <= i < |s.runs| :: From(name, o.vms, now, s.runs[i], item)
  }

  /** Sync answers every accepted report by the policy. */
  lemma {:induction false} ReplyPolicy(s: Store, name: Key, o: NodeReport, now: int)
    requires UniqueInstances(s.runs)
    requires forall i | 0 <= i < |s.tasks| :: s.tasks[i].spec.Valid()
    requires forall i | 0 <= i < |s.runs| :: s.runs[i].jit <= MAX_JIT
    requires SyncNode(s, name, o, now).reply.Ok?
    ensures var reply, after := SyncNode(s, name, o, now).reply.value, Reported(s, name, o, now);
            && |reply| <= MAX_COMMANDS && Size(reply) <= REPLY_BUDGET
            && (forall c | c in reply :: exists item :: Wanted(s, name, o, now, item) && Carries(after.tasks, s.clients, item, c))
            && ((exists c :: c in reply && c.action == EnsureVM) ==>
                  forall item | Wanted(s, name, o, now, item) && Teardown(item) :: Bare(item) in reply)
            && ((exists item :: Wanted(s, name, o, now, item) && LoadOf(after.tasks, s.clients, item) != Ok(None)) ==> reply != [])
  {
    ScheduleOrdered(name, o.vms, now, s.runs);
    var items := Schedule(name, o.vms, now, s.runs);
    var reply, after := SyncNode(s, name, o, now).reply.value, Reported(s, name, o, now);
    assert forall item :: item in items <==> Wanted(s, name, o, now, item);
    forall i | 0 <= i < |items|
      ensures items[i].instance.jit <= MAX_JIT
    {
      assert items[i] in items;
      var k :| 0 <= k < |s.runs| && From(name, o.vms, now, s.runs[k], items[i]);
    }
    Policy(after.tasks, s.clients, items, reply);
    forall c | c in reply
      ensures exists item :: Wanted(s, name, o, now, item) && Carries(after.tasks, s.clients, item, c)
    {
      assert Sent(after.tasks, s.clients, items, c);
      var i :| 0 <= i < |items| && Carries(after.tasks, s.clients, items[i], c);
      assert items[i] in items;
    }
  }

  // ---- The loop ----

  /** Fills a reply from the sorted schedule. */
  method Compose(tasks: seq<Task>, clients: map<Key, bool>, items: seq<Pending>) returns (r: Result<seq<Command>>)
    ensures r.Ok? <==> Deliver(tasks, clients, items).Ok?
    ensures r.Ok? ==> r.value == Deliver(tasks, clients, items).value.commands
    ensures r.Err? ==> r.fault == Deliver(tasks, clients, items).fault
  {
    var budget, commands := REPLY_BUDGET, [];
    for i := 0 to |items|
      invariant Deliver(tasks, clients, items[..i]) == Ok(Batch(commands, budget))
    {
      var item := items[i];
      assert items[..i + 1][..i] == items[..i];
      if |commands| >= MAX_COMMANDS {
        Full(tasks, clients, items, i);
        break;
      }
      var load := LoadOf(tasks, clients, item);
      if load.Err? {
        FirstFault(tasks, clients, items, i);
        return Err(load.fault);
      }
      if load.value.None? {
        continue;
      }
      var l := load.value.value;
      if l.size > budget && commands != [] {
        continue;
      }
      budget := budget - l.size;
      commands := commands + [Command(item.instance, item.action, l.jit, l.task)];
    }
    assert items[..|items|] == items;
    return Ok(commands);
  }

  lemma {:induction false} Full(tasks: seq<Task>, clients: map<Key, bool>, items: seq<Pending>, i: nat)
    requires i <= |items| && Deliver(tasks, clients, items[..i]).Ok?
    requires |Deliver(tasks, clients, items[..i]).value.commands| >= MAX_COMMANDS
    ensures Deliver(tasks, clients, items) == Deliver(tasks, clients, items[..i])
    decreases |items|
  {
    if i == |items| {
      assert items[..i] == items;
    } else {
      var front := items[..|items| - 1];
      assert front[..i] == items[..i];
      Full(tasks, clients, front, i);
    }
  }

  lemma {:induction false} FirstFault(tasks: seq<Task>, clients: map<Key, bool>, items: seq<Pending>, i: nat)
    requires i < |items| && Deliver(tasks, clients, items[..i]).Ok?
    requires |Deliver(tasks, clients, items[..i]).value.commands| < MAX_COMMANDS
    requires LoadOf(tasks, clients, items[i]).Err?
    ensures Deliver(tasks, clients, items) == Err(LoadOf(tasks, clients, items[i]).fault)
    decreases |items|
  {
    var front := items[..|items| - 1];
    if i < |front| {
      assert front[..i] == items[..i];
      FirstFault(tasks, clients, front, i);
    } else {
      assert front == items[..i];
    }
  }
}
