/** The reply of Store.Sync, told by the rows a report leaves behind: which
    command each VM needs, and exactly which of them are sent. */
module Answers {
  import opened Resources
  import opened Model
  import opened Order
  import opened Ledger
  import opened State
  import opened Sync
  import opened Consistency
  import opened Soundness
  import opened Reply
  import opened Teardown
  import opened Validate
  import opened World
  import opened Composition
  import Hosting

  // ---- What one row needs ----

  predicate ToDelete(node: Key, b: Instance) {
    b.node == node && b.state == Deleting
  }

  predicate ToStop(node: Key, now: int, b: Instance) {
    && b.node == node && b.state != Deleted && b.state != Deleting
    && (b.state == Stopping || b.deadline <= now)
  }

  /** A VM that is registered, has time left and was not just seen. */
  predicate ToEnsure(node: Key, vms: seq<VMReport>, now: int, b: Instance) {
    && b.node == node && b.state != Deleted && b.state != Deleting && b.state != Stopping
    && now < b.deadline && b.jitReady
    && StateOf(vms, b.id) != Some(VMRunning) && StateOf(vms, b.id) != Some(VMUnknown)
  }

  predicate Needs(node: Key, vms: seq<VMReport>, now: int, b: Instance, action: Action) {
    match action
    case DeleteVM => ToDelete(node, b)
    case StopVM => ToStop(node, now, b)
    case EnsureVM => ToEnsure(node, vms, now, b)
  }

  lemma {:induction false} PendingNeeded(node: Key, vms: seq<VMReport>, now: int, a: Instance, item: Pending)
    ensures From(node, vms, now, a, item)
       <==> item.instance == SyncRow(node, vms, now, a) && Needs(node, vms, now, item.instance, item.action)
  {
  }

  lemma {:induction false} PendingOwn(node: Key, vms: seq<VMReport>, now: int, runs: seq<Instance>, i: nat, item: Pending)
    requires UniqueInstances(runs) && i < |runs| && item in Schedule(node, vms, now, runs) && item.instance.id == runs[i].id
    ensures From(node, vms, now, runs[i], item)
  {
    ScheduleOrdered(node, vms, now, runs);
    var k :| 0 <= k < |runs| && From(node, vms, now, runs[k], item);
    assert k == i;
  }

  lemma {:induction false} PendingRow(node: Key, vms: seq<VMReport>, now: int, runs: seq<Instance>, i: nat, action: Action)
    requires UniqueInstances(runs) && i < |runs|
    ensures var b := SyncRow(node, vms, now, runs[i]);
            && b.id == runs[i].id
            && (Needs(node, vms, now, b, action)
                <==> exists item :: item in Schedule(node, vms, now, runs) && item.instance.id == b.id && item.action == action)
  {
    var b, items := SyncRow(node, vms, now, runs[i]), Schedule(node, vms, now, runs);
    PendingNeeded(node, vms, now, runs[i], Pending(b, action));
    if item :| item in items && item.instance.id == b.id && item.action == action {
      PendingOwn(node, vms, now, runs, i, item);
    }
    if Needs(node, vms, now, b, action) {
      ScheduleOrdered(node, vms, now, runs);
      assert Pending(b, action) in items;
    }
  }

  lemma {:induction false} RowsAfter(s: Store, name: Key, o: NodeReport, now: int)
    requires Sound(s) && SyncFault(s, name, o).None?
    ensures SyncNode(s, name, o, now).reply.Ok?
    ensures SyncNode(s, name, o, now).store == Sync.Reported(s, name, o, now)
    ensures UniqueInstances(s.runs) && UniqueInstances(SyncNode(s, name, o, now).store.runs)
    ensures UniqueTasks(SyncNode(s, name, o, now).store.tasks)
  {
    AcceptedIsAnswered(s, name, o, now);
    UniqueReported(s.runs, name, o.vms, now);
    UniqueTasksAfter(s.tasks, Sync.Reported(s, name, o, now).tasks);
  }

  lemma {:induction false} UniqueReported(runs: seq<Instance>, name: Key, vms: seq<VMReport>, now: int)
    requires UniqueInstances(runs)
    ensures UniqueInstances(SyncRows(name, vms, now, runs))
  {
    UniqueAfter(runs, SyncRows(name, vms, now, runs));
  }

  /** A command is pending for a VM exactly when its row, as the report
      leaves it, needs that command. */
  lemma {:induction false} PendingExactly(s: Store, name: Key, o: NodeReport, now: int, i: nat, action: Action)
    requires Sound(s) && SyncFault(s, name, o).None? && i < |s.runs|
    ensures var b := SyncNode(s, name, o, now).store.runs[i];
            && b.id == s.runs[i].id
            && (Needs(name, o.vms, now, b, action)
                <==> exists item :: item in Schedule(name, o.vms, now, s.runs) && item.instance.id == b.id && item.action == action)
  {
    assert SyncNode(s, name, o, now).store.runs == SyncRows(name, o.vms, now, s.runs) && UniqueInstances(s.runs) by {
      RowsAfter(s, name, o, now);
    }
    PendingRow(name, o.vms, now, s.runs, i, action);
  }

  // ---- What the command carries ----

  /** A task's payload may be sent while it is kept, wanted and its client is
      approved. */
  predicate Sendable(tasks: seq<Task>, clients: map<Key, bool>, t: Task) {
    t in tasks && t.secret && !t.cancelled && !t.expired && t.client in clients && !clients[t.client]
  }

  /** The command for a row: an ensure bears its own runner configuration or
      its own task's payload, a teardown bears neither. */
  ghost predicate Bears(tasks: seq<Task>, clients: map<Key, bool>, c: Command) {
    if c.action != EnsureVM then c.jit == 0 && c.task == None
    else if c.instance.task == NONE then c.jit == c.instance.jit && c.task == None
    else
      && c.jit == 0
      && exists t :: Sendable(tasks, clients, t) && t.id == c.instance.task && c.task == Some(TaskPayload(t.id, t.spec))
  }

  lemma {:induction false} LoadBorne(tasks: seq<Task>, clients: map<Key, bool>, item: Pending, c: Command)
    requires UniqueTasks(tasks) && LoadOf(tasks, clients, item).Ok?
    requires c.instance == item.instance && c.action == item.action
    ensures Bears(tasks, clients, c) <==> LoadOf(tasks, clients, item) == Ok(Some(Load(SizeOf(c), c.jit, c.task)))
  {
    if c.action == EnsureVM && c.instance.task != NONE {
      FindTaskSound(tasks, c.instance.task);
      if Bears(tasks, clients, c) {
        var t :| Sendable(tasks, clients, t) && t.id == c.instance.task && c.task == Some(TaskPayload(t.id, t.spec));
        var k :| 0 <= k < |tasks| && tasks[k] == t;
        TaskAt(tasks, k);
      }
    }
  }

  /** What a command sent in answer to a report is: needed by a row the report
      left, with the load that belongs to it. */
  ghost predicate Answer(s: Store, name: Key, vms: seq<VMReport>, now: int, c: Command) {
    c.instance in s.runs && Needs(name, vms, now, c.instance, c.action) && Bears(s.tasks, s.clients, c)
  }

  // ---- The greedy loop ----

  /** Deletions, then stops, then ensures, each by ID. */
  predicate Before(c: Command, d: Command) {
    || (c.action == DeleteVM && d.action != DeleteVM)
    || (c.action == StopVM && d.action == EnsureVM)
    || (c.action == d.action && c.instance.id < d.instance.id)
  }

  ghost predicate InOrder(commands: seq<Command>) {
    forall j, k | 0 <= j < k < |commands| :: Before(commands[j], commands[k])
  }

  /** No room for a command: four others go before it, or what goes before it
      leaves less of the budget than it takes. */
  ghost predicate Crowded(reply: seq<Command>, c: Command, n: nat)
    requires n <= |reply|
  {
    && n > 0 && (forall j | 0 <= j < n :: Before(reply[j], c))
    && (n == MAX_COMMANDS || Size(reply[..n]) + SizeOf(c) > REPLY_BUDGET)
  }

  ghost predicate SentOrCrowded(reply: seq<Command>, c: Command) {
    c in reply || exists n: nat :: n <= |reply| && Crowded(reply, c, n)
  }

  ghost predicate Ranked(items: seq<Pending>) {
    forall i, j | 0 <= i < j < |items| :: Sooner(items[i], items[j])
  }

  /** The first n items are all dealt with. */
  ghost predicate AllPlaced(tasks: seq<Task>, clients: map<Key, bool>, items: seq<Pending>, n: nat, reply: seq<Command>)
    requires n <= |items|
  {
    forall i, c | 0 <= i < n && Carries(tasks, clients, items[i], c) :: SentOrCrowded(reply, c)
  }

  predicate Of(item: Pending, c: Command) {
    c.instance == item.instance && c.action == item.action
  }

  ghost predicate AllFrom(items: seq<Pending>, n: nat, reply: seq<Command>)
    requires n <= |items|
  {
    forall c | c in reply :: exists i | 0 <= i < n :: Of(items[i], c)
  }

  lemma {:induction false} CrowdedStill(reply: seq<Command>, x: Command, c: Command)
    requires SentOrCrowded(reply, c)
    ensures SentOrCrowded(reply + [x], c)
  {
    if c !in reply {
      var n: nat :| n <= |reply| && Crowded(reply, c, n);
      assert (reply + [x])[..n] == reply[..n];
      assert Crowded(reply + [x], c, n);
    }
  }

  lemma {:induction false} AllBefore(items: seq<Pending>, n: nat, reply: seq<Command>, c: Command)
    requires Ranked(items) && n < |items| && AllFrom(items, n, reply) && Of(items[n], c)
    ensures forall j | 0 <= j < |reply| :: Before(reply[j], c)
  {
    forall j | 0 <= j < |reply|
      ensures Before(reply[j], c)
    {
      assert reply[j] in reply;
      var i :| 0 <= i < n && Of(items[i], reply[j]);
      assert Sooner(items[i], items[n]);
    }
  }

  /** One more item: sent, skipped for want of room, or nothing to send. */
  lemma {:induction false} GreedyStep(tasks: seq<Task>, clients: map<Key, bool>, items: seq<Pending>, n: nat, b: Batch, b': Batch)
    requires Ranked(items) && n < |items| && SizesOK(tasks, [items[n]])
    requires |b.commands| <= MAX_COMMANDS && Size(b.commands) + b.budget == REPLY_BUDGET
    requires InOrder(b.commands) && AllFrom(items, n, b.commands) && AllPlaced(tasks, clients, items, n, b.commands)
    requires DeliverOne(tasks, clients, b, items[n]) == Ok(b')
    ensures InOrder(b'.commands) && AllFrom(items, n + 1, b'.commands) && AllPlaced(tasks, clients, items, n + 1, b'.commands)
  {
    if b' == b {
      forall c | Carries(tasks, clients, items[n], c)
        ensures SentOrCrowded(b.commands, c)
      {
        AllBefore(items, n, b.commands, c);
        assert b.commands[..|b.commands|] == b.commands;
        assert Crowded(b.commands, c, |b.commands|);
      }
    } else {
      var l := LoadOf(tasks, clients, items[n]).value.value;
      var x := Command(items[n].instance, items[n].action, l.jit, l.task);
      AllBefore(items, n, b.commands, x);
      assert Of(items[n], x);
      forall i, c | 0 <= i < n + 1 && Carries(tasks, clients, items[i], c)
        ensures SentOrCrowded(b'.commands, c)
      {
        if i < n {
          CrowdedStill(b.commands, x, c);
        } else {
          assert c == x;
        }
      }
    }
  }

  lemma {:induction false} Greedy(tasks: seq<Task>, clients: map<Key, bool>, items: seq<Pending>, n: nat)
    requires Ranked(items) && n <= |items| && SizesOK(tasks, items) && Deliver(tasks, clients, items[..n]).Ok?
    ensures var reply := Deliver(tasks, clients, items[..n]).value.commands;
            InOrder(reply) && AllFrom(items, n, reply) && AllPlaced(tasks, clients, items, n, reply)
  {
    if n > 0 {
      assert items[..n][..n - 1] == items[..n - 1] && items[..n][n - 1] == items[n - 1];
      Greedy(tasks, clients, items, n - 1);
      DeliverSized(tasks, clients, items[..n - 1]);
      var b := Deliver(tasks, clients, items[..n - 1]).value;
      GreedyStep(tasks, clients, items, n - 1, b, Deliver(tasks, clients, items[..n]).value);
    }
  }

  // ---- The schedule names every VM once ----

  ghost predicate DistinctVMs(items: seq<Pending>) {
    forall i, j | 0 <= i < j < |items| :: items[i].instance.id != items[j].instance.id
  }

  lemma {:induction false} PendingDistinct(node: Key, vms: seq<VMReport>, now: int, runs: seq<Instance>)
    requires UniqueInstances(runs)
    ensures DistinctVMs(PendingAll(node, vms, now, runs))
  {
    if runs != [] {
      PendingDistinct(node, vms, now, Init(runs));
      var front, last := PendingAll(node, vms, now, Init(runs)), PendingOf(node, vms, now, Last(runs));
      forall i | 0 <= i < |front|
        ensures front[i].instance.id != Last(runs).id
      {
        var k := PendingAt(node, vms, now, Init(runs), front[i]);
      }
    }
  }

  lemma {:induction false} ScheduleRanked(node: Key, vms: seq<VMReport>, now: int, runs: seq<Instance>)
    requires UniqueInstances(runs)
    ensures Ranked(Schedule(node, vms, now, runs))
  {
    var raw, items := PendingAll(node, vms, now, runs), Schedule(node, vms, now, runs);
    PendingDistinct(node, vms, now, runs);
    PendingOrdered(node, vms, now, runs);
    SortPermutes(Sooner, raw);
    SortSorts(Sooner, raw);
    forall i, j | 0 <= i < j < |raw|
      ensures raw[i] != raw[j]
    {
      assert raw[i].instance.id != raw[j].instance.id;
    }
    forall i, j | 0 <= i < j < |items|
      ensures Sooner(items[i], items[j])
    {
      DistinctOnce(raw, items[i]);
      OnceDistinct(items, i, j);
      assert items[i] in Elements(raw) && items[j] in Elements(raw);
    }
  }

  // ---- The reply ----

  lemma {:induction false} ItemIsAnswer(s: Store, name: Key, vms: seq<VMReport>, now: int, after: Store, i: nat, item: Pending, c: Command)
    requires i < |s.runs| && From(name, vms, now, s.runs[i], item) && Of(item, c)
    requires after.runs == SyncRows(name, vms, now, s.runs)
    requires UniqueTasks(after.tasks) && LoadOf(after.tasks, after.clients, item).Ok?
    ensures Answer(after, name, vms, now, c) <==> Carries(after.tasks, after.clients, item, c)
  {
    PendingNeeded(name, vms, now, s.runs[i], item);
    LoadBorne(after.tasks, after.clients, item, c);
    assert after.runs[i] == item.instance;
  }

  lemma {:induction false} AnswerIsItem(s: Store, name: Key, vms: seq<VMReport>, now: int, after: Store, c: Command)
    requires UniqueInstances(s.runs) && after.runs == SyncRows(name, vms, now, s.runs) && Answer(after, name, vms, now, c)
    ensures Pending(c.instance, c.action) in Schedule(name, vms, now, s.runs)
    ensures exists i | 0 <= i < |s.runs| :: From(name, vms, now, s.runs[i], Pending(c.instance, c.action))
  {
    var k :| 0 <= k < |after.runs| && after.runs[k] == c.instance;
    PendingNeeded(name, vms, now, s.runs[k], Pending(c.instance, c.action));
    ScheduleOrdered(name, vms, now, s.runs);
  }

  /** What the reply to an accepted report is, without naming the loop that
      composes it. */
  ghost predicate Proper(s: Store, name: Key, vms: seq<VMReport>, now: int, reply: seq<Command>) {
    && |reply| <= 4 && Size(reply) <= 921600 && InOrder(reply)
    && (forall c | c in reply :: Answer(s, name, vms, now, c))
    && forall c | Answer(s, name, vms, now, c) :: SentOrCrowded(reply, c)
  }

  lemma {:induction false} TaskSizes(s: Store, tasks: seq<Task>)
    requires Sound(s) && SameTasks(s.tasks, tasks)
    ensures forall i | 0 <= i < |tasks| :: tasks[i].spec.size <= MAX_TASK_PAYLOAD
  {
    assert forall i | 0 <= i < |s.tasks| :: TaskOK(s.tasks[i]) && SameTask(s.tasks[i], tasks[i]);
  }

  lemma {:induction false} PendingSizes(name: Key, vms: seq<VMReport>, now: int, runs: seq<Instance>)
    requires UniqueInstances(runs) && forall k | 0 <= k < |runs| :: runs[k].jit <= MAX_JIT
    ensures forall item | item in Schedule(name, vms, now, runs) :: item.instance.jit <= MAX_JIT
  {
    ScheduleOrdered(name, vms, now, runs);
  }

  lemma {:induction false} ScheduleSizes(s: Store, name: Key, vms: seq<VMReport>, now: int, tasks: seq<Task>)
    requires Sound(s) && SameTasks(s.tasks, tasks)
    ensures SizesOK(tasks, Schedule(name, vms, now, s.runs))
  {
    var items := Schedule(name, vms, now, s.runs);
    TaskSizes(s, tasks);
    forall k | 0 <= k < |s.runs|
      ensures s.runs[k].jit <= MAX_JIT
    {
      assert RowOK(s.runs[k]);
    }
    PendingSizes(name, vms, now, s.runs);
    assert forall i | 0 <= i < |items| :: items[i] in items;
  }

  lemma {:induction false} Delivered(s: Store, name: Key, vms: seq<VMReport>, now: int, after: Store)
    requires UniqueInstances(s.runs) && UniqueTasks(after.tasks) && after.runs == SyncRows(name, vms, now, s.runs)
    requires SizesOK(after.tasks, Schedule(name, vms, now, s.runs))
    requires forall item | item in Schedule(name, vms, now, s.runs) :: LoadOf(after.tasks, after.clients, item).Ok?
    requires Deliver(after.tasks, after.clients, Schedule(name, vms, now, s.runs)).Ok?
    ensures Proper(after, name, vms, now, Deliver(after.tasks, after.clients, Schedule(name, vms, now, s.runs)).value.commands)
  {
    var items := Schedule(name, vms, now, s.runs);
    var reply := Deliver(after.tasks, after.clients, items).value.commands;
    assert items[..|items|] == items;
    ScheduleRanked(name, vms, now, s.runs);
    ScheduleOrdered(name, vms, now, s.runs);
    Greedy(after.tasks, after.clients, items, |items|);
    DeliverSized(after.tasks, after.clients, items);
    DeliverSound(after.tasks, after.clients, items);
    forall c | c in reply
      ensures Answer(after, name, vms, now, c)
    {
      assert Sent(after.tasks, after.clients, items, c);
      var n :| 0 <= n < |items| && Carries(after.tasks, after.clients, items[n], c);
      assert items[n] in items;
      var i :| 0 <= i < |s.runs| && From(name, vms, now, s.runs[i], items[n]);
      ItemIsAnswer(s, name, vms, now, after, i, items[n], c);
    }
    forall c | Answer(after, name, vms, now, c)
      ensures SentOrCrowded(reply, c)
    {
      AnswerIsItem(s, name, vms, now, after, c);
      var item := Pending(c.instance, c.action);
      var i :| 0 <= i < |s.runs| && From(name, vms, now, s.runs[i], item);
      ItemIsAnswer(s, name, vms, now, after, i, item, c);
      var n :| 0 <= n < |items| && items[n] == item;
      assert Carries(after.tasks, after.clients, items[n], c);
    }
  }

  lemma {:induction false} LoadsOK(s: Store, name: Key, vms: seq<VMReport>, now: int, tasks: seq<Task>)
    requires Sound(s) && SameTasks(s.tasks, tasks)
    ensures forall item | item in Schedule(name, vms, now, s.runs) :: LoadOf(tasks, s.clients, item).Ok?
  {
    ScheduleOrdered(name, vms, now, s.runs);
    forall item | item in Schedule(name, vms, now, s.runs)
      ensures LoadOf(tasks, s.clients, item).Ok?
    {
      var i :| 0 <= i < |s.runs| && From(name, vms, now, s.runs[i], item);
      assert RowOK(s.runs[i]) && LinkedRun(s.tasks, s.runs[i]);
      LoadComposed(s, name, vms, now, s.runs[i], item, tasks);
    }
  }

  /** Every accepted report is answered properly: each command is what some
      row needs, with its own load; a command some row needs is left out only
      for want of room, which earlier commands took. */
  lemma {:induction false} ReplyExactly(s: Store, name: Key, o: NodeReport, now: int)
    requires Sound(s) && SyncFault(s, name, o).None?
    ensures SyncNode(s, name, o, now).reply.Ok?
    ensures Proper(SyncNode(s, name, o, now).store, name, o.vms, now, SyncNode(s, name, o, now).reply.value)
  {
    var after := Sync.Reported(s, name, o, now);
    RowsAfter(s, name, o, now);
    assert SameTasks(s.tasks, after.tasks);
    ScheduleSizes(s, name, o.vms, now, after.tasks);
    LoadsOK(s, name, o.vms, now, after.tasks);
    Delivered(s, name, o.vms, now, after);
  }

  // ---- Nothing else is a proper reply ----

  lemma {:induction false} SizeGrows(commands: seq<Command>, n: nat, k: nat)
    requires n <= k < |commands|
    ensures Size(commands[..n]) + SizeOf(commands[k]) <= Size(commands)
    decreases |commands|
  {
    var front := commands[..|commands| - 1];
    if k < |front| {
      assert front[..n] == commands[..n];
      SizeGrows(front, n, k);
    } else {
      SizePrefix(front, n);
      assert front[..n] == commands[..n];
    }
  }

  lemma {:induction false} SizePrefix(commands: seq<Command>, n: nat)
    requires n <= |commands|
    ensures Size(commands[..n]) <= Size(commands)
    decreases |commands|
  {
    if n < |commands| {
      var front := commands[..|commands| - 1];
      assert front[..n] == commands[..n];
      SizePrefix(front, n);
    } else {
      assert commands[..n] == commands;
    }
  }

  lemma {:induction false} PlacedBy(x: seq<Command>, y: seq<Command>, k: nat, j: nat)
    requires InOrder(x) && InOrder(y) && k < |x| && j < |y| && y[j] == x[k]
    requires k <= |y| && forall m | 0 <= m < k :: y[m] == x[m]
    requires k < |y| ==> !Before(y[k], x[k])
    ensures j == k
  {
  }

  lemma {:induction false} CrowdedBy(y: seq<Command>, c: Command, n: nat, k: nat)
    requires n <= |y| && k <= |y| && Crowded(y, c, n)
    requires k < |y| ==> !Before(y[k], c)
    ensures n <= k
  {
  }

  /** A command that one proper reply sends next is not left out by another
      that agrees so far, nor sent later. */
  lemma {:induction false} NextAgrees(s: Store, name: Key, vms: seq<VMReport>, now: int, x: seq<Command>, y: seq<Command>, k: nat)
    requires Proper(s, name, vms, now, x) && Proper(s, name, vms, now, y)
    requires k < |x| && k <= |y| && x[..k] == y[..k]
    requires k < |y| ==> !Before(y[k], x[k])
    ensures k < |y| && y[k] == x[k]
  {
    var c := x[k];
    assert c in x;
    assert forall j | 0 <= j < k :: y[j] == x[..k][j];
    if c in y {
      var j :| 0 <= j < |y| && y[j] == c;
      PlacedBy(x, y, k, j);
    } else {
      var n: nat :| n <= |y| && Crowded(y, c, n);
      CrowdedBy(y, c, n, k);
      assert y[..n] == x[..n] by {
        assert forall j | 0 <= j < n :: y[j] == x[j];
      }
      SizeGrows(x, n, k);
    }
  }

  lemma {:induction false} BeforeTotal(s: Store, name: Key, vms: seq<VMReport>, now: int, c: Command, d: Command)
    requires UniqueInstances(s.runs) && UniqueTasks(s.tasks)
    requires Answer(s, name, vms, now, c) && Answer(s, name, vms, now, d)
    ensures c == d || Before(c, d) || Before(d, c)
    ensures !(Before(c, d) && Before(d, c))
  {
    if c.instance.id == d.instance.id {
      var i :| 0 <= i < |s.runs| && s.runs[i] == c.instance;
      var j :| 0 <= j < |s.runs| && s.runs[j] == d.instance;
      assert i == j;
      if c.action == d.action == EnsureVM && c.instance.task != NONE {
        var t :| Sendable(s.tasks, s.clients, t) && t.id == c.instance.task && c.task == Some(TaskPayload(t.id, t.spec));
        var u :| Sendable(s.tasks, s.clients, u) && u.id == d.instance.task && d.task == Some(TaskPayload(u.id, u.spec));
        var m :| 0 <= m < |s.tasks| && s.tasks[m] == t;
        var n :| 0 <= n < |s.tasks| && s.tasks[n] == u;
        assert m == n;
      }
    }
  }

  lemma {:induction false} SameSoFar(s: Store, name: Key, vms: seq<VMReport>, now: int, x: seq<Command>, y: seq<Command>, k: nat)
    requires UniqueInstances(s.runs) && UniqueTasks(s.tasks)
    requires Proper(s, name, vms, now, x) && Proper(s, name, vms, now, y)
    requires k <= |x| && k <= |y| && x[..k] == y[..k]
    ensures x == y
    decreases |x| - k
  {
    if k == |x| && k == |y| {
      assert x == x[..k] && y == y[..k];
    } else {
      if k < |x| && k < |y| {
        assert x[k] in x && y[k] in y;
        BeforeTotal(s, name, vms, now, x[k], y[k]);
      }
      if k < |x| && (k < |y| ==> !Before(y[k], x[k])) {
        NextAgrees(s, name, vms, now, x, y, k);
      } else {
        NextAgrees(s, name, vms, now, y, x, k);
      }
      assert x[..k + 1] == x[..k] + [x[k]] && y[..k + 1] == y[..k] + [y[k]];
      SameSoFar(s, name, vms, now, x, y, k + 1);
    }
  }

  lemma {:induction false} ProperUnique(s: Store, name: Key, vms: seq<VMReport>, now: int, x: seq<Command>, y: seq<Command>)
    requires UniqueInstances(s.runs) && UniqueTasks(s.tasks)
    requires Proper(s, name, vms, now, x) && Proper(s, name, vms, now, y)
    ensures x == y
  {
    SameSoFar(s, name, vms, now, x, y, 0);
  }

  /** There is one proper reply only, so the rows decide it. */
  lemma {:induction false} ReplyUnique(s: Store, name: Key, o: NodeReport, now: int, reply: seq<Command>)
    requires Sound(s) && SyncFault(s, name, o).None?
    requires Proper(SyncNode(s, name, o, now).store, name, o.vms, now, reply)
    ensures SyncNode(s, name, o, now).reply == Ok(reply)
  {
    ReplyExactly(s, name, o, now);
    RowsAfter(s, name, o, now);
    ProperUnique(SyncNode(s, name, o, now).store, name, o.vms, now, reply, SyncNode(s, name, o, now).reply.value);
  }

  // ---- An ensure arrives ----

  lemma {:induction false} LeastFirst(reply: seq<Command>, c: Command)
    requires InOrder(reply) && SentOrCrowded(reply, c) && forall d | d in reply :: !Before(d, c)
    ensures reply != [] && reply[0] == c
  {
    assert reply != [] ==> reply[0] in reply;
  }

  /** With nothing to tear down, the first VM by ID that needs an ensure and
      whose load may be sent gets it: its own runner configuration, or its own
      task's payload. */
  lemma {:induction false} FirstEnsureSent(s: Store, name: Key, o: NodeReport, now: int, i: nat, c: Command)
    requires Sound(s) && SyncFault(s, name, o).None? && i < |s.runs|
    requires var after := SyncNode(s, name, o, now).store;
             && c.instance == after.runs[i] && c.action == EnsureVM
             && ToEnsure(name, o.vms, now, after.runs[i]) && Bears(after.tasks, after.clients, c)
             && (forall k | 0 <= k < |after.runs| :: !ToDelete(name, after.runs[k]) && !ToStop(name, now, after.runs[k]))
             && forall d | Answer(after, name, o.vms, now, d) :: c.instance.id <= d.instance.id
    ensures SyncNode(s, name, o, now).reply.Ok? && SyncNode(s, name, o, now).reply.value != []
    ensures SyncNode(s, name, o, now).reply.value[0] == c
  {
    ReplyExactly(s, name, o, now);
    var after, reply := SyncNode(s, name, o, now).store, SyncNode(s, name, o, now).reply.value;
    assert Answer(after, name, o.vms, now, c);
    forall d | d in reply
      ensures !Before(d, c)
    {
      assert Answer(after, name, o.vms, now, d);
    }
    LeastFirst(reply, c);
  }

  // ---- The agent's own check ----

  lemma {:induction false} HeldAtLeast(runs: seq<Instance>, i: nat, k: Kind)
    requires i < |runs| && forall m | 0 <= m < |runs| :: HoldingOK(runs[m])
    ensures runs[i].held.Of(k) <= HeldOf(runs, runs[i].node, k)
    ensures forall node :: 0 <= HeldOf(runs, node, k)
    decreases |runs|
  {
    HeldNonNegative(runs, k);
    if i < |runs| - 1 {
      HeldAtLeast(Init(runs), i, k);
      assert HoldingOK(Last(runs));
    } else {
      HeldNonNegative(Init(runs), k);
    }
  }

  lemma {:induction false} HeldNonNegative(runs: seq<Instance>, k: Kind)
    requires forall m | 0 <= m < |runs| :: HoldingOK(runs[m])
    ensures forall node :: 0 <= HeldOf(runs, node, k)
  {
    if runs != [] {
      HeldNonNegative(Init(runs), k);
      assert HoldingOK(runs[|runs| - 1]);
    }
  }

  lemma {:induction false} ChargeWithin(c: Config, runs: seq<Instance>, i: nat, n: Node)
    requires Valid(c) && Balanced(c, runs) && i < |runs| && c.Node(runs[i].node) == Some(n)
    requires runs[i].held == runs[i].pool.Charge()
    ensures runs[i].pool.Charge().Fits(n.budget)
  {
    assert HoldingOK(runs[i]);
    FindNodeSound(c.nodes, runs[i].node);
    var j :| 0 <= j < |c.nodes| && c.nodes[j] == n;
    forall k: Kind
      ensures 0 <= runs[i].pool.Charge().Of(k) <= n.budget.Of(k)
    {
      HeldAtLeast(runs, i, k);
      HeldWithinBudget(c, runs, j, k);
    }
    FitsByKind(runs[i].pool.Charge(), n.budget);
  }

  /** The agent never turns down an ensure for its size or its payload: the
      ceiling it reported covers the node's budget, and that every charge the
      controller holds in full. */
  lemma {:induction false} EnsureAccepted(s: Store, policy: Hosting.Policy, o: NodeReport, now: int, c: Command)
    requires Sound(s) && SyncFault(s, policy.node, o).None? && o.ceiling == policy.ceiling
    requires SyncNode(s, policy.node, o, now).reply.Ok? && c in SyncNode(s, policy.node, o, now).reply.value
    requires c.action == EnsureVM && HeldShape(c.instance)
    ensures Accepted(policy, c)
  {
    var after := SyncNode(s, policy.node, o, now).store;
    assert Sound(after) && after.config == s.config by {
      SyncSound(s, policy.node, o, now);
    }
    assert Answer(after, policy.node, o.vms, now, c) by {
      ReplyExactly(s, policy.node, o, now);
    }
    var i :| 0 <= i < |after.runs| && after.runs[i] == c.instance;
    assert RowOK(after.runs[i]);
    var n := s.config.Node(policy.node).value;
    ChargeWithin(s.config, after.runs, i, n);
    assert c.instance.pool.Charge().Fits(policy.ceiling);
  }
}
