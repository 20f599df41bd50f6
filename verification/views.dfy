/** What a client sees of its task, told by the task and its VM's row, and
    that a stored result decides it for good. */
module Views {
  import opened Model
  import opened Ledger
  import opened State
  import opened Transactions
  import opened Consistency
  import opened Soundness
  import opened Runs
  import opened Lifecycle

  // ---- The table ----

  /** The VM was never created, is being deleted or is deleted. */
  predicate Over(vm: Option<Instance>) {
    vm.None? || vm.value.state == Deleting || vm.value.state == Deleted
  }

  /** A VM that may be at work, of a task nobody cancelled, with time left. */
  predicate Live(t: Task, a: Instance, now: int) {
    !t.expired && !t.cancelled && now < a.deadline
  }

  /** Each state's own condition, on the stored task and its VM's row. */
  predicate Shows(t: Task, vm: Option<Instance>, now: int, x: Seen) {
    match x
    case Expired => t.expired
    case Queued => !t.expired && !t.cancelled && t.instance == NONE && t.result.None?
    case Starting => vm.Some? && (vm.value.state == Reserved || vm.value.state == Provisioning) && Live(t, vm.value, now)
    case Running => vm.Some? && (vm.value.state == Idle || vm.value.state == Busy) && Live(t, vm.value, now)
    case Stopping =>
      && vm.Some? && !t.expired && vm.value.state != Deleting && vm.value.state != Deleted
      && (vm.value.state == InstanceState.Stopping || t.cancelled || vm.value.deadline <= now)
    case Collecting =>
      && vm.Some? && !t.expired && t.result.None?
      && (vm.value.state == Deleting || (vm.value.state == Deleted && !t.cancelled && now - vm.value.updated <= 120_000_000_000))
    case Finished =>
      vm.Some? && !t.expired && t.result.None? && vm.value.state == Deleted && !t.cancelled && 120_000_000_000 < now - vm.value.updated
    case Succeeded => t.result.Some? && t.result.value.status == StatusSucceeded
    case Failed => t.result.Some? && t.result.value.status != StatusSucceeded && !t.cancelled
    case Cancelled =>
      && t.cancelled
      && (if t.result.Some? then t.result.value.status != StatusSucceeded
          else t.instance == NONE || (vm.Some? && vm.value.state == Deleted))
  }

  lemma {:induction false} DeriveShows(t: Task, vm: Option<Instance>, now: int, x: Seen)
    requires TaskOK(t) && ResultRule(t, vm) && (t.instance == NONE <==> vm.None?)
    ensures Derive(t, vm, now) == x <==> Shows(t, vm, now, x)
  {
  }

  lemma {:induction false} VMKnown(s: Store, i: nat)
    requires Sound(s) && i < |s.tasks|
    ensures s.tasks[i].instance == NONE <==> VMOf(s, s.tasks[i]).None?
    ensures TaskOK(s.tasks[i])
    ensures s.tasks[i].instance != NONE ==>
              VMOf(s, s.tasks[i]).value in s.runs && VMOf(s, s.tasks[i]).value.id == s.tasks[i].instance
  {
    assert LinkedTask(s.runs, s.tasks[i]);
    FindInstanceSound(s.runs, s.tasks[i].instance);
  }

  /** In every state of a regular run, at any time, exactly one state's
      condition holds of a task and its VM's row, and that state is shown. */
  lemma {:induction false} ViewExactly(ops: seq<Timed>, i: nat, now: int, x: Seen)
    requires RegularRun(ops) && i < |Run(ops).tasks|
    ensures View(Run(ops), i, now) == x <==> Shows(Run(ops).tasks[i], VMOf(Run(ops), Run(ops).tasks[i]), now, x)
  {
    var s := Run(ops);
    AlwaysSound(ops);
    AlwaysResultsLate(ops);
    VMKnown(s, i);
    assert ResultRule(s.tasks[i], VMOf(s, s.tasks[i]));
    DeriveShows(s.tasks[i], VMOf(s, s.tasks[i]), now, x);
  }

  /** The VM by whose row the task is shown. */
  lemma {:induction false} ShownBy(ops: seq<Timed>, i: nat, k: nat)
    requires i < |Run(ops).tasks| && k < |Run(ops).runs|
    requires Run(ops).tasks[i].instance != NONE && Run(ops).runs[k].id == Run(ops).tasks[i].instance
    ensures VMOf(Run(ops), Run(ops).tasks[i]) == Some(Run(ops).runs[k])
  {
    AlwaysSound(ops);
    InstanceAt(Run(ops).runs, k);
  }

  // ---- A result decides ----

  function ResultSays(result: TaskResult, cancelled: bool): Seen {
    if result.status == StatusSucceeded then Seen.Succeeded else if cancelled then Seen.Cancelled else Seen.Failed
  }

  /** The result and the cancellation of a task that has a result. */
  ghost predicate Settled(s: Store, i: nat, id: Key, result: TaskResult, cancelled: bool) {
    i < |s.tasks| && s.tasks[i].id == id && s.tasks[i].result == Some(result) && s.tasks[i].cancelled == cancelled
  }

  lemma {:induction false} StepSettled(s: Store, op: Op, now: int, i: nat, id: Key, result: TaskResult, cancelled: bool)
    requires Sound(s) && ResultsLate(s) && Settled(s, i, id, result, cancelled)
    ensures Settled(Step(s, op, now), i, id, result, cancelled)
  {
    StepTasks(s, op, now);
    var t, u := s.tasks[i], Step(s, op, now).tasks[i];
    assert TaskForward(t, VMOf(s, t), u) && ResultRule(t, VMOf(s, t));
  }

  lemma {:induction false} RegularPrefix(ops: seq<Timed>, k: nat)
    requires RegularRun(ops) && k <= |ops|
    ensures RegularRun(ops[..k])
    decreases |ops|
  {
    if k == |ops| {
      assert ops[..k] == ops;
    } else {
      assert ops[..|ops| - 1][..k] == ops[..k];
      RegularPrefix(ops[..|ops| - 1], k);
    }
  }

  lemma {:induction false} SettledNext(ops: seq<Timed>, s: Store, op: Op, now: int, s': Store,
                                       i: nat, id: Key, result: TaskResult, cancelled: bool)
    requires RegularRun(ops) && s == Run(ops) && s' == Step(s, op, now) && Settled(s, i, id, result, cancelled)
    ensures Settled(s', i, id, result, cancelled)
  {
    AlwaysSound(ops);
    AlwaysResultsLate(ops);
    StepSettled(s, op, now, i, id, result, cancelled);
  }

  lemma {:induction false} StaysSettled(ops: seq<Timed>, n: nat, k: nat, i: nat, id: Key, result: TaskResult, cancelled: bool)
    requires RegularRun(ops) && n <= k <= |ops| && Settled(Run(ops[..n]), i, id, result, cancelled)
    ensures Settled(Run(ops[..k]), i, id, result, cancelled)
    decreases k
  {
    if n < k {
      StaysSettled(ops, n, k - 1, i, id, result, cancelled);
      RegularPrefix(ops, k - 1);
      RunsOn(ops, k - 1);
      SettledNext(ops[..k - 1], Run(ops[..k - 1]), ops[k - 1].op, ops[k - 1].now, Run(ops[..k]), i, id, result, cancelled);
    }
  }

  lemma {:induction false} SettledShows(ops: seq<Timed>, i: nat, id: Key, result: TaskResult, cancelled: bool, now: int)
    requires RegularRun(ops) && Settled(Run(ops), i, id, result, cancelled)
    ensures View(Run(ops), i, now) == ResultSays(result, cancelled)
  {
    ViewExactly(ops, i, now, ResultSays(result, cancelled));
  }

  /** An accepted report with a result stores it, unless one is stored. */
  lemma {:induction false} ReportStores(s: Store, node: Key, id: Key, r: TaskReport, now: int, i: nat)
    requires Sound(s) && i < |s.tasks| && s.tasks[i].id == id
    requires ReportTask(s, node, id, r, now).reply.Ok? && r.result.Some?
    ensures var u := ReportTask(s, node, id, r, now).store.tasks;
            && |u| == |s.tasks|
            && u[i].result == (if s.tasks[i].result.Some? then s.tasks[i].result else r.result)
            && u[i].id == id && u[i].cancelled == s.tasks[i].cancelled
  {
    TaskAt(s.tasks, i);
  }

  lemma {:induction false} FirstSettles(s: Store, op: Op, now: int, s': Store, i: nat)
    requires Sound(s) && op.DoReport? && op.report.result.Some? && s' == Step(s, op, now)
    requires i < |s.tasks| && s.tasks[i].id == op.id && s.tasks[i].result.None?
    requires ReportTask(s, op.node, op.id, op.report, now).reply.Ok?
    ensures Settled(s', i, op.id, op.report.result.value, s.tasks[i].cancelled)
  {
    ReportStores(s, op.node, op.id, op.report, now, i);
  }

  lemma {:induction false} ReportSettles(ops: seq<Timed>, n: nat, i: nat)
    requires n < |ops| && ops[n].op.DoReport? && ops[n].op.report.result.Some?
    requires i < |Run(ops[..n]).tasks| && Run(ops[..n]).tasks[i].id == ops[n].op.id && Run(ops[..n]).tasks[i].result.None?
    requires var op := ops[n].op; ReportTask(Run(ops[..n]), op.node, op.id, op.report, ops[n].now).reply.Ok?
    ensures Settled(Run(ops[..n + 1]), i, ops[n].op.id, ops[n].op.report.result.value, Run(ops[..n]).tasks[i].cancelled)
  {
    AlwaysSound(ops[..n]);
    RunsOn(ops, n);
    FirstSettles(Run(ops[..n]), ops[n].op, ops[n].now, Run(ops[..n + 1]), i);
  }

  /** Once a report stores the first result of a task, the task is shown at
      any later time of a regular run as that result says: Succeeded if and
      only if its status is, otherwise Cancelled or Failed by whether the task
      was cancelled before. */
  lemma {:induction false} ResultDecides(ops: seq<Timed>, n: nat, i: nat, now: int)
    requires RegularRun(ops) && n < |ops| && ops[n].op.DoReport? && ops[n].op.report.result.Some?
    requires i < |Run(ops[..n]).tasks| && Run(ops[..n]).tasks[i].id == ops[n].op.id && Run(ops[..n]).tasks[i].result.None?
    requires var op := ops[n].op; ReportTask(Run(ops[..n]), op.node, op.id, op.report, ops[n].now).reply.Ok?
    ensures var result, cancelled := ops[n].op.report.result.value, Run(ops[..n]).tasks[i].cancelled;
            && i < |Run(ops).tasks| && Run(ops).tasks[i].id == ops[n].op.id && Run(ops).tasks[i].result == Some(result)
            && (View(Run(ops), i, now) == Seen.Succeeded <==> result.status == StatusSucceeded)
            && (View(Run(ops), i, now) == Seen.Cancelled <==> result.status != StatusSucceeded && cancelled)
            && (View(Run(ops), i, now) == Seen.Failed <==> result.status != StatusSucceeded && !cancelled)
  {
    var op, t := ops[n].op, Run(ops[..n]).tasks[i];
    ReportSettles(ops, n, i);
    StaysSettled(ops, n + 1, |ops|, i, op.id, op.report.result.value, t.cancelled);
    RunsOn(ops, n);
    SettledShows(ops, i, op.id, op.report.result.value, t.cancelled, now);
  }
}
