/** What every reachable controller state satisfies: the ledger, the links
    between tasks and their VMs, the rule for erasing secrets, and which
    plans may still be applied. */
module Consistency {
  import opened Resources
  import opened Model
  import opened Validate
  import opened Ledger
  import opened Capacity
  import opened State
  import opened Transactions

  // ---- Rows ----

  predicate RowOK(a: Instance) {
    && ValidInstance(a) && a.jit <= MAX_JIT
    && (a.task == NONE ==> a.request.Runner? && !a.pool.tasks)
    && (a.task != NONE ==> a.request == ForTask(a.task) && a.pool.tasks && a.jitReady && a.state != Reserved)
    && (a.task == NONE && a.jitReady && a.state != Deleted ==> a.jit > 0)
  }

  predicate TaskOK(t: Task) {
    && t.id != NONE && t.spec.Valid()
    && (t.expired ==> t.instance == NONE && !t.cancelled)
  }

  predicate RunOf(runs: seq<Instance>, id: Key, task: Key) {
    FindInstance(runs, id).Some? && FindInstance(runs, id).value.task == task
  }

  predicate Erased(runs: seq<Instance>, id: Key) {
    FindInstance(runs, id).Some? && FindInstance(runs, id).value.state == Deleted
  }

  /** A payload is kept exactly until its task expires, is cancelled before
      it was placed, or its VM is deleted. */
  predicate SecretRule(runs: seq<Instance>, t: Task) {
    t.secret <==> !(t.expired || (t.cancelled && t.instance == NONE) || (t.instance != NONE && Erased(runs, t.instance)))
  }

  predicate LinkedTask(runs: seq<Instance>, t: Task) {
    t.instance != NONE ==> RunOf(runs, t.instance, t.id)
  }

  predicate LinkedRun(tasks: seq<Task>, a: Instance) {
    a.task != NONE ==> FindTask(tasks, a.task).Some? && FindTask(tasks, a.task).value.instance == a.id
  }

  ghost predicate UniqueRequests(runs: seq<Instance>) {
    forall i, j | 0 <= i < j < |runs| :: runs[i].request != runs[j].request
  }

  /** Tasks and their VMs are in one-to-one correspondence. */
  ghost predicate Tied(runs: seq<Instance>, tasks: seq<Task>) {
    && UniqueInstances(runs) && UniqueRequests(runs) && UniqueTasks(tasks)
    && (forall i | 0 <= i < |runs| :: RowOK(runs[i]) && LinkedRun(tasks, runs[i]))
    && (forall i | 0 <= i < |tasks| :: TaskOK(tasks[i]) && LinkedTask(runs, tasks[i]) && SecretRule(runs, tasks[i]))
  }

  ghost predicate Limited(tasks: seq<Task>) {
    forall client :: OpenTasks(tasks, client) <= MAX_CLIENT_TASKS
  }

  ghost predicate PlanOK(s: Store, id: Key)
    requires id in s.plans
  {
    && s.plans[id].base <= s.revision
    && (s.plans[id].base == s.revision ==> Covers(s.config, s.plans[id].config))
  }

  ghost predicate Configured(s: Store) {
    if s.revision == 0 then s.config == EMPTY_CONFIG && s.runs == [] && s.tasks == []
    else Valid(s.config) && Balanced(s.config, s.runs)
  }

  ghost predicate Sound(s: Store) {
    && Configured(s)
    && Tied(s.runs, s.tasks)
    && Limited(s.tasks)
    && forall id | id in s.plans :: PlanOK(s, id)
  }

  // ---- Updating rows in place ----

  predicate SameRow(a: Instance, b: Instance) {
    b.id == a.id && b.request == a.request && b.task == a.task
  }

  predicate SameTask(t: Task, u: Task) {
    u.id == t.id && u.client == t.client && u.spec == t.spec && u.instance == t.instance
  }

  ghost predicate SameRows(runs: seq<Instance>, after: seq<Instance>) {
    |after| == |runs| && forall i | 0 <= i < |runs| :: SameRow(runs[i], after[i])
  }

  ghost predicate SameTasks(tasks: seq<Task>, after: seq<Task>) {
    |after| == |tasks| && forall i | 0 <= i < |tasks| :: SameTask(tasks[i], after[i])
  }

  /** A row is found at the same place after the update. */
  lemma {:induction false} FoundAfter(runs: seq<Instance>, after: seq<Instance>, id: Key) returns (i: nat)
    requires UniqueInstances(runs) && SameRows(runs, after)
    ensures FindInstance(runs, id).Some? <==> FindInstance(after, id).Some?
    ensures FindInstance(runs, id).Some? ==>
              i < |runs| && runs[i].id == id && FindInstance(runs, id).value == runs[i] && FindInstance(after, id).value == after[i]
  {
    FindInstanceSound(runs, id);
    FindInstanceSound(after, id);
    UniqueAfter(runs, after);
    i := 0;
    if k :| 0 <= k < |runs| && runs[k].id == id {
      i := k;
      InstanceAt(runs, k);
      InstanceAt(after, k);
    }
  }

  lemma {:induction false} TaskFoundAfter(tasks: seq<Task>, after: seq<Task>, id: Key) returns (i: nat)
    requires UniqueTasks(tasks) && SameTasks(tasks, after)
    ensures FindTask(tasks, id).Some? <==> FindTask(after, id).Some?
    ensures FindTask(tasks, id).Some? ==>
              i < |tasks| && tasks[i].id == id && FindTask(tasks, id).value == tasks[i] && FindTask(after, id).value == after[i]
  {
    FindTaskSound(tasks, id);
    FindTaskSound(after, id);
    UniqueTasksAfter(tasks, after);
    i := 0;
    if k :| 0 <= k < |tasks| && tasks[k].id == id {
      i := k;
      TaskAt(tasks, k);
      TaskAt(after, k);
    }
  }

  lemma {:induction false} UniqueAfter(runs: seq<Instance>, after: seq<Instance>)
    requires UniqueInstances(runs) && SameRows(runs, after)
    ensures UniqueInstances(after)
    ensures UniqueRequests(runs) ==> UniqueRequests(after)
    ensures forall k | 0 <= k < |runs| :: after[k].id == runs[k].id
  {
    assert forall k | 0 <= k < |runs| :: SameRow(runs[k], after[k]);
  }

  lemma {:induction false} UniqueTasksAfter(tasks: seq<Task>, after: seq<Task>)
    requires UniqueTasks(tasks) && SameTasks(tasks, after)
    ensures UniqueTasks(after)
    ensures forall k | 0 <= k < |tasks| :: after[k].id == tasks[k].id
  {
    assert forall k | 0 <= k < |tasks| :: SameTask(tasks[k], after[k]);
  }

  /** Updates in place keep every link; what remains to check is each row by
      itself and the secrets. */
  lemma {:induction false} TiedAfter(runs: seq<Instance>, tasks: seq<Task>, runs': seq<Instance>, tasks': seq<Task>)
    requires Tied(runs, tasks) && SameRows(runs, runs') && SameTasks(tasks, tasks')
    requires forall i | 0 <= i < |runs'| :: RowOK(runs'[i])
    requires forall i | 0 <= i < |tasks'| :: TaskOK(tasks'[i]) && SecretRule(runs', tasks'[i])
    ensures Tied(runs', tasks')
  {
    UniqueAfter(runs, runs');
    UniqueTasksAfter(tasks, tasks');
    forall i | 0 <= i < |runs'|
      ensures LinkedRun(tasks', runs'[i])
    {
      assert SameRow(runs[i], runs'[i]) && LinkedRun(tasks, runs[i]);
      var k := TaskFoundAfter(tasks, tasks', runs[i].task);
      assert k < |tasks| ==> SameTask(tasks[k], tasks'[k]);
    }
    forall i | 0 <= i < |tasks'|
      ensures LinkedTask(runs', tasks'[i])
    {
      assert SameTask(tasks[i], tasks'[i]) && LinkedTask(runs, tasks[i]);
      var k := FoundAfter(runs, runs', tasks[i].instance);
      assert k < |runs| ==> SameRow(runs[k], runs'[k]);
    }
  }

  /** Moving rows without deleting or undeleting any keeps the secrets. */
  lemma {:induction false} SecretsAfter(runs: seq<Instance>, runs': seq<Instance>, t: Task)
    requires UniqueInstances(runs) && SameRows(runs, runs') && SecretRule(runs, t)
    requires forall i | 0 <= i < |runs| :: runs'[i].state == Deleted <==> runs[i].state == Deleted
    ensures SecretRule(runs', t)
  {
    var k := FoundAfter(runs, runs', t.instance);
  }

  // ---- Adding rows ----

  lemma {:induction false} FindGrown(runs: seq<Instance>, x: Instance, id: Key)
    ensures FindInstance(runs + [x], id) == if x.id == id then Some(x) else FindInstance(runs, id)
  {
    Grown(runs, x);
  }

  lemma {:induction false} UniqueGrown(runs: seq<Instance>, x: Instance)
    requires UniqueInstances(runs) && UniqueRequests(runs) && !Taken(runs, x)
    ensures UniqueInstances(runs + [x]) && UniqueRequests(runs + [x])
  {
    FindInstanceSound(runs, x.id);
    FindRequestSound(runs, x.request);
  }

  /** A new VM that belongs to no task. */
  lemma {:induction false} RunnerTied(runs: seq<Instance>, tasks: seq<Task>, x: Instance)
    requires Tied(runs, tasks) && !Taken(runs, x)
    requires RowOK(x) && x.task == NONE
    ensures Tied(runs + [x], tasks)
  {
    UniqueGrown(runs, x);
    forall i | 0 <= i < |tasks|
      ensures LinkedTask(runs + [x], tasks[i]) && SecretRule(runs + [x], tasks[i])
    {
      FindGrown(runs, x, tasks[i].instance);
      assert LinkedTask(runs, tasks[i]) && SecretRule(runs, tasks[i]);
    }
  }

  /** A newly submitted task. */
  lemma {:induction false} TaskTied(runs: seq<Instance>, tasks: seq<Task>, t: Task)
    requires Tied(runs, tasks) && FindTask(tasks, t.id).None?
    requires TaskOK(t) && t.Queued()
    ensures Tied(runs, tasks + [t])
  {
    FindTaskSound(tasks, t.id);
    forall i | 0 <= i < |runs|
      ensures LinkedRun(tasks + [t], runs[i])
    {
      assert LinkedRun(tasks, runs[i]);
      assert (tasks + [t])[..|tasks + [t]| - 1] == tasks;
    }
  }

  lemma {:induction false} SavedTasks(tasks: seq<Task>, t: Task, u: Task)
    requires UniqueTasks(tasks) && t in tasks && u.id == t.id
    ensures |SaveTask(tasks, u)| == |tasks|
    ensures forall i | 0 <= i < |tasks| :: SaveTask(tasks, u)[i] == if tasks[i] == t then u else tasks[i]
  {
    var k :| 0 <= k < |tasks| && tasks[k] == t;
    forall i | 0 <= i < |tasks|
      ensures SaveTask(tasks, u)[i] == if tasks[i] == t then u else tasks[i]
    {
      assert i != k ==> tasks[i].id != tasks[k].id;
    }
  }

  lemma {:induction false} SavedRuns(runs: seq<Instance>, a: Instance, b: Instance)
    requires UniqueInstances(runs) && a in runs && b.id == a.id
    ensures |SaveInstance(runs, b)| == |runs|
    ensures forall i | 0 <= i < |runs| :: SaveInstance(runs, b)[i] == if runs[i] == a then b else runs[i]
  {
    var k :| 0 <= k < |runs| && runs[k] == a;
    forall i | 0 <= i < |runs|
      ensures SaveInstance(runs, b)[i] == if runs[i] == a then b else runs[i]
    {
      assert i != k ==> runs[i].id != runs[k].id;
    }
  }

  lemma {:induction false} FindSaved(tasks: seq<Task>, t: Task, u: Task, id: Key)
    requires UniqueTasks(tasks) && t in tasks && u.id == t.id
    ensures FindTask(SaveTask(tasks, u), id) == if id == t.id then Some(u) else FindTask(tasks, id)
  {
    var after := SaveTask(tasks, u);
    SavedTasks(tasks, t, u);
    assert forall k | 0 <= k < |tasks| :: after[k].id == tasks[k].id;
    assert UniqueTasks(after);
    FindTaskSound(tasks, id);
    FindTaskSound(after, id);
    if k :| 0 <= k < |tasks| && tasks[k].id == id {
      TaskAt(tasks, k);
      TaskAt(after, k);
      assert id == t.id ==> tasks[k] == t by {
        var m :| 0 <= m < |tasks| && tasks[m] == t;
      }
    }
  }

  /** Binding a queued task to its new VM. */
  lemma {:induction false} BoundTied(runs: seq<Instance>, tasks: seq<Task>, t: Task, x: Instance, u: Task)
    requires Tied(runs, tasks) && t in tasks && t.Queued() && !Taken(runs, x)
    requires RowOK(x) && x.task == t.id && x.state != Deleted
    requires TaskOK(u) && u == t.(instance := x.id, updated := u.updated)
    ensures Tied(runs + [x], SaveTask(tasks, u))
  {
    var grown, after := runs + [x], SaveTask(tasks, u);
    UniqueGrown(runs, x);
    SavedTasks(tasks, t, u);
    assert forall k | 0 <= k < |tasks| :: after[k].id == tasks[k].id;
    assert UniqueTasks(after);
    forall i | 0 <= i < |grown|
      ensures RowOK(grown[i]) && LinkedRun(after, grown[i])
    {
      BoundRun(runs, tasks, t, x, u, i);
    }
    forall i | 0 <= i < |after|
      ensures TaskOK(after[i]) && LinkedTask(grown, after[i]) && SecretRule(grown, after[i])
    {
      FindGrown(runs, x, after[i].instance);
      assert TaskOK(tasks[i]) && LinkedTask(runs, tasks[i]) && SecretRule(runs, tasks[i]);
    }
  }

  lemma {:induction false} BoundRun(runs: seq<Instance>, tasks: seq<Task>, t: Task, x: Instance, u: Task, i: nat)
    requires UniqueTasks(tasks) && t in tasks && t.instance == NONE && u.id == t.id && u.instance == x.id
    requires x.task == t.id && RowOK(x) && i <= |runs|
    requires i < |runs| ==> RowOK(runs[i]) && LinkedRun(tasks, runs[i])
    ensures RowOK((runs + [x])[i]) && LinkedRun(SaveTask(tasks, u), (runs + [x])[i])
  {
    var a := (runs + [x])[i];
    FindSaved(tasks, t, u, a.task);
    if i < |runs| && a.task == t.id {
      var k :| 0 <= k < |tasks| && tasks[k] == t;
      TaskAt(tasks, k);
    }
  }

  // ---- The submission limit ----

  predicate Keeps(t: Task, u: Task) {
    u.client == t.client && (u.secret ==> t.secret)
  }

  lemma {:induction false} OpenShrinks(tasks: seq<Task>, after: seq<Task>, client: Key)
    requires |after| == |tasks| && forall i | 0 <= i < |tasks| :: Keeps(tasks[i], after[i])
    ensures OpenTasks(after, client) <= OpenTasks(tasks, client)
  {
    if tasks != [] {
      var n := |tasks| - 1;
      OpenShrinks(tasks[..n], after[..n], client);
      assert Keeps(tasks[n], after[n]);
    }
  }

  lemma {:induction false} LimitedAfter(tasks: seq<Task>, after: seq<Task>)
    requires Limited(tasks)
    requires |after| == |tasks| && forall i | 0 <= i < |tasks| :: Keeps(tasks[i], after[i])
    ensures Limited(after)
  {
    forall client
      ensures OpenTasks(after, client) <= MAX_CLIENT_TASKS
    {
      OpenShrinks(tasks, after, client);
    }
  }
}
