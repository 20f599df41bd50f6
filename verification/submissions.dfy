/** Submissions are idempotent over whole runs: a client that repeats a
    request, however late, gets the task it first got. */
module Submissions {
  import opened Resources
  import opened Model
  import opened Ledger
  import opened State
  import opened Transactions
  import opened Sync
  import opened Consistency
  import opened Soundness
  import opened Runs
  import opened Lifecycle

  predicate Same(t: Task, client: Key, request: Key) {
    t.client == client && t.spec.request == request
  }

  /** No two tasks share client and request. */
  ghost predicate OncePerRequest(tasks: seq<Task>) {
    forall i, j | 0 <= i < j < |tasks| :: !Same(tasks[j], tasks[i].client, tasks[i].spec.request)
  }

  /** What a step does to the list: rows stay who they are, and only a
      submission that repeats none adds one. */
  ghost predicate Lengthens(s: Store, op: Op, s': Store) {
    || |s'.tasks| == |s.tasks|
    || (op.DoSubmit? && |s'.tasks| == |s.tasks| + 1
        && s'.tasks[|s.tasks|].client == op.client && s'.tasks[|s.tasks|].spec == op.spec
        && FindSubmission(s.tasks, op.client, op.spec.request).None?)
  }

  lemma {:induction false} NewLengthens(s: Store, t: Task, instanceID: Key, now: int)
    requires FindTask(s.tasks, t.id).None?
    ensures var tasks := SubmitNew(s, t, instanceID, now).store.tasks;
            |tasks| == |s.tasks| || (|tasks| == |s.tasks| + 1 && tasks[|s.tasks|].client == t.client && tasks[|s.tasks|].spec == t.spec)
  {
    DispatchOneRuns(s.config, s.obs, now, Tables(s.runs, s.tasks + [t]), t, instanceID);
    NewFrame(s, t, instanceID, now);
  }

  lemma {:induction false} SubmitLengthens(s: Store, client: Key, spec: TaskSpec, id: Key, instanceID: Key, now: int)
    ensures Lengthens(s, DoSubmit(client, spec, id, instanceID), Submit(s, client, spec, id, instanceID, now).store)
  {
    var s' := Submit(s, client, spec, id, instanceID, now).store;
    if s'.tasks != s.tasks {
      var t := NewTask(client, spec, id, now);
      assert FindTask(s.tasks, id).None? && s' == SubmitNew(s, t, instanceID, now).store;
      NewLengthens(s, t, instanceID, now);
    }
  }

  ghost predicate Even(s: Store, s': Store) {
    |s'.tasks| == |s.tasks|
  }

  lemma {:induction false} CancelEven(s: Store, client: Key, id: Key, now: int)
    ensures Even(s, CancelTask(s, client, id, now).store)
  {
  }

  lemma {:induction false} RevokeEven(s: Store, client: Key, now: int)
    ensures Even(s, RevokeClient(s, client, now).store)
  {
  }

  lemma {:induction false} ReportEven(s: Store, node: Key, id: Key, r: TaskReport, now: int)
    ensures Even(s, ReportTask(s, node, id, r, now).store)
  {
  }

  lemma {:induction false} DispatchEven(s: Store, draw: Key -> Key, now: int)
    requires Sound(s)
    ensures Even(s, DispatchTasks(s, draw, now).store)
  {
    DispatchMoves(s, draw, now);
  }

  lemma {:induction false} SyncEven(s: Store, node: Key, o: NodeReport, now: int)
    ensures Even(s, SyncNode(s, node, o, now).store)
  {
    SyncFrame(s, node, o, now);
  }

  lemma {:induction false} EndingEven(s: Store, op: Op, now: int)
    requires op.DoCancel? || op.DoRevoke?
    ensures Even(s, Step(s, op, now))
  {
    match op
    case DoCancel(client, id) => CancelEven(s, client, id, now);
    case DoRevoke(client) => RevokeEven(s, client, now);
  }

  lemma {:induction false} ClientEven(s: Store, op: Op, now: int)
    requires Sound(s) && ByClient(op) && !op.DoSubmit?
    ensures Even(s, Step(s, op, now))
  {
    if op.DoCancel? || op.DoRevoke? {
      EndingEven(s, op, now);
    } else if op.DoReport? {
      ReportEven(s, op.node, op.id, op.report, now);
    } else {
      DispatchEven(s, op.draw, now);
    }
  }

  lemma {:induction false} StepLengthens(s: Store, op: Op, now: int)
    requires Sound(s)
    ensures Lengthens(s, op, Step(s, op, now))
  {
    if op.DoSubmit? {
      SubmitLengthens(s, op.client, op.spec, op.id, op.instanceID, now);
    } else {
      assert Even(s, Step(s, op, now)) by {
        if ByClient(op) {
          ClientEven(s, op, now);
        } else if op.DoSync? {
          SyncEven(s, op.node, op.observation, now);
        } else {
          OtherTasks(s, op, now);
        }
      }
    }
  }

  /** Rows that were there keep their place, client, content and ID. */
  ghost predicate Stays(s: Store, s': Store) {
    && |s.tasks| <= |s'.tasks|
    && forall i | 0 <= i < |s.tasks| ::
         s'.tasks[i].id == s.tasks[i].id && s'.tasks[i].client == s.tasks[i].client && s'.tasks[i].spec == s.tasks[i].spec
  }

  lemma {:induction false} StepStays(s: Store, op: Op, now: int)
    requires Sound(s)
    ensures Stays(s, Step(s, op, now))
  {
    StepTasks(s, op, now);
    forall i | 0 <= i < |s.tasks|
      ensures var t, u := s.tasks[i], Step(s, op, now).tasks[i]; u.id == t.id && u.client == t.client && u.spec == t.spec
    {
      assert TaskForward(s.tasks[i], VMOf(s, s.tasks[i]), Step(s, op, now).tasks[i]);
    }
  }

  lemma {:induction false} KeptOnce(s: Store, op: Op, s': Store)
    requires OncePerRequest(s.tasks) && Lengthens(s, op, s') && Stays(s, s')
    ensures OncePerRequest(s'.tasks)
  {
    if |s'.tasks| > |s.tasks| {
      FindSubmissionSound(s.tasks, op.client, op.spec.request);
      forall i | 0 <= i < |s.tasks|
        ensures !Same(s.tasks[i], op.client, op.spec.request)
      {
      }
    }
  }

  lemma {:induction false} AlwaysOncePerRequest(ops: seq<Timed>)
    ensures OncePerRequest(Run(ops).tasks)
  {
    if ops != [] {
      var front, last := ops[..|ops| - 1], ops[|ops| - 1];
      AlwaysOncePerRequest(front);
      AlwaysSound(front);
      StepLengthens(Run(front), last.op, last.now);
      StepStays(Run(front), last.op, last.now);
      KeptOnce(Run(front), last.op, Step(Run(front), last.op, last.now));
    }
  }

  /** A task submitted earlier in the run is where it was. */
  lemma {:induction false} AlwaysStays(ops: seq<Timed>, n: nat)
    requires n <= |ops|
    ensures Stays(Run(ops[..n]), Run(ops))
    decreases |ops|
  {
    if n == |ops| {
      assert ops[..n] == ops;
    } else {
      var front, last := ops[..|ops| - 1], ops[|ops| - 1];
      assert front[..n] == ops[..n];
      AlwaysStays(front, n);
      AlwaysSound(front);
      StepStays(Run(front), last.op, last.now);
    }
  }

  // ---- Replays ----

  lemma {:induction false} SubmittedAt(s: Store, client: Key, spec: TaskSpec, id: Key, instanceID: Key, now: int) returns (i: nat)
    requires Submit(s, client, spec, id, instanceID, now).reply.Ok?
    ensures Holds(Submit(s, client, spec, id, instanceID, now).store, i, client, spec, Submit(s, client, spec, id, instanceID, now).reply.value)
    ensures client != NONE && spec.Valid()
  {
    FindSubmissionSound(s.tasks, client, spec.request);
    FindSubmissionIs(s.tasks, client, spec.request);
    if FindSubmission(s.tasks, client, spec.request).Some? {
      i :| 0 <= i < |s.tasks| && s.tasks[i] == FindSubmission(s.tasks, client, spec.request).value;
    } else {
      i := |s.tasks|;
      NewAtEnd(s, NewTask(client, spec, id, now), instanceID, now);
    }
  }

  ghost predicate Holds(s: Store, i: nat, client: Key, spec: TaskSpec, id: Key) {
    i < |s.tasks| && s.tasks[i].id == id && s.tasks[i].client == client && s.tasks[i].spec == spec
  }

  lemma {:induction false} NewAtEnd(s: Store, t: Task, instanceID: Key, now: int)
    requires FindTask(s.tasks, t.id).None? && SubmitNew(s, t, instanceID, now).reply.Ok?
    ensures var r := SubmitNew(s, t, instanceID, now);
            && r.reply.value == t.id && |r.store.tasks| == |s.tasks| + 1
            && var u := r.store.tasks[|s.tasks|]; u.id == t.id && u.client == t.client && u.spec == t.spec
  {
    DispatchOneRuns(s.config, s.obs, now, Tables(s.runs, s.tasks + [t]), t, instanceID);
    NewFrame(s, t, instanceID, now);
  }

  lemma {:induction false} FindSubmissionIs(tasks: seq<Task>, client: Key, request: Key)
    ensures FindSubmission(tasks, client, request).Some? ==> Same(FindSubmission(tasks, client, request).value, client, request)
  {
    if tasks != [] && !Same(tasks[|tasks| - 1], client, request) {
      FindSubmissionIs(tasks[..|tasks| - 1], client, request);
    }
  }

  lemma {:induction false} FoundOnce(tasks: seq<Task>, i: nat)
    requires OncePerRequest(tasks) && i < |tasks|
    ensures FindSubmission(tasks, tasks[i].client, tasks[i].spec.request) == Some(tasks[i])
  {
    var client, request := tasks[i].client, tasks[i].spec.request;
    FindSubmissionSound(tasks, client, request);
    FindSubmissionIs(tasks, client, request);
    var j :| 0 <= j < |tasks| && tasks[j] == FindSubmission(tasks, client, request).value;
    assert Same(tasks[i], client, request) && Same(tasks[j], client, request);
  }

  lemma {:induction false} Answers(s: Store, i: nat, client: Key, spec: TaskSpec, task: Key, id: Key, instanceID: Key, now: int, other: TaskSpec)
    requires OncePerRequest(s.tasks) && Holds(s, i, client, spec, task) && client != NONE && spec.Valid()
    ensures Submit(s, client, spec, id, instanceID, now) == Outcome(s, Ok(task))
    ensures other.Valid() && other.request == spec.request && other != spec ==>
              Submit(s, client, other, id, instanceID, now) == Outcome(s, Err(IdempotencyConflict))
  {
    FoundOnce(s.tasks, i);
  }

  lemma {:induction false} SubmittedThen(ops: seq<Timed>, n: nat, task: Key) returns (i: nat)
    requires n < |ops| && ops[n].op.DoSubmit?
    requires var op := ops[n].op; Submit(Run(ops[..n]), op.client, op.spec, op.id, op.instanceID, ops[n].now).reply == Ok(task)
    ensures Holds(Run(ops[..n + 1]), i, ops[n].op.client, ops[n].op.spec, task)
    ensures ops[n].op.client != NONE && ops[n].op.spec.Valid()
  {
    var op := ops[n].op;
    i := SubmittedAt(Run(ops[..n]), op.client, op.spec, op.id, op.instanceID, ops[n].now);
    RunsOn(ops, n);
  }

  lemma {:induction false} StillHolds(ops: seq<Timed>, n: nat, i: nat, client: Key, spec: TaskSpec, task: Key)
    requires n <= |ops| && Holds(Run(ops[..n]), i, client, spec, task)
    ensures Holds(Run(ops), i, client, spec, task)
  {
    AlwaysStays(ops, n);
  }

  /** After any transactions, the same request answers with the same task and
      changes nothing, and the same request with another content is refused. */
  lemma {:induction false} SubmissionReplays(ops: seq<Timed>, n: nat, task: Key, id: Key, instanceID: Key, now: int, other: TaskSpec)
    requires n < |ops| && ops[n].op.DoSubmit?
    requires var op := ops[n].op; Submit(Run(ops[..n]), op.client, op.spec, op.id, op.instanceID, ops[n].now).reply == Ok(task)
    ensures var op, s := ops[n].op, Run(ops);
            && Submit(s, op.client, op.spec, id, instanceID, now) == Outcome(s, Ok(task))
            && (other.Valid() && other.request == op.spec.request && other != op.spec ==>
                  Submit(s, op.client, other, id, instanceID, now) == Outcome(s, Err(IdempotencyConflict)))
  {
    var op := ops[n].op;
    var i := SubmittedThen(ops, n, task);
    StillHolds(ops, n + 1, i, op.client, op.spec, task);
    AlwaysOncePerRequest(ops);
    Answers(Run(ops), i, op.client, op.spec, task, id, instanceID, now, other);
  }
}
