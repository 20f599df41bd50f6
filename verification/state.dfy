/** The controller's tables and the rows of agent tasks. */
module State {
  import opened Resources
  import opened Model
  import opened Ledger

  const MAX_TASK_PAYLOAD := 524288
  const MAX_JIT := 131072
  const MAX_CLIENT_TASKS := 64
  const QUEUE_LIFETIME := 60 * MINUTE
  const COLLECTING_GRACE := 2 * MINUTE

  /** What a client submits. `size` is the length of the delivered document,
      `wellFormed` stands for the textual checks, `content` for the rest. */
  datatype TaskSpec = TaskSpec(request: Key, pool: Key, size: nat, wellFormed: bool, content: Key) {
    predicate Valid() {
      wellFormed && request != NONE && pool != NONE && size <= MAX_TASK_PAYLOAD
    }
  }

  datatype ResultStatus = StatusSucceeded | StatusFailed | StatusNoResult

  datatype TaskResult = TaskResult(status: ResultStatus, wellFormed: bool, content: Key)

  /** One row of the tasks table; `secret` says whether the encrypted payload
      is still stored, `progress` is the length of the stored progress text. */
  datatype Task = Task(
    id: Key, client: Key, spec: TaskSpec, instance: Key, cancelled: bool, expired: bool,
    created: int, updated: int, secret: bool, result: Option<TaskResult>, progress: nat)
  {
    predicate Queued() {
      secret && instance == NONE && !cancelled && !expired
    }
  }

  datatype Demand = Demand(desired: int, seen: int, barrier: bool, intake: bool) {
    predicate Blocked() {
      barrier || intake
    }
  }

  datatype EventKind = BusyEvent | CompleteEvent

  /** A runner event names its VM. */
  datatype RunnerEvent = RunnerEvent(vm: Key, kind: EventKind, result: Key)

  /** The hashed content of an inbox row. */
  datatype Message = Message(pool: Key, desired: int, events: seq<RunnerEvent>)

  datatype MessageID = MessageID(session: Key, number: int)

  datatype PlanRow = PlanRow(base: nat, expires: int, config: Config, applied: Option<nat>)

  datatype Enrollment = Enrollment(name: Key, ceiling: Resources, approved: bool)

  /** Rows are kept in insertion order; every read that depends on an order
      sorts by a unique key. `clients` maps a name to its revocation flag. */
  datatype Store = Store(
    config: Config, revision: nat, plans: map<Key, PlanRow>,
    runs: seq<Instance>, obs: map<Key, Observation>,
    demand: map<Key, Demand>, inbox: map<MessageID, Message>,
    tasks: seq<Task>, clients: map<Key, bool>,
    enrollments: map<Key, Enrollment>, identities: set<Key>)

  const INITIAL := Store(EMPTY_CONFIG, 0, map[], [], map[], map[], map[], [], map[], map[], {})

  /** A committed or rolled back transaction and its reply. */
  datatype Outcome<+T> = Outcome(store: Store, reply: Result<T>)

  function Refuse<T>(s: Store, fault: Fault): Outcome<T> {
    Outcome(s, Err(fault))
  }

  function Unix(now: int): int {
    now / SECOND
  }

  // ---- Row lookup and update ----

  function FindInstance(runs: seq<Instance>, id: Key): Option<Instance> {
    if runs == [] then None
    else if Last(runs).id == id then Some(Last(runs))
    else FindInstance(Init(runs), id)
  }

  function FindRequest(runs: seq<Instance>, request: Request): Option<Instance> {
    if runs == [] then None
    else if Last(runs).request == request then Some(Last(runs))
    else FindRequest(Init(runs), request)
  }

  function FindTask(tasks: seq<Task>, id: Key): Option<Task> {
    if tasks == [] then None
    else if tasks[|tasks| - 1].id == id then Some(tasks[|tasks| - 1])
    else FindTask(tasks[..|tasks| - 1], id)
  }

  function FindSubmission(tasks: seq<Task>, client: Key, request: Key): Option<Task> {
    if tasks == [] then None
    else if tasks[|tasks| - 1].client == client && tasks[|tasks| - 1].spec.request == request then Some(tasks[|tasks| - 1])
    else FindSubmission(tasks[..|tasks| - 1], client, request)
  }

  /** UPDATE instances SET payload=? WHERE id=?. */
  function SaveInstance(runs: seq<Instance>, row: Instance): seq<Instance> {
    seq(|runs|, i requires 0 <= i < |runs| => if runs[i].id == row.id then row else runs[i])
  }

  function SaveTask(tasks: seq<Task>, row: Task): seq<Task> {
    seq(|tasks|, i requires 0 <= i < |tasks| => if tasks[i].id == row.id then row else tasks[i])
  }

  lemma {:induction false} FindInstanceSound(runs: seq<Instance>, id: Key)
    ensures FindInstance(runs, id).Some? <==> exists i | 0 <= i < |runs| :: runs[i].id == id
    ensures FindInstance(runs, id).Some? ==>
              exists i | 0 <= i < |runs| :: runs[i] == FindInstance(runs, id).value && runs[i].id == id
  {
    if runs != [] && Last(runs).id != id {
      FindInstanceSound(Init(runs), id);
      assert forall i | 0 <= i < |runs| - 1 :: Init(runs)[i] == runs[i];
    }
  }

  lemma {:induction false} FindTaskSound(tasks: seq<Task>, id: Key)
    ensures FindTask(tasks, id).Some? <==> exists i | 0 <= i < |tasks| :: tasks[i].id == id
    ensures FindTask(tasks, id).Some? ==>
              exists i | 0 <= i < |tasks| :: tasks[i] == FindTask(tasks, id).value && tasks[i].id == id
  {
    if tasks != [] && tasks[|tasks| - 1].id != id {
      var front := tasks[..|tasks| - 1];
      FindTaskSound(front, id);
      assert forall i | 0 <= i < |front| :: front[i] == tasks[i];
    }
  }

  lemma {:induction false} FindRequestSound(runs: seq<Instance>, request: Request)
    ensures FindRequest(runs, request).Some? <==> exists i | 0 <= i < |runs| :: runs[i].request == request
    ensures FindRequest(runs, request).Some? ==> FindRequest(runs, request).value in runs
  {
    if runs != [] && Last(runs).request != request {
      FindRequestSound(Init(runs), request);
      assert forall i | 0 <= i < |runs| - 1 :: Init(runs)[i] == runs[i];
    }
  }

  lemma {:induction false} FindSubmissionSound(tasks: seq<Task>, client: Key, request: Key)
    ensures FindSubmission(tasks, client, request).Some? <==>
            exists i | 0 <= i < |tasks| :: tasks[i].client == client && tasks[i].spec.request == request
    ensures FindSubmission(tasks, client, request).Some? ==> FindSubmission(tasks, client, request).value in tasks
  {
    if tasks != [] && !(tasks[|tasks| - 1].client == client && tasks[|tasks| - 1].spec.request == request) {
      var front := tasks[..|tasks| - 1];
      FindSubmissionSound(front, client, request);
      assert forall i | 0 <= i < |front| :: front[i] == tasks[i];
    }
  }

  ghost predicate UniqueInstances(runs: seq<Instance>) {
    forall i, j | 0 <= i < j < |runs| :: runs[i].id != runs[j].id
  }

  ghost predicate UniqueTasks(tasks: seq<Task>) {
    forall i, j | 0 <= i < j < |tasks| :: tasks[i].id != tasks[j].id
  }

  lemma {:induction false} InstanceAt(runs: seq<Instance>, i: nat)
    requires i < |runs| && UniqueInstances(runs)
    ensures FindInstance(runs, runs[i].id) == Some(runs[i])
  {
    FindInstanceSound(runs, runs[i].id);
  }

  lemma {:induction false} TaskAt(tasks: seq<Task>, i: nat)
    requires i < |tasks| && UniqueTasks(tasks)
    ensures FindTask(tasks, tasks[i].id) == Some(tasks[i])
  {
    FindTaskSound(tasks, tasks[i].id);
  }
}
