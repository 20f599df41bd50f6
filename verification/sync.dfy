/** Store.Sync of internal/core/store.go: how a node's report moves instances
    through their lives, and which commands the reply carries. */
module Sync {
  import opened Resources
  import opened Model
  import opened Order
  import opened Ledger
  import opened State
  import opened Transactions

  const MAX_COMMANDS := 4
  const REPLY_BUDGET := 921600
  const COMMAND_SIZE := 4096

  datatype NodeReport = NodeReport(
    node: Key, sequence: int, bootKnown: bool, ready: bool, isolation: bool,
    ceiling: Resources, freeDiskGiB: int, digests: seq<Key>, vms: seq<VMReport>)

  predicate WellFormed(name: Key, o: NodeReport) {
    && o.node == name && name != NONE && o.sequence >= 1 && o.bootKnown && o.ceiling.Valid()
    && 0 <= o.freeDiskGiB <= 1073741824 && |o.vms| <= 10000 && |o.digests| <= 4096
  }

  predicate Distinct(vms: seq<VMReport>) {
    forall i, j | 0 <= i < j < |vms| :: vms[i].id != vms[j].id
  }

  /** The source's `reports` map. */
  function StateOf(vms: seq<VMReport>, id: Key): Option<ReportState> {
    if vms == [] then None
    else if vms[|vms| - 1].id == id then Some(vms[|vms| - 1].state)
    else StateOf(vms[..|vms| - 1], id)
  }

  // ---- One row ----

  predicate Concerns(node: Key, a: Instance) {
    a.node == node && a.state != Deleted
  }

  function RowFault(a: Instance, r: Option<ReportState>): Option<Fault> {
    if r == Some(VMDeleted) && a.state != Deleting then Some(UnexpectedDeletion)
    else if r == Some(VMOther) then Some(Fault.ReportState)
    else None
  }

  function Observed(a: Instance, r: Option<ReportState>, now: int): Instance {
    (match r
     case Some(VMRunning) => if a.state == Provisioning then a.(state := Idle) else a
     case Some(VMStopped) => a.(state := Deleting, held := a.held.DiskPart())
     case Some(VMDeleted) => a.(state := Deleted, held := ZERO, jit := 0)
     case Some(VMFailed) => a.(state := Stopping)
     case _ => a).(updated := now)
  }

  function SyncRow(node: Key, vms: seq<VMReport>, now: int, a: Instance): Instance {
    if Concerns(node, a) then Observed(a, StateOf(vms, a.id), now) else a
  }

  function SyncRows(node: Key, vms: seq<VMReport>, now: int, runs: seq<Instance>): seq<Instance> {
    seq(|runs|, i requires 0 <= i < |runs| => SyncRow(node, vms, now, runs[i]))
  }

  /** The first row, in table order, whose report is refused. */
  function RowsFault(node: Key, vms: seq<VMReport>, runs: seq<Instance>): Option<Fault> {
    if runs == [] then None
    else
      match RowsFault(node, vms, Init(runs))
      case Some(f) => Some(f)
      case None => if Concerns(node, Last(runs)) then RowFault(Last(runs), StateOf(vms, Last(runs).id)) else None
  }

  /** A stop seen before GitHub's completion raises the pool's barrier. */
  predicate RaisesBarrier(node: Key, vms: seq<VMReport>, a: Instance) {
    Concerns(node, a) && StateOf(vms, a.id) == Some(VMStopped) && a.result == NONE && a.held.cpu > 0 && a.task == NONE
  }

  function Barred(node: Key, vms: seq<VMReport>, runs: seq<Instance>): set<Key> {
    set i | 0 <= i < |runs| && RaisesBarrier(node, vms, runs[i]) :: runs[i].pool.name
  }

  function BarDemand(demand: map<Key, Demand>, pools: set<Key>): map<Key, Demand> {
    map p | p in demand :: if p in pools then demand[p].(barrier := true) else demand[p]
  }

  predicate Departs(node: Key, vms: seq<VMReport>, a: Instance) {
    Concerns(node, a) && StateOf(vms, a.id) == Some(VMDeleted)
  }

  /** Tasks whose VM's deletion this report confirms. */
  function Gone(node: Key, vms: seq<VMReport>, runs: seq<Instance>): set<Key> {
    set i | 0 <= i < |runs| && Departs(node, vms, runs[i]) && runs[i].task != NONE :: runs[i].task
  }

  function EraseSecrets(tasks: seq<Task>, gone: set<Key>): seq<Task> {
    seq(|tasks|, i requires 0 <= i < |tasks| => if tasks[i].id in gone then tasks[i].(secret := false) else tasks[i])
  }

  // ---- The reply ----

  datatype Action = DeleteVM | StopVM | EnsureVM

  datatype Pending = Pending(instance: Instance, action: Action)

  datatype TaskPayload = TaskPayload(id: Key, spec: TaskSpec)

  datatype Command = Command(instance: Instance, action: Action, jit: nat, task: Option<TaskPayload>)

  /** What an instance needs next, given its row after the report. */
  function ActionFor(a: Instance, r: Option<ReportState>, now: int): Option<Action> {
    if a.state == Deleted then None
    else if a.state == Deleting then Some(DeleteVM)
    else if a.state == Stopping || now >= a.deadline then Some(StopVM)
    else if a.jitReady && r != Some(VMRunning) && r != Some(VMUnknown) then Some(EnsureVM)
    else None
  }

  function PendingOf(node: Key, vms: seq<VMReport>, now: int, a: Instance): seq<Pending> {
    if !Concerns(node, a) then []
    else
      var b := SyncRow(node, vms, now, a);
      match ActionFor(b, StateOf(vms, a.id), now)
      case None => []
      case Some(action) => [Pending(b, action)]
  }

  function PendingAll(node: Key, vms: seq<VMReport>, now: int, runs: seq<Instance>): seq<Pending> {
    if runs == [] then [] else PendingAll(node, vms, now, Init(runs)) + PendingOf(node, vms, now, Last(runs))
  }

  function Rank(action: Action): nat {
    match action
    case DeleteVM => 0
    case StopVM => 1
    case EnsureVM => 2
  }

  predicate Sooner(a: Pending, b: Pending) {
    Rank(a.action) < Rank(b.action) || (Rank(a.action) == Rank(b.action) && a.instance.id < b.instance.id)
  }

  datatype Load = Load(size: nat, jit: nat, task: Option<TaskPayload>)

  /** What a command carries: None when a task's payload is withheld because
      it was erased, cancelled, expired or its client is revoked. */
  function LoadOf(tasks: seq<Task>, clients: map<Key, bool>, item: Pending): Result<Option<Load>> {
    var a := item.instance;
    if item.action != EnsureVM then Ok(Some(Load(COMMAND_SIZE, 0, None)))
    else if a.task != NONE then
      match FindTask(tasks, a.task)
      case None => Err(TaskNotFound)
      case Some(t) =>
        if !t.secret || t.cancelled || t.expired then Ok(None)
        else if t.client !in clients || clients[t.client] then Ok(None)
        else Ok(Some(Load(COMMAND_SIZE + t.spec.size, 0, Some(TaskPayload(t.id, t.spec)))))
    else if a.jit == 0 then Err(Corrupt)
    else Ok(Some(Load(COMMAND_SIZE + a.jit, a.jit, None)))
  }

  datatype Batch = Batch(commands: seq<Command>, budget: int)

  function DeliverOne(tasks: seq<Task>, clients: map<Key, bool>, b: Batch, item: Pending): Result<Batch> {
    if |b.commands| >= MAX_COMMANDS then Ok(b)
    else
      match LoadOf(tasks, clients, item)
      case Err(f) => Err(f)
      case Ok(None) => Ok(b)
      case Ok(Some(l)) =>
        if l.size > b.budget && b.commands != [] then Ok(b)
        else Ok(Batch(b.commands + [Command(item.instance, item.action, l.jit, l.task)], b.budget - l.size))
  }

  function Deliver(tasks: seq<Task>, clients: map<Key, bool>, items: seq<Pending>): Result<Batch> {
    if items == [] then Ok(Batch([], REPLY_BUDGET))
    else
      match Deliver(tasks, clients, items[..|items| - 1])
      case Err(f) => Err(f)
      case Ok(b) => DeliverOne(tasks, clients, b, items[|items| - 1])
  }

  function Schedule(node: Key, vms: seq<VMReport>, now: int, runs: seq<Instance>): seq<Pending> {
    Sort(Sooner, PendingAll(node, vms, now, runs))
  }

  // ---- The transaction ----

  function Recorded(obs: map<Key, Observation>, name: Key, o: NodeReport, now: int): map<Key, Observation> {
    obs[name := Observation(o.sequence, now, o.ready, name in obs && obs[name].drained, o.isolation,
                            o.ceiling, o.freeDiskGiB, o.digests)]
  }

  /** The store after an accepted report, before the reply is composed. */
  function Reported(s: Store, name: Key, o: NodeReport, now: int): Store {
    s.(obs := Recorded(s.obs, name, o, now),
       runs := SyncRows(name, o.vms, now, s.runs),
       demand := BarDemand(s.demand, Barred(name, o.vms, s.runs)),
       tasks := EraseSecrets(s.tasks, Gone(name, o.vms, s.runs)))
  }

  function SyncFault(s: Store, name: Key, o: NodeReport): Option<Fault> {
    if !WellFormed(name, o) then Some(Fault.NodeReport)
    else
      match s.config.Node(name)
      case None => Some(NodeNotConfigured)
      case Some(n) =>
        if !n.budget.Fits(o.ceiling) then Some(LocalCeiling)
        else if name in s.obs && s.obs[name].sequence >= o.sequence then Some(StaleReport)
        else if !Distinct(o.vms) then Some(DuplicateReport)
        else RowsFault(name, o.vms, s.runs)
  }

  function SyncNode(s: Store, name: Key, o: NodeReport, now: int): Outcome<seq<Command>> {
    match SyncFault(s, name, o)
    case Some(f) => Refuse(s, f)
    case None =>
      var after := Reported(s, name, o, now);
      match Deliver(after.tasks, after.clients, Schedule(name, o.vms, now, s.runs))
      case Err(f) => Refuse(s, f)
      case Ok(b) => Outcome(after, Ok(b.commands))
  }
}
