/** The database in service: any sequence of requests takes it through exactly
    the states of a run, so all that holds of runs holds of its tables. */
module Service {
  import opened Resources
  import opened Model
  import opened Ledger
  import opened State
  import T = Transactions
  import opened Consistency
  import opened Runs
  import opened Controller

  method Configure(db: Database, op: Op, now: int)
    requires ByConfig(op)
    modifies db
    ensures db.View() == Step(old(db.View()), op, now)
  {
    match op
    case DoPlan(id, c) => var r := db.Plan(id, c, now);
    case DoApply(id) => var r := db.Apply(id, now);
    case DoApprove(id, invited) => var r := db.Approve(id, invited);
  }

  method Administer(db: Database, op: Op, now: int)
    requires Aside(op)
    modifies db
    ensures db.View() == Step(old(db.View()), op, now)
  {
    match op
    case DoEnroll(id, name, ceiling) => db.Enroll(id, name, ceiling);
    case DoDrain(node, drained) => var r := db.Drain(node, drained);
    case DoRefresh(pool, desired) => var r := db.RefreshDemand(pool, desired, now);
    case DoFlag(flag, pool, blocked) => var r := db.SetDemandFlag(flag, pool, blocked);
    case DoApproveClient(client, replacing) => var r := db.ApproveClient(client, replacing);
  }

  method ServeClient(db: Database, op: Op, now: int)
    requires ByClient(op) && UniqueInstances(db.runs)
    modifies db
    ensures db.View() == Step(old(db.View()), op, now)
  {
    match op
    case DoSubmit(client, spec, id, instanceID) => var r := db.SubmitTask(client, spec, id, instanceID, now);
    case DoDispatch(draw) => var r := db.DispatchTasks(draw, now);
    case DoCancel(client, id) => var r := db.CancelTask(client, id, now);
    case DoRevoke(client) => var r := db.RevokeClient(client, now);
    case DoReport(node, id, report) => var r := db.ReportTask(node, id, report, now);
  }

  method ServeVMs(db: Database, op: Op, now: int)
    requires op.DoAllocate? || op.DoSetJIT? || op.DoStop? || op.DoSync? || op.DoPersist?
    modifies db
    ensures db.View() == Step(old(db.View()), op, now)
  {
    match op
    case DoAllocate(id, request, pool) => var r := db.Allocate(id, Runner(request), pool, now);
    case DoSetJIT(id, runnerID, size) => var r := db.SetJIT(id, runnerID, size, now);
    case DoStop(id) => var r := db.StopInstance(id);
    case DoSync(node, o) => var r := db.Sync(node, o, now);
    case DoPersist(m, pool, desired, events, hold) => var r := db.PersistMessage(m, pool, desired, events, hold, now);
  }

  /** One request: the method that serves it takes the tables where the step
      of a run does, and keeps every invariant of runs. */
  method Serve(db: Database, op: Op, now: int)
    requires Sound(db.View())
    modifies db
    ensures db.View() == Step(old(db.View()), op, now)
    ensures Sound(db.View())
  {
    StepSound(db.View(), op, now);
    if ByConfig(op) {
      Configure(db, op, now);
    } else if Aside(op) {
      Administer(db, op, now);
    } else if ByClient(op) {
      ServeClient(db, op, now);
    } else {
      ServeVMs(db, op, now);
    }
  }

  /** A new database after any requests holds what the run of them reaches. */
  method ServeAll(ops: seq<Timed>) returns (db: Database)
    ensures fresh(db) && db.View() == Run(ops) && Sound(db.View())
  {
    db := new Database();
    AlwaysSound([]);
    assert ops[..0] == [];
    for i := 0 to |ops|
      invariant fresh(db) && db.View() == Run(ops[..i]) && Sound(db.View())
    {
      assert ops[..i + 1][..i] == ops[..i];
      Serve(db, ops[i].op, ops[i].now);
    }
    assert ops[..|ops|] == ops;
  }
}
