# RunnerLoom, modelled and verified in Dafny

RunnerLoom runs one-job virtual machines on a few nodes. A controller keeps one
transactional store: configuration, VM rows, node reports, runner demand and
agent tasks. Each node's agent polls it, and drives libvirt from durable
per-VM manifests. GitHub messages and approved clients create the work; a
finished task's result travels back over the guest's serial log.

This project models that system and proves what its parts promise each other.
The central claim is `Composition.ResourceSafety`: what the controller counts
as free is free on the host, in every run with crashes and lost messages.

## How it is built

| layer | modules |
|---|---|
| resources, configuration, 64-bit sums | `Resources`, `Model`, `Validate`, `NoWrap`, `ApplyExact`, `Order` |
| the ledger and placement | `Ledger`, `Capacity`, `Placement` |
| the controller's transactions as functions on tables | `State`, `Transactions`, `Sync`, `Reply` |
| what each of them means, told without naming it | `Choice`, `Effects`, `Reports`, `Answers`, `Outcomes`, `Plans`, `Views` |
| the same transactions as methods that update tables in place | `Controller`, `Service` |
| what single transactions promise across calls and runs | `Handlers`, `Submissions` |
| what every transaction and run keeps | `Consistency`, `Movement`, `Soundness`, `Runs`, `RowSteps` |
| dispatching and visible task state | `Dispatching`, `Fifo`, `Lifecycle` |
| the host: relations, libvirt methods, safety over runs | `Hosting`, `Provider`, `HostSafety` |
| controller, network and host together | `World`, `Composition`, `Agents`, `Teardown`, `Cost`, `Endings` |
| intake of GitHub messages | `Intake`, `Events` |
| the task result on the serial log | `Console`, `Codec`, `RoundTrip`, `Found`, `Lost`, `Guest`, `Bound` |

A transaction is a function from a `Store` to an `Outcome`: the new store and
the reply, where a refusal returns the old store. `Controller.Database` holds
the tables as fields and has one method for each transaction, written with the
source's loops; each method ensures that tables and reply equal that function,
and `Service.ServeAll` that a database serving any requests holds the state of
their run.
`Runs.Run` folds any sequence of transactions, and the `Always...` lemmas speak
of every state such a run reaches. Host operations are methods whose effects
may each fail or be the last before a crash; their contracts are the relations
that `HostSafety` and `World` quantify over.

The functions say how the source computes; a second set of lemmas says what
comes out, on rows, fields and reports only. `Answers.ReplyUnique` decides the
reply to a report by the rows it leaves, `Choice.PlacedWell` the node a VM is
placed on, `Views.ViewExactly` the state a client is shown, and
`Endings.CancelEndsVM` follows a cancelled task's VM until nothing of it is left.

An effect of the host, the connection or GitHub that fails is counted, and the
methods end in failure only if one was (`Provider.Libvirt.failures`,
`Agents.Agent.losses`, `Intake.Adapter.failures`), so that what holds when nothing fails follows from the
code (`Agents.UnfailedStep`).

Names, identifiers, digests and secrets are opaque keys: only equality, order
and emptiness matter. Time is in nanoseconds and is an argument of each
operation, as are fresh random identifiers; a collision is the insertion error
that the database would raise. Rows of a table are a sequence in insertion
order with unique identifiers. Every sort of the source is by a total order, so
`Order.SortUnique` makes its result independent of the sorting algorithm.

## What the proofs turned up

- `PersistMessage` applies every event of a message to the row as it was read
  before the loop. `Events.EventsInSequence` says exactly when that equals
  applying them in order; `Events.StartIsLost` gives the message for which it
  does not: a job that starts and completes between two polls leaves its VM
  Idle with a result.
- A stop that the operator asked for can be undone: the start of its job makes
  a stopping runner VM Busy again, and it runs on until it is stopped once more,
  ends by itself or reaches its deadline. `Outcomes.StopSurvives` says exactly when,
  `Outcomes.StopUndone` gives the message. Task VMs receive no such events, which
  is why `Endings` speaks of them.
- A readable copy of a result is not always found. `Found.FoundExactly` gives
  the exact condition for every log. It fails in two ways: the host searches
  for an END marker directly after a newline, before it removes the carriage
  returns that erase a status line (`Lost.ErasedCopyLost`), and it reads only
  the 4 MiB before the last such marker (`Lost.FarCopyLost`). For logs within
  4 MiB `Found.ShortLogExactly` states it as one check on the text. The runner's
  own copies always fit (`Guest.RunnerCopyFits`, `Guest.EmittedDecodes`).
- Not every result line is printed by `emit`. A status whose message spans
  lines puts all of them on the console, and the status before a retry quotes
  what the failed command printed. `Guest.StatusExactly` says when a status keeps
  the log free of result lines, `Guest.RetryDelivers` gives the message for which
  it does not, and `Guest.NothingUntilEmitted` what holds otherwise. A result
  emitted later is still the one that is decoded (`Guest.EmittedDecodes`).
- The last step of `boundResult`, halving the output, cannot be reached at the
  limit of 900 KiB (`Bound.OutputNeverHalved`).
- The intake fence can stay up with nothing left to redeliver, so that the pool
  waits for its next message with jobs. `Intake.FenceExactly` says when: the last
  such message to leave the queue left without an answered acknowledgement,
  because the answer was lost, the process crashed before lowering the fence,
  or the session ended. `Intake.AcknowledgedLowers` says what clears it.
- The visible state of a task would go back on a host report of Failed exactly
  when its VM is being deleted (`Lifecycle.FailedExactly`), and on a GitHub
  event about its VM exactly in the two cases of `Lifecycle.EventExactly`. The
  inventory never sends Failed and task pools receive no events, so
  `Lifecycle.AlwaysForward` excludes both through `Lifecycle.Regular`.

## Model

| member | source | states |
|---|---|---|
| `Composition.ResourceSafety` | internal/core/store.go:783-812 | In every world reachable by any interleaving of transactions, lost, repeated and delayed reports and commands, guest power-offs and crashes between effects: a running domain means the controller still holds the full charge of its row, and a VM disk directory means it still holds the disk charge |
| `Composition.PhysicalWithinBudget` | internal/core/store.go:415-459 | What really runs on a node, summed per resource, and what its VM disks really occupy never exceed the budget the controller has for that node |
| `Composition.AlwaysHeldShape` | internal/core/store.go:783-812 | In every reachable world a hold is the whole charge while active, its disk part while deleting, nothing once deleted, and it is empty exactly when the row is Deleted |
| `Composition.DeletionHandshake` | internal/core/store.go:799-818 | No report an agent ever sent, whenever it arrives, is refused as an unexpected deletion, an unknown state or a duplicate |
| `Composition.DeletedIsGone` | internal/host/provider.go:777-812 | A row the controller shows as Deleted has neither a domain nor a disk directory left on its host, and a Deleting one no running domain |
| `World.EventKeeps` | internal/agent/agent.go:439-518 | Every event of the composed system (transaction, delivery of any old report, survey, obeyed command cut short anywhere, power-off) keeps the composed invariant |
| `World.CommandFrom` | internal/core/store.go:824-840 | Each command of a reply comes from a row of that node as the report left it, with the action that row calls for, and only an ensure carries a secret |
| `Agents.Agent.Step` | internal/agent/agent.go:439-518 | The agent loop as code: what it leaves of host, controller and sequence number at every point it can stop, tied to the relation Steps; unless something failed, it was answered or the controller refused the report, no query was uncertain and no command failed |
| `Agents.Agent.Obey` | internal/agent/agent.go:489-515 | One accepted command: ensure as task or runner, stop only after a certificate that succeeded, delete |
| `Agents.Agent.ObeyAll` | internal/agent/agent.go:484-518 | The command loop: every command in turn, a failing one does not keep the next from being tried, a refused one ends the loop |
| `Agents.StepIsRun` | internal/agent/agent.go:439-518 | Wherever an agent step is cut short it is a run of the composed system, so all reachable-world theorems hold after it |
| `Agents.SmoothStep` | internal/agent/agent.go:439-518 | A step in which every query, stop and deletion succeeds is exactly the step whose progress the teardown theorem measures; a reply never exceeds what the agent accepts |
| `Teardown.StepProgress` | internal/core/store.go:824-894 | On every error-free agent step with something to stop or delete, the summed distance of the node's VMs to deletion strictly decreases, despite the four-command limit and refused ensures; without anything due it never grows |
| `Teardown.TeardownTerminates` | internal/agent/agent.go:484-518 | In any run of error-free agent steps longer than four per VM some step finds nothing left to tear down |
| `Cost.TeardownCostsFour` | internal/core/store.go:824-894 | In any run, with any transactions, failures, losses and new VMs in between, each VM ever placed on the node costs at most four error-free agent steps that found something to tear down |
| `Cost.EventMeasure` | internal/core/store.go:783-812 | No event of the composed system takes a VM of the node further from deletion; a new VM adds at most four steps |
| `Teardown.NothingDue` | internal/core/store.go:825-832 | Nothing due means every past-deadline, Stopping or Deleting VM of the node is Deleted |
| `Teardown.TeardownNotRefused` | internal/host/provider.go:850-879 | The host never refuses a stop certificate, stop or deletion that the controller asks for |
| `Teardown.AcceptedIsAnswered` | internal/core/store.go:861-894 | Once a report is accepted the reply is always composed: no secret that a pending command needs is ever missing |
| `HostSafety.HostLifecycle` | internal/host/provider.go:476-879 | Over any interleaving of ensure retries, stops, deletions, certified stops, surveys, power-offs and crashes after any effect: virsh start is issued at most once per VM, exactly once for a running one, the phase never goes back, a stopped VM never runs again, a deleted one keeps neither domain nor disks, and the local ceiling holds |
| `HostSafety.AlwaysHostOK` | internal/host/provider.go:539-578 | The durable host invariant holds in every state of every host run |
| `HostSafety.EnsureKeeps` | internal/host/provider.go:476-689 | ensure, cut short anywhere, keeps the host invariant and only advances phases |
| `HostSafety.StopKeeps` | internal/host/provider.go:750-776 | Stop, cut short anywhere, keeps the host invariant and only advances phases |
| `HostSafety.DeleteKeeps` | internal/host/provider.go:777-812 | Delete, cut short anywhere, keeps the host invariant and only advances phases |
| `HostSafety.CertifyKeeps` | internal/host/provider.go:850-879 | A stopped manifest written without a ceiling check still keeps the local ledger: it owns nothing |
| `HostSafety.SurveyKeeps` | internal/host/provider.go:691-749 | An inventory, even one that fails half-way, keeps the host invariant |
| `Provider.Libvirt.Ensure` | internal/host/provider.go:476-689 | ensure effect by effect, ending anywhere: untouched, a revisited earlier start that is never started again, or, only where the ceiling and the free disk beside all other VMs and 2 GiB allow it, provisioned in the order manifest, disks, domain, start intent, start; it refuses for a listed reason only and fails only if an effect or query failed |
| `Provider.Libvirt.Provision` | internal/host/provider.go:577-689 | The effects of a provisioning and what each prefix of them leaves |
| `Provider.Libvirt.Prepare` | internal/host/provider.go:577-668 | The manifest is durable before the disk directory exists |
| `Provider.Libvirt.Define` | internal/host/provider.go:669-679 | A domain is defined only where none is, and a running one is refused |
| `Provider.Libvirt.Launch` | internal/host/provider.go:669-689 | The start intent is durable before virsh start is issued; the start is counted exactly when it is issued |
| `Provider.Libvirt.Start` | internal/host/provider.go:680-689 | One virsh start, and Running recorded only after it |
| `Provider.Libvirt.Revisit` | internal/host/provider.go:494-520 | A VM whose start was issued before is only looked at: Running is recorded only if it runs, Stopped only if it does not |
| `Provider.Libvirt.LedgerOf` | internal/host/provider.go:539-560 | The admission sum equals the set-aside of every other manifest file by phase |
| `Provider.Libvirt.Stop` | internal/host/provider.go:750-776 | Stopped is recorded only once no domain runs; a deleted VM stays deleted; it fails only if an effect or query failed |
| `Provider.Libvirt.Delete` | internal/host/provider.go:777-812 | Deleted is recorded only once domain and disk directory are gone; a running VM is refused; it fails only if an effect or query failed |
| `Provider.Libvirt.EnsureStopIntent` | internal/host/provider.go:850-879 | A stop for a VM never created here is certified only where neither domain nor directory exists |
| `Provider.Libvirt.Survey` | internal/host/provider.go:702-747 | What one manifest is reported as, and the stop it may record |
| `Provider.Libvirt.Inventory` | internal/host/provider.go:691-749 | Every manifest file is reported once, in order, truly; it fails or is uncertain only if a query or a write failed, and may then have recorded stops and nothing else |
| `Provider.Libvirt.DomainState` | internal/host/provider.go:211-245 | A domain query tells the truth at the moment of the query or nothing |
| `Runs.StepSound` | internal/core/store.go:265-279 | Every transaction, accepted or refused, keeps ledger, linkage, secret rule and limits |
| `Runs.AlwaysSound` | internal/core/store.go:265-279 | Those invariants hold after any transactions, in any order, at any times and with any inputs |
| `Runs.AlwaysWithinBudget` | internal/core/store.go:415-459 | In every reachable state held plus protected resources fit every budget and no pool exceeds its runner limit |
| `Runs.AlwaysReserved` | internal/core/store.go:586-608 | In every reachable state, for any observations and time: a node row with an unused reservation of the pool is marked reserved and never INSUFFICIENT_BUDGET, and no row is RESERVATION_INCONSISTENT |
| `Runs.AlwaysLinked` | internal/core/task.go:425-431 | A payload is kept exactly until its task is Expired, Cancelled unplaced, or its VM Deleted; Expired excludes Cancelled; each placed task has exactly one VM; no client has more than 64 open tasks |
| `Runs.AlwaysOwned` | internal/core/task.go:357-384 | Each task VM belongs to exactly the task that names it |
| `Soundness.AdmittedBalances` | internal/core/identity.go:373-456 | Admitting a node bypasses Apply yet keeps the ledger |
| `Soundness.AcceptedSound` | internal/core/store.go:779-841 | An accepted report keeps every invariant, also when it only partly releases reserved VMs |
| `Soundness.ApplySound` | internal/core/store.go:361-414 | Applying a plan keeps every invariant |
| `Soundness.DispatchSound` | internal/core/task.go:496-550 | Dispatching keeps every invariant |
| `Soundness.RevokeSound` | internal/core/task.go:974-1034 | Revoking a client keeps every invariant |
| `Movement.SyncShrinks` | internal/core/store.go:783-812 | A node's own report is the only step that lets go of resources, row by row: CPU and memory only against Stopped or Deleted, everything only against Deleted of a Deleting row |
| `Movement.PlaceSound` | internal/core/task.go:320-332 | placeTx finds a node that can host the VM whenever there is one; adding the VM, with its reservation, keeps the ledger |
| `RowSteps.StepExtends` | internal/core/store.go:265-279 | No transaction but a node's own report releases anything, removes, reorders or renames a VM row, or makes an inactive one active; new rows hold their whole charge |
| `Controller.Database.Plan` | internal/core/store.go:338-360 | Tables and reply equal the specified transaction; an error changes nothing |
| `Controller.Database.Apply` | internal/core/store.go:361-414 | Tables and reply equal the specified transaction, revision and capacity checks included |
| `Controller.Database.Approve` | internal/core/identity.go:373-456 | Tables and reply equal the specified admission of a node |
| `Controller.Database.Place` | internal/core/task.go:320-332 | The head candidate, if it has no reason against it, hosts the VM; otherwise NO_CAPACITY |
| `Controller.Database.Allocate` | internal/core/store.go:674-712 | Tables and reply equal the specified transaction, idempotent by request ID |
| `Controller.Database.StopInstance` | internal/core/store.go:1010-1027 | Tables and reply equal the specified transaction |
| `Controller.Database.PersistMessage` | internal/core/store.go:953-1009 | The nested event loop equals the specified row-by-row effect; a repeated message changes nothing |
| `Controller.Database.QueuedTasks` | internal/core/task.go:470-491 | The queue as specified, oldest first |
| `Controller.Database.DispatchOne` | internal/core/task.go:357-384 | One task placed, left queued or refused, as specified |
| `Controller.Database.DispatchTasks` | internal/core/task.go:496-550 | The loop with its blocked pools equals the specified fold over the queue |
| `Controller.Database.SubmitTask` | internal/core/task.go:388-467 | Tables and reply equal the specified transaction, replay by request ID and the client limit included |
| `Controller.Database.RevokeClient` | internal/core/task.go:974-1034 | The loop over the client's tasks equals the specified effect on both tables at once |
| `Controller.Database.SyncTables` | internal/core/store.go:778-841 | The row loop equals the specified states, barriers, erasures, pending commands, or the first fault |
| `Controller.Database.Sync` | internal/core/store.go:716-898 | Tables and reply equal the specified transaction; every refusal leaves all tables as they were; in a consistent store the reply is the proper one, told by the rows alone (`Answers.Proper`) |
| `Controller.Database.Enroll` | internal/core/identity.go:302-347 | An accepted join request is recorded with its ceiling, not approved; recorded ones stay as they are |
| `Controller.Database.SetJIT` | internal/core/store.go:491-525 | Only a reserved VM without a registration changes: it gets one within the size limit and keeps its hold; every refusal changes nothing |
| `Controller.Database.RefreshDemand` | internal/core/runtime.go:18-25 | Other pools keep their demand; the barrier falls and the intake fence stays as it was |
| `Controller.Database.SetDemandFlag` | internal/core/runtime.go:35-55 | One flag of one pool is set; the other flag, the numbers and all other pools stay |
| `Controller.Database.Drain` | internal/core/store.go:905-918 | Only the drained flag of one node changes |
| `Controller.Database.CancelTask` | internal/core/task.go:716-767 | Only the caller's own task changes; when it is cancelled, its VM, if it has one, is Stopping afterwards, and otherwise it loses its payload; other VMs stay as they are, and holds always do |
| `Controller.Database.ReportTask` | internal/core/task.go:772-829 | Only the reported task changes; a stored result is never replaced and only the reported one is ever stored; payload and VM stay |
| `Controller.Database.ApproveClient` | internal/core/task.go:904-941 | A revoked client stays revoked, and only the named client can become approved |
| `Service.Serve` | internal/core/store.go:265-279 | One request served by its method takes the tables exactly where the step of a run does and keeps every invariant |
| `Service.ServeAll` | internal/core/store.go:265-279 | A new database after any sequence of requests holds exactly the state of that run |
| `Handlers.RegisteredOnce` | internal/core/store.go:491-525 | A registration is never replaced, whatever GitHub answers later |
| `Handlers.FencesIndependent` | internal/core/runtime.go:27-55 | The two fences commute and the pool is blocked if either is up |
| `Handlers.RefreshKeepsFence` | internal/core/runtime.go:18-25 | After a refresh a pool is blocked exactly if its intake fence was up |
| `Handlers.DrainSticks` | internal/core/store.go:755-759 | A drained node stays drained through its own reports and gets no VM whatever it reports |
| `Handlers.CancelledOnce` | internal/core/task.go:716-767 | Cancelling again changes nothing |
| `Handlers.CancelledNeverPlaced` | internal/core/task.go:716-767 | A cancelled task is in no dispatch queue |
| `Handlers.ReportedOnce` | internal/core/task.go:772-829 | A report sent again because its reply was lost changes nothing |
| `Handlers.RevokedForGood` | internal/core/task.go:974-1034 | A revoked client is never approved again and none of its payloads is delivered |
| `Submissions.AlwaysOncePerRequest` | internal/core/task.go:398-407 | In every reachable state no two tasks share client and request ID |
| `Submissions.SubmissionReplays` | internal/core/task.go:398-407 | A submission repeated after any later transactions answers with the first task and changes nothing; the same request with other content is refused |
| `Capacity.CheckCapacityUpdate` | internal/core/store.go:415-459 | The nested loops find the specified first fault |
| `Capacity.AcceptedChangeBalances` | internal/core/store.go:415-459 | An accepted change of configuration keeps the whole ledger under the new budgets, limits, sizes and reservations |
| `Capacity.Merge` | internal/core/store.go:309-337 | The merge loop equals the specified union by name |
| `Capacity.MergedKeeps` | internal/core/store.go:309-337 | New entries come first and win, every old name survives, nothing else appears |
| `Capacity.MergeCovers` | internal/core/store.go:309-337 | A merged plan never loses a node or pool that a VM may refer to |
| `Ledger.ValidateReservationOwners` | internal/core/reservations.go:5-20 | Accepts exactly when every reserved holder names a reservation of its own node and pool |
| `Ledger.ReservationProtection` | internal/core/reservations.go:27-48 | The loop equals the specified protection, or the specified inconsistency |
| `Ledger.ProtectionBalances` | internal/core/reservations.go:27-48 | A reservation's protection plus what its VMs hold is always slots times charge, however far each VM is through stop and deletion |
| `Ledger.Conservation` | internal/core/reservations.go:27-48 | Held plus protected on a node is the reservations' sum plus what unreserved VMs hold: a reserved VM's life only shifts resources between the two terms |
| `Ledger.PlaceTotals` | internal/core/task.go:320-332 | Placing in a reservation leaves held plus protected unchanged everywhere; placing in general capacity adds exactly one charge to one node |
| `Ledger.PlaceKeepsBalance` | internal/core/store.go:586-608 | A new VM that takes a free slot, or fits beside everything held and protected, keeps the ledger |
| `Ledger.ReleaseKeepsBalance` | internal/core/store.go:795-804 | Partial and full releases keep the ledger and never raise any total |
| `Placement.FindCandidates` | internal/core/store.go:542-628 | The loops equal the specified rows with reasons, sorted; `Choice` tells what the rows and their order mean without naming them |
| `Placement.CandidatesDetermined` | internal/core/store.go:542-628 | One row per node, and the only sorted permutation of them: the unstable sort is deterministic |
| `Placement.HeadFeasible` | internal/core/store.go:542-628 | The head row is feasible exactly when some node is |
| `Placement.HardReservation` | internal/core/store.go:586-608 | On balanced books a node with an unused reservation of the pool never lacks budget for it, and no row is inconsistent |
| `Placement.FeasibleRow` | internal/core/store.go:557-612 | What a feasible row guarantees of pool, node, freshness, image and budget |
| `Placement.PlacementKeepsBalance` | internal/core/task.go:320-332 | Placing a VM on a feasible node keeps the ledger and moves totals exactly as reserved or general capacity says |
| `Placement.FeasibleAntitone` | internal/core/store.go:542-628 | A node that can host a pool after another VM was placed could host it before |
| `Order.SortPermutes` | internal/core/store.go:613-627 | Sorting is a permutation |
| `Order.SortUnique` | internal/core/store.go:613-627 | Under a total order a sorted permutation is unique |
| `Dispatching.BlockedIff` | internal/core/task.go:357-384 | A task is left queued exactly when no enabled, non-full pool row can host it |
| `Dispatching.PlacementOpensNothing` | internal/core/task.go:496-550 | Placing a VM opens no pool |
| `Dispatching.DispatchIsFair` | internal/core/task.go:496-550 | Per pool the placed tasks are a prefix of the unexpired queue, exactly the expired are expired, and no task left waiting could be placed in the final ledger |
| `Soundness.QueueSound` | internal/core/task.go:470-491 | The queue is every queued task once, by creation time and ID |
| `Fifo.DispatchedInOrder` | internal/core/task.go:496-550 | Of two waiting tasks of a pool the one placed was not created later |
| `Fifo.AlwaysFair` | internal/core/task.go:447-467 | On a clock that never goes back no task is ever overtaken in its pool, across submissions, dispatches, cancellations and releases |
| `Lifecycle.DeriveFollows` | internal/core/task.go:557-602 | The derived state after one change of task and VM, at any later time, follows the state before; `Views` tells which state it is |
| `Lifecycle.StepFollows` | internal/core/task.go:557-602 | Each transaction moves every task's visible state forward and never replaces its result |
| `Lifecycle.AlwaysForward` | internal/core/task.go:557-602 | From any look at a task to any later one in a run its visible state moves forward; only Finished and Cancelled still take a late result |
| `Lifecycle.Absorbing` | internal/core/task.go:557-602 | Succeeded, Failed and Expired never change |
| `Lifecycle.FailedExactly` | internal/core/store.go:813-814 | A Failed report takes a task back if and only if its VM is Deleting |
| `Lifecycle.EventExactly` | internal/core/store.go:984-990 | A runner event about a task VM would take the task back if and only if it makes a stopping VM busy before its deadline or restarts the grace of a deleted one |
| `Reply.ReplyPolicy` | internal/core/store.go:842-894 | At most four commands within 900 KiB; each answers a wanted action; an ensure appears only if every pending stop and deletion does; the reply is not empty if anything is deliverable |
| `Reply.Policy` | internal/core/store.go:858-894 | The same of any sorted schedule: the teardown commands are a prefix of the reply |
| `Reply.Compose` | internal/core/store.go:860-894 | The delivery loop equals the specified delivery |
| `Answers.PendingExactly` | internal/core/store.go:824-841 | A deletion, stop or ensure is pending for a VM if and only if its row, as the report leaves it, is of the node and Deleting; or not ended and Stopping or past its deadline; or none of these, registered, and reported neither Running nor Unknown |
| `Answers.ReplyExactly` | internal/core/store.go:842-894 | An accepted report is answered by at most four commands within 900 KiB, deletions before stops before ensures and by ID; each is what some row needs, an ensure with its own runner configuration or its own task's payload while that may be sent; one that some row needs is missing only if earlier ones fill the four places or leave too little of the budget |
| `Answers.ReplyUnique` | internal/core/store.go:842-894 | No other reply has these properties: the rows after the report decide the reply |
| `Answers.FirstEnsureSent` | internal/core/store.go:832-894 | With nothing to tear down, the first VM by ID that needs an ensure whose load may be sent has it at the head of the reply |
| `Answers.EnsureAccepted` | internal/agent/agent.go:32-48 | The agent turns down no ensure of a reply: the ceiling it reported covers the charge, and the payload is the VM's own task's |
| `Agents.UnfailedStep` | internal/agent/agent.go:439-518 | In a reachable world a step of the code in which nothing failed is a step that the teardown theorem measures: no stop or deletion is refused on the way |
| `HostSafety.AdmittedWithRoom` | internal/host/provider.go:539-578 | In any host run: whenever a VM gets a manifest, disks, a domain or a start, that call was an ensure of this VM before its deadline, the free space given covered what every other VM has on disk, its own disks and 2 GiB, and its charge fitted the ceiling beside the others |
| `HostSafety.AlwaysSameContent` | internal/host/provider.go:480-493 | In any host run an ID stands for one VM: sizes, image, node, task and secret document of its manifest never change |
| `HostSafety.AlwaysWithinCeiling` | internal/host/provider.go:539-578 | In every state of every host run the charges of the running domains, of each kind, and the disk charges of all disk directories are within the local ceiling, and none lacks its manifest |
| `Choice.FeasibleExactly` | internal/core/store.go:542-612 | candidates has nothing against a node if and only if the pool is enabled, below its limit and allowed there, the node is healthy, seen within 45 seconds and has the image, and it has an open reserved slot of the pool or budget for one more beside all reservations and general holds, and the disk for all that with 2 GiB to spare |
| `Choice.CandidatesOrdered` | internal/core/store.go:614-626 | Of any two rows the earlier one is feasible if the later is; between equals it has a reserved slot if the later has; between equals no more memory left; between equals the smaller name |
| `Choice.PlacedWell` | internal/core/task.go:320-332 | A VM is placed if and only if some node can host it; then on a node with an open slot of the pool if any node that can host it has one, with the least memory left among those that agree on that, first by name; in the first open reservation of that node; with every field of the new row |
| `Choice.SlotHosts` | internal/core/model.go:287-302 | An accepted configuration reserves only where it can be used: an open slot on a healthy node with image and disk hosts its enabled pool below its limit |
| `Choice.OfferedHosts` | internal/core/model.go:265-276 | Every enabled pool of an accepted configuration has a node that can host it while it is empty, unreserved and healthy |
| `Views.ViewExactly` | internal/core/task.go:557-602 | In every state of a regular run each visible state is shown exactly under its own condition on the stored task and its VM's row: Queued only unplaced, Starting and Running only with a live VM before its deadline, Succeeded exactly with a successful result, and so on for all ten |
| `Views.ResultDecides` | internal/core/task.go:772-829 | Once a report stores a task's first result, the task shows Succeeded at any later time if and only if that result's status is success, and otherwise Cancelled or Failed by whether it was cancelled before |
| `Endings.CancelExactly` | internal/core/task.go:716-767 | The owner or the operator cancels a task exactly while it is open, without result, and its VM, if any, not ended; then exactly this task is cancelled, an unplaced one loses its payload, and exactly its VM becomes Stopping |
| `Endings.RevokeExactly` | internal/core/task.go:974-1034 | A revocation cancels exactly the client's open tasks whose VM, if any, has not ended, and exactly their VMs become Stopping |
| `Endings.CancelStopsVM` | internal/core/task.go:755-763 | After a placed task is cancelled its VM is Stopping and due on its node at any time |
| `Endings.RevokeStopsVM` | internal/core/task.go:1008-1020 | After a client is revoked the VM of every task this cancelled is Stopping and due on its node at any time |
| `Endings.LeavingEnds` | internal/core/store.go:824-894 | A task VM that is Stopping, Deleting or Deleted is gone from the controller and from its host once there were more error-free agent steps than four for each VM ever placed there, whatever else happens meanwhile |
| `Endings.CancelEndsVM` | internal/core/task.go:716-767 | So the VM of a cancelled task is gone in the end, in any continuation |
| `Endings.RevokeEndsVMs` | internal/core/task.go:974-1034 | So is every VM whose task a revocation cancelled |
| `Plans.CapacityExactly` | internal/core/store.go:415-459 | For a configuration that loses no node and no pool, the capacity check finds nothing if and only if the ledger balances under it |
| `Plans.ApplyExactly` | internal/core/store.go:361-414 | An unapplied plan is applied if and only if it has not expired, its revision is the current one, it is valid, and the ledger balances under it; otherwise nothing changes |
| `Plans.PlanThenApply` | internal/core/store.go:338-414 | A plan applied with nothing in between takes effect exactly within ten minutes and if the ledger balances; then the merged configuration is in force and the revision is one higher if and only if it differs |
| `Plans.AppliedOnce` | internal/core/store.go:361-414 | Applying a plan again, at any time, answers as the first time and changes nothing |
| `Plans.OvertakenForGood` | internal/core/store.go:361-414 | A plan made for an earlier revision is refused in every later state of any run |
| `Plans.FirstPlanWins` | internal/core/store.go:361-414 | Applying a plan that changes the configuration overtakes every other plan of its revision |
| `Plans.ClusterNameStays` | internal/core/store.go:338-414 | In any run, once a configuration is in force the cluster keeps its name and the revision never falls |
| `Effects.PoolCounted` | internal/core/store.go:545-549 | The runner limit counts exactly the rows of the pool whose hold is not empty |
| `Effects.AllocateReplays` | internal/core/store.go:674-712 | A request on record is answered with its VM, or as a conflict if it names another pool, and changes nothing |
| `Effects.AllocateExactly` | internal/core/store.go:674-712 | A new request gets a VM if and only if the pool is a known runner pool, some node can host it and the drawn ID is unused; it lands on the best node and nothing else changes |
| `Effects.DispatchExactly` | internal/core/task.go:357-384 | A task is placed if and only if its pool takes tasks and some node can host it; its VM is Provisioning, ready for delivery, bound to it, and on the best node |
| `Effects.SubmitExactly` | internal/core/task.go:388-467 | A first submission is refused as over the limit if and only if 64 tasks of the client keep payloads; otherwise the task is appended, and placed at once if and only if no other task of its pool waits and some node can host it |
| `Reports.AcceptedExactly` | internal/core/store.go:716-818 | A report is accepted if and only if it is well-formed, of a configured node whose budget its ceiling covers, newer than the last one, names no VM twice, and contradicts no row; otherwise nothing changes |
| `Reports.NewestOnly` | internal/core/store.go:737-739 | After an accepted report every repeated or older one is refused and changes nothing |
| `Reports.RowsTold` | internal/core/store.go:779-823 | Each row of the node after the report, by the state reported for it: next state, what it holds, whether its registration is kept; all other rows stay |
| `Reports.BarrierTold` | internal/core/store.go:789-795 | A pool's barrier is up afterwards if and only if it was, or a runner VM of it stopped holding CPU before GitHub reported a result |
| `Reports.SecretsTold` | internal/core/store.go:799-812 | A task keeps its payload unless this report confirms the deletion of its VM |
| `Reports.NodeTold` | internal/core/store.go:755-760 | The node's row holds the report and the time; drained stays as the operator set it; other nodes' rows stay |
| `Reports.TaskTold` | internal/core/task.go:772-829 | Only the node that runs a task's VM may report, a result only once the VM has stopped; the newest progress of a VM at work and the first result are kept, and nothing else changes |
| `Outcomes.RegisterExactly` | internal/core/store.go:491-525 | A VM takes a registration if and only if it is Reserved without one and the size and runner ID are in range; then exactly its row changes |
| `Outcomes.StopExactly` | internal/core/store.go:1010-1027 | A stop makes exactly the named VM Stopping, unless it is being deleted or deleted |
| `Outcomes.PersistExactly` | internal/core/store.go:953-1009 | A new message stores the demand it states, seen now, takes the barrier down, keeps or raises the intake fence, moves each VM it names by the last event that does, and is recorded; a repeated one changes nothing, and one with another content is refused |
| `Outcomes.StopSurvives` | internal/core/store.go:982-992 | A stop asked for by the operator outlives a message if and only if the last event naming the VM is not the start of its job |
| `Outcomes.StopUndone` | internal/core/store.go:982-992 | The message that brings a stopping VM back to Busy |
| `Outcomes.RefreshExactly` | internal/core/runtime.go:18-25 | A poll stores the demand it states, seen now, takes the barrier down and leaves the intake fence and other pools |
| `Outcomes.ApproveClientExactly` | internal/core/task.go:904-941 | A client is approved if and only if it was not revoked and is new or renewed; nobody else's standing changes |
| `Outcomes.ApproveExactly` | internal/core/identity.go:373-456 | An approval binds the name to the host and raises the revision; a new node offers what its owner approved to exactly the runner pools that fit it, a configured one keeps its entry |
| `Outcomes.DispatchCounts` | internal/core/task.go:496-545 | A dispatch reports how many VMs it added, and expires exactly the queued tasks older than an hour |
| `Outcomes.ProvisionsExactly` | internal/github/provider.go:467-500 | A pass adds a VM if and only if demand is known, at most 90 seconds old and unblocked, fewer VMs hold resources than demand with warm VMs asks for and the limit allows, and some node can host it; it lands on the best node |
| `Intake.AcquiredAll` | internal/github/provider.go:392-407 | True exactly when every wanted job was acquired as often as wanted |
| `Intake.Adapter.PersistThenAcknowledge` | internal/github/provider.go:350-390 | What each ending leaves of store, fence and queue, wherever a crash falls; nothing is acknowledged before it is persisted and all its jobs acquired; it crashes or loses the answer only if something failed, and leaves jobs unacquired only if GitHub did not give them all |
| `Intake.Adapter.Reconcile` | internal/github/provider.go:467-542 | Nothing while demand is unknown, stale or blocked; otherwise at most one allocation, below the target, then the registrations; it ends in an error only if GitHub failed or the allocation was refused |
| `Intake.Adapter.Register` | internal/github/provider.go:504-540 | Every reserved VM of the pool, in order until the first failure, is registered or, past its deadline, stopped; no other row changes |
| `Intake.ReconcileBounded` | internal/github/provider.go:486-503 | One pass adds at most one VM and never lifts the pool above its target |
| `Intake.ReconcileSound` | internal/github/provider.go:467-542 | A pass of provisioning keeps every invariant of the store |
| `Intake.UnacknowledgedBlocks` | internal/github/provider.go:479-481 | In every run of an adapter with messages handled one at a time, sessions ending at will, a persisted but unacknowledged message with jobs keeps its pool dormant at any time, whatever crashes and other transactions happen |
| `Intake.BystanderKeeps` | internal/core/runtime.go:18-55 | No other transaction takes the intake fence down |
| `Intake.ReplayChangesNothing` | internal/core/store.go:953-1009 | Handling a persisted message again leaves the state unchanged |
| `Intake.FenceExactly` | internal/github/provider.go:380-389 | In every run of an adapter the fence is up if and only if its first message awaits the acknowledgement, or the last persisted message with jobs to leave the queue left without an answered one (lost answer, crash, ended session) |
| `Intake.AcknowledgedLowers` | internal/github/provider.go:386-388 | An answered acknowledgement of a message with jobs lowers the fence, whatever raised it, until the next such message |
| `Intake.FenceOutlives` | internal/github/provider.go:380-389 | Both a crash after the acknowledgement and a lost answer to it leave the pool dormant at any later time with nothing to redeliver |
| `Events.EventsInSequence` | internal/core/store.go:979-995 | PersistMessage agrees with applying its events one after another if and only if, for the row, the last event alone tells the outcome |
| `Events.StartIsLost` | internal/core/store.go:979-995 | A job that starts and completes within one message keeps its result but not its Busy state |
| `Validate.Validate` | internal/core/model.go:187-312 | With wrapping 64-bit sums it accepts exactly the configurations whose unbounded sums are within every budget and limit |
| `Validate.SumReservations` | internal/core/model.go:284-299 | The filled maps equal the mathematical sums of accepted entries |
| `NoWrap.ProtectExact` | internal/core/reservations.go:27-48 | reservationProtection evaluated in 64 bits equals its unbounded value on balanced books |
| `NoWrap.CandidatesExact` | internal/core/store.go:586-612 | Every Add, Mul and Sub that candidates evaluates is exact |
| `NoWrap.NeverWraps` | internal/core/store.go:600-605 | No placement decision in any reachable state rests on a wrapped sum |
| `ApplyExact.ChangeExact` | internal/core/store.go:415-459 | checkCapacityUpdate in 64-bit arithmetic gives the unbounded verdict for every valid new configuration, before it is known to fit |
| `ApplyExact.ApplyNeverWraps` | internal/core/store.go:415-459 | No verdict of Apply in any reachable state rests on a wrapped sum |
| `Resources.WrapCongruent` | internal/core/model.go:55-61 | The 64-bit value is in range and congruent to the mathematical one |
| `RoundTrip.IntactDecodes` | internal/host/task.go:71-157 | If every END line carries the document's digest, one intact copy among any lines decodes to exactly that document, whatever newer damaged copies follow |
| `RoundTrip.OnlyTheDocument` | internal/host/task.go:71-157 | Damaged copies can fail but can never yield another document |
| `RoundTrip.HeardDecodes` | internal/host/task.go:83-102 | What is heard of one emitted copy, other writers in between and damaged copies around it, decodes to exactly the document |
| `Found.FoundExactly` | internal/host/task.go:71-102 | For every log: a result is found if and only if a whole copy starts, with some line, at or after the point 4 MiB before the last END marker that stands at a line start |
| `Found.ShortLogExactly` | internal/host/task.go:71-102 | With a readable copy and only its digest on END lines, a log of at most 4 MiB yields the document if and only if some END marker stands raw at the start of the log or of a line |
| `Found.NewestCopyExactly` | internal/host/task.go:74-75 | In a longer log the newest readable copy is found if and only if it starts within 4 MiB before the last raw END marker |
| `Found.NoisyRoundTrip` | internal/host/task.go:71-157 | On the text of a log, at its start or later: what is heard of one emitted copy, whatever carriage returns and erased status lines the console added, is decoded by ParseTaskResult if and only if an END marker is raw |
| `Found.LogRoundTrip` | internal/host/task.go:71-157 | The same of a log of any length with the copy in the part that is read |
| `Lost.ErasedCopyLost` | internal/host/task.go:74-79 | A copy of any document whose lines all stand behind an erased status line can be read but is not found |
| `Lost.FarCopyLost` | internal/host/task.go:74-75 | An intact copy more than 4 MiB before the END line of a damaged newer one is lost, raw markers notwithstanding |
| `Console.AsPrinted` | internal/host/task.go:104-114 | A printed line parses the same behind an erased status line and before any carriage returns |
| `Console.ChunkRoundTrip` | internal/host/task-runner.py:336-347 | A printed chunk line is read back as that chunk |
| `Console.EndRoundTrip` | internal/host/task-runner.py:336-347 | A printed END line is read back as that count and digest |
| `Console.MirroredIsOther` | internal/host/task-runner.py:297-301 | A mirrored line is never read as a result line, whatever the agent printed |
| `Console.SplitJoin` | internal/host/task.go:83-85 | Lines joined by newlines split into the same lines |
| `Codec.GatherChunks` | internal/host/task.go:122-142 | The backward loop fills each slot with the newest text for it, and counts exactly the filled ones |
| `Found.GatherNearest` | internal/host/task.go:122-142 | Of several readable chunks of one index the nearest before the END line is taken, and a slot stays empty exactly if there is none after the END line before |
| `Found.ParsesNewest` | internal/host/task.go:83-102 | Of several readable copies the newest is decoded |
| `Codec.TaskResultCopy` | internal/host/task.go:117-157 | The loop equals the specified decoding of one copy or its failure |
| `Codec.ScanBack` | internal/host/task.go:83-102 | The scan from the last line equals the specified choice of copy and first failure |
| `Codec.Parse` | internal/host/task.go:71-102 | ParseTaskResult equals its specification on any log |
| `Guest.Runner.Add` | internal/host/task-runner.py:297-305 | What is mirrored, counted and remembered of each line |
| `Guest.Runner.Emit` | internal/host/task-runner.py:336-347 | The nested loops print exactly the repeated copies; then the host decodes the document from the console's log, CRLF line ends and any earlier text included |
| `Console.StatusIsOther` | internal/host/task-runner.py:88-89 | The first line of a status is never read as a result line, whatever follows the mark |
| `Guest.Runner.Status` | internal/host/task-runner.py:88-89 | A status puts every line of its message on the console, which stays free of result lines if and only if it was and no line of the message after the first is one |
| `Guest.StatusExactly` | internal/host/task-runner.py:88-89 | The same of the log: it stays free of result lines exactly if every later line of the message parses as none |
| `Guest.RetryDelivers` | internal/host/task-runner.py:145-153 | The status before a retry quotes a failed command; if that printed the lines of a short result, the host decodes it from the status alone, before anything was emitted |
| `Guest.NothingUntilEmitted` | internal/host/task.go:79-82 | While no line before or on the console is a result line the host finds no result in the log: the missing-result failure if the log is within 4 MiB or has no raw END marker, some failure always |
| `Found.QuietFails` | internal/host/task.go:71-102 | A log none of whose lines is a result line yields none, also when the part that is read starts within a line |
| `Guest.EmittedDecodes` | internal/host/task-runner.py:336-347 | After any text and any console lines, and before any text without an END line, what the runner prints last, any number of times, is what ParseTaskResult decodes from the log |
| `Guest.RunnerCopyFits` | internal/host/task-runner.py:52-58 | Every document within the runner's limits on output, patch, diff stat and error, however much must be escaped, makes a copy that the host reads whole |
| `Guest.ConsoleDecodes` | internal/host/task-runner.py:297-347 | A log within 4 MiB in which a console is heard, with erasures, other writers and anything printed before the result, yields the document if and only if some END line follows a newline directly |
| `Guest.ConsoleDecodesFrom` | internal/host/task.go:71-102 | The same of a log of any length whose read part is that |
| `Guest.RecentIsLongest` | internal/host/task-runner.py:302-305 | The remembered output is a suffix, and nothing is forgotten that would still fit |
| `Bound.BoundResult` | internal/host/task.go:167-197 | The loop equals the specified bounding and terminates on every document |
| `Bound.BoundedExactly` | internal/host/task.go:159-197 | What is reported field by field: the last 64 KiB, 4 KiB and 16 KiB of output, error and diff stat; branch, and commit with URL, if they pass their checks; the patch exactly if it is within 384 KiB and the report with it within 900 KiB; truncated exactly if output or patch lost something or it said so |
| `Bound.BoundedIsReportable` | internal/host/task.go:167-197 | Whatever the guest sent, the report is valid, within 900 KiB, tells success exactly when the guest did, and flags what was dropped |
| `Bound.OutputNeverHalved` | internal/host/task.go:185-195 | At the 900 KiB limit dropping the patch always suffices: the output kept is never halved, however much must be escaped |
| `Bound.BoundedTwice` | internal/host/task.go:167-197 | Bounding twice changes nothing more |
| `Bound.BoundedKeeps` | internal/host/task.go:167-197 | A document already within the limits is reported unchanged |

## Left out

- `Provider.Libvirt.Ensure`: the file work between manifest and domain (base image link, disks, seed, console, domain XML) is one step that may fail; image verification, network checks and readiness are one answer that may be no.
- `Provider.Libvirt.Delete`: removing known files one by one is one step, after which the directory is gone.
- `Endings.LeavingEnds`: speaks of task VMs; the stop of a runner VM can be undone by a GitHub event (`Outcomes.StopSurvives`).
- `Agents.Agent.Step`: task reports and image downloads after the commands, certificate renewal and reloading the sequence number after a restart; the runs of `World` allow any sequence number and any task report at any time.
- `Controller.Database.Plan`: the store of plans is a map without the JSON text and its 1 MiB limit.
- `Controller.Database.Approve`: certificates, invitations' secrets and their expiry are one answer, whether the enrollment's invitation still stands.
- `Controller.Database.Sync`: the list of images in the response; rows are visited in insertion order instead of by identifier, so of several refused rows another one may be named.
- `Controller.Database.ReportTask`: `bindResult` rewriting commit and pull-request texts, and progress texts, which are kept as opaque values.
- `Controller.Database.RevokeClient`: the number of cancelled tasks in the reply; `Endings.RevokeExactly` says which they are.
- `Controller.Database.SubmitTask`: the text patterns of a specification (repositories, refs, environment names) are one validity answer with the payload's size.
- `Validate.Validate`: text patterns of names and digests are reduced to being non-empty, and GitHub's own block is one answer.
- `Controller.Database.Enroll`: the checks of the invitation and of the certificate request; a join with the same invitation answers with the stored row.
- `Controller.Database.Allocate`: requests of the GitHub side are drawn at random as 32 hex digits and cannot be the request of a task, which begins with `task:`; the two are separate constructors.
- `Provider.Libvirt.Inventory`: manifests are visited in creation order instead of by name; only which failure comes first can differ.
- `Codec.Parse`: base64, SHA-256 and JSON are given functions; the theorems ask of them only what `Faithful` says at the document in question.
- `Guest.Runner.Add`: the UTF-8 width of a shown line is an argument.
- `Guest.EmittedDecodes`: the node keeps the first 16 MiB of a serial log; the theorem speaks of a log that was kept whole.
- `Bound.BoundResult`: JSON lengths are bounded by escape expansion at six bytes a character, not computed byte by byte.
- `Intake.Adapter.Reconcile`: GitHub's runner lookup, removal and registration are answers that may fail; the request identifier is fresh.
- SQLite, files, locks, HTTP, TLS, certificates and encryption: each transaction is atomic, each file write happens or not, a delivered report comes from its node.
- The image cache, network and firewall checks, cloud-init, consoles, command line, menus and client profiles: they would add members about texts and files, not about the protocol.
- The operator's `vm recover` and manual `virsh` use: the composed runs have only the agent act on the host.
- The runner's git, push and pull-request steps: external processes.
