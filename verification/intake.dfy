/** The GitHub adapter's intake protocol (internal/github/provider.go): no
    runner is provisioned for jobs whose message is not acknowledged yet. */
module Intake {
  import opened Resources
  import opened Model
  import opened Ledger
  import opened State
  import opened Transactions
  import opened Consistency
  import opened Soundness
  import opened Runs
  import opened Lifecycle
  import opened Movement

  /** A scale-set message: statistics, runner events and available jobs. */
  datatype Mail = Mail(id: MessageID, desired: int, events: seq<RunnerEvent>, jobs: seq<int>)

  // ---- acquiredAll ----

  function CountOf(m: map<int, int>, k: int): int {
    if k in m then m[k] else 0
  }

  method CountJobs(got: seq<int>) returns (have: map<int, int>)
    ensures forall k :: CountOf(have, k) == multiset(got)[k]
  {
    have := map[];
    for i := 0 to |got|
      invariant forall k :: CountOf(have, k) == multiset(got[..i])[k]
    {
      assert got[..i + 1] == got[..i] + [got[i]];
      have := have[got[i] := CountOf(have, got[i]) + 1];
    }
    assert got[..|got|] == got;
  }

  /** What is left to match after the first wanted jobs. */
  ghost predicate Matched(have: map<int, int>, want: multiset<int>, got: multiset<int>) {
    forall k :: 0 <= CountOf(have, k) && CountOf(have, k) + want[k] == got[k]
  }

  lemma {:induction false} MatchOne(have: map<int, int>, want: multiset<int>, got: multiset<int>, job: int)
    requires Matched(have, want, got) && CountOf(have, job) != 0
    ensures Matched(have[job := CountOf(have, job) - 1], want + multiset{job}, got)
  {
    var after := have[job := CountOf(have, job) - 1];
    forall k
      ensures 0 <= CountOf(after, k) && CountOf(after, k) + (want + multiset{job})[k] == got[k]
    {
      assert 0 <= CountOf(have, k) && CountOf(have, k) + want[k] == got[k];
    }
  }

  lemma {:induction false} MatchedWithin(have: map<int, int>, want: multiset<int>, got: multiset<int>)
    requires Matched(have, want, got)
    ensures want <= got
  {
    forall k
      ensures want[k] <= got[k]
    {
      assert 0 <= CountOf(have, k) && CountOf(have, k) + want[k] == got[k];
    }
  }

  /** Every wanted job was acquired, as often as wanted. */
  method AcquiredAll(want: seq<int>, got: seq<int>) returns (all: bool)
    ensures all <==> multiset(want) <= multiset(got)
  {
    var have := CountJobs(got);
    for i := 0 to |want|
      invariant Matched(have, multiset(want[..i]), multiset(got))
    {
      assert want[..i + 1] == want[..i] + [want[i]];
      if CountOf(have, want[i]) == 0 {
        assert want == want[..i + 1] + want[i + 1..];
        assert multiset(want)[want[i]] > multiset(want[..i])[want[i]];
        return false;
      }
      MatchOne(have, multiset(want[..i]), multiset(got), want[i]);
      have := have[want[i] := CountOf(have, want[i]) - 1];
    }
    assert want[..|want|] == want;
    MatchedWithin(have, multiset(want), multiset(got));
    return true;
  }

  // ---- The protocol's effects ----

  datatype Ending = Unacquired | AcquireFailed | AckFailed | Acknowledged | Refused | Crashed

  function Fence(s: Store, pool: Key, up: bool): Store {
    SetDemandFlag(s, Intake, pool, up).store
  }

  function Persisted(s: Store, pool: Key, m: Mail, now: int): Outcome<bool> {
    PersistMessage(s, m.id, pool, m.desired, m.events, m.jobs != [], now)
  }

  /** Where handling one message can leave the store, and whether GitHub may
      have been told. A crash may fall between any two effects, and a failed
      acknowledgement may still have reached GitHub. */
  ghost predicate Handled(s: Store, pool: Key, m: Mail, now: int, s': Store, told: bool) {
    var r := Persisted(s, pool, m, now);
    var p := r.store;
    || (s' == s && !told)
    || (r.reply.Ok? && (
          || (s' == p && !told)
          || (m.jobs != [] && s' == Fence(p, pool, true))
          || (s' == p && told)
          || (told && s' == if m.jobs != [] then Fence(p, pool, false) else p)))
  }

  /** How each ending leaves the store: jobs not acquired or a lost answer
      raise the fence, nothing but an answered acknowledgement lowers it, and a
      crash leaves it as it found it, or raised with a message just persisted. */
  predicate EndsAs(s: Store, pool: Key, m: Mail, now: int, ending: Ending, s': Store, told: bool) {
    var r := Persisted(s, pool, m, now);
    var p := r.store;
    match ending
    case Crashed => (s' == s && !told) || (r.reply.Ok? && s' == p)
    case Refused => r.reply.Err? && s' == s && !told
    case Unacquired | AcquireFailed => r.reply.Ok? && m.jobs != [] && s' == Fence(p, pool, true) && !told
    case AckFailed => r.reply.Ok? && s' == if m.jobs != [] then Fence(p, pool, true) else p
    case Acknowledged => r.reply.Ok? && told && s' == if m.jobs != [] then Fence(p, pool, false) else p
  }

  /** The adapter of one pool: the database, and GitHub's queue, whose first
      message is redelivered until it is acknowledged. */
  class Adapter {
    const pool: Pool
    var store: Store
    var queue: seq<Mail>
    /** Crashes, and calls to GitHub that failed or answered nonsense. */
    ghost var failures: nat

    constructor (pool: Pool, store: Store, queue: seq<Mail>)
      ensures this.pool == pool && this.store == store && this.queue == queue
    {
      this.pool := pool;
      this.store := store;
      this.queue := queue;
      failures := 0;
    }

    /** Whether the process or GitHub fails now. */
    method Fails() returns (failed: bool)
      modifies `failures
      ensures failures == old(failures) + if failed then 1 else 0
    {
      failed := *;
      if failed {
        failures := failures + 1;
      }
    }

    /** GitHub's answer to an acknowledgement may be lost either way. */
    method Acknowledge() returns (ok: bool, told: bool)
      modifies `failures
      ensures ok ==> told
      ensures failures >= old(failures) && (!ok ==> failures > old(failures))
    {
      var failed := Fails();
      told := *;
      told := told || !failed;
      ok := !failed;
    }

    /** `acquired` and `got` are GitHub's answer to the acquisition. */
    method PersistThenAcknowledge(now: int, acquired: bool, got: seq<int>) returns (ending: Ending, ghost told: bool)
      requires queue != []
      modifies this
      ensures Handled(old(store), pool.name, old(queue)[0], now, store, told)
      ensures queue == if told then old(queue)[1..] else old(queue)
      ensures told && old(queue)[0].jobs != [] ==> acquired && multiset(old(queue)[0].jobs) <= multiset(got)
      ensures EndsAs(old(store), pool.name, old(queue)[0], now, ending, store, told)
      ensures failures >= old(failures) && (ending == Crashed || ending == AckFailed ==> failures > old(failures))
      ensures ending == AcquireFailed ==> !acquired
      ensures ending == Unacquired ==> !(multiset(old(queue)[0].jobs) <= multiset(got))
    {
      told := false;
      var m := queue[0];
      var failed := Fails();
      if failed {
        return Crashed, false;
      }
      var persisted := Persisted(store, pool.name, m, now);
      if persisted.reply.Err? {
        return Refused, false;
      }
      store := persisted.store;
      failed := Fails();
      if failed {
        return Crashed, false;
      }
      if m.jobs != [] {
        var all := AcquiredAll(m.jobs, got);
        if !acquired || !all {
          failed := Fails();
          if failed {
            return Crashed, false;
          }
          store := Fence(store, pool.name, true);
          return if acquired then Unacquired else AcquireFailed, false;
        }
      }
      var ok, sent := Acknowledge();
      if sent {
        told := true;
        queue := queue[1..];
      }
      if !ok {
        if m.jobs != [] {
          failed := Fails();
          if failed {
            return Crashed, told;
          }
          store := Fence(store, pool.name, true);
        }
        return AckFailed, told;
      }
      failed := Fails();
      if failed {
        return Crashed, told;
      }
      if m.jobs != [] {
        store := Fence(store, pool.name, false);
      }
      return Acknowledged, told;
    }

    // ---- Reconcile ----

    method CountHolding() returns (count: int)
      ensures count == CountPool(store.runs, pool.name)
    {
      count := 0;
      for i := 0 to |store.runs|
        invariant count == CountPool(store.runs[..i], pool.name)
      {
        assert Init(store.runs[..i + 1]) == store.runs[..i];
        if store.runs[i].pool.name == pool.name && !store.runs[i].held.Empty() {
          count := count + 1;
        }
      }
      assert store.runs[..|store.runs|] == store.runs;
    }

    /** One pass of provisioning. `id` and `request` are the random IDs
        drawn; the GitHub API may answer anything. */
    method Reconcile(now: int, id: Key, request: Key) returns (ok: bool)
      requires UniqueInstances(store.runs)
      modifies `store, `failures
      ensures Reconciled(old(store), store, pool, id, request, now, ok)
      ensures failures >= old(failures)
      ensures !ok && failures == old(failures) ==> Allocate(old(store), id, Runner(request), pool.name, now).reply.Err?
    {
      if Dormant(store, pool.name, now) {
        return true;
      }
      var demand := store.demand[pool.name];
      var count := CountHolding();
      if pool.enabled && count < Target(pool, demand) {
        AllocateUnique(store, id, Runner(request), pool.name, now);
        var r := Allocate(store, id, Runner(request), pool.name, now);
        store := r.store;
        if r.reply.Err? {
          return r.reply.fault == NoCapacity;
        }
      }
      ok := Register(now);
    }

    /** Gives one reserved VM its GitHub registration, or stops it once its
        deadline is past. */
    method RegisterOne(i: nat, now: int) returns (ok: bool)
      requires UniqueInstances(store.runs) && i < |store.runs| && Unlisted(store.runs[i], pool.name)
      modifies `store, `failures
      ensures failures >= old(failures) && (!ok ==> failures > old(failures))
      ensures UniqueInstances(store.runs)
      ensures if ok then OneRow(old(store), store, i) && Enlists(old(store).runs[i], store.runs[i], pool.name, now) else store == old(store)
    {
      var a := store.runs[i];
      if now > a.deadline {
        StopEnlists(store, i);
        store := StopInstance(store, a.id).store;
        return true;
      }
      var failed := Fails();
      if failed {
        return false;  // GitHub did not answer, or another runner has the name
      }
      var runnerID: int := *;
      var size: nat := *;
      JITEnlists(store, i, runnerID, size, now);
      var r := SetJIT(store, a.id, runnerID, size, now);
      store := r.store;
      ok := r.reply.Ok?;
      if !ok {
        failures := failures + 1;
      }
    }

    /** Every VM of the pool that awaits its registration. */
    method Register(now: int) returns (ok: bool)
      requires UniqueInstances(store.runs)
      modifies `store, `failures
      ensures failures >= old(failures) && (!ok ==> failures > old(failures))
      ensures Enlisted(old(store), store, pool.name, now, ok)
    {
      ghost var start := store;
      var runs := store.runs;
      for i := 0 to |runs|
        invariant EnlistedUpTo(start, store, pool.name, now, i)
        invariant UniqueInstances(store.runs)
        invariant failures >= old(failures)
      {
        if !Unlisted(runs[i], pool.name) {
          continue;
        }
        ghost var before := store;
        var done := RegisterOne(i, now);
        if !done {
          return false;
        }
        OneMore(start, before, store, pool.name, now, i);
      }
      return true;
    }
  }

  // ---- What Reconcile does to the table ----

  predicate Short(s: Store, p: Pool) {
    p.enabled && p.name in s.demand && CountPool(s.runs, p.name) < Target(p, s.demand[p.name])
  }

  /** One pass: nothing while dormant; otherwise one more VM if the pool is
      short and there is room, and then the registrations. */
  ghost predicate Reconciled(s: Store, s': Store, p: Pool, id: Key, request: Key, now: int, ok: bool) {
    if Dormant(s, p.name, now) then ok && s' == s
    else if !Short(s, p) then Enlisted(s, s', p.name, now, ok)
    else
      var r := Allocate(s, id, Runner(request), p.name, now);
      if r.reply.Ok? then Enlisted(r.store, s', p.name, now, ok) else s' == s && ok == (r.reply.fault == NoCapacity)
  }

  predicate Unlisted(a: Instance, pool: Key) {
    a.pool.name == pool && a.state == Reserved && !a.jitReady
  }

  predicate Enlists(a: Instance, b: Instance, pool: Key, now: int) {
    if !Unlisted(a, pool) then b == a
    else if now > a.deadline then b == a.(state := InstanceState.Stopping)
    else
      && 0 < b.runnerID && 0 < b.jit <= MAX_JIT
      && b == a.(jitReady := true, runnerID := b.runnerID, state := Provisioning, updated := now, jit := b.jit)
  }

  ghost predicate EnlistedUpTo(s: Store, s': Store, pool: Key, now: int, n: nat) {
    && s' == s.(runs := s'.runs) && |s'.runs| == |s.runs| && n <= |s.runs|
    && (forall i | 0 <= i < n :: Enlists(s.runs[i], s'.runs[i], pool, now))
    && (forall i | n <= i < |s.runs| :: s'.runs[i] == s.runs[i])
  }

  /** Row by row in table order, up to the first failure. */
  ghost predicate Enlisted(s: Store, s': Store, pool: Key, now: int, ok: bool) {
    exists n :: EnlistedUpTo(s, s', pool, now, n) && (ok ==> n == |s.runs|)
  }

  ghost predicate OneRow(s: Store, s': Store, i: nat) {
    && s' == s.(runs := s'.runs) && |s'.runs| == |s.runs|
    && forall k | 0 <= k < |s.runs| && k != i :: s'.runs[k] == s.runs[k]
  }

  lemma {:induction false} OneMore(start: Store, before: Store, after: Store, pool: Key, now: int, i: nat)
    requires EnlistedUpTo(start, before, pool, now, i) && OneRow(before, after, i)
    requires i < |start.runs| && Enlists(start.runs[i], after.runs[i], pool, now)
    ensures EnlistedUpTo(start, after, pool, now, i + 1)
  {
  }

  lemma {:induction false} SavedRow(runs: seq<Instance>, i: nat, b: Instance)
    requires UniqueInstances(runs) && i < |runs| && b.id == runs[i].id
    ensures SaveInstance(runs, b) == runs[i := b]
    ensures FindInstance(runs, b.id) == Some(runs[i])
  {
    InstanceAt(runs, i);
    assert forall k | 0 <= k < |runs| && k != i :: runs[k].id != runs[i].id;
  }

  lemma {:induction false} StopEnlists(s: Store, i: nat)
    requires UniqueInstances(s.runs) && i < |s.runs| && s.runs[i].state == Reserved
    ensures var r := StopInstance(s, s.runs[i].id);
            r.reply.Ok? && OneRow(s, r.store, i) && r.store.runs[i] == s.runs[i].(state := InstanceState.Stopping)
  {
    SavedRow(s.runs, i, s.runs[i].(state := InstanceState.Stopping));
  }

  lemma {:induction false} JITEnlists(s: Store, i: nat, runnerID: int, size: nat, now: int)
    requires UniqueInstances(s.runs) && i < |s.runs| && s.runs[i].state == Reserved && !s.runs[i].jitReady
    ensures var a, r := s.runs[i], SetJIT(s, s.runs[i].id, runnerID, size, now);
            if 0 < size <= MAX_JIT && runnerID > 0
            then r.reply.Ok? && OneRow(s, r.store, i)
                 && r.store.runs[i] == a.(jitReady := true, runnerID := runnerID, state := Provisioning, updated := now, jit := size)
            else r.reply.Err? && r.store == s
  {
    SavedRow(s.runs, i, s.runs[i].(jitReady := true, runnerID := runnerID, state := Provisioning, updated := now, jit := size));
  }

  const DEMAND_FRESHNESS := 90 * SECOND

  /** Why Reconcile does nothing at all: no demand known, stale or blocked. */
  predicate Dormant(s: Store, pool: Key, now: int) {
    pool !in s.demand || now - s.demand[pool].seen > DEMAND_FRESHNESS || s.demand[pool].Blocked()
  }

  function Target(p: Pool, d: Demand): int {
    if p.maxRunners < d.desired + p.warmIdle then p.maxRunners else d.desired + p.warmIdle
  }

  lemma {:induction false} AllocateCounts(s: Store, id: Key, request: Request, pool: Key, now: int)
    ensures var runs := Allocate(s, id, request, pool, now).store.runs;
            CountPool(runs, pool) == CountPool(s.runs, pool) || CountPool(runs, pool) == CountPool(s.runs, pool) + 1
  {
    AllocateFrame(s, id, request, pool, now);
    GrownCounts(s.runs, Allocate(s, id, request, pool, now).store.runs, pool);
  }

  lemma {:induction false} GrownCounts(before: seq<Instance>, after: seq<Instance>, pool: Key)
    requires after == before || (|after| == |before| + 1 && after[..|before|] == before)
    ensures CountPool(after, pool) == CountPool(before, pool) || CountPool(after, pool) == CountPool(before, pool) + 1
  {
    assert after != before ==> Init(after) == before;
  }

  lemma {:induction false} SteadyCounts(runs: seq<Instance>, after: seq<Instance>, pool: Key)
    requires SteadyAll(runs, after)
    ensures CountPool(after, pool) == CountPool(runs, pool)
  {
    if runs != [] {
      assert Steady(runs[|runs| - 1], after[|after| - 1]);
      SteadyCounts(Init(runs), Init(after), pool);
    }
  }

  lemma {:induction false} AllocateUnique(s: Store, id: Key, request: Request, pool: Key, now: int)
    requires UniqueInstances(s.runs)
    ensures UniqueInstances(Allocate(s, id, request, pool, now).store.runs)
  {
    FindInstanceSound(s.runs, id);
  }

  lemma {:induction false} EnlistedSteady(s: Store, s': Store, pool: Key, now: int, ok: bool)
    requires Enlisted(s, s', pool, now, ok)
    ensures SteadyAll(s.runs, s'.runs) && RunsOnly(s, s')
    ensures CountPool(s'.runs, pool) == CountPool(s.runs, pool)
  {
    var n :| EnlistedUpTo(s, s', pool, now, n);
    forall i | 0 <= i < |s.runs|
      ensures Steady(s.runs[i], s'.runs[i])
    {
      assert i < n ==> Enlists(s.runs[i], s'.runs[i], pool, now);
    }
    SteadyCounts(s.runs, s'.runs, pool);
  }

  /** A pass of provisioning keeps every invariant of the store. */
  lemma {:induction false} ReconcileSound(s: Store, s': Store, p: Pool, id: Key, request: Key, now: int, ok: bool)
    requires Sound(s) && Reconciled(s, s', p, id, request, now, ok)
    ensures Sound(s')
  {
    var r := if !Dormant(s, p.name, now) && Short(s, p) then Allocate(s, id, Runner(request), p.name, now).store else s;
    assert Sound(r) by {
      AllocateSound(s, id, Runner(request), p.name, now);
    }
    if s' != s {
      EnlistedSteady(r, s', p.name, now, ok);
      RunsSound(r, s');
    }
  }

  /** One pass adds at most one VM, and only below the target. */
  lemma {:induction false} ReconcileBounded(s: Store, s': Store, p: Pool, id: Key, request: Key, now: int, ok: bool)
    requires Reconciled(s, s', p, id, request, now, ok)
    ensures CountPool(s'.runs, p.name) <= CountPool(s.runs, p.name) + if Dormant(s, p.name, now) || !Short(s, p) then 0 else 1
    ensures CountPool(s'.runs, p.name) > CountPool(s.runs, p.name) ==> CountPool(s'.runs, p.name) <= Target(p, s.demand[p.name])
  {
    if !Dormant(s, p.name, now) {
      var r := Allocate(s, id, Runner(request), p.name, now);
      if !Short(s, p) {
        EnlistedSteady(s, s', p.name, now, ok);
      } else if r.reply.Ok? {
        AllocateCounts(s, id, Runner(request), p.name, now);
        EnlistedSteady(r.store, s', p.name, now, ok);
      }
    }
  }

  // ---- The fence ----

  /** One message at a time: only the first may be persisted already, and if
      it brings jobs the pool is fenced. */
  ghost predicate IntakeOK(s: Store, pool: Key, queue: seq<Mail>) {
    && (forall i, j | 0 <= i < j < |queue| :: queue[i].id != queue[j].id)
    && (forall i | 1 <= i < |queue| :: queue[i].id !in s.inbox)
    && (queue != [] && queue[0].jobs != [] && queue[0].id in s.inbox ==> pool in s.demand && s.demand[pool].intake)
  }

  /** What handling a message leaves of the inbox and the fence. */
  lemma {:induction false} HandledEffect(s: Store, pool: Key, m: Mail, now: int, s': Store, told: bool)
    requires pool != NONE && Handled(s, pool, m, now, s', told)
    requires m.jobs != [] && m.id in s.inbox ==> pool in s.demand && s.demand[pool].intake
    ensures s'.inbox.Keys <= s.inbox.Keys + {m.id}
    ensures !told && m.jobs != [] && m.id in s'.inbox ==> pool in s'.demand && s'.demand[pool].intake
  {
    PersistEffect(s, pool, m, now);
  }

  lemma {:induction false} HandledKeeps(s: Store, pool: Key, queue: seq<Mail>, now: int, s': Store, told: bool)
    requires queue != [] && pool != NONE && IntakeOK(s, pool, queue) && Handled(s, pool, queue[0], now, s', told)
    ensures IntakeOK(s', pool, if told then queue[1..] else queue)
  {
    HandledEffect(s, pool, queue[0], now, s', told);
    forall i | 1 <= i < |queue|
      ensures queue[i].id !in s'.inbox
    {
      assert queue[0].id != queue[i].id;
      assert queue[i].id !in s.inbox.Keys + {queue[0].id};
    }
  }

  lemma {:induction false} PersistEffect(s: Store, pool: Key, m: Mail, now: int)
    ensures var p := Persisted(s, pool, m, now);
            && (p.store == s || p.store.inbox == s.inbox[m.id := Message(pool, m.desired, m.events)])
            && (p.reply.Ok? ==> m.id in p.store.inbox)
            && (p.reply.Ok? && m.id !in s.inbox ==> pool in p.store.demand && (m.jobs != [] ==> p.store.demand[pool].intake))
            && (m.id in s.inbox ==> p.store == s)
  {
  }

  /** What everything else must leave alone. */
  predicate Bystander(op: Op, pool: Key, queue: seq<Mail>) {
    && (op.DoFlag? ==> op.flag == Barrier || op.pool != pool)
    && (op.DoPersist? ==> forall i | 0 <= i < |queue| :: queue[i].id != op.message)
  }

  ghost predicate FenceStays(s: Store, s': Store, pool: Key) {
    pool in s.demand && s.demand[pool].intake ==> pool in s'.demand && s'.demand[pool].intake
  }

  lemma {:induction false} DemandStays(s: Store, op: Op, now: int, pool: Key)
    requires op.DoRefresh? || op.DoFlag? || op.DoPersist?
    requires op.DoFlag? ==> op.flag == Barrier || op.pool != pool
    ensures FenceStays(s, Step(s, op, now), pool)
    ensures op.DoPersist? || Step(s, op, now).inbox == s.inbox
    ensures Step(s, op, now).inbox.Keys <= s.inbox.Keys + if op.DoPersist? then {op.message} else {}
  {
  }

  ghost predicate SameDesk(s: Store, s': Store) {
    s'.demand == s.demand && s'.inbox == s.inbox
  }

  lemma {:induction false} ConfigStays(s: Store, op: Op, now: int)
    requires ByConfig(op)
    ensures SameDesk(s, Step(s, op, now))
  {
    match op
    case DoPlan(id, c) => PlanFrame(s, id, c, now);
    case DoApply(id) => ApplyStays(s, id, now);
    case DoApprove(id, invited) => ApproveStays(s, id, invited);
  }

  lemma {:induction false} ApplyStays(s: Store, id: Key, now: int)
    ensures SameDesk(s, Apply(s, id, now).store)
  {
  }

  lemma {:induction false} ApproveStays(s: Store, id: Key, invited: bool)
    ensures SameDesk(s, Approve(s, id, invited).store)
  {
  }

  lemma {:induction false} RunStays(s: Store, op: Op, now: int)
    requires op.DoAllocate? || op.DoSetJIT? || op.DoStop?
    ensures SameDesk(s, Step(s, op, now))
  {
    match op
    case DoAllocate(id, request, pool) => AllocateFrame(s, id, Runner(request), pool, now);
    case DoSetJIT(id, runnerID, size) => JITStays(s, id, runnerID, size, now);
    case DoStop(id) => JITStays(s, id, 0, 0, now);
  }

  lemma {:induction false} JITStays(s: Store, id: Key, runnerID: int, size: nat, now: int)
    ensures SameDesk(s, SetJIT(s, id, runnerID, size, now).store)
    ensures SameDesk(s, StopInstance(s, id).store)
  {
  }

  lemma {:induction false} AsideStays(s: Store, op: Op, now: int)
    requires op.DoEnroll? || op.DoDrain? || op.DoApproveClient?
    ensures SameDesk(s, Step(s, op, now))
  {
  }

  lemma {:induction false} SubmitStays(s: Store, client: Key, spec: TaskSpec, id: Key, instanceID: Key, now: int)
    ensures SameDesk(s, Submit(s, client, spec, id, instanceID, now).store)
  {
    var s' := Submit(s, client, spec, id, instanceID, now).store;
    if s' != s {
      assert s' == SubmitNew(s, NewTask(client, spec, id, now), instanceID, now).store;
      NewFrame(s, NewTask(client, spec, id, now), instanceID, now);
    }
  }

  lemma {:induction false} CancelStays(s: Store, client: Key, id: Key, now: int)
    ensures SameDesk(s, CancelTask(s, client, id, now).store)
  {
  }

  lemma {:induction false} ReportStays(s: Store, node: Key, id: Key, r: TaskReport, now: int)
    ensures SameDesk(s, ReportTask(s, node, id, r, now).store)
  {
    if ReportTask(s, node, id, r, now).store != s {
      var u := ReportFrame(s, node, id, r, now);
    }
  }

  lemma {:induction false} DispatchStays(s: Store, draw: Key -> Key, now: int)
    ensures SameDesk(s, DispatchTasks(s, draw, now).store)
  {
  }

  lemma {:induction false} ClientStays(s: Store, op: Op, now: int)
    requires ByClient(op)
    ensures SameDesk(s, Step(s, op, now))
  {
    match op
    case DoSubmit(client, spec, id, instanceID) => SubmitStays(s, client, spec, id, instanceID, now);
    case DoDispatch(draw) => DispatchStays(s, draw, now);
    case DoCancel(client, id) => CancelStays(s, client, id, now);
    case DoRevoke(client) =>
    case DoReport(node, id, r) => ReportStays(s, node, id, r, now);
  }

  lemma {:induction false} SyncStays(s: Store, op: Op, now: int, pool: Key)
    requires op.DoSync?
    ensures FenceStays(s, Step(s, op, now), pool) && Step(s, op, now).inbox == s.inbox
  {
    SyncFrame(s, op.node, op.observation, now);
  }

  /** No other transaction takes the fence down, whichever pools' messages,
      refreshes, reports and placements it may be. */
  lemma {:induction false} BystanderKeeps(s: Store, pool: Key, queue: seq<Mail>, op: Op, now: int)
    requires IntakeOK(s, pool, queue) && Bystander(op, pool, queue)
    ensures IntakeOK(Step(s, op, now), pool, queue)
  {
    var s' := Step(s, op, now);
    assert FenceStays(s, s', pool) && s'.inbox.Keys <= s.inbox.Keys + (if op.DoPersist? then {op.message} else {}) by {
      if op.DoRefresh? || op.DoFlag? || op.DoPersist? {
        DemandStays(s, op, now, pool);
      } else if ByClient(op) {
        ClientStays(s, op, now);
      } else if op.DoSync? {
        SyncStays(s, op, now, pool);
      } else if ByConfig(op) {
        ConfigStays(s, op, now);
      } else if op.DoAllocate? || op.DoSetJIT? || op.DoStop? {
        RunStays(s, op, now);
      } else {
        AsideStays(s, op, now);
      }
    }
    forall i | 0 <= i < |queue| && queue[i].id in s'.inbox
      ensures queue[i].id in s.inbox
    {
      assert queue[i].id in s'.inbox.Keys;
    }
  }

  // ---- Runs ----

  datatype Turn =
    | Handling(now: int, mail: Mail, after: Store, told: bool, ending: Ending)
    | Elsewhere(op: Op, now: int)
    | Arrival(mail: Mail)
    | NewSession(mails: seq<Mail>)

  datatype Desk = Desk(store: Store, queue: seq<Mail>)

  ghost predicate Unseen(s: Store, mails: seq<Mail>) {
    && (forall i | 0 <= i < |mails| :: mails[i].id !in s.inbox)
    && (forall i, j | 0 <= i < j < |mails| :: mails[i].id != mails[j].id)
  }

  /** A new session drops what the old one still had to deliver; its messages
      are new ones. */
  ghost predicate Turned(pool: Key, d: Desk, t: Turn, d': Desk) {
    match t
    case Handling(now, m, s', told, ending) =>
      && d.queue != [] && m == d.queue[0]
      && Handled(d.store, pool, m, now, s', told) && EndsAs(d.store, pool, m, now, ending, s', told)
      && d' == Desk(s', if told then d.queue[1..] else d.queue)
    case Elsewhere(op, now) => Bystander(op, pool, d.queue) && d' == d.(store := Step(d.store, op, now))
    case Arrival(m) =>
      m.id !in d.store.inbox && (forall i | 0 <= i < |d.queue| :: d.queue[i].id != m.id) && d' == d.(queue := d.queue + [m])
    case NewSession(mails) => Unseen(d.store, mails) && d' == d.(queue := mails)
  }

  /** From any state without unfinished messages, by any turns. */
  ghost predicate DeskRun(pool: Key, ds: seq<Desk>, ts: seq<Turn>) {
    && |ds| == |ts| + 1 && ds[0].queue == []
    && forall i | 0 <= i < |ts| :: Turned(pool, ds[i], ts[i], ds[i + 1])
  }

  lemma {:induction false} AlwaysIntakeOK(pool: Key, ds: seq<Desk>, ts: seq<Turn>, n: nat)
    requires pool != NONE && DeskRun(pool, ds, ts) && n < |ds|
    ensures IntakeOK(ds[n].store, pool, ds[n].queue)
  {
    if n > 0 {
      AlwaysIntakeOK(pool, ds, ts, n - 1);
      assert Turned(pool, ds[n - 1], ts[n - 1], ds[n]);
      TurnKeeps(pool, ds[n - 1], ts[n - 1], ds[n]);
    }
  }

  lemma {:induction false} TurnKeeps(pool: Key, d: Desk, t: Turn, d': Desk)
    requires pool != NONE && IntakeOK(d.store, pool, d.queue) && Turned(pool, d, t, d')
    ensures IntakeOK(d'.store, pool, d'.queue)
  {
    match t
    case Handling(now, m, s', told, ending) => HandledKeeps(d.store, pool, d.queue, now, s', told);
    case Elsewhere(op, now) => BystanderKeeps(d.store, pool, d.queue, op, now);
    case Arrival(m) =>
    case NewSession(mails) =>
  }

  /** While a message with available jobs is persisted but unacknowledged, the
      pool stays blocked, through crashes, refreshes and everything else; so
      Reconcile does nothing for it, at any time. */
  lemma {:induction false} UnacknowledgedBlocks(pool: Key, ds: seq<Desk>, ts: seq<Turn>, n: nat, now: int)
    requires pool != NONE && DeskRun(pool, ds, ts) && n < |ds|
    requires ds[n].queue != [] && ds[n].queue[0].jobs != [] && ds[n].queue[0].id in ds[n].store.inbox
    ensures Dormant(ds[n].store, pool, now)
  {
    AlwaysIntakeOK(pool, ds, ts, n);
  }

  /** Handling a message again changes nothing: a replay after a crash finds
      demand, events and fence as they were left. */
  lemma {:induction false} ReplayChangesNothing(s: Store, pool: Key, m: Mail, now: int, again: int)
    requires Persisted(s, pool, m, now).reply.Ok?
    ensures Persisted(Persisted(s, pool, m, now).store, pool, m, again) == Outcome(Persisted(s, pool, m, now).store, Ok(false))
  {
  }

  // ---- When exactly the fence is up ----

  ghost predicate Fenced(s: Store, pool: Key) {
    pool in s.demand && s.demand[pool].intake
  }

  /** The first message brings jobs and is persisted. */
  ghost predicate Unacknowledged(d: Desk) {
    d.queue != [] && d.queue[0].jobs != [] && d.queue[0].id in d.store.inbox
  }

  /** Only messages of the queue announce jobs for the pool: the statistics a
      new session starts with do not. */
  predicate Aloof(t: Turn, pool: Key) {
    t.Elsewhere? && t.op.DoPersist? && t.op.pool == pool ==> !t.op.hold
  }

  /** Whether the last persisted message with jobs to leave the queue left it
      otherwise than by an answered acknowledgement. */
  ghost function LeftOpen(pool: Key, ds: seq<Desk>, ts: seq<Turn>, n: nat): bool
    requires n <= |ts| && |ds| == |ts| + 1
  {
    if n == 0 then Fenced(ds[0].store, pool) else OpenAfter(ds[n - 1], ts[n - 1], LeftOpen(pool, ds, ts, n - 1))
  }

  ghost predicate OpenAfter(d: Desk, t: Turn, open: bool) {
    match t
    case Handling(_, m, _, told, ending) => if told && m.jobs != [] then ending != Acknowledged else open
    case NewSession(_) => Unacknowledged(d) || open
    case _ => open
  }

  ghost predicate InboxGrows(s: Store, s': Store, op: Op) {
    s.inbox.Keys <= s'.inbox.Keys <= s.inbox.Keys + if op.DoPersist? then {op.message} else {}
  }

  lemma {:induction false} RefreshSame(s: Store, pool: Key, other: Key, desired: int, now: int)
    ensures var s' := RefreshDemand(s, other, desired, now).store; s'.inbox == s.inbox && (Fenced(s', pool) <==> Fenced(s, pool))
  {
  }

  lemma {:induction false} FlagSame(s: Store, pool: Key, flag: Flag, other: Key, blocked: bool)
    requires flag == Barrier || other != pool
    ensures var s' := SetDemandFlag(s, flag, other, blocked).store; s'.inbox == s.inbox && (Fenced(s', pool) <==> Fenced(s, pool))
  {
  }

  lemma {:induction false} PersistSame(s: Store, pool: Key, m: MessageID, other: Key, desired: int, events: seq<RunnerEvent>, hold: bool, now: int)
    requires other == pool ==> !hold
    ensures var s' := PersistMessage(s, m, other, desired, events, hold, now).store;
            && s.inbox.Keys <= s'.inbox.Keys <= s.inbox.Keys + {m}
            && (Fenced(s', pool) <==> Fenced(s, pool))
  {
  }

  lemma {:induction false} DemandSame(s: Store, op: Op, now: int, pool: Key)
    requires op.DoRefresh? || op.DoFlag? || op.DoPersist?
    requires op.DoFlag? ==> op.flag == Barrier || op.pool != pool
    requires op.DoPersist? && op.pool == pool ==> !op.hold
    ensures Fenced(Step(s, op, now), pool) <==> Fenced(s, pool)
    ensures InboxGrows(s, Step(s, op, now), op)
  {
    match op
    case DoRefresh(other, desired) => RefreshSame(s, pool, other, desired, now);
    case DoFlag(flag, other, blocked) => FlagSame(s, pool, flag, other, blocked);
    case DoPersist(m, other, desired, events, hold) => PersistSame(s, pool, m, other, desired, events, hold, now);
  }

  lemma {:induction false} SyncSame(s: Store, op: Op, now: int, pool: Key)
    requires op.DoSync?
    ensures Fenced(Step(s, op, now), pool) <==> Fenced(s, pool)
    ensures Step(s, op, now).inbox == s.inbox
  {
    SyncFrame(s, op.node, op.observation, now);
  }

  lemma {:induction false} BystanderSame(s: Store, pool: Key, queue: seq<Mail>, op: Op, now: int)
    requires Bystander(op, pool, queue) && Aloof(Elsewhere(op, now), pool)
    ensures Fenced(Step(s, op, now), pool) <==> Fenced(s, pool)
    ensures InboxGrows(s, Step(s, op, now), op)
  {
    if op.DoRefresh? || op.DoFlag? || op.DoPersist? {
      DemandSame(s, op, now, pool);
    } else if ByClient(op) {
      ClientStays(s, op, now);
    } else if op.DoSync? {
      SyncSame(s, op, now, pool);
    } else if ByConfig(op) {
      ConfigStays(s, op, now);
    } else if op.DoAllocate? || op.DoSetJIT? || op.DoStop? {
      RunStays(s, op, now);
    } else {
      AsideStays(s, op, now);
    }
  }

  lemma {:induction false} PersistFence(s: Store, pool: Key, m: Mail, now: int)
    requires pool != NONE && Persisted(s, pool, m, now).reply.Ok?
    ensures var p := Persisted(s, pool, m, now).store;
            && m.id in p.inbox && p.inbox.Keys == s.inbox.Keys + {m.id}
            && (Fenced(p, pool) <==> Fenced(s, pool) || (m.jobs != [] && m.id !in s.inbox))
  {
  }

  lemma {:induction false} FenceSets(p: Store, pool: Key, up: bool)
    requires pool != NONE
    ensures Fence(p, pool, up).inbox == p.inbox
    ensures Fenced(Fence(p, pool, up), pool) <==> if pool in p.demand then up else false
  {
  }

  /** What handling a message with jobs makes of the fence, by its ending. */
  lemma {:induction false} HandledFence(s: Store, pool: Key, m: Mail, now: int, s': Store, told: bool, ending: Ending)
    requires pool != NONE && m.jobs != [] && Handled(s, pool, m, now, s', told) && EndsAs(s, pool, m, now, ending, s', told)
    requires m.id in s.inbox ==> Fenced(s, pool)
    ensures told ==> (Fenced(s', pool) <==> ending != Acknowledged)
    ensures !told ==> (Fenced(s', pool) <==> Fenced(s, pool) || m.id in s'.inbox)
  {
    if s' != s || told {
      var p := Persisted(s, pool, m, now).store;
      PersistFence(s, pool, m, now);
      FenceSets(p, pool, true);
      FenceSets(p, pool, false);
    }
  }

  lemma {:induction false} HandledIdle(s: Store, pool: Key, m: Mail, now: int, s': Store, told: bool)
    requires pool != NONE && m.jobs == [] && Handled(s, pool, m, now, s', told)
    ensures Fenced(s', pool) <==> Fenced(s, pool)
  {
    if s' != s {
      PersistFence(s, pool, m, now);
    }
  }

  lemma {:induction false} HandlingExactly(pool: Key, d: Desk, t: Turn, d': Desk, open: bool)
    requires pool != NONE && IntakeOK(d.store, pool, d.queue) && Turned(pool, d, t, d') && t.Handling?
    requires Fenced(d.store, pool) <==> Unacknowledged(d) || open
    ensures Fenced(d'.store, pool) <==> Unacknowledged(d') || OpenAfter(d, t, open)
  {
    var m := t.mail;
    assert IntakeOK(d'.store, pool, d'.queue) by {
      TurnKeeps(pool, d, t, d');
    }
    if m.jobs == [] {
      HandledIdle(d.store, pool, m, t.now, t.after, t.told);
    } else {
      HandledFence(d.store, pool, m, t.now, t.after, t.told, t.ending);
    }
    if t.told {
      TakenUnseen(pool, d, t, d');
    }
  }

  lemma {:induction false} TakenUnseen(pool: Key, d: Desk, t: Turn, d': Desk)
    requires pool != NONE && IntakeOK(d.store, pool, d.queue) && Turned(pool, d, t, d') && t.Handling? && t.told
    ensures !Unacknowledged(d')
  {
    HandledEffect(d.store, pool, t.mail, t.now, t.after, t.told);
    if d'.queue != [] {
      assert d'.queue[0] == d.queue[1] && d.queue[0].id != d.queue[1].id;
    }
  }

  lemma {:induction false} TurnExactly(pool: Key, d: Desk, t: Turn, d': Desk, open: bool)
    requires pool != NONE && IntakeOK(d.store, pool, d.queue) && Turned(pool, d, t, d') && Aloof(t, pool)
    requires Fenced(d.store, pool) <==> Unacknowledged(d) || open
    ensures Fenced(d'.store, pool) <==> Unacknowledged(d') || OpenAfter(d, t, open)
  {
    match t
    case Handling(_, _, _, _, _) => HandlingExactly(pool, d, t, d', open);
    case Elsewhere(op, now) =>
      BystanderSame(d.store, pool, d.queue, op, now);
      if d.queue != [] {
        assert d.queue[0].id in d'.store.inbox.Keys <==> d.queue[0].id in d.store.inbox.Keys;
      }
    case Arrival(m) =>
    case NewSession(mails) =>
  }

  /** The first n turns of a run, one after another. */
  ghost predicate AloofRun(pool: Key, ds: seq<Desk>, ts: seq<Turn>, n: nat)
    requires n <= |ts| && |ds| == |ts| + 1
  {
    n == 0 || (AloofRun(pool, ds, ts, n - 1) && Turned(pool, ds[n - 1], ts[n - 1], ds[n]) && Aloof(ts[n - 1], pool))
  }

  lemma {:induction false} RunIsAloof(pool: Key, ds: seq<Desk>, ts: seq<Turn>, n: nat)
    requires DeskRun(pool, ds, ts) && n <= |ts| && forall i | 0 <= i < |ts| :: Aloof(ts[i], pool)
    ensures AloofRun(pool, ds, ts, n) && ds[0].queue == []
  {
    if n > 0 {
      RunIsAloof(pool, ds, ts, n - 1);
      assert Turned(pool, ds[n - 1], ts[n - 1], ds[n]);
    }
  }

  lemma {:induction false} FenceFollows(pool: Key, ds: seq<Desk>, ts: seq<Turn>, n: nat)
    requires pool != NONE && n <= |ts| && |ds| == |ts| + 1 && ds[0].queue == [] && AloofRun(pool, ds, ts, n)
    ensures IntakeOK(ds[n].store, pool, ds[n].queue)
    ensures Fenced(ds[n].store, pool) <==> Unacknowledged(ds[n]) || LeftOpen(pool, ds, ts, n)
  {
    if n > 0 {
      FenceFollows(pool, ds, ts, n - 1);
      TurnKeeps(pool, ds[n - 1], ts[n - 1], ds[n]);
      TurnExactly(pool, ds[n - 1], ts[n - 1], ds[n], LeftOpen(pool, ds, ts, n - 1));
    }
  }

  /** In every run the fence is up if and only if the first message awaits its
      acknowledgement, or the last one with jobs to leave the queue left
      without an answered acknowledgement: its answer was lost, the agent
      crashed before lowering the fence, or its session ended. */
  lemma {:induction false} FenceExactly(pool: Key, ds: seq<Desk>, ts: seq<Turn>, n: nat)
    requires pool != NONE && DeskRun(pool, ds, ts) && n <= |ts|
    requires forall i | 0 <= i < |ts| :: Aloof(ts[i], pool)
    ensures Fenced(ds[n].store, pool) <==> Unacknowledged(ds[n]) || LeftOpen(pool, ds, ts, n)
  {
    RunIsAloof(pool, ds, ts, n);
    FenceFollows(pool, ds, ts, n);
  }

  predicate TakesJobs(t: Turn) {
    (t.Handling? && t.mail.jobs != []) || t.NewSession?
  }

  /** An answered acknowledgement of a message with jobs lowers the fence,
      whatever raised it, and it stays down until the next such message. */
  lemma {:induction false} AcknowledgedLowers(pool: Key, ds: seq<Desk>, ts: seq<Turn>, k: nat, n: nat)
    requires pool != NONE && DeskRun(pool, ds, ts) && k < n <= |ts|
    requires forall i | 0 <= i < |ts| :: Aloof(ts[i], pool)
    requires ts[k].Handling? && ts[k].mail.jobs != [] && ts[k].ending == Acknowledged
    requires forall i | k < i < n :: !TakesJobs(ts[i])
    ensures !Fenced(ds[n].store, pool) && !Unacknowledged(ds[n])
  {
    RunIsAloof(pool, ds, ts, n);
    FenceFollows(pool, ds, ts, n);
    StaysDown(pool, ds, ts, k, n);
  }

  lemma {:induction false} StaysDown(pool: Key, ds: seq<Desk>, ts: seq<Turn>, k: nat, n: nat)
    requires pool != NONE && k < n <= |ts| && |ds| == |ts| + 1 && ds[0].queue == [] && AloofRun(pool, ds, ts, n)
    requires ts[k].Handling? && ts[k].mail.jobs != [] && ts[k].ending == Acknowledged
    requires forall i | k < i < n :: !TakesJobs(ts[i])
    ensures !Unacknowledged(ds[n]) && !LeftOpen(pool, ds, ts, n)
  {
    FenceFollows(pool, ds, ts, n - 1);
    if n == k + 1 {
      TakenUnseen(pool, ds[k], ts[k], ds[n]);
    } else {
      StaysDown(pool, ds, ts, k, n - 1);
      QuietTurn(pool, ds[n - 1], ts[n - 1], ds[n]);
      assert !TakesJobs(ts[n - 1]);
    }
  }

  lemma {:induction false} QuietTurn(pool: Key, d: Desk, t: Turn, d': Desk)
    requires pool != NONE && IntakeOK(d.store, pool, d.queue) && Turned(pool, d, t, d') && Aloof(t, pool)
    requires !TakesJobs(t) && !Unacknowledged(d)
    ensures !Unacknowledged(d')
  {
    match t
    case Handling(_, _, _, _, _) =>
      if t.told {
        TakenUnseen(pool, d, t, d');
      }
    case Elsewhere(op, now) =>
      BystanderSame(d.store, pool, d.queue, op, now);
      if d.queue != [] {
        assert d.queue[0].id in d'.store.inbox.Keys <==> d.queue[0].id in d.store.inbox.Keys;
      }
    case Arrival(m) =>
  }

  /** Both a crash after the acknowledgement and a lost answer to it leave the
      pool dormant at any time, with nothing to redeliver. */
  lemma {:induction false} FenceOutlives(s: Store, pool: Key, m: Mail, now: int, ending: Ending, later: int)
    requires pool != NONE && m.jobs != [] && m.id !in s.inbox && Persisted(s, pool, m, now).reply.Ok?
    requires ending == Crashed || ending == AckFailed
    ensures var p := Persisted(s, pool, m, now).store;
            var after := if ending == Crashed then p else Fence(p, pool, true);
            && DeskRun(pool, [Desk(s, []), Desk(s, [m]), Desk(after, [])], [Arrival(m), Handling(now, m, after, true, ending)])
            && Dormant(after, pool, later)
  {
    var p := Persisted(s, pool, m, now).store;
    var after := if ending == Crashed then p else Fence(p, pool, true);
    PersistFence(s, pool, m, now);
    FenceSets(p, pool, true);
    var ds, ts := [Desk(s, []), Desk(s, [m]), Desk(after, [])], [Arrival(m), Handling(now, m, after, true, ending)];
    assert [] + [m] == [m] && [m][1..] == [];
    forall i | 0 <= i < |ts|
      ensures Turned(pool, ds[i], ts[i], ds[i + 1])
    {
      assert i == 0 || i == 1;
    }
  }
}
