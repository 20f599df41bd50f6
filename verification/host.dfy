/** The host agent's VM provider (internal/host/provider.go): durable
    manifests, libvirt domains and disk directories, and what each operation
    may do to them when any effect may fail, the agent may crash between any
    two effects, and guests may power off at any time. */
module Hosting {
  import opened Resources
  import opened Model

  // ---- Durable state ----

  datatype Phase = PhasePrepared | PhaseStartIssued | PhaseRunning | PhaseStopped | PhaseDeleted

  function PhaseRank(p: Phase): nat {
    match p
    case PhasePrepared => 0
    case PhaseStartIssued => 1
    case PhaseRunning => 2
    case PhaseStopped => 3
    case PhaseDeleted => 4
  }

  /** One manifest file. `secret` is the digest of the content the VM was
      created for; a manifest that only certifies a stop has none. */
  datatype Manifest = Manifest(instance: Instance, phase: Phase, secret: Key, diagnostic: bool, task: bool)

  /** `files` lists the manifest directory; `domains` says of each defined
      domain whether it runs; `dirs` are the VM disk directories; `started`
      counts every `virsh start` ever issued. */
  datatype Host = Host(manifests: map<Key, Manifest>, files: seq<Key>, domains: map<Key, bool>, dirs: set<Key>, started: multiset<Key>)

  datatype Policy = Policy(node: Key, ceiling: Resources)

  /** What a caller of an operation learns: it finished, a check refused it,
      or an effect or a query failed. */
  datatype Effect = Done | Refused | Faulted

  predicate IsUp(h: Host, id: Key) {
    id in h.domains && h.domains[id]
  }

  predicate PhaseAtLeast(h: Host, id: Key, p: Phase) {
    id in h.manifests && PhaseRank(p) <= PhaseRank(h.manifests[id].phase)
  }

  /** Every manifest file bears its instance's ID. */
  predicate Named(manifests: map<Key, Manifest>) {
    forall id | id in manifests :: manifests[id].instance.id == id
  }

  // ---- The environment ----

  /** Guests may power off; nothing else changes by itself. */
  predicate Fades(before: map<Key, bool>, after: map<Key, bool>) {
    && after.Keys == before.Keys
    && forall id | id in before :: after[id] ==> before[id]
  }

  /** Nothing but one VM changes, guests aside. */
  ghost predicate OnlyAt(h: Host, h': Host, id: Key) {
    && (forall k | k != id :: k in h'.manifests <==> k in h.manifests)
    && (forall k | k != id && k in h.manifests :: h'.manifests[k] == h.manifests[k])
    && (forall k | k != id :: k in h'.domains <==> k in h.domains)
    && (forall k | k != id && k in h.domains :: h'.domains[k] ==> h.domains[k])
    && (forall k | k != id :: k in h'.dirs <==> k in h.dirs)
    && (forall k | k != id :: h'.started[k] == h.started[k])
    && h'.files == (if id in h'.manifests && id !in h.manifests then h.files + [id] else h.files)
  }

  ghost predicate Untouched(h: Host, h': Host) {
    h'.manifests == h.manifests && h'.files == h.files && Fades(h.domains, h'.domains) && h'.dirs == h.dirs && h'.started == h.started
  }

  // ---- What may be created ----

  datatype Workload = RunnerJob | TaskJob | DiagnosticJob

  /** The guest workload: the digest and length of its secret document. */
  datatype Job = Job(secret: Key, size: nat, kind: Workload)

  const MINIMUM_TASK_TIME := 10 * MINUTE

  function SecretLimit(kind: Workload): nat {
    if kind == TaskJob then 524288 + 4096 else 131072
  }

  predicate WithinPolicy(policy: Policy, a: Instance, w: Job) {
    && ValidInstance(a)
    && a.node == policy.node && a.pool.Charge().Fits(policy.ceiling)
    && w.secret != NONE && 0 < w.size <= SecretLimit(w.kind)
    && a.image.minimumRootGiB <= a.pool.rootGiB
  }

  predicate SameRequest(m: Manifest, a: Instance, w: Job) {
    && m.instance.pool == a.pool && m.instance.image.digest == a.image.digest && m.instance.node == a.node
    && m.secret == w.secret && m.diagnostic == (w.kind == DiagnosticJob) && m.task == (w.kind == TaskJob)
    && m.instance.task == a.task
  }

  // ---- The local ledger ----

  /** What another VM's manifest sets aside when a new VM is admitted. */
  function SetAside(m: Manifest): Resources {
    match m.phase
    case PhaseDeleted => ZERO
    case PhaseStopped => m.instance.pool.Charge().DiskPart()
    case _ => m.instance.pool.Charge()
  }

  function UsedOf(files: seq<Key>, manifests: map<Key, Manifest>, skip: Key, k: Kind): int {
    if files == [] then 0
    else
      var id := files[|files| - 1];
      UsedOf(files[..|files| - 1], manifests, skip, k)
        + if id == skip || id !in manifests then 0 else SetAside(manifests[id]).Of(k)
  }

  function Used(h: Host, skip: Key): Resources {
    Resources(UsedOf(h.files, h.manifests, skip, CPU), UsedOf(h.files, h.manifests, skip, Memory), UsedOf(h.files, h.manifests, skip, Disk))
  }

  predicate Affordable(policy: Policy, h: Host, a: Instance) {
    Used(h, a.id).Add(a.pool.Charge()).Fits(policy.ceiling)
  }

  // ---- ensure ----

  function NewManifest(a: Instance, w: Job, phase: Phase): Manifest {
    Manifest(a, phase, w.secret, w.kind == DiagnosticJob, w.kind == TaskJob)
  }

  /** A manifest that was started earlier is looked at, never started again. */
  ghost predicate Revisited(h: Host, h': Host, id: Key, r: Effect) {
    && OnlyAt(h, h', id)
    && id in h.manifests && id in h'.manifests
    && (h.manifests[id].phase == PhaseStartIssued || h.manifests[id].phase == PhaseRunning)
    && h'.started == h.started && h'.dirs == h.dirs && Fades(h.domains, h'.domains)
    && ((h'.manifests[id] == h.manifests[id].(phase := PhaseRunning) && IsUp(h, id))
        || (h'.manifests[id] == h.manifests[id].(phase := PhaseStopped) && !IsUp(h', id)))
    && r == Done
  }

  /** A VM is provisioned, as far as the effects went. */
  ghost predicate Provisioned(policy: Policy, h: Host, h': Host, a: Instance, w: Job, r: Effect) {
    && OnlyAt(h, h', a.id)
    && (a.id in h.manifests ==> h.manifests[a.id].phase == PhasePrepared && SameRequest(h.manifests[a.id], a, w))
    && Affordable(policy, h, a)
    && a.id in h'.manifests
    && var p := h'.manifests[a.id].phase;
       && h'.manifests[a.id] == NewManifest(a, w, p) && PhaseRank(p) <= PhaseRank(PhaseRunning)
       && (a.id in h.dirs ==> a.id in h'.dirs)
       && (p != PhasePrepared ==> a.id in h'.dirs)
       && (h'.started[a.id] == h.started[a.id]
           || (h'.started[a.id] == h.started[a.id] + 1 && p != PhasePrepared))
       && (IsUp(h', a.id) ==> IsUp(h, a.id) || (h'.started[a.id] == h.started[a.id] + 1 && a.id in h'.dirs))
       && (r == Done ==> p == PhaseRunning && h'.started[a.id] == h.started[a.id] + 1)
       && (r == Refused ==> IsUp(h, a.id))
  }

  /** Why ensure declines before any effect. */
  predicate Unacceptable(policy: Policy, h: Host, a: Instance, w: Job, now: int, freeGiB: int) {
    || !WithinPolicy(policy, a, w)
    || (a.id in h.manifests && !SameRequest(h.manifests[a.id], a, w))
    || a.deadline <= now || (w.kind == TaskJob && a.deadline - now < MINIMUM_TASK_TIME)
    || !Affordable(policy, h, a)
    || freeGiB < Used(h, a.id).disk + a.pool.Charge().disk + 2
  }

  ghost predicate Ensures(policy: Policy, h: Host, h': Host, a: Instance, w: Job, now: int, freeGiB: int, r: Effect) {
    || (Untouched(h, h')
        && (r == Done ==> a.id in h.manifests && SameRequest(h.manifests[a.id], a, w) && PhaseRank(PhaseStopped) <= PhaseRank(h.manifests[a.id].phase))
        && (r == Refused ==> Unacceptable(policy, h, a, w, now, freeGiB)))
    || (WithinPolicy(policy, a, w) && Revisited(h, h', a.id, r))
    || (WithinPolicy(policy, a, w) && now < a.deadline && (w.kind == TaskJob ==> MINIMUM_TASK_TIME <= a.deadline - now)
        && Used(h, a.id).disk + a.pool.Charge().disk + 2 <= freeGiB
        && Provisioned(policy, h, h', a, w, r))
  }

  // ---- Stop, Delete, EnsureStopIntent ----

  ghost predicate Stops(h: Host, h': Host, id: Key, r: Effect) {
    && OnlyAt(h, h', id) && h'.started == h.started && h'.dirs == h.dirs && Fades(h.domains, h'.domains)
    && (id in h'.manifests <==> id in h.manifests)
    && (r == Refused <==> id !in h.manifests)
    && (id in h.manifests ==>
          if h.manifests[id].phase == PhaseDeleted then h'.manifests[id] == h.manifests[id] && r == Done
          else if r == Done then h'.manifests[id] == h.manifests[id].(phase := PhaseStopped) && !IsUp(h', id)
          else h'.manifests[id] == h.manifests[id])
  }

  ghost predicate Deletes(h: Host, h': Host, id: Key, r: Effect) {
    && OnlyAt(h, h', id) && h'.started == h.started
    && (id in h'.manifests <==> id in h.manifests)
    && (id in h'.domains ==> id in h.domains && (h'.domains[id] ==> h.domains[id]))
    && (id in h'.dirs ==> id in h.dirs)
    && (id in h.dirs && id !in h'.dirs ==> id in h.manifests && id !in h'.domains)
    && (id in h.manifests ==>
          if h.manifests[id].phase == PhaseDeleted then Untouched(h, h') && r == Done
          else if r == Done then
            h'.manifests[id] == h.manifests[id].(phase := PhaseDeleted) && id !in h'.domains && id !in h'.dirs
          else h'.manifests[id] == h.manifests[id])
    && (r == Refused ==> id !in h.manifests || IsUp(h, id))
  }

  /** A stop for a VM this host never created is certified only where neither
      a domain nor a disk directory exists. */
  ghost predicate CertifiesStop(policy: Policy, h: Host, h': Host, a: Instance, r: Effect) {
    || (Untouched(h, h')
        && (r == Done ==> a.id in h.manifests)
        && (r == Refused ==> !ValidInstance(a) || a.node != policy.node
                             || (a.id !in h.manifests && (a.id in h.domains || a.id in h.dirs))))
    || (OnlyAt(h, h', a.id) && r == Done && a.id !in h.manifests && a.id !in h.domains && a.id !in h.dirs
        && ValidInstance(a) && a.node == policy.node
        && a.id !in h'.domains && h'.dirs == h.dirs && h'.started == h.started
        && a.id in h'.manifests && h'.manifests[a.id] == Manifest(a, PhaseStopped, NONE, false, false))
  }

  // ---- Inventory ----

  /** What one VM's report says, given the domain seen while it was made. */
  ghost predicate Reported(h: Host, h': Host, id: Key, state: ReportState, uncertain: bool)
    requires id in h.manifests && id in h'.manifests
  {
    var m := h.manifests[id];
    if m.phase == PhaseDeleted then state == VMDeleted && h'.manifests[id] == m
    else if uncertain then state == VMUnknown && h'.manifests[id] == m
    else if state == VMRunning then IsUp(h, id) && h'.manifests[id] == m
    else if state == VMStopped then
      !IsUp(h', id) && h'.manifests[id] == m.(phase := PhaseStopped) && (id in h.domains || m.phase != PhasePrepared)
    else state == VMUnknown && id !in h.domains && m.phase == PhasePrepared && h'.manifests[id] == m
  }

  /** A loop over the first n files. */
  ghost predicate Surveyed(h: Host, h': Host, n: nat, reports: seq<VMReport>, uncertain: set<Key>)
    requires n <= |h.files|
  {
    && h'.files == h.files && h'.dirs == h.dirs && h'.started == h.started && Fades(h.domains, h'.domains)
    && h'.manifests.Keys == h.manifests.Keys
    && |reports| == n && (forall id | id in uncertain :: id in h.files[..n])
    && (forall i | 0 <= i < n ::
          && reports[i].id == h.files[i] && h.files[i] in h.manifests
          && Reported(h, h', h.files[i], reports[i].state, h.files[i] in uncertain))
    && (forall id | id in h.manifests && id !in h.files[..n] :: h'.manifests[id] == h.manifests[id])
  }

  /** One more file. */
  lemma {:induction false} SurveyNext(h: Host, h1: Host, h2: Host, i: nat, reports: seq<VMReport>, uncertain: set<Key>, r: VMReport, doubt: bool)
    requires Listed(h) && i < |h.files| && Surveyed(h, h1, i, reports, uncertain)
    requires h2.files == h1.files && h2.dirs == h1.dirs && h2.started == h1.started && Fades(h1.domains, h2.domains)
    requires h2.manifests.Keys == h1.manifests.Keys
    requires forall k | k in h1.manifests && k != h.files[i] :: h2.manifests[k] == h1.manifests[k]
    requires r.id == h.files[i] && r.id in h.manifests && Reported(h, h2, r.id, r.state, doubt)
    ensures Surveyed(h, h2, i + 1, reports + [r], if doubt then uncertain + {r.id} else uncertain)
  {
    var id := h.files[i];
    assert h.files[..i + 1] == h.files[..i] + [id];
    assert id !in h.files[..i];
    var doubts := if doubt then uncertain + {id} else uncertain;
    forall j | 0 <= j < i
      ensures (reports + [r])[j].id == h.files[j] && h.files[j] in h.manifests
      ensures Reported(h, h2, h.files[j], (reports + [r])[j].state, h.files[j] in doubts)
    {
      assert h.files[j] != id && h.files[j] in h.manifests;
      assert Reported(h, h1, h.files[j], reports[j].state, h.files[j] in uncertain);
    }
  }

  lemma {:induction false} Unsurveyed(h: Host, h1: Host, i: nat, reports: seq<VMReport>, uncertain: set<Key>)
    requires Listed(h) && i < |h.files| && Surveyed(h, h1, i, reports, uncertain)
    ensures h.files[i] in h.manifests && h1.manifests[h.files[i]] == h.manifests[h.files[i]]
  {
    assert h.files[i] in h.files;
    assert h.files[i] !in h.files[..i];
  }

  /** What is seen of a VM while surveying is true of the whole survey. */
  lemma {:induction false} Resurveyed(h: Host, h1: Host, h2: Host, id: Key, state: ReportState, doubt: bool)
    requires Fades(h.domains, h1.domains)
    requires id in h.manifests && id in h1.manifests && id in h2.manifests && h1.manifests[id] == h.manifests[id]
    requires Reported(h1, h2, id, state, doubt)
    ensures Reported(h, h2, id, state, doubt)
  {
  }

  /** The loop's step: one more file, looked at after the ones before. */
  lemma {:induction false} SurveyMore(h: Host, h1: Host, h2: Host, i: nat, reports: seq<VMReport>, uncertain: set<Key>, state: ReportState, doubt: bool)
    requires Listed(h) && i < |h.files| && Surveyed(h, h1, i, reports, uncertain)
    requires h2.files == h1.files && h2.dirs == h1.dirs && h2.started == h1.started && Fades(h1.domains, h2.domains)
    requires h2.manifests.Keys == h1.manifests.Keys && h.files[i] in h1.manifests
    requires forall k | k in h1.manifests && k != h.files[i] :: h2.manifests[k] == h1.manifests[k]
    requires Reported(h1, h2, h.files[i], state, doubt)
    ensures Surveyed(h, h2, i + 1, reports + [VMReport(h.files[i], state)], if doubt then uncertain + {h.files[i]} else uncertain)
  {
    var id := h.files[i];
    Unsurveyed(h, h1, i, reports, uncertain);
    Resurveyed(h, h1, h2, id, state, doubt);
    SurveyNext(h, h1, h2, i, reports, uncertain, VMReport(id, state), doubt);
  }

  lemma {:induction false} SurveyCut(h: Host, h': Host, n: nat, reports: seq<VMReport>, uncertain: set<Key>)
    requires n <= |h.files| && Surveyed(h, h', n, reports, uncertain)
    ensures CutShort(h, h')
  {
    forall id | id in h.manifests
      ensures h'.manifests[id] == h.manifests[id]
           || (h.manifests[id].phase != PhaseDeleted && !IsUp(h', id) && h'.manifests[id] == h.manifests[id].(phase := PhaseStopped))
    {
      if id in h.files[..n] {
        var i :| 0 <= i < n && h.files[i] == id;
        assert Reported(h, h', h.files[i], reports[i].state, h.files[i] in uncertain);
      }
    }
  }

  /** A survey cut short by a failure recorded some stops and nothing else. */
  ghost predicate CutShort(h: Host, h': Host) {
    && h'.files == h.files && h'.dirs == h.dirs && h'.started == h.started && Fades(h.domains, h'.domains)
    && h'.manifests.Keys == h.manifests.Keys
    && forall id | id in h.manifests ::
         || h'.manifests[id] == h.manifests[id]
         || (h.manifests[id].phase != PhaseDeleted && !IsUp(h', id) && h'.manifests[id] == h.manifests[id].(phase := PhaseStopped))
  }

  // ---- Invariant ----

  predicate Distinct(files: seq<Key>) {
    forall i, j | 0 <= i < j < |files| :: files[i] != files[j]
  }

  /** Only what a successful ensure set aside counts against the ceiling: a
      certified stop was never created. */
  function Owned(m: Manifest): Resources {
    if m.secret == NONE then ZERO else SetAside(m)
  }

  function OwnedOf(files: seq<Key>, manifests: map<Key, Manifest>, k: Kind): int {
    if files == [] then 0
    else
      var id := files[|files| - 1];
      OwnedOf(files[..|files| - 1], manifests, k) + if id !in manifests then 0 else Owned(manifests[id]).Of(k)
  }

  ghost predicate ManifestOK(policy: Policy, h: Host, id: Key)
    requires id in h.manifests
  {
    var m := h.manifests[id];
    && m.instance.id == id && m.instance.node == policy.node && ValidInstance(m.instance)
    && (m.secret == NONE ==> PhaseRank(PhaseStopped) <= PhaseRank(m.phase))
  }

  ghost predicate VMOK(h: Host, id: Key) {
    && (id in h.domains || id in h.dirs ==> id in h.manifests && h.manifests[id].phase != PhaseDeleted)
    && (IsUp(h, id) ==> id in h.dirs && h.started[id] == 1 && (h.manifests[id].phase == PhaseStartIssued || h.manifests[id].phase == PhaseRunning))
    && h.started[id] <= 1
    && (h.started[id] > 0 ==> PhaseAtLeast(h, id, PhaseStartIssued))
  }

  ghost predicate Listed(h: Host) {
    Distinct(h.files) && forall id :: id in h.files <==> id in h.manifests
  }

  ghost predicate HostOK(policy: Policy, h: Host) {
    && Listed(h)
    && (forall id | id in h.manifests :: ManifestOK(policy, h, id))
    && (forall id :: VMOK(h, id))
    && forall k: Kind :: OwnedOf(h.files, h.manifests, k) <= policy.ceiling.Of(k)
  }

  const EMPTY_HOST := Host(map[], [], map[], {}, multiset{})
}
