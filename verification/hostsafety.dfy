/** What every operation of the host agent keeps, wherever it is cut short. */
module HostSafety {
  import opened Resources
  import opened Model
  import opened Hosting

  // ---- Moving forward ----

  /** A VM's record is never lost, its phase never goes back, and a deleted
      record never changes again. */
  ghost predicate Advances(h: Host, h': Host) {
    && (forall id | id in h.manifests ::
          && id in h'.manifests
          && PhaseRank(h.manifests[id].phase) <= PhaseRank(h'.manifests[id].phase)
          && h'.manifests[id].instance.pool == h.manifests[id].instance.pool
          && (h.manifests[id].phase == PhaseDeleted ==> h'.manifests[id] == h.manifests[id]))
    && (forall id :: h.started[id] <= h'.started[id])
  }

  lemma {:induction false} AdvancesTransitive(h: Host, h': Host, h'': Host)
    requires Advances(h, h') && Advances(h', h'')
    ensures Advances(h, h'')
  {
    forall id | id in h.manifests
      ensures id in h''.manifests && PhaseRank(h.manifests[id].phase) <= PhaseRank(h''.manifests[id].phase)
    {
      assert id in h'.manifests;
    }
  }

  // ---- Sums over the manifest directory ----

  lemma {:induction false} OwnedElsewhere(files: seq<Key>, m: map<Key, Manifest>, m': map<Key, Manifest>, id: Key, k: Kind)
    requires id !in files
    requires forall x | x in files :: (x in m' <==> x in m) && (x in m ==> m'[x] == m[x])
    ensures OwnedOf(files, m', k) == OwnedOf(files, m, k)
  {
    if files != [] {
      assert files[|files| - 1] in files;
      OwnedElsewhere(files[..|files| - 1], m, m', id, k);
    }
  }

  /** One rewritten manifest changes the sum by its own difference. */
  lemma {:induction false} OwnedSwap(files: seq<Key>, m: map<Key, Manifest>, m': map<Key, Manifest>, id: Key, k: Kind)
    requires Distinct(files) && id in files && id in m && id in m'
    requires forall x | x in files && x != id :: (x in m' <==> x in m) && (x in m ==> m'[x] == m[x])
    ensures OwnedOf(files, m', k) == OwnedOf(files, m, k) - Owned(m[id]).Of(k) + Owned(m'[id]).Of(k)
  {
    var last, front := files[|files| - 1], files[..|files| - 1];
    assert files == front + [last];
    if last == id {
      OwnedElsewhere(front, m, m', id, k);
    } else {
      OwnedSwap(front, m, m', id, k);
    }
  }

  lemma {:induction false} OwnedShrinks(files: seq<Key>, m: map<Key, Manifest>, m': map<Key, Manifest>, k: Kind)
    requires forall x | x in files && x in m' :: x in m && Owned(m'[x]).Of(k) <= Owned(m[x]).Of(k)
    requires forall x | x in files && x in m :: x in m'
    ensures OwnedOf(files, m', k) <= OwnedOf(files, m, k)
  {
    if files != [] {
      assert files[|files| - 1] in files;
      OwnedShrinks(files[..|files| - 1], m, m', k);
    }
  }

  /** The admission sum covers everything owned by the other VMs. */
  lemma {:induction false} OwnedWithinUsed(files: seq<Key>, m: map<Key, Manifest>, skip: Key, k: Kind)
    requires Distinct(files)
    requires forall id | id in files && id in m :: m[id].instance.pool.SizesOK()
    ensures OwnedOf(files, m, k) - (if skip in files && skip in m then Owned(m[skip]).Of(k) else 0) <= UsedOf(files, m, skip, k)
  {
    if files != [] {
      var last, front := files[|files| - 1], files[..|files| - 1];
      assert files == front + [last];
      assert last in files;
      OwnedWithinUsed(front, m, skip, k);
    }
  }

  // ---- The ledger ----

  ghost predicate LedgerOK(policy: Policy, h: Host) {
    forall k: Kind :: OwnedOf(h.files, h.manifests, k) <= policy.ceiling.Of(k)
  }

  ghost predicate Lighter(m: Manifest, m': Manifest) {
    forall k: Kind :: Owned(m').Of(k) <= Owned(m).Of(k)
  }

  lemma {:induction false} LaterIsLighter(m: Manifest, p: Phase)
    requires m.instance.pool.SizesOK() && PhaseRank(m.phase) <= PhaseRank(p)
    ensures Lighter(m, m) && Lighter(m, m.(phase := p))
  {
  }

  lemma {:induction false} ReleaseFits(policy: Policy, h: Host, h': Host, id: Key)
    requires Listed(h) && LedgerOK(policy, h) && OnlyAt(h, h', id)
    requires id in h.manifests && id in h'.manifests && Lighter(h.manifests[id], h'.manifests[id])
    ensures LedgerOK(policy, h')
  {
    forall k: Kind
      ensures OwnedOf(h'.files, h'.manifests, k) <= policy.ceiling.Of(k)
    {
      OwnedSwap(h.files, h.manifests, h'.manifests, id, k);
    }
  }

  lemma {:induction false} CertifiedFits(policy: Policy, h: Host, h': Host, id: Key)
    requires Listed(h) && LedgerOK(policy, h) && OnlyAt(h, h', id)
    requires id !in h.manifests && id in h'.manifests && h'.manifests[id].secret == NONE
    ensures LedgerOK(policy, h')
  {
    forall k: Kind
      ensures OwnedOf(h'.files, h'.manifests, k) <= policy.ceiling.Of(k)
    {
      assert h'.files[..|h'.files| - 1] == h.files;
      OwnedElsewhere(h.files, h.manifests, h'.manifests, id, k);
    }
  }

  lemma {:induction false} OwnedAtMost(m: Manifest, k: Kind)
    requires m.instance.pool.SizesOK()
    ensures Owned(m).Of(k) <= m.instance.pool.Charge().Of(k)
  {
  }

  lemma {:induction false} AdmittedKind(h: Host, h': Host, a: Instance, k: Kind)
    requires Listed(h) && OnlyAt(h, h', a.id)
    requires forall id | id in h.files && id in h.manifests :: h.manifests[id].instance.pool.SizesOK()
    requires a.id in h'.manifests && h'.manifests[a.id].instance == a && a.pool.SizesOK()
    ensures OwnedOf(h'.files, h'.manifests, k) <= UsedOf(h.files, h.manifests, a.id, k) + a.pool.Charge().Of(k)
  {
    var id, m := a.id, h'.manifests[a.id];
    OwnedAtMost(m, k);
    OwnedWithinUsed(h.files, h.manifests, id, k);
    OwnedAdmitted(h, h', id, k);
  }

  /** The sum after one manifest is written, new or rewritten. */
  lemma {:induction false} OwnedAdmitted(h: Host, h': Host, id: Key, k: Kind)
    requires Listed(h) && OnlyAt(h, h', id) && id in h'.manifests
    ensures OwnedOf(h'.files, h'.manifests, k)
         == OwnedOf(h.files, h.manifests, k) + Owned(h'.manifests[id]).Of(k)
            - (if id in h.manifests then Owned(h.manifests[id]).Of(k) else 0)
  {
    if id in h.manifests {
      OwnedSwap(h.files, h.manifests, h'.manifests, id, k);
    } else {
      assert h'.files[..|h'.files| - 1] == h.files;
      OwnedElsewhere(h.files, h.manifests, h'.manifests, id, k);
    }
  }

  lemma {:induction false} AffordableByKind(policy: Policy, h: Host, a: Instance, k: Kind)
    requires Affordable(policy, h, a)
    ensures UsedOf(h.files, h.manifests, a.id, k) + a.pool.Charge().Of(k) <= policy.ceiling.Of(k)
  {
    FitsByKind(Used(h, a.id).Add(a.pool.Charge()), policy.ceiling);
    assert Used(h, a.id).Add(a.pool.Charge()).Of(k) <= policy.ceiling.Of(k);
  }

  lemma {:induction false} SizesOfAll(policy: Policy, h: Host)
    requires forall id | id in h.manifests :: ManifestOK(policy, h, id)
    ensures forall id | id in h.files && id in h.manifests :: h.manifests[id].instance.pool.SizesOK()
  {
    assert forall id | id in h.files && id in h.manifests :: ManifestOK(policy, h, id);
  }

  lemma {:induction false} AdmittedFits(policy: Policy, h: Host, h': Host, a: Instance)
    requires Listed(h) && (forall id | id in h.files && id in h.manifests :: h.manifests[id].instance.pool.SizesOK())
    requires OnlyAt(h, h', a.id) && Affordable(policy, h, a)
    requires a.id in h'.manifests && h'.manifests[a.id].instance == a && a.pool.SizesOK()
    ensures LedgerOK(policy, h')
  {
    forall k: Kind
      ensures OwnedOf(h'.files, h'.manifests, k) <= policy.ceiling.Of(k)
    {
      AdmittedKind(h, h', a, k);
      AffordableByKind(policy, h, a, k);
    }
  }

  // ---- Listing and untouched VMs ----

  lemma {:induction false} ListedAfter(h: Host, h': Host, id: Key)
    requires Listed(h) && OnlyAt(h, h', id) && (id in h.manifests ==> id in h'.manifests)
    ensures Listed(h')
  {
    forall k
      ensures k in h'.files <==> k in h'.manifests
    {
      assert k in h.files <==> k in h.manifests;
    }
  }

  /** The other VMs keep their invariant; guests may have powered off. */
  lemma {:induction false} OthersOK(policy: Policy, h: Host, h': Host, id: Key)
    requires HostOK(policy, h) && OnlyAt(h, h', id)
    ensures forall k | k in h'.manifests && k != id :: ManifestOK(policy, h', k)
    ensures forall k | k != id :: VMOK(h', k)
  {
    forall k | k != id
      ensures k in h'.manifests ==> ManifestOK(policy, h', k)
      ensures VMOK(h', k)
    {
      assert VMOK(h, k);
      if k in h.manifests {
        assert ManifestOK(policy, h, k);
      }
    }
  }

  lemma {:induction false} OthersAdvance(h: Host, h': Host, id: Key)
    requires OnlyAt(h, h', id) && h.started[id] <= h'.started[id]
    requires id in h.manifests ==>
               id in h'.manifests && PhaseRank(h.manifests[id].phase) <= PhaseRank(h'.manifests[id].phase)
               && h'.manifests[id].instance.pool == h.manifests[id].instance.pool
               && (h.manifests[id].phase == PhaseDeleted ==> h'.manifests[id] == h.manifests[id])
    ensures Advances(h, h')
  {
    forall k
      ensures h.started[k] <= h'.started[k]
    {
      assert k != id ==> h'.started[k] == h.started[k];
    }
  }

  lemma {:induction false} FadeKeeps(policy: Policy, h: Host, h': Host)
    requires HostOK(policy, h) && Untouched(h, h')
    ensures HostOK(policy, h') && Advances(h, h')
  {
    forall id
      ensures VMOK(h', id)
      ensures id in h'.manifests ==> ManifestOK(policy, h', id)
    {
      assert VMOK(h, id);
      assert id in h.manifests ==> ManifestOK(policy, h, id);
    }
  }

  // ---- Each operation ----

  /** One VM's record moves to a later phase, or stays. */
  lemma {:induction false} PhaseKeeps(policy: Policy, h: Host, h': Host, id: Key)
    requires HostOK(policy, h) && OnlyAt(h, h', id) && VMOK(h', id) && h'.started == h.started
    requires id in h.manifests && id in h'.manifests
    requires h'.manifests[id] == h.manifests[id].(phase := h'.manifests[id].phase)
    requires PhaseRank(h.manifests[id].phase) <= PhaseRank(h'.manifests[id].phase)
    ensures HostOK(policy, h') && Advances(h, h')
  {
    assert ManifestOK(policy, h, id);
    ListedAfter(h, h', id);
    OthersOK(policy, h, h', id);
    OthersAdvance(h, h', id);
    LaterIsLighter(h.manifests[id], h'.manifests[id].phase);
    ReleaseFits(policy, h, h', id);
  }

  lemma {:induction false} RevisitKeeps(policy: Policy, h: Host, h': Host, id: Key, r: Effect)
    requires HostOK(policy, h) && Revisited(h, h', id, r)
    ensures HostOK(policy, h') && Advances(h, h')
  {
    assert VMOK(h, id);
    PhaseKeeps(policy, h, h', id);
  }

  lemma {:induction false} ProvisionKeeps(policy: Policy, h: Host, h': Host, a: Instance, w: Job, r: Effect)
    requires HostOK(policy, h) && WithinPolicy(policy, a, w) && Provisioned(policy, h, h', a, w, r)
    ensures HostOK(policy, h') && Advances(h, h')
  {
    var id := a.id;
    assert VMOK(h, id);
    assert id in h.manifests ==> ManifestOK(policy, h, id);
    ListedAfter(h, h', id);
    OthersOK(policy, h, h', id);
    OthersAdvance(h, h', id);
    SizesOfAll(policy, h);
    AdmittedFits(policy, h, h', a);
  }

  /** ensure: whatever fails, whenever the agent crashes, virsh start is
      issued at most once per VM and the ceiling holds. */
  lemma {:induction false} EnsureKeeps(policy: Policy, h: Host, h': Host, a: Instance, w: Job, now: int, freeGiB: int, r: Effect)
    requires HostOK(policy, h) && Ensures(policy, h, h', a, w, now, freeGiB, r)
    ensures HostOK(policy, h') && Advances(h, h')
  {
    if Untouched(h, h') {
      FadeKeeps(policy, h, h');
    } else if Revisited(h, h', a.id, r) {
      RevisitKeeps(policy, h, h', a.id, r);
    } else {
      ProvisionKeeps(policy, h, h', a, w, r);
    }
  }

  lemma {:induction false} UnknownKeeps(policy: Policy, h: Host, h': Host, id: Key)
    requires HostOK(policy, h) && OnlyAt(h, h', id) && h'.started == h.started
    requires id !in h.manifests && id !in h'.manifests
    requires (id in h'.domains ==> id in h.domains) && (id in h'.dirs ==> id in h.dirs)
    ensures HostOK(policy, h') && Advances(h, h')
  {
    assert VMOK(h, id);
    assert h'.manifests == h.manifests;
    ListedAfter(h, h', id);
    OthersOK(policy, h, h', id);
    OthersAdvance(h, h', id);
  }

  lemma {:induction false} StopKeeps(policy: Policy, h: Host, h': Host, id: Key, r: Effect)
    requires HostOK(policy, h) && Stops(h, h', id, r)
    ensures HostOK(policy, h') && Advances(h, h')
  {
    if id in h.manifests {
      assert VMOK(h, id);
      PhaseKeeps(policy, h, h', id);
    } else {
      UnknownKeeps(policy, h, h', id);
    }
  }

  lemma {:induction false} DeleteKeeps(policy: Policy, h: Host, h': Host, id: Key, r: Effect)
    requires HostOK(policy, h) && Deletes(h, h', id, r)
    ensures HostOK(policy, h') && Advances(h, h')
  {
    if id in h.manifests {
      assert VMOK(h, id);
      PhaseKeeps(policy, h, h', id);
    } else {
      UnknownKeeps(policy, h, h', id);
    }
  }

  lemma {:induction false} CertifyKeeps(policy: Policy, h: Host, h': Host, a: Instance, r: Effect)
    requires HostOK(policy, h) && CertifiesStop(policy, h, h', a, r)
    ensures HostOK(policy, h') && Advances(h, h')
  {
    if Untouched(h, h') {
      FadeKeeps(policy, h, h');
    } else {
      assert VMOK(h, a.id);
      ListedAfter(h, h', a.id);
      OthersOK(policy, h, h', a.id);
      OthersAdvance(h, h', a.id);
      CertifiedFits(policy, h, h', a.id);
    }
  }

  lemma {:induction false} SurveyFits(policy: Policy, h: Host, h': Host)
    requires HostOK(policy, h) && CutShort(h, h')
    ensures LedgerOK(policy, h')
  {
    forall x | x in h.manifests
      ensures Lighter(h.manifests[x], h'.manifests[x])
    {
      assert ManifestOK(policy, h, x);
      LaterIsLighter(h.manifests[x], h'.manifests[x].phase);
    }
    forall k: Kind
      ensures OwnedOf(h'.files, h'.manifests, k) <= policy.ceiling.Of(k)
    {
      OwnedShrinks(h.files, h.manifests, h'.manifests, k);
    }
  }

  lemma {:induction false} SurveyKeeps(policy: Policy, h: Host, h': Host)
    requires HostOK(policy, h) && CutShort(h, h')
    ensures HostOK(policy, h') && Advances(h, h')
  {
    forall id
      ensures VMOK(h', id)
      ensures id in h'.manifests ==> ManifestOK(policy, h', id)
    {
      assert VMOK(h, id);
      assert id in h.manifests ==> ManifestOK(policy, h, id);
    }
    SurveyFits(policy, h, h');
  }

  // ---- Any interleaving ----

  datatype HostOp =
    | OpEnsure(instance: Instance, job: Job, now: int, freeGiB: int)
    | OpStop(id: Key)
    | OpDelete(id: Key)
    | OpCertify(instance: Instance)
    | OpInventory
    | OpGuests

  /** What one operation, complete or cut short, may do to the host. */
  ghost predicate HostStep(policy: Policy, h: Host, op: HostOp, h': Host) {
    match op
    case OpEnsure(a, w, now, free) => exists r :: Ensures(policy, h, h', a, w, now, free, r)
    case OpStop(id) => exists r :: Stops(h, h', id, r)
    case OpDelete(id) => exists r :: Deletes(h, h', id, r)
    case OpCertify(a) => exists r :: CertifiesStop(policy, h, h', a, r)
    case OpInventory => CutShort(h, h')
    case OpGuests => Untouched(h, h')
  }

  lemma {:induction false} HostStepKeeps(policy: Policy, h: Host, op: HostOp, h': Host)
    requires HostOK(policy, h) && HostStep(policy, h, op, h')
    ensures HostOK(policy, h') && Advances(h, h')
  {
    match op
    case OpEnsure(a, w, now, free) =>
      var r :| Ensures(policy, h, h', a, w, now, free, r);
      EnsureKeeps(policy, h, h', a, w, now, free, r);
    case OpStop(id) =>
      var r :| Stops(h, h', id, r);
      StopKeeps(policy, h, h', id, r);
    case OpDelete(id) =>
      var r :| Deletes(h, h', id, r);
      DeleteKeeps(policy, h, h', id, r);
    case OpCertify(a) =>
      var r :| CertifiesStop(policy, h, h', a, r);
      CertifyKeeps(policy, h, h', a, r);
    case OpInventory => SurveyKeeps(policy, h, h');
    case OpGuests => FadeKeeps(policy, h, h');
  }

  ghost predicate HostRun(policy: Policy, hs: seq<Host>, ops: seq<HostOp>) {
    && |hs| == |ops| + 1 && hs[0] == EMPTY_HOST
    && forall i | 0 <= i < |ops| :: HostStep(policy, hs[i], ops[i], hs[i + 1])
  }

  lemma {:induction false} AlwaysHostOK(policy: Policy, hs: seq<Host>, ops: seq<HostOp>, n: nat)
    requires HostRun(policy, hs, ops) && policy.ceiling.NonNegative() && n < |hs|
    ensures HostOK(policy, hs[n])
  {
    if n > 0 {
      AlwaysHostOK(policy, hs, ops, n - 1);
      HostStepKeeps(policy, hs[n - 1], ops[n - 1], hs[n]);
    }
  }

  lemma {:induction false} AlwaysAdvances(policy: Policy, hs: seq<Host>, ops: seq<HostOp>, m: nat, n: nat)
    requires HostRun(policy, hs, ops) && policy.ceiling.NonNegative() && m <= n < |hs|
    ensures Advances(hs[m], hs[n])
  {
    if m < n {
      AlwaysAdvances(policy, hs, ops, m, n - 1);
      AlwaysHostOK(policy, hs, ops, n - 1);
      HostStepKeeps(policy, hs[n - 1], ops[n - 1], hs[n]);
      AdvancesTransitive(hs[m], hs[n - 1], hs[n]);
    }
  }

  /** Over any interleaving of ensure retries, stops, deletions, surveys,
      guest poweroffs and crashes after any effect: virsh start is issued at
      most once per VM, phases never go back, a deleted VM stays deleted with
      no domain and no disks, and the local ceiling holds. */
  lemma {:induction false} HostLifecycle(policy: Policy, hs: seq<Host>, ops: seq<HostOp>, m: nat, n: nat, id: Key)
    requires HostRun(policy, hs, ops) && policy.ceiling.NonNegative() && m <= n < |hs|
    ensures hs[n].started[id] <= 1
    ensures IsUp(hs[n], id) ==> hs[n].started[id] == 1
    ensures id in hs[m].manifests ==>
              id in hs[n].manifests && PhaseRank(hs[m].manifests[id].phase) <= PhaseRank(hs[n].manifests[id].phase)
    ensures PhaseAtLeast(hs[m], id, PhaseStopped) ==> !IsUp(hs[n], id)
    ensures PhaseAtLeast(hs[m], id, PhaseDeleted) ==>
              PhaseAtLeast(hs[n], id, PhaseDeleted) && id !in hs[n].domains && id !in hs[n].dirs
    ensures forall k: Kind :: OwnedOf(hs[n].files, hs[n].manifests, k) <= policy.ceiling.Of(k)
  {
    AlwaysHostOK(policy, hs, ops, n);
    AlwaysAdvances(policy, hs, ops, m, n);
    assert VMOK(hs[n], id);
  }

  // ---- What an admission needed ----

  /** A VM comes into being on the host, or further into being: its manifest
      is created or rewritten for a content, its disks are made, its domain
      is defined, or a start is counted. */
  ghost predicate Admits(h: Host, h': Host, id: Key) {
    || (id in h'.manifests && h'.manifests[id].secret != NONE
        && (id !in h.manifests || h'.manifests[id] != h.manifests[id].(phase := h'.manifests[id].phase)))
    || (id in h'.dirs && id !in h.dirs)
    || (id in h'.domains && id !in h.domains)
    || (IsUp(h', id) && !IsUp(h, id))
    || h'.started[id] > h.started[id]
  }

  lemma {:induction false} OnlyProvisionAdmits(policy: Policy, h: Host, h': Host, a: Instance, w: Job, now: int, freeGiB: int, r: Effect, id: Key)
    requires Ensures(policy, h, h', a, w, now, freeGiB, r) && Admits(h, h', id)
    ensures id == a.id && WithinPolicy(policy, a, w) && Provisioned(policy, h, h', a, w, r)
    ensures now < a.deadline && (w.kind == TaskJob ==> MINIMUM_TASK_TIME <= a.deadline - now)
    ensures Used(h, id).disk + a.pool.Charge().disk + 2 <= freeGiB
  {
  }

  lemma {:induction false} OthersAdmitNothing(policy: Policy, h: Host, op: HostOp, h': Host, id: Key)
    requires HostStep(policy, h, op, h') && !op.OpEnsure?
    ensures !Admits(h, h', id)
  {
  }

  /** What every other VM on the host still has on its disks. */
  function OtherDisks(files: seq<Key>, manifests: map<Key, Manifest>, id: Key): int {
    if files == [] then 0
    else
      var k := files[|files| - 1];
      OtherDisks(files[..|files| - 1], manifests, id)
        + if k == id || k !in manifests || manifests[k].phase == PhaseDeleted then 0
          else manifests[k].instance.pool.rootGiB + manifests[k].instance.pool.scratchGiB + manifests[k].instance.pool.diskOverheadGiB
  }

  lemma {:induction false} OtherDisksUsed(files: seq<Key>, manifests: map<Key, Manifest>, id: Key)
    ensures UsedOf(files, manifests, id, Disk) == OtherDisks(files, manifests, id)
  {
    if files != [] {
      OtherDisksUsed(files[..|files| - 1], manifests, id);
    }
  }

  /** No VM gets a manifest, disks, a domain or a start unless the free space
      given to that call covered what every other VM has on disk, its own
      disks and 2 GiB besides. Its charge is within the ceiling beside the
      others', and its time was not up. */
  lemma {:induction false} AdmittedWithRoom(policy: Policy, hs: seq<Host>, ops: seq<HostOp>, i: nat, id: Key)
    requires HostRun(policy, hs, ops) && i < |ops| && Admits(hs[i], hs[i + 1], id)
    ensures ops[i].OpEnsure? && ops[i].instance.id == id
    ensures id in hs[i + 1].manifests && hs[i + 1].manifests[id].instance == ops[i].instance
    ensures var p := ops[i].instance.pool;
            OtherDisks(hs[i].files, hs[i].manifests, id) + p.rootGiB + p.scratchGiB + p.diskOverheadGiB + 2 <= ops[i].freeGiB
    ensures forall k: Kind :: UsedOf(hs[i].files, hs[i].manifests, id, k) + ops[i].instance.pool.Charge().Of(k) <= policy.ceiling.Of(k)
    ensures ops[i].now < ops[i].instance.deadline
    ensures ops[i].job.kind == TaskJob ==> 10 * MINUTE <= ops[i].instance.deadline - ops[i].now
  {
    assert HostStep(policy, hs[i], ops[i], hs[i + 1]);
    if ops[i].OpEnsure? {
      var a := ops[i].instance;
      var r :| Ensures(policy, hs[i], hs[i + 1], a, ops[i].job, ops[i].now, ops[i].freeGiB, r);
      OnlyProvisionAdmits(policy, hs[i], hs[i + 1], a, ops[i].job, ops[i].now, ops[i].freeGiB, r, id);
      OtherDisksUsed(hs[i].files, hs[i].manifests, id);
      forall k: Kind
        ensures UsedOf(hs[i].files, hs[i].manifests, id, k) + a.pool.Charge().Of(k) <= policy.ceiling.Of(k)
      {
        AffordableByKind(policy, hs[i], a, k);
      }
    } else {
      OthersAdmitNothing(policy, hs[i], ops[i], hs[i + 1], id);
    }
  }

  // ---- One ID, one content ----

  /** What a VM is: its sizes, image, node, task and secret document. */
  predicate SameContent(m: Manifest, m': Manifest) {
    && m'.instance.pool == m.instance.pool && m'.instance.image.digest == m.instance.image.digest
    && m'.instance.node == m.instance.node && m'.instance.task == m.instance.task
    && m'.secret == m.secret && m'.diagnostic == m.diagnostic && m'.task == m.task
  }

  lemma {:induction false} EnsureKeepsContent(policy: Policy, h: Host, h': Host, a: Instance, w: Job, now: int, freeGiB: int, r: Effect, id: Key)
    requires Ensures(policy, h, h', a, w, now, freeGiB, r) && id in h.manifests
    ensures id in h'.manifests && SameContent(h.manifests[id], h'.manifests[id])
  {
  }

  lemma {:induction false} StepKeepsContent(policy: Policy, h: Host, op: HostOp, h': Host, id: Key)
    requires HostStep(policy, h, op, h') && id in h.manifests
    ensures id in h'.manifests && SameContent(h.manifests[id], h'.manifests[id])
  {
    if op.OpEnsure? {
      var r :| Ensures(policy, h, h', op.instance, op.job, op.now, op.freeGiB, r);
      EnsureKeepsContent(policy, h, h', op.instance, op.job, op.now, op.freeGiB, r, id);
    }
  }

  /** Whatever is asked of the host later, an ID stands for one VM: the same
      sizes, image, task and secret document, for good. */
  lemma {:induction false} AlwaysSameContent(policy: Policy, hs: seq<Host>, ops: seq<HostOp>, m: nat, n: nat, id: Key)
    requires HostRun(policy, hs, ops) && m <= n < |hs| && id in hs[m].manifests
    ensures id in hs[n].manifests && SameContent(hs[m].manifests[id], hs[n].manifests[id])
  {
    if m < n {
      AlwaysSameContent(policy, hs, ops, m, n - 1, id);
      assert HostStep(policy, hs[n - 1], ops[n - 1], hs[n]);
      StepKeepsContent(policy, hs[n - 1], ops[n - 1], hs[n], id);
    }
  }

  // ---- What really runs and really occupies disk ----

  function Part(p: Pool, k: Kind): int {
    match k
    case CPU => p.vcpu
    case Memory => p.memoryMiB + p.overheadMiB
    case Disk => p.rootGiB + p.scratchGiB + p.diskOverheadGiB
  }

  /** What the running domains take, of one kind. */
  function Running(files: seq<Key>, h: Host, k: Kind): int {
    if files == [] then 0
    else
      var id := files[|files| - 1];
      Running(files[..|files| - 1], h, k) + if IsUp(h, id) && id in h.manifests then Part(h.manifests[id].instance.pool, k) else 0
  }

  /** What the disk directories hold. */
  function Occupied(files: seq<Key>, h: Host): int {
    if files == [] then 0
    else
      var id := files[|files| - 1];
      Occupied(files[..|files| - 1], h) + if id in h.dirs && id in h.manifests then Part(h.manifests[id].instance.pool, Disk) else 0
  }

  /** A disk directory belongs to a VM that was created here. */
  ghost predicate DirsOwned(h: Host) {
    forall id | id in h.dirs :: id in h.manifests && h.manifests[id].secret != NONE
  }

  lemma {:induction false} StepKeepsDirs(policy: Policy, h: Host, op: HostOp, h': Host)
    requires HostStep(policy, h, op, h') && DirsOwned(h)
    ensures DirsOwned(h')
  {
    forall id | id in h'.dirs
      ensures id in h'.manifests && h'.manifests[id].secret != NONE
    {
      if id in h.dirs {
        StepKeepsContent(policy, h, op, h', id);
      } else if op.OpEnsure? {
        var r :| Ensures(policy, h, h', op.instance, op.job, op.now, op.freeGiB, r);
        OnlyProvisionAdmits(policy, h, h', op.instance, op.job, op.now, op.freeGiB, r, id);
      } else {
        OthersAdmitNothing(policy, h, op, h', id);
      }
    }
  }

  lemma {:induction false} AlwaysDirsOwned(policy: Policy, hs: seq<Host>, ops: seq<HostOp>, n: nat)
    requires HostRun(policy, hs, ops) && n < |hs|
    ensures DirsOwned(hs[n])
  {
    if n > 0 {
      AlwaysDirsOwned(policy, hs, ops, n - 1);
      assert HostStep(policy, hs[n - 1], ops[n - 1], hs[n]);
      StepKeepsDirs(policy, hs[n - 1], ops[n - 1], hs[n]);
    }
  }

  /** What one VM really takes is set aside for it. */
  predicate Covered(h: Host, id: Key, k: Kind) {
    id in h.manifests ==>
      && 0 <= Owned(h.manifests[id]).Of(k)
      && (IsUp(h, id) ==> Part(h.manifests[id].instance.pool, k) <= Owned(h.manifests[id]).Of(k))
      && (id in h.dirs && k == Disk ==> Part(h.manifests[id].instance.pool, Disk) <= Owned(h.manifests[id]).Of(k))
  }

  lemma {:induction false} VMCovered(policy: Policy, h: Host, id: Key, k: Kind)
    requires HostOK(policy, h) && DirsOwned(h)
    ensures Covered(h, id, k)
  {
    assert VMOK(h, id);
    assert id in h.manifests ==> ManifestOK(policy, h, id);
  }

  lemma {:induction false} TakenWithinOwned(files: seq<Key>, h: Host, k: Kind)
    requires forall id | id in files :: Covered(h, id, k)
    ensures Running(files, h, k) <= OwnedOf(files, h.manifests, k)
    ensures k == Disk ==> Occupied(files, h) <= OwnedOf(files, h.manifests, k)
  {
    if files != [] {
      var last, front := files[|files| - 1], files[..|files| - 1];
      assert files == front + [last];
      assert last in files;
      TakenWithinOwned(front, h, k);
    }
  }

  /** In every state of every host run the domains that run and the
      directories that exist take no more than the local ceiling allows, and
      each of them has its manifest. */
  lemma {:induction false} AlwaysWithinCeiling(policy: Policy, hs: seq<Host>, ops: seq<HostOp>, n: nat)
    requires HostRun(policy, hs, ops) && policy.ceiling.NonNegative() && n < |hs|
    ensures Running(hs[n].files, hs[n], CPU) <= policy.ceiling.cpu
    ensures Running(hs[n].files, hs[n], Memory) <= policy.ceiling.memory
    ensures Running(hs[n].files, hs[n], Disk) <= policy.ceiling.disk
    ensures Occupied(hs[n].files, hs[n]) <= policy.ceiling.disk
    ensures forall id | id in hs[n].domains || id in hs[n].dirs :: id in hs[n].files
  {
    var h := hs[n];
    AlwaysHostOK(policy, hs, ops, n);
    AlwaysDirsOwned(policy, hs, ops, n);
    forall k: Kind
      ensures Running(h.files, h, k) <= policy.ceiling.Of(k) && (k == Disk ==> Occupied(h.files, h) <= policy.ceiling.Of(k))
    {
      forall id | id in h.files
        ensures Covered(h, id, k)
      {
        VMCovered(policy, h, id, k);
      }
      TakenWithinOwned(h.files, h, k);
    }
    assert Running(h.files, h, CPU) <= policy.ceiling.Of(CPU) && Running(h.files, h, Memory) <= policy.ceiling.Of(Memory);
    assert Running(h.files, h, Disk) <= policy.ceiling.Of(Disk);
    forall id | id in h.domains || id in h.dirs
      ensures id in h.files
    {
      assert VMOK(h, id);
    }
  }
}
