/** The provider's methods, effect by effect. */
module Provider {
  import opened Resources
  import opened Model
  import opened Hosting

  datatype DomainState = DomainRunning | DomainStopped | DomainAbsent | DomainUnknown

  /** Every effect may fail, with or without having happened where virsh gives
      an ambiguous answer; returning early is also where the agent crashes.
      Nothing ends Faulted for any other reason. */
  class Libvirt {
    const policy: Policy
    var manifests: map<Key, Manifest>
    var files: seq<Key>
    var domains: map<Key, bool>
    var dirs: set<Key>
    var started: multiset<Key>
    /** How many effects and queries have failed. */
    ghost var failures: nat

    constructor (policy: Policy)
      ensures this.policy == policy && View() == EMPTY_HOST
    {
      this.policy := policy;
      manifests, files, domains, dirs, started := map[], [], map[], {}, multiset{};
      failures := 0;
    }

    ghost function View(): Host
      reads this
    {
      Host(manifests, files, domains, dirs, started)
    }

    /** Whether the next effect or query fails. */
    method Fails() returns (failed: bool)
      modifies `failures
      ensures failures == old(failures) + if failed then 1 else 0
    {
      failed := *;
      if failed {
        failures := failures + 1;
      }
    }

    /** Time passes, and guests may power off. */
    method Guests()
      modifies `domains
      ensures Fades(old(domains), domains)
    {
      var off: set<Key> := *;
      domains := map id | id in domains :: domains[id] && id !in off;
    }

    method DomainState(id: Key) returns (state: DomainState)
      modifies `domains, `failures
      ensures failures >= old(failures) && (state == DomainUnknown ==> failures > old(failures))
      ensures Fades(old(domains), domains)
      ensures state == DomainRunning ==> id in domains && domains[id]
      ensures state == DomainStopped ==> id in domains && !domains[id]
      ensures state == DomainAbsent ==> id !in domains
    {
      Guests();
      var failed := Fails();
      if failed {
        return DomainUnknown;
      }
      return if id !in domains then DomainAbsent else if domains[id] then DomainRunning else DomainStopped;
    }

    /** WritePrivate replaces the file atomically or fails. */
    method Save(m: Manifest) returns (ok: bool)
      modifies `manifests, `files, `failures
      ensures failures >= old(failures) && (!ok ==> failures > old(failures))
      ensures ok ==> manifests == old(manifests)[m.instance.id := m]
      ensures ok ==> files == if m.instance.id in old(manifests) then old(files) else old(files) + [m.instance.id]
      ensures !ok ==> manifests == old(manifests) && files == old(files)
    {
      var failed := Fails();
      if failed {
        return false;
      }
      if m.instance.id !in manifests {
        files := files + [m.instance.id];
      }
      manifests := manifests[m.instance.id := m];
      return true;
    }

    method LedgerOf(skip: Key) returns (used: Resources)
      ensures used == Used(View(), skip)
    {
      used := ZERO;
      for i := 0 to |files|
        invariant used == Resources(UsedOf(files[..i], manifests, skip, CPU), UsedOf(files[..i], manifests, skip, Memory),
                                    UsedOf(files[..i], manifests, skip, Disk))
      {
        assert files[..i + 1][..i] == files[..i];
        var id := files[i];
        if id == skip || id !in manifests || manifests[id].phase == PhaseDeleted {
          continue;
        }
        var charge := manifests[id].instance.pool.Charge();
        if manifests[id].phase == PhaseStopped {
          charge := charge.(cpu := 0, memory := 0);
        }
        used := used.Add(charge);
      }
      assert files[..|files|] == files;
    }

    /** A VM whose start was issued before: look, and record what is seen. */
    method Revisit(id: Key) returns (r: Effect)
      requires id in manifests && Named(manifests)
      requires manifests[id].phase == PhaseStartIssued || manifests[id].phase == PhaseRunning
      modifies `manifests, `files, `domains, `failures
      ensures failures >= old(failures) && (r == Faulted ==> failures > old(failures))
      ensures Revisited(old(View()), View(), id, r) || (Untouched(old(View()), View()) && r == Faulted)
    {
      var m := manifests[id];
      var state := DomainState(id);
      var saved := false;
      if state != DomainUnknown {
        saved := Save(m.(phase := if state == DomainRunning then PhaseRunning else PhaseStopped));
      }
      r := if saved then Done else Faulted;
    }

    method Ensure(a: Instance, w: Job, now: int, freeGiB: int) returns (r: Effect)
      requires Named(manifests)
      modifies this
      ensures failures >= old(failures) && (r == Faulted ==> failures > old(failures))
      ensures Ensures(policy, old(View()), View(), a, w, now, freeGiB, r)
    {
      if !WithinPolicy(policy, a, w) {
        return Refused;
      }
      if a.id in manifests {
        var m := manifests[a.id];
        if !SameRequest(m, a, w) {
          return Refused;
        }
        if m.phase == PhaseDeleted || m.phase == PhaseStopped {
          return Done;
        }
        if m.phase == PhaseStartIssued || m.phase == PhaseRunning {
          r := Revisit(a.id);
          return;
        }
      }
      if now >= a.deadline || (w.kind == TaskJob && a.deadline - now < MINIMUM_TASK_TIME) {
        return Refused;
      }
      var failed := Fails();
      if failed {
        return Faulted;  // host not ready, image not verified or storage unusable
      }
      var used := LedgerOf(a.id);
      if !used.Add(a.pool.Charge()).Fits(policy.ceiling) || freeGiB < used.disk + a.pool.Charge().disk + 2 {
        return Refused;
      }
      r := Provision(a, w);
    }

    /** The manifest, then the disks. */
    method Prepare(a: Instance, w: Job) returns (ok: bool)
      modifies `manifests, `files, `dirs, `failures
      ensures failures >= old(failures) && (!ok ==> failures > old(failures))
      ensures ok ==> dirs == old(dirs) + {a.id}
      ensures (manifests == old(manifests) && files == old(files) && dirs == old(dirs) && !ok)
           || (manifests == old(manifests)[a.id := NewManifest(a, w, PhasePrepared)]
               && files == (if a.id in old(manifests) then old(files) else old(files) + [a.id])
               && (dirs == old(dirs) || dirs == old(dirs) + {a.id}))
    {
      ok := Save(NewManifest(a, w, PhasePrepared));
      if !ok {
        return;
      }
      var failed := Fails();
      if failed {
        return false;
      }
      dirs := dirs + {a.id};
      failed := Fails();
      if failed {
        return false;  // base image, disks, seed, console or domain XML
      }
    }

    method Define(id: Key) returns (r: Effect)
      modifies `domains, `failures
      ensures failures >= old(failures) && (r == Faulted ==> failures > old(failures))
      ensures forall k | k != id :: k in domains <==> k in old(domains)
      ensures forall k | k in domains && domains[k] :: k in old(domains) && old(domains)[k]
      ensures id in old(domains) ==> id in domains
      ensures r == Refused ==> id in domains && domains[id]
    {
      var state := DomainState(id);
      if state == DomainUnknown {
        return Faulted;
      }
      if state == DomainRunning {
        return Refused;
      }
      if state == DomainAbsent {
        var failed := Fails();
        if failed {
          return Faulted;
        }
        domains := domains[id := false];
        failed := Fails();
        if failed {
          return Faulted;
        }
      }
      return Done;
    }

    /** The domain, the start intent and the start. */
    method Launch(a: Instance, w: Job) returns (r: Effect)
      requires a.id in manifests && manifests[a.id] == NewManifest(a, w, PhasePrepared)
      modifies this
      ensures failures >= old(failures) && (r == Faulted ==> failures > old(failures))
      ensures files == old(files) && dirs == old(dirs)
      ensures a.id in manifests && PhaseRank(manifests[a.id].phase) <= PhaseRank(PhaseRunning)
      ensures manifests == old(manifests)[a.id := NewManifest(a, w, manifests[a.id].phase)]
      ensures forall k | k != a.id :: k in domains <==> k in old(domains)
      ensures forall k | k in domains && domains[k] ::
                (k in old(domains) && old(domains)[k]) || (k == a.id && started == old(started) + multiset{a.id})
      ensures started == old(started) || (started == old(started) + multiset{a.id} && manifests[a.id].phase != PhasePrepared)
      ensures r == Done ==> manifests[a.id].phase == PhaseRunning && started == old(started) + multiset{a.id}
      ensures r == Refused ==> a.id in old(domains) && old(domains)[a.id]
    {
      r := Define(a.id);
      if r == Done {
        var ok := Save(NewManifest(a, w, PhaseStartIssued));
        if ok {
          r := Start(a, w);
        } else {
          r := Faulted;
        }
      }
    }

    /** The effects of ensure, in order: manifest, disks, domain, start
        intent, start. */
    method Provision(a: Instance, w: Job) returns (r: Effect)
      requires Affordable(policy, View(), a)
      requires a.id in manifests ==> manifests[a.id].phase == PhasePrepared && SameRequest(manifests[a.id], a, w)
      modifies this
      ensures failures >= old(failures) && (r == Faulted ==> failures > old(failures))
      ensures (Untouched(old(View()), View()) && r == Faulted) || Provisioned(policy, old(View()), View(), a, w, r)
    {
      r := Faulted;
      var ok := Prepare(a, w);
      if ok {
        r := Launch(a, w);
      }
    }

    /** virsh start, once the intent is durable. */
    method Start(a: Instance, w: Job) returns (r: Effect)
      requires a.id in manifests && manifests[a.id] == NewManifest(a, w, PhaseStartIssued)
      modifies this
      ensures failures >= old(failures) && (r == Faulted ==> failures > old(failures))
      ensures files == old(files) && dirs == old(dirs)
      ensures manifests == old(manifests) || manifests == old(manifests)[a.id := NewManifest(a, w, PhaseRunning)]
      ensures domains.Keys == old(domains).Keys
      ensures forall k | k in domains && domains[k] :: old(domains[k]) || (k == a.id && started == old(started) + multiset{a.id})
      ensures started == old(started) || started == old(started) + multiset{a.id}
      ensures r != Refused && (r == Done ==> manifests[a.id].phase == PhaseRunning && started == old(started) + multiset{a.id})
    {
      var failed := Fails();
      if failed {
        return Faulted;
      }
      started := started + multiset{a.id};
      var up: bool := *;
      if a.id in domains {
        domains := domains[a.id := up];
      }
      Guests();
      failed := Fails();
      if failed {
        return Faulted;
      }
      var saved := Save(NewManifest(a, w, PhaseRunning));
      return if saved then Done else Faulted;
    }

    method Destroy(id: Key) returns (ok: bool)
      modifies `domains, `failures
      ensures failures >= old(failures) && (!ok ==> failures > old(failures))
      ensures Fades(old(domains), domains)
      ensures ok ==> !(id in domains && domains[id])
    {
      var state := DomainState(id);
      if state == DomainRunning {
        var failed := Fails();
        if failed {
          return false;
        }
        domains := domains[id := false];
        failed := Fails();
        if failed {
          return false;
        }
      }
      return state != DomainUnknown;
    }

    method Stop(id: Key) returns (r: Effect)
      requires Named(manifests)
      modifies `manifests, `files, `domains, `failures
      ensures failures >= old(failures) && (r == Faulted ==> failures > old(failures))
      ensures Stops(old(View()), View(), id, r)
    {
      if id !in manifests {
        return Refused;
      }
      var m := manifests[id];
      if m.phase == PhaseDeleted {
        return Done;
      }
      var ok := Destroy(id);
      if ok {
        ok := Save(m.(phase := PhaseStopped));
      }
      r := if ok then Done else Faulted;
    }

    method Delete(id: Key) returns (r: Effect)
      requires Named(manifests)
      modifies `manifests, `files, `domains, `dirs, `failures
      ensures failures >= old(failures) && (r == Faulted ==> failures > old(failures))
      ensures Deletes(old(View()), View(), id, r)
    {
      if id !in manifests {
        return Refused;
      }
      var m := manifests[id];
      if m.phase == PhaseDeleted {
        return Done;
      }
      var state := DomainState(id);
      if state == DomainUnknown {
        return Faulted;
      }
      if state == DomainRunning {
        return Refused;
      }
      var failed := false;
      if state == DomainStopped {
        failed := Fails();
        if failed {
          return Faulted;
        }
        domains := domains - {id};
        failed := Fails();
        if failed {
          return Faulted;
        }
      }
      failed := Fails();
      if failed {
        return Faulted;
      }
      dirs := dirs - {id};
      failed := Fails();
      if failed {
        return Faulted;
      }
      var saved := Save(m.(phase := PhaseDeleted));
      return if saved then Done else Faulted;
    }

    method EnsureStopIntent(a: Instance) returns (r: Effect)
      modifies `manifests, `files, `domains, `failures
      ensures failures >= old(failures) && (r == Faulted ==> failures > old(failures))
      ensures CertifiesStop(policy, old(View()), View(), a, r)
    {
      if !ValidInstance(a) || a.node != policy.node {
        return Refused;
      }
      if a.id in manifests {
        return Done;
      }
      var state := DomainState(a.id);
      if state == DomainUnknown {
        return Faulted;
      }
      if state != DomainAbsent || a.id in dirs {
        return Refused;
      }
      var saved := Save(Manifest(a, PhaseStopped, NONE, false, false));
      return if saved then Done else Faulted;
    }

    /** One file of the survey; the agent's console bookkeeping is left out. */
    method Survey(id: Key) returns (state: ReportState, certain: bool, ok: bool)
      requires id in manifests && Named(manifests)
      modifies `manifests, `files, `domains, `failures
      ensures failures >= old(failures) && (!ok || !certain ==> failures > old(failures))
      ensures files == old(files) && manifests.Keys == old(manifests).Keys && Fades(old(domains), domains)
      ensures Named(manifests)
      ensures forall k | k in manifests && k != id :: manifests[k] == old(manifests)[k]
      ensures ok ==> Reported(old(View()), View(), id, state, !certain)
      ensures !ok ==> manifests == old(manifests)
    {
      var m := manifests[id];
      if m.phase == PhaseDeleted {
        return VMDeleted, true, true;
      }
      var seen := DomainState(id);
      match seen
      case DomainUnknown => return VMUnknown, false, true;
      case DomainRunning => return VMRunning, true, true;
      case _ =>
        if seen == DomainAbsent && m.phase == PhasePrepared {
          return VMUnknown, true, true;
        }
        ok := Save(m.(phase := PhaseStopped));
        return VMStopped, true, ok;
    }

    method Inventory() returns (ok: bool, reports: seq<VMReport>, uncertain: set<Key>)
      requires Listed(View())
      requires Named(manifests)
      modifies `manifests, `files, `domains, `failures
      ensures failures >= old(failures) && (!ok || uncertain != {} ==> failures > old(failures))
      ensures files == old(files)
      ensures ok ==> Surveyed(old(View()), View(), |old(files)|, reports, uncertain)
      ensures !ok ==> CutShort(old(View()), View())
    {
      ghost var was, sound := View(), failures;
      reports, uncertain := [], {};
      for i := 0 to |files|
        invariant files == was.files && manifests.Keys == was.manifests.Keys
        invariant Named(manifests)
        invariant failures >= sound && (uncertain != {} ==> failures > sound)
        invariant Surveyed(was, View(), i, reports, uncertain)
      {
        var id := files[i];
        ghost var before := View();
        var state, certain, saved := Survey(id);
        if !saved {
          SurveyCut(was, before, i, reports, uncertain);
          return false, [], {};
        }
        SurveyMore(was, before, View(), i, reports, uncertain, state, !certain);
        reports := reports + [VMReport(id, state)];
        if !certain {
          uncertain := uncertain + {id};
        }
      }
      ok := true;
    }
  }
}
