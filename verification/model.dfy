/** Configuration and instance records of internal/core/model.go. */
module Model {
  import opened Resources

  /** A name, identifier or digest: texts are compared, ordered and looked up
      but never taken apart, so a key is a number, 0 is the empty text and the
      numeric order is Go's byte order. */
  type Key = nat

  const NONE: Key := 0

  datatype Option<+T> = None | Some(value: T)

  const SECOND := 1_000_000_000
  const MINUTE := 60 * SECOND

  datatype Image = Image(name: Key, digest: Key, minimumRootGiB: int)

  datatype Node = Node(
    name: Key, budget: Resources, localCeiling: Resources,
    labels: map<Key, Key>, allowedPools: seq<Key>)

  datatype Pool = Pool(
    name: Key, runnerName: Key, image: Key,
    vcpu: int, memoryMiB: int, overheadMiB: int,
    rootGiB: int, scratchGiB: int, diskOverheadGiB: int,
    maxRunners: int, warmIdle: int, executionMinutes: int,
    nodeSelector: map<Key, Key>, nodeName: Key,
    enabled: bool, tasks: bool)
  {
    function Charge(): Resources {
      Resources(vcpu, memoryMiB + overheadMiB, rootGiB + scratchGiB + diskOverheadGiB)
    }

    predicate SizesOK() {
      && 1 <= vcpu <= 65536
      && 512 <= memoryMiB <= 1073741824
      && 512 <= overheadMiB <= 1048576
      && 1 <= rootGiB <= 1048576
      && 0 <= scratchGiB <= 1048576
      && 1 <= diskOverheadGiB <= 1024
    }
  }

  datatype Reservation = Reservation(name: Key, node: Key, pool: Key, slots: int)

  /** The github block: whether one was given, and whether its own checks
      (URL, group ID, credential path, repositories) accept it. */
  datatype GitHubBlock = GitHubBlock(given: bool, accepted: bool)

  /** `supported` says whether apiVersion is the one this program reads. */
  datatype Config = Config(
    supported: bool, name: Key, github: GitHubBlock,
    images: seq<Image>, nodes: seq<Node>, pools: seq<Pool>,
    reservations: seq<Reservation>)
  {
    predicate UsesGitHub() {
      github.given || exists i | 0 <= i < |pools| :: !pools[i].tasks
    }

    function Pool(s: Key): Option<Pool> {
      FindPool(pools, s)
    }

    function Node(s: Key): Option<Node> {
      FindNode(nodes, s)
    }

    function Image(s: Key): Option<Image> {
      FindImage(images, s)
    }

    /** Go returns the zero Pool beside `false`; its charge is zero. */
    function ChargeOf(pool: Key): Resources {
      match Pool(pool)
      case Some(p) => p.Charge()
      case None => ZERO
    }

    function MinimumRoot(image: Key): int {
      match Image(image)
      case Some(im) => im.minimumRootGiB
      case None => 0
    }
  }

  const EMPTY_CONFIG := Config(false, NONE, GitHubBlock(false, false), [], [], [], [])

  function FindPool(ps: seq<Pool>, s: Key): Option<Pool> {
    if ps == [] then None else if ps[0].name == s then Some(ps[0]) else FindPool(ps[1..], s)
  }

  function FindNode(ns: seq<Node>, s: Key): Option<Node> {
    if ns == [] then None else if ns[0].name == s then Some(ns[0]) else FindNode(ns[1..], s)
  }

  function FindImage(xs: seq<Image>, s: Key): Option<Image> {
    if xs == [] then None else if xs[0].name == s then Some(xs[0]) else FindImage(xs[1..], s)
  }

  predicate Eligible(p: Pool, n: Node) {
    && (p.nodeName == NONE || p.nodeName == n.name)
    && p.name in n.allowedPools
    && forall k | k in p.nodeSelector :: (if k in n.labels then n.labels[k] else NONE) == p.nodeSelector[k]
  }

  // ---- Lookups under unique names ----

  predicate UniquePools(ps: seq<Pool>) {
    forall i, j | 0 <= i < j < |ps| :: ps[i].name != ps[j].name
  }

  predicate UniqueNodes(ns: seq<Node>) {
    forall i, j | 0 <= i < j < |ns| :: ns[i].name != ns[j].name
  }

  predicate UniqueImages(xs: seq<Image>) {
    forall i, j | 0 <= i < j < |xs| :: xs[i].name != xs[j].name
  }

  predicate UniqueReservations(rs: seq<Reservation>) {
    forall i, j | 0 <= i < j < |rs| :: rs[i].name != rs[j].name
  }

  lemma {:induction false} FindPoolSound(ps: seq<Pool>, s: Key)
    ensures FindPool(ps, s).Some? <==> exists i | 0 <= i < |ps| :: ps[i].name == s
    ensures FindPool(ps, s).Some? ==> FindPool(ps, s).value in ps && FindPool(ps, s).value.name == s
  {
    if ps != [] {
      FindPoolSound(ps[1..], s);
      assert forall i | 1 <= i < |ps| :: ps[i] == ps[1..][i - 1];
      if i :| 0 <= i < |ps| && ps[i].name == s && i > 0 {
        assert ps[1..][i - 1].name == s;
      }
    }
  }

  lemma {:induction false} FindPoolUnique(ps: seq<Pool>, i: nat)
    requires i < |ps| && UniquePools(ps)
    ensures FindPool(ps, ps[i].name) == Some(ps[i])
  {
    if i > 0 {
      assert ps[0].name != ps[i].name;
      FindPoolUnique(ps[1..], i - 1);
    }
  }

  lemma {:induction false} FindNodeSound(ns: seq<Node>, s: Key)
    ensures FindNode(ns, s).Some? <==> exists i | 0 <= i < |ns| :: ns[i].name == s
    ensures FindNode(ns, s).Some? ==> FindNode(ns, s).value in ns && FindNode(ns, s).value.name == s
  {
    if ns != [] {
      FindNodeSound(ns[1..], s);
      assert forall i | 1 <= i < |ns| :: ns[i] == ns[1..][i - 1];
      if i :| 0 <= i < |ns| && ns[i].name == s && i > 0 {
        assert ns[1..][i - 1].name == s;
      }
    }
  }

  lemma {:induction false} FindNodeUnique(ns: seq<Node>, i: nat)
    requires i < |ns| && UniqueNodes(ns)
    ensures FindNode(ns, ns[i].name) == Some(ns[i])
  {
    if i > 0 {
      assert ns[0].name != ns[i].name;
      FindNodeUnique(ns[1..], i - 1);
    }
  }

  lemma {:induction false} FindImageSound(xs: seq<Image>, s: Key)
    ensures FindImage(xs, s).Some? <==> exists i | 0 <= i < |xs| :: xs[i].name == s
    ensures FindImage(xs, s).Some? ==> FindImage(xs, s).value in xs && FindImage(xs, s).value.name == s
  {
    if xs != [] {
      FindImageSound(xs[1..], s);
      assert forall i | 1 <= i < |xs| :: xs[i] == xs[1..][i - 1];
      if i :| 0 <= i < |xs| && xs[i].name == s && i > 0 {
        assert xs[1..][i - 1].name == s;
      }
    }
  }

  // ---- Instances ----

  /** The request column: "task:" and a task ID, or any other text. */
  datatype Request = Runner(key: Key) | ForTask(task: Key)

  datatype InstanceState =
    | Reserved | Provisioning | Idle | Busy | Stopping | Deleting | Deleted

  /** One row of the instances table; `jit` is the length of the encrypted
      runner configuration, 0 standing for NULL. */
  datatype Instance = Instance(
    id: Key, request: Request, node: Key, pool: Pool, image: Image,
    state: InstanceState, reservation: Key, held: Resources,
    runnerID: int, result: Key, created: int, deadline: int, updated: int,
    jitReady: bool, task: Key, jit: nat)
  {
    predicate Active() {
      state != Deleted && state != Deleting
    }
  }

  /** ValidateInstance, which both ends check. */
  predicate ValidInstance(a: Instance) {
    && a.pool.SizesOK() && a.pool.Charge().Valid()
    && a.id != NONE && a.node != NONE && a.pool.name != NONE && a.image.digest != NONE
  }

  datatype ReportState = VMRunning | VMStopped | VMDeleted | VMFailed | VMUnknown | VMOther

  datatype VMReport = VMReport(id: Key, state: ReportState)

  /** The nodes row. `drained` is a column of its own and survives reports. */
  datatype Observation = Observation(
    sequence: int, seen: int, ready: bool, drained: bool, isolation: bool,
    ceiling: Resources, freeDiskGiB: int, digests: seq<Key>)
}
