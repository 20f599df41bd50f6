/** The three-component resource vector of internal/core/model.go and its
    64-bit arithmetic. */
module Resources {

  datatype Kind = CPU | Memory | Disk

  datatype Resources = Resources(cpu: int, memory: int, disk: int) {

    function Of(k: Kind): int {
      match k
      case CPU => cpu
      case Memory => memory
      case Disk => disk
    }

    function Add(s: Resources): Resources {
      Resources(cpu + s.cpu, memory + s.memory, disk + s.disk)
    }

    function Sub(s: Resources): Resources {
      Resources(cpu - s.cpu, memory - s.memory, disk - s.disk)
    }

    function Mul(n: int): Resources {
      Resources(cpu * n, memory * n, disk * n)
    }

    /** Note the source's asymmetry: only the left operand must be non-negative. */
    predicate Fits(s: Resources) {
      && 0 <= cpu <= s.cpu
      && 0 <= memory <= s.memory
      && 0 <= disk <= s.disk
    }

    predicate Empty() {
      this == ZERO
    }

    predicate Valid() {
      && 0 < cpu <= 65536
      && 512 <= memory <= 1073741824
      && 0 < disk <= 1073741824
    }

    /** What remains of a charge once shutdown is confirmed. */
    function DiskPart(): Resources {
      Resources(0, 0, disk)
    }

    predicate NonNegative() {
      0 <= cpu && 0 <= memory && 0 <= disk
    }

    predicate Within(bound: int) {
      -bound <= cpu <= bound && -bound <= memory <= bound && -bound <= disk <= bound
    }
  }

  const ZERO := Resources(0, 0, 0)

  // ---- Two's-complement 64-bit arithmetic, as Go evaluates it ----

  const HALF := 0x8000_0000_0000_0000

  predicate InRange(x: int) {
    -HALF <= x < HALF
  }

  /** The int64 value that a mathematical result wraps to. */
  function Wrap(x: int): int {
    if InRange(x) then x else (x + HALF) % (2 * HALF) - HALF
  }

  lemma {:induction false} WrapCongruent(x: int)
    ensures InRange(Wrap(x))
    ensures (Wrap(x) - x) % (2 * HALF) == 0
  {
    if !InRange(x) {
      var q := (x + HALF) / (2 * HALF);
      assert x + HALF == q * (2 * HALF) + (x + HALF) % (2 * HALF);
      assert Wrap(x) - x == -q * (2 * HALF);
    }
  }

  function WrapAll(r: Resources): Resources {
    Resources(Wrap(r.cpu), Wrap(r.memory), Wrap(r.disk))
  }

  function Add64(a: Resources, b: Resources): Resources {
    WrapAll(a.Add(b))
  }

  function Sub64(a: Resources, b: Resources): Resources {
    WrapAll(a.Sub(b))
  }

  function Mul64(a: Resources, n: int): Resources {
    WrapAll(a.Mul(n))
  }

  lemma {:induction false} WrapAllIdentity(r: Resources)
    requires r.Within(HALF - 1)
    ensures WrapAll(r) == r
  {
  }

  lemma {:induction false} MulSucc(r: Resources, n: int, k: Kind)
    ensures r.Mul(n + 1).Of(k) == r.Mul(n).Of(k) + r.Of(k)
  {
  }

  lemma {:induction false} MulMonotone(r: Resources, n: int, m: int, k: Kind)
    requires r.NonNegative() && n <= m
    ensures r.Mul(n).Of(k) <= r.Mul(m).Of(k)
  {
  }

  /** Vectors are compared component by component. */
  lemma {:induction false} FitsByKind(r: Resources, s: Resources)
    ensures r.Fits(s) <==> forall k: Kind :: 0 <= r.Of(k) <= s.Of(k)
  {
    assert (forall k: Kind :: 0 <= r.Of(k) <= s.Of(k)) ==>
      0 <= r.Of(CPU) <= s.Of(CPU) && 0 <= r.Of(Memory) <= s.Of(Memory) && 0 <= r.Of(Disk) <= s.Of(Disk);
  }
}
