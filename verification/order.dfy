/** The total-order sorts of internal/core/store.go. */
module Order {

  // ---- Sorting by a strict total order ----

  ghost predicate StrictTotalOn<T(!new)>(less: (T, T) -> bool, s: set<T>) {
    && (forall a | a in s :: !less(a, a))
    && (forall a, b | a in s && b in s :: a == b || less(a, b) || less(b, a))
    && (forall a, b, c | a in s && b in s && c in s && less(a, b) && less(b, c) :: less(a, c))
  }

  ghost predicate Sorted<T>(less: (T, T) -> bool, s: seq<T>) {
    forall i, j | 0 <= i < j < |s| :: !less(s[j], s[i])
  }

  function Elements<T>(s: seq<T>): set<T> {
    set x | x in s
  }

  function Insert<T>(less: (T, T) -> bool, x: T, s: seq<T>): seq<T> {
    if s == [] || !less(s[0], x) then [x] + s else [s[0]] + Insert(less, x, s[1..])
  }

  /** Stands for Go's library sort; SortUnique shows that the choice of
      algorithm does not matter under a strict total order. */
  function Sort<T>(less: (T, T) -> bool, s: seq<T>): seq<T> {
    if s == [] then [] else Insert(less, s[0], Sort(less, s[1..]))
  }

  lemma {:induction false} InsertKeeps<T>(less: (T, T) -> bool, x: T, s: seq<T>)
    ensures multiset(Insert(less, x, s)) == multiset(s) + multiset{x}
  {
    if s != [] && less(s[0], x) {
      InsertKeeps(less, x, s[1..]);
      assert s == [s[0]] + s[1..];
    }
  }

  lemma {:induction false} SameElements<T>(s: seq<T>, t: seq<T>)
    requires multiset(s) == multiset(t)
    ensures |s| == |t|
    ensures forall x :: x in s <==> x in t
  {
    assert |multiset(s)| == |s| && |multiset(t)| == |t|;
    forall x
      ensures x in s <==> x in t
    {
      assert x in s <==> x in multiset(s);
      assert x in t <==> x in multiset(t);
    }
  }

  lemma {:induction false} SortPermutes<T>(less: (T, T) -> bool, s: seq<T>)
    ensures multiset(Sort(less, s)) == multiset(s)
    ensures |Sort(less, s)| == |s|
    ensures forall x :: x in Sort(less, s) <==> x in s
  {
    if s != [] {
      SortPermutes(less, s[1..]);
      InsertKeeps(less, s[0], Sort(less, s[1..]));
      assert s == [s[0]] + s[1..];
    }
    SameElements(Sort(less, s), s);
  }

  lemma {:induction false} InsertSorted<T(!new)>(less: (T, T) -> bool, x: T, s: seq<T>)
    requires Sorted(less, s)
    requires StrictTotalOn(less, Elements(s) + {x})
    ensures Sorted(less, Insert(less, x, s))
  {
    if s != [] && less(s[0], x) {
      var t := s[1..];
      assert Elements(t) + {x} <= Elements(s) + {x};
      InsertSorted(less, x, t);
      InsertKeeps(less, x, t);
      var r := Insert(less, x, t);
      forall k | 0 <= k < |r|
        ensures !less(r[k], s[0])
      {
        assert r[k] in multiset(r);
        assert s[0] in Elements(s) + {x} && x in Elements(s) + {x};
        if r[k] != x {
          assert r[k] in multiset(t);
          var m :| 0 <= m < |t| && t[m] == r[k];
          assert t[m] == s[m + 1];
        }
      }
    } else if s != [] {
      forall k | 0 <= k < |s|
        ensures !less(s[k], x)
      {
        var all := Elements(s) + {x};
        var y, z := s[k], s[0];
        assert y in all && z in all && x in all;
        assert k > 0 ==> !less(y, z);
        assert y == z || less(z, y) || less(y, z);
      }
    }
  }

  lemma {:induction false} SortSorts<T(!new)>(less: (T, T) -> bool, s: seq<T>)
    requires StrictTotalOn(less, Elements(s))
    ensures Sorted(less, Sort(less, s))
  {
    if s != [] {
      SortSorts(less, s[1..]) by { assert Elements(s[1..]) <= Elements(s); }
      SortPermutes(less, s[1..]);
      assert Elements(Sort(less, s[1..])) + {s[0]} <= Elements(s);
      InsertSorted(less, s[0], Sort(less, s[1..]));
    }
  }

  lemma {:induction false} FirstAgrees<T(!new)>(less: (T, T) -> bool, s: seq<T>, t: seq<T>)
    requires Sorted(less, s) && Sorted(less, t)
    requires multiset(s) == multiset(t) && |s| > 0 && |t| > 0
    requires StrictTotalOn(less, Elements(s))
    ensures s[0] == t[0]
  {
    assert t[0] in multiset(s) && s[0] in multiset(t);
    var i :| 0 <= i < |s| && s[i] == t[0];
    var j :| 0 <= j < |t| && t[j] == s[0];
    assert s[i] in Elements(s) && s[0] in Elements(s);
    assert i > 0 ==> !less(s[i], s[0]);
    assert j > 0 ==> !less(t[j], t[0]);
  }

  /** Any sorted permutation is the same sequence: sort.Slice, which is not
      stable, is deterministic here. */
  lemma {:induction false} SortUnique<T(!new)>(less: (T, T) -> bool, s: seq<T>, t: seq<T>)
    requires Sorted(less, s) && Sorted(less, t)
    requires multiset(s) == multiset(t)
    requires StrictTotalOn(less, Elements(s))
    ensures s == t
  {
    assert |multiset(s)| == |s| && |multiset(t)| == |t|;
    if s != [] {
      FirstAgrees(less, s, t);
      assert s == [s[0]] + s[1..] && t == [t[0]] + t[1..];
      assert multiset(s[1..]) == multiset(s) - multiset{s[0]};
      assert multiset(t[1..]) == multiset(t) - multiset{t[0]};
      assert StrictTotalOn(less, Elements(s[1..])) by {
        assert Elements(s[1..]) <= Elements(s);
      }
      SortUnique(less, s[1..], t[1..]);
    }
  }
}
