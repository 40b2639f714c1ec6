/** Lua's table.sort: median-of-three quicksort in place, recursing on the smaller side. */
module TableSort {
  import opened Powers

  /** A comparator without contradictions: a strict weak order. */
  ghost predicate StrictWeakOrder<T(!new)>(less: (T, T) -> bool) {
    && (forall x :: !less(x, x))
    && (forall x, y, z :: less(x, y) && less(y, z) ==> less(x, z))
    && (forall x, y, z :: !less(x, y) && !less(y, z) ==> !less(x, z))
  }

  /** x may stand before y. */
  predicate Leq<T>(less: (T, T) -> bool, x: T, y: T) { !less(y, x) }

  /** All pairs of positions in [lo, hi] are in order, except those with both in [l, u]. */
  ghost predicate OrderedBut<T>(less: (T, T) -> bool, a: seq<T>, lo: int, hi: int, l: int, u: int)
    requires 0 <= lo && hi < |a|
  {
    forall x, y :: lo <= x < y <= hi && !(l <= x && y <= u) ==> Leq(less, a[x], a[y])
  }

  ghost predicate Sorted<T>(less: (T, T) -> bool, a: seq<T>, lo: int, hi: int)
    requires 0 <= lo && hi < |a|
  {
    forall x, y :: lo <= x < y <= hi ==> Leq(less, a[x], a[y])
  }

  /** b is a permutation of a that moves nothing outside [l, u]. */
  ghost predicate Permuted<T>(a: seq<T>, b: seq<T>, l: int, u: int) {
    && |a| == |b| && multiset(a) == multiset(b)
    && forall k :: 0 <= k < |a| && !(l <= k <= u) ==> b[k] == a[k]
  }

  lemma PermutedTrans<T>(a: seq<T>, b: seq<T>, c: seq<T>, l: int, u: int, l': int, u': int)
    requires Permuted(a, b, l, u) && Permuted(b, c, l', u') && l <= l' && u' <= u
    ensures Permuted(a, c, l, u)
  {
  }

  lemma SwapPermutes<T>(a: seq<T>, i: int, j: int, l: int, u: int)
    requires 0 <= i < |a| && 0 <= j < |a| && l <= i <= u && l <= j <= u
    ensures Permuted(a, a[i := a[j]][j := a[i]], l, u)
  {
    SwapMultiset(a, i, j);
  }

  lemma SwapMultiset<T>(a: seq<T>, i: int, j: int)
    requires 0 <= i < |a| && 0 <= j < |a|
    ensures multiset(a[i := a[j]][j := a[i]]) == multiset(a)
  {
  }

  /** The elements of [l, u] are the same before and after. */
  lemma PermutedElement<T>(a: seq<T>, b: seq<T>, l: int, u: int, k: int) returns (j: int)
    requires Permuted(a, b, l, u) && 0 <= l <= k <= u < |a|
    ensures l <= j <= u && a[j] == b[k]
  {
    SegmentMultiset(a, b, l, u);
    var s, t := a[l..u + 1], b[l..u + 1];
    assert t[k - l] in multiset(t);
    assert t[k - l] in multiset(s);
    var c :| 0 <= c < |s| && s[c] == t[k - l];
    j := l + c;
  }

  lemma SegmentMultiset<T>(a: seq<T>, b: seq<T>, l: int, u: int)
    requires Permuted(a, b, l, u) && 0 <= l <= u < |a|
    ensures multiset(a[l..u + 1]) == multiset(b[l..u + 1])
  {
    assert a[..l] == b[..l] && a[u + 1..] == b[u + 1..];
    ThreeParts(a, l, u);
    ThreeParts(b, l, u);
    Cancel(multiset(a[..l]), multiset(a[l..u + 1]), multiset(b[l..u + 1]), multiset(a[u + 1..]));
  }

  lemma ThreeParts<T>(a: seq<T>, l: int, u: int)
    requires 0 <= l <= u < |a|
    ensures multiset(a) == multiset(a[..l]) + multiset(a[l..u + 1]) + multiset(a[u + 1..])
  {
    var p, q, r := a[..l], a[l..u + 1], a[u + 1..];
    assert a == (p + q) + r;
  }

  lemma Cancel<T>(p: multiset<T>, q: multiset<T>, q': multiset<T>, r: multiset<T>)
    requires p + q + r == p + q' + r
    ensures q == q'
  {
    forall x ensures q[x] == q'[x] {
      assert (p + q + r)[x] == p[x] + q[x] + r[x];
      assert (p + q' + r)[x] == p[x] + q'[x] + r[x];
    }
  }

  /** Permuting [l, u] keeps the order of all pairs that do not lie in it. */
  lemma PermutedOrder<T>(less: (T, T) -> bool, a: seq<T>, b: seq<T>, lo: int, hi: int, l: int, u: int)
    requires 0 <= lo <= l && u <= hi < |a| && Permuted(a, b, l, u) && OrderedBut(less, a, lo, hi, l, u)
    ensures OrderedBut(less, b, lo, hi, l, u)
  {
    forall x, y | lo <= x < y <= hi && !(l <= x && y <= u) ensures Leq(less, b[x], b[y]) {
      var x', y' := x, y;
      if l <= x <= u {
        x' := PermutedElement(a, b, l, u, x);
      }
      if l <= y <= u {
        y' := PermutedElement(a, b, l, u, y);
      }
      assert Leq(less, a[x'], a[y']);
    }
  }

  /** a[l..i] are at most the pivot and a[j..u] at least; the pivot is at u - 1. */
  ghost predicate Scanned<T>(less: (T, T) -> bool, a: seq<T>, l: int, u: int, i: int, j: int, pivot: T)
    requires 0 <= l <= u < |a|
  {
    && (forall k :: l <= k <= i && k <= u ==> Leq(less, a[k], pivot))
    && (forall k :: j <= k <= u && l <= k ==> Leq(less, pivot, a[k]))
  }

  datatype Outcome = Done | InvalidOrder

  class Sorter<T(!new)> {
    const a: array<T>
    const less: (T, T) -> bool

    constructor (a: array<T>, less: (T, T) -> bool)
      ensures this.a == a && this.less == less
    {
      this.a, this.less := a, less;
    }

    /** set2 on two elements read before: they change places. */
    method Swap(i: int, j: int, ghost l: int, ghost u: int)
      requires 0 <= l <= i <= u < a.Length && l <= j <= u
      modifies a
      ensures a[..] == old(a[..])[i := old(a[j])][j := old(a[i])] && Permuted(old(a[..]), a[..], l, u)
    {
      SwapPermutes(a[..], i, j, l, u);
      a[i], a[j] := a[j], a[i];
      assert a[..] == old(a[..])[i := old(a[j])][j := old(a[i])];
    }

    /** Orders a[l], the middle element and a[u]; done tells that there are no others. */
    method Median(l: int, u: int) returns (i: int, done: bool)
      requires 0 <= l < u < a.Length
      modifies a
      ensures Permuted(old(a[..]), a[..], l, u) && i == (l + u) / 2 && l <= i < u
      ensures done <==> u - l <= 2
      ensures StrictWeakOrder(less) ==>
                && Leq(less, a[l], a[u]) && (u - l >= 2 ==> l < i && Leq(less, a[l], a[i]) && Leq(less, a[i], a[u]))
    {
      hide StrictWeakOrder, Permuted;
      ghost var a0 := a[..];
      i := (l + u) / 2;
      PermutedSelf(a0, l, u);
      if less(a[u], a[l]) {
        Swap(l, u, l, u);
      }
      EndsOrdered(less, a0, a[..], l, u);
      if u - l == 1 {
        return i, true;
      }
      ghost var a1 := a[..];
      PermutedSelf(a1, l, u);
      if less(a[i], a[l]) {
        Swap(i, l, l, u);
      } else if less(a[u], a[i]) {
        Swap(i, u, l, u);
      }
      MiddleOrdered(less, a1, a[..], l, i, u);
      PermutedTrans(a0, a1, a[..], l, u, l, u);
      done := u - l == 2;
    }

    /** Moves the elements below the pivot to the front and those above it to the back. */
    method Exchange(l: int, u: int, pivot: T, ghost good: bool) returns (i: int, j: int, r: Outcome)
      requires 0 <= l && l + 3 <= u < a.Length && a[u - 1] == pivot
      requires good ==> StrictWeakOrder(less) && Scanned(less, a[..], l, u, l, u - 1, pivot)
      modifies a
      ensures Permuted(old(a[..]), a[..], l, u) && a[u - 1] == pivot && (good ==> r == Done)
      ensures r == Done ==> l <= j < i <= u && l < i
      ensures good ==> i <= u - 1 && Scanned(less, a[..], l, u, i - 1, j + 1, pivot)
    {
      hide StrictWeakOrder, Permuted, Scanned, Leq;
      ghost var a0 := a[..];
      PermutedSelf(a0, l, u);
      i, j, r := l, u - 1, Done;
      while true
        invariant l <= i <= j <= u - 1 && i < u - 1 && l < j && a[u - 1] == pivot && Permuted(a0, a[..], l, u)
        invariant good ==> Scanned(less, a[..], l, u, i, j, pivot)
        decreases j - i
      {
        ghost var a1 := a[..];
        i, r := ScanUp(l, u, i, pivot, good, j);
        if r == InvalidOrder {
          return;
        }
        j, r := ScanDown(l, u, i, j, pivot, good);
        if r == InvalidOrder {
          return;
        }
        if j < i {
          return;
        }
        Swap(i, j, l, u);
        if good {
          ScannedSwap(less, a1, l, u, i, j, pivot);
        }
        PermutedTrans(a0, a1, a[..], l, u, l, u);
      }
    }

    /** Partitions [l, u] around the element at the middle; i is where the pivot ends up. */
    method Partition(l: int, u: int, mid: int) returns (i: int, r: Outcome)
      requires 0 <= l && l + 3 <= u < a.Length && mid == (l + u) / 2
      modifies a
      ensures Permuted(old(a[..]), a[..], l, u)
      ensures r == Done ==> l < i <= u
      ensures StrictWeakOrder(less) && old(Leq(less, a[l], a[mid]) && Leq(less, a[mid], a[u])) ==>
                r == Done && i < u && OrderedAt(less, a[..], l, u, i)
    {
      hide StrictWeakOrder, Permuted, Scanned, OrderedAt, Leq;
      ghost var a0 := a[..];
      ghost var good := StrictWeakOrder(less) && Leq(less, a[l], a[mid]) && Leq(less, a[mid], a[u]);
      var pivot := a[mid];
      Swap(mid, u - 1, l, u);
      ghost var a1 := a[..];
      ScannedStart(less, a0, a1, l, u, mid);
      var j;
      i, j, r := Exchange(l, u, pivot, good);
      ghost var a2 := a[..];
      PermutedTrans(a0, a1, a2, l, u, l, u);
      if r == InvalidOrder {
        return;
      }
      Swap(u - 1, i, l, u);
      if good {
        ScannedEnd(less, a2, l, u, i, j, pivot);
      }
      PermutedTrans(a0, a2, a[..], l, u, l, u);
    }

    /** Repeat ++i until a[i] >= pivot. */
    method ScanUp(l: int, u: int, i0: int, pivot: T, ghost good: bool, ghost j: int) returns (i: int, r: Outcome)
      requires 0 <= l <= i0 < u - 1 && u < a.Length && a[u - 1] == pivot
      requires good ==> StrictWeakOrder(less) && Scanned(less, a[..], l, u, i0, j, pivot)
      ensures i0 < i <= u && (good ==> r == Done)
      ensures r == Done ==> !less(a[i], pivot)
      ensures good ==> i <= u - 1 && Scanned(less, a[..], l, u, i - 1, j, pivot)
    {
      i := i0 + 1;
      r := Done;
      while less(a[i], pivot)
        invariant i0 < i <= u
        invariant good ==> i <= u - 1 && Scanned(less, a[..], l, u, i - 1, j, pivot)
        decreases u - i
      {
        if good {
          ScannedMore(less, a[..], l, u, i, j, pivot);
        }
        if i >= u {
          return i, InvalidOrder;
        }
        i := i + 1;
      }
    }

    /** Repeat --j until a[j] <= pivot. */
    method ScanDown(l: int, u: int, i: int, j0: int, pivot: T, ghost good: bool) returns (j: int, r: Outcome)
      requires 0 <= l < i <= u && l < j0 <= u - 1 && u < a.Length
      requires good ==> StrictWeakOrder(less) && Scanned(less, a[..], l, u, i - 1, j0, pivot)
      ensures l <= j < j0 && (good ==> r == Done)
      ensures r == Done ==> !less(pivot, a[j])
      ensures good ==> Scanned(less, a[..], l, u, i - 1, j + 1, pivot)
    {
      j := j0 - 1;
      r := Done;
      while less(pivot, a[j])
        invariant l <= j < j0
        invariant good ==> Scanned(less, a[..], l, u, i - 1, j + 1, pivot)
        decreases j
      {
        if j <= l {
          return j, InvalidOrder;
        }
        j := j - 1;
      }
    }

    /** auxsort: sorts [l0, u0]. For any comparator it stays inside and permutes; with a strict
        weak order it raises no error and sorts. The recursion depth is logarithmic. */
    method Auxsort(l0: int, u0: int) returns (r: Outcome, depth: nat)
      requires 0 <= l0 && u0 < a.Length && l0 <= u0 + 1
      modifies a
      ensures Permuted(old(a[..]), a[..], l0, u0)
      ensures StrictWeakOrder(less) ==> r == Done && Sorted(less, a[..], l0, u0)
      ensures Pow2(depth) <= u0 - l0 + 2
      decreases u0 - l0 + 1
    {
      hide StrictWeakOrder, Permuted, OrderedAt, OrderedBut, Sorted, Leq;
      var l, u := l0, u0;
      r, depth := Done, 0;
      ghost var a0 := a[..];
      ghost var good := StrictWeakOrder(less);
      PermutedSelf(a0, l0, u0);
      OrderedStart(less, a0, l0, u0);
      DepthZero();
      while l < u
        invariant l0 <= l <= u + 1 && u <= u0 && Permuted(a0, a[..], l0, u0) && r == Done
        invariant good ==> OrderedBut(less, a[..], l0, u0, l, u)
        invariant Pow2(depth) <= u0 - l0 + 2
        decreases u - l
      {
        ghost var a1 := a[..];
        var i, done := Median(l, u);
        ghost var a2 := a[..];
        if good {
          PermutedOrder(less, a1, a2, l0, u0, l, u);
        }
        PermutedTrans(a0, a1, a2, l0, u0, l, u);
        if done {
          if good {
            FewOrdered(less, a2, l0, u0, l, u);
          }
          return;
        }
        ghost var mid := i;
        i, r := Partition(l, u, i);
        ghost var a3 := a[..];
        PermutedTrans(a0, a2, a3, l0, u0, l, u);
        if r == InvalidOrder {
          return;
        }
        if good {
          PermutedOrder(less, a2, a3, l0, u0, l, u);
        }
        var j: int, e: int;
        ghost var lo, hi := l, u;
        if i - l < u - i {
          j, e, l := l, i - 1, i + 1;
        } else {
          j, e, u := i + 1, u, i - 1;
        }
        var d;
        r, d := Auxsort(j, e);
        Halves(lo, hi, i, j, e, d, u0 - l0);
        depth := if d + 1 > depth then d + 1 else depth;
        PermutedTrans(a0, a3, a[..], l0, u0, j, e);
        if r == InvalidOrder {
          return;
        }
        if good {
          SideOrdered(less, a3, a[..], l0, u0, lo, hi, i, j, e);
        }
      }
      if good {
        AllOrdered(less, a[..], l0, u0, l, u);
      }
    }

    /** table.sort on elements 1 to n. */
    method Sort(n: nat) returns (r: Outcome)
      requires n < a.Length
      modifies a
      ensures Permuted(old(a[..]), a[..], 1, n)
      ensures StrictWeakOrder(less) ==> r == Done && Sorted(less, a[..], 1, n)
    {
      var depth;
      r, depth := Auxsort(1, n);
    }
  }

  /** Everything before i is at most a[i], and everything after it at least. */
  ghost predicate OrderedAt<T>(less: (T, T) -> bool, a: seq<T>, l: int, u: int, i: int)
    requires 0 <= l <= i <= u < |a|
  {
    && (forall k :: l <= k < i ==> Leq(less, a[k], a[i]))
    && (forall k :: i < k <= u ==> Leq(less, a[i], a[k]))
  }

  lemma PermutedSelf<T>(a: seq<T>, l: int, u: int)
    ensures Permuted(a, a, l, u)
  {
  }

  /** An element that comes first is not after the one it comes before. */
  lemma Asymmetric<T(!new)>(less: (T, T) -> bool, x: T, y: T)
    requires StrictWeakOrder(less) && less(x, y)
    ensures Leq(less, x, y)
  {
    assert less(y, x) ==> less(x, x);
  }

  lemma LeqTrans<T(!new)>(less: (T, T) -> bool, x: T, y: T, z: T)
    requires StrictWeakOrder(less) && Leq(less, x, y) && Leq(less, y, z)
    ensures Leq(less, x, z)
  {
  }

  lemma EndsOrdered<T(!new)>(less: (T, T) -> bool, a: seq<T>, b: seq<T>, l: int, u: int)
    requires 0 <= l < u < |a| && b == if less(a[u], a[l]) then a[l := a[u]][u := a[l]] else a
    ensures StrictWeakOrder(less) ==> Leq(less, b[l], b[u])
  {
    hide StrictWeakOrder;
    if StrictWeakOrder(less) && less(a[u], a[l]) {
      Asymmetric(less, a[u], a[l]);
    }
  }

  /** The second step of the median: three elements in order. */
  lemma MiddleOrdered<T(!new)>(less: (T, T) -> bool, a: seq<T>, b: seq<T>, l: int, i: int, u: int)
    requires 0 <= l < i < u < |a|
    requires b == if less(a[i], a[l]) then a[i := a[l]][l := a[i]]
             else if less(a[u], a[i]) then a[i := a[u]][u := a[i]] else a
    ensures StrictWeakOrder(less) && Leq(less, a[l], a[u]) ==>
              Leq(less, b[l], b[i]) && Leq(less, b[i], b[u]) && Leq(less, b[l], b[u])
  {
    hide StrictWeakOrder;
    if StrictWeakOrder(less) && Leq(less, a[l], a[u]) {
      if less(a[i], a[l]) {
        Asymmetric(less, a[i], a[l]);
        LeqTrans(less, a[i], a[l], a[u]);
      } else if less(a[u], a[i]) {
        Asymmetric(less, a[u], a[i]);
        LeqTrans(less, a[l], a[u], a[i]);
      } else {
        LeqTrans(less, a[l], a[i], a[u]);
      }
    }
  }

  lemma ScannedStart<T(!new)>(less: (T, T) -> bool, a: seq<T>, b: seq<T>, l: int, u: int, mid: int)
    requires 0 <= l && l + 3 <= u < |a| && l < mid < u - 1 && b == a[mid := a[u - 1]][u - 1 := a[mid]]
    ensures StrictWeakOrder(less) && Leq(less, a[l], a[mid]) && Leq(less, a[mid], a[u]) ==>
              Scanned(less, b, l, u, l, u - 1, a[mid])
  {
  }

  lemma ScannedMore<T(!new)>(less: (T, T) -> bool, a: seq<T>, l: int, u: int, i: int, j: int, pivot: T)
    requires 0 <= l < i <= u - 1 && u < |a| && Scanned(less, a, l, u, i - 1, j, pivot) && StrictWeakOrder(less)
             && less(a[i], pivot) && a[u - 1] == pivot
    ensures i < u - 1 && Scanned(less, a, l, u, i, j, pivot)
  {
    Asymmetric(less, a[i], pivot);
  }

  lemma ScannedSwap<T>(less: (T, T) -> bool, a: seq<T>, l: int, u: int, i: int, j: int, pivot: T)
    requires 0 <= l < i <= j < u - 1 && u < |a| && Scanned(less, a, l, u, i - 1, j + 1, pivot) && !less(a[i], pivot)
             && !less(pivot, a[j])
    ensures Scanned(less, a[i := a[j]][j := a[i]], l, u, i, j, pivot)
  {
  }

  lemma ScannedEnd<T>(less: (T, T) -> bool, a: seq<T>, l: int, u: int, i: int, j: int, pivot: T)
    requires 0 <= l <= j < i <= u - 1 && u < |a| && Scanned(less, a, l, u, i - 1, j + 1, pivot) && a[u - 1] == pivot
    ensures OrderedAt(less, a[u - 1 := a[i]][i := pivot], l, u, i)
  {
  }

  lemma OrderedStart<T>(less: (T, T) -> bool, a: seq<T>, l: int, u: int)
    requires 0 <= l && u < |a|
    ensures OrderedBut(less, a, l, u, l, u)
  {
  }

  lemma AllOrdered<T>(less: (T, T) -> bool, a: seq<T>, lo: int, hi: int, l: int, u: int)
    requires 0 <= lo && hi < |a| && u <= l && OrderedBut(less, a, lo, hi, l, u)
    ensures Sorted(less, a, lo, hi)
  {
  }

  /** Two or three elements put in order by the median step. */
  lemma FewOrdered<T(!new)>(less: (T, T) -> bool, a: seq<T>, lo: int, hi: int, l: int, u: int)
    requires 0 <= lo <= l < u <= hi < |a| && u - l <= 2 && OrderedBut(less, a, lo, hi, l, u)
    requires var i := (l + u) / 2;
             Leq(less, a[l], a[u]) && (u - l == 2 ==> Leq(less, a[l], a[i]) && Leq(less, a[i], a[u]))
    ensures Sorted(less, a, lo, hi)
  {
  }

  /** After the partition and the sorting of one side, only the other side is left. */
  lemma SideOrdered<T(!new)>(less: (T, T) -> bool, a: seq<T>, b: seq<T>, lo: int, hi: int, l: int, u: int, i: int,
                             j: int, e: int)
    requires 0 <= lo <= l < i < u <= hi < |a| && Permuted(a, b, j, e) && StrictWeakOrder(less)
    requires (j == l && e == i - 1) || (j == i + 1 && e == u)
    requires OrderedBut(less, a, lo, hi, l, u) && OrderedAt(less, a, l, u, i) && Sorted(less, b, j, e)
    ensures OrderedBut(less, b, lo, hi, if j == l then i + 1 else l, if j == l then u else i - 1)
  {
    hide StrictWeakOrder;
    Split(less, a, lo, hi, l, u, i, j, e);
    var l', u' := if j == l then i + 1 else l, if j == l then u else i - 1;
    forall x, y | lo <= x < y <= hi && !(l' <= x && y <= u') ensures Leq(less, b[x], b[y]) {
      var x', y' := x, y;
      if j <= x && y <= e {
        assert Leq(less, b[x], b[y]);
      } else {
        if j <= x <= e {
          x' := PermutedElement(a, b, j, e, x);
        }
        if j <= y <= e {
          y' := PermutedElement(a, b, j, e, y);
        }
        assert Leq(less, a[x'], a[y']);
      }
    }
  }

  /** Pairs on different sides of the pivot are in order. */
  lemma Split<T(!new)>(less: (T, T) -> bool, a: seq<T>, lo: int, hi: int, l: int, u: int, i: int, j: int, e: int)
    requires 0 <= lo <= l < i < u <= hi < |a| && StrictWeakOrder(less)
    requires (j == l && e == i - 1) || (j == i + 1 && e == u)
    requires OrderedBut(less, a, lo, hi, l, u) && OrderedAt(less, a, l, u, i)
    ensures forall x, y :: lo <= x < y <= hi && !(l <= x && y <= i - 1) && !(i + 1 <= x && y <= u) ==>
              Leq(less, a[x], a[y])
  {
    hide StrictWeakOrder;
    forall x, y | lo <= x < y <= hi && !(l <= x && y <= i - 1) && !(i + 1 <= x && y <= u)
      ensures Leq(less, a[x], a[y]) {
      if l <= x && y <= u && x != i && y != i {
        LeqTrans(less, a[x], a[i], a[y]);
      }
    }
  }

  lemma DepthZero()
    ensures Pow2(0) == 1
  {
  }

  /** The smaller side is at most half of the range. */
  lemma Halves(l: int, u: int, i: int, j: int, e: int, d: nat, n: int)
    requires l < i <= u && u - l <= n && Pow2(d) <= e - j + 2
    requires if i - l < u - i then j == l && e == i - 1 else j == i + 1 && e == u
    ensures Pow2(d + 1) <= n + 2
  {
  }
}
