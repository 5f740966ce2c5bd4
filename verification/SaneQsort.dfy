/** The quicksort of src/funceval.c, which sorts with softcode for a comparator: it must end
    and lose nothing even when the answers contradict each other. */
module SaneQsort {

  // ---------------------------------------------------------------------
  // Rearranging a stretch of an array
  // ---------------------------------------------------------------------

  /** `s'` is `s` with what stands between `lo` and `hi` rearranged. */
  ghost predicate Rearranged<T>(s: seq<T>, s': seq<T>, lo: int, hi: int) {
    && 0 <= lo <= hi <= |s| == |s'|
    && s[..lo] == s'[..lo] && s[hi..] == s'[hi..]
    && multiset(s[lo..hi]) == multiset(s'[lo..hi])
  }

  lemma RearrangedWithin<T>(s: seq<T>, s': seq<T>, lo: int, hi: int, lo2: int, hi2: int)
    requires Rearranged(s, s', lo2, hi2) && 0 <= lo <= lo2 && hi2 <= hi <= |s|
    ensures Rearranged(s, s', lo, hi)
  {
    assert s[..lo] == s[..lo2][..lo] && s'[..lo] == s'[..lo2][..lo];
    assert s[hi..] == s[hi2..][hi - hi2..] && s'[hi..] == s'[hi2..][hi - hi2..];
    assert s[lo..lo2] == s[..lo2][lo..] && s'[lo..lo2] == s'[..lo2][lo..];
    assert s[hi2..hi] == s[hi2..][..hi - hi2] && s'[hi2..hi] == s'[hi2..][..hi - hi2];
    assert s[lo..hi] == s[lo..lo2] + s[lo2..hi2] + s[hi2..hi];
    assert s'[lo..hi] == s'[lo..lo2] + s'[lo2..hi2] + s'[hi2..hi];
  }

  lemma RearrangedTwice<T>(s: seq<T>, s': seq<T>, s'': seq<T>, lo: int, hi: int)
    requires Rearranged(s, s', lo, hi) && Rearranged(s', s'', lo, hi)
    ensures Rearranged(s, s'', lo, hi)
  {}

  function Swapped<T>(s: seq<T>, i: int, j: int): (r: seq<T>)
    requires 0 <= i < |s| && 0 <= j < |s|
    ensures |r| == |s|
  {
    s[i := s[j]][j := s[i]]
  }

  lemma SwapRearranges<T>(s: seq<T>, i: int, j: int, lo: int, hi: int)
    requires 0 <= lo <= i <= j < hi <= |s|
    ensures Rearranged(s, Swapped(s, i, j), lo, hi)
  {
    var s' := Swapped(s, i, j);
    assert s'[lo..hi] == s[lo..hi][i - lo := s[j]][j - lo := s[i]];
  }

  /** Every element of the stretch was in the stretch before. */
  lemma CameFrom<T>(s: seq<T>, s': seq<T>, lo: int, hi: int, k: int) returns (j: int)
    requires Rearranged(s, s', lo, hi) && 0 <= k < |s|
    ensures 0 <= j < |s| && s'[k] == s[j] && (lo <= j < hi <==> lo <= k < hi) && (!(lo <= k < hi) ==> j == k)
  {
    if lo <= k < hi {
      assert s'[k] == s'[lo..hi][k - lo];
      assert s'[k] in multiset(s'[lo..hi]);
      assert s'[k] in s[lo..hi];
      var m :| 0 <= m < hi - lo && s[lo..hi][m] == s'[k];
      j := lo + m;
    } else if k < lo {
      assert s'[..lo][k] == s[..lo][k];
      j := k;
    } else {
      assert s'[hi..][k - hi] == s[hi..][k - hi];
      j := k;
    }
  }

  // ---------------------------------------------------------------------
  // Order
  // ---------------------------------------------------------------------

  ghost predicate StrictOrder<T(!new)>(less: (T, T) -> bool) {
    && (forall x, y :: less(x, y) ==> !less(y, x))
    && (forall x, y, z :: less(x, y) && less(y, z) ==> less(x, z))
  }

  /** Between `lo` and `hi` nothing is less than something before it, except perhaps where
      both stand between `left` and `right`. */
  ghost predicate SortedBut<T>(s: seq<T>, less: (T, T) -> bool, lo: int, hi: int, left: int, right: int)
    requires 0 <= lo && hi <= |s|
  {
    forall i, j :: lo <= i < j < hi && !(left <= i && j < right) ==> !less(s[j], s[i])
  }

  /** Around `last`: smaller things before it, things not smaller behind it. */
  ghost predicate Parted<T>(s: seq<T>, less: (T, T) -> bool, left: int, last: int, right: int)
    requires 0 <= left <= last < right <= |s|
  {
    && (forall k :: left <= k < last ==> less(s[k], s[last]))
    && (forall k :: last < k < right ==> !less(s[k], s[last]))
  }

  /** Rearranging the stretch that is still open keeps the rest in order. */
  lemma OpenStretch<T>(s: seq<T>, s': seq<T>, less: (T, T) -> bool, lo: int, hi: int, left: int, right: int)
    requires 0 <= lo <= left <= right <= hi <= |s| && Rearranged(s, s', left, right)
    requires SortedBut(s, less, lo, hi, left, right)
    ensures SortedBut(s', less, lo, hi, left, right)
  {
    forall i, j | lo <= i < j < hi && !(left <= i && j < right) ensures !less(s'[j], s'[i]) {
      var i' := CameFrom(s, s', left, right, i);
      var j' := CameFrom(s, s', left, right, j);
      assert lo <= i' < j' < hi && !(left <= i' && j' < right);
    }
  }

  lemma PartedStays<T>(s: seq<T>, s': seq<T>, less: (T, T) -> bool, left: int, last: int, right: int, lo: int, hi: int)
    requires 0 <= left <= last < right <= |s| && Parted(s, less, left, last, right)
    requires Rearranged(s, s', lo, hi) && ((lo == left && hi == last) || (lo == last + 1 && hi == right))
    ensures Parted(s', less, left, last, right)
  {
    var l := CameFrom(s, s', lo, hi, last);
    forall k | left <= k < right && k != last
      ensures k < last ==> less(s'[k], s'[last])
      ensures k > last ==> !less(s'[k], s'[last])
    {
      var k' := CameFrom(s, s', lo, hi, k);
    }
  }

  /** With one side sorted only the other is still open. */
  lemma OneSideLeft<T(!new)>(s: seq<T>, less: (T, T) -> bool, lo: int, hi: int, left: int, last: int, right: int, below: bool)
    requires StrictOrder(less) && 0 <= lo <= left <= last < right <= hi <= |s|
    requires SortedBut(s, less, lo, hi, left, right) && Parted(s, less, left, last, right)
    requires if below then SortedBut(s, less, left, last, last, last) else SortedBut(s, less, last + 1, right, right, right)
    ensures if below then SortedBut(s, less, lo, hi, last + 1, right) else SortedBut(s, less, lo, hi, left, last)
  {
    forall i, j | lo <= i < j < hi && (if below then !(last + 1 <= i && j < right) else !(left <= i && j < last))
      ensures !less(s[j], s[i])
    {
      if left <= i && j < right {
        if i < last && last < j {
          assert less(s[i], s[last]) && !less(s[j], s[last]);
        }
      }
    }
  }

  // ---------------------------------------------------------------------
  // The depth of recursion
  // ---------------------------------------------------------------------

  function Log2(n: nat): nat
    requires n > 0
  {
    if n == 1 then 0 else 1 + Log2(n / 2)
  }

  lemma {:induction false} Log2Grows(m: nat, n: nat)
    requires 0 < m <= n
    ensures Log2(m) <= Log2(n)
  {
    if m > 1 { Log2Grows(m / 2, n / 2); }
  }

  /** The smaller side is less than half. */
  lemma SmallerSide(side: nat, size: nat, n: nat)
    requires 2 * side + 1 <= size <= n
    ensures 1 + Log2(side + 1) <= Log2(n + 1)
  {
    Log2Grows(2 * (side + 1), n + 1);
  }

  // ---------------------------------------------------------------------
  // The sort
  // ---------------------------------------------------------------------

  /** A comparator may answer differently each time it is asked; so it also gets the number
      of the call.  `random` is a stream of numbers. */
  class Sorter<T(!new)> {
    const compare: (T, T, nat) -> int
    const random: nat -> nat
    var calls: nat
    var draws: nat

    constructor (compare: (T, T, nat) -> int, random: nat -> nat)
      ensures this.compare == compare && this.random == random
    {
      this.compare, this.random, calls, draws := compare, random, 0, 0;
    }

    function Compare(x: T, y: T, k: nat): int {
      compare(x, y, k)
    }

    ghost function Less(): (T, T) -> bool {
      (x, y) => Compare(x, y, 0) < 0
    }

    /** The comparator means a strict order and sticks to it. */
    ghost predicate Consistent() {
      StrictOrder(Less()) && forall x, y, k :: Compare(x, y, k) < 0 <==> Less()(x, y)
    }

    method Swap(a: array<T>, i: int, j: int, ghost lo: int, ghost hi: int)
      requires 0 <= lo <= i <= j < hi <= a.Length
      modifies a
      ensures a[..] == Swapped(old(a[..]), i, j)
      ensures Rearranged(old(a[..]), a[..], lo, hi)
    {
      SwapRearranges(a[..], i, j, lo, hi);
      a[i], a[j] := a[j], a[i];
    }

    /** The pivot is any element of the stretch; it waits at the left end. */
    method Pivot(a: array<T>, left: int, right: int)
      requires 0 <= left < right < a.Length
      modifies this`draws, a
      ensures Rearranged(old(a[..]), a[..], left, right + 1)
    {
      hide Rearranged;
      var i := random(draws) % (1 + (right - left));
      draws := draws + 1;
      Swap(a, left, left + i, left, right + 1);
    }

    /** Part the stretch: what is less than the pivot, the pivot, and the rest. */
    method Partition(a: array<T>, left: int, right: int) returns (last: int)
      requires 0 <= left < right < a.Length
      modifies this, a
      ensures left <= last <= right && Rearranged(old(a[..]), a[..], left, right + 1)
      ensures Consistent() ==> Parted(a[..], Less(), left, last, right + 1)
    {
      hide Consistent, Gathered, Rearranged, Parted, Less, Swapped;
      ghost var s0 := a[..];
      Pivot(a, left, right);
      ghost var s1 := a[..];
      last := Gather(a, left, right);
      ghost var s2 := a[..];
      PivotBack(s2, left, last, right + 1);
      Swap(a, left, last, left, right + 1);
      RearrangedTwice(s0, s1, s2, left, right + 1);
      RearrangedTwice(s0, s2, a[..], left, right + 1);
    }

    /** Bring everything less than the pivot to the left, right behind it. */
    method Gather(a: array<T>, left: int, right: int) returns (last: int)
      requires 0 <= left < right < a.Length
      modifies this`calls, a
      ensures left <= last <= right && Rearranged(old(a[..]), a[..], left, right + 1)
      ensures Consistent() ==> Gathered(a[..], left, last, right + 1)
    {
      hide Consistent, Gathered, Rearranged, Less;
      ghost var s0, s := a[..], a[..];
      last := left;
      var i := left + 1;
      RearrangedSelf(s, left, right + 1);
      NothingGathered(s, left);
      while i <= right
        invariant left <= last < i <= right + 1 && s == a[..] && Rearranged(s0, s, left, right + 1)
        invariant Consistent() ==> Gathered(s, left, last, i)
      {
        ghost var s1 := s;
        last := Look(a, left, right, last, i);
        s := a[..];
        RearrangedTwice(s0, s1, s, left, right + 1);
        i := i + 1;
      }
    }

    /** One comparison: an element less than the pivot joins the others that are. */
    method Look(a: array<T>, left: int, right: int, last0: int, i: int) returns (last: int)
      requires 0 <= left <= last0 < i <= right < a.Length && (Consistent() ==> Gathered(a[..], left, last0, i))
      modifies this`calls, a
      ensures last0 <= last <= last0 + 1 && Rearranged(old(a[..]), a[..], left, right + 1)
      ensures Consistent() ==> Gathered(a[..], left, last, i + 1)
    {
      hide Consistent, Gathered, Rearranged, Less, Compare;
      last := last0;
      ghost var s := a[..];
      RearrangedSelf(s, left, right + 1);
      GatherOne(s, left, last, i, calls);
      var c := Compare(a[i], a[left], calls);
      calls := calls + 1;
      if c < 0 {
        last := last + 1;
        if last == i {
          assert Swapped(s, last, i) == s;
          return;
        }
        Swap(a, last, i, left, right + 1);
      }
    }

    lemma NothingGathered(s: seq<T>, left: int)
      requires 0 <= left && left + 1 <= |s|
      ensures Gathered(s, left, left, left + 1)
    {}

    lemma PivotBack(s: seq<T>, left: int, last: int, right: int)
      requires 0 <= left <= last < right <= |s| && (Consistent() ==> Gathered(s, left, last, right))
      ensures Consistent() ==> Parted(Swapped(s, left, last), Less(), left, last, right)
    {
      hide Consistent;
    }

    /** Up to `i`: what is less than the pivot stands up to `last`, the rest behind it. */
    ghost predicate Gathered(s: seq<T>, left: int, last: int, i: int)
      requires 0 <= left <= last < i <= |s|
    {
      && (forall k :: left < k <= last ==> Less()(s[k], s[left]))
      && (forall k :: last < k < i ==> !Less()(s[k], s[left]))
    }

    lemma GatherOne(s: seq<T>, left: int, last: int, i: int, k: nat)
      requires 0 <= left <= last < i < |s| && (Consistent() ==> Gathered(s, left, last, i))
      ensures Consistent() ==>
        if Compare(s[i], s[left], k) < 0 then Gathered(Swapped(s, last + 1, i), left, last + 1, i + 1)
        else Gathered(s, left, last, i + 1)
    {
      hide StrictOrder;
    }

    /** sane_qsort: it always ends with a rearrangement, sorted if the comparator means an order;
        only the smaller side is sorted by a recursive call, so `depth`, the number of calls
        open at once below this one, is logarithmic. */
    method Sort(a: array<T>, left0: int, right0: int) returns (ghost depth: nat)
      requires 0 <= left0 <= right0 + 1 <= a.Length
      modifies this, a
      ensures Rearranged(old(a[..]), a[..], left0, right0 + 1)
      ensures Consistent() ==> SortedBut(a[..], Less(), left0, right0 + 1, right0 + 1, right0 + 1)
      ensures depth <= Log2(right0 - left0 + 2)
      decreases right0 - left0
    {
      hide Consistent, Rearranged, SortedBut, Parted, Log2, Less;
      ghost var s0 := a[..];
      var left, right := left0, right0;
      depth := 0;
      RearrangedSelf(s0, left0, right0 + 1);
      NothingSorted(s0, left0, right0 + 1);
      while left < right
        invariant left0 <= left <= right + 1 <= right0 + 1 && Rearranged(s0, a[..], left0, right0 + 1)
        invariant Consistent() ==> SortedBut(a[..], Less(), left0, right0 + 1, left, right + 1)
        invariant depth <= Log2(right0 - left0 + 2)
        decreases right - left
      {
        ghost var s1 := a[..];
        var last := Partition(a, left, right);
        ghost var s2 := a[..];
        var below := last - left < right - last;
        ghost var d;
        if below {
          SmallerSide(last - left, right - left + 1, right0 - left0 + 1);
          d := Sort(a, left, last - 1);
        } else {
          SmallerSide(right - last, right - left + 1, right0 - left0 + 1);
          d := Sort(a, last + 1, right);
        }
        depth := if depth > d + 1 then depth else d + 1;
        Progress(s0, s1, s2, a[..], left0, right0 + 1, left, last, right + 1, below);
        if below {
          left := last + 1;
        } else {
          right := last - 1;
        }
      }
      Done(a[..], left0, right0 + 1, left, right + 1);
    }

    lemma RearrangedSelf(s: seq<T>, lo: int, hi: int)
      requires 0 <= lo <= hi <= |s|
      ensures Rearranged(s, s, lo, hi)
    {}

    lemma NothingSorted(s: seq<T>, lo: int, hi: int)
      requires 0 <= lo <= hi <= |s|
      ensures SortedBut(s, Less(), lo, hi, lo, hi)
    {}

    lemma Done(s: seq<T>, lo: int, hi: int, left: int, right: int)
      requires 0 <= lo && hi <= |s| && right <= left + 1
      requires Consistent() ==> SortedBut(s, Less(), lo, hi, left, right)
      ensures Consistent() ==> SortedBut(s, Less(), lo, hi, hi, hi)
    {}

    /** One turn of the loop: the stretch `left` to `right` was parted at `last` and one side sorted. */
    lemma Progress(s0: seq<T>, s1: seq<T>, s2: seq<T>, s3: seq<T>, lo: int, hi: int, left: int, last: int, right: int, below: bool)
      requires 0 <= lo <= left <= last < right <= hi <= |s0| && Rearranged(s0, s1, lo, hi) && Rearranged(s1, s2, left, right)
      requires if below then Rearranged(s2, s3, left, last) else Rearranged(s2, s3, last + 1, right)
      requires Consistent() ==> SortedBut(s1, Less(), lo, hi, left, right) && Parted(s2, Less(), left, last, right)
      requires Consistent() ==>
        if below then SortedBut(s3, Less(), left, last, last, last) else SortedBut(s3, Less(), last + 1, right, right, right)
      ensures Rearranged(s0, s3, lo, hi)
      ensures Consistent() ==>
        if below then SortedBut(s3, Less(), lo, hi, last + 1, right) else SortedBut(s3, Less(), lo, hi, left, last)
    {
      hide SortedBut, Parted, StrictOrder, Less;
      RearrangedWithin(s1, s2, lo, hi, left, right);
      var l, h := if below then left else last + 1, if below then last else right;
      RearrangedWithin(s2, s3, lo, hi, l, h);
      RearrangedWithin(s2, s3, left, right, l, h);
      RearrangedTwice(s0, s1, s2, lo, hi);
      RearrangedTwice(s0, s2, s3, lo, hi);
      if Consistent() {
        OpenStretch(s1, s2, Less(), lo, hi, left, right);
        OpenStretch(s2, s3, Less(), lo, hi, left, right);
        PartedStays(s2, s3, Less(), left, last, right, l, h);
        OneSideLeft(s3, Less(), lo, hi, left, last, right, below);
      }
    }
  }
}
