/** The three-way quicksort that orders the blocks before a scan. Pointers are array
    indices; [lo, hi) is the part being sorted. */
module Qsort {

  /** The sign of the comparison of x with y. */
  function Cmp<T>(cmp: (T, T) -> int, x: T, y: T): int {
    cmp(x, y)
  }

  /** cmp is a total preorder. */
  ghost predicate Comparison<T(!new)>(cmp: (T, T) -> int) {
    && (forall x, y :: Cmp(cmp, x, y) < 0 <==> Cmp(cmp, y, x) > 0)
    && (forall x, y, z :: Cmp(cmp, x, y) <= 0 && Cmp(cmp, y, z) <= 0 ==> Cmp(cmp, x, z) <= 0)
  }

  ghost predicate Sorted<T>(s: seq<T>, cmp: (T, T) -> int) {
    forall i, j | 0 <= i < j < |s| :: Cmp(cmp, s[i], s[j]) <= 0
  }

  /** Every element of s comes before every element of t, or is equal to it. */
  ghost predicate Below<T>(s: seq<T>, t: seq<T>, cmp: (T, T) -> int) {
    forall i, j | 0 <= i < |s| && 0 <= j < |t| :: Cmp(cmp, s[i], t[j]) <= 0
  }

  /** Only [lo, hi) was rearranged. */
  ghost predicate Rearranged<T>(s: seq<T>, s': seq<T>, lo: int, hi: int)
    requires 0 <= lo <= hi <= |s|
  {
    |s'| == |s| && s'[..lo] == s[..lo] && s'[hi..] == s[hi..] && multiset(s'[lo..hi]) == multiset(s[lo..hi])
  }

  lemma Unmoved<T>(s: seq<T>, lo: int, hi: int)
    requires 0 <= lo <= hi <= |s|
    ensures Rearranged(s, s, lo, hi)
  {
  }

  lemma NothingYet<T>(s: seq<T>, lo: int, hi: int, cmp: (T, T) -> int)
    requires 0 <= lo <= hi <= |s|
    ensures Sorted(s[lo..lo], cmp) && Below(s[lo..lo], s[lo..hi], cmp)
  {
  }

  lemma RearrangedTwice<T>(s: seq<T>, s': seq<T>, s'': seq<T>, lo: int, hi: int)
    requires 0 <= lo <= hi <= |s| && Rearranged(s, s', lo, hi) && Rearranged(s', s'', lo, hi)
    ensures Rearranged(s, s'', lo, hi)
  {
  }

  /** Rearranging a part rearranges the whole. */
  lemma RearrangedWider<T>(s: seq<T>, s': seq<T>, lo: int, hi: int, lo': int, hi': int)
    requires 0 <= lo' <= lo <= hi <= hi' <= |s| && Rearranged(s, s', lo, hi)
    ensures Rearranged(s, s', lo', hi')
  {
    assert s'[..lo'] == s'[..lo][..lo'] && s[..lo'] == s[..lo][..lo'];
    assert s'[hi'..] == s'[hi..][hi' - hi..] && s[hi'..] == s[hi..][hi' - hi..];
    assert s[lo'..hi'] == s[..lo][lo'..] + s[lo..hi] + s[hi..][..hi' - hi];
    assert s'[lo'..hi'] == s'[..lo][lo'..] + s'[lo..hi] + s'[hi..][..hi' - hi];
  }

  lemma MultisetMember<T>(s: seq<T>, t: seq<T>, i: int)
    requires multiset(s) == multiset(t) && 0 <= i < |t|
    ensures exists j :: 0 <= j < |s| && s[j] == t[i]
  {
    assert t[i] in multiset(t);
  }

  /** Bounds on the elements survive a rearrangement. */
  lemma BelowRearranged<T>(s: seq<T>, s': seq<T>, t: seq<T>, t': seq<T>, cmp: (T, T) -> int)
    requires Below(s, t, cmp) && multiset(s) == multiset(s') && multiset(t) == multiset(t')
    ensures Below(s', t', cmp)
  {
    forall i, j | 0 <= i < |s'| && 0 <= j < |t'|
      ensures Cmp(cmp, s'[i], t'[j]) <= 0
    {
      MultisetMember(s, s', i);
      MultisetMember(t, t', j);
    }
  }

  lemma SortedConcat<T>(s: seq<T>, t: seq<T>, cmp: (T, T) -> int)
    requires Sorted(s, cmp) && Sorted(t, cmp) && Below(s, t, cmp)
    ensures Sorted(s + t, cmp)
  {
  }

  /** The elements at i and j have changed places. */
  ghost predicate Swapped<T>(s: seq<T>, s': seq<T>, i: int, j: int)
    requires 0 <= i < |s| && 0 <= j < |s|
  {
    |s'| == |s| && s'[i] == s[j] && s'[j] == s[i] && forall k | 0 <= k < |s| && k != i && k != j :: s'[k] == s[k]
  }

  lemma SwapKeeps<T>(s: seq<T>, s': seq<T>, i: int, j: int)
    requires 0 <= i < |s| && 0 <= j < |s| && Swapped(s, s', i, j)
    ensures |s'| == |s| && forall k | 0 <= k < |s| && k != i && k != j :: s'[k] == s[k]
  {
  }

  lemma SwapRearranges<T>(s: seq<T>, s': seq<T>, i: int, j: int, lo: int, hi: int)
    requires 0 <= lo <= i < hi <= |s| && lo <= j < hi && Swapped(s, s', i, j)
    ensures Rearranged(s, s', lo, hi)
  {
    assert s'[lo..hi] == s[lo..hi][i - lo := s[lo..hi][j - lo]][j - lo := s[lo..hi][i - lo]];
  }

  method Swap<T>(a: array<T>, i: int, j: int, ghost lo: int, ghost hi: int)
    requires 0 <= lo <= i < hi <= a.Length && lo <= j < hi
    modifies a
    ensures Swapped(old(a[..]), a[..], i, j) && Rearranged(old(a[..]), a[..], lo, hi)
  {
    hide Rearranged;
    ghost var s := a[..];
    a[i], a[j] := a[j], a[i];
    SwapRearranges(s, a[..], i, j, lo, hi);
  }

  /** [lo, pm] is in order but for the element at pl, which is known to be before those after it. */
  ghost predicate Sinking<T>(s: seq<T>, lo: int, pl: int, pm: int, cmp: (T, T) -> int) {
    && 0 <= lo <= pl <= pm < |s|
    && forall i, j | lo <= i < j <= pm && j != pl :: Cmp(cmp, s[i], s[j]) <= 0
  }

  lemma SinkStep<T(!new)>(s: seq<T>, s': seq<T>, lo: int, pl: int, pm: int, cmp: (T, T) -> int)
    requires Sinking(s, lo, pl, pm, cmp) && lo < pl && Cmp(cmp, s[pl - 1], s[pl]) > 0 && Comparison(cmp)
    requires Swapped(s, s', pl, pl - 1)
    ensures Sinking(s', lo, pl - 1, pm, cmp)
  {
    assert Cmp(cmp, s[pl], s[pl - 1]) < 0;
  }

  lemma SinkDone<T(!new)>(s: seq<T>, lo: int, pl: int, pm: int, cmp: (T, T) -> int)
    requires Sinking(s, lo, pl, pm, cmp) && (lo < pl ==> Cmp(cmp, s[pl - 1], s[pl]) <= 0) && Comparison(cmp)
    ensures Sorted(s[lo..pm + 1], cmp)
  {
    forall i | lo <= i < pl
      ensures Cmp(cmp, s[i], s[pl]) <= 0
    {
      if i < pl - 1 {
        assert Cmp(cmp, s[i], s[pl - 1]) <= 0;
      }
    }
  }

  lemma SinkStart<T>(s: seq<T>, lo: int, pm: int, cmp: (T, T) -> int)
    requires 0 <= lo < pm < |s| && Sorted(s[lo..pm], cmp)
    ensures Sinking(s, lo, pm, pm, cmp)
  {
    forall i, j | lo <= i < j < pm
      ensures Cmp(cmp, s[i], s[j]) <= 0
    {
      assert s[i] == s[lo..pm][i - lo] && s[j] == s[lo..pm][j - lo];
    }
  }

  /** The element at pm sinks to its place among those in [lo, pm). */
  method Sink<T(!new)>(a: array<T>, lo: int, pm: int, ghost hi: int, cmp: (T, T) -> int)
    requires 0 <= lo < pm < hi <= a.Length && Comparison(cmp) && Sorted(a[..][lo..pm], cmp)
    modifies a
    ensures Rearranged(old(a[..]), a[..], lo, hi) && Sorted(a[..][lo..pm + 1], cmp)
  {
    hide Swapped, Rearranged, Cmp, Comparison, Sinking, Sorted;
    Unmoved(a[..], lo, hi);
    var pl := pm;
    SinkStart(a[..], lo, pm, cmp);
    while pl > lo && Cmp(cmp, a[pl - 1], a[pl]) > 0
      invariant lo <= pl <= pm
      invariant Rearranged(old(a[..]), a[..], lo, hi)
      invariant Sinking(a[..], lo, pl, pm, cmp)
    {
      ghost var s := a[..];
      Swap(a, pl, pl - 1, lo, hi);
      SinkStep(s, a[..], lo, pl, pm, cmp);
      RearrangedTwice(old(a[..]), s, a[..], lo, hi);
      pl := pl - 1;
    }
    SinkDone(a[..], lo, pl, pm, cmp);
  }

  /** Sort [lo, hi) by insertion: each element sinks to its place among those before it. */
  method InsertionSort<T(!new)>(a: array<T>, lo: int, hi: int, cmp: (T, T) -> int)
    requires 0 <= lo <= hi <= a.Length && Comparison(cmp)
    modifies a
    ensures Rearranged(old(a[..]), a[..], lo, hi) && Sorted(a[..][lo..hi], cmp)
  {
    hide Swapped, Rearranged, Cmp, Comparison, Sorted;
    Unmoved(a[..], lo, hi);
    ShortSorted(a[..], lo, hi, cmp);
    var pm := lo + 1;
    while pm < hi
      invariant lo < pm && (pm <= hi || hi == lo)
      invariant Rearranged(old(a[..]), a[..], lo, hi)
      invariant Sorted(a[..][lo..if hi > lo then pm else hi], cmp)
    {
      ghost var s := a[..];
      Sink(a, lo, pm, hi, cmp);
      RearrangedTwice(old(a[..]), s, a[..], lo, hi);
      pm := pm + 1;
    }
  }

  lemma ShortSorted<T>(s: seq<T>, lo: int, hi: int, cmp: (T, T) -> int)
    requires 0 <= lo <= hi <= |s|
    ensures Sorted(s[lo..if hi > lo then lo + 1 else hi], cmp)
  {
  }

  ghost predicate Between<T>(x: T, y: T, z: T, cmp: (T, T) -> int) {
    (Cmp(cmp, x, y) <= 0 && Cmp(cmp, y, z) <= 0) || (Cmp(cmp, z, y) <= 0 && Cmp(cmp, y, x) <= 0)
  }

  /** The index of the median of three elements. */
  method Med3<T(!new)>(a: array<T>, x: int, y: int, z: int, cmp: (T, T) -> int) returns (m: int)
    requires 0 <= x < a.Length && 0 <= y < a.Length && 0 <= z < a.Length && Comparison(cmp)
    ensures (m == x && Between(a[y], a[x], a[z], cmp)) || (m == y && Between(a[x], a[y], a[z], cmp))
        || (m == z && Between(a[x], a[z], a[y], cmp))
  {
    if Cmp(cmp, a[x], a[y]) < 0 {
      m := if Cmp(cmp, a[y], a[z]) < 0 then y else if Cmp(cmp, a[x], a[z]) < 0 then z else x;
    } else {
      m := if Cmp(cmp, a[y], a[z]) > 0 then y else if Cmp(cmp, a[x], a[z]) < 0 then x else z;
    }
  }

  /** The index of the element to split by. */
  method ChoosePivot<T(!new)>(a: array<T>, lo: int, hi: int, cmp: (T, T) -> int) returns (pm: int)
    requires 0 <= lo && lo + 7 <= hi <= a.Length && Comparison(cmp)
    ensures lo <= pm < hi
  {
    var n := hi - lo;
    pm := lo + n / 2;
    if n > 7 {
      var pl := lo;
      var pn := hi - 1;
      if n > 40 {
        var d := n / 8;
        pl := Med3(a, pl, pl + d, pl + 2 * d, cmp);
        pm := Med3(a, pm - d, pm, pm + d, cmp);
        pn := Med3(a, pn - 2 * d, pn - d, pn, cmp);
      }
      pm := Med3(a, pl, pm, pn, cmp);
    }
  }

  /** The four zones of a half-done split around the pivot at lo: equal, less, not yet seen,
      greater, equal. */
  ghost predicate Zones<T>(s: seq<T>, lo: int, pa: int, pb: int, pc: int, pd: int, hi: int, cmp: (T, T) -> int) {
    && 0 <= lo < pa <= pb <= pc + 1 && pc <= pd < hi <= |s|
    && (forall i | lo <= i < pa :: Cmp(cmp, s[i], s[lo]) == 0)
    && (forall i | pa <= i < pb :: Cmp(cmp, s[i], s[lo]) < 0)
    && (forall i | pc < i <= pd :: Cmp(cmp, s[i], s[lo]) > 0)
    && (forall i | pd < i < hi :: Cmp(cmp, s[i], s[lo]) == 0)
  }

  /** An element equal to the pivot joins the zone at the left end. */
  lemma ZoneEqualLeft<T>(s: seq<T>, s': seq<T>, lo: int, pa: int, pb: int, pc: int, pd: int, hi: int,
          cmp: (T, T) -> int)
    requires Zones(s, lo, pa, pb, pc, pd, hi, cmp) && pb <= pc && Cmp(cmp, s[pb], s[lo]) == 0 && Swapped(s, s', pa, pb)
    ensures Zones(s', lo, pa + 1, pb + 1, pc, pd, hi, cmp)
  {
  }

  lemma ZoneEqualRight<T>(s: seq<T>, s': seq<T>, lo: int, pa: int, pb: int, pc: int, pd: int, hi: int,
          cmp: (T, T) -> int)
    requires Zones(s, lo, pa, pb, pc, pd, hi, cmp) && pb <= pc && Cmp(cmp, s[pc], s[lo]) == 0 && Swapped(s, s', pc, pd)
    ensures Zones(s', lo, pa, pb, pc - 1, pd - 1, hi, cmp)
  {
  }

  lemma ZoneLess<T>(s: seq<T>, lo: int, pa: int, pb: int, pc: int, pd: int, hi: int, cmp: (T, T) -> int)
    requires Zones(s, lo, pa, pb, pc, pd, hi, cmp) && pb <= pc && Cmp(cmp, s[pb], s[lo]) < 0
    ensures Zones(s, lo, pa, pb + 1, pc, pd, hi, cmp)
  {
  }

  lemma ZoneGreater<T>(s: seq<T>, lo: int, pa: int, pb: int, pc: int, pd: int, hi: int, cmp: (T, T) -> int)
    requires Zones(s, lo, pa, pb, pc, pd, hi, cmp) && pb <= pc && Cmp(cmp, s[pc], s[lo]) > 0
    ensures Zones(s, lo, pa, pb, pc - 1, pd, hi, cmp)
  {
  }

  lemma ZoneCross<T>(s: seq<T>, s': seq<T>, lo: int, pa: int, pb: int, pc: int, pd: int, hi: int, cmp: (T, T) -> int)
    requires Zones(s, lo, pa, pb, pc, pd, hi, cmp) && pb < pc && Cmp(cmp, s[pb], s[lo]) > 0
        && Cmp(cmp, s[pc], s[lo]) < 0 && Swapped(s, s', pb, pc)
    ensures Zones(s', lo, pa, pb + 1, pc - 1, pd, hi, cmp)
  {
  }

  lemma ZoneStart<T>(s: seq<T>, lo: int, hi: int, cmp: (T, T) -> int)
    requires 0 <= lo && lo + 2 <= hi <= |s| && Cmp(cmp, s[lo], s[lo]) == 0
    ensures Zones(s, lo, lo + 1, lo + 1, hi - 1, hi - 1, hi, cmp)
  {
  }

  lemma Reflexive<T(!new)>(cmp: (T, T) -> int, x: T)
    requires Comparison(cmp)
    ensures Cmp(cmp, x, x) == 0
  {
  }

  /** Move pb right over elements not greater than the pivot. */
  method ScanRight<T(!new)>(a: array<T>, lo: int, pa0: int, pb0: int, pc: int, ghost pd: int, ghost hi: int,
          cmp: (T, T) -> int) returns (pa: int, pb: int, swapped: bool)
    requires 0 <= lo < pa0 <= pb0 <= pc + 1 && pc <= pd < hi <= a.Length && Zones(a[..], lo, pa0, pb0, pc, pd, hi, cmp)
    modifies a
    ensures Rearranged(old(a[..]), a[..], lo, hi) && Zones(a[..], lo, pa, pb, pc, pd, hi, cmp)
    ensures lo < pa <= pb <= pc + 1 && pb0 <= pb && (pb <= pc ==> Cmp(cmp, a[pb], a[lo]) > 0)
  {
    hide Swapped, Rearranged, Cmp, Zones;
    Unmoved(a[..], lo, hi);
    pa, pb, swapped := pa0, pb0, false;
    while pb <= pc && Cmp(cmp, a[pb], a[lo]) <= 0
      invariant Rearranged(old(a[..]), a[..], lo, hi) && Zones(a[..], lo, pa, pb, pc, pd, hi, cmp)
      invariant lo < pa <= pb <= pc + 1 && pb0 <= pb
    {
      ghost var s := a[..];
      if Cmp(cmp, a[pb], a[lo]) == 0 {
        swapped := true;
        Swap(a, pa, pb, lo, hi);
        ZoneEqualLeft(s, a[..], lo, pa, pb, pc, pd, hi, cmp);
        RearrangedTwice(old(a[..]), s, a[..], lo, hi);
        pa := pa + 1;
      } else {
        ZoneLess(s, lo, pa, pb, pc, pd, hi, cmp);
      }
      pb := pb + 1;
    }
  }

  /** Move pc left over elements not less than the pivot. */
  method ScanLeft<T(!new)>(a: array<T>, lo: int, ghost pa: int, pb: int, pc0: int, pd0: int, ghost hi: int,
          cmp: (T, T) -> int) returns (pc: int, pd: int, swapped: bool)
    requires 0 <= lo < pa <= pb <= pc0 + 1 && pc0 <= pd0 < hi <= a.Length && Zones(a[..], lo, pa, pb, pc0, pd0, hi, cmp)
    requires pb <= pc0 ==> Cmp(cmp, a[pb], a[lo]) > 0
    modifies a
    ensures Rearranged(old(a[..]), a[..], lo, hi) && Zones(a[..], lo, pa, pb, pc, pd, hi, cmp)
    ensures pb <= pc + 1 && pc <= pd < hi && pc <= pc0
    ensures pb <= pc ==> Cmp(cmp, a[pb], a[lo]) > 0 && Cmp(cmp, a[pc], a[lo]) < 0
  {
    hide Swapped, Rearranged, Cmp, Zones;
    Unmoved(a[..], lo, hi);
    pc, pd, swapped := pc0, pd0, false;
    while pb <= pc && Cmp(cmp, a[pc], a[lo]) >= 0
      invariant Rearranged(old(a[..]), a[..], lo, hi) && Zones(a[..], lo, pa, pb, pc, pd, hi, cmp)
      invariant pb <= pc + 1 && pc <= pd < hi && pc <= pc0
      invariant pb <= pc ==> Cmp(cmp, a[pb], a[lo]) > 0
    {
      ghost var s := a[..];
      if Cmp(cmp, a[pc], a[lo]) == 0 {
        swapped := true;
        Swap(a, pc, pd, lo, hi);
        SwapKeeps(s, a[..], pc, pd);
        ZoneEqualRight(s, a[..], lo, pa, pb, pc, pd, hi, cmp);
        RearrangedTwice(old(a[..]), s, a[..], lo, hi);
        pd := pd - 1;
      } else {
        ZoneGreater(s, lo, pa, pb, pc, pd, hi, cmp);
      }
      pc := pc - 1;
    }
  }

  /** Split [lo, hi) around the element at lo: equal ones collect at both ends. */
  method Partition<T(!new)>(a: array<T>, lo: int, hi: int, cmp: (T, T) -> int)
    returns (pa: int, pb: int, pc: int, pd: int, swapped: bool)
    requires 0 <= lo && lo + 2 <= hi <= a.Length && Comparison(cmp)
    modifies a
    ensures Rearranged(old(a[..]), a[..], lo, hi) && Zones(a[..], lo, pa, pb, pc, pd, hi, cmp) && pb == pc + 1
    ensures lo < pa <= pb && pc <= pd < hi
  {
    hide Swapped, Rearranged, Cmp, Zones, Comparison;
    Unmoved(a[..], lo, hi);
    Reflexive(cmp, a[lo]);
    ZoneStart(a[..], lo, hi, cmp);
    pa, pb, pc, pd, swapped := lo + 1, lo + 1, hi - 1, hi - 1, false;
    while true
      invariant Rearranged(old(a[..]), a[..], lo, hi) && Zones(a[..], lo, pa, pb, pc, pd, hi, cmp)
      invariant lo < pa <= pb <= pc + 1 && pc <= pd < hi
      decreases pc - pb + 1
    {
      var moved;
      ghost var s := a[..];
      pa, pb, moved := ScanRight(a, lo, pa, pb, pc, pd, hi, cmp);
      RearrangedTwice(old(a[..]), s, a[..], lo, hi);
      swapped := swapped || moved;
      s := a[..];
      pc, pd, moved := ScanLeft(a, lo, pa, pb, pc, pd, hi, cmp);
      RearrangedTwice(old(a[..]), s, a[..], lo, hi);
      swapped := swapped || moved;
      if pb > pc {
        break;
      }
      s := a[..];
      Swap(a, pb, pc, lo, hi);
      ZoneCross(s, a[..], lo, pa, pb, pc, pd, hi, cmp);
      RearrangedTwice(old(a[..]), s, a[..], lo, hi);
      swapped := true;
      pb := pb + 1;
      pc := pc - 1;
    }
  }

  /** The blocks [x, x + k) and [y, y + k) have changed places. */
  ghost predicate VecSwapped<T>(s: seq<T>, s': seq<T>, x: int, y: int, k: int)
    requires 0 <= x && 0 <= k && x + k <= y && y + k <= |s|
  {
    && |s'| == |s|
    && (forall i | x <= i < x + k :: s'[i] == s[y + (i - x)])
    && (forall i | y <= i < y + k :: s'[i] == s[x + (i - y)])
    && (forall i | 0 <= i < |s| && !(x <= i < x + k) && !(y <= i < y + k) :: s'[i] == s[i])
  }

  lemma VecSwapMore<T>(s: seq<T>, s1: seq<T>, s2: seq<T>, x: int, y: int, k: int)
    requires 0 <= x && 0 <= k && x + k + 1 <= y && y + k + 1 <= |s|
    requires VecSwapped(s, s1, x, y, k) && Swapped(s1, s2, x + k, y + k)
    ensures VecSwapped(s, s2, x, y, k + 1)
  {
  }

  /** Exchange the blocks [x, x + k) and [y, y + k). */
  method VecSwap<T>(a: array<T>, x: int, y: int, k: int, ghost lo: int, ghost hi: int)
    requires 0 <= lo <= x && 0 <= k && x + k <= y && y + k <= hi <= a.Length
    modifies a
    ensures Rearranged(old(a[..]), a[..], lo, hi) && VecSwapped(old(a[..]), a[..], x, y, k)
  {
    hide Rearranged, Swapped;
    Unmoved(a[..], lo, hi);
    var i := 0;
    while i < k
      invariant 0 <= i <= k && Rearranged(old(a[..]), a[..], lo, hi)
      invariant VecSwapped(old(a[..]), a[..], x, y, i)
    {
      ghost var s := a[..];
      Swap(a, x + i, y + i, lo, hi);
      RearrangedTwice(old(a[..]), s, a[..], lo, hi);
      VecSwapMore(old(a[..]), s, a[..], x, y, i);
      i := i + 1;
    }
  }

  /** The three parts of a finished split: less, equal and greater than p. */
  ghost predicate Split<T>(s: seq<T>, lo: int, l: int, r: int, hi: int, p: T, cmp: (T, T) -> int) {
    && 0 <= lo <= l <= r <= hi <= |s|
    && (forall i | lo <= i < l :: Cmp(cmp, s[i], p) < 0)
    && (forall i | l <= i < r :: Cmp(cmp, s[i], p) == 0)
    && (forall i | r <= i < hi :: Cmp(cmp, s[i], p) > 0)
  }

  /** Exchanging the ends of the first two zones puts the lesser elements first. */
  lemma GatheredLeft<T>(s: seq<T>, s': seq<T>, lo: int, pa: int, pb: int, p: T, cmp: (T, T) -> int)
    requires 0 <= lo < pa <= pb <= |s|
    requires var r := if pa - lo < pb - pa then pa - lo else pb - pa; VecSwapped(s, s', lo, pb - r, r)
    requires forall i | lo <= i < pa :: Cmp(cmp, s[i], p) == 0
    requires forall i | pa <= i < pb :: Cmp(cmp, s[i], p) < 0
    ensures Split(s', lo, lo + (pb - pa), pb, pb, p, cmp)
  {
  }

  lemma GatheredRight<T>(s: seq<T>, s': seq<T>, pb: int, pd: int, hi: int, p: T, cmp: (T, T) -> int)
    requires 0 <= pb <= pd + 1 <= hi <= |s|
    requires var r := if pd - (pb - 1) < hi - pd - 1 then pd - (pb - 1)
        else hi - pd - 1; VecSwapped(s, s', pb, hi - r, r)
    requires forall i | pb <= i <= pd :: Cmp(cmp, s[i], p) > 0
    requires forall i | pd < i < hi :: Cmp(cmp, s[i], p) == 0
    ensures Split(s', pb, pb, hi - (pd - (pb - 1)), hi, p, cmp)
  {
  }

  lemma VecSwapKeeps<T>(s: seq<T>, s': seq<T>, x: int, y: int, k: int)
    requires 0 <= x && 0 <= k && x + k <= y && y + k <= |s| && VecSwapped(s, s', x, y, k)
    ensures |s'| == |s| && forall i | 0 <= i < |s| && (i < x || y + k <= i) :: s'[i] == s[i]
  {
  }

  lemma SplitJoined<T>(s: seq<T>, s': seq<T>, lo: int, l: int, pb: int, r: int, hi: int, p: T, cmp: (T, T) -> int)
    requires Split(s, lo, l, pb, pb, p, cmp) && Split(s', pb, pb, r, hi, p, cmp) && |s| == |s'|
    requires forall i | lo <= i < pb :: s'[i] == s[i]
    ensures Split(s', lo, l, r, hi, p, cmp)
  {
  }

  /** Bring the equal elements from both ends to the middle. */
  method Gather<T(!new)>(a: array<T>, lo: int, pa: int, pb: int, pc: int, pd: int, hi: int, cmp: (T, T) -> int)
    requires 0 <= lo < hi <= a.Length && Zones(a[..], lo, pa, pb, pc, pd, hi, cmp) && pb == pc + 1
    modifies a
    ensures Rearranged(old(a[..]), a[..], lo, hi)
    ensures Split(a[..], lo, lo + (pb - pa), hi - (pd - pc), hi, old(a[lo]), cmp)
  {
    hide Rearranged, Cmp, VecSwapped, Split;
    ghost var s, p := a[..], a[lo];
    var r := if pa - lo < pb - pa then pa - lo else pb - pa;
    VecSwap(a, lo, pb - r, r, lo, hi);
    ghost var s1 := a[..];
    GatheredLeft(s, s1, lo, pa, pb, p, cmp);
    VecSwapKeeps(s, s1, lo, pb - r, r);
    r := if pd - pc < hi - pd - 1 then pd - pc else hi - pd - 1;
    VecSwap(a, pb, hi - r, r, lo, hi);
    GatheredRight(s1, a[..], pb, pd, hi, p, cmp);
    VecSwapKeeps(s1, a[..], pb, hi - r, r);
    SplitJoined(s1, a[..], lo, lo + (pb - pa), pb, hi - (pd - pc), hi, p, cmp);
    RearrangedTwice(s, s1, a[..], lo, hi);
  }

  lemma SplitLeft<T(!new)>(s: seq<T>, s': seq<T>, lo: int, l: int, r: int, hi: int, p: T, cmp: (T, T) -> int)
    requires Split(s, lo, l, r, hi, p, cmp) && Rearranged(s, s', lo, l)
    ensures forall x | x in s'[lo..l] :: Cmp(cmp, x, p) < 0
  {
    forall x | x in s'[lo..l]
      ensures Cmp(cmp, x, p) < 0
    {
      var i :| 0 <= i < l - lo && s'[lo..l][i] == x;
      MultisetMember(s[lo..l], s'[lo..l], i);
    }
  }

  lemma SplitRight<T(!new)>(s: seq<T>, s': seq<T>, lo: int, l: int, r: int, hi: int, p: T, cmp: (T, T) -> int)
    requires Split(s, lo, l, r, hi, p, cmp) && |s'| == |s| && s'[l..] == s[l..]
    ensures forall x | x in s'[l..r] :: Cmp(cmp, x, p) == 0
    ensures forall x | x in s'[r..hi] :: Cmp(cmp, x, p) > 0
  {
    assert s'[l..r] == s[l..r] by { assert s'[l..][..r - l] == s[l..][..r - l]; }
    assert s'[r..hi] == s[r..hi] by { assert s'[l..][r - l..hi - l] == s[l..][r - l..hi - l]; }
  }

  /** The three parts left by Gather, once the left one is sorted, are in order. */
  lemma PartsInOrder<T(!new)>(s: seq<T>, s': seq<T>, lo: int, l: int, r: int, hi: int, p: T, cmp: (T, T) -> int)
    requires Split(s, lo, l, r, hi, p, cmp) && Comparison(cmp) && Rearranged(s, s', lo, l) && Sorted(s'[lo..l], cmp)
    ensures Sorted(s'[lo..r], cmp) && Below(s'[lo..r], s'[r..hi], cmp)
  {
    hide Sorted, Below, Comparison;
    SplitLeft(s, s', lo, l, r, hi, p, cmp);
    SplitRight(s, s', lo, l, r, hi, p, cmp);
    Joined(s'[lo..l], s'[l..r], s'[r..hi], p, cmp);
    assert s'[lo..r] == s'[lo..l] + s'[l..r];
  }

  lemma Joined<T(!new)>(s: seq<T>, t: seq<T>, u: seq<T>, p: T, cmp: (T, T) -> int)
    requires Comparison(cmp) && Sorted(s, cmp)
    requires forall i | 0 <= i < |s| :: Cmp(cmp, s[i], p) < 0
    requires forall i | 0 <= i < |t| :: Cmp(cmp, t[i], p) == 0
    requires forall i | 0 <= i < |u| :: Cmp(cmp, u[i], p) > 0
    ensures Sorted(s + t, cmp) && Below(s + t, u, cmp)
  {
    Around(s, t, p, cmp);
    Around(t, t, p, cmp);
    Around(s + t, u, p, cmp);
    SortedConcat(s, t, cmp);
  }

  lemma Around<T(!new)>(s: seq<T>, t: seq<T>, p: T, cmp: (T, T) -> int)
    requires Comparison(cmp)
    requires forall i | 0 <= i < |s| :: Cmp(cmp, s[i], p) <= 0
    requires forall i | 0 <= i < |t| :: Cmp(cmp, t[i], p) >= 0
    ensures Below(s, t, cmp)
  {
    forall i, j | 0 <= i < |s| && 0 <= j < |t|
      ensures Cmp(cmp, s[i], t[j]) <= 0
    {
      assert Cmp(cmp, p, t[j]) <= 0;
    }
  }

  lemma SlicesSame<T>(s: seq<T>, t: seq<T>, lo: int, hi: int)
    requires 0 <= lo <= hi <= |s| == |t| && s[..hi] == t[..hi]
    ensures s[lo..hi] == t[lo..hi]
  {
    assert s[lo..hi] == s[..hi][lo..];
    assert t[lo..hi] == t[..hi][lo..];
  }

  /** One round puts [cur, r) in its final place. */
  lemma Advance<T(!new)>(s: seq<T>, s0: seq<T>, s1: seq<T>, lo: int, cur: int, r: int, hi: int, cmp: (T, T) -> int)
    requires 0 <= lo <= cur <= r <= hi <= |s| && Rearranged(s, s0, lo, hi) && Rearranged(s0, s1, cur, hi)
    requires Sorted(s0[lo..cur], cmp) && Below(s0[lo..cur], s0[cur..hi], cmp)
    requires Sorted(s1[cur..r], cmp) && Below(s1[cur..r], s1[r..hi], cmp)
    ensures Rearranged(s, s1, lo, hi) && Sorted(s1[lo..r], cmp) && Below(s1[lo..r], s1[r..hi], cmp)
  {
    RearrangedWider(s0, s1, cur, hi, lo, hi);
    RearrangedTwice(s, s0, s1, lo, hi);
    SlicesSame(s0, s1, lo, cur);
    BelowRearranged(s0[lo..cur], s1[lo..cur], s0[cur..hi], s1[cur..hi], cmp);
    BelowParts(s1[lo..cur], s1[cur..hi], r - cur, cmp);
    assert s1[cur..hi][..r - cur] == s1[cur..r] && s1[cur..hi][r - cur..] == s1[r..hi];
    SortedConcat(s1[lo..cur], s1[cur..r], cmp);
    assert s1[lo..r] == s1[lo..cur] + s1[cur..r];
  }

  lemma BelowParts<T>(s: seq<T>, t: seq<T>, k: int, cmp: (T, T) -> int)
    requires Below(s, t, cmp) && 0 <= k <= |t|
    ensures Below(s, t[..k], cmp) && Below(s, t[k..], cmp)
  {
  }

  lemma Finished<T(!new)>(s: seq<T>, s0: seq<T>, s1: seq<T>, lo: int, cur: int, hi: int, cmp: (T, T) -> int)
    requires 0 <= lo <= cur <= hi <= |s| && Rearranged(s, s0, lo, hi) && Rearranged(s0, s1, cur, hi)
    requires Sorted(s0[lo..cur], cmp) && Below(s0[lo..cur], s0[cur..hi], cmp) && Sorted(s1[cur..hi], cmp)
    ensures Rearranged(s, s1, lo, hi) && Sorted(s1[lo..hi], cmp)
  {
    Advance(s, s0, s1, lo, cur, hi, hi, cmp);
  }

  lemma ShortPart<T>(s: seq<T>, lo: int, hi: int, cmp: (T, T) -> int)
    requires 0 <= lo <= hi <= |s| && hi - lo <= 1
    ensures Rearranged(s, s, lo, hi) && Sorted(s[lo..hi], cmp)
  {
  }

  lemma LastOne<T(!new)>(s: seq<T>, lo: int, cur: int, hi: int, cmp: (T, T) -> int)
    requires 0 <= lo <= cur <= hi <= |s| && hi - cur <= 1
    requires Sorted(s[lo..cur], cmp) && Below(s[lo..cur], s[cur..hi], cmp)
    ensures Sorted(s[lo..hi], cmp)
  {
    SortedConcat(s[lo..cur], s[cur..hi], cmp);
    assert s[lo..hi] == s[lo..cur] + s[cur..hi];
  }

  /** Sort the lesser elements of [cur, hi), and leave the equal and the greater ones after them:
      [cur, r) is then in its final place, and so is everything when nothing had to move. */
  method Round<T(!new)>(a: array<T>, cur: int, hi: int, cmp: (T, T) -> int) returns (r: int)
    requires 0 <= cur && cur + 7 <= hi <= a.Length && Comparison(cmp)
    modifies a
    ensures cur < r <= hi && Rearranged(old(a[..]), a[..], cur, hi)
    ensures Sorted(a[..][cur..r], cmp) && Below(a[..][cur..r], a[..][r..hi], cmp)
    decreases hi - cur, 0
  {
    hide Rearranged, Sorted, Below, Zones, Cmp, Split, Swapped, Comparison;
    ghost var s0 := a[..];
    var pm := ChoosePivot(a, cur, hi, cmp);
    Swap(a, cur, pm, cur, hi);
    ghost var s1 := a[..];
    var pa, pb, pc, pd, swapped := Partition(a, cur, hi, cmp);
    RearrangedTwice(s0, s1, a[..], cur, hi);
    s1 := a[..];
    if !swapped {
      InsertionSort(a, cur, hi, cmp);
      RearrangedTwice(s0, s1, a[..], cur, hi);
      BelowNothing(a[..], cur, hi, cmp);
      return hi;
    }
    ghost var p := a[cur];
    Gather(a, cur, pa, pb, pc, pd, hi, cmp);
    RearrangedTwice(s0, s1, a[..], cur, hi);
    var l := cur + (pb - pa);
    r := hi - (pd - pc);
    s1 := a[..];
    SortLesser(a, cur, l, r, hi, p, cmp);
    RearrangedTwice(s0, s1, a[..], cur, hi);
  }

  /** The elements less than the pivot p are those of [lo, l), the ones equal to it those of [l, r). */
  method SortLesser<T(!new)>(a: array<T>, lo: int, l: int, r: int, hi: int, ghost p: T, cmp: (T, T) -> int)
    requires Comparison(cmp) && 0 <= lo <= l <= r <= hi <= a.Length && Split(a[..], lo, l, r, hi, p, cmp)
    modifies a
    ensures Rearranged(old(a[..]), a[..], lo, hi)
    ensures Sorted(a[..][lo..r], cmp) && Below(a[..][lo..r], a[..][r..hi], cmp)
    decreases l - lo, 2
  {
    hide Rearranged, Sorted, Below, Cmp, Split, Comparison;
    ghost var s := a[..];
    if l - lo > 1 {
      QSort(a, lo, l, cmp);
    } else {
      ShortPart(s, lo, l, cmp);
    }
    PartsInOrder(s, a[..], lo, l, r, hi, p, cmp);
    RearrangedWider(s, a[..], lo, l, lo, hi);
  }

  lemma BelowNothing<T>(s: seq<T>, lo: int, hi: int, cmp: (T, T) -> int)
    requires 0 <= lo <= hi <= |s|
    ensures Below(s[lo..hi], s[hi..hi], cmp)
  {
  }

  /** Sort [lo, hi): round after round on what is left of it, until at most one element is. */
  method QSort<T(!new)>(a: array<T>, lo: int, hi: int, cmp: (T, T) -> int)
    requires 0 <= lo <= hi <= a.Length && Comparison(cmp)
    modifies a
    ensures Rearranged(old(a[..]), a[..], lo, hi) && Sorted(a[..][lo..hi], cmp)
    decreases hi - lo, 1
  {
    hide Rearranged, Sorted, Below, Cmp, Comparison;
    Unmoved(a[..], lo, hi);
    NothingYet(a[..], lo, hi, cmp);
    var cur := lo;
    while true
      invariant lo <= cur <= hi && Rearranged(old(a[..]), a[..], lo, hi)
      invariant Sorted(a[..][lo..cur], cmp) && Below(a[..][lo..cur], a[..][cur..hi], cmp)
      decreases hi - cur
    {
      ghost var s0 := a[..];
      if hi - cur < 7 {
        InsertionSort(a, cur, hi, cmp);
        Finished(old(a[..]), s0, a[..], lo, cur, hi, cmp);
        return;
      }
      var r := Round(a, cur, hi, cmp);
      Advance(old(a[..]), s0, a[..], lo, cur, r, hi, cmp);
      cur := r;
      if hi - cur <= 1 {
        LastOne(a[..], lo, cur, hi, cmp);
        return;
      }
    }
  }
}
