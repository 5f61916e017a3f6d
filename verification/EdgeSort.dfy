/**
 The edge sort of stb_truetype.h: a quicksort that leaves short runs alone, then an insertion
 sort over everything. Keys are reals, so the floating-point order is taken to be total.
 */
module EdgeSort {
  import opened Common

  datatype Edge = Edge(x0: real, y0: real, x1: real, y1: real, invert: bool)

  /** STBTT__COMPARE. */
  predicate Less(a: Edge, b: Edge) {
    a.y0 < b.y0
  }

  ghost predicate Sorted(s: seq<Edge>) {
    forall i, j :: 0 <= i < j < |s| ==> !Less(s[j], s[i])
  }

  ghost predicate Perm(s: seq<Edge>, t: seq<Edge>) {
    multiset(s) == multiset(t)
  }

  /** `t` is `s` with the elements from `lo` to `hi` rearranged. */
  ghost predicate PermIn(s: seq<Edge>, t: seq<Edge>, lo: int, hi: int) {
    && 0 <= lo <= hi <= |s| == |t| && Perm(s, t)
    && s[..lo] == t[..lo] && s[hi..] == t[hi..]
  }

  lemma PermTrans(s: seq<Edge>, t: seq<Edge>, u: seq<Edge>)
    requires Perm(s, t) && Perm(t, u)
    ensures Perm(s, u)
  {
  }

  lemma PermInTrans(s: seq<Edge>, t: seq<Edge>, u: seq<Edge>, lo: int, hi: int)
    requires PermIn(s, t, lo, hi) && PermIn(t, u, lo, hi)
    ensures PermIn(s, u, lo, hi)
  {
  }

  lemma PermInWiden(s: seq<Edge>, t: seq<Edge>, a: int, b: int, lo: int, hi: int)
    requires PermIn(s, t, a, b) && 0 <= lo <= a && b <= hi <= |s|
    ensures PermIn(s, t, lo, hi)
  {
    hide Perm;
    assert s[..lo] == s[..a][..lo] && t[..lo] == t[..a][..lo];
    assert s[hi..] == s[b..][hi - b..] && t[hi..] == t[b..][hi - b..];
  }

  function Swapped(s: seq<Edge>, i: nat, j: nat): (t: seq<Edge>)
    requires i < |s| && j < |s|
    ensures |t| == |s|
  {
    s[i := s[j]][j := s[i]]
  }

  lemma SwapPerm(s: seq<Edge>, i: nat, j: nat)
    requires i < |s| && j < |s|
    ensures Perm(s, s[i := s[j]][j := s[i]])
  {
  }

  method Swap(p: array<Edge>, i: nat, j: nat, ghost lo: nat, ghost hi: nat)
    requires lo <= i < hi && lo <= j < hi && hi <= p.Length
    modifies p
    ensures p[..] == Swapped(old(p[..]), i, j)
    ensures p[i] == old(p[j]) && p[j] == old(p[i])
    ensures forall k :: 0 <= k < p.Length && k != i && k != j ==> p[k] == old(p[k])
    ensures PermIn(old(p[..]), p[..], lo, hi)
  {
    ghost var s := p[..];
    SwapPerm(s, i, j);
    hide Perm;
    var t := p[i];
    p[i] := p[j];
    p[j] := t;
    assert p[..] == s[i := s[j]][j := s[i]];
  }

  // ---------------------------------------------------------- insertion sort

  /** While `t` is on its way down, place `j` holds a stale copy. */
  ghost predicate Hole(s: seq<Edge>, t: Edge, i: nat, j: nat) {
    && j <= i < |s|
    && (forall a, b :: 0 <= a < b <= i && a != j && b != j ==> !Less(s[b], s[a]))
    && (forall k :: j < k <= i ==> Less(t, s[k]))
  }

  lemma FillHole(s: seq<Edge>, t: Edge, i: nat, j: nat)
    requires Hole(s, t, i, j) && (j > 0 ==> !Less(t, s[j - 1]))
    ensures Sorted(s[j := t][..i + 1])
  {
    var u := s[j := t][..i + 1];
    forall a, b | 0 <= a < b < |u|
      ensures !Less(u[b], u[a])
    {
      if b == j && a < j - 1 {
        assert !Less(s[j - 1], s[a]);
      }
    }
  }

  /** stbtt__sort_edges_ins_sort. */
  method InsertionSort(p: array<Edge>, n: nat)
    requires n <= p.Length
    modifies p
    ensures Sorted(p[..n]) && PermIn(old(p[..]), p[..], 0, n)
  {
    var i := 1;
    while i < n
      invariant 1 <= i && (i <= n || n == 0)
      invariant Sorted(p[..if i <= n then i else n]) && PermIn(old(p[..]), p[..], 0, n)
    {
      ghost var s := p[..];
      InsertOne(p, i, n);
      PermInTrans(old(p[..]), s, p[..], 0, n);
      i := i + 1;
    }
  }

  method InsertOne(p: array<Edge>, i: nat, ghost n: nat)
    requires 0 < i < n <= p.Length && Sorted(p[..i])
    modifies p
    ensures Sorted(p[..i + 1]) && PermIn(old(p[..]), p[..], 0, n)
  {
    hide Sorted, Perm, Hole, Less;
    ghost var s := p[..];
    StartHole(s, i);
    var t := p[i];
    var j := i;
    while j > 0
      invariant 0 <= j <= i && Hole(p[..], t, i, j)
      invariant Perm(s, p[..][j := t]) && p[i + 1..] == s[i + 1..]
      invariant j == i ==> p[i] == t
    {
      ghost var u := p[..];
      if !Less(t, p[j - 1]) {
        break;
      }
      MoveHole(u, t, i, j);
      p[j] := p[j - 1];
      j := j - 1;
      assert p[..] == u[j + 1 := u[j]];
      PermTrans(s, u[j + 1 := t], p[..][j := t]);
    }
    FillHole(p[..], t, i, j);
    if i != j {
      ghost var u := p[..];
      p[j] := t;
      assert p[..] == u[j := t];
    } else {
      assert p[..] == p[..][j := t];
    }
    assert p[n..] == p[i + 1..][n - i - 1..] && s[n..] == s[i + 1..][n - i - 1..];
  }

  lemma StartHole(s: seq<Edge>, i: nat)
    requires 0 < i < |s| && Sorted(s[..i])
    ensures Hole(s, s[i], i, i) && s == s[i := s[i]] && Perm(s, s)
  {
    assert forall k :: 0 <= k < i ==> s[..i][k] == s[k];
  }

  lemma MoveHole(u: seq<Edge>, t: Edge, i: nat, j: nat)
    requires Hole(u, t, i, j) && j > 0 && Less(t, u[j - 1])
    ensures Hole(u[j := u[j - 1]], t, i, j - 1)
    ensures Perm(u[j := t], u[j := u[j - 1]][j - 1 := t])
  {
    ShiftPerm(u, t, j);
    hide Perm;
  }

  lemma ShiftPerm(u: seq<Edge>, t: Edge, j: nat)
    requires 0 < j < |u|
    ensures Perm(u[j := t], u[j := u[j - 1]][j - 1 := t])
  {
    hide Perm;
    var v := u[j := t];
    SwapPerm(v, j, j - 1);
    assert u[j := u[j - 1]][j - 1 := t] == v[j := v[j - 1]][j - 1 := v[j]];
  }

  // ---------------------------------------------------------------- quicksort

  /** Keys that go up all the way. */
  ghost predicate Increasing(s: seq<Edge>, lo: nat, hi: nat) {
    hi <= |s| && forall x, y :: lo <= x < y < hi ==> Less(s[x], s[y])
  }

  /** One of the first, middle and last element that is not greater than both others goes to
      the middle. */
  method MedianToMiddle(p: array<Edge>, off: nat, n: nat)
    requires n > 12 && off + n <= p.Length
    modifies p
    ensures PermIn(old(p[..]), p[..], off, off + n)
    ensures !Less(p[off], p[off + n / 2]) || !Less(p[off + n - 1], p[off + n / 2])
    ensures !Less(p[off + n / 2], p[off]) || !Less(p[off + n / 2], p[off + n - 1])
    ensures Increasing(old(p[..]), off, off + n) ==> p[..] == old(p[..])
  {
    hide PermIn;
    SamePerm(p[..], off, off + n);
    var m := n / 2;
    var c01 := Less(p[off], p[off + m]);
    var c12 := Less(p[off + m], p[off + n - 1]);
    if c01 != c12 {
      var c := Less(p[off], p[off + n - 1]);
      var z := if c == c12 then 0 else n - 1;
      Swap(p, off + z, off + m, off, off + n);
    }
  }

  /** The median of three goes to the front. What matters is that afterwards some other element
      is not less than it: it stops the upward scan. */
  method MedianToFront(p: array<Edge>, off: nat, n: nat) returns (ghost stop: nat)
    requires n > 12 && off + n <= p.Length
    modifies p
    ensures PermIn(old(p[..]), p[..], off, off + n)
    ensures off < stop < off + n && !Less(p[stop], p[off])
    ensures Increasing(old(p[..]), off, off + n) ==>
              p[..] == Swapped(old(p[..]), off, off + n / 2)
  {
    hide PermIn, Less, Swapped, Increasing;
    ghost var s := p[..];
    MedianToMiddle(p, off, n);
    ghost var t := p[..];
    Swap(p, off, off + n / 2, off, off + n);
    PermInTrans(s, t, p[..], off, off + n);
    stop := if Less(p[off + n / 2], p[off]) then off + n - 1 else off + n / 2;
  }

  lemma SamePerm(s: seq<Edge>, lo: nat, hi: nat)
    requires lo <= hi <= |s|
    ensures PermIn(s, s, lo, hi)
  {
  }

  /** The unguarded upward scan; `stop` is where it stops at the latest. */
  method ScanUp(p: array<Edge>, off: nat, i0: nat, ghost stop: nat) returns (i: nat)
    requires off + i0 <= stop < p.Length && !Less(p[stop], p[off])
    ensures i0 <= i && off + i <= stop && !Less(p[off + i], p[off])
    ensures forall q :: off + i0 <= q < off + i ==> Less(p[q], p[off])
  {
    i := i0;
    while Less(p[off + i], p[off])
      invariant i0 <= i && off + i <= stop
      invariant forall q :: off + i0 <= q < off + i ==> Less(p[q], p[off])
      decreases stop - i
    {
      i := i + 1;
    }
  }

  /** The unguarded downward scan: the front itself stops it. */
  method ScanDown(p: array<Edge>, off: nat, j0: nat) returns (j: nat)
    requires off + j0 < p.Length
    ensures j <= j0 && !Less(p[off], p[off + j])
    ensures forall q :: off + j < q <= off + j0 ==> Less(p[off], p[q])
  {
    j := j0;
    while Less(p[off], p[off + j])
      invariant 0 <= j <= j0
      invariant forall q :: off + j < q <= off + j0 ==> Less(p[off], p[q])
      decreases j
    {
      j := j - 1;
    }
  }

  /** Of the places from `lo` to `hi`, those before `i` hold at most the front element, those
      after `j` at least. */
  ghost predicate Split(s: seq<Edge>, lo: nat, hi: nat, i: nat, j: int) {
    && lo < hi <= |s| && lo < i <= hi && lo <= j + 1 && j < hi
    && (forall q :: lo <= q < i ==> !Less(s[lo], s[q]))
    && (forall q :: j < q < hi ==> !Less(s[q], s[lo]))
  }

  lemma FirstSplit(s: seq<Edge>, lo: nat, hi: nat)
    requires lo + 1 < hi <= |s|
    ensures Split(s, lo, hi, lo + 1, hi - 1)
  {
  }

  lemma ScanSplit(s: seq<Edge>, lo: nat, hi: nat, i0: nat, j0: nat, i: nat, j: nat)
    requires Split(s, lo, hi, i0, j0) && i0 <= i < hi && lo <= j <= j0
    requires forall q :: i0 <= q < i ==> Less(s[q], s[lo])
    requires forall q :: j < q <= j0 ==> Less(s[lo], s[q])
    requires i0 <= j0 + 1 && (i <= j0 + 1)
    ensures Split(s, lo, hi, i, j) && i <= j + 1
  {
    assert j < j0 ==> Less(s[lo], s[j + 1]);
  }

  lemma SwapSplit(s: seq<Edge>, lo: nat, hi: nat, i: nat, j: nat)
    requires i < j && Split(s, lo, hi, i, j)
    requires !Less(s[i], s[lo]) && !Less(s[lo], s[j])
    ensures var t := s[i := s[j]][j := s[i]]; Split(t, lo, hi, i + 1, j - 1) && !Less(t[j], t[lo])
  {
  }

  /** Both scans of one round. */
  method ScanBoth(p: array<Edge>, off: nat, n: nat, i0: nat, j0: nat, ghost stop: nat) returns (i: nat, j: nat)
    requires 0 < n && off + n <= p.Length && 1 <= i0 <= j0 + 1 && j0 < n
    requires off + i0 <= stop < off + n && stop <= off + j0 + 1 && !Less(p[stop], p[off])
    requires Split(p[..], off, off + n, off + i0, off + j0)
    ensures i0 <= i <= j + 1 && j <= j0 && i < n
    ensures !Less(p[off + i], p[off]) && !Less(p[off], p[off + j])
    ensures Split(p[..], off, off + n, off + i, off + j)
    ensures forall q :: off + i0 <= q < off + i ==> Less(p[q], p[off])
    ensures forall q :: off + j < q <= off + j0 ==> Less(p[off], p[q])
  {
    hide Split, Less;
    i := ScanUp(p, off, i0, stop);
    j := ScanDown(p, off, j0);
    ScanSplit(p[..], off, off + n, off + i0, off + j0, off + i, off + j);
  }

  /** The exchange at the end of a round; the larger element stops the next upward scan. */
  method Exchange(p: array<Edge>, off: nat, n: nat, i: nat, j: nat)
    requires off + n <= p.Length && 1 <= i < j < n && Split(p[..], off, off + n, off + i, off + j)
    requires !Less(p[off + i], p[off]) && !Less(p[off], p[off + j])
    modifies p
    ensures PermIn(old(p[..]), p[..], off, off + n)
    ensures Split(p[..], off, off + n, off + i + 1, off + j - 1) && !Less(p[off + j], p[off])
  {
    hide Split, Less, PermIn;
    SwapSplit(p[..], off, off + n, off + i, off + j);
    Swap(p, off + i, off + j, off, off + n);
  }

  /** The front is less than exactly what follows the place `k`, and nothing equals it. */
  ghost predicate SplitAlready(s: seq<Edge>, lo: nat, hi: nat, k: nat) {
    && lo <= k < hi <= |s|
    && forall q :: lo < q < hi ==> if q <= k then Less(s[q], s[lo]) else Less(s[lo], s[q])
  }

  lemma ScansMeet(s: seq<Edge>, lo: nat, hi: nat, k: nat, i: nat, j: nat)
    requires SplitAlready(s, lo, hi, k) && lo < i < hi && lo <= j < hi
    requires !Less(s[i], s[lo]) && forall q :: lo < q < i ==> Less(s[q], s[lo])
    requires !Less(s[lo], s[j]) && forall q :: j < q < hi ==> Less(s[lo], s[q])
    ensures i == k + 1 && j == k
  {
    assert Less(s[lo], s[i]) && i > k;
    assert k + 1 < hi ==> Less(s[lo], s[k + 1]) && i <= k + 1;
    assert j < k ==> Less(s[lo], s[k]);
  }

  /** The partition loop. The two parts do not overlap and miss at most one element. */
  method Partition(p: array<Edge>, off: nat, n: nat, ghost stop0: nat, ghost k: nat) returns (i: nat, j: nat)
    requires n > 12 && off + n <= p.Length
    requires off < stop0 < off + n && !Less(p[stop0], p[off])
    modifies p
    ensures PermIn(old(p[..]), p[..], off, off + n)
    ensures 1 <= i < n && j <= i <= j + 1 && Split(p[..], off, off + n, off + i, off + j)
    ensures !Less(p[off + i], p[off])
    ensures SplitAlready(old(p[..]), off, off + n, off + k) ==> i == k + 1 && j == k && p[..] == old(p[..])
  {
    hide PermIn, Split, Less, SplitAlready;
    i, j := 1, n - 1;
    ghost var stop := stop0;
    SamePerm(p[..], off, off + n);
    FirstSplit(p[..], off, off + n);
    while true
      invariant 1 <= i <= j + 1 && j <= n - 1 && off + i <= stop < off + n && stop <= off + j + 1
      invariant !Less(p[stop], p[off])
      invariant PermIn(old(p[..]), p[..], off, off + n)
      invariant Split(p[..], off, off + n, off + i, off + j)
      invariant SplitAlready(old(p[..]), off, off + n, off + k) ==> i == 1 && j == n - 1 && p[..] == old(p[..])
      decreases j - i + 2
    {
      i, j := ScanBoth(p, off, n, i, j, stop);
      if SplitAlready(old(p[..]), off, off + n, off + k) {
        ScansMeet(p[..], off, off + n, off + k, off + i, off + j);
      }
      if i >= j {
        break;
      }
      ghost var s := p[..];
      Exchange(p, off, n, i, j);
      PermInTrans(old(p[..]), s, p[..], off, off + n);
      stop := off + j;
      i := i + 1;
      j := j - 1;
    }
  }

  /** Nothing before the i-th place is greater than anything from there on; the parts that are
      sorted further are those before the j-th and from the i-th. */
  ghost predicate Cut(s: seq<Edge>, lo: nat, hi: nat, j: nat, i: nat) {
    && lo <= j <= i <= j + 1 && lo < i < hi <= |s|
    && forall x, y :: lo <= x < i <= y < hi ==> !Less(s[y], s[x])
  }

  lemma SplitCuts(s: seq<Edge>, lo: nat, hi: nat, i: nat, j: nat)
    requires Split(s, lo, hi, i, j) && lo <= j <= i <= j + 1 && i < hi && !Less(s[i], s[lo])
    ensures Cut(s, lo, hi, j, i)
  {
    forall x, y | lo <= x < i <= y < hi
      ensures !Less(s[y], s[x])
    {
      assert !Less(s[lo], s[x]);
      assert y > j ==> !Less(s[y], s[lo]);
    }
  }

  lemma FrontSplits(s: seq<Edge>, t: seq<Edge>, lo: nat, hi: nat, k: nat)
    requires Increasing(s, lo, hi) && lo < k < hi && t == Swapped(s, lo, k)
    ensures SplitAlready(t, lo, hi, k) && t[k] == s[lo]
  {
  }

  /** One round of the outer loop up to the recursive call. Of keys that go up all the way, the
      smallest is put in the middle and left out of both parts. */
  method SplitRun(p: array<Edge>, off: nat, n: nat) returns (i: nat, j: nat)
    requires n > 12 && off + n <= p.Length
    modifies p
    ensures PermIn(old(p[..]), p[..], off, off + n)
    ensures 1 <= i < n && j <= i <= j + 1 && Cut(p[..], off, off + n, off + j, off + i)
    ensures Increasing(old(p[..]), off, off + n) ==>
              i == n / 2 + 1 && j == n / 2 && p[off + n / 2] == old(p[off])
  {
    hide PermIn, Split, Less, Cut, Increasing, SplitAlready, Swapped;
    ghost var s := p[..];
    ghost var stop := MedianToFront(p, off, n);
    ghost var t := p[..];
    if Increasing(s, off, off + n) {
      FrontSplits(s, t, off, off + n, off + n / 2);
    }
    i, j := Partition(p, off, n, stop, n / 2);
    PermInTrans(s, t, p[..], off, off + n);
    SplitCuts(p[..], off, off + n, off + i, off + j);
  }

  // ------------------------------------------------- what the quicksort leaves

  /** Up to 12 elements may stand in any order; more are cut in two parts, which are likewise
      roughly sorted, with at most one element between them. */
  ghost predicate Rough(s: seq<Edge>, lo: nat, hi: nat)
    decreases hi - lo
  {
    && lo <= hi <= |s|
    && (hi - lo <= 12 || exists j: nat, i: nat :: Cut(s, lo, hi, j, i) && Rough(s, lo, j) && Rough(s, i, hi))
  }

  /** The elements from `lo` to `hi` are roughly sorted but for those from `a` to `b`. */
  ghost predicate RoughBut(s: seq<Edge>, lo: nat, hi: nat, a: nat, b: nat)
    decreases hi - lo
  {
    && lo <= a <= b <= hi <= |s|
    && ((lo == a && hi == b)
        || exists j: nat, i: nat :: Cut(s, lo, hi, j, i)
             && ((b <= j && RoughBut(s, lo, j, a, b) && Rough(s, i, hi))
                 || (i <= a && Rough(s, lo, j) && RoughBut(s, i, hi, a, b))))
  }

  lemma {:induction false} RoughWhole(s: seq<Edge>, lo: nat, hi: nat, a: nat, b: nat)
    requires RoughBut(s, lo, hi, a, b) && Rough(s, a, b)
    ensures Rough(s, lo, hi)
    decreases hi - lo
  {
    hide Cut;
    if !(lo == a && hi == b) && hi - lo > 12 {
      var j: nat, i: nat :| Cut(s, lo, hi, j, i)
             && ((b <= j && RoughBut(s, lo, j, a, b) && Rough(s, i, hi))
                 || (i <= a && Rough(s, lo, j) && RoughBut(s, i, hi, a, b)));
      CutBounds(s, lo, hi, j, i);
      if b <= j && RoughBut(s, lo, j, a, b) && Rough(s, i, hi) {
        RoughWhole(s, lo, j, a, b);
      } else {
        RoughWhole(s, i, hi, a, b);
      }
    }
  }

  lemma CutBounds(s: seq<Edge>, lo: nat, hi: nat, j: nat, i: nat)
    requires Cut(s, lo, hi, j, i)
    ensures lo <= j <= i <= j + 1 && lo < i < hi <= |s|
  {
  }

  /** A further cut, one part of which is done. */
  lemma {:induction false} RoughStep(s: seq<Edge>, lo: nat, hi: nat, a: nat, b: nat, j: nat, i: nat)
    requires RoughBut(s, lo, hi, a, b) && Cut(s, a, b, j, i)
    ensures Rough(s, i, b) ==> RoughBut(s, lo, hi, a, j)
    ensures Rough(s, a, j) ==> RoughBut(s, lo, hi, i, b)
    decreases hi - lo
  {
    hide Cut;
    CutBounds(s, a, b, j, i);
    if lo == a && hi == b {
      assert RoughBut(s, a, j, a, j) && RoughBut(s, i, b, i, b);
    } else {
      var l: nat, k: nat :| Cut(s, lo, hi, l, k)
             && ((b <= l && RoughBut(s, lo, l, a, b) && Rough(s, k, hi))
                 || (k <= a && Rough(s, lo, l) && RoughBut(s, k, hi, a, b)));
      CutBounds(s, lo, hi, l, k);
      if b <= l && RoughBut(s, lo, l, a, b) && Rough(s, k, hi) {
        RoughStep(s, lo, l, a, b, j, i);
      } else {
        RoughStep(s, k, hi, a, b, j, i);
      }
    }
  }

  lemma ThreeParts(s: seq<Edge>, lo: nat, hi: nat)
    requires lo <= hi <= |s|
    ensures multiset(s) == multiset(s[..lo]) + multiset(s[lo..hi]) + multiset(s[hi..])
  {
    assert s == s[..lo] + s[lo..hi] + s[hi..];
  }

  lemma Cancel(a: multiset<Edge>, x: multiset<Edge>, y: multiset<Edge>, b: multiset<Edge>)
    requires a + x + b == a + y + b
    ensures x == y
  {
    forall e
      ensures x[e] == y[e]
    {
      assert (a + x + b)[e] == a[e] + x[e] + b[e] && (a + y + b)[e] == a[e] + y[e] + b[e];
    }
  }

  lemma PermInElement(s: seq<Edge>, t: seq<Edge>, lo: nat, hi: nat, x: nat) returns (y: nat)
    requires PermIn(s, t, lo, hi) && lo <= x < hi
    ensures lo <= y < hi && t[x] == s[y]
  {
    ThreeParts(s, lo, hi);
    ThreeParts(t, lo, hi);
    Cancel(multiset(s[..lo]), multiset(s[lo..hi]), multiset(t[lo..hi]), multiset(s[hi..]));
    assert t[x] in multiset(t[lo..hi]);
    assert t[x] in s[lo..hi];
    y :| lo <= y < hi && s[y] == t[x];
  }

  lemma PermInOutside(s: seq<Edge>, t: seq<Edge>, lo: nat, hi: nat, x: nat)
    requires PermIn(s, t, lo, hi) && x < |s| && !(lo <= x < hi)
    ensures t[x] == s[x]
  {
    hide Perm;
    assert x < lo ==> t[..lo][x] == s[..lo][x];
    assert x >= hi ==> t[hi..][x - hi] == s[hi..][x - hi];
  }

  /** Rearranging one side of a cut keeps it. */
  lemma CutKept(s: seq<Edge>, t: seq<Edge>, lo: nat, hi: nat, j: nat, i: nat, a: nat, b: nat)
    requires Cut(s, lo, hi, j, i) && PermIn(s, t, a, b) && ((lo <= a && b <= i) || (i <= a && b <= hi))
    ensures Cut(t, lo, hi, j, i)
  {
    PermInBounds(s, t, a, b);
    hide PermIn, Less;
    forall x, y | lo <= x < i <= y < hi
      ensures !Less(t[y], t[x])
    {
      var u, v := x, y;
      if a <= x < b {
        u := PermInElement(s, t, a, b, x);
      } else {
        PermInOutside(s, t, a, b, x);
      }
      if a <= y < b {
        v := PermInElement(s, t, a, b, y);
      } else {
        PermInOutside(s, t, a, b, y);
      }
    }
  }

  lemma CutSame(s: seq<Edge>, t: seq<Edge>, lo: nat, hi: nat, j: nat, i: nat)
    requires Cut(s, lo, hi, j, i) && |t| == |s| && forall x :: lo <= x < hi ==> t[x] == s[x]
    ensures Cut(t, lo, hi, j, i)
  {
  }

  lemma {:induction false} RoughSame(s: seq<Edge>, t: seq<Edge>, lo: nat, hi: nat)
    requires Rough(s, lo, hi) && |t| == |s| && forall x :: lo <= x < hi ==> t[x] == s[x]
    ensures Rough(t, lo, hi)
    decreases hi - lo
  {
    hide Cut;
    if hi - lo > 12 {
      var j: nat, i: nat :| Cut(s, lo, hi, j, i) && Rough(s, lo, j) && Rough(s, i, hi);
      CutBounds(s, lo, hi, j, i);
      CutSame(s, t, lo, hi, j, i);
      RoughSame(s, t, lo, j);
      RoughSame(s, t, i, hi);
    }
  }

  lemma RoughOutside(s: seq<Edge>, t: seq<Edge>, lo: nat, hi: nat, a: nat, b: nat)
    requires Rough(s, lo, hi) && PermIn(s, t, a, b) && (hi <= a || b <= lo)
    ensures Rough(t, lo, hi)
  {
    PermInBounds(s, t, a, b);
    hide PermIn;
    forall x | lo <= x < hi
      ensures t[x] == s[x]
    {
      PermInOutside(s, t, a, b, x);
    }
    RoughSame(s, t, lo, hi);
  }

  lemma {:induction false} RoughButKept(s: seq<Edge>, t: seq<Edge>, lo: nat, hi: nat, a: nat, b: nat)
    requires RoughBut(s, lo, hi, a, b) && PermIn(s, t, a, b)
    ensures RoughBut(t, lo, hi, a, b)
    decreases hi - lo
  {
    PermInBounds(s, t, a, b);
    hide Cut, PermIn;
    if !(lo == a && hi == b) {
      var j: nat, i: nat :| Cut(s, lo, hi, j, i)
             && ((b <= j && RoughBut(s, lo, j, a, b) && Rough(s, i, hi))
                 || (i <= a && Rough(s, lo, j) && RoughBut(s, i, hi, a, b)));
      CutBounds(s, lo, hi, j, i);
      CutKept(s, t, lo, hi, j, i, a, b);
      if b <= j && RoughBut(s, lo, j, a, b) && Rough(s, i, hi) {
        RoughButKept(s, t, lo, j, a, b);
        RoughOutside(s, t, i, hi, a, b);
      } else {
        RoughButKept(s, t, i, hi, a, b);
        RoughOutside(s, t, lo, j, a, b);
      }
    }
  }

  lemma RoundPerm(a: seq<Edge>, s: seq<Edge>, u: seq<Edge>, v: seq<Edge>,
                  lo0: int, hi0: int, lo: int, hi: int, l: int, h: int)
    requires PermIn(a, s, lo0, hi0) && PermIn(s, u, lo, hi) && PermIn(u, v, l, h)
    requires lo0 <= lo <= l && h <= hi <= hi0
    ensures PermIn(a, v, lo0, hi0)
  {
    PermInBounds(a, s, lo0, hi0);
    hide PermIn;
    PermInBounds(s, u, lo, hi);
    PermInWiden(s, u, lo, hi, lo0, hi0);
    PermInBounds(u, v, l, h);
    PermInWiden(u, v, l, h, lo0, hi0);
    PermInTrans(a, s, u, lo0, hi0);
    PermInTrans(a, u, v, lo0, hi0);
  }

  lemma PermInBounds(s: seq<Edge>, t: seq<Edge>, lo: int, hi: int)
    requires PermIn(s, t, lo, hi)
    ensures 0 <= lo <= hi <= |s| == |t|
  {
  }

  /** What the loop of the quicksort keeps: the elements from `lo0` to `hi0` were `a`, and those
      from `lo` to `hi` are still to be sorted. */
  ghost predicate Going(a: seq<Edge>, s: seq<Edge>, lo0: nat, hi0: nat, lo: nat, hi: nat) {
    && PermIn(a, s, lo0, hi0) && RoughBut(s, lo0, hi0, lo, hi)
    && (hi0 - lo0 > 12 && Increasing(a, lo0, hi0) ==> MiddleOut(a, s, lo0, hi0, lo, hi))
  }

  function Middle(lo: nat, hi: nat): (m: nat)
    requires lo <= hi
    ensures lo < hi ==> lo <= m < hi
  {
    lo + (hi - lo) / 2
  }

  /** Nothing has been done, or the smallest element stands in the middle for good. */
  ghost predicate MiddleOut(a: seq<Edge>, s: seq<Edge>, lo0: nat, hi0: nat, lo: nat, hi: nat)
    requires lo0 < hi0 <= |a|
  {
    (lo == lo0 && hi == hi0 && s == a) || LeftOut(s, a[lo0], Middle(lo0, hi0), lo, hi)
  }

  /** The element `e` stands at `k`, outside what is still to be sorted. */
  ghost predicate LeftOut(s: seq<Edge>, e: Edge, k: nat, lo: nat, hi: nat) {
    k < |s| && s[k] == e && !(lo <= k < hi)
  }

  /** What SplitRun does to `s`. */
  ghost predicate IsSplit(s: seq<Edge>, u: seq<Edge>, lo: nat, hi: nat, j: nat, i: nat) {
    && PermIn(s, u, lo, hi) && Cut(u, lo, hi, j, i)
    && (Increasing(s, lo, hi) ==> j == Middle(lo, hi) && i == j + 1 && u[j] == s[lo])
  }

  /** What sorting the part from `l` to `h` roughly does to `u`. */
  ghost predicate PartDone(u: seq<Edge>, v: seq<Edge>, l: nat, h: nat) {
    PermIn(u, v, l, h) && Rough(v, l, h)
  }

  lemma RoundRough(s: seq<Edge>, u: seq<Edge>, v: seq<Edge>, lo: nat, hi: nat, a: nat, b: nat,
                   j: nat, i: nat, l: nat, h: nat)
    requires RoughBut(s, lo, hi, a, b) && PermIn(s, u, a, b) && Cut(u, a, b, j, i) && PartDone(u, v, l, h)
    requires (l == a && h == j) || (l == i && h == b)
    ensures if l == a && h == j then RoughBut(v, lo, hi, i, b) else RoughBut(v, lo, hi, a, j)
  {
    CutBounds(u, a, b, j, i);
    hide Cut, PermIn, Rough, RoughBut;
    RoughButKept(s, u, lo, hi, a, b);
    PermInBounds(s, u, a, b);
    PermInWiden(u, v, l, h, a, b);
    CutKept(u, v, a, b, j, i, l, h);
    RoughButKept(u, v, lo, hi, a, b);
    RoughStep(v, lo, hi, a, b, j, i);
  }

  lemma StaysOut(a: seq<Edge>, s: seq<Edge>, u: seq<Edge>, v: seq<Edge>, lo0: nat, hi0: nat, lo: nat, hi: nat,
                 j: nat, i: nat, l: nat, h: nat)
    requires lo0 < hi0 <= |a| && Increasing(a, lo0, hi0) && MiddleOut(a, s, lo0, hi0, lo, hi)
    requires IsSplit(s, u, lo, hi, j, i) && PermIn(u, v, l, h) && ((l == lo && h == j) || (l == i && h == hi))
    ensures LeftOut(v, a[lo0], Middle(lo0, hi0), i, hi) && LeftOut(v, a[lo0], Middle(lo0, hi0), lo, j)
  {
    PermInBounds(s, u, lo, hi);
    PermInBounds(u, v, l, h);
    CutBounds(u, lo, hi, j, i);
    hide PermIn, Increasing, Cut, Middle;
    var k := Middle(lo0, hi0);
    if !(lo == lo0 && hi == hi0 && s == a) {
      PermInOutside(s, u, lo, hi, k);
    }
    PermInOutside(u, v, l, h, k);
  }

  /** One round: the cut, one part sorted, the other left to be sorted. */
  lemma Round(a: seq<Edge>, s: seq<Edge>, u: seq<Edge>, v: seq<Edge>, lo0: nat, hi0: nat, lo: nat, hi: nat,
              j: nat, i: nat, lower: bool)
    requires Going(a, s, lo0, hi0, lo, hi) && lo0 <= lo && hi <= hi0
    requires IsSplit(s, u, lo, hi, j, i) && if lower then PartDone(u, v, lo, j) else PartDone(u, v, i, hi)
    ensures lo <= j <= i <= hi
    ensures if lower then Going(a, v, lo0, hi0, i, hi) else Going(a, v, lo0, hi0, lo, j)
  {
    PermInBounds(a, s, lo0, hi0);
    CutBounds(u, lo, hi, j, i);
    hide PermIn, RoughBut, Increasing, Rough, Cut, LeftOut, Middle;
    var l, h := if lower then lo else i, if lower then j else hi;
    RoundPerm(a, s, u, v, lo0, hi0, lo, hi, l, h);
    RoundRough(s, u, v, lo0, hi0, lo, hi, j, i, l, h);
    if hi0 - lo0 > 12 && Increasing(a, lo0, hi0) {
      StaysOut(a, s, u, v, lo0, hi0, lo, hi, j, i, l, h);
    }
  }

  lemma Begun(a: seq<Edge>, lo: nat, hi: nat)
    requires lo <= hi <= |a|
    ensures Going(a, a, lo, hi, lo, hi)
  {
  }

  lemma Over(a: seq<Edge>, s: seq<Edge>, lo0: nat, hi0: nat, lo: nat, hi: nat)
    requires Going(a, s, lo0, hi0, lo, hi) && hi - lo <= 12 && lo0 <= lo <= hi <= hi0 <= |a| == |s|
    ensures PartDone(a, s, lo0, hi0)
    ensures hi0 - lo0 > 12 && Increasing(a, lo0, hi0) ==> s[Middle(lo0, hi0)] == a[lo0]
  {
    hide PermIn, RoughBut, Increasing, Cut;
    RoughWhole(s, lo0, hi0, lo, hi);
  }

  lemma HalfDepth(n: nat, depth: nat)
    requires 1 < n <= Pow2(depth)
    ensures depth > 0 && n <= 2 * Pow2(depth - 1)
  {
  }

  /** stbtt__sort_edges_quicksort on the n elements from `off` on, which it leaves roughly sorted;
      of keys that go up all the way, the smallest ends in the middle. It recurses into the smaller
      part, so for at most 2^depth elements no more than `depth` calls are nested. */
  method Quicksort(p: array<Edge>, off0: nat, n0: nat, ghost depth: nat)
    requires off0 + n0 <= p.Length && n0 <= Pow2(depth)
    modifies p
    ensures PartDone(old(p[..]), p[..], off0, off0 + n0)
    ensures n0 > 12 && Increasing(old(p[..]), off0, off0 + n0) ==> p[off0 + n0 / 2] == old(p[off0])
    decreases depth
  {
    hide PermIn, Cut, Rough, Increasing, Going, PartDone, Pow2;
    ghost var a := p[..];
    var off: nat, n: nat := off0, n0;
    Begun(a, off0, off0 + n0);
    while n > 12
      invariant off0 <= off && off + n <= off0 + n0 && n <= n0 && |p[..]| == |a|
      invariant Going(a, p[..], off0, off0 + n0, off, off + n)
    {
      ghost var s := p[..];
      var i, j := SplitRun(p, off, n);
      ghost var u := p[..];
      assert IsSplit(s, u, off, off + n, off + j, off + i);
      HalfDepth(n0, depth);
      hide IsSplit;
      if j < n - i {
        Quicksort(p, off, j, depth - 1);
        Round(a, s, u, p[..], off0, off0 + n0, off, off + n, off + j, off + i, true);
        off := off + i;
        n := n - i;
      } else {
        Quicksort(p, off + i, n - i, depth - 1);
        Round(a, s, u, p[..], off0, off0 + n0, off, off + n, off + j, off + i, false);
        n := j;
      }
    }
    Over(a, p[..], off0, off0 + n0, off, off + n);
  }

  /** Some power of two is large enough. */
  lemma {:induction false} BigEnough(n: nat) returns (d: nat)
    ensures n <= Pow2(d)
  {
    if n == 0 {
      d := 0;
    } else {
      var e := BigEnough(n - 1);
      d := e + 1;
    }
  }

  /** stbtt__sort_edges: the first n elements end up sorted and are the same elements. */
  method SortEdges(p: array<Edge>, n: nat)
    requires n <= p.Length
    modifies p
    ensures Sorted(p[..n]) && PermIn(old(p[..]), p[..], 0, n)
  {
    hide PermIn, Sorted;
    ghost var s := p[..];
    ghost var depth := BigEnough(n);
    Quicksort(p, 0, n, depth);
    ghost var t := p[..];
    InsertionSort(p, n);
    PermInTrans(s, t, p[..], 0, n);
  }
}
