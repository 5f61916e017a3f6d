/**
 The intrusive hash table of uthash.h.

 An item is on two doubly linked lists at once: all items in insertion order, and those of its
 bucket. The reasoning about links is done on plain maps from items to their two links
 (`Chain`, `Filled`); the class below updates the objects and is tied to the maps.
 */
module Uthash {
  import opened Common

  const INITIAL_BUCKETS: nat := 32
  const INITIAL_LOG2: nat := 5
  const CAPACITY_THRESH: nat := 10

  /** A structure with its UT_hash_handle. */
  class Item {
    var key: seq<int>
    var hashv: nat
    var prev: Item?
    var next: Item?
    var hhPrev: Item?
    var hhNext: Item?

    constructor ()
    {
    }
  }

  // ------------------------------------------------------ doubly linked lists

  datatype Link = Link(prev: Item?, next: Item?)

  type Links = map<Item, Link>

  function At(s: seq<Item>, i: int): Item? {
    if 0 <= i < |s| then s[i] else null
  }

  ghost predicate Distinct(s: seq<Item>) {
    forall i, j :: 0 <= i < j < |s| ==> s[i] != s[j]
  }

  /** The links of the items of `s` make it a list, in both directions. */
  ghost predicate Chain(m: Links, s: seq<Item>) {
    && Distinct(s)
    && forall i :: 0 <= i < |s| ==> s[i] in m && m[s[i]] == Link(At(s, i - 1), At(s, i + 1))
  }

  /** Putting an item after the last one. */
  ghost function Appended(m: Links, s: seq<Item>, x: Item): Links
    requires s != [] ==> s[|s| - 1] in m
  {
    var last := At(s, |s| - 1);
    (if last != null then m[last := m[last].(next := x)] else m)[x := Link(last, null)]
  }

  lemma AppendChain(m: Links, s: seq<Item>, x: Item)
    requires Chain(m, s) && x !in s
    ensures Chain(Appended(m, s, x), s + [x])
  {
  }

  /** Putting an item before the first one. */
  ghost function Prepended(m: Links, s: seq<Item>, x: Item): Links
    requires s != [] ==> s[0] in m
  {
    var first := At(s, 0);
    (if first != null then m[first := m[first].(prev := x)] else m)[x := Link(null, first)]
  }

  lemma PrependChain(m: Links, s: seq<Item>, x: Item)
    requires Chain(m, s) && x !in s
    ensures Chain(Prepended(m, s, x), [x] + s)
  {
    var t, n := [x] + s, Prepended(m, s, x);
    forall i | 0 <= i < |t|
      ensures t[i] in n && n[t[i]] == Link(At(t, i - 1), At(t, i + 1))
    {
      if i > 0 {
        assert t[i] == s[i - 1];
      }
    }
  }

  /** Taking an item out: its neighbours are linked to each other. */
  ghost function Unlinked(m: Links, x: Item): Links
    requires x in m
    requires m[x].prev != null ==> m[x].prev in m
    requires m[x].next != null ==> m[x].next in m
  {
    var p, n := m[x].prev, m[x].next;
    var m' := if p != null then m[p := m[p].(next := n)] else m;
    if n != null then m'[n := m'[n].(prev := p)] else m'
  }

  function Without(s: seq<Item>, i: nat): seq<Item>
    requires i < |s|
  {
    s[..i] + s[i + 1..]
  }

  lemma WithoutAt(s: seq<Item>, i: nat)
    requires i < |s|
    ensures |Without(s, i)| == |s| - 1
    ensures forall k :: 0 <= k < |s| - 1 ==> Without(s, i)[k] == s[if k < i then k else k + 1]
  {
  }

  lemma WithoutDistinct(s: seq<Item>, i: nat)
    requires Distinct(s) && i < |s|
    ensures Distinct(Without(s, i)) && s[i] !in Without(s, i)
  {
    hide Without;
    WithoutAt(s, i);
  }

  /** The links of one remaining item. */
  lemma UnlinkedLink(m: Links, s: seq<Item>, i: nat, j: nat)
    requires Chain(m, s) && i < |s| && j < |s| && i != j
    ensures s[i] in m && s[j] in m
    ensures var p, n := m[s[i]].prev, m[s[i]].next; (p != null ==> p in m) && (n != null ==> n in m)
    ensures s[j] in Unlinked(m, s[i])
    ensures Unlinked(m, s[i])[s[j]] ==
              Link(if j == i + 1 then At(s, i - 1) else At(s, j - 1), if j == i - 1 then At(s, i + 1) else At(s, j + 1))
  {
    assert m[s[i]] == Link(At(s, i - 1), At(s, i + 1));
    assert m[s[j]] == Link(At(s, j - 1), At(s, j + 1));
  }

  lemma UnlinkChain(m: Links, s: seq<Item>, i: nat)
    requires Chain(m, s) && i < |s|
    ensures s[i] in m
    ensures var p, n := m[s[i]].prev, m[s[i]].next; (p != null ==> p in m) && (n != null ==> n in m)
    ensures Chain(Unlinked(m, s[i]), Without(s, i))
    ensures s[i] !in Without(s, i)
  {
    var t := Without(s, i);
    assert m[s[i]] == Link(At(s, i - 1), At(s, i + 1));
    var n := Unlinked(m, s[i]);
    WithoutAt(s, i);
    WithoutDistinct(s, i);
    hide Without, Unlinked, Distinct;
    forall k | 0 <= k < |t|
      ensures t[k] in n && n[t[k]] == Link(At(t, k - 1), At(t, k + 1))
    {
      UnlinkedLink(m, s, i, if k < i then k else k + 1);
    }
  }

  lemma SameLinksChain(m: Links, n: Links, s: seq<Item>)
    requires Chain(m, s)
    requires forall x :: x in s ==> x in n && n[x] == m[x]
    ensures Chain(n, s)
  {
  }

  // ------------------------------------------------------------------ buckets

  function Bucket(h: nat, nb: nat): (b: nat)
    requires nb > 0
    ensures b < nb
  {
    h % nb
  }

  ghost predicate Chains(m: Links, chains: seq<seq<Item>>) {
    forall c :: 0 <= c < |chains| ==> Chain(m, chains[c])
  }

  /** Every item is on the chain of its own bucket, and the chains hold nothing else. */
  ghost predicate Placed(nb: nat, hs: map<Item, nat>, chains: seq<seq<Item>>) {
    && 0 < nb == |chains|
    && (forall c, i :: 0 <= c < nb && 0 <= i < |chains[c]| ==>
          chains[c][i] in hs && Bucket(hs[chains[c][i]], nb) == c)
    && (forall x :: x in hs ==> x in chains[Bucket(hs[x], nb)])
  }

  ghost predicate Filled(nb: nat, m: Links, hs: map<Item, nat>, chains: seq<seq<Item>>) {
    0 < nb == |chains| && m.Keys == hs.Keys && Chains(m, chains) && Placed(nb, hs, chains)
  }

  lemma NoChains(nb: nat, chains: seq<seq<Item>>)
    requires nb > 0 && |chains| == nb && forall c :: 0 <= c < nb ==> chains[c] == []
    ensures Filled(nb, map[], map[], chains)
  {
  }

  lemma PrependFilled(nb: nat, m: Links, hs: map<Item, nat>, chains: seq<seq<Item>>, x: Item, h: nat)
    requires Filled(nb, m, hs, chains) && x !in hs
    ensures var c := Bucket(h, nb);
            && (chains[c] != [] ==> chains[c][0] in m)
            && Filled(nb, Prepended(m, chains[c], x), hs[x := h], chains[c := [x] + chains[c]])
  {
    hide Bucket, Chain, Chains, Placed, Prepended;
    var c := Bucket(h, nb);
    PrependPlaced(nb, hs, chains, x, h);
    PrependChains(m, chains, c, x);
    KeysPrepended(m, chains[c], x);
  }

  lemma PrependPlaced(nb: nat, hs: map<Item, nat>, chains: seq<seq<Item>>, x: Item, h: nat)
    requires Placed(nb, hs, chains) && x !in hs
    ensures Placed(nb, hs[x := h], chains[Bucket(h, nb) := [x] + chains[Bucket(h, nb)]])
    ensures forall c :: 0 <= c < nb ==> x !in chains[c]
    ensures var s := chains[Bucket(h, nb)]; s != [] ==> s[0] in hs
    ensures forall c, d, y :: 0 <= c < nb && 0 <= d < nb && y in chains[c] && y in chains[d] ==> c == d
  {
    hide Bucket;
    var c := Bucket(h, nb);
    assert forall i :: 0 <= i < |chains[c]| ==> ([x] + chains[c])[i + 1] == chains[c][i];
  }

  lemma PrependChains(m: Links, chains: seq<seq<Item>>, c: nat, x: Item)
    requires Chains(m, chains) && c < |chains| && (forall d :: 0 <= d < |chains| ==> x !in chains[d])
    requires chains[c] != [] ==> chains[c][0] in m
    requires forall c, d, y :: 0 <= c < |chains| && 0 <= d < |chains| && y in chains[c] && y in chains[d] ==> c == d
    ensures Chains(Prepended(m, chains[c], x), chains[c := [x] + chains[c]])
  {
    var n, chains' := Prepended(m, chains[c], x), chains[c := [x] + chains[c]];
    PrependChain(m, chains[c], x);
    forall d | 0 <= d < |chains|
      ensures Chain(n, chains'[d])
    {
      if d != c {
        assert Chain(m, chains[d]);
        SameLinksChain(m, n, chains[d]);
      }
    }
  }

  lemma KeysPrepended(m: Links, s: seq<Item>, x: Item)
    requires s != [] ==> s[0] in m
    ensures Prepended(m, s, x).Keys == m.Keys + {x}
  {
  }

  lemma UnlinkFilled(nb: nat, m: Links, hs: map<Item, nat>, chains: seq<seq<Item>>, x: Item, i: nat)
    requires Filled(nb, m, hs, chains) && x in hs
    requires i < |chains[Bucket(hs[x], nb)]| && chains[Bucket(hs[x], nb)][i] == x
    ensures var c := Bucket(hs[x], nb);
            var p, n := m[x].prev, m[x].next;
            && (p != null ==> p in m) && (n != null ==> n in m)
            && Filled(nb, Unlinked(m, x) - {x}, hs - {x}, chains[c := Without(chains[c], i)])
  {
    hide Bucket, Chain, Chains, Placed, Unlinked, Without;
    var c := Bucket(hs[x], nb);
    ChainAt(m, chains, c);
    UnlinkPlaced(nb, hs, chains, x, i);
    UnlinkChains(m, chains, c, i);
    KeysUnlinked(m, x);
  }

  lemma ChainAt(m: Links, chains: seq<seq<Item>>, c: nat)
    requires Chains(m, chains) && c < |chains|
    ensures Chain(m, chains[c])
  {
  }

  lemma UnlinkPlaced(nb: nat, hs: map<Item, nat>, chains: seq<seq<Item>>, x: Item, i: nat)
    requires Placed(nb, hs, chains) && x in hs
    requires i < |chains[Bucket(hs[x], nb)]| && chains[Bucket(hs[x], nb)][i] == x
    requires Distinct(chains[Bucket(hs[x], nb)])
    ensures var c := Bucket(hs[x], nb); Placed(nb, hs - {x}, chains[c := Without(chains[c], i)])
    ensures forall c, d, y :: 0 <= c < nb && 0 <= d < nb && y in chains[c] && y in chains[d] ==> c == d
  {
    hide Bucket;
    var c := Bucket(hs[x], nb);
    var hs', chains' := hs - {x}, chains[c := Without(chains[c], i)];
    assert forall k :: 0 <= k < |chains'[c]| ==> chains'[c][k] == chains[c][if k < i then k else k + 1];
    forall y | y in hs'
      ensures y in chains'[Bucket(hs'[y], nb)]
    {
      if Bucket(hs[y], nb) == c {
        StillThere(chains[c], i, y);
      }
    }
  }

  lemma UnlinkChains(m: Links, chains: seq<seq<Item>>, c: nat, i: nat)
    requires Chains(m, chains) && c < |chains| && i < |chains[c]|
    requires forall c, d, y :: 0 <= c < |chains| && 0 <= d < |chains| && y in chains[c] && y in chains[d] ==> c == d
    ensures var x := chains[c][i];
            && x in m
            && (m[x].prev != null ==> m[x].prev in m) && (m[x].next != null ==> m[x].next in m)
            && Chains(Unlinked(m, x) - {x}, chains[c := Without(chains[c], i)])
  {
    hide Distinct;
    var x := chains[c][i];
    UnlinkChain(m, chains[c], i);
    UnlinkNeighbours(m, chains[c], i);
    var n, chains' := Unlinked(m, x) - {x}, chains[c := Without(chains[c], i)];
    forall d | 0 <= d < |chains|
      ensures Chain(n, chains'[d])
    {
      hide Unlinked, Without;
      assert Chain(m, chains[d]);
      if d != c {
        InLinks(m, chains[d]);
        SameLinksChain(m, n, chains[d]);
      } else {
        InLinks(Unlinked(m, x), chains'[c]);
        SameLinksChain(Unlinked(m, x), n, chains'[c]);
      }
    }
  }

  lemma InLinks(m: Links, s: seq<Item>)
    requires Chain(m, s)
    ensures forall y :: y in s ==> y in m
  {
  }

  lemma KeysUnlinked(m: Links, x: Item)
    requires x in m
    requires m[x].prev != null ==> m[x].prev in m
    requires m[x].next != null ==> m[x].next in m
    ensures Unlinked(m, x).Keys == m.Keys
  {
  }

  lemma StillThere(s: seq<Item>, i: nat, y: Item)
    requires i < |s| && y in s && y != s[i]
    ensures y in Without(s, i)
  {
    var k :| 0 <= k < |s| && s[k] == y;
    assert Without(s, i)[if k < i then k else k - 1] == y;
  }

  /** Only the neighbours' links change. */
  lemma UnlinkNeighbours(m: Links, s: seq<Item>, i: nat)
    requires Chain(m, s) && i < |s|
    requires var p, n := m[s[i]].prev, m[s[i]].next; (p != null ==> p in m) && (n != null ==> n in m)
    ensures forall y :: y in m && y !in s ==> Unlinked(m, s[i])[y] == m[y]
    ensures forall y :: y in m ==> y in Unlinked(m, s[i])
  {
    assert m[s[i]] == Link(At(s, i - 1), At(s, i + 1));
  }

  // ----------------------------------------------------------------- counting

  function SumLengths(chains: seq<seq<Item>>): nat {
    if chains == [] then 0 else |chains[|chains| - 1]| + SumLengths(chains[..|chains| - 1])
  }

  ghost function Members(chains: seq<seq<Item>>): set<Item> {
    set c, i | 0 <= c < |chains| && 0 <= i < |chains[c]| :: chains[c][i]
  }

  lemma {:induction false} DistinctLength(s: seq<Item>)
    requires Distinct(s)
    ensures |SetOf(s)| == |s|
  {
    if s != [] {
      var t, x := s[..|s| - 1], s[|s| - 1];
      DistinctLength(t);
      assert SetOf(s) == SetOf(t) + {x};
    } else {
      assert SetOf(s) == {};
    }
  }

  /** No item is on two chains. */
  ghost predicate Apart(chains: seq<seq<Item>>) {
    forall c, d, y :: 0 <= c < |chains| && 0 <= d < |chains| && y in chains[c] && y in chains[d] ==> c == d
  }

  lemma {:induction false} LengthsCountMembers(chains: seq<seq<Item>>)
    requires forall c :: 0 <= c < |chains| ==> Distinct(chains[c])
    requires Apart(chains)
    ensures SumLengths(chains) == |Members(chains)|
  {
    if chains == [] {
      assert Members(chains) == {};
    } else {
      FirstApart(chains, |chains| - 1);
      hide Members, SetOf, Distinct, Apart;
      var n := |chains| - 1;
      LengthsCountMembers(chains[..n]);
      DistinctLength(chains[n]);
      LastMembers(chains);
    }
  }

  lemma FirstApart(chains: seq<seq<Item>>, n: nat)
    requires Apart(chains) && n <= |chains|
    ensures Apart(chains[..n])
  {
  }

  lemma LastMembers(chains: seq<seq<Item>>)
    requires chains != [] && Apart(chains)
    ensures var some, last := chains[..|chains| - 1], SetOf(chains[|chains| - 1]);
            Members(chains) == Members(some) + last && Members(some) !! last
  {
  }

  /** The bucket lengths add up to the number of items. */
  lemma LengthsCountItems(nb: nat, m: Links, hs: map<Item, nat>, chains: seq<seq<Item>>)
    requires Filled(nb, m, hs, chains)
    ensures SumLengths(chains) == |hs.Keys|
  {
    hide Bucket;
    assert forall c :: 0 <= c < nb ==> Chain(m, chains[c]);
    LengthsCountMembers(chains);
    assert Members(chains) == hs.Keys;
  }

  // --------------------------------------------------------------- expansion

  datatype Bkt = Bkt(head: Item?, count: nat, expandMult: nat)

  ghost predicate BucketsOk(bs: seq<Bkt>, chains: seq<seq<Item>>) {
    && |bs| == |chains|
    && forall c :: 0 <= c < |bs| ==> bs[c].head == At(chains[c], 0) && bs[c].count == |chains[c]|
  }

  /** Whether `x` comes before position `j` of bucket `b`. */
  ghost predicate Before(chains: seq<seq<Item>>, x: Item, b: nat, j: nat) {
    exists c, i :: 0 <= c < |chains| && 0 <= i < |chains[c]| && chains[c][i] == x && (c < b || (c == b && i < j))
  }

  /** Half way through an expansion: the items before position `j` of bucket `b` are on the new
      chains, the others have kept their links. */
  ghost predicate Moving(nb: nat, m0: Links, hs: map<Item, nat>, chains: seq<seq<Item>>,
                         m: Links, moved: map<Item, nat>, news: seq<seq<Item>>, b: nat, j: nat)
  {
    && Filled(nb, m0, hs, chains) && |chains| == nb && b <= nb && (b < nb ==> j <= |chains[b]|)
    && m.Keys == hs.Keys && |news| == 2 * nb
    && Chains(m, news) && Placed(2 * nb, moved, news)
    && (forall x :: x in moved ==> x in hs && moved[x] == hs[x])
    && (forall x :: x in hs ==> (x in moved <==> Before(chains, x, b, j)))
    && (forall x :: x in hs && x !in moved ==> m[x] == m0[x])
  }

  lemma NotBefore(nb: nat, hs: map<Item, nat>, chains: seq<seq<Item>>, b: nat, j: nat)
    requires Placed(nb, hs, chains) && b < nb && j < |chains[b]| && Distinct(chains[b])
    ensures !Before(chains, chains[b][j], b, j)
  {
    hide Bucket;
  }

  lemma NotYetMoved(nb: nat, m0: Links, hs: map<Item, nat>, chains: seq<seq<Item>>,
                    m: Links, moved: map<Item, nat>, news: seq<seq<Item>>, b: nat, j: nat)
    requires Moving(nb, m0, hs, chains, m, moved, news, b, j) && b < nb && j < |chains[b]|
    ensures var x := chains[b][j]; x in hs && x !in moved && x in m && m[x].next == At(chains[b], j + 1)
  {
    hide Bucket, Before, Distinct;
    var x := chains[b][j];
    assert Chain(m0, chains[b]);
    NotBefore(nb, hs, chains, b, j);
  }

  lemma MoveOne(nb: nat, m0: Links, hs: map<Item, nat>, chains: seq<seq<Item>>,
                m: Links, moved: map<Item, nat>, news: seq<seq<Item>>, b: nat, j: nat)
    requires Moving(nb, m0, hs, chains, m, moved, news, b, j) && b < nb && j < |chains[b]|
    ensures var x := chains[b][j];
            && x in hs
            && var c := Bucket(hs[x], 2 * nb);
            && (news[c] != [] ==> news[c][0] in m)
            && Moving(nb, m0, hs, chains, Prepended(m, news[c], x), moved[x := hs[x]], news[c := [x] + news[c]],
                      b, j + 1)
  {
    hide Bucket, Chain, Chains, Filled, Before;
    NotYetMoved(nb, m0, hs, chains, m, moved, news, b, j);
    var x := chains[b][j];
    var c := Bucket(hs[x], 2 * nb);
    PrependPlaced(2 * nb, moved, news, x, hs[x]);
    PrependChains(m, news, c, x);
    KeysPrepended(m, news[c], x);
    forall y | y in hs
      ensures y in moved[x := hs[x]] <==> Before(chains, y, b, j + 1)
    {
      BeforeNext(nb, m0, hs, chains, y, b, j);
    }
  }

  lemma BeforeNext(nb: nat, m0: Links, hs: map<Item, nat>, chains: seq<seq<Item>>, y: Item, b: nat, j: nat)
    requires b < |chains| && j < |chains[b]|
    ensures Before(chains, y, b, j + 1) <==> y == chains[b][j] || Before(chains, y, b, j)
  {
  }

  lemma NextBucket(nb: nat, m0: Links, hs: map<Item, nat>, chains: seq<seq<Item>>,
                   m: Links, moved: map<Item, nat>, news: seq<seq<Item>>, b: nat)
    requires b < nb && |chains| == nb && Moving(nb, m0, hs, chains, m, moved, news, b, |chains[b]|)
    ensures Moving(nb, m0, hs, chains, m, moved, news, b + 1, 0)
  {
    hide Bucket, Chain, Chains, Filled, Placed;
    forall x | x in hs
      ensures Before(chains, x, b, |chains[b]|) <==> Before(chains, x, b + 1, 0)
    {
    }
  }

  lemma AllMoved(nb: nat, m0: Links, hs: map<Item, nat>, chains: seq<seq<Item>>,
                 m: Links, moved: map<Item, nat>, news: seq<seq<Item>>)
    requires Moving(nb, m0, hs, chains, m, moved, news, nb, 0)
    ensures Filled(2 * nb, m, hs, news)
  {
    hide Bucket, Chain, Chains;
    forall x | x in hs
      ensures x in moved
    {
      var c := Bucket(hs[x], nb);
      var i :| 0 <= i < |chains[c]| && chains[c][i] == x;
    }
    assert moved == hs;
  }

  lemma NoneMoved(nb: nat, m0: Links, hs: map<Item, nat>, chains: seq<seq<Item>>, news: seq<seq<Item>>)
    requires Filled(nb, m0, hs, chains) && |news| == 2 * nb && forall c :: 0 <= c < 2 * nb ==> news[c] == []
    ensures Moving(nb, m0, hs, chains, m0, map[], news, 0, 0)
  {
    hide Bucket;
  }

  // -------------------------------------------------------------- the C code

  ghost function SetOf(s: seq<Item>): set<Item> {
    set x | x in s
  }

  ghost function AppLinks(s: set<Item>): Links
    reads s`prev, s`next
  {
    map x | x in s :: Link(x.prev, x.next)
  }

  ghost function HhLinks(s: set<Item>): Links
    reads s`hhPrev, s`hhNext
  {
    map x | x in s :: Link(x.hhPrev, x.hhNext)
  }

  ghost function Hashes(s: set<Item>): map<Item, nat>
    reads s`hashv
  {
    map x | x in s :: x.hashv
  }

  lemma InitialSize()
    ensures Pow2(INITIAL_LOG2) == INITIAL_BUCKETS
  {
    assert Pow2(2) == 4;
    assert Pow2(4) == 16;
  }

  /** The relinking that HASH_ADD_TO_BKT and HASH_EXPAND_BUCKETS share: `x` becomes the first
      item of a bucket. */
  method PushFront(bs: array<Bkt>, c: nat, x: Item, ghost items: set<Item>, ghost cs: seq<seq<Item>>)
    requires c < bs.Length && BucketsOk(bs[..], cs)
    requires x !in cs[c] && (cs[c] != [] ==> cs[c][0] in items)
    modifies bs, x`hhPrev, x`hhNext, items`hhPrev
    ensures HhLinks(items + {x}) == Prepended(old(HhLinks(items)), cs[c], x)
    ensures BucketsOk(bs[..], cs[c := [x] + cs[c]])
    ensures bs[..] == old(bs[..])[c := Bkt(x, |cs[c]| + 1, old(bs[c].expandMult))]
  {
    ghost var was := bs[..];
    var first := bs[c].head;
    x.hhNext := first;
    x.hhPrev := null;
    if first != null {
      first.hhPrev := x;
    }
    bs[c] := Bkt(x, bs[c].count + 1, bs[c].expandMult);
    assert bs[..] == was[c := bs[c]];
  }

  lemma DoublePow2(n: nat)
    ensures Pow2(n + 1) == 2 * Pow2(n)
  {
  }

  lemma SetOfFacts(s: seq<Item>)
    ensures forall x :: x in SetOf(s) <==> x in s
  {
  }

  lemma AddedSet(s: seq<Item>, x: Item)
    ensures SetOf(s + [x]) == SetOf(s) + {x}
  {
  }

  lemma ChainDistinct(m: Links, s: seq<Item>)
    requires Chain(m, s)
    ensures Distinct(s)
  {
  }

  lemma OnChain(nb: nat, m: Links, hs: map<Item, nat>, chains: seq<seq<Item>>, b: nat)
    requires Filled(nb, m, hs, chains) && b < nb
    ensures |chains| == nb
    ensures forall i :: 0 <= i < |chains[b]| ==>
              chains[b][i] in hs && chains[b][i] in m && m[chains[b][i]].next == At(chains[b], i + 1)
  {
    assert Chain(m, chains[b]);
  }

  lemma Sizes(nb: nat, m: Links, hs: map<Item, nat>, chains: seq<seq<Item>>)
    requires Filled(nb, m, hs, chains)
    ensures 0 < nb == |chains|
  {
  }

  lemma InItsBucket(nb: nat, m: Links, hs: map<Item, nat>, chains: seq<seq<Item>>, x: Item)
    requires Filled(nb, m, hs, chains) && x in hs
    ensures nb == |chains| > 0 && x in chains[Bucket(hs[x], nb)]
  {
  }

  /** An item's neighbours in a list, and what the ends become when it is taken out. */
  lemma Neighbours(m: Links, s: seq<Item>, i: nat)
    requires Chain(m, s) && i < |s|
    ensures m[s[i]] == Link(At(s, i - 1), At(s, i + 1))
    ensures At(Without(s, i), 0) == if i == 0 then At(s, 1) else At(s, 0)
    ensures At(Without(s, i), |s| - 2) == if i == |s| - 1 then At(s, i - 1) else At(s, |s| - 1)
    ensures |Without(s, i)| == |s| - 1
    ensures s[i] == s[0] <==> i == 0
    ensures s[i] == s[|s| - 1] <==> i == |s| - 1
    ensures forall k :: 0 <= k < |s| ==> s[k] in m
    ensures At(s, i - 1) != s[i] && At(s, i + 1) != s[i]
  {
  }

  /** Taking an item out, links and all. */
  lemma UnlinkedList(m: Links, s: seq<Item>, i: nat)
    requires Chain(m, s) && i < |s|
    ensures s[i] in m && SetOf(Without(s, i)) == SetOf(s) - {s[i]}
    ensures var p, n := m[s[i]].prev, m[s[i]].next; (p != null ==> p in m) && (n != null ==> n in m)
    ensures Chain(Unlinked(m, s[i]) - {s[i]}, Without(s, i))
  {
    hide Chain, Distinct, Without, Unlinked;
    UnlinkChain(m, s, i);
    ChainDistinct(m, s);
    WithoutSet(s, i);
    InLinks(Unlinked(m, s[i]), Without(s, i));
    SameLinksChain(Unlinked(m, s[i]), Unlinked(m, s[i]) - {s[i]}, Without(s, i));
  }

  lemma WithoutSet(s: seq<Item>, i: nat)
    requires Distinct(s) && i < |s|
    ensures SetOf(Without(s, i)) == SetOf(s) - {s[i]}
  {
    forall x | x in s && x != s[i]
      ensures x in Without(s, i)
    {
      StillThere(s, i, x);
    }
  }

  lemma InBucketAt(nb: nat, m: Links, hs: map<Item, nat>, chains: seq<seq<Item>>, x: Item) returns (i: nat)
    requires Filled(nb, m, hs, chains) && x in hs
    ensures 0 < nb == |chains| && i < |chains[Bucket(hs[x], nb)]| && chains[Bucket(hs[x], nb)][i] == x
    ensures Chain(m, chains[Bucket(hs[x], nb)])
  {
    var s := chains[Bucket(hs[x], nb)];
    assert Chain(m, s);
    i :| 0 <= i < |s| && s[i] == x;
  }

  lemma Restricted(items: set<Item>, x: Item)
    ensures AppLinks(items - {x}) == AppLinks(items) - {x}
    ensures HhLinks(items - {x}) == HhLinks(items) - {x}
    ensures Hashes(items - {x}) == Hashes(items) - {x}
  {
  }

  /** The relinking of HASH_DEL_IN_BKT. */
  method UnlinkFront(bs: array<Bkt>, c: nat, x: Item, ghost items: set<Item>, ghost cs: seq<seq<Item>>, ghost i: nat)
    requires c < bs.Length && BucketsOk(bs[..], cs)
    requires i < |cs[c]| && cs[c][i] == x && Chain(HhLinks(items), cs[c])
    modifies bs, items`hhPrev, items`hhNext
    ensures x in items && (x.hhPrev != null ==> x.hhPrev in items) && (x.hhNext != null ==> x.hhNext in items)
    ensures x.hhPrev == old(x.hhPrev) && x.hhNext == old(x.hhNext)
    ensures HhLinks(items) == Unlinked(old(HhLinks(items)), x)
    ensures BucketsOk(bs[..], cs[c := Without(cs[c], i)])
  {
    hide Distinct, Without, Chain;
    ghost var was := bs[..];
    Neighbours(HhLinks(items), cs[c], i);
    assert HhLinks(items)[x] == Link(x.hhPrev, x.hhNext);
    assert forall k :: 0 <= k < |cs[c]| ==> cs[c][k] in items;
    bs[c] := bs[c].(count := bs[c].count - 1);
    if bs[c].head == x {
      bs[c] := bs[c].(head := x.hhNext);
    }
    if x.hhPrev != null {
      x.hhPrev.hhNext := x.hhNext;
    }
    if x.hhNext != null {
      x.hhNext.hhPrev := x.hhPrev;
    }
    assert bs[..] == was[c := bs[c]];
  }

  function SumCounts(bs: seq<Bkt>): nat {
    if bs == [] then 0 else bs[|bs| - 1].count + SumCounts(bs[..|bs| - 1])
  }

  lemma {:induction false} CountsAreLengths(bs: seq<Bkt>, chains: seq<seq<Item>>)
    requires BucketsOk(bs, chains)
    ensures SumCounts(bs) == SumLengths(chains)
  {
    if bs != [] {
      CountsAreLengths(bs[..|bs| - 1], chains[..|bs| - 1]);
    }
  }

  // ------------------------------------------------------ counters of growth

  /** The items of a chain past the ideal length. */
  function Excess(count: nat, ideal: nat): nat {
    if count > ideal then count - ideal else 0
  }

  function ExcessOf(bs: seq<Bkt>, ideal: nat): nat {
    if bs == [] then 0 else ExcessOf(bs[..|bs| - 1], ideal) + Excess(bs[|bs| - 1].count, ideal)
  }

  lemma {:induction false} ExcessUpdate(bs: seq<Bkt>, c: nat, b: Bkt, ideal: nat)
    requires c < |bs|
    ensures ExcessOf(bs[c := b], ideal) + Excess(bs[c].count, ideal) == ExcessOf(bs, ideal) + Excess(b.count, ideal)
  {
    var n := |bs| - 1;
    if c < n {
      ExcessUpdate(bs[..n], c, b, ideal);
      assert bs[c := b][..n] == bs[..n][c := b];
    } else {
      assert bs[c := b][..n] == bs[..n];
    }
  }

  /** nonideal_items counts the items past the ideal length of their chains, and expand_mult is
      how often the ideal length goes into a chain that is too long. */
  ghost predicate Counted(bs: seq<Bkt>, ideal: nat, nonideal: nat) {
    && ideal > 0 && nonideal == ExcessOf(bs, ideal)
    && forall c :: 0 <= c < |bs| ==> bs[c].expandMult == if bs[c].count > ideal then bs[c].count / ideal else 0
  }

  lemma {:induction false} NothingCounted(bs: seq<Bkt>, ideal: nat)
    requires ideal > 0 && forall c :: 0 <= c < |bs| ==> bs[c].count == 0 && bs[c].expandMult == 0
    ensures Counted(bs, ideal, 0)
  {
    if bs != [] {
      NothingCounted(bs[..|bs| - 1], ideal);
    }
  }

  /** One more item in a bucket. */
  lemma CountOneMore(bs: seq<Bkt>, c: nat, x: Item?, ideal: nat, nonideal: nat)
    requires c < |bs| && Counted(bs, ideal, nonideal)
    ensures var n := bs[c].count + 1;
            Counted(bs[c := Bkt(x, n, if n > ideal then n / ideal else bs[c].expandMult)], ideal,
                    if n > ideal then nonideal + 1 else nonideal)
  {
    hide ExcessOf;
    var n := bs[c].count + 1;
    ExcessUpdate(bs, c, Bkt(x, n, if n > ideal then n / ideal else bs[c].expandMult), ideal);
  }

  /** When HASH_ADD_TO_BKT doubles the buckets: the count is that after the new item. */
  predicate Full(b: Bkt, noexpand: bool) {
    b.count + 1 >= (b.expandMult + 1) * CAPACITY_THRESH && !noexpand
  }

  class Table {
    const hash: seq<int> -> nat
    var head: Item?
    var tail: Item?
    var buckets: array<Bkt>
    var numBuckets: nat
    var log2: nat
    var numItems: nat
    var idealChainMaxlen: nat
    var nonidealItems: nat
    var ineffExpands: nat
    var noexpand: bool
    ghost var order: seq<Item>
    ghost var chains: seq<seq<Item>>

    /** The list of all items. */
    ghost predicate ListOk()
      reads `head, `tail, `order, order`prev, order`next
    {
      && Chain(AppLinks(SetOf(order)), order)
      && head == At(order, 0) && tail == At(order, |order| - 1)
    }

    /** The buckets hold exactly the given items. */
    ghost predicate BucketsHold(items: set<Item>)
      reads `numBuckets, `log2, `buckets, `chains, buckets, items`hhPrev, items`hhNext, items`hashv
    {
      && 0 < numBuckets == buckets.Length == Pow2(log2)
      && BucketsOk(buckets[..], chains)
      && Filled(numBuckets, HhLinks(items), Hashes(items), chains)
    }

    ghost predicate Hashed(items: set<Item>)
      reads items`hashv, items`key
    {
      forall x :: x in items ==> x.hashv == hash(x.key)
    }

    ghost predicate Valid()
      reads this, order, buckets
    {
      && ListOk()
      && (order != [] ==>
            BucketsHold(SetOf(order)) && numItems == |order| && Hashed(SetOf(order)))
    }

    /** A null head: no table yet. */
    constructor (h: seq<int> -> nat)
      ensures Valid() && order == [] && hash == h && fresh(buckets)
    {
      hash := h;
      head, tail, order, chains := null, null, [], [];
      buckets := new Bkt[0](_ => Bkt(null, 0, 0));
    }

    /** HASH_MAKE_TABLE. */
    method MakeTable()
      modifies this
      ensures head == old(head) && tail == head && order == old(order)
      ensures fresh(buckets) && BucketsHold({}) && numItems == 0
    {
      hide Pow2;
      InitialSize();
      tail := head;
      numBuckets, log2 := INITIAL_BUCKETS, INITIAL_LOG2;
      numItems, idealChainMaxlen, nonidealItems, ineffExpands, noexpand := 0, 0, 0, 0, false;
      buckets := new Bkt[INITIAL_BUCKETS](_ => Bkt(null, 0, 0));
      chains := seq(INITIAL_BUCKETS, _ => []);
      NoChains(INITIAL_BUCKETS, chains);
    }

    method LinkAfterTail(add: Item)
      requires ListOk() && order != [] && add !in order
      modifies `tail, `order, add`prev, add`next, order`next
      ensures ListOk() && order == old(order) + [add]
    {
      ghost var s, items := order, SetOf(order);
      ghost var m := AppLinks(items);
      hide Chain, Distinct;
      AppendChain(m, s, add);
      ghost var last := s[|s| - 1];
      assert tail == last && last in items;
      add.next := null;
      tail.next := add;
      add.prev := tail;
      tail := add;
      order := s + [add];
      assert SetOf(order) == items + {add};
      assert AppLinks(SetOf(order)) == Appended(m, s, add);
    }

    /** The first item: it becomes the head, and gets a new table. */
    method LinkFirst(add: Item)
      requires order == []
      modifies this, add`prev, add`next
      ensures ListOk() && order == [add]
      ensures fresh(buckets) && BucketsHold({}) && numItems == 0
    {
      hide Filled, BucketsOk, Pow2, Distinct, Chain;
      head := add;
      add.next := null;
      add.prev := null;
      MakeTable();
      order := [add];
      assert AppLinks(SetOf(order)) == map[add := Link(null, null)];
      SingleChain(add);
    }

    lemma CountOrder()
      requires Valid()
      ensures |SetOf(order)| == |order|
    {
      hide Distinct, BucketsHold;
      DistinctLength(order);
    }

    /** The first half of HASH_ADD_KEYPTR: the item becomes the last of all items. */
    method LinkLast(add: Item)
      requires Valid() && add !in order
      modifies this, add`prev, add`next, order`next
      ensures ListOk() && order == old(order) + [add]
      ensures buckets == old(buckets) || fresh(buckets)
      ensures var items := SetOf(old(order));
              BucketsHold(items) && Hashed(items) && numItems == |old(order)| == |items|
    {
      hide Filled, BucketsOk, Pow2, Distinct, Chain;
      CountOrder();
      if head == null {
        assert order == [] && SetOf(order) == {};
        LinkFirst(add);
      } else {
        LinkAfterTail(add);
      }
    }

    method PutInFront(add: Item, ghost items: set<Item>) returns (b: nat)
      requires BucketsHold(items) && add !in items
      modifies `chains, buckets, add`hhPrev, add`hhNext, items`hhPrev
      ensures BucketsHold(items + {add}) && b < old(numBuckets) == buckets.Length && b == Bucket(add.hashv, numBuckets)
      ensures buckets[b] == Bkt(add, old(buckets[b].count) + 1, old(buckets[b].expandMult))
    {
      hide Filled, Pow2, Prepended;
      b := Bucket(add.hashv, numBuckets);
      PrependFilled(numBuckets, HhLinks(items), Hashes(items), chains, add, add.hashv);
      NotThere(numBuckets, HhLinks(items), Hashes(items), chains, add);
      PushFront(buckets, b, add, items, chains);
      chains := chains[b := [add] + chains[b]];
      assert Hashes(items + {add}) == Hashes(items)[add := add.hashv];
    }

    /** HASH_ADD_TO_BKT: the bucket of a new item, then growth when the bucket is full. */
    method AddToBucket(add: Item, ghost items: set<Item>)
      requires BucketsHold(items) && add !in items && numItems == |items| + 1
      modifies `buckets, `numBuckets, `log2, `idealChainMaxlen, `nonidealItems, `ineffExpands, `noexpand, `chains
      modifies buckets, add`hhPrev, add`hhNext, items`hhPrev, items`hhNext
      ensures BucketsHold(items + {add})
      ensures buckets == old(buckets) || fresh(buckets)
      ensures 0 < old(numBuckets) == old(buckets.Length)
      ensures var grow := old(Full(buckets[Bucket(add.hashv, numBuckets)], noexpand));
              if grow then Grown(old(numBuckets), old(ineffExpands), old(noexpand))
              else && numBuckets == old(numBuckets) && idealChainMaxlen == old(idealChainMaxlen)
                   && nonidealItems == old(nonidealItems) && ineffExpands == old(ineffExpands)
                   && noexpand == old(noexpand)
    {
      hide BucketsHold, Grown;
      var b := PutInFront(add, items);
      if buckets[b].count >= (buckets[b].expandMult + 1) * CAPACITY_THRESH && !noexpand {
        Expand(items + {add});
      }
    }

    /** What a doubling leaves in the counters; two in a row that leave more than half of the
        items on long chains stop further ones. */
    ghost predicate Grown(numBuckets0: nat, ineffExpands0: nat, noexpand0: bool)
      reads this, buckets
    {
      && numBuckets == 2 * numBuckets0
      && (idealChainMaxlen - 1) * numBuckets < numItems <= idealChainMaxlen * numBuckets
      && Counted(buckets[..], idealChainMaxlen, nonidealItems)
      && ineffExpands == (if nonidealItems > numItems / 2 then ineffExpands0 + 1 else 0)
      && (noexpand <==> noexpand0 || ineffExpands > 1)
    }

    /** Following `next` from the head meets the items in insertion order. */
    method Nth(i: nat) returns (x: Item?)
      requires Valid()
      ensures x == At(order, i)
    {
      hide BucketsHold, Distinct;
      x := head;
      var k := 0;
      while k < i && x != null
        invariant 0 <= k <= i && (x != null ==> k < |order| && x == order[k])
        invariant x == null ==> k >= |order|
      {
        assert AppLinks(SetOf(order))[order[k]].next == x.next;
        x := x.next;
        k := k + 1;
      }
    }

    /** HASH_ADD_KEYPTR. */
    method Add(add: Item, keyptr: seq<int>)
      requires Valid() && add !in order
      modifies this, buckets, add, order`next, order`hhPrev, order`hhNext
      ensures Valid() && order == old(order) + [add] && add.key == keyptr
      ensures buckets == old(buckets) || fresh(buckets)
    {
      hide ListOk, BucketsHold, SetOf, Hashed, Valid;
      ghost var items := SetOf(order);
      SetOfFacts(order);
      add.key := keyptr;
      LinkLast(add);
      Store(add, items);
      Added(old(order), add);
    }

    lemma Added(was: seq<Item>, add: Item)
      requires ListOk() && order == was + [add] && numItems == |order|
      requires BucketsHold(SetOf(was) + {add}) && Hashed(SetOf(was) + {add})
      ensures Valid()
    {
      hide ListOk, BucketsHold, SetOf, Hashed;
      AddedSet(was, add);
    }

    /** The second half of HASH_ADD_KEYPTR. */
    method Store(add: Item, ghost items: set<Item>)
      requires BucketsHold(items) && add !in items && numItems == |items| && Hashed(items)
      modifies `buckets, `numBuckets, `log2, `idealChainMaxlen, `nonidealItems, `ineffExpands, `noexpand, `chains
      modifies `numItems
      modifies buckets, add`hashv, add`hhPrev, add`hhNext, items`hhPrev, items`hhNext
      ensures BucketsHold(items + {add}) && Hashed(items + {add})
      ensures buckets == old(buckets) || fresh(buckets)
      ensures numItems == |items| + 1
    {
      hide BucketsHold;
      numItems := numItems + 1;
      add.hashv := hash(add.key);
      AddToBucket(add, items);
    }

    /** The links and the head, for an item that is not alone. */
    method PatchApp(del: Item, ghost items: set<Item>)
      requires del in items && (del.prev != null ==> del.prev in items) && (del.next != null ==> del.next in items)
      requires del.prev != del && del.next != del
      modifies `head, items`prev, items`next
      ensures AppLinks(items) == Unlinked(old(AppLinks(items)), del)
      ensures head == if old(del.prev) == null then old(del.next) else old(head)
    {
      if del.prev != null {
        del.prev.next := del.next;
      } else {
        head := del.next;
      }
      if del.next != null {
        del.next.prev := del.prev;
      }
    }

    /** What taking item `i` out of the list of all items needs and leaves. */
    lemma UnlinkFacts(del: Item, i: nat)
      requires ListOk() && i < |order| && order[i] == del && |order| > 1
      ensures var items, left := SetOf(order), Without(order, i);
              && del in items && del in AppLinks(items)
              && (del.prev != null ==> del.prev in items) && (del.next != null ==> del.next in items)
              && del.prev != del && del.next != del
              && At(left, 0) == (if del.prev == null then del.next else head)
              && At(left, |left| - 1) == (if del == tail then del.prev else tail)
              && SetOf(left) == items - {del}
              && AppLinks(items).Keys == items
    {
      hide Chain, Distinct, Without, Unlinked;
      var items := SetOf(order);
      UnlinkedList(AppLinks(items), order, i);
      Neighbours(AppLinks(items), order, i);
      assert AppLinks(items)[del] == Link(del.prev, del.next);
    }

    /** The middle of HASH_DELETE: taking an item that is not alone out of the list of all items. */
    method UnlinkApp(del: Item, ghost i: nat)
      requires ListOk() && i < |order| && order[i] == del && |order| > 1
      modifies `head, `tail, `order, order`prev, order`next
      ensures ListOk() && order == Without(old(order), i)
    {
      hide Chain, Distinct, Without, Unlinked, At, SetOf, AppLinks;
      ghost var s, items := order, SetOf(order);
      SetOfFacts(s);
      UnlinkFacts(del, i);
      UnlinkedList(AppLinks(items), s, i);
      if del == tail {
        tail := del.prev;
      }
      PatchApp(del, items);
      order := Without(s, i);
      Restricted(items, del);
    }

    /** HASH_DEL_IN_BKT. */
    method DelInBucket(del: Item, ghost items: set<Item>)
      requires BucketsHold(items) && del in items
      modifies buckets, `chains, items`hhPrev, items`hhNext
      ensures BucketsHold(items - {del})
    {
      hide Filled, Pow2, Unlinked, Without, BucketsOk, Chain, HhLinks;
      ghost var m, hs := HhLinks(items), Hashes(items);
      ghost var i := InBucketAt(numBuckets, m, hs, chains, del);
      var b := Bucket(del.hashv, numBuckets);
      UnlinkFilled(numBuckets, m, hs, chains, del, i);
      UnlinkFront(buckets, b, del, items, chains, i);
      chains := chains[b := Without(chains[b], i)];
      Restricted(items, del);
    }

    /** HASH_DELETE: the other items stay in insertion order; the last item takes the table
        with it. */
    method Delete(del: Item, ghost i: nat)
      requires Valid() && i < |order| && order[i] == del
      modifies this, buckets, order`prev, order`next, order`hhPrev, order`hhNext
      ensures Valid() && order == Without(old(order), i) && del !in order && buckets == old(buckets)
    {
      hide ListOk, BucketsHold, Hashed;
      DeleteFacts(i);
      CountOrder();
      ghost var items := SetOf(order);
      assert ListOk() && BucketsHold(items) && Hashed(items) && numItems == |order|;
      hide Valid;
      if del.prev == null && del.next == null {
        head, tail, order := null, null, [];
        Emptied();
      } else {
        UnlinkApp(del, i);
        DelInBucket(del, items);
        numItems := numItems - 1;
        Remains(items, del);
      }
    }

    lemma Emptied()
      requires head == null && tail == null && order == []
      ensures Valid()
    {
    }

    lemma Remains(items: set<Item>, del: Item)
      requires ListOk() && SetOf(order) == items - {del} && numItems == |order|
      requires BucketsHold(items - {del}) && Hashed(items)
      ensures Valid()
    {
      hide ListOk, BucketsHold;
    }

    lemma DeleteFacts(i: nat)
      requires ListOk() && i < |order|
      ensures order[i].prev == null && order[i].next == null <==> |order| == 1
      ensures SetOf(Without(order, i)) == SetOf(order) - {order[i]}
      ensures forall x :: x in Without(order, i) ==> x in order && x != order[i]
      ensures |Without(order, i)| == |order| - 1
    {
      var m := AppLinks(SetOf(order));
      UnlinkedList(m, order, i);
      Neighbours(m, order, i);
      assert m[order[i]] == Link(order[i].prev, order[i].next);
    }

    /** Every item is on the chain of the bucket that its key hashes to, and on no other. */
    lemma OnOwnChain(x: Item, c: nat)
      requires Valid() && order != [] && c < |chains|
      ensures numBuckets > 0 && (x in chains[c] <==> x in order && c == Bucket(hash(x.key), numBuckets))
    {
      hide Chain, Distinct, Pow2, Bucket, BucketsOk;
      var items := SetOf(order);
      assert forall y :: y in Hashes(items) <==> y in order;
      if x in order {
        InItsBucket(numBuckets, HhLinks(items), Hashes(items), chains, x);
      }
    }

    /** What HASH_FSCK checks: the bucket counts add up to the item count, which is the length
        of the list. */
    lemma CountsAgree()
      requires Valid() && order != []
      ensures SumCounts(buckets[..]) == numItems == |order|
      ensures 0 < numBuckets == |chains|
    {
      hide Chain, Distinct, Pow2, Bucket;
      var items := SetOf(order);
      CountOrder();
      CountsAreLengths(buckets[..], chains);
      LengthsCountItems(numBuckets, HhLinks(items), Hashes(items), chains);
      assert Hashes(items).Keys == items;
    }

    /** HASH_FIND_IN_BKT. */
    method FindInBucket(b: nat, keyptr: seq<int>, ghost items: set<Item>) returns (out: Item?)
      requires BucketsHold(items) && b < numBuckets == |chains|
      ensures out != null ==> out in items && out.key == keyptr
      ensures out == null ==> forall k :: 0 <= k < |chains[b]| ==> chains[b][k].key != keyptr
    {
      hide Filled, BucketsOk, Pow2;
      ghost var s := chains[b];
      ghost var i := 0;
      HeadOf(buckets[..], chains, b);
      OnChain(numBuckets, HhLinks(items), Hashes(items), chains, b);
      out := buckets[b].head;
      while out != null
        invariant i <= |s| && out == At(s, i)
        invariant forall k :: 0 <= k < i ==> s[k].key != keyptr
        decreases |s| - i
      {
        assert s[i] == out && HhLinks(items)[s[i]].next == At(s, i + 1);
        if out.key == keyptr {
          return;
        }
        out := out.hhNext;
        i := i + 1;
      }
    }

    /** HASH_FIND: an item with the key, if there is any. */
    method Find(keyptr: seq<int>) returns (out: Item?)
      requires Valid()
      ensures out != null ==> out in order && out.key == keyptr
      ensures out == null ==> forall x :: x in order ==> x.key != keyptr
    {
      hide Filled, BucketsOk, Pow2, Chain;
      if head == null {
        return null;
      }
      ghost var items := SetOf(order);
      Sizes(numBuckets, HhLinks(items), Hashes(items), chains);
      out := FindInBucket(Bucket(hash(keyptr), numBuckets), keyptr, items);
      if out == null {
        forall x | x in order
          ensures x.key != keyptr
        {
          InItsBucket(numBuckets, HhLinks(items), Hashes(items), chains, x);
        }
      }
    }

    /** One item of an old bucket goes to its new one; `next` is the item that followed it. */
    method MoveItem(news: array<Bkt>, thh: Item, ghost items: set<Item>, ghost hs: map<Item, nat>, ghost m0: Links,
                    ghost moved0: map<Item, nat>, ghost cs0: seq<seq<Item>>, ghost b: nat, ghost j: nat)
      returns (next: Item?, ghost moved: map<Item, nat>, ghost cs: seq<seq<Item>>)
      requires b < numBuckets == |chains| && idealChainMaxlen > 0
      requires j < |chains[b]| && thh == chains[b][j]
      requires news.Length == 2 * numBuckets && BucketsOk(news[..], cs0)
      requires hs == Hashes(items) && Moving(numBuckets, m0, hs, chains, HhLinks(items), moved0, cs0, b, j)
      requires Counted(news[..], idealChainMaxlen, nonidealItems)
      modifies news, `nonidealItems, items`hhPrev, items`hhNext
      ensures BucketsOk(news[..], cs) && next == At(chains[b], j + 1)
      ensures Counted(news[..], idealChainMaxlen, nonidealItems)
      ensures Moving(numBuckets, m0, hs, chains, HhLinks(items), moved, cs, b, j + 1)
    {
      hide Moving, Prepended, BucketsOk, Counted;
      ghost var m := HhLinks(items);
      NotYetMoved(numBuckets, m0, hs, chains, m, moved0, cs0, b, j);
      MoveOne(numBuckets, m0, hs, chains, m, moved0, cs0, b, j);
      MovedChains(numBuckets, m0, hs, chains, m, moved0, cs0, b, j);
      next := thh.hhNext;
      var c := Bucket(thh.hashv, 2 * numBuckets);
      ghost var was := news[..];
      CountIs(was, cs0, c);
      PushFront(news, c, thh, items, cs0);
      assert items + {thh} == items;
      moved, cs := moved0[thh := hs[thh]], cs0[c := [thh] + cs0[c]];
      CountItem(news, c, was, cs);
    }

    /** The counters, once an item has come into the new bucket `c`. */
    method CountItem(news: array<Bkt>, c: nat, ghost was: seq<Bkt>, ghost cs: seq<seq<Item>>)
      requires BucketsOk(news[..], cs) && c < |was| == news.Length && idealChainMaxlen > 0
      requires news[..] == was[c := Bkt(news[c].head, was[c].count + 1, was[c].expandMult)]
      requires Counted(was, idealChainMaxlen, nonidealItems)
      modifies news, `nonidealItems
      ensures BucketsOk(news[..], cs) && Counted(news[..], idealChainMaxlen, nonidealItems)
    {
      hide BucketsOk, Counted;
      ghost var b := news[c];
      assert news[..][c] == b;
      CountOneMore(was, c, b.head, idealChainMaxlen, nonidealItems);
      if news[c].count > idealChainMaxlen {
        nonidealItems := nonidealItems + 1;
        SetMult(news, c, news[c].count / idealChainMaxlen, cs);
        ghost var u := b.(expandMult := b.count / idealChainMaxlen);
        assert news[..] == was[c := b][c := u] == was[c := u];
      }
    }

    /** The inner loop of HASH_EXPAND_BUCKETS: one old bucket is spread over the new ones. */
    method Scatter(news: array<Bkt>, b: nat, ghost items: set<Item>, ghost hs: map<Item, nat>, ghost m0: Links,
                   ghost moved0: map<Item, nat>, ghost cs0: seq<seq<Item>>)
      returns (ghost moved: map<Item, nat>, ghost cs: seq<seq<Item>>)
      requires b < numBuckets == buckets.Length == |chains| && idealChainMaxlen > 0
      requires buckets[b].head == At(chains[b], 0)
      requires news.Length == 2 * numBuckets && news != buckets && BucketsOk(news[..], cs0)
      requires hs == Hashes(items) && Moving(numBuckets, m0, hs, chains, HhLinks(items), moved0, cs0, b, 0)
      requires Counted(news[..], idealChainMaxlen, nonidealItems)
      modifies news, `nonidealItems, items`hhPrev, items`hhNext
      ensures BucketsOk(news[..], cs) && Counted(news[..], idealChainMaxlen, nonidealItems)
      ensures Moving(numBuckets, m0, hs, chains, HhLinks(items), moved, cs, b, |chains[b]|)
    {
      hide Moving, BucketsOk, Counted;
      moved, cs := moved0, cs0;
      var thh := buckets[b].head;
      ghost var j := 0;
      while thh != null
        invariant j <= |chains[b]| && thh == At(chains[b], j)
        invariant hs == Hashes(items) && Moving(numBuckets, m0, hs, chains, HhLinks(items), moved, cs, b, j)
        invariant BucketsOk(news[..], cs) && Counted(news[..], idealChainMaxlen, nonidealItems)
        decreases |chains[b]| - j
      {
        thh, moved, cs := MoveItem(news, thh, items, hs, m0, moved, cs, b, j);
        j := j + 1;
      }
    }

    /** The outer loop. */
    method ScatterAll(news: array<Bkt>, ghost items: set<Item>, ghost hs: map<Item, nat>, ghost cs0: seq<seq<Item>>)
      returns (ghost cs: seq<seq<Item>>)
      requires BucketsHold(items) && hs == Hashes(items) && idealChainMaxlen > 0
      requires news.Length == 2 * numBuckets && news != buckets && BucketsOk(news[..], cs0)
      requires Moving(numBuckets, HhLinks(items), hs, chains, HhLinks(items), map[], cs0, 0, 0)
      requires Counted(news[..], idealChainMaxlen, nonidealItems)
      modifies news, `nonidealItems, items`hhPrev, items`hhNext
      ensures BucketsOk(news[..], cs) && Counted(news[..], idealChainMaxlen, nonidealItems)
      ensures Filled(2 * numBuckets, HhLinks(items), hs, cs)
    {
      hide Filled, Moving, BucketsOk, At, Pow2, Counted;
      ghost var m0 := HhLinks(items);
      ghost var moved: map<Item, nat> := map[];
      cs := cs0;
      var i := 0;
      while i < numBuckets
        invariant 0 <= i <= numBuckets && BucketsOk(news[..], cs)
        invariant Counted(news[..], idealChainMaxlen, nonidealItems)
        invariant hs == Hashes(items) && Moving(numBuckets, m0, hs, chains, HhLinks(items), moved, cs, i, 0)
      {
        HeadOf(buckets[..], chains, i);
        moved, cs := Scatter(news, i, items, hs, m0, moved, cs);
        NextBucket(numBuckets, m0, hs, chains, HhLinks(items), moved, cs, i);
        i := i + 1;
      }
      AllMoved(numBuckets, m0, hs, chains, HhLinks(items), moved, cs);
    }

    /** Twice as many empty buckets. */
    method NewBuckets(ghost items: set<Item>) returns (news: array<Bkt>, ghost cs: seq<seq<Item>>)
      requires BucketsHold(items)
      ensures fresh(news) && news.Length == 2 * numBuckets && BucketsOk(news[..], cs)
      ensures forall c :: 0 <= c < news.Length ==> news[c] == Bkt(null, 0, 0)
      ensures Moving(numBuckets, HhLinks(items), Hashes(items), chains, HhLinks(items), map[], cs, 0, 0)
    {
      hide Filled, Moving, BucketsOk, At, Pow2;
      news := new Bkt[2 * numBuckets](_ => Bkt(null, 0, 0));
      cs := seq(2 * numBuckets, _ => []);
      NoneMoved(numBuckets, HhLinks(items), Hashes(items), chains, cs);
      EmptyBuckets(news[..], cs);
    }

    /** The end of the expansion: the new buckets replace the old ones; two expansions in a row
        that leave more than half of the items on long chains stop further ones. */
    method Adopt(news: array<Bkt>, ghost items: set<Item>, ghost cs: seq<seq<Item>>)
      requires numBuckets > 0 && numBuckets == Pow2(log2) && news.Length == 2 * numBuckets && BucketsOk(news[..], cs)
      requires Filled(2 * numBuckets, HhLinks(items), Hashes(items), cs)
      modifies `buckets, `numBuckets, `log2, `ineffExpands, `noexpand, `chains
      ensures BucketsHold(items) && buckets == news
      ensures numBuckets == 2 * old(numBuckets) && log2 == old(log2) + 1
      ensures ineffExpands == if nonidealItems > numItems / 2 then old(ineffExpands) + 1 else 0
      ensures noexpand <==> old(noexpand) || ineffExpands > 1
    {
      hide Filled, BucketsOk, Pow2;
      DoublePow2(log2);
      numBuckets := numBuckets * 2;
      log2 := log2 + 1;
      buckets := news;
      chains := cs;
      ineffExpands := if nonidealItems > numItems / 2 then ineffExpands + 1 else 0;
      if ineffExpands > 1 {
        noexpand := true;
      }
    }

    /** HASH_EXPAND_BUCKETS: twice as many buckets, holding the same items. */
    method Expand(ghost items: set<Item>)
      requires BucketsHold(items) && numItems > 0
      modifies `buckets, `numBuckets, `log2, `idealChainMaxlen, `nonidealItems, `ineffExpands, `noexpand, `chains
      modifies items`hhPrev, items`hhNext
      ensures BucketsHold(items) && fresh(buckets)
      ensures log2 == old(log2) + 1 && Grown(old(numBuckets), old(ineffExpands), old(noexpand))
    {
      hide Filled, Moving, BucketsOk, At, Pow2, Counted;
      var news, cs := NewBuckets(items);
      SetIdeal();
      nonidealItems := 0;
      NothingCounted(news[..], idealChainMaxlen);
      cs := ScatterAll(news, items, Hashes(items), cs);
      Adopt(news, items, cs);
    }

    /** The ideal chain length is the number of items per new bucket, rounded up; it is never 0,
        so that the division in Scatter is defined. */
    method SetIdeal()
      requires numItems > 0 && numBuckets > 0
      modifies `idealChainMaxlen
      ensures idealChainMaxlen > 0
      ensures (idealChainMaxlen - 1) * (2 * numBuckets) < numItems <= idealChainMaxlen * (2 * numBuckets)
    {
      var d := 2 * numBuckets;
      idealChainMaxlen := numItems / d + if numItems % d != 0 then 1 else 0;
      assert numItems == numItems / d * d + numItems % d;
    }
  }

  method SetMult(bs: array<Bkt>, c: nat, mult: nat, ghost cs: seq<seq<Item>>)
    requires c < bs.Length && BucketsOk(bs[..], cs)
    modifies bs
    ensures BucketsOk(bs[..], cs) && bs[..] == old(bs[..])[c := old(bs[c]).(expandMult := mult)]
  {
    ghost var was := bs[..];
    bs[c] := bs[c].(expandMult := mult);
    assert bs[..] == was[c := bs[c]];
  }

  lemma CountIs(bs: seq<Bkt>, cs: seq<seq<Item>>, c: nat)
    requires BucketsOk(bs, cs) && c < |bs|
    ensures |cs| == |bs| && bs[c].count == |cs[c]|
  {
  }

  lemma EmptyBuckets(bs: seq<Bkt>, cs: seq<seq<Item>>)
    requires |bs| == |cs| && forall c :: 0 <= c < |bs| ==> bs[c] == Bkt(null, 0, 0) && cs[c] == []
    ensures BucketsOk(bs, cs)
  {
  }

  lemma HeadOf(bs: seq<Bkt>, cs: seq<seq<Item>>, c: nat)
    requires BucketsOk(bs, cs) && c < |bs|
    ensures |bs| == |cs| && bs[c].head == At(cs[c], 0)
  {
  }

  lemma MovedChains(nb: nat, m0: Links, hs: map<Item, nat>, chains: seq<seq<Item>>,
                    m: Links, moved: map<Item, nat>, news: seq<seq<Item>>, b: nat, j: nat)
    requires Moving(nb, m0, hs, chains, m, moved, news, b, j) && b < nb && j < |chains[b]|
    ensures nb > 0 && |news| == 2 * nb
    ensures forall c :: 0 <= c < |news| ==> chains[b][j] !in news[c] && (news[c] != [] ==> news[c][0] in hs)
  {
    hide Bucket, Filled;
    NotYetMoved(nb, m0, hs, chains, m, moved, news, b, j);
  }

  lemma NotThere(nb: nat, m: Links, hs: map<Item, nat>, chains: seq<seq<Item>>, x: Item)
    requires Filled(nb, m, hs, chains) && x !in hs
    ensures forall c :: 0 <= c < |chains| ==> x !in chains[c]
    ensures forall c :: 0 <= c < |chains| && chains[c] != [] ==> chains[c][0] in hs
  {
  }

  lemma SingleChain(x: Item)
    ensures Chain(map[x := Link(null, null)], [x])
  {
  }

  // -------------------------------------------------------------------- runs

  datatype Op = AddKey(key: seq<int>) | DeleteAt(i: nat)

  /** The plain list that a table stands for: keys are added at the end, and deleting takes one
      out where it is. */
  function After(ops: seq<Op>): seq<seq<int>> {
    if ops == [] then []
    else
      var keys := After(ops[..|ops| - 1]);
      match ops[|ops| - 1]
      case AddKey(key) => keys + [key]
      case DeleteAt(i) => if i < |keys| then keys[..i] + keys[i + 1..] else keys
  }

  ghost function Keys(s: seq<Item>): (ks: seq<seq<int>>)
    reads s`key
    ensures |ks| == |s| && forall i :: 0 <= i < |s| ==> ks[i] == s[i].key
  {
    if s == [] then [] else Keys(s[..|s| - 1]) + [s[|s| - 1].key]
  }

  method AddFresh(t: Table, key: seq<int>)
    requires t.Valid()
    modifies t, t.buckets, SetOf(t.order)
    ensures t.Valid() && (t.buckets == old(t.buckets) || fresh(t.buckets))
    ensures forall y :: y in SetOf(t.order) ==> y in SetOf(old(t.order)) || fresh(y)
    ensures Keys(t.order) == old(Keys(t.order)) + [key]
  {
    hide Table.Valid, Keys;
    var x := new Item();
    t.Add(x, key);
    assert Keys(t.order) == old(Keys(t.order)) + [key];
  }

  method DeleteNth(t: Table, x: Item, ghost i: nat)
    requires t.Valid() && i < |t.order| && t.order[i] == x
    modifies t, t.buckets, SetOf(t.order)
    ensures t.Valid() && t.buckets == old(t.buckets)
    ensures SetOf(t.order) <= SetOf(old(t.order))
    ensures Keys(t.order) == old(Keys(t.order))[..i] + old(Keys(t.order))[i + 1..]
  {
    hide Table.Valid, Keys;
    t.Delete(x, i);
    assert Keys(t.order) == old(Keys(t.order))[..i] + old(Keys(t.order))[i + 1..];
  }

  /** Any run of adds and deletes from the empty table, bucket doublings included: the table is
      valid and its items, in order, have the keys of the plain list. With Find's contract, a
      lookup succeeds exactly on the keys of that list. */
  method Play(hash: seq<int> -> nat, ops: seq<Op>) returns (t: Table)
    ensures fresh(t) && t.Valid() && Keys(t.order) == After(ops)
  {
    hide Table.Valid, Keys, SetOf;
    t := new Table(hash);
    SetOfFacts(t.order);
    var n := 0;
    while n < |ops|
      invariant 0 <= n <= |ops| && fresh(t) && fresh(t.buckets) && t.Valid()
      invariant forall x :: x in SetOf(t.order) ==> fresh(x)
      invariant Keys(t.order) == After(ops[..n])
    {
      assert ops[..n + 1][..n] == ops[..n];
      match ops[n] {
        case AddKey(key) =>
          AddFresh(t, key);
        case DeleteAt(i) =>
          var x := t.Nth(i);
          if x != null {
            DeleteNth(t, x, i);
          }
      }
      n := n + 1;
    }
    assert ops[..n] == ops;
  }
}
