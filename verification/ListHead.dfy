/**
 The circular intrusive list of list.h.

 A list is its sentinel with the nodes linked to it. The reasoning is about a map from nodes to
 their two links; the methods below are the inline functions, on the nodes themselves.
 */
module ListHead {

  /** A list_head embedded in a structure whose other contents are `item`. */
  class Node<T> {
    var prev: Node?<T>
    var next: Node?<T>
    const item: T

    /** A structure from malloc, its list_head not yet linked. */
    constructor (x: T)
      ensures item == x
    {
      item := x;
    }
  }

  datatype Link<!T> = Link(prev: Node?<T>, next: Node?<T>)

  /** Position -1 and position |s| are the sentinel. */
  function At<T>(head: Node<T>, s: seq<Node<T>>, i: int): Node<T> {
    if 0 <= i < |s| then s[i] else head
  }

  ghost predicate Distinct<T>(head: Node<T>, s: seq<Node<T>>) {
    head !in s && forall i, j :: 0 <= i < j < |s| ==> s[i] != s[j]
  }

  /** Going round from the sentinel meets `s` in order, in both directions. */
  ghost predicate Ring<T>(m: map<Node<T>, Link<T>>, head: Node<T>, s: seq<Node<T>>) {
    && Distinct(head, s)
    && head in m && m[head] == Link(At(head, s, |s| - 1), At(head, s, 0))
    && forall i :: 0 <= i < |s| ==> s[i] in m && m[s[i]] == Link(At(head, s, i - 1), At(head, s, i + 1))
  }

  /** __list_insert_between on links. */
  ghost function Between<T>(m: map<Node<T>, Link<T>>, add: Node<T>, prev: Node<T>, next: Node<T>): map<Node<T>, Link<T>>
    requires prev in m && next in m
  {
    var m1 := m[next := m[next].(prev := add)];
    var m2 := m1[prev := m1[prev].(next := add)];
    m2[add := Link(prev, next)]
  }

  lemma AppendRing<T>(m: map<Node<T>, Link<T>>, head: Node<T>, s: seq<Node<T>>, add: Node<T>)
    requires Ring(m, head, s) && add != head && add !in s
    ensures m[head].prev == At(head, s, |s| - 1) && At(head, s, |s| - 1) in m
    ensures Ring(Between(m, add, At(head, s, |s| - 1), head), head, s + [add])
  {
    var n, t := Between(m, add, At(head, s, |s| - 1), head), s + [add];
    forall i | 0 <= i < |t|
      ensures t[i] in n && n[t[i]] == Link(At(head, t, i - 1), At(head, t, i + 1))
    {
    }
  }

  /** list_remove on links. */
  ghost function Removed<T>(m: map<Node<T>, Link<T>>, pos: Node<T>): map<Node<T>, Link<T>>
    requires pos in m && m[pos].prev != null && m[pos].next != null && m[pos].prev in m && m[pos].next in m
  {
    var p, n := m[pos].prev, m[pos].next;
    var m1 := m[p := m[p].(next := n)];
    var m2 := m1[n := m1[n].(prev := p)];
    m2[pos := Link(null, null)]
  }

  function Without<T>(s: seq<Node<T>>, i: nat): (t: seq<Node<T>>)
    requires i < |s|
    ensures |t| == |s| - 1 && forall k :: 0 <= k < |t| ==> t[k] == s[if k < i then k else k + 1]
  {
    s[..i] + s[i + 1..]
  }

  lemma WithoutDistinct<T>(head: Node<T>, s: seq<Node<T>>, i: nat)
    requires Distinct(head, s) && i < |s|
    ensures Distinct(head, Without(s, i)) && s[i] !in Without(s, i)
  {
    hide Without;
  }

  lemma SamePlace<T>(head: Node<T>, s: seq<Node<T>>, j: int, k: int)
    requires Distinct(head, s) && -1 <= j < |s| && -1 <= k < |s|
    ensures At(head, s, j) == At(head, s, k) <==> j == k
  {
  }

  /** Any place on the ring, the sentinel being place -1. */
  lemma LinkAt<T>(m: map<Node<T>, Link<T>>, head: Node<T>, s: seq<Node<T>>, j: int)
    requires Ring(m, head, s) && -1 <= j < |s|
    ensures At(head, s, j) in m
    ensures m[At(head, s, j)] == Link(At(head, s, if j == -1 then |s| - 1 else j - 1), At(head, s, j + 1))
  {
  }

  lemma RemovedAt<T>(m: map<Node<T>, Link<T>>, pos: Node<T>, x: Node<T>)
    requires pos in m && m[pos].prev != null && m[pos].next != null && m[pos].prev in m && m[pos].next in m
    requires x in m && x != pos
    ensures x in Removed(m, pos)
    ensures Removed(m, pos)[x] == Link(if x == m[pos].next then m[pos].prev else m[x].prev,
                                       if x == m[pos].prev then m[pos].next else m[x].next)
  {
  }

  /** The links that one remaining node, or the sentinel, ends up with. */
  lemma RemovedLink<T>(m: map<Node<T>, Link<T>>, head: Node<T>, s: seq<Node<T>>, i: nat, j: int)
    requires Ring(m, head, s) && i < |s| && -1 <= j < |s| && i != j
    ensures s[i] in m && m[s[i]] == Link(At(head, s, i - 1), At(head, s, i + 1))
    ensures At(head, s, i - 1) in m && At(head, s, i + 1) in m
    ensures var n, x := Removed(m, s[i]), At(head, s, j);
            && x in n
            && n[x].prev == (if j == i + 1 || (j == -1 && i == |s| - 1) then At(head, s, i - 1)
                             else At(head, s, if j == -1 then |s| - 1 else j - 1))
            && n[x].next == (if j == i - 1 then At(head, s, i + 1) else At(head, s, j + 1))
  {
    var after := if i + 1 < |s| then i + 1 else -1;
    LinkAt(m, head, s, i);
    LinkAt(m, head, s, j);
    LinkAt(m, head, s, i - 1);
    LinkAt(m, head, s, after);
    assert At(head, s, after) == At(head, s, i + 1);
    SamePlace(head, s, j, i);
    SamePlace(head, s, j, i - 1);
    SamePlace(head, s, j, after);
    hide Ring, Distinct, At, Removed;
    RemovedAt(m, s[i], At(head, s, j));
  }

  lemma WithoutAt<T>(head: Node<T>, s: seq<Node<T>>, i: nat, k: int)
    requires i < |s| && -1 <= k <= |s| - 1
    ensures At(head, Without(s, i), k) == At(head, s, if k < i then k else k + 1)
  {
    hide Without;
  }

  lemma PlaceAfterRemoval<T>(m: map<Node<T>, Link<T>>, head: Node<T>, s: seq<Node<T>>, i: nat, k: nat)
    requires Ring(m, head, s) && i < |s| && k < |s| - 1
    requires s[i] in m && m[s[i]] == Link(At(head, s, i - 1), At(head, s, i + 1))
    requires At(head, s, i - 1) in m && At(head, s, i + 1) in m
    ensures var n, t := Removed(m, s[i]), Without(s, i);
            t[k] in n && n[t[k]] == Link(At(head, t, k - 1), At(head, t, k + 1))
  {
    hide Ring, Removed, Without;
    RemovedLink(m, head, s, i, if k < i then k else k + 1);
    WithoutAt(head, s, i, k - 1);
    WithoutAt(head, s, i, k);
    WithoutAt(head, s, i, k + 1);
  }

  lemma HeadAfterRemoval<T>(m: map<Node<T>, Link<T>>, head: Node<T>, s: seq<Node<T>>, i: nat)
    requires Ring(m, head, s) && i < |s|
    ensures s[i] in m && m[s[i]] == Link(At(head, s, i - 1), At(head, s, i + 1))
    ensures At(head, s, i - 1) in m && At(head, s, i + 1) in m
    ensures var n, t := Removed(m, s[i]), Without(s, i);
            head in n && n[head] == Link(At(head, t, |t| - 1), At(head, t, 0))
  {
    hide Ring, Removed, Without;
    RemovedLink(m, head, s, i, -1);
    WithoutAt(head, s, i, |s| - 2);
    WithoutAt(head, s, i, 0);
    assert At(head, s, -1) == head && At(head, s, |s|) == head;
    hide At;
  }

  /** Taking out any node leaves the others in a ring. */
  lemma RemoveRing<T>(m: map<Node<T>, Link<T>>, head: Node<T>, s: seq<Node<T>>, i: nat)
    requires Ring(m, head, s) && i < |s|
    ensures s[i] in m && m[s[i]] == Link(At(head, s, i - 1), At(head, s, i + 1))
    ensures At(head, s, i - 1) in m && At(head, s, i + 1) in m
    ensures Ring(Removed(m, s[i]), head, Without(s, i)) && s[i] !in Without(s, i) && s[i] != head
  {
    hide Distinct, Without, Removed, At;
    HeadAfterRemoval(m, head, s, i);
    WithoutDistinct(head, s, i);
    NotTheHead(head, s, i);
    var n, t := Removed(m, s[i]), Without(s, i);
    forall k | 0 <= k < |t|
      ensures t[k] in n && n[t[k]] == Link(At(head, t, k - 1), At(head, t, k + 1))
    {
      PlaceAfterRemoval(m, head, s, i, k);
    }
  }

  lemma NotTheHead<T>(head: Node<T>, s: seq<Node<T>>, i: nat)
    requires Distinct(head, s) && i < |s|
    ensures s[i] != head
  {
  }

  lemma SameLinks<T>(m: map<Node<T>, Link<T>>, n: map<Node<T>, Link<T>>, head: Node<T>, s: seq<Node<T>>)
    requires Ring(m, head, s)
    requires forall x :: x == head || x in s ==> x in n && n[x] == m[x]
    ensures Ring(n, head, s)
  {
  }

  // -------------------------------------------------------------- the C code

  ghost function Nodes<T>(head: Node<T>, s: seq<Node<T>>): set<Node<T>> {
    set x | x in [head] + s
  }

  ghost function Links<T>(nodes: set<Node<T>>): map<Node<T>, Link<T>>
    reads nodes`prev, nodes`next
  {
    map x | x in nodes :: Link(x.prev, x.next)
  }

  lemma LinksAt<T>(nodes: set<Node<T>>, x: Node<T>)
    requires x in nodes
    ensures x in Links(nodes) && Links(nodes)[x] == Link(x.prev, x.next)
  {
  }

  ghost predicate IsList<T>(head: Node<T>, s: seq<Node<T>>)
    reads head`prev, head`next, s`prev, s`next
  {
    Ring(Links(Nodes(head, s)), head, s)
  }

  /** list_init. */
  method Init<T>(pos: Node<T>)
    modifies pos`prev, pos`next
    ensures IsList(pos, [])
  {
    pos.next := pos;
    pos.prev := pos;
  }

  /** list_is_empty. */
  method IsEmpty<T>(pos: Node<T>, ghost s: seq<Node<T>>) returns (empty: bool)
    requires IsList(pos, s)
    ensures empty <==> s == []
  {
    empty := pos.next == pos;
    LinksAt(Nodes(pos, s), pos);
  }

  /** The first node is the one after the sentinel. */
  lemma First<T>(pos: Node<T>, s: seq<Node<T>>)
    requires IsList(pos, s) && s != []
    ensures pos.next == s[0]
  {
    hide Links;
    LinksAt(Nodes(pos, s), pos);
  }

  method InsertBetween<T>(add: Node<T>, prev: Node<T>, next: Node<T>, ghost nodes: set<Node<T>>)
    requires prev in nodes && next in nodes && add !in nodes
    modifies add`prev, add`next, prev`next, next`prev
    ensures Links(nodes + {add}) == Between(old(Links(nodes)), add, prev, next)
  {
    next.prev := add;
    prev.next := add;
    add.next := next;
    add.prev := prev;
  }

  lemma NodesAdd<T>(head: Node<T>, s: seq<Node<T>>, add: Node<T>)
    ensures Nodes(head, s + [add]) == Nodes(head, s) + {add}
    ensures head in Nodes(head, s) && (add != head && add !in s ==> add !in Nodes(head, s))
    ensures forall x :: x in s ==> x in Nodes(head, s)
  {
  }

  /** list_append: `add` goes before the sentinel. */
  method Append<T>(add: Node<T>, pos: Node<T>, ghost s: seq<Node<T>>)
    requires IsList(pos, s) && add != pos && add !in s
    modifies add`prev, add`next, pos`prev, pos`next, s`next
    ensures IsList(pos, s + [add])
  {
    hide Distinct, Between, Ring, Nodes, Links;
    ghost var nodes := Nodes(pos, s);
    AppendRing(Links(nodes), pos, s, add);
    NodesAdd(pos, s, add);
    LinksAt(nodes, pos);
    InsertBetween(add, pos.prev, pos, nodes);
  }

  lemma WithoutNodes<T>(head: Node<T>, s: seq<Node<T>>, i: nat)
    requires Distinct(head, s) && i < |s|
    ensures Nodes(head, Without(s, i)) == Nodes(head, s) - {s[i]}
  {
    WithoutDistinct(head, s, i);
    forall x | x in s && x != s[i]
      ensures x in Without(s, i)
    {
      var k :| 0 <= k < |s| && s[k] == x;
      assert Without(s, i)[if k < i then k else k - 1] == x;
    }
  }

  lemma RemovedMembers<T>(m: map<Node<T>, Link<T>>, head: Node<T>, s: seq<Node<T>>, i: nat)
    requires i < |s| && s[i] in m && m[s[i]].prev != null && m[s[i]].next != null
    requires m[s[i]].prev in m && m[s[i]].next in m
    requires Ring(Removed(m, s[i]), head, Without(s, i))
    ensures head in Removed(m, s[i]) && forall x :: x in Without(s, i) ==> x in Removed(m, s[i])
  {
    hide Removed, Distinct;
  }

  lemma RemovedList<T>(m: map<Node<T>, Link<T>>, head: Node<T>, s: seq<Node<T>>, i: nat)
    requires Ring(m, head, s) && i < |s|
    ensures s[i] in m && m[s[i]] == Link(At(head, s, i - 1), At(head, s, i + 1))
    ensures At(head, s, i - 1) in m && At(head, s, i + 1) in m
    ensures At(head, s, i - 1) != s[i] && At(head, s, i + 1) != s[i]
    ensures Ring(Removed(m, s[i]) - {s[i]}, head, Without(s, i))
    ensures Nodes(head, Without(s, i)) == Nodes(head, s) - {s[i]}
  {
    RemoveRing(m, head, s, i);
    WithoutNodes(head, s, i);
    LinkAt(m, head, s, i);
    SamePlace(head, s, i, i - 1);
    SamePlace(head, s, i, if i + 1 < |s| then i + 1 else -1);
    hide Removed, Without, Ring, Distinct;
    assert forall x :: x in Without(s, i) ==> x != s[i];
    RemovedMembers(m, head, s, i);
    SameLinks(Removed(m, s[i]), Removed(m, s[i]) - {s[i]}, head, Without(s, i));
  }

  lemma RestLinks<T>(nodes: set<Node<T>>, x: Node<T>)
    ensures Links(nodes - {x}) == Links(nodes) - {x}
  {
  }

  /** list_remove. */
  method Remove<T>(pos: Node<T>, ghost head: Node<T>, ghost s: seq<Node<T>>, ghost i: nat)
    requires IsList(head, s) && i < |s| && s[i] == pos
    modifies head`prev, head`next, s`prev, s`next
    ensures IsList(head, Without(s, i)) && pos.next == null && pos.prev == null
  {
    hide Ring, Without, Removed, At;
    ghost var nodes := Nodes(head, s);
    RemovedList(Links(nodes), head, s, i);
    LinksAt(nodes, pos);
    Unlink(pos, nodes);
    RestLinks(nodes, pos);
  }

  method Unlink<T>(pos: Node<T>, ghost nodes: set<Node<T>>)
    requires pos in nodes && pos.prev != null && pos.next != null && pos.prev in nodes && pos.next in nodes
    requires pos.prev != pos && pos.next != pos
    modifies nodes`prev, nodes`next
    ensures pos.next == null && pos.prev == null
    ensures Links(nodes) == Removed(old(Links(nodes)), pos)
  {
    var next := pos.next;
    var prev := pos.prev;
    prev.next := next;
    next.prev := prev;
    pos.next := null;
    pos.prev := null;
  }
}
