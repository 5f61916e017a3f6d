/**
 The map trie of trie.c: nodes in a growing array, each with a first child and a next sibling
 given by index, -1 for none.

 A child lies behind its parent and a sibling before its elder, so every chain ends. The class
 below is proved to hold exactly the inserted keys and the prefixes of them.
 */
module Trie {
  import opened Common
  import opened Text

  datatype TNode = TNode(child: int, sibling: int, c: Byte, val: Option<seq<Byte>>)

  /** Ghost view of the nodes in use: the parent and the spelling of each, and where each
      spelling is. */
  datatype View = View(parent: seq<int>, path: seq<seq<Byte>>, at: map<seq<Byte>, nat>)

  /** `first` is the youngest node under `i`. */
  ghost predicate ChildOk(first: int, i: nat, parent: seq<int>) {
    if first < 0 then forall j :: i < j < |parent| ==> parent[j] != i
    else
      && i < first < |parent| && parent[first] == i
      && forall j :: first < j < |parent| ==> parent[j] != i
  }

  /** `elder` is the youngest node before `i` under the same parent. */
  ghost predicate SiblingOk(elder: int, i: nat, parent: seq<int>)
    requires i < |parent|
  {
    if elder < 0 then forall j :: 0 < j < i ==> parent[j] != parent[i]
    else
      && 0 < elder < i && parent[elder] == parent[i]
      && forall j :: elder < j < i ==> parent[j] != parent[i]
  }

  ghost predicate Spelled(ts: seq<TNode>, v: View) {
    && 0 < |ts| == |v.parent| == |v.path| && v.path[0] == []
    && (forall i :: 0 < i < |ts| ==> 0 <= v.parent[i] < i && v.path[i] == v.path[v.parent[i]] + [ts[i].c])
    && (forall i :: 0 <= i < |ts| ==> v.path[i] in v.at && v.at[v.path[i]] == i)
    && (forall p :: p in v.at ==> v.at[p] < |ts| && v.path[v.at[p]] == p)
  }

  ghost predicate Chained(ts: seq<TNode>, parent: seq<int>)
    requires |ts| == |parent|
  {
    && (forall i :: 0 <= i < |ts| ==> ChildOk(ts[i].child, i, parent))
    && (forall i :: 0 < i < |ts| ==> SiblingOk(ts[i].sibling, i, parent))
  }

  ghost predicate Shaped(ts: seq<TNode>, v: View) {
    Spelled(ts, v) && Chained(ts, v.parent)
  }

  /** The values stored, by key. */
  ghost function Values(ts: seq<TNode>, v: View): map<seq<Byte>, seq<Byte>>
    requires forall p :: p in v.at ==> v.at[p] < |ts|
  {
    map p | p in v.at && ts[v.at[p]].val.Some? :: ts[v.at[p]].val.value
  }

  /** Under a node, a byte leads to at most one child. */
  lemma ChildIsUnique(ts: seq<TNode>, v: View, i: nat, j: nat)
    requires Spelled(ts, v) && 0 < i < |ts| && 0 < j < |ts|
    requires v.parent[i] == v.parent[j] && ts[i].c == ts[j].c
    ensures i == j
  {
    assert v.at[v.path[i]] == i && v.at[v.path[j]] == j;
  }

  /** The node of a non-empty path hangs under the node of the path without its last byte. */
  lemma PathUnderParent(ts: seq<TNode>, v: View, p: seq<Byte>, c: Byte)
    requires Spelled(ts, v) && p + [c] in v.at
    ensures p in v.at && v.at[p + [c]] > 0
    ensures v.parent[v.at[p + [c]]] == v.at[p] && ts[v.at[p + [c]]].c == c
  {
    var j := v.at[p + [c]];
    assert v.path[j] == p + [c];
    if j != 0 {
      var q := v.path[v.parent[j]];
      assert (q + [ts[j].c])[..|p|] == q && (p + [c])[..|p|] == p;
      assert (q + [ts[j].c])[|p|] == c;
    }
  }

  /** A new youngest child keeps the shape. */
  lemma AddChild(ts: seq<TNode>, v: View, ni: nat, c: Byte) returns (u: View)
    requires Shaped(ts, v) && ni < |ts| && v.path[ni] + [c] !in v.at
    ensures var us := ts[ni := ts[ni].(child := |ts|)] + [TNode(-1, ts[ni].child, c, None)];
            && Shaped(us, u) && Values(us, u) == Values(ts, v)
    ensures u.at == v.at[v.path[ni] + [c] := |ts|]
    ensures u.path == v.path + [v.path[ni] + [c]]
  {
    var us := ts[ni := ts[ni].(child := |ts|)] + [TNode(-1, ts[ni].child, c, None)];
    u := View(v.parent + [ni], v.path + [v.path[ni] + [c]], v.at[v.path[ni] + [c] := |ts|]);
    AddChildChained(ts, v.parent, ni, us);
    AddChildSpelled(ts, v, ni, c);
    AddChildValues(ts, v, ni, c);
  }

  lemma AddChildChained(ts: seq<TNode>, parent: seq<int>, ni: nat, us: seq<TNode>)
    requires |ts| == |parent| && Chained(ts, parent) && ni < |ts|
    requires forall i :: 0 < i < |ts| ==> parent[i] < i
    requires |us| == |ts| + 1 && us[|ts|].child < 0 && us[|ts|].sibling == ts[ni].child
    requires forall i :: 0 <= i < |ts| ==>
               us[i].child == (if i == ni then |ts| else ts[i].child) && us[i].sibling == ts[i].sibling
    ensures Chained(us, parent + [ni])
  {
    var n := |ts|;
    var more := parent + [ni];
    assert ChildOk(ts[ni].child, ni, parent);
    forall i | 0 <= i < |us|
      ensures ChildOk(us[i].child, i, more)
    {
      if i < n {
        assert ChildOk(ts[i].child, i, parent);
      }
    }
    forall i | 0 < i < |us|
      ensures SiblingOk(us[i].sibling, i, more)
    {
      if i < n {
        assert SiblingOk(ts[i].sibling, i, parent);
      }
    }
  }

  lemma AddChildSpelled(ts: seq<TNode>, v: View, ni: nat, c: Byte)
    requires Spelled(ts, v) && ni < |ts| && v.path[ni] + [c] !in v.at
    ensures var us := ts[ni := ts[ni].(child := |ts|)] + [TNode(-1, ts[ni].child, c, None)];
            var u := View(v.parent + [ni], v.path + [v.path[ni] + [c]], v.at[v.path[ni] + [c] := |ts|]);
            Spelled(us, u)
  {
    var us := ts[ni := ts[ni].(child := |ts|)] + [TNode(-1, ts[ni].child, c, None)];
    assert forall i :: 0 <= i < |ts| ==> us[i].c == ts[i].c;
  }

  lemma AddChildValues(ts: seq<TNode>, v: View, ni: nat, c: Byte)
    requires Spelled(ts, v) && ni < |ts| && v.path[ni] + [c] !in v.at
    ensures var us := ts[ni := ts[ni].(child := |ts|)] + [TNode(-1, ts[ni].child, c, None)];
            var u := View(v.parent + [ni], v.path + [v.path[ni] + [c]], v.at[v.path[ni] + [c] := |ts|]);
            (forall p :: p in u.at ==> u.at[p] < |us|) && Values(us, u) == Values(ts, v)
  {
    var p := v.path[ni] + [c];
    var us := ts[ni := ts[ni].(child := |ts|)] + [TNode(-1, ts[ni].child, c, None)];
    assert forall i :: 0 <= i < |ts| ==> us[i].val == ts[i].val;
    assert us[|ts|].val.None?;
  }

  lemma SetValue(ts: seq<TNode>, v: View, ni: nat, val: seq<Byte>)
    requires Shaped(ts, v) && ni < |ts|
    ensures var us := ts[ni := ts[ni].(val := Some(val))];
            Shaped(us, v) && Values(us, v) == Values(ts, v)[v.path[ni] := val]
  {
    hide ChildOk, SiblingOk;
    SetValueShape(ts, v, ni, val);
    var us := ts[ni := ts[ni].(val := Some(val))];
    hide Chained;
    forall p | p in v.at
      ensures us[v.at[p]].val == if p == v.path[ni] then Some(val) else ts[v.at[p]].val
    {
    }
  }

  lemma SetValueShape(ts: seq<TNode>, v: View, ni: nat, val: seq<Byte>)
    requires Shaped(ts, v) && ni < |ts|
    ensures Shaped(ts[ni := ts[ni].(val := Some(val))], v)
  {
    hide ChildOk, SiblingOk;
  }

  // ------------------------------------------------------------- reachable keys

  ghost function Prefixes(key: seq<Byte>): set<seq<Byte>> {
    set i | 0 <= i <= |key| :: key[..i]
  }

  lemma PrefixesStep(key: seq<Byte>, i: nat)
    requires i < |key|
    ensures Prefixes(key[..i + 1]) == Prefixes(key[..i]) + {key[..i + 1]}
    ensures key[..i + 1] == key[..i] + [key[i]]
  {
    var k, l := key[..i], key[..i + 1];
    assert forall j :: 0 <= j <= i ==> l[..j] == k[..j];
    assert l[..i + 1] == l;
    forall p | p in Prefixes(l)
      ensures p in Prefixes(k) + {l}
    {
    }
    forall p | p in Prefixes(k)
      ensures p in Prefixes(l)
    {
      var j :| 0 <= j <= |k| && p == k[..j];
      assert p == l[..j];
    }
  }

  lemma RootFacts(ts: seq<TNode>, v: View, key: seq<Byte>)
    requires Spelled(ts, v)
    ensures |v.path| == |ts| > 0 && v.path[0] == [] == key[..0] && key[..0] in v.at && v.at[key[..0]] == 0
    ensures v.at.Keys == v.at.Keys + Prefixes(key[..0])
  {
    assert v.path[0] in v.at;
  }

  /** A trie has the prefixes of the paths it has. */
  lemma {:induction false} PrefixClosed(ts: seq<TNode>, v: View, p: seq<Byte>, q: seq<Byte>)
    requires Spelled(ts, v) && q in v.at && p <= q
    ensures p in v.at
    decreases |q|
  {
    if p != q {
      var r := q[..|q| - 1];
      assert q == r + [q[|q| - 1]];
      PathUnderParent(ts, v, r, q[|q| - 1]);
      PrefixClosed(ts, v, p, r);
    }
  }

  // -------------------------------------------------------------- searching

  /** The search under `ni` for `c` has come down to `pi`: no younger child matches. */
  ghost predicate Candidate(ts: seq<TNode>, v: View, ni: nat, c: Byte, pi: int) {
    && |ts| == |v.parent| && pi < |ts|
    && (pi >= 0 ==> 0 < pi && v.parent[pi] == ni)
    && forall j :: 0 < j < |ts| && pi < j && v.parent[j] == ni ==> ts[j].c != c
  }

  lemma FirstCandidate(ts: seq<TNode>, v: View, ni: nat, c: Byte)
    requires Shaped(ts, v) && ni < |ts|
    ensures Candidate(ts, v, ni, c, ts[ni].child) && |v.path| == |ts|
  {
    assert ChildOk(ts[ni].child, ni, v.parent);
  }

  lemma NextCandidate(ts: seq<TNode>, v: View, ni: nat, c: Byte, pi: int)
    requires Shaped(ts, v) && ni < |ts| && pi >= 0 && Candidate(ts, v, ni, c, pi)
    ensures ts[pi].c == c ==>
              v.path[ni] + [c] in v.at && v.at[v.path[ni] + [c]] == pi && v.path[pi] == v.path[ni] + [c]
    ensures ts[pi].c != c ==> ts[pi].sibling < pi && Candidate(ts, v, ni, c, ts[pi].sibling)
  {
    assert SiblingOk(ts[pi].sibling, pi, v.parent);
  }

  lemma NoCandidate(ts: seq<TNode>, v: View, ni: nat, c: Byte, pi: int)
    requires Shaped(ts, v) && ni < |ts| && pi < 0 && Candidate(ts, v, ni, c, pi)
    ensures v.path[ni] + [c] !in v.at
  {
    if v.path[ni] + [c] in v.at {
      PathUnderParent(ts, v, v.path[ni], c);
    }
  }

  // --------------------------------------------------------- the C structure

  class TrieMap {
    var n: nat
    var nodes: array<TNode>
    ghost var v: View

    ghost predicate Valid()
      reads this, nodes
    {
      0 < n <= nodes.Length && Shaped(nodes[..n], v)
    }

    ghost function Map(): map<seq<Byte>, seq<Byte>>
      requires Valid()
      reads this, nodes
    {
      Values(nodes[..n], v)
    }

    ghost function Paths(): set<seq<Byte>>
      requires Valid()
      reads this, nodes
    {
      v.at.Keys
    }

    /** The trie of a file without lines: the root alone. */
    constructor ()
      ensures Valid() && fresh(nodes) && Map() == map[] && Paths() == {[]}
    {
      n := 1;
      nodes := new TNode[1024](_ => TNode(-1, -1, 0, None));
      v := View([-1], [[]], map[[] := 0]);
    }

    /** find: the child of `ni` by `c`, -1 when there is none. */
    method Find(ni: nat, c: Byte) returns (pi: int)
      requires Valid() && ni < n
      ensures |v.path| == n > pi
      ensures pi == if v.path[ni] + [c] in v.at then v.at[v.path[ni] + [c]] else -1
      ensures pi >= 0 ==> v.path[pi] == v.path[ni] + [c]
    {
      hide Spelled, Chained, Candidate;
      ghost var ts := nodes[..n];
      FirstCandidate(ts, v, ni, c);
      pi := nodes[ni].child;
      while pi >= 0
        invariant pi < n && Candidate(ts, v, ni, c, pi)
        decreases pi
      {
        NextCandidate(ts, v, ni, c, pi);
        if nodes[pi].c == c {
          return;
        }
        pi := nodes[pi].sibling;
      }
      NoCandidate(ts, v, ni, c, pi);
      pi := -1;
    }

    /** newnode and add: a new youngest child of `ni`. */
    method Add(ni: nat, c: Byte) returns (pi: nat)
      requires Valid() && ni < n && v.path[ni] + [c] !in v.at
      modifies this, nodes
      ensures Valid() && (nodes == old(nodes) || fresh(nodes))
      ensures pi == old(n) && n == pi + 1 && Map() == old(Map())
      ensures v.at == old(v.at)[old(v.path[ni]) + [c] := pi] && v.path == old(v.path) + [old(v.path[ni]) + [c]]
    {
      hide Spelled, Chained, Values;
      ghost var ts := nodes[..n];
      v := AddChild(ts, v, ni, c);
      if n >= nodes.Length {
        Grow();
      }
      pi := n;
      n := n + 1;
      nodes[pi] := TNode(-1, -1, c, None);
      nodes[pi] := nodes[pi].(sibling := nodes[ni].child);
      nodes[ni] := nodes[ni].(child := pi);
      assert nodes[..n] == ts[ni := ts[ni].(child := |ts|)] + [TNode(-1, ts[ni].child, c, None)];
    }

    /** Doubling the capacity keeps every node. */
    method Grow()
      requires 0 < n <= nodes.Length
      modifies this`nodes
      ensures fresh(nodes) && n < nodes.Length && nodes[..n] == old(nodes[..n])
    {
      var bigger := new TNode[2 * nodes.Length](_ => TNode(-1, -1, 0, None));
      forall i | 0 <= i < n {
        bigger[i] := nodes[i];
      }
      nodes := bigger;
    }

    /** insert. */
    method Insert(key: seq<Byte>, val: seq<Byte>)
      requires Valid()
      modifies this, nodes
      ensures Valid() && (nodes == old(nodes) || fresh(nodes))
      ensures Map() == old(Map())[key := val]
      ensures Paths() == old(Paths()) + Prefixes(key)
    {
      hide Spelled, Chained, Values;
      ghost var before := v.at.Keys;
      RootFacts(nodes[..n], v, key);
      var ni := 0;
      var i := 0;
      while i < |key|
        invariant 0 <= i <= |key| && Valid() && (nodes == old(nodes) || fresh(nodes))
        invariant Map() == old(Map())
        invariant 0 <= ni < n == |v.path| && v.path[ni] == key[..i]
        invariant v.at.Keys == before + Prefixes(key[..i])
      {
        var ci := Find(ni, key[i]);
        PrefixesStep(key, i);
        if ci < 0 {
          ci := Add(ni, key[i]);
        }
        ni := ci;
        i := i + 1;
      }
      assert key[..i] == key;
      SetValue(nodes[..n], v, ni, val);
      nodes[ni] := nodes[ni].(val := Some(val));
    }

    /** The walk that trieget and trielookup share: the node of `key`, -1 when it is no path. */
    method Walk(key: seq<Byte>) returns (ni: int)
      requires Valid()
      ensures ni >= 0 <==> key in Paths()
      ensures ni >= 0 ==> ni == v.at[key] < n
    {
      hide Spelled, Chained, Values;
      RootFacts(nodes[..n], v, key);
      ni := 0;
      var i := 0;
      while i < |key|
        invariant 0 <= i <= |key|
        invariant 0 <= ni < n == |v.path| && v.path[ni] == key[..i] && key[..i] in v.at && v.at[key[..i]] == ni
      {
        assert key[..i + 1] == key[..i] + [key[i]];
        ni := Find(ni, key[i]);
        if ni < 0 {
          if key in v.at {
            PrefixClosed(nodes[..n], v, key[..i + 1], key);
          }
          return;
        }
        i := i + 1;
      }
      assert key[..i] == key;
    }

    /** trieget. */
    method Get(key: seq<Byte>) returns (val: Option<seq<Byte>>)
      requires Valid()
      ensures val == if key in Map() then Some(Map()[key]) else None
    {
      var ni := Walk(key);
      val := if ni < 0 then None else nodes[ni].val;
    }

    /** trielookup: whether `key` is a path, and its value when it has one. */
    method Lookup(key: seq<Byte>) returns (found: bool, val: Option<seq<Byte>>)
      requires Valid()
      ensures found <==> key in Paths()
      ensures val == if key in Map() then Some(Map()[key]) else None
    {
      var ni := Walk(key);
      found := ni >= 0;
      val := if ni < 0 then None else nodes[ni].val;
    }
  }

  // ----------------------------------------------------------- runs of inserts

  /** The values after a run of inserts, the last one winning. */
  function AfterInserts(pairs: seq<(seq<Byte>, seq<Byte>)>): map<seq<Byte>, seq<Byte>> {
    if pairs == [] then map[]
    else
      var last := pairs[|pairs| - 1];
      AfterInserts(pairs[..|pairs| - 1])[last.0 := last.1]
  }

  /** A lookup succeeds on the empty string and on the prefixes of inserted keys. */
  ghost predicate IsPath(pairs: seq<(seq<Byte>, seq<Byte>)>, p: seq<Byte>) {
    p == [] || exists i :: 0 <= i < |pairs| && p <= pairs[i].0
  }

  lemma {:induction false} LastInsertWins(pairs: seq<(seq<Byte>, seq<Byte>)>, k: seq<Byte>)
    ensures k in AfterInserts(pairs) <==> exists i :: 0 <= i < |pairs| && pairs[i].0 == k
    ensures forall i :: 0 <= i < |pairs| && pairs[i].0 == k && (forall j :: i < j < |pairs| ==> pairs[j].0 != k) ==>
              AfterInserts(pairs)[k] == pairs[i].1
  {
    if pairs != [] {
      var n := |pairs| - 1;
      LastInsertWins(pairs[..n], k);
      if pairs[n].0 != k && k in AfterInserts(pairs) {
        var i :| 0 <= i < n && pairs[..n][i].0 == k;
        assert pairs[i].0 == k;
      }
    }
  }

  // ---------------------------------------------------------------- map files

  /** What trieopen makes of a line that is not empty: it wants a tab that something follows. */
  function Pair(line: seq<Byte>): Option<(seq<Byte>, seq<Byte>)> {
    var tab := Find(line, TAB);
    if tab >= |line| - 1 then None else Some((line[..tab], line[tab + 1..]))
  }

  /** The pairs of a file, None where trieopen calls a line malformed and dies. */
  function Pairs(lines: seq<seq<Byte>>): Option<seq<(seq<Byte>, seq<Byte>)>> {
    if lines == [] then Some([])
    else
      var n := |lines| - 1;
      var pairs :- Pairs(lines[..n]);
      if lines[n] == [] then Some(pairs)
      else
        var p :- Pair(lines[n]);
        Some(pairs + [p])
  }

  /** A line written for a key and a value is read as them. */
  lemma PairOfLine(key: seq<Byte>, val: seq<Byte>)
    requires TAB !in key && val != []
    ensures Pair(key + [TAB] + val) == Some((key, val))
  {
    var line := key + [TAB] + val;
    FindIs(line, TAB, |key|);
    assert line[..|key|] == key && line[|key| + 1..] == val;
  }

  predicate Malformed(line: seq<Byte>) {
    line != [] && TAB !in line[..|line| - 1]
  }

  /** A file is refused exactly when it has a line without a tab before its last byte. */
  lemma {:induction false} RefusedWhenMalformed(lines: seq<seq<Byte>>)
    ensures Pairs(lines).None? <==> exists i :: 0 <= i < |lines| && Malformed(lines[i])
  {
    if lines != [] {
      var n := |lines| - 1;
      RefusedWhenMalformed(lines[..n]);
      PairOrMalformed(lines[n]);
      hide Malformed, Pair;
      if Pairs(lines[..n]).None? {
        var i :| 0 <= i < n && Malformed(lines[..n][i]);
        assert Malformed(lines[i]);
      } else {
        assert forall i :: 0 <= i < n ==> lines[..n][i] == lines[i];
      }
    }
  }

  lemma PairOrMalformed(line: seq<Byte>)
    ensures Malformed(line) <==> line != [] && Pair(line).None?
  {
    var tab := Find(line, TAB);
    if line != [] && tab < |line| - 1 {
      assert line[..|line| - 1][tab] == TAB;
    }
  }

  /** trieopen, for the lines of the file; None stands for the call of die. */
  method Trieopen(lines: seq<seq<Byte>>) returns (r: Option<TrieMap>)
    ensures r.None? <==> Pairs(lines).None?
    ensures r.Some? ==>
              && fresh(r.value) && fresh(r.value.nodes) && r.value.Valid()
              && r.value.Map() == AfterInserts(Pairs(lines).value)
              && forall p :: p in r.value.Paths() <==> IsPath(Pairs(lines).value, p)
  {
    hide Shaped, Values, Prefixes, IsPath, Pairs, Pair, AfterInserts;
    var t := new TrieMap();
    var i := 0;
    ghost var pairs: seq<(seq<Byte>, seq<Byte>)> := [];
    NoPathsYet();
    NoLines();
    while i < |lines|
      invariant 0 <= i <= |lines| && Pairs(lines[..i]) == Some(pairs)
      invariant fresh(t) && fresh(t.nodes) && t.Valid() && t.Map() == AfterInserts(pairs)
      invariant forall p :: p in t.Paths() <==> IsPath(pairs, p)
    {
      var line := lines[i];
      NextLine(lines, i);
      if line == [] {
        i := i + 1;
        continue;
      }
      var tab := Strchr(line, TAB);
      TabIs(line);
      if tab >= |line| - 1 {
        return None;
      }
      t.Insert(line[..tab], line[tab + 1..]);
      MorePaths(pairs, Pair(line).value);
      i := i + 1;
      pairs := pairs + [Pair(line).value];
    }
    assert lines[..i] == lines;
    r := Some(t);
  }

  lemma NoLines()
    ensures Pairs([]) == Some([]) && AfterInserts([]) == map[]
  {
  }

  lemma TabIs(line: seq<Byte>)
    ensures var tab := Find(line, TAB);
            Pair(line) == if tab >= |line| - 1 then None else Some((line[..tab], line[tab + 1..]))
  {
  }

  lemma NextLine(lines: seq<seq<Byte>>, i: nat)
    requires i < |lines| && Pairs(lines[..i]).Some?
    ensures lines[i] == [] ==> Pairs(lines[..i + 1]) == Pairs(lines[..i])
    ensures lines[i] != [] && Pair(lines[i]).Some? ==>
              Pairs(lines[..i + 1]) == Some(Pairs(lines[..i]).value + [Pair(lines[i]).value])
    ensures lines[i] != [] && Pair(lines[i]).None? ==> Pairs(lines).None?
    decreases |lines|
  {
    hide Pair;
    var more := lines[..i + 1];
    assert more[..i] == lines[..i];
    if lines[i] != [] && Pair(lines[i]).None? {
      StaysRefused(lines, i + 1);
    }
  }

  lemma {:induction false} StaysRefused(lines: seq<seq<Byte>>, i: nat)
    requires i <= |lines| && Pairs(lines[..i]).None?
    ensures Pairs(lines).None?
  {
    hide Pair;
    if i == |lines| {
      assert lines[..i] == lines;
    } else {
      assert lines[..|lines| - 1][..i] == lines[..i];
      StaysRefused(lines[..|lines| - 1], i);
    }
  }

  lemma NoPathsYet()
    ensures forall p :: p in {[]} <==> IsPath([], p)
  {
  }

  lemma MorePaths(pairs: seq<(seq<Byte>, seq<Byte>)>, last: (seq<Byte>, seq<Byte>))
    ensures AfterInserts(pairs + [last]) == AfterInserts(pairs)[last.0 := last.1]
    ensures forall p :: IsPath(pairs + [last], p) <==> IsPath(pairs, p) || p in Prefixes(last.0)
  {
    var more := pairs + [last];
    assert more[..|pairs|] == pairs;
    forall p
      ensures IsPath(more, p) <==> IsPath(pairs, p) || p in Prefixes(last.0)
    {
      if p <= last.0 {
        assert p == last.0[..|p|];
        assert more[|pairs|] == last;
      }
      if IsPath(pairs, p) && p != [] {
        var j :| 0 <= j < |pairs| && p <= pairs[j].0;
        assert p <= more[j].0;
      }
    }
  }
}
