/**
 The dictionary table of hash.c: a bucket array whose overflow nodes are appended to the same
 growing array and linked by index, 0 ending a chain.

 `Linked` is the shape invariant, a statement about plain sequences; the class below keeps it
 and is proved to act as a finite map. What the table knows of a key is its bucket and its
 bytes; for keys of at most 63 valid runes that is the key itself.
 */
module HashMap {
  import opened Common
  import opened Text

  const HASH_MOD := 0x1_0000_0000_0000_0000

  datatype HNode = HNode(filled: bool, next: nat, key: seq<Byte>, val: seq<Byte>)

  /** hash: 64-bit arithmetic that wraps around. */
  function Hash(s: seq<Rune>): nat {
    if s == [] then 7 else (Hash(s[..|s| - 1]) * 31 + s[|s| - 1]) % HASH_MOD
  }

  /** Keys whose bytes stand for them: other keys lose runes in stoutf or end at a NUL. */
  ghost predicate GoodKey(k: Text) {
    |k| < MAX_RUNES && ValidRunes(k) && forall i :: 0 <= i < |k| ==> k[i] != 0
  }

  /** A C string ends at its first NUL. */
  function CString(b: seq<Byte>): seq<Byte> {
    if b == [] || b[0] == 0 then [] else [b[0]] + CString(b[1..])
  }

  lemma {:induction false} CStringWhole(b: seq<Byte>)
    requires forall i :: 0 <= i < |b| ==> b[i] != 0
    ensures CString(b) == b
  {
    if b != [] {
      CStringWhole(b[1..]);
    }
  }

  lemma Utf8NonZero(r: Rune)
    requires r != 0
    ensures forall i :: 0 <= i < |Utf8(r)| ==> Utf8(r)[i] != 0
  {
  }

  lemma {:induction false} EncodeNonZero(k: seq<Rune>)
    requires forall i :: 0 <= i < |k| ==> k[i] != 0
    ensures forall i :: 0 <= i < |Encode(k)| ==> Encode(k)[i] != 0
  {
    hide Utf8;
    if k != [] {
      Utf8NonZero(k[0]);
      EncodeNonZero(k[1..]);
    }
  }

  lemma {:induction false} FitNonZero(k: seq<Rune>, room: int)
    requires forall i :: 0 <= i < |k| ==> k[i] != 0
    ensures forall i :: 0 <= i < |Fit(k, room)| ==> Fit(k, room)[i] != 0
  {
    hide Utf8;
    if k != [] && room > 0 {
      Utf8NonZero(k[0]);
      FitNonZero(k[1..], room - |Utf8(k[0])|);
    }
  }

  lemma {:induction false} DecodedIsGood(b: seq<Byte>, max: nat)
    requires forall i :: 0 <= i < |b| ==> b[i] != 0
    ensures ValidRunes(Decode(b, max)) && forall i :: 0 <= i < |Decode(b, max)| ==> Decode(b, max)[i] != 0
  {
    if b != [] && max > 0 {
      var (r, len) := CharToRune(b);
      DecodedIsGood(b[len..], max - 1);
    }
  }

  /** A good key is stored whole and found by its bytes alone. */
  lemma KeyBytes(k: Text, j: Text)
    requires GoodKey(k) && GoodKey(j)
    ensures CString(ToUtf(k)) == ToUtf(k)
    ensures ToUtf(k) == ToUtf(j) <==> k == j
  {
    hide ToUtf, Encode, CString;
    ShortTextLossless(k);
    EncodeNonZero(k);
    CStringWhole(Encode(k));
    Utf8RoundTrip(k);
    Utf8RoundTrip(j);
  }

  // ------------------------------------------------------ shape of the table

  /** A bucket and the bytes of a key. */
  type Id = (nat, seq<Byte>)

  /** Ghost view of the nodes in use: the bucket each belongs to, and the first node of a bucket
      that holds some bytes. */
  datatype View = View(home: seq<nat>, at: map<Id, nat>)

  function Bucket(k: Text, nbs: nat): (b: nat)
    requires nbs > 0
    ensures b < nbs
  {
    Hash(k) % nbs
  }

  /** What a key is looked up by, and what is stored for it: the bytes up to a NUL. */
  function Sought(k: Text, nbs: nat): Id
    requires nbs > 0
  {
    (Bucket(k, nbs), ToUtf(k))
  }

  function Stored(k: Text, nbs: nat): Id
    requires nbs > 0
  {
    (Bucket(k, nbs), CString(ToUtf(k)))
  }

  /** Two good keys are the same for the table only when they are the same. */
  lemma SoughtApart(k: Text, j: Text, nbs: nat)
    requires nbs > 0 && GoodKey(k) && GoodKey(j)
    ensures Stored(k, nbs) == Sought(k, nbs) && (Sought(k, nbs) == Sought(j, nbs) <==> k == j)
  {
    hide GoodKey, ToUtf, Bucket;
    KeyBytes(k, j);
  }

  ghost predicate Heads(nbs: nat, ns: seq<HNode>, w: View) {
    && 0 < nbs <= |ns| == |w.home|
    && (forall i :: 0 <= i < nbs ==> w.home[i] == i && (!ns[i].filled ==> ns[i].val == []))
    && (forall i :: nbs <= i < |ns| ==> w.home[i] < nbs && ns[i].filled && ns[w.home[i]].filled)
  }

  /** A link leads to the next node of the same bucket, which lies further on; there is none
      exactly when the link is 0. So chains are acyclic, disjoint, and miss no node. */
  ghost predicate Chained(ns: seq<HNode>, home: seq<nat>)
    requires |ns| == |home|
  {
    forall i :: 0 <= i < |ns| ==> LinkOk(ns[i].next, i, home)
  }

  ghost predicate LinkOk(next: nat, i: nat, home: seq<nat>)
    requires i < |home|
  {
    if next == 0 then forall j :: i < j < |home| ==> home[j] != home[i]
    else
      && i < next < |home| && home[next] == home[i]
      && forall j :: i < j < next ==> home[j] != home[i]
  }

  ghost predicate NodeFound(n: HNode, home: nat, i: nat, at: map<Id, nat>) {
    n.filled ==> (home, n.key) in at && at[(home, n.key)] <= i
  }

  ghost predicate IdHeld(ns: seq<HNode>, home: seq<nat>, id: Id, i: nat)
    requires |ns| == |home|
  {
    i < |ns| && ns[i].filled && home[i] == id.0 && ns[i].key == id.1
  }

  ghost predicate Placed(ns: seq<HNode>, w: View)
    requires |ns| == |w.home|
  {
    && (forall i :: 0 <= i < |ns| ==> NodeFound(ns[i], w.home[i], i, w.at))
    && (forall id :: id in w.at ==> IdHeld(ns, w.home, id, w.at[id]))
  }

  ghost predicate Linked(nbs: nat, ns: seq<HNode>, w: View) {
    Heads(nbs, ns, w) && Chained(ns, w.home) && Placed(ns, w)
  }

  /** The finite map that the nodes stand for. */
  ghost function Contents(ns: seq<HNode>, w: View): map<Id, seq<Byte>>
    requires forall id :: id in w.at ==> w.at[id] < |ns|
  {
    map id | id in w.at :: ns[w.at[id]].val
  }

  // ---------------------------------------------------------------- changes

  /** Filling the empty head of a bucket. */
  lemma FillHead(nbs: nat, ns: seq<HNode>, w: View, b: nat, key: seq<Byte>, val: seq<Byte>) returns (u: View)
    requires Linked(nbs, ns, w) && b < nbs && !ns[b].filled
    ensures forall id: Id :: id.0 == b ==> id !in w.at
    ensures var ms := ns[b := HNode(true, ns[b].next, key, val)];
            && Linked(nbs, ms, u) && Contents(ms, u) == Contents(ns, w)[(b, key) := val]
  {
    hide LinkOk, NodeFound;
    u := View(w.home, w.at[(b, key) := b]);
    var ms := ns[b := HNode(true, ns[b].next, key, val)];
    NothingInEmptyBucket(nbs, ns, w, b);
    assert Heads(nbs, ms, u);
    FillPlaced(nbs, ns, w, b, key, val);
    assert Contents(ms, u) == Contents(ns, w)[(b, key) := val];
  }

  lemma FillPlaced(nbs: nat, ns: seq<HNode>, w: View, b: nat, key: seq<Byte>, val: seq<Byte>)
    requires Linked(nbs, ns, w) && b < nbs && !ns[b].filled
    ensures Placed(ns[b := HNode(true, ns[b].next, key, val)], View(w.home, w.at[(b, key) := b]))
  {
    hide LinkOk, Chained;
    var u, ms := View(w.home, w.at[(b, key) := b]), ns[b := HNode(true, ns[b].next, key, val)];
    NothingInEmptyBucket(nbs, ns, w, b);
    forall i | 0 <= i < |ms|
      ensures NodeFound(ms[i], u.home[i], i, u.at)
    {
      assert NodeFound(ns[i], w.home[i], i, w.at);
    }
    forall d | d in u.at
      ensures IdHeld(ms, u.home, d, u.at[d])
    {
      if d in w.at {
        assert IdHeld(ns, w.home, d, w.at[d]);
      }
    }
  }

  lemma NothingInEmptyBucket(nbs: nat, ns: seq<HNode>, w: View, b: nat)
    requires Linked(nbs, ns, w) && b < nbs && !ns[b].filled
    ensures forall id: Id :: id.0 == b ==> id !in w.at
    ensures forall j :: 0 <= j < |ns| && w.home[j] == b ==> j == b
  {
    forall id: Id | id in w.at
      ensures id.0 != b
    {
      assert IdHeld(ns, w.home, id, w.at[id]);
    }
  }

  lemma HeldOnce(ns: seq<HNode>, home: seq<nat>, d: Id, id: Id, i: nat)
    requires |ns| == |home| && IdHeld(ns, home, d, i) && IdHeld(ns, home, id, i)
    ensures d == id
  {
  }

  function WithVal(ns: seq<HNode>, i: nat, val: seq<Byte>): (ms: seq<HNode>)
    requires i < |ns|
    ensures |ms| == |ns| && ms[i] == ns[i].(val := val)
    ensures forall j :: 0 <= j < |ns| && j != i ==> ms[j] == ns[j]
  {
    ns[i := ns[i].(val := val)]
  }

  /** Overwriting the value of stored bytes. */
  lemma ReplaceValue(nbs: nat, ns: seq<HNode>, w: View, id: Id, val: seq<Byte>)
    requires Linked(nbs, ns, w) && id in w.at
    ensures w.at[id] < |ns|
    ensures var ms := WithVal(ns, w.at[id], val);
            && Contents(ns, w)[id] == ns[w.at[id]].val
            && Linked(nbs, ms, w) && Contents(ms, w) == Contents(ns, w)[id := val]
  {
    hide LinkOk, NodeFound, Contents, WithVal, Heads, Chained;
    Sizes(nbs, ns, w);
    assert IdHeld(ns, w.home, id, w.at[id]);
    var ms := WithVal(ns, w.at[id], val);
    SameHeads(nbs, ns, ms, w);
    SamePlaces(ns, ms, w);
    ReplaceContents(ns, w, id, val);
  }

  lemma Sizes(nbs: nat, ns: seq<HNode>, w: View)
    requires Linked(nbs, ns, w)
    ensures 0 < nbs <= |ns| == |w.home|
  {
  }

  lemma SameHeads(nbs: nat, ns: seq<HNode>, ms: seq<HNode>, w: View)
    requires Heads(nbs, ns, w) && Chained(ns, w.home) && |ms| == |ns|
    requires forall i :: 0 <= i < |ns| ==>
               && ms[i].filled == ns[i].filled && ms[i].next == ns[i].next
               && (!ns[i].filled ==> ms[i].val == ns[i].val)
    ensures Heads(nbs, ms, w) && Chained(ms, w.home)
  {
    hide LinkOk;
  }

  lemma ReplaceContents(ns: seq<HNode>, w: View, id: Id, val: seq<Byte>)
    requires |ns| == |w.home| && Placed(ns, w) && id in w.at && w.at[id] < |ns|
    requires forall d :: d in w.at ==> w.at[d] < |ns|
    ensures Contents(WithVal(ns, w.at[id], val), w) == Contents(ns, w)[id := val]
    ensures Contents(ns, w)[id] == ns[w.at[id]].val
  {
    hide IdHeld, NodeFound, WithVal;
    var i := w.at[id];
    forall d | d in w.at && d != id
      ensures w.at[d] != i
    {
      assert IdHeld(ns, w.home, d, w.at[d]) && IdHeld(ns, w.home, id, i);
      if w.at[d] == i {
        HeldOnce(ns, w.home, d, id, i);
      }
    }
    assert Contents(WithVal(ns, i, val), w) == Contents(ns, w)[id := val];
  }

  lemma SamePlaces(ns: seq<HNode>, ms: seq<HNode>, w: View)
    requires |ms| == |ns| == |w.home| && Placed(ns, w)
    requires forall i :: 0 <= i < |ns| ==> ms[i].filled == ns[i].filled && ms[i].key == ns[i].key
    ensures Placed(ms, w) && forall id :: id in w.at ==> w.at[id] < |ns|
  {
    forall i | 0 <= i < |ms|
      ensures NodeFound(ms[i], w.home[i], i, w.at)
    {
      assert NodeFound(ns[i], w.home[i], i, w.at);
    }
    forall id | id in w.at
      ensures IdHeld(ms, w.home, id, w.at[id])
    {
      assert IdHeld(ns, w.home, id, w.at[id]);
    }
  }

  lemma ChainGrows(home: seq<nat>, ns: seq<HNode>, last: nat, ms: seq<HNode>)
    requires |ns| == |home| && Chained(ns, home) && last < |ns| && ns[last].next == 0
    requires |ms| == |ns| + 1 && ms[|ns|].next == 0
    requires forall i :: 0 <= i < |ns| ==> ms[i].next == if i == last then |ns| else ns[i].next
    ensures Chained(ms, home + [home[last]])
  {
    forall i | 0 <= i < |ms|
      ensures LinkOk(ms[i].next, i, home + [home[last]])
    {
      assert LinkOk(0, last, home);
      if i < |ns| {
        assert LinkOk(ns[i].next, i, home);
      }
    }
  }

  function Appended(ns: seq<HNode>, last: nat, key: seq<Byte>, val: seq<Byte>): (ms: seq<HNode>)
    requires last < |ns|
    ensures |ms| == |ns| + 1 && ms[|ns|] == HNode(true, 0, key, val)
    ensures forall i :: 0 <= i < |ns| ==> ms[i] == if i == last then ns[i].(next := |ns|) else ns[i]
  {
    ns[last := ns[last].(next := |ns|)] + [HNode(true, 0, key, val)]
  }

  function Extended(w: View, b: nat, key: seq<Byte>, n: nat): View {
    View(w.home + [b], if (b, key) in w.at then w.at else w.at[(b, key) := n])
  }

  /** Linking a new node after the last one of a chain: it counts when its bytes are new there. */
  lemma AppendNode(nbs: nat, ns: seq<HNode>, w: View, last: nat, key: seq<Byte>, val: seq<Byte>) returns (u: View)
    requires Linked(nbs, ns, w) && last < |ns| && ns[last].filled && ns[last].next == 0
    ensures var ms, id := Appended(ns, last, key, val), (w.home[last], key);
            && Linked(nbs, ms, u)
            && Contents(ms, u) == if id in w.at then Contents(ns, w) else Contents(ns, w)[id := val]
  {
    hide Chained, Placed, Appended;
    u := Extended(w, w.home[last], key, |ns|);
    ChainGrows(w.home, ns, last, Appended(ns, last, key, val));
    InTable(nbs, ns, w);
    AppendPlaced(ns, w, last, key, val);
  }

  lemma InTable(nbs: nat, ns: seq<HNode>, w: View)
    requires Linked(nbs, ns, w)
    ensures forall id :: id in w.at ==> w.at[id] < |ns|
  {
    forall id | id in w.at
      ensures w.at[id] < |ns|
    {
      assert IdHeld(ns, w.home, id, w.at[id]);
    }
  }

  lemma AppendPlaced(ns: seq<HNode>, w: View, last: nat, key: seq<Byte>, val: seq<Byte>)
    requires |ns| == |w.home| && Placed(ns, w) && last < |ns| && forall id :: id in w.at ==> w.at[id] < |ns|
    ensures var u, ms, id := Extended(w, w.home[last], key, |ns|), Appended(ns, last, key, val), (w.home[last], key);
            && |ms| == |u.home| && Placed(ms, u)
            && Contents(ms, u) == if id in w.at then Contents(ns, w) else Contents(ns, w)[id := val]
  {
    hide LinkOk, Chained, Appended;
    var u, ms, id := Extended(w, w.home[last], key, |ns|), Appended(ns, last, key, val), (w.home[last], key);
    forall i | 0 <= i < |ms|
      ensures NodeFound(ms[i], u.home[i], i, u.at)
    {
      if i < |ns| {
        assert NodeFound(ns[i], w.home[i], i, w.at);
      } else {
        assert id in w.at ==> IdHeld(ns, w.home, id, w.at[id]);
      }
    }
    forall d | d in u.at
      ensures IdHeld(ms, u.home, d, u.at[d])
      ensures d in w.at ==> u.at[d] == w.at[d] && ms[u.at[d]].val == ns[w.at[d]].val
    {
      if d in w.at {
        assert IdHeld(ns, w.home, d, w.at[d]);
      }
    }
    assert Contents(ms, u) == if id in w.at then Contents(ns, w) else Contents(ns, w)[id := val];
  }

  // ----------------------------------------------------------------- lookup

  /** Node `i` is on the chain of `id`, and no earlier node of the chain holds its bytes. */
  ghost predicate OnTheWay(ns: seq<HNode>, w: View, id: Id, i: nat)
    requires |ns| == |w.home|
  {
    && i < |ns| && w.home[i] == id.0
    && (id in w.at ==> i <= w.at[id])
  }

  lemma StartOfChain(nbs: nat, ns: seq<HNode>, w: View, id: Id)
    requires Linked(nbs, ns, w) && id.0 < nbs
    ensures OnTheWay(ns, w, id, id.0)
  {
    hide LinkOk;
  }

  /** One step along the chain: the node holds the bytes, or they lie behind its link, or the
      bucket does not hold them. */
  lemma AlongChain(nbs: nat, ns: seq<HNode>, w: View, id: Id, i: nat)
    requires Linked(nbs, ns, w) && OnTheWay(ns, w, id, i)
    ensures ns[i].filled && ns[i].key == id.1 <==> id in w.at && w.at[id] == i
    ensures !(ns[i].filled && ns[i].key == id.1) && ns[i].next != 0 ==>
              i < ns[i].next && OnTheWay(ns, w, id, ns[i].next) && ns[i].filled
    ensures !(ns[i].filled && ns[i].key == id.1) && ns[i].next == 0 ==> id !in w.at
    ensures !ns[i].filled ==> i == id.0 && i < nbs && ns[i].val == []
  {
    assert LinkOk(ns[i].next, i, w.home);
    hide LinkOk;
    assert LinkOk(ns[i].next, i, w.home);
    LinkMeans(ns[i].next, i, w.home);
  }

  lemma LinkMeans(next: nat, i: nat, home: seq<nat>)
    requires i < |home| && LinkOk(next, i, home)
    ensures next == 0 ==> forall j :: i < j < |home| ==> home[j] != home[i]
    ensures next != 0 ==> i < next < |home| && home[next] == home[i] && forall j :: i < j < next ==> home[j] != home[i]
  {
  }

  // ---------------------------------------------------- the C structure

  function Power31(n: nat): nat {
    if n == 0 then 1 else 31 * Power31(n - 1)
  }

  /** The terms of the first `k` runes of `s` in the polynomial. */
  ghost function Terms(s: seq<Rune>, k: nat): nat
    requires k <= |s|
  {
    if k == 0 then 0 else Terms(s, k - 1) + s[k - 1] * Power31(|s| - k)
  }

  lemma {:induction false} TermsShift(s: seq<Rune>, c: Rune, k: nat)
    requires k <= |s|
    ensures Terms(s + [c], k) == 31 * Terms(s, k)
  {
    if k > 0 {
      TermsShift(s, c, k - 1);
      var p, q := Power31(|s| - k), Power31(|s| + 1 - k);
      assert q == 31 * p;
      assert s[k - 1] * (31 * p) == 31 * (s[k - 1] * p);
    }
  }

  lemma ModStep(a: nat, c: nat)
    ensures (a % HASH_MOD * 31 + c) % HASH_MOD == (a * 31 + c) % HASH_MOD
  {
    var q := a / HASH_MOD;
    assert a * 31 + c == (a % HASH_MOD * 31 + c) + HASH_MOD * (31 * q);
    ModMultiple(a % HASH_MOD * 31 + c, 31 * q);
  }

  lemma ModMultiple(x: nat, q: nat)
    ensures (x + HASH_MOD * q) % HASH_MOD == x % HASH_MOD
  {
  }

  /** The hash is the polynomial in 31 with 7 for the highest coefficient and the runes for the others,
      in 64 bits. */
  lemma {:induction false} HashIsPolynomial(s: seq<Rune>)
    ensures Hash(s) == (7 * Power31(|s|) + Terms(s, |s|)) % HASH_MOD
  {
    hide Terms;
    if s == [] {
      assert Terms(s, 0) == 0 by {
        NoTerms(s);
      }
    } else {
      var n := |s| - 1;
      var r, c := s[..n], s[n];
      HashIsPolynomial(r);
      TermsShift(r, c, n);
      assert r + [c] == s;
      LastTerm(s);
      ModStep(7 * Power31(n) + Terms(r, n), c);
    }
  }

  lemma NoTerms(s: seq<Rune>)
    ensures Terms(s, 0) == 0
  {
  }

  lemma LastTerm(s: seq<Rune>)
    requires s != []
    ensures Terms(s, |s|) == Terms(s, |s| - 1) + s[|s| - 1]
  {
  }

  method ComputeHash(s: Text) returns (h: nat)
    ensures h == Hash(s)
  {
    h := 7;
    var i := 0;
    while i < |s|
      invariant 0 <= i <= |s| && h == Hash(s[..i])
    {
      assert s[..i + 1][..i] == s[..i];
      h := (h * 31 + s[i]) % HASH_MOD;
      i := i + 1;
    }
    assert s[..i] == s;
  }

  /** What a table holds after a key is set: an empty value leaves the old one in place. Bytes
      that are there can be set again only by a key that is looked up by them. */
  function Updated(m: map<Id, seq<Byte>>, k: Text, val: Text, nbs: nat): map<Id, seq<Byte>>
    requires nbs > 0
  {
    var bytes := if val != [] then CString(ToUtf(val)) else [];
    if Sought(k, nbs) in m then (if val != [] then m[Sought(k, nbs) := bytes] else m)
    else if Stored(k, nbs) in m then m
    else m[Stored(k, nbs) := bytes]
  }

  /** What a run of sets leaves in an empty table. */
  function AfterSets(sets: seq<(Text, Text)>, nbs: nat): map<Id, seq<Byte>>
    requires nbs > 0
  {
    if sets == [] then map[]
    else
      var last := sets[|sets| - 1];
      Updated(AfterSets(sets[..|sets| - 1], nbs), last.0, last.1, nbs)
  }

  /** The key is looked up by the bytes that are stored for it. */
  predicate NulFree(k: Text) {
    CString(ToUtf(k)) == ToUtf(k)
  }

  lemma ReadKeyIsNulFree(b: seq<Byte>)
    requires forall i :: 0 <= i < |b| ==> b[i] != 0
    ensures NulFree(FromUtf(b))
  {
    hide Fit, Decode, CString;
    DecodedIsGood(b, MAX_RUNES);
    FitNonZero(FromUtf(b), 256 - UTF_MAX);
    CStringWhole(ToUtf(FromUtf(b)));
  }

  lemma {:induction false} CStringTwice(b: seq<Byte>)
    ensures CString(CString(b)) == CString(b)
  {
    if b != [] && b[0] != 0 {
      CStringTwice(b[1..]);
      assert CString(b)[1..] == CString(b[1..]);
    }
  }

  /** No set makes a key with a NUL one that is found. */
  lemma {:induction false} NulNeverFound(sets: seq<(Text, Text)>, k: Text, nbs: nat)
    requires nbs > 0 && !NulFree(k)
    ensures Sought(k, nbs) !in AfterSets(sets, nbs)
  {
    hide CString, ToUtf, Bucket;
    if sets != [] {
      var last := sets[|sets| - 1];
      NulNeverFound(sets[..|sets| - 1], k, nbs);
      CStringTwice(ToUtf(last.0));
    }
  }

  /** The position of the set that decides the value of `k`: the last non-empty one, -1 when
      there is none. */
  function Decider(sets: seq<(Text, Text)>, k: Text, nbs: nat): (i: int)
    requires nbs > 0
    ensures -1 <= i < |sets|
    ensures i >= 0 ==> Sought(sets[i].0, nbs) == Sought(k, nbs) && sets[i].1 != []
    ensures forall j :: i < j < |sets| && Sought(sets[j].0, nbs) == Sought(k, nbs) ==> sets[j].1 == []
  {
    hide Sought;
    if sets == [] then -1
    else
      var n := |sets| - 1;
      assert forall j :: 0 <= j < n ==> sets[j] == sets[..n][j];
      if Sought(sets[n].0, nbs) == Sought(k, nbs) && sets[n].1 != [] then n else Decider(sets[..n], k, nbs)
  }

  /** A key is there exactly when it was set; the last non-empty value wins. */
  lemma {:induction false} LastNonEmptyWins(sets: seq<(Text, Text)>, k: Text, nbs: nat)
    requires nbs > 0 && forall i :: 0 <= i < |sets| ==> NulFree(sets[i].0)
    ensures var id, m := Sought(k, nbs), AfterSets(sets, nbs);
            && (id in m <==> exists i :: 0 <= i < |sets| && Sought(sets[i].0, nbs) == id)
            && (id in m ==> m[id] == var d := Decider(sets, k, nbs); if d < 0 then [] else CString(ToUtf(sets[d].1)))
  {
    hide CString, ToUtf, Bucket;
    if sets != [] {
      var n := |sets| - 1;
      LastNonEmptyWins(sets[..n], k, nbs);
      assert Stored(sets[n].0, nbs) == Sought(sets[n].0, nbs);
      if Sought(sets[n].0, nbs) != Sought(k, nbs) && Sought(k, nbs) in AfterSets(sets, nbs) {
        var i :| 0 <= i < |sets[..n]| && Sought(sets[..n][i].0, nbs) == Sought(k, nbs);
        assert Sought(sets[i].0, nbs) == Sought(k, nbs);
      }
    }
  }

  class HMap {
    const nbs: nat
    var len: nat
    var nodes: array<HNode>
    ghost var w: View

    ghost predicate Valid()
      reads this, nodes
    {
      len <= nodes.Length && Linked(nbs, nodes[..len], w)
    }

    ghost function Map(): map<Id, seq<Byte>>
      requires Valid()
      reads this, nodes
    {
      Contents(nodes[..len], w)
    }

    /** hmapalloc. */
    constructor (nbuckets: nat)
      requires nbuckets > 0
      ensures Valid() && fresh(nodes) && Map() == map[] && nbs == nbuckets
    {
      nbs, len := nbuckets, nbuckets;
      nodes := new HNode[nbuckets](_ => HNode(false, 0, [], []));
      w := View(seq(nbuckets, i => i), map[]);
    }

    /** hmapget. */
    method Get(k: Text) returns (r: Option<seq<Byte>>)
      requires Valid()
      ensures var id := Sought(k, nbs); r == if id in Map() then Some(Map()[id]) else None
    {
      hide ToUtf, Hash, Chained, Placed;
      var h := ComputeHash(k);
      var i := h % nbs;
      ghost var id := Sought(k, nbs);
      StartOfChain(nbs, nodes[..len], w, id);
      while true
        invariant i < len && OnTheWay(nodes[..len], w, id, i)
        decreases len - i
      {
        AlongChain(nbs, nodes[..len], w, id, i);
        if nodes[i].filled && nodes[i].key == ToUtf(k) {
          return Some(nodes[i].val);
        }
        if nodes[i].next == 0 {
          return None;
        }
        i := nodes[i].next;
      }
    }

    /** The chain walk of hmapset: to the node of the key, to an empty head, or to the end. */
    method FindSlot(k: Text) returns (i: nat, replace: bool)
      requires Valid()
      ensures i < len && OnTheWay(nodes[..len], w, Sought(k, nbs), i)
      ensures replace <==> !nodes[i].filled || (Sought(k, nbs) in w.at && w.at[Sought(k, nbs)] == i)
      ensures !replace ==> nodes[i].filled && nodes[i].next == 0 && Sought(k, nbs) !in w.at
    {
      hide ToUtf, Hash, Chained, Placed;
      var h := ComputeHash(k);
      i := h % nbs;
      ghost var id := Sought(k, nbs);
      StartOfChain(nbs, nodes[..len], w, id);
      while true
        invariant i < len && OnTheWay(nodes[..len], w, id, i)
        decreases len - i
      {
        AlongChain(nbs, nodes[..len], w, id, i);
        if !nodes[i].filled || nodes[i].key == ToUtf(k) {
          return i, true;
        }
        if nodes[i].next == 0 {
          return i, false;
        }
        i := nodes[i].next;
      }
    }

    /** Doubling the capacity keeps every node. */
    method Grow()
      requires len <= nodes.Length && nodes.Length > 0
      modifies this`nodes
      ensures fresh(nodes) && len < nodes.Length && nodes[..len] == old(nodes[..len])
    {
      var bigger := new HNode[2 * nodes.Length](_ => HNode(false, 0, [], []));
      forall i | 0 <= i < len {
        bigger[i] := nodes[i];
      }
      nodes := bigger;
    }

    /** The label `replace` of hmapset, reached from the walk. */
    method Replace(k: Text, val: Text, i: nat)
      requires Valid() && i < len && OnTheWay(nodes[..len], w, Sought(k, nbs), i)
      requires !nodes[i].filled || (Sought(k, nbs) in w.at && w.at[Sought(k, nbs)] == i)
      modifies this`w, nodes
      ensures Valid() && Map() == Updated(old(Map()), k, val, nbs)
    {
      hide ToUtf, Bucket, Chained, Placed, CString, LinkOk;
      ghost var ns, id := nodes[..len], Sought(k, nbs);
      var n := nodes[i];
      var stored := if val != [] then CString(ToUtf(val)) else n.val;
      if n.filled {
        ReplaceValue(nbs, ns, w, id, stored);
        nodes[i] := HNode(true, n.next, n.key, stored);
        assert nodes[..len] == WithVal(ns, i, stored);
      } else {
        AlongChain(nbs, ns, w, id, i);
        w := FillHead(nbs, ns, w, i, CString(ToUtf(k)), stored);
        nodes[i] := HNode(true, n.next, CString(ToUtf(k)), stored);
        assert nodes[..len] == ns[i := nodes[i]];
      }
    }

    method AppendAfter(k: Text, val: Text, last: nat)
      requires Valid() && last < len && OnTheWay(nodes[..len], w, Sought(k, nbs), last)
      requires nodes[last].filled && nodes[last].next == 0 && Sought(k, nbs) !in w.at
      modifies this, nodes
      ensures Valid() && (nodes == old(nodes) || fresh(nodes))
      ensures Map() == Updated(old(Map()), k, val, nbs)
    {
      hide ToUtf, Bucket, Linked, CString, Appended;
      ghost var ns := nodes[..len];
      Sizes(nbs, ns, w);
      var stored := if val != [] then CString(ToUtf(val)) else [];
      w := AppendNode(nbs, ns, w, last, CString(ToUtf(k)), stored);
      if nodes.Length == len {
        Grow();
      }
      LinkAfter(last, CString(ToUtf(k)), stored);
    }

    method LinkAfter(last: nat, key: seq<Byte>, val: seq<Byte>)
      requires last < len < nodes.Length
      modifies `len, nodes
      ensures len == old(len) + 1 && nodes[..len] == Appended(old(nodes[..len]), last, key, val)
    {
      nodes[last] := nodes[last].(next := len);
      nodes[len] := HNode(true, 0, key, val);
      len := len + 1;
    }

    /** hmapset. */
    method Set(k: Text, val: Text)
      requires Valid()
      modifies this, nodes
      ensures Valid() && (nodes == old(nodes) || fresh(nodes))
      ensures Map() == Updated(old(Map()), k, val, nbs)
    {
      hide ToUtf, Hash, Chained, Placed, CString, Linked;
      var i, replace := FindSlot(k);
      if replace {
        Replace(k, val, i);
      } else {
        AppendAfter(k, val, i);
      }
    }
  }
}
