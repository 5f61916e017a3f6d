/**
 Input-context ids of one XIM client (imdkit.c): a 16-bit counter that wraps around, the
 uthash table of live contexts, and the list of freed contexts, linked through the same
 `next` field that the table uses for live ones.
 */
module IcIds {
  import opened Uthash

  const MAX_ID: nat := 65535

  // --------------------------------------------------------- ids as sequences

  ghost predicate NoRepeat(s: seq<nat>) {
    forall i, j :: 0 <= i < j < |s| ==> s[i] != s[j]
  }

  /** The ids handed out so far. */
  ghost predicate Issued(id: nat, counter: nat, wrapped: bool) {
    1 <= id <= if wrapped then MAX_ID else counter
  }

  /** Live and free ids together are the issued ones, each exactly once. */
  ghost predicate IdsOk(live: seq<nat>, free: seq<nat>, counter: nat, wrapped: bool) {
    && counter <= MAX_ID && NoRepeat(live + free)
    && (forall id :: id in live + free <==> Issued(id, counter, wrapped))
  }

  function NextCounter(counter: nat): nat
    requires counter <= MAX_ID
  {
    if counter == MAX_ID then 1 else counter + 1
  }

  lemma Reuse(live: seq<nat>, free: seq<nat>, counter: nat, wrapped: bool)
    requires IdsOk(live, free, counter, wrapped) && free != []
    ensures free[0] !in live && 1 <= free[0] <= MAX_ID
    ensures IdsOk(live + [free[0]], free[1..], counter, wrapped)
  {
    assert live + [free[0]] + free[1..] == live + free;
    assert (live + free)[|live|] == free[0];
    assert Issued(free[0], counter, wrapped);
    forall i | 0 <= i < |live|
      ensures live[i] != free[0]
    {
      assert (live + free)[i] == live[i];
    }
  }

  lemma Fresh(live: seq<nat>, counter: nat, wrapped: bool)
    requires IdsOk(live, [], counter, wrapped) && NextCounter(counter) !in live
    ensures counter < MAX_ID && !wrapped
    ensures IdsOk(live + [NextCounter(counter)], [], NextCounter(counter), wrapped)
  {
    assert live + [] == live;
    assert Issued(NextCounter(counter), counter, wrapped) || (counter < MAX_ID && !wrapped);
  }

  lemma NoneLeft(live: seq<nat>, counter: nat, wrapped: bool)
    requires IdsOk(live, [], counter, wrapped) && NextCounter(counter) in live
    ensures |live| == MAX_ID
    ensures IdsOk(live, [], NextCounter(counter), true)
  {
    assert live + [] == live;
    assert Issued(NextCounter(counter), counter, wrapped);
    assert forall id :: id in live <==> 1 <= id <= MAX_ID;
    ExactlyAll(live, MAX_ID);
  }

  function AllIds(n: nat): set<nat> {
    if n == 0 then {} else AllIds(n - 1) + {n}
  }

  lemma {:induction false} AllIdsAre(n: nat)
    ensures |AllIds(n)| == n && forall id :: id in AllIds(n) <==> 1 <= id <= n
  {
    if n > 0 {
      AllIdsAre(n - 1);
    }
  }

  ghost function Elems(s: seq<nat>): set<nat> {
    set x | x in s
  }

  lemma {:induction false} SetSize(s: seq<nat>)
    requires NoRepeat(s)
    ensures |Elems(s)| == |s|
  {
    if s != [] {
      var t, x := s[..|s| - 1], s[|s| - 1];
      SetSize(t);
      assert x !in t;
      assert Elems(s) == Elems(t) + {x};
    } else {
      assert Elems(s) == {};
    }
  }

  /** Distinct ids that are exactly 1 to n are n in number. */
  lemma ExactlyAll(s: seq<nat>, n: nat)
    requires NoRepeat(s) && forall id :: id in s <==> 1 <= id <= n
    ensures |s| == n
  {
    SetSize(s);
    AllIdsAre(n);
    assert Elems(s) == AllIds(n);
  }

  lemma {:induction false} SubsetSize(a: set<nat>, b: set<nat>)
    requires a <= b
    ensures |a| <= |b|
  {
    if a != {} {
      var x :| x in a;
      SubsetSize(a - {x}, b - {x});
    }
  }

  /** With a free id, not all ids are live. */
  lemma SomeLeft(live: seq<nat>, free: seq<nat>, counter: nat, wrapped: bool)
    requires IdsOk(live, free, counter, wrapped) && free != []
    ensures |live| < MAX_ID
  {
    var all := live + free;
    SetSize(all);
    AllIdsAre(MAX_ID);
    assert forall id :: id in all ==> Issued(id, counter, wrapped);
    SubsetSize(Elems(all), AllIds(MAX_ID));
  }

  lemma Release(live: seq<nat>, free: seq<nat>, counter: nat, wrapped: bool, i: nat)
    requires IdsOk(live, free, counter, wrapped) && i < |live|
    ensures IdsOk(live[..i] + live[i + 1..], [live[i]] + free, counter, wrapped)
  {
    var a, b := live[..i] + live[i + 1..] + ([live[i]] + free), live + free;
    assert forall k :: 0 <= k < |a| ==>
      a[k] == b[if k < i then k else if k < |live| - 1 then k + 1 else if k == |live| - 1 then i else k];
    forall id
      ensures id in a <==> id in b
    {
      if id in b {
        var k :| 0 <= k < |b| && b[k] == id;
        assert a[if k < i then k else if k == i then |live| - 1 else if k < |live| then k - 1 else k] == id;
      }
    }
  }

  /** Live contexts whose ids are not yet used up leave a fresh one next. */
  lemma FailsOnlyWhenFull(live: seq<nat>, counter: nat, wrapped: bool)
    requires IdsOk(live, [], counter, wrapped)
    ensures NextCounter(counter) in live <==> |live| == MAX_ID
  {
    assert live + [] == live;
    if NextCounter(counter) in live {
      NoneLeft(live, counter, wrapped);
    } else {
      Fresh(live, counter, wrapped);
      assert forall id :: id in live <==> 1 <= id <= counter;
      ExactlyAll(live, counter);
    }
  }

  // ------------------------------------------------------------------- runs

  datatype State = State(live: seq<nat>, free: seq<nat>, counter: nat, wrapped: bool)

  datatype Op = Create | Destroy(i: nat)

  ghost predicate Ok(s: State) {
    IdsOk(s.live, s.free, s.counter, s.wrapped)
  }

  /** A create reuses the id freed last; without one it takes the counter's next value and
      fails, leaving the counter moved on, when that id is live. */
  function Step(s: State, op: Op): (t: State)
    requires s.counter <= MAX_ID
    ensures t.counter <= MAX_ID
  {
    match op
    case Create =>
      var next := NextCounter(s.counter);
      if s.free != [] then s.(live := s.live + [s.free[0]], free := s.free[1..])
      else if next in s.live then s.(counter := next, wrapped := true)
      else s.(live := s.live + [next], counter := next)
    case Destroy(i) =>
      if i < |s.live| then s.(live := s.live[..i] + s.live[i + 1..], free := [s.live[i]] + s.free) else s
  }

  lemma StepKeepsIds(s: State, op: Op)
    requires Ok(s)
    ensures Ok(Step(s, op))
    ensures op.Create? ==> (Step(s, op).live == s.live <==> |s.live| == MAX_ID)
  {
    hide IdsOk;
    CounterInRange(s.live, s.free, s.counter, s.wrapped);
    match op {
      case Create =>
        if s.free != [] {
          Reuse(s.live, s.free, s.counter, s.wrapped);
          SomeLeft(s.live, s.free, s.counter, s.wrapped);
        } else {
          FailsOnlyWhenFull(s.live, s.counter, s.wrapped);
          if NextCounter(s.counter) in s.live {
            NoneLeft(s.live, s.counter, s.wrapped);
          } else {
            Fresh(s.live, s.counter, s.wrapped);
          }
        }
      case Destroy(i) =>
        if i < |s.live| {
          Release(s.live, s.free, s.counter, s.wrapped, i);
        }
    }
  }

  lemma Bounded(s: State)
    requires Ok(s)
    ensures s.counter <= MAX_ID
  {
  }

  lemma LiveDistinct(s: State)
    requires Ok(s)
    ensures NoRepeat(s.live) && forall id :: id in s.live ==> 1 <= id <= MAX_ID
  {
    var all := s.live + s.free;
    assert forall i :: 0 <= i < |s.live| ==> all[i] == s.live[i];
    assert forall id :: id in s.live ==> id in all;
    assert forall id :: id in all ==> Issued(id, s.counter, s.wrapped);
  }

  function Run(s: State, ops: seq<Op>): State
    requires s.counter <= MAX_ID
    decreases |ops|
  {
    if ops == [] then s else Run(Step(s, ops[0]), ops[1..])
  }

  /** Over every run of creates and destroys, across the counter's wraparound: the live ids are
      distinct and between 1 and 65535, and with the free ones they are the ids ever issued. */
  lemma {:induction false} RunKeepsIds(s: State, ops: seq<Op>)
    requires Ok(s)
    ensures s.counter <= MAX_ID && Ok(Run(s, ops))
    ensures var t := Run(s, ops); NoRepeat(t.live) && forall id :: id in t.live ==> 1 <= id <= MAX_ID
    decreases |ops|
  {
    hide Step;
    if ops != [] {
      StepKeepsIds(s, ops[0]);
      Bounded(Step(s, ops[0]));
      RunKeepsIds(Step(s, ops[0]), ops[1..]);
    } else {
      LiveDistinct(s);
    }
  }

  /** The id given up last is the next one to be used again. */
  lemma LastFreedFirst(s: State, i: nat)
    requires Ok(s) && i < |s.live|
    ensures s.counter <= MAX_ID
    ensures Step(Step(s, Destroy(i)), Create)
         == s.(live := s.live[..i] + s.live[i + 1..] + [s.live[i]])
  {
    hide IdsOk;
    CounterInRange(s.live, s.free, s.counter, s.wrapped);
    assert ([s.live[i]] + s.free)[1..] == s.free;
  }

  /** Ids that were never given up count up from 1. */
  lemma {:induction false} IdsCountUp(n: nat)
    requires n <= MAX_ID
    ensures Run(State([], [], 0, false), seq(n, _ => Create)) == State(seq(n, k => k + 1), [], n, false)
  {
    CountOn(0, n);
  }

  lemma {:induction false} CountOn(m: nat, n: nat)
    requires m + n <= MAX_ID
    ensures Run(State(seq(m, k => k + 1), [], m, false), seq(n, _ => Create))
         == State(seq(m + n, k => k + 1), [], m + n, false)
    decreases n
  {
    hide Step;
    if n > 0 {
      var ops := seq(n, _ => Create);
      var s := State(seq(m, k => k + 1), [], m, false);
      NextIs(m);
      assert ops[1..] == seq(n - 1, _ => Create);
      CountOn(m + 1, n - 1);
    }
  }

  lemma NextIs(m: nat)
    requires m < MAX_ID
    ensures Step(State(seq(m, k => k + 1), [], m, false), Create) == State(seq(m + 1, k => k + 1), [], m + 1, false)
  {
    var live: seq<nat> := seq(m, k => k + 1);
    assert m + 1 !in live;
    assert live + [m + 1] == seq(m + 1, k => k + 1);
  }

  // -------------------------------------------------------------- the C code

  function IdOf(key: seq<int>): nat {
    if |key| == 1 && 0 <= key[0] then key[0] else 0
  }

  ghost function Ids(s: seq<Item>): (ids: seq<nat>)
    reads s`key
    ensures |ids| == |s| && forall i :: 0 <= i < |s| ==> ids[i] == IdOf(s[i].key)
  {
    if s == [] then [] else Ids(s[..|s| - 1]) + [IdOf(s[|s| - 1].key)]
  }

  class Client {
    /** The live contexts, by id. */
    const contexts: Table
    var icid: nat
    var icFreeList: Item?
    ghost var free: seq<Item>
    ghost var wrapped: bool

    ghost predicate FreeOk()
      reads `free, `icFreeList, free`next
    {
      && icFreeList == At(free, 0) && Distinct(free)
      && forall i :: 0 <= i < |free| ==> free[i].next == At(free, i + 1)
    }

    ghost predicate KeysOk()
      reads `free, contexts`order, contexts.order`key, free`key
    {
      && (forall x :: x in contexts.order ==> |x.key| == 1 && x.key[0] >= 0)
      && (forall x :: x in free ==> |x.key| == 1 && x.key[0] >= 0)
    }

    ghost predicate Valid()
      reads this, contexts, contexts.order, contexts.buckets, free
    {
      && contexts.Valid() && FreeOk() && KeysOk()
      && (forall x :: x in free ==> x !in contexts.order)
      && IdsOk(Ids(contexts.order), Ids(free), icid, wrapped)
    }

    ghost function Abstract(): State
      reads `icid, `free, `wrapped, contexts`order, contexts.order`key, free`key
    {
      State.State(Ids(contexts.order), Ids(free), icid, wrapped)
    }

    constructor (hash: seq<int> -> nat)
      ensures Valid() && fresh(contexts) && contexts.order == [] && free == []
    {
      hide Table.Valid, IdsOk;
      contexts := new Table(hash);
      icid, icFreeList, free, wrapped := 0, null, [], false;
      NothingIssued();
    }

    /** HASH_FIND on the live contexts, in terms of ids. */
    method FindId(id: nat) returns (dup: Item?)
      requires contexts.Valid() && KeysOk()
      ensures dup != null <==> id in Ids(contexts.order)
    {
      hide Table.Valid, Ids;
      dup := contexts.Find([id]);
      ghost var live := Ids(contexts.order);
      if dup != null {
        ghost var i :| 0 <= i < |contexts.order| && contexts.order[i] == dup;
        assert live[i] == id;
      } else {
        forall i | 0 <= i < |live|
          ensures live[i] != id
        {
          assert contexts.order[i].key != [id];
        }
      }
    }

    /** The counter, 0 being skipped when it wraps around. */
    method Advance() returns (id: nat)
      requires icid <= MAX_ID
      modifies `icid
      ensures id == icid == NextCounter(old(icid))
    {
      id := 0;
      while id == 0
        invariant if id == 0 then icid == old(icid) || (icid == 0 && old(icid) == MAX_ID)
                  else id == icid == NextCounter(old(icid))
        invariant icid <= MAX_ID
        decreases if id != 0 then 0 else if icid == MAX_ID then 2 else 1
      {
        icid := (icid + 1) % (MAX_ID + 1);
        id := icid;
      }
    }

    /** memset, after which the id is written back. */
    static method Clear(ic: Item, id: nat)
      modifies ic
      ensures ic.key == [id]
    {
      ic.next, ic.prev, ic.hhNext, ic.hhPrev, ic.hashv := null, null, null, null, 0;
      ic.key := [id];
    }

    method PopFree() returns (ic: Item)
      requires FreeOk() && free != []
      modifies `icFreeList, `free
      ensures FreeOk() && ic == old(free[0]) && free == old(free[1..]) && ic !in free
    {
      hide Distinct;
      DistinctTail(free);
      ic := icFreeList;
      icFreeList := ic.next;
      free := free[1..];
    }

    method TakeFree() returns (ic: Item)
      requires Valid() && free != []
      modifies `icFreeList, `free, free[0]
      ensures ic == old(free[0]) && ic.key == old(ic.key) && free == old(free[1..])
      ensures FreeOk() && KeysOk() && ic !in free && contexts.Valid() && ic !in contexts.order
      ensures forall x :: x in free ==> x !in contexts.order
    {
      hide Table.Valid, IdsOk, Distinct, Ids, At;
      ic := PopFree();
      assert ic in old(free) && ic !in contexts.order;
      label before:
      Clear(ic, IdOf(ic.key));
      assert unchanged@before(contexts, contexts.order, contexts.buckets);
    }

    /** The duplicate that the code calls a bug cannot occur. */
    method FindFree() returns (dup: Item?)
      requires Valid() && free != []
      ensures dup == null
    {
      hide Table.Valid, IdsOk, Distinct, Ids;
      Reuse(Ids(contexts.order), Ids(free), icid, wrapped);
      dup := FindId(IdOf(icFreeList.key));
    }

    /** HASH_ADD; the free contexts stay as they are. */
    method AddOne(ic: Item)
      requires contexts.Valid() && KeysOk() && FreeOk() && |ic.key| == 1 && ic.key[0] >= 0
      requires ic !in contexts.order && ic !in free && forall x :: x in free ==> x !in contexts.order
      modifies contexts, contexts.buckets, ic, contexts.order`next, contexts.order`hhPrev, contexts.order`hhNext
      ensures contexts.Valid() && KeysOk() && FreeOk() && forall x :: x in free ==> x !in contexts.order
      ensures contexts.order == old(contexts.order) + [ic] && ic.key == old(ic.key)
      ensures Ids(contexts.order) == old(Ids(contexts.order)) + [IdOf(ic.key)] && Ids(free) == old(Ids(free))
    {
      hide Table.Valid, Ids, IdOf, Distinct, At;
      contexts.Add(ic, ic.key);
      assert forall x :: x in contexts.order ==> x in old(contexts.order) || x == ic;
      forall i | 0 <= i < |free|
        ensures free[i].next == old(free[i].next)
      {
        assert free[i] in free && free[i] != ic && free[i] !in old(contexts.order);
      }
      assert Ids(contexts.order) == old(Ids(contexts.order)) + [IdOf(ic.key)];
      assert Ids(free) == old(Ids(free));
    }

    /** The first branch of _xcb_im_new_input_context: a freed context comes back with its id. */
    method Revive() returns (ic: Item)
      requires Valid() && free != []
      modifies this, contexts, contexts.buckets, free
      modifies contexts.order`next, contexts.order`hhPrev, contexts.order`hhNext
      ensures Valid() && ic == old(free[0]) && ic.key == old(ic.key) && free == old(free[1..])
      ensures Abstract() == Step(old(Abstract()), Create)
      ensures contexts.order == old(contexts.order) + [ic] && icid == old(icid)
      ensures IdOf(ic.key) !in old(Ids(contexts.order)) && 1 <= IdOf(ic.key) <= MAX_ID
    {
      hide Table.Valid, IdsOk, Distinct, Ids, At, FreeOk, IdOf;
      ghost var live, spare := Ids(contexts.order), Ids(free);
      Reuse(live, spare, icid, wrapped);
      var dup := FindFree();
      ic := TakeFree();
      assert Ids(contexts.order) == live && Ids(free) == spare[1..];
      hide KeysOk;
      AddOne(ic);
    }

    method Issue() returns (ic: Item?)
      requires Valid() && free == []
      modifies this, contexts, contexts.buckets
      modifies contexts.order`next, contexts.order`hhPrev, contexts.order`hhNext
      ensures Valid() && free == [] && icid == NextCounter(old(icid))
      ensures Abstract() == Step(old(Abstract()), Create)
      ensures ic == null <==> |old(contexts.order)| == MAX_ID
      ensures ic == null ==> contexts.order == old(contexts.order)
      ensures ic != null ==> fresh(ic) && contexts.order == old(contexts.order) + [ic] && ic.key == [icid]
      ensures ic != null ==> icid !in old(Ids(contexts.order)) && icid == old(icid) + 1
    {
      hide Table.Valid, IdsOk, Distinct, Ids, At;
      ghost var live := Ids(contexts.order);
      assert Ids(free) == [];
      FailsOnlyWhenFull(live, icid, wrapped);
      CounterInRange(live, [], icid, wrapped);
      ghost var counter := icid;
      var id := Advance();
      var dup := FindId(id);
      if dup != null {
        NoneLeft(live, counter, wrapped);
        wrapped := true;
        return null;
      }
      Fresh(live, counter, wrapped);
      ic := AddNew(id);
    }

    method AddNew(id: nat) returns (ic: Item)
      requires contexts.Valid() && KeysOk() && FreeOk() && free == []
      modifies contexts, contexts.buckets, contexts.order`next, contexts.order`hhPrev, contexts.order`hhNext
      ensures contexts.Valid() && KeysOk() && FreeOk() && fresh(ic) && ic.key == [id]
      ensures contexts.order == old(contexts.order) + [ic] && Ids(contexts.order) == old(Ids(contexts.order)) + [id]
    {
      hide Table.Valid, Ids;
      ic := new Item();
      ic.key := [id];
      AddOne(ic);
    }

    /** _xcb_im_new_input_context: it fails exactly when all 65535 ids are live; otherwise the
        new context has an id that no live one has. */
    method NewInputContext() returns (ic: Item?)
      requires Valid()
      modifies this, contexts, contexts.buckets, free
      modifies contexts.order`next, contexts.order`hhPrev, contexts.order`hhNext
      ensures Valid() && Abstract() == Step(old(Abstract()), Create)
      ensures ic == null <==> |old(contexts.order)| == MAX_ID
      ensures ic == null ==> contexts.order == old(contexts.order) && free == old(free)
      ensures ic != null ==>
                && contexts.order == old(contexts.order) + [ic]
                && IdOf(ic.key) !in old(Ids(contexts.order)) && 1 <= IdOf(ic.key) <= MAX_ID
                && free == (if old(free) == [] then [] else old(free[1..]))
    {
      hide Table.Valid, IdsOk, Distinct, Ids;
      if icFreeList != null {
        SomeLeft(Ids(contexts.order), Ids(free), icid, wrapped);
        ic := Revive();
      } else {
        CounterInRange(Ids(contexts.order), Ids(free), icid, wrapped);
        ic := Issue();
      }
    }

    /** _xcb_im_destroy_ic: the context leaves the table and heads the free list. */
    method DestroyIc(ic: Item, ghost i: nat)
      requires Valid() && i < |contexts.order| && contexts.order[i] == ic
      modifies this, contexts, contexts.buckets, contexts.order`prev, contexts.order`next
      modifies contexts.order`hhPrev, contexts.order`hhNext
      ensures Valid() && free == [ic] + old(free) && contexts.order == Without(old(contexts.order), i)
      ensures ic.key == old(ic.key) && Abstract() == Step(old(Abstract()), Destroy(i))
    {
      hide Table.Valid, IdsOk, Without, Distinct, At, Ids, IdOf;
      ghost var live, spare := Ids(contexts.order), Ids(free);
      ghost var s := contexts.order;
      Release(live, spare, icid, wrapped, i);
      WithoutIds(s, i);
      WithoutSubset(s, i);
      contexts.Delete(ic, i);
      assert ic !in contexts.order;
      label before:
      PushFree(ic);
      assert unchanged@before(contexts, contexts.order, contexts.buckets);
      assert Ids(free) == [live[i]] + spare;
    }

    method PushFree(ic: Item)
      requires FreeOk() && ic !in free
      modifies `icFreeList, `free, ic`next
      ensures FreeOk() && free == [ic] + old(free)
    {
      ic.next := icFreeList;
      icFreeList := ic;
      free := [ic] + free;
    }
  }

  lemma DistinctTail(s: seq<Item>)
    requires Distinct(s) && s != []
    ensures Distinct(s[1..]) && s[0] !in s[1..]
  {
  }

  lemma CounterInRange(live: seq<nat>, free: seq<nat>, counter: nat, wrapped: bool)
    requires IdsOk(live, free, counter, wrapped)
    ensures counter <= MAX_ID
  {
  }

  lemma NothingIssued()
    ensures IdsOk([], [], 0, false)
  {
  }

  lemma WithoutIds(s: seq<Item>, i: nat)
    requires i < |s|
    ensures Ids(Without(s, i)) == Ids(s)[..i] + Ids(s)[i + 1..]
  {
    hide Ids, IdOf, Without;
    WithoutAt(s, i);
    var a, b := Ids(Without(s, i)), Ids(s)[..i] + Ids(s)[i + 1..];
    forall k | 0 <= k < |a|
      ensures a[k] == b[k]
    {
    }
  }

  lemma WithoutSubset(s: seq<Item>, i: nat)
    requires i < |s|
    ensures forall x :: x in Without(s, i) ==> x in s
  {
  }
}
