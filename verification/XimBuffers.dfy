/**
 Reading and writing frames in a buffer, field by field, with the code that gen-proto.py
 prints for each kind of field; `start` is where the frame at hand begins, so that padding is
 found from the position in it. The methods are proved to compute Read and Write, so all
 theorems about those hold of them.
 */
module XimBuffers {
  import opened Common
  import opened Text
  import opened XimWire
  import opened XimFrames

  // --------------------------------------------------------------- readers

  /** A reader that started at `at` with `len` bytes has done what `spec` says: None is *data
      set to NULL, otherwise *data and *len have moved over the bytes used. */
  predicate Agrees(spec: Option<(Val, nat)>, r: Option<Val>, at: nat, len: nat, next: nat, left: nat) {
    match spec
    case None => r.None?
    case Some((v, n)) => r == Some(v) && next == at + n && left == len - n
  }

  lemma Slices(s: seq<Byte>, at: nat, len: nat, i: nat, j: nat)
    requires at + len <= |s| && i <= j <= len
    ensures s[at..at + len][i..j] == s[at + i..at + j]
    ensures s[at..at + len][j..] == s[at + j..at + len]
  {
    var t := s[at..at + len];
    assert forall k :: i <= k < len ==> t[k] == s[at + k];
  }

  method ReadFrame(f: Frame, start: nat, ints: seq<nat>, o: Order, data: array<Byte>, at: nat, len: nat)
    returns (r: Option<Val>, next: nat, left: nat)
    requires start <= at && at + len <= data.Length && WellFormed(f, |ints|)
    ensures Agrees(Read(f, PhaseAt(start, at), ints, o, data[at..at + len]), r, at, len, next, left)
    decreases f, 1
  {
    match f {
      case End => r, next, left := Some(VEnd), at, len;
      case IntField(_, _) => r, next, left := ReadIntField(f, start, ints, o, data, at, len);
      case BytesField(_, _) => r, next, left := ReadBytesField(f, start, ints, o, data, at, len);
      case PadField(_, _) => r, next, left := ReadPadField(f, start, ints, o, data, at, len);
      case ListField(_, _, _, _, _) => r, next, left := ReadListField(f, start, ints, o, data, at, len);
      case SubFrame(_, _) => r, next, left := ReadSubFrame(f, start, ints, o, data, at, len);
    }
  }

  method ReadIntField(f: Frame, start: nat, ints: seq<nat>, o: Order, data: array<Byte>, at: nat, len: nat)
    returns (r: Option<Val>, next: nat, left: nat)
    requires start <= at && f.IntField? && at + len <= data.Length && WellFormed(f, |ints|)
    ensures Agrees(Read(f, PhaseAt(start, at), ints, o, data[at..at + len]), r, at, len, next, left)
    decreases f, 0
  {
    hide GetInt, Shift, Read, PhaseAt;
    ghost var ph := PhaseAt(start, at);
    var w := f.w;
    ShiftOfPosition(start, at, w);
    ReadIsInt(f, ph, ints, o, data[at..at + len]);
    if len < w {
      return None, at, len;
    }
    Slices(data[..], at, len, 0, w);
    var n := GetInt(data[at..at + w], o);
    r, next, left := ReadFrame(f.rest, start, ints + [n], o, data, at + w, len - w);
    r := if r.Some? then Some(VInt(n, r.value)) else None;
  }

  method ReadBytesField(f: Frame, start: nat, ints: seq<nat>, o: Order, data: array<Byte>, at: nat, len: nat)
    returns (r: Option<Val>, next: nat, left: nat)
    requires start <= at && f.BytesField? && at + len <= data.Length && WellFormed(f, |ints|)
    ensures Agrees(Read(f, PhaseAt(start, at), ints, o, data[at..at + len]), r, at, len, next, left)
    decreases f, 0
  {
    hide Shift, PhaseAt;
    var n := ints[f.len];
    ShiftOfPosition(start, at, n);
    if len < n {
      return None, at, len;
    }
    Slices(data[..], at, len, 0, n);
    r, next, left := ReadFrame(f.rest, start, ints, o, data, at + n, len - n);
    r := if r.Some? then Some(VBytes(data[at..at + n], r.value)) else None;
  }

  method ReadPadField(f: Frame, start: nat, ints: seq<nat>, o: Order, data: array<Byte>, at: nat, len: nat)
    returns (r: Option<Val>, next: nat, left: nat)
    requires start <= at && f.PadField? && at + len <= data.Length && WellFormed(f, |ints|)
    ensures Agrees(Read(f, PhaseAt(start, at), ints, o, data[at..at + len]), r, at, len, next, left)
    decreases f, 0
  {
    hide PadLen, Aligned, AlignDiff, PhaseAt;
    var d := AlignDiff(at - start, f.align);
    PhaseOfPosition(start, at, f.align);
    if len < d {
      return None, at, len;
    }
    Slices(data[..], at, len, 0, d);
    r, next, left := ReadFrame(f.rest, start, ints, o, data, at + d, len - d);
  }

  method ReadSubFrame(f: Frame, start: nat, ints: seq<nat>, o: Order, data: array<Byte>, at: nat, len: nat)
    returns (r: Option<Val>, next: nat, left: nat)
    requires start <= at && f.SubFrame? && at + len <= data.Length && WellFormed(f, |ints|)
    ensures Agrees(Read(f, PhaseAt(start, at), ints, o, data[at..at + len]), r, at, len, next, left)
    decreases f, 0
  {
    hide Shift, PhaseAt;
    var sub;
    ShiftOfPosition(at, at, 0);
    sub, next, left := ReadFrame(f.sub, at, [], o, data, at, len);
    if sub.None? {
      return None, at, len;
    }
    var n := next - at;
    Slices(data[..], at, len, 0, n);
    ShiftOfPosition(start, at, n);
    r, next, left := ReadFrame(f.rest, start, ints, o, data, next, left);
    r := if r.Some? then Some(VSub(sub.value, r.value)) else None;
  }

  /** A counted list: its bytes are taken off `left` at once, and the items then count
      `counter` down to zero. */
  lemma ListWellFormed(f: Frame, n: nat)
    requires f.ListField? && WellFormed(f, n)
    ensures WellFormed(f.item, 0) && Productive(f.item) && WellFormed(f.rest, n)
  {
  }

  method ReadListField(f: Frame, start: nat, ints: seq<nat>, o: Order, data: array<Byte>, at: nat, len: nat)
    returns (r: Option<Val>, next: nat, left: nat)
    requires start <= at && f.ListField? && at + len <= data.Length && WellFormed(f, |ints|)
    ensures Agrees(Read(f, PhaseAt(start, at), ints, o, data[at..at + len]), r, at, len, next, left)
    decreases f, 0
  {
    hide GetInt, Shift, PadLen, InBytes, ReadAll, Read, PhaseAt, AlignDiff, WellFormed, Productive;
    ghost var ph, b := PhaseAt(start, at), data[at..at + len];
    ListWellFormed(f, |ints|);
    next, left := at, len;
    var d := f.w + AlignDiff(at + f.w - start, f.align);
    ShiftOfPosition(start, at, f.w);
    PhaseOfPosition(start, at + f.w, f.align);
    ReadListFails(f, ph, ints, o, b, d);
    if len < d {
      return None, at, len;
    }
    Slices(data[..], at, len, 0, f.w);
    var counter := InBytes(GetInt(data[at..at + f.w], o), f.unit);
    if counter > len - d {
      return None, at, len;
    }
    var n := d + counter;
    Slices(data[..], at, len, d, n);
    var items := ReadItems(f.item, o, data, at + d, counter);
    if items.None? {
      return None, at, len;
    }
    ShiftOfPosition(start, at, n);
    r, next, left := ReadFrame(f.rest, start, ints, o, data, at + n, len - n);
    if r.Some? {
      ReadListParts(f, ph, ints, o, b, d, n, items.value, r.value, next - at - n);
    }
    r := if r.Some? then Some(VList(items.value, r.value)) else None;
  }

  method ReadItems(item: Frame, o: Order, data: array<Byte>, at: nat, size: nat) returns (r: Option<seq<Val>>)
    requires at + size <= data.Length && WellFormed(item, 0) && Productive(item)
    ensures r == ReadAll(item, o, data[at..at + size])
    decreases item, 2
  {
    hide ReadAll, Prepend, Read, WellFormed, Productive, PhaseAt;
    ghost var all := data[at..at + size];
    var items: seq<Val> := [];
    var next, counter := at, size;
    PrependNothing(ReadAll(item, o, all));
    while counter != 0
      invariant at <= next && next + counter == at + size
      invariant ReadAll(item, o, all) == Prepend(items, ReadAll(item, o, data[next..next + counter]))
      decreases counter
    {
      ghost var here := data[next..next + counter];
      ReadAllStep(item, o, here, items);
      ShiftOfPosition(next, next, 0);
      var v, after, left := ReadFrame(item, next, [], o, data, next, counter);
      if v.None? {
        return None;
      }
      Slices(data[..], next, counter, 0, after - next);
      items := items + [v.value];
      next, counter := after, left;
    }
    ReadAllNothing(item, o, data[next..next + counter], items);
    r := Some(items);
  }

  function Prepend(items: seq<Val>, more: Option<seq<Val>>): Option<seq<Val>> {
    if more.Some? then Some(items + more.value) else None
  }

  lemma PrependNothing(more: Option<seq<Val>>)
    ensures Prepend([], more) == more
  {
    if more.Some? {
      assert [] + more.value == more.value;
    }
  }

  lemma ReadAllNothing(item: Frame, o: Order, data: seq<Byte>, items: seq<Val>)
    requires data == []
    ensures Prepend(items, ReadAll(item, o, data)) == Some(items)
  {
    assert items + [] == items;
  }

  lemma ReadAllStep(item: Frame, o: Order, data: seq<Byte>, items: seq<Val>)
    requires Productive(item) && data != []
    ensures var r := Read(item, 0, [], o, data);
            if r.None? then Prepend(items, ReadAll(item, o, data)).None?
            else r.value.1 > 0 &&
                 Prepend(items, ReadAll(item, o, data)) ==
                 Prepend(items + [r.value.0], ReadAll(item, o, data[r.value.1..]))
  {
    hide Read, Productive;
    var r := Read(item, 0, [], o, data);
    if r.Some? {
      ReadsSomething(item, o, data);
      var more := ReadAll(item, o, data[r.value.1..]);
      if more.Some? {
        assert items + ([r.value.0] + more.value) == items + [r.value.0] + more.value;
      }
    }
  }

  /** Every list loop makes progress, so it ends. */
  lemma ReadsSomething(item: Frame, o: Order, data: seq<Byte>)
    requires Productive(item) && Read(item, 0, [], o, data).Some?
    ensures Read(item, 0, [], o, data).value.1 > 0
  {
    hide Read, Write, Size, Shape, CountersFit, Productive;
    ReadExact(item, 0, [], o, data);
    ProductiveSize(item, Read(item, 0, [], o, data).value.0, 0, []);
  }

  // --------------------------------------------------------------- writers

  function Overlay(s: seq<Byte>, at: nat, b: seq<Byte>): (r: seq<Byte>)
    requires at + |b| <= |s|
    ensures |r| == |s|
  {
    s[..at] + b + s[at + |b|..]
  }

  /** Two writes in a row are one write of both. */
  lemma OverlayTwice(s: seq<Byte>, at: nat, a: seq<Byte>, b: seq<Byte>)
    requires at + |a| + |b| <= |s|
    ensures Overlay(Overlay(s, at, a), at + |a|, b) == Overlay(s, at, a + b)
    ensures Overlay(s, at, a)[at + |a|..at + |a| + |b|] == s[at + |a|..at + |a| + |b|]
  {
  }

  lemma OverlaySame(s: seq<Byte>, at: nat, n: nat)
    requires at + n <= |s|
    ensures Overlay(s, at, s[at..at + n]) == s
  {
  }

  method WriteFrame(f: Frame, v: Val, start: nat, ghost ints: seq<nat>, o: Order, buf: array<Byte>, at: nat)
    returns (next: nat)
    requires start <= at && Shape(f, v, ints) && at + Size(f, v, PhaseAt(start, at)) <= buf.Length
    modifies buf
    ensures next == at + Size(f, v, PhaseAt(start, at))
    ensures buf[..] == Overlay(old(buf[..]), at, Write(f, v, PhaseAt(start, at), o, old(buf[at..next])))
    decreases f, 1
  {
    match f {
      case End =>
        next := at;
        OverlaySame(buf[..], at, 0);
      case IntField(_, _) => next := WriteIntField(f, v, start, ints, o, buf, at);
      case BytesField(_, _) => next := WriteBytesField(f, v, start, ints, o, buf, at);
      case PadField(_, _) => next := WritePadField(f, v, start, ints, o, buf, at);
      case ListField(_, _, _, _, _) => next := WriteListField(f, v, start, ints, o, buf, at);
      case SubFrame(_, _) => next := WriteSubFrame(f, v, start, ints, o, buf, at);
    }
  }

  method Put(buf: array<Byte>, at: nat, b: seq<Byte>)
    requires at + |b| <= buf.Length
    modifies buf
    ensures buf[..] == Overlay(old(buf[..]), at, b)
  {
    forall k | 0 <= k < |b| {
      buf[at + k] := b[k];
    }
  }

  method WriteIntField(f: Frame, v: Val, start: nat, ghost ints: seq<nat>, o: Order, buf: array<Byte>, at: nat)
    returns (next: nat)
    requires start <= at && f.IntField? && Shape(f, v, ints) && at + Size(f, v, PhaseAt(start, at)) <= buf.Length
    modifies buf
    ensures next == at + Size(f, v, PhaseAt(start, at))
    ensures buf[..] == Overlay(old(buf[..]), at, Write(f, v, PhaseAt(start, at), o, old(buf[at..next])))
    decreases f, 0
  {
    hide PutInt, Shift, Overlay, Limit, PhaseAt, Size, Shape, Write;
    ghost var s, ph := buf[..], PhaseAt(start, at);
    IntParts(f, v, ph, ints);
    var w := f.w;
    ShiftOfPosition(start, at, w);
    var b := PutInt(v.n, w, o);
    Put(buf, at, b);
    ghost var size := Size(f.rest, v.rest, Shift(ph, w));
    ghost var c := Write(f.rest, v.rest, Shift(ph, w), o, s[at + w..at + w + size]);
    OverlayTwice(s, at, b, c);
    assert buf[at + w..at + w + size] == buf[..][at + w..at + w + size];
    next := WriteFrame(f.rest, v.rest, start, ints + [v.n], o, buf, at + w);
    assert s[at..next][w..] == s[at + w..next];
    WriteIntIs(f, v, ph, o, s[at..next]);
  }

  method WriteBytesField(f: Frame, v: Val, start: nat, ghost ints: seq<nat>, o: Order, buf: array<Byte>, at: nat)
    returns (next: nat)
    requires start <= at && f.BytesField? && Shape(f, v, ints) && at + Size(f, v, PhaseAt(start, at)) <= buf.Length
    modifies buf
    ensures next == at + Size(f, v, PhaseAt(start, at))
    ensures buf[..] == Overlay(old(buf[..]), at, Write(f, v, PhaseAt(start, at), o, old(buf[at..next])))
    decreases f, 0
  {
    hide Shift, Overlay, PhaseAt, Size, Shape, Write;
    ghost var s, ph := buf[..], PhaseAt(start, at);
    BytesParts(f, v, ph, ints);
    var n := |v.b|;
    ShiftOfPosition(start, at, n);
    Put(buf, at, v.b);
    ghost var size := Size(f.rest, v.rest, Shift(ph, n));
    ghost var c := Write(f.rest, v.rest, Shift(ph, n), o, s[at + n..at + n + size]);
    OverlayTwice(s, at, v.b, c);
    assert buf[at + n..at + n + size] == buf[..][at + n..at + n + size];
    next := WriteFrame(f.rest, v.rest, start, ints, o, buf, at + n);
    assert s[at..next][n..] == s[at + n..next];
    WriteBytesIs(f, v, ph, o, s[at..next]);
  }

  /** Padding is skipped: the bytes already there stay. */
  method WritePadField(f: Frame, v: Val, start: nat, ghost ints: seq<nat>, o: Order, buf: array<Byte>, at: nat)
    returns (next: nat)
    requires start <= at && f.PadField? && Shape(f, v, ints) && at + Size(f, v, PhaseAt(start, at)) <= buf.Length
    modifies buf
    ensures next == at + Size(f, v, PhaseAt(start, at))
    ensures buf[..] == Overlay(old(buf[..]), at, Write(f, v, PhaseAt(start, at), o, old(buf[at..next])))
    decreases f, 0
  {
    hide PadLen, Aligned, Overlay, Write, Size, Shape, PhaseAt, AlignDiff;
    ghost var s, ph := buf[..], PhaseAt(start, at);
    var d := AlignDiff(at - start, f.align);
    PhaseOfPosition(start, at, f.align);
    PadParts(f, v, ph, ints);
    ghost var size := Size(f.rest, v, Aligned(ph, f.align));
    ghost var c := Write(f.rest, v, Aligned(ph, f.align), o, s[at + d..at + d + size]);
    OverlaySame(s, at, d);
    OverlayTwice(s, at, s[at..at + d], c);
    assert buf[at + d..at + d + size] == s[at + d..at + d + size];
    next := WriteFrame(f.rest, v, start, ints, o, buf, at + d);
    PadUnfolds(f, v, ph, ints, o, s[at..next]);
    assert s[at..next][..d] == s[at..at + d] && s[at..next][d..] == s[at + d..next];
  }

  method WriteSubFrame(f: Frame, v: Val, start: nat, ghost ints: seq<nat>, o: Order, buf: array<Byte>, at: nat)
    returns (next: nat)
    requires start <= at && f.SubFrame? && Shape(f, v, ints) && at + Size(f, v, PhaseAt(start, at)) <= buf.Length
    modifies buf
    ensures next == at + Size(f, v, PhaseAt(start, at))
    ensures buf[..] == Overlay(old(buf[..]), at, Write(f, v, PhaseAt(start, at), o, old(buf[at..next])))
    decreases f, 0
  {
    hide Shift, Overlay, Write, PhaseAt, Size, Shape;
    ghost var s, ph := buf[..], PhaseAt(start, at);
    SubSize(f, v, ph, ints);
    ShiftOfPosition(at, at, 0);
    var m := WriteFrame(f.sub, v.sub, at, [], o, buf, at);
    var n := m - at;
    ShiftOfPosition(start, at, n);
    ghost var b := Write(f.sub, v.sub, 0, o, s[at..m]);
    ghost var size := Size(f.rest, v.rest, Shift(ph, n));
    ghost var c := Write(f.rest, v.rest, Shift(ph, n), o, s[m..m + size]);
    OverlayTwice(s, at, b, c);
    assert buf[m..m + size] == buf[..][m..m + size];
    next := WriteFrame(f.rest, v.rest, start, ints, o, buf, m);
    WriteSubIs(f, v, ph, o, s[at..next]);
    assert s[at..next][..n] == s[at..m] && s[at..next][n..] == s[m..next];
  }

  lemma WriteSubIs(f: Frame, v: Val, ph: Phase, o: Order, under: seq<Byte>)
    requires f.SubFrame? && v.VSub? && |under| == Size(f, v, ph)
    ensures var n := Size(f.sub, v.sub, 0);
            && n <= |under| && |under| - n == Size(f.rest, v.rest, Shift(ph, n))
            && Write(f, v, ph, o, under) ==
               Write(f.sub, v.sub, 0, o, under[..n]) + Write(f.rest, v.rest, Shift(ph, n), o, under[n..])
  {
    hide Shift;
  }

  /** The loop that adds up the sizes of the items. */
  method CountBytes(item: Frame, items: seq<Val>) returns (size: nat)
    ensures size == ListSize(item, items)
  {
    size := 0;
    var i := 0;
    while i < |items|
      invariant 0 <= i <= |items|
      invariant size + ListSize(item, items[i..]) == ListSize(item, items)
    {
      assert items[i..][1..] == items[i + 1..];
      size := size + Size(item, items[i], 0);
      i := i + 1;
    }
  }

  /** The counter and the items of a list, the padding between them untouched. */
  method WriteListHead(f: Frame, items: seq<Val>, start: nat, o: Order, buf: array<Byte>, at: nat) returns (next: nat)
    requires start <= at && f.ListField? && forall i :: 0 <= i < |items| ==> Shape(f.item, items[i], [])
    requires at + f.w + PadLen(Shift(PhaseAt(start, at), f.w), f.align) + ListSize(f.item, items) <= buf.Length
    modifies buf
    ensures next == at + f.w + PadLen(Shift(PhaseAt(start, at), f.w), f.align) + ListSize(f.item, items)
    ensures buf[..] == Overlay(old(buf[..]), at, ListHead(f, items, PhaseAt(start, at), o, old(buf[at..next])))
    decreases f.item, 4
  {
    hide PutInt, Shift, PadLen, InUnits, Overlay, WriteAll, Limit, Write, Truncate, ListSize, PhaseAt, AlignDiff;
    ghost var s := buf[..];
    var size := CountBytes(f.item, items);
    var d := f.w + AlignDiff(at + f.w - start, f.align);
    ShiftOfPosition(start, at, f.w);
    PhaseOfPosition(start, at + f.w, f.align);
    var b := PutInt(Truncate(InUnits(size, f.unit), f.w), f.w, o);
    Put(buf, at, b);
    next := at + d + size;
    HeadOverlay(s, at, b, d, WriteAll(f.item, items, o, s[at + d..next]));
    WriteItems(f.item, items, o, buf, at + d, size);
    SliceParts(s, at, f.w, d, d + size, d + size);
  }

  /** What WriteList puts before the rest of the frame. */
  function ListHead(f: Frame, items: seq<Val>, ph: Phase, o: Order, under: seq<Byte>): (b: seq<Byte>)
    requires f.ListField? && |under| == f.w + PadLen(Shift(ph, f.w), f.align) + ListSize(f.item, items)
    ensures |b| == |under|
  {
    var d := f.w + PadLen(Shift(ph, f.w), f.align);
    PutInt(Truncate(InUnits(|under| - d, f.unit), f.w), f.w, o) + under[f.w..d] + WriteAll(f.item, items, o, under[d..])
  }

  lemma WriteListIsHead(f: Frame, v: Val, ph: Phase, o: Order, under: seq<Byte>, m: nat)
    requires f.ListField? && v.VList? && |under| == Size(f, v, ph)
    requires m == f.w + PadLen(Shift(ph, f.w), f.align) + ListSize(f.item, v.items)
    ensures m <= |under| && |under| - m == Size(f.rest, v.rest, Shift(ph, m))
    ensures Write(f, v, ph, o, under) ==
            ListHead(f, v.items, ph, o, under[..m]) + Write(f.rest, v.rest, Shift(ph, m), o, under[m..])
  {
    hide PutInt, Shift, PadLen, InUnits, WriteAll, Write, Truncate, ListSize, Size;
    var d := f.w + PadLen(Shift(ph, f.w), f.align);
    WriteListIs(f, v, ph, o, under, d, m);
    assert under[..m][f.w..d] == under[f.w..d] && under[..m][d..] == under[d..m];
  }

  method WriteListField(f: Frame, v: Val, start: nat, ghost ints: seq<nat>, o: Order, buf: array<Byte>, at: nat)
    returns (next: nat)
    requires start <= at && f.ListField? && Shape(f, v, ints) && at + Size(f, v, PhaseAt(start, at)) <= buf.Length
    modifies buf
    ensures next == at + Size(f, v, PhaseAt(start, at))
    ensures buf[..] == Overlay(old(buf[..]), at, Write(f, v, PhaseAt(start, at), o, old(buf[at..next])))
    decreases f, 0
  {
    hide Shift, PadLen, Overlay, Write, ListSize, ListHead, Size, Shape, PhaseAt;
    ghost var s, ph := buf[..], PhaseAt(start, at);
    ListShape(f, v, ints);
    ListSizeIs(f, v, ph);
    var k := WriteListHead(f, v.items, start, o, buf, at);
    var m := k - at;
    ShiftOfPosition(start, at, m);
    ghost var head := ListHead(f, v.items, ph, o, s[at..k]);
    ghost var rest := Size(f.rest, v.rest, Shift(ph, m));
    OverlayTwice(s, at, head, Write(f.rest, v.rest, Shift(ph, m), o, s[k..k + rest]));
    assert buf[k..k + rest] == buf[..][k..k + rest];
    next := WriteFrame(f.rest, v.rest, start, ints, o, buf, k);
    WriteListIsHead(f, v, ph, o, s[at..next], m);
    assert s[at..next][..m] == s[at..k] && s[at..next][m..] == s[k..next];
  }

  lemma SliceParts(s: seq<Byte>, at: nat, i: nat, j: nat, k: nat, l: nat)
    requires i <= j <= k <= l && at + l <= |s|
    ensures s[at..at + l][i..j] == s[at + i..at + j] && s[at..at + l][j..k] == s[at + j..at + k]
    ensures s[at..at + l][k..] == s[at + k..at + l]
  {
    Slices(s, at, l, i, j);
    Slices(s, at, l, j, k);
  }

  /** Counter, untouched padding and items make one write. */
  lemma HeadOverlay(s: seq<Byte>, at: nat, b: seq<Byte>, d: nat, c: seq<Byte>)
    requires |b| <= d && at + d + |c| <= |s|
    ensures var t := Overlay(s, at, b);
            && t[at + d..at + d + |c|] == s[at + d..at + d + |c|]
            && Overlay(t, at + d, c) == Overlay(s, at, b + s[at + |b|..at + d] + c)
  {
  }

  /** The buffer was `s`, and the items before the i-th are in it. */
  ghost predicate WrittenTo(item: Frame, items: seq<Val>, o: Order, s: seq<Byte>, now: seq<Byte>,
                            at: nat, next: nat, end: nat, i: nat, written: seq<Byte>)
  {
    && i <= |items| && next == at + |written|
    && next + ListSize(item, items[i..]) == end <= |s| && at + ListSize(item, items) == end
    && written + WriteAll(item, items[i..], o, s[next..end]) == WriteAll(item, items, o, s[at..end])
    && now == Overlay(s, at, written)
  }

  method WriteItem(item: Frame, items: seq<Val>, o: Order, buf: array<Byte>, next: nat, i: nat,
                   ghost s: seq<Byte>, ghost at: nat, ghost end: nat, ghost written: seq<Byte>)
    returns (after: nat, ghost more: seq<Byte>)
    requires i < |items| && Shape(item, items[i], [])
    requires WrittenTo(item, items, o, s, buf[..], at, next, end, i, written)
    modifies buf
    ensures WrittenTo(item, items, o, s, buf[..], at, after, end, i + 1, more)
    decreases item, 2
  {
    hide WriteAll, ListSize, Overlay, Write, Size, Shape, PhaseAt;
    ghost var n := Size(item, items[i], 0);
    ghost var b := ItemStep(item, items, o, s, next, end, i, written);
    OverlayTwice(s, at, written, b);
    assert buf[next..next + n] == buf[..][next..next + n];
    ShiftOfPosition(next, next, 0);
    after := WriteFrame(item, items[i], next, [], o, buf, next);
    more := written + b;
  }

  method WriteItems(item: Frame, items: seq<Val>, o: Order, buf: array<Byte>, at: nat, ghost size: nat)
    requires forall i :: 0 <= i < |items| ==> Shape(item, items[i], [])
    requires size == ListSize(item, items) && at + size <= buf.Length
    modifies buf
    ensures buf[..] == Overlay(old(buf[..]), at, WriteAll(item, items, o, old(buf[at..at + size])))
    decreases item, 3
  {
    hide WriteAll, ListSize, Overlay, Write, Size, Shape;
    ghost var s := buf[..];
    var next, i := at, 0;
    ghost var written: seq<Byte> := [];
    NothingWritten(item, items, o, s, at);
    while i < |items|
      invariant i <= |items| && WrittenTo(item, items, o, s, buf[..], at, next, at + size, i, written)
    {
      hide WrittenTo;
      next, written := WriteItem(item, items, o, buf, next, i, s, at, at + size, written);
      i := i + 1;
    }
    NoItems(item, o, s[next..at + size], items[i..]);
    assert written + [] == written;
  }

  lemma NothingWritten(item: Frame, items: seq<Val>, o: Order, s: seq<Byte>, at: nat)
    requires at + ListSize(item, items) <= |s|
    ensures WrittenTo(item, items, o, s, s, at, at, at + ListSize(item, items), 0, [])
  {
    hide WriteAll, ListSize, Overlay;
    OverlaySame(s, at, 0);
    assert s[at..at + 0] == [] && items[0..] == items;
    var b := WriteAll(item, items, o, s[at..at + ListSize(item, items)]);
    assert [] + b == b;
  }

  lemma ItemStep(item: Frame, items: seq<Val>, o: Order, s: seq<Byte>, next: nat, end: nat, i: nat, written: seq<Byte>)
    returns (b: seq<Byte>)
    requires i < |items| && next + ListSize(item, items[i..]) == end <= |s|
    ensures var n := Size(item, items[i], 0);
            && n <= end - next && next + n + ListSize(item, items[i + 1..]) == end
            && b == Write(item, items[i], 0, o, s[next..next + n])
            && written + WriteAll(item, items[i..], o, s[next..end]) ==
               written + b + WriteAll(item, items[i + 1..], o, s[next + n..end])
  {
    hide Write, Size;
    var n := Size(item, items[i], 0);
    assert items[i..][1..] == items[i + 1..];
    Slices(s, next, end - next, 0, n);
    b := Write(item, items[i], 0, o, s[next..next + n]);
    var c := WriteAll(item, items[i + 1..], o, s[next + n..end]);
    assert written + (b + c) == written + b + c;
  }

  lemma NoItems(item: Frame, o: Order, under: seq<Byte>, items: seq<Val>)
    requires items == [] && |under| == ListSize(item, items)
    ensures WriteAll(item, items, o, under) == []
  {
  }
}
