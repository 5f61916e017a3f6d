/**
 Frames of the X Input Method Protocol, Version 1.0 (sections 4.1 and 4.2), as descriptors.

 gen-proto.py turns a list of attributes per frame into a read, a write and a size function.
 Here such a list is a value of type `Frame`, and Read, Write and Size are what the generated
 C functions of ximproto.c compute for it. All theorems are about every descriptor.
 */
module XimFrames {
  import opened Common
  import opened Text
  import opened XimWire

  type Width = w: nat | IsWidth(w) witness 1

  datatype Frame =
    | End
      /** An unsigned integer of `w` bytes. */
    | IntField(w: Width, rest: Frame)
      /** As many bytes as the integer field number `len` of this frame says. */
    | BytesField(len: nat, rest: Frame)
      /** Skips to a multiple of `align` bytes from the start of this frame. */
    | PadField(align: Width, rest: Frame)
      /** A counter of `w` bytes, padding, and items that fill counter * unit bytes. */
    | ListField(w: Width, unit: Width, align: Width, item: Frame, rest: Frame)
      /** A frame inside this one. */
    | SubFrame(sub: Frame, rest: Frame)

  /** The values of a frame's fields; padding has none. */
  datatype Val =
    | VEnd
    | VInt(n: nat, rest: Val)
    | VBytes(b: seq<Byte>, rest: Val)
    | VList(items: seq<Val>, rest: Val)
    | VSub(sub: Val, rest: Val)

  /** Every value of the frame takes at least one byte. */
  predicate Productive(f: Frame) {
    match f
    case End => false
    case IntField(_, _) => true
    case BytesField(_, rest) => Productive(rest)
    case PadField(_, rest) => Productive(rest)
    case ListField(_, _, _, _, _) => true
    case SubFrame(sub, rest) => Productive(sub) || Productive(rest)
  }

  /** Byte arrays name an earlier integer of the same frame, and no list has empty items;
      `seen` integers come before `f`. */
  predicate WellFormed(f: Frame, seen: nat) {
    match f
    case End => true
    case IntField(_, rest) => WellFormed(rest, seen + 1)
    case BytesField(len, rest) => len < seen && WellFormed(rest, seen)
    case PadField(_, rest) => WellFormed(rest, seen)
    case ListField(_, _, _, item, rest) => Productive(item) && WellFormed(item, 0) && WellFormed(rest, seen)
    case SubFrame(sub, rest) => WellFormed(sub, 0) && WellFormed(rest, seen)
  }

  // ------------------------------------------------------------------ size

  /** The bytes that a list counter stands for, and the counter for so many bytes. */
  function InBytes(counter: nat, unit: Width): nat {
    if unit == 1 then counter else if unit == 2 then counter * 2 else counter * 4
  }

  function InUnits(size: nat, unit: Width): nat {
    if unit == 1 then size else if unit == 2 then size / 2 else size / 4
  }

  /** The bytes that `v` takes when it starts at phase `ph` of its frame. */
  function Size(f: Frame, v: Val, ph: Phase): nat
    decreases f, 0
  {
    match f
    case End => 0
    case IntField(w, rest) => if v.VInt? then w + Size(rest, v.rest, Shift(ph, w)) else 0
    case BytesField(_, rest) => if v.VBytes? then |v.b| + Size(rest, v.rest, Shift(ph, |v.b|)) else 0
    case PadField(align, rest) => PadLen(ph, align) + Size(rest, v, Aligned(ph, align))
    case ListField(w, _, align, item, rest) =>
      if v.VList? then
        var n := w + PadLen(Shift(ph, w), align) + ListSize(item, v.items);
        n + Size(rest, v.rest, Shift(ph, n))
      else 0
    case SubFrame(sub, rest) =>
      if v.VSub? then
        var n := Size(sub, v.sub, 0);
        n + Size(rest, v.rest, Shift(ph, n))
      else 0
  }

  function ListSize(item: Frame, items: seq<Val>): nat
    decreases item, |items| + 1
  {
    if items == [] then 0 else Size(item, items[0], 0) + ListSize(item, items[1..])
  }

  // ----------------------------------------------------------------- shape

  /** `v` can be held by the C structure of frame `f`: integers fit their types and the length
      fields tell the lengths of the byte arrays. `ints` are the integers before `f`. */
  ghost predicate Shape(f: Frame, v: Val, ints: seq<nat>)
    decreases f
  {
    match f
    case End => v.VEnd?
    case IntField(w, rest) => v.VInt? && v.n < Limit(w) && Shape(rest, v.rest, ints + [v.n])
    case BytesField(len, rest) =>
      v.VBytes? && len < |ints| && |v.b| == ints[len] && Shape(rest, v.rest, ints)
    case PadField(_, rest) => Shape(rest, v, ints)
    case ListField(_, unit, _, item, rest) =>
      && v.VList?
      && (forall i :: 0 <= i < |v.items| ==> Shape(item, v.items[i], []))
      && InBytes(InUnits(ListSize(item, v.items), unit), unit) == ListSize(item, v.items)
      && Shape(rest, v.rest, ints)
    case SubFrame(sub, rest) => v.VSub? && Shape(sub, v.sub, []) && Shape(rest, v.rest, ints)
  }

  /** Every list counter of `v` fits its field, also in the frames inside. */
  ghost predicate CountersFit(f: Frame, v: Val)
    decreases f
  {
    match f
    case End => true
    case IntField(_, rest) => v.VInt? && CountersFit(rest, v.rest)
    case BytesField(_, rest) => v.VBytes? && CountersFit(rest, v.rest)
    case PadField(_, rest) => CountersFit(rest, v)
    case ListField(w, unit, _, item, rest) =>
      && v.VList?
      && (forall i :: 0 <= i < |v.items| ==> CountersFit(item, v.items[i]))
      && InUnits(ListSize(item, v.items), unit) < Limit(w)
      && CountersFit(rest, v.rest)
    case SubFrame(sub, rest) => v.VSub? && CountersFit(sub, v.sub) && CountersFit(rest, v.rest)
  }

  ghost predicate Fits(f: Frame, v: Val, ints: seq<nat>) {
    Shape(f, v, ints) && CountersFit(f, v)
  }

  // ----------------------------------------------------------------- write

  /** Conversion to an unsigned type of `w` bytes. */
  function Truncate(n: nat, w: Width): (c: nat)
    ensures c < Limit(w)
    ensures n < Limit(w) ==> c == n
  {
    if w == 1 then n % 0x100 else if w == 2 then n % 0x1_0000 else n % 0x1_0000_0000
  }

  /** The bytes after writing `v` over `under`: padding is skipped, so it keeps the bytes it had. */
  function Write(f: Frame, v: Val, ph: Phase, o: Order, under: seq<Byte>): (b: seq<Byte>)
    requires |under| == Size(f, v, ph)
    ensures |b| == |under|
    decreases f, 1
  {
    match f
    case End => []
    case IntField(w, rest) =>
      if v.VInt? then
        PutInt(Truncate(v.n, w), w, o) + Write(rest, v.rest, Shift(ph, w), o, under[w..])
      else []
    case BytesField(_, rest) =>
      if v.VBytes? then v.b + Write(rest, v.rest, Shift(ph, |v.b|), o, under[|v.b|..]) else []
    case PadField(_, _) => WritePad(f, v, ph, o, under)
    case ListField(_, _, _, _, _) => if v.VList? then WriteList(f, v, ph, o, under) else []
    case SubFrame(sub, rest) =>
      if v.VSub? then
        var n := Size(sub, v.sub, 0);
        Write(sub, v.sub, 0, o, under[..n]) + Write(rest, v.rest, Shift(ph, n), o, under[n..])
      else []
  }

  function WritePad(f: Frame, v: Val, ph: Phase, o: Order, under: seq<Byte>): (b: seq<Byte>)
    requires f.PadField? && |under| == Size(f, v, ph)
    ensures |b| == |under|
    decreases f, 0
  {
    hide PadLen;
    var d := PadLen(ph, f.align);
    under[..d] + Write(f.rest, v, Aligned(ph, f.align), o, under[d..])
  }

  function WriteList(f: Frame, v: Val, ph: Phase, o: Order, under: seq<Byte>): (b: seq<Byte>)
    requires f.ListField? && v.VList? && |under| == Size(f, v, ph)
    ensures |b| == |under|
    decreases f, 0
  {
    var d := f.w + PadLen(Shift(ph, f.w), f.align);
    var size := ListSize(f.item, v.items);
    PutInt(Truncate(InUnits(size, f.unit), f.w), f.w, o) + under[f.w..d]
    + WriteAll(f.item, v.items, o, under[d..d + size])
    + Write(f.rest, v.rest, Shift(ph, d + size), o, under[d + size..])
  }

  function WriteAll(item: Frame, items: seq<Val>, o: Order, under: seq<Byte>): (b: seq<Byte>)
    requires |under| == ListSize(item, items)
    ensures |b| == |under|
    decreases item, |items| + 2
  {
    if items == [] then []
    else
      var n := Size(item, items[0], 0);
      Write(item, items[0], 0, o, under[..n]) + WriteAll(item, items[1..], o, under[n..])
  }

  // ------------------------------------------------------------------ read

  /** A value and the number of bytes it took, or None where the C reader sets *data to NULL. */
  function Read(f: Frame, ph: Phase, ints: seq<nat>, o: Order, data: seq<Byte>): (r: Option<(Val, nat)>)
    ensures r.Some? ==> r.value.1 <= |data|
    decreases f, 1
  {
    match f
    case End => Some((VEnd, 0))
    case IntField(_, _) => ReadInt(f, ph, ints, o, data)
    case BytesField(_, _) => ReadBytes(f, ph, ints, o, data)
    case PadField(_, _) => ReadPad(f, ph, ints, o, data)
    case ListField(_, _, _, _, _) => ReadList(f, ph, ints, o, data)
    case SubFrame(_, _) => ReadSub(f, ph, ints, o, data)
  }

  function ReadInt(f: Frame, ph: Phase, ints: seq<nat>, o: Order, data: seq<Byte>): (r: Option<(Val, nat)>)
    requires f.IntField?
    ensures r.Some? ==> r.value.1 <= |data|
    decreases f, 0
  {
    if |data| < f.w then None
    else
      var n := GetInt(data[..f.w], o);
      var (v, used) :- Read(f.rest, Shift(ph, f.w), ints + [n], o, data[f.w..]);
      Some((VInt(n, v), f.w + used))
  }

  function ReadBytes(f: Frame, ph: Phase, ints: seq<nat>, o: Order, data: seq<Byte>): (r: Option<(Val, nat)>)
    requires f.BytesField?
    ensures r.Some? ==> r.value.1 <= |data|
    decreases f, 0
  {
    if f.len >= |ints| || |data| < ints[f.len] then None
    else
      var n := ints[f.len];
      var (v, used) :- Read(f.rest, Shift(ph, n), ints, o, data[n..]);
      Some((VBytes(data[..n], v), n + used))
  }

  function ReadSub(f: Frame, ph: Phase, ints: seq<nat>, o: Order, data: seq<Byte>): (r: Option<(Val, nat)>)
    requires f.SubFrame?
    ensures r.Some? ==> r.value.1 <= |data|
    decreases f, 0
  {
    var (v, n) :- Read(f.sub, 0, [], o, data);
    var (u, used) :- Read(f.rest, Shift(ph, n), ints, o, data[n..]);
    Some((VSub(v, u), n + used))
  }

  function ReadPad(f: Frame, ph: Phase, ints: seq<nat>, o: Order, data: seq<Byte>): (r: Option<(Val, nat)>)
    requires f.PadField?
    ensures r.Some? ==> r.value.1 <= |data|
    decreases f, 0
  {
    var d := PadLen(ph, f.align);
    if |data| < d then None
    else
      var (v, used) :- Read(f.rest, Aligned(ph, f.align), ints, o, data[d..]);
      Some((v, d + used))
  }

  function ReadList(f: Frame, ph: Phase, ints: seq<nat>, o: Order, data: seq<Byte>): (r: Option<(Val, nat)>)
    requires f.ListField?
    ensures r.Some? ==> r.value.1 <= |data|
    decreases f, 0
  {
    var d := f.w + PadLen(Shift(ph, f.w), f.align);
    if |data| < d then None
    else
      var n := d + InBytes(GetInt(data[..f.w], o), f.unit);
      if n > |data| then None
      else
        var items :- ReadAll(f.item, o, data[d..n]);
        var (v, used) :- Read(f.rest, Shift(ph, n), ints, o, data[n..]);
        Some((VList(items, v), n + used))
  }

  /** Items until exactly the counted bytes are used up. An item that takes no byte would
      loop forever; well-formed frames have none. */
  function ReadAll(item: Frame, o: Order, data: seq<Byte>): Option<seq<Val>>
    decreases item, |data| + 2
  {
    if data == [] then Some([])
    else
      var (v, n) :- Read(item, 0, [], o, data);
      if n == 0 then None
      else
        var items :- ReadAll(item, o, data[n..]);
        Some([v] + items)
  }

  // ------------------------------------------------------------- round trip

  ghost predicate ReadsBack(f: Frame, v: Val, ph: Phase, ints: seq<nat>, o: Order, b: seq<Byte>, tail: seq<Byte>) {
    Read(f, ph, ints, o, b + tail) == Some((v, |b|))
  }

  /** Every value whose counters fit is read back from its bytes, whatever the padding held
      before, in either byte order, and exactly its own bytes are consumed. */
  lemma {:induction false} RoundTrip(f: Frame, v: Val, ph: Phase, ints: seq<nat>, o: Order,
                                     under: seq<Byte>, tail: seq<Byte>)
    requires WellFormed(f, |ints|) && Fits(f, v, ints) && |under| == Size(f, v, ph)
    ensures ReadsBack(f, v, ph, ints, o, Write(f, v, ph, o, under), tail)
    decreases f, 1
  {
    match f
    case End =>
    case IntField(_, _) => RoundTripInt(f, v, ph, ints, o, under, tail);
    case BytesField(_, _) => RoundTripBytes(f, v, ph, ints, o, under, tail);
    case PadField(_, _) => RoundTripPad(f, v, ph, ints, o, under, tail);
    case ListField(_, _, _, _, _) => RoundTripList(f, v, ph, ints, o, under, tail);
    case SubFrame(_, _) => RoundTripSub(f, v, ph, ints, o, under, tail);
  }

  lemma {:induction false} RoundTripInt(f: Frame, v: Val, ph: Phase, ints: seq<nat>, o: Order,
                                     under: seq<Byte>, tail: seq<Byte>)
    requires f.IntField?
    requires WellFormed(f, |ints|) && Fits(f, v, ints) && |under| == Size(f, v, ph)
    ensures ReadsBack(f, v, ph, ints, o, Write(f, v, ph, o, under), tail)
    decreases f, 0
  {
    hide PutInt, GetInt, Shift, Read, Write, Size, Shape, CountersFit, WellFormed;
    IntUnfolds(f, v, ph, ints, o, under);
    GetPut(v.n, f.w, o);
    RoundTrip(f.rest, v.rest, Shift(ph, f.w), ints + [v.n], o, under[f.w..], tail);
    var b, c := PutInt(v.n, f.w, o), Write(f.rest, v.rest, Shift(ph, f.w), o, under[f.w..]);
    var data := b + c + tail;
    ReadIsInt(f, ph, ints, o, data);
    assert data[..f.w] == b && data[f.w..] == c + tail;
  }

  lemma IntSize(f: Frame, v: Val, ph: Phase)
    requires f.IntField? && v.VInt?
    ensures Size(f, v, ph) == f.w + Size(f.rest, v.rest, Shift(ph, f.w))
  {
    hide Shift;
  }

  lemma IntParts(f: Frame, v: Val, ph: Phase, ints: seq<nat>)
    requires f.IntField? && Shape(f, v, ints)
    ensures v.VInt? && v.n < Limit(f.w) && Shape(f.rest, v.rest, ints + [v.n])
    ensures Size(f, v, ph) == f.w + Size(f.rest, v.rest, Shift(ph, f.w))
  {
    hide Shift;
  }

  lemma WriteIntIs(f: Frame, v: Val, ph: Phase, o: Order, under: seq<Byte>)
    requires f.IntField? && v.VInt? && v.n < Limit(f.w)
    requires |under| == Size(f, v, ph) == f.w + Size(f.rest, v.rest, Shift(ph, f.w))
    ensures Write(f, v, ph, o, under) ==
            PutInt(v.n, f.w, o) + Write(f.rest, v.rest, Shift(ph, f.w), o, under[f.w..])
  {
    hide PutInt, Shift;
  }

  lemma BytesParts(f: Frame, v: Val, ph: Phase, ints: seq<nat>)
    requires f.BytesField? && Shape(f, v, ints)
    ensures v.VBytes? && Shape(f.rest, v.rest, ints)
    ensures Size(f, v, ph) == |v.b| + Size(f.rest, v.rest, Shift(ph, |v.b|))
  {
    hide Shift;
  }

  lemma WriteBytesIs(f: Frame, v: Val, ph: Phase, o: Order, under: seq<Byte>)
    requires f.BytesField? && v.VBytes?
    requires |under| == Size(f, v, ph) == |v.b| + Size(f.rest, v.rest, Shift(ph, |v.b|))
    ensures Write(f, v, ph, o, under) == v.b + Write(f.rest, v.rest, Shift(ph, |v.b|), o, under[|v.b|..])
  {
    hide Shift;
  }

  lemma IntUnfolds(f: Frame, v: Val, ph: Phase, ints: seq<nat>, o: Order, under: seq<Byte>)
    requires f.IntField?
    requires WellFormed(f, |ints|) && Fits(f, v, ints) && |under| == Size(f, v, ph)
    ensures v.VInt? && v.n < Limit(f.w) && WellFormed(f.rest, |ints| + 1) && Fits(f.rest, v.rest, ints + [v.n])
    ensures |under| == f.w + Size(f.rest, v.rest, Shift(ph, f.w))
    ensures Write(f, v, ph, o, under) ==
            PutInt(v.n, f.w, o) + Write(f.rest, v.rest, Shift(ph, f.w), o, under[f.w..])
  {
    hide PutInt, Shift, Shape, Size, Write;
    IntParts(f, v, ph, ints);
    WriteIntIs(f, v, ph, o, under);
  }

  lemma ReadIsInt(f: Frame, ph: Phase, ints: seq<nat>, o: Order, data: seq<Byte>)
    requires f.IntField?
    ensures Read(f, ph, ints, o, data) ==
            if |data| < f.w then None
            else
              var n := GetInt(data[..f.w], o);
              var r := Read(f.rest, Shift(ph, f.w), ints + [n], o, data[f.w..]);
              if r.None? then None else Some((VInt(n, r.value.0), f.w + r.value.1))
  {
    assert Read(f, ph, ints, o, data) == ReadInt(f, ph, ints, o, data);
    hide GetInt, Shift, Read;
  }

  lemma {:induction false} RoundTripBytes(f: Frame, v: Val, ph: Phase, ints: seq<nat>, o: Order,
                                     under: seq<Byte>, tail: seq<Byte>)
    requires f.BytesField?
    requires WellFormed(f, |ints|) && Fits(f, v, ints) && |under| == Size(f, v, ph)
    ensures ReadsBack(f, v, ph, ints, o, Write(f, v, ph, o, under), tail)
    decreases f, 0
  {
    var n := |v.b|;
    var c := Write(f.rest, v.rest, Shift(ph, n), o, under[n..]);
    RoundTrip(f.rest, v.rest, Shift(ph, n), ints, o, under[n..], tail);
    var data := v.b + c + tail;
    assert data[..n] == v.b && data[n..] == c + tail;
  }

  lemma {:induction false} RoundTripPad(f: Frame, v: Val, ph: Phase, ints: seq<nat>, o: Order,
                                     under: seq<Byte>, tail: seq<Byte>)
    requires f.PadField?
    requires WellFormed(f, |ints|) && Fits(f, v, ints) && |under| == Size(f, v, ph)
    ensures ReadsBack(f, v, ph, ints, o, Write(f, v, ph, o, under), tail)
    decreases f, 0
  {
    hide PadLen, Aligned, Write, Size, Shape, CountersFit, Read;
    PadUnfolds(f, v, ph, ints, o, under);
    var d := PadLen(ph, f.align);
    var c := Write(f.rest, v, Aligned(ph, f.align), o, under[d..]);
    RoundTrip(f.rest, v, Aligned(ph, f.align), ints, o, under[d..], tail);
    var data := under[..d] + c + tail;
    ReadIsPad(f, ph, ints, o, data);
    assert data[d..] == c + tail;
  }

  lemma {:induction false} RoundTripSub(f: Frame, v: Val, ph: Phase, ints: seq<nat>, o: Order,
                                     under: seq<Byte>, tail: seq<Byte>)
    requires f.SubFrame?
    requires WellFormed(f, |ints|) && Fits(f, v, ints) && |under| == Size(f, v, ph)
    ensures ReadsBack(f, v, ph, ints, o, Write(f, v, ph, o, under), tail)
    decreases f, 0
  {
    var n := Size(f.sub, v.sub, 0);
    var b := Write(f.sub, v.sub, 0, o, under[..n]);
    var c := Write(f.rest, v.rest, Shift(ph, n), o, under[n..]);
    RoundTrip(f.sub, v.sub, 0, [], o, under[..n], c + tail);
    RoundTrip(f.rest, v.rest, Shift(ph, n), ints, o, under[n..], tail);
    assert b + c + tail == b + (c + tail);
    assert (b + (c + tail))[n..] == c + tail;
  }

  lemma {:induction false} RoundTripList(f: Frame, v: Val, ph: Phase, ints: seq<nat>, o: Order,
                                     under: seq<Byte>, tail: seq<Byte>)
    requires f.ListField?
    requires WellFormed(f, |ints|) && Fits(f, v, ints) && |under| == Size(f, v, ph)
    ensures ReadsBack(f, v, ph, ints, o, Write(f, v, ph, o, under), tail)
    decreases f, 0
  {
    hide PutInt, GetInt, PadLen, Read, ReadAll, WriteAll, InBytes, InUnits;
    hide Productive, Shape, CountersFit, WellFormed, Size;
    ListFacts(f, v, ph, ints);
    var d := f.w + PadLen(Shift(ph, f.w), f.align);
    var size := ListSize(f.item, v.items);
    var n := d + size;
    var b := PutInt(InUnits(size, f.unit), f.w, o);
    GetPut(InUnits(size, f.unit), f.w, o);
    var e := WriteAll(f.item, v.items, o, under[d..n]);
    var c := Write(f.rest, v.rest, Shift(ph, n), o, under[n..]);
    RoundTripAll(f.item, v.items, o, under[d..n]);
    RoundTrip(f.rest, v.rest, Shift(ph, n), ints, o, under[n..], tail);
    var data := b + under[f.w..d] + e + c + tail;
    Parts(b, under[f.w..d], e, c, tail);
    ReadListParts(f, ph, ints, o, data, d, n, v.items, v.rest, |c|);
  }

  lemma ListFacts(f: Frame, v: Val, ph: Phase, ints: seq<nat>)
    requires f.ListField? && WellFormed(f, |ints|) && Fits(f, v, ints)
    ensures v.VList? && WellFormed(f.item, 0) && Productive(f.item) && WellFormed(f.rest, |ints|)
    ensures forall i :: 0 <= i < |v.items| ==> Fits(f.item, v.items[i], [])
    ensures Fits(f.rest, v.rest, ints)
    ensures var size := ListSize(f.item, v.items);
            var n := f.w + PadLen(Shift(ph, f.w), f.align) + size;
            && InBytes(InUnits(size, f.unit), f.unit) == size && InUnits(size, f.unit) < Limit(f.w)
            && Size(f, v, ph) == n + Size(f.rest, v.rest, Shift(ph, n))
  {
    hide PadLen, Limit, InBytes, InUnits;
  }

  lemma WriteListIs(f: Frame, v: Val, ph: Phase, o: Order, under: seq<Byte>, d: nat, m: nat)
    requires f.ListField? && v.VList? && |under| == Size(f, v, ph)
    requires d == f.w + PadLen(Shift(ph, f.w), f.align) && m == d + ListSize(f.item, v.items)
    ensures m <= |under| && |under| - m == Size(f.rest, v.rest, Shift(ph, m))
    ensures Write(f, v, ph, o, under) ==
            PutInt(Truncate(InUnits(m - d, f.unit), f.w), f.w, o) + under[f.w..d]
            + WriteAll(f.item, v.items, o, under[d..m]) + Write(f.rest, v.rest, Shift(ph, m), o, under[m..])
  {
    hide PadLen, PutInt, InUnits, ListSize;
  }

  lemma Parts(a: seq<Byte>, b: seq<Byte>, c: seq<Byte>, d: seq<Byte>, e: seq<Byte>)
    ensures var s := a + b + c + d + e;
            s[..|a|] == a && s[|a| + |b|..|a| + |b| + |c|] == c && s[|a| + |b| + |c|..] == d + e
  {
  }

  /** The counter of a list that fits is the size of its items in units: the bytes of the message
      tell it, after them the padding, then the items. */
  lemma CounterTells(f: Frame, v: Val, ph: Phase, ints: seq<nat>, o: Order, under: seq<Byte>)
    requires f.ListField? && Fits(f, v, ints) && |under| == Size(f, v, ph)
    ensures v.VList? && ListSize(f.item, v.items) % f.unit == 0
    ensures ListSize(f.item, v.items) / f.unit < Limit(f.w) && f.w <= |under|
    ensures Write(f, v, ph, o, under)[..f.w] == PutInt(ListSize(f.item, v.items) / f.unit, f.w, o)
  {
    hide PutInt, PadLen, Shift, ListSize, Write, Size;
    var size := ListSize(f.item, v.items);
    var d := f.w + PadLen(Shift(ph, f.w), f.align);
    ListSizeIs(f, v, ph);
    WriteListIs(f, v, ph, o, under, d, d + size);
  }

  lemma ReadIsList(f: Frame, ph: Phase, ints: seq<nat>, o: Order, data: seq<Byte>)
    requires f.ListField?
    ensures Read(f, ph, ints, o, data) == ReadList(f, ph, ints, o, data)
  {
    hide ReadList;
  }

  lemma ReadIsPad(f: Frame, ph: Phase, ints: seq<nat>, o: Order, data: seq<Byte>)
    requires f.PadField?
    ensures Read(f, ph, ints, o, data) == ReadPad(f, ph, ints, o, data)
  {
    hide ReadPad;
  }

  lemma ReadListFails(f: Frame, ph: Phase, ints: seq<nat>, o: Order, data: seq<Byte>, d: nat)
    requires f.ListField? && d == f.w + PadLen(Shift(ph, f.w), f.align)
    ensures |data| < d ==> Read(f, ph, ints, o, data).None?
    ensures |data| >= d ==>
              var n := d + InBytes(GetInt(data[..f.w], o), f.unit);
              n > |data| || ReadAll(f.item, o, data[d..n]).None? || Read(f.rest, Shift(ph, n), ints, o, data[n..]).None?
              ==> Read(f, ph, ints, o, data).None?
  {
    hide InBytes, GetInt, PadLen, ReadAll, Read;
    ReadIsList(f, ph, ints, o, data);
  }

  lemma ReadListParts(f: Frame, ph: Phase, ints: seq<nat>, o: Order, data: seq<Byte>,
                      d: nat, n: nat, items: seq<Val>, v: Val, used: nat)
    requires f.ListField? && d == f.w + PadLen(Shift(ph, f.w), f.align) && d <= n <= |data|
    requires n == d + InBytes(GetInt(data[..f.w], o), f.unit)
    requires ReadAll(f.item, o, data[d..n]) == Some(items)
    requires Read(f.rest, Shift(ph, n), ints, o, data[n..]) == Some((v, used))
    ensures Read(f, ph, ints, o, data) == Some((VList(items, v), n + used))
  {
    hide InBytes, GetInt, PadLen, ReadAll, Read;
    ReadIsList(f, ph, ints, o, data);
  }

  lemma PadUnfolds(f: Frame, v: Val, ph: Phase, ints: seq<nat>, o: Order, under: seq<Byte>)
    requires f.PadField?
    ensures var d := PadLen(ph, f.align);
            && Size(f, v, ph) == d + Size(f.rest, v, Aligned(ph, f.align))
            && (Fits(f, v, ints) <==> Fits(f.rest, v, ints))
            && (|under| == Size(f, v, ph) ==>
                  Write(f, v, ph, o, under) == under[..d] + Write(f.rest, v, Aligned(ph, f.align), o, under[d..]))
  {
    hide PadLen;
  }

  lemma {:induction false} RoundTripAll(item: Frame, items: seq<Val>, o: Order, under: seq<Byte>)
    requires WellFormed(item, 0) && Productive(item) && |under| == ListSize(item, items)
    requires forall i :: 0 <= i < |items| ==> Fits(item, items[i], [])
    ensures ReadAll(item, o, WriteAll(item, items, o, under)) == Some(items)
    decreases item, |items| + 2
  {
    hide Read, Write, Size, WellFormed, Productive, Shape, CountersFit;
    if items != [] {
      var n := Size(item, items[0], 0);
      ProductiveSize(item, items[0], 0, []);
      var b := Write(item, items[0], 0, o, under[..n]);
      var c := WriteAll(item, items[1..], o, under[n..]);
      RoundTrip(item, items[0], 0, [], o, under[..n], c);
      RoundTripAll(item, items[1..], o, under[n..]);
      assert (b + c)[n..] == c;
      assert [items[0]] + items[1..] == items;
    }
  }

  lemma {:induction false} ProductiveSize(f: Frame, v: Val, ph: Phase, ints: seq<nat>)
    requires Productive(f) && Shape(f, v, ints)
    ensures Size(f, v, ph) > 0
  {
    match f
    case IntField(_, _) =>
    case BytesField(_, rest) => ProductiveSize(rest, v.rest, Shift(ph, |v.b|), ints);
    case PadField(align, rest) => ProductiveSize(rest, v, Aligned(ph, align), ints);
    case ListField(_, _, _, _, _) =>
    case SubFrame(sub, rest) =>
      if Productive(sub) {
        ProductiveSize(sub, v.sub, 0, []);
      } else {
        ProductiveSize(rest, v.rest, Shift(ph, Size(sub, v.sub, 0)), ints);
      }
  }

  // ---------------------------------------------------------- what is read

  /** `v` is a legal value of frame `f` and the first `n` bytes are its image, padding aside. */
  ghost predicate Exact(f: Frame, ph: Phase, ints: seq<nat>, o: Order, data: seq<Byte>, v: Val, n: nat) {
    && n == Size(f, v, ph) <= |data|
    && Fits(f, v, ints)
    && Write(f, v, ph, o, data[..n]) == data[..n]
  }

  /** The reader accepts nothing but images of values: it consumes exactly the size of what it
      returns, and writing that back changes no byte. */
  lemma {:induction false} ReadExact(f: Frame, ph: Phase, ints: seq<nat>, o: Order, data: seq<Byte>)
    requires Read(f, ph, ints, o, data).Some?
    ensures var (v, n) := Read(f, ph, ints, o, data).value; Exact(f, ph, ints, o, data, v, n)
    decreases f, 1
  {
    match f
    case End =>
    case IntField(_, _) => ReadExactInt(f, ph, ints, o, data);
    case BytesField(_, _) => ReadExactBytes(f, ph, ints, o, data);
    case PadField(_, _) => ReadExactPad(f, ph, ints, o, data);
    case ListField(_, _, _, _, _) => ReadExactList(f, ph, ints, o, data);
    case SubFrame(_, _) => ReadExactSub(f, ph, ints, o, data);
  }

  lemma {:induction false} ReadExactInt(f: Frame, ph: Phase, ints: seq<nat>, o: Order, data: seq<Byte>)
    requires f.IntField? && Read(f, ph, ints, o, data).Some?
    ensures var (v, n) := Read(f, ph, ints, o, data).value; Exact(f, ph, ints, o, data, v, n)
    decreases f, 0
  {
    hide GetInt, Exact;
    var k := GetInt(data[..f.w], o);
    ReadExact(f.rest, Shift(ph, f.w), ints + [k], o, data[f.w..]);
    var (v, n) := Read(f.rest, Shift(ph, f.w), ints + [k], o, data[f.w..]).value;
    ExactInt(f, ph, ints, o, data, k, v, n);
  }

  lemma ExactInt(f: Frame, ph: Phase, ints: seq<nat>, o: Order, data: seq<Byte>, k: nat, v: Val, n: nat)
    requires f.IntField? && f.w <= |data| && k == GetInt(data[..f.w], o)
    requires Exact(f.rest, Shift(ph, f.w), ints + [k], o, data[f.w..], v, n)
    ensures Exact(f, ph, ints, o, data, VInt(k, v), f.w + n)
  {
    hide PutInt, GetInt;
    PutGet(data[..f.w], o);
    assert data[..f.w + n][f.w..] == data[f.w..][..n];
    assert data[..f.w + n] == data[..f.w] + data[f.w..][..n];
  }

  lemma {:induction false} ReadExactBytes(f: Frame, ph: Phase, ints: seq<nat>, o: Order, data: seq<Byte>)
    requires f.BytesField? && Read(f, ph, ints, o, data).Some?
    ensures var (v, n) := Read(f, ph, ints, o, data).value; Exact(f, ph, ints, o, data, v, n)
    decreases f, 0
  {
    hide Exact, Shift;
    var k := ints[f.len];
    ReadExact(f.rest, Shift(ph, k), ints, o, data[k..]);
    var (v, n) := Read(f.rest, Shift(ph, k), ints, o, data[k..]).value;
    ExactBytes(f, ph, ints, o, data, k, v, n);
  }

  lemma ExactBytes(f: Frame, ph: Phase, ints: seq<nat>, o: Order, data: seq<Byte>, k: nat, v: Val, n: nat)
    requires f.BytesField? && f.len < |ints| && k == ints[f.len] <= |data|
    requires Exact(f.rest, Shift(ph, k), ints, o, data[k..], v, n)
    ensures Exact(f, ph, ints, o, data, VBytes(data[..k], v), k + n)
  {
    hide Shift;
    assert data[..k + n][k..] == data[k..][..n];
    assert data[..k + n] == data[..k] + data[k..][..n];
  }

  lemma {:induction false} ReadExactPad(f: Frame, ph: Phase, ints: seq<nat>, o: Order, data: seq<Byte>)
    requires f.PadField? && Read(f, ph, ints, o, data).Some?
    ensures var (v, n) := Read(f, ph, ints, o, data).value; Exact(f, ph, ints, o, data, v, n)
    decreases f, 0
  {
    hide PadLen, Exact, Read;
    ReadIsPad(f, ph, ints, o, data);
    var d := PadLen(ph, f.align);
    ReadExact(f.rest, Aligned(ph, f.align), ints, o, data[d..]);
    var (v, n) := Read(f.rest, Aligned(ph, f.align), ints, o, data[d..]).value;
    ExactPad(f, ph, ints, o, data, d, v, n);
  }

  lemma ExactPad(f: Frame, ph: Phase, ints: seq<nat>, o: Order, data: seq<Byte>, d: nat, v: Val, n: nat)
    requires f.PadField? && d <= |data| && d == PadLen(ph, f.align)
    requires Exact(f.rest, Aligned(ph, f.align), ints, o, data[d..], v, n)
    ensures Exact(f, ph, ints, o, data, v, d + n)
  {
    hide PadLen, Write, Size, Shape, CountersFit;
    PadUnfolds(f, v, ph, ints, o, data[..d + n]);
    assert data[..d + n][d..] == data[d..][..n];
    assert data[..d + n] == data[..d] + data[d..][..n];
  }

  lemma {:induction false} ReadExactSub(f: Frame, ph: Phase, ints: seq<nat>, o: Order, data: seq<Byte>)
    requires f.SubFrame? && Read(f, ph, ints, o, data).Some?
    ensures var (v, n) := Read(f, ph, ints, o, data).value; Exact(f, ph, ints, o, data, v, n)
    decreases f, 0
  {
    hide Exact;
    var (u, k) := Read(f.sub, 0, [], o, data).value;
    ReadExact(f.sub, 0, [], o, data);
    ReadExact(f.rest, Shift(ph, k), ints, o, data[k..]);
    var (v, n) := Read(f.rest, Shift(ph, k), ints, o, data[k..]).value;
    ExactSub(f, ph, ints, o, data, u, k, v, n);
  }

  lemma ExactSub(f: Frame, ph: Phase, ints: seq<nat>, o: Order, data: seq<Byte>, u: Val, k: nat, v: Val, n: nat)
    requires f.SubFrame? && k <= |data| && Exact(f.sub, 0, [], o, data, u, k)
    requires Exact(f.rest, Shift(ph, k), ints, o, data[k..], v, n)
    ensures Exact(f, ph, ints, o, data, VSub(u, v), k + n)
  {
    assert data[..k + n][..k] == data[..k] && data[..k + n][k..] == data[k..][..n];
    assert data[..k + n] == data[..k] + data[k..][..n];
  }

  lemma {:induction false} ReadExactList(f: Frame, ph: Phase, ints: seq<nat>, o: Order, data: seq<Byte>)
    requires f.ListField? && Read(f, ph, ints, o, data).Some?
    ensures var (v, n) := Read(f, ph, ints, o, data).value; Exact(f, ph, ints, o, data, v, n)
    decreases f, 0
  {
    hide GetInt, PadLen, InBytes, ReadAll, Exact, Read;
    ReadIsList(f, ph, ints, o, data);
    var d := f.w + PadLen(Shift(ph, f.w), f.align);
    var m := d + InBytes(GetInt(data[..f.w], o), f.unit);
    ReadExactAll(f.item, o, data[d..m]);
    ReadExact(f.rest, Shift(ph, m), ints, o, data[m..]);
    var items := ReadAll(f.item, o, data[d..m]).value;
    var (v, n) := Read(f.rest, Shift(ph, m), ints, o, data[m..]).value;
    ExactList(f, ph, ints, o, data, d, m, items, v, n);
  }

  lemma ExactList(f: Frame, ph: Phase, ints: seq<nat>, o: Order, data: seq<Byte>,
                  d: nat, m: nat, items: seq<Val>, v: Val, n: nat)
    requires f.ListField? && d == f.w + PadLen(Shift(ph, f.w), f.align) && d <= m <= |data|
    requires m == d + InBytes(GetInt(data[..f.w], o), f.unit)
    requires ListSize(f.item, items) == m - d && WriteAll(f.item, items, o, data[d..m]) == data[d..m]
    requires forall i :: 0 <= i < |items| ==> Fits(f.item, items[i], [])
    requires Exact(f.rest, Shift(ph, m), ints, o, data[m..], v, n)
    ensures Exact(f, ph, ints, o, data, VList(items, v), m + n)
  {
    hide PutInt, GetInt, PadLen, Shift, InBytes, InUnits, ListSize, Write, Shape, CountersFit, Size;
    PutGet(data[..f.w], o);
    MultipleOf(GetInt(data[..f.w], o), f.unit);
    var b := data[..m + n];
    ListFits(f, ph, ints, d, m, items, v, n);
    WriteListIs(f, VList(items, v), ph, o, b, d, m);
    FourSlices(data, f.w, d, m, m + n);
  }

  lemma FourSlices(s: seq<Byte>, i: nat, j: nat, k: nat, l: nat)
    requires i <= j <= k <= l <= |s|
    ensures s[..l][i..j] == s[i..j] && s[..l][j..k] == s[j..k] && s[..l][k..] == s[k..][..l - k]
    ensures s[..l] == s[..i] + s[i..j] + s[j..k] + s[k..][..l - k]
  {
  }

  lemma ListFits(f: Frame, ph: Phase, ints: seq<nat>, d: nat, m: nat, items: seq<Val>, v: Val, n: nat)
    requires f.ListField? && d == f.w + PadLen(Shift(ph, f.w), f.align) && m == d + ListSize(f.item, items)
    requires InBytes(InUnits(m - d, f.unit), f.unit) == m - d && InUnits(m - d, f.unit) < Limit(f.w)
    requires forall i :: 0 <= i < |items| ==> Fits(f.item, items[i], [])
    requires Fits(f.rest, v, ints) && n == Size(f.rest, v, Shift(ph, m))
    ensures Fits(f, VList(items, v), ints) && Size(f, VList(items, v), ph) == m + n
  {
    hide PadLen, Shift, InBytes, InUnits, ListSize, Shape, CountersFit, Size;
    ListShapeIs(f, items, v, ints);
    ListCountersAre(f, items, v);
    ListSizeIs(f, VList(items, v), ph);
  }

  lemma ListShapeIs(f: Frame, items: seq<Val>, v: Val, ints: seq<nat>)
    requires f.ListField? && Shape(f.rest, v, ints)
    requires forall i :: 0 <= i < |items| ==> Shape(f.item, items[i], [])
    requires InBytes(InUnits(ListSize(f.item, items), f.unit), f.unit) == ListSize(f.item, items)
    ensures Shape(f, VList(items, v), ints)
  {
    hide InBytes, InUnits, ListSize;
  }

  lemma ListCountersAre(f: Frame, items: seq<Val>, v: Val)
    requires f.ListField? && CountersFit(f.rest, v)
    requires forall i :: 0 <= i < |items| ==> CountersFit(f.item, items[i])
    requires InUnits(ListSize(f.item, items), f.unit) < Limit(f.w)
    ensures CountersFit(f, VList(items, v))
  {
    hide InUnits, ListSize;
  }

  lemma ListSizeIs(f: Frame, v: Val, ph: Phase)
    requires f.ListField? && v.VList?
    ensures var m := f.w + PadLen(Shift(ph, f.w), f.align) + ListSize(f.item, v.items);
            Size(f, v, ph) == m + Size(f.rest, v.rest, Shift(ph, m))
  {
    hide PadLen, Shift, ListSize;
  }

  lemma MultipleOf(c: nat, unit: Width)
    ensures InUnits(InBytes(c, unit), unit) == c
  {
  }

  lemma {:induction false} ReadExactAll(item: Frame, o: Order, data: seq<Byte>)
    requires ReadAll(item, o, data).Some?
    ensures var items := ReadAll(item, o, data).value;
            && |data| == ListSize(item, items)
            && (forall i :: 0 <= i < |items| ==> Fits(item, items[i], []))
            && WriteAll(item, items, o, data) == data
    decreases item, |data| + 2
  {
    hide Read, Write, Size, Shape, CountersFit;
    if data != [] {
      var (v, n) := Read(item, 0, [], o, data).value;
      ReadExact(item, 0, [], o, data);
      ReadExactAll(item, o, data[n..]);
      assert data == data[..n] + data[n..];
    }
  }

  /** The bytes of a value are read back as that value exactly when every list counter fits its
      field; otherwise the truncated counter makes the reader see something else. */
  lemma ReadsBackExactlyWhenCountersFit(f: Frame, v: Val, o: Order, under: seq<Byte>, tail: seq<Byte>)
    requires WellFormed(f, 0) && Shape(f, v, []) && |under| == Size(f, v, 0)
    ensures ReadsBack(f, v, 0, [], o, Write(f, v, 0, o, under), tail) <==> CountersFit(f, v)
  {
    hide Read, Write, Size, Shape, CountersFit, WellFormed;
    var data := Write(f, v, 0, o, under) + tail;
    if CountersFit(f, v) {
      RoundTrip(f, v, 0, [], o, under, tail);
    }
    if Read(f, 0, [], o, data) == Some((v, |under|)) {
      ReadExact(f, 0, [], o, data);
    }
  }

  /** No two values share an image, so the wire format is unambiguous. */
  lemma ImagesDiffer(f: Frame, v: Val, u: Val, o: Order, under: seq<Byte>, over: seq<Byte>)
    requires WellFormed(f, 0) && Fits(f, v, []) && Fits(f, u, [])
    requires |under| == Size(f, v, 0) && |over| == Size(f, u, 0)
    requires Write(f, v, 0, o, under) == Write(f, u, 0, o, over)
    ensures v == u
  {
    hide Read, Write, Size, Shape, CountersFit, WellFormed;
    RoundTrip(f, v, 0, [], o, under, []);
    RoundTrip(f, u, 0, [], o, over, []);
  }

  // -------------------------------------------------------- hosts and peers

  /** Two hosts that take the bytes to be in the same order read the same values from them. */
  lemma {:induction false} ReadSame(f: Frame, ph: Phase, ints: seq<nat>, o: Order, p: Order, data: seq<Byte>)
    requires WireBig(o) == WireBig(p)
    ensures Read(f, ph, ints, o, data) == Read(f, ph, ints, p, data)
    decreases f, 1
  {
    hide GetInt, Shift, WireBig, ReadList, ReadPad, ReadSub;
    match f
    case End =>
    case IntField(_, _) => ReadSameInt(f, ph, ints, o, p, data);
    case BytesField(len, rest) =>
      if len < |ints| && ints[len] <= |data| {
        ReadSame(rest, Shift(ph, ints[len]), ints, o, p, data[ints[len]..]);
      }
    case PadField(_, _) => ReadSamePad(f, ph, ints, o, p, data);
    case ListField(_, _, _, _, _) => ReadSameList(f, ph, ints, o, p, data);
    case SubFrame(_, _) => ReadSameSub(f, ph, ints, o, p, data);
  }

  lemma {:induction false} ReadSameInt(f: Frame, ph: Phase, ints: seq<nat>, o: Order, p: Order, data: seq<Byte>)
    requires f.IntField? && WireBig(o) == WireBig(p)
    ensures Read(f, ph, ints, o, data) == Read(f, ph, ints, p, data)
    decreases f, 0
  {
    hide GetInt, Shift, WireBig;
    if |data| >= f.w {
      SameWire(data[..f.w], o, p);
      ReadSame(f.rest, Shift(ph, f.w), ints + [GetInt(data[..f.w], o)], o, p, data[f.w..]);
    }
  }

  lemma {:induction false} ReadSamePad(f: Frame, ph: Phase, ints: seq<nat>, o: Order, p: Order, data: seq<Byte>)
    requires f.PadField? && WireBig(o) == WireBig(p)
    ensures ReadPad(f, ph, ints, o, data) == ReadPad(f, ph, ints, p, data)
    decreases f, 0
  {
    hide PadLen, Aligned, Read, WireBig;
    var d := PadLen(ph, f.align);
    if d <= |data| {
      ReadSame(f.rest, Aligned(ph, f.align), ints, o, p, data[d..]);
    }
  }

  lemma {:induction false} ReadSameSub(f: Frame, ph: Phase, ints: seq<nat>, o: Order, p: Order, data: seq<Byte>)
    requires f.SubFrame? && WireBig(o) == WireBig(p)
    ensures ReadSub(f, ph, ints, o, data) == ReadSub(f, ph, ints, p, data)
    decreases f, 0
  {
    hide Shift, WireBig, Read;
    ReadSame(f.sub, 0, [], o, p, data);
    var r := Read(f.sub, 0, [], o, data);
    if r.Some? {
      ReadSame(f.rest, Shift(ph, r.value.1), ints, o, p, data[r.value.1..]);
    }
  }

  lemma {:induction false} ReadSameList(f: Frame, ph: Phase, ints: seq<nat>, o: Order, p: Order, data: seq<Byte>)
    requires f.ListField? && WireBig(o) == WireBig(p)
    ensures ReadList(f, ph, ints, o, data) == ReadList(f, ph, ints, p, data)
    decreases f, 0
  {
    hide GetInt, Shift, PadLen, InBytes, Read, ReadAll;
    var d := f.w + PadLen(Shift(ph, f.w), f.align);
    if |data| >= d {
      SameWire(data[..f.w], o, p);
      var n := d + InBytes(GetInt(data[..f.w], o), f.unit);
      if n <= |data| {
        ReadSameAll(f.item, o, p, data[d..n]);
        ReadSame(f.rest, Shift(ph, n), ints, o, p, data[n..]);
      }
    }
  }

  lemma {:induction false} ReadSameAll(item: Frame, o: Order, p: Order, data: seq<Byte>)
    requires WireBig(o) == WireBig(p)
    ensures ReadAll(item, o, data) == ReadAll(item, p, data)
    decreases item, |data| + 2
  {
    hide Read;
    if data != [] {
      ReadSame(item, 0, [], o, p, data);
      var r := Read(item, 0, [], o, data);
      if r.Some? && r.value.1 > 0 {
        ReadSameAll(item, o, p, data[r.value.1..]);
      }
    }
  }

  // ------------------------------------------------------- static analysis

  /** The size gen-proto.py gives a frame, -1 when it depends on the value. */
  function StaticSize(f: Frame, ph: Phase): (n: int)
    ensures n >= -1
  {
    match f
    case End => 0
    case IntField(w, rest) => Plus(w, StaticSize(rest, Shift(ph, w)))
    case BytesField(_, _) => -1
    case PadField(align, rest) => Plus(PadLen(ph, align), StaticSize(rest, Aligned(ph, align)))
    case ListField(_, _, _, _, _) => -1
    case SubFrame(sub, rest) =>
      var n := StaticSize(sub, 0);
      if n < 0 then -1 else Plus(n, StaticSize(rest, Shift(ph, n)))
  }

  function Plus(n: nat, m: int): int {
    if m < 0 then -1 else n + m
  }

  lemma {:induction false} StaticSizeIsSize(f: Frame, v: Val, ph: Phase, ints: seq<nat>)
    requires Shape(f, v, ints) && StaticSize(f, ph) >= 0
    ensures Size(f, v, ph) == StaticSize(f, ph)
  {
    match f
    case End =>
    case IntField(w, rest) => StaticSizeIsSize(rest, v.rest, Shift(ph, w), ints + [v.n]);
    case PadField(align, rest) => StaticSizeIsSize(rest, v, Aligned(ph, align), ints);
    case SubFrame(sub, rest) =>
      StaticSizeIsSize(sub, v.sub, 0, []);
      StaticSizeIsSize(rest, v.rest, Shift(ph, Size(sub, v.sub, 0)), ints);
  }

  /** The phase at which a frame ends, when it is the same for every value. */
  function EndPhase(f: Frame, start: Option<Phase>): Option<Phase> {
    match f
    case End => start
    case IntField(w, rest) => EndPhase(rest, if start.Some? then Some(Shift(start.value, w)) else None)
    case BytesField(_, rest) => EndPhase(rest, None)
    case PadField(align, rest) => EndPhase(rest, PadPhase(start, align))
    case ListField(w, _, align, item, rest) =>
      var first := PadPhase(if start.Some? then Some(Shift(start.value, w)) else None, align);
      EndPhase(rest, if EndPhase(item, Some(0)) == Some(0) then first else None)
    case SubFrame(sub, rest) =>
      var n := EndPhase(sub, Some(0));
      EndPhase(rest, if n.Some? && start.Some? then Some(Shift(start.value, n.value)) else None)
  }

  function PadPhase(start: Option<Phase>, align: Width): Option<Phase> {
    if align == 4 then Some(0) else if start.Some? then Some(Aligned(start.value, align)) else None
  }

  lemma {:induction false} EndPhaseIsPhase(f: Frame, v: Val, ph: Phase, ints: seq<nat>, start: Option<Phase>)
    requires Shape(f, v, ints) && (start.Some? ==> start.value == ph) && EndPhase(f, start).Some?
    ensures Shift(ph, Size(f, v, ph)) == EndPhase(f, start).value
    decreases f, 1
  {
    hide Shift, Aligned, PadLen;
    ShiftTwice(ph, 0, 0);
    match f
    case End =>
    case IntField(w, rest) =>
      EndPhaseIsPhase(rest, v.rest, Shift(ph, w), ints + [v.n], if start.Some? then Some(Shift(ph, w)) else None);
      ShiftTwice(ph, w, Size(rest, v.rest, Shift(ph, w)));
    case BytesField(_, rest) =>
      EndPhaseIsPhase(rest, v.rest, Shift(ph, |v.b|), ints, None);
      ShiftTwice(ph, |v.b|, Size(rest, v.rest, Shift(ph, |v.b|)));
    case PadField(_, _) => EndPhaseOfPad(f, v, ph, ints, start);
    case ListField(_, _, _, _, _) => EndPhaseOfList(f, v, ph, ints, start);
    case SubFrame(_, _) => EndPhaseOfSub(f, v, ph, ints, start);
  }

  lemma PadParts(f: Frame, v: Val, ph: Phase, ints: seq<nat>)
    requires f.PadField? && Shape(f, v, ints)
    ensures Shape(f.rest, v, ints) && Size(f, v, ph) == PadLen(ph, f.align) + Size(f.rest, v, Aligned(ph, f.align))
  {
    hide PadLen, Aligned;
  }

  lemma PadEndPhase(f: Frame, start: Option<Phase>)
    requires f.PadField?
    ensures EndPhase(f, start) == EndPhase(f.rest, PadPhase(start, f.align))
  {
  }

  lemma {:induction false} EndPhaseOfPad(f: Frame, v: Val, ph: Phase, ints: seq<nat>, start: Option<Phase>)
    requires f.PadField?
    requires Shape(f, v, ints) && (start.Some? ==> start.value == ph) && EndPhase(f, start).Some?
    ensures Shift(ph, Size(f, v, ph)) == EndPhase(f, start).value
    decreases f, 0
  {
    hide Shift, Aligned, PadLen, Size, Shape, EndPhase;
    PadParts(f, v, ph, ints);
    PadEndPhase(f, start);
    PadShifts(ph, f.align);
    Aligned4(ph, f.align);
    EndPhaseIsPhase(f.rest, v, Aligned(ph, f.align), ints, PadPhase(start, f.align));
    ShiftTwice(ph, PadLen(ph, f.align), Size(f.rest, v, Aligned(ph, f.align)));
  }

  lemma SubSize(f: Frame, v: Val, ph: Phase, ints: seq<nat>)
    requires f.SubFrame? && Shape(f, v, ints)
    ensures v.VSub? && Shape(f.sub, v.sub, []) && Shape(f.rest, v.rest, ints)
    ensures var n := Size(f.sub, v.sub, 0); Size(f, v, ph) == n + Size(f.rest, v.rest, Shift(ph, n))
  {
    hide Shift;
  }

  lemma SubEndPhase(f: Frame, start: Option<Phase>)
    requires f.SubFrame?
    ensures var n := EndPhase(f.sub, Some(0));
            EndPhase(f, start) ==
            EndPhase(f.rest, if n.Some? && start.Some? then Some(Shift(start.value, n.value)) else None)
  {
    hide Shift;
  }

  lemma {:induction false} EndPhaseOfSub(f: Frame, v: Val, ph: Phase, ints: seq<nat>, start: Option<Phase>)
    requires f.SubFrame?
    requires Shape(f, v, ints) && (start.Some? ==> start.value == ph) && EndPhase(f, start).Some?
    ensures Shift(ph, Size(f, v, ph)) == EndPhase(f, start).value
    decreases f, 0
  {
    hide Shift, Size, Shape, EndPhase;
    SubSize(f, v, ph, ints);
    SubEndPhase(f, start);
    var n := Size(f.sub, v.sub, 0);
    var e := EndPhase(f.sub, Some(0));
    if e.Some? {
      ShiftTwice(0, 0, 0);
      EndPhaseIsPhase(f.sub, v.sub, 0, [], Some(0));
      ShiftTwice(ph, 0, n);
    }
    EndPhaseIsPhase(f.rest, v.rest, Shift(ph, n), ints, if e.Some? && start.Some? then Some(Shift(ph, n)) else None);
    ShiftTwice(ph, n, Size(f.rest, v.rest, Shift(ph, n)));
  }

  lemma ListShape(f: Frame, v: Val, ints: seq<nat>)
    requires f.ListField? && Shape(f, v, ints)
    ensures v.VList? && (forall i :: 0 <= i < |v.items| ==> Shape(f.item, v.items[i], []))
    ensures Shape(f.rest, v.rest, ints)
  {
    hide InUnits, InBytes, ListSize;
  }

  lemma ListEndPhase(f: Frame, start: Option<Phase>)
    requires f.ListField?
    ensures var first := PadPhase(if start.Some? then Some(Shift(start.value, f.w)) else None, f.align);
            EndPhase(f, start) == EndPhase(f.rest, if EndPhase(f.item, Some(0)) == Some(0) then first else None)
  {
    hide Shift;
  }

  lemma {:induction false} EndPhaseOfList(f: Frame, v: Val, ph: Phase, ints: seq<nat>, start: Option<Phase>)
    requires f.ListField?
    requires Shape(f, v, ints) && (start.Some? ==> start.value == ph) && EndPhase(f, start).Some?
    ensures Shift(ph, Size(f, v, ph)) == EndPhase(f, start).value
    decreases f, 0
  {
    hide Shift, Aligned, PadLen, Size, Shape, EndPhase, ListSize;
    ListShape(f, v, ints);
    ListSizeIs(f, v, ph);
    ListEndPhase(f, start);
    var size := ListSize(f.item, v.items);
    var p := Shift(ph, f.w);
    var n := f.w + PadLen(p, f.align) + size;
    var aligned := EndPhase(f.item, Some(0)) == Some(0);
    var first := PadPhase(if start.Some? then Some(p) else None, f.align);
    ShiftTwice(ph, f.w, PadLen(p, f.align));
    ShiftTwice(ph, f.w + PadLen(p, f.align), size);
    PadShifts(p, f.align);
    if aligned {
      AlignedItems(f.item, v.items, Aligned(p, f.align));
    }
    Aligned4(p, f.align);
    ShiftTwice(ph, n, Size(f.rest, v.rest, Shift(ph, n)));
    EndPhaseIsPhase(f.rest, v.rest, Shift(ph, n), ints, if aligned then first else None);
  }

  lemma {:induction false} AlignedItems(item: Frame, items: seq<Val>, p: Phase)
    requires EndPhase(item, Some(0)) == Some(0)
    requires forall i :: 0 <= i < |items| ==> Shape(item, items[i], [])
    ensures Shift(p, ListSize(item, items)) == p
    decreases item, |items| + 2
  {
    hide Shape, EndPhase, Shift, Size;
    ShiftTwice(p, 0, 0);
    if items != [] {
      var n := Size(item, items[0], 0);
      EndPhaseIsPhase(item, items[0], 0, [], Some(0));
      AlignedItems(item, items[1..], p);
      ShiftTwice(p, n, n);
      ShiftTwice(p, n, ListSize(item, items[1..]));
    }
  }

  lemma Aligned4(p: Phase, align: Width)
    ensures align == 4 ==> Aligned(p, align) == 0
  {
  }

  lemma ShiftTwice(ph: Phase, n: nat, m: nat)
    ensures Shift(Shift(ph, n), m) == Shift(ph, n + m)
    ensures Shift(ph, Shift(0, m)) == Shift(ph, m)
    ensures Shift(ph, 0) == ph
  {
    Remainder(ph + n, m);
    Remainder(m, ph);
  }

  lemma Remainder(a: nat, b: nat)
    ensures (a % 4 + b) % 4 == (a + b) % 4
  {
    var q := a / 4;
    assert a == 4 * q + a % 4;
  }

  lemma PadShifts(ph: Phase, align: Width)
    ensures Shift(ph, PadLen(ph, align)) == Aligned(ph, align)
  {
  }
}
