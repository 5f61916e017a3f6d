/**
 The Type 2 charstring interpreter of stb_truetype.h as a function (Adobe Technical Note #5177).

 `Exec` runs a glyph's program from a state to its end; that it is a function at all is the
 termination theorem, by a measure over the bytes left at each call depth. Coordinates are
 reals: rounding of floats is not modelled.
 */
module Charstring {
  import opened Text

  // ------------------------------------------------------------------ buffers

  datatype Buf = Buf(data: seq<Byte>, cursor: nat)

  predicate BufOk(b: Buf) {
    b.cursor <= |b.data|
  }

  function Left(b: Buf): (n: nat)
    requires BufOk(b)
  {
    |b.data| - b.cursor
  }

  /** stbtt__buf_get8: 0, and no advance, at the end. */
  function Get8(b: Buf): (r: (Byte, Buf))
    requires BufOk(b)
    ensures BufOk(r.1) && r.1.data == b.data && b.cursor <= r.1.cursor
    ensures Left(b) > 0 ==> Left(r.1) == Left(b) - 1
  {
    if b.cursor >= |b.data| then (0, b) else (b.data[b.cursor], b.(cursor := b.cursor + 1))
  }

  /** stbtt__buf_skip, with the assertion of stbtt__buf_seek compiled out. */
  function Skip(b: Buf, o: int): (r: Buf)
    ensures BufOk(r) && r.data == b.data
    ensures BufOk(b) && o >= 0 ==> b.cursor <= r.cursor
  {
    if b.cursor + o > |b.data| || b.cursor + o < 0 then b.(cursor := |b.data|) else b.(cursor := b.cursor + o)
  }

  function Get16(b: Buf): (r: (nat, Buf))
    requires BufOk(b)
    ensures BufOk(r.1) && r.1.data == b.data && b.cursor <= r.1.cursor && r.0 < 0x1_0000
  {
    var (h, b1) := Get8(b);
    var (l, b2) := Get8(b1);
    var hi: int := h;
    (hi * 0x100 + l, b2)
  }

  function Get32(b: Buf): (r: (nat, Buf))
    requires BufOk(b)
    ensures BufOk(r.1) && r.1.data == b.data && b.cursor <= r.1.cursor && r.0 < 0x1_0000_0000
  {
    var (h, b1) := Get16(b);
    var (l, b2) := Get16(b1);
    (h * 0x1_0000 + l, b2)
  }

  function Signed(v: int, bits: int): int
    requires bits > 0
  {
    (v + bits / 2) % bits - bits / 2
  }

  /** stbtt__cff_int on the first bytes that can start an operand, 29 excepted. */
  function CffInt(b: Buf): (r: (int, Buf))
    requires BufOk(b) && Left(b) > 0
    ensures BufOk(r.1) && r.1.data == b.data && b.cursor < r.1.cursor
  {
    var (c, b1) := Get8(b);
    var b0: int := c;
    if 32 <= b0 <= 246 then (b0 - 139, b1)
    else if 247 <= b0 <= 250 then
      var (l, b2) := Get8(b1);
      ((b0 - 247) * 256 + l + 108, b2)
    else if 251 <= b0 <= 254 then
      var (l, b2) := Get8(b1);
      (-(b0 - 251) * 256 - l - 108, b2)
    else if b0 == 28 then Get16(b1)
    else (0, b1)
  }

  /** The operand that starts with `b0`, just read. */
  function Operand(b0: Byte, b: Buf): (r: (real, Buf))
    requires BufOk(b) && b.cursor > 0
    ensures BufOk(r.1) && r.1.data == b.data && b.cursor <= r.1.cursor
  {
    if b0 == 255 then
      var (v, b1) := Get32(b);
      (Signed(v, 0x1_0000_0000) as real / 65536.0, b1)
    else
      var (v, b1) := CffInt(Skip(b, -1));
      (Signed(v, 0x1_0000) as real, b1)
  }

  // ------------------------------------------------------------------ drawing

  datatype Kind = Move | Line | Cubic

  datatype Vertex = Vertex(kind: Kind, x: int, y: int, cx: int, cy: int, cx1: int, cy1: int)

  /** The pen, the start of the open contour, and the vertices so far. */
  datatype Ctx = Ctx(x: real, y: real, firstX: real, firstY: real, vs: seq<Vertex>)

  /** Conversion of a float to int drops the fraction. */
  function Trunc(r: real): int {
    if r >= 0.0 then r.Floor else -(-r).Floor
  }

  function Emit(c: Ctx, v: Vertex): Ctx {
    c.(vs := c.vs + [v])
  }

  function CloseShape(c: Ctx): Ctx {
    if c.firstX != c.x || c.firstY != c.y
    then Emit(c, Vertex(Line, Trunc(c.firstX), Trunc(c.firstY), 0, 0, 0, 0))
    else c
  }

  function MoveTo(c: Ctx, dx: real, dy: real): Ctx {
    var d := CloseShape(c);
    var x, y := d.x + dx, d.y + dy;
    Emit(Ctx(x, y, x, y, d.vs), Vertex(Move, Trunc(x), Trunc(y), 0, 0, 0, 0))
  }

  function LineTo(c: Ctx, dx: real, dy: real): Ctx {
    var x, y := c.x + dx, c.y + dy;
    Emit(c.(x := x, y := y), Vertex(Line, Trunc(x), Trunc(y), 0, 0, 0, 0))
  }

  function CurveTo(c: Ctx, dx1: real, dy1: real, dx2: real, dy2: real, dx3: real, dy3: real): Ctx {
    var cx1, cy1 := c.x + dx1, c.y + dy1;
    var cx2, cy2 := cx1 + dx2, cy1 + dy2;
    var x, y := cx2 + dx3, cy2 + dy3;
    Emit(c.(x := x, y := y), Vertex(Cubic, Trunc(x), Trunc(y), Trunc(cx1), Trunc(cy1), Trunc(cx2), Trunc(cy2)))
  }

  type Ops = s: seq<real> | |s| <= 48

  /** Lines from operand `i` on, as long as both coordinates come before `end`. */
  function Lines(c: Ctx, s: Ops, i: nat, end: int): Ctx
    requires end <= |s|
    decreases end - i
  {
    if i + 1 < end then Lines(LineTo(c, s[i], s[i + 1]), s, i + 2, end) else c
  }

  /** Where that stops. */
  function LinesEnd(i: nat, end: int): nat
    decreases end - i
  {
    if i + 1 < end then LinesEnd(i + 2, end) else i
  }

  function AltLines(c: Ctx, s: Ops, i: nat, horizontal: bool): Ctx
    decreases |s| - i
  {
    if i >= |s| then c
    else AltLines(if horizontal then LineTo(c, s[i], 0.0) else LineTo(c, 0.0, s[i]), s, i + 1, !horizontal)
  }

  function AltCurves(c: Ctx, s: Ops, i: nat, horizontal: bool): Ctx
    decreases |s| - i
  {
    if i + 3 >= |s| then c
    else
      var last := if |s| - i == 5 then s[i + 4] else 0.0;
      AltCurves(if horizontal then CurveTo(c, s[i], 0.0, s[i + 1], s[i + 2], last, s[i + 3])
                else CurveTo(c, 0.0, s[i], s[i + 1], s[i + 2], s[i + 3], last), s, i + 4, !horizontal)
  }

  function Curves(c: Ctx, s: Ops, i: nat, end: int): Ctx
    requires end <= |s|
    decreases end - i
  {
    if i + 5 < end then Curves(CurveTo(c, s[i], s[i + 1], s[i + 2], s[i + 3], s[i + 4], s[i + 5]), s, i + 6, end) else c
  }

  function CurvesEnd(i: nat, end: int): nat
    decreases end - i
  {
    if i + 5 < end then CurvesEnd(i + 6, end) else i
  }

  /** vvcurveto and hhcurveto; `f` is the extra operand of the first curve. */
  function SideCurves(c: Ctx, s: Ops, i: nat, f: real, horizontal: bool): Ctx
    decreases |s| - i
  {
    if i + 3 >= |s| then c
    else
      SideCurves(if horizontal then CurveTo(c, s[i], f, s[i + 1], s[i + 2], s[i + 3], 0.0)
                 else CurveTo(c, f, s[i], s[i + 1], s[i + 2], 0.0, s[i + 3]), s, i + 4, 0.0, horizontal)
  }

  /** rcurveline and rlinecurve never run out of operands for their last part. */
  lemma {:induction false} LinesEndIs(i: nat, end: int)
    ensures i < end ==> LinesEnd(i, end) <= end
    decreases end - i
  {
    if i + 1 < end {
      LinesEndIs(i + 2, end);
      assert i + 2 >= end ==> LinesEnd(i + 2, end) == i + 2;
    }
  }

  lemma {:induction false} CurvesEndIs(i: nat, end: int)
    ensures i <= end ==> CurvesEnd(i, end) <= end
    decreases end - i
  {
    if i + 5 < end {
      CurvesEndIs(i + 6, end);
    }
  }

  predicate IsDraw(b0: Byte) {
    b0 == 0x15 || 0x04 <= b0 <= 0x08 || b0 == 0x16 || 0x18 <= b0 <= 0x1B || b0 == 0x1E || b0 == 0x1F
  }

  /** The least number of operands. */
  function Needs(b0: Byte): nat
    requires IsDraw(b0)
  {
    if b0 == 0x15 || b0 == 0x05 then 2
    else if b0 == 0x04 || b0 == 0x16 || b0 == 0x06 || b0 == 0x07 then 1
    else if b0 == 0x08 then 6
    else if b0 == 0x18 || b0 == 0x19 then 8
    else 4
  }

  /** The drawing operators. */
  function Draw(b0: Byte, s: Ops, c: Ctx): Ctx
    requires IsDraw(b0) && |s| >= Needs(b0)
  {
    var n := |s|;
    if b0 == 0x15 then MoveTo(c, s[n - 2], s[n - 1])
    else if b0 == 0x04 then MoveTo(c, 0.0, s[n - 1])
    else if b0 == 0x16 then MoveTo(c, s[n - 1], 0.0)
    else if b0 == 0x05 then Lines(c, s, 0, n)
    else if b0 == 0x06 then AltLines(c, s, 0, true)
    else if b0 == 0x07 then AltLines(c, s, 0, false)
    else if b0 == 0x1E then AltCurves(c, s, 0, false)
    else if b0 == 0x1F then AltCurves(c, s, 0, true)
    else if b0 == 0x08 then Curves(c, s, 0, n)
    else if b0 == 0x18 then
      CurvesEndIs(0, n - 2);
      var i := CurvesEnd(0, n - 2);
      LineTo(Curves(c, s, 0, n - 2), s[i], s[i + 1])
    else if b0 == 0x19 then
      LinesEndIs(0, n - 6);
      var i := LinesEnd(0, n - 6);
      CurveTo(Lines(c, s, 0, n - 6), s[i], s[i + 1], s[i + 2], s[i + 3], s[i + 4], s[i + 5])
    else if n % 2 == 1 then SideCurves(c, s, 1, s[0], b0 == 0x1B)
    else SideCurves(c, s, 0, 0.0, b0 == 0x1B)
  }

  function Abs(r: real): real {
    if r < 0.0 then -r else r
  }

  function FlexNeeds(b1: Byte): nat {
    if b1 == 0x22 then 7 else if b1 == 0x23 then 13 else if b1 == 0x24 then 9 else 11
  }

  /** The four flex operators: two curves each. */
  function Flex(b1: Byte, s: Ops, c: Ctx): Ctx
    requires 0x22 <= b1 <= 0x25 && |s| >= FlexNeeds(b1)
  {
    if b1 == 0x22 then
      CurveTo(CurveTo(c, s[0], 0.0, s[1], s[2], s[3], 0.0), s[4], 0.0, s[5], -s[2], s[6], 0.0)
    else if b1 == 0x23 then
      CurveTo(CurveTo(c, s[0], s[1], s[2], s[3], s[4], s[5]), s[6], s[7], s[8], s[9], s[10], s[11])
    else if b1 == 0x24 then
      CurveTo(CurveTo(c, s[0], s[1], s[2], s[3], s[4], 0.0), s[5], 0.0, s[6], s[7], s[8], -(s[1] + s[3] + s[7]))
    else
      var dx := s[0] + s[2] + s[4] + s[6] + s[8];
      var dy := s[1] + s[3] + s[5] + s[7] + s[9];
      var flat := Abs(dx) > Abs(dy);
      CurveTo(CurveTo(c, s[0], s[1], s[2], s[3], s[4], s[5]), s[6], s[7], s[8], s[9],
              if flat then s[10] else -dx, if flat then -dy else s[10])
  }

  // ------------------------------------------- the font dictionary of a glyph

  /** What the readers find at a position of FDSelect: 0 past the end. */
  function ByteAt(d: seq<Byte>, p: nat): Byte {
    if p < |d| then d[p] else 0
  }

  function WordAt(d: seq<Byte>, p: nat): nat {
    var hi: int := ByteAt(d, p);
    hi * 0x100 + ByteAt(d, p + 1)
  }

  /** Format 3: the number of ranges, the first glyph of each, which for one more is the sentinel,
      and its font dictionary. */
  function Ranges(d: seq<Byte>): nat {
    WordAt(d, 1)
  }

  function RangeStart(d: seq<Byte>, i: nat): nat {
    WordAt(d, 3 + 3 * i)
  }

  function RangeDict(d: seq<Byte>, i: nat): Byte {
    ByteAt(d, 5 + 3 * i)
  }

  predicate InRange(d: seq<Byte>, i: nat, glyph: nat) {
    RangeStart(d, i) <= glyph < RangeStart(d, i + 1)
  }

  /** The dictionary of the first range from `i` on that holds the glyph, -1 when there is none. */
  function FirstRange(d: seq<Byte>, glyph: nat, i: nat): int
    requires i <= Ranges(d)
    decreases Ranges(d) - i
  {
    if i == Ranges(d) then -1 else if InRange(d, i, glyph) then RangeDict(d, i) else FirstRange(d, glyph, i + 1)
  }

  function Selector(d: seq<Byte>, glyph: nat): int {
    if ByteAt(d, 0) == 0 then ByteAt(d, 1 + glyph)
    else if ByteAt(d, 0) == 3 then FirstRange(d, glyph, 0)
    else -1
  }

  /** Section 19 of Adobe Technical Note #5176: the ranges of format 3 rise from glyph 0. */
  ghost predicate RangesOk(d: seq<Byte>) {
    && ByteAt(d, 0) == 3 && RangeStart(d, 0) == 0
    && forall i :: 0 <= i < Ranges(d) ==> RangeStart(d, i) < RangeStart(d, i + 1)
  }

  lemma {:induction false} StartsRise(d: seq<Byte>, i: nat, j: nat)
    requires RangesOk(d) && i <= j <= Ranges(d)
    ensures RangeStart(d, i) <= RangeStart(d, j)
    decreases j
  {
    hide RangeStart, Ranges;
    if i < j {
      StartsRise(d, i, j - 1);
      assert RangeStart(d, j - 1) < RangeStart(d, j - 1 + 1);
    }
  }

  lemma {:induction false} FirstRangeIs(d: seq<Byte>, glyph: nat, i: nat)
    requires RangesOk(d) && i <= Ranges(d) && RangeStart(d, i) <= glyph
    ensures FirstRange(d, glyph, i) == -1 <==> glyph >= RangeStart(d, Ranges(d))
    ensures forall k :: i <= k < Ranges(d) && InRange(d, k, glyph) ==> FirstRange(d, glyph, i) == RangeDict(d, k)
    decreases Ranges(d) - i
  {
    hide RangeStart, Ranges, RangeDict;
    if i < Ranges(d) {
      StartsRise(d, i + 1, Ranges(d));
      if InRange(d, i, glyph) {
        forall k | i < k < Ranges(d)
          ensures !InRange(d, k, glyph)
        {
          StartsRise(d, i + 1, k);
        }
      } else {
        FirstRangeIs(d, glyph, i + 1);
      }
    }
  }

  /** In a well-formed table the selector is that of the range that holds the glyph; there is none,
      and the lookup goes on with -1, exactly from the sentinel on. */
  lemma SelectorMeansRange(d: seq<Byte>, glyph: nat)
    requires RangesOk(d)
    ensures Selector(d, glyph) == -1 <==> glyph >= RangeStart(d, Ranges(d))
    ensures forall i :: 0 <= i < Ranges(d) && InRange(d, i, glyph) ==> Selector(d, glyph) == RangeDict(d, i)
  {
    hide RangeStart, Ranges, RangeDict;
    FirstRangeIs(d, glyph, 0);
  }

  lemma Get8At(b: Buf, p: nat)
    requires b.cursor == if p <= |b.data| then p else |b.data|
    ensures Get8(b).0 == ByteAt(b.data, p)
    ensures Get8(b).1.cursor == if p + 1 <= |b.data| then p + 1 else |b.data|
  {
  }

  lemma Get16At(b: Buf, p: nat)
    requires b.cursor == if p <= |b.data| then p else |b.data|
    ensures Get16(b).0 == WordAt(b.data, p)
    ensures Get16(b).1.cursor == if p + 2 <= |b.data| then p + 2 else |b.data|
  {
    Get8At(b, p);
    Get8At(Get8(b).1, p + 1);
  }

  /** The first part of stbtt__cid_get_glyph_subrs. */
  method SelectDict(d: seq<Byte>, glyph: nat) returns (selector: int)
    ensures selector == Selector(d, glyph)
  {
    hide Get8, Get16, ByteAt, WordAt;
    selector := -1;
    Get8At(Buf(d, 0), 0);
    var (format, b) := Get8(Buf(d, 0));
    if format == 0 {
      b := Skip(b, glyph);
      Get8At(b, 1 + glyph);
      selector := Get8(b).0;
    } else if format == 3 {
      Get16At(b, 1);
      var (count, b1) := Get16(b);
      Get16At(b1, 3);
      var (start, b2) := Get16(b1);
      b := b2;
      var i := 0;
      while i < count
        invariant 0 <= i <= count == Ranges(d) && start == RangeStart(d, i)
        invariant b.data == d && b.cursor == if 5 + 3 * i <= |d| then 5 + 3 * i else |d|
        invariant selector == -1 && FirstRange(d, glyph, i) == FirstRange(d, glyph, 0)
      {
        Get8At(b, 5 + 3 * i);
        var (v, b3) := Get8(b);
        Get16At(b3, 6 + 3 * i);
        var (end, b4) := Get16(b3);
        b := b4;
        assert 3 + 3 * (i + 1) == 6 + 3 * i;
        if start <= glyph < end {
          selector := v;
          break;
        }
        start := end;
        i := i + 1;
      }
    }
  }

  // ------------------------------------------------------------- the machine

  const MAX_CALLS: nat := 10

  /** The program of a glyph and the subroutines it can call: the local ones of the font, or of the
      font dictionary that FDSelect gives the glyph, and the global ones. */
  datatype Font = Font(program: seq<Byte>, glyph: nat, fdselect: seq<Byte>, dictSubrs: int -> seq<seq<Byte>>,
                       subrs: seq<seq<Byte>>, gsubrs: seq<seq<Byte>>)

  function LocalSubrs(font: Font): seq<seq<Byte>> {
    if font.fdselect == [] then font.subrs else font.dictSubrs(Selector(font.fdselect, font.glyph))
  }

  /** `frames` are the suspended programs, outermost first, with the running one at the end. */
  datatype State = State(frames: seq<Buf>, ops: Ops, inHeader: bool, maskbits: nat, ctx: Ctx)

  datatype Result = Next(st: State) | Stop(ok: bool, ctx: Ctx)

  ghost predicate StateOk(st: State) {
    && 1 <= |st.frames| <= MAX_CALLS + 1
    && forall i :: 0 <= i < |st.frames| ==> BufOk(st.frames[i])
  }

  function Top(st: State): Buf
    requires st.frames != []
  {
    st.frames[|st.frames| - 1]
  }

  function SetTop(st: State, b: Buf): State
    requires st.frames != []
  {
    st.(frames := st.frames[|st.frames| - 1 := b])
  }

  /** stbtt__get_subr. */
  function GetSubr(idx: seq<seq<Byte>>, n: int): seq<Byte> {
    var bias := if |idx| >= 33900 then 32768 else if |idx| >= 1240 then 1131 else 107;
    if n + bias < 0 || n + bias >= |idx| then [] else idx[n + bias]
  }

  predicate IsHint(b0: Byte) {
    b0 == 0x01 || b0 == 0x03 || b0 == 0x12 || b0 == 0x17
  }

  predicate IsMask(b0: Byte) {
    b0 == 0x13 || b0 == 0x14
  }

  /** callsubr and callgsubr. */
  function Call(font: Font, st: State, local: bool): Result
    requires st.frames != []
  {
    if st.ops == [] then Stop(false, st.ctx)
    else
      var v := Trunc(st.ops[|st.ops| - 1]);
      var code := GetSubr(if local then LocalSubrs(font) else font.gsubrs, v);
      if |st.frames| > MAX_CALLS || code == [] then Stop(false, st.ctx)
      else Next(st.(ops := st.ops[..|st.ops| - 1], frames := st.frames + [Buf(code, 0)]))
  }

  /** What operator `b0` does once it has been read; an operator that is not a call, a return or
      an operand clears the operands. */
  function Perform(font: Font, st: State, b0: Byte): Result
    requires StateOk(st) && Top(st).cursor > 0
  {
    var n := |st.ops|;
    if IsMask(b0) then
      var bits := if st.inHeader then st.maskbits + n / 2 else st.maskbits;
      Next(SetTop(st, Skip(Top(st), (bits + 7) / 8)).(ops := [], inHeader := false, maskbits := bits))
    else if IsHint(b0) then Next(st.(ops := [], maskbits := st.maskbits + n / 2))
    else if IsDraw(b0) then
      if n < Needs(b0) then Stop(false, st.ctx)
      else
        var header := st.inHeader && b0 != 0x15 && b0 != 0x04 && b0 != 0x16;
        Next(st.(ops := [], inHeader := header, ctx := Draw(b0, st.ops, st.ctx)))
    else if b0 == 0x0A || b0 == 0x1D then Call(font, st, b0 == 0x0A)
    else if b0 == 0x0B then
      if |st.frames| == 1 then Stop(false, st.ctx) else Next(st.(frames := st.frames[..|st.frames| - 1]))
    else if b0 == 0x0E then Stop(true, CloseShape(st.ctx))
    else if b0 == 0x0C then
      var (b1, b) := Get8(Top(st));
      if !(0x22 <= b1 <= 0x25) || n < FlexNeeds(b1) then Stop(false, st.ctx)
      else Next(SetTop(st, b).(ops := [], ctx := Flex(b1, st.ops, st.ctx)))
    else if b0 != 255 && b0 != 28 && b0 < 32 then Stop(false, st.ctx)
    else
      var (f, b) := Operand(b0, Top(st));
      if n >= 48 then Stop(false, st.ctx) else Next(SetTop(st, b).(ops := st.ops + [f]))
  }

  /** One round of the interpreter's loop. */
  function Step(font: Font, st: State): Result
    requires StateOk(st)
  {
    if Left(Top(st)) == 0 then Stop(false, st.ctx)
    else
      var (b0, b) := Get8(Top(st));
      Perform(font, SetTop(st, b), b0)
  }

  // ------------------------------------------------------------- termination

  /** The measure at call depth `k`: nothing when no program runs there, else one more than the
      bytes it has left. */
  function Measure(st: State, k: nat): nat
    requires StateOk(st)
  {
    if k < |st.frames| then Left(st.frames[k]) + 1 else 0
  }

  /** `t` comes after `s`: at the depth of the running program the measure has dropped, and it
      is unchanged further out. */
  ghost predicate Progress(s: State, t: State)
    requires StateOk(s)
  {
    && StateOk(t)
    && Measure(t, |s.frames| - 1) < Measure(s, |s.frames| - 1)
    && forall k :: 0 <= k < |s.frames| - 1 ==> Measure(t, k) == Measure(s, k)
  }

  lemma PerformKeeps(font: Font, st: State, b0: Byte)
    requires StateOk(st) && Top(st).cursor > 0
    ensures var r := Perform(font, st, b0);
            r.Next? ==>
              && StateOk(r.st)
              && Measure(r.st, |st.frames| - 1) <= Measure(st, |st.frames| - 1)
              && forall k :: 0 <= k < |st.frames| - 1 ==> Measure(r.st, k) == Measure(st, k)
  {
    hide Draw, Flex, Operand, GetSubr, CloseShape, Needs, FlexNeeds;
  }

  /** Every step makes progress, also one that calls or returns. */
  lemma StepProgresses(font: Font, st: State)
    requires StateOk(st)
    ensures Step(font, st).Next? ==> Progress(st, Step(font, st).st)
  {
    hide Perform;
    if Left(Top(st)) > 0 {
      var (b0, b) := Get8(Top(st));
      PerformKeeps(font, SetTop(st, b), b0);
    }
  }

  /** The measures at all depths, outermost first, in lexicographic order. */
  function Exec(font: Font, st: State): (r: Result)
    requires StateOk(st)
    ensures r.Stop?
    decreases Measure(st, 0), Measure(st, 1), Measure(st, 2), Measure(st, 3), Measure(st, 4), Measure(st, 5),
              Measure(st, 6), Measure(st, 7), Measure(st, 8), Measure(st, 9), Measure(st, 10)
  {
    hide Step, Measure;
    StepProgresses(font, st);
    match Step(font, st)
    case Stop(ok, ctx) => Stop(ok, ctx)
    case Next(t) =>
      Depth(st);
      Exec(font, t)
  }

  lemma Depth(st: State)
    requires StateOk(st)
    ensures |st.frames| <= 11
  {
  }

  function Begin(font: Font): State {
    State([Buf(font.program, 0)], [], true, 0, Ctx(0.0, 0.0, 0.0, 0.0, []))
  }

  // -------------------------------------------------------- vertices only grow

  lemma {:induction false} LinesGrow(c: Ctx, s: Ops, i: nat, end: int)
    requires end <= |s|
    ensures c.vs <= Lines(c, s, i, end).vs
    decreases end - i
  {
    if i + 1 < end {
      LinesGrow(LineTo(c, s[i], s[i + 1]), s, i + 2, end);
    }
  }

  lemma {:induction false} AltLinesGrow(c: Ctx, s: Ops, i: nat, horizontal: bool)
    ensures c.vs <= AltLines(c, s, i, horizontal).vs
    decreases |s| - i
  {
    if i < |s| {
      AltLinesGrow(if horizontal then LineTo(c, s[i], 0.0) else LineTo(c, 0.0, s[i]), s, i + 1, !horizontal);
    }
  }

  lemma {:induction false} AltCurvesGrow(c: Ctx, s: Ops, i: nat, horizontal: bool)
    ensures c.vs <= AltCurves(c, s, i, horizontal).vs
    decreases |s| - i
  {
    if i + 3 < |s| {
      var last := if |s| - i == 5 then s[i + 4] else 0.0;
      AltCurvesGrow(if horizontal then CurveTo(c, s[i], 0.0, s[i + 1], s[i + 2], last, s[i + 3])
                    else CurveTo(c, 0.0, s[i], s[i + 1], s[i + 2], s[i + 3], last), s, i + 4, !horizontal);
    }
  }

  lemma {:induction false} CurvesGrow(c: Ctx, s: Ops, i: nat, end: int)
    requires end <= |s|
    ensures c.vs <= Curves(c, s, i, end).vs
    decreases end - i
  {
    if i + 5 < end {
      CurvesGrow(CurveTo(c, s[i], s[i + 1], s[i + 2], s[i + 3], s[i + 4], s[i + 5]), s, i + 6, end);
    }
  }

  lemma {:induction false} SideCurvesGrow(c: Ctx, s: Ops, i: nat, f: real, horizontal: bool)
    ensures c.vs <= SideCurves(c, s, i, f, horizontal).vs
    decreases |s| - i
  {
    if i + 3 < |s| {
      SideCurvesGrow(if horizontal then CurveTo(c, s[i], f, s[i + 1], s[i + 2], s[i + 3], 0.0)
                     else CurveTo(c, f, s[i], s[i + 1], s[i + 2], 0.0, s[i + 3]), s, i + 4, 0.0, horizontal);
    }
  }

  lemma DrawGrows(b0: Byte, s: Ops, c: Ctx)
    requires IsDraw(b0) && |s| >= Needs(b0)
    ensures c.vs <= Draw(b0, s, c).vs
  {
    hide Lines, AltLines, AltCurves, Curves, SideCurves, Trunc;
    var n := |s|;
    LinesGrow(c, s, 0, n);
    AltLinesGrow(c, s, 0, b0 == 0x06);
    AltCurvesGrow(c, s, 0, b0 == 0x1F);
    CurvesGrow(c, s, 0, n);
    if n >= 8 {
      CurvesGrow(c, s, 0, n - 2);
      LinesGrow(c, s, 0, n - 6);
    }
    SideCurvesGrow(c, s, 1, s[0], b0 == 0x1B);
    SideCurvesGrow(c, s, 0, 0.0, b0 == 0x1B);
  }

  function CtxOf(r: Result): Ctx {
    match r
    case Next(st) => st.ctx
    case Stop(_, ctx) => ctx
  }

  lemma StepGrows(font: Font, st: State)
    requires StateOk(st)
    ensures st.ctx.vs <= CtxOf(Step(font, st)).vs
  {
    hide Draw, Operand, GetSubr, Trunc, Needs, FlexNeeds, IsDraw;
    if Left(Top(st)) > 0 {
      var b0 := Get8(Top(st)).0;
      if IsDraw(b0) && |st.ops| >= Needs(b0) {
        DrawGrows(b0, st.ops, st.ctx);
      }
    }
  }

  /** What has been drawn is never changed by the rest of the program. */
  lemma {:induction false} ExecGrows(font: Font, st: State)
    requires StateOk(st)
    ensures st.ctx.vs <= Exec(font, st).ctx.vs
    decreases Measure(st, 0), Measure(st, 1), Measure(st, 2), Measure(st, 3), Measure(st, 4), Measure(st, 5),
              Measure(st, 6), Measure(st, 7), Measure(st, 8), Measure(st, 9), Measure(st, 10)
  {
    hide Step, Measure;
    StepProgresses(font, st);
    StepGrows(font, st);
    if Step(font, st).Next? {
      Depth(st);
      ExecGrows(font, Step(font, st).st);
    }
  }
}
