/**
 How a program is written in bytes: numbers (section 3.2 of Adobe Technical Note #5177), hint
 masks (section 4.3) and subroutine numbers (section 4.7 there, section 16 of Technical Note
 #5176), and that the interpreter reads them so.
 */
module CharstringCode {
  import opened Text
  import opened Charstring

  /** The bytes from the cursor on begin with `code`. */
  ghost predicate Ahead(b: Buf, code: seq<Byte>) {
    b.cursor + |code| <= |b.data| && forall k :: 0 <= k < |code| ==> b.data[b.cursor + k] == code[k]
  }

  ghost function Past(st: State, n: nat): State
    requires StateOk(st)
  {
    SetTop(st, Top(st).(cursor := Top(st).cursor + n))
  }

  // ---------------------------------------------------------------- numbers

  /** The shortest form of an integer of 16 bits: one byte up to 107, two up to 1131, else the
      byte 28 with the number in two's complement. */
  ghost function IntCode(n: int): seq<Byte>
    requires -0x8000 <= n < 0x8000
  {
    if -107 <= n <= 107 then [n + 139]
    else if 108 <= n <= 1131 then [247 + (n - 108) / 256, (n - 108) % 256]
    else if -1131 <= n <= -108 then [251 + (-n - 108) / 256, (-n - 108) % 256]
    else ShortCode(n)
  }

  ghost function ShortCode(n: int): seq<Byte>
    requires -0x8000 <= n < 0x8000
  {
    var u := if n < 0 then n + 0x1_0000 else n;
    [28, u / 0x100, u % 0x100]
  }

  /** The byte 255 with 16 bits before the point and 16 bits behind it. */
  ghost function FixedCode(n: int): seq<Byte>
    requires -0x8000_0000 <= n < 0x8000_0000
  {
    var u := if n < 0 then n + 0x1_0000_0000 else n;
    [255] + FixedBytes(u)
  }

  ghost function FixedBytes(u: nat): (c: seq<Byte>)
    requires u < 0x1_0000_0000
    ensures |c| == 4
  {
    [u / 0x100_0000, u / 0x1_0000 % 0x100, u / 0x100 % 0x100, u % 0x100]
  }

  lemma AheadAt(b: Buf, code: seq<Byte>, k: nat)
    requires Ahead(b, code) && k < |code|
    ensures b.cursor + k < |b.data| && b.data[b.cursor + k] == code[k]
  {
  }

  lemma AheadPart(b: Buf, code: seq<Byte>, i: nat, j: nat)
    requires Ahead(b, code) && i <= j <= |code|
    ensures Ahead(b.(cursor := b.cursor + i), code[i..j])
  {
    forall k | 0 <= k < j - i
      ensures b.data[b.cursor + i + k] == code[i..j][k]
    {
      AheadAt(b, code, i + k);
    }
  }

  lemma ByteRead(b: Buf, v: Byte)
    requires BufOk(b) && Ahead(b, [v])
    ensures Left(b) > 0 && Get8(b) == (v, b.(cursor := b.cursor + 1))
  {
    AheadAt(b, [v], 0);
  }

  lemma WordRead(b: Buf, h: Byte, l: Byte)
    requires BufOk(b) && Ahead(b, [h, l])
    ensures var hi: int := h;
            Get16(b) == (hi * 0x100 + l, b.(cursor := b.cursor + 2))
  {
    AheadAt(b, [h, l], 0);
    AheadAt(b, [h, l], 1);
  }

  lemma LongRead(b: Buf, v: nat)
    requires BufOk(b) && v < 0x1_0000_0000 && Ahead(b, FixedBytes(v))
    ensures Get32(b) == (v, b.(cursor := b.cursor + 4))
  {
    hide Get16, Ahead;
    var c := FixedBytes(v);
    AheadPart(b, c, 0, 2);
    AheadPart(b, c, 2, 4);
    WordRead(b, c[0], c[1]);
    WordRead(b.(cursor := b.cursor + 2), c[2], c[3]);
    Digits(v);
  }

  lemma Digits(v: nat)
    requires v < 0x1_0000_0000
    ensures v == (v / 0x100_0000 * 0x100 + v / 0x1_0000 % 0x100) * 0x1_0000 + (v / 0x100 % 0x100 * 0x100 + v % 0x100)
  {
    assert v / 0x1_0000 == v / 0x100_0000 * 0x100 + v / 0x1_0000 % 0x100;
    assert v / 0x100 == v / 0x1_0000 * 0x100 + v / 0x100 % 0x100;
  }

  /** The operand that `code` stands for. */
  ghost predicate Denotes(b: Buf, code: seq<Byte>, r: real)
    requires BufOk(b) && code != [] && Ahead(b, code)
  {
    Operand(code[0], b.(cursor := b.cursor + 1)) == (r, b.(cursor := b.cursor + |code|))
  }

  lemma ShortRead(b: Buf, n: int)
    requires BufOk(b) && -0x8000 <= n < 0x8000 && Ahead(b, ShortCode(n))
    ensures Denotes(b, ShortCode(n), n as real)
  {
    hide Get16, Ahead;
    var code := ShortCode(n);
    AheadAt(b, code, 0);
    AheadPart(b, code, 1, 3);
    WordRead(b.(cursor := b.cursor + 1), code[1], code[2]);
  }

  lemma IntRead(b: Buf, n: int)
    requires BufOk(b) && -0x8000 <= n < 0x8000 && Ahead(b, IntCode(n))
    ensures Denotes(b, IntCode(n), n as real)
  {
    hide Get16, Ahead, ShortCode;
    var code := IntCode(n);
    if n < -1131 || n > 1131 {
      ShortRead(b, n);
    } else {
      hide Get32;
      AheadAt(b, code, 0);
      AheadAt(b, code, |code| - 1);
    }
  }

  lemma FixedRead(b: Buf, n: int)
    requires BufOk(b) && -0x8000_0000 <= n < 0x8000_0000 && Ahead(b, FixedCode(n))
    ensures Denotes(b, FixedCode(n), n as real / 65536.0)
  {
    hide Get32, CffInt, Ahead, FixedBytes;
    var u := if n < 0 then n + 0x1_0000_0000 else n;
    AheadAt(b, FixedCode(n), 0);
    AheadPart(b, FixedCode(n), 1, 5);
    assert FixedCode(n)[1..5] == FixedBytes(u);
    LongRead(b.(cursor := b.cursor + 1), u);
  }

  /** Whether it is a number: `code` pushes `r`, or is refused when there are 48 operands. */
  lemma NumberPushed(font: Font, st: State, code: seq<Byte>, r: real)
    requires StateOk(st) && code != [] && Ahead(Top(st), code) && Denotes(Top(st), code, r)
    requires code[0] == 28 || code[0] >= 32
    ensures Step(font, st) ==
              if |st.ops| < 48 then Next(Past(st, |code|).(ops := st.ops + [r])) else Stop(false, st.ctx)
  {
    hide Operand;
    AheadPart(Top(st), code, 0, 1);
    ByteRead(Top(st), code[0]);
  }

  /** Every integer of 16 bits and every fixed number is read back from its bytes. */
  lemma NumbersPushed(font: Font, st: State, n: int)
    requires StateOk(st) && |st.ops| < 48
    ensures -0x8000 <= n < 0x8000 && Ahead(Top(st), IntCode(n)) ==>
              Step(font, st) == Next(Past(st, |IntCode(n)|).(ops := st.ops + [n as real]))
    ensures -0x8000 <= n < 0x8000 && Ahead(Top(st), ShortCode(n)) ==>
              Step(font, st) == Next(Past(st, 3).(ops := st.ops + [n as real]))
    ensures -0x8000_0000 <= n < 0x8000_0000 && Ahead(Top(st), FixedCode(n)) ==>
              Step(font, st) == Next(Past(st, 5).(ops := st.ops + [n as real / 65536.0]))
  {
    hide Denotes, Ahead, Step;
    if -0x8000 <= n < 0x8000 && Ahead(Top(st), IntCode(n)) {
      IntRead(Top(st), n);
      NumberPushed(font, st, IntCode(n), n as real);
    }
    if -0x8000 <= n < 0x8000 && Ahead(Top(st), ShortCode(n)) {
      ShortRead(Top(st), n);
      NumberPushed(font, st, ShortCode(n), n as real);
    }
    if -0x8000_0000 <= n < 0x8000_0000 && Ahead(Top(st), FixedCode(n)) {
      FixedRead(Top(st), n);
      NumberPushed(font, st, FixedCode(n), n as real / 65536.0);
    }
  }

  // ------------------------------------------------------------------ masks

  lemma HintsCounted(font: Font, st: State, b0: Byte)
    requires StateOk(st) && b0 in {0x01, 0x03, 0x12, 0x17} && Ahead(Top(st), [b0])
    ensures Step(font, st) == Next(Past(st, 1).(ops := [], maskbits := st.maskbits + |st.ops| / 2))
  {
    hide Ahead;
    ByteRead(Top(st), b0);
  }

  /** A mask has one bit for each stem hint in whole bytes, and no byte more. Two operands are a
      stem, those before the first mask included, unless a contour has begun. */
  lemma MaskSkipsBits(font: Font, st: State, b0: Byte, stems: nat)
    requires StateOk(st) && b0 in {0x13, 0x14} && Ahead(Top(st), [b0])
    requires stems == st.maskbits + if st.inHeader then |st.ops| / 2 else 0
    requires Left(Top(st)) > (stems + 7) / 8
    ensures var r := Step(font, st);
            && r.Next? && r.st.ops == [] && !r.st.inHeader && r.st.maskbits == stems && r.st.ctx == st.ctx
            && exists k: nat :: 8 * k < stems + 8 && stems <= 8 * k && r.st.frames == Past(st, 1 + k).frames
  {
    hide Ahead;
    ByteRead(Top(st), b0);
    var k := (stems + 7) / 8;
    var b := Top(st).(cursor := Top(st).cursor + 1);
    assert Skip(b, k) == Top(st).(cursor := Top(st).cursor + (1 + k));
    assert Step(font, st).Next? && Step(font, st).st.maskbits == stems;
    assert Step(font, st).st.frames == Past(st, 1 + k).frames;
    assert 8 * k < stems + 8 && stems <= 8 * k;
  }

  /** Operators use up all operands, calls and returns none but the number; the header lasts until
      a mask or a moveto. */
  lemma OperatorsClear(font: Font, st: State, b0: Byte)
    requires StateOk(st) && Ahead(Top(st), [b0]) && b0 < 32 && b0 != 28 && Step(font, st).Next?
    ensures var t := Step(font, st).st;
            && (b0 !in {0x0A, 0x0B, 0x1D} ==> t.ops == [])
            && (b0 in {0x0A, 0x0B, 0x1D} ==> t.ops <= st.ops && t.ctx == st.ctx && t.maskbits == st.maskbits)
            && t.inHeader == (st.inHeader && b0 !in {0x13, 0x14, 0x04, 0x15, 0x16})
  {
    hide Ahead, Draw, Flex, Trunc, GetSubr, Needs, FlexNeeds;
    ByteRead(Top(st), b0);
  }

  /** The operators there are; every other is refused. */
  lemma OthersRefused(font: Font, st: State, b0: Byte)
    requires StateOk(st) && Ahead(Top(st), [b0]) && b0 < 28
    requires b0 !in {1, 3, 4, 5, 6, 7, 8, 10, 11, 12, 14, 18, 19, 20, 21, 22, 23, 24, 25, 26, 27}
    ensures Step(font, st) == Stop(false, st.ctx)
  {
    hide Ahead;
    ByteRead(Top(st), b0);
  }

  // ------------------------------------------------------------ subroutines

  /** Numbers count from minus the bias, which depends on how many subroutines there are. */
  lemma SubrNumbers(idx: seq<seq<Byte>>, n: int)
    ensures |idx| < 1240 && -107 <= n < |idx| - 107 ==> GetSubr(idx, n) == idx[n + 107]
    ensures 1240 <= |idx| < 33900 && -1131 <= n < |idx| - 1131 ==> GetSubr(idx, n) == idx[n + 1131]
    ensures 33900 <= |idx| && -32768 <= n < |idx| - 32768 ==> GetSubr(idx, n) == idx[n + 32768]
  {
  }

  /** A call takes its number, the last operand, and runs that subroutine from its first byte with
      the other operands. Its return, whatever the operands and the drawing then are, goes on behind
      the call. */
  lemma CallReturns(font: Font, st: State, n: int, local: bool, u: State)
    requires StateOk(st) && |st.frames| <= MAX_CALLS && Ahead(Top(st), [if local then 0x0A else 0x1D])
    requires st.ops != [] && st.ops[|st.ops| - 1] == n as real
    requires GetSubr(if local then LocalSubrs(font) else font.gsubrs, n) != []
    requires StateOk(u) && Ahead(Top(u), [0x0B])
    requires u.frames[..|u.frames| - 1] == Past(st, 1).frames
    ensures var code := GetSubr(if local then LocalSubrs(font) else font.gsubrs, n);
            Step(font, st) == Next(Past(st, 1).(frames := Past(st, 1).frames + [Buf(code, 0)],
                                                ops := st.ops[..|st.ops| - 1]))
    ensures Step(font, u) == Next(u.(frames := Past(st, 1).frames))
  {
    hide Ahead, GetSubr, LocalSubrs;
    ByteRead(Top(st), if local then 0x0A else 0x1D);
    ByteRead(Top(u), 0x0B);
    assert Trunc(n as real) == n;
  }

  /** 0 0 rmoveto, 100 hlineto, endchar: the contour, closed at the end. */
  lemma HLineDrawn(font: Font)
    requires font.program == [139, 139, 21, 239, 6, 14]
    ensures Exec(font, Begin(font)) ==
              Stop(true, Ctx(100.0, 0.0, 0.0, 0.0, [Vertex(Move, 0, 0, 0, 0, 0, 0), Vertex(Line, 100, 0, 0, 0, 0, 0),
                                                    Vertex(Line, 0, 0, 0, 0, 0, 0)]))
  {
    hide Step, Trunc;
    var d := Ctx(0.0, 0.0, 0.0, 0.0, [Vertex(Move, 0, 0, 0, 0, 0, 0)]);
    var e := Ctx(100.0, 0.0, 0.0, 0.0, d.vs + [Vertex(Line, 100, 0, 0, 0, 0, 0)]);
    HLineStarts(font, d);
    HLineEnds(font, d, e);
    assert e.vs + [Vertex(Line, 0, 0, 0, 0, 0, 0)]
           == [Vertex(Move, 0, 0, 0, 0, 0, 0), Vertex(Line, 100, 0, 0, 0, 0, 0), Vertex(Line, 0, 0, 0, 0, 0, 0)];
  }

  function At(font: Font, k: nat, ops: Ops, head: bool, ctx: Ctx): State {
    State([Buf(font.program, k)], ops, head, 0, ctx)
  }

  lemma HLineStarts(font: Font, d: Ctx)
    requires font.program == [139, 139, 21, 239, 6, 14]
    requires d == Ctx(0.0, 0.0, 0.0, 0.0, [Vertex(Move, 0, 0, 0, 0, 0, 0)])
    ensures Exec(font, Begin(font)) == Exec(font, At(font, 3, [], false, d))
  {
    hide Exec, Step;
    var c := Ctx(0.0, 0.0, 0.0, 0.0, []);
    NumbersPushed(font, At(font, 0, [], true, c), 0);
    RunOn(font, At(font, 0, [], true, c), At(font, 1, [0.0], true, c));
    NumbersPushed(font, At(font, 1, [0.0], true, c), 0);
    RunOn(font, At(font, 1, [0.0], true, c), At(font, 2, [0.0, 0.0], true, c));
    HLineMoves(font, c, d);
    RunOn(font, At(font, 2, [0.0, 0.0], true, c), At(font, 3, [], false, d));
  }

  lemma HLineMoves(font: Font, c: Ctx, d: Ctx)
    requires font.program == [139, 139, 21, 239, 6, 14]
    requires c == Ctx(0.0, 0.0, 0.0, 0.0, [])
    requires d == c.(vs := [Vertex(Move, 0, 0, 0, 0, 0, 0)])
    ensures Step(font, At(font, 2, [0.0, 0.0], true, c)) == Next(At(font, 3, [], false, d))
  {
  }

  lemma HLineLine(font: Font, d: Ctx, e: Ctx)
    requires font.program == [139, 139, 21, 239, 6, 14]
    requires d.x == 0.0 && d.y == 0.0 && e == d.(x := 100.0, vs := d.vs + [Vertex(Line, 100, 0, 0, 0, 0, 0)])
    ensures Step(font, At(font, 4, [100.0], false, d)) == Next(At(font, 5, [], false, e))
  {
    assert AltLines(d, [100.0], 0, true) == AltLines(LineTo(d, 100.0, 0.0), [100.0], 1, false);
  }

  lemma HLineEnds(font: Font, d: Ctx, e: Ctx)
    requires font.program == [139, 139, 21, 239, 6, 14]
    requires d == Ctx(0.0, 0.0, 0.0, 0.0, [Vertex(Move, 0, 0, 0, 0, 0, 0)])
    requires e == Ctx(100.0, 0.0, 0.0, 0.0, d.vs + [Vertex(Line, 100, 0, 0, 0, 0, 0)])
    ensures Exec(font, At(font, 3, [], false, d)) == Stop(true, Emit(e, Vertex(Line, 0, 0, 0, 0, 0, 0)))
  {
    assert Trunc(0.0) == 0;
    hide Exec, Step, Trunc;
    NumbersPushed(font, At(font, 3, [], false, d), 100);
    RunOn(font, At(font, 3, [], false, d), At(font, 4, [100.0], false, d));
    HLineLine(font, d, e);
    RunOn(font, At(font, 4, [100.0], false, d), At(font, 5, [], false, e));
    EndStops(font, At(font, 5, [], false, e));
  }

  lemma EndStops(font: Font, st: State)
    requires StateOk(st) && Ahead(Top(st), [14])
    ensures Exec(font, st) == Stop(true, CloseShape(st.ctx))
  {
    hide Ahead, CloseShape, Measure;
    ByteRead(Top(st), 14);
    assert Step(font, st) == Stop(true, CloseShape(st.ctx));
    hide Step;
  }

  lemma RunOn(font: Font, st: State, t: State)
    requires StateOk(st) && Step(font, st) == Next(t) && StateOk(t)
    ensures Exec(font, st) == Exec(font, t)
  {
    hide Step, Measure;
  }
}
