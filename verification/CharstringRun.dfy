/**
 The Type 2 interpreter of stb_truetype.h in place: a drawing context that either counts and
 measures or writes vertices, the interpreter's stacks, and the two passes over a glyph.
 */
module CharstringRun {
  import opened Text
  import opened Charstring

  // ------------------------------------------------------------------ extents

  /** The bounding box of what has been tracked so far. */
  datatype Extent = Empty | Box(minX: int, maxX: int, minY: int, maxY: int)

  function Add(e: Extent, x: int, y: int): Extent {
    match e
    case Empty => Box(x, x, y, y)
    case Box(a, b, c, d) =>
      Box(if x < a then x else a, if x > b then x else b, if y < c then y else c, if y > d then y else d)
  }

  function AddVertex(e: Extent, v: Vertex): Extent {
    var f := Add(e, v.x, v.y);
    if v.kind == Cubic then Add(Add(f, v.cx, v.cy), v.cx1, v.cy1) else f
  }

  function ExtentOf(vs: seq<Vertex>): (e: Extent)
    ensures e.Box? <==> vs != []
  {
    if vs == [] then Empty else AddVertex(ExtentOf(vs[..|vs| - 1]), vs[|vs| - 1])
  }

  lemma ExtentOfMore(vs: seq<Vertex>, v: Vertex)
    ensures ExtentOf(vs + [v]) == AddVertex(ExtentOf(vs), v)
  {
    assert (vs + [v])[..|vs|] == vs;
  }

  /** The end points, and for curves the control points. */
  ghost predicate IsPoint(vs: seq<Vertex>, x: int, y: int) {
    exists i :: 0 <= i < |vs| && PointOf(vs[i], x, y)
  }

  predicate PointOf(v: Vertex, x: int, y: int) {
    || (x == v.x && y == v.y)
    || (v.kind == Cubic && ((x == v.cx && y == v.cy) || (x == v.cx1 && y == v.cy1)))
  }

  /** The box holds every point of the outline. */
  lemma {:induction false} BoxHolds(vs: seq<Vertex>, x: int, y: int)
    requires IsPoint(vs, x, y)
    ensures var e := ExtentOf(vs); e.Box? && e.minX <= x <= e.maxX && e.minY <= y <= e.maxY
  {
    var i :| 0 <= i < |vs| && PointOf(vs[i], x, y);
    var n := |vs| - 1;
    if i < n {
      assert PointOf(vs[..n][i], x, y);
      BoxHolds(vs[..n], x, y);
    }
  }

  /** Each side of the box touches a point. */
  ghost predicate Touched(vs: seq<Vertex>, e: Extent) {
    && e.Box?
    && (exists y :: IsPoint(vs, e.minX, y)) && (exists y :: IsPoint(vs, e.maxX, y))
    && (exists x :: IsPoint(vs, x, e.minY)) && (exists x :: IsPoint(vs, x, e.maxY))
  }

  lemma AddTouched(vs: seq<Vertex>, e: Extent, x: int, y: int)
    requires (e.Empty? || Touched(vs, e)) && IsPoint(vs, x, y)
    ensures Touched(vs, Add(e, x, y))
  {
    hide IsPoint;
  }

  lemma TouchedMore(vs: seq<Vertex>, n: nat, e: Extent)
    requires n <= |vs| && Touched(vs[..n], e)
    ensures Touched(vs, e)
  {
    forall x, y | IsPoint(vs[..n], x, y)
      ensures IsPoint(vs, x, y)
    {
      var i :| 0 <= i < n && PointOf(vs[..n][i], x, y);
      assert PointOf(vs[i], x, y);
    }
    hide IsPoint;
  }

  lemma PointsOfLast(vs: seq<Vertex>)
    requires vs != []
    ensures var v := vs[|vs| - 1];
            && IsPoint(vs, v.x, v.y)
            && (v.kind == Cubic ==> IsPoint(vs, v.cx, v.cy) && IsPoint(vs, v.cx1, v.cy1))
  {
    var v := vs[|vs| - 1];
    assert PointOf(v, v.x, v.y);
    assert v.kind == Cubic ==> PointOf(v, v.cx, v.cy) && PointOf(v, v.cx1, v.cy1);
  }

  /** And the box is the smallest such: each of its sides touches a point. */
  lemma {:induction false} BoxTouches(vs: seq<Vertex>)
    requires vs != []
    ensures Touched(vs, ExtentOf(vs))
  {
    hide IsPoint, Touched, Add;
    var n := |vs| - 1;
    var v, e := vs[n], ExtentOf(vs[..n]);
    if n > 0 {
      BoxTouches(vs[..n]);
      TouchedMore(vs, n, e);
    }
    PointsOfLast(vs);
    AddTouched(vs, e, v.x, v.y);
    var f := Add(e, v.x, v.y);
    if v.kind == Cubic {
      AddTouched(vs, f, v.cx, v.cy);
      AddTouched(vs, Add(f, v.cx, v.cy), v.cx1, v.cy1);
    }
  }

  // ----------------------------------------------------------------- drawing

  /** stbtt_setvertex: coordinates are stored in 16 bits. */
  function Stored(v: Vertex): Vertex {
    Vertex(v.kind, Signed(v.x, 0x1_0000), Signed(v.y, 0x1_0000), Signed(v.cx, 0x1_0000), Signed(v.cy, 0x1_0000),
           Signed(v.cx1, 0x1_0000), Signed(v.cy1, 0x1_0000))
  }

  predicate Is16(n: int) {
    -0x8000 <= n < 0x8000
  }

  /** What is stored is the vertex itself exactly when its coordinates have 16 bits, and else one
      with the same low 16 bits. */
  lemma StoredIsVertex(v: Vertex)
    ensures Stored(v) == v <==> Is16(v.x) && Is16(v.y) && Is16(v.cx) && Is16(v.cy) && Is16(v.cx1) && Is16(v.cy1)
    ensures var w := Stored(v);
            && w.kind == v.kind && (w.x - v.x) % 0x1_0000 == 0 && (w.y - v.y) % 0x1_0000 == 0
            && (w.cx - v.cx) % 0x1_0000 == 0 && (w.cy - v.cy) % 0x1_0000 == 0
            && (w.cx1 - v.cx1) % 0x1_0000 == 0 && (w.cy1 - v.cy1) % 0x1_0000 == 0
  {
    hide Signed;
    SignedIs(v.x);
    SignedIs(v.y);
    SignedIs(v.cx);
    SignedIs(v.cy);
    SignedIs(v.cx1);
    SignedIs(v.cy1);
  }

  lemma SignedIs(n: int)
    ensures Signed(n, 0x1_0000) == n <==> Is16(n)
    ensures Is16(Signed(n, 0x1_0000)) && (Signed(n, 0x1_0000) - n) % 0x1_0000 == 0
  {
  }

  /** stbtt__csctx. */
  class Csctx {
    const bounds: bool
    const pvertices: array<Vertex>
    var started: bool
    var firstX: real
    var firstY: real
    var x: real
    var y: real
    var minX: int
    var maxX: int
    var minY: int
    var maxY: int
    var numVertices: nat
    ghost var vs: seq<Vertex>

    ghost predicate Valid()
      reads this, pvertices
    {
      && numVertices == |vs|
      && (bounds ==> Tracked() == ExtentOf(vs) && (!started ==> minX == maxX == minY == maxY == 0))
      && (!bounds ==> |vs| <= pvertices.Length && forall k :: 0 <= k < |vs| ==> pvertices[k] == Stored(vs[k]))
    }

    function Tracked(): Extent
      reads this
    {
      if started then Box(minX, maxX, minY, maxY) else Empty
    }

    ghost function Ctx(): Charstring.Ctx
      reads this
    {
      Charstring.Ctx(x, y, firstX, firstY, vs)
    }

    /** Whether the array is large enough; a context that only counts needs none. */
    ghost predicate Room(c: Charstring.Ctx) {
      bounds || |c.vs| <= pvertices.Length
    }

    /** STBTT__CSCTX_INIT, with the array for the output pass. */
    constructor (counting: bool, out: array<Vertex>)
      ensures Valid() && bounds == counting && pvertices == out && Ctx() == Charstring.Ctx(0.0, 0.0, 0.0, 0.0, [])
    {
      bounds, pvertices := counting, out;
      started, firstX, firstY, x, y := false, 0.0, 0.0, 0.0, 0.0;
      minX, maxX, minY, maxY, numVertices, vs := 0, 0, 0, 0, 0, [];
    }

    method TrackVertex(px: int, py: int)
      modifies `started, `minX, `maxX, `minY, `maxY
      ensures started && Tracked() == Add(old(Tracked()), px, py)
    {
      if px > maxX || !started {
        maxX := px;
      }
      if py > maxY || !started {
        maxY := py;
      }
      if px < minX || !started {
        minX := px;
      }
      if py < minY || !started {
        minY := py;
      }
      started := true;
    }

    method TrackAll(v: Vertex)
      modifies `started, `minX, `maxX, `minY, `maxY
      ensures started && Tracked() == AddVertex(old(Tracked()), v)
    {
      TrackVertex(v.x, v.y);
      if v.kind == Cubic {
        TrackVertex(v.cx, v.cy);
        TrackVertex(v.cx1, v.cy1);
      }
    }

    /** stbtt__csctx_v. */
    method PutVertex(v: Vertex)
      requires Valid() && Room(Emit(Ctx(), v))
      modifies this, pvertices
      ensures Valid() && Ctx() == Emit(old(Ctx()), v)
    {
      hide Stored, AddVertex, ExtentOf;
      ExtentOfMore(vs, v);
      if bounds {
        TrackAll(v);
      } else {
        pvertices[numVertices] := Stored(v);
      }
      vs := vs + [v];
      numVertices := numVertices + 1;
    }

    method Close()
      requires Valid() && Room(CloseShape(Ctx()))
      modifies this, pvertices
      ensures Valid() && Ctx() == CloseShape(old(Ctx()))
    {
      hide ExtentOf, Stored, Trunc;
      if firstX != x || firstY != y {
        PutVertex(Vertex(Line, Trunc(firstX), Trunc(firstY), 0, 0, 0, 0));
      }
    }

    method RMoveTo(dx: real, dy: real)
      requires Valid() && Room(MoveTo(Ctx(), dx, dy))
      modifies this, pvertices
      ensures Valid() && Ctx() == MoveTo(old(Ctx()), dx, dy)
    {
      hide ExtentOf, Stored, Trunc, CloseShape;
      Close();
      x := x + dx;
      y := y + dy;
      firstX, firstY := x, y;
      PutVertex(Vertex(Move, Trunc(x), Trunc(y), 0, 0, 0, 0));
    }

    method RLineTo(dx: real, dy: real)
      requires Valid() && Room(LineTo(Ctx(), dx, dy))
      modifies this, pvertices
      ensures Valid() && Ctx() == LineTo(old(Ctx()), dx, dy)
    {
      hide ExtentOf, Stored, Trunc;
      x := x + dx;
      y := y + dy;
      PutVertex(Vertex(Line, Trunc(x), Trunc(y), 0, 0, 0, 0));
    }

    method RCurveTo(dx1: real, dy1: real, dx2: real, dy2: real, dx3: real, dy3: real)
      requires Valid() && Room(CurveTo(Ctx(), dx1, dy1, dx2, dy2, dx3, dy3))
      modifies this, pvertices
      ensures Valid() && Ctx() == CurveTo(old(Ctx()), dx1, dy1, dx2, dy2, dx3, dy3)
    {
      hide ExtentOf, Stored, Trunc;
      var cx1 := x + dx1;
      var cy1 := y + dy1;
      var cx2 := cx1 + dx2;
      var cy2 := cy1 + dy2;
      x := cx2 + dx3;
      y := cy2 + dy3;
      PutVertex(Vertex(Cubic, Trunc(x), Trunc(y), Trunc(cx1), Trunc(cy1), Trunc(cx2), Trunc(cy2)));
    }

    /** rlineto, and the lines of rlinecurve. */
    method RunLines(s: array<real>, sp: nat, end: int) returns (i: nat)
      requires Valid() && sp <= s.Length == 48 && end <= sp && Room(Lines(Ctx(), s[..sp], 0, end))
      modifies this, pvertices
      ensures Valid() && Ctx() == Lines(old(Ctx()), s[..sp], 0, end) && i == LinesEnd(0, end)
    {
      hide ExtentOf, Stored, LineTo, Valid;
      ghost var ops := s[..sp];
      i := 0;
      while i + 1 < end
        invariant Valid() && s[..sp] == ops
        invariant Lines(Ctx(), ops, i, end) == Lines(old(Ctx()), ops, 0, end) && LinesEnd(i, end) == LinesEnd(0, end)
        decreases end - i
      {
        LinesGrow(LineTo(Ctx(), s[i], s[i + 1]), ops, i + 2, end);
        RLineTo(s[i], s[i + 1]);
        i := i + 2;
      }
    }
  
    /** hlineto and vlineto: the two halves of the C loop, entered at either. */
    method RunAltLines(s: array<real>, sp: nat, first: bool)
      requires Valid() && sp <= s.Length == 48 && Room(AltLines(Ctx(), s[..sp], 0, first))
      modifies this, pvertices
      ensures Valid() && Ctx() == AltLines(old(Ctx()), s[..sp], 0, first)
    {
      hide ExtentOf, Stored, LineTo, Valid;
      ghost var ops := s[..sp];
      var i, horizontal := 0, first;
      while i < sp
        invariant Valid() && s[..sp] == ops && i <= sp
        invariant AltLines(Ctx(), ops, i, horizontal) == AltLines(old(Ctx()), ops, 0, first)
      {
        AltLinesGrow(if horizontal then LineTo(Ctx(), s[i], 0.0) else LineTo(Ctx(), 0.0, s[i]), ops, i + 1,
                     !horizontal);
        if horizontal {
          RLineTo(s[i], 0.0);
        } else {
          RLineTo(0.0, s[i]);
        }
        i := i + 1;
        horizontal := !horizontal;
      }
    }

    /** hvcurveto and vhcurveto. */
    method RunAltCurves(s: array<real>, sp: nat, first: bool)
      requires Valid() && sp <= s.Length == 48 && Room(AltCurves(Ctx(), s[..sp], 0, first))
      modifies this, pvertices
      ensures Valid() && Ctx() == AltCurves(old(Ctx()), s[..sp], 0, first)
    {
      hide ExtentOf, Stored, CurveTo, Valid;
      ghost var ops := s[..sp];
      var i, horizontal := 0, first;
      while i + 3 < sp
        invariant Valid() && s[..sp] == ops && i <= sp
        invariant AltCurves(Ctx(), ops, i, horizontal) == AltCurves(old(Ctx()), ops, 0, first)
      {
        var last := if sp - i == 5 then s[i + 4] else 0.0;
        AltCurvesGrow(if horizontal then CurveTo(Ctx(), s[i], 0.0, s[i + 1], s[i + 2], last, s[i + 3])
                      else CurveTo(Ctx(), 0.0, s[i], s[i + 1], s[i + 2], s[i + 3], last), ops, i + 4, !horizontal);
        if horizontal {
          RCurveTo(s[i], 0.0, s[i + 1], s[i + 2], last, s[i + 3]);
        } else {
          RCurveTo(0.0, s[i], s[i + 1], s[i + 2], s[i + 3], last);
        }
        i := i + 4;
        horizontal := !horizontal;
      }
    }

    /** rrcurveto, and the curves of rcurveline. */
    method RunCurves(s: array<real>, sp: nat, end: int) returns (i: nat)
      requires Valid() && sp <= s.Length == 48 && end <= sp && Room(Curves(Ctx(), s[..sp], 0, end))
      modifies this, pvertices
      ensures Valid() && Ctx() == Curves(old(Ctx()), s[..sp], 0, end) && i == CurvesEnd(0, end)
    {
      hide ExtentOf, Stored, CurveTo, Valid;
      ghost var ops := s[..sp];
      i := 0;
      while i + 5 < end
        invariant Valid() && s[..sp] == ops
        invariant Curves(Ctx(), ops, i, end) == Curves(old(Ctx()), ops, 0, end)
        invariant CurvesEnd(i, end) == CurvesEnd(0, end)
        decreases end - i
      {
        CurvesGrow(CurveTo(Ctx(), s[i], s[i + 1], s[i + 2], s[i + 3], s[i + 4], s[i + 5]), ops, i + 6, end);
        RCurveTo(s[i], s[i + 1], s[i + 2], s[i + 3], s[i + 4], s[i + 5]);
        i := i + 6;
      }
    }

    /** vvcurveto and hhcurveto. */
    method RunSideCurves(s: array<real>, sp: nat, i0: nat, f0: real, horizontal: bool)
      requires Valid() && sp <= s.Length == 48 && Room(SideCurves(Ctx(), s[..sp], i0, f0, horizontal))
      modifies this, pvertices
      ensures Valid() && Ctx() == SideCurves(old(Ctx()), s[..sp], i0, f0, horizontal)
    {
      hide ExtentOf, Stored, CurveTo, Valid;
      ghost var ops := s[..sp];
      var i, f := i0, f0;
      while i + 3 < sp
        invariant Valid() && s[..sp] == ops
        invariant SideCurves(Ctx(), ops, i, f, horizontal) == SideCurves(old(Ctx()), ops, i0, f0, horizontal)
      {
        SideCurvesGrow(if horizontal then CurveTo(Ctx(), s[i], f, s[i + 1], s[i + 2], s[i + 3], 0.0)
                       else CurveTo(Ctx(), f, s[i], s[i + 1], s[i + 2], 0.0, s[i + 3]), ops, i + 4, 0.0, horizontal);
        if horizontal {
          RCurveTo(s[i], f, s[i + 1], s[i + 2], s[i + 3], 0.0);
        } else {
          RCurveTo(f, s[i], s[i + 1], s[i + 2], 0.0, s[i + 3]);
        }
        f := 0.0;
        i := i + 4;
      }
    }

    /** The cases of the switch that draw. */
    method RunDraw(b0: Byte, s: array<real>, sp: nat)
      requires Valid() && sp <= s.Length == 48 && IsDraw(b0) && sp >= Needs(b0) && Room(Draw(b0, s[..sp], Ctx()))
      modifies this, pvertices
      ensures Valid() && Ctx() == Draw(b0, s[..sp], old(Ctx()))
    {
      hide Valid, MoveTo, LineTo, CurveTo, Lines, AltLines, AltCurves, Curves, SideCurves, LinesEnd, CurvesEnd;
      if b0 == 0x15 {
        RMoveTo(s[sp - 2], s[sp - 1]);
      } else if b0 == 0x04 {
        RMoveTo(0.0, s[sp - 1]);
      } else if b0 == 0x16 {
        RMoveTo(s[sp - 1], 0.0);
      } else if b0 == 0x05 {
        var i := RunLines(s, sp, sp);
      } else if b0 == 0x06 || b0 == 0x07 {
        RunAltLines(s, sp, b0 == 0x06);
      } else if b0 == 0x1E || b0 == 0x1F {
        RunAltCurves(s, sp, b0 == 0x1F);
      } else if b0 == 0x08 {
        var i := RunCurves(s, sp, sp);
      } else if b0 == 0x18 {
        RunCurveLine(s, sp);
      } else if b0 == 0x19 {
        RunLineCurve(s, sp);
      } else if sp % 2 == 1 {
        RunSideCurves(s, sp, 1, s[0], b0 == 0x1B);
      } else {
        RunSideCurves(s, sp, 0, 0.0, b0 == 0x1B);
      }
    }

    /** rcurveline: the check for the line's operands in the C code never fires. */
    method RunCurveLine(s: array<real>, sp: nat)
      requires Valid() && 8 <= sp <= s.Length == 48 && Room(Draw(0x18, s[..sp], Ctx()))
      modifies this, pvertices
      ensures Valid() && Ctx() == Draw(0x18, s[..sp], old(Ctx()))
    {
      hide Valid, CurveTo, Curves, CurvesEnd;
      CurvesEndIs(0, sp - 2);
      RoomForLess(Curves(Ctx(), s[..sp], 0, sp - 2), Draw(0x18, s[..sp], Ctx()));
      var i := RunCurves(s, sp, sp - 2);
      RLineTo(s[i], s[i + 1]);
    }

    /** rlinecurve: likewise. */
    method RunLineCurve(s: array<real>, sp: nat)
      requires Valid() && 8 <= sp <= s.Length == 48 && Room(Draw(0x19, s[..sp], Ctx()))
      modifies this, pvertices
      ensures Valid() && Ctx() == Draw(0x19, s[..sp], old(Ctx()))
    {
      hide Valid, Lines, LineTo, LinesEnd;
      LinesEndIs(0, sp - 6);
      RoomForLess(Lines(Ctx(), s[..sp], 0, sp - 6), Draw(0x19, s[..sp], Ctx()));
      var i := RunLines(s, sp, sp - 6);
      RCurveTo(s[i], s[i + 1], s[i + 2], s[i + 3], s[i + 4], s[i + 5]);
    }

    lemma RoomForLess(c: Charstring.Ctx, d: Charstring.Ctx)
      requires Room(d) && c.vs <= d.vs
      ensures Room(c)
    {
    }

    /** The cases of the two-byte escape. */
    method RunFlex(b1: Byte, s: array<real>, sp: nat)
      requires Valid() && sp <= s.Length == 48 && 0x22 <= b1 <= 0x25 && sp >= FlexNeeds(b1)
      requires Room(Flex(b1, s[..sp], Ctx()))
      modifies this, pvertices
      ensures Valid() && Ctx() == Flex(b1, s[..sp], old(Ctx()))
    {
      hide Valid, Trunc;
      if b1 == 0x22 {
        RCurveTo(s[0], 0.0, s[1], s[2], s[3], 0.0);
        RCurveTo(s[4], 0.0, s[5], -s[2], s[6], 0.0);
      } else if b1 == 0x23 {
        RCurveTo(s[0], s[1], s[2], s[3], s[4], s[5]);
        RCurveTo(s[6], s[7], s[8], s[9], s[10], s[11]);
      } else if b1 == 0x24 {
        RCurveTo(s[0], s[1], s[2], s[3], s[4], 0.0);
        RCurveTo(s[5], 0.0, s[6], s[7], s[8], -(s[1] + s[3] + s[7]));
      } else {
        var dx6, dy6 := s[10], s[10];
        var dx := s[0] + s[2] + s[4] + s[6] + s[8];
        var dy := s[1] + s[3] + s[5] + s[7] + s[9];
        if Abs(dx) > Abs(dy) {
          dy6 := -dy;
        } else {
          dx6 := -dx;
        }
        RCurveTo(s[0], s[1], s[2], s[3], s[4], s[5]);
        RCurveTo(s[6], s[7], s[8], s[9], dx6, dy6);
      }
    }
  }

  // -------------------------------------------------------------- interpreter

  datatype Status = Running | Failed | Finished

  /** The locals of stbtt__run_charstring. */
  class Interpreter {
    const font: Font
    const c: Csctx
    const s: array<real>
    const subrStack: array<Buf>
    var sp: nat
    var height: nat
    var b: Buf
    var inHeader: bool
    var maskbits: nat
    var hasSubrs: bool
    var subrs: seq<seq<Byte>>

    ghost predicate Valid()
      reads this, subrStack, c, c.pvertices
    {
      && s.Length == 48 && sp <= 48 && subrStack.Length == MAX_CALLS && height <= MAX_CALLS
      && c.Valid() && BufOk(b) && (forall i :: 0 <= i < height ==> BufOk(subrStack[i]))
      && subrs == if hasSubrs then LocalSubrs(font) else font.subrs
    }

    ghost function St(): State
      requires Valid()
      reads this, s, subrStack, c, c.pvertices
    {
      State.State(subrStack[..height] + [b], s[..sp], inHeader, maskbits, c.Ctx())
    }

    /** The interpreter has done what `r` says. */
    ghost predicate Did(r: Result, status: Status)
      requires Valid()
      reads this, s, subrStack, c, c.pvertices
    {
      match r
      case Next(st) => status == Running && St() == st
      case Stop(ok, ctx) => status == (if ok then Finished else Failed) && c.Ctx() == ctx
    }

    constructor (f: Font, ctx: Csctx)
      requires ctx.Valid()
      ensures Valid() && fresh(s) && fresh(subrStack) && font == f && c == ctx
      ensures St() == Begin(f).(ctx := ctx.Ctx())
    {
      font, c := f, ctx;
      s := new real[48](_ => 0.0);
      subrStack := new Buf[MAX_CALLS](_ => Buf([], 0));
      sp, height, b, inHeader, maskbits := 0, 0, Buf(f.program, 0), true, 0;
      hasSubrs, subrs := false, f.subrs;
    }

    lemma StateIsOk()
      requires Valid()
      ensures StateOk(St()) && Top(St()) == b
    {
      assert forall i :: 0 <= i < height ==> St().frames[i] == subrStack[i];
    }

    /** The first callsubr looks up the subroutines of the glyph's font dictionary. */
    method FindSubrs()
      requires Valid()
      modifies `hasSubrs, `subrs
      ensures Valid() && St() == old(St()) && subrs == LocalSubrs(font)
    {
      hide Csctx.Valid, Selector;
      if !hasSubrs {
        if font.fdselect != [] {
          var selector := SelectDict(font.fdselect, font.glyph);
          subrs := font.dictSubrs(selector);
        }
        hasSubrs := true;
      }
    }

    /** callsubr and callgsubr. */
    method DoCall(local: bool) returns (status: Status)
      requires Valid()
      modifies this, subrStack
      ensures Valid() && Did(Call(font, old(St()), local), status)
    {
      hide Csctx.Valid, GetSubr, Trunc, LocalSubrs;
      ghost var st := St();
      if local {
        FindSubrs();
      }
      if sp < 1 {
        return Failed;
      }
      sp := sp - 1;
      var v := Trunc(s[sp]);
      if height >= MAX_CALLS {
        return Failed;
      }
      subrStack[height] := b;
      height := height + 1;
      b := Buf(GetSubr(if local then subrs else font.gsubrs, v), 0);
      if |b.data| == 0 {
        return Failed;
      }
      status := Running;
      assert subrStack[..height] == st.frames;
      assert s[..sp] == st.ops[..|st.ops| - 1];
    }

    method DoReturn() returns (status: Status)
      requires Valid() && StateOk(St()) && Top(St()).cursor > 0
      modifies this
      ensures Valid() && Did(Perform(font, old(St()), 0x0B), status)
    {
      hide Csctx.Valid, Call, Draw, Flex, Operand;
      ghost var st := St();
      if height <= 0 {
        return Failed;
      }
      height := height - 1;
      b := subrStack[height];
      status := Running;
      assert st.frames[..|st.frames| - 1] == subrStack[..height] + [b];
    }

    /** hintmask and cntrmask. */
    method DoMask(ghost b0: Byte)
      requires Valid() && StateOk(St()) && Top(St()).cursor > 0 && IsMask(b0)
      modifies this
      ensures Valid() && Did(Perform(font, old(St()), b0), Running)
    {
      hide Csctx.Valid, Call, Draw, Flex, Operand, Skip;
      StateIsOk();
      if inHeader {
        maskbits := maskbits + sp / 2;
      }
      inHeader := false;
      ghost var was := b;
      b := Skip(b, (maskbits + 7) / 8);
      sp := 0;
      LastReplaced(subrStack[..height], was, b);
    }

    method DoHint(ghost b0: Byte)
      requires Valid() && StateOk(St()) && Top(St()).cursor > 0 && IsHint(b0)
      modifies this
      ensures Valid() && Did(Perform(font, old(St()), b0), Running)
    {
      hide Csctx.Valid, Call, Draw, Flex, Operand, Skip;
      maskbits := maskbits + sp / 2;
      sp := 0;
    }

    method DoDraw(b0: Byte) returns (status: Status)
      requires Valid() && StateOk(St()) && Top(St()).cursor > 0 && IsDraw(b0) && !IsMask(b0) && !IsHint(b0)
      requires c.Room(CtxOf(Perform(font, St(), b0)))
      modifies this, c, c.pvertices
      ensures Valid() && Did(Perform(font, old(St()), b0), status)
    {
      hide Csctx.Valid, Call, Draw, Flex, Operand, Skip;
      if b0 == 0x15 || b0 == 0x04 || b0 == 0x16 {
        inHeader := false;
      }
      if sp < Needs(b0) {
        return Failed;
      }
      c.RunDraw(b0, s, sp);
      sp := 0;
      status := Running;
    }

    /** The two-byte escape. */
    method DoEscape() returns (status: Status)
      requires Valid() && StateOk(St()) && Top(St()).cursor > 0
      requires c.Room(CtxOf(Perform(font, St(), 0x0C)))
      modifies this, c, c.pvertices
      ensures Valid() && Did(Perform(font, old(St()), 0x0C), status)
    {
      hide Csctx.Valid, Call, Draw, Flex, Operand, Skip;
      StateIsOk();
      ghost var was := b;
      var (b1, rest) := Get8(b);
      b := rest;
      LastReplaced(subrStack[..height], was, b);
      if !(0x22 <= b1 <= 0x25) || sp < FlexNeeds(b1) {
        return Failed;
      }
      c.RunFlex(b1, s, sp);
      sp := 0;
      status := Running;
    }

    /** Pushing an operand. */
    method DoPush(b0: Byte) returns (status: Status)
      requires Valid() && StateOk(St()) && Top(St()).cursor > 0 && (b0 == 28 || b0 >= 32)
      modifies this, s
      ensures Valid() && Did(Perform(font, old(St()), b0), status)
    {
      hide Csctx.Valid, Call, Draw, Flex, Operand, Skip;
      StateIsOk();
      ghost var was, ops := b, s[..sp];
      var (f, rest) := Operand(b0, b);
      b := rest;
      LastReplaced(subrStack[..height], was, b);
      if sp >= 48 {
        return Failed;
      }
      s[sp] := f;
      sp := sp + 1;
      status := Running;
      assert s[..sp] == ops + [f];
    }

    /** endchar. */
    method DoEnd()
      requires Valid() && StateOk(St()) && Top(St()).cursor > 0
      requires c.Room(CtxOf(Perform(font, St(), 0x0E)))
      modifies this, c, c.pvertices
      ensures Valid() && Did(Perform(font, old(St()), 0x0E), Finished)
    {
      hide Csctx.Valid, Call, Draw, Flex, Operand, Skip, CloseShape;
      c.Close();
    }

    /** The switch. */
    method Dispatch(b0: Byte) returns (status: Status)
      requires Valid() && StateOk(St()) && Top(St()).cursor > 0
      requires c.Room(CtxOf(Perform(font, St(), b0)))
      modifies this, s, subrStack, c, c.pvertices
      ensures Valid() && Did(Perform(font, old(St()), b0), status)
    {
      hide Csctx.Valid, Draw, Flex, Operand, Skip, CloseShape, Did, Valid, St;
      status := Running;
      if IsMask(b0) {
        DoMask(b0);
      } else if IsHint(b0) {
        DoHint(b0);
      } else if IsDraw(b0) {
        status := DoDraw(b0);
      } else if b0 == 0x0A || b0 == 0x1D {
        status := DoCall(b0 == 0x0A);
      } else if b0 == 0x0B {
        status := DoReturn();
      } else if b0 == 0x0E {
        DoEnd();
        status := Finished;
      } else if b0 == 0x0C {
        status := DoEscape();
      } else if b0 != 255 && b0 != 28 && b0 < 32 {
        status := Reject(b0);
      } else {
        status := DoPush(b0);
      }
    }

    /** A reserved operator. */
    method Reject(ghost b0: Byte) returns (status: Status)
      requires Valid() && StateOk(St()) && Top(St()).cursor > 0
      requires Perform(font, St(), b0) == Stop(false, St().ctx)
      ensures status == Failed && Did(Perform(font, St(), b0), status)
    {
      hide Csctx.Valid, Perform;
      status := Failed;
    }

    /** One round of the loop. */
    method Round() returns (status: Status)
      requires Valid() && StateOk(St()) && c.Room(CtxOf(Step(font, St())))
      modifies this, s, subrStack, c, c.pvertices
      ensures Valid() && Did(Step(font, old(St())), status)
    {
      hide Csctx.Valid, Perform;
      StateIsOk();
      if b.cursor >= |b.data| {
        return Failed;
      }
      ghost var was := b;
      var (b0, rest) := Get8(b);
      b := rest;
      LastReplaced(subrStack[..height], was, b);
      StateIsOk();
      status := Dispatch(b0);
    }

    /** stbtt__run_charstring: it ends on every program, and draws what Exec says. */
    method Run() returns (ok: bool)
      requires Valid() && StateOk(St()) && c.Room(Exec(font, St()).ctx)
      modifies this, s, subrStack, c, c.pvertices
      ensures c.Valid() && c.Ctx() == Exec(font, old(St())).ctx && ok == Exec(font, old(St())).ok
    {
      hide Csctx.Valid, Step, Measure;
      ghost var st0 := St();
      var status := Running;
      while status == Running
        invariant Valid() && StateOk(st0)
        invariant status == Running ==> StateOk(St()) && Exec(font, St()) == Exec(font, st0)
        invariant status != Running ==> Exec(font, st0) == Stop(status == Finished, c.Ctx())
        decreases status == Running,
                  Measure(St(), 0), Measure(St(), 1), Measure(St(), 2), Measure(St(), 3), Measure(St(), 4),
                  Measure(St(), 5), Measure(St(), 6), Measure(St(), 7), Measure(St(), 8), Measure(St(), 9),
                  Measure(St(), 10)
      {
        ghost var st := St();
        RoomForStep(font, st);
        StepProgresses(font, st);
        Depth(st);
        status := Round();
      }
      ok := status == Finished;
    }
  }

  /** stbtt__GetGlyphShapeT2: the first pass counts, the second writes. The array has exactly
      the room that the second pass needs, and the second pass succeeds when the first did. */
  method GetGlyphShape(font: Font) returns (vertices: array?<Vertex>, n: nat)
    ensures var r := Exec(font, Begin(font));
            if r.ok then
              && vertices != null && n == vertices.Length == |r.ctx.vs|
              && forall k :: 0 <= k < n ==> vertices[k] == Stored(r.ctx.vs[k])
            else vertices == null && n == 0
  {
    hide Exec, Stored, ExtentOf;
    var none := new Vertex[0];
    var ok, count := Pass(font, true, none);
    if ok {
      var out := new Vertex[count.numVertices](_ => Vertex(Move, 0, 0, 0, 0, 0, 0));
      var again, output := Pass(font, false, out);
      assert again && output.numVertices == count.numVertices;
      return out, output.numVertices;
    }
    return null, 0;
  }

  /** One run over the program with a fresh context. */
  method Pass(font: Font, counting: bool, out: array<Vertex>) returns (ok: bool, c: Csctx)
    requires counting || |Exec(font, Begin(font)).ctx.vs| <= out.Length
    modifies out
    ensures fresh(c) && c.Valid() && c.bounds == counting && c.pvertices == out
    ensures ok == Exec(font, Begin(font)).ok && c.Ctx() == Exec(font, Begin(font)).ctx
  {
    hide Exec, Csctx.Valid;
    c := new Csctx(counting, out);
    var interpreter := new Interpreter(font, c);
    interpreter.StateIsOk();
    ok := interpreter.Run();
  }

  /** stbtt__GetGlyphInfoT2: the box of the outline, all zero when there is none. */
  method GetGlyphInfo(font: Font) returns (n: nat, x0: int, y0: int, x1: int, y1: int)
    ensures var r := Exec(font, Begin(font));
            && n == (if r.ok then |r.ctx.vs| else 0)
            && Box(x0, x1, y0, y1) == if r.ok && r.ctx.vs != [] then ExtentOf(r.ctx.vs) else Box(0, 0, 0, 0)
  {
    hide Exec, ExtentOf;
    var none := new Vertex[0];
    var ok, c := Pass(font, true, none);
    if !ok {
      return 0, 0, 0, 0, 0;
    }
    return c.numVertices, c.minX, c.minY, c.maxX, c.maxY;
  }

  lemma LastReplaced(fs: seq<Buf>, b: Buf, u: Buf)
    ensures (fs + [b])[|fs| := u] == fs + [u]
  {
  }

  /** A step draws no more than the whole run does. */
  lemma RoomForStep(font: Font, st: State)
    requires StateOk(st)
    ensures CtxOf(Step(font, st)).vs <= Exec(font, st).ctx.vs
    ensures Step(font, st).Next? ==> StateOk(Step(font, st).st) && Exec(font, st) == Exec(font, Step(font, st).st)
    ensures Step(font, st).Stop? ==> Exec(font, st) == Step(font, st)
  {
    hide Step;
    StepProgresses(font, st);
    if Step(font, st).Next? {
      ExecGrows(font, Step(font, st).st);
    }
  }
}
