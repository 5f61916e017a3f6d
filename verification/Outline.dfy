/**
 What a charstring draws, operator by operator, in the terms of section 4.1 of Adobe Technical
 Note #5177: which operands are the differences of which points, by position and not by the
 loops of the interpreter. Every contour that a run leaves behind is closed.
 */
module Outline {
  import opened Text
  import opened Charstring

  // --------------------------------------------------------------- segments

  /** A segment by the differences between its points. */
  datatype Seg = Straight(dx: real, dy: real)
               | Bend(dx1: real, dy1: real, dx2: real, dy2: real, dx3: real, dy3: real)

  ghost function SumX(g: Seg): real {
    match g
    case Straight(dx, _) => dx
    case Bend(dx1, _, dx2, _, dx3, _) => dx1 + dx2 + dx3
  }

  ghost function SumY(g: Seg): real {
    match g
    case Straight(_, dy) => dy
    case Bend(_, dy1, _, dy2, _, dy3) => dy1 + dy2 + dy3
  }

  /** Where the pen is before segment `k`: at the start plus all differences so far. */
  ghost function PenX(x: real, path: seq<Seg>, k: nat): real
    requires k <= |path|
  {
    if k == 0 then x else PenX(x, path, k - 1) + SumX(path[k - 1])
  }

  ghost function PenY(y: real, path: seq<Seg>, k: nat): real
    requires k <= |path|
  {
    if k == 0 then y else PenY(y, path, k - 1) + SumY(path[k - 1])
  }

  /** The vertex of a segment that starts at (x, y). */
  ghost function VertexOf(g: Seg, x: real, y: real): Vertex {
    match g
    case Straight(dx, dy) => Vertex(Line, Trunc(x + dx), Trunc(y + dy), 0, 0, 0, 0)
    case Bend(dx1, dy1, dx2, dy2, dx3, dy3) =>
      Vertex(Cubic, Trunc(x + dx1 + dx2 + dx3), Trunc(y + dy1 + dy2 + dy3),
             Trunc(x + dx1), Trunc(y + dy1), Trunc(x + dx1 + dx2), Trunc(y + dy1 + dy2))
  }

  /** From `c` to `d` exactly the segments of `path` have been drawn. */
  ghost predicate Traces(c: Ctx, path: seq<Seg>, d: Ctx) {
    && d.firstX == c.firstX && d.firstY == c.firstY
    && d.x == PenX(c.x, path, |path|) && d.y == PenY(c.y, path, |path|)
    && |d.vs| == |c.vs| + |path| && d.vs[..|c.vs|] == c.vs
    && forall k :: 0 <= k < |path| ==>
         d.vs[|c.vs| + k] == VertexOf(path[k], PenX(c.x, path, k), PenY(c.y, path, k))
  }

  /** Coordinates lose their fraction, towards zero. */
  lemma TruncIs(r: real)
    ensures r >= 0.0 ==> Trunc(r) as real <= r < Trunc(r) as real + 1.0
    ensures r <= 0.0 ==> Trunc(r) as real - 1.0 < r <= Trunc(r) as real
  {
  }

  // -------------------------------------------------- the path of an operator

  ghost function Bends(s: Ops, i: nat): Seg
    requires i + 5 < |s|
  {
    Bend(s[i], s[i + 1], s[i + 2], s[i + 3], s[i + 4], s[i + 5])
  }

  /** A curve that starts horizontal and ends vertical, or the reverse; the last one can have an
      operand more. */
  ghost function Turn(s: Ops, i: nat, horizontal: bool): Seg
    requires i + 3 < |s|
  {
    var more := if |s| == i + 5 then s[i + 4] else 0.0;
    if horizontal then Bend(s[i], 0.0, s[i + 1], s[i + 2], more, s[i + 3])
    else Bend(0.0, s[i], s[i + 1], s[i + 2], s[i + 3], more)
  }

  /** A curve that starts and ends horizontal, or vertical, but for the extra operand `f`. */
  ghost function Side(s: Ops, i: nat, f: real, horizontal: bool): Seg
    requires i + 3 < |s|
  {
    if horizontal then Bend(s[i], f, s[i + 1], s[i + 2], s[i + 3], 0.0)
    else Bend(f, s[i], s[i + 1], s[i + 2], 0.0, s[i + 3])
  }

  predicate IsMove(b0: Byte) {
    b0 == 0x15 || b0 == 0x04 || b0 == 0x16
  }

  ghost predicate HasPath(b0: Byte, s: Ops) {
    IsDraw(b0) && !IsMove(b0) && |s| >= Needs(b0)
  }

  /** How many segments an operator draws; operands that do not fill one are left over. */
  ghost function Count(b0: Byte, n: nat): int {
    match b0
    case 0x05 => n / 2
    case 0x06 => n
    case 0x07 => n
    case 0x08 => n / 6
    case 0x18 => (n - 2) / 6 + 1
    case 0x19 => (n - 6) / 2 + 1
    case _ => n / 4
  }

  /** An operator is refused exactly when its operands do not make a segment, or for rcurveline and
      rlinecurve one of either kind. */
  lemma NeedsSegment(b0: Byte, n: nat)
    requires IsDraw(b0) && !IsMove(b0)
    ensures n >= Needs(b0) <==> Count(b0, n) >= if b0 in {0x18, 0x19} then 2 else 1
  {
  }

  /** The first of an odd number of operands of vvcurveto and hhcurveto turns the first curve. */
  ghost function Extra(s: Ops, k: nat): real {
    if k == 0 && |s| % 2 == 1 then s[0] else 0.0
  }

  /** Segment `k`, straight from the operands. */
  ghost function SegAt(b0: Byte, s: Ops, k: nat): Seg
    requires HasPath(b0, s) && k < Count(b0, |s|)
  {
    match b0
    case 0x05 => Straight(s[2 * k], s[2 * k + 1])
    case 0x06 => if k % 2 == 0 then Straight(s[k], 0.0) else Straight(0.0, s[k])
    case 0x07 => if k % 2 == 0 then Straight(0.0, s[k]) else Straight(s[k], 0.0)
    case 0x08 => Bends(s, 6 * k)
    case 0x18 => if k < (|s| - 2) / 6 then Bends(s, 6 * k) else Straight(s[6 * k], s[6 * k + 1])
    case 0x19 => if k < (|s| - 6) / 2 then Straight(s[2 * k], s[2 * k + 1]) else Bends(s, 2 * k)
    case 0x1E => Turn(s, 4 * k, k % 2 == 1)
    case 0x1F => Turn(s, 4 * k, k % 2 == 0)
    case _ => Side(s, |s| % 2 + 4 * k, Extra(s, k), b0 == 0x1B)
  }

  ghost function Path(b0: Byte, s: Ops): seq<Seg>
    requires HasPath(b0, s)
  {
    seq(Count(b0, |s|), k requires 0 <= k < Count(b0, |s|) => SegAt(b0, s, k))
  }

  // ------------------------------------------------------ segments one by one

  ghost function DrawSeg(c: Ctx, g: Seg): Ctx {
    match g
    case Straight(dx, dy) => LineTo(c, dx, dy)
    case Bend(dx1, dy1, dx2, dy2, dx3, dy3) => CurveTo(c, dx1, dy1, dx2, dy2, dx3, dy3)
  }

  ghost function Follow(c: Ctx, path: seq<Seg>): Ctx
    decreases |path|
  {
    if path == [] then c else Follow(DrawSeg(c, path[0]), path[1..])
  }

  lemma SegDrawn(c: Ctx, g: Seg)
    ensures var d := DrawSeg(c, g);
            && d.x == c.x + SumX(g) && d.y == c.y + SumY(g) && d.vs == c.vs + [VertexOf(g, c.x, c.y)]
            && d.firstX == c.firstX && d.firstY == c.firstY
  {
    hide Trunc;
  }

  lemma {:induction false} PenAfter(x: real, y: real, path: seq<Seg>, k: nat)
    requires 1 <= k <= |path|
    ensures PenX(x + SumX(path[0]), path[1..], k - 1) == PenX(x, path, k)
    ensures PenY(y + SumY(path[0]), path[1..], k - 1) == PenY(y, path, k)
    decreases k
  {
    hide SumX, SumY;
    if k > 1 {
      PenAfter(x, y, path, k - 1);
      assert path[1..][k - 2] == path[k - 1];
    } else {
      assert PenX(x, path, 1) == PenX(x, path, 0) + SumX(path[0]);
      assert PenY(y, path, 1) == PenY(y, path, 0) + SumY(path[0]);
    }
  }

  lemma TracesVertex(c: Ctx, path: seq<Seg>, d: Ctx, k: nat)
    requires k < |path| && Traces(DrawSeg(c, path[0]), path[1..], d)
    ensures |d.vs| == |c.vs| + |path|
    ensures d.vs[|c.vs| + k] == VertexOf(path[k], PenX(c.x, path, k), PenY(c.y, path, k))
  {
    hide DrawSeg, VertexOf, SumX, SumY, PenX, PenY;
    var c1, rest := DrawSeg(c, path[0]), path[1..];
    SegDrawn(c, path[0]);
    if k == 0 {
      assert d.vs[|c.vs|] == d.vs[..|c1.vs|][|c.vs|];
      PenStarts(c.x, c.y, path);
    } else {
      PenAfter(c.x, c.y, path, k);
      assert d.vs[|c1.vs| + (k - 1)] == VertexOf(rest[k - 1], PenX(c1.x, rest, k - 1), PenY(c1.y, rest, k - 1));
    }
  }

  lemma PenStarts(x: real, y: real, path: seq<Seg>)
    ensures PenX(x, path, 0) == x && PenY(y, path, 0) == y
  {
  }

  lemma {:induction false} FollowTraces(c: Ctx, path: seq<Seg>)
    ensures Traces(c, path, Follow(c, path))
    decreases |path|
  {
    hide DrawSeg, VertexOf, SumX, SumY, PenX, PenY;
    if path == [] {
      PenStarts(c.x, c.y, path);
    } else {
      var c1, rest := DrawSeg(c, path[0]), path[1..];
      var d := Follow(c1, rest);
      SegDrawn(c, path[0]);
      FollowTraces(c1, rest);
      PenAfter(c.x, c.y, path, |path|);
      assert d.vs[..|c.vs|] == d.vs[..|c1.vs|][..|c.vs|];
      forall k | 0 <= k < |path|
        ensures d.vs[|c.vs| + k] == VertexOf(path[k], PenX(c.x, path, k), PenY(c.y, path, k))
      {
        hide Follow;
        TracesVertex(c, path, d, k);
      }
    }
  }

  lemma {:induction false} FollowLast(c: Ctx, path: seq<Seg>, g: Seg)
    ensures Follow(c, path + [g]) == DrawSeg(Follow(c, path), g)
    decreases |path|
  {
    hide DrawSeg;
    if path == [] {
      assert Follow(DrawSeg(c, g), []) == DrawSeg(c, g);
      assert ([g])[1..] == [];
    } else {
      FollowLast(DrawSeg(c, path[0]), path[1..], g);
      assert (path + [g])[1..] == path[1..] + [g];
    }
  }

  // ------------------------------------------- the loops follow their paths

  lemma {:induction false} LinesFollow(c: Ctx, s: Ops, path: seq<Seg>, k: nat, end: int)
    requires 0 <= end <= |s| && |path| == end / 2 && k <= |path|
    requires forall k :: 0 <= k < |path| ==> path[k] == Straight(s[2 * k], s[2 * k + 1])
    ensures Lines(c, s, 2 * k, end) == Follow(c, path[k..]) && LinesEnd(2 * k, end) == 2 * |path|
    decreases |path| - k
  {
    hide LineTo;
    if k < |path| {
      LinesFollow(LineTo(c, s[2 * k], s[2 * k + 1]), s, path, k + 1, end);
      assert path[k..][0] == path[k] && path[k..][1..] == path[k + 1..];
    }
  }

  lemma {:induction false} CurvesFollow(c: Ctx, s: Ops, path: seq<Seg>, k: nat, end: int)
    requires 0 <= end <= |s| && |path| == end / 6 && k <= |path|
    requires forall k :: 0 <= k < |path| ==> path[k] == Bends(s, 6 * k)
    ensures Curves(c, s, 6 * k, end) == Follow(c, path[k..]) && CurvesEnd(6 * k, end) == 6 * |path|
    decreases |path| - k
  {
    hide CurveTo;
    if k < |path| {
      var i := 6 * k;
      CurvesFollow(CurveTo(c, s[i], s[i + 1], s[i + 2], s[i + 3], s[i + 4], s[i + 5]), s, path, k + 1, end);
      assert path[k..][0] == path[k] && path[k..][1..] == path[k + 1..];
    }
  }

  lemma {:induction false} AltLinesFollow(c: Ctx, s: Ops, path: seq<Seg>, k: nat, first: bool)
    requires |path| == |s| && k <= |path|
    requires forall k :: 0 <= k < |path| ==>
               path[k] == if (k % 2 == 0) == first then Straight(s[k], 0.0) else Straight(0.0, s[k])
    ensures AltLines(c, s, k, (k % 2 == 0) == first) == Follow(c, path[k..])
    decreases |path| - k
  {
    hide LineTo;
    if k < |path| {
      AltLinesFollow(DrawSeg(c, path[k]), s, path, k + 1, first);
      assert path[k..][0] == path[k] && path[k..][1..] == path[k + 1..];
    }
  }

  lemma {:induction false} AltCurvesFollow(c: Ctx, s: Ops, path: seq<Seg>, k: nat, first: bool)
    requires |path| == |s| / 4 && k <= |path|
    requires forall k :: 0 <= k < |path| ==> path[k] == Turn(s, 4 * k, (k % 2 == 0) == first)
    ensures AltCurves(c, s, 4 * k, (k % 2 == 0) == first) == Follow(c, path[k..])
    decreases |path| - k
  {
    hide CurveTo;
    if k < |path| {
      AltCurvesFollow(DrawSeg(c, path[k]), s, path, k + 1, first);
      assert path[k..][0] == path[k] && path[k..][1..] == path[k + 1..];
    }
  }

  lemma {:induction false} SideCurvesFollow(c: Ctx, s: Ops, path: seq<Seg>, k: nat, horizontal: bool)
    requires |path| == |s| / 4 && k <= |path|
    requires forall k :: 0 <= k < |path| ==> path[k] == Side(s, |s| % 2 + 4 * k, Extra(s, k), horizontal)
    ensures SideCurves(c, s, |s| % 2 + 4 * k, Extra(s, k), horizontal) == Follow(c, path[k..])
    decreases |path| - k
  {
    hide CurveTo;
    if k < |path| {
      SideCurvesFollow(DrawSeg(c, path[k]), s, path, k + 1, horizontal);
      assert path[k..][0] == path[k] && path[k..][1..] == path[k + 1..];
    }
  }

  lemma DrawFollows(b0: Byte, s: Ops, c: Ctx)
    requires HasPath(b0, s)
    ensures Draw(b0, s, c) == Follow(c, Path(b0, s))
  {
    hide LineTo, CurveTo, Lines, LinesEnd, AltLines, AltCurves, Curves, CurvesEnd, SideCurves, Follow;
    hide Bends, Turn, Side;
    var n, path := |s|, Path(b0, s);
    assert path[0..] == path;
    match b0
    case 0x05 => LinesFollow(c, s, path, 0, n);
    case 0x06 => AltLinesFollow(c, s, path, 0, true);
    case 0x07 => AltLinesFollow(c, s, path, 0, false);
    case 0x08 => CurvesFollow(c, s, path, 0, n);
    case 0x18 => CurveLineFollows(s, c);
    case 0x19 => LineCurveFollows(s, c);
    case 0x1E => AltCurvesFollow(c, s, path, 0, false);
    case 0x1F => AltCurvesFollow(c, s, path, 0, true);
    case _ => SideCurvesFollow(c, s, path, 0, b0 == 0x1B);
  }

  lemma CurveLineFollows(s: Ops, c: Ctx)
    requires |s| >= 8
    ensures Draw(0x18, s, c) == Follow(c, Path(0x18, s))
  {
    hide LineTo, CurveTo, Curves, CurvesEnd, Follow, Bends;
    var m, path := (|s| - 2) / 6, Path(0x18, s);
    var curves := path[..m];
    assert curves[0..] == curves && path == curves + [path[m]];
    CurvesEndIs(0, |s| - 2);
    CurvesFollow(c, s, curves, 0, |s| - 2);
    FollowLast(c, curves, path[m]);
  }

  lemma LineCurveFollows(s: Ops, c: Ctx)
    requires |s| >= 8
    ensures Draw(0x19, s, c) == Follow(c, Path(0x19, s))
  {
    hide LineTo, CurveTo, Lines, LinesEnd, Follow;
    var m, path := (|s| - 6) / 2, Path(0x19, s);
    var lines := path[..m];
    assert lines[0..] == lines && path == lines + [path[m]];
    LinesEndIs(0, |s| - 6);
    LinesFollow(c, s, lines, 0, |s| - 6);
    FollowLast(c, lines, path[m]);
  }

  // ------------------------------------------------------- what is drawn

  /** rlineto, hlineto, vlineto, rrcurveto, rcurveline, rlinecurve, vhcurveto, hvcurveto, vvcurveto
      and hhcurveto draw the segments of section 4.1, each from where the one before it ends. */
  lemma DrawTraces(b0: Byte, s: Ops, c: Ctx)
    requires HasPath(b0, s)
    ensures Traces(c, Path(b0, s), Draw(b0, s, c))
  {
    hide Draw, Path, Traces, Follow;
    DrawFollows(b0, s, c);
    FollowTraces(c, Path(b0, s));
  }

  /** A line back to where the contour began, unless the pen is there. */
  ghost function Closing(c: Ctx): seq<Vertex> {
    if c.x == c.firstX && c.y == c.firstY then []
    else [Vertex(Line, Trunc(c.firstX), Trunc(c.firstY), 0, 0, 0, 0)]
  }

  /** rmoveto, hmoveto and vmoveto close the contour and begin another at the pen moved by their
      last operands. */
  lemma MoveBegins(b0: Byte, s: Ops, c: Ctx)
    requires IsMove(b0) && |s| >= Needs(b0)
    ensures var d := Draw(b0, s, c);
            && d.x == c.x + (if b0 == 0x15 then s[|s| - 2] else if b0 == 0x16 then s[|s| - 1] else 0.0)
            && d.y == c.y + (if b0 == 0x16 then 0.0 else s[|s| - 1])
            && d.firstX == d.x && d.firstY == d.y
            && d.vs == c.vs + Closing(c) + [Vertex(Move, Trunc(d.x), Trunc(d.y), 0, 0, 0, 0)]
  {
    hide Trunc;
  }

  /** The difference dx is the larger, whatever the signs. */
  predicate Further(dx: real, dy: real) {
    if dx > 0.0 then -dx < dy < dx else dx < dy < -dx
  }

  /** The two curves of hflex, flex, hflex1 and flex1; the last coordinate of flex1 is for the
      direction in which the curves extend further, and the flex depth of flex is ignored. */
  ghost function FlexPath(b1: Byte, s: Ops): seq<Seg>
    requires 0x22 <= b1 <= 0x25 && |s| >= FlexNeeds(b1)
  {
    match b1
    case 0x22 => [Bend(s[0], 0.0, s[1], s[2], s[3], 0.0), Bend(s[4], 0.0, s[5], -s[2], s[6], 0.0)]
    case 0x23 => [Bends(s, 0), Bends(s, 6)]
    case 0x24 => [Bend(s[0], s[1], s[2], s[3], s[4], 0.0),
                  Bend(s[5], 0.0, s[6], s[7], s[8], 0.0 - s[1] - s[3] - s[7])]
    case _ =>
      var dx, dy := s[0] + s[2] + s[4] + s[6] + s[8], s[1] + s[3] + s[5] + s[7] + s[9];
      [Bends(s, 0), if Further(dx, dy) then Bend(s[6], s[7], s[8], s[9], s[10], 0.0 - dy)
                    else Bend(s[6], s[7], s[8], s[9], 0.0 - dx, s[10])]
  }

  lemma FollowTwo(c: Ctx, p: Seg, q: Seg)
    ensures Follow(c, [p, q]) == DrawSeg(DrawSeg(c, p), q)
  {
    assert [p, q][1..] == [q] && [q][1..] == [];
    assert Follow(DrawSeg(c, p), [q]) == Follow(DrawSeg(DrawSeg(c, p), q), []);
  }

  lemma FlexFollows(b1: Byte, s: Ops, c: Ctx)
    requires 0x22 <= b1 <= 0x25 && |s| >= FlexNeeds(b1)
    ensures Flex(b1, s, c) == Follow(c, FlexPath(b1, s))
  {
    hide CurveTo, Follow;
    FollowTwo(c, FlexPath(b1, s)[0], FlexPath(b1, s)[1]);
  }

  /** The flex operators draw their two curves. */
  lemma FlexTraces(b1: Byte, s: Ops, c: Ctx)
    requires 0x22 <= b1 <= 0x25 && |s| >= FlexNeeds(b1)
    ensures Traces(c, FlexPath(b1, s), Flex(b1, s, c))
  {
    hide Flex, Traces, Follow, FlexPath;
    FlexFollows(b1, s, c);
    FollowTraces(c, FlexPath(b1, s));
  }

  /** hflex and hflex1 come back to the height they began at, flex1 to the height or to
      the column. */
  lemma FlexReturns(b1: Byte, s: Ops, c: Ctx)
    requires 0x22 <= b1 <= 0x25 && |s| >= FlexNeeds(b1)
    ensures b1 == 0x22 || b1 == 0x24 ==> Flex(b1, s, c).y == c.y
    ensures b1 == 0x25 ==>
              Flex(b1, s, c).y == c.y || Flex(b1, s, c).x == c.x
  {
    hide Trunc;
  }

  // ---------------------------------------------------- contours are closed

  /** The end of a drawing, and where its last contour began. */
  ghost function End(vs: seq<Vertex>): (int, int) {
    if vs == [] then (0, 0) else (vs[|vs| - 1].x, vs[|vs| - 1].y)
  }

  ghost function Start(vs: seq<Vertex>): (int, int) {
    if vs == [] then (0, 0)
    else if vs[|vs| - 1].kind == Move then End(vs)
    else Start(vs[..|vs| - 1])
  }

  /** Whenever a contour begins, the one before it has come back to its start. */
  ghost predicate EarlierClosed(vs: seq<Vertex>) {
    forall i :: 0 <= i < |vs| && vs[i].kind == Move ==> End(vs[..i]) == Start(vs[..i])
  }

  ghost predicate PenTracked(c: Ctx) {
    && EarlierClosed(c.vs)
    && End(c.vs) == (Trunc(c.x), Trunc(c.y)) && Start(c.vs) == (Trunc(c.firstX), Trunc(c.firstY))
  }

  lemma OneMore(vs: seq<Vertex>, v: Vertex)
    requires EarlierClosed(vs) && (v.kind == Move ==> End(vs) == Start(vs))
    ensures EarlierClosed(vs + [v]) && End(vs + [v]) == (v.x, v.y)
    ensures Start(vs + [v]) == if v.kind == Move then (v.x, v.y) else Start(vs)
  {
    var ws := vs + [v];
    assert ws[..|vs|] == vs;
    assert forall i :: 0 <= i < |vs| ==> ws[..i] == vs[..i];
  }

  lemma ClosingKeeps(c: Ctx)
    requires PenTracked(c)
    ensures var vs := CloseShape(c).vs;
            EarlierClosed(vs) && End(vs) == Start(vs) == (Trunc(c.firstX), Trunc(c.firstY))
  {
    hide Trunc, EarlierClosed, End, Start;
    OneMore(c.vs, Vertex(Line, Trunc(c.firstX), Trunc(c.firstY), 0, 0, 0, 0));
  }

  lemma MoveKeeps(c: Ctx, dx: real, dy: real)
    requires PenTracked(c)
    ensures PenTracked(MoveTo(c, dx, dy))
  {
    hide Trunc, EarlierClosed, End, Start;
    ClosingKeeps(c);
    OneMore(CloseShape(c).vs, Vertex(Move, Trunc(c.x + dx), Trunc(c.y + dy), 0, 0, 0, 0));
  }

  lemma {:induction false} FollowKeeps(c: Ctx, path: seq<Seg>)
    requires PenTracked(c)
    ensures PenTracked(Follow(c, path))
    decreases |path|
  {
    hide Trunc, EarlierClosed, End, Start, DrawSeg;
    if path != [] {
      SegDrawn(c, path[0]);
      var v := VertexOf(path[0], c.x, c.y);
      OneMore(c.vs, v);
      assert v.x == Trunc(c.x + SumX(path[0])) && v.y == Trunc(c.y + SumY(path[0]));
      FollowKeeps(DrawSeg(c, path[0]), path[1..]);
    }
  }

  lemma StepKeepsTracked(font: Font, st: State)
    requires StateOk(st) && PenTracked(st.ctx)
    ensures var r := Step(font, st);
            && (r.Next? ==> PenTracked(r.st.ctx))
            && (r.Stop? ==> EarlierClosed(r.ctx.vs))
            && (r.Stop? && r.ok ==> End(r.ctx.vs) == Start(r.ctx.vs))
  {
    hide Trunc, EarlierClosed, End, Start, Draw, Flex, Operand, GetSubr, CloseShape, Follow, Path, FlexPath, IsDraw;
    if Left(Top(st)) > 0 {
      var (b0, b) := Get8(Top(st));
      if IsDraw(b0) && |st.ops| >= Needs(b0) {
        DrawKeeps(b0, st.ops, st.ctx);
      }
      var b1 := Get8(b).0;
      if 0x22 <= b1 <= 0x25 && |st.ops| >= FlexNeeds(b1) {
        FlexFollows(b1, st.ops, st.ctx);
        FollowKeeps(st.ctx, FlexPath(b1, st.ops));
      }
      ClosingKeeps(st.ctx);
    }
  }

  lemma DrawKeeps(b0: Byte, s: Ops, c: Ctx)
    requires IsDraw(b0) && |s| >= Needs(b0) && PenTracked(c)
    ensures PenTracked(Draw(b0, s, c))
  {
    hide PenTracked, Follow, Path, MoveTo;
    if IsMove(b0) {
      hide Lines, AltLines, AltCurves, Curves, SideCurves;
      MoveKeeps(c, if b0 == 0x15 then s[|s| - 2] else if b0 == 0x04 then 0.0 else s[|s| - 1],
                if b0 == 0x16 then 0.0 else s[|s| - 1]);
    } else {
      DrawFollows(b0, s, c);
      FollowKeeps(c, Path(b0, s));
    }
  }

  lemma {:induction false} ExecCloses(font: Font, st: State)
    requires StateOk(st) && PenTracked(st.ctx)
    ensures EarlierClosed(Exec(font, st).ctx.vs)
    ensures Exec(font, st).ok ==> End(Exec(font, st).ctx.vs) == Start(Exec(font, st).ctx.vs)
    decreases Measure(st, 0), Measure(st, 1), Measure(st, 2), Measure(st, 3), Measure(st, 4), Measure(st, 5),
              Measure(st, 6), Measure(st, 7), Measure(st, 8), Measure(st, 9), Measure(st, 10)
  {
    hide Step, Measure, PenTracked, EarlierClosed, End, Start;
    StepProgresses(font, st);
    StepKeepsTracked(font, st);
    if Step(font, st).Next? {
      Depth(st);
      ExecCloses(font, Step(font, st).st);
    }
  }

  /** Whatever the program, every contour but the last comes back to its start, and the last does
      when the program ends with endchar. */
  lemma ContoursClosed(font: Font)
    ensures var r := Exec(font, Begin(font));
            EarlierClosed(r.ctx.vs) && (r.ok ==> End(r.ctx.vs) == Start(r.ctx.vs))
  {
    hide Exec;
    ExecCloses(font, Begin(font));
  }
}
