/**
 Glyph lookup in a character map (stbtt_FindGlyphIndex of stb_truetype.h), formats 4, 12 and 13.

 Format 4 is searched with the table's own searchRange, entrySelector and rangeShift; the
 reference is a linear scan for the first segment whose end code is not below the code point.
 */
module Cmap {
  import opened Common
  import opened Text

  // ------------------------------------------------------------------ reading

  function U16(d: seq<Byte>, at: nat): (v: nat)
    requires at + 2 <= |d|
    ensures v < 0x1_0000
  {
    var hi: int := d[at];
    hi * 0x100 + d[at + 1]
  }

  function U32(d: seq<Byte>, at: nat): (v: nat)
    requires at + 4 <= |d|
    ensures v < 0x1_0000_0000
  {
    U16(d, at) * 0x1_0000 + U16(d, at + 2)
  }

  /** ttSHORT. */
  function S16(d: seq<Byte>, at: nat): (v: int)
    requires at + 2 <= |d|
    ensures -0x8000 <= v < 0x8000
  {
    if U16(d, at) < 0x8000 then U16(d, at) else U16(d, at) - 0x1_0000
  }

  // ----------------------------------------------------------------- format 4

  /** The subtable at `base`, with its counts in segments rather than bytes. */
  datatype Table = Table(d: seq<Byte>, base: nat) {

    /** Room for the header and the four arrays of segcount entries. */
    ghost predicate Fits() {
      base + 14 <= |d| && base + 16 + 8 * SegCount() <= |d|
    }

    function SegCount(): nat
      requires base + 14 <= |d|
    {
      U16(d, base + 6) / 2
    }

    function SearchRange(): nat
      requires base + 14 <= |d|
    {
      U16(d, base + 8) / 2
    }

    function EntrySelector(): nat
      requires base + 14 <= |d|
    {
      U16(d, base + 10)
    }

    function RangeShift(): nat
      requires base + 14 <= |d|
    {
      U16(d, base + 12) / 2
    }

    function End(i: nat): (c: nat)
      requires Fits() && i < SegCount()
      ensures c < 0x1_0000
    {
      U16(d, base + 14 + 2 * i)
    }

    function Start(i: nat): nat
      requires Fits() && i < SegCount()
    {
      U16(d, base + 14 + SegCount() * 2 + 2 + 2 * i)
    }

    function Delta(i: nat): int
      requires Fits() && i < SegCount()
    {
      S16(d, base + 14 + SegCount() * 4 + 2 + 2 * i)
    }

    function RangeOffset(i: nat): nat
      requires Fits() && i < SegCount()
    {
      U16(d, base + 14 + SegCount() * 6 + 2 + 2 * i)
    }

    /** Where the glyph of `c` is read when segment `i` has a range offset. */
    function GlyphAt(i: nat, c: nat): int
      requires Fits() && i < SegCount()
    {
      RangeOffset(i) + (c - Start(i)) * 2 + base + 14 + SegCount() * 6 + 2 + 2 * i
    }

    /** The OpenType specification's rules for a format 4 subtable, as far as the search and
        the reads need them. */
    ghost predicate WellFormed() {
      && Fits() && SegCount() > 0
      && SearchRange() == Pow2(EntrySelector())
      && SearchRange() <= SegCount() < 2 * SearchRange()
      && RangeShift() == SegCount() - SearchRange()
      && (forall i, j :: 0 <= i < j < SegCount() ==> End(i) < End(j))
      && End(SegCount() - 1) == 0xFFFF
      && (forall i, c :: 0 <= i < SegCount() && RangeOffset(i) != 0 && Start(i) <= c <= End(i) ==>
            GlyphAt(i, c) + 2 <= |d|)
    }
  }

  /** Linear scan: the first segment from `i` on that ends at or after `c`. */
  function FirstFrom(t: Table, i: nat, c: nat): (k: nat)
    requires t.Fits() && i <= t.SegCount()
    ensures i <= k <= t.SegCount()
    ensures k < t.SegCount() ==> c <= t.End(k)
    ensures forall j :: i <= j < k ==> t.End(j) < c
    decreases t.SegCount() - i
  {
    if i == t.SegCount() || c <= t.End(i) then i else FirstFrom(t, i + 1, c)
  }

  /** What the code takes a format 4 table to mean: the segment of the linear scan decides. A code
      point before its start, or above 0xFFFF, has no glyph. */
  function Glyph(t: Table, c: nat): nat
    requires t.WellFormed()
  {
    if c > 0xFFFF then 0
    else
      var k := FirstFrom(t, 0, c);
      if k == t.SegCount() || c < t.Start(k) then 0
      else if t.RangeOffset(k) == 0 then (c + t.Delta(k)) % 0x1_0000
      else U16(t.d, t.GlyphAt(k, c))
  }

  /** Every code point up to 0xFFFF has a segment that ends at or after it. */
  lemma SegmentExists(t: Table, c: nat)
    requires t.WellFormed() && c <= 0xFFFF
    ensures FirstFrom(t, 0, c) < t.SegCount()
  {
    hide FirstFrom;
    var f := FirstFrom(t, 0, c);
    var last := t.End(t.SegCount() - 1);
  }

  /** A probe decides on which side of it the segment lies. */
  lemma Probe(t: Table, c: nat, k: nat)
    requires t.WellFormed() && c <= 0xFFFF && k < t.SegCount()
    ensures c > t.End(k) <==> FirstFrom(t, 0, c) > k
  {
    hide FirstFrom;
    var f := FirstFrom(t, 0, c);
    SegmentExists(t, c);
    var a, b := t.End(f), t.End(k);
  }

  /** The first comparison, and the bias by one. */
  method StartSearch(t: Table, c: nat) returns (search: int)
    requires t.WellFormed() && c <= 0xFFFF
    ensures -1 <= search && search + 1 <= FirstFrom(t, 0, c) <= search + t.SearchRange() < t.SegCount()
  {
    hide FirstFrom, U16;
    SegmentExists(t, c);
    var rangeShift := t.RangeShift();
    search := 0;
    Probe(t, c, rangeShift);
    if c >= t.End(rangeShift) {
      search := search + rangeShift;
      BeforeShift(t, c);
    }
    search := search - 1;
  }

  /** The biased search over powers of two: `search` is kept in segments, -1 standing for the
      place before the first. It ends at the segment of the linear scan. */
  method SearchSegment(t: Table, c: nat) returns (item: nat)
    requires t.WellFormed() && c <= 0xFFFF
    ensures item == FirstFrom(t, 0, c) < t.SegCount()
  {
    hide FirstFrom, U16;
    ghost var f := FirstFrom(t, 0, c);
    var searchRange, entrySelector := t.SearchRange(), t.EntrySelector();
    var search := StartSearch(t, c);
    while entrySelector > 0
      invariant searchRange == Pow2(entrySelector) && -1 <= search
      invariant search + 1 <= f <= search + searchRange < t.SegCount()
      decreases entrySelector
    {
      searchRange := searchRange / 2;
      Probe(t, c, search + searchRange);
      var end := t.End(search + searchRange);
      if c > end {
        search := search + searchRange;
      }
      entrySelector := entrySelector - 1;
    }
    item := search + 1;
  }

  /** When the code point is not below the end code at rangeShift, no earlier segment holds it. */
  lemma BeforeShift(t: Table, c: nat)
    requires t.WellFormed() && c <= 0xFFFF && c >= t.End(t.RangeShift())
    ensures FirstFrom(t, 0, c) >= t.RangeShift()
  {
    hide FirstFrom;
    var f := FirstFrom(t, 0, c);
    SegmentExists(t, c);
    var a, b := t.End(f), t.End(t.RangeShift());
  }

  /** The branch for format 4. */
  method FindGlyph4(t: Table, c: nat) returns (glyph: nat)
    requires t.WellFormed()
    ensures glyph == Glyph(t, c)
  {
    hide FirstFrom;
    if c > 0xFFFF {
      return 0;
    }
    var item := SearchSegment(t, c);
    var start, last := t.Start(item), t.End(item);
    if c < start || c > last {
      return 0;
    }
    var offset := t.RangeOffset(item);
    if offset == 0 {
      return (c + t.Delta(item)) % 0x1_0000;
    }
    glyph := U16(t.d, t.GlyphAt(item, c));
  }

  // --------------------------------------------- format 4, as it is specified

  /** The OpenType specification's rule for a format 4 subtable: a glyph found through a range
      offset has the segment's delta added to it as well, unless it is 0. */
  function SpecGlyph(t: Table, c: nat): nat
    requires t.WellFormed()
  {
    if c > 0xFFFF then 0
    else
      var k := FirstFrom(t, 0, c);
      if k == t.SegCount() || c < t.Start(k) then 0
      else if t.RangeOffset(k) == 0 then (c + t.Delta(k)) % 0x1_0000
      else
        var g := U16(t.d, t.GlyphAt(k, c));
        if g == 0 then 0 else (g + t.Delta(k)) % 0x1_0000
  }

  /** The segment of the code point has a range offset, an indexed glyph and a delta. */
  predicate NeedsDelta(t: Table, c: nat)
    requires t.WellFormed()
  {
    c <= 0xFFFF &&
    var k := FirstFrom(t, 0, c);
    && k < t.SegCount() && t.Start(k) <= c && t.RangeOffset(k) != 0
    && U16(t.d, t.GlyphAt(k, c)) != 0 && t.Delta(k) != 0
  }

  lemma DeltaMatters(g: nat, delta: int)
    requires g < 0x1_0000 && -0x8000 <= delta < 0x8000
    ensures (g + delta) % 0x1_0000 == g <==> delta == 0
  {
    if 0 <= g + delta < 0x1_0000 {
      assert (g + delta) % 0x1_0000 == g + delta;
    } else if g + delta < 0 {
      assert (g + delta) % 0x1_0000 == g + delta + 0x1_0000;
    } else {
      assert (g + delta) % 0x1_0000 == g + delta - 0x1_0000;
    }
  }

  /** The code meets the specification exactly where no delta is to be added to an indexed glyph. */
  lemma GlyphMeetsSpec(t: Table, c: nat)
    requires t.WellFormed()
    ensures Glyph(t, c) == SpecGlyph(t, c) <==> !NeedsDelta(t, c)
  {
    hide FirstFrom, U16, S16;
    if c <= 0xFFFF {
      var k := FirstFrom(t, 0, c);
      if k < t.SegCount() && t.Start(k) <= c && t.RangeOffset(k) != 0 {
        DeltaMatters(U16(t.d, t.GlyphAt(k, c)), t.Delta(k));
      }
    }
  }

  /** The bytes of a subtable of two segments; the first holds 0x41 alone, with delta 1 and a range
      offset to the glyph index 5 at the end. */
  function DeltaByte(i: nat): Byte {
    match i
    case 1 => 0x04 case 3 => 0x22 case 7 => 0x04 case 9 => 0x04 case 11 => 0x01
    case 15 => 0x41 case 16 => 0xFF case 17 => 0xFF case 21 => 0x41 case 22 => 0xFF case 23 => 0xFF
    case 25 => 0x01 case 27 => 0x01 case 29 => 0x04 case 33 => 0x05
    case _ => 0
  }

  function DeltaTable(): Table {
    Table(seq(34, (i: nat) => DeltaByte(i)), 0)
  }

  lemma DeltaTableWords()
    ensures var d := DeltaTable().d;
            && |d| == 34 && DeltaTable().base == 0
            && U16(d, 6) == 4 && U16(d, 8) == 4 && U16(d, 10) == 1 && U16(d, 12) == 0
            && U16(d, 14) == 0x41 && U16(d, 16) == 0xFFFF && U16(d, 20) == 0x41 && U16(d, 22) == 0xFFFF
            && U16(d, 24) == 1 && U16(d, 26) == 1 && U16(d, 28) == 4 && U16(d, 30) == 0 && U16(d, 32) == 5
  {
  }

  lemma DeltaTableFacts()
    ensures DeltaTable().Fits() && DeltaTable().SegCount() == 2 && DeltaTable().SearchRange() == 2
    ensures DeltaTable().EntrySelector() == 1 && DeltaTable().RangeShift() == 0
    ensures DeltaTable().End(0) == DeltaTable().Start(0) == 0x41
    ensures DeltaTable().End(1) == DeltaTable().Start(1) == 0xFFFF
    ensures DeltaTable().Delta(0) == 1 && DeltaTable().RangeOffset(0) == 4 && DeltaTable().RangeOffset(1) == 0
    ensures DeltaTable().GlyphAt(0, 0x41) == 32 && U16(DeltaTable().d, 32) == 5 && |DeltaTable().d| == 34
  {
    hide U16, DeltaTable;
    DeltaTableWords();
  }

  lemma DeltaTableWellFormed()
    ensures DeltaTable().WellFormed()
  {
    hide U16, S16, DeltaTable, Table.SegCount, Table.Start, Table.End, Table.Delta, Table.RangeOffset;
    DeltaTableFacts();
    var t := DeltaTable();
    assert Pow2(1) == 2 * Pow2(0) == 2;
    forall i, c | 0 <= i < t.SegCount() && t.RangeOffset(i) != 0 && t.Start(i) <= c <= t.End(i)
      ensures t.GlyphAt(i, c) + 2 <= |t.d|
    {
      assert i == 0 && c == 0x41;
    }
  }

  /** For 0x41 that table gives glyph 5, where the specification asks for glyph 6. */
  lemma DeltaTableFails()
    ensures DeltaTable().WellFormed()
    ensures Glyph(DeltaTable(), 0x41) == 5 && SpecGlyph(DeltaTable(), 0x41) == 6
  {
    hide U16, S16, DeltaTable, Table.WellFormed, Table.Fits, Table.SegCount, Table.Start, Table.End, Table.Delta,
      Table.RangeOffset, Table.GlyphAt;
    DeltaTableFacts();
    DeltaTableWellFormed();
    assert FirstFrom(DeltaTable(), 0, 0x41) == 0;
  }

  /** The bytes of a subtable of three segments: 0x41 and 0x42 with delta -63, 0x61 and 0x62 with the
      glyph indices 9 and 7, and the last one. */
  function LatinByte(i: nat): Byte {
    match i
    case 1 => 0x04 case 3 => 0x2C case 7 => 0x06 case 9 => 0x04 case 11 => 0x01 case 13 => 0x02 case 15 => 0x42
    case 17 => 0x62 case 18 => 0xFF case 19 => 0xFF case 23 => 0x41 case 25 => 0x61 case 26 => 0xFF
    case 27 => 0xFF case 28 => 0xFF case 29 => 0xC1 case 33 => 0x01 case 37 => 0x04 case 41 => 0x09
    case 43 => 0x07
    case _ => 0
  }

  function LatinTable(): Table {
    Table(seq(44, (i: nat) => LatinByte(i)), 0)
  }

  lemma LatinWords()
    ensures var d := LatinTable().d;
            && |d| == 44 && LatinTable().base == 0
            && U16(d, 6) == 6 && U16(d, 8) == 4 && U16(d, 10) == 1 && U16(d, 12) == 2
            && U16(d, 14) == 0x42 && U16(d, 16) == 0x62 && U16(d, 18) == 0xFFFF
            && U16(d, 22) == 0x41 && U16(d, 24) == 0x61 && U16(d, 26) == 0xFFFF
  {
  }

  lemma LatinGlyphWords()
    ensures var d := LatinTable().d;
            && |d| == 44
            && S16(d, 28) == -63 && S16(d, 30) == 0 && S16(d, 32) == 1
            && U16(d, 34) == 0 && U16(d, 36) == 4 && U16(d, 38) == 0 && U16(d, 40) == 9 && U16(d, 42) == 7
  {
  }

  lemma LatinFacts()
    ensures LatinTable().Fits() && LatinTable().SegCount() == 3 && LatinTable().SearchRange() == 2
    ensures LatinTable().EntrySelector() == 1 && LatinTable().RangeShift() == 1
    ensures LatinTable().Start(0) == 0x41 && LatinTable().End(0) == 0x42
    ensures LatinTable().Start(1) == 0x61 && LatinTable().End(1) == 0x62
    ensures LatinTable().Start(2) == LatinTable().End(2) == 0xFFFF
    ensures LatinTable().Delta(0) == -63 && LatinTable().RangeOffset(0) == 0
    ensures LatinTable().RangeOffset(1) == 4 && LatinTable().RangeOffset(2) == 0
    ensures forall c :: 0x61 <= c <= 0x62 ==> LatinTable().GlyphAt(1, c) == 40 + 2 * (c - 0x61)
    ensures |LatinTable().d| == 44 && U16(LatinTable().d, 42) == 7
  {
    hide U16, S16, LatinTable;
    LatinWords();
    LatinGlyphWords();
  }

  lemma LatinWellFormed()
    ensures LatinTable().WellFormed()
  {
    hide U16, S16, LatinTable, Table.SegCount, Table.Start, Table.End, Table.Delta, Table.RangeOffset, Table.GlyphAt;
    LatinFacts();
    var t := LatinTable();
    assert Pow2(1) == 2 * Pow2(0) == 2;
    forall i, c | 0 <= i < t.SegCount() && t.RangeOffset(i) != 0 && t.Start(i) <= c <= t.End(i)
      ensures t.GlyphAt(i, c) + 2 <= |t.d|
    {
      assert i == 1;
    }
  }

  /** An instance, as the bytes stand in a font: a delta, a gap, a glyph index. */
  lemma LatinMapped()
    ensures LatinTable().WellFormed()
    ensures Glyph(LatinTable(), 0x42) == 3 && Glyph(LatinTable(), 0x50) == 0 && Glyph(LatinTable(), 0x62) == 7
  {
    hide U16, S16, LatinTable, Table.WellFormed, Table.Fits, Table.SegCount, Table.Start, Table.End, Table.Delta,
      Table.RangeOffset, Table.GlyphAt;
    LatinFacts();
    LatinWellFormed();
    assert FirstFrom(LatinTable(), 0, 0x42) == 0;
    assert FirstFrom(LatinTable(), 0, 0x50) == FirstFrom(LatinTable(), 1, 0x50) == 1;
    assert FirstFrom(LatinTable(), 0, 0x62) == FirstFrom(LatinTable(), 1, 0x62) == 1;
  }

  // ------------------------------------------------------- formats 12 and 13

  /** The groups of a format 12 or 13 subtable. */
  datatype Groups = Groups(d: seq<Byte>, base: nat) {

    ghost predicate Fits() {
      base + 16 <= |d| && base + 16 + 12 * Count() <= |d|
    }

    function Count(): nat
      requires base + 16 <= |d|
    {
      U32(d, base + 12)
    }

    function First(i: nat): nat
      requires Fits() && i < Count()
    {
      U32(d, base + 16 + i * 12)
    }

    function Last(i: nat): nat
      requires Fits() && i < Count()
    {
      U32(d, base + 16 + i * 12 + 4)
    }

    function GlyphOf(i: nat): nat
      requires Fits() && i < Count()
    {
      U32(d, base + 16 + i * 12 + 8)
    }

    /** Groups in order, none of them empty or overlapping. */
    ghost predicate WellFormed() {
      && Fits() && Count() < 0x8000_0000
      && (forall i :: 0 <= i < Count() ==> First(i) <= Last(i))
      && (forall i, j :: 0 <= i < j < Count() ==> Last(i) < First(j))
    }
  }

  /** Whether group `i` holds the code point. */
  ghost predicate Holds(g: Groups, i: nat, c: nat)
    requires g.Fits()
  {
    i < g.Count() && g.First(i) <= c <= g.Last(i)
  }

  /** Linear scan: the first group from `i` on that holds the code point. */
  ghost function GroupFrom(g: Groups, i: nat, c: nat): (k: nat)
    requires g.Fits() && i <= g.Count()
    ensures i <= k <= g.Count() && (k < g.Count() ==> Holds(g, k, c))
    ensures forall j :: i <= j < k ==> !Holds(g, j, c)
    decreases g.Count() - i
  {
    if i == g.Count() || Holds(g, i, c) then i else GroupFrom(g, i + 1, c)
  }

  /** At most one group holds a code point. */
  lemma OneGroup(g: Groups, i: nat, j: nat, c: nat)
    requires g.WellFormed() && Holds(g, i, c) && Holds(g, j, c)
    ensures i == j
  {
    hide U16, U32;
    var first, last := (g.First(i), g.First(j)), (g.Last(i), g.Last(j));
  }

  /** What formats 12 and 13 map a code point to: the group that holds it decides, counting from
      its first code point (12) or giving the same glyph to all (13). */
  ghost function GroupGlyph(g: Groups, format: nat, c: nat): nat
    requires g.WellFormed()
  {
    var k := GroupFrom(g, 0, c);
    if k == g.Count() then 0
    else if format == 12 then (g.GlyphOf(k) + c - g.First(k)) % 0x1_0000_0000
    else g.GlyphOf(k)
  }

  /** The OpenType specification's words for the two formats: a group gives its glyph to its first
      code point, and to each later one the next glyph (12) or the same (13); a code point of no
      group has glyph 0. */
  lemma GroupsCount(g: Groups, format: nat, i: nat, c: nat)
    requires g.WellFormed() && (format == 12 || format == 13)
    ensures i < g.Count() ==> GroupGlyph(g, format, g.First(i)) == g.GlyphOf(i)
    ensures Holds(g, i, c) && c < g.Last(i) && GroupGlyph(g, format, c) < 0xFFFF_FFFF ==>
              GroupGlyph(g, format, c + 1) == GroupGlyph(g, format, c) + if format == 12 then 1 else 0
    ensures (forall k :: 0 <= k < g.Count() ==> !Holds(g, k, c)) ==> GroupGlyph(g, format, c) == 0
  {
    hide U16, U32, GroupFrom;
    if i < g.Count() {
      Found(g, i, g.First(i));
      if Holds(g, i, c) && c < g.Last(i) {
        Found(g, i, c);
        Found(g, i, c + 1);
      }
    }
  }

  function LettersByte(i: nat): Byte {
    match i
    case 1 => 12 case 7 => 40 case 15 => 2
    case 19 => 0x41 case 23 => 0x5A case 27 => 36
    case 31 => 0x61 case 35 => 0x7A case 39 => 68
    case _ => 0
  }

  /** A subtable of 40 bytes with two groups: the capital letters from glyph 36 on, the small ones
      from 68 on. */
  function Letters(): Groups {
    Groups(seq(40, (i: nat) => LettersByte(i)), 0)
  }

  lemma LettersWords()
    ensures var d := Letters().d;
            && |d| == 40 && Letters().base == 0
            && U32(d, 12) == 2 && U32(d, 16) == 0x41 && U32(d, 20) == 0x5A && U32(d, 24) == 36
            && U32(d, 28) == 0x61 && U32(d, 32) == 0x7A && U32(d, 36) == 68
  {
  }

  /** An instance, as the bytes stand in a font. */
  lemma LettersMapped()
    ensures Letters().WellFormed()
    ensures GroupGlyph(Letters(), 12, 0x62) == 69 && GroupGlyph(Letters(), 13, 0x62) == 68
    ensures GroupGlyph(Letters(), 12, 0x41) == 36 && GroupGlyph(Letters(), 12, 0x5B) == 0
  {
    hide U32, Letters, GroupFrom;
    LettersWords();
    var g := Letters();
    assert g.Count() == 2 && g.First(0) == 0x41 && g.Last(0) == 0x5A && g.First(1) == 0x61 && g.Last(1) == 0x7A;
    Found(g, 1, 0x62);
    Found(g, 0, 0x41);
    var k := GroupFrom(g, 0, 0x5B);
    assert !Holds(g, 0, 0x5B) && !Holds(g, 1, 0x5B);
  }

  /** The branch for formats 12 and 13. */
  method FindGlyphGroup(g: Groups, format: nat, c: nat) returns (glyph: nat)
    requires g.WellFormed() && (format == 12 || format == 13)
    ensures glyph == GroupGlyph(g, format, c)
  {
    hide U16, U32, GroupFrom;
    ghost var k := GroupFrom(g, 0, c);
    var low, high := 0, g.Count();
    while low < high
      invariant 0 <= low <= high <= g.Count()
      invariant forall i :: 0 <= i < low ==> g.Last(i) < c
      invariant forall i :: high <= i < g.Count() ==> c < g.First(i)
    {
      var mid := low + (high - low) / 2;
      if c < g.First(mid) {
        Above(g, mid, c);
        high := mid;
      } else if c > g.Last(mid) {
        Below(g, mid, c);
        low := mid + 1;
      } else {
        Found(g, mid, c);
        return if format == 12 then (g.GlyphOf(mid) + c - g.First(mid)) % 0x1_0000_0000 else g.GlyphOf(mid);
      }
    }
    glyph := 0;
  }

  lemma Found(g: Groups, mid: nat, c: nat)
    requires g.WellFormed() && Holds(g, mid, c)
    ensures GroupFrom(g, 0, c) == mid
  {
    hide GroupFrom, U16, U32;
    var k := GroupFrom(g, 0, c);
    if k < g.Count() {
      OneGroup(g, mid, k, c);
    }
  }

  lemma Above(g: Groups, mid: nat, c: nat)
    requires g.WellFormed() && mid < g.Count() && c < g.First(mid)
    ensures forall i :: mid <= i < g.Count() ==> c < g.First(i)
  {
    hide U16, U32;
    forall i | mid < i < g.Count()
      ensures c < g.First(i)
    {
      assert g.Last(mid) < g.First(i);
    }
  }

  lemma Below(g: Groups, mid: nat, c: nat)
    requires g.WellFormed() && mid < g.Count() && g.Last(mid) < c
    ensures forall i :: 0 <= i <= mid ==> g.Last(i) < c
  {
    hide U16, U32;
    forall i | 0 <= i < mid
      ensures g.Last(i) < c
    {
      assert g.Last(i) < g.First(mid);
    }
  }
}
