/**
 Vietnamese Telex (vi.c): a tone key puts a tone on one vowel of the preedit.

 The position depends only on the letters without tones, so tones can be corrected: a later
 tone key, or z, replaces an earlier one.
 */
module Vietnamese {
  import opened Common
  import opened Text
  import opened ImData
  import opened MapTrans
  import Trie

  const N_ROWS := 24

  // -------------------------------------------------------------- the table

  function Base(i: int): Rune {
    match i
    case 0 => 0x61 case 1 => 0xE2 case 2 => 0x103 case 3 => 0x65 case 4 => 0xEA case 5 => 0x69
    case 6 => 0x6F case 7 => 0xF4 case 8 => 0x1A1 case 9 => 0x75 case 10 => 0x1B0 case 11 => 0x79
    case 12 => 0x41 case 13 => 0xC2 case 14 => 0x102 case 15 => 0x45 case 16 => 0xCA case 17 => 0x49
    case 18 => 0x4F case 19 => 0xD4 case 20 => 0x1A0 case 21 => 0x55 case 22 => 0x1AF case 23 => 0x59
    case _ => 0
  }

  function Rising(i: int): Rune {
    match i
    case 0 => 0xE1 case 1 => 0x1EA5 case 2 => 0x1EAF case 3 => 0xE9 case 4 => 0x1EBF case 5 => 0xED
    case 6 => 0xF3 case 7 => 0x1ED1 case 8 => 0x1EDB case 9 => 0xFA case 10 => 0x1EE9 case 11 => 0xFD
    case 12 => 0xC1 case 13 => 0x1EA4 case 14 => 0x1EAE case 15 => 0xC9 case 16 => 0x1EBE
    case 17 => 0xCD case 18 => 0xD3 case 19 => 0x1ED0 case 20 => 0x1EDA case 21 => 0xDA
    case 22 => 0x1EE8 case 23 => 0xDD case _ => 0
  }

  function Falling(i: int): Rune {
    match i
    case 0 => 0xE0 case 1 => 0x1EA7 case 2 => 0x1EB1 case 3 => 0xE8 case 4 => 0x1EC1 case 5 => 0xEC
    case 6 => 0xF2 case 7 => 0x1ED3 case 8 => 0x1EDD case 9 => 0xF9 case 10 => 0x1EEB case 11 => 0x1EF3
    case 12 => 0xC0 case 13 => 0x1EA6 case 14 => 0x1EB0 case 15 => 0xC8 case 16 => 0x1EC0
    case 17 => 0xCC case 18 => 0xD2 case 19 => 0x1ED2 case 20 => 0x1EDC case 21 => 0xD9
    case 22 => 0x1EEA case 23 => 0x1EF2 case _ => 0
  }

  function Hook(i: int): Rune {
    match i
    case 0 => 0x1EA3 case 1 => 0x1EA9 case 2 => 0x1EB3 case 3 => 0x1EBB case 4 => 0x1EC3
    case 5 => 0x1EC9 case 6 => 0x1ECF case 7 => 0x1ED5 case 8 => 0x1EDF case 9 => 0x1EE7
    case 10 => 0x1EED case 11 => 0x1EF7 case 12 => 0x1EA2 case 13 => 0x1EA8 case 14 => 0x1EB2
    case 15 => 0x1EBA case 16 => 0x1EC2 case 17 => 0x1EC8 case 18 => 0x1ECE case 19 => 0x1ED4
    case 20 => 0x1EDE case 21 => 0x1EE6 case 22 => 0x1EEC case 23 => 0x1EF6 case _ => 0
  }

  function Tilde(i: int): Rune {
    match i
    case 0 => 0xE3 case 1 => 0x1EAB case 2 => 0x1EB5 case 3 => 0x1EBD case 4 => 0x1EC5 case 5 => 0x129
    case 6 => 0xF5 case 7 => 0x1ED7 case 8 => 0x1EE1 case 9 => 0x169 case 10 => 0x1EEF
    case 11 => 0x1EF9 case 12 => 0xC3 case 13 => 0x1EAA case 14 => 0x1EB4 case 15 => 0x1EBC
    case 16 => 0x1EC4 case 17 => 0x128 case 18 => 0xD5 case 19 => 0x1ED6 case 20 => 0x1EE0
    case 21 => 0x168 case 22 => 0x1EEE case 23 => 0x1EF8 case _ => 0
  }

  function Dot(i: int): Rune {
    match i
    case 0 => 0x1EA1 case 1 => 0x1EAD case 2 => 0x1EB7 case 3 => 0x1EB9 case 4 => 0x1EC7
    case 5 => 0x1ECB case 6 => 0x1ECD case 7 => 0x1ED9 case 8 => 0x1EE3 case 9 => 0x1EE5
    case 10 => 0x1EF1 case 11 => 0x1EF5 case 12 => 0x1EA0 case 13 => 0x1EAC case 14 => 0x1EB6
    case 15 => 0x1EB8 case 16 => 0x1EC6 case 17 => 0x1ECA case 18 => 0x1ECC case 19 => 0x1ED8
    case 20 => 0x1EE2 case 21 => 0x1EE4 case 22 => 0x1EF0 case 23 => 0x1EF4 case _ => 0
  }

  function Place0(c: Rune): int {
    match c
    case 0x41 => 72 case 0x45 => 90 case 0x49 => 102 case 0x4F => 108 case 0x55 => 126 case 0x59 => 138
    case 0x61 => 0 case 0x65 => 18 case 0x69 => 30 case 0x6F => 36 case 0x75 => 54 case 0x79 => 66
    case 0xC0 => 74 case 0xC1 => 73 case 0xC2 => 78 case 0xC3 => 76 case 0xC8 => 92 case 0xC9 => 91
    case 0xCA => 96 case 0xCC => 104 case 0xCD => 103 case 0xD2 => 110 case 0xD3 => 109
    case 0xD4 => 114 case _ => -1
  }

  function Place1(c: Rune): int {
    match c
    case 0xD5 => 112 case 0xD9 => 128 case 0xDA => 127 case 0xDD => 139 case 0xE0 => 2 case 0xE1 => 1
    case 0xE2 => 6 case 0xE3 => 4 case 0xE8 => 20 case 0xE9 => 19 case 0xEA => 24 case 0xEC => 32
    case 0xED => 31 case 0xF2 => 38 case 0xF3 => 37 case 0xF4 => 42 case 0xF5 => 40 case 0xF9 => 56
    case 0xFA => 55 case 0xFD => 67 case 0x102 => 84 case 0x103 => 12 case 0x128 => 106
    case 0x129 => 34 case _ => -1
  }

  function Place2(c: Rune): int {
    match c
    case 0x168 => 130 case 0x169 => 58 case 0x1A0 => 120 case 0x1A1 => 48 case 0x1AF => 132
    case 0x1B0 => 60 case 0x1EA0 => 77 case 0x1EA1 => 5 case 0x1EA2 => 75 case 0x1EA3 => 3
    case 0x1EA4 => 79 case 0x1EA5 => 7 case 0x1EA6 => 80 case 0x1EA7 => 8 case 0x1EA8 => 81
    case 0x1EA9 => 9 case 0x1EAA => 82 case 0x1EAB => 10 case 0x1EAC => 83 case 0x1EAD => 11
    case 0x1EAE => 85 case 0x1EAF => 13 case 0x1EB0 => 86 case 0x1EB1 => 14 case _ => -1
  }

  function Place3(c: Rune): int {
    match c
    case 0x1EB2 => 87 case 0x1EB3 => 15 case 0x1EB4 => 88 case 0x1EB5 => 16 case 0x1EB6 => 89
    case 0x1EB7 => 17 case 0x1EB8 => 95 case 0x1EB9 => 23 case 0x1EBA => 93 case 0x1EBB => 21
    case 0x1EBC => 94 case 0x1EBD => 22 case 0x1EBE => 97 case 0x1EBF => 25 case 0x1EC0 => 98
    case 0x1EC1 => 26 case 0x1EC2 => 99 case 0x1EC3 => 27 case 0x1EC4 => 100 case 0x1EC5 => 28
    case 0x1EC6 => 101 case 0x1EC7 => 29 case 0x1EC8 => 105 case 0x1EC9 => 33 case _ => -1
  }

  function Place4(c: Rune): int {
    match c
    case 0x1ECA => 107 case 0x1ECB => 35 case 0x1ECC => 113 case 0x1ECD => 41 case 0x1ECE => 111
    case 0x1ECF => 39 case 0x1ED0 => 115 case 0x1ED1 => 43 case 0x1ED2 => 116 case 0x1ED3 => 44
    case 0x1ED4 => 117 case 0x1ED5 => 45 case 0x1ED6 => 118 case 0x1ED7 => 46 case 0x1ED8 => 119
    case 0x1ED9 => 47 case 0x1EDA => 121 case 0x1EDB => 49 case 0x1EDC => 122 case 0x1EDD => 50
    case 0x1EDE => 123 case 0x1EDF => 51 case 0x1EE0 => 124 case 0x1EE1 => 52 case _ => -1
  }

  function Place5(c: Rune): int {
    match c
    case 0x1EE2 => 125 case 0x1EE3 => 53 case 0x1EE4 => 131 case 0x1EE5 => 59 case 0x1EE6 => 129
    case 0x1EE7 => 57 case 0x1EE8 => 133 case 0x1EE9 => 61 case 0x1EEA => 134 case 0x1EEB => 62
    case 0x1EEC => 135 case 0x1EED => 63 case 0x1EEE => 136 case 0x1EEF => 64 case 0x1EF0 => 137
    case 0x1EF1 => 65 case 0x1EF2 => 140 case 0x1EF3 => 68 case 0x1EF4 => 143 case 0x1EF5 => 71
    case 0x1EF6 => 141 case 0x1EF7 => 69 case 0x1EF8 => 142 case 0x1EF9 => 70 case _ => -1
  }

  /** Where a rune is in the table: 6 * row for a bare vowel, and 1 to 5 more for its tones;
      -1 when it is not there. */
  function Place(c: Rune): int {
    if c < 0xD5 then Place0(c)
    else if c < 0x168 then Place1(c)
    else if c < 0x1EB2 then Place2(c)
    else if c < 0x1ECA then Place3(c)
    else if c < 0x1EE2 then Place4(c)
    else Place5(c)
  }

  function RowOf(c: Rune): int {
    if Place(c) < 0 then -1 else Place(c) / 6
  }

  function ColumnOf(c: Rune): int {
    if Place(c) < 0 then -1 else Place(c) % 6
  }

  function Cell(i: int, k: int): Rune {
    match k
    case 0 => Base(i)
    case 1 => Rising(i)
    case 2 => Falling(i)
    case 3 => Hook(i)
    case 4 => Tilde(i)
    case _ => Dot(i)
  }

  lemma BaseCells(i: int)
    requires 0 <= i < N_ROWS
    ensures Place(Base(i)) == 6 * i + 0
  {
  }

  lemma RisingCells(i: int)
    requires 0 <= i < N_ROWS
    ensures Place(Rising(i)) == 6 * i + 1
  {
  }

  lemma FallingCells(i: int)
    requires 0 <= i < N_ROWS
    ensures Place(Falling(i)) == 6 * i + 2
  {
  }

  lemma HookCells(i: int)
    requires 0 <= i < N_ROWS
    ensures Place(Hook(i)) == 6 * i + 3
  {
  }

  lemma TildeCells(i: int)
    requires 0 <= i < N_ROWS
    ensures Place(Tilde(i)) == 6 * i + 4
  {
  }

  lemma DotCells(i: int)
    requires 0 <= i < N_ROWS
    ensures Place(Dot(i)) == 6 * i + 5
  {
  }

  /** All 144 runes of the table are different. */
  lemma CellsDistinct(i: int, k: int)
    requires 0 <= i < N_ROWS && 0 <= k <= 5
    ensures RowOf(Cell(i, k)) == i && ColumnOf(Cell(i, k)) == k
  {
    hide Place, Base, Rising, Falling, Hook, Tilde, Dot;
    BaseCells(i);
    RisingCells(i);
    FallingCells(i);
    HookCells(i);
    TildeCells(i);
    DotCells(i);
  }

  /** The table has small letters in its first half, their capitals in the second: 32 or 1 below
      in Unicode. The tones of a circumflexed, breved or horned vowel are consecutive there. */
  lemma CellsInUnicode(i: int, k: int)
    requires 0 <= i < 12 && 0 <= k <= 5
    ensures Cell(i, k) - Cell(i + 12, k) == if Cell(i, k) <= 0xFF then 32 else 1
    ensures i in {1, 2, 4, 7, 8, 10} && k > 0 ==> Cell(i, k) == Cell(i, 1) + 2 * (k - 1)
  {
  }

  ghost predicate IsCell(p: int, c: Rune) {
    p >= 0 ==> p < 6 * N_ROWS && Cell(p / 6, p % 6) == c
  }

  lemma Cell0(c: Rune)
    ensures IsCell(Place0(c), c)
  {
  }

  lemma Cell1(c: Rune)
    ensures IsCell(Place1(c), c)
  {
  }

  lemma Cell2(c: Rune)
    ensures IsCell(Place2(c), c)
  {
  }

  lemma Cell3(c: Rune)
    ensures IsCell(Place3(c), c)
  {
  }

  lemma Cell4(c: Rune)
    ensures IsCell(Place4(c), c)
  {
  }

  lemma Cell5(c: Rune)
    ensures IsCell(Place5(c), c)
  {
  }

  lemma CellOf(c: Rune)
    ensures -1 <= RowOf(c) < N_ROWS
    ensures RowOf(c) >= 0 ==> 0 <= ColumnOf(c) <= 5 && Cell(RowOf(c), ColumnOf(c)) == c
  {
    hide Place0, Place1, Place2, Place3, Place4, Place5, Cell;
    Cell0(c);
    Cell1(c);
    Cell2(c);
    Cell3(c);
    Cell4(c);
    Cell5(c);
  }

  // ----------------------------------------------------------------- tones

  /** istone and toneidx: the column of a tone key, -1 for any other key. */
  function ToneIdx(c: Rune): int {
    match c
    case 0x73 => 0
    case 0x66 => 1
    case 0x72 => 2
    case 0x78 => 3
    case 0x6A => 4
    case _ => -1
  }

  const KEY_Z: Rune := 0x7A
  const BACKSLASH: Rune := 0x5C

  predicate IsVowel(c: Rune) {
    ColumnOf(c) == 0
  }

  function RemoveTone(c: Rune): Rune {
    if RowOf(c) < 0 then c else Base(RowOf(c))
  }

  function ApplyTone(c: Rune, tone: int): Rune
    requires 0 <= tone < 5
  {
    if RowOf(c) < 0 then c else Cell(RowOf(c), tone + 1)
  }

  /** What a tone key, or z, does to the rune it lands on. */
  function Mark(c: Rune, key: Rune): Rune
    requires ToneIdx(key) >= 0 || key == KEY_Z
  {
    if key == KEY_Z then RemoveTone(c) else ApplyTone(c, ToneIdx(key))
  }

  /** A tone changes no letter, takes the place of any earlier one, and z takes it off. */
  lemma MarkFacts(c: Rune, key: Rune, key': Rune)
    requires ToneIdx(key) >= 0 || key == KEY_Z
    requires ToneIdx(key') >= 0 || key' == KEY_Z
    ensures RemoveTone(Mark(c, key)) == RemoveTone(c)
    ensures RemoveTone(RemoveTone(c)) == RemoveTone(c)
    ensures Mark(Mark(c, key), key') == Mark(c, key')
  {
    hide Place;
    hide Base, Rising, Falling, Hook, Tilde, Dot;
    CellOf(c);
    if RowOf(c) >= 0 {
      CellsDistinct(RowOf(c), 0);
      CellsDistinct(RowOf(c), if key == KEY_Z then 0 else ToneIdx(key) + 1);
    }
  }

  method Removetone(c: Rune) returns (r: Rune)
    ensures r == RemoveTone(c)
  {
    hide Place;
    hide Base, Rising, Falling, Hook, Tilde, Dot;
    CellOf(c);
    for i := 0 to N_ROWS
      invariant RowOf(c) < 0 || RowOf(c) >= i
    {
      CellsDistinct(i, 0);
      if Cell(i, 0) == c {
        return c;
      }
      for j := 1 to 6
        invariant RowOf(c) == i ==> ColumnOf(c) == 0 || ColumnOf(c) >= j
      {
        CellsDistinct(i, j);
        if Cell(i, j) == c {
          return Cell(i, 0);
        }
      }
    }
    return c;
  }

  // -------------------------------------------------------------- placement

  function Toneless(s: seq<Rune>): (t: seq<Rune>)
    ensures |t| == |s|
    ensures forall i :: 0 <= i < |s| ==> t[i] == RemoveTone(s[i])
  {
    hide RemoveTone;
    if s == [] then [] else Toneless(s[..|s| - 1]) + [RemoveTone(s[|s| - 1])]
  }

  predicate VowelAt(s: seq<Rune>, i: int)
    requires 0 <= i < |s|
  {
    IsVowel(RemoveTone(s[i]))
  }

  /** The last two positions that hold a vowel, -1 for none: last first. */
  function LastVowels(s: seq<Rune>): (p: (int, int))
    ensures -1 <= p.1 <= p.0 < |s| && (p.1 >= 0 ==> p.1 < p.0)
  {
    if s == [] then (-1, -1)
    else
      var n := |s| - 1;
      var p := LastVowels(s[..n]);
      if VowelAt(s, n) then (n, p.0) else p
  }

  lemma {:induction false} LastVowelsAre(s: seq<Rune>)
    ensures var p := LastVowels(s);
            && (p.0 >= 0 ==> VowelAt(s, p.0)) && (p.1 >= 0 ==> VowelAt(s, p.1))
            && forall i :: 0 <= i < |s| && VowelAt(s, i) ==> i <= p.1 || i == p.0
  {
    hide IsVowel, RemoveTone;
    if s != [] {
      var n := |s| - 1;
      LastVowelsAre(s[..n]);
      assert forall i :: 0 <= i < n ==> VowelAt(s, i) == VowelAt(s[..n], i);
    }
  }

  /** The loop of transvi over the mapped text. */
  method FindLastVowels(s: seq<Rune>) returns (last: int, penult: int)
    ensures (last, penult) == LastVowels(s)
  {
    hide IsVowel, RemoveTone;
    last, penult := -1, -1;
    for i := 0 to |s|
      invariant (last, penult) == LastVowels(s[..i])
    {
      assert s[..i + 1][..i] == s[..i];
      var v := Removetone(s[i]);
      if IsVowel(v) {
        penult := last;
        last := i;
      }
    }
    assert s[..|s|] == s;
  }

  predicate IsO(c: Rune) {
    c == 0x6F || c == 0x4F
  }

  /** oa, oe and uy carry the tone on the second vowel. */
  predicate SecondCarries(b1: Rune, b2: Rune) {
    || (IsO(b1) && (b2 == 0x61 || b2 == 0x41 || b2 == 0x65 || b2 == 0x45))
    || ((b1 == 0x75 || b1 == 0x55) && (b2 == 0x79 || b2 == 0x59))
  }

  /** The position that takes the tone, -1 when there is no vowel. */
  function TonePos(s: seq<Rune>): (i: int)
    ensures -1 <= i < |s|
  {
    var (last, penult) := LastVowels(s);
    if last < 0 then -1
    else if last < |s| - 1 || penult < 0 then last
    else if SecondCarries(RemoveTone(s[penult]), RemoveTone(s[last])) then last
    else penult
  }

  lemma {:induction false} LastVowelsToneless(s: seq<Rune>)
    ensures LastVowels(s) == LastVowels(Toneless(s))
  {
    hide IsVowel, RemoveTone;
    if s != [] {
      var n := |s| - 1;
      LastVowelsToneless(s[..n]);
      assert Toneless(s)[..n] == Toneless(s[..n]);
      MarkFacts(s[n], KEY_Z, KEY_Z);
    }
  }

  /** The place of the tone depends on the letters alone, not on the tones already there. */
  lemma TonePosToneless(s: seq<Rune>, t: seq<Rune>)
    requires Toneless(s) == Toneless(t)
    ensures TonePos(s) == TonePos(t)
  {
    hide Place, Base;
    hide Toneless, LastVowels;
    LastVowelsToneless(s);
    LastVowelsToneless(t);
    assert forall i :: 0 <= i < |s| ==> RemoveTone(s[i]) == Toneless(s)[i];
    assert forall i :: 0 <= i < |t| ==> RemoveTone(t[i]) == Toneless(t)[i];
  }

  lemma MarkedToneless(s: seq<Rune>, i: nat, key: Rune)
    requires i < |s| && (ToneIdx(key) >= 0 || key == KEY_Z)
    ensures Toneless(s[i := Mark(s[i], key)]) == Toneless(s)
  {
    hide Place, Base;
    hide Mark, RemoveTone;
    MarkFacts(s[i], key, key);
    var t := s[i := Mark(s[i], key)];
    assert forall k :: 0 <= k < |s| ==> Toneless(t)[k] == Toneless(s)[k];
  }

  // ------------------------------------------------------------- transvi

  /** transvi; the preconditions are what keeps sputr from calling die. */
  ghost function TransVi(m: MapData, pre: Text, c: Rune): Emit
    requires |pre| < MAX_RUNES && |Render(m, pre)| < MAX_RUNES && |Render(m, Pop(pre))| < MAX_RUNES
  {
    if ToneIdx(c) < 0 && c != KEY_Z then TransMap(m, pre, c)
    else if pre == [] then Emit(false, [c], [], [])
    else if Last(pre) == BACKSLASH then Emit(true, Render(m, Pop(pre)) + [c], [], [])
    else
      var s := Render(m, pre);
      var i := TonePos(s);
      if i < 0 then Emit(true, s + [c], [], []) else Emit(true, [], s[i := Mark(s[i], c)], [])
  }

  predicate IsToneKey(c: Rune) {
    ToneIdx(c) >= 0 || c == KEY_Z
  }

  /** A tone key on a preedit with a vowel commits nothing and changes at most one rune, a
      vowel, in its tone alone. */
  lemma ToneChangesOneVowel(m: MapData, pre: Text, c: Rune)
    requires |pre| < MAX_RUNES && |Render(m, pre)| < MAX_RUNES && |Render(m, Pop(pre))| < MAX_RUNES
    requires IsToneKey(c) && pre != [] && Last(pre) != BACKSLASH
    requires exists k :: 0 <= k < |Render(m, pre)| && VowelAt(Render(m, pre), k)
    ensures var s, e := Render(m, pre), TransVi(m, pre, c);
            var i := TonePos(s);
            && e.s == [] && |e.next| == |s| && 0 <= i < |s|
            && VowelAt(s, i) && RemoveTone(e.next[i]) == RemoveTone(s[i])
            && (forall k :: 0 <= k < |s| && k != i ==> e.next[k] == s[k])
            && Toneless(e.next) == Toneless(s)
  {
    hide Place, Base, Toneless, Render;
    hide Mark, RemoveTone, IsVowel;
    var s := Render(m, pre);
    LastVowelsAre(s);
    MarkFacts(s[TonePos(s)], c, c);
    MarkedToneless(s, TonePos(s), c);
  }

  /** A rune of the table: bare or toned, it counts as a vowel. */
  ghost predicate InTable(r: Rune, row: int, k: int) {
    0 <= row < N_ROWS && 0 <= k <= 5 && r == Cell(row, k)
  }

  lemma VowelsAreInTable(s: seq<Rune>, i: nat)
    requires i < |s|
    ensures VowelAt(s, i) <==> exists row, k :: InTable(s[i], row, k)
  {
    hide Place, Cell;
    CellOf(s[i]);
    if RowOf(s[i]) >= 0 {
      assert InTable(s[i], RowOf(s[i]), ColumnOf(s[i]));
      CellsDistinct(RowOf(s[i]), 0);
      BaseIsCell(RowOf(s[i]));
    } else if row, k :| InTable(s[i], row, k) {
      CellsDistinct(row, k);
    }
  }

  /** What stands in a row of the table for a tone key: s, f, r, x and j in the order of the
      columns, the bare vowel for z. */
  ghost function Toned(row: int, key: Rune): Rune {
    if key == 0x73 then Rising(row)
    else if key == 0x66 then Falling(row)
    else if key == 0x72 then Hook(row)
    else if key == 0x78 then Tilde(row)
    else if key == 0x6A then Dot(row)
    else Base(row)
  }

  /** Position i of the text changes to what its row of the table has for the key. */
  ghost predicate MarkedAt(s: Text, e: Emit, i: nat, key: Rune)
    requires i < |s|
  {
    exists row, k :: InTable(s[i], row, k) && e == Emit(true, [], s[i := Toned(row, key)], [])
  }

  lemma MarkIsToned(s: Text, i: nat, key: Rune)
    requires i < |s| && IsToneKey(key) && VowelAt(s, i)
    ensures MarkedAt(s, Emit(true, [], s[i := Mark(s[i], key)], []), i, key)
  {
    hide Place, Base, Rising, Falling, Hook, Tilde, Dot;
    VowelsAreInTable(s, i);
    var row, k :| InTable(s[i], row, k);
    CellsDistinct(row, k);
    assert Mark(s[i], key) == Toned(row, key);
  }

  ghost predicate LastVowelAt(s: Text, i: nat, n: nat) {
    i < n <= |s| && VowelAt(s, i) && forall k :: i < k < n ==> !VowelAt(s, k)
  }

  /** Which vowel takes the tone: the last one when a consonant follows it or no other vowel is
      there; of two or more, the last of which ends the word, the last in oa, oe and uy and the one
      before it otherwise. */
  lemma ToneLands(m: MapData, pre: Text, c: Rune, i: nat)
    requires |pre| < MAX_RUNES && |Render(m, pre)| < MAX_RUNES && |Render(m, Pop(pre))| < MAX_RUNES
    requires IsToneKey(c) && pre != [] && Last(pre) != BACKSLASH
    requires LastVowelAt(Render(m, pre), i, |Render(m, pre)|)
    ensures var s, e := Render(m, pre), TransVi(m, pre, c);
            && (i < |s| - 1 ==> MarkedAt(s, e, i, c))
            && ((forall k :: 0 <= k < i ==> !VowelAt(s, k)) ==> MarkedAt(s, e, i, c))
            && forall j: nat :: LastVowelAt(s, j, i) && i == |s| - 1 ==>
                 var b1, b2 := RemoveTone(s[j]), RemoveTone(s[i]);
                 MarkedAt(s, e, if (b1 in {0x6F, 0x4F} && b2 in {0x61, 0x41, 0x65, 0x45})
                                   || (b1 in {0x75, 0x55} && b2 in {0x79, 0x59}) then i else j, c)
  {
    hide Render, MapGet, Mark, MarkedAt, IsVowel, RemoveTone, Toneless;
    var s := Render(m, pre);
    LastVowelsAre(s);
    var p := LastVowels(s);
    assert p.0 == i;
    MarkIsToned(s, TonePos(s), c);
    forall j: nat | LastVowelAt(s, j, i) && i == |s| - 1
      ensures p.1 == j
    {
      assert VowelAt(s, j);
    }
  }

  /** Where there is nothing to mark the key stands for itself: after what is shown when that has
      no vowel, and after a backslash, which goes. */
  lemma ToneKeyItself(m: MapData, pre: Text, c: Rune)
    requires |pre| < MAX_RUNES && |Render(m, pre)| < MAX_RUNES && |Render(m, Pop(pre))| < MAX_RUNES
    requires IsToneKey(c)
    ensures pre == [] ==> TransVi(m, pre, c) == Emit(false, [c], [], [])
    ensures var e, word := TransVi(m, pre, c), Pop(pre);
            pre == word + [0x5C] ==> e == Emit(true, Render(m, word) + [c], [], [])
    ensures var s := Render(m, pre);
            && !(exists k :: 0 <= k < |s| && VowelAt(s, k))
            && pre != [] && Last(pre) != 0x5C
            ==> TransVi(m, pre, c) == Emit(true, s + [c], [], [])
  {
    hide Render, MapGet, Mark, IsVowel, RemoveTone;
    LastVowelsAre(Render(m, pre));
  }

  lemma MarkAgain(s: seq<Rune>, i: nat, c: Rune, d: Rune)
    requires i < |s| && IsToneKey(c) && IsToneKey(d)
    ensures var t := s[i := Mark(s[i], c)];
            t[i := Mark(t[i], d)] == s[i := Mark(s[i], d)]
  {
    hide Mark;
    MarkFacts(s[i], c, d);
  }

  /** A later tone key, or z, overrides an earlier one, as long as the word with the first tone is
      its own rendering. */
  lemma LaterToneWins(m: MapData, pre: Text, c: Rune, d: Rune)
    requires 0 < |pre| < MAX_RUNES && |Render(m, pre)| < MAX_RUNES && |Render(m, Pop(pre))| < MAX_RUNES
    requires Last(pre) != BACKSLASH && Last(Render(m, pre)) != BACKSLASH
    requires IsToneKey(c) && IsToneKey(d) && TonePos(Render(m, pre)) >= 0
    requires Render(m, TransVi(m, pre, c).next) == TransVi(m, pre, c).next
    requires |Render(m, Pop(TransVi(m, pre, c).next))| < MAX_RUNES
    ensures TransVi(m, TransVi(m, pre, c).next, d).next == TransVi(m, pre, d).next
  {
    hide Place, Base, Toneless, MapGet, ToUtf;
    hide Mark, RemoveTone, IsVowel, TonePos;
    var s := Render(m, pre);
    var i := TonePos(s);
    var q := TransVi(m, pre, c).next;
    assert q == s[i := Mark(s[i], c)];
    MarkedToneless(s, i, c);
    TonePosToneless(s, q);
    MarkAgain(s, i, c, d);
    MarkNeverBackslash(s[i], c);
    assert Last(q) == if i == |s| - 1 then Mark(s[i], c) else Last(s);
  }

  lemma MarkNeverBackslash(c: Rune, key: Rune)
    requires IsToneKey(key)
    ensures Mark(c, key) == BACKSLASH ==> c == BACKSLASH
  {
    hide Place;
    CellOf(c);
    if RowOf(c) >= 0 {
      var k := if key == KEY_Z then 0 else ToneIdx(key) + 1;
      CellsDistinct(RowOf(c), k);
      BackslashIsNoVowel();
    }
  }

  lemma BackslashIsNoVowel()
    ensures RowOf(BACKSLASH) < 0
  {
  }

  lemma CellsAreShort(i: int, k: int)
    ensures |Utf8(Cell(i, k))| < UTF_MAX
  {
    hide Place;
    assert Cell(i, k) < 0x2000;
  }

  lemma MarkIsShort(c: Rune, key: Rune)
    requires IsToneKey(key) && IsVowel(RemoveTone(c))
    ensures |Utf8(Mark(c, key))| < UTF_MAX
  {
    hide Cell, Place, Utf8;
    if RowOf(c) >= 0 {
      CellsAreShort(RowOf(c), if key == KEY_Z then 0 else ToneIdx(key) + 1);
      CellsAreShort(RowOf(c), 0);
      BaseIsCell(RowOf(c));
    }
  }

  lemma BaseIsCell(i: int)
    ensures Base(i) == Cell(i, 0)
  {
  }

  /** A Vietnamese keystroke leaves room for the next one. */
  lemma TransViRoomy(m: MapData, pre: Text, c: Rune)
    requires IsMap(m) && ShortEntries(m) && Roomy(pre) && c < 0x80
    ensures |Render(m, pre)| < MAX_RUNES && |Render(m, Pop(pre))| < MAX_RUNES
    ensures Roomy(TransVi(m, pre, c).next)
  {
    hide IsMap, ShortEntries, Render, TransMap, Roomy;
    hide Mark, LastVowels, IsVowel, RemoveTone, Encode, Utf8;
    RoomyRenders(m, pre);
    RoomyRenders(m, Pop(pre));
    TransMapRoomy(m, pre, c);
    NothingRoomy();
    var s := Render(m, pre);
    var i := TonePos(s);
    if IsToneKey(c) && pre != [] && Last(pre) != BACKSLASH && i >= 0 {
      LastVowelsAre(s);
      MarkIsShort(s[i], c);
      var t := s[i := Mark(s[i], c)];
      assert |Utf8(t[i])| < UTF_MAX;
      RoomyShort(t);
    }
  }

  // ------------------------------------------------------- the C functions

  method Applytone(c: Rune, tone: int) returns (r: Rune)
    requires 0 <= tone < 5
    ensures r == ApplyTone(c, tone)
  {
    hide Place;
    hide Base, Rising, Falling, Hook, Tilde, Dot;
    CellOf(c);
    var base := Removetone(c);
    if RowOf(c) >= 0 {
      CellsDistinct(RowOf(c), 0);
    }
    for i := 0 to N_ROWS
      invariant RowOf(c) < 0 || RowOf(c) >= i
    {
      CellsDistinct(i, 0);
      if Cell(i, 0) == base {
        return Cell(i, tone + 1);
      }
    }
    return c;
  }

  /** transvi. */
  method TransviInPlace(im: Im, t: Trie.TrieMap, c: Rune) returns (e: Emit)
    requires t.Valid() && |im.pre| < MAX_RUNES
    requires |Render(DataOf(t), im.pre)| < MAX_RUNES && |Render(DataOf(t), Pop(im.pre))| < MAX_RUNES
    ensures e == TransVi(DataOf(t), im.pre, c)
  {
    hide TransMap, Render, TonePos, Mark, DataOf, MapGet;
    if ToneIdx(c) < 0 && c != KEY_Z {
      e := TransmapInPlace(im, t, c);
      return;
    }
    if im.pre == [] {
      return Emit(false, [c], [], []);
    }
    var mapped;
    if Last(im.pre) == BACKSLASH {
      mapped := Rendered(t, Pop(im.pre));
      return Emit(true, mapped + [c], [], []);
    }
    mapped := Rendered(t, im.pre);
    var vi := FindTonePos(mapped);
    if vi < 0 {
      return Emit(true, mapped + [c], [], []);
    }
    var marked := MarkRune(mapped[vi], c);
    e := Emit(true, [], mapped[vi := marked], []);
  }

  method MarkRune(r: Rune, c: Rune) returns (marked: Rune)
    requires IsToneKey(c)
    ensures marked == Mark(r, c)
  {
    hide RemoveTone, ApplyTone;
    if c == KEY_Z {
      marked := Removetone(r);
    } else {
      marked := Applytone(r, ToneIdx(c));
    }
  }

  method FindTonePos(mapped: seq<Rune>) returns (vi: int)
    ensures vi == TonePos(mapped)
  {
    hide LastVowels, RemoveTone;
    var last, penult := FindLastVowels(mapped);
    vi := -1;
    if last >= 0 {
      if last < |mapped| - 1 || penult < 0 {
        vi := last;
      } else {
        var b1 := Removetone(mapped[penult]);
        var b2 := Removetone(mapped[last]);
        if (b1 == 0x6F || b1 == 0x4F) && (b2 == 0x61 || b2 == 0x41 || b2 == 0x65 || b2 == 0x45) {
          vi := last;
        } else if (b1 == 0x75 || b1 == 0x55) && (b2 == 0x79 || b2 == 0x59) {
          vi := last;
        } else {
          vi := penult;
        }
      }
    }
  }
}
