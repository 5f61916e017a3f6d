/**
 The jamo tables of ko.c and the Hangul arithmetic of section 3.12 of the Unicode Standard
 (Conjoining Jamo Behavior), with the spelling of a rune: the basic jamo it is typed with.
 */
module Hangul {
  import opened Common
  import opened Text

  const S_BASE := 0xAC00
  const J_BASE := 0x3131
  const J_RANGE := 51
  const N_CHO := 19
  const N_JUNG := 21
  const N_JONG := 28

  // ------------------------------------------------------------- tables

  function Cho(i: int): Rune {
    match i
    case 0 => 0x3131 case 1 => 0x3132 case 2 => 0x3134 case 3 => 0x3137 case 4 => 0x3138
    case 5 => 0x3139 case 6 => 0x3141 case 7 => 0x3142 case 8 => 0x3143 case 9 => 0x3145
    case 10 => 0x3146 case 11 => 0x3147 case 12 => 0x3148 case 13 => 0x3149 case 14 => 0x314A
    case 15 => 0x314B case 16 => 0x314C case 17 => 0x314D case 18 => 0x314E case _ => 0
  }

  function Jung(i: int): Rune {
    match i
    case 0 => 0x314F case 1 => 0x3150 case 2 => 0x3151 case 3 => 0x3152 case 4 => 0x3153
    case 5 => 0x3154 case 6 => 0x3155 case 7 => 0x3156 case 8 => 0x3157 case 9 => 0x3158
    case 10 => 0x3159 case 11 => 0x315A case 12 => 0x315B case 13 => 0x315C case 14 => 0x315D
    case 15 => 0x315E case 16 => 0x315F case 17 => 0x3160 case 18 => 0x3161 case 19 => 0x3162
    case 20 => 0x3163 case _ => 0
  }

  function Jong(i: int): Rune {
    match i
    case 0 => 0 case 1 => 0x3131 case 2 => 0x3132 case 3 => 0x3133 case 4 => 0x3134
    case 5 => 0x3135 case 6 => 0x3136 case 7 => 0x3137 case 8 => 0x3139 case 9 => 0x313A
    case 10 => 0x313B case 11 => 0x313C case 12 => 0x313D case 13 => 0x313E case 14 => 0x313F
    case 15 => 0x3140 case 16 => 0x3141 case 17 => 0x3142 case 18 => 0x3144 case 19 => 0x3145
    case 20 => 0x3146 case 21 => 0x3147 case 22 => 0x3148 case 23 => 0x314A case 24 => 0x314B
    case 25 => 0x314C case 26 => 0x314D case 27 => 0x314E case _ => 0
  }

  predicate IsJamo(r: Rune) {
    J_BASE <= r < J_BASE + J_RANGE
  }

  /** Position of a jamo in the table of initials, -1 when it is not one. The C tables are
      indexed by `r - J_BASE`, so they may be asked only about jamo. */
  function ChoIdx(r: Rune): int
    requires IsJamo(r)
  {
    match r
    case 0x3131 => 0 case 0x3132 => 1 case 0x3134 => 2 case 0x3137 => 3 case 0x3138 => 4
    case 0x3139 => 5 case 0x3141 => 6 case 0x3142 => 7 case 0x3143 => 8 case 0x3145 => 9
    case 0x3146 => 10 case 0x3147 => 11 case 0x3148 => 12 case 0x3149 => 13 case 0x314A => 14
    case 0x314B => 15 case 0x314C => 16 case 0x314D => 17 case 0x314E => 18 case _ => -1
  }

  function JungIdx(r: Rune): int
    requires IsJamo(r)
  {
    match r
    case 0x314F => 0 case 0x3150 => 1 case 0x3151 => 2 case 0x3152 => 3 case 0x3153 => 4
    case 0x3154 => 5 case 0x3155 => 6 case 0x3156 => 7 case 0x3157 => 8 case 0x3158 => 9
    case 0x3159 => 10 case 0x315A => 11 case 0x315B => 12 case 0x315C => 13 case 0x315D => 14
    case 0x315E => 15 case 0x315F => 16 case 0x3160 => 17 case 0x3161 => 18 case 0x3162 => 19
    case 0x3163 => 20 case _ => -1
  }

  function JongIdx(r: Rune): int
    requires IsJamo(r)
  {
    match r
    case 0x3131 => 1 case 0x3132 => 2 case 0x3133 => 3 case 0x3134 => 4 case 0x3135 => 5
    case 0x3136 => 6 case 0x3137 => 7 case 0x3139 => 8 case 0x313A => 9 case 0x313B => 10
    case 0x313C => 11 case 0x313D => 12 case 0x313E => 13 case 0x313F => 14 case 0x3140 => 15
    case 0x3141 => 16 case 0x3142 => 17 case 0x3144 => 18 case 0x3145 => 19 case 0x3146 => 20
    case 0x3147 => 21 case 0x3148 => 22 case 0x314A => 23 case 0x314B => 24 case 0x314C => 25
    case 0x314D => 26 case 0x314E => 27 case _ => -1
  }

  /** keytojamo: 0 for a key without a jamo. */
  function KeyToJamo(c: Rune): Rune {
    match c
    case 65 => 0x3141 case 66 => 0x3160 case 67 => 0x314A case 68 => 0x3147 case 69 => 0x3138
    case 70 => 0x3139 case 71 => 0x314E case 72 => 0x3157 case 73 => 0x3151 case 74 => 0x3153
    case 75 => 0x314F case 76 => 0x3163 case 77 => 0x3161 case 78 => 0x315C case 79 => 0x3152
    case 80 => 0x3156 case 81 => 0x3143 case 82 => 0x3132 case 83 => 0x3134 case 84 => 0x3146
    case 85 => 0x3155 case 86 => 0x314D case 87 => 0x3149 case 88 => 0x314C case 89 => 0x315B
    case 90 => 0x314B case 97 => 0x3141 case 98 => 0x3160 case 99 => 0x314A case 100 => 0x3147
    case 101 => 0x3137 case 102 => 0x3139 case 103 => 0x314E case 104 => 0x3157 case 105 => 0x3151
    case 106 => 0x3153 case 107 => 0x314F case 108 => 0x3163 case 109 => 0x3161 case 110 => 0x315C
    case 111 => 0x3150 case 112 => 0x3154 case 113 => 0x3142 case 114 => 0x3131 case 115 => 0x3134
    case 116 => 0x3145 case 117 => 0x3155 case 118 => 0x314D case 119 => 0x3148 case 120 => 0x314C
    case 121 => 0x315B case 122 => 0x314B case _ => 0
  }

  /** A row of the tables of compounds: `b` followed by `a` is written `r`. */
  datatype Cpair = Cpair(b: Rune, a: Rune, r: Rune)
  datatype Table = Vowels | Finals

  function Count(t: Table): nat {
    if t.Vowels? then 7 else 11
  }

  function Pair(t: Table, i: nat): Cpair
    requires i < Count(t)
  {
    match t
    case Vowels => (
      match i
      case 0 => Cpair(0x3157, 0x314F, 0x3158)
      case 1 => Cpair(0x3157, 0x3150, 0x3159)
      case 2 => Cpair(0x3157, 0x3163, 0x315A)
      case 3 => Cpair(0x315C, 0x3153, 0x315D)
      case 4 => Cpair(0x315C, 0x3154, 0x315E)
      case 5 => Cpair(0x315C, 0x3163, 0x315F)
      case _ => Cpair(0x3161, 0x3163, 0x3162))
    case Finals => (
      match i
      case 0 => Cpair(0x3131, 0x3145, 0x3133)
      case 1 => Cpair(0x3134, 0x3148, 0x3135)
      case 2 => Cpair(0x3134, 0x314E, 0x3136)
      case 3 => Cpair(0x3139, 0x3131, 0x313A)
      case 4 => Cpair(0x3139, 0x3141, 0x313B)
      case 5 => Cpair(0x3139, 0x3142, 0x313C)
      case 6 => Cpair(0x3139, 0x3145, 0x313D)
      case 7 => Cpair(0x3139, 0x314C, 0x313E)
      case 8 => Cpair(0x3139, 0x314D, 0x313F)
      case 9 => Cpair(0x3139, 0x314E, 0x3140)
      case _ => Cpair(0x3142, 0x3145, 0x3144))
  }

  ghost predicate IsEntry(t: Table, p: Cpair) {
    exists k :: 0 <= k < Count(t) && Pair(t, k) == p
  }

  function CombineFrom(t: Table, b: Rune, a: Rune, i: nat): (r: Rune)
    requires i <= Count(t)
    ensures r != 0 ==> IsEntry(t, Cpair(b, a, r))
    decreases Count(t) - i
  {
    if i == Count(t) then 0
    else if Pair(t, i).b == b && Pair(t, i).a == a then Pair(t, i).r
    else CombineFrom(t, b, a, i + 1)
  }

  /** The compound of `b` and `a`, 0 when they make none. */
  function Combine(t: Table, b: Rune, a: Rune): Rune {
    CombineFrom(t, b, a, 0)
  }

  function SplitFrom(t: Table, c: Rune, i: nat): (r: Option<Cpair>)
    requires i <= Count(t)
    ensures r.Some? ==> r.value.r == c && IsEntry(t, r.value)
    ensures r.None? ==> forall k :: i <= k < Count(t) ==> Pair(t, k).r != c
    decreases Count(t) - i
  {
    if i == Count(t) then None
    else if Pair(t, i).r == c then Some(Pair(t, i))
    else SplitFrom(t, c, i + 1)
  }

  /** The parts of the compound `c`, None when it is not one. */
  function SplitPair(t: Table, c: Rune): Option<Cpair> {
    SplitFrom(t, c, 0)
  }

  method FindCombination(t: Table, b: Rune, a: Rune) returns (r: Rune)
    ensures r == Combine(t, b, a)
    ensures r != 0 ==> IsEntry(t, Cpair(b, a, r))
  {
    for i := 0 to Count(t)
      invariant Combine(t, b, a) == CombineFrom(t, b, a, i)
    {
      if Pair(t, i).b == b && Pair(t, i).a == a {
        return Pair(t, i).r;
      }
    }
    return 0;
  }

  method FindSplit(t: Table, c: Rune) returns (found: bool, stay: Rune, next: Rune)
    ensures SplitPair(t, c) == if found then Some(Cpair(stay, next, c)) else None
    ensures found ==> IsEntry(t, Cpair(stay, next, c))
  {
    stay, next := 0, 0;
    for i := 0 to Count(t)
      invariant SplitPair(t, c) == SplitFrom(t, c, i)
    {
      if Pair(t, i).r == c {
        return true, Pair(t, i).b, Pair(t, i).a;
      }
    }
    found := false;
  }

  // --------------------------------------------------- facts of the tables

  lemma ChoTable(r: Rune)
    requires IsJamo(r)
    ensures -1 <= ChoIdx(r) < N_CHO
    ensures ChoIdx(r) >= 0 ==> Cho(ChoIdx(r)) == r
  {
  }

  lemma JungTable(r: Rune)
    requires IsJamo(r)
    ensures -1 <= JungIdx(r) < N_JUNG
    ensures JungIdx(r) >= 0 ==> Jung(JungIdx(r)) == r
  {
  }

  lemma JongTable(r: Rune)
    requires IsJamo(r)
    ensures -1 <= JongIdx(r) < N_JONG && JongIdx(r) != 0
    ensures JongIdx(r) >= 0 ==> Jong(JongIdx(r)) == r
  {
  }

  /** Every position of the three tables is found again by its index function. */
  lemma TablePositions(c: int, j: int, jo: int)
    ensures 0 <= c < N_CHO ==> IsJamo(Cho(c)) && ChoIdx(Cho(c)) == c
    ensures 0 <= j < N_JUNG ==> IsJamo(Jung(j)) && JungIdx(Jung(j)) == j
    ensures 0 < jo < N_JONG ==> IsJamo(Jong(jo)) && JongIdx(Jong(jo)) == jo
  {
  }

  /** The tables are in the order of Unicode, which has the consonants from 0x3131 and the vowels from
      0x314F on: the initials are all consonants but the eleven clusters, the finals all but three of
      the doubled ones. */
  lemma TablesInOrder(i: int)
    ensures 0 <= i < N_CHO ==> 0x3131 <= Cho(i) <= 0x314E && Cho(i) !in Clusters()
    ensures 0 < i < N_CHO ==> Cho(i - 1) < Cho(i)
    ensures 0 <= i < N_JUNG ==> Jung(i) == 0x314F + i
    ensures 0 < i < N_JONG ==> 0x3131 <= Jong(i) <= 0x314E && Jong(i) !in {0x3138, 0x3143, 0x3149}
    ensures 1 < i < N_JONG ==> Jong(i - 1) < Jong(i)
  {
  }

  function Clusters(): set<int> {
    {0x3133, 0x3135, 0x3136, 0x313A, 0x313B, 0x313C, 0x313D, 0x313E, 0x313F, 0x3140, 0x3144}
  }

  /** No jamo is both a consonant and a vowel. */
  lemma ConsonantOrVowel(r: Rune)
    requires IsJamo(r)
    ensures JungIdx(r) >= 0 <==> ChoIdx(r) < 0 && JongIdx(r) < 0
  {
  }

  lemma EntryFacts(t: Table, p: Cpair)
    requires IsEntry(t, p)
    ensures IsJamo(p.b) && IsJamo(p.a) && IsJamo(p.r)
    ensures t.Vowels? ==> JungIdx(p.b) >= 0 && JungIdx(p.a) >= 0 && JungIdx(p.r) >= 0
    ensures t.Finals? ==> JongIdx(p.b) > 0 && JongIdx(p.a) > 0 && JongIdx(p.r) > 0
    ensures t.Finals? ==> ChoIdx(p.b) >= 0 && ChoIdx(p.a) >= 0 && ChoIdx(p.r) < 0
  {
  }

  /** A compound has one spelling, and no part of a compound is a compound. */
  lemma EntriesDistinct(t: Table, p: Cpair, q: Cpair)
    requires IsEntry(t, p) && IsEntry(t, q)
    ensures p.r == q.r ==> p == q
    ensures p.b == q.b && p.a == q.a ==> p == q
    ensures p.r != q.b && p.r != q.a
  {
  }

  /** A consonant that is no initial is a compound final. */
  lemma FinalsAreCompoundOrInitial(jo: int)
    requires 0 < jo < N_JONG
    ensures IsJamo(Jong(jo)) && (ChoIdx(Jong(jo)) >= 0 || SplitPair(Finals, Jong(jo)).Some?)
  {
    TablePositions(0, 0, jo);
    var c := Jong(jo);
    if ChoIdx(c) < 0 {
      var k := match c case 0x3133 => 0 case 0x3135 => 1 case 0x3136 => 2 case 0x313A => 3
               case 0x313B => 4 case 0x313C => 5 case 0x313D => 6 case 0x313E => 7
               case 0x313F => 8 case 0x3140 => 9 case _ => 10;
      assert Pair(Finals, k).r == c;
    }
  }

  lemma PartsAreBasic(t: Table, p: Cpair)
    requires IsEntry(t, p)
    ensures SplitPair(t, p.b).None? && SplitPair(t, p.a).None?
  {
    forall q | IsEntry(t, q)
      ensures q.r != p.b && q.r != p.a
    {
      EntriesDistinct(t, q, p);
    }
  }

  /** Splitting inverts combining. */
  lemma SplitCombine(t: Table, b: Rune, a: Rune)
    requires Combine(t, b, a) != 0
    ensures SplitPair(t, Combine(t, b, a)) == Some(Cpair(b, a, Combine(t, b, a)))
  {
    var p := Cpair(b, a, Combine(t, b, a));
    forall q | IsEntry(t, q)
      ensures q.r == p.r ==> q == p
    {
      EntriesDistinct(t, q, p);
    }
  }

  lemma {:induction false} CombineFinds(t: Table, b: Rune, a: Rune, i: nat, k: nat)
    requires i <= k < Count(t) && Pair(t, k).b == b && Pair(t, k).a == a
    ensures CombineFrom(t, b, a, i) != 0
    decreases Count(t) - i
  {
    if Pair(t, i).b != b || Pair(t, i).a != a {
      CombineFinds(t, b, a, i + 1, k);
    }
  }

  /** And combining inverts splitting. */
  lemma CombineSplit(t: Table, r: Rune)
    requires SplitPair(t, r).Some?
    ensures var p := SplitPair(t, r).value; Combine(t, p.b, p.a) == r
  {
    hide Pair, CombineFrom, SplitFrom;
    var p := SplitPair(t, r).value;
    var k :| 0 <= k < Count(t) && Pair(t, k) == p;
    CombineFinds(t, p.b, p.a, 0, k);
    EntriesDistinct(t, p, Cpair(p.b, p.a, Combine(t, p.b, p.a)));
  }

  lemma KeyJamoIndex(c: Rune)
    requires KeyToJamo(c) != 0
    ensures c < 0x80 && IsJamo(KeyToJamo(c)) && (ChoIdx(KeyToJamo(c)) >= 0 || JungIdx(KeyToJamo(c)) >= 0)
  {
  }

  lemma KeyJamoWhole(t: Table, c: Rune)
    requires KeyToJamo(c) != 0
    ensures SplitPair(t, KeyToJamo(c)).None?
  {
  }

  /** A key's jamo is a basic one: it never splits. */
  lemma KeyJamoBasic(c: Rune)
    requires KeyToJamo(c) != 0
    ensures c < 0x80 && IsJamo(KeyToJamo(c))
    ensures ChoIdx(KeyToJamo(c)) >= 0 || JungIdx(KeyToJamo(c)) >= 0
    ensures SplitPair(Vowels, KeyToJamo(c)).None? && SplitPair(Finals, KeyToJamo(c)).None?
  {
    hide KeyToJamo, ChoIdx, JungIdx, SplitPair;
    KeyJamoIndex(c);
    KeyJamoWhole(Vowels, c);
    KeyJamoWhole(Finals, c);
  }

  // ------------------------------------------------------------ syllables

  predicate IsSyl(r: Rune) {
    S_BASE <= r < S_BASE + N_CHO * N_JUNG * N_JONG
  }

  function Compose(c: int, j: int, jo: int): (r: Rune)
    requires 0 <= c < N_CHO && 0 <= j < N_JUNG && 0 <= jo < N_JONG
    ensures IsSyl(r)
  {
    S_BASE + c * N_JUNG * N_JONG + j * N_JONG + jo
  }

  /** Section 3.12 numbers the syllables from 0xAC00 on by initial, then vowel, then final. */
  lemma ComposeRises(c: int, j: int, jo: int, d: int, k: int, ko: int)
    requires 0 <= c < N_CHO && 0 <= j < N_JUNG && 0 <= jo < N_JONG
    requires 0 <= d < N_CHO && 0 <= k < N_JUNG && 0 <= ko < N_JONG
    ensures Compose(c, j, jo) < Compose(d, k, ko) <==> c < d || (c == d && (j < k || (j == k && jo < ko)))
    ensures Compose(0, 0, 0) == 0xAC00 && Compose(N_CHO - 1, N_JUNG - 1, N_JONG - 1) == 0xD7A3
  {
  }

  function Decompose(r: Rune): (p: (int, int, int))
    requires IsSyl(r)
    ensures 0 <= p.0 < N_CHO && 0 <= p.1 < N_JUNG && 0 <= p.2 < N_JONG
  {
    var i := r - S_BASE;
    (i / (N_JUNG * N_JONG), i / N_JONG % N_JUNG, i % N_JONG)
  }

  lemma DecomposeCompose(c: int, j: int, jo: int)
    requires 0 <= c < N_CHO && 0 <= j < N_JUNG && 0 <= jo < N_JONG
    ensures Decompose(Compose(c, j, jo)) == (c, j, jo)
  {
    var i, k := c * N_JUNG * N_JONG + j * N_JONG + jo, c * N_JUNG + j;
    assert i == k * N_JONG + jo;
    assert i / N_JONG == k && i % N_JONG == jo;
    assert k / N_JUNG == c && k % N_JUNG == j;
    assert i / (N_JUNG * N_JONG) == k / N_JUNG;
  }

  lemma ComposeDecompose(r: Rune)
    requires IsSyl(r)
    ensures var (c, j, jo) := Decompose(r); Compose(c, j, jo) == r
  {
    var i := r - S_BASE;
    assert i / (N_JUNG * N_JONG) == i / N_JONG / N_JUNG;
  }

  // ------------------------------------------------------------- spelling

  function SpellIn(t: Table, r: Rune): (s: seq<Rune>)
    ensures 1 <= |s| <= 2
  {
    match SplitPair(t, r)
    case Some(p) => [p.b, p.a]
    case None => [r]
  }

  function SpellFinal(jo: int): seq<Rune> {
    if jo <= 0 then [] else SpellIn(Finals, Jong(jo))
  }

  /** The basic jamo of one rune, in the order they are typed; any other rune spells itself. */
  function SpellRune(r: Rune): (s: seq<Rune>)
    ensures s != []
  {
    if IsSyl(r) then
      var (c, j, jo) := Decompose(r);
      [Cho(c)] + SpellIn(Vowels, Jung(j)) + SpellFinal(jo)
    else SpellIn(Vowels, r)
  }

  function Spell(s: seq<Rune>): (t: seq<Rune>)
    ensures |t| >= |s|
  {
    if s == [] then [] else SpellRune(s[0]) + Spell(s[1..])
  }

  lemma {:induction false} SpellConcat(s: seq<Rune>, t: seq<Rune>)
    ensures Spell(s + t) == Spell(s) + Spell(t)
  {
    if s == [] {
      assert s + t == t;
    } else {
      assert (s + t)[1..] == s[1..] + t;
      SpellConcat(s[1..], t);
    }
  }

  lemma SpellNothing()
    ensures Spell([]) == []
  {
  }

  lemma SpellOne(r: Rune)
    ensures Spell([r]) == SpellRune(r)
  {
    assert Spell([r][1..]) == [];
  }

  lemma SpellCompose(c: int, j: int, jo: int)
    requires 0 <= c < N_CHO && 0 <= j < N_JUNG && 0 <= jo < N_JONG
    ensures Spell([Compose(c, j, jo)]) == [Cho(c)] + SpellIn(Vowels, Jung(j)) + SpellFinal(jo)
  {
    DecomposeCompose(c, j, jo);
    SpellOne(Compose(c, j, jo));
  }
}
