/**
 The Hangul automaton of ko.c.

 TransKo and BackKo are its two steps as functions of the preedit; the methods at the end
 are the C functions, which update the preedit of an `Im`. The results: no key is ever lost
 or reordered, a backspace takes back exactly one typed jamo, and a preedit is determined by
 its spelling.
 */
module Korean {
  import opened Common
  import opened Text
  import opened Hangul
  import opened ImData

  /** What a preedit rune can be: a syllable, an initial, or a vowel (simple or compound). */
  predicate KoRune(r: Rune) {
    IsSyl(r) || (IsJamo(r) && (ChoIdx(r) >= 0 || JungIdx(r) >= 0))
  }

  /** The run invariant of Korean mode; dotrans would otherwise drop part of the preedit. */
  predicate KoPre(pre: Text) {
    |pre| <= 1 && forall i :: 0 <= i < |pre| ==> KoRune(pre[i])
  }

  function Eat(s: Text, next: Rune): Emit {
    Emit(true, s, [next], [])
  }

  /** transko when the preedit ends in a lone jamo: what it emits and what it leaves in pre. */
  function JoinJamo(pre: Text, jm: Rune): (Emit, Text)
    requires KoPre(pre) && pre != [] && !IsSyl(Last(pre)) && IsJamo(jm)
  {
    ChoTable(Last(pre));
    JungTable(jm);
    var last := Last(pre);
    if ChoIdx(last) >= 0 && JungIdx(jm) >= 0 then
      (Eat([], Compose(ChoIdx(last), JungIdx(jm), 0)), Pop(pre))
    else if JungIdx(last) >= 0 && JungIdx(jm) >= 0 && Combine(Vowels, last, jm) != 0 then
      (Eat([], Combine(Vowels, last, jm)), Pop(pre))
    else (Eat(pre, jm), pre)
  }

  /** A vowel after a closed syllable takes its final, or the second part of it, along. */
  function MoveFinal(c: int, j: int, jo: int, vi: int): Emit
    requires 0 <= c < N_CHO && 0 <= j < N_JUNG && 0 < jo < N_JONG && 0 <= vi < N_JUNG
  {
    FinalsAreCompoundOrInitial(jo);
    var split := SplitPair(Finals, Jong(jo));
    if split.Some? then
      EntryFacts(Finals, split.value);
      JongTable(split.value.b);
      ChoTable(split.value.a);
      Eat([Compose(c, j, JongIdx(split.value.b))], Compose(ChoIdx(split.value.a), vi, 0))
    else
      ChoTable(Jong(jo));
      Eat([Compose(c, j, 0)], Compose(ChoIdx(Jong(jo)), vi, 0))
  }

  /** transko when the preedit ends in a syllable. */
  function JoinSyllable(pre: Text, jm: Rune): (Emit, Text)
    requires KoPre(pre) && pre != [] && IsSyl(Last(pre)) && IsJamo(jm)
  {
    var (c, j, jo) := Decompose(Last(pre));
    JongTable(jm);
    JungTable(jm);
    TablePositions(c, j, jo);
    if jo == 0 then
      var vowel := if JungIdx(jm) >= 0 then Combine(Vowels, Jung(j), jm) else 0;
      if JongIdx(jm) > 0 then (Eat([], Compose(c, j, JongIdx(jm))), Pop(pre))
      else if vowel != 0 then
        EntryFacts(Vowels, Cpair(Jung(j), jm, vowel));
        JungTable(vowel);
        (Eat([], Compose(c, JungIdx(vowel), 0)), Pop(pre))
      else (Eat(pre, jm), pre)
    else
      var final := Combine(Finals, Jong(jo), jm);
      if final != 0 then
        EntryFacts(Finals, Cpair(Jong(jo), jm, final));
        JongTable(final);
        (Eat([], Compose(c, j, JongIdx(final))), Pop(pre))
      else if JungIdx(jm) >= 0 then
        (MoveFinal(c, j, jo, JungIdx(jm)), Pop(pre))
      else (Eat(pre, jm), pre)
  }

  function TransKo(pre: Text, c: Rune): (Emit, Text)
    requires KoPre(pre)
  {
    var jm := KeyToJamo(c);
    if jm == 0 then (Emit(false, pre + [c], [], []), [])
    else
      KeyJamoBasic(c);
      if pre == [] then (Eat([], jm), pre)
      else if !IsSyl(Last(pre)) then JoinJamo(pre, jm)
      else JoinSyllable(pre, jm)
  }

  function BackKo(pre: Text): Text
    requires KoPre(pre)
  {
    var last := Last(pre);
    if !IsSyl(last) then
      var split := SplitPair(Vowels, last);
      if split.Some? then Pop(pre) + [split.value.b] else Pop(pre)
    else
      var (c, j, jo) := Decompose(last);
      TablePositions(c, j, jo);
      var final := SplitPair(Finals, Jong(jo));
      var vowel := SplitPair(Vowels, Jung(j));
      if jo > 0 && final.Some? then
        EntryFacts(Finals, final.value);
        JongTable(final.value.b);
        Pop(pre) + [Compose(c, j, JongIdx(final.value.b))]
      else if jo > 0 then Pop(pre) + [Compose(c, j, 0)]
      else if vowel.Some? then
        EntryFacts(Vowels, vowel.value);
        JungTable(vowel.value.b);
        Pop(pre) + [Compose(c, JungIdx(vowel.value.b), 0)]
      else Pop(pre) + [Cho(c)]
  }

  // ----------------------------------------------------- conservation law

  /** What a key adds to the spelled text: its jamo, or itself when it has none. */
  function KeySpelling(c: Rune): seq<Rune> {
    if KeyToJamo(c) == 0 then SpellRune(c) else [KeyToJamo(c)]
  }

  ghost predicate Appends(e: Emit, pre: Text, typed: seq<Rune>) {
    KoPre(e.next) && Spell(e.s) + Spell(e.next) == Spell(pre) + typed
  }

  /** A jamo that is part of no compound as a whole spells itself. */
  lemma SpellJamo(r: Rune)
    requires IsJamo(r) && SplitPair(Vowels, r).None?
    ensures Spell([r]) == [r]
  {
    SpellOne(r);
  }

  lemma ConsonantIsNoVowel(r: Rune)
    requires IsJamo(r) && (ChoIdx(r) >= 0 || JongIdx(r) >= 0)
    ensures SplitPair(Vowels, r).None?
  {
    ConsonantOrVowel(r);
    if SplitPair(Vowels, r).Some? {
      EntryFacts(Vowels, SplitPair(Vowels, r).value);
    }
  }

  lemma JoinJamoAppends(pre: Text, jm: Rune)
    requires KoPre(pre) && pre != [] && !IsSyl(Last(pre)) && IsJamo(jm)
    requires SplitPair(Vowels, jm).None? && (JungIdx(jm) >= 0 || ChoIdx(jm) >= 0)
    ensures Appends(JoinJamo(pre, jm).0, pre, [jm])
  {
    hide Pair, ChoIdx, JungIdx, JongIdx, Cho, Jung, Jong, Compose, Decompose;
    var last := Last(pre);
    assert pre == [last];
    ChoTable(last);
    JungTable(jm);
    SpellOne(last);
    SpellJamo(jm);
    if ChoIdx(last) >= 0 && JungIdx(jm) >= 0 {
      SpellCompose(ChoIdx(last), JungIdx(jm), 0);
      ConsonantIsNoVowel(last);
    } else if JungIdx(last) >= 0 && JungIdx(jm) >= 0 && Combine(Vowels, last, jm) != 0 {
      var r := Combine(Vowels, last, jm);
      SplitCombine(Vowels, last, jm);
      EntryFacts(Vowels, Cpair(last, jm, r));
      PartsAreBasic(Vowels, Cpair(last, jm, r));
      SpellOne(r);
    }
  }

  lemma OpenSyllableAppends(pre: Text, jm: Rune, c: int, j: int)
    requires 0 <= c < N_CHO && 0 <= j < N_JUNG && pre == [Compose(c, j, 0)] && IsJamo(jm)
    requires SplitPair(Vowels, jm).None? && SplitPair(Finals, jm).None?
    requires JungIdx(jm) >= 0 || ChoIdx(jm) >= 0
    ensures Appends(JoinSyllable(pre, jm).0, pre, [jm])
  {
    hide Pair, ChoIdx, JungIdx, JongIdx, Cho, Jung, Jong, Compose, Decompose;
    DecomposeCompose(c, j, 0);
    TablePositions(c, j, 0);
    SpellCompose(c, j, 0);
    SpellJamo(jm);
    var vowel := if JungIdx(jm) >= 0 then Combine(Vowels, Jung(j), jm) else 0;
    if JongIdx(jm) > 0 {
      JongTable(jm);
      SpellCompose(c, j, JongIdx(jm));
    } else if vowel != 0 {
      var p := Cpair(Jung(j), jm, vowel);
      EntryFacts(Vowels, p);
      JungTable(vowel);
      PartsAreBasic(Vowels, p);
      SplitCombine(Vowels, Jung(j), jm);
      SpellCompose(c, JungIdx(vowel), 0);
    }
  }

  /** A consonant joins the final of the syllable, or starts another preedit. */
  lemma ClosedSyllableCombines(pre: Text, jm: Rune, c: int, j: int, jo: int)
    requires 0 <= c < N_CHO && 0 <= j < N_JUNG && 0 < jo < N_JONG
    requires pre == [Compose(c, j, jo)] && IsJamo(jm)
    requires SplitPair(Vowels, jm).None? && (JungIdx(jm) >= 0 || ChoIdx(jm) >= 0)
    requires Combine(Finals, Jong(jo), jm) != 0 || JungIdx(jm) < 0
    ensures Appends(JoinSyllable(pre, jm).0, pre, [jm])
  {
    hide Pair, ChoIdx, JungIdx, JongIdx, Cho, Jung, Jong, Compose, Decompose;
    DecomposeCompose(c, j, jo);
    TablePositions(c, j, jo);
    SpellCompose(c, j, jo);
    SpellJamo(jm);
    var final := Combine(Finals, Jong(jo), jm);
    if final != 0 {
      var p := Cpair(Jong(jo), jm, final);
      EntryFacts(Finals, p);
      JongTable(final);
      PartsAreBasic(Finals, p);
      SplitCombine(Finals, Jong(jo), jm);
      SpellCompose(c, j, JongIdx(final));
    }
  }

  lemma ClosedSyllableAppends(pre: Text, jm: Rune, c: int, j: int, jo: int)
    requires 0 <= c < N_CHO && 0 <= j < N_JUNG && 0 < jo < N_JONG
    requires pre == [Compose(c, j, jo)] && IsJamo(jm)
    requires SplitPair(Vowels, jm).None? && (JungIdx(jm) >= 0 || ChoIdx(jm) >= 0)
    ensures Appends(JoinSyllable(pre, jm).0, pre, [jm])
  {
    hide Pair, ChoIdx, JungIdx, JongIdx, JoinSyllable, Spell, Compose, Jong;
    if Combine(Finals, Jong(jo), jm) != 0 || JungIdx(jm) < 0 {
      ClosedSyllableCombines(pre, jm, c, j, jo);
    } else if SplitPair(Finals, Jong(jo)).Some? {
      FinalSplits(pre, jm, c, j, jo);
    } else {
      FinalMoves(pre, jm, c, j, jo);
    }
  }

  /** A vowel takes the second part of a double final with it. */
  lemma FinalSplits(pre: Text, jm: Rune, c: int, j: int, jo: int)
    requires 0 <= c < N_CHO && 0 <= j < N_JUNG && 0 < jo < N_JONG
    requires pre == [Compose(c, j, jo)] && IsJamo(jm) && SplitPair(Vowels, jm).None? && JungIdx(jm) >= 0
    requires Combine(Finals, Jong(jo), jm) == 0 && SplitPair(Finals, Jong(jo)).Some?
    ensures Appends(JoinSyllable(pre, jm).0, pre, [jm])
  {
    hide Pair, ChoIdx, JungIdx, JongIdx, Cho, Jung, Jong, Compose, Decompose;
    DecomposeCompose(c, j, jo);
    TablePositions(c, j, jo);
    SpellCompose(c, j, jo);
    SpellJamo(jm);
    JungTable(jm);
    var p := SplitPair(Finals, Jong(jo)).value;
    EntryFacts(Finals, p);
    PartsAreBasic(Finals, p);
    JongTable(p.b);
    ChoTable(p.a);
    SpellCompose(c, j, JongIdx(p.b));
    SpellCompose(ChoIdx(p.a), JungIdx(jm), 0);
  }

  /** A vowel takes another final with it. */
  lemma FinalMoves(pre: Text, jm: Rune, c: int, j: int, jo: int)
    requires 0 <= c < N_CHO && 0 <= j < N_JUNG && 0 < jo < N_JONG
    requires pre == [Compose(c, j, jo)] && IsJamo(jm) && SplitPair(Vowels, jm).None? && JungIdx(jm) >= 0
    requires Combine(Finals, Jong(jo), jm) == 0 && SplitPair(Finals, Jong(jo)).None?
    ensures Appends(JoinSyllable(pre, jm).0, pre, [jm])
  {
    hide Pair, ChoIdx, JungIdx, JongIdx, Cho, Jung, Jong, Compose, Decompose;
    DecomposeCompose(c, j, jo);
    TablePositions(c, j, jo);
    SpellCompose(c, j, jo);
    SpellJamo(jm);
    JungTable(jm);
    FinalsAreCompoundOrInitial(jo);
    ChoTable(Jong(jo));
    SpellCompose(c, j, 0);
    SpellCompose(ChoIdx(Jong(jo)), JungIdx(jm), 0);
  }

  lemma JoinAppends(pre: Text, jm: Rune)
    requires KoPre(pre) && pre != [] && IsJamo(jm)
    requires SplitPair(Vowels, jm).None? && SplitPair(Finals, jm).None?
    requires JungIdx(jm) >= 0 || ChoIdx(jm) >= 0
    ensures Appends(if IsSyl(Last(pre)) then JoinSyllable(pre, jm).0 else JoinJamo(pre, jm).0, pre, [jm])
  {
    hide JoinJamo, JoinSyllable, Decompose, Compose;
    if IsSyl(Last(pre)) {
      var (c, j, jo) := Decompose(Last(pre));
      ComposeDecompose(Last(pre));
      assert pre == [Compose(c, j, jo)];
      if jo == 0 {
        OpenSyllableAppends(pre, jm, c, j);
      } else {
        ClosedSyllableAppends(pre, jm, c, j, jo);
      }
    } else {
      JoinJamoAppends(pre, jm);
    }
  }

  /** Whatever the preedit, one key adds its own spelling at the end of what was typed so far:
      nothing is lost, doubled or moved, even when a final consonant changes syllable. */
  lemma KeyAppends(pre: Text, c: Rune)
    requires KoPre(pre)
    ensures Appends(TransKo(pre, c).0, pre, KeySpelling(c))
  {
    hide Pair, ChoIdx, JungIdx, JongIdx, Cho, Jung, Jong, Compose, Decompose, KeyToJamo;
    hide JoinJamo, JoinSyllable;
    var jm := KeyToJamo(c);
    if jm == 0 {
      SpellConcat(pre, [c]);
      SpellOne(c);
    } else {
      KeyJamoBasic(c);
      ConsonantOrVowel(jm);
      if pre == [] {
        SpellJamo(jm);
      } else {
        assert pre == [Last(pre)];
        JoinAppends(pre, jm);
      }
    }
  }

  /** What a backspace leaves of a rune is its spelling without the last jamo. */
  predicate TakesBack(r: Rune)
    requires KoRune(r)
  {
    KoPre(BackKo([r])) && Spell(BackKo([r])) + [Spell([r])[|Spell([r])| - 1]] == Spell([r])
  }

  lemma BackJamo(r: Rune)
    requires KoRune(r) && !IsSyl(r)
    ensures TakesBack(r)
  {
    hide Pair, ChoIdx, JungIdx, JongIdx, Cho, Jung, Jong, Compose, Decompose;
    SpellOne(r);
    var split := SplitPair(Vowels, r);
    if split.Some? {
      EntryFacts(Vowels, split.value);
      PartsAreBasic(Vowels, split.value);
      assert BackKo([r]) == [split.value.b];
      SpellOne(split.value.b);
    } else {
      assert BackKo([r]) == [];
    }
  }

  lemma BackClosedSyllable(c: int, j: int, jo: int)
    requires 0 <= c < N_CHO && 0 <= j < N_JUNG && 0 < jo < N_JONG
    ensures KoRune(Compose(c, j, jo)) && TakesBack(Compose(c, j, jo))
  {
    hide Pair, ChoIdx, JungIdx, JongIdx, Cho, Jung, Jong, Compose, Decompose;
    DecomposeCompose(c, j, jo);
    TablePositions(c, j, jo);
    SpellCompose(c, j, jo);
    var final := SplitPair(Finals, Jong(jo));
    if final.Some? {
      EntryFacts(Finals, final.value);
      PartsAreBasic(Finals, final.value);
      JongTable(final.value.b);
      SpellCompose(c, j, JongIdx(final.value.b));
    } else {
      SpellCompose(c, j, 0);
    }
  }

  lemma BackOpenSyllable(c: int, j: int)
    requires 0 <= c < N_CHO && 0 <= j < N_JUNG
    ensures KoRune(Compose(c, j, 0)) && TakesBack(Compose(c, j, 0))
  {
    hide Pair, ChoIdx, JungIdx, JongIdx, Cho, Jung, Jong, Compose, Decompose;
    DecomposeCompose(c, j, 0);
    TablePositions(c, j, 0);
    SpellCompose(c, j, 0);
    var vowel := SplitPair(Vowels, Jung(j));
    if vowel.Some? {
      EntryFacts(Vowels, vowel.value);
      PartsAreBasic(Vowels, vowel.value);
      JungTable(vowel.value.b);
      SpellCompose(c, JungIdx(vowel.value.b), 0);
    } else {
      ConsonantIsNoVowel(Cho(c));
      SpellJamo(Cho(c));
      assert BackKo([Compose(c, j, 0)]) == [Cho(c)];
    }
  }

  /** A backspace takes back exactly the last jamo typed. */
  lemma BackRemoves(pre: Text)
    requires KoPre(pre) && pre != []
    ensures KoPre(BackKo(pre))
    ensures Spell(pre) != [] && Spell(BackKo(pre)) == Spell(pre)[..|Spell(pre)| - 1]
  {
    hide BackKo, Decompose, Compose, Spell;
    var r := pre[0];
    assert pre == [r];
    if IsSyl(r) {
      var (c, j, jo) := Decompose(r);
      ComposeDecompose(r);
      if jo > 0 {
        BackClosedSyllable(c, j, jo);
      } else {
        BackOpenSyllable(c, j);
      }
    } else {
      BackJamo(r);
    }
    var t := Spell(pre);
    assert (Spell(BackKo(pre)) + [t[|t| - 1]])[..|t| - 1] == Spell(BackKo(pre));
  }

  // ------------------------------------------------------------ injectivity

  lemma SpellingParts(r: Rune)
    requires IsSyl(r)
    ensures var (c, j, jo) := Decompose(r);
            var v := SpellIn(Vowels, Jung(j));
            && Spell([r]) == [Cho(c)] + v + SpellFinal(jo)
            && (forall i :: 0 <= i < |v| ==> IsJamo(v[i]) && JungIdx(v[i]) >= 0)
            && (forall i :: 0 <= i < |SpellFinal(jo)| ==> IsJamo(SpellFinal(jo)[i]) && JungIdx(SpellFinal(jo)[i]) < 0)
            && IsJamo(Cho(c)) && JungIdx(Cho(c)) < 0
  {
    hide Pair, ChoIdx, JungIdx, JongIdx, Cho, Jung, Jong, Decompose;
    var (c, j, jo) := Decompose(r);
    SpellOne(r);
    TablePositions(c, j, jo);
    ConsonantOrVowel(Cho(c));
    if SplitPair(Vowels, Jung(j)).Some? {
      EntryFacts(Vowels, SplitPair(Vowels, Jung(j)).value);
    }
    if jo > 0 {
      ConsonantOrVowel(Jong(jo));
      var s := SplitPair(Finals, Jong(jo));
      if s.Some? {
        EntryFacts(Finals, s.value);
        ConsonantOrVowel(s.value.b);
        ConsonantOrVowel(s.value.a);
      }
    }
  }

  lemma SpellInInjective(t: Table, r: Rune, q: Rune)
    requires SpellIn(t, r) == SpellIn(t, q)
    ensures r == q
  {
    hide Pair;
    var s, u := SplitPair(t, r), SplitPair(t, q);
    if s.Some? && u.Some? {
      EntriesDistinct(t, s.value, u.value);
    }
  }

  lemma SyllableSpellingInjective(r: Rune, q: Rune)
    requires IsSyl(r) && IsSyl(q) && Spell([r]) == Spell([q])
    ensures r == q
  {
    hide SpellIn, SpellFinal, Spell, JungIdx, Cho, Jung, Jong, Decompose, Compose, ChoIdx, JongIdx;
    var (c, j, jo) := Decompose(r);
    var (d, k, ko) := Decompose(q);
    SpellingParts(r);
    SpellingParts(q);
    var v, w := SpellIn(Vowels, Jung(j)), SpellIn(Vowels, Jung(k));
    var f, g := SpellFinal(jo), SpellFinal(ko);
    SplitAtVowels(Cho(c), v, f, Cho(d), w, g);
    SpellInInjective(Vowels, Jung(j), Jung(k));
    TablePositions(c, j, jo);
    TablePositions(d, k, ko);
    FinalInjective(jo, ko);
    ComposeDecompose(r);
    ComposeDecompose(q);
  }

  /** How many vowels a spelling starts with. */
  function LeadingVowels(s: seq<Rune>): (n: nat)
    ensures n <= |s|
  {
    if s == [] || !IsJamo(s[0]) || JungIdx(s[0]) < 0 then 0 else 1 + LeadingVowels(s[1..])
  }

  lemma {:induction false} LeadingVowelsOf(v: seq<Rune>, f: seq<Rune>)
    requires forall i :: 0 <= i < |v| ==> IsJamo(v[i]) && JungIdx(v[i]) >= 0
    requires forall i :: 0 <= i < |f| ==> IsJamo(f[i]) && JungIdx(f[i]) < 0
    ensures LeadingVowels(v + f) == |v|
  {
    hide JungIdx;
    if v != [] {
      assert (v + f)[1..] == v[1..] + f;
      LeadingVowelsOf(v[1..], f);
    }
  }

  /** A consonant, a run of vowels and a run of consonants can be told apart again. */
  lemma SplitAtVowels(c: Rune, v: seq<Rune>, f: seq<Rune>, d: Rune, w: seq<Rune>, g: seq<Rune>)
    requires forall i :: 0 <= i < |v| ==> IsJamo(v[i]) && JungIdx(v[i]) >= 0
    requires forall i :: 0 <= i < |w| ==> IsJamo(w[i]) && JungIdx(w[i]) >= 0
    requires forall i :: 0 <= i < |f| ==> IsJamo(f[i]) && JungIdx(f[i]) < 0
    requires forall i :: 0 <= i < |g| ==> IsJamo(g[i]) && JungIdx(g[i]) < 0
    requires [c] + v + f == [d] + w + g
    ensures c == d && v == w && f == g
  {
    hide JungIdx, LeadingVowels;
    var s, t := [c] + v + f, [d] + w + g;
    assert s[0] == c && t[0] == d;
    assert s[1..] == v + f && t[1..] == w + g;
    LeadingVowelsOf(v, f);
    LeadingVowelsOf(w, g);
    assert v == s[1..][..|v|] && f == s[1..][|v|..];
    assert w == t[1..][..|w|] && g == t[1..][|w|..];
  }

  lemma FinalInjective(jo: int, ko: int)
    requires 0 <= jo < N_JONG && 0 <= ko < N_JONG && SpellFinal(jo) == SpellFinal(ko)
    ensures jo == ko
  {
    hide Jong, SpellIn, JongIdx, ChoIdx, JungIdx;
    TablePositions(0, 0, jo);
    TablePositions(0, 0, ko);
    if jo > 0 && ko > 0 {
      SpellInInjective(Finals, Jong(jo), Jong(ko));
    }
  }

  lemma SyllableIsNoJamo(r: Rune, q: Rune)
    requires IsSyl(r) && KoRune(q) && !IsSyl(q)
    ensures Spell([r]) != Spell([q])
  {
    hide ChoIdx, JungIdx, JongIdx, Cho, Jung, Jong, Decompose, SpellFinal;
    SpellingParts(r);
    SpellOne(q);
    var split := SplitPair(Vowels, q);
    if split.Some? {
      EntryFacts(Vowels, split.value);
    }
  }

  /** Two preedits that were typed with the same jamo are the same. */
  lemma SpellInjective(p: Text, q: Text)
    requires KoPre(p) && KoPre(q) && Spell(p) == Spell(q)
    ensures p == q
  {
    hide ChoIdx, JungIdx, JongIdx, SpellRune;
    if p != [] && q != [] {
      assert p == [p[0]] && q == [q[0]];
      if IsSyl(p[0]) && IsSyl(q[0]) {
        SyllableSpellingInjective(p[0], q[0]);
      } else if IsSyl(p[0]) {
        SyllableIsNoJamo(p[0], q[0]);
      } else if IsSyl(q[0]) {
        SyllableIsNoJamo(q[0], p[0]);
      } else {
        JamoSpellingInjective(p[0], q[0]);
      }
    }
  }

  lemma JamoSpellingInjective(r: Rune, q: Rune)
    requires !IsSyl(r) && !IsSyl(q) && Spell([r]) == Spell([q])
    ensures r == q
  {
    SpellOne(r);
    SpellOne(q);
    SpellInInjective(Vowels, r, q);
  }

  /** Backspace undoes every letter that committed nothing. */
  lemma BackUndoesKey(pre: Text, c: Rune)
    requires KoPre(pre) && KeyToJamo(c) != 0 && TransKo(pre, c).0.s == []
    ensures KoPre(TransKo(pre, c).0.next) && BackKo(TransKo(pre, c).0.next) == pre
  {
    hide TransKo, BackKo, KeyToJamo, SpellRune, KoRune;
    KeyAppends(pre, c);
    var next := TransKo(pre, c).0.next;
    BackRemoves(next);
    assert Spell(next) == Spell([]) + Spell(next) == Spell(pre) + [KeyToJamo(c)];
    assert (Spell(pre) + [KeyToJamo(c)])[..|Spell(pre)|] == Spell(pre);
    SpellInjective(BackKo(next), pre);
  }

  // -------------------------------------------------- what joins and what not

  function LastJamo(r: Rune): Rune {
    Spell([r])[|Spell([r])| - 1]
  }

  lemma JoinsBackJamo(r: Rune, jm: Rune)
    requires KoRune(r) && !IsSyl(r) && IsJamo(jm) && jm == LastJamo(r)
    ensures var pre := BackKo([r]);
            if pre == [] then jm == r else KoPre(pre) && !IsSyl(Last(pre)) && JoinJamo(pre, jm).0 == Eat([], r)
  {
    hide Pair, ChoIdx, JungIdx, JongIdx, Cho, Jung, Jong, Compose, Decompose, Combine;
    SpellOne(r);
    match SplitPair(Vowels, r) {
      case Some(p) =>
        EntryFacts(Vowels, p);
        CombineSplit(Vowels, r);
        ConsonantOrVowel(p.b);
        assert BackKo([r]) == [p.b];
      case None =>
        assert BackKo([r]) == [];
    }
  }

  lemma JoinsBackClosed(c: int, j: int, jo: int, jm: Rune)
    requires 0 <= c < N_CHO && 0 <= j < N_JUNG && 0 < jo < N_JONG
    requires IsJamo(jm) && jm == LastJamo(Compose(c, j, jo))
    ensures var pre := BackKo([Compose(c, j, jo)]);
            KoPre(pre) && pre != [] && IsSyl(Last(pre)) && JoinSyllable(pre, jm).0 == Eat([], Compose(c, j, jo))
  {
    hide Pair, ChoIdx, JungIdx, JongIdx, Cho, Jung, Jong, Compose, Decompose, Combine;
    DecomposeCompose(c, j, jo);
    TablePositions(c, j, jo);
    SpellCompose(c, j, jo);
    match SplitPair(Finals, Jong(jo)) {
      case Some(p) =>
        EntryFacts(Finals, p);
        JongTable(p.b);
        CombineSplit(Finals, Jong(jo));
        DecomposeCompose(c, j, JongIdx(p.b));
        assert BackKo([Compose(c, j, jo)]) == [Compose(c, j, JongIdx(p.b))];
      case None =>
        DecomposeCompose(c, j, 0);
        assert BackKo([Compose(c, j, jo)]) == [Compose(c, j, 0)];
    }
  }

  lemma JoinsBackOpen(c: int, j: int, jm: Rune)
    requires 0 <= c < N_CHO && 0 <= j < N_JUNG
    requires IsJamo(jm) && jm == LastJamo(Compose(c, j, 0))
    ensures var pre := BackKo([Compose(c, j, 0)]);
            && KoPre(pre) && pre != []
            && (if IsSyl(Last(pre)) then JoinSyllable(pre, jm).0 else JoinJamo(pre, jm).0) == Eat([], Compose(c, j, 0))
  {
    hide Pair, ChoIdx, JungIdx, JongIdx, Cho, Jung, Jong, Compose, Decompose, Combine;
    DecomposeCompose(c, j, 0);
    TablePositions(c, j, 0);
    SpellCompose(c, j, 0);
    match SplitPair(Vowels, Jung(j)) {
      case Some(p) =>
        EntryFacts(Vowels, p);
        JungTable(p.b);
        ConsonantOrVowel(p.a);
        CombineSplit(Vowels, Jung(j));
        DecomposeCompose(c, JungIdx(p.b), 0);
        assert BackKo([Compose(c, j, 0)]) == [Compose(c, JungIdx(p.b), 0)];
      case None =>
        assert BackKo([Compose(c, j, 0)]) == [Cho(c)];
    }
  }

  /** The last jamo of a rune, typed after a backspace has taken it off, restores the rune. */
  lemma KeyUndoesBack(r: Rune, c: Rune)
    requires KoRune(r) && KeyToJamo(c) != 0 && KeyToJamo(c) == LastJamo(r)
    ensures KoPre(BackKo([r])) && TransKo(BackKo([r]), c).0 == Eat([], r)
  {
    hide Spell, BackKo, JoinJamo, JoinSyllable, KeyToJamo, Decompose, Compose;
    KeyJamoBasic(c);
    BackRemoves([r]);
    if IsSyl(r) {
      var (ci, j, jo) := Decompose(r);
      ComposeDecompose(r);
      if jo > 0 {
        JoinsBackClosed(ci, j, jo, KeyToJamo(c));
      } else {
        JoinsBackOpen(ci, j, KeyToJamo(c));
      }
    } else {
      JoinsBackJamo(r, KeyToJamo(c));
    }
  }

  /** Some rune that a preedit can hold is spelled like the preedit with the jamo after it. */
  ghost predicate Joins(pre: Text, jm: Rune) {
    exists r :: KoRune(r) && Spell([r]) == Spell(pre) + [jm]
  }

  /** The preedit is a syllable with a final. */
  predicate Closed(pre: Text) {
    pre != [] && IsSyl(Last(pre)) && Decompose(Last(pre)).2 > 0
  }

  lemma NextIsOne(pre: Text, c: Rune)
    requires KoPre(pre) && KeyToJamo(c) != 0
    ensures TransKo(pre, c).0.eat && |TransKo(pre, c).0.next| == 1
  {
    hide KoRune, Pair, ChoIdx, JungIdx, JongIdx, Cho, Jung, Jong, Compose, Decompose, KeyToJamo, Combine, SplitPair;
  }

  /** A key commits nothing exactly when its jamo joins the preedit in one rune. */
  lemma CommitsNothingWhenJoined(pre: Text, c: Rune)
    requires KoPre(pre) && KeyToJamo(c) != 0
    ensures TransKo(pre, c).0.s == [] <==> Joins(pre, KeyToJamo(c))
  {
    hide Spell, BackKo, TransKo, KeyToJamo, KoRune;
    var jm, e := KeyToJamo(c), TransKo(pre, c).0;
    KeyAppends(pre, c);
    NextIsOne(pre, c);
    if e.s == [] {
      SpellNothing();
      assert [e.next[0]] == e.next && Spell([]) + Spell(e.next) == Spell(e.next);
      assert KoRune(e.next[0]) by {
        InPre(e.next);
      }
    }
    if Joins(pre, jm) {
      var r :| KoRune(r) && Spell([r]) == Spell(pre) + [jm];
      KeyUndoesBack(r, c);
      OneIsPre(r);
      BackRemoves([r]);
      assert (Spell(pre) + [jm])[..|Spell(pre)|] == Spell(pre);
      SpellInjective(BackKo([r]), pre);
    }
  }

  predicate IsVowelJamo(r: Rune) {
    IsJamo(r) && JungIdx(r) >= 0
  }

  lemma MoveFinalSpells(c: int, j: int, jo: int, jm: Rune)
    requires 0 <= c < N_CHO && 0 <= j < N_JUNG && 0 < jo < N_JONG
    requires IsVowelJamo(jm) && SplitPair(Vowels, jm).None? && JungIdx(jm) < N_JUNG
    ensures var e := MoveFinal(c, j, jo, JungIdx(jm));
            && |e.s| == |e.next| == 1 && IsSyl(e.s[0]) && IsSyl(e.next[0])
            && Spell(e.next) == [LastJamo(Compose(c, j, jo)), jm]
  {
    hide Pair, ChoIdx, JungIdx, JongIdx, Cho, Jung, Jong, Compose, Decompose;
    TablePositions(c, j, jo);
    SpellCompose(c, j, jo);
    JungTable(jm);
    FinalsAreCompoundOrInitial(jo);
    match SplitPair(Finals, Jong(jo)) {
      case Some(p) =>
        EntryFacts(Finals, p);
        JongTable(p.b);
        ChoTable(p.a);
        SpellCompose(ChoIdx(p.a), JungIdx(jm), 0);
      case None =>
        ChoTable(Jong(jo));
        SpellCompose(ChoIdx(Jong(jo)), JungIdx(jm), 0);
    }
  }

  lemma SyllableCommits(pre: Text, jm: Rune)
    requires KoPre(pre) && pre != [] && IsSyl(Last(pre)) && IsJamo(jm) && SplitPair(Vowels, jm).None?
    requires JoinSyllable(pre, jm).0.s != []
    ensures var e := JoinSyllable(pre, jm).0;
            if Closed(pre) && IsVowelJamo(jm)
            then && |e.s| == |e.next| == 1 && IsSyl(e.s[0]) && IsSyl(e.next[0])
                 && Spell(e.next) == [LastJamo(pre[0]), jm]
            else e == Eat(pre, jm)
  {
    hide Pair, ChoIdx, JungIdx, JongIdx, Cho, Jung, Jong, Compose, Decompose, Spell, SplitPair, Combine, MoveFinal;
    var (c, j, jo) := Decompose(Last(pre));
    ComposeDecompose(Last(pre));
    JungTable(jm);
    if jo > 0 && JungIdx(jm) >= 0 {
      MoveFinalSpells(c, j, jo, jm);
    }
  }

  lemma JamoCommits(pre: Text, jm: Rune)
    requires KoPre(pre) && pre != [] && !IsSyl(Last(pre)) && IsJamo(jm) && JoinJamo(pre, jm).0.s != []
    ensures JoinJamo(pre, jm).0 == Eat(pre, jm)
  {
    hide Pair, ChoIdx, JungIdx, Compose, Combine;
  }

  /** All that transko does with a letter: a jamo that joins the preedit in one rune is added to it;
      otherwise a vowel takes the last consonant of a closed syllable along, and any other jamo
      commits the preedit and starts anew. */
  lemma LetterJoinsOrCommits(pre: Text, c: Rune)
    requires KoPre(pre) && KeyToJamo(c) != 0
    ensures var e, jm := TransKo(pre, c).0, KeyToJamo(c);
            && e.eat && |e.next| == 1
            && (e.s == [] <==> Joins(pre, jm))
            && (Joins(pre, jm) ==> Spell(e.next) == Spell(pre) + [jm])
            && (!Joins(pre, jm) ==>
                  if Closed(pre) && IsVowelJamo(jm)
                  then && |e.s| == 1 && IsSyl(e.s[0]) && IsSyl(e.next[0])
                       && Spell(e.s) == Spell(pre)[..|Spell(pre)| - 1] && Spell(e.next) == [LastJamo(pre[0]), jm]
                  else e.s == pre && e.next == [jm])
  {
    hide Spell, KeyToJamo, KoRune, Joins, Closed, IsVowelJamo, JoinJamo, JoinSyllable, LastJamo;
    var e, jm := TransKo(pre, c).0, KeyToJamo(c);
    KeyAppends(pre, c);
    NextIsOne(pre, c);
    CommitsNothingWhenJoined(pre, c);
    KeyJamoBasic(c);
    SpellNothing();
    if e.s != [] {
      if IsSyl(Last(pre)) {
        SyllableCommits(pre, jm);
        LastOfSpelling(pre, e, jm);
      } else {
        JamoCommits(pre, jm);
        NotClosed(pre);
      }
    }
  }

  lemma NotClosed(pre: Text)
    requires pre != [] && !IsSyl(Last(pre))
    ensures !Closed(pre)
  {
  }

  lemma LastOfSpelling(pre: Text, e: Emit, jm: Rune)
    requires |pre| == 1 && Spell(e.s) + Spell(e.next) == Spell(pre) + [jm]
    ensures Spell(e.next) == [LastJamo(pre[0]), jm] ==> Spell(e.s) == Spell(pre)[..|Spell(pre)| - 1]
  {
    hide Spell;
    assert pre == [pre[0]];
    if Spell(e.next) == [LastJamo(pre[0]), jm] {
      var s, t := Spell(e.s), Spell(pre);
      assert |s| + 2 == |t| + 1;
      assert forall i :: 0 <= i < |s| ==> s[i] == (s + Spell(e.next))[i] == (t + [jm])[i];
    }
  }

  /** And with any other key: it is left to the application, after what the preedit held. */
  lemma OtherKeyCommits(pre: Text, c: Rune)
    requires KoPre(pre) && KeyToJamo(c) == 0
    ensures TransKo(pre, c).0 == Emit(false, pre + [c], [], [])
  {
  }

  lemma InPre(p: Text)
    requires KoPre(p) && |p| == 1
    ensures KoRune(p[0])
  {
  }

  lemma OneIsPre(r: Rune)
    requires KoRune(r)
    ensures KoPre([r])
  {
  }

  // ------------------------------------------------------------------- runs

  datatype Event = Key(c: Rune) | Back

  /** Everything committed so far, and the preedit. */
  datatype State = State(committed: seq<Rune>, pre: Text)

  /** One keystroke in Korean mode: dotrans for a key; for a backspace the automaton's, unless
      the preedit is empty, when the key is left to the application. */
  function Step(s: State, ev: Event): (t: State)
    requires KoPre(s.pre)
    ensures KoPre(t.pre)
  {
    match ev
    case Key(c) =>
      KeyAppends(s.pre, c);
      var e := TransKo(s.pre, c).0;
      State(s.committed + e.s, e.next)
    case Back =>
      if s.pre == [] then s
      else
        BackRemoves(s.pre);
        State(s.committed, BackKo(s.pre))
  }

  function Run(s: State, evs: seq<Event>): (t: State)
    requires KoPre(s.pre)
    ensures KoPre(t.pre)
    decreases |evs|
  {
    if evs == [] then s else Run(Step(s, evs[0]), evs[1..])
  }

  /** Everything typed and not taken back, spelled in basic jamo. */
  function Typed(s: State): seq<Rune> {
    Spell(s.committed + s.pre)
  }

  /** The plain list of jamo a user would keep by hand: keys append, and a backspace drops the
      last jamo whenever there is a preedit for it to act on. */
  function Ledger(s: State, evs: seq<Event>, ledger: seq<Rune>): seq<Rune>
    requires KoPre(s.pre)
    decreases |evs|
  {
    if evs == [] then ledger
    else
      var next := match evs[0]
        case Key(c) => ledger + KeySpelling(c)
        case Back => if s.pre == [] || ledger == [] then ledger else ledger[..|ledger| - 1];
      Ledger(Step(s, evs[0]), evs[1..], next)
  }

  lemma KeyLaw(s: State, c: Rune)
    requires KoPre(s.pre)
    ensures Typed(Step(s, Key(c))) == Typed(s) + KeySpelling(c)
  {
    hide TransKo, BackKo, KeySpelling, Spell, KoRune;
    var e := TransKo(s.pre, c).0;
    KeyAppends(s.pre, c);
    SpellConcat(s.committed, s.pre);
    SpellConcat(s.committed, e.s);
    SpellConcat(s.committed + e.s, e.next);
    var a := Spell(s.committed);
    assert a + Spell(e.s) + Spell(e.next) == a + (Spell(e.s) + Spell(e.next));
    assert a + (Spell(s.pre) + KeySpelling(c)) == a + Spell(s.pre) + KeySpelling(c);
  }

  lemma BackLaw(s: State)
    requires KoPre(s.pre) && s.pre != []
    ensures Typed(s) != [] && Typed(Step(s, Back)) == Typed(s)[..|Typed(s)| - 1]
  {
    hide TransKo, BackKo, SpellRune, KoRune;
    BackRemoves(s.pre);
    SpellConcat(s.committed, s.pre);
    SpellConcat(s.committed, BackKo(s.pre));
  }

  /** Conservation over every run of keys and backspaces. */
  lemma {:induction false} RunConserves(s: State, evs: seq<Event>)
    requires KoPre(s.pre)
    ensures Typed(Run(s, evs)) == Ledger(s, evs, Typed(s))
    decreases |evs|
  {
    hide Typed, KeySpelling, TransKo, BackKo;
    if evs != [] {
      match evs[0] {
        case Key(c) => KeyLaw(s, c);
        case Back =>
          if s.pre != [] {
            BackLaw(s);
          }
      }
      RunConserves(Step(s, evs[0]), evs[1..]);
    }
  }

  /** What has been committed is never changed by later keys. */
  lemma {:induction false} RunOnlyCommits(s: State, evs: seq<Event>)
    requires KoPre(s.pre)
    ensures s.committed <= Run(s, evs).committed
    decreases |evs|
  {
    hide TransKo, BackKo;
    if evs != [] {
      RunOnlyCommits(Step(s, evs[0]), evs[1..]);
    }
  }

  function KeysSpelling(evs: seq<Event>): seq<Rune>
    requires forall i :: 0 <= i < |evs| ==> evs[i].Key?
  {
    if evs == [] then [] else KeySpelling(evs[0].c) + KeysSpelling(evs[1..])
  }

  /** Without backspaces, the committed text and the preedit spell out every key in order. */
  lemma {:induction false} KeysAreSpelledOut(s: State, evs: seq<Event>)
    requires KoPre(s.pre) && forall i :: 0 <= i < |evs| ==> evs[i].Key?
    ensures Typed(Run(s, evs)) == Typed(s) + KeysSpelling(evs)
    decreases |evs|
  {
    hide Typed, KeySpelling, TransKo, BackKo;
    if evs != [] {
      var c := evs[0].c;
      KeyLaw(s, c);
      KeysAreSpelledOut(Step(s, evs[0]), evs[1..]);
      assert Typed(s) + KeySpelling(c) + KeysSpelling(evs[1..]) == Typed(s) + (KeySpelling(c) + KeysSpelling(evs[1..]));
    }
  }

  // ------------------------------------------------------- the C functions

  /** transko. */
  method TranskoInPlace(im: Im, c: Rune) returns (e: Emit)
    requires KoPre(im.pre)
    modifies im`pre
    ensures (e, im.pre) == TransKo(old(im.pre), c)
  {
    var jm := KeyToJamo(c);
    if jm == 0 {
      e := Emit(false, im.pre + [c], [], []);
      im.pre := [];
      return;
    }
    KeyJamoBasic(c);
    var last := Last(im.pre);
    if last == 0 {
      e := Eat([], jm);
    } else if !IsSyl(last) {
      e := TranskoJamo(im, jm);
    } else {
      e := TranskoSyllable(im, jm);
    }
  }

  method TranskoJamo(im: Im, jm: Rune) returns (e: Emit)
    requires KoPre(im.pre) && im.pre != [] && !IsSyl(Last(im.pre)) && IsJamo(jm)
    modifies im`pre
    ensures (e, im.pre) == JoinJamo(old(im.pre), jm)
  {
    hide Pair, Combine;
    var last := Last(im.pre);
    var ci, ji := ChoIdx(last), JungIdx(jm);
    ChoTable(last);
    JungTable(jm);
    if ci >= 0 && ji >= 0 {
      im.pre := Pop(im.pre);
      return Eat([], Compose(ci, ji, 0));
    }
    if JungIdx(last) >= 0 && ji >= 0 {
      var comb := FindCombination(Vowels, last, jm);
      if comb != 0 {
        im.pre := Pop(im.pre);
        return Eat([], comb);
      }
    }
    e := Eat(im.pre, jm);
  }

  /** A vowel after a closed syllable takes its final, or the second part of it, along. */
  method TranskoMoveFinal(im: Im, ci: int, ji: int, joi: int, vi: int) returns (e: Emit)
    requires 0 <= ci < N_CHO && 0 <= ji < N_JUNG && 0 < joi < N_JONG && 0 <= vi < N_JUNG
    modifies im`pre
    ensures im.pre == Pop(old(im.pre)) && e == MoveFinal(ci, ji, joi, vi)
  {
    hide Pair, SplitPair;
    FinalsAreCompoundOrInitial(joi);
    var jc := Jong(joi);
    im.pre := Pop(im.pre);
    var found, stay, next := FindSplit(Finals, jc);
    if found {
      EntryFacts(Finals, Cpair(stay, next, jc));
      JongTable(stay);
      ChoTable(next);
      return Eat([Compose(ci, ji, JongIdx(stay))], Compose(ChoIdx(next), vi, 0));
    }
    ChoTable(jc);
    return Eat([Compose(ci, ji, 0)], Compose(ChoIdx(jc), vi, 0));
  }

  method TranskoSyllable(im: Im, jm: Rune) returns (e: Emit)
    requires KoPre(im.pre) && im.pre != [] && IsSyl(Last(im.pre)) && IsJamo(jm)
    modifies im`pre
    ensures (e, im.pre) == JoinSyllable(old(im.pre), jm)
  {
    hide Pair, Combine, Decompose;
    var (ci, ji, joi) := Decompose(Last(im.pre));
    JongTable(jm);
    JungTable(jm);
    TablePositions(ci, ji, joi);
    var ni, vi := JongIdx(jm), JungIdx(jm);
    var comb;
    if joi == 0 {
      if ni > 0 {
        im.pre := Pop(im.pre);
        return Eat([], Compose(ci, ji, ni));
      }
      if vi >= 0 {
        comb := FindCombination(Vowels, Jung(ji), jm);
        if comb != 0 {
          EntryFacts(Vowels, Cpair(Jung(ji), jm, comb));
          JungTable(comb);
          im.pre := Pop(im.pre);
          return Eat([], Compose(ci, JungIdx(comb), 0));
        }
      }
    }
    if joi > 0 {
      comb := FindCombination(Finals, Jong(joi), jm);
      if comb != 0 {
        EntryFacts(Finals, Cpair(Jong(joi), jm, comb));
        JongTable(comb);
        if JongIdx(comb) > 0 {
          im.pre := Pop(im.pre);
          return Eat([], Compose(ci, ji, JongIdx(comb)));
        }
      }
      if vi >= 0 {
        e := TranskoMoveFinal(im, ci, ji, joi, vi);
        return;
      }
    }
    e := Eat(im.pre, jm);
  }

  /** backko. */
  method BackkoInPlace(im: Im)
    requires KoPre(im.pre)
    modifies im`pre
    ensures im.pre == BackKo(old(im.pre))
  {
    hide Pair, SplitPair, Decompose;
    var last := Last(im.pre);
    var found, stay, next;
    if !IsSyl(last) {
      found, stay, next := FindSplit(Vowels, last);
      im.pre := Pop(im.pre);
      if found {
        im.pre := im.pre + [stay];
      }
      return;
    }
    var (c, j, jo) := Decompose(last);
    TablePositions(c, j, jo);
    im.pre := Pop(im.pre);
    if jo > 0 {
      found, stay, next := FindSplit(Finals, Jong(jo));
      if found {
        EntryFacts(Finals, Cpair(stay, next, Jong(jo)));
        JongTable(stay);
        im.pre := im.pre + [Compose(c, j, JongIdx(stay))];
      } else {
        im.pre := im.pre + [Compose(c, j, 0)];
      }
      return;
    }
    found, stay, next := FindSplit(Vowels, Jung(j));
    if found {
      EntryFacts(Vowels, Cpair(stay, next, Jung(j)));
      JungTable(stay);
      im.pre := im.pre + [Compose(c, JungIdx(stay), 0)];
    } else {
      im.pre := im.pre + [Cho(c)];
    }
  }
}
