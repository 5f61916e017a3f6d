/**
 What every keystroke does to the text, over every run.

 `DeedOf` names, by the key codes of dat.h and by what is on display, what the user of a key gets:
 a ledger of the committed text with the preedit behind it is kept by these names alone, and every
 run of the engine agrees with it.
 */
module EngineLedger {
  import opened Common
  import opened Text
  import opened ImData
  import MapTrans
  import opened Engine
  import Hangul
  import Korean
  import Vietnamese

  /** What a key does to the text: enter the preedit; stand behind it; settle it as it is shown;
      put a candidate in its place; give it up; take the last of it back; or nothing. */
  datatype Deed = Types | Adds | Settles | Picks(word: Text) | Drops | TakesBack | Rests

  /** The candidate a key picks: that of its row in the window for the digits from 1 to 8, the selected
      one for tab (0xF009) and return (0xF00D). */
  ghost function Picked(s: State, ks: nat): Option<Text> {
    var w := Window(s.kouho, s.sel);
    if 0x31 <= ks < 0x39 && ks - 0x31 < |w| then Some(w[ks - 0x31])
    else if ks in {0xF009, 0xF00D} && 0 <= s.sel < |s.kouho| then Some(s.kouho[s.sel])
    else None
  }

  /** In this order: shift and super, and the arrows, touch no text; backspace, escape and the keys
      that pick do what they do under any modifier; other special keys, and keys with alt (8) or
      super (64), go to the application after the text; so do those with ctrl (4), but without it. */
  ghost function DeedOf(s: State, ks: nat, mod: nat): Deed {
    if ks in {0xF0E1, 0xF0EB, 0xF052, 0xF054} then Rests
    else if ks == 0xF008 then TakesBack
    else if ks == 0xF01B then Drops
    else if Picked(s, ks).Some? then Picks(Picked(s, ks).value)
    else if ks >= 0xF000 || mod / 8 % 2 == 1 || mod / 64 % 2 == 1 then Settles
    else if mod / 4 % 2 == 1 then Drops
    else if ks == 0x30 && s.kouho != [] then Settles
    else if ks == 0x20 || ks >= 0x80 then Adds
    else Types
  }

  /** From `t` to `u` the text has changed as the deed says. */
  ghost predicate Done(maps: Maps, t: Sys, d: Deed, ks: Rune, u: Sys)
    requires MapsOk(maps) && Inv(t.im) && (d.Types? ==> ks < 0x80)
  {
    var shown := MapTrans.Render(maps(t.im.lang), t.im.pre);
    match d
    case Types =>
      var e := Trans(maps, t.im, ks);
      u.com == t.com + e.s && u.im.pre == e.next
    case Adds => u.com == t.com + shown + [ks] && u.im.pre == []
    case Settles => u.com == t.com + shown && u.im.pre == []
    case Picks(word) => u.com == t.com + word && u.im.pre == []
    case Drops => u.com == t.com && u.im.pre == []
    case TakesBack => u.com == t.com && u.im.pre == if t.im.pre == [] then [] else Back(t.im)
    case Rests => u.com == t.com && u.im.pre == t.im.pre
  }

  lemma PickedIs(s: State, ks: nat)
    requires SelOk(s.kouho, s.sel)
    ensures Picked(s, ks) ==
              if Selects(s, ks) then Some(s.kouho[First(s.sel) + (ks - 0x31)])
              else if (ks == K_TAB || ks == K_RET) && 0 <= s.sel < |s.kouho| then Some(s.kouho[s.sel])
              else None
  {
    hide First;
    if s.kouho != [] && 0x31 <= ks < 0x39 {
      WindowRow(s.kouho, s.sel, ks - 0x31);
    }
  }

  lemma EmptyRenders(m: MapTrans.MapData)
    ensures MapTrans.Render(m, []) == []
  {
  }

  lemma CommandDoes(maps: Maps, t: Sys, ks: Rune, mod: nat)
    requires MapsOk(maps) && Inv(t.im) && IsCommand(t.im, ks)
    ensures Done(maps, t, DeedOf(t.im, ks, mod), ks, Handle(maps, t, Press(ks, mod)))
  {
    hide PreOk, MapsOk, Trans, Back, Picked, Show, First, MapTrans.Render, MapTrans.MapGet;
    PickedIs(t.im, ks);
    EmptyRenders(maps(t.im.lang));
  }

  lemma OtherDoes(maps: Maps, t: Sys, ks: Rune, mod: nat)
    requires MapsOk(maps) && Inv(t.im) && !IsCommand(t.im, ks)
    ensures Done(maps, t, DeedOf(t.im, ks, mod), ks, Handle(maps, t, Press(ks, mod)))
  {
    hide PreOk, MapsOk, Trans, Back, Picked, Show, First, LangOf, Command, MapTrans.Render;
    PickedIs(t.im, ks);
  }

  /** Every press does its deed. */
  lemma PressDoes(maps: Maps, t: Sys, ks: Rune, mod: nat)
    requires MapsOk(maps) && Inv(t.im)
    ensures Done(maps, t, DeedOf(t.im, ks, mod), ks, Handle(maps, t, Press(ks, mod)))
  {
    hide Done, DeedOf, IsCommand, Inv, Handle, MapsOk;
    if IsCommand(t.im, ks) {
      CommandDoes(maps, t, ks, mod);
    } else {
      OtherDoes(maps, t, ks, mod);
    }
  }

  // ------------------------------------------------------------- the ledger

  ghost function Shown(maps: Maps, s: State): Text {
    MapTrans.Render(maps(s.lang), s.pre)
  }

  /** The committed text with the preedit behind it, as it is shown. */
  ghost function Total(maps: Maps, t: Sys): seq<Rune> {
    t.com + Shown(maps, t.im)
  }

  ghost function Without(text: seq<Rune>, n: nat): seq<Rune> {
    if n <= |text| then text[..|text| - n] else []
  }

  /** The next entry: how an event changes the text that a reader sees. */
  ghost function Entered(maps: Maps, s: State, text: seq<Rune>, ev: Event): seq<Rune>
    requires MapsOk(maps) && Inv(s)
  {
    match ev
    case Answer(_, _) => text
    case Press(ks, mod) =>
      var rest := Without(text, |Shown(maps, s)|);
      match DeedOf(s, ks, mod)
      case Types =>
        var e := Trans(maps, s, ks);
        rest + e.s + MapTrans.Render(maps(s.lang), e.next)
      case Adds => text + [ks]
      case Settles => text
      case Picks(word) => rest + word
      case Drops => rest
      case TakesBack => if s.pre == [] then text else rest + MapTrans.Render(maps(s.lang), Back(s))
      case Rests => text
  }

  ghost function Ledger(maps: Maps, t: Sys, evs: seq<Event>, text: seq<Rune>): seq<Rune>
    requires MapsOk(maps) && Inv(t.im) && GoodEvents(evs)
    decreases |evs|
  {
    hide Inv, GoodEvent, Handle, Entered, MapsOk;
    if evs == [] then text else Ledger(maps, Handle(maps, t, evs[0]), evs[1..], Entered(maps, t.im, text, evs[0]))
  }

  lemma EventEntered(maps: Maps, t: Sys, ev: Event)
    requires MapsOk(maps) && Inv(t.im) && GoodEvent(ev)
    ensures Total(maps, Handle(maps, t, ev)) == Entered(maps, t.im, Total(maps, t), ev)
  {
    hide PreOk, MapsOk, Trans, Back, DeedOf, MapTrans.Render, Show, Keystroke;
    assert Without(Total(maps, t), |Shown(maps, t.im)|) == t.com;
    if ev.Press? {
      var u := Handle(maps, t, ev);
      PressDoes(maps, t, ev.ks, ev.mod);
      LangKept(maps, t, ev.ks, ev.mod);
      EmptyRenders(maps(u.im.lang));
      EmptyRenders(maps(t.im.lang));
    }
  }

  /** The language changes only with the preedit given up. */
  lemma LangKept(maps: Maps, t: Sys, ks: Rune, mod: nat)
    requires MapsOk(maps) && Inv(t.im)
    ensures !DeedOf(t.im, ks, mod).Drops? ==> Handle(maps, t, Press(ks, mod)).im.lang == t.im.lang
  {
    hide PreOk, MapsOk, Trans, Back, Picked, Show, First, LangOf, MapTrans.Render;
    PickedIs(t.im, ks);
  }

  /** Over every run of keys and answers, language changes included, the committed text and the
      preedit are what the ledger says. */
  lemma {:induction false} RunEntered(maps: Maps, t: Sys, evs: seq<Event>)
    requires MapsOk(maps) && Inv(t.im) && GoodEvents(evs)
    ensures Total(maps, RunEvents(maps, t, evs)) == Ledger(maps, t, evs, Total(maps, t))
    decreases |evs|
  {
    hide Inv, GoodEvent, Handle, Entered, Total, MapsOk;
    if evs != [] {
      EventEntered(maps, t, evs[0]);
      RunEntered(maps, Handle(maps, t, evs[0]), evs[1..]);
    }
  }

  // ------------------------------------------------------------ Korean runs

  /** The map of Korean renders no preedit: hangul.map is empty. */
  ghost predicate PlainHangul(maps: Maps) {
    forall p: Text :: Korean.KoPre(p) ==> MapTrans.Render(maps(Hangul), p) == p
  }

  ghost predicate InKorean(maps: Maps, t: Sys, evs: seq<Event>)
    requires MapsOk(maps) && Inv(t.im) && GoodEvents(evs)
    decreases |evs|
  {
    hide Inv, GoodEvent, Handle, MapsOk;
    t.im.lang == Hangul && (evs == [] || InKorean(maps, Handle(maps, t, evs[0]), evs[1..]))
  }

  /** The ledger in jamo: a letter adds its jamo, a backspace takes the last one. */
  ghost function KoEntered(s: State, jamo: seq<Rune>, ev: Event): seq<Rune> {
    match ev
    case Answer(_, _) => jamo
    case Press(ks, mod) =>
      var rest := Without(jamo, |Hangul.Spell(s.pre)|);
      match DeedOf(s, ks, mod)
      case Types => jamo + Korean.KeySpelling(ks)
      case Adds => jamo + Hangul.Spell([ks])
      case Settles => jamo
      case Picks(word) => rest + Hangul.Spell(word)
      case Drops => rest
      case TakesBack => if s.pre == [] then jamo else Without(jamo, 1)
      case Rests => jamo
  }

  ghost function KoLedger(maps: Maps, t: Sys, evs: seq<Event>, jamo: seq<Rune>): seq<Rune>
    requires MapsOk(maps) && Inv(t.im) && GoodEvents(evs)
    decreases |evs|
  {
    hide Inv, GoodEvent, Handle, KoEntered, MapsOk;
    if evs == [] then jamo else KoLedger(maps, Handle(maps, t, evs[0]), evs[1..], KoEntered(t.im, jamo, evs[0]))
  }

  lemma KoEventEntered(maps: Maps, t: Sys, ev: Event)
    requires MapsOk(maps) && PlainHangul(maps) && Inv(t.im) && GoodEvent(ev) && t.im.lang == Hangul
    ensures var u := Handle(maps, t, ev);
            Hangul.Spell(u.com + u.im.pre) == KoEntered(t.im, Hangul.Spell(t.com + t.im.pre), ev)
  {
    hide MapsOk, Korean.TransKo, Korean.BackKo, Korean.KoRune, Korean.KeySpelling, DeedOf, MapTrans.Render, Show,
      Keystroke, Hangul.Spell;
    Hangul.SpellConcat(t.com, t.im.pre);
    assert Without(Hangul.Spell(t.com) + Hangul.Spell(t.im.pre), |Hangul.Spell(t.im.pre)|) == Hangul.Spell(t.com);
    if ev.Press? {
      var u := Handle(maps, t, ev);
      PressDoes(maps, t, ev.ks, ev.mod);
      assert MapTrans.Render(maps(Hangul), t.im.pre) == t.im.pre;
      match DeedOf(t.im, ev.ks, ev.mod) {
        case Types => Korean.KeyLaw(KoState(t), ev.ks);
        case Adds => Hangul.SpellConcat(t.com + t.im.pre, [ev.ks]);
        case Picks(word) => Hangul.SpellConcat(t.com, word);
        case TakesBack =>
          if t.im.pre != [] {
            Korean.BackLaw(KoState(t));
          }
        case _ =>
      }
      assert u.im.pre == [] ==> u.com + u.im.pre == u.com;
    }
  }

  /** Conservation over every run that stays in Korean: the committed text and the preedit spell the
      jamo of the ledger. Spaces, special keys and candidates lose nothing that was typed. */
  lemma {:induction false} KoreanRunEntered(maps: Maps, t: Sys, evs: seq<Event>)
    requires MapsOk(maps) && PlainHangul(maps) && Inv(t.im) && GoodEvents(evs) && InKorean(maps, t, evs)
    ensures var u := RunEvents(maps, t, evs);
            Hangul.Spell(u.com + u.im.pre) == KoLedger(maps, t, evs, Hangul.Spell(t.com + t.im.pre))
    decreases |evs|
  {
    hide Inv, GoodEvent, Handle, KoEntered, MapsOk, PlainHangul, Hangul.Spell;
    if evs != [] {
      KoEventEntered(maps, t, evs[0]);
      KoreanRunEntered(maps, Handle(maps, t, evs[0]), evs[1..]);
    }
  }

  // ------------------------------------------------------ what a letter types

  /** In a map language a typed key makes of the preedit the one maximal split of the preedit and the
      key: committed, but for the last token while more keys may follow. */
  lemma TypedInMap(maps: Maps, s: State, c: Rune) returns (ts: seq<seq<Rune>>)
    requires MapsOk(maps) && Inv(s) && PreIsPath(maps, s) && IsMapLanguage(s.lang) && c < 0x80
    ensures var m, e := maps(s.lang), Trans(maps, s, c);
            && MapTrans.IsSplit(m, ts, s.pre + [c]) && MapTrans.OpenToken(m, ts) == e.next
            && MapTrans.Rendering(m, ts) == e.s + MapTrans.Render(m, e.next)
            && forall us :: MapTrans.IsSplit(m, us, s.pre + [c]) ==> us == ts
  {
    hide MapTrans.IsMap, MapTrans.ShortEntries, MapTrans.Render, MapTrans.Rendering, MapTrans.IsSplit,
      MapTrans.PathText, MapTrans.TransMap, MapTrans.Roomy, MapTrans.Tokenize, MapTrans.OpenToken;
    var m := maps(s.lang);
    var k := MapTrans.State([], s.pre);
    MapTrans.RunRenders(m, k, [c]);
    MapTrans.RunLeavesOpen(m, k, [c]);
    MapTrans.TokenizeSplits(m, s.pre, [c]);
    ts := MapTrans.Tokenize(m, s.pre, [c]);
    OneKeyRun(m, k, c);
    var e := Trans(maps, s, c);
    assert MapTrans.Step(m, k, c) == MapTrans.State(e.s, e.next);
    assert [] + MapTrans.Rendering(m, ts) == MapTrans.Rendering(m, ts);
    forall us | MapTrans.IsSplit(m, us, s.pre + [c])
      ensures us == ts
    {
      MapTrans.SplitUnique(m, us, ts, s.pre + [c]);
    }
  }

  lemma OneKeyRun(m: MapTrans.MapData, k: MapTrans.State, c: Rune)
    requires MapTrans.IsMap(m) && MapTrans.ShortEntries(m) && MapTrans.MapPre(m, k.pre) && c < 0x80
    ensures |k.pre| < MAX_RUNES && |MapTrans.Render(m, k.pre)| < MAX_RUNES
    ensures MapTrans.Run(m, k, [c]) == MapTrans.Step(m, k, c)
  {
    hide MapTrans.IsMap, MapTrans.ShortEntries, MapTrans.Render, MapTrans.PathText, MapTrans.Step;
    MapTrans.StepKeepsPre(m, k, c);
  }

  // ------------------------------------- selection, requests, passed-on keys

  /** Down and up move the selection by one candidate, stop at the last and at none, and change nothing
      else; without candidates they go to the application. */
  lemma ArrowsMove(maps: Maps, s: State, mod: nat)
    requires MapsOk(maps) && Inv(s)
    ensures var n, down := |s.kouho|, Keystroke(maps, s, 0xF054, mod);
            && down.im == s.(sel := if n > 0 && s.sel + 1 < n then s.sel + 1 else s.sel)
            && down.eaten == (n > 0) && down.com == [] && down.reqs == []
    ensures var n, up := |s.kouho|, Keystroke(maps, s, 0xF052, mod);
            && up.im == s.(sel := if n > 0 && s.sel > -1 then s.sel - 1 else s.sel)
            && up.eaten == (n > 0) && up.com == [] && up.reqs == []
  {
    hide PreOk, MapsOk, MapTrans.Render, Show;
  }

  /** The candidates stay as long as the text does: typing keeps them until the answer for the new
      preedit comes, and so does a backspace onto a preedit that has a value in the map. */
  lemma CandidatesKept(maps: Maps, s: State, ks: Rune, mod: nat)
    requires MapsOk(maps) && Inv(s)
    ensures var im, d := Keystroke(maps, s, ks, mod).im, DeedOf(s, ks, mod);
            if d.Types? || d.Rests? || BackToMapped(maps, s, ks)
               || (s.pre == [] && (d.TakesBack? || ks == 0xF01B || (d.Settles? && ks in {0xF009, 0xF00D})))
            then im.kouho == s.kouho && (!d.Rests? ==> im.sel == s.sel)
            else im.kouho == [] && im.sel == -1
  {
    hide PreOk, MapsOk, Trans, Back, Picked, Show, First, LangOf, MapTrans.Render, MapTrans.MapGet;
    PickedIs(s, ks);
  }

  /** A key goes to the application when it had nothing to do: arrows without candidates; tab, return,
      backspace and escape without a preedit, unless they pick; other special keys and those with alt
      or super always; those with ctrl unless they choose a language. */
  lemma PassedOn(maps: Maps, s: State, ks: Rune, mod: nat)
    requires MapsOk(maps) && Inv(s)
    ensures var plain := mod / 8 % 2 == 0 && mod / 64 % 2 == 0;
            !Keystroke(maps, s, ks, mod).eaten <==>
              if ks in {0xF0E1, 0xF0EB} || Picked(s, ks).Some? then false
              else if ks in {0xF052, 0xF054} then s.kouho == []
              else if ks in {0xF008, 0xF009, 0xF00D, 0xF01B} then s.pre == []
              else if ks >= 0xF000 || !plain then true
              else mod / 4 % 2 == 1 && LanguageKey(ks).None?
  {
    hide PreOk, MapsOk, Trans, Back, Picked, Show, First, LangOf, MapTrans.Render, MapTrans.MapGet;
    PickedIs(s, ks);
    LanguageKeyIs(ks);
  }

  /** The keys that choose a language with ctrl, as letters or as control codes: t, n, k, s, e and v. */
  ghost function LanguageKey(ks: nat): Option<Language> {
    if ks in {0x74, 0x14} then Some(English)
    else if ks in {0x6E, 0x0E} then Some(Hiragana)
    else if ks in {0x6B, 0x0B} then Some(Katakana)
    else if ks in {0x73, 0x13} then Some(Hangul)
    else if ks in {0x65, 0x05} then Some(Emoji)
    else if ks in {0x76, 0x16} then Some(Vietnamese)
    else None
  }

  lemma LanguageKeyIs(ks: nat)
    ensures LanguageKey(ks) == LangOf(if 0x61 <= ks <= 0x7A then ks - 0x60 else ks)
  {
  }

  /** The language changes by these keys, with ctrl and without alt and super, and by no others. */
  lemma LanguageChosen(maps: Maps, s: State, ks: Rune, mod: nat)
    requires MapsOk(maps) && Inv(s)
    ensures Keystroke(maps, s, ks, mod).im.lang ==
              if mod / 4 % 2 == 1 && mod / 8 % 2 == 0 && mod / 64 % 2 == 0 && LanguageKey(ks).Some?
              then LanguageKey(ks).value else s.lang
  {
    hide PreOk, MapsOk, Trans, Back, Show, First, LangOf, MapTrans.Render, MapTrans.MapGet;
    LanguageKeyIs(ks);
  }

  /** The dictionary is asked for what the map has for the new preedit. */
  ghost predicate Asks(maps: Maps, out: Out) {
    match MapTrans.MapGet(maps(out.im.lang), out.im.pre)
    case Some(key) => out.reqs == [Dictreq(key, out.im.pre, out.im.lang)]
    case None => out.reqs == []
  }

  /** After a backspace it is asked whenever the map has something for what is left; after a typed key
      when that is not empty, but not in Korean nor for a tone; after other keys never. */
  lemma DictionaryAsked(maps: Maps, s: State, ks: Rune, mod: nat)
    requires MapsOk(maps) && Inv(s)
    ensures var out, d := Keystroke(maps, s, ks, mod), DeedOf(s, ks, mod);
            && (d.TakesBack? && s.pre != [] ==> Asks(maps, out))
            && (d.Types? ==>
                  if MapTrans.DictKey(maps(s.lang), out.im.pre) == [] || s.lang == Hangul
                     || (s.lang == Vietnamese && Vietnamese.IsToneKey(ks))
                  then out.reqs == [] else Asks(maps, out))
            && (!d.TakesBack? && !d.Types? ==> out.reqs == [])
  {
    hide PreOk, MapsOk, Back, Picked, Show, First, LangOf, MapTrans.Render, MapTrans.MapGet, MapTrans.MapHas,
      Korean.TransKo, Vietnamese.TonePos, Vietnamese.Mark;
    PickedIs(s, ks);
    NothingUnmapped(maps(s.lang));
    if ks < 0x80 && s.lang == Hangul {
      KoPreHolds(s);
      KoAsksNothing(s.pre, ks);
    }
  }

  lemma NothingUnmapped(m: MapTrans.MapData)
    ensures MapTrans.MapGet(m, []) == None
  {
  }

  lemma KoAsksNothing(pre: Text, c: Rune)
    requires Korean.KoPre(pre)
    ensures Korean.TransKo(pre, c).0.dict == []
  {
    hide Korean.KoRune, Hangul.Pair, Hangul.ChoIdx, Hangul.JungIdx, Hangul.JongIdx, Hangul.Cho, Hangul.Jung,
      Hangul.Jong, Hangul.Compose, Hangul.Decompose, Hangul.KeyToJamo, Hangul.Combine, Hangul.SplitPair;
  }

  /** Whatever is drawn shows the preedit that stands behind the committed text. */
  lemma DrawnIsShown(maps: Maps, s: State, ks: Rune, mod: nat, i: nat)
    requires MapsOk(maps) && Inv(s) && i < |Keystroke(maps, s, ks, mod).draws|
    ensures var out := Keystroke(maps, s, ks, mod);
            out.draws[i].pre == Shown(maps, out.im)
  {
    hide PreOk, MapsOk, Keystroke, MapTrans.Render;
    ChangesAreDrawn(maps, s, ks, mod);
  }
}
