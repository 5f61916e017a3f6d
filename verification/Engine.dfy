/**
 The keystroke engine of strans.c.

 `Keystroke` is the whole of keystroke() as a function of the input method state; the class at
 the end is the C code, which updates an `Im`. The lemmas say that the state invariant holds
 over every run, so that no call of sputr dies and no part of a preedit is dropped, that the
 candidate window always shows what can be selected, and that the languages' own laws hold of
 keystrokes.
 */
module Engine {
  import opened Common
  import opened Text
  import opened ImData
  import opened MapTrans
  import Korean
  import Vietnamese

  const K_SPEC: nat := 0xF000
  const K_BACK: nat := 0xF008
  const K_TAB: nat := 0xF009
  const K_RET: nat := 0xF00D
  const K_ESC: nat := 0xF01B
  const K_UP: nat := 0xF052
  const K_DOWN: nat := 0xF054
  const K_SHIFT: nat := 0xF0E1
  const K_SUPER: nat := 0xF0EB

  // ------------------------------------------------------------------ state

  datatype State = State(lang: Language, pre: Text, kouho: seq<Text>, sel: int)

  /** What drawthread is told to show. */
  datatype Drawcmd = Drawcmd(pre: Text, kouho: seq<Text>, sel: int)

  datatype Dictreq = Dictreq(key: Text, pre: Text, lang: Language)

  /** The effects of a keystroke: the returned flag, the text to commit, and what went to the
      draw and request channels. */
  datatype Out = Out(im: State, eaten: bool, com: Text, draws: seq<Drawcmd>, reqs: seq<Dictreq>)

  type Maps = Language -> MapData

  ghost predicate MapsOk(maps: Maps) {
    forall l :: IsMap(maps(l)) && ShortEntries(maps(l))
  }

  /** Outside Korean a preedit leaves room for a key; in Korean it is at most one rune. */
  ghost predicate PreOk(s: State) {
    if s.lang == Hangul then Korean.KoPre(s.pre) else Roomy(s.pre)
  }

  ghost predicate SelOk(kouho: seq<Text>, sel: int) {
    |kouho| <= MAX_KOUHO && -1 <= sel < (if |kouho| > 1 then |kouho| else 1)
  }

  ghost predicate Inv(s: State) {
    PreOk(s) && SelOk(s.kouho, s.sel)
  }

  // ---------------------------------------------------------------- drawing

  /** The first candidate on display. */
  function First(sel: int): nat {
    if sel >= MAX_DISP then sel - MAX_DISP + 1 else 0
  }

  function Window(kouho: seq<Text>, sel: int): seq<Text> {
    var first := First(sel);
    if first > |kouho| then []
    else kouho[first..if |kouho| - first > MAX_DISP then first + MAX_DISP else |kouho|]
  }

  ghost function Show(maps: Maps, s: State): Drawcmd {
    Drawcmd(Render(maps(s.lang), s.pre), Window(s.kouho, s.sel), if s.sel >= 0 then s.sel - First(s.sel) else -1)
  }

  function Cleared(s: State): State {
    s.(kouho := [], sel := -1)
  }

  function Emptied(s: State): State {
    Cleared(s).(pre := [])
  }

  // -------------------------------------------------------------- keystroke

  predicate Bit(mod: nat, b: nat)
    requires b > 0
  {
    mod / b % 2 == 1
  }

  predicate AltOrSuper(mod: nat) {
    Bit(mod, 8) || Bit(mod, 64)
  }

  predicate Ctrl(mod: nat) {
    Bit(mod, 4)
  }

  function LangOf(code: nat): Option<Language> {
    match code
    case 0x14 => Some(English)
    case 0x0E => Some(Hiragana)
    case 0x0B => Some(Katakana)
    case 0x13 => Some(Hangul)
    case 0x05 => Some(Emoji)
    case 0x16 => Some(Vietnamese)
    case _ => None
  }

  /** The language's trans function. */
  ghost function Trans(maps: Maps, s: State, c: Rune): Emit
    requires MapsOk(maps) && PreOk(s) && c < 0x80
  {
    match s.lang
    case Hangul => Korean.TransKo(s.pre, c).0
    case Vietnamese =>
      Vietnamese.TransViRoomy(maps(s.lang), s.pre, c);
      Vietnamese.TransVi(maps(s.lang), s.pre, c)
    case _ =>
      RoomyRenders(maps(s.lang), s.pre);
      TransMap(maps(s.lang), s.pre, c)
  }

  ghost function Back(s: State): Text
    requires PreOk(s)
  {
    if s.lang == Hangul then Korean.BackKo(s.pre) else Pop(s.pre)
  }

  /** dotrans, with the redraw that follows it. */
  ghost function Dotrans(maps: Maps, s: State, c: Rune): Out
    requires MapsOk(maps) && PreOk(s) && c < 0x80
  {
    var e := Trans(maps, s, c);
    var t := s.(pre := e.next);
    Out(t, true, e.s, [Show(maps, t)], if e.eat && e.dict != [] then [Dictreq(e.dict, e.next, s.lang)] else [])
  }

  /** A backspace on a preedit: reset when nothing is left, else dictqmap. */
  ghost function Backspace(maps: Maps, s: State): Out
    requires PreOk(s)
  {
    var t := s.(pre := Back(s));
    if t.pre == [] then Out(Emptied(s), true, [], [Show(maps, Emptied(s))], [])
    else
      match MapGet(maps(s.lang), t.pre)
      case Some(key) => Out(t, true, [], [], [Dictreq(key, t.pre, s.lang)])
      case None => Out(Cleared(t), true, [], [Show(maps, Cleared(t))], [])
  }

  /** Commit the given text and reset. */
  ghost function Commit(maps: Maps, s: State, eaten: bool, com: Text): Out {
    Out(Emptied(s), eaten, com, [Show(maps, Emptied(s))], [])
  }

  function Ignored(s: State, eaten: bool): Out {
    Out(s, eaten, [], [], [])
  }

  /** The row of a digit key, when it stands for a candidate on display. */
  predicate Selects(s: State, ks: nat) {
    0x31 <= ks < 0x31 + MAX_DISP && First(s.sel) + (ks - 0x31) < |s.kouho|
  }

  /** Control keys: candidates, commit, backspace, escape. */
  predicate IsCommand(s: State, ks: nat) {
    ks == K_SUPER || ks == K_SHIFT || ks == K_DOWN || ks == K_UP || Selects(s, ks)
    || ks == K_TAB || ks == K_RET || ks == K_BACK || ks == K_ESC
  }

  ghost function Command(maps: Maps, s: State, ks: nat): Out
    requires PreOk(s) && IsCommand(s, ks)
  {
    if ks == K_SUPER || ks == K_SHIFT then Ignored(s, true)
    else if ks == K_DOWN || ks == K_UP then
      if s.kouho == [] then Ignored(s, false)
      else
        var sel :=
          if ks == K_DOWN && s.sel < |s.kouho| - 1 then s.sel + 1
          else if ks == K_UP && s.sel >= 0 then s.sel - 1
          else s.sel;
        var t := s.(sel := sel);
        Out(t, true, [], [Show(maps, t)], [])
    else if Selects(s, ks) then Commit(maps, s, true, s.kouho[First(s.sel) + (ks - 0x31)])
    else if ks == K_TAB || ks == K_RET then
      if 0 <= s.sel < |s.kouho| then Commit(maps, s, true, s.kouho[s.sel])
      else if s.pre != [] then Commit(maps, s, true, Render(maps(s.lang), s.pre))
      else Ignored(s, false)
    else if ks == K_BACK then
      if s.pre == [] then Ignored(s, false) else Backspace(maps, s)
    else if s.pre == [] then Ignored(s, false)
    else Commit(maps, s, true, [])
  }

  /** Whether a key gets as far as dotrans. */
  predicate Typed(s: State, ks: nat, mod: nat) {
    && !IsCommand(s, ks) && ks < 0x80 && ks != 0x20
    && !AltOrSuper(mod) && !Ctrl(mod) && !(ks == 0x30 && s.kouho != [])
  }

  ghost function Keystroke(maps: Maps, s: State, ks: Rune, mod: nat): Out
    requires MapsOk(maps) && Inv(s)
  {
    var shown := Render(maps(s.lang), s.pre);
    if IsCommand(s, ks) then Command(maps, s, ks)
    else if ks >= K_SPEC || AltOrSuper(mod) then Commit(maps, s, false, shown)
    else if Ctrl(mod) then
      var out := Commit(maps, s, false, []);
      match LangOf(if 0x61 <= ks <= 0x7A then ks - 0x60 else ks)
      case Some(l) => out.(im := out.im.(lang := l), eaten := true)
      case None => out
    else if ks == 0x30 && s.kouho != [] then Commit(maps, s, true, shown)
    else if ks > 0x7F || ks == 0x20 then
      RenderShort(maps, s);
      Commit(maps, s, true, shown + [ks])
    else Dotrans(maps, s, ks)
  }

  lemma RenderShort(maps: Maps, s: State)
    requires MapsOk(maps) && PreOk(s)
    ensures |Render(maps(s.lang), s.pre)| < MAX_RUNES
  {
    hide ToUtf, FromUtf, Korean.KoRune;
    if s.lang != Hangul {
      RoomyRenders(maps(s.lang), s.pre);
    }
  }

  // -------------------------------------------------------- the invariant

  lemma EmptyPre(s: State)
    ensures PreOk(s.(pre := []))
  {
    NothingRoomy();
  }

  lemma TransKeepsPre(maps: Maps, s: State, c: Rune)
    requires MapsOk(maps) && PreOk(s) && c < 0x80
    ensures PreOk(s.(pre := Trans(maps, s, c).next))
  {
    hide TransMap, Vietnamese.TransVi, Korean.TransKo, Korean.KoPre, Roomy, IsMap, ShortEntries, Render;
    var m := maps(s.lang);
    if s.lang == Hangul {
      Korean.KeyAppends(s.pre, c);
    } else {
      RoomyRenders(m, s.pre);
      if s.lang == Vietnamese {
        Vietnamese.TransViRoomy(m, s.pre, c);
      } else {
        TransMapRoomy(m, s.pre, c);
      }
    }
  }

  lemma BackKeepsPre(maps: Maps, s: State)
    requires MapsOk(maps) && PreOk(s) && s.pre != []
    ensures PreOk(s.(pre := Back(s)))
  {
    hide Korean.BackKo, Korean.KoRune, Roomy, Render;
    if s.lang == Hangul {
      Korean.BackRemoves(s.pre);
    } else {
      RoomyRenders(maps(s.lang), s.pre);
    }
  }

  lemma CommandKeepsInv(maps: Maps, s: State, ks: nat)
    requires MapsOk(maps) && Inv(s) && IsCommand(s, ks)
    ensures Inv(Command(maps, s, ks).im)
  {
    hide PreOk, MapsOk, Render, Window, Back, First, MapGet;
    EmptyPre(s);
    if s.pre != [] {
      BackKeepsPre(maps, s);
    }
    forall t: State | t.lang == s.lang && t.pre == s.pre
      ensures PreOk(t)
    {
      SamePre(s, t);
    }
    if s.pre != [] {
      SamePre(s.(pre := Back(s)), Cleared(s.(pre := Back(s))));
    }
    SamePre(s.(pre := []), Emptied(s));
  }

  lemma SamePre(s: State, t: State)
    requires s.lang == t.lang && s.pre == t.pre
    ensures PreOk(s) == PreOk(t)
  {
  }

  /** Every keystroke keeps the invariant; its own preconditions, and with them the bounds of
      every sputr and sappend, therefore hold over whole runs. */
  lemma KeystrokeKeepsInv(maps: Maps, s: State, ks: Rune, mod: nat)
    requires MapsOk(maps) && Inv(s)
    ensures Inv(Keystroke(maps, s, ks, mod).im)
  {
    hide PreOk, MapsOk, Render, Window, Back, First, Trans, IsCommand, Command, AltOrSuper, Ctrl;
    EmptyPre(s);
    SamePre(s.(pre := []), Emptied(s));
    if IsCommand(s, ks) {
      CommandKeepsInv(maps, s, ks);
    } else {
      var code := if 0x61 <= ks <= 0x7A then ks - 0x60 else ks;
      if LangOf(code).Some? {
        EmptyPre(Emptied(s).(lang := LangOf(code).value));
      }
      if ks < 0x80 {
        TransKeepsPre(maps, s, ks);
      }
    }
  }

  // ------------------------------------------------------------------ runs

  /** What imthread receives: a key, or a dictionary answer for the preedit `key`. */
  datatype Event = Press(ks: Rune, mod: nat) | Answer(key: Text, kouho: seq<Text>)

  predicate GoodEvent(ev: Event) {
    ev.Answer? ==> |ev.kouho| <= MAX_KOUHO
  }

  predicate GoodEvents(evs: seq<Event>) {
    forall i :: 0 <= i < |evs| ==> GoodEvent(evs[i])
  }

  /** The engine, everything committed so far, and the last thing drawn. */
  datatype Sys = Sys(im: State, com: seq<Rune>, shown: Option<Drawcmd>)

  /** The state of init: English, no candidate, yet sel is 0. */
  function Start(): Sys {
    Sys(State.State(English, [], [], 0), [], None)
  }

  /** setkouho. */
  function Install(s: State, kouho: seq<Text>): State {
    s.(kouho := kouho, sel := -1)
  }

  /** One round of imthread's loop. An answer counts only if it is for the current preedit. */
  ghost function Handle(maps: Maps, t: Sys, ev: Event): (u: Sys)
    requires MapsOk(maps) && Inv(t.im) && GoodEvent(ev)
    ensures Inv(u.im)
  {
    hide PreOk;
    match ev
    case Press(ks, mod) =>
      var out := Keystroke(maps, t.im, ks, mod);
      KeystrokeKeepsInv(maps, t.im, ks, mod);
      Sys(out.im, t.com + out.com, if out.draws == [] then t.shown else Some(out.draws[|out.draws| - 1]))
    case Answer(key, kouho) =>
      if key != t.im.pre then t
      else
        var im := Install(t.im, kouho);
        SamePre(t.im, im);
        t.(im := im, shown := Some(Show(maps, im)))
  }

  ghost function RunEvents(maps: Maps, t: Sys, evs: seq<Event>): (u: Sys)
    requires MapsOk(maps) && Inv(t.im) && GoodEvents(evs)
    ensures Inv(u.im)
    decreases |evs|
  {
    hide Inv, GoodEvent, Handle;
    if evs == [] then t else RunEvents(maps, Handle(maps, t, evs[0]), evs[1..])
  }

  lemma StartOk()
    ensures Inv(Start().im) && CandidatesShown(Start())
  {
    NothingRoomy();
  }

  // --------------------------------------------------------------- windows

  /** Whenever there are candidates, the last thing drawn shows them. */
  ghost predicate CandidatesShown(t: Sys) {
    t.im.kouho != [] ==>
      && t.shown.Some? && t.shown.value.kouho == Window(t.im.kouho, t.im.sel)
      && t.shown.value.sel == (if t.im.sel >= 0 then t.im.sel - First(t.im.sel) else -1)
  }

  lemma StepShows(maps: Maps, t: Sys, ev: Event)
    requires MapsOk(maps) && Inv(t.im) && CandidatesShown(t) && GoodEvent(ev)
    ensures CandidatesShown(Handle(maps, t, ev))
  {
    hide PreOk, MapsOk, Render, Window, Back, First, Trans, AltOrSuper, Ctrl, MapGet, LangOf;
  }

  /** Over every run: at most 32 candidates, -1 <= sel < max(nkouho, 1), and the last window
      drawn is the one that the candidates and the selection call for. */
  lemma {:induction false} RunShowsCandidates(maps: Maps, t: Sys, evs: seq<Event>)
    requires MapsOk(maps) && Inv(t.im) && CandidatesShown(t) && GoodEvents(evs)
    ensures var u := RunEvents(maps, t, evs); CandidatesShown(u) && SelOk(u.im.kouho, u.im.sel)
    decreases |evs|
  {
    hide CandidatesShown, Handle, GoodEvent, PreOk;
    if evs != [] {
      StepShows(maps, t, evs[0]);
      RunShowsCandidates(maps, Handle(maps, t, evs[0]), evs[1..]);
    }
  }

  /** A window has one to eight rows, in order, and the selected candidate is one of them. */
  lemma WindowShows(kouho: seq<Text>, sel: int)
    requires SelOk(kouho, sel) && kouho != []
    ensures var w, first := Window(kouho, sel), First(sel);
            && 1 <= |w| <= MAX_DISP && first + |w| <= |kouho|
            && (forall i :: 0 <= i < |w| ==> w[i] == kouho[first + i])
            && (|w| < MAX_DISP ==> w == kouho[first..])
            && (sel >= 0 ==> 0 <= sel - first < |w| && w[sel - first] == kouho[sel])
  {
  }

  lemma WindowRow(kouho: seq<Text>, sel: int, i: nat)
    requires SelOk(kouho, sel) && kouho != [] && i < MAX_DISP
    ensures First(sel) + i < |kouho| <==> i < |Window(kouho, sel)|
    ensures i < |Window(kouho, sel)| ==> kouho[First(sel) + i] == Window(kouho, sel)[i]
  {
    hide First, Window;
    WindowShows(kouho, sel);
  }

  lemma SelectsCommits(maps: Maps, s: State, ks: Rune, mod: nat)
    requires MapsOk(maps) && Inv(s) && Selects(s, ks)
    ensures Keystroke(maps, s, ks, mod) == Commit(maps, s, true, s.kouho[First(s.sel) + (ks - 0x31)])
  {
    hide PreOk, MapsOk, Commit, Backspace, AltOrSuper, Ctrl, LangOf, Show, First, Dotrans, Render;
  }

  /** A key selects a candidate exactly when it is a digit from 1 to 8 and that row of the window
      last drawn is not empty, 9 never; it commits the candidate drawn there. */
  lemma DigitPicksDrawnRow(maps: Maps, t: Sys, ks: Rune, mod: nat)
    requires MapsOk(maps) && Inv(t.im) && CandidatesShown(t)
    ensures var out := Keystroke(maps, t.im, ks, mod);
            if t.im.kouho != [] && 0x31 <= ks < 0x39 && ks - 0x31 < |t.shown.value.kouho|
            then out.eaten && out.com == t.shown.value.kouho[ks - 0x31] && out.im == Emptied(t.im)
            else !Selects(t.im, ks)
  {
    hide PreOk, MapsOk, Keystroke, Window, First, Show;
    if 0x31 <= ks < 0x39 && t.im.kouho != [] {
      WindowRow(t.im.kouho, t.im.sel, ks - 0x31);
    }
    if Selects(t.im, ks) {
      SelectsCommits(maps, t.im, ks, mod);
    }
  }

  /** A backspace that leaves a preedit with a value in the map. */
  ghost predicate BackToMapped(maps: Maps, s: State, ks: nat)
    requires PreOk(s)
  {
    ks == K_BACK && s.pre != [] && Back(s) != [] && MapGet(maps(s.lang), Back(s)).Some?
  }

  lemma BackChanges(s: State)
    requires PreOk(s) && s.pre != []
    ensures Back(s) != s.pre
  {
    hide Korean.BackKo, Korean.KoRune;
    if s.lang == Hangul {
      Korean.BackRemoves(s.pre);
    }
  }

  /** Whatever a keystroke draws is the state it ends in, and it changes the state without drawing
      exactly when it is a backspace onto a mapped preedit: that asks the dictionary instead. */
  lemma ChangesAreDrawn(maps: Maps, s: State, ks: Rune, mod: nat)
    requires MapsOk(maps) && Inv(s)
    ensures var out := Keystroke(maps, s, ks, mod);
            && (out.draws == [] || out.draws == [Show(maps, out.im)])
            && (out.draws == [] && out.im != s <==> BackToMapped(maps, s, ks))
            && (BackToMapped(maps, s, ks) ==> |out.reqs| == 1)
  {
    hide PreOk, MapsOk, Trans, Back, AltOrSuper, Ctrl, LangOf, ToUtf, FromUtf;
    if s.pre != [] {
      BackChanges(s);
    }
  }

  // ------------------------------------------------- the languages' own laws

  lemma TypedIsDotrans(maps: Maps, s: State, ks: Rune, mod: nat)
    requires MapsOk(maps) && Inv(s) && Typed(s, ks, mod)
    ensures Keystroke(maps, s, ks, mod) == Dotrans(maps, s, ks)
  {
    hide PreOk, MapsOk, Render, Trans, AltOrSuper, Ctrl, IsCommand;
  }

  /** A key that reaches dotrans, a backspace when `backs` says so, or an answer. */
  predicate TypedEvent(s: State, ev: Event, backs: bool) {
    ev.Press? ==> Typed(s, ev.ks, ev.mod) || (backs && ev.ks == K_BACK)
  }

  /** Every key of the run reaches dotrans, digits included whenever they select nothing. */
  ghost predicate TypedRun(maps: Maps, t: Sys, evs: seq<Event>, backs: bool)
    requires MapsOk(maps) && Inv(t.im) && GoodEvents(evs)
    decreases |evs|
  {
    hide Handle, Inv, GoodEvent, MapsOk;
    evs == [] || (TypedEvent(t.im, evs[0], backs) && TypedRun(maps, Handle(maps, t, evs[0]), evs[1..], backs))
  }

  /** The Korean automaton's view of the events. */
  function KoEvents(evs: seq<Event>): seq<Korean.Event> {
    if evs == [] then []
    else
      var first := match evs[0]
        case Press(ks, mod) => [if ks == K_BACK then Korean.Back else Korean.Key(ks)]
        case Answer(_, _) => [];
      first + KoEvents(evs[1..])
  }

  ghost function KoState(t: Sys): Korean.State {
    Korean.State(t.com, t.im.pre)
  }

  lemma KoreanStep(maps: Maps, t: Sys, ev: Event)
    requires MapsOk(maps) && Inv(t.im) && GoodEvent(ev) && TypedEvent(t.im, ev, true) && t.im.lang == Hangul
    ensures var u := Handle(maps, t, ev);
            && u.im.lang == Hangul
            && KoState(u) == match ev
                 case Press(ks, mod) => Korean.Step(KoState(t), if ks == K_BACK then Korean.Back else Korean.Key(ks))
                 case Answer(_, _) => KoState(t)
  {
    hide MapsOk, Render, Window, First, MapGet, Korean.TransKo, Korean.BackKo, Korean.KoRune, Typed;
    if ev.Press? && ev.ks != K_BACK {
      TypedIsDotrans(maps, t.im, ev.ks, ev.mod);
    }
  }

  lemma {:induction false} KoreanRun(maps: Maps, t: Sys, evs: seq<Event>)
    requires MapsOk(maps) && Inv(t.im) && GoodEvents(evs) && t.im.lang == Hangul
    requires TypedRun(maps, t, evs, true)
    ensures Korean.KoPre(t.im.pre)
    ensures var u := RunEvents(maps, t, evs);
            u.im.lang == Hangul && KoState(u) == Korean.Run(KoState(t), KoEvents(evs))
    decreases |evs|
  {
    hide MapsOk, Handle, GoodEvent, TypedEvent, Korean.Step, Korean.KoPre;
    KoPreHolds(t.im);
    if evs != [] {
      var u := Handle(maps, t, evs[0]);
      KoreanStep(maps, t, evs[0]);
      KoreanRun(maps, u, evs[1..]);
      KoRunHead(KoState(t), evs);
    }
  }

  lemma KoPreHolds(s: State)
    requires Inv(s) && s.lang == Hangul
    ensures Korean.KoPre(s.pre)
  {
  }

  lemma KoRunHead(s: Korean.State, evs: seq<Event>)
    requires Korean.KoPre(s.pre) && evs != []
    ensures Korean.Run(s, KoEvents(evs)) == Korean.Run(match evs[0]
                 case Press(ks, mod) => Korean.Step(s, if ks == K_BACK then Korean.Back else Korean.Key(ks))
                 case Answer(_, _) => s, KoEvents(evs[1..]))
  {
    hide Korean.Step, Korean.KoPre;
    match evs[0] {
      case Press(ks, mod) =>
        assert KoEvents(evs)[1..] == KoEvents(evs[1..]);
      case Answer(_, _) =>
        assert KoEvents(evs) == KoEvents(evs[1..]);
    }
  }

  /** Conservation at the level of the engine: over every run of typed keys, backspaces and
      dictionary answers in Korean mode, the committed text and the preedit spell what a plain
      list of the typed jamo holds, and the preedit never has more than one rune. */
  lemma KoreanRunConserves(maps: Maps, t: Sys, evs: seq<Event>)
    requires MapsOk(maps) && Inv(t.im) && GoodEvents(evs) && t.im.lang == Hangul
    requires TypedRun(maps, t, evs, true)
    ensures var u := RunEvents(maps, t, evs);
            && u.im.lang == Hangul && |u.im.pre| <= 1
            && KoState(u) == Korean.Run(KoState(t), KoEvents(evs))
            && Korean.Typed(KoState(u)) == Korean.Ledger(KoState(t), KoEvents(evs), Korean.Typed(KoState(t)))
  {
    hide MapsOk, Korean.KoRune, Korean.Run, Korean.Typed, Korean.Ledger, RunEvents, KoEvents;
    KoreanRun(maps, t, evs);
    Korean.RunConserves(KoState(t), KoEvents(evs));
  }

  predicate IsMapLanguage(l: Language) {
    l != Hangul && l != Vietnamese
  }

  /** In a map language the preedit spells a path of the trie, whatever was pressed before. */
  ghost predicate PreIsPath(maps: Maps, s: State) {
    IsMapLanguage(s.lang) ==> MapPre(maps(s.lang), s.pre)
  }

  lemma EmptyIsPath(maps: Maps, s: State)
    requires MapsOk(maps) && s.pre == []
    ensures PreIsPath(maps, s)
  {
    EmptyPath(maps(s.lang));
  }

  lemma SamePath(maps: Maps, s: State, t: State)
    requires s.lang == t.lang && s.pre == t.pre
    ensures PreIsPath(maps, s) == PreIsPath(maps, t)
  {
  }

  lemma DotransKeepsPath(maps: Maps, s: State, c: Rune)
    requires MapsOk(maps) && PreOk(s) && PreIsPath(maps, s) && c < 0x80
    ensures PreIsPath(maps, Dotrans(maps, s, c).im)
  {
    hide IsMap, ShortEntries, Render, PathText, Roomy, Vietnamese.TransVi, Korean.TransKo, Korean.KoPre, TransMap;
    if IsMapLanguage(s.lang) {
      RoomyRenders(maps(s.lang), s.pre);
      StepKeepsPre(maps(s.lang), MapTrans.State([], s.pre), c);
    }
  }

  lemma BackKeepsPath(maps: Maps, s: State)
    requires MapsOk(maps) && PreOk(s) && PreIsPath(maps, s) && s.pre != []
    ensures PreIsPath(maps, s.(pre := Back(s)))
  {
    hide IsMap, ShortEntries, PathText, Roomy, Korean.BackKo, Korean.KoPre;
    if IsMapLanguage(s.lang) {
      PathPrefix(maps(s.lang), s.pre, |s.pre| - 1);
    }
  }

  lemma StepKeepsPath(maps: Maps, t: Sys, ev: Event)
    requires MapsOk(maps) && Inv(t.im) && PreIsPath(maps, t.im) && GoodEvent(ev)
    ensures PreIsPath(maps, Handle(maps, t, ev).im)
  {
    hide PreOk, MapsOk, Render, Window, First, Trans, AltOrSuper, Ctrl, MapGet, LangOf, PreIsPath, Dotrans, Back;
    var u := Handle(maps, t, ev).im;
    if u.pre == [] {
      EmptyIsPath(maps, u);
    } else if ev.Press? && !IsCommand(t.im, ev.ks) {
      DotransKeepsPath(maps, t.im, ev.ks);
    } else if ev.Press? && ev.ks == K_BACK && t.im.pre != [] {
      BackKeepsPath(maps, t.im);
      SamePath(maps, t.im.(pre := Back(t.im)), u);
    } else {
      SamePath(maps, t.im, u);
    }
  }

  lemma {:induction false} RunKeepsPath(maps: Maps, t: Sys, evs: seq<Event>)
    requires MapsOk(maps) && Inv(t.im) && PreIsPath(maps, t.im) && GoodEvents(evs)
    ensures PreIsPath(maps, RunEvents(maps, t, evs).im)
    decreases |evs|
  {
    hide PreIsPath, Inv, Handle, GoodEvent, MapsOk;
    if evs != [] {
      StepKeepsPath(maps, t, evs[0]);
      RunKeepsPath(maps, Handle(maps, t, evs[0]), evs[1..]);
    }
  }

  /** The keys among the events. */
  function KeysOf(evs: seq<Event>): seq<Rune> {
    if evs == [] then []
    else (match evs[0] case Press(ks, _) => [ks] case Answer(_, _) => []) + KeysOf(evs[1..])
  }

  lemma {:induction false} KeysAreAscii(maps: Maps, t: Sys, evs: seq<Event>)
    requires MapsOk(maps) && Inv(t.im) && GoodEvents(evs) && TypedRun(maps, t, evs, false)
    ensures Ascii(KeysOf(evs))
    decreases |evs|
  {
    hide MapsOk, Inv, Handle, GoodEvent, IsCommand, AltOrSuper, Ctrl;
    if evs != [] {
      KeysAreAscii(maps, Handle(maps, t, evs[0]), evs[1..]);
    }
  }

  ghost function MapState(t: Sys): MapTrans.State {
    MapTrans.State(t.com, t.im.pre)
  }

  lemma MapStep(maps: Maps, t: Sys, ev: Event)
    requires MapsOk(maps) && Inv(t.im) && GoodEvent(ev) && TypedEvent(t.im, ev, false) && IsMapLanguage(t.im.lang)
    ensures var u := Handle(maps, t, ev);
            && u.im.lang == t.im.lang
            && |t.im.pre| < MAX_RUNES && |Render(maps(t.im.lang), t.im.pre)| < MAX_RUNES
            && MapState(u) == match ev
                 case Press(ks, _) => MapTrans.Step(maps(t.im.lang), MapState(t), ks)
                 case Answer(_, _) => MapState(t)
  {
    hide IsMap, ShortEntries, Render, Window, First, Typed, Roomy, TransMap;
    RoomyRenders(maps(t.im.lang), t.im.pre);
    RoomyLength(t.im.pre);
    if ev.Press? {
      TypedIsDotrans(maps, t.im, ev.ks, ev.mod);
    }
  }

  lemma RoomyLength(pre: seq<Rune>)
    requires Roomy(pre)
    ensures |pre| < MAX_RUNES
  {
  }

  /** In a map language a run of typed keys, with answers in between, is the transliterator. */
  lemma {:induction false} MapRun(maps: Maps, t: Sys, evs: seq<Event>)
    requires MapsOk(maps) && Inv(t.im) && GoodEvents(evs) && IsMapLanguage(t.im.lang)
    requires MapPre(maps(t.im.lang), t.im.pre) && Ascii(KeysOf(evs)) && TypedRun(maps, t, evs, false)
    ensures var u := RunEvents(maps, t, evs);
            u.im.lang == t.im.lang && MapState(u) == MapTrans.Run(maps(t.im.lang), MapState(t), KeysOf(evs))
    decreases |evs|
  {
    hide Handle, GoodEvent, TypedEvent, MapTrans.Step, Inv, IsMapLanguage, IsMap, ShortEntries, PathText, Render;
    if evs != [] {
      var m := maps(t.im.lang);
      var u := Handle(maps, t, evs[0]);
      MapStep(maps, t, evs[0]);
      match evs[0] {
        case Press(ks, _) =>
          assert KeysOf(evs)[0] == ks && KeysOf(evs)[1..] == KeysOf(evs[1..]);
          StepKeepsPre(m, MapState(t), ks);
          MapRun(maps, u, evs[1..]);
        case Answer(_, _) =>
          assert KeysOf(evs) == KeysOf(evs[1..]);
          MapRun(maps, u, evs[1..]);
      }
    }
  }

  /** From any reachable state of a map language, what a run of typed keys adds to the
      committed text, with the rendered preedit, is the rendering of the one maximal split of
      the old preedit and the new keys, and its last token waits in the preedit. */
  lemma MapRunTokenizes(maps: Maps, t: Sys, evs: seq<Event>) returns (ts: seq<seq<Rune>>)
    requires MapsOk(maps) && Inv(t.im) && PreIsPath(maps, t.im) && GoodEvents(evs)
    requires IsMapLanguage(t.im.lang) && TypedRun(maps, t, evs, false)
    ensures var u, m := RunEvents(maps, t, evs), maps(t.im.lang);
            && u.com + Render(m, u.im.pre) == t.com + Rendering(m, ts) && u.im.pre == OpenToken(m, ts)
            && IsSplit(m, ts, t.im.pre + KeysOf(evs))
            && forall us :: IsSplit(m, us, t.im.pre + KeysOf(evs)) ==> us == ts
  {
    hide Inv, GoodEvent, TypedRun, RunEvents, MapTrans.Run, IsMap, ShortEntries, Render, Rendering, IsSplit, Tokenize,
      PathText, OpenToken;
    var m := maps(t.im.lang);
    KeysAreAscii(maps, t, evs);
    MapRun(maps, t, evs);
    RunRenders(m, MapState(t), KeysOf(evs));
    RunLeavesOpen(m, MapState(t), KeysOf(evs));
    TokenizeSplits(m, t.im.pre, KeysOf(evs));
    ts := Tokenize(m, t.im.pre, KeysOf(evs));
    forall us | IsSplit(m, us, t.im.pre + KeysOf(evs))
      ensures us == ts
    {
      SplitUnique(m, us, ts, t.im.pre + KeysOf(evs));
    }
  }

  // ---------------------------------------------------------------- replies

  /** What imthread writes to the client: the flag, the length of the text, the text. */
  function Reply(eaten: bool, com: Text): seq<Byte> {
    var text := Fit(com, 254 - UTF_MAX);
    [if eaten then 1 else 0, |text|] + text
  }

  /** A reply fits its 256-byte buffer. A committed text arrives unchanged if and only if its runes
      are valid and all but the last take less than 250 bytes, as at most 62 runes always do. */
  lemma ReplyCarriesText(eaten: bool, com: Text)
    ensures var r := Reply(eaten, com);
            && |r| <= 256 && r[1] == |r| - 2 && (r[0] == 1 <==> eaten)
            && (FromUtf(r[2..]) == com <==>
                  ValidRunes(com) && (com == [] || |Encode(com[..|com| - 1])| < 254 - UTF_MAX))
  {
    hide Utf8, Fit, Encode, Decode;
    var r := Reply(eaten, com);
    assert r[2..] == Fit(com, 254 - UTF_MAX);
    var n := FitIsPrefix(com, 254 - UTF_MAX);
    PrefixShorter(com, n);
    FitLossless(com, 254 - UTF_MAX);
    DecodeAny(com[..n], MAX_RUNES);
  }

  // ---------------------------------------------------------------- the C code

  function Slot(l: Language): (i: nat)
    ensures i < 6
  {
    match l
    case English => 0
    case Hiragana => 1
    case Katakana => 2
    case Hangul => 3
    case Emoji => 4
    case Vietnamese => 5
  }

  /** The first two columns of the table of languages. */
  function LangAt(i: nat): (int, Language)
    requires i < 6
  {
    match i
    case 0 => (0x14, English)
    case 1 => (0x0E, Hiragana)
    case 2 => (0x0B, Katakana)
    case 3 => (0x13, Hangul)
    case 4 => (0x05, Emoji)
    case 5 => (0x16, Vietnamese)
  }

  /** getlang. */
  method GetLang(c: nat) returns (l: Option<Language>)
    ensures l == LangOf(c)
  {
    for i := 0 to 6
      invariant LangOf(c).Some? ==> Slot(LangOf(c).value) >= i
    {
      if LangAt(i).0 == c {
        return Some(LangAt(i).1);
      }
    }
    return None;
  }

  /** The globals of strans.c and the channels it sends on. */
  class ImThread {
    const im: Im
    const langs: seq<Trie.TrieMap>
    var drawc: seq<Drawcmd>
    var dictreqc: seq<Dictreq>
    ghost const maps: Maps

    ghost predicate Valid()
      reads this, langs, set i | 0 <= i < |langs| :: langs[i].nodes
    {
      && |langs| == 6 && MapsOk(maps)
      && forall l: Language :: langs[Slot(l)].Valid() && maps(l) == DataOf(langs[Slot(l)])
    }

    ghost function Now(): State
      reads this, im
    {
      State.State(im.lang, im.pre, im.kouho, im.sel)
    }

    /** init: memset, then English. */
    constructor (tries: seq<Trie.TrieMap>, ghost data: Maps)
      requires |tries| == 6 && MapsOk(data)
      requires forall l: Language :: tries[Slot(l)].Valid() && data(l) == DataOf(tries[Slot(l)])
      ensures Valid() && fresh(im) && Now() == Start().im && drawc == [] && dictreqc == []
    {
      im := new Im();
      langs := tries;
      maps := data;
      drawc, dictreqc := [], [];
    }

    method ClearKouho()
      modifies im`kouho, im`sel
      ensures Now() == Cleared(old(Now()))
    {
      im.kouho := [];
      im.sel := -1;
    }

    method SetKouho(kouho: seq<Text>)
      modifies im`kouho, im`sel
      ensures Now() == Install(old(Now()), kouho)
    {
      ClearKouho();
      var i := 0;
      while i < |kouho|
        invariant 0 <= i <= |kouho|
        invariant im.kouho == kouho[..i] && im.sel == -1
      {
        im.kouho := im.kouho + [kouho[i]];
        i := i + 1;
      }
    }

    /** The rows that show copies from the list of candidates. */
    method Rows() returns (kouho: seq<Text>)
      requires SelOk(im.kouho, im.sel)
      ensures kouho == Window(im.kouho, im.sel)
    {
      var first := if im.sel >= MAX_DISP then im.sel - MAX_DISP + 1 else 0;
      var n := |im.kouho| - first;
      if n > MAX_DISP {
        n := MAX_DISP;
      }
      kouho := [];
      var i := 0;
      while i < n
        invariant 0 <= i && (i <= n || i == 0)
        invariant kouho == if i == 0 then [] else im.kouho[first..first + i]
      {
        kouho := kouho + [im.kouho[first + i]];
        i := i + 1;
      }
    }

    /** The preedit as the map renders it. */
    method Shown() returns (com: Text)
      requires Valid()
      ensures com == Render(maps(im.lang), im.pre)
    {
      com := Rendered(langs[Slot(im.lang)], im.pre);
    }

    /** show. */
    method Draw()
      requires Valid() && SelOk(im.kouho, im.sel)
      modifies `drawc
      ensures drawc == old(drawc) + [Show(maps, Now())]
    {
      hide MapsOk, Render, DataOf, Window, Slot, SelOk, First, Trie.TrieMap.Valid;
      var pre := Shown();
      var kouho := Rows();
      drawc := drawc + [Drawcmd(pre, kouho, if im.sel >= 0 then im.sel - First(im.sel) else -1)];
    }

    method Reset()
      requires Valid()
      modifies im`pre, im`kouho, im`sel, `drawc
      ensures Now() == Emptied(old(Now()))
      ensures drawc == old(drawc) + [Show(maps, Now())]
    {
      im.pre := [];
      ClearKouho();
      Draw();
    }

    method DictSend(key: Text)
      modifies `dictreqc
      ensures dictreqc == old(dictreqc) + [Dictreq(key, im.pre, im.lang)]
    {
      dictreqc := dictreqc + [Dictreq(key, im.pre, im.lang)];
    }

    /** dictqmap. */
    method QueryMap()
      requires Valid()
      modifies im`kouho, im`sel, `drawc, `dictreqc
      ensures match MapGet(maps(im.lang), im.pre)
              case Some(key) =>
                && Now() == old(Now()) && drawc == old(drawc)
                && dictreqc == old(dictreqc) + [Dictreq(key, im.pre, im.lang)]
              case None =>
                && Now() == Cleared(old(Now())) && dictreqc == old(dictreqc)
                && drawc == old(drawc) + [Show(maps, Now())]
    {
      hide MapsOk, MapGet, DataOf, Window, Render;
      var dict := Mapget(langs[Slot(im.lang)], im.pre);
      match dict {
        case None =>
          ClearKouho();
          Draw();
        case Some(key) =>
          DictSend(key);
      }
    }

    method SetLang(c: nat) returns (ok: bool)
      modifies im`lang
      ensures ok == LangOf(c).Some?
      ensures Now() == if ok then old(Now()).(lang := LangOf(c).value) else old(Now())
    {
      hide LangOf;
      var l := GetLang(c);
      ok := l.Some?;
      if ok {
        im.lang := l.value;
      }
    }

    /** commit, on a string that is still empty. */
    method CommitPre() returns (com: Text)
      requires Valid()
      modifies im`pre
      ensures Valid() && com == Render(maps(im.lang), old(im.pre)) && Now() == old(Now()).(pre := [])
    {
      hide Valid, Render;
      com := Shown();
      im.pre := [];
    }

    /** The language's trans, called through the table. */
    method CallTrans(c: Rune) returns (e: Emit)
      requires Valid() && PreOk(Now()) && c < 0x80
      modifies im`pre
      ensures e == Trans(maps, old(Now()), c)
    {
      hide IsMap, ShortEntries, Render, TransMap, Vietnamese.TransVi, Korean.TransKo, Korean.KoRune, Roomy, DataOf;
      var t := langs[Slot(im.lang)];
      if im.lang == Hangul {
        e := Korean.TranskoInPlace(im, c);
      } else {
        RoomyRenders(maps(im.lang), im.pre);
        RoomyLength(im.pre);
        if im.lang == Vietnamese {
          Vietnamese.TransViRoomy(maps(im.lang), im.pre, c);
          e := Vietnamese.TransviInPlace(im, t, c);
        } else {
          e := TransmapInPlace(im, t, c);
        }
      }
    }

    /** dotrans: whatever trans leaves in the preedit is dropped in favour of e.next. */
    method TransKey(c: Rune) returns (com: Text)
      requires Valid() && PreOk(Now()) && c < 0x80
      modifies im`pre, `dictreqc
      ensures var out := Dotrans(maps, old(Now()), c);
              Now() == out.im && com == out.com && dictreqc == old(dictreqc) + out.reqs
    {
      hide Valid, PreOk, Trans;
      var e := CallTrans(c);
      com := e.s;
      im.pre := [];
      im.pre := im.pre + e.next;
      if e.eat && e.dict != [] {
        DictSend(e.dict);
      }
    }

    /** The call through the table's back entry. */
    method CallBack()
      requires PreOk(Now())
      modifies im`pre
      ensures Now() == old(Now()).(pre := Back(old(Now())))
    {
      if im.lang == Hangul {
        Korean.BackkoInPlace(im);
      } else {
        im.pre := Pop(im.pre);
      }
    }

    /** The first half of keystroke: the keys that Command describes. */
    method HandleCommand(ks: Rune) returns (done: bool, eaten: bool, com: Text)
      requires Valid() && Inv(Now())
      modifies im, `drawc, `dictreqc
      ensures done <==> IsCommand(old(Now()), ks)
      ensures !done ==> Now() == old(Now()) && drawc == old(drawc) && dictreqc == old(dictreqc) && com == []
      ensures done ==> Did(Command(maps, old(Now()), ks), eaten, com, old(drawc), old(dictreqc))
    {
      hide PreOk, Show, Back, MapGet, Render, Window, MapsOk, DataOf;
      done, eaten, com := true, true, [];
      if ks == K_SUPER || ks == K_SHIFT {
        return;
      }
      if ks == K_DOWN || ks == K_UP {
        eaten := MoveSel(ks == K_DOWN);
        return;
      }
      var n := ks - 0x31;
      var off := 0;
      if im.sel >= MAX_DISP {
        off := im.sel - MAX_DISP + 1;
      }
      if 0 <= n < MAX_DISP && off + n < |im.kouho| {
        com := im.kouho[off + n];
        Reset();
        return;
      }
      if ks == K_TAB || ks == K_RET {
        eaten, com := Accept();
        return;
      }
      if ks == K_BACK {
        eaten := HandleBack();
        return;
      }
      if ks == K_ESC {
        if im.pre == [] {
          eaten := false;
          return;
        }
        Reset();
        return;
      }
      done := false;
    }

    /** The state and the channels after the keystroke that `out` describes. */
    ghost predicate Did(out: Out, eaten: bool, com: Text, draws: seq<Drawcmd>, reqs: seq<Dictreq>)
      reads this, im
    {
      && Now() == out.im && eaten == out.eaten && com == out.com
      && drawc == draws + out.draws && dictreqc == reqs + out.reqs
    }

    method MoveSel(down: bool) returns (eaten: bool)
      requires Valid() && Inv(Now())
      modifies im`sel, `drawc
      ensures Did(Command(maps, old(Now()), if down then K_DOWN else K_UP), eaten, [], old(drawc), old(dictreqc))
    {
      hide PreOk, Show, Render, Window, MapsOk, DataOf;
      if im.kouho == [] {
        return false;
      }
      if down && im.sel < |im.kouho| - 1 {
        im.sel := im.sel + 1;
      }
      if !down && im.sel >= 0 {
        im.sel := im.sel - 1;
      }
      Draw();
      eaten := true;
    }

    /** Tab and return. */
    method Accept() returns (eaten: bool, com: Text)
      requires Valid() && Inv(Now())
      modifies im`pre, im`kouho, im`sel, `drawc
      ensures Did(Command(maps, old(Now()), K_TAB), eaten, com, old(drawc), old(dictreqc))
      ensures Did(Command(maps, old(Now()), K_RET), eaten, com, old(drawc), old(dictreqc))
    {
      hide PreOk, Show, Render, Window, MapsOk, DataOf;
      eaten, com := true, [];
      if 0 <= im.sel < |im.kouho| {
        com := im.kouho[im.sel];
        Reset();
      } else if im.pre != [] {
        com := CommitPre();
        Reset();
      } else {
        eaten := false;
      }
    }

    method HandleBack() returns (eaten: bool)
      requires Valid() && Inv(Now())
      modifies im`pre, im`kouho, im`sel, `drawc, `dictreqc
      ensures Did(Command(maps, old(Now()), K_BACK), eaten, [], old(drawc), old(dictreqc))
    {
      hide PreOk, Show, Back, MapGet, Render, Window, MapsOk, DataOf;
      if im.pre == [] {
        return false;
      }
      CallBack();
      eaten := true;
      if im.pre == [] {
        Reset();
      } else {
        QueryMap();
      }
    }

    /** The second half of keystroke. */
    method HandleOther(ks: Rune, mod: nat) returns (eaten: bool, com: Text)
      requires Valid() && Inv(Now()) && !IsCommand(Now(), ks)
      modifies im, `drawc, `dictreqc
      ensures Did(Keystroke(maps, old(Now()), ks, mod), eaten, com, old(drawc), old(dictreqc))
    {
      hide PreOk, Show, Dotrans, Render, Window, MapsOk, DataOf, IsCommand, Command, AltOrSuper, Ctrl, LangOf;
      RenderShort(maps, Now());
      hide SelOk;
      eaten := true;
      if ks >= K_SPEC || AltOrSuper(mod) {
        eaten := false;
        com := CommitPre();
        Reset();
      } else if Ctrl(mod) {
        com := [];
        Reset();
        eaten := SetLang(if 0x61 <= ks <= 0x7A then ks - 0x60 else ks);
      } else if ks == 0x30 && im.kouho != [] {
        com := CommitPre();
        Reset();
      } else if ks > 0x7F || ks == 0x20 {
        com := CommitPre();
        com := com + [ks];
        Reset();
      } else {
        com := TypeKey(ks);
      }
    }

    /** dotrans, and the redraw. */
    method TypeKey(ks: Rune) returns (com: Text)
      requires Valid() && Inv(Now()) && ks < 0x80
      modifies im`pre, `drawc, `dictreqc
      ensures Did(Dotrans(maps, old(Now()), ks), true, com, old(drawc), old(dictreqc))
    {
      hide PreOk, Show, Trans, Render, Window, MapsOk, DataOf;
      com := TransKey(ks);
      Draw();
    }

    /** keystroke. */
    method Press(ks: Rune, mod: nat) returns (eaten: bool, com: Text)
      requires Valid() && Inv(Now())
      modifies im, `drawc, `dictreqc
      ensures Did(Keystroke(maps, old(Now()), ks, mod), eaten, com, old(drawc), old(dictreqc))
      ensures Valid() && Inv(Now())
    {
      hide Inv, MapsOk, DataOf, IsCommand, Command, Bit, Ctrl, AltOrSuper, Dotrans, Commit, Render;
      KeystrokeKeepsInv(maps, Now(), ks, mod);
      var done;
      done, eaten, com := HandleCommand(ks);
      if !done {
        eaten, com := HandleOther(ks, mod);
      }
    }

    /** imthread's second case: an answer from the dictionary thread. */
    method Answered(key: Text, kouho: seq<Text>)
      requires Valid() && Inv(Now()) && |kouho| <= MAX_KOUHO
      modifies im`kouho, im`sel, `drawc
      ensures var u := Handle(maps, Sys(old(Now()), [], None), Answer(key, kouho));
              && Now() == u.im && Inv(Now())
              && drawc == old(drawc) + match u.shown case Some(d) => [d] case None => []
    {
      hide PreOk, Show, MapsOk, DataOf;
      if key == im.pre {
        SetKouho(kouho);
        Draw();
      }
    }
  }
}
