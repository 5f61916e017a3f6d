/**
 The engine and the dictionary thread as interleaved steps (dictsend and imthread of strans.c,
 dictthread of dict.c).

 The engine puts requests into a channel of four slots and goes on when it is full; the
 dictionary thread empties the channel, keeps the last request it received, and hands the
 answer over on an unbuffered channel.
 */
module DictThread {
  import opened Common
  import opened Text
  import opened ImData
  import opened Engine
  import HashMap
  import Dict
  import MapTrans
  import Korean
  import Hangul
  import Vietnamese

  const SLOTS: nat := 4

  type Dicts = Language -> Option<Dict.Entries>

  /** Requests are known by the order in which they were issued. */
  datatype Worker = Idle | Draining(cur: nat) | Sending(cur: nat)

  /** An answer that became the candidates, and the preedit of that moment. */
  datatype Install = Install(serial: nat, pre: Text)

  datatype World = World(sys: Sys, queue: seq<nat>, worker: Worker,
                         issued: seq<Dictreq>, answered: seq<nat>, installed: seq<Install>)

  datatype Move = Key(ks: Rune, mod: nat) | Receive | Drain | Look | Deliver

  // ------------------------------------------------------------------ moves

  /** channbsend: a request that finds the channel full is lost. */
  function Post(w: World, reqs: seq<Dictreq>): World
    decreases |reqs|
  {
    if reqs == [] then w
    else
      var queue := if |w.queue| < SLOTS then w.queue + [|w.issued|] else w.queue;
      Post(w.(issued := w.issued + [reqs[0]], queue := queue), reqs[1..])
  }

  predicate Enabled(w: World, mv: Move) {
    match mv
    case Key(_, _) => true
    case Receive => w.worker.Idle? && w.queue != []
    case Drain => w.worker.Draining? && w.queue != []
    case Look => w.worker.Draining? && w.queue == []
    case Deliver => w.worker.Sending?
  }

  function Answers(dicts: Dicts, req: Dictreq): seq<Text> {
    Dict.Lookup(dicts(req.lang), req.key)
  }

  /** One move of the world; a move that is not possible changes nothing. */
  ghost function Next(maps: Maps, dicts: Dicts, w: World, mv: Move): (v: World)
    requires MapsOk(maps) && WorldOk(w)
  {
    if !Enabled(w, mv) then w
    else
      match mv
      case Key(ks, mod) =>
        Post(w.(sys := Handle(maps, w.sys, Press(ks, mod))), Keystroke(maps, w.sys.im, ks, mod).reqs)
      case Receive => w.(worker := Draining(w.queue[0]), queue := w.queue[1..])
      case Drain => w.(worker := Draining(w.queue[0]), queue := w.queue[1..])
      case Look => w.(worker := Sending(w.worker.cur))
      case Deliver =>
        var req := w.issued[w.worker.cur];
        w.(sys := Handle(maps, w.sys, Answer(req.pre, Answers(dicts, req))),
           worker := Idle,
           answered := w.answered + [w.worker.cur],
           installed := if req.pre == w.sys.im.pre
                        then w.installed + [Install(w.worker.cur, w.sys.im.pre)] else w.installed)
  }

  // -------------------------------------------------------------- invariant

  function Held(wk: Worker): seq<nat> {
    if wk.Idle? then [] else [wk.cur]
  }

  /** Every request that was accepted and not thrown away, oldest first. */
  function Line(w: World): seq<nat> {
    w.answered + Held(w.worker) + w.queue
  }

  ghost predicate InOrder(line: seq<nat>, n: nat) {
    && (forall i :: 0 <= i < |line| ==> line[i] < n)
    && (forall i, j :: 0 <= i < j < |line| ==> line[i] < line[j])
  }

  ghost predicate WorldOk(w: World) {
    Inv(w.sys.im) && InOrder(Line(w), |w.issued|) && |w.queue| <= SLOTS
    && (w.worker.Idle? || w.worker.cur < |w.issued|)
  }

  /** The candidates are the answer that was installed last, or none. */
  ghost predicate CandidatesAnswer(dicts: Dicts, w: World) {
    && (forall i :: 0 <= i < |w.installed| ==>
          var e := w.installed[i];
          e.serial in w.answered && e.serial < |w.issued| && w.issued[e.serial].pre == e.pre)
    && (w.sys.im.kouho != [] ==>
          && w.installed != []
          && w.sys.im.kouho == Answers(dicts, w.issued[w.installed[|w.installed| - 1].serial]))
  }

  lemma {:induction false} PostKeeps(w: World, reqs: seq<Dictreq>)
    requires WorldOk(w)
    ensures var v := Post(w, reqs);
            && WorldOk(v) && v.sys == w.sys && v.worker == w.worker
            && v.answered == w.answered && v.installed == w.installed && w.issued <= v.issued
    decreases |reqs|
  {
    hide Inv;
    if reqs != [] {
      var queue := if |w.queue| < SLOTS then w.queue + [|w.issued|] else w.queue;
      var v := w.(issued := w.issued + [reqs[0]], queue := queue);
      assert Line(v) == Line(w) || Line(v) == Line(w) + [|w.issued|];
      PostKeeps(v, reqs[1..]);
    }
  }

  lemma NextKeepsOrder(maps: Maps, dicts: Dicts, w: World, mv: Move)
    requires MapsOk(maps) && WorldOk(w)
    ensures WorldOk(Next(maps, dicts, w, mv))
  {
    hide Inv, Post, Keystroke, Handle, Answers, MapsOk;
    if Enabled(w, mv) {
      match mv {
        case Key(ks, mod) =>
          PostKeeps(w.(sys := Handle(maps, w.sys, Press(ks, mod))), Keystroke(maps, w.sys.im, ks, mod).reqs);
        case Receive =>
          assert Line(w)[|w.answered|] == w.queue[0];
          assert Line(Next(maps, dicts, w, mv)) == Line(w);
        case Drain =>
          assert Line(w)[|w.answered| + 1] == w.queue[0];
          DropHeld(w.answered, w.worker.cur, w.queue, |w.issued|);
          assert Line(Next(maps, dicts, w, mv)) == w.answered + w.queue;
        case Look =>
        case Deliver =>
          assert Line(Next(maps, dicts, w, mv)) == Line(w);
      }
    }
  }

  lemma DropHeld(a: seq<nat>, cur: nat, q: seq<nat>, n: nat)
    requires InOrder(a + [cur] + q, n)
    ensures InOrder(a + q, n)
  {
    var l, m := a + [cur] + q, a + q;
    assert forall i :: 0 <= i < |m| ==> m[i] == l[if i < |a| then i else i + 1];
  }

  lemma KeystrokeKouho(maps: Maps, s: State, ks: Rune, mod: nat)
    requires MapsOk(maps) && Inv(s)
    ensures Keystroke(maps, s, ks, mod).im.kouho == s.kouho || Keystroke(maps, s, ks, mod).im.kouho == []
  {
    hide PreOk, MapsOk, MapTrans.Render, Window, Back, First, Trans, AltOrSuper, Ctrl, MapTrans.MapGet, LangOf;
  }

  lemma NextKeepsAnswers(maps: Maps, dicts: Dicts, w: World, mv: Move)
    requires MapsOk(maps) && WorldOk(w) && CandidatesAnswer(dicts, w)
    ensures CandidatesAnswer(dicts, Next(maps, dicts, w, mv))
  {
    hide Inv, Post, Keystroke, Answers, MapsOk, Show, InOrder;
    if Enabled(w, mv) && mv.Key? {
      PostKeeps(w.(sys := Handle(maps, w.sys, Press(mv.ks, mv.mod))), Keystroke(maps, w.sys.im, mv.ks, mv.mod).reqs);
      KeystrokeKouho(maps, w.sys.im, mv.ks, mv.mod);
    }
  }

  // ------------------------------------------------------------------- runs

  function Begin(): World {
    World(Engine.Start(), [], Idle, [], [], [])
  }

  ghost function RunMoves(maps: Maps, dicts: Dicts, w: World, mvs: seq<Move>): (v: World)
    requires MapsOk(maps) && WorldOk(w)
    ensures WorldOk(v)
    decreases |mvs|
  {
    hide Next, WorldOk;
    if mvs == [] then w
    else
      NextKeepsOrder(maps, dicts, w, mvs[0]);
      RunMoves(maps, dicts, Next(maps, dicts, w, mvs[0]), mvs[1..])
  }

  lemma {:induction false} RunKeepsAnswers(maps: Maps, dicts: Dicts, w: World, mvs: seq<Move>)
    requires MapsOk(maps) && WorldOk(w) && CandidatesAnswer(dicts, w)
    ensures CandidatesAnswer(dicts, RunMoves(maps, dicts, w, mvs))
    decreases |mvs|
  {
    hide Next, WorldOk, CandidatesAnswer;
    if mvs != [] {
      NextKeepsOrder(maps, dicts, w, mvs[0]);
      NextKeepsAnswers(maps, dicts, w, mvs[0]);
      RunKeepsAnswers(maps, dicts, Next(maps, dicts, w, mvs[0]), mvs[1..]);
    }
  }

  /** Over every interleaving: requests are answered in the order they were issued and none
      twice, and the candidates are exactly the answer to the request installed last, whose
      preedit was the current one when it was installed. */
  lemma AnswersInOrder(maps: Maps, dicts: Dicts, mvs: seq<Move>)
    requires MapsOk(maps)
    ensures WorldOk(Begin())
    ensures var w := RunMoves(maps, dicts, Begin(), mvs);
            && (forall i, j :: 0 <= i < j < |w.answered| ==> w.answered[i] < w.answered[j] < |w.issued|)
            && (w.answered != [] ==> w.answered[0] < |w.issued|)
            && CandidatesAnswer(dicts, w)
  {
    hide Next, CandidatesAnswer, Inv, MapsOk, RunMoves;
    Engine.StartOk();
    NothingAnswered(dicts);
    RunKeepsAnswers(maps, dicts, Begin(), mvs);
    var w := RunMoves(maps, dicts, Begin(), mvs);
    AnsweredInOrder(w);
  }

  lemma AnsweredInOrder(w: World)
    requires WorldOk(w)
    ensures InOrder(w.answered, |w.issued|)
  {
    hide Inv;
    assert Line(w) == w.answered + (Held(w.worker) + w.queue);
    FirstInOrder(w.answered, Held(w.worker) + w.queue, |w.issued|);
  }

  lemma FirstInOrder(a: seq<nat>, b: seq<nat>, n: nat)
    requires InOrder(a + b, n)
    ensures InOrder(a, n)
  {
    assert forall i :: 0 <= i < |a| ==> a[i] == (a + b)[i];
  }

  lemma NothingAnswered(dicts: Dicts)
    ensures CandidatesAnswer(dicts, Begin())
  {
  }

  /** An answer becomes the candidates exactly when its preedit is the current one; otherwise
      it leaves the engine as it is. */
  lemma DeliverInstallsOnMatch(maps: Maps, dicts: Dicts, w: World)
    requires MapsOk(maps) && WorldOk(w) && w.worker.Sending?
    ensures var v, req := Next(maps, dicts, w, Deliver), w.issued[w.worker.cur];
            if req.pre == w.sys.im.pre
            then v.sys.im == Engine.Install(w.sys.im, Answers(dicts, req)) && v.installed != w.installed
            else v.sys == w.sys && v.installed == w.installed
  {
    hide Inv, MapsOk, Answers, Show, InOrder;
    assert forall e :: |w.installed + [e]| == |w.installed| + 1;
  }

  // --------------------------------------------------------------- settling

  /** What the dictionary thread can do next on its own. */
  function WorkerMove(w: World): Move {
    match w.worker
    case Idle => Receive
    case Draining(_) => if w.queue != [] then Drain else Look
    case Sending(_) => Deliver
  }

  predicate Settled(w: World) {
    w.worker.Idle? && w.queue == []
  }

  function Work(w: World): nat {
    3 * |w.queue| + if w.worker.Draining? then 2 else if w.worker.Sending? then 1 else 0
  }

  lemma WorkerProgress(maps: Maps, dicts: Dicts, w: World)
    requires MapsOk(maps) && WorldOk(w) && !Settled(w)
    ensures var v := Next(maps, dicts, w, WorkerMove(w));
            && WorldOk(v) && Work(v) < Work(w) && v.issued == w.issued
            && v.sys.im.pre == w.sys.im.pre
            && Line(v) != [] && Line(w) != [] && Line(v)[|Line(v)| - 1] == Line(w)[|Line(w)| - 1]
  {
    hide Inv, MapsOk, Answers, Show, InOrder;
    NextKeepsOrder(maps, dicts, w, WorkerMove(w));
  }

  /** The dictionary thread running until it waits for requests, with no key in between. */
  ghost function Settle(maps: Maps, dicts: Dicts, w: World): (v: World)
    requires MapsOk(maps) && WorldOk(w)
    ensures WorldOk(v) && Settled(v)
    decreases Work(w)
  {
    hide Next, WorldOk, WorkerMove;
    if Settled(w) then w
    else
      WorkerProgress(maps, dicts, w);
      Settle(maps, dicts, Next(maps, dicts, w, WorkerMove(w)))
  }

  /** The newest request that was accepted is answered, and when the preedit is still its own
      the candidates are its answer. */
  lemma {:induction false} SettleAnswersNewest(maps: Maps, dicts: Dicts, w: World)
    requires MapsOk(maps) && WorldOk(w) && !Settled(w)
    ensures var v, last := Settle(maps, dicts, w), Line(w)[|Line(w)| - 1];
            && last < |w.issued| && v.issued == w.issued
            && v.answered != [] && v.answered[|v.answered| - 1] == last
            && (w.issued[last].pre == w.sys.im.pre ==> v.sys.im.kouho == Answers(dicts, w.issued[last]))
    decreases Work(w)
  {
    hide Inv, MapsOk, Answers, Show;
    WorkerProgress(maps, dicts, w);
    var v := Next(maps, dicts, w, WorkerMove(w));
    if Settled(v) {
      DeliverInstallsOnMatch(maps, dicts, w);
      assert Line(v) == v.answered;
    } else {
      SettleAnswersNewest(maps, dicts, v);
    }
  }

  lemma KeystrokeRequest(maps: Maps, s: State, ks: Rune, mod: nat)
    requires MapsOk(maps) && Inv(s)
    ensures var out := Keystroke(maps, s, ks, mod);
            |out.reqs| <= 1 && forall r :: r in out.reqs ==> r.pre == out.im.pre && r.lang == out.im.lang
  {
    hide PreOk, MapsOk, MapTrans.Render, Window, Back, First, Trans, AltOrSuper, Ctrl, MapTrans.MapGet, LangOf;
  }

  lemma PostOne(w: World, req: Dictreq)
    ensures Post(w, [req]) == w.(issued := w.issued + [req],
                                 queue := if |w.queue| < SLOTS then w.queue + [|w.issued|] else w.queue)
  {
    assert [req][1..] == [];
  }

  /** The dictionary thread answers only what was accepted. */
  lemma {:induction false} SettleAnswersAccepted(maps: Maps, dicts: Dicts, w: World, serial: nat)
    requires MapsOk(maps) && WorldOk(w) && serial !in Line(w)
    ensures serial !in Settle(maps, dicts, w).answered
    decreases Work(w)
  {
    hide Inv, MapsOk, Answers, Show, InOrder;
    if !Settled(w) {
      WorkerProgress(maps, dicts, w);
      SettleAnswersAccepted(maps, dicts, Next(maps, dicts, w, WorkerMove(w)), serial);
    }
  }

  lemma AskingKey(maps: Maps, dicts: Dicts, w: World, ks: Rune, mod: nat)
    requires MapsOk(maps) && WorldOk(w) && Keystroke(maps, w.sys.im, ks, mod).reqs != []
    ensures var v, req := Next(maps, dicts, w, Key(ks, mod)), Keystroke(maps, w.sys.im, ks, mod).reqs[0];
            && WorldOk(v) && v.sys == Handle(maps, w.sys, Press(ks, mod))
            && v.issued == w.issued + [req] && req.pre == v.sys.im.pre
            && v.answered == w.answered && v.worker == w.worker
            && v.queue == if |w.queue| < SLOTS then w.queue + [|w.issued|] else w.queue
  {
    hide Inv, MapsOk, Answers, Keystroke;
    NextKeepsOrder(maps, dicts, w, Key(ks, mod));
    KeystrokeRequest(maps, w.sys.im, ks, mod);
    var req := Keystroke(maps, w.sys.im, ks, mod).reqs[0];
    assert Keystroke(maps, w.sys.im, ks, mod).reqs == [req];
    PostOne(w.(sys := Handle(maps, w.sys, Press(ks, mod))), req);
  }

  /** The request of a key is answered if and only if the channel has room when it is made. */
  lemma AnsweredIfRoom(maps: Maps, dicts: Dicts, w: World, ks: Rune, mod: nat)
    requires MapsOk(maps) && WorldOk(w) && Keystroke(maps, w.sys.im, ks, mod).reqs != []
    ensures WorldOk(Next(maps, dicts, w, Key(ks, mod)))
    ensures |w.issued| in Settle(maps, dicts, Next(maps, dicts, w, Key(ks, mod))).answered <==> |w.queue| < SLOTS
  {
    hide Inv, MapsOk, Answers, Keystroke, Settle, Next;
    AskingKey(maps, dicts, w, ks, mod);
    var v := Next(maps, dicts, w, Key(ks, mod));
    if |w.queue| < SLOTS {
      assert Line(v)[|Line(v)| - 1] == |w.issued|;
      SettleAnswersNewest(maps, dicts, v);
    } else {
      assert Line(v) == Line(w);
      SettleAnswersAccepted(maps, dicts, v, |w.issued|);
    }
  }

  /** When a key asks the dictionary and the channel has room, then once the dictionary thread
      has caught up the candidates are the answer for the preedit on display. */
  lemma PauseShowsCandidates(maps: Maps, dicts: Dicts, w: World, ks: Rune, mod: nat)
    requires MapsOk(maps) && WorldOk(w) && |w.queue| < SLOTS
    requires Keystroke(maps, w.sys.im, ks, mod).reqs != []
    ensures var req := Keystroke(maps, w.sys.im, ks, mod).reqs[0];
            WorldOk(Next(maps, dicts, w, Key(ks, mod)))
            && Settle(maps, dicts, Next(maps, dicts, w, Key(ks, mod))).sys.im.kouho == Answers(dicts, req)
            && req.pre == Next(maps, dicts, w, Key(ks, mod)).sys.im.pre
  {
    hide Inv, MapsOk, Answers, Keystroke, Settle, Next;
    AskingKey(maps, dicts, w, ks, mod);
    var v := Next(maps, dicts, w, Key(ks, mod));
    assert Line(v)[|Line(v)| - 1] == |w.issued|;
    SettleAnswersNewest(maps, dicts, v);
  }

  /** Answers for other preedits leave the engine as it is. */
  lemma {:induction false} SettleLeavesEngine(maps: Maps, dicts: Dicts, w: World)
    requires MapsOk(maps) && WorldOk(w)
    requires forall i :: i in Held(w.worker) + w.queue && i < |w.issued| ==> w.issued[i].pre != w.sys.im.pre
    ensures Settle(maps, dicts, w).sys == w.sys
    decreases Work(w)
  {
    hide Inv, MapsOk, Answers, Show, InOrder;
    if !Settled(w) {
      WorkerProgress(maps, dicts, w);
      var v := Next(maps, dicts, w, WorkerMove(w));
      if w.worker.Sending? {
        DeliverInstallsOnMatch(maps, dicts, w);
        assert w.worker.cur in Held(w.worker) + w.queue;
      }
      assert forall i :: i in Held(v.worker) + v.queue ==> i in Held(w.worker) + w.queue;
      SettleLeavesEngine(maps, dicts, v);
    }
  }

  // ---------------------------------------------------------- a full channel

  const KEY_A: Rune := 0x61
  const KEY_B: Rune := 0x62

  /** Maps with entries for the keys a and b. */
  function TwoEntries(l: Language): MapTrans.MapData {
    MapTrans.MapData({[], [KEY_A], [KEY_B]}, map[[KEY_A] := [0x78], [KEY_B] := [0x79]])
  }

  lemma OneByte(r: Byte)
    requires r < 0x80
    ensures Encode([r]) == [r] && ToUtf([r]) == [r] && FromUtf([r]) == [r]
  {
    assert [r][1..] == [];
    Utf8RoundTrip([r]);
    ShortTextLossless([r]);
  }

  lemma TwoEntriesOk()
    ensures MapsOk(TwoEntries)
  {
    hide Encode, Decode;
    OneByte(KEY_A);
    OneByte(KEY_B);
    OneByte(0x78);
    OneByte(0x79);
    forall l
      ensures MapTrans.IsMap(TwoEntries(l)) && MapTrans.ShortEntries(TwoEntries(l))
    {
      var m := TwoEntries(l);
      forall p, q | q in m.paths && p <= q
        ensures p in m.paths
      {
        assert p == [] || p == q;
      }
      forall p | p in m.paths
        ensures exists k: seq<Rune> :: |k| < MAX_RUNES && p <= Encode(k)
      {
        assert p <= Encode([KEY_A]) || p <= Encode([KEY_B]);
      }
    }
  }

  /** Another key does not continue the preedit, and has an entry of its own. */
  lemma EntryTyped(pre: Text, c: Rune)
    requires (pre == [] || pre == [KEY_A]) && (c == KEY_A || c == KEY_B)
    ensures |MapTrans.Render(TwoEntries(English), pre)| < MAX_RUNES
    ensures var e := MapTrans.TransMap(TwoEntries(English), pre, c); e.eat && e.next == [c] && e.dict != []
  {
    hide Encode, Decode, Fit;
    OneByte(KEY_A);
    OneByte(c);
    OneByte(0x78);
    OneByte(0x79);
    ShortTextLossless(pre + [c]);
    assert [] + [c] == [c];
  }

  /** Only the keys a and b have been typed, each asking the dictionary. */
  ghost predicate Typing(w: World, c: Rune) {
    && WorldOk(w) && w.sys.im.lang == English && w.sys.im.kouho == [] && w.worker.Idle? && w.answered == []
    && w.sys.im.pre == (if w.issued == [] then [] else [c])
  }

  lemma EntryAsks(dicts: Dicts, w: World, c: Rune)
    requires MapsOk(TwoEntries) && Typing(w, KEY_A) && (c == KEY_A || c == KEY_B)
    ensures var v := Next(TwoEntries, dicts, w, Key(c, 0));
            && WorldOk(v) && Typing(v, c) && |v.issued| == |w.issued| + 1 && w.issued <= v.issued
            && v.issued[|w.issued|].pre == [c]
            && v.queue == if |w.queue| < SLOTS then w.queue + [|w.issued|] else w.queue
  {
    hide MapsOk, TwoEntries, MapTrans.TransMap, MapTrans.Render;
    EntryTyped(w.sys.im.pre, c);
    TypedIsDotrans(TwoEntries, w.sys.im, c, 0);
    hide Keystroke, InOrder;
    AskingKey(TwoEntries, dicts, w, c, 0);
  }

  /** From the start: four a fill the channel, so the request of the b typed after them is lost.
      When typing pauses there are no candidates for the preedit on display. */
  lemma FifthRequestLost(dicts: Dicts)
    ensures MapsOk(TwoEntries) && WorldOk(Begin())
    ensures var a := Key(KEY_A, 0);
            var w := RunMoves(TwoEntries, dicts, Begin(), [a, a, a, a, Key(KEY_B, 0)]);
            var v := Settle(TwoEntries, dicts, w);
            && |w.issued| == 5 && w.issued[4].pre == v.sys.im.pre == [KEY_B]
            && 4 !in v.answered && v.sys.im.kouho == []
  {
    hide MapsOk, WorldOk, Next, RunMoves, Settle, TwoEntries, Typing;
    TwoEntriesOk();
    BeginsTyping();
    var a, b := Key(KEY_A, 0), Key(KEY_B, 0);
    var w := FourAsked(dicts);
    var v := Next(TwoEntries, dicts, w, b);
    assert [a, a, a, a, b] == [a] + ([a] + ([a] + ([a] + ([b] + []))));
    EntryAsks(dicts, w, KEY_B);
    RunStep(TwoEntries, dicts, w, b, []);
    RunEnds(TwoEntries, dicts, v);
    LostWhenSettled(dicts, v);
  }

  lemma BeginsTyping()
    ensures Typing(Begin(), KEY_A) && WorldOk(Begin())
  {
    Engine.StartOk();
  }

  lemma RunEnds(maps: Maps, dicts: Dicts, w: World)
    requires MapsOk(maps) && WorldOk(w)
    ensures RunMoves(maps, dicts, w, []) == w
  {
  }

  lemma RunStep(maps: Maps, dicts: Dicts, w: World, mv: Move, rest: seq<Move>)
    requires MapsOk(maps) && WorldOk(w)
    ensures WorldOk(Next(maps, dicts, w, mv))
    ensures RunMoves(maps, dicts, w, [mv] + rest) == RunMoves(maps, dicts, Next(maps, dicts, w, mv), rest)
  {
    hide MapsOk, WorldOk, Next;
    NextKeepsOrder(maps, dicts, w, mv);
    assert ([mv] + rest)[1..] == rest;
  }

  lemma FourAsked(dicts: Dicts) returns (w: World)
    requires MapsOk(TwoEntries)
    ensures WorldOk(Begin()) && Typing(w, KEY_A) && WorldOk(w)
    ensures |w.issued| == 4 && w.queue == [0, 1, 2, 3] && forall i :: 0 <= i < 4 ==> w.issued[i].pre == [KEY_A]
    ensures var a := Key(KEY_A, 0);
            forall rest :: RunMoves(TwoEntries, dicts, Begin(), [a] + ([a] + ([a] + ([a] + rest))))
                        == RunMoves(TwoEntries, dicts, w, rest)
  {
    hide MapsOk, WorldOk, Next, RunMoves, TwoEntries, Typing;
    var a := Key(KEY_A, 0);
    BeginsTyping();
    var w1 := OneMore(dicts, Begin());
    var w2 := OneMore(dicts, w1);
    var w3 := OneMore(dicts, w2);
    w := OneMore(dicts, w3);
  }

  /** One more a, while the channel has room. */
  lemma OneMore(dicts: Dicts, w: World) returns (v: World)
    requires MapsOk(TwoEntries) && Typing(w, KEY_A) && WorldOk(w) && |w.queue| < SLOTS
    ensures Typing(v, KEY_A) && WorldOk(v)
    ensures |v.issued| == |w.issued| + 1 && w.issued <= v.issued && v.issued[|w.issued|].pre == [KEY_A]
    ensures v.queue == w.queue + [|w.issued|]
    ensures forall rest :: RunMoves(TwoEntries, dicts, w, [Key(KEY_A, 0)] + rest)
                        == RunMoves(TwoEntries, dicts, v, rest)
  {
    hide MapsOk, WorldOk, Next, RunMoves, TwoEntries, Typing;
    v := Next(TwoEntries, dicts, w, Key(KEY_A, 0));
    EntryAsks(dicts, w, KEY_A);
    forall rest
      ensures RunMoves(TwoEntries, dicts, w, [Key(KEY_A, 0)] + rest) == RunMoves(TwoEntries, dicts, v, rest)
    {
      RunStep(TwoEntries, dicts, w, Key(KEY_A, 0), rest);
    }
  }

  lemma LostWhenSettled(dicts: Dicts, w: World)
    requires MapsOk(TwoEntries) && Typing(w, KEY_B) && WorldOk(w)
    requires |w.issued| == 5 && w.queue == [0, 1, 2, 3] && forall i :: 0 <= i < 4 ==> w.issued[i].pre == [KEY_A]
    ensures var v := Settle(TwoEntries, dicts, w);
            4 !in v.answered && v.sys.im.kouho == [] && v.sys.im.pre == [KEY_B]
  {
    hide MapsOk, WorldOk, TwoEntries, Settle;
    SettleAnswersAccepted(TwoEntries, dicts, w, 4);
    SettleLeavesEngine(TwoEntries, dicts, w);
  }

  // ------------------------------------------------------- keys of requests

  /** The lines of a map file hold no NUL. */
  ghost predicate NulFree(maps: Maps) {
    forall l, p :: p in maps(l).vals ==> forall i :: 0 <= i < |maps(l).vals[p]| ==> maps(l).vals[p][i] != 0
  }

  lemma ValueIsGood(maps: Maps, l: Language, key: Text)
    requires MapsOk(maps) && NulFree(maps)
    ensures MapTrans.MapGet(maps(l), key).Some? ==> HashMap.GoodKey(MapTrans.MapGet(maps(l), key).value)
    ensures HashMap.GoodKey(MapTrans.DictKey(maps(l), key))
  {
    hide Decode, ToUtf, MapTrans.IsMap;
    if MapTrans.MapGet(maps(l), key).Some? {
      HashMap.DecodedIsGood(maps(l).vals[ToUtf(key)], MAX_RUNES);
    }
  }

  lemma KoreanAsksNothing(pre: Text, c: Rune)
    requires Korean.KoPre(pre)
    ensures Korean.TransKo(pre, c).0.dict == []
  {
    hide Korean.KoRune, Hangul.Combine, Hangul.SplitPair, Hangul.Compose, Hangul.Decompose;
  }

  lemma TransKeyIsGood(maps: Maps, s: State, c: Rune)
    requires MapsOk(maps) && PreOk(s) && NulFree(maps) && c < 0x80
    ensures HashMap.GoodKey(Trans(maps, s, c).dict)
  {
    hide MapTrans.IsMap, MapTrans.ShortEntries, MapTrans.Render, MapTrans.DictKey, MapTrans.MapHas, NulFree;
    hide Korean.TransKo, Korean.KoRune, MapTrans.Roomy, Vietnamese.Mark, Vietnamese.TonePos, HashMap.GoodKey;
    NothingIsGood();
    if s.lang == ImData.Hangul {
      KoreanAsksNothing(s.pre, c);
    } else {
      MapTrans.RoomyRenders(maps(s.lang), s.pre);
      Engine.RoomyLength(s.pre);
      ValueIsGood(maps, s.lang, s.pre + [c]);
      ValueIsGood(maps, s.lang, [c]);
    }
  }

  lemma NothingIsGood()
    ensures HashMap.GoodKey([])
  {
  }

  /** Every request has a key that the dictionary table can hold and find. */
  lemma RequestKeysAreGood(maps: Maps, s: State, ks: Rune, mod: nat)
    requires MapsOk(maps) && Inv(s) && NulFree(maps)
    ensures forall r :: r in Keystroke(maps, s, ks, mod).reqs ==> HashMap.GoodKey(r.key)
  {
    hide PreOk, MapsOk, MapTrans.Render, Window, Back, First, Trans, AltOrSuper, Ctrl, MapTrans.MapGet, LangOf;
    hide HashMap.GoodKey, NulFree;
    if ks < 0x80 {
      TransKeyIsGood(maps, s, ks);
    } else if ks == K_BACK && s.pre != [] {
      ValueIsGood(maps, s.lang, Back(s));
    }
  }
}
