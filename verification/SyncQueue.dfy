/**
 Synchronous key delivery to one XIM client (protocolhandler.c and imdkit.c).

 A key event reaches the application's callback at once, unless a key that the application sent
 back is still unanswered (`sync`); then it waits in a queue, which a sync reply empties until
 the callback sends a key back again. A queued event remembers the id of its context, and ids
 are used again: the laws say in which order events are handed over, and to which context.
 */
module SyncQueue {
  import opened Common
  import opened ListHead
  import IcIds

  /** Sizes of what the handlers read: the three frames, and the X event after the first. */
  const FORWARD_SIZE: nat := 8
  const EXT_FORWARD_SIZE: nat := 20
  const SYNC_REPLY_SIZE: nat := 4
  const KEY_EVENT_SIZE: nat := 32

  /** An input context: which one of those made it is, and its forward_event_sequence. */
  datatype Ic = Ic(gen: nat, sequence: nat)

  /** A key as it stands in a message. */
  datatype Key = Key(icid: nat, sequence: nat, event: nat)

  /** A key event that arrived: for the laws, the context that had the id then, and how many
      contexts had been destroyed. */
  datatype Ev = Ev(key: Key, gen: nat, at: nat)

  /** An event that is over: the context it was handed to, or none when it was dropped, and how
      many contexts had been destroyed by then. */
  datatype Done = Done(ev: Ev, to: Option<nat>, until: nat)

  /** What the application can do about key events, in its callback or elsewhere. */
  datatype Action =
    | SendBack(icid: nat)
    | SendBackAs(icid: nat, sequence: nat)
    | SyncXlib(icid: nat)
    | SetSyncMode(on: bool)
    | SetSyncEvent(on: bool)

  /** What goes out to the client. */
  datatype Sent =
    | SentKey(icid: nat, sequence: nat, sync: bool)
    | SentSync(icid: nat)
    | SentAnswer(icid: nat)
    | SentError

  /** The client's connect id, and what the application's callback does when it is called for
      the n-th time; any behaviour of it in a run is such a function. */
  datatype App = App(connectId: nat, react: nat -> seq<Action>)

  /** `live` are the contexts by id, `ids` the state of their allocator, `made` counts them and
      `destroyed` lists the ids given up; `arrived`, `done`, `ext` and `sent` are histories. */
  datatype State = State(
    ids: IcIds.State, live: map<nat, Ic>, made: nat, destroyed: seq<nat>,
    sync: bool, imSync: bool, useSyncMode: bool, useSyncEvent: bool,
    queue: seq<Ev>, arrived: seq<Ev>, done: seq<Done>, ext: seq<Ev>, sent: seq<Sent>, calls: nat)

  datatype Msg =
    | Forward(connect: nat, words: nat, key: Key)
    | ExtForward(connect: nat, words: nat, key: Key)
    | SyncReply(connect: nat, words: nat, icid: nat)
    | CreateIc(connect: nat)
    | DestroyIc(connect: nat, icid: nat)
    | OtherSyncReply
    | Acts(acts: seq<Action>)

  /** The state after _xcb_im_new_client, sync mode being the default. */
  function Start(): State {
    State.State(IcIds.State.State([], [], 0, false), map[], 0, [], false, false, true, false, [], [], [], [], [], 0)
  }

  // ------------------------------------------------------- the application

  /** xcb_im_forward_event_full. */
  function SendKey(s: State, icid: nat, sequence: nat): State {
    s.(sync := s.sync || s.useSyncMode, sent := s.sent + [SentKey(icid, sequence, s.useSyncMode)])
  }

  /** The calls change nothing but the flags, and never clear `sync`. */
  predicate OnlyActed(s: State, t: State) {
    && t == s.(sync := t.sync, imSync := t.imSync, useSyncMode := t.useSyncMode, useSyncEvent := t.useSyncEvent,
               sent := t.sent)
    && (s.sync ==> t.sync)
  }

  /** One call of the library; contexts that are not in `live` are another client's. */
  function Act(s: State, a: Action): (t: State)
    ensures OnlyActed(s, t)
  {
    match a
    case SendBack(icid) => if icid in s.live then SendKey(s, icid, s.live[icid].sequence) else s
    case SendBackAs(icid, sequence) => if icid in s.live then SendKey(s, icid, sequence) else s
    case SyncXlib(icid) => s.(imSync := true, sent := if icid in s.live then s.sent + [SentSync(icid)] else s.sent)
    case SetSyncMode(on) => s.(useSyncMode := on)
    case SetSyncEvent(on) => s.(useSyncEvent := on)
  }

  function Perform(s: State, acts: seq<Action>): (t: State)
    ensures OnlyActed(s, t)
    decreases |acts|
  {
    hide Act;
    if acts == [] then s else Perform(Act(s, acts[0]), acts[1..])
  }

  /** im->callback. */
  function Callback(app: App, s: State): (t: State)
    ensures OnlyActed(s.(calls := s.calls + 1), t)
  {
    Perform(s.(calls := s.calls + 1), app.react(s.calls))
  }

  // ----------------------------------------------------------- the handlers

  function Handed(s: State, ev: Ev): State
    requires ev.key.icid in s.live
  {
    s.(done := s.done + [Done(ev, Some(s.live[ev.key.icid].gen), |s.destroyed|)])
  }

  function Dropped(s: State, ev: Ev): State {
    s.(done := s.done + [Done(ev, None, |s.destroyed|)])
  }

  /** The first waiting event is taken up. */
  function TakeUp(app: App, s: State): State
    requires s.queue != []
  {
    var ev, r := s.queue[0], s.(queue := s.queue[1..]);
    if ev.key.icid in s.live then Callback(app, Handed(r, ev)) else Dropped(r, ev)
  }

  /** _xcb_im_process_queue. */
  function Process(app: App, s: State): (t: State)
    ensures (t.sync || t.queue == []) && t.ids == s.ids
    decreases |s.queue|
  {
    if s.sync || s.queue == [] then s else Process(app, TakeUp(app, s))
  }

  /** A key event for a live context, its number being noted there. */
  function Arrive(s: State, key: Key): State
    requires key.icid in s.live
  {
    s.(live := s.live[key.icid := s.live[key.icid].(sequence := key.sequence)],
       arrived := s.arrived + [Ev(key, s.live[key.icid].gen, |s.destroyed|)])
  }

  /** The XIM_SYNC_REPLY that a synchronous event gets when it is handled at once. */
  function Answer(s: State, icid: nat): State {
    if s.useSyncEvent then s.(sent := s.sent + [SentAnswer(icid)]) else s
  }

  /** _xcb_im_handle_forward_event, past the checks of the message. */
  function Forwarded(app: App, s: State, key: Key): State
    requires key.icid in s.live
  {
    var r, ev := Arrive(s, key), Ev(key, s.live[key.icid].gen, |s.destroyed|);
    if s.sync then r.(queue := r.queue + [ev]) else Answer(Callback(app, Handed(r, ev)), key.icid)
  }

  /** _xcb_im_handle_ext_forward_keyevent, past the checks of the message. */
  function ExtForwarded(app: App, s: State, key: Key): State
    requires key.icid in s.live
  {
    Callback(app, s.(ext := s.ext + [Ev(key, s.live[key.icid].gen, |s.destroyed|)]))
  }

  /** _xcb_im_handle_sync_reply up to the queue. */
  function Released(app: App, s: State): State {
    var r := s.(sync := false, imSync := false);
    if s.imSync then Callback(app, r) else r
  }

  /** Where the context with an id stands among the live ones. */
  function IndexOf(s: seq<nat>, x: nat): (i: nat)
    ensures i <= |s| && (i < |s| ==> s[i] == x) && (x in s ==> i < |s|)
  {
    if s == [] || s[0] == x then 0 else 1 + IndexOf(s[1..], x)
  }

  /** A context is made unless all ids are live. */
  function Created(s: State): State
    requires s.ids.counter <= IcIds.MAX_ID
  {
    var ids := IcIds.Step(s.ids, IcIds.Create);
    if |ids.live| == |s.ids.live| then Fail(s.(ids := ids))
    else s.(ids := ids, live := s.live[ids.live[|ids.live| - 1] := Ic(s.made, 0)], made := s.made + 1)
  }

  function Destroyed(s: State, icid: nat): State
    requires s.ids.counter <= IcIds.MAX_ID
  {
    s.(ids := IcIds.Step(s.ids, IcIds.Destroy(IndexOf(s.ids.live, icid))), live := s.live - {icid},
       destroyed := s.destroyed + [icid])
  }

  function Fail(s: State): State {
    s.(sent := s.sent + [SentError])
  }

  function Forwarding(app: App, s: State, connect: nat, words: nat, key: Key): (t: State)
    ensures t.ids == s.ids
  {
    if 4 * words < FORWARD_SIZE then Fail(s)
    else if connect != app.connectId || 4 * words < FORWARD_SIZE + KEY_EVENT_SIZE || key.icid !in s.live then s
    else Forwarded(app, s, key)
  }

  function ExtForwarding(app: App, s: State, connect: nat, words: nat, key: Key): (t: State)
    ensures t.ids == s.ids
  {
    if 4 * words < EXT_FORWARD_SIZE then Fail(s)
    else if connect != app.connectId || key.icid !in s.live then s
    else ExtForwarded(app, s, key)
  }

  function Replying(app: App, s: State, connect: nat, words: nat, icid: nat): (t: State)
    ensures t.ids == s.ids
  {
    if 4 * words < SYNC_REPLY_SIZE then Fail(s)
    else if connect != app.connectId || icid !in s.live then s
    else Process(app, Released(app, s))
  }

  /** One message of the client, an answer of another client, or calls by the application. */
  function Step(app: App, s: State, msg: Msg): (t: State)
    requires s.ids.counter <= IcIds.MAX_ID
    ensures t.ids.counter <= IcIds.MAX_ID
  {
    hide Forwarding, ExtForwarding, Replying, Perform;
    match msg
    case Forward(connect, words, key) => Forwarding(app, s, connect, words, key)
    case ExtForward(connect, words, key) => ExtForwarding(app, s, connect, words, key)
    case SyncReply(connect, words, icid) => Replying(app, s, connect, words, icid)
    case CreateIc(connect) =>
      if connect != app.connectId then Fail(s) else Created(s)
    case DestroyIc(connect, icid) =>
      if connect != app.connectId || icid !in s.live then Fail(s) else Destroyed(s, icid)
    case OtherSyncReply => s.(imSync := false)
    case Acts(acts) => Perform(s, acts)
  }

  // ------------------------------------------------------- contexts and ids

  /** The table holds the ids that the allocator says are live. */
  ghost predicate IdsMatch(s: State) {
    IcIds.Ok(s.ids) && s.ids.counter <= IcIds.MAX_ID && forall id :: id in s.live <==> id in s.ids.live
  }

  lemma LastOfCreate(s: IcIds.State)
    requires s.counter <= IcIds.MAX_ID
    ensures var t := IcIds.Step(s, IcIds.Create);
            t.live == s.live || (t.live != [] && t.live == s.live + [t.live[|t.live| - 1]])
  {
  }

  /** A create that succeeds takes an id that is not live. */
  lemma CreatedIsNew(s: State) returns (id: nat)
    requires IdsMatch(s)
    ensures var t := Created(s);
            && IdsMatch(t) && t == s.(ids := t.ids, live := t.live, made := t.made, sent := t.sent)
            && if t.made == s.made then t.live == s.live && t.sent == s.sent + [SentError]
               else && t.made == s.made + 1 && t.sent == s.sent
                    && id !in s.live && t.live == s.live[id := Ic(s.made, 0)]
  {
    hide IcIds.Step, IcIds.Ok;
    LastOfCreate(s.ids);
    IcIds.StepKeepsIds(s.ids, IcIds.Create);
    var t := IcIds.Step(s.ids, IcIds.Create);
    IcIds.Bounded(t);
    IcIds.LiveDistinct(t);
    id := 0;
    if t.live != s.ids.live {
      id := t.live[|t.live| - 1];
      assert forall i :: 0 <= i < |s.ids.live| ==> s.ids.live[i] == t.live[i];
    }
  }

  lemma DestroyedIsGone(s: State, icid: nat)
    requires IdsMatch(s) && icid in s.live
    ensures IdsMatch(Destroyed(s, icid))
  {
    hide IcIds.Ok;
    var i := IndexOf(s.ids.live, icid);
    var t := IcIds.Step(s.ids, IcIds.Destroy(i));
    IcIds.StepKeepsIds(s.ids, IcIds.Destroy(i));
    IcIds.Bounded(t);
    IcIds.LiveDistinct(s.ids);
    forall id
      ensures id in t.live <==> id in s.ids.live && id != icid
    {
      if id in s.ids.live && id != icid {
        var k :| 0 <= k < |s.ids.live| && s.ids.live[k] == id;
        assert t.live[if k < i then k else k - 1] == id;
      }
    }
  }

  // ------------------------------------------------------- order of delivery

  function Events(done: seq<Done>): (evs: seq<Ev>)
    ensures |evs| == |done| && forall i :: 0 <= i < |done| ==> evs[i] == done[i].ev
  {
    if done == [] then [] else Events(done[..|done| - 1]) + [done[|done| - 1].ev]
  }

  lemma EventsAdd(done: seq<Done>, d: Done)
    ensures Events(done + [d]) == Events(done) + [d.ev]
  {
    assert (done + [d])[..|done|] == done;
  }

  /** What has arrived is what is over, followed by what waits. */
  ghost predicate InOrder(s: State) {
    s.arrived == Events(s.done) + s.queue
  }

  /** Taking up waiting events changes nothing about the contexts. */
  ghost predicate SameContexts(s: State, t: State) {
    && t.ids == s.ids && t.live == s.live && t.made == s.made && t.destroyed == s.destroyed
    && t.arrived == s.arrived && t.ext == s.ext
  }

  /** What becomes of an event that is taken up. */
  function Fate(s: State, ev: Ev): Done {
    Done(ev, if ev.key.icid in s.live then Some(s.live[ev.key.icid].gen) else None, |s.destroyed|)
  }

  lemma TakeUpIs(app: App, s: State)
    requires s.queue != []
    ensures var t := TakeUp(app, s);
            SameContexts(s, t) && t.queue == s.queue[1..] && t.done == s.done + [Fate(s, s.queue[0])]
  {
    hide Perform;
  }

  lemma {:induction false} ProcessKeepsOrder(app: App, s: State)
    requires InOrder(s)
    ensures var t := Process(app, s);
            && InOrder(t) && SameContexts(s, t) && s.done <= t.done
            && forall i :: |s.done| <= i < |t.done| ==> t.done[i] == Fate(s, t.done[i].ev)
    decreases |s.queue|
  {
    hide Events, TakeUp;
    if !s.sync && s.queue != [] {
      var t := TakeUp(app, s);
      TakeUpIs(app, s);
      EventsAdd(s.done, Fate(s, s.queue[0]));
      assert Events(s.done) + [s.queue[0]] + s.queue[1..] == Events(s.done) + s.queue;
      ProcessKeepsOrder(app, t);
      assert forall ev :: Fate(t, ev) == Fate(s, ev);
    }
  }

  lemma ReleasedIs(app: App, s: State)
    ensures var t := Released(app, s); SameContexts(s, t) && t.queue == s.queue && t.done == s.done
  {
    hide Perform;
  }

  // ------------------------------------------ the context that gets an event

  /** While no context with its id is destroyed, the id of a waiting event stands for the
      context it was sent to; afterwards never again. */
  ghost predicate Waits(s: State, ev: Ev) {
    && ev.at <= |s.destroyed| && ev.gen < s.made
    && if ev.key.icid in s.destroyed[ev.at..]
       then ev.key.icid in s.live ==> s.live[ev.key.icid].gen != ev.gen
       else ev.key.icid in s.live && s.live[ev.key.icid].gen == ev.gen
  }

  /** An event is handed to the context it was sent to if and only if no context with its id was
      destroyed between its arrival and its end. */
  ghost predicate Right(destroyed: seq<nat>, d: Done) {
    && d.ev.at <= d.until <= |destroyed|
    && (d.to == Some(d.ev.gen) <==> d.ev.key.icid !in destroyed[d.ev.at..d.until])
  }

  ghost predicate Own(s: State) {
    && (forall id :: id in s.live ==> s.live[id].gen < s.made)
    && (forall i :: 0 <= i < |s.arrived| ==> s.arrived[i].gen < s.made)
    && (forall i :: 0 <= i < |s.queue| ==> Waits(s, s.queue[i]))
    && (forall i :: 0 <= i < |s.done| ==> Right(s.destroyed, s.done[i]))
  }

  lemma FateIsRight(s: State, ev: Ev)
    requires Waits(s, ev)
    ensures Right(s.destroyed, Fate(s, ev))
  {
    assert s.destroyed[ev.at..] == s.destroyed[ev.at..|s.destroyed|];
  }

  lemma {:induction false} ProcessKeepsOwn(app: App, s: State)
    requires Own(s)
    ensures Own(Process(app, s))
    decreases |s.queue|
  {
    hide TakeUp, Waits, Right, Fate;
    if !s.sync && s.queue != [] {
      var t := TakeUp(app, s);
      TakeUpIs(app, s);
      FateIsRight(s, s.queue[0]);
      forall i | 0 <= i < |t.queue|
        ensures Waits(t, t.queue[i])
      {
        WaitsOn(s, t, s.queue[i + 1]);
      }
      ProcessKeepsOwn(app, t);
    }
  }

  /** Waiting is about the generations of the live contexts only. */
  lemma WaitsOn(s: State, t: State, ev: Ev)
    requires Waits(s, ev) && t.destroyed == s.destroyed && s.made <= t.made
    requires ev.key.icid in s.live ==> ev.key.icid in t.live && t.live[ev.key.icid].gen == s.live[ev.key.icid].gen
    requires ev.key.icid in t.live && ev.key.icid !in s.live ==> t.live[ev.key.icid].gen == s.made
    ensures Waits(t, ev)
  {
  }

  lemma ForwardedIs(app: App, s: State, key: Key)
    requires key.icid in s.live
    ensures var t, ev := Forwarded(app, s, key), Ev(key, s.live[key.icid].gen, |s.destroyed|);
            && t.ids == s.ids && t.made == s.made && t.destroyed == s.destroyed && t.ext == s.ext
            && t.live == s.live[key.icid := Ic(ev.gen, key.sequence)] && t.arrived == s.arrived + [ev]
            && if s.sync then t.sync && t.queue == s.queue + [ev] && t.done == s.done
               else t.queue == s.queue && t.done == s.done + [Fate(s, ev)]
  {
    hide Perform;
  }

  lemma NothingSince(s: State, key: Key)
    requires Own(s) && key.icid in s.live
    ensures var ev := Ev(key, s.live[key.icid].gen, |s.destroyed|);
            Waits(s, ev) && Right(s.destroyed, Fate(s, ev))
  {
    var ev := Ev(key, s.live[key.icid].gen, |s.destroyed|);
    FateIsRight(s, ev);
  }

  lemma ForwardedKeepsOwn(app: App, s: State, key: Key)
    requires Own(s) && key.icid in s.live
    ensures Own(Forwarded(app, s, key))
  {
    hide Forwarded, Waits, Right, Fate;
    var t := Forwarded(app, s, key);
    ForwardedIs(app, s, key);
    NothingSince(s, key);
    forall i | 0 <= i < |t.queue|
      ensures Waits(t, t.queue[i])
    {
      WaitsOn(s, t, t.queue[i]);
    }
  }

  lemma CreatedKeepsOwn(s: State)
    requires Own(s) && IdsMatch(s)
    ensures Own(Created(s))
  {
    hide Waits, Right, IcIds.Ok, Created;
    var id := CreatedIsNew(s);
    var t := Created(s);
    forall i | 0 <= i < |t.queue|
      ensures Waits(t, t.queue[i])
    {
      WaitsOn(s, t, t.queue[i]);
    }
  }

  lemma DestroyedKeepsOwn(s: State, icid: nat)
    requires Own(s) && IdsMatch(s) && icid in s.live
    ensures Own(Destroyed(s, icid))
  {
    hide Waits, Right, IcIds.Ok, IcIds.Step;
    var t := Destroyed(s, icid);
    forall i | 0 <= i < |t.queue|
      ensures Waits(t, t.queue[i])
    {
      WaitsAfterDestroy(s, t, icid, t.queue[i]);
    }
    forall i | 0 <= i < |t.done|
      ensures Right(t.destroyed, t.done[i])
    {
      RightAfterDestroy(s.destroyed, icid, t.done[i]);
    }
  }

  lemma WaitsAfterDestroy(s: State, t: State, icid: nat, ev: Ev)
    requires Waits(s, ev) && t.live == s.live - {icid} && t.destroyed == s.destroyed + [icid] && t.made == s.made
    ensures Waits(t, ev)
  {
    assert t.destroyed[ev.at..] == s.destroyed[ev.at..] + [icid];
  }

  lemma RightAfterDestroy(destroyed: seq<nat>, icid: nat, d: Done)
    requires Right(destroyed, d)
    ensures Right(destroyed + [icid], d)
  {
    assert (destroyed + [icid])[d.ev.at..d.until] == destroyed[d.ev.at..d.until];
  }

  // ------------------------------------------------------ sequence numbers

  /** The number of the last event that arrived for a context, 0 before the first. */
  function Newest(arrived: seq<Ev>, icid: nat, gen: nat): nat {
    if arrived == [] then 0
    else
      var ev := arrived[|arrived| - 1];
      if ev.key.icid == icid && ev.gen == gen then ev.key.sequence
      else Newest(arrived[..|arrived| - 1], icid, gen)
  }

  /** forward_event_sequence is the number of the newest event, even while older ones wait. */
  ghost predicate Numbered(s: State) {
    forall id :: id in s.live ==> s.live[id].sequence == Newest(s.arrived, id, s.live[id].gen)
  }

  lemma {:induction false} NoneArrived(arrived: seq<Ev>, icid: nat, gen: nat)
    requires forall i :: 0 <= i < |arrived| ==> arrived[i].gen < gen
    ensures Newest(arrived, icid, gen) == 0
  {
    if arrived != [] {
      NoneArrived(arrived[..|arrived| - 1], icid, gen);
    }
  }

  /** So it is when the callback is called with the event. */
  lemma ArrivedIsNumbered(s: State, key: Key)
    requires Numbered(s) && key.icid in s.live
    ensures Numbered(Arrive(s, key))
  {
    assert Arrive(s, key).arrived[..|s.arrived|] == s.arrived;
  }

  lemma ForwardedIsNumbered(app: App, s: State, key: Key)
    requires Numbered(s) && key.icid in s.live
    ensures Numbered(Forwarded(app, s, key))
  {
    hide Forwarded, Newest;
    ForwardedIs(app, s, key);
    ArrivedIsNumbered(s, key);
  }

  lemma CreatedIsNumbered(s: State)
    requires Numbered(s) && Own(s) && IdsMatch(s)
    ensures Numbered(Created(s))
  {
    hide Waits, Right, IcIds.Ok, Created, Newest;
    var id := CreatedIsNew(s);
    NoneArrived(s.arrived, id, s.made);
  }

  // ------------------------------------------------------------------- runs

  /** Nothing waits unless an answer is outstanding. */
  ghost predicate Ok(s: State) {
    IdsMatch(s) && InOrder(s) && (s.sync || s.queue == []) && Own(s) && Numbered(s)
  }

  /** What a message can do to the histories. */
  ghost predicate Extends(app: App, s: State, msg: Msg, t: State) {
    && s.done <= t.done && s.arrived <= t.arrived && s.ext <= t.ext
    && t.destroyed == s.destroyed
         + if msg.DestroyIc? && msg.connect == app.connectId && msg.icid in s.live then [msg.icid] else []
  }

  lemma SameKeepsOk(s: State, t: State)
    requires Ok(s) && SameContexts(s, t.(ext := s.ext)) && t.queue == s.queue && t.done == s.done
    requires s.sync ==> t.sync
    ensures Ok(t)
  {
    hide Events, Newest, Right, IcIds.Ok;
  }

  lemma ForwardedKeepsOk(app: App, s: State, key: Key)
    requires Ok(s) && key.icid in s.live
    ensures var t := Forwarded(app, s, key);
            Ok(t) && s.done <= t.done && s.arrived <= t.arrived && s.ext == t.ext && t.destroyed == s.destroyed
  {
    hide Forwarded, Events, Newest, Waits, Right, Own, Numbered, IcIds.Ok;
    ForwardedIs(app, s, key);
    ForwardedKeepsOwn(app, s, key);
    ForwardedIsNumbered(app, s, key);
    var ev := Ev(key, s.live[key.icid].gen, |s.destroyed|);
    EventsAdd(s.done, Fate(s, ev));
    assert Events(s.done) + s.queue + [ev] == Events(s.done) + (s.queue + [ev]);
  }

  lemma SyncReplyKeepsOk(app: App, s: State)
    requires Ok(s)
    ensures var t := Process(app, Released(app, s)); Ok(t) && s.done <= t.done && SameContexts(s, t)
  {
    hide Events, Newest, Waits, Right, Released, Process, IcIds.Ok;
    var r := Released(app, s);
    ReleasedIs(app, s);
    ReleasedIsOwn(s, r);
    ProcessKeepsOrder(app, r);
    ProcessKeepsOwn(app, r);
  }

  lemma ReleasedIsOwn(s: State, r: State)
    requires Own(s) && SameContexts(s, r) && r.queue == s.queue && r.done == s.done
    ensures Own(r)
  {
  }

  lemma FewerNumbered(s: State, t: State)
    requires Numbered(s) && t.arrived == s.arrived
    requires forall id :: id in t.live ==> id in s.live && t.live[id] == s.live[id]
    ensures Numbered(t)
  {
  }

  lemma CreatedKeepsOk(s: State)
    requires Ok(s)
    ensures var t := Created(s);
            Ok(t) && t == s.(ids := t.ids, live := t.live, made := t.made, sent := t.sent)
  {
    hide Events, Newest, Waits, Right, Own, Numbered, IdsMatch, Created;
    var id := CreatedIsNew(s);
    CreatedKeepsOwn(s);
    CreatedIsNumbered(s);
  }

  lemma DestroyedKeepsOk(s: State, icid: nat)
    requires Ok(s) && icid in s.live
    ensures s.ids.counter <= IcIds.MAX_ID && Ok(Destroyed(s, icid))
  {
    hide Events, Newest, Waits, Right, Own, Numbered, IcIds.Ok, IcIds.Step;
    DestroyedIsGone(s, icid);
    DestroyedKeepsOwn(s, icid);
    FewerNumbered(s, Destroyed(s, icid));
  }

  lemma ExtForwardedKeepsOk(app: App, s: State, key: Key)
    requires Ok(s) && key.icid in s.live
    ensures var t := ExtForwarded(app, s, key);
            && Ok(t) && SameContexts(s, t.(ext := s.ext)) && t.queue == s.queue && t.done == s.done
            && t.ext == s.ext + [Ev(key, s.live[key.icid].gen, |s.destroyed|)]
  {
    hide Perform, Events, Ok;
    SameKeepsOk(s, ExtForwarded(app, s, key));
  }

  lemma KeysKeepOk(app: App, s: State, msg: Msg)
    requires Ok(s) && (msg.Forward? || msg.ExtForward?)
    ensures Ok(Step(app, s, msg)) && Extends(app, s, msg, Step(app, s, msg))
  {
    hide Events, Ok, Forwarded, ExtForwarded;
    SameKeepsOk(s, Fail(s));
    if msg.key.icid in s.live {
      ForwardedKeepsOk(app, s, msg.key);
      ExtForwardedKeepsOk(app, s, msg.key);
    }
  }

  lemma StepKeepsOk(app: App, s: State, msg: Msg)
    requires Ok(s)
    ensures Ok(Step(app, s, msg)) && Extends(app, s, msg, Step(app, s, msg))
  {
    hide Events, InOrder, Own, Numbered, IcIds.Ok, Perform, Process, Released, Created;
    SameKeepsOk(s, Fail(s));
    match msg {
      case Forward(_, _, _) =>
        KeysKeepOk(app, s, msg);
      case ExtForward(_, _, _) =>
        KeysKeepOk(app, s, msg);
      case SyncReply(_, _, _) =>
        SyncReplyKeepsOk(app, s);
      case CreateIc(_) =>
        CreatedKeepsOk(s);
      case DestroyIc(_, icid) =>
        if icid in s.live {
          DestroyedKeepsOk(s, icid);
        }
      case OtherSyncReply =>
        SameKeepsOk(s, s.(imSync := false));
      case Acts(acts) =>
        SameKeepsOk(s, Perform(s, acts));
    }
  }

  function Run(app: App, s: State, msgs: seq<Msg>): State
    requires s.ids.counter <= IcIds.MAX_ID
    decreases |msgs|
  {
    if msgs == [] then s else Run(app, Step(app, s, msgs[0]), msgs[1..])
  }

  lemma StartOk()
    ensures Ok(Start())
  {
    IcIds.NothingIssued();
  }

  lemma {:induction false} RunKeepsOk(app: App, s: State, msgs: seq<Msg>)
    requires Ok(s)
    ensures s.ids.counter <= IcIds.MAX_ID && Ok(Run(app, s, msgs)) && s.done <= Run(app, s, msgs).done
    decreases |msgs|
  {
    hide Step, Events, Newest, Own, Numbered, InOrder;
    if msgs != [] {
      StepKeepsOk(app, s, msgs[0]);
      RunKeepsOk(app, Step(app, s, msgs[0]), msgs[1..]);
    }
  }

  /** Over every run: with `sync` clear nothing waits; the events are taken up in the order of
      their arrival, each once, and what is over stays as it was. */
  lemma RunKeepsOrder(app: App, s: State, msgs: seq<Msg>)
    requires Ok(s)
    ensures s.ids.counter <= IcIds.MAX_ID
    ensures var t := Run(app, s, msgs);
            && (!t.sync ==> t.queue == []) && t.arrived == Events(t.done) + t.queue && s.done <= t.done
            && forall i :: 0 <= i < |t.done| ==> t.done[i].ev == t.arrived[i]
  {
    hide Run, Events, Own, Numbered, IdsMatch;
    RunKeepsOk(app, s, msgs);
  }

  /** Over every run, in which `destroyed` lists the ids given up: an event is handed to the
      context it was sent to if and only if no context with its id was destroyed between its
      arrival and the time it was taken up. */
  lemma RunReachesOwnContext(app: App, s: State, msgs: seq<Msg>)
    requires Ok(s)
    ensures s.ids.counter <= IcIds.MAX_ID
    ensures var t := Run(app, s, msgs);
            forall i :: 0 <= i < |t.done| ==>
              var d := t.done[i];
              && d.ev.at <= d.until <= |t.destroyed|
              && (d.to == Some(d.ev.gen) <==> d.ev.key.icid !in t.destroyed[d.ev.at..d.until])
  {
    hide Run, Events, Numbered, IdsMatch;
    RunKeepsOk(app, s, msgs);
  }

  lemma ReplyFates(app: App, s: State, i: nat)
    requires InOrder(s) && i >= |s.done|
    ensures var t := Process(app, Released(app, s));
            i < |t.done| ==> t.done[i].to == Fate(s, t.done[i].ev).to
  {
    hide Events, Process, Released;
    ReleasedIs(app, s);
    ProcessKeepsOrder(app, Released(app, s));
  }

  /** An event is dropped exactly when no live context has its id at the time it is taken up;
      one that has it gets the event, its own or not. */
  lemma DropsOnlyGone(app: App, s: State, msg: Msg, i: nat)
    requires Ok(s) && |s.done| <= i < |Step(app, s, msg).done|
    ensures var d := Step(app, s, msg).done[i];
            d.to == if d.ev.key.icid in s.live then Some(s.live[d.ev.key.icid].gen) else None
  {
    hide Events, Perform, Process, Released, Created, Forwarded, ExtForwarded, Own, Numbered, InOrder, IcIds.Ok;
    match msg {
      case Forward(_, _, key) =>
        if key.icid in s.live {
          ForwardedIs(app, s, key);
        }
      case ExtForward(_, _, key) =>
        if key.icid in s.live {
          ExtForwardedKeepsOk(app, s, key);
        }
      case SyncReply(_, _, _) =>
        ReplyFates(app, s, i);
      case CreateIc(_) =>
        var id := CreatedIsNew(s);
      case _ =>
    }
  }

  /** A key of the extension is handed over at once, past whatever waits. */
  lemma ExtOvertakes(app: App, s: State, words: nat, key: Key)
    requires Ok(s) && key.icid in s.live && 4 * words >= EXT_FORWARD_SIZE
    ensures var t := Step(app, s, ExtForward(app.connectId, words, key));
            && t.ext == s.ext + [Ev(key, s.live[key.icid].gen, |s.destroyed|)]
            && t.queue == s.queue && t.done == s.done
  {
    hide Ok, ExtForwarded;
    ExtForwardedKeepsOk(app, s, key);
  }

  /** The application never turns sync mode on. */
  predicate Calm(acts: seq<Action>) {
    forall i :: 0 <= i < |acts| ==> acts[i] != SetSyncMode(true)
  }

  predicate CalmMsg(msg: Msg) {
    msg.Acts? ==> Calm(msg.acts)
  }

  lemma {:induction false} CalmPerform(s: State, acts: seq<Action>)
    requires Calm(acts) && !s.sync && !s.useSyncMode
    ensures !Perform(s, acts).sync && !Perform(s, acts).useSyncMode
    decreases |acts|
  {
    if acts != [] {
      CalmPerform(Act(s, acts[0]), acts[1..]);
    }
  }

  lemma CalmStep(app: App, s: State, msg: Msg)
    requires Ok(s) && !s.sync && !s.useSyncMode && CalmMsg(msg) && forall n :: Calm(app.react(n))
    ensures !Step(app, s, msg).sync && !Step(app, s, msg).useSyncMode
  {
    hide Perform, Calm, Own, Numbered, Created, OnlyActed;
    match msg {
      case Forward(_, _, key) =>
        if key.icid in s.live {
          var r := Arrive(s, key);
          var h := Handed(r, Ev(key, s.live[key.icid].gen, |s.destroyed|));
          CalmPerform(h.(calls := s.calls + 1), app.react(s.calls));
        }
      case ExtForward(_, _, key) =>
        if key.icid in s.live {
          var r := s.(ext := s.ext + [Ev(key, s.live[key.icid].gen, |s.destroyed|)]);
          CalmPerform(r.(calls := s.calls + 1), app.react(s.calls));
        }
      case SyncReply(_, _, _) =>
        var r := s.(sync := false, imSync := false);
        CalmPerform(r.(calls := s.calls + 1), app.react(s.calls));
        ReleasedIs(app, s);
      case CreateIc(_) =>
        var id := CreatedIsNew(s);
      case Acts(acts) =>
        CalmPerform(s, acts);
      case _ =>
    }
  }

  /** Without sync mode no event ever waits. */
  lemma {:induction false} NoSyncNoQueue(app: App, s: State, msgs: seq<Msg>)
    requires Ok(s) && !s.sync && !s.useSyncMode
    requires (forall n :: Calm(app.react(n))) && forall i :: 0 <= i < |msgs| ==> CalmMsg(msgs[i])
    ensures s.ids.counter <= IcIds.MAX_ID && !Run(app, s, msgs).sync && Run(app, s, msgs).queue == []
    decreases |msgs|
  {
    hide Events, Step, CalmMsg, Calm, Own, Numbered;
    if msgs != [] {
      StepKeepsOk(app, s, msgs[0]);
      CalmStep(app, s, msgs[0]);
      NoSyncNoQueue(app, Step(app, s, msgs[0]), msgs[1..]);
    }
  }

  // ------------------------------------------------------ release of the queue

  /** A sync reply that the handler does not refuse. */
  predicate Accepted(app: App, s: State, msg: Msg) {
    msg.SyncReply? && msg.connect == app.connectId && 4 * msg.words >= SYNC_REPLY_SIZE && msg.icid in s.live
  }

  lemma {:induction false} ProcessTakesUp(app: App, s: State)
    requires !s.sync && s.queue != []
    ensures |Process(app, s).done| > |s.done|
    decreases |s.queue|
  {
    hide TakeUp;
    var t := TakeUp(app, s);
    TakeUpIs(app, s);
    if !t.sync && t.queue != [] {
      ProcessTakesUp(app, t);
    }
  }

  /** While events wait, a message lets one of them go if and only if it is a sync reply of a live
      context and the callback that it may cause does not send a key back; then either none waits
      any more or another answer is outstanding. */
  lemma ReleasesExactlyOnReply(app: App, s: State, msg: Msg)
    requires Ok(s) && s.queue != []
    ensures var t := Step(app, s, msg);
            && (|t.done| > |s.done| <==> Accepted(app, s, msg) && !Released(app, s).sync)
            && (|t.done| > |s.done| ==> t.sync || t.queue == [])
  {
    hide Perform, InOrder, Own, Numbered, Process, Created, Forwarded, Released;
    match msg {
      case Forward(_, _, key) =>
        if key.icid in s.live {
          ForwardedIs(app, s, key);
        }
      case SyncReply(_, _, _) =>
        ReplyReleases(app, s);
      case CreateIc(_) =>
        var id := CreatedIsNew(s);
      case _ =>
    }
  }

  lemma ReplyReleases(app: App, s: State)
    requires s.queue != []
    ensures var t := Process(app, Released(app, s)); |t.done| > |s.done| <==> !Released(app, s).sync
  {
    hide Released;
    var r := Released(app, s);
    ReleasedIs(app, s);
    if !r.sync {
      ProcessTakesUp(app, r);
    }
  }

  /** Calls that send no key back. */
  predicate Quiet(acts: seq<Action>) {
    forall i :: 0 <= i < |acts| ==> !acts[i].SendBack? && !acts[i].SendBackAs?
  }

  lemma {:induction false} QuietPerform(s: State, acts: seq<Action>)
    requires Quiet(acts)
    ensures Perform(s, acts).sync == s.sync
    decreases |acts|
  {
    if acts != [] {
      QuietPerform(Act(s, acts[0]), acts[1..]);
    }
  }

  lemma QuietCallback(app: App, s: State)
    requires forall n :: Quiet(app.react(n))
    ensures Callback(app, s).sync == s.sync
  {
    hide Perform, Quiet, OnlyActed;
    QuietPerform(s.(calls := s.calls + 1), app.react(s.calls));
  }

  lemma {:induction false} ProcessDrains(app: App, s: State)
    requires !s.sync && forall n :: Quiet(app.react(n))
    ensures Process(app, s).queue == []
    decreases |s.queue|
  {
    hide Callback, Quiet, OnlyActed;
    if s.queue != [] {
      var ev, r := s.queue[0], s.(queue := s.queue[1..]);
      TakeUpIs(app, s);
      if ev.key.icid in s.live {
        QuietCallback(app, Handed(r, ev));
      }
      ProcessDrains(app, TakeUp(app, s));
    }
  }

  /** When the callback sends no key back, such a reply lets all waiting events go. */
  lemma ReplyDrains(app: App, s: State, msg: Msg)
    requires Ok(s) && Accepted(app, s, msg) && forall n :: Quiet(app.react(n))
    ensures var t := Step(app, s, msg); t.queue == [] && Events(t.done) == s.arrived
  {
    hide Callback, Quiet, OnlyActed, Events, Process, Own, Numbered, IdsMatch;
    QuietCallback(app, s.(sync := false, imSync := false));
    ProcessDrains(app, Released(app, s));
    ReleasedIs(app, s);
    ProcessKeepsOrder(app, Released(app, s));
  }

  // ------------------------------------------------- what the client is sent

  /** The library calls, in the callback or later, leave the numbers as they are. */
  lemma PerformIsNumbered(s: State, acts: seq<Action>)
    requires Numbered(s)
    ensures Numbered(Perform(s, acts))
  {
    hide Perform, Newest;
  }

  /** The number that xcb_im_forward_event sends back with an event of a context that is still
      there, after whatever other calls: the event's own if and only if it is that of the newest
      event there. */
  lemma SendsNewestNumber(s: State, acts: seq<Action>, ev: Ev)
    requires Numbered(s) && ev.key.icid in s.live && s.live[ev.key.icid].gen == ev.gen
    ensures var t := Perform(s, acts);
            Act(t, SendBack(ev.key.icid)).sent == t.sent + [SentKey(ev.key.icid, ev.key.sequence, t.useSyncMode)]
            <==> Newest(s.arrived, ev.key.icid, ev.gen) == ev.key.sequence
  {
    hide Perform, Newest;
    var t := Perform(s, acts);
    PerformIsNumbered(s, acts);
    assert Act(t, SendBack(ev.key.icid)).sent[|t.sent|]
        == SentKey(ev.key.icid, Newest(s.arrived, ev.key.icid, ev.gen), t.useSyncMode);
  }

  predicate Counts(x: Sent, errors: bool) {
    if errors then x.SentError? else x.SentAnswer?
  }

  /** How many errors, or answers, have been sent. */
  function Tally(sent: seq<Sent>, errors: bool): nat {
    if sent == [] then 0
    else Tally(sent[..|sent| - 1], errors) + if Counts(sent[|sent| - 1], errors) then 1 else 0
  }

  lemma TallyAdd(sent: seq<Sent>, x: Sent, errors: bool)
    ensures Tally(sent + [x], errors) == Tally(sent, errors) + if Counts(x, errors) then 1 else 0
  {
    assert (sent + [x])[..|sent|] == sent;
  }

  lemma ActSendsNone(s: State, a: Action, errors: bool)
    ensures Tally(Act(s, a).sent, errors) == Tally(s.sent, errors)
  {
    hide Tally, OnlyActed;
    var t := Act(s, a);
    if t.sent != s.sent {
      TallyAdd(s.sent, t.sent[|s.sent|], errors);
    }
  }

  lemma {:induction false} PerformSendsNone(s: State, acts: seq<Action>, errors: bool)
    ensures Tally(Perform(s, acts).sent, errors) == Tally(s.sent, errors)
    decreases |acts|
  {
    hide Tally, Act, OnlyActed;
    if acts != [] {
      ActSendsNone(s, acts[0], errors);
      PerformSendsNone(Act(s, acts[0]), acts[1..], errors);
    }
  }

  lemma CallbackSendsNone(app: App, s: State, errors: bool)
    ensures Tally(Callback(app, s).sent, errors) == Tally(s.sent, errors)
  {
    hide Tally, Perform, OnlyActed;
    PerformSendsNone(s.(calls := s.calls + 1), app.react(s.calls), errors);
  }

  lemma {:induction false} ProcessSendsNone(app: App, s: State, errors: bool)
    ensures Tally(Process(app, s).sent, errors) == Tally(s.sent, errors)
    decreases |s.queue|
  {
    hide Tally, Callback, OnlyActed;
    if !s.sync && s.queue != [] {
      var ev, r := s.queue[0], s.(queue := s.queue[1..]);
      TakeUpIs(app, s);
      if ev.key.icid in s.live {
        CallbackSendsNone(app, Handed(r, ev), errors);
      }
      ProcessSendsNone(app, TakeUp(app, s), errors);
    }
  }

  lemma ForwardedTally(app: App, s: State, key: Key, errors: bool)
    requires key.icid in s.live
    ensures var t := Forwarded(app, s, key);
            Tally(t.sent, errors) == Tally(s.sent, errors) + if !errors && !s.sync && t.useSyncEvent then 1 else 0
  {
    hide Tally, Callback, OnlyActed;
    var h := Handed(Arrive(s, key), Ev(key, s.live[key.icid].gen, |s.destroyed|));
    CallbackSendsNone(app, h, errors);
    TallyAdd(Callback(app, h).sent, SentAnswer(key.icid), errors);
  }

  lemma ReplyTally(app: App, s: State, errors: bool)
    ensures Tally(Process(app, Released(app, s)).sent, errors) == Tally(s.sent, errors)
  {
    hide Tally, Callback, OnlyActed, Process;
    CallbackSendsNone(app, s.(sync := false, imSync := false), errors);
    ProcessSendsNone(app, Released(app, s), errors);
  }

  lemma ForwardTally(app: App, s: State, connect: nat, words: nat, key: Key, errors: bool)
    requires s.sync || s.queue == []
    ensures var t := Forwarding(app, s, connect, words, key);
            Tally(t.sent, errors) == Tally(s.sent, errors)
              + if errors then (if words < 2 then 1 else 0)
                else if |t.arrived| > |s.arrived| && !s.sync && t.useSyncEvent then 1 else 0
  {
    hide Tally, Callback, OnlyActed, Forwarded;
    TallyAdd(s.sent, SentError, errors);
    if key.icid in s.live {
      ForwardedIs(app, s, key);
      ForwardedTally(app, s, key, errors);
    }
  }

  lemma ExtForwardTally(app: App, s: State, connect: nat, words: nat, key: Key, errors: bool)
    ensures Tally(ExtForwarding(app, s, connect, words, key).sent, errors)
         == Tally(s.sent, errors) + if errors && words < 5 then 1 else 0
  {
    hide Tally, Callback, OnlyActed;
    TallyAdd(s.sent, SentError, errors);
    if key.icid in s.live {
      CallbackSendsNone(app, s.(ext := s.ext + [Ev(key, s.live[key.icid].gen, |s.destroyed|)]), errors);
    }
  }

  /** What the client is told of a message besides what the application sends: an answer, or an error. */
  ghost predicate Told(app: App, s: State, msg: Msg, errors: bool)
    requires s.ids.counter <= IcIds.MAX_ID
  {
    var t := Step(app, s, msg);
    if errors then Refused(app, s, msg) else msg.Forward? && |t.arrived| > |s.arrived| && !s.sync && t.useSyncEvent
  }

  /** Messages shorter than their frames, and contexts that cannot be made or are not there. */
  ghost predicate Refused(app: App, s: State, msg: Msg) {
    match msg
    case Forward(_, words, _) => 4 * words < FORWARD_SIZE
    case ExtForward(_, words, _) => 4 * words < EXT_FORWARD_SIZE
    case SyncReply(_, words, _) => 4 * words < SYNC_REPLY_SIZE
    case CreateIc(connect) => connect != app.connectId || |s.ids.live| == 65535
    case DestroyIc(connect, icid) => connect != app.connectId || icid !in s.live
    case _ => false
  }

  lemma StepTally(app: App, s: State, msg: Msg, errors: bool)
    requires Ok(s)
    ensures Tally(Step(app, s, msg).sent, errors)
         == Tally(s.sent, errors) + if Told(app, s, msg, errors) then 1 else 0
  {
    hide Tally, Perform, InOrder, Own, Numbered, OnlyActed, Process, Created, Forwarding, ExtForwarding, Released;
    TallyAdd(s.sent, SentError, errors);
    match msg {
      case Forward(connect, words, key) =>
        ForwardTally(app, s, connect, words, key, errors);
      case ExtForward(connect, words, key) =>
        ExtForwardTally(app, s, connect, words, key, errors);
      case SyncReply(_, _, _) =>
        ReplyTally(app, s, errors);
      case CreateIc(_) =>
        var id := CreatedIsNew(s);
        MadeUnlessFull(s);
      case Acts(acts) =>
        PerformSendsNone(s, acts, errors);
      case _ =>
    }
  }

  lemma MadeUnlessFull(s: State)
    requires IdsMatch(s)
    ensures Created(s).made == s.made <==> |s.ids.live| == 65535
  {
    hide IcIds.Ok, IcIds.Step;
    LastOfCreate(s.ids);
    IcIds.StepKeepsIds(s.ids, IcIds.Create);
  }

  /** A synchronous event is answered when it is handed over on arrival; one that had to wait
      never is. */
  lemma AnswersOnlyAtOnce(app: App, s: State, msg: Msg)
    requires Ok(s)
    ensures var t := Step(app, s, msg);
            Tally(t.sent, false) == Tally(s.sent, false)
              + if msg.Forward? && |t.arrived| > |s.arrived| && !s.sync && t.useSyncEvent then 1 else 0
  {
    hide Ok, Step, Tally;
    StepTally(app, s, msg, false);
  }

  /** An error is sent for exactly these messages: a frame that is too short, a context that is made with
      all ids live or for another client, and one destroyed that is not there. */
  lemma ErrorsExactly(app: App, s: State, msg: Msg)
    requires Ok(s)
    ensures Tally(Step(app, s, msg).sent, true) == Tally(s.sent, true) + if Refused(app, s, msg) then 1 else 0
  {
    hide Ok, Step, Tally, Refused;
    StepTally(app, s, msg, true);
  }

  // ------------------------------------------------ arrival and callbacks

  /** A key arrives exactly when its message has room for the frame and the X event, is for this client
      and for a live context. It is then the newest event there; it waits when an answer is
      outstanding, else the context gets it. */
  lemma ArrivesExactly(app: App, s: State, connect: nat, words: nat, key: Key)
    requires Ok(s)
    ensures var t := Step(app, s, Forward(connect, words, key));
            if connect == app.connectId && words >= 10 && key.icid in s.live then
              var gen := s.live[key.icid].gen;
              var ev := Ev(key, gen, |s.destroyed|);
              && t.arrived == s.arrived + [ev] && t.live == s.live[key.icid := Ic(gen, key.sequence)]
              && if s.sync then t.queue == s.queue + [ev] && t.done == s.done
                 else t.queue == [] && t.done == s.done + [Done(ev, Some(gen), |s.destroyed|)]
            else t == s || t == Fail(s)
  {
    hide Forwarded, InOrder, Own, Numbered, IdsMatch;
    if key.icid in s.live {
      ForwardedIs(app, s, key);
    }
  }

  /** Likewise for the keys of the extension, whose message holds the whole event. */
  lemma ExtArrivesExactly(app: App, s: State, connect: nat, words: nat, key: Key)
    requires Ok(s)
    ensures var t := Step(app, s, ExtForward(connect, words, key));
            if connect == app.connectId && words >= 5 && key.icid in s.live
            then t.ext == s.ext + [Ev(key, s.live[key.icid].gen, |s.destroyed|)] && t.live == s.live
            else t == s || t == Fail(s)
  {
    hide Perform, InOrder, Own, Numbered, IdsMatch;
  }

  /** How many events were handed to a context. */
  function Handings(done: seq<Done>): nat {
    if done == [] then 0 else Handings(done[..|done| - 1]) + if done[|done| - 1].to.Some? then 1 else 0
  }

  lemma HandingsAdd(done: seq<Done>, d: Done)
    ensures Handings(done + [d]) == Handings(done) + if d.to.Some? then 1 else 0
  {
    assert (done + [d])[..|done|] == done;
  }

  /** Callbacks that the events account for. */
  ghost function Unexplained(s: State): int {
    s.calls - Handings(s.done) - |s.ext|
  }

  lemma HandedExplains(app: App, s: State, ev: Ev)
    requires ev.key.icid in s.live
    ensures Unexplained(Callback(app, Handed(s, ev))) == Unexplained(s)
  {
    hide Handings, Callback;
    HandingsAdd(s.done, Done(ev, Some(s.live[ev.key.icid].gen), |s.destroyed|));
  }

  lemma {:induction false} ProcessExplains(app: App, s: State)
    ensures Unexplained(Process(app, s)) == Unexplained(s)
    decreases |s.queue|
  {
    hide Handings, Callback, Unexplained;
    if !s.sync && s.queue != [] {
      var ev, r := s.queue[0], s.(queue := s.queue[1..]);
      OneExplained(app, s, ev, r);
      ProcessExplains(app, TakeUp(app, s));
    }
  }

  lemma OneExplained(app: App, s: State, ev: Ev, r: State)
    requires s.queue != [] && ev == s.queue[0] && r == s.(queue := s.queue[1..])
    ensures Unexplained(TakeUp(app, s)) == Unexplained(s)
    ensures |TakeUp(app, s).queue| < |s.queue|
  {
    hide Handings, Callback;
    TakeUpIs(app, s);
    HandingsAdd(s.done, Done(ev, None, |s.destroyed|));
    if ev.key.icid in s.live {
      HandedExplains(app, r, ev);
    }
  }

  lemma ReleaseExplains(app: App, s: State)
    ensures Unexplained(Process(app, Released(app, s))) == Unexplained(s) + if s.imSync then 1 else 0
  {
    hide Handings, Callback, Process;
    ProcessExplains(app, Released(app, s));
  }

  lemma ForwardExplains(app: App, s: State, key: Key)
    requires key.icid in s.live
    ensures Unexplained(Forwarded(app, s, key)) == Unexplained(s)
    ensures Unexplained(ExtForwarded(app, s, key)) == Unexplained(s)
  {
    hide Handings, Callback;
    if !s.sync {
      HandedExplains(app, Arrive(s, key), Ev(key, s.live[key.icid].gen, |s.destroyed|));
    }
  }

  lemma KeyExplains(app: App, s: State, connect: nat, words: nat, key: Key)
    ensures Unexplained(Forwarding(app, s, connect, words, key)) == Unexplained(s)
    ensures Unexplained(ExtForwarding(app, s, connect, words, key)) == Unexplained(s)
  {
    hide Handings, Forwarded, ExtForwarded;
    if key.icid in s.live {
      ForwardExplains(app, s, key);
    }
  }

  /** The callback for keys and replies is called once for each event handed to a context, once for each
      key of the extension, once for a sync reply after the application has asked for a round trip of
      its own (`imSync`), and at no other time. */
  lemma CallsExactly(app: App, s: State, msg: Msg)
    requires Ok(s)
    ensures var t := Step(app, s, msg);
            t.calls + Handings(s.done) + |s.ext|
            == s.calls + Handings(t.done) + |t.ext| + if Accepted(app, s, msg) && s.imSync then 1 else 0
  {
    hide Handings, Forwarding, ExtForwarding, Released, Process, Created, InOrder, Own, Numbered, Perform;
    match msg {
      case Forward(connect, words, key) => KeyExplains(app, s, connect, words, key);
      case ExtForward(connect, words, key) => KeyExplains(app, s, connect, words, key);
      case SyncReply(_, _, _) => ReleaseExplains(app, s);
      case CreateIc(_) => var id := CreatedIsNew(s);
      case _ =>
    }
  }

  /** The callback for a round trip is owed from the call that asks for it to the next sync reply, be it
      of another client, which gets the callback that way lost. */
  lemma RoundTripOwed(app: App, s: State, icid: nat)
    requires Ok(s) && icid in s.live && s.queue == []
    ensures var asked := Step(app, s, Acts([SyncXlib(icid)]));
            && Ok(asked) && asked.sent == s.sent + [SentSync(icid)]
            && Step(app, asked, SyncReply(app.connectId, 1, icid)).calls == s.calls + 1
            && Step(app, Step(app, asked, OtherSyncReply), SyncReply(app.connectId, 1, icid)).calls == s.calls
  {
    hide Ok, Callback;
    StepKeepsOk(app, s, Acts([SyncXlib(icid)]));
    CounterOk(s);
    assert Perform(s, [SyncXlib(icid)]) == Act(s, SyncXlib(icid));
  }

  lemma CounterOk(s: State)
    requires Ok(s)
    ensures s.ids.counter <= IcIds.MAX_ID
  {
  }

  // ------------------------------------------------------------- witnesses

  lemma RunHead(app: App, s: State, msg: Msg, rest: seq<Msg>)
    requires s.ids.counter <= IcIds.MAX_ID
    ensures Run(app, s, [msg] + rest) == Run(app, Step(app, s, msg), rest)
  {
    assert ([msg] + rest)[1..] == rest;
  }

  /** The only live context is the `gen`-th one made, with id 1. */
  function OneIc(gen: nat, sequence: nat, destroyed: seq<nat>): State {
    Start().(ids := IcIds.State.State([1], [], 1, false), live := map[1 := Ic(gen, sequence)], made := gen + 1,
             destroyed := destroyed)
  }

  /** That context, once a key was sent back to it and two more came, or fewer. */
  function Waiting(gen: nat, sequence: nat, destroyed: seq<nat>, queue: seq<Ev>): State {
    OneIc(gen, sequence, destroyed).(sync := true, queue := queue, arrived := queue, sent := [SentKey(1, 0, true)])
  }

  function Seven(): Ev {
    Ev(Key(1, 7, 0), 0, 0)
  }

  function Eight(): Ev {
    Ev(Key(1, 8, 0), 0, 0)
  }

  lemma MakesFirst(app: App)
    ensures Step(app, Start(), CreateIc(app.connectId)) == OneIc(0, 0, [])
  {
    var ids := IcIds.Step(Start().ids, IcIds.Create);
    assert ids == IcIds.State.State([1], [], 1, false);
  }

  lemma SendsBack(app: App)
    ensures Step(app, OneIc(0, 0, []), Acts([SendBack(1)])) == Waiting(0, 0, [], [])
  {
    var s := OneIc(0, 0, []);
    assert [SendBack(1)][1..] == [];
    assert Perform(s, [SendBack(1)]) == Perform(Act(s, SendBack(1)), []) == Act(s, SendBack(1));
  }

  lemma Queues(app: App, sequence: nat, queue: seq<Ev>, next: nat)
    ensures Step(app, Waiting(0, sequence, [], queue), Forward(app.connectId, 10, Key(1, next, 0)))
         == Waiting(0, next, [], queue + [Ev(Key(1, next, 0), 0, 0)])
  {
    var s := Waiting(0, sequence, [], queue);
    assert s.live[1 := Ic(0, next)] == map[1 := Ic(0, next)];
  }

  lemma UsesIdAgain(app: App)
    ensures var s, c := Waiting(0, 7, [], [Seven()]), app.connectId;
            && Step(app, s, DestroyIc(c, 1)).ids.counter <= IcIds.MAX_ID
            && Step(app, Step(app, s, DestroyIc(c, 1)), CreateIc(c)) == Waiting(1, 0, [1], [Seven()])
  {
    var s, c := Waiting(0, 7, [], [Seven()]), app.connectId;
    var t := s.(ids := IcIds.State.State([], [1], 1, false), live := map[], destroyed := [1]);
    assert IndexOf([1], 1) == 0;
    assert IcIds.Step(s.ids, IcIds.Destroy(0)) == t.ids;
    assert Step(app, s, DestroyIc(c, 1)) == t;
    assert IcIds.Step(t.ids, IcIds.Create) == s.ids;
  }

  lemma TakesUpTheOne(app: App, s: State)
    requires !s.sync && |s.queue| == 1
    ensures Process(app, s).done == s.done + [Fate(s, s.queue[0])] && Process(app, s).queue == []
  {
    hide TakeUp, Fate;
    TakeUpIs(app, s);
  }

  /** The messages up to the first event that waits. */
  function Opening(c: nat): seq<Msg> {
    [CreateIc(c)] + ([Acts([SendBack(1)])] + [Forward(c, 10, Key(1, 7, 0))])
  }

  lemma OpeningRun(app: App, rest: seq<Msg>)
    ensures Run(app, Start(), Opening(app.connectId) + rest) == Run(app, Waiting(0, 7, [], [Seven()]), rest)
  {
    hide Run, Step, Waiting, OneIc, Start;
    var c := app.connectId;
    var tail := [Forward(c, 10, Key(1, 7, 0))] + rest;
    assert Opening(c) + rest == [CreateIc(c)] + ([Acts([SendBack(1)])] + tail);
    InRange();
    RunHead(app, Start(), CreateIc(c), [Acts([SendBack(1)])] + tail);
    MakesFirst(app);
    RunHead(app, OneIc(0, 0, []), Acts([SendBack(1)]), tail);
    SendsBack(app);
    RunHead(app, Waiting(0, 0, [], []), Forward(c, 10, Key(1, 7, 0)), rest);
    Queues(app, 0, [], 7);
    assert [] + [Seven()] == [Seven()];
  }

  lemma InRange()
    ensures Start().ids.counter <= IcIds.MAX_ID
    ensures forall g, n, d :: OneIc(g, n, d).ids.counter <= IcIds.MAX_ID
    ensures forall g, n, d, q :: Waiting(g, n, d, q).ids.counter <= IcIds.MAX_ID
  {
  }

  /** The id of a context goes to the next one made: an event that waits for a destroyed context
      reaches the new one, whatever the callback does. */
  lemma OldEventReachesNewContext(app: App)
    ensures var c := app.connectId;
            var t := Run(app, Start(), Opening(c) + [DestroyIc(c, 1), CreateIc(c), SyncReply(c, 1, 1)]);
            t.done == [Done(Seven(), Some(1), 1)]
  {
    hide Run, Process, Perform, Opening;
    var c := app.connectId;
    var s, u := Waiting(0, 7, [], [Seven()]), Waiting(1, 0, [1], [Seven()]);
    var rest := [DestroyIc(c, 1), CreateIc(c), SyncReply(c, 1, 1)];
    OpeningRun(app, rest);
    assert rest == [DestroyIc(c, 1)] + ([CreateIc(c)] + ([SyncReply(c, 1, 1)] + []));
    UsesIdAgain(app);
    ThreeSteps(app, s, DestroyIc(c, 1), CreateIc(c), SyncReply(c, 1, 1));
    TakesUpTheOne(app, u.(sync := false));
  }

  lemma ThreeSteps(app: App, s: State, a: Msg, b: Msg, c: Msg)
    requires s.ids.counter <= IcIds.MAX_ID
    ensures Run(app, s, [a, b, c]) == Step(app, Step(app, Step(app, s, a), b), c)
  {
    hide Step;
    assert [a, b, c] == [a] + ([b] + ([c] + []));
    RunHead(app, s, a, [b] + ([c] + []));
    RunHead(app, Step(app, s, a), b, [c] + []);
    RunHead(app, Step(app, Step(app, s, a), b), c, []);
  }

  lemma TwoSteps(app: App, s: State, a: Msg, b: Msg)
    requires s.ids.counter <= IcIds.MAX_ID
    ensures Run(app, s, [a, b]) == Step(app, Step(app, s, a), b)
  {
    hide Step;
    assert [a, b] == [a] + ([b] + []);
    RunHead(app, s, a, [b] + []);
    RunHead(app, Step(app, s, a), b, []);
  }

  /** While a newer key waits, an older one goes back under the number of the newer. */
  lemma OldKeyGetsNewNumber(app: App)
    requires app.react(0) == [SendBack(1)]
    ensures var c := app.connectId;
            var t := Run(app, Start(), Opening(c) + [Forward(c, 10, Key(1, 8, 0)), SyncReply(c, 1, 1)]);
            t.done == [Done(Seven(), Some(0), 0)] && t.sent == [SentKey(1, 0, true), SentKey(1, 8, true)]
  {
    hide Run, Opening;
    var c := app.connectId;
    var s, u := Waiting(0, 7, [], [Seven()]), Waiting(0, 8, [], [Seven(), Eight()]);
    OpeningRun(app, [Forward(c, 10, Key(1, 8, 0)), SyncReply(c, 1, 1)]);
    TwoSteps(app, s, Forward(c, 10, Key(1, 8, 0)), SyncReply(c, 1, 1));
    Queues(app, 7, [Seven()], 8);
    assert [Seven()] + [Eight()] == [Seven(), Eight()];
    var v := u.(sync := false);
    assert Step(app, u, SyncReply(c, 1, 1)) == Process(app, v);
    SendsBackSeven(app);
  }

  lemma SendsBackSeven(app: App)
    requires app.react(0) == [SendBack(1)]
    ensures var t := Process(app, Waiting(0, 8, [], [Seven(), Eight()]).(sync := false));
            t.done == [Done(Seven(), Some(0), 0)] && t.sent == [SentKey(1, 0, true), SentKey(1, 8, true)]
  {
    var v := Waiting(0, 8, [], [Seven(), Eight()]).(sync := false);
    var r := Handed(v.(queue := [Eight()]), Seven()).(calls := 1);
    assert v.queue[1..] == [Eight()];
    assert [SendBack(1)][1..] == [];
    assert Perform(r, [SendBack(1)]) == Perform(Act(r, SendBack(1)), []) == Act(r, SendBack(1));
    assert TakeUp(app, v) == Act(r, SendBack(1));
  }

  /** With use_sync_event: the only context, when a key went back to it and another waits. */
  function Synchronous(sequence: nat, queue: seq<Ev>): State {
    Waiting(0, sequence, [], queue).(useSyncEvent := true)
  }

  lemma SynchronousRun(app: App, rest: seq<Msg>)
    ensures var c, acts := app.connectId, [SetSyncEvent(true), SendBack(1)];
            && Run(app, Start(), [CreateIc(c)] + ([Acts(acts)] + ([Forward(c, 10, Key(1, 7, 0))] + rest)))
            == Run(app, Synchronous(7, [Seven()]), rest)
  {
    hide Run, Step, Waiting, OneIc, Start, Synchronous;
    var c, acts := app.connectId, [SetSyncEvent(true), SendBack(1)];
    var key := Forward(c, 10, Key(1, 7, 0));
    InRange();
    RunHead(app, Start(), CreateIc(c), [Acts(acts)] + ([key] + rest));
    MakesFirst(app);
    RunHead(app, OneIc(0, 0, []), Acts(acts), [key] + rest);
    SendsBackSynchronous(app);
    RunHead(app, Synchronous(0, []), key, rest);
    QueuesSynchronous(app);
  }

  lemma SendsBackSynchronous(app: App)
    ensures Synchronous(0, []).ids.counter <= IcIds.MAX_ID
    ensures Step(app, OneIc(0, 0, []), Acts([SetSyncEvent(true), SendBack(1)])) == Synchronous(0, [])
  {
    var s, acts := OneIc(0, 0, []), [SetSyncEvent(true), SendBack(1)];
    var t := s.(useSyncEvent := true);
    assert acts[1..] == [SendBack(1)] && [SendBack(1)][1..] == [];
    assert Perform(t, [SendBack(1)]) == Perform(Act(t, SendBack(1)), []) == Act(t, SendBack(1));
    assert Perform(s, acts) == Perform(Act(s, SetSyncEvent(true)), [SendBack(1)]);
  }

  lemma QueuesSynchronous(app: App)
    ensures Step(app, Synchronous(0, []), Forward(app.connectId, 10, Key(1, 7, 0))) == Synchronous(7, [Seven()])
  {
    var s := Synchronous(0, []);
    assert s.live[1 := Ic(0, 7)] == map[1 := Ic(0, 7)];
  }

  /** A synchronous event that waits: it is handed to its context and never answered, whatever the
      callback does. */
  lemma WaitingEventUnanswered(app: App)
    ensures var c, acts := app.connectId, [SetSyncEvent(true), SendBack(1)];
            var t := Run(app, Start(), [CreateIc(c), Acts(acts), Forward(c, 10, Key(1, 7, 0)), SyncReply(c, 1, 1)]);
            t.done == [Done(Seven(), Some(0), 0)] && t.queue == [] && Tally(t.sent, false) == 0
  {
    hide Run, Step, Synchronous, Tally, Start;
    var c, acts := app.connectId, [SetSyncEvent(true), SendBack(1)];
    var u := Synchronous(7, [Seven()]);
    SynchronousRun(app, [SyncReply(c, 1, 1)]);
    assert [CreateIc(c), Acts(acts), Forward(c, 10, Key(1, 7, 0)), SyncReply(c, 1, 1)]
        == [CreateIc(c)] + ([Acts(acts)] + ([Forward(c, 10, Key(1, 7, 0))] + [SyncReply(c, 1, 1)]));
    HandsOverUnanswered(app);
    OneStep(app, u, SyncReply(c, 1, 1));
  }

  lemma HandsOverUnanswered(app: App)
    ensures var s, t := Synchronous(7, [Seven()]), Process(app, Synchronous(7, [Seven()]).(sync := false));
            && s.ids.counter <= IcIds.MAX_ID && Step(app, s, SyncReply(app.connectId, 1, 1)) == t
            && t.done == [Done(Seven(), Some(0), 0)] && t.queue == [] && Tally(t.sent, false) == 0
  {
    hide Process, Tally;
    var s := Synchronous(7, [Seven()]).(sync := false);
    TakesUpTheOne(app, s);
    ProcessSendsNone(app, s, false);
    NoAnswerYet();
  }

  lemma NoAnswerYet()
    ensures Tally([SentKey(1, 0, true)], false) == 0
  {
    TallyAdd([], SentKey(1, 0, true), false);
    assert [] + [SentKey(1, 0, true)] == [SentKey(1, 0, true)];
  }

  lemma OneStep(app: App, s: State, a: Msg)
    requires s.ids.counter <= IcIds.MAX_ID
    ensures Run(app, s, [a]) == Step(app, s, a)
  {
    hide Step;
    assert [a] == [a] + [];
    RunHead(app, s, a, []);
  }

  /** Two contexts, a key sent back to the first; then a key that waits for the second. */
  function TwoIcs(sequence: nat, queue: seq<Ev>): State {
    Start().(ids := IcIds.State.State([1, 2], [], 2, false), live := map[1 := Ic(0, 0), 2 := Ic(1, sequence)],
             made := 2, sync := true, queue := queue, arrived := queue, sent := [SentKey(1, 0, true)])
  }

  /** The key for the second. */
  function Second(): Ev {
    Ev(Key(2, 7, 0), 1, 0)
  }

  /** The first context is gone. */
  function Blocked(): State {
    TwoIcs(7, [Second()]).(ids := IcIds.State.State([2], [1], 2, false), live := map[2 := Ic(1, 7)], destroyed := [1])
  }

  lemma MakesSecond(app: App)
    ensures TwoIcs(0, []).ids.counter <= IcIds.MAX_ID
    ensures var t := Step(app, OneIc(0, 0, []), CreateIc(app.connectId));
            t.ids.counter <= IcIds.MAX_ID && Step(app, t, Acts([SendBack(1)])) == TwoIcs(0, [])
  {
    var s := OneIc(0, 0, []);
    var ids := IcIds.Step(s.ids, IcIds.Create);
    assert ids == IcIds.State.State([1, 2], [], 2, false);
    var t := Step(app, s, CreateIc(app.connectId));
    assert t.live == map[1 := Ic(0, 0), 2 := Ic(1, 0)];
    assert [SendBack(1)][1..] == [];
    assert Perform(t, [SendBack(1)]) == Perform(Act(t, SendBack(1)), []) == Act(t, SendBack(1));
  }

  lemma Blocks(app: App)
    ensures TwoIcs(7, [Second()]).ids.counter <= IcIds.MAX_ID && Blocked().ids.counter <= IcIds.MAX_ID
    ensures Step(app, TwoIcs(0, []), Forward(app.connectId, 10, Key(2, 7, 0))) == TwoIcs(7, [Second()])
    ensures Step(app, TwoIcs(7, [Second()]), DestroyIc(app.connectId, 1)) == Blocked()
  {
    var s, t := TwoIcs(0, []), TwoIcs(7, [Second()]);
    assert s.live[2 := Ic(1, 7)] == t.live;
    assert IndexOf([1, 2], 1) == 0;
    assert IcIds.Step(t.ids, IcIds.Destroy(0)) == Blocked().ids;
    assert t.live - {1} == map[2 := Ic(1, 7)];
  }

  /** The reply that would end the wait is not taken when its context was destroyed meanwhile: the
      event of the other context, which still lives, goes on waiting, whatever the callback does. */
  lemma ReplyOfDestroyedIgnored(app: App)
    ensures var c := app.connectId;
            var t := Run(app, Start(), [CreateIc(c), CreateIc(c), Acts([SendBack(1)]), Forward(c, 10, Key(2, 7, 0)),
                                        DestroyIc(c, 1), SyncReply(c, 1, 1)]);
            t.queue == [Second()] && t.done == [] && t.live == map[2 := Ic(1, 7)] && t.sync
  {
    hide Run, Step, OneIc, Start, TwoIcs, Blocked;
    var c := app.connectId;
    var key, rest := Forward(c, 10, Key(2, 7, 0)), [DestroyIc(c, 1), SyncReply(c, 1, 1)];
    assert [CreateIc(c), CreateIc(c), Acts([SendBack(1)]), key, DestroyIc(c, 1), SyncReply(c, 1, 1)]
        == [CreateIc(c)] + ([CreateIc(c)] + ([Acts([SendBack(1)])] + ([key] + rest)));
    InRange();
    RunHead(app, Start(), CreateIc(c), [CreateIc(c)] + ([Acts([SendBack(1)])] + ([key] + rest)));
    MakesFirst(app);
    MakesSecond(app);
    RunHead(app, OneIc(0, 0, []), CreateIc(c), [Acts([SendBack(1)])] + ([key] + rest));
    RunHead(app, Step(app, OneIc(0, 0, []), CreateIc(c)), Acts([SendBack(1)]), [key] + rest);
    Blocks(app);
    RunHead(app, TwoIcs(0, []), key, rest);
    TwoSteps(app, TwoIcs(7, [Second()]), DestroyIc(c, 1), SyncReply(c, 1, 1));
    StaysBlocked(app);
  }

  lemma StaysBlocked(app: App)
    ensures var t := Blocked();
            && t.ids.counter <= IcIds.MAX_ID && Step(app, t, SyncReply(app.connectId, 1, 1)) == t
            && t.queue == [Second()] && t.done == [] && t.live == map[2 := Ic(1, 7)] && t.sync
  {
  }

  // -------------------------------------------------------------- the C code

  lemma ProcessOnce(app: App, s: State)
    ensures Process(app, s) == if s.sync || s.queue == [] then s else Process(app, TakeUp(app, s))
  {
  }

  /** The nodes of the queue hold the keys of the waiting events. */
  ghost predicate Holds(nodes: seq<Node<Key>>, waiting: seq<Ev>)
    requires |nodes| == |waiting|
  {
    forall i :: 0 <= i < |nodes| ==> nodes[i].item == waiting[i].key
  }

  /** The table input_contexts keeps forward_event_sequence; the generations are for the laws. */
  ghost predicate Keeps(table: map<nat, nat>, live: map<nat, Ic>) {
    table.Keys == live.Keys && forall id :: id in table ==> table[id] == live[id].sequence
  }

  lemma WithoutFirst(nodes: seq<Node<Key>>, waiting: seq<Ev>)
    requires nodes != [] && |nodes| == |waiting| && Holds(nodes, waiting)
    ensures Without(nodes, 0) == nodes[1..] && Holds(nodes[1..], waiting[1..])
  {
    hide Without;
  }

  /** The parts of xcb_im_client_t and xcb_im_t that the handlers use; `table` is the table
      input_contexts, kept by IcIds. The ghost fields are what the laws talk about. */
  class Client {
    const app: App
    const queue: Node<Key>
    var table: map<nat, nat>
    var sync: bool
    var imSync: bool
    var useSyncMode: bool
    var useSyncEvent: bool
    var sent: seq<Sent>
    var calls: nat
    ghost var nodes: seq<Node<Key>>
    ghost var waiting: seq<Ev>
    ghost var ids: IcIds.State
    ghost var live: map<nat, Ic>
    ghost var made: nat
    ghost var destroyed: seq<nat>
    ghost var arrived: seq<Ev>
    ghost var done: seq<Done>
    ghost var ext: seq<Ev>

    ghost predicate Valid()
      reads this, queue`prev, queue`next, nodes`prev, nodes`next
    {
      IsList(queue, nodes) && |nodes| == |waiting| && Holds(nodes, waiting) && Keeps(table, live)
    }

    ghost function Abstract(): State
      reads this
    {
      State.State(ids, live, made, destroyed, sync, imSync, useSyncMode, useSyncEvent, waiting, arrived, done, ext,
                  sent, calls)
    }

    constructor (a: App)
      ensures Valid() && fresh(queue) && Abstract() == Start()
    {
      app := a;
      queue := new Node(Key(0, 0, 0));
      table, sync, imSync, useSyncMode, useSyncEvent, sent, calls := map[], false, false, true, false, [], 0;
      nodes, waiting, ids, live := [], [], IcIds.State.State([], [], 0, false), map[];
      made, destroyed, arrived, done, ext := 0, [], [], [], [];
      new;
      Init(queue);
    }

    /** xcb_im_forward_event_full, as far as the client is concerned. */
    method ForwardEventFull(icid: nat, sequence: nat)
      modifies `sync, `sent
      ensures Abstract() == SendKey(old(Abstract()), icid, sequence)
    {
      var flag := false;
      if useSyncMode {
        flag := true;
        sync := true;
      }
      sent := sent + [SentKey(icid, sequence, flag)];
    }

    /** The application's calls, one after the other. */
    method Application(acts: seq<Action>)
      requires Keeps(table, live)
      modifies `sync, `imSync, `useSyncMode, `useSyncEvent, `sent
      ensures Abstract() == Perform(old(Abstract()), acts)
    {
      var i := 0;
      while i < |acts|
        invariant 0 <= i <= |acts|
        invariant Perform(Abstract(), acts[i..]) == Perform(old(Abstract()), acts)
      {
        LibraryCall(acts[i]);
        i := i + 1;
      }
    }

    method LibraryCall(a: Action)
      requires Keeps(table, live)
      modifies `sync, `imSync, `useSyncMode, `useSyncEvent, `sent
      ensures Abstract() == Act(old(Abstract()), a)
    {
      hide OnlyActed;
      match a {
        case SendBack(icid) =>
          if icid in table {
            ForwardEventFull(icid, table[icid]);
          }
        case SendBackAs(icid, sequence) =>
          if icid in table {
            ForwardEventFull(icid, sequence);
          }
        case SyncXlib(icid) =>
          imSync := true;
          if icid in table {
            sent := sent + [SentSync(icid)];
          }
        case SetSyncMode(on) =>
          useSyncMode := on;
        case SetSyncEvent(on) =>
          useSyncEvent := on;
      }
    }

    /** im->callback. */
    method Call()
      requires Keeps(table, live)
      modifies `sync, `imSync, `useSyncMode, `useSyncEvent, `sent, `calls
      ensures Abstract() == Callback(app, old(Abstract()))
    {
      hide Perform, Keeps;
      var n := calls;
      calls := calls + 1;
      Application(app.react(n));
    }

    /** _xcb_im_add_queue. */
    method AddQueue(key: Key, ghost ev: Ev)
      requires Valid() && ev.key == key
      modifies `nodes, `waiting, queue`prev, queue`next, nodes`next
      ensures Valid() && Abstract() == old(Abstract()).(queue := old(Abstract()).queue + [ev])
    {
      hide IsList, Keeps;
      var item := new Node(key);
      assert item != queue && item !in nodes;
      Append(item, queue, nodes);
      nodes, waiting := nodes + [item], waiting + [ev];
    }

    /** list_container_of and list_remove on the first item. */
    method TakeFirst() returns (key: Key)
      requires Valid() && nodes != []
      modifies `nodes, `waiting, queue`prev, queue`next, nodes`prev, nodes`next
      ensures Valid() && old(waiting) != [] && key == old(waiting)[0].key
      ensures Abstract() == old(Abstract()).(queue := old(Abstract()).queue[1..])
      ensures nodes == old(nodes)[1..]
    {
      hide IsList, Without, Keeps, Distinct;
      First(queue, nodes);
      var item := queue.next;
      key := item.item;
      WithoutFirst(nodes, waiting);
      Remove(item, queue, nodes, 0);
      nodes, waiting := nodes[1..], waiting[1..];
    }

    /** The event is over: the callback is called if a context has its id. */
    method Deliver(key: Key, ghost ev: Ev)
      requires Keeps(table, live) && ev.key == key
      modifies `sync, `imSync, `useSyncMode, `useSyncEvent, `sent, `calls, `done
      ensures var s := old(Abstract());
              Abstract() == if key.icid in s.live then Callback(app, Handed(s, ev)) else Dropped(s, ev)
    {
      hide Callback;
      done := done + [Fate(Abstract(), ev)];
      if key.icid in table {
        Call();
      }
    }

    /** One round of _xcb_im_process_queue. */
    method ProcessFirst()
      requires Valid() && nodes != []
      modifies this, queue, nodes
      ensures Valid() && Abstract() == TakeUp(app, old(Abstract()))
      ensures nodes == old(nodes)[1..] && table == old(table)
    {
      hide IsList, Holds, Keeps, Callback, Handed, Dropped;
      var key := TakeFirst();
      Deliver(key, old(waiting)[0]);
    }

    /** _xcb_im_process_queue. */
    method ProcessQueue()
      requires Valid()
      modifies this, queue, nodes
      ensures Valid() && Abstract() == Process(app, old(Abstract())) && table == old(table)
    {
      hide IsList, Holds, Keeps, TakeUp, Process;
      var empty := IsEmpty(queue, nodes);
      ghost var k := 0;
      while !sync && !empty
        invariant Valid() && (empty <==> nodes == []) && table == old(table)
        invariant k <= |old(nodes)| && nodes == old(nodes)[k..]
        invariant Process(app, Abstract()) == Process(app, old(Abstract()))
        decreases |nodes|
      {
        ProcessOnce(app, Abstract());
        ProcessFirst();
        k := k + 1;
        empty := IsEmpty(queue, nodes);
      }
      ProcessOnce(app, Abstract());
    }

    /** The number of the event is kept in its context. */
    method Note(key: Key)
      requires key.icid in table && Keeps(table, live)
      modifies `table, `live, `arrived
      ensures Abstract() == Arrive(old(Abstract()), key) && key.icid in table && Keeps(table, live)
    {
      arrived := arrived + [Ev(key, live[key.icid].gen, |destroyed|)];
      live := live[key.icid := live[key.icid].(sequence := key.sequence)];
      table := table[key.icid := key.sequence];
    }

    /** The callback, and the answer to a synchronous event. */
    method HandOver(key: Key, ghost ev: Ev)
      requires key.icid in table && Keeps(table, live) && ev.key == key
      modifies `sync, `imSync, `useSyncMode, `useSyncEvent, `sent, `calls, `done
      ensures Abstract() == Answer(Callback(app, Handed(old(Abstract()), ev)), key.icid)
    {
      hide Callback, Handed;
      Deliver(key, ev);
      if useSyncEvent {
        sent := sent + [SentAnswer(key.icid)];
      }
    }

    /** _xcb_im_handle_forward_event. */
    method HandleForward(connect: nat, words: nat, key: Key)
      requires Valid()
      modifies `table, `live, `sync, `imSync, `useSyncMode, `useSyncEvent, `sent, `calls, `done, `arrived
      modifies `nodes, `waiting, queue`prev, queue`next, nodes`next
      ensures Valid() && Abstract() == Forwarding(app, old(Abstract()), connect, words, key)
    {
      hide IsList, Holds, Callback, Answer;
      if 4 * words < FORWARD_SIZE {
        sent := sent + [SentError];
        return;
      }
      if connect != app.connectId || 4 * words < FORWARD_SIZE + KEY_EVENT_SIZE || key.icid !in table {
        return;
      }
      ghost var ev := Ev(key, live[key.icid].gen, |destroyed|);
      Note(key);
      if sync {
        AddQueue(key, ev);
      } else {
        HandOver(key, ev);
      }
    }

    /** _xcb_im_handle_ext_forward_keyevent. */
    method HandleExtForward(connect: nat, words: nat, key: Key)
      requires Valid()
      modifies `sync, `imSync, `useSyncMode, `useSyncEvent, `sent, `calls, `ext
      ensures Valid() && Abstract() == ExtForwarding(app, old(Abstract()), connect, words, key)
    {
      hide IsList, Holds, Callback;
      if 4 * words < EXT_FORWARD_SIZE {
        sent := sent + [SentError];
      } else if connect == app.connectId && key.icid in table {
        ext := ext + [Ev(key, live[key.icid].gen, |destroyed|)];
        Call();
      }
    }

    method Release()
      requires Keeps(table, live)
      modifies `sync, `imSync, `useSyncMode, `useSyncEvent, `sent, `calls
      ensures Abstract() == Released(app, old(Abstract()))
    {
      hide Callback, Keeps;
      sync := false;
      if imSync {
        imSync := false;
        Call();
      }
    }

    /** _xcb_im_handle_sync_reply. */
    method HandleSyncReply(connect: nat, words: nat, icid: nat)
      requires Valid()
      modifies this, queue, nodes
      ensures Valid() && Abstract() == Replying(app, old(Abstract()), connect, words, icid) && table == old(table)
    {
      hide IsList, Holds, Process, Released;
      if 4 * words < SYNC_REPLY_SIZE {
        sent := sent + [SentError];
        return;
      }
      if connect != app.connectId || icid !in table {
        return;
      }
      Release();
      ProcessQueue();
    }
  }
}
