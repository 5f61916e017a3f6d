/**
 Messages: a header of four bytes and a frame (message.c), and the reading and writing of
 frames in a buffer as the generated functions do it.
 */
module XimMessage {
  import opened Common
  import opened Text
  import opened XimWire
  import opened XimFrames
  import opened XimCatalog

  const HEADER_SIZE := 4
  const CM_DATA_SIZE := 20

  // --------------------------------------------------------------- framing

  /** _xcb_write_xim_message_header; `length` is the size of the frame alone. */
  function Header(major: Byte, minor: Byte, length: nat, o: Order): (b: seq<Byte>)
    ensures |b| == HEADER_SIZE
  {
    [major, minor] + PutInt(Truncate(length / 4, 2), 2, o)
  }

  /** XIM_MESSAGE_BYTES of a received header. */
  function MessageBytes(b: seq<Byte>, o: Order): nat
    requires |b| >= HEADER_SIZE
  {
    GetInt(b[2..4], o) * 4
  }

  function MessageImage(f: Frame, v: Val, major: Byte, minor: Byte, o: Order, under: seq<Byte>): (m: seq<Byte>)
    requires |under| == Size(f, v, 0)
    ensures |m| == HEADER_SIZE + |under|
  {
    Header(major, minor, |under|, o) + Write(f, v, 0, o, under)
  }

  /** The size of a message's frame is a multiple of four. */
  lemma MessageSizeInWords(f: Frame, v: Val)
    requires IsMessage(f) && Shape(f, v, [])
    ensures Size(f, v, 0) % 4 == 0
  {
    hide IsMessage, EndPhase, Shape, Size, WellFormed;
    MessageFacts(f);
    EndPhaseIsPhase(f, v, 0, [], Some(0));
  }

  /** The header's count of words stands for the whole frame exactly when it fits 16 bits. */
  lemma HeaderTellsSize(f: Frame, v: Val, major: Byte, minor: Byte, o: Order)
    requires IsMessage(f) && Shape(f, v, [])
    ensures MessageBytes(Header(major, minor, Size(f, v, 0), o), o) == Size(f, v, 0) <==> Size(f, v, 0) < 0x4_0000
  {
    hide IsMessage, Shape, Size, PutInt, GetInt;
    var n := Size(f, v, 0);
    MessageSizeInWords(f, v);
    var h := Header(major, minor, n, o);
    assert h[2..4] == PutInt(Truncate(n / 4, 2), 2, o);
    GetPut(Truncate(n / 4, 2), 2, o);
  }

  /** The receiver of a property message: the header tells the bytes of the frame, and the frame
      is read from those. */
  function Receive(f: Frame, o: Order, m: seq<Byte>): Option<(Val, nat)> {
    if |m| < HEADER_SIZE || HEADER_SIZE + MessageBytes(m, o) > |m| then None
    else Read(f, 0, [], o, m[HEADER_SIZE..HEADER_SIZE + MessageBytes(m, o)])
  }

  /** What one side sends, the other receives, and nothing of what follows is touched; `p` is the
      order of the receiving host, which takes the bytes to be in the order they have. */
  lemma MessageRoundTrip(f: Frame, v: Val, major: Byte, minor: Byte, o: Order, p: Order,
                         under: seq<Byte>, tail: seq<Byte>)
    requires IsMessage(f) && Fits(f, v, []) && |under| == Size(f, v, 0) < 0x4_0000 && WireBig(p) == WireBig(o)
    ensures var m := MessageImage(f, v, major, minor, o, under) + tail;
            m[0] == major && m[1] == minor && Receive(f, p, m) == Some((v, |under|))
  {
    hide IsMessage, Shape, CountersFit, Size, Read, Write, PutInt, GetInt, WellFormed, EndPhase, WireBig;
    var h := Header(major, minor, |under|, o);
    var b := Write(f, v, 0, o, under);
    var m := h + b + tail;
    assert m[2..4] == h[2..4];
    HeaderTellsSize(f, v, major, minor, o);
    SameWire(m[2..4], o, p);
    BodyRoundTrip(f, v, o, p, under);
    assert m[HEADER_SIZE..HEADER_SIZE + |b|] == b;
  }

  /** The frame alone. */
  lemma BodyRoundTrip(f: Frame, v: Val, o: Order, p: Order, under: seq<Byte>)
    requires IsMessage(f) && Fits(f, v, []) && |under| == Size(f, v, 0) && WireBig(p) == WireBig(o)
    ensures Read(f, 0, [], p, Write(f, v, 0, o, under)) == Some((v, |under|))
  {
    hide IsMessage, Shape, CountersFit, Size, Read, Write, WellFormed, EndPhase, WireBig;
    var b := Write(f, v, 0, o, under);
    MessageFacts(f);
    RoundTrip(f, v, 0, [], o, under, []);
    assert b + [] == b;
    ReadSame(f, 0, [], o, p, b);
  }

  lemma {:induction false} EqualItems(item: Frame, items: seq<Val>, n: nat)
    requires forall i :: 0 <= i < |items| ==> Size(item, items[i], 0) == n
    ensures ListSize(item, items) == n * |items|
  {
    hide Size;
    if items != [] {
      EqualItems(item, items[1..], n);
      assert n * |items| == n * (|items| - 1) + n;
    }
  }

  // ------------------------------------------------ bytes of whole messages

  /** An XIM_SYNC_REPLY as it stands on the wire: opcodes, two words of frame, the two ids. */
  lemma SyncReplyBytes(im: nat, ic: nat, o: Order, under: seq<Byte>)
    requires im < 0x1_0000 && ic < 0x1_0000 && |under| == 4
    ensures Size(SyncReplyFr(), VInt(im, VInt(ic, VEnd)), 0) == 4
    ensures MessageImage(SyncReplyFr(), VInt(im, VInt(ic, VEnd)), 62, 0, o, under) ==
            if WireBig(o) then [62, 0, 0, 1, im / 0x100, im % 0x100, ic / 0x100, ic % 0x100]
            else [62, 0, 1, 0, im % 0x100, im / 0x100, ic % 0x100, ic / 0x100]
  {
    hide PutInt, WireBig, Size, Write;
    TwoShorts(im, ic, o, under);
    ShortBytes(1, o);
    ShortBytes(im, o);
    ShortBytes(ic, o);
  }

  lemma TwoShorts(m: nat, n: nat, o: Order, under: seq<Byte>)
    requires m < 0x1_0000 && n < 0x1_0000 && |under| == 4
    ensures var f, v := IntField(2, IntField(2, End)), VInt(m, VInt(n, VEnd));
            Size(f, v, 0) == 4 && Write(f, v, 0, o, under) == PutInt(m, 2, o) + PutInt(n, 2, o)
  {
    hide PutInt, Write, Shift, Size;
    var f, v := IntField(2, End), VInt(n, VEnd);
    LastShort(n, Shift(0, 2), o, under[2..]);
    IntSize(IntField(2, f), VInt(m, v), 0);
    WriteIntIs(IntField(2, f), VInt(m, v), 0, o, under);
  }

  lemma LastShort(n: nat, ph: Phase, o: Order, under: seq<Byte>)
    requires n < 0x1_0000 && |under| == 2
    ensures Size(IntField(2, End), VInt(n, VEnd), ph) == 2
    ensures Write(IntField(2, End), VInt(n, VEnd), ph, o, under) == PutInt(n, 2, o)
  {
    hide PutInt;
    assert PutInt(n, 2, o) + [] == PutInt(n, 2, o);
  }

  lemma ShortBytes(n: nat, o: Order)
    requires n < 0x1_0000
    ensures PutInt(n, 2, o) == if WireBig(o) then [n / 0x100, n % 0x100] else [n % 0x100, n / 0x100]
  {
    Weights();
    ByteOnWire(n, 2, o, 0);
    ByteOnWire(n, 2, o, 1);
    hide PutInt, WireBig, Weight;
    assert n / 0x100 % 0x100 == n / 0x100;
  }

  /** The counter of input styles is their number; each takes four bytes. */
  lemma InputStylesCounted(v: Val, o: Order, under: seq<Byte>)
    requires Fits(InputStylesFr(), v, []) && |under| == Size(InputStylesFr(), v, 0)
    ensures v.VList? && |v.items| < 0x1_0000 && |under| >= 2
    ensures Write(InputStylesFr(), v, 0, o, under)[..2] == PutInt(|v.items|, 2, o)
  {
    hide PutInt, Shape, CountersFit, Size, Write;
    var f := InputStylesFr();
    CounterTells(f, v, 0, [], o, under);
    ListShape(f, v, []);
    forall i | 0 <= i < |v.items|
      ensures Size(f.item, v.items[i], 0) == 4
    {
      SizesAsGenerated(Inputstyle, v.items[i]);
    }
    EqualItems(f.item, v.items, 4);
  }

  datatype Extension = Extension(major: Byte, minor: Byte, name: seq<Byte>)

  ghost function ExtVal(e: Extension): Val {
    VInt(e.major, VInt(e.minor, VInt(|e.name|, VBytes(e.name, VEnd))))
  }

  ghost function ExtVals(es: seq<Extension>): seq<Val> {
    if es == [] then [] else [ExtVal(es[0])] + ExtVals(es[1..])
  }

  ghost function Two(n: nat, o: Order): seq<Byte>
    requires n < 0x1_0000
  {
    if WireBig(o) then [n / 0x100, n % 0x100] else [n % 0x100, n / 0x100]
  }

  function Zeros(n: nat): (z: seq<Byte>)
    ensures |z| == n
  {
    seq(n, _ => 0)
  }

  ghost predicate NamesShort(es: seq<Extension>) {
    forall i :: 0 <= i < |es| ==> |es[i].name| < 0x1_0000
  }

  /** EXT of the protocol: two opcodes, the length of the name, the name, and zeros to a multiple of
      four bytes. */
  ghost function ExtImage(e: Extension, o: Order): seq<Byte>
    requires |e.name| < 0x1_0000
  {
    [e.major, e.minor] + Two(|e.name|, o) + e.name + Zeros((4 - |e.name| % 4) % 4)
  }

  ghost function ExtImages(es: seq<Extension>, o: Order): seq<Byte>
    requires NamesShort(es)
  {
    if es == [] then [] else ExtImage(es[0], o) + ExtImages(es[1..], o)
  }

  lemma NothingMore(ph: Phase, o: Order)
    ensures Size(End, VEnd, ph) == 0 && Write(End, VEnd, ph, o, []) == []
  {
  }

  lemma PadToFour(n: nat)
    ensures PadLen(Shift(0, n), 4) == (4 - n % 4) % 4
  {
  }

  lemma PadBytes(n: nat, o: Order, under: seq<Byte>)
    requires |under| == (4 - n % 4) % 4
    ensures Size(PadField(4, End), VEnd, Shift(0, n)) == |under|
    ensures Write(PadField(4, End), VEnd, Shift(0, n), o, under) == under
  {
    hide Size, Write, Shift, PadLen, Aligned;
    PadToFour(n);
    NothingMore(Aligned(Shift(0, n), 4), o);
    PadUnfolds(PadField(4, End), VEnd, Shift(0, n), [], o, under);
    assert under[|under|..] == [] && under[..|under|] == under;
  }

  lemma BytesFirst(len: nat, b: seq<Byte>, f: Frame, v: Val, ph: Phase, o: Order, under: seq<Byte>)
    requires |under| == |b| + Size(f, v, Shift(ph, |b|))
    ensures Size(BytesField(len, f), VBytes(b, v), ph) == |under|
    ensures Write(BytesField(len, f), VBytes(b, v), ph, o, under) == b + Write(f, v, Shift(ph, |b|), o, under[|b|..])
  {
    hide Shift;
  }

  lemma NameBytes(name: seq<Byte>, o: Order, under: seq<Byte>)
    requires |under| == |name| + (4 - |name| % 4) % 4
    ensures Size(BytesField(2, PadField(4, End)), VBytes(name, VEnd), 0) == |under|
    ensures Write(BytesField(2, PadField(4, End)), VBytes(name, VEnd), 0, o, under) == name + under[|name|..]
  {
    hide Shift, Size, Write;
    PadBytes(|name|, o, under[|name|..]);
    BytesFirst(2, name, PadField(4, End), VEnd, 0, o, under);
  }

  lemma CountedName(name: seq<Byte>, o: Order, under: seq<Byte>)
    requires |name| < 0x1_0000 && |under| == 2 + |name| + (4 - |name| % 4) % 4
    ensures var f, v := IntField(2, BytesField(2, PadField(4, End))), VInt(|name|, VBytes(name, VEnd));
            && Size(f, v, 2) == |under|
            && Write(f, v, 2, o, under) == Two(|name|, o) + name + under[2 + |name|..]
  {
    hide PutInt, Write, Size;
    NameBytes(name, o, under[2..]);
    IntFirst(2, |name|, BytesField(2, PadField(4, End)), VBytes(name, VEnd), 2, o, under);
    ShortBytes(|name|, o);
    assert under[2..][|name|..] == under[2 + |name|..];
  }

  lemma ExtBytes(e: Extension, o: Order, under: seq<Byte>)
    requires |e.name| < 0x1_0000 && under == Zeros(|ExtImage(e, o)|)
    ensures Size(ExtFr(), ExtVal(e), 0) == |under| && Write(ExtFr(), ExtVal(e), 0, o, under) == ExtImage(e, o)
  {
    hide PutInt, Write, Size;
    var n := |e.name|;
    var f, v := IntField(2, BytesField(2, PadField(4, End))), VInt(n, VBytes(e.name, VEnd));
    CountedName(e.name, o, under[2..]);
    IntFirst(1, e.minor, f, v, 1, o, under[1..]);
    IntFirst(1, e.major, IntField(1, f), VInt(e.minor, v), 0, o, under);
    PutByte(e.minor, o);
    PutByte(e.major, o);
    hide Two, Shift;
    assert under[1..][1..] == under[2..];
    assert under[2..][2 + n..] == Zeros((4 - n % 4) % 4);
    assert [e.major] + ([e.minor] + (Two(n, o) + e.name + Zeros((4 - n % 4) % 4))) == ExtImage(e, o);
  }

  lemma PutByte(n: Byte, o: Order)
    ensures PutInt(n, 1, o) == [n]
  {
    Weights();
    ByteOnWire(n, 1, o, 0);
  }

  /** An integer takes the next bytes. */
  lemma IntFirst(w: Width, n: nat, f: Frame, v: Val, ph: Phase, o: Order, under: seq<Byte>)
    requires n < Limit(w) && |under| == w + Size(f, v, Shift(ph, w))
    ensures Size(IntField(w, f), VInt(n, v), ph) == |under|
    ensures Write(IntField(w, f), VInt(n, v), ph, o, under) ==
            PutInt(n, w, o) + Write(f, v, Shift(ph, w), o, under[w..])
  {
    hide PutInt, Write, Size;
    IntSize(IntField(w, f), VInt(n, v), ph);
    WriteIntIs(IntField(w, f), VInt(n, v), ph, o, under);
  }

  lemma {:induction false} ExtListBytes(es: seq<Extension>, o: Order, under: seq<Byte>)
    requires NamesShort(es) && under == Zeros(|ExtImages(es, o)|)
    ensures ListSize(ExtFr(), ExtVals(es)) == |under| && |under| % 4 == 0
    ensures WriteAll(ExtFr(), ExtVals(es), o, under) == ExtImages(es, o)
    decreases |es|
  {
    hide Write, Size, WriteAll, ListSize, ExtFr, ExtVal, ExtImage;
    if es == [] {
      NoItems(o);
    } else {
      var n := |ExtImage(es[0], o)|;
      ExtBytes(es[0], o, under[..n]);
      ExtInWords(es[0], o);
      ExtListBytes(es[1..], o, under[n..]);
      assert ExtVals(es)[1..] == ExtVals(es[1..]);
      ItemFirst(ExtFr(), ExtVals(es), n, o, under);
    }
  }

  lemma ExtInWords(e: Extension, o: Order)
    requires |e.name| < 0x1_0000
    ensures |ExtImage(e, o)| % 4 == 0
  {
  }

  lemma NoItems(o: Order)
    ensures ListSize(ExtFr(), []) == 0 && WriteAll(ExtFr(), [], o, []) == []
  {
  }

  lemma ItemFirst(item: Frame, items: seq<Val>, n: nat, o: Order, under: seq<Byte>)
    requires items != [] && n == Size(item, items[0], 0) && |under| == n + ListSize(item, items[1..])
    ensures ListSize(item, items) == |under|
    ensures WriteAll(item, items, o, under) ==
            Write(item, items[0], 0, o, under[..n]) + WriteAll(item, items[1..], o, under[n..])
  {
    hide Size, Write;
  }

  /** An XIM_QUERY_EXTENSION_REPLY on the wire: opcodes, the words of the frame, the input method id,
      the bytes of the list, and each extension in order. */
  lemma ExtensionReplyBytes(im: nat, es: seq<Extension>, o: Order)
    requires im < 0x1_0000 && NamesShort(es) && |ExtImages(es, o)| < 0x1_0000
    ensures var v, list := VInt(im, VList(ExtVals(es), VEnd)), ExtImages(es, o);
            && Size(QueryExtensionReplyFr(), v, 0) == 4 + |list|
            && MessageImage(QueryExtensionReplyFr(), v, 41, 0, o, Zeros(4 + |list|)) ==
               [41, 0] + Two(1 + |list| / 4, o) + Two(im, o) + Two(|list|, o) + list
  {
    hide PutInt, Write, Size, ExtFr, WriteAll, ListSize, ExtVals, ExtImages;
    var list := ExtImages(es, o);
    var under := Zeros(4 + |list|);
    ExtListBytes(es, o, Zeros(|list|));
    assert under[2..][2..] == Zeros(|list|);
    ListLast(ExtVals(es), o, under[2..]);
    IntFirst(2, im, ListField(2, 1, 1, ExtFr(), End), VList(ExtVals(es), VEnd), 0, o, under);
    ShortBytes(im, o);
    ShortBytes(|list|, o);
    ShortBytes(1 + |list| / 4, o);
  }

  lemma ListLast(items: seq<Val>, o: Order, under: seq<Byte>)
    requires |under| == 2 + ListSize(ExtFr(), items) < 0x1_0000
    ensures var f, v := ListField(2, 1, 1, ExtFr(), End), VList(items, VEnd);
            Size(f, v, 2) == |under| && Write(f, v, 2, o, under) ==
              PutInt(|under| - 2, 2, o) + WriteAll(ExtFr(), items, o, under[2..])
  {
    hide PutInt, ExtFr, WriteAll, ListSize, Size, Write, Shift;
    var f, v, n := ListField(2, 1, 1, ExtFr(), End), VList(items, VEnd), |under|;
    NothingMore(Shift(2, n), o);
    ListSizeIs(f, v, 2);
    WriteListIs(f, v, 2, o, under, 2, n);
    assert under[2..2] == [] && under[2..n] == under[2..] && under[n..] == [];
  }

  /** The value of an XIM_GET_IM_VALUES that asks for `n` values. */
  function Asks(n: nat): Val {
    VInt(1, VList(seq(n, _ => VInt(0, VEnd)), VEnd))
  }

  lemma AnId()
    ensures Size(IntField(2, End), VInt(0, VEnd), 0) == 2 && Shape(IntField(2, End), VInt(0, VEnd), [])
  {
  }

  lemma AskedIds(n: nat)
    ensures ListSize(IntField(2, End), Asks(n).rest.items) == 2 * n
    ensures forall i :: 0 <= i < n ==> Shape(IntField(2, End), Asks(n).rest.items[i], [])
  {
    hide ListSize, Size, Shape;
    var items := Asks(n).rest.items;
    AnId();
    assert forall i :: 0 <= i < n ==> items[i] == VInt(0, VEnd);
    EqualItems(IntField(2, End), items, 2);
  }

  lemma AsksIs(n: nat)
    ensures Size(GetImValuesFr(), Asks(n), 0) < 8 + 2 * n && Shape(GetImValuesFr(), Asks(n), [])
    ensures CountersFit(GetImValuesFr(), Asks(n)) ==> n < 0x8000
  {
    hide ListSize, Shift;
    AskedIds(n);
    var rest := ListField(2, 1, 1, IntField(2, End), PadField(4, End));
    assert Shape(rest, Asks(n).rest, [1]);
  }

  lemma Named(n: Name)
    requires !IsPart(n)
    ensures IsMessage(FrameOf(n))
  {
    hide FrameOf, IsPart;
  }

  lemma GetImValuesIsMessage()
    ensures IsMessage(GetImValuesFr())
  {
    Named(GetImValues);
  }

  /** An instance of a counter that does not fit: 32768 values asked for at once. The header has
      room for the message, yet it is not read back. */
  lemma TooManyAsked(o: Order, under: seq<Byte>, tail: seq<Byte>)
    requires |under| == Size(GetImValuesFr(), Asks(0x8000), 0)
    ensures |under| < 0x4_0000 && WellFormed(GetImValuesFr(), 0) && Shape(GetImValuesFr(), Asks(0x8000), [])
    ensures !ReadsBack(GetImValuesFr(), Asks(0x8000), 0, [], o, Write(GetImValuesFr(), Asks(0x8000), 0, o, under), tail)
  {
    hide Size, Shape, CountersFit, Write, Read, Asks, WellFormed, IsMessage, GetImValuesFr, EndPhase;
    GetImValuesIsMessage();
    MessageFacts(GetImValuesFr());
    AsksIs(0x8000);
    ReadsBackExactlyWhenCountersFit(GetImValuesFr(), Asks(0x8000), o, under, tail);
  }

  // ------------------------------------------------- messages of one event

  /** The 8-bit format: a message of at most 20 bytes travels inside the event. Its header is read
      without swapping, in the order `big` of the host that reads it. */
  function ReadEvent(data: seq<Byte>, big: bool): Option<seq<Byte>>
    requires |data| == CM_DATA_SIZE
  {
    var n := MessageBytes(data, Order(big, false));
    if CM_DATA_SIZE - HEADER_SIZE >= n then Some(data[HEADER_SIZE..HEADER_SIZE + n]) else None
  }

  function EventImage(m: seq<Byte>): (d: seq<Byte>)
    requires |m| <= CM_DATA_SIZE
    ensures |d| == CM_DATA_SIZE
  {
    m + seq(CM_DATA_SIZE - |m|, _ => 0)
  }

  predicate Short(f: Frame, v: Val, under: seq<Byte>) {
    |under| == Size(f, v, 0) <= CM_DATA_SIZE - HEADER_SIZE
  }

  /** What a host of order `big` gets of a message that is sent inside an event. */
  function EventBody(f: Frame, v: Val, major: Byte, minor: Byte, o: Order, under: seq<Byte>, big: bool):
      Option<seq<Byte>>
    requires Short(f, v, under)
  {
    hide Size;
    ReadEvent(EventImage(MessageImage(f, v, major, minor, o, under)), big)
  }

  lemma EventParts(f: Frame, v: Val, major: Byte, minor: Byte, o: Order, under: seq<Byte>)
    requires Short(f, v, under)
    ensures var d := EventImage(MessageImage(f, v, major, minor, o, under));
            d[2..4] == PutInt(|under| / 4, 2, o) && d[HEADER_SIZE..HEADER_SIZE + |under|] == Write(f, v, 0, o, under)
  {
    hide Size, Write, PutInt;
    var d := EventImage(MessageImage(f, v, major, minor, o, under));
    assert d[2..4] == PutInt(|under| / 4, 2, o);
  }

  /** A message inside an event arrives exactly when the host that reads it has the byte order of
      the wire or the frame is empty: otherwise the count of words is misread and the message
      refused. */
  lemma ShortMessageArrives(f: Frame, v: Val, major: Byte, minor: Byte, o: Order, under: seq<Byte>, big: bool)
    requires IsMessage(f) && Fits(f, v, []) && Short(f, v, under)
    ensures var body := EventBody(f, v, major, minor, o, under, big);
            && (body == Some(Write(f, v, 0, o, under)) <==> big == WireBig(o) || |under| == 0)
            && (body.None? <==> big != WireBig(o) && |under| > 0)
  {
    hide IsMessage, Shape, CountersFit, Size, Write, PutInt, GetInt, EventImage, MessageImage, WireBig;
    MessageSizeInWords(f, v);
    EventParts(f, v, major, minor, o, under);
    WordsRead(|under| / 4, o, big);
  }

  lemma WordsRead(n: nat, o: Order, big: bool)
    requires n < 0x100
    ensures GetInt(PutInt(n, 2, o), Order(big, false)) == if big == WireBig(o) then n else 0x100 * n
  {
    hide Store, Load;
    assert n % 0x100 == n && n / 0x100 == 0;
    var b := PutInt(n, 2, o);
    GetPut(n, 2, o);
    SameWire(b, o, Order(WireBig(o), false));
    if big != WireBig(o) {
      SameWire(b, Order(WireBig(o), false), Order(big, true));
      SwapTwice(GetInt(b, Order(big, false)), 2);
    }
  }

  // ---------------------------------------------------- server and client

  /** The orders of the two hosts. The server swaps for a client of the other order; the client
      never swaps. */
  function FromServer(server: bool, client: bool): Order {
    Order(server, server != client)
  }

  function FromClient(client: bool): Order {
    Order(client, false)
  }

  /** Whatever the server sends inside an event arrives, and the client reads the value sent. */
  lemma ServerMessageArrives(f: Frame, v: Val, major: Byte, minor: Byte, under: seq<Byte>, server: bool, client: bool)
    requires IsMessage(f) && Fits(f, v, []) && Short(f, v, under)
    ensures var body := EventBody(f, v, major, minor, FromServer(server, client), under, client);
            body.Some? && Read(f, 0, [], FromClient(client), body.value) == Some((v, |under|))
  {
    hide IsMessage, Shape, CountersFit, Size, Write, Read, EventBody;
    var o := FromServer(server, client);
    ShortMessageArrives(f, v, major, minor, o, under, client);
    BodyRoundTrip(f, v, o, FromClient(client), under);
  }

  /** What a client sends inside an event is refused exactly when the orders differ and the frame
      is not empty; otherwise the server reads the value sent. */
  lemma ClientMessageRefused(f: Frame, v: Val, major: Byte, minor: Byte, under: seq<Byte>, server: bool, client: bool)
    requires IsMessage(f) && Fits(f, v, []) && Short(f, v, under)
    ensures var body := EventBody(f, v, major, minor, FromClient(client), under, server);
            && (body.None? <==> server != client && |under| > 0)
            && (body.Some? ==> Read(f, 0, [], FromServer(server, client), body.value) == Some((v, |under|)))
  {
    hide IsMessage, Shape, CountersFit, Size, Write, Read, EventBody;
    var o := FromClient(client);
    ShortMessageArrives(f, v, major, minor, o, under, server);
    BodyRoundTrip(f, v, o, FromServer(server, client), under);
  }

  /** The value of the XIM_CONNECT that a client starts with: its byte order, version 0.0, and no
      names of authorization protocols. */
  function Hello(client: bool): Val {
    VInt(if client then 0x42 else 0x6C, VInt(0, VInt(0, VList([], VEnd))))
  }

  lemma HelloFits(f: Frame, v: Val, client: bool)
    requires f == ConnectFr() && v == Hello(client)
    ensures Fits(f, v, []) && Size(f, v, 0) == 8
  {
    HelloLayout(f, v, XpcsFr(), if client then 0x42 else 0x6C);
  }

  lemma HelloLayout(f: Frame, v: Val, item: Frame, n: nat)
    requires f == IntField(1, PadField(2, IntField(2, IntField(2, ListField(2, 1, 1, item, End)))))
    requires v == VInt(n, VInt(0, VInt(0, VList([], VEnd)))) && n < 0x100
    ensures Fits(f, v, []) && Size(f, v, 0) == 8
  {
    hide Fits, Size;
    var names := ListField(2, 1, 1, item, End);
    var minor, v2 := IntField(2, names), VInt(0, VList([], VEnd));
    var major, v1 := IntField(2, minor), VInt(0, v2);
    var i1 := [] + [n];
    var i2 := i1 + [0];
    HelloHolds(names, i2 + [0]);
    OneInteger(minor, v2, i2);
    OneInteger(major, v1, i1);
    OnePad(PadField(2, major), v1, i1);
    OneInteger(f, v, []);
    HelloSize(names, major, v1);
    OneByte(f, v, major);
  }

  lemma HelloSize(names: Frame, major: Frame, v1: Val)
    requires names.ListField? && names.w == 2 && names.align == 1 && names.rest == End
    requires major == IntField(2, IntField(2, names)) && v1 == VInt(0, VInt(0, VList([], VEnd)))
    ensures Size(major, v1, 2) == 6
  {
    assert Size(names, VList([], VEnd), 2) == 2;
    assert Size(IntField(2, names), VInt(0, VList([], VEnd)), 0) == 4;
  }

  lemma OneByte(f: Frame, v: Val, rest: Frame)
    requires f == IntField(1, PadField(2, rest)) && v.VInt?
    ensures Size(f, v, 0) == 2 + Size(rest, v.rest, 2)
  {
    assert Shift(0, 1) == 1 && PadLen(1, 2) == 1 && Aligned(1, 2) == 2;
    hide Shift, PadLen, Aligned;
    assert Size(PadField(2, rest), v.rest, 1) == 1 + Size(rest, v.rest, 2);
  }

  lemma HelloHolds(names: Frame, ints: seq<nat>)
    requires names.ListField? && names.rest == End
    ensures Fits(names, VList([], VEnd), ints)
  {
  }

  lemma OneInteger(f: Frame, v: Val, ints: seq<nat>)
    requires f.IntField? && v.VInt? && v.n < Limit(f.w) && Fits(f.rest, v.rest, ints + [v.n])
    ensures Fits(f, v, ints)
  {
  }

  lemma OnePad(f: Frame, v: Val, ints: seq<nat>)
    requires f.PadField? && Fits(f.rest, v, ints)
    ensures Fits(f, v, ints)
  {
  }

  lemma ConnectIsMessage()
    ensures IsMessage(ConnectFr())
  {
    Named(Connect);
  }

  /** An instance: that first message, to a server of the other byte order, is refused, so such a
      client never gets a connection. */
  lemma ConnectRefused(f: Frame, v: Val, under: seq<Byte>, client: bool)
    requires f == ConnectFr() && v == Hello(client) && |under| == 8
    ensures Short(f, v, under) && EventBody(f, v, 1, 0, FromClient(client), under, !client).None?
  {
    hide Size, Shape, CountersFit, Write, EventBody, Hello, ConnectFr, IsMessage;
    HelloFits(f, v, client);
    ConnectIsMessage();
    ClientMessageRefused(f, v, 1, 0, under, !client, client);
  }
}
