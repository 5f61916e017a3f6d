/**
 The frames of ximproto.c as descriptors, and the facts about each that the generic theorems
 of XimFrames ask for: all of them are well formed, the sizes printed in ximproto-gen.h are
 the sizes of their values, and every message fills whole groups of four bytes.
 */
module XimCatalog {
  import opened Common
  import opened XimWire
  import opened XimFrames

  // ------------------------------------------------ parts of other frames

  function XimattrFr(): Frame {
    IntField(2, IntField(2, IntField(2, BytesField(2, PadField(4, End)))))
  }

  function XicattrFr(): Frame {
    IntField(2, IntField(2, IntField(2, BytesField(2, PadField(4, End)))))
  }

  function XimattributeFr(): Frame {
    IntField(2, IntField(2, BytesField(1, PadField(4, End))))
  }

  function XicattributeFr(): Frame {
    IntField(2, IntField(2, BytesField(1, PadField(4, End))))
  }

  function XimtriggerkeyFr(): Frame {
    IntField(4, IntField(4, IntField(4, End)))
  }

  function EncodinginfoFr(): Frame {
    IntField(2, BytesField(0, PadField(4, End)))
  }

  function StrFr(): Frame {
    IntField(1, BytesField(0, End))
  }

  function XpcsFr(): Frame {
    IntField(2, BytesField(0, PadField(4, End)))
  }

  function ExtFr(): Frame {
    IntField(1, IntField(1, IntField(2, BytesField(2, PadField(4, End)))))
  }

  function InputstyleFr(): Frame {
    IntField(4, End)
  }

  function AttrHeadFr(): Frame {
    IntField(2, IntField(2, End))
  }

  function ShortFr(): Frame {
    IntField(2, End)
  }

  function LongFr(): Frame {
    IntField(4, End)
  }

  function XrectangleFr(): Frame {
    IntField(2, IntField(2, IntField(2, IntField(2, End))))
  }

  function XpointFr(): Frame {
    IntField(2, IntField(2, End))
  }

  function FontsetFr(): Frame {
    IntField(2, BytesField(0, PadField(4, End)))
  }

  function InputStylesFr(): Frame {
    ListField(2, 4, 4, InputstyleFr(), End)
  }

  function PacketHeaderFr(): Frame {
    IntField(1, IntField(1, IntField(2, End)))
  }

  // -------------------------------------------------------------- messages

  function ErrorFr(): Frame {
    IntField(2, IntField(2, IntField(2, IntField(2, IntField(2, IntField(2, BytesField(4, PadField(4,
      End))))))))
  }

  function ConnectFr(): Frame {
    IntField(1, PadField(2, IntField(2, IntField(2, ListField(2, 1, 1, XpcsFr(), End)))))
  }

  function ConnectReplyFr(): Frame {
    IntField(2, IntField(2, End))
  }

  function AuthRequiredFr(): Frame {
    IntField(1, IntField(1, BytesField(1, PadField(4, End))))
  }

  function AuthReplyFr(): Frame {
    IntField(1, BytesField(0, PadField(4, End)))
  }

  function AuthNextFr(): Frame {
    IntField(1, BytesField(0, PadField(4, End)))
  }

  function AuthSetupFr(): Frame {
    ListField(2, 1, 4, XpcsFr(), End)
  }

  function AuthNgFr(): Frame {
    End
  }

  function DisconnectFr(): Frame {
    End
  }

  function DisconnectReplyFr(): Frame {
    End
  }

  function OpenFr(): Frame {
    SubFrame(StrFr(), PadField(4, End))
  }

  function OpenReplyFr(): Frame {
    IntField(2, ListField(2, 1, 1, XimattrFr(), ListField(2, 1, 4, XicattrFr(), End)))
  }

  function CloseFr(): Frame {
    IntField(2, PadField(4, End))
  }

  function CloseReplyFr(): Frame {
    IntField(2, PadField(4, End))
  }

  function RegisterTriggerkeysFr(): Frame {
    IntField(2, PadField(4, ListField(4, 1, 1, XimtriggerkeyFr(), ListField(4, 1, 1, XimtriggerkeyFr(),
      End))))
  }

  function TriggerNotifyFr(): Frame {
    IntField(2, IntField(2, IntField(4, IntField(4, IntField(4, End)))))
  }

  function TriggerNotifyReplyFr(): Frame {
    IntField(2, IntField(2, End))
  }

  function SetEventMaskFr(): Frame {
    IntField(2, IntField(2, IntField(4, IntField(4, End))))
  }

  function EncodingNegotiationFr(): Frame {
    IntField(2, ListField(2, 1, 1, StrFr(), PadField(4, ListField(2, 1, 4, EncodinginfoFr(), End))))
  }

  function EncodingNegotiationReplyFr(): Frame {
    IntField(2, IntField(2, IntField(2, PadField(4, End))))
  }

  function QueryExtensionFr(): Frame {
    IntField(2, ListField(2, 1, 1, StrFr(), PadField(4, End)))
  }

  function QueryExtensionReplyFr(): Frame {
    IntField(2, ListField(2, 1, 1, ExtFr(), End))
  }

  function GetImValuesFr(): Frame {
    IntField(2, ListField(2, 1, 1, IntField(2, End), PadField(4, End)))
  }

  function GetImValuesReplyFr(): Frame {
    IntField(2, ListField(2, 1, 1, XimattributeFr(), End))
  }

  function CreateIcFr(): Frame {
    IntField(2, ListField(2, 1, 1, XicattributeFr(), End))
  }

  function CreateIcReplyFr(): Frame {
    IntField(2, IntField(2, End))
  }

  function DestroyIcFr(): Frame {
    IntField(2, IntField(2, End))
  }

  function DestroyIcReplyFr(): Frame {
    IntField(2, IntField(2, End))
  }

  function SetIcValuesFr(): Frame {
    IntField(2, IntField(2, ListField(2, 1, 4, XicattributeFr(), End)))
  }

  function SetIcValuesReplyFr(): Frame {
    IntField(2, IntField(2, End))
  }

  function GetIcValuesFr(): Frame {
    IntField(2, IntField(2, ListField(2, 1, 1, IntField(2, End), PadField(4, End))))
  }

  function GetIcValuesReplyFr(): Frame {
    IntField(2, IntField(2, ListField(2, 1, 4, XicattributeFr(), End)))
  }

  function SetIcFocusFr(): Frame {
    IntField(2, IntField(2, End))
  }

  function UnsetIcFocusFr(): Frame {
    IntField(2, IntField(2, End))
  }

  function ForwardEventFr(): Frame {
    IntField(2, IntField(2, IntField(2, IntField(2, End))))
  }

  function SyncFr(): Frame {
    IntField(2, IntField(2, End))
  }

  function SyncReplyFr(): Frame {
    IntField(2, IntField(2, End))
  }

  function CommitFr(): Frame {
    IntField(2, IntField(2, IntField(2, IntField(2, BytesField(3, PadField(4, ListField(2, 1, 1,
      IntField(4, End), PadField(4, End))))))))
  }

  function CommitCharsFr(): Frame {
    IntField(2, IntField(2, IntField(2, IntField(2, BytesField(3, PadField(4, End))))))
  }

  function CommitBothFr(): Frame {
    IntField(2, IntField(2, IntField(2, PadField(4, IntField(4, IntField(2, BytesField(4, PadField(4,
      End))))))))
  }

  function ResetIcFr(): Frame {
    IntField(2, IntField(2, End))
  }

  function ResetIcReplyFr(): Frame {
    IntField(2, IntField(2, IntField(2, BytesField(2, PadField(4, End)))))
  }

  function GeometryFr(): Frame {
    IntField(2, IntField(2, End))
  }

  function StrConversionFr(): Frame {
    IntField(2, IntField(2, IntField(4, IntField(4, IntField(4, IntField(2, IntField(2, BytesField(6,
      PadField(4, End)))))))))
  }

  function StrConversionReplyFr(): Frame {
    IntField(2, IntField(2, IntField(4, IntField(2, BytesField(3, PadField(4, ListField(2, 1, 4,
      IntField(4, End), End)))))))
  }

  function PreeditStartFr(): Frame {
    IntField(2, IntField(2, End))
  }

  function PreeditStartReplyFr(): Frame {
    IntField(2, IntField(2, IntField(4, End)))
  }

  function PreeditDrawFr(): Frame {
    IntField(2, IntField(2, IntField(4, IntField(4, IntField(4, IntField(4, IntField(2, BytesField(6,
      PadField(4, ListField(2, 1, 4, IntField(4, End), End))))))))))
  }

  function PreeditCaretFr(): Frame {
    IntField(2, IntField(2, IntField(4, IntField(4, IntField(4, End)))))
  }

  function PreeditCaretReplyFr(): Frame {
    IntField(2, IntField(2, IntField(4, End)))
  }

  function PreeditDoneFr(): Frame {
    IntField(2, IntField(2, End))
  }

  function StatusStartFr(): Frame {
    IntField(2, IntField(2, End))
  }

  function StatusDrawTextFr(): Frame {
    IntField(2, IntField(2, IntField(4, IntField(4, IntField(2, BytesField(4, PadField(4, ListField(2,
      1, 4, IntField(4, End), End))))))))
  }

  function StatusDrawBitmapFr(): Frame {
    IntField(2, IntField(2, IntField(4, IntField(4, End))))
  }

  function StatusDoneFr(): Frame {
    IntField(2, IntField(2, End))
  }

  function ExtSetEventMaskFr(): Frame {
    IntField(2, IntField(2, IntField(4, IntField(4, IntField(4, IntField(4, IntField(4, End)))))))
  }

  function ExtForwardKeyeventFr(): Frame {
    IntField(2, IntField(2, IntField(2, IntField(2, IntField(1, IntField(1, IntField(2, IntField(4,
      IntField(4, End)))))))))
  }

  function ExtMoveFr(): Frame {
    IntField(2, IntField(2, IntField(2, IntField(2, End))))
  }

  // ----------------------------------------------------------- all of them

  /** The frames by name: first the building blocks, then the messages, which have opcodes. */
  datatype Name =
    | Ximattr | Xicattr | Ximattribute | Xicattribute | Ximtriggerkey | Encodinginfo | Str | Xpcs | Ext
    | Inputstyle | AttrHead | Short | Long | Xrectangle | Xpoint | Fontset | InputStyles | PacketHeader | Error
    | Connect | ConnectReply | AuthRequired | AuthReply | AuthNext | AuthSetup | AuthNg | Disconnect
    | DisconnectReply | Open | OpenReply | Close | CloseReply | RegisterTriggerkeys | TriggerNotify
    | TriggerNotifyReply | SetEventMask | EncodingNegotiation | EncodingNegotiationReply | QueryExtension
    | QueryExtensionReply | GetImValues | GetImValuesReply | CreateIc | CreateIcReply | DestroyIc
    | DestroyIcReply | SetIcValues | SetIcValuesReply | GetIcValues | GetIcValuesReply | SetIcFocus
    | UnsetIcFocus | ForwardEvent | Sync | SyncReply | Commit | CommitChars | CommitBoth | ResetIc
    | ResetIcReply | Geometry | StrConversion | StrConversionReply | PreeditStart | PreeditStartReply
    | PreeditDraw | PreeditCaret | PreeditCaretReply | PreeditDone | StatusStart | StatusDrawText
    | StatusDrawBitmap | StatusDone | ExtSetEventMask | ExtForwardKeyevent | ExtMove

  function FrameOf(n: Name): Frame {
    match n
    case Ximattr => XimattrFr()
    case Xicattr => XicattrFr()
    case Ximattribute => XimattributeFr()
    case Xicattribute => XicattributeFr()
    case Ximtriggerkey => XimtriggerkeyFr()
    case Encodinginfo => EncodinginfoFr()
    case Str => StrFr()
    case Xpcs => XpcsFr()
    case Ext => ExtFr()
    case Inputstyle => InputstyleFr()
    case AttrHead => AttrHeadFr()
    case Short => ShortFr()
    case Long => LongFr()
    case Xrectangle => XrectangleFr()
    case Xpoint => XpointFr()
    case Fontset => FontsetFr()
    case InputStyles => InputStylesFr()
    case PacketHeader => PacketHeaderFr()
    case Error => ErrorFr()
    case Connect => ConnectFr()
    case ConnectReply => ConnectReplyFr()
    case AuthRequired => AuthRequiredFr()
    case AuthReply => AuthReplyFr()
    case AuthNext => AuthNextFr()
    case AuthSetup => AuthSetupFr()
    case AuthNg => AuthNgFr()
    case Disconnect => DisconnectFr()
    case DisconnectReply => DisconnectReplyFr()
    case Open => OpenFr()
    case OpenReply => OpenReplyFr()
    case Close => CloseFr()
    case CloseReply => CloseReplyFr()
    case RegisterTriggerkeys => RegisterTriggerkeysFr()
    case TriggerNotify => TriggerNotifyFr()
    case TriggerNotifyReply => TriggerNotifyReplyFr()
    case SetEventMask => SetEventMaskFr()
    case EncodingNegotiation => EncodingNegotiationFr()
    case EncodingNegotiationReply => EncodingNegotiationReplyFr()
    case QueryExtension => QueryExtensionFr()
    case QueryExtensionReply => QueryExtensionReplyFr()
    case GetImValues => GetImValuesFr()
    case GetImValuesReply => GetImValuesReplyFr()
    case CreateIc => CreateIcFr()
    case CreateIcReply => CreateIcReplyFr()
    case DestroyIc => DestroyIcFr()
    case DestroyIcReply => DestroyIcReplyFr()
    case SetIcValues => SetIcValuesFr()
    case SetIcValuesReply => SetIcValuesReplyFr()
    case GetIcValues => GetIcValuesFr()
    case GetIcValuesReply => GetIcValuesReplyFr()
    case SetIcFocus => SetIcFocusFr()
    case UnsetIcFocus => UnsetIcFocusFr()
    case ForwardEvent => ForwardEventFr()
    case Sync => SyncFr()
    case SyncReply => SyncReplyFr()
    case Commit => CommitFr()
    case CommitChars => CommitCharsFr()
    case CommitBoth => CommitBothFr()
    case ResetIc => ResetIcFr()
    case ResetIcReply => ResetIcReplyFr()
    case Geometry => GeometryFr()
    case StrConversion => StrConversionFr()
    case StrConversionReply => StrConversionReplyFr()
    case PreeditStart => PreeditStartFr()
    case PreeditStartReply => PreeditStartReplyFr()
    case PreeditDraw => PreeditDrawFr()
    case PreeditCaret => PreeditCaretFr()
    case PreeditCaretReply => PreeditCaretReplyFr()
    case PreeditDone => PreeditDoneFr()
    case StatusStart => StatusStartFr()
    case StatusDrawText => StatusDrawTextFr()
    case StatusDrawBitmap => StatusDrawBitmapFr()
    case StatusDone => StatusDoneFr()
    case ExtSetEventMask => ExtSetEventMaskFr()
    case ExtForwardKeyevent => ExtForwardKeyeventFr()
    case ExtMove => ExtMoveFr()
  }

  predicate IsPart(n: Name) {
    || n.Ximattr? || n.Xicattr? || n.Ximattribute? || n.Xicattribute? || n.Ximtriggerkey? || n.Encodinginfo?
    || n.Str? || n.Xpcs? || n.Ext? || n.Inputstyle? || n.AttrHead? || n.Short? || n.Long? || n.Xrectangle?
    || n.Xpoint? || n.Fontset? || n.InputStyles? || n.PacketHeader?
  }

  /** A message frame: one with an opcode of its own. */
  ghost predicate IsMessage(f: Frame) {
    exists n: Name :: !IsPart(n) && f == FrameOf(n)
  }

  /** The sizes that ximproto-gen.h prints; -1 where it declares a size function instead. */
  function GenSize(n: Name): int {
    match n
    case Ximtriggerkey => 12
    case Inputstyle => 4
    case AttrHead => 4
    case Short => 2
    case Long => 4
    case Xrectangle => 8
    case Xpoint => 4
    case PacketHeader => 4
    case ConnectReply => 4
    case AuthNg => 0
    case Disconnect => 0
    case DisconnectReply => 0
    case Close => 4
    case CloseReply => 4
    case TriggerNotify => 16
    case TriggerNotifyReply => 4
    case SetEventMask => 12
    case EncodingNegotiationReply => 8
    case CreateIcReply => 4
    case DestroyIc => 4
    case DestroyIcReply => 4
    case SetIcValuesReply => 4
    case SetIcFocus => 4
    case UnsetIcFocus => 4
    case ForwardEvent => 8
    case Sync => 4
    case SyncReply => 4
    case ResetIc => 4
    case Geometry => 4
    case PreeditStart => 4
    case PreeditStartReply => 8
    case PreeditCaret => 16
    case PreeditCaretReply => 8
    case PreeditDone => 4
    case StatusStart => 4
    case StatusDrawBitmap => 12
    case StatusDone => 4
    case ExtSetEventMask => 24
    case ExtForwardKeyevent => 20
    case ExtMove => 8
    case _ => -1
  }

  /** What the theorems ask of a message: well formed, of the size printed, and ending at a
      multiple of four bytes. */
  predicate Checked(f: Frame, size: int) {
    && WellFormed(f, 0)
    && EndPhase(f, Some(0)) == Some(0)
    && StaticSize(f, 0) == size
  }

  /** And of a part: every value takes a byte, so that a loop over a list of them ends. */
  predicate CheckedPart(f: Frame, size: int) {
    WellFormed(f, 0) && Productive(f) && StaticSize(f, 0) == size
  }

  lemma Parts1()
    ensures CheckedPart(XimattrFr(), -1)
    ensures CheckedPart(XicattrFr(), -1)
    ensures CheckedPart(XimattributeFr(), -1)
    ensures CheckedPart(XicattributeFr(), -1)
    ensures CheckedPart(XimtriggerkeyFr(), 12)
    ensures CheckedPart(EncodinginfoFr(), -1)
  {
  }

  lemma Parts2()
    ensures CheckedPart(StrFr(), -1)
    ensures CheckedPart(XpcsFr(), -1)
    ensures CheckedPart(ExtFr(), -1)
    ensures CheckedPart(InputstyleFr(), 4)
    ensures CheckedPart(AttrHeadFr(), 4)
    ensures CheckedPart(ShortFr(), 2)
  {
  }

  lemma Parts3()
    ensures CheckedPart(LongFr(), 4)
    ensures CheckedPart(XrectangleFr(), 8)
    ensures CheckedPart(XpointFr(), 4)
    ensures CheckedPart(FontsetFr(), -1)
    ensures CheckedPart(InputStylesFr(), -1)
    ensures CheckedPart(PacketHeaderFr(), 4)
  {
  }

  lemma Messages1()
    ensures Checked(ErrorFr(), -1)
  {
  }

  lemma Messages2()
    ensures Checked(ConnectFr(), -1)
  {
  }

  lemma Messages3()
    ensures Checked(ConnectReplyFr(), 4)
    ensures Checked(AuthRequiredFr(), -1)
  {
  }

  lemma Messages4()
    ensures Checked(AuthReplyFr(), -1)
    ensures Checked(AuthNextFr(), -1)
    ensures Checked(AuthSetupFr(), -1)
    ensures Checked(AuthNgFr(), 0)
  {
  }

  lemma Messages5()
    ensures Checked(DisconnectFr(), 0)
    ensures Checked(DisconnectReplyFr(), 0)
    ensures Checked(OpenFr(), -1)
    ensures Checked(OpenReplyFr(), -1)
  {
  }

  lemma Messages6()
    ensures Checked(CloseFr(), 4)
    ensures Checked(CloseReplyFr(), 4)
    ensures Checked(RegisterTriggerkeysFr(), -1)
    ensures Checked(TriggerNotifyFr(), 16)
  {
  }

  lemma Messages7()
    ensures Checked(TriggerNotifyReplyFr(), 4)
    ensures Checked(SetEventMaskFr(), 12)
    ensures Checked(EncodingNegotiationFr(), -1)
    ensures Checked(EncodingNegotiationReplyFr(), 8)
  {
  }

  lemma Messages8()
    ensures Checked(QueryExtensionFr(), -1)
    ensures Checked(QueryExtensionReplyFr(), -1)
  {
  }

  lemma Messages9()
    ensures Checked(GetImValuesFr(), -1)
    ensures Checked(GetImValuesReplyFr(), -1)
  {
  }

  lemma Messages10()
    ensures Checked(CreateIcFr(), -1)
    ensures Checked(CreateIcReplyFr(), 4)
    ensures Checked(DestroyIcFr(), 4)
    ensures Checked(DestroyIcReplyFr(), 4)
  {
  }

  lemma Messages11()
    ensures Checked(SetIcValuesFr(), -1)
    ensures Checked(SetIcValuesReplyFr(), 4)
    ensures Checked(GetIcValuesFr(), -1)
    ensures Checked(GetIcValuesReplyFr(), -1)
  {
  }

  lemma Messages12()
    ensures Checked(SetIcFocusFr(), 4)
    ensures Checked(UnsetIcFocusFr(), 4)
    ensures Checked(ForwardEventFr(), 8)
    ensures Checked(SyncFr(), 4)
  {
  }

  lemma Messages13()
    ensures Checked(SyncReplyFr(), 4)
    ensures Checked(CommitFr(), -1)
  {
  }

  lemma Messages14()
    ensures Checked(CommitCharsFr(), -1)
    ensures Checked(CommitBothFr(), -1)
  {
  }

  lemma Messages15()
    ensures Checked(ResetIcFr(), 4)
    ensures Checked(ResetIcReplyFr(), -1)
    ensures Checked(GeometryFr(), 4)
    ensures Checked(StrConversionFr(), -1)
  {
  }

  lemma Messages16()
    ensures Checked(StrConversionReplyFr(), -1)
    ensures Checked(PreeditStartFr(), 4)
    ensures Checked(PreeditStartReplyFr(), 8)
  {
  }

  lemma Messages17()
    ensures Checked(PreeditDrawFr(), -1)
  {
  }

  lemma Messages18()
    ensures Checked(PreeditCaretFr(), 16)
    ensures Checked(PreeditCaretReplyFr(), 8)
    ensures Checked(PreeditDoneFr(), 4)
    ensures Checked(StatusStartFr(), 4)
  {
  }

  lemma Messages19()
    ensures Checked(StatusDrawTextFr(), -1)
    ensures Checked(StatusDrawBitmapFr(), 12)
  {
  }

  lemma Messages20()
    ensures Checked(StatusDoneFr(), 4)
    ensures Checked(ExtSetEventMaskFr(), 24)
  {
  }

  lemma Messages21()
    ensures Checked(ExtForwardKeyeventFr(), 20)
  {
  }

  lemma Messages22()
    ensures Checked(ExtMoveFr(), 8)
  {
  }

  /** All 76 frames. */
  lemma Facts(n: Name)
    ensures if IsPart(n) then CheckedPart(FrameOf(n), GenSize(n)) else Checked(FrameOf(n), GenSize(n))
  {
    hide Checked, CheckedPart;
    Parts1(); Parts2(); Parts3(); Messages1(); Messages2(); Messages3(); Messages4(); Messages5(); Messages6();
    Messages7(); Messages8(); Messages9(); Messages10(); Messages11(); Messages12(); Messages13();
    Messages14(); Messages15(); Messages16(); Messages17(); Messages18(); Messages19(); Messages20();
    Messages21(); Messages22();
  }

  /** Where ximproto-gen.h prints a number, it is the size of every value of the frame. */
  lemma SizesAsGenerated(n: Name, v: Val)
    requires Shape(FrameOf(n), v, []) && GenSize(n) >= 0
    ensures Size(FrameOf(n), v, 0) == GenSize(n)
  {
    hide FrameOf, GenSize, IsPart, Shape, Size, StaticSize, WellFormed, EndPhase, Productive;
    Facts(n);
    StaticSizeIsSize(FrameOf(n), v, 0, []);
  }

  /** What the theorems about messages need. */
  lemma MessageFacts(f: Frame)
    requires IsMessage(f)
    ensures WellFormed(f, 0) && EndPhase(f, Some(0)) == Some(0)
  {
    hide FrameOf, GenSize, IsPart, StaticSize, WellFormed, EndPhase, Productive;
    var n: Name :| !IsPart(n) && f == FrameOf(n);
    Facts(n);
  }
}
