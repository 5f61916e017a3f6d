/**
 Integers on the wire (parser.c): a value is stored with the host's own byte order, and its
 bytes are swapped first when the client's order differs from the host's.
 */
module XimWire {
  import opened Text

  /** `big`: the host stores the high byte first; `swap`: the peer uses the other order. */
  datatype Order = Order(big: bool, swap: bool)

  predicate IsWidth(w: nat) {
    w == 1 || w == 2 || w == 4
  }

  function Limit(w: nat): nat
    requires IsWidth(w)
  {
    if w == 1 then 0x100 else if w == 2 then 0x1_0000 else 0x1_0000_0000
  }

  function Reverse(b: seq<Byte>): (r: seq<Byte>)
    requires IsWidth(|b|)
    ensures |r| == |b|
    ensures forall i :: 0 <= i < |b| ==> r[i] == b[|b| - 1 - i]
  {
    if |b| == 1 then b else if |b| == 2 then [b[1], b[0]] else [b[3], b[2], b[1], b[0]]
  }

  /** Swap8, Swap16 and Swap32 applied when asked for. */
  function SwapInt(n: nat, w: nat): (r: nat)
    requires IsWidth(w) && n < Limit(w)
    ensures r < Limit(w)
  {
    if w == 1 then n
    else if w == 2 then n % 0x100 * 0x100 + n / 0x100
    else
      n % 0x100 * 0x100_0000 + n / 0x100 % 0x100 * 0x1_0000 + n / 0x1_0000 % 0x100 * 0x100 + n / 0x100_0000
  }

  /** The image of `n` in the memory of the host. */
  function Store(n: nat, w: nat, big: bool): (b: seq<Byte>)
    requires IsWidth(w) && n < Limit(w)
    ensures |b| == w
  {
    var little :=
      if w == 1 then [n]
      else if w == 2 then [n % 0x100, n / 0x100]
      else [n % 0x100, n / 0x100 % 0x100, n / 0x1_0000 % 0x100, n / 0x100_0000];
    if big then Reverse(little) else little
  }

  function Load(b: seq<Byte>, big: bool): (n: nat)
    requires IsWidth(|b|)
    ensures n < Limit(|b|)
  {
    var l := if big then Reverse(b) else b;
    var d: seq<int> := l;
    if |d| == 1 then d[0]
    else if |d| == 2 then d[0] + 0x100 * d[1]
    else d[0] + 0x100 * d[1] + 0x1_0000 * d[2] + 0x100_0000 * d[3]
  }

  /** uint8_t_write, uint16_t_write, uint32_t_write. */
  function PutInt(n: nat, w: nat, o: Order): (b: seq<Byte>)
    requires IsWidth(w) && n < Limit(w)
    ensures |b| == w
  {
    Store(if o.swap then SwapInt(n, w) else n, w, o.big)
  }

  /** uint8_t_read, uint16_t_read, uint32_t_read, once enough bytes are known to be there. */
  function GetInt(b: seq<Byte>, o: Order): (n: nat)
    requires IsWidth(|b|)
    ensures n < Limit(|b|)
  {
    var n := Load(b, o.big);
    if o.swap then SwapInt(n, |b|) else n
  }

  lemma StoreBig(n: nat, w: nat)
    requires IsWidth(w) && n < Limit(w)
    ensures Store(n, w, true) == Reverse(Store(n, w, false))
  {
  }

  lemma LoadBig(b: seq<Byte>)
    requires IsWidth(|b|)
    ensures Load(b, true) == Load(Reverse(b), false)
  {
  }

  lemma ReverseTwice(b: seq<Byte>)
    requires IsWidth(|b|)
    ensures Reverse(Reverse(b)) == b
  {
  }

  lemma TwoBytes(n: nat)
    ensures n / 0x100 / 0x100 == n / 0x1_0000
  {
  }

  lemma ThreeBytes(n: nat)
    ensures n / 0x1_0000 / 0x100 == n / 0x100_0000
  {
  }

  lemma FromDigits(n: nat)
    ensures n == n % 0x100 + 0x100 * (n / 0x100 % 0x100) + 0x1_0000 * (n / 0x1_0000 % 0x100)
                 + 0x100_0000 * (n / 0x100_0000)
  {
    var m, p := n / 0x100, n / 0x1_0000;
    TwoBytes(n);
    ThreeBytes(n);
    assert n == 0x100 * m + n % 0x100;
    assert m == 0x100 * p + m % 0x100;
    assert p == 0x100 * (p / 0x100) + p % 0x100;
  }

  lemma LoadStoreLittle(n: nat, w: nat)
    requires IsWidth(w) && n < Limit(w)
    ensures Load(Store(n, w, false), false) == n
  {
    FromDigits(n);
  }

  lemma LoadStore(n: nat, w: nat, big: bool)
    requires IsWidth(w) && n < Limit(w)
    ensures Load(Store(n, w, big), big) == n
  {
    hide Store, Load, Reverse;
    LoadStoreLittle(n, w);
    StoreBig(n, w);
    LoadBig(Store(n, w, true));
    ReverseTwice(Store(n, w, false));
  }

  lemma StoreLoadLittle(b: seq<Byte>)
    requires IsWidth(|b|)
    ensures Store(Load(b, false), |b|, false) == b
  {
    if |b| == 4 {
      Digits(b[0], b[1], b[2], b[3]);
    }
  }

  lemma StoreLoad(b: seq<Byte>, big: bool)
    requires IsWidth(|b|)
    ensures Store(Load(b, big), |b|, big) == b
  {
    hide Store, Load, Reverse;
    var l := if big then Reverse(b) else b;
    StoreLoadLittle(l);
    LoadBig(b);
    StoreBig(Load(l, false), |b|);
    ReverseTwice(b);
  }

  lemma Digits(a: Byte, b: Byte, c: Byte, d: Byte)
    ensures var n: nat := a + 0x100 * b + 0x1_0000 * c + 0x100_0000 * d;
            n % 0x100 == a && n / 0x100 % 0x100 == b && n / 0x1_0000 % 0x100 == c && n / 0x100_0000 == d
  {
    var n: nat := a + 0x100 * b + 0x1_0000 * c + 0x100_0000 * d;
    assert n / 0x100 == b + 0x100 * c + 0x1_0000 * d;
    assert n / 0x1_0000 == c + 0x100 * d;
  }

  /** Swapping the bytes of a value reverses its image. */
  lemma SwapReverses(n: nat, w: nat, big: bool)
    requires IsWidth(w) && n < Limit(w)
    ensures Store(SwapInt(n, w), w, big) == Reverse(Store(n, w, big))
  {
    if w == 2 {
      var s := SwapInt(n, w);
      assert s / 0x100 == n % 0x100 && s % 0x100 == n / 0x100;
    } else if w == 4 {
      Digits(n / 0x100_0000, n / 0x1_0000 % 0x100, n / 0x100 % 0x100, n % 0x100);
    }
  }

  lemma SwapTwice(n: nat, w: nat)
    requires IsWidth(w) && n < Limit(w)
    ensures SwapInt(SwapInt(n, w), w) == n
  {
    SwapReverses(n, w, false);
    SwapReverses(SwapInt(n, w), w, false);
    LoadStore(n, w, false);
    LoadStore(SwapInt(SwapInt(n, w), w), w, false);
    var b := Store(n, w, false);
    ReverseTwice(b);
  }

  lemma GetPut(n: nat, w: nat, o: Order)
    requires IsWidth(w) && n < Limit(w)
    ensures GetInt(PutInt(n, w, o), o) == n
  {
    LoadStore(if o.swap then SwapInt(n, w) else n, w, o.big);
    SwapTwice(n, w);
  }

  lemma PutGet(b: seq<Byte>, o: Order)
    requires IsWidth(|b|)
    ensures PutInt(GetInt(b, o), |b|, o) == b
  {
    StoreLoad(b, o.big);
    SwapTwice(Load(b, o.big), |b|);
  }

  /** The bytes depend only on the peer's order: two hosts that talk to the same peer agree. */
  lemma WireOrder(n: nat, w: nat, o: Order)
    requires IsWidth(w) && n < Limit(w)
    ensures PutInt(n, w, o) == PutInt(n, w, Order(!o.big, !o.swap))
  {
    SwapReverses(n, w, o.big);
    SwapReverses(n, w, !o.big);
    ReverseTwice(Store(n, w, false));
  }

  /** The byte order on the wire is big-endian. */
  predicate WireBig(o: Order) {
    o.big != o.swap
  }

  /** Likewise for reading: what a host makes of some bytes depends on their order alone. */
  lemma SameWire(b: seq<Byte>, o: Order, p: Order)
    requires IsWidth(|b|) && WireBig(o) == WireBig(p)
    ensures GetInt(b, o) == GetInt(b, p)
  {
    hide Store, Load, SwapInt, PutInt, GetInt;
    var n := GetInt(b, o);
    PutGet(b, o);
    if p != o {
      WireOrder(n, |b|, o);
      GetPut(n, |b|, p);
    }
  }

  // ------------------------------------------------------ positional values

  /** What the byte `k` places above the lowest counts for. */
  function Weight(k: nat): (u: nat)
    ensures u > 0
  {
    if k == 0 then 1 else 0x100 * Weight(k - 1)
  }

  lemma Weights()
    ensures Weight(0) == 1 && Weight(1) == 0x100 && Weight(2) == 0x1_0000 && Weight(3) == 0x100_0000
  {
    assert Weight(1) == 0x100 * Weight(0);
    assert Weight(2) == 0x100 * Weight(1);
  }

  /** The number that bytes stand for, the highest first. */
  function Positional(b: seq<Byte>): nat {
    if b == [] then 0
    else
      var last: int := b[|b| - 1];
      0x100 * Positional(b[..|b| - 1]) + last
  }

  lemma LittleByte(n: nat, w: nat, i: nat)
    requires IsWidth(w) && n < Limit(w) && i < w
    ensures Store(n, w, false)[i] == n / Weight(i) % 0x100
  {
    Weights();
    hide Weight;
    if w == 1 {
      assert n % 0x100 == n;
    } else if w == 2 {
      assert n / 0x100 % 0x100 == n / 0x100;
    } else {
      assert n / 0x100_0000 % 0x100 == n / 0x100_0000;
    }
  }

  /** On the wire byte `i` of an integer is the digit of that place, counted from the high end when
      the wire is big-endian, else from the low end. */
  lemma ByteOnWire(n: nat, w: nat, o: Order, i: nat)
    requires IsWidth(w) && n < Limit(w) && i < w
    ensures PutInt(n, w, o)[i] == n / Weight(if WireBig(o) then w - 1 - i else i) % 0x100
  {
    hide Store, Reverse, Weight, SwapInt;
    var s := SwapInt(n, w);
    StoreBig(n, w);
    StoreBig(s, w);
    SwapReverses(n, w, false);
    ReverseTwice(Store(n, w, false));
    LittleByte(n, w, i);
    LittleByte(n, w, w - 1 - i);
  }

  lemma PositionalBig(b: seq<Byte>)
    requires IsWidth(|b|)
    ensures Load(b, true) == Positional(b)
  {
    hide Positional;
    if |b| == 4 {
      PositionalStep(b);
      PositionalStep(b[..3]);
      assert b[..3][..2] == b[..2];
      PositionalShort(b[..2]);
    } else {
      PositionalShort(b);
    }
  }

  lemma PositionalShort(b: seq<Byte>)
    requires |b| == 1 || |b| == 2
    ensures var l: seq<int> := b;
            Positional(b) == if |l| == 1 then l[0] else 0x100 * l[0] + l[1]
  {
    PositionalStep(b);
    PositionalStep(b[..1]);
    assert b[..1][..0] == [];
  }

  lemma PositionalStep(b: seq<Byte>)
    requires b != []
    ensures var last: int := b[|b| - 1]; Positional(b) == 0x100 * Positional(b[..|b| - 1]) + last
  {
  }

  /** And the integer read is the number that the bytes stand for, in the order of the wire. */
  lemma ReadsPositional(b: seq<Byte>, o: Order)
    requires IsWidth(|b|)
    ensures GetInt(b, o) == Positional(if WireBig(o) then b else Reverse(b))
  {
    hide Load, Positional, Reverse, SwapInt;
    SameWire(b, o, Order(WireBig(o), false));
    PositionalBig(b);
    PositionalBig(Reverse(b));
    LoadBig(Reverse(b));
    ReverseTwice(b);
  }

  // --------------------------------------------------------------- alignment

  /** align_to_2 and align_to_4: the bytes to skip after `len` of them; align 1 skips none. */
  function AlignDiff(len: nat, align: nat): (d: nat)
    requires IsWidth(align)
  {
    if len % align == 0 then 0 else align - len % align
  }

  /** How far a position is into a group of four bytes: all that alignment depends on. */
  type Phase = p: nat | p < 4

  function Shift(p: Phase, n: nat): Phase {
    (p + n) % 4
  }

  function PadLen(p: Phase, align: nat): (d: nat)
    requires IsWidth(align)
  {
    if align == 4 then (if p == 0 then 0 else 4 - p)
    else if align == 2 && (p == 1 || p == 3) then 1
    else 0
  }

  /** The phase after the padding. */
  function Aligned(p: Phase, align: nat): Phase
    requires IsWidth(align)
  {
    if align == 4 || (align == 2 && p == 3) then 0 else if align == 2 && p == 1 then 2 else p
  }

  /** The phase of a position `at` in a frame that starts at `start`. */
  function PhaseAt(start: nat, at: nat): Phase
    requires start <= at
  {
    (at - start) % 4
  }

  lemma Halves(len: nat)
    ensures len % 2 == if len % 4 == 1 || len % 4 == 3 then 1 else 0
  {
  }

  lemma StepInFour(len: nat, d: nat)
    requires d < 4
    ensures (len + d) % 4 == if len % 4 + d < 4 then len % 4 + d else len % 4 + d - 4
  {
  }

  /** Working with phases is working with positions. */
  lemma PhaseOfPosition(start: nat, at: nat, align: nat)
    requires IsWidth(align) && start <= at
    ensures var d := AlignDiff(at - start, align);
            && d == PadLen(PhaseAt(start, at), align) && (at + d - start) % align == 0 && d < align
            && PhaseAt(start, at + d) == Aligned(PhaseAt(start, at), align)
  {
    var len := at - start;
    var d := AlignDiff(len, align);
    Halves(len);
    Halves(len + d);
    StepInFour(len, d);
    assert at + d - start == len + d;
  }

  lemma ShiftOfPosition(start: nat, at: nat, n: nat)
    requires start <= at
    ensures PhaseAt(start, at + n) == Shift(PhaseAt(start, at), n)
    ensures PhaseAt(start, start) == 0
  {
    var q := (at - start) / 4;
    assert at - start == 4 * q + PhaseAt(start, at);
  }
}
