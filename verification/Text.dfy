/**
 Runes, their UTF-8 form (section 3 of RFC 3629), and the bounded rune strings of str.c.

 A value of type `Text` is what a C `Str` holds; the class `StrBuffer` below is the C
 structure itself, a 64-rune array with a counter, proved to implement operations on `Text`.
 */
module Text {

  const MAX_RUNES := 64
  const UTF_MAX := 4
  const RUNE_ERROR: Rune := 0xFFFD

  type Byte = x: int | 0 <= x < 0x100
  type Rune = x: int | 0 <= x < 0x1_0000_0000
  type Text = s: seq<Rune> | |s| <= MAX_RUNES

  /** A Unicode scalar value: the runes that UTF-8 can carry. */
  predicate ValidRune(r: Rune) {
    r < 0xD800 || 0xE000 <= r < 0x11_0000
  }

  ghost predicate ValidRunes(s: seq<Rune>) {
    forall i :: 0 <= i < |s| ==> ValidRune(s[i])
  }

  // ---------------------------------------------------------------- UTF-8

  function Utf8(r: Rune): (b: seq<Byte>)
    ensures 1 <= |b| <= UTF_MAX
    ensures r < 0x80 ==> b == [r]
  {
    if r < 0x80 then [r]
    else if r < 0x800 then [0xC0 + r / 0x40, 0x80 + r % 0x40]
    else if !ValidRune(r) then [0xEF, 0xBF, 0xBD]
    else if r < 0x1_0000 then [0xE0 + r / 0x1000, 0x80 + r / 0x40 % 0x40, 0x80 + r % 0x40]
    else [0xF0 + r / 0x4_0000, 0x80 + r / 0x1000 % 0x40, 0x80 + r / 0x40 % 0x40, 0x80 + r % 0x40]
  }

  predicate Tail(b: Byte) {
    0x80 <= b < 0xC0
  }

  /** The first rune of `b` and the number of bytes it takes; malformed input yields one
      RUNE_ERROR per byte. */
  function CharToRune(b: seq<Byte>): (res: (Rune, nat))
    requires b != []
    ensures 1 <= res.1 <= |b|
  {
    var c: int := b[0];
    var c1: int := if |b| >= 2 && Tail(b[1]) then b[1] - 0x80 else -1;
    var c2: int := if |b| >= 3 && Tail(b[2]) then b[2] - 0x80 else -1;
    var c3: int := if |b| >= 4 && Tail(b[3]) then b[3] - 0x80 else -1;
    if c < 0x80 then (c, 1)
    else if 0xC2 <= c < 0xE0 && c1 >= 0 then
      ((c - 0xC0) * 0x40 + c1, 2)
    else if 0xE0 <= c < 0xF0 && c1 >= 0 && c2 >= 0 then
      var r := (c - 0xE0) * 0x1000 + c1 * 0x40 + c2;
      if r < 0x800 || !ValidRune(r) then (RUNE_ERROR, 1) else (r, 3)
    else if 0xF0 <= c < 0xF8 && c1 >= 0 && c2 >= 0 && c3 >= 0 then
      var r := (c - 0xF0) * 0x4_0000 + c1 * 0x1000 + c2 * 0x40 + c3;
      if r < 0x1_0000 || !ValidRune(r) then (RUNE_ERROR, 1) else (r, 4)
    else (RUNE_ERROR, 1)
  }

  lemma CharRoundTrip(r: Rune, rest: seq<Byte>)
    requires ValidRune(r)
    ensures CharToRune(Utf8(r) + rest) == (r, |Utf8(r)|)
  {
    var u := Utf8(r);
    assert forall i :: 0 <= i < |u| ==> (u + rest)[i] == u[i];
    if 0x80 <= r < 0x800 {
      assert r == r / 0x40 * 0x40 + r % 0x40;
    } else if 0x800 <= r < 0x1_0000 {
      ThreeGroups(r);
    } else if r >= 0x1_0000 {
      WideRoundTrip(r, rest);
    }
  }

  lemma WideRoundTrip(r: Rune, rest: seq<Byte>)
    requires 0x1_0000 <= r < 0x11_0000
    ensures CharToRune(Utf8(r) + rest) == (r, 4)
  {
    var u := Utf8(r);
    assert forall i :: 0 <= i < |u| ==> (u + rest)[i] == u[i];
    ThreeGroups(r);
    assert r / 0x1000 == r / 0x4_0000 * 0x40 + r / 0x1000 % 0x40;
  }

  lemma ThreeGroups(r: nat)
    ensures r == r / 0x1000 * 0x1000 + r / 0x40 % 0x40 * 0x40 + r % 0x40
  {
    assert r / 0x40 == r / 0x1000 * 0x40 + r / 0x40 % 0x40;
  }

  /** Weights of six bits. */
  function Six(k: nat): nat {
    match k
    case 0 => 1
    case 1 => 0x40
    case 2 => 0x1000
    case _ => 0x4_0000
  }

  /** The table of section 3 of RFC 3629: as few bytes as the number needs, the first with the highest
      bits behind a mark of how many there are, each further one with the next six. */
  lemma Utf8Bits(r: Rune, i: nat)
    requires ValidRune(r) && i < |Utf8(r)|
    ensures var n := |Utf8(r)|;
            && n == (if r < 0x80 then 1 else if r < 0x800 then 2 else if r < 0x1_0000 then 3 else 4)
            && Utf8(r)[i] == if i > 0 then 0x80 + r / Six(n - 1 - i) % 0x40
                             else r / Six(n - 1) + if n == 1 then 0 else if n == 2 then 0xC0 else if n == 3 then 0xE0
                                                   else 0xF0
  {
  }

  /** The first rune is read exactly when the bytes begin with those of a valid rune; else one byte is
      taken for an error. */
  lemma ReadsExactly(b: seq<Byte>)
    requires b != []
    ensures forall r: Rune :: ValidRune(r) && Utf8(r) <= b ==> CharToRune(b) == (r, |Utf8(r)|)
    ensures (forall r: Rune :: ValidRune(r) ==> !(Utf8(r) <= b)) ==> CharToRune(b) == (RUNE_ERROR, 1)
  {
    forall r: Rune | ValidRune(r) && Utf8(r) <= b
      ensures CharToRune(b) == (r, |Utf8(r)|)
    {
      assert b == Utf8(r) + b[|Utf8(r)|..];
      CharRoundTrip(r, b[|Utf8(r)|..]);
    }
    if CharToRune(b) != (RUNE_ERROR, 1) {
      BytesOfRead(b);
      hide CharToRune, Utf8;
    }
  }

  lemma BytesOfRead(b: seq<Byte>)
    requires b != [] && CharToRune(b) != (RUNE_ERROR, 1)
    ensures ValidRune(CharToRune(b).0) && Utf8(CharToRune(b).0) <= b
  {
    var (r, n) := CharToRune(b);
    if n == 2 {
      var c0: int, c1: int := b[0], b[1];
      assert r / 0x40 == c0 - 0xC0 && r % 0x40 == c1 - 0x80;
    } else if n == 3 {
      SixBits(r, 0, b[0] - 0xE0, b[1] - 0x80, b[2] - 0x80);
    } else if n == 4 {
      SixBits(r, b[0] - 0xF0, b[1] - 0x80, b[2] - 0x80, b[3] - 0x80);
    }
    assert Utf8(r) == b[..n];
  }

  lemma SixBits(r: nat, a: int, b: int, c: int, d: int)
    requires r == a * 0x4_0000 + b * 0x1000 + c * 0x40 + d
    requires 0 <= b < 0x40 && 0 <= c < 0x40 && 0 <= d < 0x40
    ensures r / 0x4_0000 == a && r / 0x1000 == a * 0x40 + b
    ensures r / 0x1000 % 0x40 == b && r / 0x40 % 0x40 == c && r % 0x40 == d
  {
    assert r / 0x40 == a * 0x1000 + b * 0x40 + c;
  }

  function Encode(s: seq<Rune>): (b: seq<Byte>)
    ensures |s| <= |b| <= UTF_MAX * |s|
  {
    if s == [] then [] else Utf8(s[0]) + Encode(s[1..])
  }

  /** At most `max` runes read from `b`: the loop of sinit. */
  function Decode(b: seq<Byte>, max: nat): (s: seq<Rune>)
    ensures |s| <= max
  {
    if b == [] || max == 0 then []
    else
      var (r, len) := CharToRune(b);
      [r] + Decode(b[len..], max - 1)
  }

  function FromUtf(b: seq<Byte>): Text {
    Decode(b, MAX_RUNES)
  }

  /** What stoutf writes: whole runes while fewer than `room` bytes have been used. */
  function Fit(s: seq<Rune>, room: int): (b: seq<Byte>)
    ensures |b| <= (if room <= 0 then 0 else room + UTF_MAX - 1)
  {
    if s == [] || room <= 0 then [] else Utf8(s[0]) + Fit(s[1..], room - |Utf8(s[0])|)
  }

  /** stoutf into a buffer of 256 bytes, as every lookup does. */
  function ToUtf(s: Text): seq<Byte> {
    Fit(s, 256 - UTF_MAX)
  }

  lemma {:induction false} EncodeSplit(s: seq<Rune>, t: seq<Rune>)
    ensures Encode(s + t) == Encode(s) + Encode(t)
  {
    if s == [] {
      assert s + t == t;
    } else {
      assert (s + t)[1..] == s[1..] + t;
      EncodeSplit(s[1..], t);
    }
  }

  lemma {:induction false} DecodeEncode(s: seq<Rune>, max: nat)
    requires ValidRunes(s)
    ensures Decode(Encode(s), max) == if |s| <= max then s else s[..max]
  {
    hide Utf8, CharToRune;
    if s != [] && max > 0 {
      CharRoundTrip(s[0], Encode(s[1..]));
      assert Encode(s)[|Utf8(s[0])|..] == Encode(s[1..]);
      DecodeEncode(s[1..], max - 1);
    }
  }

  /** What comes back of a rune: invalid ones are replaced. */
  function Carried(r: Rune): Rune {
    if ValidRune(r) then r else RUNE_ERROR
  }

  /** Reading the bytes of any runes gives as many runes, each one as it is carried. */
  lemma {:induction false} DecodeAny(s: seq<Rune>, max: nat)
    ensures var t := Decode(Encode(s), max);
            && |t| == (if |s| <= max then |s| else max)
            && forall i :: 0 <= i < |t| ==> t[i] == Carried(s[i])
  {
    hide Utf8, CharToRune;
    if s != [] && max > 0 {
      CharCarried(s[0], Encode(s[1..]));
      assert Encode(s)[|Utf8(s[0])|..] == Encode(s[1..]);
      DecodeAny(s[1..], max - 1);
    }
  }

  lemma CharCarried(r: Rune, rest: seq<Byte>)
    ensures CharToRune(Utf8(r) + rest) == (Carried(r), |Utf8(r)|)
  {
    if ValidRune(r) {
      CharRoundTrip(r, rest);
    } else {
      assert Utf8(r) == Utf8(RUNE_ERROR);
      CharRoundTrip(RUNE_ERROR, rest);
    }
  }

  /** stoutf keeps everything exactly when all runes but the last fit in `room` bytes with
      one byte to spare. */
  lemma {:induction false} FitLossless(s: seq<Rune>, room: int)
    ensures Fit(s, room) == Encode(s) <==> s == [] || |Encode(s[..|s| - 1])| < room
  {
    if s != [] {
      var u := Utf8(s[0]);
      if |s| == 1 {
        assert s[..0] == [] && s[1..] == [];
      } else {
        assert s[..|s| - 1][1..] == s[1..][..|s| - 2];
        if room > 0 {
          FitLossless(s[1..], room - |u|);
          SameTail(u, Fit(s[1..], room - |u|), Encode(s[1..]));
        }
      }
    }
  }

  lemma SameTail(u: seq<Byte>, a: seq<Byte>, b: seq<Byte>)
    ensures u + a == u + b <==> a == b
  {
    assert (u + a)[|u|..] == a && (u + b)[|u|..] == b;
  }

  /** stoutf writes the whole of some first runes. */
  lemma {:induction false} FitIsPrefix(s: seq<Rune>, room: int) returns (n: nat)
    ensures n <= |s| && Fit(s, room) == Encode(s[..n])
  {
    if s == [] || room <= 0 {
      n := 0;
      assert s[..0] == [];
    } else {
      var m := FitIsPrefix(s[1..], room - |Utf8(s[0])|);
      n := m + 1;
      assert s[..n][1..] == s[1..][..m];
    }
  }

  /** More runes take more bytes. */
  lemma PrefixShorter(s: seq<Rune>, n: nat)
    requires n <= |s|
    ensures Encode(s[..n]) == Encode(s) <==> n == |s|
  {
    hide Encode;
    EncodeSplit(s[..n], s[n..]);
    assert s[..n] + s[n..] == s;
  }

  lemma FitStep(s: seq<Rune>, i: nat, room: int)
    requires i < |s| && room > 0
    ensures Fit(s[i..], room) == Utf8(s[i]) + Fit(s[i + 1..], room - |Utf8(s[i])|)
  {
    assert s[i..][1..] == s[i + 1..];
  }

  lemma FitEnd(s: seq<Rune>, room: int)
    requires s == [] || room <= 0
    ensures Fit(s, room) == []
  {
  }

  lemma ShortTextLossless(s: Text)
    requires |s| < MAX_RUNES
    ensures ToUtf(s) == Encode(s)
  {
    FitLossless(s, 256 - UTF_MAX);
  }

  /** Writing a text of at most 63 valid runes and reading it back changes nothing, so two
      such texts have the same bytes only when they are the same. */
  lemma Utf8RoundTrip(s: Text)
    requires |s| < MAX_RUNES && ValidRunes(s)
    ensures FromUtf(ToUtf(s)) == s
  {
    ShortTextLossless(s);
    DecodeEncode(s, MAX_RUNES);
  }

  /** The bound of 63 is tight: 64 runes of four bytes lose their last rune. */
  lemma {:induction false} FullTextLosesRune(s: Text)
    requires |s| == MAX_RUNES && forall i :: 0 <= i < |s| ==> 0x1_0000 <= s[i] < 0x11_0000
    ensures FromUtf(ToUtf(s)) == s[..MAX_RUNES - 1]
  {
    FitWide(s, MAX_RUNES - 1);
    DecodeEncode(s[..MAX_RUNES - 1], MAX_RUNES);
  }

  lemma {:induction false} FitWide(s: seq<Rune>, k: nat)
    requires k < |s| && forall i :: 0 <= i < |s| ==> 0x1_0000 <= s[i] < 0x11_0000
    ensures Fit(s, UTF_MAX * k) == Encode(s[..k])
  {
    if k > 0 {
      FitWide(s[1..], k - 1);
      assert s[..k][1..] == s[1..][..k - 1];
    } else {
      assert s[..0] == [];
    }
  }

  lemma {:induction false} EncodeAscii(s: seq<Rune>)
    requires forall i :: 0 <= i < |s| ==> s[i] < 0x80
    ensures Encode(s) == s
  {
    if s != [] {
      EncodeAscii(s[1..]);
    }
  }

  // ------------------------------------------------- operations on texts

  /** sappend: what does not fit in 64 runes is dropped. */
  function Append(dst: Text, src: Text): (r: Text)
    ensures r <= dst + src
    ensures |r| == if |dst| + |src| <= MAX_RUNES then |dst| + |src| else MAX_RUNES
    ensures |dst| + |src| <= MAX_RUNES ==> r == dst + src
  {
    dst + src[..if |dst| + |src| <= MAX_RUNES then |src| else MAX_RUNES - |dst|]
  }

  /** slastr: 0 stands for "no last rune". */
  function Last(s: Text): Rune {
    if s == [] then 0 else s[|s| - 1]
  }

  /** spopr. */
  function Pop(s: Text): Text {
    if s == [] then s else s[..|s| - 1]
  }

  // ------------------------------------------------------------ strchr

  const TAB: Byte := 9

  /** Where a byte first stands, the length when it does not. */
  function Find(b: seq<Byte>, c: Byte): (n: nat)
    ensures n <= |b| && (n < |b| ==> b[n] == c)
    ensures forall i :: 0 <= i < n ==> b[i] != c
  {
    if b == [] || b[0] == c then 0 else 1 + Find(b[1..], c)
  }

  lemma FindIs(b: seq<Byte>, c: Byte, n: nat)
    requires n <= |b| && c !in b[..n] && (n < |b| ==> b[n] == c)
    ensures Find(b, c) == n
  {
    assert forall i :: 0 <= i < n ==> b[..n][i] == b[i];
  }

  method Strchr(b: seq<Byte>, c: Byte) returns (n: nat)
    ensures n == Find(b, c)
  {
    n := 0;
    while n < |b| && b[n] != c
      invariant n <= |b| && c !in b[..n]
    {
      n := n + 1;
    }
    FindIs(b, c, n);
  }

  // ---------------------------------------------------- the C structure

  /** runetochar's effect on the buffer. */
  method PutBytes(buf: array<Byte>, at: nat, u: seq<Byte>)
    requires at + |u| <= buf.Length
    modifies buf
    ensures buf[..at + |u|] == old(buf[..at]) + u
    ensures forall k :: at + |u| <= k < buf.Length ==> buf[k] == old(buf[k])
  {
    forall k | 0 <= k < |u| {
      buf[at + k] := u[k];
    }
  }

  class StrBuffer {
    const r: array<Rune>
    var n: nat

    ghost predicate Valid()
      reads this, r
    {
      r.Length == MAX_RUNES && n <= MAX_RUNES
    }

    ghost function Value(): Text
      requires Valid()
      reads this, r
    {
      r[..n]
    }

    constructor ()
      ensures Valid() && fresh(r) && Value() == []
    {
      r := new Rune[MAX_RUNES](_ => 0);
      n := 0;
    }

    method Clear()
      requires Valid()
      modifies this
      ensures Valid() && Value() == []
    {
      n := 0;
    }

    /** sputr; `ok == false` stands for the call of die on a full string. */
    method Put(x: Rune) returns (ok: bool)
      requires Valid()
      modifies this, r
      ensures Valid() && ok == (|old(Value())| < MAX_RUNES)
      ensures Value() == if ok then old(Value()) + [x] else old(Value())
    {
      ok := n < MAX_RUNES;
      if ok {
        r[n] := x;
        n := n + 1;
      }
    }

    method PopRune()
      requires Valid()
      modifies this, r
      ensures Valid() && Value() == Pop(old(Value()))
    {
      if n > 0 {
        n := n - 1;
        r[n] := 0;
      }
    }

    /** sappend. A non-empty string appended to itself grows until it is full. */
    method AppendFrom(src: StrBuffer)
      requires Valid() && src.Valid() && (src == this <==> src.r == r)
      modifies this, r
      ensures Valid() && src.Valid()
      ensures src != this ==> Value() == Append(old(Value()), src.Value()) && src.Value() == old(src.Value())
      ensures src == this ==> n == (if old(n) == 0 then 0 else MAX_RUNES)
      ensures src == this ==> r[..old(n)] == old(r[..n])
      ensures src == this ==> forall k :: 0 <= k < n - old(n) ==> r[old(n) + k] == r[k]
    {
      var i := 0;
      ghost var m := n;
      while i < src.n && n < MAX_RUNES
        invariant 0 <= i && Valid() && n == old(n) + i && src.Valid()
        invariant src == this && old(n) == 0 ==> i == 0
        invariant src != this ==> i <= src.n && src.n == old(src.n) && src.Value() == old(src.Value())
        invariant src != this ==> Value() == old(Value()) + src.Value()[..i]
        invariant src == this ==> r[..m] == old(r[..n])
        invariant src == this ==> forall k :: 0 <= k < i ==> r[m + k] == r[k]
        decreases MAX_RUNES - n
      {
        r[n] := src.r[i];
        n := n + 1;
        i := i + 1;
      }
    }

    /** scmp: 0 when equal, 1 otherwise. */
    method Compare(b: StrBuffer) returns (d: int)
      requires Valid() && b.Valid()
      ensures d == if Value() == b.Value() then 0 else 1
    {
      if n != b.n {
        return 1;
      }
      var i := 0;
      while i < n
        invariant 0 <= i <= n
        invariant forall k :: 0 <= k < i ==> r[k] == b.r[k]
      {
        if r[i] != b.r[i] {
          assert Value()[i] != b.Value()[i];
          return 1;
        }
        i := i + 1;
      }
      return 0;
    }

    method Init(src: seq<Byte>)
      requires Valid()
      modifies this, r
      ensures Valid() && Value() == FromUtf(src)
    {
      hide CharToRune, Utf8, Encode, Fit;
      n := 0;
      var at := 0;
      while at < |src| && n < MAX_RUNES
        invariant 0 <= at <= |src| && Valid()
        invariant FromUtf(src) == Value() + Decode(src[at..], MAX_RUNES - n)
        decreases |src| - at
      {
        var (c, len) := CharToRune(src[at..]);
        assert src[at..][len..] == src[at + len..];
        r[n] := c;
        n := n + 1;
        at := at + len;
      }
      assert Decode(src[at..], MAX_RUNES - n) == [];
    }

    /** stoutf: the bytes land in `buf[..len]`, followed by a zero byte. */
    method WriteUtf(buf: array<Byte>) returns (len: nat)
      requires Valid() && buf.Length >= UTF_MAX
      modifies buf
      ensures len < buf.Length && buf[len] == 0
      ensures buf[..len] == Fit(Value(), buf.Length - UTF_MAX)
      ensures forall k :: len < k < buf.Length ==> buf[k] == old(buf[k])
    {
      hide Fit, Utf8;
      var room := buf.Length - UTF_MAX;
      ghost var s := Value();
      var i := 0;
      len := 0;
      while i < n && len < room
        invariant 0 <= i <= n == |s| && len < buf.Length
        invariant Fit(s, room) == buf[..len] + Fit(s[i..], room - len)
        invariant forall k :: len <= k < buf.Length ==> buf[k] == old(buf[k])
      {
        assert r[i] == s[i];
        var u := Utf8(r[i]);
        FitStep(s, i, room - len);
        assert len + |u| < buf.Length;
        PutBytes(buf, len, u);
        len := len + |u|;
        i := i + 1;
      }
      buf[len] := 0;
      FitEnd(s[i..], room - len);
    }
  }
}
