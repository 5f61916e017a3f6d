/**
 Transliteration by a map (transmap, mapget and maplookup of strans.c).

 Keys are collected in the preedit as long as they spell a path of the map's trie. The result
 is a tokenizer: what has been committed, with the rendered preedit, is the rendering of the
 one maximal split of the keys typed.
 */
module MapTrans {
  import opened Common
  import opened Text
  import opened ImData
  import Trie

  /** What lookups see of a trie: its paths and its values. */
  datatype MapData = MapData(paths: set<seq<Byte>>, vals: map<seq<Byte>, seq<Byte>>)

  ghost predicate IsMap(m: MapData) {
    && [] in m.paths
    && m.vals.Keys <= m.paths
    && forall p, q :: q in m.paths && p <= q ==> p in m.paths
  }

  /** Keys of at most 63 runes, and values that are read as at most 63 runes. */
  ghost predicate ShortEntries(m: MapData) {
    && (forall p :: p in m.paths ==> exists k: seq<Rune> :: |k| < MAX_RUNES && p <= Encode(k))
    && (forall p :: p in m.vals ==> |FromUtf(m.vals[p])| < MAX_RUNES)
  }

  // ---------------------------------------------------------------- lookups

  /** maplookup, as a test. */
  predicate MapHas(m: MapData, key: Text) {
    key != [] && ToUtf(key) in m.paths
  }

  /** mapget: None stands for a return of 0. */
  function MapGet(m: MapData, key: Text): Option<Text> {
    if key == [] || ToUtf(key) !in m.vals then None else Some(FromUtf(m.vals[ToUtf(key)]))
  }

  /** What the user sees for a preedit, and what committing it sends. */
  function Render(m: MapData, key: Text): Text {
    match MapGet(m, key)
    case Some(val) => val
    case None => key
  }

  /** The dictionary key that a successful maplookup leaves in e.dict. */
  function DictKey(m: MapData, key: Text): Text {
    match MapGet(m, key)
    case Some(val) => val
    case None => []
  }

  /** transmap; the two preconditions are what keeps sputr from calling die. */
  function TransMap(m: MapData, pre: Text, c: Rune): Emit
    requires |pre| < MAX_RUNES && |Render(m, pre)| < MAX_RUNES
  {
    if MapHas(m, pre + [c]) then Emit(true, [], pre + [c], DictKey(m, pre + [c]))
    else if !MapHas(m, [c]) then Emit(false, Render(m, pre) + [c], [], [])
    else Emit(true, Render(m, pre), [c], DictKey(m, [c]))
  }

  // -------------------------------------------------------------- invariant

  ghost predicate Ascii(s: seq<Rune>) {
    forall i :: 0 <= i < |s| ==> s[i] < 0x80
  }

  ghost predicate PathText(m: MapData, t: seq<Rune>) {
    Encode(t) in m.paths
  }

  /** The run invariant of the map languages. */
  ghost predicate MapPre(m: MapData, pre: seq<Rune>) {
    Ascii(pre) && PathText(m, pre)
  }

  lemma AsciiUtf(t: Text)
    requires Ascii(t)
    ensures ToUtf(t) == Encode(t)
  {
    if t != [] {
      var s := t[..|t| - 1];
      EncodeAscii(s);
      assert |Encode(s)| == |s|;
    }
    FitLossless(t, 256 - UTF_MAX);
  }

  /** The first byte of a rune tells how many bytes it has. */
  lemma FirstByte(r: Rune, q: Rune)
    requires Utf8(r)[0] == Utf8(q)[0]
    ensures |Utf8(r)| == |Utf8(q)|
  {
  }

  /** A text whose bytes start another text's has no more runes than it. */
  lemma {:induction false} EncodePrefix(t: seq<Rune>, k: seq<Rune>)
    requires Encode(t) <= Encode(k)
    ensures |t| <= |k|
  {
    hide Utf8;
    if t != [] && k != [] {
      var n := |Utf8(t[0])|;
      assert Utf8(t[0])[0] == Encode(t)[0] == Encode(k)[0] == Utf8(k[0])[0];
      FirstByte(t[0], k[0]);
      assert Encode(t)[n..] == Encode(t[1..]) && Encode(k)[n..] == Encode(k[1..]);
      EncodePrefix(t[1..], k[1..]);
    }
  }

  /** In the map languages the preedit never fills up, nor does what is committed. */
  lemma PreStaysShort(m: MapData, pre: seq<Rune>)
    requires ShortEntries(m) && MapPre(m, pre)
    ensures |pre| < MAX_RUNES && |Render(m, pre)| < MAX_RUNES
  {
    hide Encode, ToUtf, FromUtf;
    var k: seq<Rune> :| |k| < MAX_RUNES && Encode(pre) <= Encode(k);
    EncodePrefix(pre, k);
  }

  // ------------------------------------------------- preedits of any language

  /** Room for one more rune, and stored without loss: what every preedit outside Korean keeps,
      also when Vietnamese replaces the typed keys by toned letters. */
  ghost predicate Roomy(pre: seq<Rune>) {
    |pre| < MAX_RUNES && |Encode(pre)| < 256 - UTF_MAX
  }

  lemma RoomyRenders(m: MapData, pre: Text)
    requires ShortEntries(m) && Roomy(pre)
    ensures |Render(m, pre)| < MAX_RUNES && Roomy(Pop(pre))
  {
    hide ToUtf, FromUtf;
    if pre != [] {
      EncodeSplit(Pop(pre), [Last(pre)]);
      assert pre == Pop(pre) + [Last(pre)];
    }
  }

  lemma RoomyShort(pre: seq<Rune>)
    requires |pre| < MAX_RUNES && exists i :: 0 <= i < |pre| && |Utf8(pre[i])| < UTF_MAX
    ensures Roomy(pre)
  {
    hide Utf8;
    var i :| 0 <= i < |pre| && |Utf8(pre[i])| < UTF_MAX;
    EncodeSplit(pre[..i], pre[i..]);
    assert pre[..i] + pre[i..] == pre;
    assert pre[i..][1..] == pre[i + 1..];
  }

  /** A map keystroke leaves room again. */
  lemma TransMapRoomy(m: MapData, pre: Text, c: Rune)
    requires IsMap(m) && ShortEntries(m) && Roomy(pre) && |Render(m, pre)| < MAX_RUNES && c < 0x80
    ensures Roomy(TransMap(m, pre, c).next)
  {
    hide IsMap, Render, DictKey;
    hide Encode, FromUtf, Utf8;
    var key := pre + [c];
    assert |Utf8(c)| == 1 by {
      AsciiOneByte(c);
    }
    if MapHas(m, key) {
      FitLossless(key, 256 - UTF_MAX);
      assert key[..|key| - 1] == pre;
      var k: seq<Rune> :| |k| < MAX_RUNES && Encode(key) <= Encode(k);
      EncodePrefix(key, k);
      assert key[|pre|] == c;
      RoomyShort(key);
    } else {
      assert [c][0] == c;
      RoomyShort([c]);
      NothingRoomy();
    }
  }

  lemma AsciiOneByte(c: Rune)
    requires c < 0x80
    ensures |Utf8(c)| == 1
  {
  }

  lemma NothingRoomy()
    ensures Roomy([])
  {
  }

  // ---------------------------------------------------------------- tokens

  ghost predicate Token(m: MapData, t: seq<Rune>) {
    |t| == 1 || (t != [] && PathText(m, t))
  }

  function Concat(ts: seq<seq<Rune>>): seq<Rune> {
    if ts == [] then [] else ts[0] + Concat(ts[1..])
  }

  /** A split of `keys` into tokens none of which could have been one key longer. */
  ghost predicate IsSplit(m: MapData, ts: seq<seq<Rune>>, keys: seq<Rune>)
    decreases |ts|
  {
    if ts == [] then keys == []
    else
      && Token(m, ts[0]) && ts[0] <= keys
      && (|ts| > 1 ==> |ts[0]| < |keys| && !PathText(m, keys[..|ts[0]| + 1]))
      && IsSplit(m, ts[1..], keys[|ts[0]|..])
  }

  /** The rendering of a sequence of tokens. */
  ghost function Rendering(m: MapData, ts: seq<seq<Rune>>): seq<Rune> {
    if ts == [] then []
    else (if |ts[0]| <= MAX_RUNES then Render(m, ts[0]) else ts[0]) + Rendering(m, ts[1..])
  }

  lemma {:induction false} SplitCovers(m: MapData, ts: seq<seq<Rune>>, keys: seq<Rune>)
    requires IsSplit(m, ts, keys)
    ensures Concat(ts) == keys
    decreases |ts|
  {
    if ts != [] {
      SplitCovers(m, ts[1..], keys[|ts[0]|..]);
    }
  }

  lemma PathPrefix(m: MapData, t: seq<Rune>, n: nat)
    requires IsMap(m) && PathText(m, t) && n <= |t|
    ensures PathText(m, t[..n])
  {
    hide Encode;
    EncodeSplit(t[..n], t[n..]);
    assert t[..n] + t[n..] == t;
  }

  lemma TakeTake(s: seq<Rune>, a: nat, b: nat)
    requires b <= a <= |s|
    ensures s[..a][..b] == s[..b]
  {
  }

  lemma FirstTokenUnique(m: MapData, ts: seq<seq<Rune>>, us: seq<seq<Rune>>, keys: seq<Rune>)
    requires IsMap(m) && IsSplit(m, ts, keys) && IsSplit(m, us, keys)
    requires ts != [] && us != []
    ensures |ts[0]| >= |us[0]|
  {
    hide PathText;
    if |ts[0]| < |us[0]| {
      assert us[0] == keys[..|us[0]|];
      TakeTake(keys, |us[0]|, |ts[0]| + 1);
      PathPrefix(m, us[0], |ts[0]| + 1);
    }
  }

  /** There is at most one such split. */
  lemma {:induction false} SplitUnique(m: MapData, ts: seq<seq<Rune>>, us: seq<seq<Rune>>, keys: seq<Rune>)
    requires IsMap(m) && IsSplit(m, ts, keys) && IsSplit(m, us, keys)
    ensures ts == us
    decreases |ts|
  {
    hide PathText;
    if ts != [] && us != [] {
      FirstTokenUnique(m, ts, us, keys);
      FirstTokenUnique(m, us, ts, keys);
      assert ts[0] == keys[..|ts[0]|] && us[0] == keys[..|us[0]|];
      SplitUnique(m, ts[1..], us[1..], keys[|ts[0]|..]);
      assert ts == [ts[0]] + ts[1..] && us == [us[0]] + us[1..];
    }
  }

  // ------------------------------------------------------------------- runs

  /** What a run has committed, and its preedit. */
  datatype State = State(committed: seq<Rune>, pre: Text)

  /** One key through dotrans. */
  ghost function Step(m: MapData, s: State, c: Rune): State
    requires |s.pre| < MAX_RUNES && |Render(m, s.pre)| < MAX_RUNES
  {
    var e := TransMap(m, s.pre, c);
    State(s.committed + e.s, e.next)
  }

  lemma StepKeepsPre(m: MapData, s: State, c: Rune)
    requires IsMap(m) && ShortEntries(m) && MapPre(m, s.pre) && c < 0x80
    ensures |s.pre| < MAX_RUNES && |Render(m, s.pre)| < MAX_RUNES
    ensures MapPre(m, Step(m, s, c).pre)
    ensures MapHas(m, s.pre + [c]) <==> PathText(m, s.pre + [c])
    ensures MapHas(m, [c]) <==> PathText(m, [c])
  {
    hide ToUtf, Encode, FromUtf, ShortEntries;
    PreStaysShort(m, s.pre);
    AsciiUtf(s.pre + [c]);
    AsciiUtf([c]);
    EncodeAscii([]);
    assert Step(m, s, c).pre == [] ==> Encode([]) == [];
  }

  ghost function Run(m: MapData, s: State, keys: seq<Rune>): State
    requires IsMap(m) && ShortEntries(m) && MapPre(m, s.pre) && Ascii(keys)
    decreases |keys|
  {
    if keys == [] then s
    else
      StepKeepsPre(m, s, keys[0]);
      Run(m, Step(m, s, keys[0]), keys[1..])
  }

  /** The maximal split, read off the keys one at a time; `pre` has been read already. */
  ghost function Tokenize(m: MapData, pre: seq<Rune>, keys: seq<Rune>): seq<seq<Rune>>
    decreases |keys|
  {
    if keys == [] then Solo(pre)
    else
      var c := keys[0];
      if PathText(m, pre + [c]) then Tokenize(m, pre + [c], keys[1..])
      else if PathText(m, [c]) then Solo(pre) + Tokenize(m, [c], keys[1..])
      else Solo(pre) + [[c]] + Tokenize(m, [], keys[1..])
  }

  function Solo(t: seq<Rune>): seq<seq<Rune>> {
    if t == [] then [] else [t]
  }

  lemma ConsSplit(m: MapData, t: seq<Rune>, ts: seq<seq<Rune>>, keys: seq<Rune>)
    requires Token(m, t) && t <= keys && IsSplit(m, ts, keys[|t|..])
    requires ts != [] ==> |t| < |keys| && !PathText(m, keys[..|t| + 1])
    ensures IsSplit(m, [t] + ts, keys)
  {
    hide Token, PathText;
    assert ([t] + ts)[1..] == ts;
  }

  lemma LastSplit(m: MapData, pre: seq<Rune>)
    requires PathText(m, pre)
    ensures IsSplit(m, Solo(pre), pre)
  {
    if pre != [] {
      assert pre[|pre|..] == [] && Solo(pre)[1..] == [];
    }
  }

  lemma {:induction false} TokenizeSplits(m: MapData, pre: seq<Rune>, keys: seq<Rune>)
    requires IsMap(m) && PathText(m, pre)
    ensures IsSplit(m, Tokenize(m, pre, keys), pre + keys)
    decreases |keys|, 0
  {
    hide PathText, IsSplit;
    if keys == [] {
      assert pre + keys == pre;
      LastSplit(m, pre);
    } else {
      var c, rest := keys[0], keys[1..];
      assert keys == [c] + rest;
      if PathText(m, pre + [c]) {
        TokenizeSplits(m, pre + [c], rest);
        assert pre + [c] + rest == pre + keys;
      } else if PathText(m, [c]) {
        TokenizeSplits(m, [c], rest);
        SoloSplit(m, pre, Tokenize(m, [c], rest), keys);
      } else {
        TokenizeLoneKey(m, c, rest);
        SoloSplit(m, pre, [[c]] + Tokenize(m, [], rest), keys);
        assert Solo(pre) + ([[c]] + Tokenize(m, [], rest)) == Solo(pre) + [[c]] + Tokenize(m, [], rest);
      }
    }
  }

  lemma {:induction false} TokenizeLoneKey(m: MapData, c: Rune, rest: seq<Rune>)
    requires IsMap(m) && !PathText(m, [c])
    ensures IsSplit(m, [[c]] + Tokenize(m, [], rest), [c] + rest)
    decreases |rest|, 1
  {
    hide Tokenize, IsSplit;
    EmptyPath(m);
    TokenizeSplits(m, [], rest);
    var keys := [c] + rest;
    assert keys[1..] == rest == [] + rest;
    NoLongerPath(m, keys);
    NoTokens(m, Tokenize(m, [], rest), rest);
    ConsSplit(m, [c], Tokenize(m, [], rest), keys);
  }

  lemma NoLongerPath(m: MapData, keys: seq<Rune>)
    requires IsMap(m) && keys != [] && !PathText(m, [keys[0]])
    ensures |keys| > 1 ==> !PathText(m, keys[..2])
  {
    hide PathText, IsMap;
    if |keys| > 1 {
      assert keys[..2][..1] == [keys[0]];
      if PathText(m, keys[..2]) {
        PathPrefix(m, keys[..2], 1);
      }
    }
  }

  lemma EmptyPath(m: MapData)
    requires IsMap(m)
    ensures PathText(m, [])
  {
  }

  lemma NoTokens(m: MapData, ts: seq<seq<Rune>>, keys: seq<Rune>)
    requires IsSplit(m, ts, keys)
    ensures ts != [] ==> keys != []
  {
    hide PathText;
  }

  lemma SoloSplit(m: MapData, pre: seq<Rune>, ts: seq<seq<Rune>>, keys: seq<Rune>)
    requires IsMap(m) && PathText(m, pre) && keys != [] && !PathText(m, pre + [keys[0]])
    requires IsSplit(m, ts, keys)
    ensures IsSplit(m, Solo(pre) + ts, pre + keys)
  {
    hide PathText, IsSplit;
    if pre == [] {
      assert pre + keys == keys && Solo(pre) + ts == ts;
    } else {
      assert (pre + keys)[..|pre| + 1] == pre + [keys[0]] && (pre + keys)[|pre|..] == keys;
      ConsSplit(m, pre, ts, pre + keys);
    }
  }

  lemma {:induction false} RenderingConcat(m: MapData, ts: seq<seq<Rune>>, us: seq<seq<Rune>>)
    ensures Rendering(m, ts + us) == Rendering(m, ts) + Rendering(m, us)
  {
    hide Render;
    if ts == [] {
      assert ts + us == us;
    } else {
      assert (ts + us)[1..] == ts[1..] + us;
      RenderingConcat(m, ts[1..], us);
    }
  }

  lemma RenderSolo(m: MapData, t: Text)
    ensures Rendering(m, Solo(t)) == Render(m, t)
  {
    hide ToUtf, FromUtf;
    if t != [] {
      assert Solo(t)[1..] == [];
    }
  }

  /** What has been committed, with the rendered preedit, renders the tokens read so far. */
  lemma {:induction false} RunRenders(m: MapData, s: State, keys: seq<Rune>)
    requires IsMap(m) && ShortEntries(m) && MapPre(m, s.pre) && Ascii(keys)
    ensures var t := Run(m, s, keys);
            t.committed + Render(m, t.pre) == s.committed + Rendering(m, Tokenize(m, s.pre, keys))
    decreases |keys|
  {
    hide Render, Rendering, PathText, ShortEntries, MapPre, TransMap, IsMap;
    if keys == [] {
      RenderSolo(m, s.pre);
    } else {
      var c, rest := keys[0], keys[1..];
      StepKeepsPre(m, s, c);
      var t := Step(m, s, c);
      RunRenders(m, t, rest);
      StepRenders(m, s, c, rest);
    }
  }

  lemma StepRenders(m: MapData, s: State, c: Rune, rest: seq<Rune>)
    requires IsMap(m) && |s.pre| < MAX_RUNES && |Render(m, s.pre)| < MAX_RUNES
    requires MapHas(m, s.pre + [c]) <==> PathText(m, s.pre + [c])
    requires MapHas(m, [c]) <==> PathText(m, [c])
    ensures var t := Step(m, s, c);
            t.committed + Rendering(m, Tokenize(m, t.pre, rest))
            == s.committed + Rendering(m, Tokenize(m, s.pre, [c] + rest))
  {
    hide Render, Rendering, PathText, MapHas;
    var keys := [c] + rest;
    assert keys[1..] == rest;
    if !PathText(m, s.pre + [c]) {
      RenderSolo(m, s.pre);
      RenderSolo(m, [c]);
      var more := Tokenize(m, if PathText(m, [c]) then [c] else [], rest);
      RenderingConcat(m, Solo(s.pre), more);
      RenderingConcat(m, Solo(s.pre) + [[c]], more);
      RenderingConcat(m, Solo(s.pre), [[c]]);
      LoneKey(m, c);
    }
  }

  lemma LoneKey(m: MapData, c: Rune)
    requires IsMap(m)
    ensures !MapHas(m, [c]) ==> Render(m, [c]) == [c]
  {
    hide ToUtf, FromUtf;
  }

  /** The last token, while keys may still be added to it. */
  ghost function OpenToken(m: MapData, ts: seq<seq<Rune>>): seq<Rune> {
    if ts != [] && PathText(m, ts[|ts| - 1]) then ts[|ts| - 1] else []
  }

  lemma {:induction false} SomeToken(m: MapData, pre: seq<Rune>, keys: seq<Rune>)
    requires pre != []
    ensures Tokenize(m, pre, keys) != []
    decreases |keys|
  {
    hide PathText;
    if keys != [] && PathText(m, pre + [keys[0]]) {
      SomeToken(m, pre + [keys[0]], keys[1..]);
    }
  }

  /** What waits in the preedit is that token. */
  lemma {:induction false} RunLeavesOpen(m: MapData, s: State, keys: seq<Rune>)
    requires IsMap(m) && ShortEntries(m) && MapPre(m, s.pre) && Ascii(keys)
    ensures Run(m, s, keys).pre == OpenToken(m, Tokenize(m, s.pre, keys))
    decreases |keys|
  {
    hide Render, PathText, ShortEntries, MapPre, MapHas, IsMap;
    if keys == [] {
      PathOfPre(m, s.pre);
    } else {
      var c, rest := keys[0], keys[1..];
      StepKeepsPre(m, s, c);
      RunLeavesOpen(m, Step(m, s, c), rest);
      SomeToken(m, [c], rest);
    }
  }

  lemma PathOfPre(m: MapData, pre: seq<Rune>)
    requires MapPre(m, pre)
    ensures PathText(m, pre)
  {
  }

  /** For any keys typed in a map language from an empty preedit, the committed text and the
      rendered preedit are the rendering of the one maximal split of the keys, and the preedit is
      its last token as long as more keys may follow. */
  lemma MapLanguageTokenizes(m: MapData, keys: seq<Rune>) returns (ts: seq<seq<Rune>>)
    requires IsMap(m) && ShortEntries(m) && Ascii(keys)
    ensures MapPre(m, [])
    ensures var t := Run(m, State([], []), keys);
            t.committed + Render(m, t.pre) == Rendering(m, ts) && t.pre == OpenToken(m, ts)
    ensures IsSplit(m, ts, keys) && Concat(ts) == keys
    ensures forall us :: IsSplit(m, us, keys) ==> us == ts
  {
    hide Render, Rendering, ShortEntries, PathText, IsMap, Tokenize, OpenToken;
    EmptyPath(m);
    ts := Tokenize(m, [], keys);
    TokenizeSplits(m, [], keys);
    assert [] + keys == keys;
    SplitCovers(m, ts, keys);
    RunRenders(m, State([], []), keys);
    RunLeavesOpen(m, State([], []), keys);
    forall us | IsSplit(m, us, keys)
      ensures us == ts
    {
      SplitUnique(m, us, ts, keys);
    }
  }

  // ------------------------------------------------------- the C functions

  ghost function DataOf(t: Trie.TrieMap): MapData
    requires t.Valid()
    reads t, t.nodes
  {
    MapData(t.Paths(), t.Map())
  }

  /** A trie is a map in the sense above. */
  lemma TrieIsMap(t: Trie.TrieMap)
    requires t.Valid()
    ensures IsMap(DataOf(t))
  {
    hide Trie.Chained;
    var ts := t.nodes[..t.n];
    Trie.RootFacts(ts, t.v, []);
    forall p, q | q in t.v.at && p <= q
      ensures p in t.v.at
    {
      Trie.PrefixClosed(ts, t.v, p, q);
    }
  }

  /** mapget: `out` is set when it returns true. */
  method Mapget(t: Trie.TrieMap, key: Text) returns (out: Option<Text>)
    requires t.Valid()
    ensures out == MapGet(DataOf(t), key)
  {
    hide ToUtf, FromUtf;
    if key == [] {
      return None;
    }
    var v := t.Get(ToUtf(key));
    out := match v case Some(val) => Some(FromUtf(val)) case None => None;
  }

  /** maplookup: when it succeeds, `out` is overwritten by the value, if there is one. */
  method Maplookup(t: Trie.TrieMap, key: Text) returns (found: bool, out: Text)
    requires t.Valid()
    ensures found == MapHas(DataOf(t), key)
    ensures out == if found then DictKey(DataOf(t), key) else []
  {
    hide ToUtf, FromUtf;
    if key == [] {
      return false, [];
    }
    var has, v := t.Lookup(ToUtf(key));
    if !has {
      return false, [];
    }
    found := true;
    out := match v case Some(val) => FromUtf(val) case None => [];
  }

  /** The mapped text, or the text itself when the map has none. */
  method Rendered(t: Trie.TrieMap, key: Text) returns (s: Text)
    requires t.Valid()
    ensures s == Render(DataOf(t), key)
  {
    hide MapGet;
    var val := Mapget(t, key);
    s := match val case Some(x) => x case None => key;
  }

  /** transmap. */
  method TransmapInPlace(im: Im, t: Trie.TrieMap, c: Rune) returns (e: Emit)
    requires t.Valid() && |im.pre| < MAX_RUNES && |Render(DataOf(t), im.pre)| < MAX_RUNES
    ensures e == TransMap(DataOf(t), im.pre, c)
  {
    hide MapHas, MapGet, DictKey, Render, DataOf, Trie.TrieMap.Valid;
    var key := im.pre + [c];
    var found, dict := Maplookup(t, key);
    if found {
      return Emit(true, [], key, dict);
    }
    var s := Rendered(t, im.pre);
    found, dict := Maplookup(t, [c]);
    if !found {
      return Emit(false, s + [c], [], []);
    }
    e := Emit(true, s, [c], dict);
  }
}
