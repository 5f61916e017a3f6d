/**
 The dictionary of dict.c: from an entry's text to the candidates of a request.

 An entry is a list of words separated by single spaces. The candidates are its first 32 words
 different from the request's key.
 */
module Dict {
  import opened Common
  import opened Text
  import opened ImData
  import HashMap

  const SPACE: Byte := 0x20

  /** What is left when the first word and the space after it have been read. */
  function AfterWord(b: seq<Byte>): seq<Byte> {
    b[if Find(b, SPACE) < |b| then Find(b, SPACE) + 1 else |b|..]
  }

  /** The words of an entry; a space at the very end starts no word. */
  function Words(b: seq<Byte>): seq<seq<Byte>>
    decreases |b|
  {
    if b == [] then [] else [b[..Find(b, SPACE)]] + Words(AfterWord(b))
  }

  // ------------------------------------------------------- words and entries

  /** The entry that lists the given words. */
  function Entry(ws: seq<seq<Byte>>): seq<Byte> {
    if ws == [] then []
    else if |ws| == 1 then ws[0]
    else ws[0] + [SPACE] + Entry(ws[1..])
  }

  lemma EntryCons(w: seq<Byte>, ws: seq<seq<Byte>>)
    ensures Entry([w] + ws) == if ws == [] then w else w + [SPACE] + Entry(ws)
  {
    assert ([w] + ws)[1..] == ws;
  }

  lemma WordsCons(b: seq<Byte>)
    requires b != []
    ensures Words(b) == [b[..Find(b, SPACE)]] + Words(AfterWord(b))
  {
  }

  lemma NoWords()
    ensures Words([]) == [] && Entry([]) == []
  {
  }

  /** The words of an entry are the words it was made of, provided that the last is not empty. */
  lemma {:induction false} WordsOfEntry(ws: seq<seq<Byte>>)
    requires forall i :: 0 <= i < |ws| ==> SPACE !in ws[i]
    requires ws != [] ==> ws[|ws| - 1] != []
    ensures Words(Entry(ws)) == ws
    decreases |ws|
  {
    NoWords();
    hide Find, Words, Entry;
    if ws != [] {
      var b, w := Entry(ws), ws[0];
      EntryCons(w, ws[1..]);
      assert ws == [w] + ws[1..];
      WordsOfEntry(ws[1..]);
      assert b[..|w|] == w;
      FindIs(b, SPACE, |w|);
      WordsCons(b);
      assert AfterWord(b) == Entry(ws[1..]);
    }
  }

  /** Conversely an entry is its words put together, but for one space at its end. */
  lemma {:induction false} EntryOfWords(b: seq<Byte>)
    ensures forall i :: 0 <= i < |Words(b)| ==> SPACE !in Words(b)[i]
    ensures b == Entry(Words(b)) || b == Entry(Words(b)) + [SPACE]
    decreases |b|
  {
    NoWords();
    hide Find, Words, Entry;
    if b != [] {
      var n, rest := Find(b, SPACE), AfterWord(b);
      EntryOfWords(rest);
      WordsCons(b);
      EntryCons(b[..n], Words(rest));
      if rest != [] {
        WordsCons(rest);
      }
      if n < |b| {
        assert b == b[..n] + [SPACE] + rest;
        assert b[..n] + [SPACE] + (Entry(Words(rest)) + [SPACE]) == b[..n] + [SPACE] + Entry(Words(rest)) + [SPACE];
      }
    }
  }

  // ------------------------------------------------------------- candidates

  /** The words that differ from the key, as texts. */
  function Others(key: Text, ws: seq<seq<Byte>>): seq<Text> {
    if ws == [] then []
    else (if FromUtf(ws[0]) != key then [FromUtf(ws[0])] else []) + Others(key, ws[1..])
  }

  function FirstKouho(ts: seq<Text>): (k: seq<Text>)
    ensures |k| <= MAX_KOUHO
  {
    if |ts| <= MAX_KOUHO then ts else ts[..MAX_KOUHO]
  }

  /** A dictionary as the requests see it: the entry of each key. */
  type Entries = Text -> Option<seq<Byte>>

  /** dictlookup, with None for a language without a dictionary. */
  function Lookup(dict: Option<Entries>, key: Text): (k: seq<Text>)
    ensures |k| <= MAX_KOUHO
  {
    if key == [] || dict.None? || dict.value(key).None? then []
    else FirstKouho(Others(key, Words(dict.value(key).value)))
  }

  lemma {:induction false} OthersAreOthers(key: Text, ws: seq<seq<Byte>>)
    ensures forall i :: 0 <= i < |Others(key, ws)| ==> Others(key, ws)[i] != key
    ensures forall w :: w in ws && FromUtf(w) != key ==> FromUtf(w) in Others(key, ws)
  {
    hide FromUtf;
    if ws != [] {
      OthersAreOthers(key, ws[1..]);
    }
  }

  /** A candidate is never the key itself, and with at most 32 other words none is missing. */
  lemma CandidatesAreTheOtherWords(d: Entries, key: Text)
    requires key != [] && d(key).Some?
    ensures var k := Lookup(Some(d), key);
            && (forall i :: 0 <= i < |k| ==> k[i] != key)
            && (|k| < MAX_KOUHO ==>
                  forall w :: w in Words(d(key).value) && FromUtf(w) != key ==> FromUtf(w) in k)
  {
    hide FromUtf, Words;
    OthersAreOthers(key, Words(d(key).value));
  }

  /** The entries of a table with `nbs` buckets. */
  function EntriesOf(m: map<HashMap.Id, seq<Byte>>, nbs: nat): Entries
    requires nbs > 0
  {
    (key: Text) => if HashMap.Sought(key, nbs) in m then Some(m[HashMap.Sought(key, nbs)]) else None
  }

  ghost function Content(dict: HashMap.HMap?): Option<Entries>
    requires dict != null ==> dict.Valid()
    reads dict, if dict == null then {} else {dict.nodes}
  {
    if dict == null then None else Some(EntriesOf(dict.Map(), dict.nbs))
  }

  /** The candidates seen when the words before `rest` have been read. */
  ghost predicate SoFar(kouho: seq<Text>, key: Text, val: seq<Byte>, rest: seq<Byte>) {
    && |kouho| <= MAX_KOUHO
    && FirstKouho(Others(key, Words(val))) == FirstKouho(kouho + Others(key, Words(rest)))
  }

  lemma OthersStep(key: Text, rest: seq<Byte>)
    requires rest != []
    ensures var tmp := FromUtf(rest[..Find(rest, SPACE)]);
            Others(key, Words(rest)) == (if tmp != key then [tmp] else []) + Others(key, Words(AfterWord(rest)))
  {
    hide FromUtf, Find, AfterWord;
    assert Words(rest)[1..] == Words(AfterWord(rest));
  }

  lemma ReadWord(kouho: seq<Text>, key: Text, val: seq<Byte>, rest: seq<Byte>)
    requires SoFar(kouho, key, val, rest) && rest != [] && |kouho| < MAX_KOUHO
    ensures var tmp := FromUtf(rest[..Find(rest, SPACE)]);
            SoFar(if tmp != key then kouho + [tmp] else kouho, key, val, AfterWord(rest))
  {
    hide FromUtf, Find, AfterWord, FirstKouho, Others, Words;
    var tmp := FromUtf(rest[..Find(rest, SPACE)]);
    var more := Others(key, Words(AfterWord(rest)));
    OthersStep(key, rest);
    assert kouho + ([tmp] + more) == kouho + [tmp] + more;
    assert kouho + ([] + more) == kouho + more;
  }

  lemma ReadAll(kouho: seq<Text>, key: Text, val: seq<Byte>, rest: seq<Byte>)
    requires SoFar(kouho, key, val, rest) && (rest == [] || |kouho| == MAX_KOUHO)
    ensures kouho == FirstKouho(Others(key, Words(val)))
  {
    hide FromUtf, Find, AfterWord;
    var more := Others(key, Words(rest));
    assert rest == [] ==> kouho + more == kouho;
    assert |kouho| == MAX_KOUHO ==> (kouho + more)[..MAX_KOUHO] == kouho;
  }

  /** dictlookup. */
  method Dictlookup(dict: HashMap.HMap?, key: Text) returns (kouho: seq<Text>)
    requires dict != null ==> dict.Valid()
    ensures kouho == Lookup(Content(dict), key)
  {
    hide FromUtf, HashMap.Linked, HashMap.Contents, HashMap.Sought, Words, Others, FirstKouho, SoFar;
    kouho := [];
    if key == [] || dict == null {
      return;
    }
    var n := dict.Get(key);
    if n.None? {
      return;
    }
    var val := n.value;
    kouho := Split(key, val);
  }

  /** The loop of dictlookup over the bytes of the value. */
  method Split(key: Text, val: seq<Byte>) returns (kouho: seq<Text>)
    ensures kouho == FirstKouho(Others(key, Words(val)))
  {
    hide FromUtf, Words, Others, FirstKouho;
    kouho := [];
    var p := 0;
    assert val[p..] == val;
    assert [] + Others(key, Words(val)) == Others(key, Words(val));
    while |kouho| < MAX_KOUHO && p < |val|
      invariant p <= |val| && SoFar(kouho, key, val, val[p..])
      decreases |val| - p
    {
      hide SoFar;
      var rest := val[p..];
      ReadWord(kouho, key, val, rest);
      var sp := p;
      var n := Strchr(rest, SPACE);
      p := p + n;
      assert val[sp..p] == rest[..n];
      var tmp := FromUtf(val[sp..p]);
      if tmp != key {
        kouho := kouho + [tmp];
      }
      if p < |val| {
        p := p + 1;
      }
      assert val[p..] == AfterWord(rest);
    }
    ReadAll(kouho, key, val, val[p..]);
  }

  // ------------------------------------------------------------ dictionary files

  const SEMICOLON: Byte := 0x3B

  /** What dictopen makes of a line: it wants a tab that something follows, and no comment. */
  function Pair(line: seq<Byte>): Option<(Text, Text)> {
    var tab := Find(line, TAB);
    if line == [] || line[0] == SEMICOLON || tab >= |line| - 1 then None
    else Some((FromUtf(line[..tab]), FromUtf(line[tab + 1..])))
  }

  function Pairs(lines: seq<seq<Byte>>): seq<(Text, Text)> {
    if lines == [] then []
    else Pairs(lines[..|lines| - 1])
         + match Pair(lines[|lines| - 1]) case Some(p) => [p] case None => []
  }

  /** A line written for a key and an entry is read as them. */
  lemma PairOfLine(key: seq<Byte>, val: seq<Byte>)
    requires TAB !in key && val != [] && (key != [] ==> key[0] != SEMICOLON)
    ensures Pair(key + [TAB] + val) == Some((FromUtf(key), FromUtf(val)))
  {
    hide FromUtf;
    var line := key + [TAB] + val;
    FindIs(line, TAB, |key|);
    assert line[..|key|] == key && line[|key| + 1..] == val;
  }

  /** Other lines are empty, comments, or without a tab before their last byte. */
  lemma NoPair(line: seq<Byte>)
    ensures Pair(line).None? <==> line == [] || line[0] == SEMICOLON || TAB !in line[..|line| - 1]
  {
    hide FromUtf;
    var tab := Find(line, TAB);
    if line != [] && tab < |line| - 1 {
      assert line[..|line| - 1][tab] == TAB;
    }
  }

  lemma {:induction false} PairsNulFree(lines: seq<seq<Byte>>)
    requires forall i :: 0 <= i < |lines| ==> 0 !in lines[i]
    ensures forall i :: 0 <= i < |Pairs(lines)| ==> HashMap.NulFree(Pairs(lines)[i].0)
  {
    hide FromUtf, HashMap.NulFree;
    if lines != [] {
      var n := |lines| - 1;
      PairsNulFree(lines[..n]);
      if Pair(lines[n]).Some? {
        HashMap.ReadKeyIsNulFree(lines[n][..Find(lines[n], TAB)]);
      }
    }
  }

  /** dictopen, for the lines of the file. */
  method Dictopen(lines: seq<seq<Byte>>) returns (h: HashMap.HMap)
    ensures fresh(h) && h.Valid() && h.nbs == 4096 && h.Map() == HashMap.AfterSets(Pairs(lines), 4096)
  {
    hide FromUtf, HashMap.Updated, HashMap.Linked, HashMap.Contents;
    h := new HashMap.HMap(4096);
    var i := 0;
    while i < |lines|
      invariant 0 <= i <= |lines| && h.nbs == 4096
      invariant fresh(h) && fresh(h.nodes) && h.Valid() && h.Map() == HashMap.AfterSets(Pairs(lines[..i]), 4096)
    {
      var line := lines[i];
      NextLine(lines, i);
      i := i + 1;
      if line == [] || line[0] == SEMICOLON {
        continue;
      }
      var tab := Strchr(line, TAB);
      if tab >= |line| - 1 {
        continue;
      }
      var key, val := FromUtf(line[..tab]), FromUtf(line[tab + 1..]);
      assert Pair(line) == Some((key, val));
      h.Set(key, val);
      OneMore(Pairs(lines[..i - 1]), key, val);
    }
    assert lines[..i] == lines;
  }

  lemma NextLine(lines: seq<seq<Byte>>, i: nat)
    requires i < |lines|
    ensures var p := Pair(lines[i]);
            Pairs(lines[..i + 1]) == if p.Some? then Pairs(lines[..i]) + [p.value] else Pairs(lines[..i])
  {
    hide FromUtf, Pair;
    assert lines[..i + 1][..i] == lines[..i];
    assert Pairs(lines[..i]) + [] == Pairs(lines[..i]);
  }

  lemma OneMore(pairs: seq<(Text, Text)>, key: Text, val: Text)
    ensures HashMap.AfterSets(pairs + [(key, val)], 4096)
         == HashMap.Updated(HashMap.AfterSets(pairs, 4096), key, val, 4096)
  {
    hide HashMap.Updated;
    assert (pairs + [(key, val)])[..|pairs|] == pairs;
  }

  /** The last of the pairs with a key. */
  predicate IsLast(pairs: seq<(Text, Text)>, key: Text, i: nat) {
    i < |pairs| && pairs[i].0 == key && forall j :: i < j < |pairs| ==> pairs[j].0 != key
  }

  lemma DeciderIsLast(pairs: seq<(Text, Text)>, key: Text)
    requires HashMap.GoodKey(key)
    requires forall i :: 0 <= i < |pairs| ==> HashMap.GoodKey(pairs[i].0) && pairs[i].1 != []
    ensures var d := HashMap.Decider(pairs, key, 4096);
            if d < 0 then forall i :: 0 <= i < |pairs| ==> pairs[i].0 != key else IsLast(pairs, key, d)
  {
    hide HashMap.GoodKey, HashMap.Sought, HashMap.Stored;
    forall i | 0 <= i < |pairs|
      ensures HashMap.Sought(pairs[i].0, 4096) == HashMap.Sought(key, 4096) <==> pairs[i].0 == key
    {
      HashMap.SoughtApart(pairs[i].0, key, 4096);
    }
  }

  /** A key of a request has an entry exactly when the file has a line for it, and then that of
      the last such line. */
  lemma EntryIsLastLine(lines: seq<seq<Byte>>, key: Text)
    requires HashMap.GoodKey(key) && forall i :: 0 <= i < |lines| ==> 0 !in lines[i]
    requires forall i :: 0 <= i < |Pairs(lines)| ==> HashMap.GoodKey(Pairs(lines)[i].0)
    ensures var pairs := Pairs(lines);
            var entry := EntriesOf(HashMap.AfterSets(pairs, 4096), 4096)(key);
            && (entry.None? ==> forall i :: 0 <= i < |pairs| ==> pairs[i].0 != key)
            && (entry.Some? ==>
                  exists i: nat :: IsLast(pairs, key, i) && entry.value == HashMap.CString(ToUtf(pairs[i].1)))
  {
    hide FromUtf, ToUtf, HashMap.GoodKey, HashMap.CString, HashMap.AfterSets, Pairs, HashMap.NulFree, HashMap.Sought;
    hide HashMap.Decider;
    var pairs := Pairs(lines);
    PairsNulFree(lines);
    PairsFilled(lines);
    HashMap.LastNonEmptyWins(pairs, key, 4096);
    DeciderIsLast(pairs, key);
    var d := HashMap.Decider(pairs, key, 4096);
    if d >= 0 {
      assert IsLast(pairs, key, d) && HashMap.Sought(pairs[d].0, 4096) == HashMap.Sought(key, 4096);
    }
  }

  lemma {:induction false} PairsFilled(lines: seq<seq<Byte>>)
    ensures forall i :: 0 <= i < |Pairs(lines)| ==> Pairs(lines)[i].1 != []
  {
    if lines != [] {
      PairsFilled(lines[..|lines| - 1]);
    }
  }

  // ------------------------------------------------- from a line to candidates

  /** What the table keeps of the text after the tab. */
  function Kept(s: seq<Rune>): seq<Byte> {
    HashMap.CString(ToUtf(FromUtf(Encode(s))))
  }

  /** A text that the 64 runes and 256 bytes of the way into the table hold. */
  predicate Whole(s: seq<Rune>) {
    |s| <= MAX_RUNES && (s == [] || |Encode(s[..|s| - 1])| < 256 - UTF_MAX)
  }

  /** The table keeps the first runes of a text, and all of them if and only if it is whole. */
  lemma KeptIsPrefix(s: seq<Rune>) returns (n: nat)
    requires ValidRunes(s) && 0 !in s
    ensures n <= |s| && Kept(s) == Encode(s[..n]) && (n == |s| <==> Whole(s))
  {
    hide Fit, Encode, Decode, HashMap.CString;
    DecodeEncode(s, MAX_RUNES);
    var t: Text := FromUtf(Encode(s));
    assert t == if |s| <= MAX_RUNES then s else s[..MAX_RUNES];
    n := FitIsPrefix(t, 256 - UTF_MAX);
    assert t[..n] == s[..n];
    HashMap.EncodeNonZero(s[..n]);
    HashMap.CStringWhole(Encode(s[..n]));
    PrefixShorter(t, n);
    FitLossless(t, 256 - UTF_MAX);
  }

  /** The last line of a file for a key. */
  predicate IsLastLine(lines: seq<seq<Byte>>, key: Text, l: nat) {
    && l < |lines| && Pair(lines[l]).Some? && Pair(lines[l]).value.0 == key
    && forall m :: l < m < |lines| ==> Pair(lines[m]).None? || Pair(lines[m]).value.0 != key
  }

  lemma {:induction false} LastLineIsLast(lines: seq<seq<Byte>>, key: Text, l: nat) returns (i: nat)
    requires IsLastLine(lines, key, l)
    ensures IsLast(Pairs(lines), key, i) && Pairs(lines)[i] == Pair(lines[l]).value
  {
    hide Pair;
    var n := |lines| - 1;
    var rest := lines[..n];
    NextLine(lines, n);
    assert lines[..n + 1] == lines;
    if l == n {
      i := |Pairs(rest)|;
    } else {
      assert IsLastLine(rest, key, l);
      i := LastLineIsLast(rest, key, l);
    }
  }

  /** From the file to the candidates: they are the words of what the table keeps of the last line
      for the key, and of the line itself if that is whole. */
  lemma LineToCandidates(lines: seq<seq<Byte>>, l: nat, code: seq<Byte>, s: seq<Rune>)
    requires forall i :: 0 <= i < |lines| ==> 0 !in lines[i]
    requires forall i :: 0 <= i < |Pairs(lines)| ==> HashMap.GoodKey(Pairs(lines)[i].0)
    requires l < |lines| && lines[l] == code + [TAB] + Encode(s) && IsLastLine(lines, FromUtf(code), l)
    requires code != [] && code[0] != SEMICOLON && TAB !in code && s != [] && ValidRunes(s)
    ensures var key := FromUtf(code);
            var k := Lookup(Some(EntriesOf(HashMap.AfterSets(Pairs(lines), 4096), 4096)), key);
            && k == FirstKouho(Others(key, Words(Kept(s))))
            && (Whole(s) ==> k == FirstKouho(Others(key, Words(Encode(s)))))
  {
    hide Fit, Encode, Decode, HashMap.CString, HashMap.GoodKey, HashMap.AfterSets, EntriesOf, Pairs, Others, Words;
    hide FirstKouho, Kept, Whole;
    var key := FromUtf(code);
    PairOfLine(code, Encode(s));
    var i := LastLineIsLast(lines, key, l);
    EntryIsLastLine(lines, key);
    var entry := EntriesOf(HashMap.AfterSets(Pairs(lines), 4096), 4096)(key);
    assert entry == Some(Kept(s)) by {
      KeptIs(s);
      var j: nat :| IsLast(Pairs(lines), key, j) && entry.value == HashMap.CString(ToUtf(Pairs(lines)[j].1));
      assert j == i;
    }
    SomeRune(code);
    LineNonZero(lines[l], code, s);
    var n := KeptIsPrefix(s);
    assert s[..|s|] == s;
  }

  lemma KeptIs(s: seq<Rune>)
    ensures Kept(s) == HashMap.CString(ToUtf(FromUtf(Encode(s))))
  {
  }

  lemma SomeRune(b: seq<Byte>)
    requires b != []
    ensures FromUtf(b) != []
  {
  }

  lemma {:induction false} LineNonZero(line: seq<Byte>, code: seq<Byte>, s: seq<Rune>)
    requires line == code + [TAB] + Encode(s) && 0 !in line
    ensures 0 !in s
    decreases |s|
  {
    hide Utf8;
    if s != [] {
      AsciiIs(s[0]);
      var b := Encode(s);
      assert forall i :: 0 <= i < |b| ==> line[|code| + 1 + i] == b[i];
      assert forall i :: 0 <= i < |Utf8(s[0])| ==> b[i] == Utf8(s[0])[i];
      var more := code + [TAB] + Encode(s[1..]);
      assert forall i :: 0 <= i < |Encode(s[1..])| ==> b[|Utf8(s[0])| + i] == Encode(s[1..])[i];
      LineNonZero(more, code, s[1..]);
    }
  }

  lemma AsciiIs(r: Rune)
    ensures r == 0 ==> Utf8(r) == [0]
  {
  }

  /** An instance: of 64 letters, a space and one more letter the last word is lost. */
  lemma LongLineLosesWord(a: Rune, b: Rune)
    requires 0x21 <= a < 0x80 && 0x21 <= b < 0x80
    ensures var word: seq<Rune> := seq(MAX_RUNES, _ => a);
            && Words(Encode(word + [SPACE, b])) == [word, [b]]
            && Words(Kept(word + [SPACE, b])) == [word]
  {
    hide Fit, Encode, Decode, Find;
    var word: seq<Rune> := seq(MAX_RUNES, _ => a);
    var s := word + [SPACE, b];
    EncodeAscii(word);
    EncodeAscii(s);
    var t: seq<Rune> := [b];
    var ws: seq<seq<Byte>> := [word, t];
    assert ws[1..] == [t];
    assert Entry(ws) == s;
    WordsOfEntry(ws);
    WordsOfEntry([word]);
    var n := KeptIsPrefix(s);
    KeptLong(s, word);
  }

  lemma KeptLong(s: seq<Rune>, t: Text)
    requires ValidRunes(s) && t <= s && |t| == MAX_RUNES && |s| > MAX_RUNES
    requires forall i :: 0 <= i < |t| ==> 0 < t[i] < 0x80
    ensures Kept(s) == t
  {
    hide Fit, Encode, Decode, HashMap.CString;
    DecodeEncode(s, MAX_RUNES);
    assert s[..MAX_RUNES] == t;
    EncodeAscii(t[..|t| - 1]);
    EncodeAscii(t);
    FitLossless(t, 256 - UTF_MAX);
    HashMap.CStringWhole(t);
  }
}
