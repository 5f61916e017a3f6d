# strans, verified

This project models strans, an input method daemon, and proves properties of the model. It covers

- the daemon's own text engine: bounded rune strings and their UTF-8 form (`Text`), the Hangul automaton
  (`Hangul`, `Korean`), transliteration by a trie (`Trie`, `MapTrans`), Vietnamese tones (`Vietnamese`), the keystroke
  engine and what its keys do to the text (`Engine`, `EngineLedger`), the dictionary table and its
  thread (`HashMap`, `Dict`, `DictThread`);
- the XIM wire format: byte order and alignment (`XimWire`), frame descriptors with a generic reader, writer and size
  (`XimFrames`), the 76 frames of the protocol (`XimCatalog`), messages (`XimMessage`), and the reader and writer
  functions on buffers (`XimBuffers`);
- XIM server state: the intrusive hash table (`Uthash`), input-context ids on top of it (`IcIds`), the circular list
  (`ListHead`) and the synchronous key queue (`SyncQueue`);
- three parts of the font library: the Type 2 charstring interpreter (`Charstring`, `CharstringRun`) with what it reads
  (`CharstringCode`) and draws (`Outline`), character map lookup (`Cmap`) and the edge sort (`EdgeSort`).

Code that changes things in place is imperative here too: arrays, objects with links, loops with invariants. Each such
method is proved against a function of the old state, and the laws are lemmas about those functions. `Im` keeps its
strings as values of type `Text`; that the 64-rune array of str.c implements such values is proved once, in
`Text.StrBuffer`.

The main results:

- Text: over every run of keys and answers, committed text and shown preedit are what a ledger of the keys says
  (`EngineLedger.RunEntered`): besides backspace and a candidate picked in its place, only escape and ctrl take text
  away.
- Korean: over every run that stays in it, committed text and preedit spell exactly the jamo typed and not taken back
  (`EngineLedger.KoreanRunEntered`), and what is committed and what waits is fixed by what can join in one syllable
  (`Korean.LetterJoinsOrCommits`).
- Map languages: what is committed and shown is the rendering of the one maximal split of the keys, whose last token
  waits in the preedit (`Engine.MapRunTokenizes`), and no string overflows. Vietnamese: which vowel takes the tone
  (`Vietnamese.ToneLands`).
- Candidates: over every run, the window drawn is the one to select from (`Engine.RunShowsCandidates`); over every
  interleaving with the dictionary thread, answers come in order and are installed only for the current preedit
  (`DictThread.AnswersInOrder`).
- Tables: `hash.c`, `trie.c` and `uthash.h` act as a finite map, a map with its prefixes, and an ordered list with
  lookup, across growth.
- Wire format: a value is read back from its bytes if and only if its list counters fit
  (`XimFrames.ReadsBackExactlyWhenCountersFit`), a reader accepts nothing but images of values (`XimFrames.ReadExact`);
  the bytes themselves are those of the protocol (`XimWire.ByteOnWire`, `XimMessage.ExtensionReplyBytes`).
- Server: creating a context fails exactly when all 65535 ids are live (`IcIds.Client.NewInputContext`); over every run
  keys are taken up in order, each once (`SyncQueue.RunKeepsOrder`), and reach the context they were sent to if and only
  if no context with its id was destroyed meanwhile (`SyncQueue.RunReachesOwnContext`).
- Fonts: the charstring interpreter terminates on every program, each operator draws the segments that its operands give
  by position (`Outline.DrawTraces`), contours are closed (`Outline.ContoursClosed`), and the output pass fills exactly
  the array that the counting pass asked for (`CharstringRun.GetGlyphShape`); the biased search of format 4
  is the linear scan (`Cmap.SearchSegment`); the edge sort sorts (`EdgeSort.SortEdges`).

Places where the code does not do what a reader may expect, stated as the code has it:

- README.md of the repository speaks of digits 1 to 9 for candidates; only 1 to 8 select
  (`Engine.DigitPicksDrawnRow`).
- The reader of messages inside an event ignores the byte order. The server writes in the order of its client, so what
  it sends arrives (`XimMessage.ServerMessageArrives`); what a client of the other order sends is refused unless the
  frame is empty (`XimMessage.ClientMessageRefused`, an equivalence), its first XIM_CONNECT included
  (`XimMessage.ConnectRefused`).
- A dictionary line is kept to at most 64 runes: `Dict.KeptIsPrefix` is the exact condition, `Dict.LongLineLosesWord` a
  line that loses its last word.
- A queued key remembers the id of its context, not the context, and ids are used again: the exact condition is
  `SyncQueue.RunReachesOwnContext`, a run that fails it `SyncQueue.OldEventReachesNewContext`.
- imdkit.h asks for a key to be sent back under its own sequence number; while newer keys wait xcb_im_forward_event uses
  the newest one's (`SyncQueue.SendsNewestNumber`, an equivalence; `SyncQueue.OldKeyGetsNewNumber`, a run). With
  use_sync_event a key that waited gets no XIM_SYNC_REPLY (`SyncQueue.AnswersOnlyAtOnce`, and a run,
  `SyncQueue.WaitingEventUnanswered`).
- A sync reply whose context was destroyed is ignored, so keys of other contexts go on waiting
  (`SyncQueue.ReleasesExactlyOnReply`, an equivalence; `SyncQueue.ReplyOfDestroyedIgnored`, a run).
- The callback that xcb_im_sync_xlib asks for is lost when a sync reply of another client comes first
  (`SyncQueue.RoundTripOwed`).
- A request that finds the channel full is lost, so an answer comes exactly when there was room
  (`DictThread.AnsweredIfRoom`, an equivalence; `DictThread.FifthRequestLost`, a run).
- The quicksort may leave one element out of both halves: edges that are in order already come out with the smallest in
  the middle (`EdgeSort.Quicksort`); the insertion sort that follows makes the result sorted (`EdgeSort.SortEdges`).
- A glyph past the last range of an FDSelect has no font dictionary; the check for that has no effect and the lookup goes
  on with -1, exactly from the sentinel on (`Charstring.SelectorMeansRange`).
- The OpenType specification adds idDelta, modulo 65536, to a glyph other than 0 that is found through a range offset in
  format 4; the code does not. `Cmap.GlyphMeetsSpec` is the exact condition, `Cmap.DeltaTableFails` a table that fails.

Parameters of the model: the contents of maps (`Maps`, with keys and values of at most 63 runes) and dictionaries
(`Dicts`), the hash function of uthash, the application's callback, the subroutines of a font. Byte strings stand for C
strings. The order of floats is that of the reals.

## Model

| member | source | states |
|---|---|---|
| Text.CharRoundTrip | str.c:66-78 | reading the UTF-8 bytes of a valid rune gives that rune and the number of its bytes, whatever follows |
| Text.Utf8Bits | str.c:66-78 | the bytes of a valid rune are those of the table in section 3 of RFC 3629: how many there are, and which bits of the rune each one holds |
| Text.ReadsExactly | str.c:9-21 | a first rune is read exactly when the bytes begin with those of a valid rune, and else one byte is taken for an error |
| Text.DecodeEncode | str.c:9-21 | reading the bytes of valid runes gives them back, cut at the limit |
| Text.FitLossless | str.c:66-78 | stoutf keeps every rune if and only if all but the last leave a byte to spare in the room it has |
| Text.Utf8RoundTrip | str.c:66-78 | a text of at most 63 valid runes survives stoutf into 256 bytes and sinit |
| Text.FullTextLosesRune | str.c:66-78 | 64 runes of four bytes lose exactly the last one, so 63 is the bound |
| Text.Append | str.c:44-51 | sappend yields the concatenation, cut after 64 runes |
| Text.StrBuffer.constructor | dat.h:38-43 | a fresh 64-rune string is empty |
| Text.StrBuffer.Clear | str.c:23-27 | the string becomes empty |
| Text.StrBuffer.Put | str.c:29-35 | the rune is appended, or the call dies exactly on a full string, which stays as it is |
| Text.StrBuffer.PopRune | str.c:37-42 | the last rune goes, if there is one |
| Text.StrBuffer.AppendFrom | str.c:44-51 | runes of the other string are appended while there is room; a non-empty string appended to itself is repeated until it is full |
| Text.StrBuffer.Compare | str.c:53-64 | 0 if and only if the two strings are equal, else 1 |
| Text.StrBuffer.Init | str.c:9-21 | the string holds at most 64 runes decoded from the bytes |
| Text.StrBuffer.WriteUtf | str.c:66-78 | the buffer holds the whole runes that fit, a zero byte after them, nothing else changed and nothing out of bounds |
| Hangul.TablePositions | ko.c:14-72 | each of the three jamo tables lists its jamo without repetition: looking up an entry gives its position |
| Hangul.TablesInOrder | ko.c:14-72 | the tables list the jamo in the order of Unicode: initials are all consonants but the eleven clusters, vowels all vowels, finals all consonants but three |
| Hangul.EntriesDistinct | ko.c:111-133 | no two entries of a compound table share a result or a pair of parts |
| Hangul.FindCombination | ko.c:143-152 | the loop finds the compound of two jamo, 0 when they make none |
| Hangul.FindSplit | ko.c:154-167 | the loop finds the parts of a compound, or says that it is none |
| Hangul.SplitCombine | ko.c:143-167 | splitting a compound gives back the pair it was combined from |
| Hangul.CombineSplit | ko.c:143-167 | combining the parts of a compound gives back the compound |
| Hangul.PartsAreBasic | ko.c:111-133 | no part of a compound is itself a compound |
| Hangul.KeyJamoBasic | ko.c:74-141 | the jamo of a key is an initial or a simple vowel and never splits |
| Hangul.Compose | ko.c:169-173 | a composed syllable is one, by section 3.12 of the Unicode Standard |
| Hangul.ComposeRises | ko.c:169-173 | syllables rise from 0xAC00 to 0xD7A3 in the order of initial, then vowel, then final |
| Hangul.Decompose | ko.c:175-184 | the three parts are in the ranges of their tables |
| Hangul.DecomposeCompose | ko.c:169-184 | decomposing a composed syllable gives back its parts |
| Hangul.ComposeDecompose | ko.c:169-184 | composing the parts of a syllable gives back the syllable |
| Hangul.SpellConcat | ko.c:154-184 | spelling a text in basic jamo distributes over concatenation |
| Korean.KeyAppends | ko.c:192-293 | from any reachable preedit, what a key emits and the next preedit spell the old preedit followed by exactly the jamo of the key; the next preedit is reachable again |
| Korean.BackRemoves | ko.c:295-327 | a backspace removes exactly the last jamo of the spelling and keeps the preedit reachable |
| Korean.SpellInjective | ko.c:192-327 | two reachable preedits with the same spelling are equal |
| Korean.BackUndoesKey | ko.c:192-327 | after a letter that committed nothing, a backspace restores the earlier preedit |
| Korean.KeyUndoesBack | ko.c:192-327 | conversely the last jamo of a preedit rune, typed after a backspace took it off, restores the rune |
| Korean.CommitsNothingWhenJoined | ko.c:210-293 | a letter commits nothing if and only if some preedit rune is spelled like the preedit with the jamo behind it |
| Korean.LetterJoinsOrCommits | ko.c:210-293 | all that a letter does: it joins the preedit in one rune when there is such a rune; else a vowel takes the last consonant of a closed syllable into a new one, and any other jamo commits the preedit and starts anew |
| Korean.OtherKeyCommits | ko.c:200-208 | a key without jamo is left to the application after what the preedit held |
| Korean.Step | strans.c:117-135 | the preedit stays empty or one syllable, initial or vowel, so that dotrans drops nothing |
| Korean.KeyLaw | strans.c:117-135 | a key appends its spelling to everything committed and pending |
| Korean.BackLaw | strans.c:233-243 | a backspace on a non-empty preedit drops exactly the last jamo typed |
| Korean.RunConserves | strans.c:117-135 | over every run of keys and backspaces, committed text and preedit spell what a plain list kept by hand holds |
| Korean.RunOnlyCommits | strans.c:117-135 | committed text is only ever extended |
| Korean.KeysAreSpelledOut | ko.c:192-293 | without backspaces, all keys are spelled out in order: none lost, doubled or moved |
| Korean.TranskoInPlace | ko.c:192-293 | transko on the preedit it updates computes the automaton step |
| Korean.TranskoJamo | ko.c:217-236 | the branch after a lone jamo |
| Korean.TranskoSyllable | ko.c:238-293 | the branches after a syllable |
| Korean.TranskoMoveFinal | ko.c:269-287 | a vowel takes the final consonant, or the second part of it, into the next syllable |
| Korean.BackkoInPlace | ko.c:295-327 | backko on the preedit it updates computes the automaton step |
| HashMap.ComputeHash | hash.c:8-18 | the loop computes the hash with 64-bit wrap-around |
| HashMap.HashIsPolynomial | hash.c:8-18 | it is the polynomial in 31 with leading coefficient 7 and the runes for the others, modulo 2 to the 64 |
| HashMap.KeyBytes | hash.c:37-47 | for keys of at most 63 valid runes other than NUL, equal stored bytes mean equal keys |
| HashMap.SoughtApart | hash.c:49-79 | so bucket and bytes, by which the table knows a key, tell two such keys apart |
| HashMap.AlongChain | hash.c:49-65 | each step of the walk either is at the bytes of the key, or goes strictly further along its chain, or ends because the bucket does not hold them; for every key |
| HashMap.FillHead | hash.c:117-128 | filling the empty head of a bucket keeps the table well linked and adds the bytes |
| HashMap.ReplaceValue | hash.c:117-128 | overwriting a value keeps the table well linked and changes only that entry |
| HashMap.AppendNode | hash.c:103-116 | linking a new node at the end of a chain keeps chains disjoint, acyclic and in their bucket; it adds an entry exactly when its bytes are new there |
| HashMap.LastNonEmptyWins | hash.c:81-129 | after any run of sets of keys without NUL a key is present exactly when it was set, with the last non-empty value |
| HashMap.HMap.constructor | hash.c:20-35 | a new table is well formed and empty |
| HashMap.HMap.Get | hash.c:49-65 | for every key the lookup agrees with the finite map the table stands for, and ends |
| HashMap.HMap.FindSlot | hash.c:91-102 | for every key the walk ends at its node, at an empty head, or at the end of a chain without it |
| HashMap.HMap.Grow | hash.c:103-111 | doubling keeps every node in place |
| HashMap.NulNeverFound | hash.c:37-129 | after any run of sets a key that holds a NUL is not found |
| HashMap.HMap.Set | hash.c:81-129 | for every key and value the finite map is updated, an empty value leaving the old one, and the table stays well formed, also when it grows |
| Trie.PathUnderParent | trie.c:4-58 | the node of a path hangs under the node of the path without its last byte |
| Trie.AddChild | trie.c:31-41 | a new youngest child keeps sibling chains acyclic, free of duplicate bytes, and every older node and value as it was |
| Trie.PrefixClosed | trie.c:113-130 | every prefix of a path is a path |
| Trie.TrieMap.constructor | trie.c:71-75 | the empty trie has the empty path alone |
| Trie.ChildIsUnique | trie.c:20-41 | under a node, a byte leads to at most one child |
| Trie.TrieMap.Find | trie.c:20-29 | the child by a byte, -1 exactly when there is none |
| Trie.TrieMap.Add | trie.c:31-41 | one new node for the extended path, nothing else changed, across growth |
| Trie.TrieMap.Insert | trie.c:43-58 | the key maps to the value and exactly its prefixes become paths |
| Trie.TrieMap.Walk | trie.c:119-124 | the walk succeeds exactly on paths and ends at their node |
| Trie.TrieMap.Get | trie.c:95-111 | the value stored for the key, or nothing |
| Trie.TrieMap.Lookup | trie.c:113-130 | succeeds exactly on paths, with the value when there is one |
| Trie.LastInsertWins | trie.c:43-58 | after any run of inserts a key is present exactly when inserted, with the value inserted last |
| Trie.PairOfLine | trie.c:82-89 | a line written for a key and a value is read as them |
| Trie.RefusedWhenMalformed | trie.c:77-84 | a file is refused exactly when it has a non-empty line without a tab before its last byte |
| Trie.Trieopen | trie.c:60-93 | for every list of lines: dies exactly when a line is malformed, else values are those of the run of inserts and the paths are the empty string and the prefixes of inserted keys |
| MapTrans.Mapget | strans.c:327-341 | the mapped text of a non-empty key, decoded to at most 64 runes |
| MapTrans.Maplookup | strans.c:148-164 | succeeds exactly on a non-empty path; the dictionary key is its value, empty when it has none |
| MapTrans.TransmapInPlace | strans.c:166-192 | transmap over the trie computes the specified step |
| MapTrans.EncodePrefix | str.c:66-78 | a text whose bytes start those of another has no more runes than it |
| MapTrans.PreStaysShort | strans.c:166-192 | with keys and values of at most 63 runes a preedit that is a path leaves room, so sputr never overflows |
| MapTrans.TransMapRoomy | strans.c:166-192 | after a map key the preedit has room for another rune and is stored without loss |
| MapTrans.SplitCovers | strans.c:166-192 | the tokens of a maximal split concatenate to the keys |
| MapTrans.SplitUnique | strans.c:166-192 | at most one split into tokens exists in which no token extended by the next key is a path |
| MapTrans.TokenizeSplits | strans.c:166-192 | such a split exists |
| MapTrans.RunRenders | strans.c:117-135 | what a run commits, with the rendered preedit, is the rendering of the tokens read |
| MapTrans.RunLeavesOpen | strans.c:117-192 | what waits in the preedit is the last token if it is a path, and nothing otherwise |
| MapTrans.MapLanguageTokenizes | strans.c:117-192 | for every key sequence from an empty preedit, committed text and rendered preedit are the rendering of the unique maximal split, and its last token waits in the preedit while more keys may follow |
| MapTrans.TrieIsMap | trie.c:43-58 | a trie built by inserts is a map in the sense the theorems need |
| Vietnamese.CellsDistinct | vi.c:4-32 | no rune stands twice in the tone table |
| Vietnamese.CellsInUnicode | vi.c:4-32 | small letters and capitals of the table are 32 or 1 apart, and the tones of a vowel with a diacritic are consecutive |
| Vietnamese.Removetone | vi.c:64-77 | the loops find the base vowel of a toned one |
| Vietnamese.Applytone | vi.c:79-90 | the loop finds the vowel with the asked tone |
| Vietnamese.MarkFacts | vi.c:64-90 | marking keeps the toneless vowel, and a second mark overrides the first |
| Vietnamese.FindLastVowels | vi.c:120-128 | the loop finds the last two vowels |
| Vietnamese.LastVowelsAre | vi.c:120-128 | they are vowels, no later position is one and none lies between |
| Vietnamese.FindTonePos | vi.c:129-143 | the position that takes the tone |
| Vietnamese.TonePosToneless | vi.c:118-143 | the chosen position depends on the toneless string alone |
| Vietnamese.ToneChangesOneVowel | vi.c:118-159 | a tone key on a preedit with a vowel commits nothing, changes at most one rune, a vowel, and keeps the toneless string |
| Vietnamese.ToneLands | vi.c:118-159 | which vowel of the emitted text is marked, and how: the last vowel when a consonant follows or there is one; of two or more at the end the last for oa, oe and uy, else the one before it; it becomes what its row of the table has for the key, and every other rune stays |
| Vietnamese.ToneKeyItself | vi.c:102-148 | without a vowel to mark the key follows what is shown; after a backslash it takes its place |
| Vietnamese.LaterToneWins | vi.c:118-159 | a later tone key or z overrides the earlier one when the word with the first tone is its own rendering |
| Vietnamese.TransViRoomy | vi.c:92-160 | a Vietnamese key leaves room for the next, so sputr never overflows |
| Vietnamese.TransviInPlace | vi.c:92-160 | transvi over the trie computes the specified step |
| Engine.RenderShort | strans.c:268-270 | the text to commit leaves room for the key that follows it |
| Engine.KeystrokeKeepsInv | strans.c:194-277 | every keystroke keeps -1 <= sel < max(nkouho, 1), nkouho <= 32 and a preedit its language can go on with |
| Engine.StepShows | strans.c:42-59 | after every event the last window drawn is the one the candidates and the selection call for |
| Engine.RunShowsCandidates | strans.c:23-59 | the same over every run of keys and dictionary answers, with the bounds on sel and nkouho |
| Engine.WindowShows | strans.c:51-57 | a window is a slice of one to eight candidates in order and holds the selected one |
| Engine.DigitPicksDrawnRow | strans.c:211-219 | for every key: exactly a digit from 1 to 8 whose row of the window last drawn is not empty selects, and it commits the candidate drawn there; 9 never does |
| Engine.TypedIsDotrans | strans.c:194-277 | every key that is no command, control or space, digits that select nothing included, is typed: keystroke is dotrans |
| Engine.ChangesAreDrawn | strans.c:194-277 | whatever a keystroke draws is the state it ends in, and it changes the state without drawing exactly on a backspace onto a mapped preedit, which asks the dictionary |
| Engine.KoreanStep | strans.c:117-135 | typed keys, backspaces and answers act on committed text and preedit as the Korean automaton does |
| Engine.KoreanRunConserves | strans.c:117-135 | conservation for whole runs of the engine in Korean mode, with dictionary answers in between, and at most one rune in the preedit |
| Engine.RunKeepsPath | strans.c:194-277 | in a map language the preedit is a path of the trie after any events, backspaces and language changes included |
| Engine.MapRun | strans.c:117-135 | over every run of typed keys and answers a map language is the transliterator |
| Engine.MapRunTokenizes | strans.c:117-192 | from any reachable state, what a run of typed keys and answers adds renders the unique maximal split of the old preedit and the new keys |
| Engine.ReplyCarriesText | strans.c:305-315 | a reply fits its 256 bytes, its second byte is the length of the text, and the committed text arrives unchanged if and only if its runes are valid and all but the last take less than 250 bytes |
| EngineLedger.PressDoes | strans.c:194-277 | what every key does to the text, by key code, modifiers and what is on display: enters the preedit, stands behind it, settles it as shown, picks a candidate in its place, gives it up, takes the last of it back, or nothing |
| EngineLedger.RunEntered | strans.c:194-277 | over every run of keys and answers, language changes included, the committed text with the shown preedit is what a ledger of these deeds holds: besides backspace and a picked candidate only escape and ctrl take text away |
| EngineLedger.KoreanRunEntered | strans.c:194-277 | over every run that stays in Korean, spaces, special keys and candidates included, committed text and preedit spell the jamo of the ledger |
| EngineLedger.TypedInMap | strans.c:117-192 | a typed key of a map language makes of the preedit the unique maximal split of preedit and key, committed but for the open last token |
| EngineLedger.ArrowsMove | strans.c:201-210 | down and up move the selection by one within its bounds and change nothing else; without candidates they are passed on |
| EngineLedger.CandidatesKept | strans.c:194-277 | which keys keep the candidates and the selection; all others leave none |
| EngineLedger.PassedOn | strans.c:194-277 | exactly which keys go to the application |
| EngineLedger.LanguageChosen | strans.c:255-262 | the language changes exactly by ctrl with t, n, k, s, e or v, without alt and super |
| EngineLedger.DictionaryAsked | strans.c:69-135 | the dictionary is asked for what the map has for the new preedit, after a backspace and after a typed key outside Korean and tones, and never else |
| EngineLedger.DrawnIsShown | strans.c:42-59 | every window drawn has the preedit that stands behind the committed text |
| Engine.GetLang | strans.c:137-146 | the loop over the table of languages finds the one with the code, or none |
| Engine.ImThread.constructor | strans.c:279-284 | the state after init: English, nothing typed, no candidates, sel 0 |
| Engine.ImThread.SetKouho | strans.c:30-40 | the candidates are replaced and nothing is selected |
| Engine.ImThread.Rows | strans.c:47-57 | the loop copies exactly the window |
| Engine.ImThread.Draw | strans.c:42-59 | one draw command for the current state is sent |
| Engine.ImThread.Reset | strans.c:61-67 | preedit and candidates are cleared and that is drawn |
| Engine.ImThread.QueryMap | strans.c:80-91 | a mapped preedit is looked up in the dictionary; otherwise candidates are cleared and that is drawn |
| Engine.ImThread.SetLang | strans.c:93-103 | the language changes exactly on one of the six codes |
| Engine.ImThread.CommitPre | strans.c:105-115 | the mapped preedit is committed, or the preedit when the map has none |
| Engine.ImThread.TransKey | strans.c:117-135 | dotrans: committed text, next preedit and dictionary request |
| Engine.ImThread.HandleCommand | strans.c:199-249 | the first half of keystroke: exactly the command keys, with their whole effect |
| Engine.ImThread.HandleOther | strans.c:250-276 | the second half of keystroke |
| Engine.ImThread.Press | strans.c:194-277 | keystroke on the object computes the specified state, text, draw commands and requests, and keeps the invariant |
| Engine.ImThread.Answered | strans.c:317-322 | an answer is installed and drawn exactly when it is for the current preedit |
| Dict.WordsOfEntry | dict.c:23-34 | the words read from an entry are the words it was made of when the last is not empty |
| Dict.EntryOfWords | dict.c:23-34 | conversely an entry is its words joined by single spaces, but for one space at its end |
| Dict.CandidatesAreTheOtherWords | dict.c:25-31 | no candidate is the key, and with fewer than 32 candidates no other word is missing |
| Dict.Split | dict.c:23-34 | the loop yields the first 32 words different from the key |
| Text.Strchr | dict.c:27-28 | the loops that look for a byte stop at the first one, or at the end |
| Dict.Dictlookup | dict.c:4-35 | for every key: none without key, dictionary or entry, else the first 32 other words |
| Dict.PairOfLine | dict.c:74-81 | a line written for a key and an entry is read as them |
| Dict.NoPair | dict.c:69-78 | exactly empty lines, comments and lines without a tab before their last byte are skipped |
| Dict.Dictopen | dict.c:55-88 | for every list of lines the table stands for the map after the sets of their pairs |
| Dict.EntryIsLastLine | dict.c:67-84 | when the keys of the file have at most 63 runes, a key of a request has an entry exactly when the file has a line for it, and then that of the last one |
| Dict.KeptIsPrefix | dict.c:80-81 | the table keeps the first runes of the text of a line, and all of them if and only if there are at most 64 and all but the last take less than 252 bytes |
| Dict.LineToCandidates | dict.c:4-88 | from the file to the answer: the candidates for a key are the words of what is kept of its last line, and of the line itself when all of it is kept |
| Dict.LongLineLosesWord | dict.c:80-81 | an instance: of 64 letters, a space and a letter the last word is lost |
| DictThread.NextKeepsOrder | dict.c:37-53 | each interleaved step keeps the channel within four slots and requests in order of issue |
| DictThread.AnswersInOrder | dict.c:37-53 | over every interleaving answered requests are an order-preserving subsequence of those issued, and the candidates are the answer to the one installed last, whose preedit was current then |
| DictThread.Settle | dict.c:37-53 | left alone, the dictionary thread comes to wait on an empty channel |
| DictThread.SettleAnswersNewest | dict.c:44-51 | then the newest accepted request has been answered last |
| DictThread.AnsweredIfRoom | strans.c:69-78 | the request of a key is answered, once typing pauses, if and only if the channel has room when it is made |
| DictThread.FifthRequestLost | strans.c:69-78 | from the start, with any dictionaries: a run that fills the channel, so that the request of the last key is never answered and no candidates are shown for its preedit |
| DictThread.PauseShowsCandidates | strans.c:69-78 | a key that asks while the channel has room ends, once typing pauses, with the candidates for the preedit on display |
| DictThread.RequestKeysAreGood | strans.c:128-133 | every request key is one the dictionary table handles: at most 63 valid runes, no NUL |
| XimWire.SwapReverses | xim/xcb-imdkit/src/parser.c:11-18 | swapping a value reverses its bytes in memory |
| XimWire.SwapTwice | xim/xcb-imdkit/src/parser.c:11-18 | swapping twice changes nothing |
| XimWire.GetPut | xim/xcb-imdkit/src/parser.c:27-77 | an integer that fits its width is read back from its bytes, for either host order and swap |
| XimWire.PutGet | xim/xcb-imdkit/src/parser.c:27-77 | bytes read as an integer are written back unchanged |
| XimWire.ByteOnWire | xim/xcb-imdkit/src/parser.c:27-77 | for every width and order, byte i on the wire is the digit of weight 256 to the i, or to the w - 1 - i for a big-endian peer |
| XimWire.ReadsPositional | xim/xcb-imdkit/src/parser.c:27-77 | and an integer read is the positional value of its bytes |
| XimWire.WireOrder | xim/xcb-imdkit/src/parser.c:27-77 | the bytes on the wire depend only on the order of the peer |
| XimWire.SameWire | xim/xcb-imdkit/src/parser.c:27-77 | two hosts that take the bytes to be in the same order read the same integer |
| XimWire.PhaseOfPosition | xim/xcb-imdkit/src/parser.c:97-117 | align_to_2 and align_to_4 depend only on the position in the frame modulo four and do align |
| XimFrames.RoundTrip | xim/xcb-imdkit/src/ximproto.c:1125-1241 | for every frame descriptor, value whose counters fit, byte order and padding: reading the written bytes gives the value back and leaves exactly what followed |
| XimFrames.RoundTripList | xim/xcb-imdkit/src/ximproto.c:1125-1241 | the case of counted lists of nested frames |
| XimFrames.CounterTells | xim/xcb-imdkit/src/ximproto.c:1199-1226 | the first bytes of a counted list are the size of its items in the unit of the counter |
| XimFrames.RoundTripSub | xim/xcb-imdkit/src/ximproto.c:1537-1677 | the case of nested frames |
| XimFrames.RoundTripBytes | xim/xcb-imdkit/src/parser.c:79-95 | the case of length-prefixed byte arrays |
| XimFrames.RoundTripAll | xim/xcb-imdkit/src/ximproto.c:1147-1163 | a counted list is read back item by item and the loop ends |
| XimFrames.ReadExact | xim/xcb-imdkit/src/ximproto.c:559-634 | conversely every successful read consumes exactly the size of what it returns, and writing that back changes no byte |
| XimFrames.ReadExactAll | xim/xcb-imdkit/src/ximproto.c:1147-1163 | the items of a list fill exactly its counted bytes |
| XimFrames.ReadsBackExactlyWhenCountersFit | xim/xcb-imdkit/src/ximproto.c:1199-1241 | a value is read back if and only if every list counter fits its 16 or 32 bits |
| XimFrames.ImagesDiffer | xim/xcb-imdkit/src/ximproto.c:1199-1241 | two values of a frame never share an image |
| XimFrames.ReadSame | xim/xcb-imdkit/src/ximproto.c:1125-1197 | two hosts that take the bytes to be in the same order read the same value, from any bytes and for any frame |
| XimFrames.StaticSizeIsSize | xim/xcb-imdkit/src/gen-proto.py:65-86 | the size computed by the generator for a frame is the size of each of its values |
| XimFrames.EndPhaseIsPhase | xim/xcb-imdkit/src/gen-proto.py:65-86 | where the analysis says at which position modulo four a frame ends, every value ends there |
| XimFrames.ProductiveSize | xim/xcb-imdkit/src/ximproto.c:1147-1163 | an item of a productive frame takes at least one byte, so counted loops progress |
| XimCatalog.MessageFacts | xim/xcb-imdkit/src/ximproto.c:640-3729 | every message frame is well formed and ends at a multiple of four bytes |
| XimCatalog.Facts | xim/xcb-imdkit/src/ximproto.c:10-3729 | all 76 frames are well formed, their static sizes are the numbers of ximproto-gen.h, parts take at least one byte and messages whole groups of four |
| XimCatalog.SizesAsGenerated | xim/xcb-imdkit/src/ximproto-gen.h:1028-1383 | for every frame with a number in ximproto-gen.h, that number is the size of every value |
| XimMessage.MessageSizeInWords | xim/xcb-imdkit/src/message.c:63-71 | the size of every message frame is a multiple of four |
| XimMessage.HeaderTellsSize | xim/xcb-imdkit/src/message.c:63-71 | the length field of the header stands for the whole frame exactly when it is below 0x40000 bytes |
| XimMessage.MessageRoundTrip | xim/xcb-imdkit/src/message.c:63-71 | a message is received as sent: opcodes, frame and the bytes it took, by any host that takes the bytes to be in the order they have |
| XimMessage.SyncReplyBytes | xim/xcb-imdkit/src/message.c:63-71 | the bytes of an XIM_SYNC_REPLY for either peer |
| XimMessage.ExtensionReplyBytes | xim/xcb-imdkit/src/message.c:63-71 | the bytes of an XIM_QUERY_EXTENSION_REPLY, for any list of extensions and either peer: header, counters, names, padding, order |
| XimMessage.InputStylesCounted | xim/xcb-imdkit/src/ximproto.c:559-624 | the counter of the input styles is their number |
| XimMessage.TooManyAsked | xim/xcb-imdkit/src/ximproto.c:1965-1977 | an instance that does not fit: an XIM_GET_IM_VALUES for 32768 values is not read back |
| XimMessage.ShortMessageArrives | xim/xcb-imdkit/src/message.c:159-173 | a message inside an event arrives exactly when the host that reads it has the byte order of the wire or the frame is empty, and is refused otherwise |
| XimMessage.ServerMessageArrives | xim/xcb-imdkit/src/imdkit_p.h:83-103 | every such message of the server, written in the order of its client, arrives and is read as the value sent |
| XimMessage.ClientMessageRefused | xim/xcb-imdkit/src/imdkit.c:565-578 | one of a client is refused exactly when the orders of the hosts differ and the frame is not empty, and is else read as the value sent |
| XimMessage.ConnectRefused | xim/xcb-imdkit/src/imclient.c:256-270 | an instance: the XIM_CONNECT that a client starts with is refused by a server of the other order |
| XimBuffers.ReadFrame | xim/xcb-imdkit/src/ximproto.c:1125-1197 | the readers that move a pointer and a length, and align by *data - start, compute the specified read, failing exactly when it does |
| XimBuffers.ReadItems | xim/xcb-imdkit/src/ximproto.c:1147-1163 | the loop over a counted list |
| XimBuffers.ReadsSomething | xim/xcb-imdkit/src/ximproto.c:1147-1163 | an item read from a productive frame consumes at least one byte |
| XimBuffers.WriteFrame | xim/xcb-imdkit/src/ximproto.c:1199-1226 | the writers, which align by data - start, put exactly the image of the value at the buffer position and nothing else |
| XimBuffers.WriteItems | xim/xcb-imdkit/src/ximproto.c:1210-1213 | the loop over the items of a list |
| XimBuffers.CountBytes | xim/xcb-imdkit/src/ximproto.c:1204-1208 | the loop that adds up the sizes of the items |
| Uthash.AppendChain | xim/xcb-imdkit/uthash/uthash.h:144-149 | an item linked after the tail extends the list in both directions |
| Uthash.UnlinkChain | xim/xcb-imdkit/uthash/uthash.h:186-205 | patching the neighbours of an item leaves the others a list in the same order |
| Uthash.UnlinkFilled | xim/xcb-imdkit/uthash/uthash.h:726-736 | unlinking an item from its bucket leaves every other item on the chain of its own bucket |
| Uthash.PrependFilled | xim/xcb-imdkit/uthash/uthash.h:709-717 | a new item at the front of its bucket keeps every item on the chain of its own bucket |
| Uthash.MoveOne | xim/xcb-imdkit/uthash/uthash.h:786-801 | one step of redistribution: the item is on its new chain, the rest of its old chain can still be walked |
| Uthash.AllMoved | xim/xcb-imdkit/uthash/uthash.h:784-802 | when all old chains are walked every item is on the chain of its bucket among twice as many |
| Uthash.LengthsCountItems | xim/xcb-imdkit/uthash/uthash.h:242-265 | the lengths of the chains add up to the number of items |
| Uthash.PushFront | xim/xcb-imdkit/uthash/uthash.h:712-717 | the relinking on the objects |
| Uthash.Table.constructor | xim/xcb-imdkit/uthash/uthash.h:134-143 | a null head is the empty table |
| Uthash.Table.MakeTable | xim/xcb-imdkit/uthash/uthash.h:108-129 | 32 empty buckets |
| Uthash.Table.LinkLast | xim/xcb-imdkit/uthash/uthash.h:137-149 | the item becomes the last of all items, the first one making the table |
| Uthash.Table.AddToBucket | xim/xcb-imdkit/uthash/uthash.h:709-723 | the item is added to its bucket; the buckets double exactly when its count reaches (expand_mult + 1) * 10 and expansion is not stopped, and otherwise no counter changes |
| Uthash.Table.SetIdeal | xim/xcb-imdkit/uthash/uthash.h:780-782 | the ideal chain length is the number of items per new bucket rounded up, never 0 |
| Uthash.CountOneMore | xim/xcb-imdkit/uthash/uthash.h:790-794 | one more item in a bucket keeps: nonideal_items counts the items past the ideal length of their chains, and expand_mult is how often that length goes into a longer chain |
| Uthash.Table.MoveItem | xim/xcb-imdkit/uthash/uthash.h:786-800 | one item goes to its new bucket, and the counts of nonideal items and the multipliers stay right |
| Uthash.Table.Scatter | xim/xcb-imdkit/uthash/uthash.h:785-801 | one old bucket is spread over the new ones |
| Uthash.Table.Adopt | xim/xcb-imdkit/uthash/uthash.h:803-813 | the new buckets replace the old; ineff_expands counts doublings in a row that leave more than half of the items on long chains, and the second stops further ones |
| Uthash.Table.Expand | xim/xcb-imdkit/uthash/uthash.h:767-815 | twice as many buckets hold exactly the same items, each in bucket hashv mod num_buckets, and all counters are right |
| Uthash.Table.Add | xim/xcb-imdkit/uthash/uthash.h:134-158 | the table stays valid and the list of items grows by the new one at the end |
| Uthash.Table.FindInBucket | xim/xcb-imdkit/uthash/uthash.h:696-706 | the walk of a bucket finds an item with the key or shows that the bucket has none |
| Uthash.Table.Find | xim/xcb-imdkit/uthash/uthash.h:690-706 | an item with the key is returned exactly when a live one has it |
| Uthash.Table.UnlinkApp | xim/xcb-imdkit/uthash/uthash.h:187-205 | head, tail and neighbours after taking an item out of the list |
| Uthash.Table.DelInBucket | xim/xcb-imdkit/uthash/uthash.h:726-736 | count, bucket head and neighbours after taking an item out of its bucket |
| Uthash.Table.Delete | xim/xcb-imdkit/uthash/uthash.h:177-212 | the table stays valid, the other items keep their order, the last item takes the table with it |
| Uthash.Table.CountsAgree | xim/xcb-imdkit/uthash/uthash.h:240-265 | bucket counts add up to num_items, which is the length of the list |
| Uthash.Table.OnOwnChain | xim/xcb-imdkit/uthash/uthash.h:160-163 | an item is on a chain exactly when it is live and the chain is that of its hash |
| Uthash.Table.Nth | xim/xcb-imdkit/uthash/uthash.h:266-281 | following next meets the items in insertion order |
| Uthash.Play | xim/xcb-imdkit/uthash/uthash.h:134-212 | any run of adds and deletes, doublings included, leaves a valid table whose keys in order are those of a plain list |
| IcIds.FailsOnlyWhenFull | xim/xcb-imdkit/src/imdkit.c:440-448 | without a freed context, the next counter value is taken exactly when all 65535 ids are live |
| IcIds.StepKeepsIds | xim/xcb-imdkit/src/imdkit.c:422-460 | each create or destroy keeps live and free ids a partition of those issued; a create fails exactly when all are live |
| IcIds.RunKeepsIds | xim/xcb-imdkit/src/imdkit.c:422-460 | over every run, across wraparound, live ids are distinct, between 1 and 65535, and with the free ones all ids ever issued |
| IcIds.LastFreedFirst | xim/xcb-imdkit/src/imdkit.c:425-438 | the id given up last is the next one used again |
| IcIds.IdsCountUp | xim/xcb-imdkit/src/imdkit.c:440-448 | ids that were never given up count up from 1 |
| IcIds.Client.FindId | xim/xcb-imdkit/src/imdkit.c:443-444 | the duplicate check finds a context exactly when the id is live |
| IcIds.Client.FindFree | xim/xcb-imdkit/src/imdkit.c:429-434 | the duplicate that the code calls a bug never occurs |
| IcIds.Client.Advance | xim/xcb-imdkit/src/imdkit.c:440-442 | the counter moves on, skipping 0, in at most two rounds |
| IcIds.Client.TakeFree | xim/xcb-imdkit/src/imdkit.c:426-438 | the head of the free list is unlinked and cleared, its id kept |
| IcIds.Client.NewInputContext | xim/xcb-imdkit/src/imdkit.c:422-460 | fails exactly when all 65535 ids are live, otherwise adds a context with an id that no live one has |
| IcIds.Client.DestroyIc | xim/xcb-imdkit/src/imdkit.c:964-984 | the context leaves the table and heads the free list, the others stay as they are |
| ListHead.AppendRing | xim/xcb-imdkit/src/list.h:28-42 | linking before the sentinel appends to the ring |
| ListHead.RemoveRing | xim/xcb-imdkit/src/list.h:44-52 | unlinking any node leaves the others a ring in the same order |
| ListHead.Init | xim/xcb-imdkit/src/list.h:21-24 | a node linked to itself is the empty list |
| ListHead.IsEmpty | xim/xcb-imdkit/src/list.h:26-26 | true exactly for the empty list |
| ListHead.InsertBetween | xim/xcb-imdkit/src/list.h:28-34 | four links change and no other |
| ListHead.Append | xim/xcb-imdkit/src/list.h:40-42 | the list has the node as its last |
| ListHead.Remove | xim/xcb-imdkit/src/list.h:44-52 | the list has the other nodes in order, and the node is unlinked |
| SyncQueue.CreatedIsNew | xim/xcb-imdkit/src/imdkit.c:422-460 | a create that succeeds takes an id that no live context has |
| SyncQueue.ProcessKeepsOrder | xim/xcb-imdkit/src/imdkit.c:1052-1069 | the queue is taken up from the front, and each event goes to the context that has its id, or nowhere |
| SyncQueue.StepKeepsOk | xim/xcb-imdkit/src/protocolhandler.c:705-862 | every message keeps: arrived events are those over followed by those waiting, none wait unless sync is set, the table holds the live ids, and each waiting event knows its context |
| SyncQueue.RunKeepsOrder | xim/xcb-imdkit/src/imdkit.c:1052-1069 | over every run of messages and whatever the callback calls: with sync clear the queue is empty, and queueable events are taken up in arrival order, each once |
| SyncQueue.RunReachesOwnContext | xim/xcb-imdkit/src/imdkit.c:1058-1066 | over every run: an event is handed to the context it was sent to if and only if no context with its id was destroyed between its arrival and its take-up |
| SyncQueue.DropsOnlyGone | xim/xcb-imdkit/src/imdkit.c:1058-1066 | an event is dropped exactly when no live context has its id when it is taken up; else it goes to the one that has |
| SyncQueue.ArrivesExactly | xim/xcb-imdkit/src/protocolhandler.c:705-751 | exactly which key messages are taken: long enough for the X event, for this client and a live context; the key is then queued or handed over, and the number noted |
| SyncQueue.ExtArrivesExactly | xim/xcb-imdkit/src/protocolhandler.c:753-789 | the same for keys of the extension |
| SyncQueue.CallsExactly | xim/xcb-imdkit/src/protocolhandler.c:830-862 | the callback for keys and replies is called once for each event handed over, each key of the extension and each sync reply after xcb_im_sync_xlib, and at no other time |
| SyncQueue.RoundTripOwed | xim/xcb-imdkit/src/imdkit.c:915-922 | the callback that xcb_im_sync_xlib asks for comes with the next sync reply of any client: that of another client gets it lost for this one |
| SyncQueue.ErrorsExactly | xim/xcb-imdkit/src/protocolhandler.c:337-418 | an error is sent for exactly the frames that are too short and the contexts that cannot be made or are not there |
| SyncQueue.OldEventReachesNewContext | xim/xcb-imdkit/src/imdkit.c:425-438 | from the empty state, whatever the callback does: a run in which the id of a destroyed context is used again and its event reaches the new one |
| SyncQueue.ExtOvertakes | xim/xcb-imdkit/src/protocolhandler.c:753-789 | a key of the extension is handed over at once, past everything that waits |
| SyncQueue.NoSyncNoQueue | xim/xcb-imdkit/src/imdkit.c:850-855 | while sync mode is never turned on no event ever waits |
| SyncQueue.SendsNewestNumber | xim/xcb-imdkit/src/imdkit.c:837-855 | whenever it is called, in the callback or later, xcb_im_forward_event sends an event of a live context back under its own sequence number if and only if that is the number of the newest event of the context |
| SyncQueue.OldKeyGetsNewNumber | xim/xcb-imdkit/src/protocolhandler.c:728-730 | from the empty state: a run in which a key goes back under the number of a newer one |
| SyncQueue.AnswersOnlyAtOnce | xim/xcb-imdkit/src/protocolhandler.c:740-746 | with use_sync_event an event is answered exactly when it is handed over on arrival; one that waited never is |
| SyncQueue.WaitingEventUnanswered | xim/xcb-imdkit/src/imdkit.c:1052-1069 | from the empty state, whatever the callback does: a run in which such an event waits, is handed over and never answered |
| SyncQueue.ReleasesExactlyOnReply | xim/xcb-imdkit/src/protocolhandler.c:842-859 | while events wait, a message lets one go if and only if it is a sync reply of a live context and the callback it may cause sends no key back; then none waits any more or another answer is outstanding |
| SyncQueue.ReplyDrains | xim/xcb-imdkit/src/protocolhandler.c:842-859 | when the callback never sends a key back, such a reply lets all waiting events go, in order |
| SyncQueue.ReplyOfDestroyedIgnored | xim/xcb-imdkit/src/protocolhandler.c:842-848 | from the empty state, whatever the callback does: a run in which the awaited reply comes after its context was destroyed and is ignored, so that an event of another live context goes on waiting |
| SyncQueue.Client.constructor | xim/xcb-imdkit/src/imdkit.c:80-88 | no context, nothing waiting, sync mode on |
| SyncQueue.Client.ForwardEventFull | xim/xcb-imdkit/src/imdkit.c:842-870 | sync is set exactly in sync mode, and the key goes out with the number given |
| SyncQueue.Client.Application | xim/xcb-imdkit/src/imdkit.h:136-334 | any sequence of library calls has the specified effect on the flags and on what is sent |
| SyncQueue.Client.AddQueue | xim/xcb-imdkit/src/imdkit.c:1036-1050 | the event is the last in the queue |
| SyncQueue.Client.TakeFirst | xim/xcb-imdkit/src/imdkit.c:1054-1056 | the first event leaves the queue |
| SyncQueue.Client.ProcessQueue | xim/xcb-imdkit/src/imdkit.c:1052-1069 | the loop on the linked queue computes the specified state |
| SyncQueue.Client.HandleForward | xim/xcb-imdkit/src/protocolhandler.c:705-751 | the handler computes the specified state: checks of size, connect id and context, sequence number, queue or callback and answer |
| SyncQueue.Client.HandleExtForward | xim/xcb-imdkit/src/protocolhandler.c:753-789 | the handler computes the specified state |
| SyncQueue.Client.HandleSyncReply | xim/xcb-imdkit/src/protocolhandler.c:830-862 | the handler computes the specified state: sync and im->sync are cleared, the callback is called if that was set, the queue is processed |
| Charstring.Get8 | stb_truetype.h:1133-1138 | a byte is read and the cursor moves, or 0 without moving at the end |
| Charstring.Skip | stb_truetype.h:1147-1156 | the cursor stays within the buffer |
| Charstring.LinesEndIs | stb_truetype.h:2114-2120 | rlinecurve always has the operands of its last curve |
| Charstring.CurvesEndIs | stb_truetype.h:2106-2112 | rcurveline always has the operands of its last line |
| Charstring.StepProgresses | stb_truetype.h:2022-2263 | each round drops the bytes left at the depth of the running program and keeps those further out, also on call and return |
| Charstring.Exec | stb_truetype.h:2010-2267 | the interpreter ends on every byte string, with subroutines that call each other to depth 10 |
| Charstring.ExecGrows | stb_truetype.h:1920-1934 | vertices once emitted are never changed by the rest of the program |
| Outline.TruncIs | stb_truetype.h:1936-1966 | coordinates lose their fraction towards zero |
| Outline.NeedsSegment | stb_truetype.h:2043-2134 | an operator is refused exactly when its operands do not make one segment of each kind it draws |
| Outline.DrawTraces | stb_truetype.h:2058-2134 | rlineto, hlineto, vlineto, rrcurveto, rcurveline, rlinecurve, vhcurveto, hvcurveto, vvcurveto and hhcurveto draw the segments that section 4.1 of Technical Note 5177 reads off the operands by their positions: every end and control point and the last pen position |
| Outline.MoveBegins | stb_truetype.h:2043-2056 | rmoveto, hmoveto and vmoveto close the contour by a line, if it is open, and begin another at the pen moved by the last operands |
| Outline.FlexTraces | stb_truetype.h:2164-2244 | hflex, flex, hflex1 and flex1 draw their two curves |
| Outline.FlexReturns | stb_truetype.h:2164-2244 | hflex and hflex1 end at the height they began at, flex1 at the height or in the column |
| Outline.ContoursClosed | stb_truetype.h:1936-1948 | whatever the program, every contour but the last comes back to its start, and the last one too when the program ends with endchar |
| CharstringCode.NumbersPushed | stb_truetype.h:1204-1214 | every number of 16 bits in its shortest and in its three-byte form, and every fixed number, is read back from its bytes |
| CharstringCode.HintsCounted | stb_truetype.h:2036-2041 | two operands are a stem |
| CharstringCode.MaskSkipsBits | stb_truetype.h:2028-2034 | a mask is skipped: one bit for each stem in whole bytes, operands before the first mask counting as stems |
| CharstringCode.OperatorsClear | stb_truetype.h:2022-2263 | operators use up all operands, calls the number alone; the header lasts until a mask or a moveto |
| CharstringCode.OthersRefused | stb_truetype.h:2246-2248 | every operator byte without a meaning is refused |
| CharstringCode.SubrNumbers | stb_truetype.h:1968-1980 | subroutine numbers count from minus the bias of section 16 of Technical Note 5176 |
| CharstringCode.CallReturns | stb_truetype.h:2136-2158 | a call runs the subroutine of its last operand with the others, and its return goes on behind the call with the operands and the drawing as they then are |
| CharstringCode.HLineDrawn | stb_truetype.h:2071-2085 | a whole program: 0 0 rmoveto, 100 hlineto, endchar |
| CharstringRun.StoredIsVertex | stb_truetype.h:1920-1934 | a stored vertex is the vertex itself exactly when its coordinates have 16 bits, else one with the same low 16 bits |
| CharstringRun.BoxHolds | stb_truetype.h:1911-1926 | the tracked box holds every end and control point |
| CharstringRun.BoxTouches | stb_truetype.h:1911-1926 | each side of the box touches one of them |
| CharstringRun.Csctx.TrackVertex | stb_truetype.h:1911-1918 | the box is extended by the point |
| CharstringRun.Csctx.PutVertex | stb_truetype.h:1920-1934 | counting mode counts and tracks, output mode stores at the next place, within the array |
| CharstringRun.Csctx.Close | stb_truetype.h:1936-1940 | the contour is closed by a line exactly when it is open |
| CharstringRun.Csctx.RMoveTo | stb_truetype.h:1942-1948 | the old contour is closed and a new one starts |
| CharstringRun.Csctx.RLineTo | stb_truetype.h:1950-1955 | one line vertex at the moved pen |
| CharstringRun.Csctx.RCurveTo | stb_truetype.h:1957-1966 | one curve vertex with its control points |
| CharstringRun.Csctx.RunDraw | stb_truetype.h:2043-2134 | the drawing operators, loops included, draw what the specification says |
| CharstringRun.Csctx.RunFlex | stb_truetype.h:2164-2244 | the four flex operators |
| Charstring.SelectDict | stb_truetype.h:1982-2005 | for every FDSelect, malformed ones included, and every glyph the loop computes the selector: the byte of the glyph in format 0, in format 3 that of the first range that holds it, -1 otherwise |
| Charstring.SelectorMeansRange | stb_truetype.h:1994-2006 | when the ranges rise from glyph 0, that is the selector of the range that holds the glyph, and -1 exactly from the sentinel on |
| CharstringRun.Interpreter.FindSubrs | stb_truetype.h:2136-2142 | the first local call, and no other, looks up the subroutines of the font dictionary of the glyph; later ones find the same |
| CharstringRun.Interpreter.DoCall | stb_truetype.h:2136-2152 | a call suspends the running program, or fails without operand, subroutine or free level |
| CharstringRun.Interpreter.DoReturn | stb_truetype.h:2154-2158 | a return resumes the caller, or fails outside a subroutine |
| CharstringRun.Interpreter.DoMask | stb_truetype.h:2028-2034 | the mask bytes are skipped |
| CharstringRun.Interpreter.DoPush | stb_truetype.h:2246-2260 | an operand is pushed, or the program fails on a full stack of 48 |
| CharstringRun.Interpreter.Round | stb_truetype.h:2022-2263 | one round of the loop |
| CharstringRun.Interpreter.Run | stb_truetype.h:2010-2267 | the loop terminates and draws exactly what the specification draws, in counting and in output mode |
| CharstringRun.GetGlyphShape | stb_truetype.h:2269-2284 | the output pass succeeds when the counting pass did, emits the same number of vertices and fills the array exactly |
| CharstringRun.GetGlyphInfo | stb_truetype.h:2286-2295 | the number of vertices and the box of the outline |
| Cmap.SegmentExists | stb_truetype.h:1530-1544 | every code point up to 0xFFFF has a segment ending at or after it |
| Cmap.Probe | stb_truetype.h:1536-1543 | a probe tells on which side of it the wanted segment lies |
| Cmap.SearchSegment | stb_truetype.h:1517-1544 | the biased power-of-two search stays in bounds and equals the linear scan |
| Cmap.FindGlyph4 | stb_truetype.h:1516-1560 | the search and the tail compute what the table maps the code point to in this code: the first segment that ends at or after it, 0 when it starts later |
| Cmap.LatinMapped | stb_truetype.h:1516-1560 | an instance in bytes: delta, gap and glyph array of a format 4 table |
| Cmap.GlyphMeetsSpec | stb_truetype.h:1555-1559 | for every well-formed table and code point: the glyph is that of the OpenType rule if and only if no range offset leads to a glyph other than 0 in a segment with a delta other than 0 |
| Cmap.DeltaTableFails | stb_truetype.h:1555-1559 | a table of two segments for which it is not |
| Cmap.OneGroup | stb_truetype.h:1561-1583 | at most one group holds a code point |
| Cmap.FindGlyphGroup | stb_truetype.h:1561-1583 | the binary search finds the group that holds the code point, or 0 when none does |
| Cmap.GroupsCount | stb_truetype.h:1574-1578 | the first code point of a group has its glyph, and each further one the next glyph in format 12, the same in format 13 |
| Cmap.LettersMapped | stb_truetype.h:1561-1583 | an instance in bytes of formats 12 and 13 |
| EdgeSort.InsertionSort | stb_truetype.h:3399-3415 | the first n edges end up sorted and are the same edges |
| EdgeSort.InsertOne | stb_truetype.h:3402-3414 | one more edge is put in place |
| EdgeSort.MedianToFront | stb_truetype.h:3424-3444 | after the median of three some other edge is not below the front one |
| EdgeSort.ScanUp | stb_truetype.h:3452-3454 | the unguarded upward scan stops in bounds |
| EdgeSort.ScanDown | stb_truetype.h:3455-3457 | the unguarded downward scan stops at the front edge at the latest |
| EdgeSort.Partition | stb_truetype.h:3446-3466 | edges before i are at most the pivot, edges after j at least, and at most one lies between |
| EdgeSort.CutKept | stb_truetype.h:3467-3475 | rearranging the edges of one side of a cut keeps it a cut |
| EdgeSort.SplitRun | stb_truetype.h:3420-3466 | a round leaves nothing before its cut greater than anything after it, at most one edge being in neither part; of edges in rising order the smallest is put in the middle and left out |
| EdgeSort.Quicksort | stb_truetype.h:3417-3477 | leaves its range roughly sorted: cut again and again in ordered parts, with at most one edge between, down to 12; of more than 12 edges in rising order the smallest ends in the middle; nests at most log2(n) calls |
| EdgeSort.SortEdges | stb_truetype.h:3479-3483 | the result is sorted and a permutation, for every length |

## Left out

- Sockets, pipes, D-Bus, X calls and properties, poll loops, window drawing and font loading: only the events they deliver are modelled.
- imclient.c and clientprotocolhandler.c: the client half, which the daemon does not run, but for its first message and the byte order it reads and writes in.
- Message transport by window properties (message.c, format 32): the frame bytes are taken as delivered whole.
- Attribute handling of input contexts (set and get values, nested attributes) and the other handlers of protocolhandler.c: they move frames whose reading and writing is covered.
- Connect ids of clients: the duplicate check and the insertion use different key lengths.
- Memory: growth is copying to a larger array; malloc failure, freeing and die are not modelled, except that sputr's overflow is shown not to happen.
- EngineLedger.KoreanRunEntered: for a map of Korean that renders no preedit, as hangul.map, which is empty; EngineLedger.RunEntered is for every map.
- chartorune and runetochar: library code, modelled by section 3 of RFC 3629.
- Reading files into lines: Dict.Dictopen and Trie.Trieopen start from the lines, which as C strings hold no NUL.
- Jenkins' hash of uthash: any function of the key's bytes; the mask is taken as the remainder, the bucket count being a power of two.
- Text.StrBuffer.Put: the text that die prints is not modelled.
- Engine.ImThread.Press: a draw channel that is full would block the sender; sends are appended to a log instead.
- HashMap.LastNonEmptyWins: keys with a NUL are left to HashMap.HMap.Set; the lines of a dictionary have none.
- XimFrames.RoundTrip: frames are descriptors with generic readers and writers, one per field kind, instead of one C function per frame.
- SyncQueue.RunKeepsOrder: the public functions cannot destroy a context alone; a callback that shuts the server down (xcb_im_close_im) or handles another event (xcb_im_filter_event) before it returns is not modelled. A run ends with the client's connection.
- SyncQueue.StepKeepsOk: what the application does in callbacks that are not about keys, and for other clients, is the message Acts; the contents of create messages beyond the connect id are not modelled.
- Charstring.Exec: coordinates are reals, so the rounding of floats is not modelled; assertions of the buffer functions are compiled out and out-of-range seeks go to the end, as the code then does.
- Charstring.Exec: subroutines are a list of byte strings, for a font with several font dictionaries one list per selector; reading them from the CFF index is not modelled.
- Cmap.FindGlyph4: formats 0 and 6 are direct lookups and add nothing; format 2 is not supported by the code.
- EdgeSort.SortEdges: edges with NaN coordinates have no place in the order of the reals.
- DictThread.AnswersInOrder: an answer is matched by preedit alone, as in the code; the language it was asked in is not compared.
- TrueType outlines, rasterization, signed-distance fields and glyph positioning: floating-point geometry.
