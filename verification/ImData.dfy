/** The data of dat.h that the engine, the languages and the dictionary share. */
module ImData {
  import opened Text

  const MAX_KOUHO := 32
  const MAX_DISP := 8

  datatype Language = English | Hiragana | Katakana | Hangul | Emoji | Vietnamese

  /** What a language does with a key: text to commit, the new preedit, a key to look up. */
  datatype Emit = Emit(eat: bool, s: Text, next: Text, dict: Text)

  /** The input method state. `kouho` holds the nkouho candidates in use. */
  class Im {
    var lang: Language
    var pre: Text
    var kouho: seq<Text>
    var sel: int

    /** The state after memset and the choice of English: no candidate, yet sel is 0. */
    constructor ()
      ensures lang == English && pre == [] && kouho == [] && sel == 0
    {
      lang, pre, kouho, sel := English, [], [], 0;
    }
  }
}
