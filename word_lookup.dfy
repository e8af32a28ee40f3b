/**
 * The word popup of the Home screen. Clicking a transcript word records it
 * as the selected word and asks the backend dictionary for its entry; when
 * the lookup fails a placeholder entry is shown instead. The popup is on
 * screen while both the selected word and the entry are truthy.
 */
module WordLookup {
  import opened Wrappers
  import Transcript

  datatype WordEntry = WordEntry(word: string, meaning: string, pronunciation: string, example: string)

  /** What `GET /word/{w}` produced: the backend's record, or any failure. */
  datatype LookupReply = Found(entry: WordEntry) | NotFound

  const NotFoundMeaning: string := "Word not found in dictionary"
  const NotAvailable: string := "N/A"

  /** The record of the catch branch of `handleWordClick`: it names the word asked for, with placeholders. */
  function FallbackEntry(word: string): (e: WordEntry)
    ensures e.word == word && IsPlaceholder(e)
  {
    WordEntry(word, NotFoundMeaning, NotAvailable, NotAvailable)
  }

  predicate IsPlaceholder(e: WordEntry) {
    e.meaning == NotFoundMeaning && e.pronunciation == NotAvailable && e.example == NotAvailable
  }

  /** The entry `handleWordClick` stores: the backend's on success, the placeholder on failure. */
  function ShownEntry(word: string, reply: LookupReply): (e: WordEntry)
    ensures reply.Found? ==> e == reply.entry
    ensures reply.NotFound? ==> e.word == word && IsPlaceholder(e)
  {
    match reply
    case Found(entry) => entry
    case NotFound => FallbackEntry(word)
  }

  /** After a failed lookup of the `k`-th word of a transcript line, the popup names the cleaned word. */
  lemma FailedClickNamesCleanWord(line: string, k: nat)
    requires k < |Transcript.Words(line)|
    ensures var e := ShownEntry(Transcript.ClickedWord(line, k), NotFound);
            e.word == Transcript.CleanWord(Transcript.Words(line)[k]) && Transcript.HasNoPunctuation(e.word)
  {
  }

  /** The state `selectedWord` / `wordData` of the Home component. */
  class WordPopup {
    var selectedWord: Option<string>
    var wordData: Option<WordEntry>

    /** `selectedWord && wordData`: an empty word is falsy, so it opens no popup. */
    predicate Shown()
      reads this
    {
      selectedWord.Some? && selectedWord.value != "" && wordData.Some?
    }

    constructor ()
      ensures selectedWord == None && wordData == None
      ensures !Shown()
    {
      selectedWord := None;
      wordData := None;
    }

    /** `handleWordClick(word)` once the lookup has settled with `reply`. */
    method HandleWordClick(word: string, reply: LookupReply)
      modifies this
      ensures selectedWord == Some(word)
      ensures wordData == Some(ShownEntry(word, reply))
      ensures Shown() <==> word != ""
    {
      selectedWord := Some(word);
      match reply {
        case Found(entry) => wordData := Some(entry);
        case NotFound => wordData := Some(FallbackEntry(word));
      }
    }

    /** The close buttons: `setSelectedWord(null)`; the last entry is kept. */
    method Close()
      modifies this
      ensures selectedWord == None && wordData == old(wordData)
      ensures !Shown()
    {
      selectedWord := None;
    }
  }
}
