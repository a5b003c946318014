/**
 * The two note lists kept in `localStorage` ("notesHistory", written after
 * every refinement, and "savedNotes", written by the save button): each is
 * newest first and holds at most twenty records, the oldest being dropped.
 */
module Notes {
  import opened Wrappers
  import opened Text

  /** A stored record: a timestamp id, the shortened title, the original input `o` and the refined output `r`. */
  datatype Note = Note(id: int, title: string, o: string, r: string)

  const Capacity := 20
  const TitleLength := 25
  /** The list the refined notes go to; the palette's history group lists `Stored(lists, HistoryKey)`. */
  const HistoryKey := "notesHistory"
  const SavedKey := "savedNotes"
  const ReadyPlaceholder := "Ready for refinement"
  const Untitled := "Untitled Note"
  const NothingToSave := "Generate a note first!"
  const NoteSaved := "Note Saved"

  function Min(a: int, b: int): int {
    if a < b then a else b
  }

  /** The stored title: at most the first 25 characters, then "..." whatever the length. */
  function ShortTitle(title: string): (t: string)
    ensures |t| == Min(|title|, TitleLength) + 3
    ensures StartsWith(title, t[..|t| - 3]) && t[|t| - 3..] == "..."
  {
    title[..Min(|title|, TitleLength)] + "..."
  }

  /**
   * The list after `note` is put in front and the list cut to capacity: the
   * new record is first, and the old records follow in their order, as many
   * of them as fit (the oldest is evicted from a full list).
   */
  function Pushed(list: seq<Note>, note: Note): (r: seq<Note>)
    ensures |r| == Min(|list| + 1, Capacity)
    ensures r[0] == note
    ensures r[1..] == list[..Min(|list|, Capacity - 1)]
  {
    ([note] + list)[..Min(|list| + 1, Capacity)]
  }

  /** What `JSON.parse(localStorage.getItem(key)) || []` reads: the stored list, or the empty one. */
  function Stored(lists: map<string, seq<Note>>, key: string): (r: seq<Note>)
    ensures key in lists ==> r == lists[key]
    ensures key !in lists ==> r == []
  {
    if key in lists then lists[key] else []
  }

  /** Whether every record's original input is empty, as `saveToList` always writes it. */
  predicate BlankInputs(list: seq<Note>) {
    forall i :: 0 <= i < |list| ==> list[i].o == ""
  }

  /** A list of at most twenty stays within capacity, and a full list loses exactly its oldest record. */
  lemma {:induction false} PushedBounded(list: seq<Note>, note: Note)
    requires |list| <= Capacity
    ensures |Pushed(list, note)| <= Capacity
    ensures |list| == Capacity ==> Pushed(list, note) == [note] + list[..Capacity - 1]
    ensures |list| < Capacity ==> Pushed(list, note) == [note] + list
  {
    var r := Pushed(list, note);
    assert r == [r[0]] + r[1..];
  }

  /** Records written by `saveToList` keep the original input blank, whatever is pushed after them. */
  lemma {:induction false} PushedBlankInputs(list: seq<Note>, id: int, title: string, r: string)
    requires BlankInputs(list)
    ensures BlankInputs(Pushed(list, Note(id, title, "", r)))
  {
    var p := Pushed(list, Note(id, title, "", r));
    forall i | 0 <= i < |p| ensures p[i].o == "" {
      if i > 0 {
        assert p[i] == p[1..][i - 1];
      }
    }
  }

  /**
   * The content the save button would store: the raw reply, or else the text
   * on screen; None when that is empty, blank, or still holds the placeholder.
   */
  function NoteContent(currentRaw: string, shownText: string): (c: Option<string>)
    ensures var content := if currentRaw != "" then currentRaw else shownText;
      (c.None? <==> IsBlank(content) || Contains(content, ReadyPlaceholder))
      && (c.Some? ==> c.value == content)
  {
    var content := if currentRaw != "" then currentRaw else shownText;
    if content == "" || Contains(content, ReadyPlaceholder) || Trim(content) == "" then None
    else Some(content)
  }

  /** The title the save button passes on: the first 25 characters of the trimmed editor, or "Untitled Note". */
  function NoteTitle(userInput: string): (t: string)
    ensures IsBlank(userInput) ==> t == Untitled
    ensures !IsBlank(userInput) ==> StartsWith(Trim(userInput), t) && |t| == Min(|Trim(userInput)|, TitleLength)
  {
    var trimmed := Trim(userInput);
    var head := trimmed[..Min(|trimmed|, TitleLength)];
    if head == "" then Untitled else head
  }

  /** The note lists in `localStorage`, by key. */
  class NoteStore {
    var lists: map<string, seq<Note>>

    constructor (stored: map<string, seq<Note>>)
      ensures lists == stored
    {
      lists := stored;
    }

    /**
     * `saveToList(key, title, content)` at time `now`: read the list, put the
     * new record in front, keep the first twenty and write it back. Only `key`
     * changes.
     */
    method SaveToList(key: string, title: string, content: string, now: int)
      modifies this
      ensures lists == old(lists)[key := Pushed(Stored(old(lists), key), Note(now, ShortTitle(title), "", content))]
    {
      var list := Stored(lists, key);
      list := [Note(now, ShortTitle(title), "", content)] + list;
      lists := lists[key := list[..Min(|list|, Capacity)]];
    }

    /**
     * The save button: refuse to save empty or placeholder output (nothing
     * changes), otherwise push the note onto "savedNotes". Returns the toast.
     */
    method SaveNote(currentRaw: string, shownText: string, userInput: string, now: int) returns (message: string)
      modifies this
      ensures NoteContent(currentRaw, shownText).None? ==> message == NothingToSave && lists == old(lists)
      ensures NoteContent(currentRaw, shownText).Some? ==>
        && message == NoteSaved
        && lists == old(lists)[SavedKey := Pushed(Stored(old(lists), SavedKey),
                                                  Note(now, ShortTitle(NoteTitle(userInput)), "", NoteContent(currentRaw, shownText).value))]
    {
      var title := NoteTitle(userInput);
      var content := NoteContent(currentRaw, shownText);
      if content.None? {
        return NothingToSave;
      }
      SaveToList(SavedKey, title, content.value, now);
      message := NoteSaved;
    }
  }
}
