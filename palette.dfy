/**
 * The command palette ("God Mode"): a static table of actions plus one entry
 * per history record, filtered by a case-insensitive substring match on the
 * title, shown in three groups (Commands, Themes, History) in that order,
 * with empty groups omitted and a "No actions found" line when nothing
 * matches. The first item shown is the selected one; Enter fires it.
 */
module Palette {
  import opened Wrappers
  import opened Text
  import Notes
  import Themes

  /** What firing an entry does, outside the palette itself. */
  datatype Effect =
    | ClickNewNote | ClickRefine | ClickSaveNote | ClickExportPdf | ClickVisualize
    | ClickFocus | ClickSettings | ConfirmClearData
    | ApplyTheme(index: nat)
    | Replay(input: string, output: string)   // put a history record back into the editor and the output pane

  datatype Entry = Entry(title: string, icon: string, tag: string, effect: Effect)

  const ThemeTag := "Theme"
  const HistoryTag := "History"
  const HistoryIcon := "fa-clock-rotate-left"

  /** The static action table, in the order the page declares it. */
  const Actions: seq<Entry> := [
    Entry("New Note", "fa-plus", "Action", ClickNewNote),
    Entry("Refine Text", "fa-wand-magic-sparkles", "AI", ClickRefine),
    Entry("Save Note", "fa-bookmark", "Action", ClickSaveNote),
    Entry("Export PDF", "fa-file-pdf", "File", ClickExportPdf),
    Entry("Visualize", "fa-diagram-project", "Tool", ClickVisualize),
    Entry("Focus Mode", "fa-expand", "View", ClickFocus),
    Entry("Settings", "fa-gear", "System", ClickSettings),
    Entry("Clear Data", "fa-trash", "Data", ConfirmClearData),
    Entry("Theme: Nebula", "fa-moon", ThemeTag, ApplyTheme(0)),
    Entry("Theme: Daylight", "fa-sun", ThemeTag, ApplyTheme(1)),
    Entry("Theme: Hacker", "fa-terminal", ThemeTag, ApplyTheme(3))
  ]

  /** Every theme action of the table selects an existing theme and is titled after it; the other actions are no theme switches. */
  lemma {:induction false} ThemeActionsMatchThemes()
    ensures forall i :: 0 <= i < |Actions| && Actions[i].tag == ThemeTag ==>
      Actions[i].effect.ApplyTheme? && Actions[i].effect.index < |Themes.ThemeTable|
      && Actions[i].title == "Theme: " + Themes.ThemeTable[Actions[i].effect.index].name
    ensures forall i :: 0 <= i < |Actions| ==> (Actions[i].tag == ThemeTag <==> Actions[i].effect.ApplyTheme?)
  {
    forall i | 0 <= i < |Actions|
      ensures Actions[i].tag == ThemeTag <==> Actions[i].effect.ApplyTheme?
      ensures Actions[i].tag == ThemeTag ==>
        && Actions[i].effect.ApplyTheme?
        && Actions[i].effect.index < |Themes.ThemeTable|
        && Actions[i].title == "Theme: " + Themes.ThemeTable[Actions[i].effect.index].name
    {
      if i < 8 {
        assert Actions[i].tag != ThemeTag by {
          assert Actions[i].tag[0] != 'T' || Actions[i].tag[1] != 'h';
        }
      }
    }
  }

  /** The palette entry for one history record: its title, and replaying its input and output. */
  function HistoryEntry(n: Notes.Note): Entry {
    Entry(n.title, HistoryIcon, HistoryTag, Replay(n.o, n.r))
  }

  /** The history entries, one per stored record, in the stored (newest-first) order. */
  function HistoryEntries(notes: seq<Notes.Note>): (es: seq<Entry>)
    ensures |es| == |notes|
    ensures forall i :: 0 <= i < |notes| ==> es[i] == HistoryEntry(notes[i])
  {
    if notes == [] then [] else [HistoryEntry(notes[0])] + HistoryEntries(notes[1..])
  }

  /** `item.title.toLowerCase().includes(query.toLowerCase())`. */
  predicate Matches(e: Entry, query: string) {
    Contains(ToLower(e.title), ToLower(query))
  }

  /** `Array.prototype.filter`: the entries satisfying `keep`, in their order. */
  function Filter(es: seq<Entry>, keep: Entry -> bool): (r: seq<Entry>)
    ensures |r| <= |es|
    ensures forall e :: e in r <==> e in es && keep(e)
  {
    if es == [] then [] else (if keep(es[0]) then [es[0]] else []) + Filter(es[1..], keep)
  }

  /** Filtering a concatenation filters each part and keeps them in order: the source order survives. */
  lemma {:induction false} FilterAppend(a: seq<Entry>, b: seq<Entry>, keep: Entry -> bool)
    ensures Filter(a + b, keep) == Filter(a, keep) + Filter(b, keep)
  {
    if a == [] {
      assert a + b == b;
    } else {
      assert (a + b)[1..] == a[1..] + b;
      FilterAppend(a[1..], b, keep);
    }
  }

  /** A filter that keeps every entry returns the list unchanged. */
  lemma {:induction false} FilterKeepsAll(es: seq<Entry>, keep: Entry -> bool)
    requires forall e :: e in es ==> keep(e)
    ensures Filter(es, keep) == es
  {
    if es != [] {
      FilterKeepsAll(es[1..], keep);
    }
  }

  /** The matching actions that are not theme switches, in table order. */
  function Commands(query: string): (r: seq<Entry>)
    ensures |r| <= |Actions|
    ensures forall e :: e in r <==> e in Actions && Matches(e, query) && e.tag != ThemeTag
  {
    Filter(Actions, e => Matches(e, query) && e.tag != ThemeTag)
  }

  /** The matching theme switches, in table order. */
  function ThemeCommands(query: string): (r: seq<Entry>)
    ensures |r| <= |Actions|
    ensures forall e :: e in r <==> e in Actions && Matches(e, query) && e.tag == ThemeTag
  {
    Filter(Actions, e => Matches(e, query) && e.tag == ThemeTag)
  }

  /** The matching history entries, newest first. */
  function HistoryCommands(query: string, notes: seq<Notes.Note>): (r: seq<Entry>)
    ensures |r| <= |notes|
    ensures forall e :: e in r <==> e in HistoryEntries(notes) && Matches(e, query)
  {
    Filter(HistoryEntries(notes), e => Matches(e, query))
  }

  /** A labelled group of the result list. */
  datatype Section = Section(heading: string, items: seq<Entry>)

  /** What the result pane shows: the placeholder, or the groups. */
  datatype Listing = NoActionsFound | Sections(sections: seq<Section>)

  /** `renderSection`: nothing for an empty group. */
  function SectionIf(heading: string, items: seq<Entry>): seq<Section> {
    if items == [] then [] else [Section(heading, items)]
  }

  /** The three groups as the result pane lays them out: the placeholder when all are empty, else the non-empty ones in order. */
  function Groups(commands: seq<Entry>, themes: seq<Entry>, history: seq<Entry>): (r: Listing)
    ensures r.NoActionsFound? <==> commands == [] && themes == [] && history == []
    ensures r.Sections? ==> 1 <= |r.sections| <= 3 && forall s :: s in r.sections ==> s.items != []
  {
    if |commands| + |themes| + |history| == 0 then NoActionsFound
    else Sections(SectionIf("Commands", commands) + SectionIf("Themes", themes) + SectionIf("History", history))
  }

  /**
   * `renderCommands(query)`, with `notes` the list stored under
   * `Notes.HistoryKey`: the placeholder exactly when neither an action nor a
   * history record has a title that matches.
   */
  function Render(query: string, notes: seq<Notes.Note>): (r: Listing)
    ensures r.NoActionsFound? <==> forall e :: e in Actions || e in HistoryEntries(notes) ==> !Matches(e, query)
  {
    NothingMatches(query, notes);
    Groups(Commands(query), ThemeCommands(query), HistoryCommands(query, notes))
  }

  /** The three groups are all empty exactly when no action and no history record has a matching title. */
  lemma {:induction false} NothingMatches(query: string, notes: seq<Notes.Note>)
    ensures Commands(query) == [] && ThemeCommands(query) == [] && HistoryCommands(query, notes) == []
      <==> forall e :: e in Actions || e in HistoryEntries(notes) ==> !Matches(e, query)
  {
    var c, t, h := Commands(query), ThemeCommands(query), HistoryCommands(query, notes);
    if c != [] {
      assert c[0] in c;
    } else if t != [] {
      assert t[0] in t;
    } else if h != [] {
      assert h[0] in h;
    } else {
      forall e | e in Actions || e in HistoryEntries(notes) ensures !Matches(e, query) {
        if e in Actions && e.tag == ThemeTag {
          assert e !in t;
        } else if e in Actions {
          assert e !in c;
        } else {
          assert e !in h;
        }
      }
    }
  }

  /** The items of the sections, top to bottom. */
  function Flatten(sections: seq<Section>): seq<Entry> {
    if sections == [] then [] else sections[0].items + Flatten(sections[1..])
  }

  /** The clickable items of a listing, top to bottom. */
  function Items(l: Listing): seq<Entry> {
    match l
    case NoActionsFound => []
    case Sections(ss) => Flatten(ss)
  }

  /** The item marked selected: the first one shown, if any. */
  function Selected(l: Listing): (s: Option<Entry>)
    ensures s.Some? <==> Items(l) != []
    ensures s.Some? ==> s.value == Items(l)[0]
  {
    if Items(l) == [] then None else Some(Items(l)[0])
  }

  lemma {:induction false} FlattenAppend(a: seq<Section>, b: seq<Section>)
    ensures Flatten(a + b) == Flatten(a) + Flatten(b)
  {
    if a == [] {
      assert a + b == b;
    } else {
      assert (a + b)[1..] == a[1..] + b;
      FlattenAppend(a[1..], b);
    }
  }

  lemma {:induction false} FlattenSectionIf(heading: string, items: seq<Entry>)
    ensures Flatten(SectionIf(heading, items)) == items
  {
    if items != [] {
      assert Flatten([Section(heading, items)]) == items + Flatten([]);
    }
  }

  /**
   * The shape of the result pane for any three groups: the placeholder exactly
   * when all three are empty; otherwise the items are the commands, then the
   * themes, then the history matches, under one heading per non-empty group,
   * in that fixed order.
   */
  lemma {:induction false} GroupsShape(commands: seq<Entry>, themes: seq<Entry>, history: seq<Entry>)
    ensures Items(Groups(commands, themes, history)) == commands + themes + history
    ensures Groups(commands, themes, history).Sections? ==>
      Groups(commands, themes, history).sections
        == SectionIf("Commands", commands) + SectionIf("Themes", themes) + SectionIf("History", history)
  {
    var a, b, c := SectionIf("Commands", commands), SectionIf("Themes", themes), SectionIf("History", history);
    FlattenAppend(a + b, c);
    FlattenAppend(a, b);
    FlattenSectionIf("Commands", commands);
    FlattenSectionIf("Themes", themes);
    FlattenSectionIf("History", history);
  }

  /** `renderCommands`: the groups are the matching commands, theme switches and history entries, laid out as above. */
  lemma {:induction false} RenderShape(query: string, notes: seq<Notes.Note>)
    ensures var commands, themes, history := Commands(query), ThemeCommands(query), HistoryCommands(query, notes);
      && (Render(query, notes).NoActionsFound? <==> commands == [] && themes == [] && history == [])
      && Items(Render(query, notes)) == commands + themes + history
  {
    GroupsShape(Commands(query), ThemeCommands(query), HistoryCommands(query, notes));
  }

  /** An entry is shown exactly when it is an action or a history entry and its title matches the query. */
  lemma {:induction false} ShownIff(query: string, notes: seq<Notes.Note>, e: Entry)
    ensures e in Items(Render(query, notes)) <==> (e in Actions || e in HistoryEntries(notes)) && Matches(e, query)
  {
    RenderShape(query, notes);
  }

  /** The empty query matches every title, so opening the palette lists every action and every history record. */
  lemma {:induction false} EmptyQueryShowsAll(notes: seq<Notes.Note>)
    ensures Items(Render("", notes))
      == Filter(Actions, (e: Entry) => e.tag != ThemeTag) + Filter(Actions, (e: Entry) => e.tag == ThemeTag) + HistoryEntries(notes)
    ensures Render("", notes).Sections?
  {
    RenderShape("", notes);
    forall e: Entry ensures Matches(e, "") {
      ContainsEmpty(ToLower(e.title));
    }
    FilterSame(Actions, e => Matches(e, "") && e.tag != ThemeTag, (e: Entry) => e.tag != ThemeTag);
    FilterSame(Actions, e => Matches(e, "") && e.tag == ThemeTag, (e: Entry) => e.tag == ThemeTag);
    FilterKeepsAll(HistoryEntries(notes), e => Matches(e, ""));
    assert Actions[0] in Commands("");
  }

  /** Two filters that agree on every entry give the same result. */
  lemma {:induction false} FilterSame(es: seq<Entry>, f: Entry -> bool, g: Entry -> bool)
    requires forall e :: e in es ==> f(e) == g(e)
    ensures Filter(es, f) == Filter(es, g)
  {
    if es != [] {
      FilterSame(es[1..], f, g);
    }
  }

  /** The selected item, the one Enter fires, is the first of the commands, else of the themes, else of the history matches. */
  lemma {:induction false} SelectedIsFirst(query: string, notes: seq<Notes.Note>)
    ensures var all := Commands(query) + ThemeCommands(query) + HistoryCommands(query, notes);
      Selected(Render(query, notes)) == if all == [] then None else Some(all[0])
  {
    RenderShape(query, notes);
  }

  /** History entries of records written by `saveToList` replay an empty input, since it never stores the original text. */
  lemma {:induction false} ReplayClearsInput(notes: seq<Notes.Note>, query: string)
    requires Notes.BlankInputs(notes)
    ensures forall e :: e in HistoryCommands(query, notes) ==> e.effect.Replay? && e.effect.input == ""
  {
  }

  /** The palette's visible state. */
  datatype PaletteState = PaletteState(open: bool, query: string, listing: Listing)

  /** `toggleGodMode`: a closed palette opens with an empty query and the full list; an open one closes and keeps its contents. */
  function Toggled(st: PaletteState, notes: seq<Notes.Note>): (r: PaletteState)
    ensures r.open == !st.open
    ensures !st.open ==> r.query == "" && r.listing == Render("", notes)
    ensures st.open ==> r.query == st.query && r.listing == st.listing
  {
    if st.open then st.(open := false) else PaletteState(true, "", Render("", notes))
  }

  /**
   * The document's keydown handler: Ctrl/Cmd+K toggles, and Escape toggles too
   * (so Escape opens a closed palette); any other key leaves the palette alone.
   */
  function AfterKey(st: PaletteState, ctrlOrMeta: bool, key: string, notes: seq<Notes.Note>): (r: PaletteState)
    ensures (ctrlOrMeta && ToLower(key) == "k") || key == "Escape" ==> r == Toggled(st, notes)
    ensures !(ctrlOrMeta && ToLower(key) == "k") && key != "Escape" ==> r == st
  {
    var st1 := if ctrlOrMeta && ToLower(key) == "k" then Toggled(st, notes) else st;
    if key == "Escape" then Toggled(st1, notes) else st1
  }

  /** Escape on a closed palette opens it. */
  lemma {:induction false} EscapeOpens(st: PaletteState, ctrlOrMeta: bool, notes: seq<Notes.Note>)
    requires !st.open
    ensures AfterKey(st, ctrlOrMeta, "Escape", notes).open
  {
  }

  /** Closing and reopening discards the old query and shows the full list again. */
  lemma {:induction false} ReopenResets(st: PaletteState, notes: seq<Notes.Note>)
    requires st.open
    ensures Toggled(Toggled(st, notes), notes) == PaletteState(true, "", Render("", notes))
  {
  }

  /** The palette element and its result pane. */
  class CommandPalette {
    var open: bool
    var query: string
    var listing: Listing

    function State(): PaletteState
      reads this
    {
      PaletteState(open, query, listing)
    }

    /** Hidden, with an empty input and an empty result pane. */
    constructor ()
      ensures State() == PaletteState(false, "", Sections([]))
    {
      open, query, listing := false, "", Sections([]);
    }

    /** `toggleGodMode`, with `notes` the history stored at that moment. */
    method Toggle(notes: seq<Notes.Note>)
      modifies this
      ensures State() == Toggled(old(State()), notes)
    {
      if !open {
        open := true;
        query := "";
        listing := Render("", notes);
      } else {
        open := false;
      }
    }

    /** A keydown on the document. */
    method KeyDown(ctrlOrMeta: bool, key: string, notes: seq<Notes.Note>)
      modifies this
      ensures State() == AfterKey(old(State()), ctrlOrMeta, key, notes)
    {
      if ctrlOrMeta && ToLower(key) == "k" {
        Toggle(notes);
      }
      if key == "Escape" {
        Toggle(notes);
      }
    }

    /** Typing in the palette's input re-renders the list for the new text. */
    method Input(value: string, notes: seq<Notes.Note>)
      modifies this
      ensures State() == PaletteState(old(open), value, Render(value, notes))
    {
      query := value;
      listing := Render(value, notes);
    }

    /** Clicking the `k`-th item shown: its effect fires, then the palette toggles. */
    method Click(k: nat, notes: seq<Notes.Note>) returns (fired: Effect)
      requires k < |Items(listing)|
      modifies this
      ensures fired == Items(old(listing))[k].effect
      ensures State() == Toggled(old(State()), notes)
    {
      fired := Items(listing)[k].effect;
      Toggle(notes);
    }

    /** Enter in the palette's input clicks the first item shown, if there is one; otherwise nothing happens. */
    method Enter(notes: seq<Notes.Note>) returns (fired: Option<Effect>)
      modifies this
      ensures Selected(old(listing)).None? ==> fired == None && State() == old(State())
      ensures Selected(old(listing)).Some? ==>
        fired == Some(Selected(old(listing)).value.effect) && State() == Toggled(old(State()), notes)
    {
      if Items(listing) != [] {
        var effect := Click(0, notes);
        fired := Some(effect);
      } else {
        fired := None;
      }
    }
  }
}
