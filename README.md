# Note refiner front end, modelled in Dafny

The application is a single-page note editor. A user signs in, types raw
notes, and has a small language model on a local inference server refine
them. The page keeps a history of refinements and a list of saved notes in
`localStorage`. It can also draw the notes as a Mermaid diagram, read the
output aloud, switch colour themes and run commands from a keyboard palette
("God Mode", opened with Ctrl/Cmd+K).

This project models the page's client logic (`script.js`) and the prompt
strip of the inference endpoint (`main.py`):

- `Session`: the session guard. The access token is kept in two storage
  scopes. `forceLogout`, `apiFetch` with its global 401 handling and
  `validateSession` are modelled, together with the login/register form,
  the logout button and the change-password form. The class `Session.Guard`
  holds the guard's state. Every method's contract gives the whole new state
  in terms of the old one, mostly through pure specification functions over
  `GuardState`, which carry the properties.
- `Notes`: the two bounded, newest-first note lists, `saveToList`, and the
  guard in front of the save button.
- `Palette`: the command palette. It covers the action table, filtering and
  grouping by `renderCommands`, the selected item, toggling, the key
  handling, and the click and Enter behaviour. `Palette.CommandPalette` is
  the stateful element.
- `Themes`: the theme table and `applyTheme`. It also covers the round trip
  of the theme index through `localStorage`, including the JavaScript
  `parseInt(...) || 0` that reads it back.
- `Voices`: the voice menu built by `populateVoices`, and the speed button
  that cycles through three playback rates.
- `Mermaid`: the extraction of the first ```` ```mermaid ```` block from a
  reply.
- `InputStats`: the live word count under the editor.
- `Generate`: the removal of the echoed prompt from the decoded model
  output.
- `Text`: the JavaScript string operations the rest relies on:
  - `trim` over the ECMAScript white-space set
  - `indexOf`, `includes` and `toLowerCase`

The network is an oracle. Each operation that issues a request takes the
reply it will receive as a parameter (`Reply`, `AuthReply`) and returns the
request it sent. Storage, the visible screen, toasts and form fields are
fields of the modelled state. Timestamps (`Date.now()`) are parameters too.

## Model

| member | source | states |
|---|---|---|
| Text.TrimStart | script.js:193-194 | the result is a suffix of the input, what was dropped is all white space, and the result does not start with white space |
| Text.TrimEnd | script.js:193-194 | the result is a prefix of the input, what was dropped is all white space, and the result does not end with white space |
| Text.Trim | script.js:193-194 | `trim()`: the input is a blank prefix, then the result, then a blank suffix, the prefix being exactly what `TrimStart` drops; the result is empty exactly when the input is blank, and otherwise starts and ends with a non-space character |
| Text.IndexOf | script.js:425 | `indexOf`/`includes`: a found index is an occurrence and no earlier index is one; "not found" means no occurrence anywhere |
| Text.ToLower | script.js:839 | `toLowerCase` keeps the length and maps each character on its own |
| Text.ContainsEmpty | script.js:843-845 | every string includes the empty string, so an empty query matches every title |
| Generate.StripPrompt | main.py:50-52 | a decoded output that starts with the prompt loses exactly that prefix (`prompt + r == decoded`); any other output is returned unchanged; the result is always a suffix of the output |
| Generate.StripOnce | main.py:51-52 | the prompt is removed at most once: a doubled prompt keeps its second copy |
| Generate.StripExact | main.py:51-52 | `prompt + x` always yields `x` |
| Mermaid.FencedBlock | script.js:779 | the regular expression's match: no block without an opening marker, and a block is never longer than the reply |
| Mermaid.MermaidCode | script.js:779-780 | the extracted code is never longer than the reply; a reply without an opening ```` ```mermaid ```` marker is returned whole |
| Mermaid.IndexOfFirst | script.js:779 | the first occurrence of a pattern with none before it is the one the search finds |
| Mermaid.FirstFenceAfter | script.js:779 | the lazy `*?` stops at the first fence: a body holding no fence of its own is closed by the fence right after it |
| Mermaid.MermaidBetween | script.js:779 | once the marker and the next fence are found, the block is exactly the text between them |
| Mermaid.MermaidBlock | script.js:779-780 | for a reply `pre` + marker + `body` + fence + `post`, with no earlier marker and no fence inside `body`, the code is exactly `body` trimmed (the lazy match stops at the first fence) |
| Mermaid.MermaidUnclosed | script.js:779-780 | an opening marker with no closing fence after it makes the whole reply the code |
| InputStats.Split | script.js:886 | `split(/\s+/)` gives at least one piece; the first piece is empty exactly when the input starts with white space or is empty |
| InputStats.SplitPieces | script.js:886 | no piece holds white space, and the pieces laid end to end are the input with all its white space removed |
| InputStats.GapsBlank | script.js:886 | every run the split cuts at is non-empty and all white space |
| InputStats.SplitRebuilds | script.js:886 | there is one run fewer than pieces, and putting the runs back between the pieces gives the input back |
| InputStats.SplitInteriorNonEmpty | script.js:886 | the runs are maximal: no piece strictly between two runs is empty |
| InputStats.SplitPiecesNonEmpty | script.js:886 | for an input that does not end in white space, no piece after the first is empty |
| InputStats.SplitCount | script.js:886 | the number of pieces is the number of word starts, plus one for leading and one for trailing white space; the empty string gives one piece |
| InputStats.SqueezeTrim | script.js:886 | trimming does not change the non-space characters of the input |
| InputStats.WordStartsMargins | script.js:886 | blank margins around a string add no word start |
| InputStats.TrimKeepsWords | script.js:886 | `trim()` removes no word start |
| InputStats.TrimmedCount | script.js:886 | a string with no white space at either end splits into exactly one piece per word start |
| InputStats.WordCount | script.js:886 | the count shown is never below one |
| InputStats.BlankIsOneWord | script.js:886 | an empty or blank editor shows "1 words" |
| InputStats.WordCountIsWordStarts | script.js:886 | the count shown equals the number of positions where a non-space character follows white space or the start of the text, except that a blank editor shows one |
| InputStats.WordsOfInput | script.js:886 | for a non-blank editor there are as many pieces as word starts, each piece is a non-empty word free of white space, and together they spell the input's non-space characters in order |
| Session.StoredToken | script.js:89-91 | the token read is the `localStorage` one when that is non-empty, else the `sessionStorage` one; there is none exactly when both are missing or empty |
| Session.WithBearer | script.js:93-99 | with a token, the caller's headers gain exactly an `Authorization: Bearer <token>` header; without one they are sent unchanged; no other header is altered |
| Session.AfterForceLogout | script.js:73-85 | from any state: both storage scopes are cleared, the login screen shows, the editor is emptied, the output is reset and the message is toasted; the form mode and its error line are kept |
| Session.Guard.ForceLogout | script.js:73-85 | the new state is `AfterForceLogout` of the old one |
| Session.Guard.ApiFetch | script.js:88-114 | the request carries the stored token; a 401 logs out with the default message and raises "Unauthorized"; any other status is returned with the state unchanged; a network failure propagates |
| Session.Guard.ValidateSession | script.js:117-144 | with no stored token it logs out with "Please login to continue" and sends nothing; otherwise it sends the probe with the token, and only an OK answer reveals the workspace, while every other outcome logs out |
| Session.Guard.ToggleAuthMode | script.js:157-178 | the form switches between login and register mode and the error line is hidden; nothing else changes |
| Session.Guard.Logout | script.js:182-186 | the logout button is `forceLogout("Logged out successfully")` |
| Session.SubmitError | script.js:191-215 | the form sends iff email and password are non-empty and, in register mode, the confirmation is non-empty and equal to the password; each refusal message holds exactly under its own condition |
| Session.FailureText | script.js:233-262 | `errorData.detail \|\| fallback`: a refusal shows the server's detail, or the fallback when the detail is empty, so it is never blank when the fallback is not; a network failure shows its own message |
| Session.AfterRegister | script.js:220-245 | a successful registration stores no token, leaves the screen as it was, switches the form back to login mode and toasts; a failure shows the server's detail or "Registration failed", or the network error |
| Session.AfterLogin | script.js:247-280 | a successful login stores the token in `localStorage` iff "remember me" is ticked, else in `sessionStorage`, leaves the other scope alone and shows the workspace; a failure only sets the error line (detail or "Invalid credentials", or the network error) |
| Session.Guard.SubmitTrimmed | script.js:195-281 | with the trimmed fields: a refused form only sets the error line; otherwise the registration or login request of those fields is sent and answered per `AfterRegister` or `AfterLogin` |
| Session.Guard.AnswerRegister | script.js:220-245 | the new state is `AfterRegister` of the old one |
| Session.Guard.AnswerLogin | script.js:247-280 | the new state is `AfterLogin` of the old one |
| Session.Guard.Submit | script.js:189-281 | a refused form sets the error line and sends nothing; otherwise register mode sends a registration of the trimmed email and password and ends in `AfterRegister`, and login mode sends a login and ends in `AfterLogin` |
| Session.PasswordChangeError | script.js:315-327 | the form sends iff all three trimmed fields are non-empty and the new password equals its confirmation; each refusal toast holds exactly under its own condition |
| Session.PasswordChangeToast | script.js:329-349 | after an answer, "Password updated successfully" iff the status is OK, "Incorrect current password" for any other status, and the exception's message when one was raised |
| Session.AfterPasswordAnswer | script.js:329-349 | a 401 signs the user out and leaves "Unauthorized" as the toast, overwriting `forceLogout`'s message; any other answer changes only the toast, which reads "Password updated successfully" for an OK status |
| Session.Guard.SendPasswordChange | script.js:329-349 | the request carries the stored token and no other header; the fields are cleared iff the status is OK; the new state is `AfterPasswordAnswer` |
| Session.Guard.SubmitPasswordChange | script.js:319-349 | with the trimmed fields: a refused form toasts its reason and sends nothing, and an accepted one is sent and answered as above |
| Session.Guard.ChangePassword | script.js:312-352 | a refused form toasts its reason and sends nothing; otherwise the request goes through `apiFetch` with no headers of its own; the fields are cleared iff the answer is OK; a 401 logs out and toasts "Unauthorized" |
| Session.LogoutThenReload | script.js:117-124 | after a logout the page-load check never sends a request and always lands signed out on the login screen |
| Notes.ShortTitle | script.js:888 | the stored title is the first `min(n, 25)` characters of the title followed by "...", whatever the title's length |
| Notes.Pushed | script.js:888 | the new record is first and the old records follow in order; the length is `min(n + 1, 20)`, so a full list loses its oldest record |
| Notes.PushedBounded | script.js:888 | a list of at most twenty stays within twenty; a full list becomes the new record plus its first nineteen records; a shorter one just gains the record |
| Notes.PushedBlankInputs | script.js:888 | records written by `saveToList` always have an empty original input, and pushing keeps that for the whole list |
| Notes.Stored | script.js:888 | `JSON.parse(localStorage.getItem(key)) \|\| []`: the list stored under the key, or the empty list when there is none |
| Notes.NoteContent | script.js:423-427 | the content is the raw reply or else the shown text; there is nothing to save iff that content is blank or contains "Ready for refinement" |
| Notes.NoteTitle | script.js:424 | a blank editor gives "Untitled Note"; otherwise the title is a prefix of the trimmed editor of length `min(n, 25)` |
| Notes.NoteStore.SaveToList | script.js:888 | only the list under `key` changes, and it becomes `Pushed` of the stored list (or of the empty list when none is stored) |
| Notes.NoteStore.SaveNote | script.js:421-437 | nothing to save: "Generate a note first!" and storage unchanged; otherwise the note is pushed onto "savedNotes" and "Note Saved" is toasted |
| Themes.DigitPrefix | script.js:366 | the longest prefix of digits of the radix: every character in it is such a digit, and the next character is not |
| Themes.ParseInt | script.js:366 | `parseInt` yields a number exactly when, after leading white space and one sign, there is a decimal digit, or a "0x" prefix followed by a hexadecimal digit; a negative result needs a leading minus, and a leading minus never gives a positive one |
| Themes.LoadedThemeIndex | script.js:366 | `parseInt(...) \|\| 0`: a missing key gives 0, and a non-zero index is exactly what `parseInt` read from the stored text; NaN and 0 both give 0 |
| Themes.Decimal | script.js:376 | the stored form of an index is a non-empty string of decimal digits without a leading zero |
| Themes.DecimalValue | script.js:376 | the digits of `Decimal(n)` denote `n` |
| Themes.ParseDecimal | script.js:366 | `parseInt` gives back `n` for the decimal string of `n`, for exact integers (see "## Left out" for doubles); the stored indices 0-4 are among them |
| Themes.ThemeIndexRoundTrip | script.js:366-376 | an index stored by `applyTheme` is read back unchanged by `parseInt(...) \|\| 0` on the next page load |
| Themes.FreshPageTheme | script.js:366 | with no stored index the page starts on the first theme, Nebula, the stylesheet default |
| Themes.Appearance.constructor | script.js:366 | page load reads the stored index through `parseInt(...) \|\| 0` |
| Themes.Appearance.ApplyTheme | script.js:368-377 | Nebula clears `data-theme` and every other theme sets it to its id; the tooltip is "Current: " plus the name; the index is stored and loads back as the same index; `currentThemeIndex` is untouched |
| Palette.ThemeActionsMatchThemes | script.js:816-828 | exactly the entries tagged "Theme" switch themes; each selects an existing theme and is titled "Theme: " plus that theme's name |
| Palette.HistoryEntries | script.js:839-842 | one palette entry per stored history record, in stored order, carrying that record's title, input and output |
| Palette.Filter | script.js:843-845 | `filter`: an entry is kept iff it is in the list and satisfies the predicate; the result is no longer than the list |
| Palette.FilterAppend | script.js:843-845 | filtering preserves the source order |
| Palette.FilterKeepsAll | script.js:843-845 | a predicate that holds for every entry keeps the list unchanged |
| Palette.FilterSame | script.js:843-845 | predicates that agree on the list give the same result |
| Palette.Commands | script.js:844 | an entry is a listed command iff it is an action that is not tagged "Theme" and whose title matches the query |
| Palette.ThemeCommands | script.js:845 | an entry is a listed theme iff it is an action tagged "Theme" whose title matches the query |
| Palette.HistoryCommands | script.js:846 | an entry is a listed history match iff it is the entry of a stored record whose title matches the query; there are at most as many as records |
| Palette.Groups | script.js:858-863 | the placeholder iff all three groups are empty; otherwise one to three sections, none of them empty |
| Palette.NothingMatches | script.js:844-858 | the three groups are all empty iff no action and no history record has a matching title |
| Palette.Render | script.js:837-863 | "No actions found" is shown iff no action and no history record has a title that matches the query |
| Palette.Selected | script.js:864 | an item is selected iff any item is shown, and it is the first one shown |
| Palette.FlattenAppend | script.js:858-863 | the items of consecutive groups are shown in order |
| Palette.FlattenSectionIf | script.js:847-856 | an omitted empty group shows no items, and a shown group shows exactly its items |
| Palette.GroupsShape | script.js:847-863 | the items shown are the commands, then the themes, then the history matches, with one heading per non-empty group in that fixed order |
| Palette.RenderShape | script.js:837-865 | `renderCommands` shows the matching non-theme actions, then the matching theme actions, then the matching history records, and shows the placeholder iff none matches |
| Palette.ShownIff | script.js:837-865 | an entry is shown iff it is an action or a history entry whose lower-cased title contains the lower-cased query |
| Palette.EmptyQueryShowsAll | script.js:798-808 | on opening, with an empty query, every action and every history record is listed |
| Palette.SelectedIsFirst | script.js:832-834 | the item Enter fires is the first matching command, else the first matching theme, else the first matching history record |
| Palette.ReplayClearsInput | script.js:839-842 | replaying a history record written by `saveToList` sets the editor to an empty string |
| Palette.Toggled | script.js:798-809 | a closed palette opens with an empty query and the full list; an open one closes and keeps its contents |
| Palette.AfterKey | script.js:810-813 | Ctrl/Cmd+K toggles the palette, Escape toggles it too, and any other key leaves it alone |
| Palette.EscapeOpens | script.js:810-813 | Escape on a closed palette opens it |
| Palette.ReopenResets | script.js:798-809 | closing and reopening discards the old query and shows the full list |
| Palette.CommandPalette.Toggle | script.js:798-809 | the new state is `Toggled` of the old one |
| Palette.CommandPalette.KeyDown | script.js:810-813 | the new state is `AfterKey` of the old one |
| Palette.CommandPalette.Input | script.js:831 | typing re-renders the list for the typed text, and the open/closed state is kept |
| Palette.CommandPalette.Click | script.js:854 | clicking a shown item fires its effect, then toggles the palette |
| Palette.CommandPalette.Enter | script.js:832-834 | Enter fires the selected item and toggles; with nothing shown nothing happens |
| Voices.FirstMatch | script.js:504 | the index found is that of a voice whose name contains one of the keywords, and no earlier voice's name does; none is found only when no voice matches |
| Voices.FindVoice | script.js:504 | `find`: a result is an installed voice whose name contains one of the keywords; there is no result iff no installed voice matches |
| Voices.AccentOptions | script.js:503-514 | no more entries than accents |
| Voices.AccentOptionsStep | script.js:503-514 | the `forEach` takes the accents one at a time: from any position, that accent's entry (none, or one with its first matching voice) comes before the entries of the accents after it |
| Voices.AccentOptionsCons | script.js:503-514 | the first accent's entry comes first, then those of the other accents |
| Voices.AccentOptionsAppend | script.js:503-514 | entries follow accent order: the entries for a concatenation of accent lists are the entries of the first list, then those of the second |
| Voices.AccentOptionsSingle | script.js:503-514 | one accent contributes exactly one entry with its first matching voice when some voice matches it, and none otherwise; with the previous row this fixes the accent part of the menu entirely |
| Voices.AccentOptionsSound | script.js:503-514 | each entry is built from one of the accents and an installed voice whose name carries one of that accent's keywords |
| Voices.AccentOptionsComplete | script.js:503-514 | every accent some voice matches gets its entry with its first matching voice, so no curated entry is added iff no voice matches any accent |
| Voices.EnglishVoices | script.js:517 | the voices kept are exactly the installed ones whose language tag contains "en" |
| Voices.EnglishVoicesAppend | script.js:517 | `filter` keeps the installed order and every copy: filtering a concatenation is the concatenation of the filtered parts |
| Voices.EnglishVoicesSingle | script.js:517 | a single voice is kept exactly when it is English; with the previous row this fixes the filtered list entirely |
| Voices.FallbackOptions | script.js:516-525 | `slice(0, 5)` of the English voices: `min(n, 5)` entries, the `i`-th being the plain entry of the `i`-th English voice in installed order; none exactly when no installed voice is English |
| Voices.VoiceMenu | script.js:503-525 | at most seven entries; the menu is empty exactly when no installed voice matches any accent and none is English |
| Voices.FallbackSound | script.js:516-525 | the fallback menu has at most five entries, each an installed English voice under its own name cut to 25 characters |
| Voices.VoiceMenuSound | script.js:487-526 | the menu is the curated accents (at most seven) when any matches, else the English fallback (at most five) |
| Voices.AddAccents | script.js:502-514 | the accent loop builds exactly `AccentOptions` |
| Voices.AddFallback | script.js:516-525 | the fallback loop builds exactly `FallbackOptions` |
| Voices.PopulateVoices | script.js:487-526 | the menu built is exactly `VoiceMenu` of the installed voices |
| Voices.NextSpeed | script.js:572 | the next speed index is always valid; it advances by one and wraps from the last speed to the first |
| Voices.SpeedCycle | script.js:572 | three clicks return to the same speed, passing through all three speeds |
| Voices.SpeedButton.Click | script.js:572 | a click moves to the next speed and labels the button with it |

## Left out

- DOM rendering, CSS classes, focus, `setTimeout` delays and toasts that
  disappear are left out. A toast is modelled as the last message shown, and
  the palette's open/closed animation as a single flag.
- Requests are answered at once by a given reply. Concurrent requests,
  double clicks while a request is pending, and the order in which replies
  arrive are not modelled.
- Response bodies that are not valid JSON, and a `detail` that is not a
  string, are left out. A missing `detail` is written as the empty string,
  which the page treats the same way. A successful login reply without
  `access_token` (the page would store the text "undefined") is left out.
- Session.Guard: the login form's error text stays in the page while it is
  hidden; the model records a hidden error line as `None`.
- Themes.Appearance.ApplyTheme requires an index below five. The page calls
  `applyTheme(currentThemeIndex)` on load with whatever `parseInt` read. A
  stored index of five or more, or a negative one, makes `themes[index]`
  undefined and the handler throws. That failure path is not modelled.
- The theme menu's click handler, which parses `data-idx` and toasts the
  theme's name, is not modelled beyond `ApplyTheme`.
- Text.ToLower maps only the ASCII letters A-Z. JavaScript's `toLowerCase`
  uses full Unicode case mapping, so palette matches on non-ASCII titles may
  differ.
- Notes.ShortTitle, Notes.NoteTitle: `substring(0, 25)` counts UTF-16 code
  units, while the model counts characters. A title with characters outside
  the Basic Multilingual Plane (an emoji, say) is cut at a different place,
  and the page may even split a surrogate pair.
- Themes.ParseDecimal, Themes.ParseInt, Themes.Decimal: numbers here are
  exact integers. In JavaScript they are doubles: `parseInt` is exact only
  below 2^53, and `String(n)` switches to exponent notation from 10^21. The
  page only ever stores the indices 0-4, where the two agree.
- NoteStore.SaveNote takes the raw reply as a parameter, so the model cannot
  show that `forceLogout` resets the output pane but never clears
  `currentRawResponse`: after a session expires, the save button can still
  store the previous session's reply.
- Voices.FallbackSound, Voices.PlainOption, Voices.FallbackOptions,
  Voices.AddFallback, Voices.PopulateVoices: the cut of the voice name,
  `substring(0, 25)`, counts UTF-16 code units, while the model counts
  characters. The two differ for names outside the Basic
  Multilingual Plane.
- Speech playback is not modelled, nor is the rate it uses (the speed times the
  accent's rate factor). Also left out: the microphone, brown noise, PDF export
  and the live code runner (`enableLiveCode`, `executeCode`, snapshots).
- The refinement handler, the settings modal, the history and saved-list
  sidebars, `loadList` and "Clear Data" are not modelled. Their effects
  appear in the palette only as named effects.
- The Visualize handler reads `data.response`, while the `/generate` endpoint
  answers with `generated_text`. The model covers only the extraction once a
  reply text is at hand.
- On the server, tokenising, model loading, sampling and the HTTP layer are
  left out. Only the prompt strip is modelled.
- The training and data-preparation scripts, the tokenizer tests and the
  authentication server under `app/` are not part of this model.
- Not a gap but a quirk kept as written: `saveToList` always writes the
  record's `o` field as "", so history entries replay an empty editor. The model keeps this
  behaviour and states it as `Notes.PushedBlankInputs` and
  `Palette.ReplayClearsInput`.
- Palette: the concrete palette listings for particular queries are not
  stated. The general shape (`Palette.RenderShape`, `Palette.ShownIff`) is
  proved instead.
