# Copilot selectors and MCP skill tools

This project models the core of a small toolkit for installing AnswerRocket
copilots and serving their skills as MCP (Model Context Protocol) tools.

- **The terminal copilot selectors.**
  - `CopilotSelector` is the full terminal interface. It offers live search,
    multi-token AND filtering, duplicate-name markers, scrolling and paging,
    and select/deselect/toggle of every shown row.
  - `RobustCopilotSelector` is the variant with a simpler keymap. When its
    interface fails, it falls back to a line prompt.
  - Each selector is a Dafny `class` whose methods update the same fields
    the Python object updates:
    - `selected`, a set of positions;
    - `current_index`, the cursor;
    - `search_term`;
    - `filtered_indices`;
    - `view_offset`.
  - Every method keeps the invariant `Valid()`. It says that the filter is
    up to date with the search term, that the cursor is on a shown row, and
    that the selection holds only real positions.
  - Keystrokes arrive as a sequence of decoded keys. The terminal height is
    a parameter.
- **The line parsers.**
  - `get_selection` of the simple selector keeps valid numbers and skips
    the rest.
  - `fallback_selection` of the robust selector treats the answer as
    all-or-nothing: one bad token selects everything.
  - `main` of the simple selector checks the list and maps 1-based numbers
    to records.
- **MCP skill-parameter handling.**
  - `SkillParameter.from_max_parameter`, `SkillConfig.tool_name` and
    `SkillConfig.tool_description`.
  - `extract_skill_parameters` and `validate_skill_arguments`.
  - The JSON Schema that `_build_tool_annotations` declares, and how it
    agrees with validation.
- **The stand-alone server script.**
  - The safe tool name.
  - The parameter dictionaries read from a skill and turned into tool
    parameters.
  - The keyword-argument filter.

Modules, one per source file, plus shared pieces:

| module | models |
|---|---|
| `Wrappers` | `Option`, `Result` |
| `JsonValue` | JSON values and `dict.get` |
| `PyText` | the string built-ins used (ASCII `lower`, `split`, `strip`, `join`, `int`, `str`, `replace`, substring test) |
| `Copilots` | the copilot record and the pure rules both selectors share |
| `Navigation` | keys, cursor movement, scrolling, search-entry editing |
| `Session` | the selector state as a value, and what each key and each search entry does to it, shared by both selectors |
| `CopilotTui` | select_copilots.py |
| `RobustTui` | select_copilots_interactive.py |
| `SimpleSelect` | select_copilots_simple.py |
| `McpModels` | src/answerrocket_mcp/models.py |
| `McpUtils` | src/answerrocket_mcp/utils.py |
| `McpServer` | src/answerrocket_mcp/server.py |
| `RootServer` | server.py |

## Model

| member | source | states |
|---|---|---|
| `Copilots.SearchText` | select_copilots.py:30-36 | a copilot's search text starts with its lowercased name, contains its lowercased name, description, id and every skill name, and has no upper-case letter |
| `Copilots.WordsInFieldsShow` | select_copilots.py:30-36 | a term each of whose words occurs in the lowercased name, description, id or a skill name of a copilot shows that copilot |
| `Copilots.TextWordInField` | select_copilots.py:30-36 | a word without blanks found in a copilot's search text occurs in one of its fields |
| `Copilots.ShownWordsInFields` | select_copilots.py:30-36 | the converse of `WordsInFieldsShow`: every word of the term of a shown copilot occurs in its lowercased name, description, id or a skill name |
| `Copilots.SearchIndex` | select_copilots.py:28-37 | one search text per copilot, the i-th built from the i-th copilot |
| `Copilots.BuildSearchIndex` | select_copilots.py:28-37 | the constructor's loop produces exactly `SearchIndex(copilots)` |
| `Copilots.Filtered` | select_copilots.py:75-90 | the filter as a function of the texts and the term: all positions for an empty term, otherwise the positions whose text holds every token; its meaning is stated by `FilteredSpec` |
| `Copilots.MatchingPositions` | select_copilots.py:87-90 | the filter loop appends, in order, exactly the positions whose text holds every token |
| `Copilots.FilteredSpec` | select_copilots.py:75-90 | a position is shown iff it is a real position whose text contains every whitespace-separated token of the lowercased term; an empty term shows all; shown positions are strictly increasing |
| `Copilots.BlankTermShowsAll` | select_copilots.py:77-90 | a term of blanks only has no tokens and shows every copilot, like the empty term |
| `Copilots.StrictlyIncreasingSameElements` | select_copilots.py:87-90 | two strictly increasing position lists with the same elements are equal, so the filter's output is determined by its element set |
| `Copilots.Flip` | select_copilots.py:231-238 | toggling one position changes its membership and no other |
| `Copilots.FlipTwice` | select_copilots.py:231-238 | toggling the same position twice restores the selection |
| `Copilots.ToggledAll` | select_copilots.py:316-321 | `t` changes the membership of exactly the shown positions |
| `Copilots.ToggledAllTwice` | select_copilots.py:316-321 | pressing `t` twice restores the selection |
| `Copilots.SelectThenDeselectShown` | select_copilots.py:310-315 | `a` then `n` leaves no shown row selected and every other row as it was |
| `Copilots.ChosenSpec` | select_copilots.py:331 | the confirmed result is the copilots at the selected positions, each once, in ascending position order |
| `Copilots.Chosen` | select_copilots.py:331 | the confirmed result as a function of the selection: the copilots at the selected positions in ascending order; stated by `ChosenSpec` |
| `Copilots.GroupByName` | select_copilots.py:40-42 | the grouping loop builds, for every name that occurs, the list of its positions in order |
| `Copilots.NameGroups` | select_copilots.py:40-42 | the name groups as a map from each occurring name to its positions in order; stated by `GroupByName` and `DuplicateMarkerSpec` |
| `Copilots.DuplicateMarkerSpec` | select_copilots.py:51-54 | a copilot's group has more than one member iff another copilot has the same name (missing names count as "Unknown") |
| `Copilots.Truncated` | select_copilots.py:56-59 | a text longer than the limit becomes its first limit-3 characters plus "...", of exactly the limit's length; a shorter text is unchanged |
| `Copilots.TruncatedIdempotent` | select_copilots.py:56-59 | truncating twice is truncating once |
| `Copilots.ShortId` | select_copilots.py:63 | the short id is a prefix of the id without '-': up to the first '-' when there is one, otherwise its first 8 characters |
| `Copilots.SkillText` | select_copilots.py:62 | the count followed by "skill", plural exactly when the count is not 1 |
| `Copilots.DisplayInfo` | select_copilots.py:44-66 | the display line starts with the name (or "Unknown"); the duplicate marker follows the name iff the copilot's name is shared; the skill count sits between two bullets; the line ends with a bullet, the description truncated to 35 characters, and " • ID: " with the short id |
| `Navigation.ClampedCursor` | select_copilots.py:92-94 | a cursor inside the new list stays; one at or past its end moves to its last row, or to 0 when the list is empty; a non-negative cursor ends on a shown row |
| `Navigation.CursorUp` | select_copilots.py:296-298 | one row up, never above row 0 |
| `Navigation.CursorDown` | select_copilots.py:299-301 | one row down, never past the last row |
| `Navigation.PageUpCursor` | select_copilots.py:302-303 | ten rows up when the cursor is at 10 or more, otherwise row 0 |
| `Navigation.PageDownAsWritten` | select_copilots.py:304-305 | `min(len - 1, cursor + 10)` as written |
| `Navigation.PageDownAsWrittenLeavesRange` | select_copilots.py:304-305 | on an empty filter the written PGDN puts the cursor at -1, and the filter's clamp does not repair it once rows are shown again |
| `Navigation.PageDownCursor` | select_copilots.py:304-305 | corrected PGDN: a valid cursor stays valid, and on a non-empty list it agrees with the written code |
| `Navigation.MovesKeepCursorOk` | select_copilots.py:296-305 | every movement key keeps a valid cursor valid |
| `Navigation.ScrolledOffset` | select_copilots.py:144-148 | after the adjustment the cursor row lies inside the window; a window that already shows it is kept |
| `Navigation.ScrollIsMinimal` | select_copilots.py:144-148 | the adjustment moves the window no further than any other window that shows the cursor |
| `Navigation.KeyAction` | select_copilots.py:308-328 | `/` opens search entry, Enter confirms, q or Ctrl-C cancels; every other key is handled in place |
| `Navigation.EditedTerm` | select_copilots.py:264-276 | ESC clears the term, Backspace drops its last character, a printable character (32..126) is appended, anything else leaves it |
| `Navigation.EditedTermPrintable` | select_copilots.py:274-275 | search entry only builds terms of printable characters |
| `Navigation.TypeThenBackspace` | select_copilots.py:270-276 | typing a printable character and then Backspace restores the term |
| `Session.UnboundKeysInert` | select_copilots.py:296-324 | a key the main loop does not bind leaves the whole state unchanged, in both keymaps |
| `Session.KeyStepsKeepStateOk` | select_copilots.py:296-324 | every key of either main loop keeps the invariant: the filter matches the term, the cursor is on a shown row, the selection holds only copilots |
| `Session.SelectionStepsKeepStateOk` | select_copilots.py:231-238 | Space, select-all, deselect-all and toggle-all keep the invariant |
| `Session.ShownAreCopilots` | select_copilots.py:87-90 | every shown row is the position of a copilot |
| `Session.ShownAscending` | select_copilots.py:87-90 | the rows are shown in increasing position order, each once |
| `Session.ClearedKeepsStateOk` | select_copilots.py:322-324 | clearing the search shows every copilot and leaves a valid cursor |
| `Session.RefilteredKeepsStateOk` | select_copilots.py:75-97 | re-filtering a state whose selection and cursor are in range makes it valid: the rows match the term and the cursor is on a shown row |
| `Session.KeysChangeOneField` | select_copilots.py:296-321 | movement keys change only the cursor, selection keys only the selection, in both keymaps |
| `Session.KeymapsCompared` | select_copilots_interactive.py:236-272 | the robust keymap agrees with the full one on arrows, k, j, Space, a and ESC; its d is the full n; its page keys clear the search; n and t do nothing there and d nothing in the full one |
| `Session.ToggleKeysTwice` | select_copilots.py:306-321 | Space twice, or t twice, restores the state |
| `Session.KeystrokeSpec` | select_copilots.py:264-276 | after one search key the term is `EditedTerm` of the old one, the selection is unchanged and the invariant is kept |
| `Session.SearchLength` | select_copilots.py:253-269 | search entry reads every key up to and including the first ESC or Enter, or all keys when there is none |
| `Session.LiveSearchedSpec` | select_copilots.py:240-280 | live search ends with the term typed over the keys it read, the selection unchanged, and the invariant kept |
| `Session.SearchEntriesAgree` | select_copilots_interactive.py:186-210 | on the same keys the two selectors' search entries end with the same term, rows, cursor and selection; only the scroll may differ |
| `Session.Handled` | select_copilots.py:296-324 | handling one main-loop key reads that key and, for '/', the keys of search entry after it, never past the end |
| `Session.Opening` | select_copilots_interactive.py:219-224 | the opening with more than 20 copilots reads at least the first key and never past the end |
| `Session.Started` | select_copilots.py:284-289 | the opening reads no more keys than there are |
| `Session.MainLoop` | select_copilots.py:291-331 | the main loop reads no more keys than it is given; it waits only after reading all of them, and it ends confirmed only on an Enter key and cancelled only on q or Ctrl-C, which is the last key read |
| `Session.RunSession` | select_copilots.py:282-331 | the same four facts for a whole session, opening included |
| `Session.MainLoopRound` | select_copilots.py:325-328 | Enter in the main loop ends it confirmed and q or Ctrl-C cancelled, after reading just that key, in the state the drawing left |
| `Session.MainLoopHandled` | select_copilots.py:292-324 | any other key: the loop reads what handling the key reads, then goes on from the state it left |
| `Session.RunSessionStarted` | select_copilots_interactive.py:219-228 | a session is the opening then the main loop on the keys left; the full selector alone, with over 20 copilots and no key, waits before its loop |
| `Session.SearchLengthAppend` | select_copilots.py:253-269 | keys after the end of search entry do not change how many keys it reads |
| `Session.LiveSearchedAppend` | select_copilots.py:240-280 | nor the state live search ends in |
| `Session.SearchInputReadAppend` | select_copilots_interactive.py:191-210 | nor the state search input ends in |
| `Session.MainLoopIgnoresRest` | select_copilots.py:291-331 | once the main loop has ended on Enter, q or Ctrl-C, keys after it change nothing: the result on the longer key sequence is the same |
| `Session.RunSessionIgnoresRest` | select_copilots.py:282-331 | the same for a whole session |
| `Session.EndsAtFirstTerminator` | select_copilots.py:291-331 | the session stops at the first Enter, q or Ctrl-C of its main loop: on any shorter prefix of the keys it reads, it is still waiting |
| `Session.TerminatorEndsLoop` | select_copilots.py:291-329 | after keys that the keymap handles, Enter ends the loop confirmed and q or Ctrl-C cancelled, with exactly those keys read and the state the keymap left |
| `Session.ScrolledKeepsStateOk` | select_copilots.py:139-148 | drawing moves only the window, and keeps the invariant |
| `Session.SearchInputReadKeepsStateOk` | select_copilots_interactive.py:191-210 | search input keeps the selection and the invariant |
| `Session.HandledKeepsStateOk` | select_copilots.py:292-324 | every handled key of the main loop keeps the invariant |
| `Session.MainLoopKeepsStateOk` | select_copilots.py:291-329 | the main loop ends in a state that keeps the invariant |
| `Session.SessionKeepsStateOk` | select_copilots.py:282-329 | so does a whole session: the selection returned on confirm holds only copilots, and the rows shown match the term |
| `CopilotTui.Returned` | select_copilots.py:327-331 | cancel returns [], confirm returns the chosen copilots |
| `CopilotTui.CopilotSelector.constructor` | select_copilots.py:18-42 | starts with nothing selected, cursor and offset 0, empty term, every copilot shown, search index and name groups built |
| `CopilotTui.CopilotSelector.HasDuplicateName` | select_copilots.py:51-54 | the duplicate marker is shown iff another copilot has the same name |
| `CopilotTui.CopilotSelector.DisplayInfoAt` | select_copilots.py:44-66 | the same line as `DisplayInfo` for the copilot at that position: name first, marker iff `HasDuplicateName`, skill count between bullets, truncated description and short id at the end |
| `CopilotTui.CopilotSelector.FilterCopilots` | select_copilots.py:75-97 | the shown rows become `Filtered(texts, term)`, the cursor is clamped onto the new list, the view scrolls to the top, and nothing else changes (`Refiltered`) |
| `CopilotTui.CopilotSelector.ToggleSelection` | select_copilots.py:231-238 | Space flips the cursor row's copilot and nothing else; nothing happens when no row is shown |
| `CopilotTui.CopilotSelector.SelectAllShown` | select_copilots.py:310-312 | `a` adds exactly the shown positions |
| `CopilotTui.CopilotSelector.DeselectAllShown` | select_copilots.py:313-315 | `n` removes exactly the shown positions |
| `CopilotTui.CopilotSelector.ToggleAllShown` | select_copilots.py:316-321 | `t` flips exactly the shown positions |
| `CopilotTui.CopilotSelector.MoveUp` | select_copilots.py:296-298 | UP or k moves the cursor by `CursorUp` |
| `CopilotTui.CopilotSelector.MoveDown` | select_copilots.py:299-301 | DOWN or j moves the cursor by `CursorDown` |
| `CopilotTui.CopilotSelector.MovePageUp` | select_copilots.py:302-303 | PGUP moves the cursor by `PageUpCursor` |
| `CopilotTui.CopilotSelector.MovePageDown` | select_copilots.py:304-305 | PGDN moves the cursor by the corrected `PageDownCursor`, keeping it on a shown row |
| `CopilotTui.CopilotSelector.AdjustViewOffset` | select_copilots.py:144-148 | the offset becomes `ScrolledOffset`, so the cursor row is inside the window |
| `CopilotTui.CopilotSelector.Display` | select_copilots.py:139-148 | the window is the terminal height less 8 header and 3 footer lines, scrolled to show the cursor |
| `CopilotTui.CopilotSelector.SearchKeystroke` | select_copilots.py:262-276 | one search key takes the state to `Keystroke`: the term is edited by `EditedTerm`, the list re-filtered exactly when the term changes or ESC is pressed, the selection kept; it ends the mode iff the key is ESC or Enter |
| `CopilotTui.CopilotSelector.LiveSearch` | select_copilots.py:240-280 | search entry reads the keys up to and including the first ESC or Enter (`SearchLength`), and its final state is `LiveSearched` of the keys read, so the term is the one typed and the selection is kept |
| `CopilotTui.CopilotSelector.SearchRound` | select_copilots.py:253-276 | one round of search entry: the list is drawn (scrolling the cursor into view), then the key read takes the state to `Keystroke`; the mode ends iff the key is ESC or Enter |
| `CopilotTui.CopilotSelector.HandleKey` | select_copilots.py:296-324 | each key of the main loop takes the state to `FullKeyStep`: UP/k, DOWN/j, PGUP, PGDN move the cursor, Space, a, n, t change the selection, ESC clears the search, any other key changes nothing |
| `CopilotTui.CopilotSelector.StartUp` | select_copilots.py:284-289 | the state and keys read are those of `Started`: over 20 copilots the first key is read and dropped and search entry consumes the keys up to the first ESC or Enter, ending in `LiveSearched` of them; with 20 or fewer copilots no key is read and nothing changes |
| `CopilotTui.CopilotSelector.HandleAt` | select_copilots.py:296-324 | a main-loop key other than Enter, q and Ctrl-C takes the state, and the count of keys read, to `Handled`: '/' runs search entry on the keys after it, any other key goes to `FullKeyStep` |
| `CopilotTui.CopilotSelector.Round` | select_copilots.py:292-329 | one pass of the loop: draw, then read a key; it ends the session on Enter, q or Ctrl-C, or waits when no key is left, and otherwise what is left of the session is `MainLoop` from the new state on the remaining keys |
| `CopilotTui.CopilotSelector.KeyLoop` | select_copilots.py:291-331 | the loop reads exactly the keys `MainLoop` reads, ends in its final state, and returns confirmed with the chosen copilots iff it ended on Enter, cancelled iff on q or Ctrl-C, waiting otherwise |
| `CopilotTui.CopilotSelector.Run` | select_copilots.py:282-331 | the keys read, the final state and the outcome are exactly those of `RunSession`: over 20 copilots one key is dropped and search entry opens, then the main loop; confirm returns the sorted selection of the final state, and happens only on Enter, cancel only on q or Ctrl-C, waiting only when every key was read |
| `CopilotTui.OutcomeOf` | select_copilots.py:325-331 | the outcome is confirmed iff the loop ended on Enter, carrying the chosen copilots, and cancelled iff it ended on q or Ctrl-C |
| `RobustTui.RobustCopilotSelector.constructor` | select_copilots_interactive.py:19-43 | same initial state as the full selector |
| `RobustTui.RobustCopilotSelector.DisplayInfoAt` | select_copilots_interactive.py:60-81 | the display line starts with the name, carries the marker iff another copilot shares the name, holds the skill count between bullets, and ends with the truncated description and the short id |
| `RobustTui.RobustCopilotSelector.FilterCopilots` | select_copilots_interactive.py:83-103 | the same filter, clamp and scroll reset as the full selector (`Refiltered`), nothing else changed |
| `RobustTui.RobustCopilotSelector.ToggleCurrent` | select_copilots_interactive.py:258-264 | Space flips the cursor row's copilot and nothing else |
| `RobustTui.RobustCopilotSelector.SelectAllShown` | select_copilots_interactive.py:267-269 | `a` adds exactly the shown positions |
| `RobustTui.RobustCopilotSelector.DeselectAllShown` | select_copilots_interactive.py:270-272 | `d` removes exactly the shown positions |
| `RobustTui.RobustCopilotSelector.MoveUp` | select_copilots_interactive.py:241-243 | the up arrow or k moves the cursor by `CursorUp` |
| `RobustTui.RobustCopilotSelector.MoveDown` | select_copilots_interactive.py:244-246 | the down arrow or j moves the cursor by `CursorDown` |
| `RobustTui.RobustCopilotSelector.ClearSearch` | select_copilots_interactive.py:247-249 | any other escape sequence clears the term, shows every copilot, clamps the cursor and scrolls to the top (`Cleared`); the selection is kept |
| `RobustTui.RobustCopilotSelector.Display` | select_copilots_interactive.py:129-138 | the window is the terminal height less 8 header and 2 footer lines, scrolled to show the cursor |
| `RobustTui.RobustCopilotSelector.SearchKeystroke` | select_copilots_interactive.py:192-210 | one search key takes the state to `RobustKeystroke`: the edit and re-filter of `Keystroke`, followed by a redraw that scrolls the cursor into view after Backspace or a printable character |
| `RobustTui.RobustCopilotSelector.HandleSearchInput` | select_copilots_interactive.py:186-210 | draws once, then reads the keys up to and including the first ESC or Enter (`SearchLength`); the final state is `SearchInputRead` of the keys read |
| `RobustTui.RobustCopilotSelector.ReadSearchKeys` | select_copilots_interactive.py:191-210 | the key loop of search input reads up to the first ESC or Enter and ends in `SearchInputRead` of those keys |
| `RobustTui.RobustCopilotSelector.HandleKey` | select_copilots_interactive.py:236-272 | each key of the main loop takes the state to `RobustKeyStep`: arrows, k, j move the cursor; other escapes clear the search; Space, a, d change the selection; any other key changes nothing |
| `RobustTui.RobustCopilotSelector.StartUp` | select_copilots_interactive.py:219-224 | the state and keys read are those of `Started`: over 20 copilots the first key is read, and only '/' opens search input, which consumes the keys up to the first ESC or Enter; with 20 or fewer copilots no key is read and nothing changes |
| `RobustTui.RobustCopilotSelector.HandleAt` | select_copilots_interactive.py:231-272 | a main-loop key other than Enter, q and Ctrl-C takes the state, and the count of keys read, to `Handled`: '/' runs search input on the keys after it, any other key goes to `RobustKeyStep` |
| `RobustTui.RobustCopilotSelector.Round` | select_copilots_interactive.py:227-276 | one pass of the loop: draw, then read a key; it ends the session on Enter, q or Ctrl-C, or waits when no key is left, and otherwise what is left of the session is `MainLoop` from the new state on the remaining keys |
| `RobustTui.RobustCopilotSelector.KeyLoop` | select_copilots_interactive.py:226-279 | the loop reads exactly the keys `MainLoop` reads, ends in its final state, and returns confirmed with the chosen copilots iff it ended on Enter, cancelled iff on q or Ctrl-C, waiting otherwise |
| `RobustTui.RobustCopilotSelector.Run` | select_copilots_interactive.py:212-279 | the keys read, the final state and the outcome are exactly those of `RunSession`: over 20 copilots the first key is read and only '/' opens search, then the main loop; confirm returns the sorted selection of the final state, and happens only on Enter, cancel only on q or Ctrl-C, waiting only when every key was read |
| `RobustTui.OutcomeOf` | select_copilots_interactive.py:273-279 | the outcome is confirmed iff the loop ended on Enter, carrying the chosen copilots, and cancelled iff it ended on q or Ctrl-C |
| `RobustTui.AllValuesSpec` | select_copilots_interactive.py:313 | the list comprehension raises iff one token fails to parse, and otherwise holds every parsed value in order |
| `RobustTui.ZeroBasedIndicesSpec` | select_copilots_interactive.py:313 | the indices are None iff some token is not an integer, otherwise each is its token's number less one |
| `RobustTui.PicksInRangeSpec` | select_copilots_interactive.py:314 | every pick is a copilot of the list; when all indices are in range the picks are exactly the indexed copilots |
| `RobustTui.PicksInRangeAppend` | select_copilots_interactive.py:314 | picks keep the order typed and repeats |
| `RobustTui.FallbackSelection` | select_copilots_interactive.py:306-317 | the fallback only ever returns copilots of the list; its cases are stated by the `Fallback…` lemmas below |
| `RobustTui.FallbackAll` | select_copilots_interactive.py:307-310 | "all", in any case and with surrounding blanks, selects every copilot |
| `RobustTui.FallbackInvalidSelectsAll` | select_copilots_interactive.py:312-317 | one token that is not an integer selects every copilot |
| `RobustTui.FallbackPicksTypedNumbers` | select_copilots_interactive.py:307-314 | typing numbers separated by commas picks the copilots they number, in order, dropping out-of-range ones |
| `RobustTui.FallbackInRangeNumbers` | select_copilots_interactive.py:307-314 | when every typed number names a copilot, the result is exactly those copilots, in order and with repeats |
| `SimpleSelect.ListingDescription` | select_copilots_simple.py:16-23 | the listed description is at most 40 characters: unchanged when short, its first 37 characters plus "..." otherwise |
| `SimpleSelect.Pick` | select_copilots_simple.py:52-57 | a token contributes its number exactly when it parses to an integer within 1..max, and nothing otherwise |
| `SimpleSelect.OneTo` | select_copilots_simple.py:46-47 | `range(1, max + 1)` |
| `SimpleSelect.Selection` | select_copilots_simple.py:40-59 | `get_selection` as a function of the answer line: "all" gives 1..max, otherwise the valid numbers of the comma-separated tokens; stated by the lemmas below |
| `SimpleSelect.ValidNumbers` | select_copilots_simple.py:50-59 | the numbers kept from the tokens' parses, one `Pick` per token in order; stated by `ValidNumbersInRange`, `ValidNumbersAppend`, `SkippedToken` and `KeptNumbers` |
| `SimpleSelect.GetSelection` | select_copilots_simple.py:40-59 | the selection is `Selection(line, max)` |
| `SimpleSelect.KeepValidNumbers` | select_copilots_simple.py:50-59 | the parsing loop keeps exactly `ValidNumbers` of the tokens' parses |
| `SimpleSelect.ValidNumbersInRange` | select_copilots_simple.py:50-59 | every kept number is within 1..max |
| `SimpleSelect.SelectionInRange` | select_copilots_simple.py:46-59 | every selected number, "all" included, is within 1..max |
| `SimpleSelect.SelectionAll` | select_copilots_simple.py:46-47 | "all" in any case selects 1..max |
| `SimpleSelect.ValidNumbersAppend` | select_copilots_simple.py:50-59 | tokens are handled independently and in order |
| `SimpleSelect.SkippedToken` | select_copilots_simple.py:52-57 | a token whose parse fails or lies outside 1..max is skipped without affecting the numbers kept from the others |
| `SimpleSelect.SelectionOfTypedNumbers` | select_copilots_simple.py:46-59 | typing in-range numbers separated by commas selects exactly those numbers, in order, with repeats |
| `SimpleSelect.KeptNumbers` | select_copilots_simple.py:50-59 | tokens that parse as in-range numbers are all kept, in order |
| `SimpleSelect.Mapped` | select_copilots_simple.py:99 | the k-th result is the record numbered by the k-th number |
| `SimpleSelect.SelectCopilots` | select_copilots_simple.py:80-99 | a non-list and an empty list exit with their errors, an empty selection exits with "No copilots selected", otherwise the printed list holds the records the selected numbers name, in order |
| `PyText.JoinedWordInPart` | select_copilots.py:30-36 | a non-empty string without a blank found in parts joined by single blanks is found in one of the parts |
| `PyText.TokenValues` | select_copilots_simple.py:51-53 | one parse per token, the k-th being `int(token.strip())` of the k-th token |
| `PyText.ParseIntToString` | select_copilots_simple.py:53 | `int` reads back every number `str` prints |
| `PyText.NumbersLineSplits` | select_copilots_simple.py:46-53 | an answer of comma-separated numbers is already stripped, is not "all", and splits into one integer token per number |
| `McpModels.Or` | src/answerrocket_mcp/models.py:32 | `a or b`: `a` when it is a non-empty string, else `b` |
| `McpModels.FromMaxParameter` | src/answerrocket_mcp/models.py:19-36 | None iff the name or the value is missing or empty; otherwise the same name, `List[str]` iff multi, the LLM description before the plain one, required iff the value is not "[optional]" in any case, constraints only when non-empty |
| `McpModels.RequiredIgnoresCase` | src/answerrocket_mcp/models.py:33 | whether a parameter is required depends on its value only up to letter case |
| `McpModels.ToolName` | src/answerrocket_mcp/models.py:46-49 | same length as the skill name, each space or hyphen replaced by '_', every other character kept |
| `McpModels.ToolNameIdempotent` | src/answerrocket_mcp/models.py:46-49 | naming a tool twice changes nothing |
| `McpModels.ToolDescription` | src/answerrocket_mcp/models.py:51-54 | the detailed description when it is non-empty, otherwise the short one |
| `McpUtils.ExtractSkillParameters` | src/answerrocket_mcp/utils.py:43-55 | no parameters for a skill without any, otherwise `Converted(parameters)` |
| `McpUtils.Converted` | src/answerrocket_mcp/utils.py:50-53 | the converted parameters, in order, dropping those `from_max_parameter` rejects; stated by `ConvertedAppend` and `ConvertedSpec` |
| `McpUtils.ConvertedAppend` | src/answerrocket_mcp/utils.py:50-53 | conversion works parameter by parameter, in order |
| `McpUtils.ConvertedSpec` | src/answerrocket_mcp/utils.py:50-53 | each converted parameter comes from one input; when all inputs convert, none is lost |
| `McpUtils.Disallowed` | src/answerrocket_mcp/utils.py:95 | the invalid values are exactly the supplied values not among the allowed strings |
| `McpUtils.AsList` | src/answerrocket_mcp/utils.py:93-94 | a list is kept, a scalar is wrapped in a one-element list |
| `McpUtils.ProcessValue` | src/answerrocket_mcp/utils.py:87-112 | a multi-valued argument always becomes a list; a constrained one fails iff some value is not allowed; an unconstrained single value passes unchanged |
| `McpUtils.Step` | src/answerrocket_mcp/utils.py:86-114 | one parameter's step raises iff its value is rejected or it is required and missing |
| `McpUtils.Validated` | src/answerrocket_mcp/utils.py:86-116 | validation as a function: parameters processed in order, the first failure reported; stated by the `Validated…` lemmas |
| `McpUtils.ValidateSkillArguments` | src/answerrocket_mcp/utils.py:82-116 | the loop with its early raises returns or raises exactly `Validated(parameters, args)` |
| `McpUtils.ValidatedStopsAtFailure` | src/answerrocket_mcp/utils.py:97-114 | the first error raised is the one reported |
| `McpUtils.ValidatedFailsIff` | src/answerrocket_mcp/utils.py:86-116 | validation fails iff some parameter is required and missing, or has a rejected value |
| `McpUtils.ValidatedKeys` | src/answerrocket_mcp/utils.py:86-116 | on success the keys are exactly the supplied parameter names; other arguments are dropped |
| `McpUtils.ValidatedLastWins` | src/answerrocket_mcp/utils.py:112 | a name holds the processed value of its last parameter |
| `McpUtils.ValidatedShapes` | src/answerrocket_mcp/utils.py:108-112 | a supplied multi-valued argument is always a list; an unconstrained single one is unchanged |
| `McpUtils.MissingRequiredFails` | src/answerrocket_mcp/utils.py:113-114 | a missing required parameter makes the call fail |
| `McpServer.PropertySchema` | src/answerrocket_mcp/server.py:118-134 | type string, or array with string items iff multi; description iff non-empty; enum on the items of an array or on the property itself, iff there are constraints |
| `McpServer.InputSchema` | src/answerrocket_mcp/server.py:141-146 | an object schema with exactly type, properties and required |
| `McpServer.BuildToolAnnotations` | src/answerrocket_mcp/server.py:112-147 | the loop builds exactly `InputSchema(parameters)` |
| `McpServer.Properties` | src/answerrocket_mcp/server.py:136 | the properties map, one schema per parameter name; stated by `PropertiesKeys` and `PropertiesLastWins` |
| `McpServer.PropertiesKeys` | src/answerrocket_mcp/server.py:136 | there is one property per parameter name and no other |
| `McpServer.PropertiesLastWins` | src/answerrocket_mcp/server.py:136 | a name's schema is that of its last parameter |
| `McpServer.RequiredNamesAppend` | src/answerrocket_mcp/server.py:138-139 | required names are collected parameter by parameter, in order |
| `McpServer.RequiredNames` | src/answerrocket_mcp/server.py:138-139 | the names of the required parameters in order; stated by `RequiredNamesAppend` and `RequiredNamesSpec` |
| `McpServer.RequiredNamesSpec` | src/answerrocket_mcp/server.py:138-139 | a name is listed as required iff some parameter with that name is required |
| `McpServer.ValidatedArgumentsMatchSchema` | src/answerrocket_mcp/server.py:136-139 | arguments that pass validation are declared properties, and every required name was supplied |
| `RootServer.SafeChar` | server.py:216 | letters, digits and '_' are kept, anything else becomes '_' |
| `RootServer.SafeChars` | server.py:216 | the name is mapped character by character |
| `RootServer.Sanitised` | server.py:216-217 | only lowercase letters, digits and '_' remain, with no '_' at either end |
| `RootServer.SanitisedSpec` | server.py:216-217 | the sanitised name is a slice of the lowercased, character-mapped name with only '_' before and after it, so leading and trailing '_' are the only characters stripped |
| `RootServer.SanitisedKeepsAlnum` | server.py:216-219 | a skill name with a letter or a digit never sanitises to the empty name, so the fallback is taken only for names without them |
| `RootServer.SafeToolNameAsWritten` | server.py:215-221 | the sanitised name, or "skill_" and the raw skill id when nothing is left |
| `RootServer.SafeToolNameAsWrittenKeepsHyphens` | server.py:219-221 | a name without letters or digits and a UUID-style id give a tool name with a hyphen |
| `RootServer.FallbackToolName` | server.py:220-221 | corrected fallback: "skill_" followed by the id, 6 characters longer than the id, with only lowercase letters, digits and '_' |
| `RootServer.SafeToolName` | server.py:215-221 | corrected: never empty, only lowercase letters, digits and '_', the sanitised name when there is one, else "skill_" and the sanitised id |
| `RootServer.SafeToolNameAgrees` | server.py:215-221 | the corrected name equals the written one except when the fallback id has unsafe characters |
| `RootServer.SafeNameIsFixedPoint` | server.py:215-221 | a name that is already safe is its own tool name |
| `RootServer.ToolParameterOf` | server.py:96-116 | a dict supplies description, type and required (defaults "", "string", False); a string is the description; only "array" stays an array |
| `RootServer.MapParameters` | server.py:95-116 | one tool parameter per skill parameter, each `ToolParameterOf` its info |
| `RootServer.FilterKwargs` | server.py:130-134 | only the declared arguments, unchanged, or all of them when none are declared |
| `RootServer.FilterKwargsIdempotent` | server.py:130-134 | filtering twice is filtering once |
| `RootServer.StrAttr` | server.py:65-72 | `str(getattr(...))`: the default when missing, "None" for None, the value otherwise |
| `RootServer.BoolAttr` | server.py:67-73 | `bool(getattr(...))` is true iff the attribute holds True |
| `RootServer.ParamConfig` | server.py:67-74 | the stored dict has exactly type, description and required, with type "array" iff multi |
| `RootServer.ExtractListParameters` | server.py:61-75 | the loop builds exactly `ListParameters(params)` |
| `RootServer.ListParameters` | server.py:61-75 | the parameter dictionary as a function of the parameter objects; stated by `ListParametersKeys` and `ListParameterBecomesTool` |
| `RootServer.ListParametersKeys` | server.py:63-75 | the dictionary's names are those of the objects that have a `name` attribute |
| `RootServer.ListParameterBecomesTool` | server.py:61-116 | a listed parameter becomes a tool parameter that is an array iff multi, with its description, required iff it says so |

## Left out

- Terminal I/O is not modelled. This covers raw-mode reads, screen clearing and drawing, the ANSI highlight of search matches, and the truncation of a drawn line to the terminal width. Keys arrive as a sequence and the terminal height is a parameter.
- Escape-sequence decoding in `get_key` is not modelled; the model starts from a `Key` datatype that is already decoded. In search entry, an arrow or page key counts as its leading ESC. The bytes that follow it are not modelled.
- The robust selector's first key has a 3-second timeout, which is not modelled as time. When no key is left at that point, the model lets the opening go on to the main loop, as after the timeout. A bare ESC in its main loop blocks until two more bytes arrive; that is not modelled either.
- CopilotTui.CopilotSelector.Run: does not model the `search_mode_active` flag, because it only affects highlighting.
- CopilotTui.CopilotSelector.Run, RobustTui.RobustCopilotSelector.Run: exceptions are not modelled. This covers KeyboardInterrupt, terminal errors, and the robust selector's switch to `fallback_selection` on an exception.
- RobustTui.FallbackSelection: the listing of the first 20 copilots before the prompt is not modelled, because it is output only.
- Text handling is ASCII only. Unicode `lower`, `isalnum`, `isspace` and `int()` (Unicode digits, underscores between digits) are not modelled.
- Python dict insertion order is not modelled: dictionaries are maps.
- A copilot field present with the JSON value `null` is not modelled. Absent fields are `None` and take the source's defaults.
- Error messages of `validate_skill_arguments` are not modelled as text. `ArgError` carries the parameter name, the rejected values and the allowed values instead.
- `SkillParameter.type_hint` is not modelled as a Python type. It is an enum, `Str` or `ListOfStr`.
- The rest of both servers is not modelled: client creation, skill execution, copilot and skill loading (`build_skill_configs`), environment checks, tool registration, and the server's `try`/`except` around parameter extraction. These are network calls into the vendor SDK.
- JSON loading and reading command-line arguments in `main` are not modelled. The loaded value is the parameter `Input`.

## Findings

| source | as written | input that shows it | evidently intended | confidence | as-written member | corrected member |
|---|---|---|---|---|---|---|
| select_copilots.py:305 | PGDN sets the cursor to `min(len(filtered_indices) - 1, current_index + 10)`, which is -1 when no row is shown; the clamp in `filter_copilots` only catches a cursor past the end | press `/`, type a term that matches nothing, Enter, then PGDN (cursor -1), then ESC (all rows shown, cursor still -1): the display scrolls to offset -1 and draws the last copilot, marked as current, at the top, and Space toggles that last copilot through Python's index -1, while the cursor sits outside 0..len-1 until DOWN, PGUP or PGDN brings it back | the cursor stays on row 0 of an empty list, like the other movement keys | high (not executed) | `Navigation.PageDownAsWrittenLeavesRange` | `Navigation.PageDownCursor`, used by `CopilotTui.CopilotSelector.MovePageDown` |
| server.py:220-221 | when nothing is left of the sanitised skill name, the tool name is `"skill_" + skill_id` with the id unsanitised | skill name "🚀" with skill id "3f2a-77c1" gives "skill_3f2a-77c1", which has a hyphen | the name holds only letters, digits and '_', as the comment on line 215 says | medium (not executed) | `RootServer.SafeToolNameAsWrittenKeepsHyphens` | `RootServer.SafeToolName` |
