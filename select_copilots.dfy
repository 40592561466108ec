/** The full-featured terminal selector: `CopilotSelector`. Screen output and
    raw terminal reads are not modelled; keystrokes arrive as a sequence of
    decoded keys and the terminal height is a parameter. */
module CopilotTui {
  import opened PyText
  import opened Copilots
  import opened Navigation
  import opened Session

  /** How a session ends: Enter confirms the selection, q or Ctrl-C cancels,
      or the keys run out while the selector still waits for one. */
  datatype Outcome = Confirmed(items: seq<Copilot>) | Cancelled | AwaitingInput

  /** The list `run` returns: the confirmed copilots, or [] on cancel. */
  function Returned(o: Outcome): (r: seq<Copilot>)
    requires !o.AwaitingInput?
    ensures o.Cancelled? ==> r == []
    ensures o.Confirmed? ==> r == o.items
  {
    if o.Confirmed? then o.items else []
  }

  /** The outcome `run` reports for the way a session ended. */
  function OutcomeOf(exit: Exit, chosen: seq<Copilot>): (o: Outcome)
    ensures o.Confirmed? <==> exit == ByEnter
    ensures o.Cancelled? <==> exit == ByQuit
    ensures o.Confirmed? ==> o.items == chosen
  {
    match exit
    case ByEnter => Confirmed(chosen)
    case ByQuit => Cancelled
    case OutOfKeys => AwaitingInput
  }

  /** Rows of the screen above and below the list. */
  const HeaderLines := 8
  const FooterLines := 3

  class CopilotSelector {
    const copilots: seq<Copilot>
    const searchableTexts: seq<string>
    const nameGroups: map<string, seq<nat>>
    var selected: set<nat>
    var currentIndex: int
    var searchTerm: string
    var filteredIndices: seq<nat>
    var viewOffset: int

    /** The search index and the name groups were built from the input. */
    ghost predicate Indexed() {
      searchableTexts == SearchIndex(copilots) && nameGroups == NameGroups(copilots)
    }

    /** The fields the keys change, as one value. */
    ghost function State(): SelectorState
      reads this
    {
      SelectorState(selected, currentIndex, searchTerm, filteredIndices, viewOffset)
    }

    /** Everything but the filter: selected positions are real positions,
        cursor and offset are not negative. */
    ghost predicate Consistent()
      reads this
    {
      Indexed() && FieldsOk(|copilots|, State())
    }

    /** Besides, the filter is up to date with the search term and the
        cursor is on a shown row (row 0 when none is shown). */
    ghost predicate Valid()
      reads this
    {
      Indexed() && StateOk(searchableTexts, State())
    }

    constructor (copilots: seq<Copilot>)
      ensures Valid()
      ensures this.copilots == copilots
      ensures selected == {} && currentIndex == 0 && searchTerm == ""
      ensures filteredIndices == Range(|copilots|) && viewOffset == 0
    {
      this.copilots := copilots;
      var texts := BuildSearchIndex(copilots);
      searchableTexts := texts;
      var groups := GroupByName(copilots);
      nameGroups := groups;
      selected := {};
      currentIndex := 0;
      searchTerm := "";
      filteredIndices := Range(|copilots|);
      viewOffset := 0;
    }

    /** Whether the copilot at `idx` gets the duplicate marker. */
    function HasDuplicateName(idx: nat): (r: bool)
      requires nameGroups == NameGroups(copilots)
      requires idx < |copilots|
      ensures r <==> SharesName(copilots, idx)
    {
      DuplicateMarkerSpec(copilots, idx);
      |nameGroups[GroupKey(copilots[idx])]| > 1
    }

    /** `get_display_info` for the copilot at `idx`, without highlighting. */
    function DisplayInfoAt(idx: nat): (r: string)
      requires nameGroups == NameGroups(copilots)
      requires idx < |copilots|
      ensures copilots[idx].name.GetOr("Unknown") <= r
      ensures HasDuplicateName(idx) <==> DuplicateMarker <= r[|copilots[idx].name.GetOr("Unknown")|..]
      ensures Contains(r, Bullet + SkillText(|SkillsOf(copilots[idx])|) + Bullet)
      ensures EndsWith(r, Bullet + Truncated(copilots[idx].description.GetOr("No description"), 35)
                          + (Bullet + "ID: " + ShortId(copilots[idx].copilotId.GetOr("Unknown ID"))))
    {
      DisplayInfo(copilots[idx], HasDuplicateName(idx))
    }

    /** `filter_copilots`: recompute the shown rows from the search term,
        pull the cursor back onto the list, and scroll to the top. */
    method FilterCopilots()
      requires Consistent()
      modifies this`filteredIndices, this`currentIndex, this`viewOffset
      ensures Valid()
      ensures filteredIndices == Filtered(searchableTexts, searchTerm)
      ensures currentIndex == ClampedCursor(old(currentIndex), |filteredIndices|)
      ensures viewOffset == 0
      ensures State() == Refiltered(searchableTexts, old(State()))
    {
      ghost var s0 := State();
      if searchTerm == "" {
        filteredIndices := Range(|copilots|);
      } else {
        var searchLower := Lower(searchTerm);
        var searchTerms := Words(searchLower);
        filteredIndices := MatchingPositions(searchableTexts, searchTerms);
      }
      if currentIndex >= |filteredIndices| {
        currentIndex := if |filteredIndices| - 1 > 0 then |filteredIndices| - 1 else 0;
      }
      viewOffset := 0;
      assert State() == Refiltered(searchableTexts, s0);
      RefilteredKeepsStateOk(searchableTexts, s0);
    }

    /** `toggle_selection`: Space flips the cursor row's copilot and nothing
        else; with no rows shown it does nothing. */
    method ToggleSelection()
      requires Valid()
      modifies this`selected
      ensures Valid()
      ensures filteredIndices == [] ==> selected == old(selected)
      ensures filteredIndices != [] ==> selected == Flip(old(selected), filteredIndices[currentIndex])
    {
      if filteredIndices != [] {
        FilteredSpec(searchableTexts, searchTerm);
        var copilotIdx := filteredIndices[currentIndex];
        if copilotIdx in selected {
          selected := selected - {copilotIdx};
        } else {
          selected := selected + {copilotIdx};
        }
      }
    }

    /** `a`: every shown copilot becomes selected. */
    method SelectAllShown()
      requires Valid()
      modifies this`selected
      ensures Valid()
      ensures selected == old(selected) + Elems(filteredIndices)
    {
      for k := 0 to |filteredIndices|
        invariant selected == old(selected) + Elems(filteredIndices[..k])
      {
        assert Elems(filteredIndices[..k + 1]) == Elems(filteredIndices[..k]) + {filteredIndices[k]};
        selected := selected + {filteredIndices[k]};
      }
      assert filteredIndices[..|filteredIndices|] == filteredIndices;
      ShownAreCopilots(searchableTexts, searchTerm);
    }

    /** `n`: every shown copilot becomes unselected. */
    method DeselectAllShown()
      requires Valid()
      modifies this`selected
      ensures Valid()
      ensures selected == old(selected) - Elems(filteredIndices)
    {
      for k := 0 to |filteredIndices|
        invariant Valid()
        invariant selected == old(selected) - Elems(filteredIndices[..k])
      {
        assert Elems(filteredIndices[..k + 1]) == Elems(filteredIndices[..k]) + {filteredIndices[k]};
        selected := selected - {filteredIndices[k]};
      }
      assert filteredIndices[..|filteredIndices|] == filteredIndices;
    }

    /** `t`: every shown copilot changes state. */
    method ToggleAllShown()
      requires Valid()
      modifies this`selected
      ensures Valid()
      ensures selected == ToggledAll(old(selected), Elems(filteredIndices))
    {
      ghost var s0 := State();
      ShownAscending(searchableTexts, searchTerm);
      for k := 0 to |filteredIndices|
        invariant selected == ToggledAll(s0.selected, Elems(s0.shown[..k]))
      {
        var idx := filteredIndices[k];
        ToggleOneMore(s0.selected, s0.shown, k);
        if idx in selected {
          selected := selected - {idx};
        } else {
          selected := selected + {idx};
        }
      }
      assert s0.shown[..|s0.shown|] == s0.shown;
      SelectionStepsKeepStateOk(searchableTexts, s0);
    }

    /** UP or k */
    method MoveUp()
      requires Valid()
      modifies this`currentIndex
      ensures Valid()
      ensures currentIndex == CursorUp(old(currentIndex))
    {
      if currentIndex > 0 {
        currentIndex := currentIndex - 1;
      }
    }

    /** DOWN or j */
    method MoveDown()
      requires Valid()
      modifies this`currentIndex
      ensures Valid()
      ensures currentIndex == CursorDown(old(currentIndex), |filteredIndices|)
    {
      if currentIndex < |filteredIndices| - 1 {
        currentIndex := currentIndex + 1;
      }
    }

    /** PGUP */
    method MovePageUp()
      requires Valid()
      modifies this`currentIndex
      ensures Valid()
      ensures currentIndex == PageUpCursor(old(currentIndex))
    {
      currentIndex := if currentIndex - 10 > 0 then currentIndex - 10 else 0;
    }

    /** PGDN, with the clamp to row 0 on an empty list that the written code
        lacks (see PageDownAsWritten). */
    method MovePageDown()
      requires Valid()
      modifies this`currentIndex
      ensures Valid()
      ensures currentIndex == PageDownCursor(old(currentIndex), |filteredIndices|)
    {
      var target := if |filteredIndices| - 1 < currentIndex + 10 then |filteredIndices| - 1 else currentIndex + 10;
      currentIndex := if target < 0 then 0 else target;
    }

    /** The part of `display` that scrolls the list so that the cursor row
        is inside a window of `availableLines` rows. */
    method AdjustViewOffset(availableLines: int)
      requires Valid()
      modifies this`viewOffset
      ensures Valid()
      ensures viewOffset == ScrolledOffset(currentIndex, old(viewOffset), availableLines)
      ensures availableLines >= 1 ==> viewOffset <= currentIndex < viewOffset + availableLines
    {
      if currentIndex < viewOffset {
        viewOffset := currentIndex;
      } else if currentIndex >= viewOffset + availableLines {
        viewOffset := currentIndex - availableLines + 1;
      }
    }

    /** `display` on a terminal of `rows` rows, minus the drawing. */
    method Display(rows: int)
      requires Valid()
      modifies this`viewOffset
      ensures Valid()
      ensures viewOffset == ScrolledOffset(currentIndex, old(viewOffset), rows - HeaderLines - FooterLines)
      ensures State() == Scrolled(old(State()), rows - HeaderLines - FooterLines)
    {
      var availableLines := rows - HeaderLines - FooterLines;
      AdjustViewOffset(availableLines);
    }

    /** One keystroke of `live_search_mode`; `done` says the mode ends. */
    method SearchKeystroke(c: char) returns (done: bool)
      requires Valid()
      modifies this`searchTerm, this`filteredIndices, this`currentIndex, this`viewOffset
      ensures Valid()
      ensures done <==> EndsSearch(c)
      ensures State() == Keystroke(searchableTexts, old(State()), c)
      ensures searchTerm == EditedTerm(old(searchTerm), c)
      ensures Refilters(old(searchTerm), c) ==>
        currentIndex == ClampedCursor(old(currentIndex), |filteredIndices|) && viewOffset == 0
      ensures !Refilters(old(searchTerm), c) ==>
        currentIndex == old(currentIndex) && viewOffset == old(viewOffset)
    {
      done := false;
      if c == '\U{1B}' {
        searchTerm := "";
        FilterCopilots();
        done := true;
      } else if IsEnter(c) {
        done := true;
      } else if IsBackspace(c) {
        if searchTerm != "" {
          searchTerm := searchTerm[..|searchTerm| - 1];
          FilterCopilots();
        }
      } else if IsPrintable(c) {
        searchTerm := searchTerm + [c];
        FilterCopilots();
      }
    }

    /** `live_search_mode`, reading keys from `keys[from..]`; returns the
        position after the last key it read (|keys| if they ran out). */
    method LiveSearch(keys: seq<Key>, from: nat, rows: int) returns (next: nat)
      requires Valid()
      requires from <= |keys|
      modifies this`searchTerm, this`filteredIndices, this`currentIndex, this`viewOffset
      ensures Valid()
      ensures from <= next <= |keys|
      ensures next == from + SearchLength(keys[from..])
      ensures next < |keys| ==> next > from && EndsSearch(RawChar(keys[next - 1]))
      ensures State() == LiveSearched(searchableTexts, old(State()), keys[from..], rows - HeaderLines - FooterLines)
    {
      ghost var lines := rows - HeaderLines - FooterLines;
      ghost var goal := LiveSearched(searchableTexts, State(), keys[from..], lines);
      next := from;
      while true
        invariant Valid()
        invariant from <= next <= |keys|
        invariant next - from + SearchLength(keys[next..]) == SearchLength(keys[from..])
        invariant LiveSearched(searchableTexts, State(), keys[next..], lines) == goal
        decreases |keys| - next
      {
        if next == |keys| {
          Display(rows);
          return;
        }
        assert keys[next..][0] == keys[next] && keys[next..][1..] == keys[next + 1..];
        var c := RawChar(keys[next]);
        next := next + 1;
        var done := SearchRound(c, rows);
        if done {
          return;
        }
      }
    }

    /** One round of `live_search_mode`: draw, then apply the key read. */
    method SearchRound(c: char, rows: int) returns (done: bool)
      requires Valid()
      modifies this`searchTerm, this`filteredIndices, this`currentIndex, this`viewOffset
      ensures Valid()
      ensures done <==> EndsSearch(c)
      ensures State() == Keystroke(searchableTexts, Scrolled(old(State()), rows - HeaderLines - FooterLines), c)
    {
      Display(rows);
      done := SearchKeystroke(c);
    }

    /** The keys of the main loop that change the selector's state and
        keep the loop going: movement, selection, and ESC. */
    method HandleKey(key: Key)
      requires Valid()
      requires KeyAction(key) == Stay
      modifies this`selected, this`currentIndex, this`searchTerm, this`filteredIndices, this`viewOffset
      ensures Valid()
      ensures State() == FullKeyStep(searchableTexts, old(State()), key)
    {
      if key == Up || key == Char('k') {
        MoveUp();
      } else if key == Down || key == Char('j') {
        MoveDown();
      } else if key == PageUp {
        MovePageUp();
      } else if key == PageDown {
        MovePageDown();
      } else if key == Char(' ') {
        ToggleSelection();
      } else if key == Char('a') {
        SelectAllShown();
      } else if key == Char('n') {
        DeselectAllShown();
      } else if key == Char('t') {
        ToggleAllShown();
      } else if key == Escape {
        searchTerm := "";
        FilterCopilots();
      }
    }

    /** The start of `run` with more than 20 copilots: "Press any key to
        begin searching". That key is read and dropped, and search entry
        opens. Returns how many keys were read. */
    method StartUp(keys: seq<Key>, rows: int) returns (consumed: nat)
      requires Valid()
      modifies this`searchTerm, this`filteredIndices, this`currentIndex, this`viewOffset
      ensures Valid()
      ensures (State(), consumed) == Started(false, searchableTexts, |copilots|, old(State()), keys, rows - HeaderLines - FooterLines)
      ensures consumed <= |keys|
      ensures |copilots| <= SearchFirstThreshold || keys == [] ==> consumed == 0 && State() == old(State())
      ensures |copilots| > SearchFirstThreshold && keys != [] ==>
        consumed == 1 + SearchLength(keys[1..])
        && State() == LiveSearched(searchableTexts, old(State()), keys[1..], rows - HeaderLines - FooterLines)
    {
      consumed := 0;
      if |copilots| > SearchFirstThreshold && |keys| > 0 {
        consumed := LiveSearch(keys, 1, rows);
      }
    }

    /** One key of the main loop that does not end it: '/' opens search
        entry, any other key goes to the keymap. Returns the position of
        the next key to read. */
    method HandleAt(keys: seq<Key>, at: nat, rows: int) returns (next: nat)
      requires Valid()
      requires at < |keys| && (KeyAction(keys[at]) == Stay || KeyAction(keys[at]) == OpenSearch)
      modifies this`selected, this`currentIndex, this`searchTerm, this`filteredIndices, this`viewOffset
      ensures Valid()
      ensures (State(), next - at) == Handled(false, searchableTexts, old(State()), keys[at..], rows - HeaderLines - FooterLines)
      ensures at < next <= |keys|
    {
      var key := keys[at];
      assert keys[at..][0] == key && keys[at..][1..] == keys[at + 1..];
      if KeyAction(key) == OpenSearch {
        next := LiveSearch(keys, at + 1, rows);
      } else {
        HandleKey(key);
        next := at + 1;
      }
    }

    /** One pass of the `while True` loop of `run` at key `at`: draw, then
        read one key. `done` says whether the session ended there, and how. */
    method Round(keys: seq<Key>, at: nat, rows: int) returns (done: bool, exit: Exit, next: nat)
      requires Valid()
      requires at <= |keys|
      modifies this`selected, this`currentIndex, this`searchTerm, this`filteredIndices, this`viewOffset
      ensures Valid()
      ensures at <= next <= |keys|
      ensures var r := MainLoop(false, searchableTexts, old(State()), keys[at..], rows - HeaderLines - FooterLines);
        if done then r == SessionResult(exit, next - at, State())
        else at < next && r == Later(next - at, MainLoop(false, searchableTexts, State(), keys[next..], rows - HeaderLines - FooterLines))
    {
      ghost var lines := rows - HeaderLines - FooterLines;
      ghost var pre := State();
      Display(rows);
      if at == |keys| {
        return true, OutOfKeys, at;
      }
      assert keys[at..][0] == keys[at];
      var action := KeyAction(keys[at]);
      if action == Confirm || action == Cancel {
        MainLoopRound(false, searchableTexts, pre, keys[at..], lines);
        return true, if action == Confirm then ByEnter else ByQuit, at + 1;
      }
      done, exit := false, OutOfKeys;
      next := HandleAt(keys, at, rows);
      assert keys[at..][next - at..] == keys[next..];
      MainLoopHandled(false, searchableTexts, pre, keys[at..], lines, State(), next - at);
    }

    /** The `while True` loop of `run` from key `from` on. Returns how the
        session ended and how many keys had been read by then. */
    method KeyLoop(keys: seq<Key>, from: nat, rows: int) returns (outcome: Outcome, consumed: nat)
      requires Valid()
      requires from <= |keys|
      modifies this`selected, this`currentIndex, this`searchTerm, this`filteredIndices, this`viewOffset
      ensures Valid()
      ensures var r := MainLoop(false, searchableTexts, old(State()), keys[from..], rows - HeaderLines - FooterLines);
        && consumed == from + r.consumed && State() == r.final
        && outcome == OutcomeOf(r.exit, Chosen(copilots, r.final.selected))
    {
      ghost var lines := rows - HeaderLines - FooterLines;
      ghost var goal := MainLoop(false, searchableTexts, State(), keys[from..], lines);
      consumed := from;
      var done, exit := false, OutOfKeys;
      while !done
        invariant Valid()
        invariant from <= consumed <= |keys|
        invariant !done ==> Later(consumed - from, MainLoop(false, searchableTexts, State(), keys[consumed..], lines)) == goal
        invariant done ==> goal == SessionResult(exit, consumed - from, State())
        decreases |keys| - consumed, !done
      {
        done, exit, consumed := Round(keys, consumed, rows);
      }
      if exit == ByEnter {
        outcome := Confirmed(Chosen(copilots, selected));
      } else if exit == ByQuit {
        outcome := Cancelled;
      } else {
        outcome := AwaitingInput;
      }
    }

    /** `run`: the opening, then the keystroke loop. Returns how the session
        ended and how many keys it read. */
    method Run(keys: seq<Key>, rows: int) returns (outcome: Outcome, consumed: nat)
      requires Valid()
      modifies this
      ensures Valid()
      ensures var r := RunSession(false, searchableTexts, |copilots|, old(State()), keys, rows - HeaderLines - FooterLines);
        && consumed == r.consumed && State() == r.final
        && outcome == OutcomeOf(r.exit, Chosen(copilots, r.final.selected))
      ensures outcome.AwaitingInput? ==> consumed == |keys|
      ensures outcome.Confirmed? ==> consumed >= 1 && keys[consumed - 1].Char? && IsEnter(keys[consumed - 1].c)
      ensures outcome.Cancelled? ==> consumed >= 1 && keys[consumed - 1] in {Char('q'), Char('\U{03}')}
    {
      ghost var lines := rows - HeaderLines - FooterLines;
      ghost var r := RunSession(false, searchableTexts, |copilots|, State(), keys, lines);
      ghost var h := Started(false, searchableTexts, |copilots|, State(), keys, lines);
      RunSessionStarted(false, searchableTexts, |copilots|, State(), keys, lines);
      if |copilots| > SearchFirstThreshold && |keys| == 0 {
        return AwaitingInput, 0;
      }
      consumed := StartUp(keys, rows);
      assert State() == h.0 && consumed == h.1;
      ghost var m := MainLoop(false, searchableTexts, h.0, keys[h.1..], lines);
      assert r == Later(h.1, m);
      outcome, consumed := KeyLoop(keys, consumed, rows);
      assert consumed == r.consumed && State() == r.final && r.exit == m.exit;
    }
  }
}
