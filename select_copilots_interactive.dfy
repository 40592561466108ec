/** The robust terminal selector: `RobustCopilotSelector`, and the line-based
    selection it falls back to. Screen output and raw terminal reads are not
    modelled; keystrokes arrive as a sequence of decoded keys and the
    terminal height is a parameter. */
module RobustTui {
  import opened Wrappers
  import opened PyText
  import opened Copilots
  import opened Navigation
  import opened Session

  /** How a session ends: Enter confirms the selection, q or Ctrl-C cancels,
      or the keys run out while the selector still waits for one. */
  datatype Outcome = Confirmed(items: seq<Copilot>) | Cancelled | AwaitingInput

  /** The outcome `run` reports for the way a session ended. */
  function OutcomeOf(exit: Exit, chosen: seq<Copilot>): (o: Outcome)
    ensures o.Confirmed? <==> exit == ByEnter
    ensures o.Cancelled? <==> exit == ByQuit
    ensures o.Confirmed? ==> o.items == chosen
  {
    match exit
    case ByEnter => Confirmed(chosen)
    case ByQuit => Cancelled
    case OutOfKeys => AwaitingInput
  }

  /** Rows of the screen above and below the list. */
  const HeaderLines := 8
  const FooterLines := 2

  class RobustCopilotSelector {
    const copilots: seq<Copilot>
    const searchableTexts: seq<string>
    const nameGroups: map<string, seq<nat>>
    var selected: set<nat>
    var currentIndex: int
    var searchTerm: string
    var filteredIndices: seq<nat>
    var viewOffset: int

    /** The search index and the name groups were built from the input. */
    ghost predicate Indexed() {
      searchableTexts == SearchIndex(copilots) && nameGroups == NameGroups(copilots)
    }

    /** The fields the keys change, as one value. */
    ghost function State(): SelectorState
      reads this
    {
      SelectorState(selected, currentIndex, searchTerm, filteredIndices, viewOffset)
    }

    /** Everything but the filter: selected positions are real positions,
        cursor and offset are not negative. */
    ghost predicate Consistent()
      reads this
    {
      Indexed() && FieldsOk(|copilots|, State())
    }

    /** Besides, the filter is up to date with the search term and the
        cursor is on a shown row (row 0 when none is shown). */
    ghost predicate Valid()
      reads this
    {
      Indexed() && StateOk(searchableTexts, State())
    }

    constructor (copilots: seq<Copilot>)
      ensures Valid()
      ensures this.copilots == copilots
      ensures selected == {} && currentIndex == 0 && searchTerm == ""
      ensures filteredIndices == Range(|copilots|) && viewOffset == 0
    {
      this.copilots := copilots;
      var texts := BuildSearchIndex(copilots);
      searchableTexts := texts;
      var groups := GroupByName(copilots);
      nameGroups := groups;
      selected := {};
      currentIndex := 0;
      searchTerm := "";
      filteredIndices := Range(|copilots|);
      viewOffset := 0;
    }

    /** `get_display_info` for the copilot at `idx`. */
    function DisplayInfoAt(idx: nat): (r: string)
      requires nameGroups == NameGroups(copilots)
      requires idx < |copilots|
      ensures copilots[idx].name.GetOr("Unknown") <= r
      ensures SharesName(copilots, idx) <==> DuplicateMarker <= r[|copilots[idx].name.GetOr("Unknown")|..]
      ensures Contains(r, Bullet + SkillText(|SkillsOf(copilots[idx])|) + Bullet)
      ensures EndsWith(r, Bullet + Truncated(copilots[idx].description.GetOr("No description"), 35)
                          + (Bullet + "ID: " + ShortId(copilots[idx].copilotId.GetOr("Unknown ID"))))
      ensures EndsWith(r, Bullet + "ID: " + ShortId(copilots[idx].copilotId.GetOr("Unknown ID")))
    {
      DuplicateMarkerSpec(copilots, idx);
      DisplayInfo(copilots[idx], |nameGroups[GroupKey(copilots[idx])]| > 1)
    }

    /** `filter_copilots`: recompute the shown rows from the search term,
        pull the cursor back onto the list, and scroll to the top. */
    method FilterCopilots()
      requires Consistent()
      modifies this`filteredIndices, this`currentIndex, this`viewOffset
      ensures Valid()
      ensures filteredIndices == Filtered(searchableTexts, searchTerm)
      ensures currentIndex == ClampedCursor(old(currentIndex), |filteredIndices|)
      ensures viewOffset == 0
      ensures State() == Refiltered(searchableTexts, old(State()))
    {
      ghost var s0 := State();
      if searchTerm == "" {
        filteredIndices := Range(|copilots|);
      } else {
        var searchLower := Lower(searchTerm);
        var searchTerms := Words(searchLower);
        filteredIndices := MatchingPositions(searchableTexts, searchTerms);
      }
      if currentIndex >= |filteredIndices| {
        currentIndex := if |filteredIndices| - 1 > 0 then |filteredIndices| - 1 else 0;
      }
      viewOffset := 0;
      assert State() == Refiltered(searchableTexts, s0);
      RefilteredKeepsStateOk(searchableTexts, s0);
    }

    /** Space in `run`: flips the cursor row's copilot and nothing else;
        with no rows shown it does nothing. */
    method ToggleCurrent()
      requires Valid()
      modifies this`selected
      ensures Valid()
      ensures filteredIndices == [] ==> selected == old(selected)
      ensures filteredIndices != [] ==> selected == Flip(old(selected), filteredIndices[currentIndex])
    {
      if filteredIndices != [] {
        FilteredSpec(searchableTexts, searchTerm);
        var copilotIdx := filteredIndices[currentIndex];
        if copilotIdx in selected {
          selected := selected - {copilotIdx};
        } else {
          selected := selected + {copilotIdx};
        }
      }
    }

    /** `a`: every shown copilot becomes selected. */
    method SelectAllShown()
      requires Valid()
      modifies this`selected
      ensures Valid()
      ensures selected == old(selected) + Elems(filteredIndices)
    {
      for k := 0 to |filteredIndices|
        invariant selected == old(selected) + Elems(filteredIndices[..k])
      {
        assert Elems(filteredIndices[..k + 1]) == Elems(filteredIndices[..k]) + {filteredIndices[k]};
        selected := selected + {filteredIndices[k]};
      }
      assert filteredIndices[..|filteredIndices|] == filteredIndices;
      ShownAreCopilots(searchableTexts, searchTerm);
    }

    /** `d`: every shown copilot becomes unselected. */
    method DeselectAllShown()
      requires Valid()
      modifies this`selected
      ensures Valid()
      ensures selected == old(selected) - Elems(filteredIndices)
    {
      for k := 0 to |filteredIndices|
        invariant Valid()
        invariant selected == old(selected) - Elems(filteredIndices[..k])
      {
        assert Elems(filteredIndices[..k + 1]) == Elems(filteredIndices[..k]) + {filteredIndices[k]};
        selected := selected - {filteredIndices[k]};
      }
      assert filteredIndices[..|filteredIndices|] == filteredIndices;
    }

    /** The up arrow or k */
    method MoveUp()
      requires Valid()
      modifies this`currentIndex
      ensures Valid()
      ensures currentIndex == CursorUp(old(currentIndex))
    {
      if currentIndex > 0 {
        currentIndex := currentIndex - 1;
      }
    }

    /** The down arrow or j */
    method MoveDown()
      requires Valid()
      modifies this`currentIndex
      ensures Valid()
      ensures currentIndex == CursorDown(old(currentIndex), |filteredIndices|)
    {
      if currentIndex < |filteredIndices| - 1 {
        currentIndex := currentIndex + 1;
      }
    }

    /** ESC, or an escape sequence other than the two arrows: clear the
        search and show everything again. */
    method ClearSearch()
      requires Valid()
      modifies this`searchTerm, this`filteredIndices, this`currentIndex, this`viewOffset
      ensures Valid()
      ensures searchTerm == "" && filteredIndices == Range(|copilots|)
      ensures currentIndex == ClampedCursor(old(currentIndex), |copilots|) && viewOffset == 0
      ensures State() == Cleared(searchableTexts, old(State()))
    {
      searchTerm := "";
      FilterCopilots();
    }

    /** The part of `display` that scrolls the list so that the cursor row
        is inside a window of `rows - 8 - 2` rows. */
    method Display(rows: int)
      requires Valid()
      modifies this`viewOffset
      ensures Valid()
      ensures viewOffset == ScrolledOffset(currentIndex, old(viewOffset), rows - HeaderLines - FooterLines)
      ensures State() == Scrolled(old(State()), rows - HeaderLines - FooterLines)
      ensures rows - HeaderLines - FooterLines >= 1 ==>
        viewOffset <= currentIndex < viewOffset + (rows - HeaderLines - FooterLines)
    {
      var availableLines := rows - HeaderLines - FooterLines;
      if currentIndex < viewOffset {
        viewOffset := currentIndex;
      } else if currentIndex >= viewOffset + availableLines {
        viewOffset := currentIndex - availableLines + 1;
      }
    }

    /** One keystroke of `handle_search_input`; `done` says the mode ends. */
    method SearchKeystroke(c: char, rows: int) returns (done: bool)
      requires Valid()
      modifies this`searchTerm, this`filteredIndices, this`currentIndex, this`viewOffset
      ensures Valid()
      ensures done <==> EndsSearch(c)
      ensures State() == RobustKeystroke(searchableTexts, old(State()), c, rows - HeaderLines - FooterLines)
      ensures searchTerm == EditedTerm(old(searchTerm), c)
      ensures Refilters(old(searchTerm), c) ==>
        currentIndex == ClampedCursor(old(currentIndex), |filteredIndices|)
      ensures !Refilters(old(searchTerm), c) ==>
        currentIndex == old(currentIndex) && viewOffset == old(viewOffset)
    {
      done := false;
      if c == '\U{1B}' {
        searchTerm := "";
        FilterCopilots();
        done := true;
      } else if IsEnter(c) {
        done := true;
      } else if IsBackspace(c) {
        if searchTerm != "" {
          searchTerm := searchTerm[..|searchTerm| - 1];
          FilterCopilots();
          Display(rows);
        }
      } else if IsPrintable(c) {
        searchTerm := searchTerm + [c];
        FilterCopilots();
        Display(rows);
      }
    }

    /** `handle_search_input`, reading keys from `keys[from..]`; returns the
        position after the last key it read (|keys| if they ran out). */
    method HandleSearchInput(keys: seq<Key>, from: nat, rows: int) returns (next: nat)
      requires Valid()
      requires from <= |keys|
      modifies this`searchTerm, this`filteredIndices, this`currentIndex, this`viewOffset
      ensures Valid()
      ensures from <= next <= |keys|
      ensures next == from + SearchLength(keys[from..])
      ensures next < |keys| ==> next > from && EndsSearch(RawChar(keys[next - 1]))
      ensures var lines := rows - HeaderLines - FooterLines;
        State() == SearchInputRead(searchableTexts, Scrolled(old(State()), lines), keys[from..], lines)
    {
      Display(rows);
      next := ReadSearchKeys(keys, from, rows);
    }

    /** The loop of `handle_search_input`. */
    method ReadSearchKeys(keys: seq<Key>, from: nat, rows: int) returns (next: nat)
      requires Valid()
      requires from <= |keys|
      modifies this`searchTerm, this`filteredIndices, this`currentIndex, this`viewOffset
      ensures Valid()
      ensures next == from + SearchLength(keys[from..])
      ensures State() == SearchInputRead(searchableTexts, old(State()), keys[from..], rows - HeaderLines - FooterLines)
    {
      ghost var lines := rows - HeaderLines - FooterLines;
      ghost var goal := SearchInputRead(searchableTexts, State(), keys[from..], lines);
      next := from;
      while next < |keys|
        invariant Valid()
        invariant from <= next <= |keys|
        invariant next - from + SearchLength(keys[next..]) == SearchLength(keys[from..])
        invariant SearchInputRead(searchableTexts, State(), keys[next..], lines) == goal
        decreases |keys| - next
      {
        assert keys[next..][0] == keys[next] && keys[next..][1..] == keys[next + 1..];
        var c := RawChar(keys[next]);
        next := next + 1;
        var done := SearchKeystroke(c, rows);
        if done {
          return;
        }
      }
      assert keys[next..] == [];
    }

    /** The keys of the main loop that change the selector's state and
        keep the loop going: movement, selection, and the other escapes. */
    method HandleKey(key: Key)
      requires Valid()
      requires KeyAction(key) == Stay
      modifies this`selected, this`currentIndex, this`searchTerm, this`filteredIndices, this`viewOffset
      ensures Valid()
      ensures State() == RobustKeyStep(searchableTexts, old(State()), key)
    {
      if key == Up || key == Char('k') {
        MoveUp();
      } else if key == Down || key == Char('j') {
        MoveDown();
      } else if key == Escape || key == PageUp || key == PageDown {
        ClearSearch();
      } else if key == Char(' ') {
        ToggleCurrent();
      } else if key == Char('a') {
        SelectAllShown();
      } else if key == Char('d') {
        DeselectAllShown();
      }
    }

    /** The start of `run` with more than 20 copilots: "Press '/' to search
        or any other key to browse all". The key is read; only '/' opens
        search entry. Returns how many keys were read. */
    method StartUp(keys: seq<Key>, rows: int) returns (consumed: nat)
      requires Valid()
      modifies this`searchTerm, this`filteredIndices, this`currentIndex, this`viewOffset
      ensures Valid()
      ensures (State(), consumed) == Started(true, searchableTexts, |copilots|, old(State()), keys, rows - HeaderLines - FooterLines)
      ensures consumed <= |keys|
      ensures |copilots| <= SearchFirstThreshold || keys == [] ==> consumed == 0 && State() == old(State())
      ensures |copilots| > SearchFirstThreshold && keys != [] && keys[0] != Char('/') ==>
        consumed == 1 && State() == old(State())
      ensures |copilots| > SearchFirstThreshold && keys != [] && keys[0] == Char('/') ==>
        var lines := rows - HeaderLines - FooterLines;
        consumed == 1 + SearchLength(keys[1..])
        && State() == SearchInputRead(searchableTexts, Scrolled(old(State()), lines), keys[1..], lines)
    {
      consumed := 0;
      if |copilots| > SearchFirstThreshold && |keys| > 0 {
        consumed := 1;
        if keys[0] == Char('/') {
          consumed := HandleSearchInput(keys, 1, rows);
        }
      }
    }

    /** One key of the main loop that does not end it: '/' opens search
        entry, any other key goes to the keymap. Returns the position of
        the next key to read. */
    method HandleAt(keys: seq<Key>, at: nat, rows: int) returns (next: nat)
      requires Valid()
      requires at < |keys| && (KeyAction(keys[at]) == Stay || KeyAction(keys[at]) == OpenSearch)
      modifies this`selected, this`currentIndex, this`searchTerm, this`filteredIndices, this`viewOffset
      ensures Valid()
      ensures (State(), next - at) == Handled(true, searchableTexts, old(State()), keys[at..], rows - HeaderLines - FooterLines)
      ensures at < next <= |keys|
    {
      var key := keys[at];
      assert keys[at..][0] == key && keys[at..][1..] == keys[at + 1..];
      if KeyAction(key) == OpenSearch {
        next := HandleSearchInput(keys, at + 1, rows);
      } else {
        HandleKey(key);
        next := at + 1;
      }
    }

    /** One pass of the `while True` loop of `run` at key `at`: draw, then
        read one key. `done` says whether the session ended there, and how. */
    method Round(keys: seq<Key>, at: nat, rows: int) returns (done: bool, exit: Exit, next: nat)
      requires Valid()
      requires at <= |keys|
      modifies this`selected, this`currentIndex, this`searchTerm, this`filteredIndices, this`viewOffset
      ensures Valid()
      ensures at <= next <= |keys|
      ensures var r := MainLoop(true, searchableTexts, old(State()), keys[at..], rows - HeaderLines - FooterLines);
        if done then r == SessionResult(exit, next - at, State())
        else at < next && r == Later(next - at, MainLoop(true, searchableTexts, State(), keys[next..], rows - HeaderLines - FooterLines))
    {
      ghost var lines := rows - HeaderLines - FooterLines;
      ghost var pre := State();
      Display(rows);
      if at == |keys| {
        return true, OutOfKeys, at;
      }
      assert keys[at..][0] == keys[at];
      var action := KeyAction(keys[at]);
      if action == Confirm || action == Cancel {
        MainLoopRound(true, searchableTexts, pre, keys[at..], lines);
        return true, if action == Confirm then ByEnter else ByQuit, at + 1;
      }
      done, exit := false, OutOfKeys;
      next := HandleAt(keys, at, rows);
      assert keys[at..][next - at..] == keys[next..];
      MainLoopHandled(true, searchableTexts, pre, keys[at..], lines, State(), next - at);
    }

    /** The `while True` loop of `run` from key `from` on. Returns how the
        session ended and how many keys had been read by then. */
    method KeyLoop(keys: seq<Key>, from: nat, rows: int) returns (outcome: Outcome, consumed: nat)
      requires Valid()
      requires from <= |keys|
      modifies this`selected, this`currentIndex, this`searchTerm, this`filteredIndices, this`viewOffset
      ensures Valid()
      ensures var r := MainLoop(true, searchableTexts, old(State()), keys[from..], rows - HeaderLines - FooterLines);
        && consumed == from + r.consumed && State() == r.final
        && outcome == OutcomeOf(r.exit, Chosen(copilots, r.final.selected))
    {
      ghost var lines := rows - HeaderLines - FooterLines;
      ghost var goal := MainLoop(true, searchableTexts, State(), keys[from..], lines);
      consumed := from;
      var done, exit := false, OutOfKeys;
      while !done
        invariant Valid()
        invariant from <= consumed <= |keys|
        invariant !done ==> Later(consumed - from, MainLoop(true, searchableTexts, State(), keys[consumed..], lines)) == goal
        invariant done ==> goal == SessionResult(exit, consumed - from, State())
        decreases |keys| - consumed, !done
      {
        done, exit, consumed := Round(keys, consumed, rows);
      }
      if exit == ByEnter {
        outcome := Confirmed(Chosen(copilots, selected));
      } else if exit == ByQuit {
        outcome := Cancelled;
      } else {
        outcome := AwaitingInput;
      }
    }

    /** `run`: the opening, then the keystroke loop. Returns how the session
        ended and how many keys it read. */
    method Run(keys: seq<Key>, rows: int) returns (outcome: Outcome, consumed: nat)
      requires Valid()
      modifies this
      ensures Valid()
      ensures var r := RunSession(true, searchableTexts, |copilots|, old(State()), keys, rows - HeaderLines - FooterLines);
        && consumed == r.consumed && State() == r.final
        && outcome == OutcomeOf(r.exit, Chosen(copilots, r.final.selected))
      ensures outcome.AwaitingInput? ==> consumed == |keys|
      ensures outcome.Confirmed? ==> consumed >= 1 && keys[consumed - 1].Char? && IsEnter(keys[consumed - 1].c)
      ensures outcome.Cancelled? ==> consumed >= 1 && keys[consumed - 1] in {Char('q'), Char('\U{03}')}
    {
      ghost var lines := rows - HeaderLines - FooterLines;
      ghost var r := RunSession(true, searchableTexts, |copilots|, State(), keys, lines);
      ghost var h := Started(true, searchableTexts, |copilots|, State(), keys, lines);
      RunSessionStarted(true, searchableTexts, |copilots|, State(), keys, lines);
      consumed := StartUp(keys, rows);
      assert State() == h.0 && consumed == h.1;
      ghost var m := MainLoop(true, searchableTexts, h.0, keys[h.1..], lines);
      assert r == Later(h.1, m);
      outcome, consumed := KeyLoop(keys, consumed, rows);
      assert consumed == r.consumed && State() == r.final && r.exit == m.exit;
    }
  }

  // ---------------------------------------------------------------- fallback selection

  /** The whole-line answer "all", in any letter case. */
  predicate SaysAll(line: string) {
    Lower(line) == "all"
  }

  /** The values of a list of parses, or `None` when one of them failed. */
  function AllValues(parses: seq<Option<int>>): (r: Option<seq<int>>)
    ensures r.Some? ==> |r.value| == |parses|
    decreases |parses|
  {
    if parses == [] then Some([])
    else
      var rest := AllValues(parses[1..]);
      if parses[0].None? || rest.None? then None
      else Some([parses[0].value] + rest.value)
  }

  /** The list fails exactly when one parse failed, and otherwise holds
      every parsed value in order. */
  lemma {:induction false} AllValuesSpec(parses: seq<Option<int>>)
    ensures AllValues(parses).None? <==> exists k :: 0 <= k < |parses| && parses[k].None?
    ensures AllValues(parses).Some? ==>
      forall k :: 0 <= k < |parses| ==> parses[k] == Some(AllValues(parses).value[k])
    decreases |parses|
  {
    if parses != [] {
      var tail := parses[1..];
      AllValuesSpec(tail);
      if exists k :: 0 <= k < |tail| && tail[k].None? {
        var k :| 0 <= k < |tail| && tail[k].None?;
        assert parses[k + 1] == tail[k];
      }
      if exists k :: 1 <= k < |parses| && parses[k].None? {
        var k :| 1 <= k < |parses| && parses[k].None?;
        assert tail[k - 1] == parses[k];
      }
    }
  }

  /** Parses that all succeeded give their values. */
  lemma {:induction false} AllValuesOfSuccesses(parses: seq<Option<int>>, values: seq<int>)
    requires |parses| == |values|
    requires forall k :: 0 <= k < |parses| ==> parses[k] == Some(values[k])
    ensures AllValues(parses) == Some(values)
    decreases |parses|
  {
    if parses != [] {
      AllValuesOfSuccesses(parses[1..], values[1..]);
      assert [values[0]] + values[1..] == values;
    }
  }

  /** `[int(x.strip()) - 1 for x in tokens]`; `None` when one token is not an
      integer (the ValueError that sends the fallback to "all"). */
  function ZeroBasedIndices(tokens: seq<string>): (r: Option<seq<int>>)
    ensures r.Some? ==> |r.value| == |tokens|
  {
    match AllValues(TokenValues(tokens))
    case None => None
    case Some(values) => Some(Decremented(values))
  }

  /** Each number less one: a 1-based number as a 0-based index. */
  function Decremented(values: seq<int>): (r: seq<int>)
    ensures |r| == |values|
    ensures forall k :: 0 <= k < |values| ==> r[k] == values[k] - 1
  {
    seq(|values|, k requires 0 <= k < |values| => values[k] - 1)
  }

  /** The conversion fails exactly when some token is not an integer, and
      otherwise holds each token's number less one. */
  lemma ZeroBasedIndicesSpec(tokens: seq<string>)
    ensures ZeroBasedIndices(tokens).None? <==>
      exists k :: 0 <= k < |tokens| && TokenValue(tokens[k]).None?
    ensures ZeroBasedIndices(tokens).Some? ==> forall k :: 0 <= k < |tokens| ==>
      TokenValue(tokens[k]) == Some(ZeroBasedIndices(tokens).value[k] + 1)
  {
    var parses := TokenValues(tokens);
    AllValuesSpec(parses);
    assert (exists k :: 0 <= k < |tokens| && TokenValue(tokens[k]).None?) <==>
           (exists k :: 0 <= k < |parses| && parses[k].None?) by {
      if exists k :: 0 <= k < |tokens| && TokenValue(tokens[k]).None? {
        var k :| 0 <= k < |tokens| && TokenValue(tokens[k]).None?;
        assert parses[k].None?;
      }
    }
    match AllValues(parses)
    case None =>
    case Some(values) =>
      assert ZeroBasedIndices(tokens) == Some(Decremented(values));
  }

  /** `[copilots[i] for i in indices if 0 <= i < len(copilots)]` */
  function PicksInRange(copilots: seq<Copilot>, indices: seq<int>): (r: seq<Copilot>)
    ensures |r| <= |indices|
    decreases |indices|
  {
    if indices == [] then []
    else
      var i := indices[0];
      (if 0 <= i < |copilots| then [copilots[i]] else []) + PicksInRange(copilots, indices[1..])
  }

  /** `fallback_selection` after the prompt, on the stripped answer line:
      "all" or an unparsable answer gives every copilot, otherwise the
      numbered copilots in the order typed, out-of-range numbers dropped. */
  function FallbackSelection(copilots: seq<Copilot>, line: string): (r: seq<Copilot>)
    ensures forall c :: c in r ==> c in copilots
  {
    var selection := Strip(line);
    if SaysAll(selection) then copilots
    else
      match ZeroBasedIndices(SplitOn(selection, ','))
      case None => copilots
      case Some(indices) =>
        PicksInRangeSpec(copilots, indices);
        PicksInRange(copilots, indices)
  }

  /** `all`, in any letter case and with surrounding blanks, selects everything. */
  lemma FallbackAll(copilots: seq<Copilot>, line: string)
    requires SaysAll(Strip(line))
    ensures FallbackSelection(copilots, line) == copilots
  {
  }

  /** One token that is not an integer (an empty answer included) selects
      everything. */
  lemma FallbackInvalidSelectsAll(copilots: seq<Copilot>, line: string, k: nat)
    requires k < |SplitOn(Strip(line), ',')|
    requires TokenValue(SplitOn(Strip(line), ',')[k]).None?
    ensures FallbackSelection(copilots, line) == copilots
  {
    ZeroBasedIndicesSpec(SplitOn(Strip(line), ','));
  }

  /** Every pick is a copilot of the list, and each comes from an in-range index. */
  lemma {:induction false} PicksInRangeSpec(copilots: seq<Copilot>, indices: seq<int>)
    ensures forall c :: c in PicksInRange(copilots, indices) ==> c in copilots
    ensures (forall k :: 0 <= k < |indices| ==> 0 <= indices[k] < |copilots|) ==>
      |PicksInRange(copilots, indices)| == |indices| &&
      forall k :: 0 <= k < |indices| ==> PicksInRange(copilots, indices)[k] == copilots[indices[k]]
    decreases |indices|
  {
    if indices != [] {
      PicksInRangeSpec(copilots, indices[1..]);
    }
  }

  /** Picks distribute over concatenation: the order typed is kept and a
      number typed twice picks its copilot twice. */
  lemma {:induction false} PicksInRangeAppend(copilots: seq<Copilot>, a: seq<int>, b: seq<int>)
    ensures PicksInRange(copilots, a + b) == PicksInRange(copilots, a) + PicksInRange(copilots, b)
    decreases |a|
  {
    if a != [] {
      assert (a + b)[1..] == a[1..] + b;
      PicksInRangeAppend(copilots, a[1..], b);
    } else {
      assert a + b == b;
    }
  }

  /** Typing the numbers `ns` separated by commas picks, in that order, the
      copilot numbered by each, skipping the numbers out of range. */
  lemma FallbackPicksTypedNumbers(copilots: seq<Copilot>, ns: seq<nat>)
    requires |ns| >= 1
    ensures FallbackSelection(copilots, NumbersLine(ns))
      == PicksInRange(copilots, Decremented(ns))
  {
    var line := NumbersLine(ns);
    NumbersLineSplits(ns);
    var tokens := SplitOn(line, ',');
    assert forall k :: 0 <= k < |tokens| ==> TokenValue(tokens[k]) == Some(ns[k] as int);
    IndicesOfNumbers(tokens, ns);
    FallbackOnIndices(copilots, line, Decremented(ns));
  }

  /** Tokens that read as the numbers `ns` give the 0-based indices of `ns`. */
  lemma IndicesOfNumbers(tokens: seq<string>, ns: seq<nat>)
    requires |tokens| == |ns|
    requires forall k :: 0 <= k < |tokens| ==> TokenValue(tokens[k]) == Some(ns[k] as int)
    ensures ZeroBasedIndices(tokens) == Some(Decremented(ns))
  {
    AllValuesOfSuccesses(TokenValues(tokens), ns);
  }

  /** A stripped answer that is not "all" and reads as a list of indices
      picks the copilots at those indices. */
  lemma FallbackOnIndices(copilots: seq<Copilot>, line: string, indices: seq<int>)
    requires Strip(line) == line && !SaysAll(line)
    requires ZeroBasedIndices(SplitOn(line, ',')) == Some(indices)
    ensures FallbackSelection(copilots, line) == PicksInRange(copilots, indices)
  {
  }

  /** When every typed number names a copilot, the result is exactly those
      copilots, in the order typed and with repeats. */
  lemma FallbackInRangeNumbers(copilots: seq<Copilot>, ns: seq<nat>)
    requires |ns| >= 1
    requires forall k :: 0 <= k < |ns| ==> 1 <= ns[k] <= |copilots|
    ensures |FallbackSelection(copilots, NumbersLine(ns))| == |ns|
    ensures forall k :: 0 <= k < |ns| ==> FallbackSelection(copilots, NumbersLine(ns))[k] == copilots[ns[k] - 1]
  {
    var indices := Decremented(ns);
    FallbackPicksTypedNumbers(copilots, ns);
    var picks := PicksInRange(copilots, indices);
    assert FallbackSelection(copilots, NumbersLine(ns)) == picks;
    assert forall k :: 0 <= k < |indices| ==> 0 <= indices[k] < |copilots|;
    PicksInRangeSpec(copilots, indices);
  }
}
