/** The fields both interactive selectors change while they run, as one
    value, and the effect of every keystroke on them: the main-loop keymap
    of each variant and the search entry of each variant. The classes'
    methods are proved to change their fields exactly as these functions
    say; the lemmas here say what the keys mean and how the variants
    differ. */
module Session {
  import opened Copilots
  import opened Navigation

  /** `selected`, `current_index`, `search_term`, `filtered_indices` and
      `view_offset`. */
  datatype SelectorState = SelectorState(
    selected: set<nat>,
    cursor: int,
    term: string,
    shown: seq<nat>,
    offset: int)

  /** Selected positions are real positions; cursor and offset are not negative. */
  predicate FieldsOk(count: nat, s: SelectorState) {
    && (forall i :: i in s.selected ==> i < count)
    && s.cursor >= 0
    && s.offset >= 0
  }

  /** Besides, the filter is up to date with the search term and the cursor
      is on a shown row (row 0 when none is shown). */
  predicate StateOk(texts: seq<string>, s: SelectorState) {
    && FieldsOk(|texts|, s)
    && s.shown == Filtered(texts, s.term)
    && CursorOk(s.cursor, |s.shown|)
  }

  // ---------------------------------------------------------------- shared steps

  /** `filter_copilots`: the rows of the term, the cursor pulled back onto
      them, the window at the top. */
  function Refiltered(texts: seq<string>, s: SelectorState): SelectorState {
    var shown := Filtered(texts, s.term);
    s.(shown := shown, cursor := ClampedCursor(s.cursor, |shown|), offset := 0)
  }

  /** The scrolling part of `display` for a window of `lines` rows. */
  function Scrolled(s: SelectorState, lines: int): SelectorState {
    s.(offset := ScrolledOffset(s.cursor, s.offset, lines))
  }

  /** Space: the cursor row's copilot changes state; nothing happens on an
      empty list (nor on a cursor off the list, which StateOk excludes). */
  function Toggled(s: SelectorState): SelectorState {
    if 0 <= s.cursor < |s.shown| then s.(selected := Flip(s.selected, s.shown[s.cursor])) else s
  }

  /** ESC in the main loop: the search is cleared and every copilot shown. */
  function Cleared(texts: seq<string>, s: SelectorState): SelectorState {
    Refiltered(texts, s.(term := ""))
  }

  // ---------------------------------------------------------------- main-loop keymaps

  /** A key of `CopilotSelector.run` that keeps the loop going (KeyAction
      Stay); `/`, Enter, q and Ctrl-C are handled by the loop itself. */
  function FullKeyStep(texts: seq<string>, s: SelectorState, key: Key): SelectorState
    requires KeyAction(key) == Stay
  {
    if key == Up || key == Char('k') then s.(cursor := CursorUp(s.cursor))
    else if key == Down || key == Char('j') then s.(cursor := CursorDown(s.cursor, |s.shown|))
    else if key == PageUp then s.(cursor := PageUpCursor(s.cursor))
    else if key == PageDown then s.(cursor := PageDownCursor(s.cursor, |s.shown|))
    else if key == Char(' ') then Toggled(s)
    else if key == Char('a') then s.(selected := s.selected + Elems(s.shown))
    else if key == Char('n') then s.(selected := s.selected - Elems(s.shown))
    else if key == Char('t') then s.(selected := ToggledAll(s.selected, Elems(s.shown)))
    else if key == Escape then Cleared(texts, s)
    else s
  }

  /** The same for `RobustCopilotSelector.run`: no paging, no `n` or `t`,
      `d` deselects, and every escape sequence but the two arrows clears
      the search. */
  function RobustKeyStep(texts: seq<string>, s: SelectorState, key: Key): SelectorState
    requires KeyAction(key) == Stay
  {
    if key == Up || key == Char('k') then s.(cursor := CursorUp(s.cursor))
    else if key == Down || key == Char('j') then s.(cursor := CursorDown(s.cursor, |s.shown|))
    else if key == Escape || key == PageUp || key == PageDown then Cleared(texts, s)
    else if key == Char(' ') then Toggled(s)
    else if key == Char('a') then s.(selected := s.selected + Elems(s.shown))
    else if key == Char('d') then s.(selected := s.selected - Elems(s.shown))
    else s
  }

  /** The keys each main loop acts on besides `/`, Enter, q and Ctrl-C. */
  predicate FullBinds(key: Key) {
    key in {Up, Down, PageUp, PageDown, Escape, Char('k'), Char('j'), Char(' '), Char('a'), Char('n'), Char('t')}
  }

  predicate RobustBinds(key: Key) {
    key in {Up, Down, PageUp, PageDown, Escape, Char('k'), Char('j'), Char(' '), Char('a'), Char('d')}
  }

  /** A key neither loop binds changes no field. */
  lemma UnboundKeysInert(texts: seq<string>, s: SelectorState, key: Key)
    requires KeyAction(key) == Stay
    ensures !FullBinds(key) ==> FullKeyStep(texts, s, key) == s
    ensures !RobustBinds(key) ==> RobustKeyStep(texts, s, key) == s
  {
  }

  /** Every key of either main loop keeps the selector's invariant. */
  lemma KeyStepsKeepStateOk(texts: seq<string>, s: SelectorState, key: Key)
    requires KeyAction(key) == Stay
    requires StateOk(texts, s)
    ensures StateOk(texts, FullKeyStep(texts, s, key))
    ensures StateOk(texts, RobustKeyStep(texts, s, key))
  {
    MovesKeepCursorOk(s.cursor, |s.shown|);
    SelectionStepsKeepStateOk(texts, s);
    ClearedKeepsStateOk(texts, s);
  }

  lemma SelectionStepsKeepStateOk(texts: seq<string>, s: SelectorState)
    requires StateOk(texts, s)
    ensures StateOk(texts, Toggled(s))
    ensures StateOk(texts, s.(selected := s.selected + Elems(s.shown)))
    ensures StateOk(texts, s.(selected := s.selected - Elems(s.shown)))
    ensures StateOk(texts, s.(selected := ToggledAll(s.selected, Elems(s.shown))))
  {
    ShownAreCopilots(texts, s.term);
    if 0 <= s.cursor < |s.shown| {
      assert s.shown[s.cursor] in Elems(s.shown);
    }
  }

  /** Every shown row is a copilot's position. */
  lemma ShownAreCopilots(texts: seq<string>, term: string)
    ensures forall i :: i in Elems(Filtered(texts, term)) ==> i < |texts|
  {
    FilteredSpec(texts, term);
  }

  /** The rows are shown in increasing order, each once. */
  lemma ShownAscending(texts: seq<string>, term: string)
    ensures StrictlyIncreasing(Filtered(texts, term))
  {
    FilteredSpec(texts, term);
  }

  /** Re-filtering makes any consistent state valid. */
  lemma RefilteredKeepsStateOk(texts: seq<string>, s: SelectorState)
    requires FieldsOk(|texts|, s)
    ensures StateOk(texts, Refiltered(texts, s))
  {
  }

  lemma ClearedKeepsStateOk(texts: seq<string>, s: SelectorState)
    requires FieldsOk(|texts|, s)
    ensures StateOk(texts, Cleared(texts, s))
  {
    RefilteredKeepsStateOk(texts, s.(term := ""));
  }

  /** The movement keys change the cursor only, the selection keys the
      selection only. */
  lemma KeysChangeOneField(texts: seq<string>, s: SelectorState, key: Key)
    requires KeyAction(key) == Stay
    ensures key in {Up, Down, PageUp, PageDown, Char('k'), Char('j')} ==>
      FullKeyStep(texts, s, key) == s.(cursor := FullKeyStep(texts, s, key).cursor)
    ensures key in {Char(' '), Char('a'), Char('n'), Char('t')} ==>
      FullKeyStep(texts, s, key) == s.(selected := FullKeyStep(texts, s, key).selected)
    ensures key in {Up, Down, Char('k'), Char('j')} ==>
      RobustKeyStep(texts, s, key) == s.(cursor := RobustKeyStep(texts, s, key).cursor)
    ensures key in {Char(' '), Char('a'), Char('d')} ==>
      RobustKeyStep(texts, s, key) == s.(selected := RobustKeyStep(texts, s, key).selected)
  {
  }

  /** How the two keymaps differ: they agree on the arrows, k, j, Space, a
      and ESC; the robust `d` is the full `n`; the robust page keys clear
      the search; `n` and `t` do nothing in the robust variant, `d` nothing
      in the full one. */
  lemma KeymapsCompared(texts: seq<string>, s: SelectorState, key: Key)
    requires KeyAction(key) == Stay
    ensures key in {Up, Down, Escape, Char('k'), Char('j'), Char(' '), Char('a')} ==>
      RobustKeyStep(texts, s, key) == FullKeyStep(texts, s, key)
    ensures RobustKeyStep(texts, s, Char('d')) == FullKeyStep(texts, s, Char('n'))
    ensures RobustKeyStep(texts, s, PageUp) == FullKeyStep(texts, s, Escape)
    ensures RobustKeyStep(texts, s, PageDown) == FullKeyStep(texts, s, Escape)
    ensures RobustKeyStep(texts, s, Char('n')) == s && RobustKeyStep(texts, s, Char('t')) == s
    ensures FullKeyStep(texts, s, Char('d')) == s
  {
  }

  /** Space twice, or `t` twice, leaves the selection as it was. */
  lemma ToggleKeysTwice(texts: seq<string>, s: SelectorState)
    ensures FullKeyStep(texts, FullKeyStep(texts, s, Char(' ')), Char(' ')) == s
    ensures RobustKeyStep(texts, RobustKeyStep(texts, s, Char(' ')), Char(' ')) == s
    ensures FullKeyStep(texts, FullKeyStep(texts, s, Char('t')), Char('t')) == s
  {
    if 0 <= s.cursor < |s.shown| {
      FlipTwice(s.selected, s.shown[s.cursor]);
    }
    ToggledAllTwice(s.selected, Elems(s.shown));
  }

  // ---------------------------------------------------------------- search entry

  /** One character of search entry, in both variants: the term is edited,
      and the list re-filtered when the edit calls for it. */
  function Keystroke(texts: seq<string>, s: SelectorState, c: char): SelectorState {
    if Refilters(s.term, c) then Refiltered(texts, s.(term := EditedTerm(s.term, c))) else s
  }

  /** The term is the edited term, the selection is untouched, and the
      invariant is kept. */
  lemma KeystrokeSpec(texts: seq<string>, s: SelectorState, c: char)
    ensures Keystroke(texts, s, c).term == EditedTerm(s.term, c)
    ensures Keystroke(texts, s, c).selected == s.selected
    ensures StateOk(texts, s) ==> StateOk(texts, Keystroke(texts, s, c))
  {
    FilteredSpec(texts, EditedTerm(s.term, c));
  }

  /** The robust variant redraws after Backspace and a printable
      character, not after ESC. */
  function RobustKeystroke(texts: seq<string>, s: SelectorState, c: char, lines: int): SelectorState {
    var t := Keystroke(texts, s, c);
    if Refilters(s.term, c) && c != '\U{1B}' then Scrolled(t, lines) else t
  }

  /** How many keys search entry reads: up to and including the first ESC
      or Enter, or all of them when there is none. */
  function SearchLength(keys: seq<Key>): (n: nat)
    ensures n <= |keys|
    ensures forall i :: 0 <= i < n - 1 ==> !EndsSearch(RawChar(keys[i]))
    ensures n < |keys| ==> n > 0 && EndsSearch(RawChar(keys[n - 1]))
    ensures n == |keys| && n > 0 && !EndsSearch(RawChar(keys[n - 1])) ==>
      forall i :: 0 <= i < |keys| ==> !EndsSearch(RawChar(keys[i]))
    decreases |keys|
  {
    if keys == [] then 0
    else if EndsSearch(RawChar(keys[0])) then 1
    else 1 + SearchLength(keys[1..])
  }

  /** The term after the characters of `keys` were typed, each applied in
      turn with EditedTerm. */
  function TypedTerm(term: string, keys: seq<Key>): string
    decreases |keys|
  {
    if keys == [] then term else TypedTerm(EditedTerm(term, RawChar(keys[0])), keys[1..])
  }

  /** `live_search_mode`: draw, read one character, apply it; stop after
      ESC or Enter, or when the keys run out (after one more drawing). */
  function LiveSearched(texts: seq<string>, s: SelectorState, keys: seq<Key>, lines: int): SelectorState
    decreases |keys|
  {
    var d := Scrolled(s, lines);
    if keys == [] then d
    else
      var c := RawChar(keys[0]);
      var t := Keystroke(texts, d, c);
      if EndsSearch(c) then t else LiveSearched(texts, t, keys[1..], lines)
  }

  /** The loop of `handle_search_input`, after its first drawing. */
  function SearchInputRead(texts: seq<string>, s: SelectorState, keys: seq<Key>, lines: int): SelectorState
    decreases |keys|
  {
    if keys == [] then s
    else
      var c := RawChar(keys[0]);
      var t := RobustKeystroke(texts, s, c, lines);
      if EndsSearch(c) then t else SearchInputRead(texts, t, keys[1..], lines)
  }

  /** Live search ends with the term typed over the keys it reads, keeps
      the selection, and keeps the invariant. */
  lemma {:induction false} LiveSearchedSpec(texts: seq<string>, s: SelectorState, keys: seq<Key>, lines: int)
    ensures LiveSearched(texts, s, keys, lines).term == TypedTerm(s.term, keys[..SearchLength(keys)])
    ensures LiveSearched(texts, s, keys, lines).selected == s.selected
    ensures StateOk(texts, s) ==> StateOk(texts, LiveSearched(texts, s, keys, lines))
    decreases |keys|
  {
    var d := Scrolled(s, lines);
    if keys != [] {
      var c := RawChar(keys[0]);
      KeystrokeSpec(texts, d, c);
      var t := Keystroke(texts, d, c);
      if EndsSearch(c) {
        assert keys[..1] == [keys[0]];
      } else {
        LiveSearchedSpec(texts, t, keys[1..], lines);
        assert keys[..SearchLength(keys)][1..] == keys[1..][..SearchLength(keys[1..])];
      }
    }
  }

  /** Two states that differ at most in the view offset. */
  predicate SameButOffset(a: SelectorState, b: SelectorState) {
    a.(offset := 0) == b.(offset := 0)
  }

  /** The two variants' search entries, on the same keys from states that
      differ only in scrolling, end in states that differ only in
      scrolling: the same term, rows, cursor and selection. */
  lemma {:induction false} SearchEntriesAgree(texts: seq<string>, a: SelectorState, b: SelectorState,
                                              keys: seq<Key>, lines: int, robustLines: int)
    requires SameButOffset(a, b)
    ensures SameButOffset(LiveSearched(texts, a, keys, lines), SearchInputRead(texts, b, keys, robustLines))
    decreases |keys|
  {
    var d := Scrolled(a, lines);
    assert SameButOffset(d, b);
    if keys != [] {
      var c := RawChar(keys[0]);
      var t := Keystroke(texts, d, c);
      var u := RobustKeystroke(texts, b, c, robustLines);
      assert SameButOffset(t, u);
      if !EndsSearch(c) {
        SearchEntriesAgree(texts, t, u, keys[1..], lines, robustLines);
      }
    }
  }

  // ---------------------------------------------------------------- whole sessions

  /** Above this many copilots a session starts with a prompt for search. */
  const SearchFirstThreshold := 20

  /** How a session ends: Enter, q or Ctrl-C, or the keys run out while
      the selector still waits for one. */
  datatype Exit = ByEnter | ByQuit | OutOfKeys

  /** How a session ended, how many keys it read, and the state it left. */
  datatype SessionResult = SessionResult(exit: Exit, consumed: nat, final: SelectorState)

  /** A result reached after `n` keys were read first. */
  function Later(n: nat, r: SessionResult): SessionResult {
    r.(consumed := n + r.consumed)
  }

  /** The main-loop keymap of each variant. */
  function KeyStep(robust: bool, texts: seq<string>, s: SelectorState, key: Key): SelectorState
    requires KeyAction(key) == Stay
  {
    if robust then RobustKeyStep(texts, s, key) else FullKeyStep(texts, s, key)
  }

  /** Search entry of each variant: `live_search_mode`, or
      `handle_search_input` with its first drawing. */
  function SearchEntry(robust: bool, texts: seq<string>, s: SelectorState, keys: seq<Key>, lines: int): SelectorState {
    if robust then SearchInputRead(texts, Scrolled(s, lines), keys, lines)
    else LiveSearched(texts, s, keys, lines)
  }

  /** A key the main loop handles without ending: one of the keymap, or
      '/' and the search entry it opens. Gives the new state and how many
      keys were read. */
  function Handled(robust: bool, texts: seq<string>, s: SelectorState, keys: seq<Key>, lines: int): (h: (SelectorState, nat))
    requires keys != [] && (KeyAction(keys[0]) == Stay || KeyAction(keys[0]) == OpenSearch)
    ensures 1 <= h.1 <= |keys|
  {
    if KeyAction(keys[0]) == Stay then (KeyStep(robust, texts, s, keys[0]), 1)
    else (SearchEntry(robust, texts, s, keys[1..], lines), 1 + SearchLength(keys[1..]))
  }

  /** The first thing `run` does with more than 20 copilots: the full
      selector drops the key read and opens search entry; the robust one
      opens search entry only when that key is '/'. */
  function Opening(robust: bool, texts: seq<string>, s: SelectorState, keys: seq<Key>, lines: int): (h: (SelectorState, nat))
    requires keys != []
    ensures 1 <= h.1 <= |keys|
  {
    if robust && keys[0] != Char('/') then (s, 1)
    else (SearchEntry(robust, texts, s, keys[1..], lines), 1 + SearchLength(keys[1..]))
  }

  /** The `while True` loop of `run`: draw, read one key, and act on it. */
  function MainLoop(robust: bool, texts: seq<string>, s: SelectorState, keys: seq<Key>, lines: int): (r: SessionResult)
    ensures r.consumed <= |keys|
    ensures r.exit == OutOfKeys ==> r.consumed == |keys|
    ensures r.exit == ByEnter ==> r.consumed > 0 && KeyAction(keys[r.consumed - 1]) == Confirm
    ensures r.exit == ByQuit ==> r.consumed > 0 && KeyAction(keys[r.consumed - 1]) == Cancel
    decreases |keys|
  {
    var d := Scrolled(s, lines);
    if keys == [] then SessionResult(OutOfKeys, 0, d)
    else if KeyAction(keys[0]) == Confirm then SessionResult(ByEnter, 1, d)
    else if KeyAction(keys[0]) == Cancel then SessionResult(ByQuit, 1, d)
    else
      var h := Handled(robust, texts, d, keys, lines);
      Later(h.1, MainLoop(robust, texts, h.0, keys[h.1..], lines))
  }

  /** One round of the main loop, as the loop of `run` takes it. */
  lemma MainLoopRound(robust: bool, texts: seq<string>, s: SelectorState, keys: seq<Key>, lines: int)
    requires keys != []
    ensures KeyAction(keys[0]) == Confirm ==>
      MainLoop(robust, texts, s, keys, lines) == SessionResult(ByEnter, 1, Scrolled(s, lines))
    ensures KeyAction(keys[0]) == Cancel ==>
      MainLoop(robust, texts, s, keys, lines) == SessionResult(ByQuit, 1, Scrolled(s, lines))
  {
  }

  /** A round of the main loop that handles its key and goes on. */
  lemma MainLoopHandled(robust: bool, texts: seq<string>, s: SelectorState, keys: seq<Key>, lines: int,
                        t: SelectorState, n: nat)
    requires keys != [] && (KeyAction(keys[0]) == Stay || KeyAction(keys[0]) == OpenSearch)
    requires (t, n) == Handled(robust, texts, Scrolled(s, lines), keys, lines)
    ensures n <= |keys|
    ensures MainLoop(robust, texts, s, keys, lines) == Later(n, MainLoop(robust, texts, t, keys[n..], lines))
  {
  }

  /** `run` of either variant over `count` copilots: the opening with more
      than 20 copilots, then the main loop. With no key at all, the full
      selector still waits for the key it drops, while the robust one's
      wait has a timeout, so it goes on to draw the list. */
  function RunSession(robust: bool, texts: seq<string>, count: nat, s: SelectorState, keys: seq<Key>, lines: int): (r: SessionResult)
    ensures r.consumed <= |keys|
    ensures r.exit == OutOfKeys ==> r.consumed == |keys|
    ensures r.exit == ByEnter ==> r.consumed > 0 && KeyAction(keys[r.consumed - 1]) == Confirm
    ensures r.exit == ByQuit ==> r.consumed > 0 && KeyAction(keys[r.consumed - 1]) == Cancel
  {
    if count <= SearchFirstThreshold then MainLoop(robust, texts, s, keys, lines)
    else if keys == [] then (if robust then MainLoop(robust, texts, s, keys, lines) else SessionResult(OutOfKeys, 0, s))
    else
      var h := Opening(robust, texts, s, keys, lines);
      Later(h.1, MainLoop(robust, texts, h.0, keys[h.1..], lines))
  }

  /** Where the opening of `run` leaves the state and the keys: untouched
      with 20 copilots or fewer, or with no key to read. */
  function Started(robust: bool, texts: seq<string>, count: nat, s: SelectorState, keys: seq<Key>, lines: int): (h: (SelectorState, nat))
    ensures h.1 <= |keys|
  {
    if count <= SearchFirstThreshold || keys == [] then (s, 0) else Opening(robust, texts, s, keys, lines)
  }

  /** A session is its opening, then the main loop on the keys the opening
      left; only the full selector, waiting for its first key, stops when
      there is none. */
  lemma RunSessionStarted(robust: bool, texts: seq<string>, count: nat, s: SelectorState, keys: seq<Key>, lines: int)
    ensures !robust && count > SearchFirstThreshold && keys == [] ==>
      RunSession(robust, texts, count, s, keys, lines) == SessionResult(OutOfKeys, 0, s)
    ensures robust || count <= SearchFirstThreshold || keys != [] ==>
      var h := Started(robust, texts, count, s, keys, lines);
      RunSession(robust, texts, count, s, keys, lines) == Later(h.1, MainLoop(robust, texts, h.0, keys[h.1..], lines))
  {
    if count <= SearchFirstThreshold || keys == [] {
      assert keys[0..] == keys;
    }
  }

  /** Drawing only moves the window, and keeps the invariant. */
  lemma ScrolledKeepsStateOk(texts: seq<string>, s: SelectorState, lines: int)
    requires StateOk(texts, s)
    ensures SameButOffset(Scrolled(s, lines), s)
    ensures StateOk(texts, Scrolled(s, lines))
  {
  }

  /** Robust search entry keeps the selection and the invariant. */
  lemma {:induction false} SearchInputReadKeepsStateOk(texts: seq<string>, s: SelectorState, keys: seq<Key>, lines: int)
    requires StateOk(texts, s)
    ensures SearchInputRead(texts, s, keys, lines).selected == s.selected
    ensures StateOk(texts, SearchInputRead(texts, s, keys, lines))
    decreases |keys|
  {
    if keys != [] {
      var c := RawChar(keys[0]);
      KeystrokeSpec(texts, s, c);
      ScrolledKeepsStateOk(texts, Keystroke(texts, s, c), lines);
      if !EndsSearch(c) {
        SearchInputReadKeepsStateOk(texts, RobustKeystroke(texts, s, c, lines), keys[1..], lines);
      }
    }
  }

  /** Every round of the main loop keeps the invariant. */
  lemma HandledKeepsStateOk(robust: bool, texts: seq<string>, s: SelectorState, keys: seq<Key>, lines: int)
    requires keys != [] && (KeyAction(keys[0]) == Stay || KeyAction(keys[0]) == OpenSearch)
    requires StateOk(texts, s)
    ensures StateOk(texts, Handled(robust, texts, s, keys, lines).0)
  {
    if KeyAction(keys[0]) == Stay {
      KeyStepsKeepStateOk(texts, s, keys[0]);
    } else if robust {
      ScrolledKeepsStateOk(texts, s, lines);
      SearchInputReadKeepsStateOk(texts, Scrolled(s, lines), keys[1..], lines);
    } else {
      LiveSearchedSpec(texts, s, keys[1..], lines);
    }
  }

  /** The main loop ends in a state that keeps the invariant. */
  lemma {:induction false} MainLoopKeepsStateOk(robust: bool, texts: seq<string>, s: SelectorState, keys: seq<Key>, lines: int)
    requires StateOk(texts, s)
    ensures StateOk(texts, MainLoop(robust, texts, s, keys, lines).final)
    decreases |keys|
  {
    var d := Scrolled(s, lines);
    ScrolledKeepsStateOk(texts, s, lines);
    if keys != [] && (KeyAction(keys[0]) == Stay || KeyAction(keys[0]) == OpenSearch) {
      var h := Handled(robust, texts, d, keys, lines);
      HandledKeepsStateOk(robust, texts, d, keys, lines);
      MainLoopKeepsStateOk(robust, texts, h.0, keys[h.1..], lines);
    }
  }

  /** So does a whole session, from any state that keeps it. */
  lemma SessionKeepsStateOk(robust: bool, texts: seq<string>, count: nat, s: SelectorState, keys: seq<Key>, lines: int)
    requires StateOk(texts, s)
    ensures StateOk(texts, RunSession(robust, texts, count, s, keys, lines).final)
  {
    MainLoopKeepsStateOk(robust, texts, s, keys, lines);
    if count > SearchFirstThreshold && keys != [] {
      var h := Opening(robust, texts, s, keys, lines);
      if robust && keys[0] != Char('/') {
      } else if robust {
        ScrolledKeepsStateOk(texts, s, lines);
        SearchInputReadKeepsStateOk(texts, Scrolled(s, lines), keys[1..], lines);
      } else {
        LiveSearchedSpec(texts, s, keys[1..], lines);
      }
      MainLoopKeepsStateOk(robust, texts, h.0, keys[h.1..], lines);
    }
  }

  /** Keys after an ended search are never read by it. */
  lemma {:induction false} SearchLengthAppend(a: seq<Key>, b: seq<Key>)
    requires SearchLength(a) < |a|
    ensures SearchLength(a + b) == SearchLength(a)
    decreases |a|
  {
    assert (a + b)[0] == a[0];
    if !EndsSearch(RawChar(a[0])) {
      assert (a + b)[1..] == a[1..] + b;
      SearchLengthAppend(a[1..], b);
    }
  }

  lemma {:induction false} LiveSearchedAppend(texts: seq<string>, s: SelectorState, a: seq<Key>, b: seq<Key>, lines: int)
    requires SearchLength(a) < |a|
    ensures LiveSearched(texts, s, a + b, lines) == LiveSearched(texts, s, a, lines)
    decreases |a|
  {
    assert (a + b)[0] == a[0];
    var c := RawChar(a[0]);
    if !EndsSearch(c) {
      assert (a + b)[1..] == a[1..] + b;
      LiveSearchedAppend(texts, Keystroke(texts, Scrolled(s, lines), c), a[1..], b, lines);
    }
  }

  lemma {:induction false} SearchInputReadAppend(texts: seq<string>, s: SelectorState, a: seq<Key>, b: seq<Key>, lines: int)
    requires SearchLength(a) < |a|
    ensures SearchInputRead(texts, s, a + b, lines) == SearchInputRead(texts, s, a, lines)
    decreases |a|
  {
    assert (a + b)[0] == a[0];
    var c := RawChar(a[0]);
    if !EndsSearch(c) {
      assert (a + b)[1..] == a[1..] + b;
      SearchInputReadAppend(texts, RobustKeystroke(texts, s, c, lines), a[1..], b, lines);
    }
  }

  /** A search entry that ended within `a` ignores the keys after it. */
  lemma SearchEntryAppend(robust: bool, texts: seq<string>, s: SelectorState, a: seq<Key>, b: seq<Key>, lines: int)
    requires SearchLength(a) < |a|
    ensures SearchLength(a + b) == SearchLength(a)
    ensures SearchEntry(robust, texts, s, a + b, lines) == SearchEntry(robust, texts, s, a, lines)
  {
    SearchLengthAppend(a, b);
    if robust {
      SearchInputReadAppend(texts, Scrolled(s, lines), a, b, lines);
    } else {
      LiveSearchedAppend(texts, s, a, b, lines);
    }
  }

  /** Handling a key that leaves more keys to read does not look at them. */
  lemma HandledAppend(robust: bool, texts: seq<string>, s: SelectorState, keys: seq<Key>, post: seq<Key>, lines: int)
    requires keys != [] && (KeyAction(keys[0]) == Stay || KeyAction(keys[0]) == OpenSearch)
    requires Handled(robust, texts, s, keys, lines).1 < |keys|
    ensures Handled(robust, texts, s, keys + post, lines) == Handled(robust, texts, s, keys, lines)
  {
    assert (keys + post)[0] == keys[0];
    assert (keys + post)[1..] == keys[1..] + post;
    if KeyAction(keys[0]) == OpenSearch {
      SearchEntryAppend(robust, texts, s, keys[1..], post, lines);
    }
  }

  lemma OpeningAppend(robust: bool, texts: seq<string>, s: SelectorState, keys: seq<Key>, post: seq<Key>, lines: int)
    requires keys != [] && Opening(robust, texts, s, keys, lines).1 < |keys|
    ensures Opening(robust, texts, s, keys + post, lines) == Opening(robust, texts, s, keys, lines)
  {
    assert (keys + post)[0] == keys[0];
    assert (keys + post)[1..] == keys[1..] + post;
    if !(robust && keys[0] != Char('/')) {
      SearchEntryAppend(robust, texts, s, keys[1..], post, lines);
    }
  }

  /** A session that ended reads no key after the one that ended it:
      whatever follows, the result is the same. */
  lemma {:induction false} MainLoopIgnoresRest(robust: bool, texts: seq<string>, s: SelectorState,
                                               keys: seq<Key>, post: seq<Key>, lines: int)
    requires MainLoop(robust, texts, s, keys, lines).exit != OutOfKeys
    ensures MainLoop(robust, texts, s, keys + post, lines) == MainLoop(robust, texts, s, keys, lines)
    decreases |keys|
  {
    var d := Scrolled(s, lines);
    assert (keys + post)[0] == keys[0];
    var a := KeyAction(keys[0]);
    if a != Confirm && a != Cancel {
      var h := Handled(robust, texts, d, keys, lines);
      HandledAppend(robust, texts, d, keys, post, lines);
      assert (keys + post)[h.1..] == keys[h.1..] + post;
      MainLoopIgnoresRest(robust, texts, h.0, keys[h.1..], post, lines);
    }
  }

  /** The same for the whole session. */
  lemma RunSessionIgnoresRest(robust: bool, texts: seq<string>, count: nat, s: SelectorState,
                              keys: seq<Key>, post: seq<Key>, lines: int)
    requires RunSession(robust, texts, count, s, keys, lines).exit != OutOfKeys
    ensures RunSession(robust, texts, count, s, keys + post, lines) == RunSession(robust, texts, count, s, keys, lines)
  {
    if count <= SearchFirstThreshold {
      MainLoopIgnoresRest(robust, texts, s, keys, post, lines);
    } else {
      var h := Opening(robust, texts, s, keys, lines);
      OpeningAppend(robust, texts, s, keys, post, lines);
      assert (keys + post)[h.1..] == keys[h.1..] + post;
      MainLoopIgnoresRest(robust, texts, h.0, keys[h.1..], post, lines);
    }
  }

  /** A session ends at the first key that can end it: on every shorter
      prefix of the keys it read, it would still be waiting for input. */
  lemma EndsAtFirstTerminator(robust: bool, texts: seq<string>, count: nat, s: SelectorState,
                              keys: seq<Key>, j: nat, lines: int)
    requires j < RunSession(robust, texts, count, s, keys, lines).consumed
    ensures RunSession(robust, texts, count, s, keys[..j], lines).exit == OutOfKeys
  {
    assert keys[..j] + keys[j..] == keys;
    if RunSession(robust, texts, count, s, keys[..j], lines).exit != OutOfKeys {
      RunSessionIgnoresRest(robust, texts, count, s, keys[..j], keys[j..], lines);
    }
  }

  /** In the main loop, after any keys handled in place, Enter confirms and
      q or Ctrl-C cancel at once, leaving the state those keys produced. */
  lemma {:induction false} TerminatorEndsLoop(robust: bool, texts: seq<string>, s: SelectorState,
                                              pre: seq<Key>, k: Key, post: seq<Key>, lines: int)
    requires forall i :: 0 <= i < |pre| ==> KeyAction(pre[i]) == Stay
    requires KeyAction(k) == Confirm || KeyAction(k) == Cancel
    ensures var r := MainLoop(robust, texts, s, pre + [k] + post, lines);
      && r.consumed == |pre| + 1
      && r.final == MainLoop(robust, texts, s, pre, lines).final
      && (r.exit == ByEnter <==> KeyAction(k) == Confirm)
      && (r.exit == ByQuit <==> KeyAction(k) == Cancel)
    decreases |pre|
  {
    var keys := pre + [k] + post;
    if pre == [] {
      assert keys[0] == k;
    } else {
      assert keys[0] == pre[0];
      assert keys[1..] == pre[1..] + [k] + post;
      TerminatorEndsLoop(robust, texts, KeyStep(robust, texts, Scrolled(s, lines), pre[0]), pre[1..], k, post, lines);
    }
  }
}
