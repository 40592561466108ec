/** Keystrokes and the cursor and scrolling rules of the two interactive
    selectors. The cursor is an index into the filtered list; the view
    offset is the first filtered row on screen. */
module Navigation {

  /** A keystroke after the terminal's escape sequences are decoded:
      ESC [ A, ESC [ B, ESC [ 5 ~, ESC [ 6 ~, any other escape, or one
      plain character. The decoders never yield `Char('\U{1B}')`: an ESC
      byte is always followed by a read of two more, so every escape
      arrives as one of the first five. No main loop binds
      `Char('\U{1B}')`; search entry reads raw characters and sees every
      escape as '\U{1B}' (RawChar). */
  datatype Key = Up | Down | PageUp | PageDown | Escape | Char(c: char)

  /** The character search entry reads for a key: it reads raw characters,
      so every escape sequence arrives as its leading ESC. */
  function RawChar(k: Key): (c: char)
    ensures k.Char? ==> c == k.c
    ensures !k.Char? ==> c == '\U{1B}'
  {
    if k.Char? then k.c else '\U{1B}'
  }

  predicate IsEnter(c: char) { c == '\r' || c == '\n' }
  predicate IsBackspace(c: char) { c == '\U{7F}' || c == '\U{08}' }
  predicate IsPrintable(c: char) { 32 <= c as int <= 126 }

  /** In range for a list of `shown` rows: a real row, or 0 for an empty list. */
  predicate CursorOk(cursor: int, shown: nat) {
    0 <= cursor && (shown > 0 ==> cursor < shown) && (shown == 0 ==> cursor == 0)
  }

  /** The position after the filter: a cursor past the end of the new list
      moves to its last row (row 0 when the list is empty). */
  function ClampedCursor(cursor: int, shown: nat): (r: int)
    ensures cursor >= 0 ==> CursorOk(r, shown)
    ensures cursor < shown ==> r == cursor
    ensures cursor >= shown ==> r == if shown > 0 then shown - 1 else 0
  {
    if cursor >= shown then if shown > 0 then shown - 1 else 0 else cursor
  }

  /** UP or k: one row up, never above the first row. */
  function CursorUp(cursor: int): (r: int)
    ensures cursor > 0 ==> r == cursor - 1
    ensures cursor <= 0 ==> r == cursor
  {
    if cursor > 0 then cursor - 1 else cursor
  }

  /** DOWN or j: one row down, never past the last row. */
  function CursorDown(cursor: int, shown: nat): (r: int)
    ensures cursor < shown - 1 ==> r == cursor + 1
    ensures cursor >= shown - 1 ==> r == cursor
  {
    if cursor < shown - 1 then cursor + 1 else cursor
  }

  /** PGUP: ten rows up, clamped at the first row. */
  function PageUpCursor(cursor: int): (r: int)
    ensures r >= 0 && r <= if cursor > 0 then cursor else 0
    ensures cursor >= 10 ==> r == cursor - 10
    ensures cursor < 10 ==> r == 0
  {
    if cursor - 10 > 0 then cursor - 10 else 0
  }

  /** PGDN exactly as select_copilots.py writes it: `min(len - 1, cursor + 10)`. */
  function PageDownAsWritten(cursor: int, shown: nat): (r: int)
    ensures r <= shown - 1 && r <= cursor + 10
    ensures r == shown - 1 || r == cursor + 10
  {
    if shown - 1 < cursor + 10 then shown - 1 else cursor + 10
  }

  /** On an empty filter, the written PGDN moves the cursor to -1, a row that
      does not exist; the clamp in filter_copilots only catches a cursor past
      the end, so after a search that finds rows again the cursor is still -1. */
  lemma PageDownAsWrittenLeavesRange(cursor: int, shown: nat)
    requires CursorOk(cursor, 0)
    requires shown > 0
    ensures PageDownAsWritten(cursor, 0) == -1
    ensures !CursorOk(PageDownAsWritten(cursor, 0), 0)
    ensures ClampedCursor(PageDownAsWritten(cursor, 0), shown) == -1
    ensures !CursorOk(ClampedCursor(PageDownAsWritten(cursor, 0), shown), shown)
  {
  }

  /** PGDN as evidently intended: ten rows down, clamped to the last row,
      and to row 0 when nothing is shown. */
  function PageDownCursor(cursor: int, shown: nat): (r: int)
    ensures cursor >= 0 ==> CursorOk(r, shown)
    ensures shown > 0 && cursor >= 0 ==> r == PageDownAsWritten(cursor, shown)
  {
    var r := PageDownAsWritten(cursor, shown);
    if r < 0 then 0 else r
  }

  /** Every movement key keeps a valid cursor valid. */
  lemma MovesKeepCursorOk(cursor: int, shown: nat)
    requires CursorOk(cursor, shown)
    ensures CursorOk(CursorUp(cursor), shown)
    ensures CursorOk(CursorDown(cursor, shown), shown)
    ensures CursorOk(PageUpCursor(cursor), shown)
    ensures CursorOk(PageDownCursor(cursor, shown), shown)
  {
  }

  /** The view offset after `display`'s adjustment for `lines` visible rows:
      scroll up to the cursor when it is above the window, scroll down just
      enough when it is below, otherwise keep the window. */
  function ScrolledOffset(cursor: int, offset: int, lines: int): (r: int)
    ensures lines >= 1 ==> r <= cursor < r + lines
    ensures offset <= cursor < offset + lines ==> r == offset
  {
    if cursor < offset then cursor
    else if cursor >= offset + lines then cursor - lines + 1
    else offset
  }

  /** The adjustment moves the window by the least amount that brings the
      cursor into view: every other window that shows the cursor is at least
      as far from the old one. */
  lemma ScrollIsMinimal(cursor: int, offset: int, lines: int, other: int)
    requires lines >= 1
    requires other <= cursor < other + lines
    ensures var r := ScrolledOffset(cursor, offset, lines);
      (if r >= offset then r - offset else offset - r)
        <= (if other >= offset then other - offset else offset - other)
  {
  }

  /** What a key of either selector's main loop leads to: `/` opens search entry, Enter
      confirms, q or Ctrl-C cancels, every other key is handled in place. */
  datatype Action = Stay | OpenSearch | Confirm | Cancel

  function KeyAction(key: Key): (a: Action)
    ensures a == OpenSearch <==> key == Char('/')
    ensures a == Confirm <==> key.Char? && IsEnter(key.c)
    ensures a == Cancel <==> key == Char('q') || key == Char('\U{03}')
  {
    if key == Char('/') then OpenSearch
    else if key == Char('\r') || key == Char('\n') then Confirm
    else if key == Char('q') || key == Char('\U{03}') then Cancel
    else Stay
  }

  // ---------------------------------------------------------------- search entry

  /** The search term after one keystroke of search entry: ESC clears it,
      Backspace drops the last character (nothing on an empty term), a
      printable character (code 32..126) is appended, anything else,
      Enter included, leaves it as it is. */
  function EditedTerm(term: string, c: char): (r: string)
    ensures c == '\U{1B}' ==> r == ""
    ensures IsBackspace(c) && term != "" ==> r == term[..|term| - 1]
    ensures IsPrintable(c) ==> r == term + [c]
    ensures c != '\U{1B}' && !IsPrintable(c) && !(IsBackspace(c) && term != "") ==> r == term
  {
    if c == '\U{1B}' then ""
    else if IsEnter(c) then term
    else if IsBackspace(c) then (if term != "" then term[..|term| - 1] else term)
    else if IsPrintable(c) then term + [c]
    else term
  }

  /** Whether that keystroke re-runs the filter. */
  predicate Refilters(term: string, c: char) {
    c == '\U{1B}' || (IsBackspace(c) && term != "") || IsPrintable(c)
  }

  /** Whether that keystroke leaves search entry. */
  predicate EndsSearch(c: char) {
    c == '\U{1B}' || IsEnter(c)
  }

  predicate AllPrintable(s: string) {
    forall i :: 0 <= i < |s| ==> IsPrintable(s[i])
  }

  /** Search entry only ever builds terms of printable characters. */
  lemma EditedTermPrintable(term: string, c: char)
    requires AllPrintable(term)
    ensures AllPrintable(EditedTerm(term, c))
  {
  }

  /** Typing a printable character and then Backspace restores the term. */
  lemma TypeThenBackspace(term: string, c: char, bs: char)
    requires IsPrintable(c) && IsBackspace(bs)
    ensures EditedTerm(EditedTerm(term, c), bs) == term
  {
    assert (term + [c])[..|term|] == term;
  }
}
