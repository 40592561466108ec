/** The copilot records both interactive selectors work on, and the pure
    rules they share: the precomputed search text, the token-AND filter,
    the "sorted(selected)" order of the confirmed result, the name groups
    used for the duplicate marker, and the pieces of a display line. */
module Copilots {
  import opened Wrappers
  import opened PyText

  /** A skill record inside a copilot; only its name is ever read. */
  datatype Skill = Skill(name: Option<string>)

  /** One element of the JSON input list. A field that is absent from the
      JSON object is `None`; the selectors never change a record. */
  datatype Copilot = Copilot(
    name: Option<string>,
    description: Option<string>,
    copilotId: Option<string>,
    skills: Option<seq<Skill>>)

  function SkillsOf(c: Copilot): seq<Skill> {
    c.skills.GetOr([])
  }

  // ---------------------------------------------------------------- search text

  /** The lowercase names of the skills, joined by single spaces. */
  function SkillNames(skills: seq<Skill>): (r: seq<string>)
    ensures |r| == |skills|
    ensures forall k :: 0 <= k < |skills| ==> r[k] == Lower(skills[k].name.GetOr(""))
  {
    seq(|skills|, k requires 0 <= k < |skills| => Lower(skills[k].name.GetOr("")))
  }

  /** The searchable text of one copilot: name, description, id and skill
      names, each lowercased, joined by spaces (absent fields count as ""). */
  function SearchText(c: Copilot): (t: string)
    ensures Lower(c.name.GetOr("")) <= t
    ensures Contains(t, Lower(c.name.GetOr("")))
    ensures Contains(t, Lower(c.description.GetOr("")))
    ensures Contains(t, Lower(c.copilotId.GetOr("")))
    ensures forall k :: 0 <= k < |SkillsOf(c)| ==> Contains(t, Lower(SkillsOf(c)[k].name.GetOr("")))
    ensures forall i :: 0 <= i < |t| ==> !IsUpper(t[i])
  {
    var skillNames := SkillNames(SkillsOf(c));
    var parts := [Lower(c.name.GetOr("")), Lower(c.description.GetOr("")),
                  Lower(c.copilotId.GetOr("")), Join(skillNames, " ")];
    JoinLowerIsLower(skillNames, " ");
    JoinLowerIsLower(parts, " ");
    var t := Join(parts, " ");
    JoinContainsParts(parts, " ", 0);
    JoinContainsParts(parts, " ", 1);
    JoinContainsParts(parts, " ", 2);
    JoinContainsParts(parts, " ", 3);
    forall k | 0 <= k < |skillNames| ensures Contains(t, skillNames[k]) {
      JoinContainsParts(skillNames, " ", k);
      ContainsTransitive(t, parts[3], skillNames[k]);
    }
    t
  }

  /** A word found in one of the copilot's fields, in any letter case:
      its name, description, id, or the name of one of its skills. */
  predicate InSomeField(c: Copilot, w: string) {
    || Contains(Lower(c.name.GetOr("")), w)
    || Contains(Lower(c.description.GetOr("")), w)
    || Contains(Lower(c.copilotId.GetOr("")), w)
    || exists k :: 0 <= k < |SkillsOf(c)| && Contains(Lower(SkillsOf(c)[k].name.GetOr("")), w)
  }

  predicate NoUpper(s: string) {
    forall i :: 0 <= i < |s| ==> !IsUpper(s[i])
  }

  lemma {:induction false} JoinLowerIsLower(parts: seq<string>, sep: string)
    requires NoUpper(sep)
    requires forall k :: 0 <= k < |parts| ==> NoUpper(parts[k])
    ensures NoUpper(Join(parts, sep))
    decreases |parts|
  {
    if |parts| > 1 {
      JoinLowerIsLower(parts[1..], sep);
    }
  }

  /** The search index built once at construction, one text per copilot. */
  function SearchIndex(copilots: seq<Copilot>): (texts: seq<string>)
    ensures |texts| == |copilots|
    ensures forall i :: 0 <= i < |copilots| ==> texts[i] == SearchText(copilots[i])
  {
    seq(|copilots|, i requires 0 <= i < |copilots| => SearchText(copilots[i]))
  }

  /** The constructor's loop that fills `searchable_texts`. */
  method BuildSearchIndex(copilots: seq<Copilot>) returns (texts: seq<string>)
    ensures texts == SearchIndex(copilots)
  {
    texts := [];
    for i := 0 to |copilots|
      invariant |texts| == i
      invariant forall j :: 0 <= j < i ==> texts[j] == SearchText(copilots[j])
    {
      texts := texts + [SearchText(copilots[i])];
    }
  }

  // ---------------------------------------------------------------- filter

  /** The tokens of a search term: the lowercased term split on whitespace. */
  function SearchTokens(term: string): seq<string> {
    Words(Lower(term))
  }

  /** Every token occurs somewhere in the text (AND across tokens, substring
      match per token). */
  predicate MatchesAll(text: string, tokens: seq<string>) {
    forall t :: t in tokens ==> Contains(text, t)
  }

  /** `list(range(n))` */
  function Range(n: nat): (r: seq<nat>)
    ensures |r| == n
    ensures forall i :: 0 <= i < n ==> r[i] == i
  {
    seq(n, i requires 0 <= i < n => i)
  }

  /** The positions below `k` whose text matches, in increasing order. */
  function MatchingBelow(texts: seq<string>, tokens: seq<string>, k: nat): seq<nat>
    requires k <= |texts|
  {
    if k == 0 then []
    else MatchingBelow(texts, tokens, k - 1) + (if MatchesAll(texts[k - 1], tokens) then [k - 1] else [])
  }

  /** The loop of `filter_copilots` that appends each matching position. */
  method MatchingPositions(texts: seq<string>, tokens: seq<string>) returns (positions: seq<nat>)
    ensures positions == MatchingBelow(texts, tokens, |texts|)
  {
    positions := [];
    for idx := 0 to |texts|
      invariant positions == MatchingBelow(texts, tokens, idx)
    {
      if MatchesAll(texts[idx], tokens) {
        positions := positions + [idx];
      }
    }
  }

  /** `filtered_indices` as `filter_copilots` computes it: all positions for an
      empty term, otherwise the positions whose text holds every token. */
  function Filtered(texts: seq<string>, term: string): seq<nat> {
    if term == "" then Range(|texts|)
    else MatchingBelow(texts, SearchTokens(term), |texts|)
  }

  predicate StrictlyIncreasing(s: seq<nat>) {
    forall i, j :: 0 <= i < j < |s| ==> s[i] < s[j]
  }

  predicate AllBelow(s: seq<nat>, n: nat) {
    forall i :: 0 <= i < |s| ==> s[i] < n
  }

  lemma {:induction false} MatchingBelowSpec(texts: seq<string>, tokens: seq<string>, k: nat)
    requires k <= |texts|
    ensures AllBelow(MatchingBelow(texts, tokens, k), k)
    ensures StrictlyIncreasing(MatchingBelow(texts, tokens, k))
    ensures forall i: nat :: i in MatchingBelow(texts, tokens, k) <==> i < k && MatchesAll(texts[i], tokens)
  {
    if k > 0 {
      MatchingBelowSpec(texts, tokens, k - 1);
    }
  }

  /** The filter rule, both directions: a position is listed iff it is a
      valid position whose search text contains every token of the term
      (an empty term has no tokens, so it lists every position); the list
      is strictly increasing, i.e. in original order without repeats. */
  lemma FilteredSpec(texts: seq<string>, term: string)
    ensures AllBelow(Filtered(texts, term), |texts|)
    ensures StrictlyIncreasing(Filtered(texts, term))
    ensures forall i: nat :: i in Filtered(texts, term) <==> i < |texts| && MatchesAll(texts[i], SearchTokens(term))
  {
    MatchingBelowSpec(texts, SearchTokens(term), |texts|);
    if term == "" {
      assert SearchTokens(term) == [];
      forall i: nat | i < |texts| ensures i in Filtered(texts, term) {
        assert Filtered(texts, term)[i] == i;
      }
    }
  }

  /** What the search finds: a term each of whose words occurs in one of a
      copilot's fields, in any letter case, shows that copilot. */
  lemma WordsInFieldsShow(copilots: seq<Copilot>, term: string, i: nat)
    requires i < |copilots|
    requires forall w :: w in SearchTokens(term) ==> InSomeField(copilots[i], w)
    ensures i in Filtered(SearchIndex(copilots), term)
  {
    var c := copilots[i];
    var text := SearchText(c);
    forall w | w in SearchTokens(term) ensures Contains(text, w) {
      if Contains(Lower(c.name.GetOr("")), w) {
        ContainsTransitive(text, Lower(c.name.GetOr("")), w);
      } else if Contains(Lower(c.description.GetOr("")), w) {
        ContainsTransitive(text, Lower(c.description.GetOr("")), w);
      } else if Contains(Lower(c.copilotId.GetOr("")), w) {
        ContainsTransitive(text, Lower(c.copilotId.GetOr("")), w);
      } else {
        var k :| 0 <= k < |SkillsOf(c)| && Contains(Lower(SkillsOf(c)[k].name.GetOr("")), w);
        ContainsTransitive(text, Lower(SkillsOf(c)[k].name.GetOr("")), w);
      }
    }
    FilteredSpec(SearchIndex(copilots), term);
  }

  /** A word without blanks in a copilot's search text comes from one of
      its fields: the blanks that join the fields cannot be part of it. */
  lemma TextWordInField(c: Copilot, w: string)
    requires |w| > 0 && forall i :: 0 <= i < |w| ==> !IsSpace(w[i])
    requires Contains(SearchText(c), w)
    ensures InSomeField(c, w)
  {
    var skillNames := SkillNames(SkillsOf(c));
    var parts := [Lower(c.name.GetOr("")), Lower(c.description.GetOr("")),
                  Lower(c.copilotId.GetOr("")), Join(skillNames, " ")];
    assert SearchText(c) == Join(parts, " ");
    JoinedWordInPart(parts, w);
    var k :| 0 <= k < |parts| && Contains(parts[k], w);
    if k == 3 {
      JoinedWordInPart(skillNames, w);
      var j :| 0 <= j < |skillNames| && Contains(skillNames[j], w);
      assert Contains(Lower(SkillsOf(c)[j].name.GetOr("")), w);
    }
  }

  /** The converse of WordsInFieldsShow: every word of the term of a shown
      copilot occurs in one of its fields. */
  lemma ShownWordsInFields(copilots: seq<Copilot>, term: string, i: nat)
    requires i in Filtered(SearchIndex(copilots), term)
    ensures i < |copilots|
    ensures forall w :: w in SearchTokens(term) ==> InSomeField(copilots[i], w)
  {
    FilteredSpec(SearchIndex(copilots), term);
    forall w | w in SearchTokens(term) ensures InSomeField(copilots[i], w) {
      var k :| 0 <= k < |SearchTokens(term)| && SearchTokens(term)[k] == w;
      TextWordInField(copilots[i], w);
    }
  }

  /** A term made of blanks only filters nothing out, like the empty term. */
  lemma BlankTermShowsAll(texts: seq<string>, term: string)
    requires forall i :: 0 <= i < |term| ==> IsSpace(term[i])
    ensures Filtered(texts, term) == Range(|texts|)
  {
    WordsOfBlank(Lower(term));
    FilteredSpec(texts, term);
    FilteredSpec(texts, "");
    var f, g := Filtered(texts, term), Range(|texts|);
    StrictlyIncreasingSameElements(f, g);
  }

  /** Two strictly increasing sequences with the same elements are equal. */
  lemma {:induction false} StrictlyIncreasingSameElements(a: seq<nat>, b: seq<nat>)
    requires StrictlyIncreasing(a) && StrictlyIncreasing(b)
    requires forall x :: x in a <==> x in b
    ensures a == b
    decreases |a| + |b|
  {
    assert a != [] ==> a[0] in b;
    assert b != [] ==> b[0] in a;
    if a != [] && b != [] {
      // the smallest element comes first in both
      var j :| 0 <= j < |b| && b[j] == a[0];
      var i :| 0 <= i < |a| && a[i] == b[0];
      assert b[0] <= a[0] && a[0] <= b[0];
      forall x ensures x in a[1..] <==> x in b[1..] {
        if x in a[1..] { assert x > a[0]; assert x in b; }
        if x in b[1..] { assert x > b[0]; assert x in a; }
      }
      StrictlyIncreasingSameElements(a[1..], b[1..]);
      assert a == [a[0]] + a[1..];
      assert b == [b[0]] + b[1..];
    }
  }

  // ---------------------------------------------------------------- selection sets

  function Elems(s: seq<nat>): set<nat> {
    set x | x in s
  }

  /** Space on one row: the row's position changes membership, nothing else does. */
  function Flip(s: set<nat>, x: nat): (r: set<nat>)
    ensures x in r <==> x !in s
    ensures forall y :: y != x ==> (y in r <==> y in s)
  {
    if x in s then s - {x} else s + {x}
  }

  /** Toggling the same row twice restores the selection. */
  lemma FlipTwice(s: set<nat>, x: nat)
    ensures Flip(Flip(s, x), x) == s
  {
  }

  /** `t`: every shown position changes membership, no other does. */
  function ToggledAll(s: set<nat>, shown: set<nat>): (r: set<nat>)
    ensures forall y :: y in r <==> ((y in s) != (y in shown))
  {
    (s - shown) + (shown - s)
  }

  /** Toggling one more row is one more Flip. */
  lemma ToggledAllSnoc(s: set<nat>, done: set<nat>, x: nat)
    requires x !in done
    ensures ToggledAll(s, done + {x}) == Flip(ToggledAll(s, done), x)
  {
  }

  /** In a strictly increasing list, no element occurs before its own place. */
  lemma StrictlyIncreasingFresh(s: seq<nat>, k: nat)
    requires StrictlyIncreasing(s) && k < |s|
    ensures s[k] !in Elems(s[..k])
  {
  }

  /** Toggling the rows of a strictly increasing list one more row at a time. */
  lemma ToggleOneMore(s: set<nat>, shown: seq<nat>, k: nat)
    requires StrictlyIncreasing(shown) && k < |shown|
    ensures ToggledAll(s, Elems(shown[..k + 1])) == Flip(ToggledAll(s, Elems(shown[..k])), shown[k])
  {
    assert Elems(shown[..k + 1]) == Elems(shown[..k]) + {shown[k]};
    StrictlyIncreasingFresh(shown, k);
    ToggledAllSnoc(s, Elems(shown[..k]), shown[k]);
  }

  /** Toggling all shown rows twice restores the selection. */
  lemma ToggledAllTwice(s: set<nat>, shown: set<nat>)
    ensures ToggledAll(ToggledAll(s, shown), shown) == s
  {
  }

  /** Selecting all shown rows and then deselecting all shown rows leaves no
      shown row selected and every other row as it was. */
  lemma SelectThenDeselectShown(s: set<nat>, shown: set<nat>)
    ensures (s + shown) - shown == s - shown
    ensures forall y :: y !in shown ==> (y in (s + shown) - shown <==> y in s)
  {
  }

  // ---------------------------------------------------------------- confirmed result

  /** The members of `s` below `n`, in increasing order (`sorted(s)`). */
  function AscendingBelow(s: set<nat>, n: nat): seq<nat> {
    if n == 0 then [] else AscendingBelow(s, n - 1) + (if n - 1 in s then [n - 1] else [])
  }

  lemma {:induction false} AscendingBelowSpec(s: set<nat>, n: nat)
    ensures AllBelow(AscendingBelow(s, n), n)
    ensures StrictlyIncreasing(AscendingBelow(s, n))
    ensures forall i: nat :: i in AscendingBelow(s, n) <==> i in s && i < n
  {
    if n > 0 {
      AscendingBelowSpec(s, n - 1);
    }
  }

  /** `[copilots[i] for i in sorted(selected)]` */
  function Chosen(copilots: seq<Copilot>, selected: set<nat>): seq<Copilot> {
    var order := AscendingBelow(selected, |copilots|);
    AscendingBelowSpec(selected, |copilots|);
    seq(|order|, k requires 0 <= k < |order| => copilots[order[k]])
  }

  /** What Enter returns: the copilots at the selected positions, each once,
      in input order, the records themselves unchanged. */
  lemma ChosenSpec(copilots: seq<Copilot>, selected: set<nat>)
    requires forall i :: i in selected ==> i < |copilots|
    ensures var order := AscendingBelow(selected, |copilots|);
      && AllBelow(order, |copilots|)
      && StrictlyIncreasing(order)
      && (forall i: nat :: i in order <==> i in selected)
      && |Chosen(copilots, selected)| == |order|
      && (forall k :: 0 <= k < |order| ==> Chosen(copilots, selected)[k] == copilots[order[k]])
  {
    AscendingBelowSpec(selected, |copilots|);
  }

  // ---------------------------------------------------------------- name groups

  /** The key a copilot is grouped under: its name, or "Unknown". */
  function GroupKey(c: Copilot): string {
    c.name.GetOr("Unknown")
  }

  /** The positions below `k` whose group key is `key`, in increasing order. */
  function NamedBelow(copilots: seq<Copilot>, key: string, k: nat): seq<nat>
    requires k <= |copilots|
  {
    if k == 0 then []
    else NamedBelow(copilots, key, k - 1) + (if GroupKey(copilots[k - 1]) == key then [k - 1] else [])
  }

  lemma {:induction false} NamedBelowSpec(copilots: seq<Copilot>, key: string, k: nat)
    requires k <= |copilots|
    ensures AllBelow(NamedBelow(copilots, key, k), k)
    ensures StrictlyIncreasing(NamedBelow(copilots, key, k))
    ensures forall i: nat :: i in NamedBelow(copilots, key, k) <==> i < k && GroupKey(copilots[i]) == key
  {
    if k > 0 {
      NamedBelowSpec(copilots, key, k - 1);
    }
  }

  function KeysBelow(copilots: seq<Copilot>, k: nat): set<string>
    requires k <= |copilots|
  {
    set i | 0 <= i < k :: GroupKey(copilots[i])
  }

  /** `name_groups`: every name that occurs, mapped to its positions. */
  function NameGroups(copilots: seq<Copilot>): map<string, seq<nat>> {
    map key | key in KeysBelow(copilots, |copilots|) :: NamedBelow(copilots, key, |copilots|)
  }

  /** The constructor's loop that fills `name_groups`. */
  method GroupByName(copilots: seq<Copilot>) returns (groups: map<string, seq<nat>>)
    ensures groups == NameGroups(copilots)
  {
    groups := map[];
    for idx := 0 to |copilots|
      invariant groups.Keys == KeysBelow(copilots, idx)
      invariant forall key :: key in groups ==> groups[key] == NamedBelow(copilots, key, idx)
    {
      var key := GroupKey(copilots[idx]);
      if key in groups {
        groups := groups[key := groups[key] + [idx]];
      } else {
        groups := groups[key := [idx]];
      }
      assert KeysBelow(copilots, idx + 1) == KeysBelow(copilots, idx) + {key};
      forall other | other in groups ensures groups[other] == NamedBelow(copilots, other, idx + 1) {
        if other != key {
          assert other in KeysBelow(copilots, idx);
        } else if key !in KeysBelow(copilots, idx) {
          NamedBelowEmpty(copilots, key, idx);
        }
      }
    }
  }

  lemma {:induction false} NamedBelowEmpty(copilots: seq<Copilot>, key: string, k: nat)
    requires k <= |copilots|
    requires key !in KeysBelow(copilots, k)
    ensures NamedBelow(copilots, key, k) == []
  {
    if k > 0 {
      assert GroupKey(copilots[k - 1]) in KeysBelow(copilots, k);
      assert key !in KeysBelow(copilots, k - 1);
      NamedBelowEmpty(copilots, key, k - 1);
    }
  }

  /** Another copilot is grouped under the same name. */
  predicate SharesName(copilots: seq<Copilot>, i: nat)
    requires i < |copilots|
  {
    exists j :: 0 <= j < |copilots| && j != i && GroupKey(copilots[j]) == GroupKey(copilots[i])
  }

  /** A copilot is marked as a duplicate iff its group has another member,
      i.e. iff some other copilot has the same group key. */
  lemma DuplicateMarkerSpec(copilots: seq<Copilot>, i: nat)
    requires i < |copilots|
    ensures GroupKey(copilots[i]) in NameGroups(copilots)
    ensures |NameGroups(copilots)[GroupKey(copilots[i])]| > 1 <==> SharesName(copilots, i)
  {
    var key := GroupKey(copilots[i]);
    assert key in KeysBelow(copilots, |copilots|);
    var g := NamedBelow(copilots, key, |copilots|);
    NamedBelowSpec(copilots, key, |copilots|);
    assert i in g;
    if |g| > 1 {
      var j := if g[0] != i then g[0] else g[1];
      assert j in g;
      assert g[0] < g[1];
    }
    if exists j :: 0 <= j < |copilots| && j != i && GroupKey(copilots[j]) == key {
      var j :| 0 <= j < |copilots| && j != i && GroupKey(copilots[j]) == key;
      assert j in g;
      var p :| 0 <= p < |g| && g[p] == i;
      var q :| 0 <= q < |g| && g[q] == j;
      assert p != q;
    }
  }

  // ---------------------------------------------------------------- display line

  /** A text longer than `maxLen` is cut to `maxLen - 3` characters and "..." */
  function Truncated(s: string, maxLen: nat): (r: string)
    requires maxLen >= 3
    ensures |r| <= maxLen
    ensures |s| <= maxLen ==> r == s
    ensures |s| > maxLen ==> |r| == maxLen && r[..maxLen - 3] == s[..maxLen - 3] && r[maxLen - 3..] == "..."
  {
    if |s| > maxLen then s[..maxLen - 3] + "..." else s
  }

  /** Truncating an already truncated text changes nothing. */
  lemma TruncatedIdempotent(s: string, maxLen: nat)
    requires maxLen >= 3
    ensures Truncated(Truncated(s, maxLen), maxLen) == Truncated(s, maxLen)
  {
  }

  /** The position of the first '-' in `s`, or |s| when there is none. */
  function FirstDash(s: string): (k: nat)
    ensures k <= |s|
    ensures forall i :: 0 <= i < k ==> s[i] != '-'
    ensures k < |s| ==> s[k] == '-'
  {
    if s == [] || s[0] == '-' then 0 else 1 + FirstDash(s[1..])
  }

  /** `id.split('-')[0] if '-' in id else id[:8]` */
  function ShortId(id: string): (r: string)
    ensures r <= id
    ensures forall i :: 0 <= i < |r| ==> r[i] != '-'
    ensures '-' in id ==> |r| < |id| && id[|r|] == '-'
    ensures '-' !in id ==> |r| == if |id| < 8 then |id| else 8
  {
    var k := FirstDash(id);
    if k < |id| then id[..k]
    else (if |id| < 8 then id else id[..8])
  }

  /** "1 skill", "2 skills", "0 skills" */
  function SkillText(count: nat): (r: string)
    ensures NatToString(count) <= r
    ensures count == 1 <==> r[|r| - 1] != 's'
  {
    NatToString(count) + (if count != 1 then " skills" else " skill")
  }

  /** The ⚠️ marker shown after a duplicated name. */
  const DuplicateMarker: string := " \U{26A0}\U{FE0F}"
  const Bullet: string := " \U{2022} "

  /** `get_display_info` without the search highlight: name, duplicate marker,
      skill count, description cut to 35 characters, and the short id. */
  function DisplayInfo(c: Copilot, duplicated: bool): (r: string)
    ensures c.name.GetOr("Unknown") <= r
    ensures duplicated <==> DuplicateMarker <= r[|c.name.GetOr("Unknown")|..]
    ensures Contains(r, Bullet + SkillText(|SkillsOf(c)|) + Bullet)
    ensures EndsWith(r, Bullet + "ID: " + ShortId(c.copilotId.GetOr("Unknown ID")))
    ensures EndsWith(r, Bullet + Truncated(c.description.GetOr("No description"), 35)
                        + (Bullet + "ID: " + ShortId(c.copilotId.GetOr("Unknown ID"))))
  {
    var name := c.name.GetOr("Unknown");
    var marker := if duplicated then DuplicateMarker else "";
    var count := SkillText(|SkillsOf(c)|);
    var desc := Truncated(c.description.GetOr("No description"), 35);
    var idTail := Bullet + "ID: " + ShortId(c.copilotId.GetOr("Unknown ID"));
    DisplayLineParts(name, marker, Bullet, count, desc, idTail);
    MarkerIff(duplicated, Bullet + count + Bullet + desc + idTail);
    name + marker + Bullet + count + Bullet + desc + idTail
  }

  /** `s` ends with `t`. */
  predicate EndsWith(s: string, t: string) {
    |t| <= |s| && s[|s| - |t|..] == t
  }

  /** How the pieces of a display line sit in it. */
  lemma DisplayLineParts(name: string, marker: string, sep: string, count: string, desc: string, idTail: string)
    ensures var r := name + marker + sep + count + sep + desc + idTail;
      && name <= r
      && r[|name|..] == marker + (sep + count + sep + desc + idTail)
      && Contains(r, sep + count + sep)
      && EndsWith(r, idTail)
      && EndsWith(r, sep + desc + idTail)
  {
    var r := name + marker + sep + count + sep + desc + idTail;
    assert r == (name + marker) + (sep + count + sep) + (desc + idTail);
    ContainsMiddle(name + marker, sep + count + sep, desc + idTail);
    assert r == (name + marker + sep + count) + (sep + desc + idTail);
  }

  /** The marker is there exactly when it was added: what follows the name
      otherwise starts with a bullet. */
  lemma MarkerIff(duplicated: bool, rest: string)
    requires |rest| >= 2 && rest[1] == '\U{2022}'
    ensures duplicated <==> DuplicateMarker <= (if duplicated then DuplicateMarker else "") + rest
  {
    if !duplicated {
      assert ("" + rest)[1] != DuplicateMarker[1];
    }
  }
}
