/** The selector for terminals without a TUI: a numbered listing, one answer
    line of comma-separated numbers (or "all"), and the copilots those
    numbers name. Reading the line and printing are not modelled; the line
    is a parameter and the JSON that would be printed is the result. */
module SimpleSelect {
  import opened Wrappers
  import opened PyText
  import opened Copilots

  // ---------------------------------------------------------------- listing

  /** Descriptions in the listing are cut to this many characters. */
  const ListingDescriptionLength := 40

  /** The description shown for a copilot in `display_copilots`. */
  function ListingDescription(c: Copilot): (r: string)
    ensures |r| <= ListingDescriptionLength
    ensures var d := c.description.GetOr("No description");
      (|d| <= 40 ==> r == d) && (|d| > 40 ==> r == d[..37] + "...")
  {
    var d := c.description.GetOr("No description");
    var r := Truncated(d, ListingDescriptionLength);
    assert |d| > 40 ==> r == r[..37] + r[37..];
    r
  }

  // ---------------------------------------------------------------- get_selection

  /** A token's contribution to the selection, from its parse: the number
      when it is an integer in 1..maxNum, nothing otherwise (a ValueError
      is skipped). */
  function Pick(parsed: Option<int>, maxNum: int): (r: seq<int>)
    ensures |r| <= 1
    ensures forall n :: n in r ==> 1 <= n <= maxNum
    ensures r != [] <==> parsed.Some? && 1 <= parsed.value <= maxNum
    ensures r != [] ==> r == [parsed.value]
  {
    match parsed
    case Some(n) => if 1 <= n <= maxNum then [n] else []
    case None => []
  }

  /** The numbers kept from the parsed tokens, in the order typed. */
  function ValidNumbers(parses: seq<Option<int>>, maxNum: int): seq<int>
    decreases |parses|
  {
    if parses == [] then []
    else Pick(parses[0], maxNum) + ValidNumbers(parses[1..], maxNum)
  }

  /** `list(range(1, max_num + 1))` */
  function OneTo(maxNum: int): (r: seq<int>)
    ensures |r| == if maxNum > 0 then maxNum else 0
    ensures forall k :: 0 <= k < |r| ==> r[k] == k + 1
  {
    if maxNum > 0 then seq(maxNum, k requires 0 <= k < maxNum => k + 1) else []
  }

  /** What `get_selection` returns for the answer line `line`. */
  function Selection(line: string, maxNum: int): seq<int> {
    var userInput := Strip(line);
    if Lower(userInput) == "all" then OneTo(maxNum)
    else ValidNumbers(TokenValues(SplitOn(userInput, ',')), maxNum)
  }

  /** `get_selection`, after the answer line has been read. */
  method GetSelection(line: string, maxNum: int) returns (selected: seq<int>)
    ensures selected == Selection(line, maxNum)
  {
    var userInput := Strip(line);
    if Lower(userInput) == "all" {
      return OneTo(maxNum);
    }
    selected := KeepValidNumbers(SplitOn(userInput, ','), maxNum);
  }

  /** The loop of `get_selection` over the comma-separated tokens. */
  method KeepValidNumbers(tokens: seq<string>, maxNum: int) returns (selected: seq<int>)
    ensures selected == ValidNumbers(TokenValues(tokens), maxNum)
  {
    selected := [];
    for k := 0 to |tokens|
      invariant selected == ValidNumbers(TokenValues(tokens[..k]), maxNum)
    {
      var parsed := TokenValue(tokens[k]);
      TokenValuesSnoc(tokens, k);
      ValidNumbersAppend(TokenValues(tokens[..k]), [parsed], maxNum);
      ValidNumbersOne(parsed, maxNum);
      if parsed.Some? {
        var n := parsed.value;
        if 1 <= n <= maxNum {
          selected := selected + [n];
        }
      }
    }
    assert tokens[..|tokens|] == tokens;
  }

  /** Parsing one more token appends its parse. */
  lemma TokenValuesSnoc(tokens: seq<string>, k: nat)
    requires k < |tokens|
    ensures TokenValues(tokens[..k + 1]) == TokenValues(tokens[..k]) + [TokenValue(tokens[k])]
  {
    MapSeqSnoc(TokenValue, tokens, k);
  }

  lemma ValidNumbersOne(parsed: Option<int>, maxNum: int)
    ensures ValidNumbers([parsed], maxNum) == Pick(parsed, maxNum)
  {
    assert [parsed][1..] == [];
  }

  /** Every number kept is between 1 and maxNum. */
  lemma {:induction false} ValidNumbersInRange(parses: seq<Option<int>>, maxNum: int)
    ensures forall k :: 0 <= k < |ValidNumbers(parses, maxNum)| ==>
      1 <= ValidNumbers(parses, maxNum)[k] <= maxNum
    decreases |parses|
  {
    if parses != [] {
      ValidNumbersInRange(parses[1..], maxNum);
    }
  }

  /** The selection is always within 1..maxNum, "all" included. */
  lemma SelectionInRange(line: string, maxNum: int)
    ensures forall k :: 0 <= k < |Selection(line, maxNum)| ==> 1 <= Selection(line, maxNum)[k] <= maxNum
  {
    ValidNumbersInRange(TokenValues(SplitOn(Strip(line), ',')), maxNum);
  }

  /** `all` in any letter case and with surrounding blanks is 1..maxNum. */
  lemma SelectionAll(line: string, maxNum: int)
    requires Lower(Strip(line)) == "all"
    ensures Selection(line, maxNum) == OneTo(maxNum)
  {
  }

  /** Tokens are handled one at a time: the numbers kept from a
      concatenation are those kept from each part, in order, so the order
      typed and repeated numbers are kept. */
  lemma {:induction false} ValidNumbersAppend(a: seq<Option<int>>, b: seq<Option<int>>, maxNum: int)
    ensures ValidNumbers(a + b, maxNum) == ValidNumbers(a, maxNum) + ValidNumbers(b, maxNum)
    decreases |a|
  {
    if a == [] {
      assert a + b == b;
    } else {
      assert (a + b)[1..] == a[1..] + b;
      ValidNumbersAppend(a[1..], b, maxNum);
    }
  }

  /** A token that is not an integer, or an integer out of range, is
      skipped without affecting the others. */
  lemma SkippedToken(a: seq<Option<int>>, bad: Option<int>, b: seq<Option<int>>, maxNum: int)
    requires bad.None? || !(1 <= bad.value <= maxNum)
    ensures ValidNumbers(a + [bad] + b, maxNum) == ValidNumbers(a + b, maxNum)
  {
    ValidNumbersOne(bad, maxNum);
    ValidNumbersAppend(a, [bad], maxNum);
    ValidNumbersAppend(a + [bad], b, maxNum);
    ValidNumbersAppend(a, b, maxNum);
  }

  /** Typing numbers in 1..maxNum separated by commas selects exactly those
      numbers, in order and with repeats. */
  lemma SelectionOfTypedNumbers(ns: seq<nat>, maxNum: int)
    requires |ns| >= 1
    requires forall k :: 0 <= k < |ns| ==> 1 <= ns[k] <= maxNum
    ensures Selection(NumbersLine(ns), maxNum) == ns
  {
    NumbersLineSplits(ns);
    var parses := TokenValues(SplitOn(NumbersLine(ns), ','));
    KeptNumbers(parses, ns, maxNum);
  }

  /** Parses that are all in-range numbers are all kept, in order. */
  lemma {:induction false} KeptNumbers(parses: seq<Option<int>>, ns: seq<nat>, maxNum: int)
    requires |parses| == |ns|
    requires forall k :: 0 <= k < |ns| ==> parses[k] == Some(ns[k] as int)
    requires forall k :: 0 <= k < |ns| ==> 1 <= ns[k] <= maxNum
    ensures ValidNumbers(parses, maxNum) == ns
    decreases |parses|
  {
    if parses != [] {
      KeptNumbers(parses[1..], ns[1..], maxNum);
      assert Pick(parses[0], maxNum) == [ns[0]];
      assert [ns[0]] + ns[1..] == ns;
    }
  }

  // ---------------------------------------------------------------- main

  /** The JSON document read at start-up: a list of copilot records, or
      anything else. */
  datatype Input = CopilotList(items: seq<Copilot>) | NotAList

  /** How `main` ends: an error exit with its message, or the selected
      copilots printed as JSON. */
  datatype Exit = Error(message: string) | Printed(selected: seq<Copilot>)

  /** `[copilot_data[i-1] for i in selected_indices]` */
  function Mapped(data: seq<Copilot>, numbers: seq<int>): (r: seq<Copilot>)
    requires forall k :: 0 <= k < |numbers| ==> 1 <= numbers[k] <= |data|
    ensures |r| == |numbers|
    ensures forall k :: 0 <= k < |numbers| ==> r[k] == data[numbers[k] - 1]
  {
    seq(|numbers|, k requires 0 <= k < |numbers| => data[numbers[k] - 1])
  }

  /** `main` after the JSON was loaded: the list checks, the selection
      and the mapping from 1-based numbers to records. */
  method SelectCopilots(input: Input, line: string) returns (exit: Exit)
    ensures input.NotAList? ==> exit == Error("Error: Expected a list of copilots")
    ensures input.CopilotList? && input.items == [] ==> exit == Error("Error: No copilots found")
    ensures input.CopilotList? && input.items != [] && Selection(line, |input.items|) == [] ==>
      exit == Error("No copilots selected")
    ensures input.CopilotList? && input.items != [] && Selection(line, |input.items|) != [] ==> exit.Printed?
    ensures exit.Printed? ==> input.CopilotList? && input.items != []
    ensures exit.Printed? ==>
      var numbers := Selection(line, |input.items|);
      && numbers != []
      && |exit.selected| == |numbers|
      && (forall k :: 0 <= k < |numbers| ==> 1 <= numbers[k] <= |input.items|)
      && (forall k :: 0 <= k < |numbers| ==> exit.selected[k] == input.items[numbers[k] - 1])
  {
    if input.NotAList? {
      return Error("Error: Expected a list of copilots");
    }
    var copilotData := input.items;
    if copilotData == [] {
      return Error("Error: No copilots found");
    }
    var selectedIndices := GetSelection(line, |copilotData|);
    if selectedIndices == [] {
      return Error("No copilots selected");
    }
    SelectionInRange(line, |copilotData|);
    exit := Printed(Mapped(copilotData, selectedIndices));
  }
}
