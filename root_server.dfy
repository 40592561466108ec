/** The stand-alone MCP server script: the tool name it derives from a
    skill's name, the parameter dictionaries it reads from a skill and
    turns into tool parameters, and the filter applied to a call's keyword
    arguments. Platform objects are datatypes; a Python attribute can be
    missing, `None`, or hold a value. */
module RootServer {
  import opened Wrappers
  import opened PyText
  import opened JsonValue

  // ---------------------------------------------------------------- tool name

  /** The characters a safe tool name consists of. */
  predicate IsSafeChar(c: char) {
    IsLower(c) || IsDigit(c) || c == '_'
  }

  /** `c if c.isalnum() or c == '_' else '_'` */
  function SafeChar(c: char): (r: char)
    ensures IsAlnum(c) || c == '_' ==> r == c
    ensures !(IsAlnum(c) || c == '_') ==> r == '_'
  {
    if IsAlnum(c) || c == '_' then c else '_'
  }

  /** `"".join(SafeChar(c) for c in s)` */
  function SafeChars(s: string): (r: string)
    ensures |r| == |s|
    ensures forall i :: 0 <= i < |s| ==> r[i] == SafeChar(s[i])
  {
    seq(|s|, i requires 0 <= i < |s| => SafeChar(s[i]))
  }

  predicate IsUnderscore(c: char) {
    c == '_'
  }

  /** The name lowercased, with every character other than a letter, a
      digit or '_' turned into '_', and stripped of '_' at both ends. */
  function Sanitised(skillName: string): (r: string)
    ensures forall i :: 0 <= i < |r| ==> IsSafeChar(r[i])
    ensures r == [] || (r[0] != '_' && r[|r| - 1] != '_')
  {
    var mapped := SafeChars(Lower(skillName));
    assert forall i :: 0 <= i < |mapped| ==> IsSafeChar(mapped[i]);
    TrimEnd(TrimStart(mapped, IsUnderscore), IsUnderscore)
  }

  /** What is left of the name is a slice of the mapped name with only '_'
      outside it. */
  lemma SanitisedSpec(skillName: string)
    ensures var m := SafeChars(Lower(skillName));
      exists a, b :: 0 <= a <= b <= |m| && Sanitised(skillName) == m[a..b]
        && (forall i :: 0 <= i < a ==> m[i] == '_')
        && (forall i :: b <= i < |m| ==> m[i] == '_')
  {
    var m := SafeChars(Lower(skillName));
    var a, b := TrimBothSlice(m, IsUnderscore);
    assert Sanitised(skillName) == m[a..b];
    assert forall i :: 0 <= i < a ==> m[i] == '_';
    assert forall i :: b <= i < |m| ==> m[i] == '_';
  }

  /** A name with a letter or a digit leaves that character, so the name
      is not empty once sanitised. */
  lemma SanitisedKeepsAlnum(skillName: string, i: nat)
    requires i < |skillName| && IsAlnum(skillName[i])
    ensures Sanitised(skillName) != []
  {
    var m := SafeChars(Lower(skillName));
    var a, b := TrimBothSlice(m, IsUnderscore);
    assert !IsUnderscore(m[i]);
    assert a <= i < b;
  }

  /** The tool name as the script computes it: the sanitised skill name, or
      "skill_" followed by the skill id when nothing is left of the name. */
  function SafeToolNameAsWritten(skillName: string, skillId: string): (r: string)
    ensures Sanitised(skillName) != [] ==> r == Sanitised(skillName)
    ensures Sanitised(skillName) == [] ==> r == "skill_" + skillId
  {
    var safe := Sanitised(skillName);
    if safe == [] then "skill_" + skillId else safe
  }

  /** A one-character name that is neither a letter, a digit nor '_'
      leaves nothing once sanitised. */
  lemma NothingLeftOfSymbol(c: char)
    requires !IsAlnum(c) && c != '_'
    ensures Sanitised([c]) == []
  {
    assert Lower([c]) == [c];
    var mapped := SafeChars([c]);
    assert mapped == "_";
    assert mapped[1..] == [];
    assert TrimStart(mapped, IsUnderscore) == [];
  }

  /** The fallback is not sanitised: a skill whose name has no letter or
      digit (a single emoji, say) and whose id is a UUID gets a tool name
      with hyphens, against the rule "letters, digits and underscores only". */
  lemma SafeToolNameAsWrittenKeepsHyphens()
    ensures SafeToolNameAsWritten("\U{1F680}", "3f2a-77c1") == "skill_3f2a-77c1"
    ensures !IsSafeChar(SafeToolNameAsWritten("\U{1F680}", "3f2a-77c1")[10])
  {
    NothingLeftOfSymbol('\U{1F680}');
    assert "\U{1F680}" == ['\U{1F680}'];
    var name := "skill_" + "3f2a-77c1";
    assert name[10] == '-';
  }

  /** The fallback name "skill_" and the skill id, with the id sanitised
      character by character like the name. */
  function FallbackToolName(skillId: string): (r: string)
    ensures |r| == 6 + |skillId| && "skill_" <= r
    ensures forall i :: 0 <= i < |r| ==> IsSafeChar(r[i])
  {
    var tail := SafeChars(Lower(skillId));
    assert forall i :: 0 <= i < |tail| ==> IsSafeChar(tail[i]);
    "skill_" + tail
  }

  /** The tool name with the fallback sanitised like the name itself. */
  function SafeToolName(skillName: string, skillId: string): (r: string)
    ensures r != []
    ensures forall i :: 0 <= i < |r| ==> IsSafeChar(r[i])
    ensures Sanitised(skillName) != [] ==> r == Sanitised(skillName) && r[0] != '_' && r[|r| - 1] != '_'
    ensures Sanitised(skillName) == [] ==> r == FallbackToolName(skillId)
  {
    var safe := Sanitised(skillName);
    if safe == [] then FallbackToolName(skillId) else safe
  }

  /** The corrected name differs from the written one only in the fallback. */
  lemma SafeToolNameAgrees(skillName: string, skillId: string)
    requires Sanitised(skillName) != [] || forall i :: 0 <= i < |skillId| ==> IsSafeChar(skillId[i])
    ensures SafeToolName(skillName, skillId) == SafeToolNameAsWritten(skillName, skillId)
  {
    if Sanitised(skillName) == [] {
      assert SafeChars(Lower(skillId)) == skillId;
      assert FallbackToolName(skillId) == "skill_" + skillId;
    }
  }

  /** A name that is already safe is its own tool name, so computing the
      tool name of a tool name changes nothing. */
  lemma SafeNameIsFixedPoint(name: string, skillId: string)
    requires name != [] && name[0] != '_' && name[|name| - 1] != '_'
    requires forall i :: 0 <= i < |name| ==> IsSafeChar(name[i])
    ensures SafeToolName(name, skillId) == name
  {
    var mapped := SafeChars(Lower(name));
    assert mapped == name;
    assert TrimStart(mapped, IsUnderscore) == mapped;
    assert TrimEnd(mapped, IsUnderscore) == mapped;
  }

  // ---------------------------------------------------------------- tool parameters

  /** One value of a skill's parameter dictionary: a dict, a plain string,
      or anything else. */
  datatype ParamInfo = InfoDict(fields: map<string, Json>) | InfoStr(s: string) | InfoOther

  /** The entry the script builds for one tool parameter. */
  datatype ToolParameter = ToolParameter(mcpType: string, description: Json, required: Json)

  /** The body of the loop in `create_skill_tool_with_annotations`: a dict
      supplies description, type and required flag (defaults "", "string"
      and False), a string is the description, anything else keeps the
      defaults; only "array" stays an array, every other type is "string". */
  function ToolParameterOf(info: ParamInfo): (r: ToolParameter)
    ensures r.mcpType == "array" || r.mcpType == "string"
    ensures r.mcpType == "array" <==> info.InfoDict? && Get(info.fields, "type", JStr("string")) == JStr("array")
    ensures info.InfoDict? ==>
      r.description == Get(info.fields, "description", JStr("")) &&
      r.required == Get(info.fields, "required", JBool(false))
    ensures info.InfoStr? ==> r.description == JStr(info.s) && r.required == JBool(false)
    ensures info.InfoOther? ==> r.description == JStr("") && r.required == JBool(false)
  {
    var (description, paramType, required) :=
      match info
      case InfoDict(fields) =>
        (Get(fields, "description", JStr("")), Get(fields, "type", JStr("string")), Get(fields, "required", JBool(false)))
      case InfoStr(s) => (JStr(s), JStr("string"), JBool(false))
      case InfoOther => (JStr(""), JStr("string"), JBool(false));
    ToolParameter(if paramType == JStr("array") then "array" else "string", description, required)
  }

  /** The loop over the skill's parameter dictionary (its iteration order
      does not matter: every name is handled once). */
  method MapParameters(skillParameters: map<string, ParamInfo>) returns (toolParameters: map<string, ToolParameter>)
    ensures toolParameters.Keys == skillParameters.Keys
    ensures forall name :: name in skillParameters ==> toolParameters[name] == ToolParameterOf(skillParameters[name])
  {
    toolParameters := map[];
    var remaining := skillParameters.Keys;
    while remaining != {}
      invariant remaining <= skillParameters.Keys
      invariant toolParameters.Keys == skillParameters.Keys - remaining
      invariant forall name :: name in toolParameters ==> toolParameters[name] == ToolParameterOf(skillParameters[name])
      decreases remaining
    {
      var paramName :| paramName in remaining;
      var paramInfo := skillParameters[paramName];
      var paramDescription: Json := JStr("");
      var paramType: Json := JStr("string");
      var required: Json := JBool(false);
      if paramInfo.InfoDict? {
        paramDescription := Get(paramInfo.fields, "description", JStr(""));
        paramType := Get(paramInfo.fields, "type", JStr("string"));
        required := Get(paramInfo.fields, "required", JBool(false));
      } else if paramInfo.InfoStr? {
        paramDescription := JStr(paramInfo.s);
      }
      var mcpType := if paramType == JStr("array") then "array" else "string";
      toolParameters := toolParameters[paramName := ToolParameter(mcpType, paramDescription, required)];
      remaining := remaining - {paramName};
    }
  }

  /** The keyword arguments handed to the skill: those the skill declares,
      or all of them when it declares none. */
  function FilterKwargs(kwargs: map<string, Json>, skillParameters: map<string, ParamInfo>): (r: map<string, Json>)
    ensures skillParameters == map[] ==> r == kwargs
    ensures skillParameters != map[] ==> r.Keys == kwargs.Keys * skillParameters.Keys
    ensures forall k :: k in r ==> k in kwargs && r[k] == kwargs[k]
  {
    if skillParameters != map[] then map k | k in kwargs && k in skillParameters :: kwargs[k]
    else kwargs
  }

  /** Filtering twice is filtering once. */
  lemma FilterKwargsIdempotent(kwargs: map<string, Json>, skillParameters: map<string, ParamInfo>)
    ensures FilterKwargs(FilterKwargs(kwargs, skillParameters), skillParameters) == FilterKwargs(kwargs, skillParameters)
  {
  }

  // ---------------------------------------------------------------- parameters listed on the skill

  /** A Python attribute read with `getattr`: missing, `None`, or a value. */
  datatype PyAttr<T> = Absent | PyNone | Has(value: T)

  /** A parameter object in a skill's parameter list. */
  datatype VendorParam = VendorParam(
    name: PyAttr<string>,
    isMulti: PyAttr<bool>,
    description: PyAttr<string>,
    required: PyAttr<bool>)

  /** `str(getattr(param, attr, default))`: `None` prints as "None". */
  function StrAttr(a: PyAttr<string>, default: string): (r: string)
    ensures a.Absent? ==> r == default
    ensures a.PyNone? ==> r == "None"
    ensures a.Has? ==> r == a.value
  {
    match a
    case Absent => default
    case PyNone => "None"
    case Has(s) => s
  }

  /** `bool(getattr(param, attr, False))` */
  function BoolAttr(a: PyAttr<bool>): (r: bool)
    ensures r <==> a == Has(true)
  {
    a.Has? && a.value
  }

  /** The dict the list branch stores for one parameter object. */
  function ParamConfig(p: VendorParam): (r: map<string, Json>)
    ensures r.Keys == {"type", "description", "required"}
    ensures r["type"] == JStr(if BoolAttr(p.isMulti) then "array" else "string")
    ensures r["description"] == JStr(StrAttr(p.description, ""))
    ensures r["required"] == JBool(BoolAttr(p.required))
  {
    var isMulti := BoolAttr(p.isMulti);
    var paramType := if isMulti then "array" else "string";
    map["type" := JStr(paramType), "description" := JStr(StrAttr(p.description, "")), "required" := JBool(BoolAttr(p.required))]
  }

  /** The dictionary the list branch builds: objects without a `name`
      attribute are skipped, and a later object with the same name
      replaces an earlier one. */
  function ListParameters(params: seq<VendorParam>): map<string, ParamInfo>
    decreases |params|
  {
    if params == [] then map[]
    else
      var last := params[|params| - 1];
      var before := ListParameters(params[..|params| - 1]);
      if last.name.Absent? then before
      else before[StrAttr(last.name, "") := InfoDict(ParamConfig(last))]
  }

  /** The list branch of `extract_skill_parameters`. */
  method ExtractListParameters(skillParams: seq<VendorParam>) returns (parameters: map<string, ParamInfo>)
    ensures parameters == ListParameters(skillParams)
  {
    parameters := map[];
    for k := 0 to |skillParams|
      invariant parameters == ListParameters(skillParams[..k])
    {
      var param := skillParams[k];
      assert skillParams[..k + 1][..k] == skillParams[..k];
      if !param.name.Absent? {
        var paramName := StrAttr(param.name, "");
        var isMulti := BoolAttr(param.isMulti);
        var paramType := if isMulti then "array" else "string";
        var paramConfig := map[
          "type" := JStr(paramType),
          "description" := JStr(StrAttr(param.description, "")),
          "required" := JBool(BoolAttr(param.required))];
        parameters := parameters[paramName := InfoDict(paramConfig)];
      }
    }
    assert skillParams[..|skillParams|] == skillParams;
  }

  /** The names in the dictionary are those of the objects that have a
      `name` attribute. */
  lemma {:induction false} ListParametersKeys(params: seq<VendorParam>)
    ensures ListParameters(params).Keys ==
      set i | 0 <= i < |params| && !params[i].name.Absent? :: StrAttr(params[i].name, "")
    decreases |params|
  {
    if params != [] {
      ListParametersKeys(params[..|params| - 1]);
      NamesOfSnoc(params);
    }
  }

  /** The names of a list of objects are those of all but the last, and
      the last one's name when it has one. */
  lemma NamesOfSnoc(params: seq<VendorParam>)
    requires params != []
    ensures var init := params[..|params| - 1];
      var last := params[|params| - 1];
      (set i | 0 <= i < |params| && !params[i].name.Absent? :: StrAttr(params[i].name, ""))
        == (set i | 0 <= i < |init| && !init[i].name.Absent? :: StrAttr(init[i].name, ""))
           + (if last.name.Absent? then {} else {StrAttr(last.name, "")})
  {
    var init := params[..|params| - 1];
    var last := params[|params| - 1];
    var names := set i | 0 <= i < |params| && !params[i].name.Absent? :: StrAttr(params[i].name, "");
    var initNames := set i | 0 <= i < |init| && !init[i].name.Absent? :: StrAttr(init[i].name, "");
    forall x | x in names
      ensures x in initNames + (if last.name.Absent? then {} else {StrAttr(last.name, "")})
    {
      var i :| 0 <= i < |params| && !params[i].name.Absent? && StrAttr(params[i].name, "") == x;
      if i < |init| {
        assert init[i] == params[i];
      }
    }
    forall x | x in initNames
      ensures x in names
    {
      var i :| 0 <= i < |init| && !init[i].name.Absent? && StrAttr(init[i].name, "") == x;
      assert params[i] == init[i];
    }
  }

  /** What the tool gets for a parameter listed on the skill: an array
      exactly when the object is multi-valued, its description as a
      string, and required only when the object says so. */
  lemma {:induction false} ListParameterBecomesTool(params: seq<VendorParam>, i: nat)
    requires i < |params| && !params[i].name.Absent?
    requires forall j :: i < j < |params| ==> params[j].name.Absent? || StrAttr(params[j].name, "") != StrAttr(params[i].name, "")
    ensures StrAttr(params[i].name, "") in ListParameters(params)
    ensures ToolParameterOf(ListParameters(params)[StrAttr(params[i].name, "")]) ==
      ToolParameter(
        if BoolAttr(params[i].isMulti) then "array" else "string",
        JStr(StrAttr(params[i].description, "")),
        JBool(BoolAttr(params[i].required)))
    decreases |params|
  {
    var init := params[..|params| - 1];
    if i < |init| {
      ListParameterBecomesTool(init, i);
    }
  }
}
