/** The records the MCP server derives from the platform's skill objects:
    `SkillParameter` (one input of a skill tool) and `SkillConfig` (one
    skill registered as a tool). The platform's objects are datatypes whose
    attributes are `None` when the platform leaves them unset. */
module McpModels {
  import opened Wrappers
  import opened PyText

  /** A skill parameter as the platform returns it. */
  datatype MaxParameter = MaxParameter(
    name: Option<string>,
    value: Option<string>,
    isMulti: Option<bool>,
    description: Option<string>,
    llmDescription: Option<string>,
    constrainedValues: Option<seq<string>>)

  /** The Python type a tool argument is declared with: `str` or `List[str]`. */
  datatype TypeHint = Str | ListOfStr

  /** One input of a skill tool. */
  datatype SkillParameter = SkillParameter(
    name: string,
    typeHint: TypeHint,
    description: Option<string>,
    required: bool,
    isMulti: bool,
    constrainedValues: Option<seq<string>>)

  /** A skill as the platform returns it; only the attributes the server reads. */
  datatype MaxSkill = MaxSkill(
    skillId: string,
    name: string,
    description: Option<string>,
    detailedDescription: Option<string>,
    parameters: Option<seq<MaxParameter>>)

  /** One skill registered as a tool, with its converted parameters. */
  datatype SkillConfig = SkillConfig(skill: MaxSkill, parameters: seq<SkillParameter>, copilotId: string)

  /** Python truthiness of an optional string: present and not empty. */
  predicate Truthy(s: Option<string>) {
    s.Some? && s.value != ""
  }

  /** Python truthiness of an optional list of strings. */
  predicate TruthyList(xs: Option<seq<string>>) {
    xs.Some? && xs.value != []
  }

  /** `bool(x)` for an optional flag: `None` is false. */
  predicate IsSet(b: Option<bool>) {
    b == Some(true)
  }

  /** `a or b` on two optional strings. */
  function Or(a: Option<string>, b: Option<string>): (r: Option<string>)
    ensures Truthy(a) ==> r == a
    ensures !Truthy(a) ==> r == b
  {
    if Truthy(a) then a else b
  }

  /** The parameter value that marks a parameter as optional, in any case. */
  const OptionalMarker: string := "[optional]"

  /** `SkillParameter.from_max_parameter`: nothing for a parameter without a
      name or a value, otherwise its tool input. */
  function FromMaxParameter(p: MaxParameter): (r: Option<SkillParameter>)
    ensures r.None? <==> !Truthy(p.name) || !Truthy(p.value)
    ensures r.Some? ==> r.value.name == p.name.value && r.value.name != ""
    ensures r.Some? ==> (r.value.typeHint == ListOfStr <==> r.value.isMulti) && (r.value.isMulti <==> IsSet(p.isMulti))
    ensures r.Some? ==> r.value.description == Or(p.llmDescription, p.description)
    ensures r.Some? ==> (r.value.required <==> Lower(p.value.value) != OptionalMarker)
    ensures r.Some? ==> (r.value.constrainedValues.Some? <==> TruthyList(p.constrainedValues))
    ensures r.Some? && r.value.constrainedValues.Some? ==> r.value.constrainedValues == p.constrainedValues
  {
    if !Truthy(p.name) || !Truthy(p.value) then None
    else
      var typeHint := if IsSet(p.isMulti) then ListOfStr else Str;
      Some(SkillParameter(
        name := p.name.value,
        typeHint := typeHint,
        description := Or(p.llmDescription, p.description),
        required := Lower(p.value.value) != OptionalMarker,
        isMulti := IsSet(p.isMulti),
        constrainedValues := if TruthyList(p.constrainedValues) then p.constrainedValues else None))
  }

  /** Whether a parameter is required depends on its value only up to
      letter case: "[Optional]" and "[OPTIONAL]" both make it optional. */
  lemma RequiredIgnoresCase(p: MaxParameter, q: MaxParameter)
    requires FromMaxParameter(p).Some? && FromMaxParameter(q).Some?
    requires Lower(p.value.value) == Lower(q.value.value)
    ensures FromMaxParameter(p).value.required == FromMaxParameter(q).value.required
  {
  }

  /** `SkillConfig.tool_name`: spaces and hyphens become underscores. */
  function ToolName(config: SkillConfig): (r: string)
    ensures |r| == |config.skill.name|
    ensures forall i :: 0 <= i < |r| ==>
      r[i] == if config.skill.name[i] == ' ' || config.skill.name[i] == '-' then '_' else config.skill.name[i]
    ensures forall i :: 0 <= i < |r| ==> r[i] != ' ' && r[i] != '-'
  {
    Replace(Replace(config.skill.name, ' ', '_'), '-', '_')
  }

  /** Naming a tool twice changes nothing: the name is already free of
      spaces and hyphens. */
  lemma ToolNameIdempotent(config: SkillConfig)
    ensures var renamed := config.(skill := config.skill.(name := ToolName(config)));
      ToolName(renamed) == ToolName(config)
  {
  }

  /** `SkillConfig.tool_description`: the detailed description when it is
      not empty, otherwise the short one. */
  function ToolDescription(config: SkillConfig): (r: Option<string>)
    ensures Truthy(config.skill.detailedDescription) ==> r == config.skill.detailedDescription
    ensures !Truthy(config.skill.detailedDescription) ==> r == config.skill.description
  {
    Or(config.skill.detailedDescription, config.skill.description)
  }
}
