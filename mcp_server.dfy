/** The JSON Schema the MCP server declares for each skill tool: one
    property per parameter and the list of required names. */
module McpServer {
  import opened Wrappers
  import opened JsonValue
  import opened McpModels
  import opened McpUtils

  const StringType: Json := JObj(map["type" := JStr("string")])

  /** The property schema of one parameter: a string, or an array of
      strings for a multi-valued parameter; the description when there is
      one; the allowed values as `enum`, on the items of an array. */
  function PropertySchema(p: SkillParameter): (r: Json)
    ensures r.JObj?
    ensures "type" in r.fields && r.fields["type"] == JStr(if p.isMulti then "array" else "string")
    ensures "items" in r.fields <==> p.isMulti
    ensures "description" in r.fields <==> Truthy(p.description)
    ensures "description" in r.fields ==> r.fields["description"] == JStr(p.description.value)
    ensures "enum" in r.fields <==> TruthyList(p.constrainedValues) && !p.isMulti
    ensures "enum" in r.fields ==> r.fields["enum"] == StrArray(p.constrainedValues.value)
    ensures p.isMulti ==>
      var items := r.fields["items"];
      && items.JObj?
      && "type" in items.fields && items.fields["type"] == JStr("string")
      && ("enum" in items.fields <==> TruthyList(p.constrainedValues))
      && ("enum" in items.fields ==> items.fields["enum"] == StrArray(p.constrainedValues.value))
    ensures r.fields.Keys <= {"type", "items", "description", "enum"}
  {
    var base :=
      if p.isMulti then map["type" := JStr("array"), "items" := StringType]
      else map["type" := JStr("string")];
    var described :=
      if Truthy(p.description) then base["description" := JStr(p.description.value)] else base;
    var constrained :=
      if TruthyList(p.constrainedValues) then
        var allowed := StrArray(p.constrainedValues.value);
        if p.isMulti then described["items" := JObj(StringType.fields["enum" := allowed])]
        else described["enum" := allowed]
      else described;
    JObj(constrained)
  }

  /** The `properties` object: each name bound to the schema of the last
      parameter with that name. */
  function Properties(params: seq<SkillParameter>): map<string, Json>
    decreases |params|
  {
    if params == [] then map[]
    else
      var last := params[|params| - 1];
      Properties(params[..|params| - 1])[last.name := PropertySchema(last)]
  }

  /** The names of the required parameters, in parameter order. */
  function RequiredNames(params: seq<SkillParameter>): seq<string>
    decreases |params|
  {
    if params == [] then []
    else
      var last := params[|params| - 1];
      RequiredNames(params[..|params| - 1]) + (if last.required then [last.name] else [])
  }

  /** The `input_schema` of the tool annotations. */
  function InputSchema(params: seq<SkillParameter>): (r: Json)
    ensures r.JObj? && r.fields.Keys == {"type", "properties", "required"}
    ensures r.fields["type"] == JStr("object")
  {
    JObj(map[
      "type" := JStr("object"),
      "properties" := JObj(Properties(params)),
      "required" := StrArray(RequiredNames(params))])
  }

  /** `_build_tool_annotations`: the loop over the parameters. */
  method BuildToolAnnotations(config: SkillConfig) returns (inputSchema: Json)
    ensures inputSchema == InputSchema(config.parameters)
  {
    var params := config.parameters;
    var properties: map<string, Json> := map[];
    var required: seq<string> := [];
    for k := 0 to |params|
      invariant properties == Properties(params[..k])
      invariant required == RequiredNames(params[..k])
    {
      var param := params[k];
      assert params[..k + 1][..k] == params[..k];
      var propSchema := PropertySchema(param);
      properties := properties[param.name := propSchema];
      if param.required {
        required := required + [param.name];
      }
    }
    assert params[..|params|] == params;
    inputSchema := JObj(map[
      "type" := JStr("object"),
      "properties" := JObj(properties),
      "required" := StrArray(required)]);
  }

  /** Every parameter name is a property and nothing else is. */
  lemma {:induction false} PropertiesKeys(params: seq<SkillParameter>)
    ensures Properties(params).Keys == set i | 0 <= i < |params| :: params[i].name
    decreases |params|
  {
    if params != [] {
      PropertiesKeys(params[..|params| - 1]);
      NamesSnoc(params);
    }
  }

  /** The names of a list of parameters are those of all but the last,
      and the last one's. */
  lemma NamesSnoc(params: seq<SkillParameter>)
    requires params != []
    ensures var init := params[..|params| - 1];
      (set i | 0 <= i < |params| :: params[i].name)
        == (set i | 0 <= i < |init| :: init[i].name) + {params[|params| - 1].name}
  {
    var init := params[..|params| - 1];
    var names := set i | 0 <= i < |params| :: params[i].name;
    var initNames := set i | 0 <= i < |init| :: init[i].name;
    forall x | x in names
      ensures x in initNames + {params[|params| - 1].name}
    {
      var i :| 0 <= i < |params| && params[i].name == x;
      if i < |init| {
        assert init[i] == params[i];
      }
    }
    forall x | x in initNames
      ensures x in names
    {
      var i :| 0 <= i < |init| && init[i].name == x;
      assert params[i] == init[i];
    }
  }

  /** A later parameter with the same name overwrites an earlier one: a
      name's schema is that of its last parameter. */
  lemma {:induction false} PropertiesLastWins(params: seq<SkillParameter>, i: nat)
    requires i < |params|
    requires forall j :: i < j < |params| ==> params[j].name != params[i].name
    ensures params[i].name in Properties(params)
    ensures Properties(params)[params[i].name] == PropertySchema(params[i])
    decreases |params|
  {
    var init := params[..|params| - 1];
    if i < |init| {
      PropertiesLastWins(init, i);
    }
  }

  /** The required list holds the required parameters' names in order: it
      is built parameter by parameter. */
  lemma {:induction false} RequiredNamesAppend(a: seq<SkillParameter>, b: seq<SkillParameter>)
    ensures RequiredNames(a + b) == RequiredNames(a) + RequiredNames(b)
    decreases |b|
  {
    if b == [] {
      assert a + b == a;
    } else {
      var init := b[..|b| - 1];
      assert (a + b)[..|a + b| - 1] == a + init;
      RequiredNamesAppend(a, init);
    }
  }

  /** A name is in the required list exactly when some parameter with that
      name is required. */
  lemma {:induction false} RequiredNamesSpec(params: seq<SkillParameter>, name: string)
    ensures name in RequiredNames(params) <==>
      exists i :: 0 <= i < |params| && params[i].required && params[i].name == name
    decreases |params|
  {
    if params != [] {
      var init := params[..|params| - 1];
      RequiredNamesSpec(init, name);
      if exists i :: 0 <= i < |init| && init[i].required && init[i].name == name {
        var i :| 0 <= i < |init| && init[i].required && init[i].name == name;
        assert params[i] == init[i];
      }
      if exists i :: 0 <= i < |params| && params[i].required && params[i].name == name {
        var i :| 0 <= i < |params| && params[i].required && params[i].name == name;
        assert i < |init| ==> init[i] == params[i];
      }
    }
  }

  /** The schema and the validation agree: arguments that pass validation
      are declared properties, and every name the schema lists as required
      was supplied. */
  lemma ValidatedArgumentsMatchSchema(params: seq<SkillParameter>, args: map<string, Json>)
    requires Validated(params, args).Success?
    ensures Validated(params, args).value.Keys <= Properties(params).Keys
    ensures forall name :: name in RequiredNames(params) ==> name in args
  {
    ValidatedKeys(params, args);
    PropertiesKeys(params);
    ValidatedFailsIff(params, args);
    forall name | name in RequiredNames(params)
      ensures name in args
    {
      RequiredNamesSpec(params, name);
      var i :| 0 <= i < |params| && params[i].required && params[i].name == name;
      assert params[i].name !in args ==> StepFails(params[i], args);
    }
  }
}
