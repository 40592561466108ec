/** The helpers the MCP server applies to skills and tool calls: the
    conversion of a skill's parameters and the validation of the arguments
    of one tool call. Tool-call arguments are JSON values keyed by name. */
module McpUtils {
  import opened Wrappers
  import opened JsonValue
  import opened McpModels

  // ---------------------------------------------------------------- extract_skill_parameters

  /** The converted parameters, in order, with the unconvertible ones left out. */
  function Converted(params: seq<MaxParameter>): seq<SkillParameter>
    decreases |params|
  {
    if params == [] then []
    else
      var head := FromMaxParameter(params[0]);
      (if head.Some? then [head.value] else []) + Converted(params[1..])
  }

  /** `extract_skill_parameters`: no parameters when the skill has none (or
      an empty list), otherwise the loop over them. */
  method ExtractSkillParameters(skill: MaxSkill) returns (parameters: seq<SkillParameter>)
    ensures skill.parameters.None? || skill.parameters.value == [] ==> parameters == []
    ensures skill.parameters.Some? ==> parameters == Converted(skill.parameters.value)
  {
    parameters := [];
    if skill.parameters.None? || skill.parameters.value == [] {
      return;
    }
    var params := skill.parameters.value;
    for k := 0 to |params|
      invariant parameters == Converted(params[..k])
    {
      assert params[..k + 1] == params[..k] + [params[k]];
      ConvertedAppend(params[..k], [params[k]]);
      assert [params[k]][1..] == [];
      var skillParam := FromMaxParameter(params[k]);
      if skillParam.Some? {
        parameters := parameters + [skillParam.value];
      }
    }
    assert params[..|params|] == params;
  }

  /** Conversion works parameter by parameter: converting a concatenation
      converts each part, in order. */
  lemma {:induction false} ConvertedAppend(a: seq<MaxParameter>, b: seq<MaxParameter>)
    ensures Converted(a + b) == Converted(a) + Converted(b)
    decreases |a|
  {
    if a == [] {
      assert a + b == b;
    } else {
      var ab := a + b;
      assert ab[0] == a[0];
      assert ab[1..] == a[1..] + b;
      ConvertedAppend(a[1..], b);
    }
  }

  /** Every converted parameter comes from an input with a name and a
      value, and none is produced out of nothing. */
  lemma {:induction false} ConvertedSpec(params: seq<MaxParameter>)
    ensures |Converted(params)| <= |params|
    ensures forall q :: q in Converted(params) ==>
      exists k :: 0 <= k < |params| && FromMaxParameter(params[k]) == Some(q)
    ensures (forall k :: 0 <= k < |params| ==> FromMaxParameter(params[k]).Some?) ==>
      |Converted(params)| == |params|
    decreases |params|
  {
    if params != [] {
      ConvertedSpec(params[1..]);
      forall q | q in Converted(params)
        ensures exists k :: 0 <= k < |params| && FromMaxParameter(params[k]) == Some(q)
      {
        if q in Converted(params[1..]) {
          var k :| 0 <= k < |params[1..]| && FromMaxParameter(params[1..][k]) == Some(q);
          assert FromMaxParameter(params[k + 1]) == Some(q);
        } else {
          assert FromMaxParameter(params[0]) == Some(q);
        }
      }
    }
  }

  // ---------------------------------------------------------------- validate_skill_arguments

  /** The ValueError `validate_skill_arguments` raises. */
  datatype ArgError =
    | InvalidValues(name: string, invalid: seq<Json>, allowed: seq<string>)
    | InvalidValue(name: string, value: Json, allowed: seq<string>)
    | MissingRequired(name: string)

  /** `v in constrained_values`: only a JSON string can equal one of them. */
  predicate Allowed(v: Json, allowed: seq<string>) {
    v.JStr? && v.s in allowed
  }

  /** `[v for v in values if v not in allowed]` */
  function Disallowed(values: seq<Json>, allowed: seq<string>): (r: seq<Json>)
    ensures forall v :: v in r <==> v in values && !Allowed(v, allowed)
    decreases |values|
  {
    if values == [] then []
    else (if Allowed(values[0], allowed) then [] else [values[0]]) + Disallowed(values[1..], allowed)
  }

  /** A multi-valued argument as a list: a list as it is, a scalar wrapped. */
  function AsList(v: Json): (r: seq<Json>)
    ensures v.JArr? ==> r == v.items
    ensures !v.JArr? ==> r == [v]
  {
    if v.JArr? then v.items else [v]
  }

  /** The check and conversion of one supplied argument. */
  function ProcessValue(p: SkillParameter, v: Json): (r: Result<Json, ArgError>)
    ensures r.Success? && p.isMulti ==> r.value == JArr(AsList(v))
    ensures !p.isMulti && !TruthyList(p.constrainedValues) ==> r == Success(v)
    ensures !p.isMulti && TruthyList(p.constrainedValues) ==>
      r == if Allowed(v, p.constrainedValues.value) then Success(v)
           else Failure(InvalidValue(p.name, v, p.constrainedValues.value))
    ensures p.isMulti && TruthyList(p.constrainedValues) ==>
      (r.Failure? <==> exists x :: x in AsList(v) && !Allowed(x, p.constrainedValues.value))
    ensures p.isMulti && !TruthyList(p.constrainedValues) ==> r.Success?
  {
    var checked: Result<Json, ArgError> :=
      if TruthyList(p.constrainedValues) then
        var allowed := p.constrainedValues.value;
        if p.isMulti then
          var value := JArr(AsList(v));
          var invalidValues := Disallowed(value.items, allowed);
          if invalidValues != [] then
            assert invalidValues[0] in invalidValues;
            Failure(InvalidValues(p.name, invalidValues, allowed))
          else Success(value)
        else if !Allowed(v, allowed) then Failure(InvalidValue(p.name, v, allowed))
        else Success(v)
      else Success(v);
    match checked
    case Failure(e) => Failure(e)
    case Success(value) => Success(if p.isMulti && !value.JArr? then JArr([value]) else value)
  }

  /** Whether the argument step for `p` raises, whatever came before. */
  predicate StepFails(p: SkillParameter, args: map<string, Json>) {
    if p.name in args then ProcessValue(p, args[p.name]).Failure? else p.required
  }

  /** One iteration of the loop: store the processed argument, raise, or
      skip an optional parameter that was not supplied. */
  function Step(validated: map<string, Json>, p: SkillParameter, args: map<string, Json>): (r: Result<map<string, Json>, ArgError>)
    ensures r.Failure? <==> StepFails(p, args)
  {
    if p.name in args then
      match ProcessValue(p, args[p.name])
      case Failure(e) => Failure(e)
      case Success(v) => Success(validated[p.name := v])
    else if p.required then Failure(MissingRequired(p.name))
    else Success(validated)
  }

  /** What `validate_skill_arguments` returns or raises for the parameters
      `params`, processed in order. */
  function Validated(params: seq<SkillParameter>, args: map<string, Json>): Result<map<string, Json>, ArgError>
    decreases |params|
  {
    if params == [] then Success(map[])
    else
      match Validated(params[..|params| - 1], args)
      case Failure(e) => Failure(e)
      case Success(m) => Step(m, params[|params| - 1], args)
  }

  /** `validate_skill_arguments` */
  method ValidateSkillArguments(args: map<string, Json>, config: SkillConfig) returns (r: Result<map<string, Json>, ArgError>)
    ensures r == Validated(config.parameters, args)
  {
    var params := config.parameters;
    var validatedArgs: map<string, Json> := map[];
    for k := 0 to |params|
      invariant Validated(params[..k], args) == Success(validatedArgs)
    {
      var param := params[k];
      assert params[..k + 1][..k] == params[..k];
      if param.name in args {
        var value := args[param.name];
        if TruthyList(param.constrainedValues) {
          var allowed := param.constrainedValues.value;
          if param.isMulti {
            if !value.JArr? {
              value := JArr([value]);
            }
            var invalidValues := Disallowed(value.items, allowed);
            if invalidValues != [] {
              r := Failure(InvalidValues(param.name, invalidValues, allowed));
              ValidatedStopsAtFailure(params, k + 1, args);
              return;
            }
          } else if !Allowed(value, allowed) {
            r := Failure(InvalidValue(param.name, value, allowed));
            ValidatedStopsAtFailure(params, k + 1, args);
            return;
          }
        }
        if param.isMulti && !value.JArr? {
          value := JArr([value]);
        }
        validatedArgs := validatedArgs[param.name := value];
      } else if param.required {
        r := Failure(MissingRequired(param.name));
        ValidatedStopsAtFailure(params, k + 1, args);
        return;
      }
    }
    assert params[..|params|] == params;
    r := Success(validatedArgs);
  }

  /** The first error raised is the one reported: once a prefix fails,
      the whole list fails with the same error. */
  lemma {:induction false} ValidatedStopsAtFailure(params: seq<SkillParameter>, n: nat, args: map<string, Json>)
    requires n <= |params|
    requires Validated(params[..n], args).Failure?
    ensures Validated(params, args) == Validated(params[..n], args)
    decreases |params| - n
  {
    if n < |params| {
      var next := params[..n + 1];
      assert next[..|next| - 1] == params[..n];
      ValidatedStopsAtFailure(params, n + 1, args);
    } else {
      assert params[..n] == params;
    }
  }

  /** The call fails exactly when some parameter's step raises: a required
      parameter that is missing, or a supplied value outside its
      constraints. */
  lemma {:induction false} ValidatedFailsIff(params: seq<SkillParameter>, args: map<string, Json>)
    ensures Validated(params, args).Failure? <==>
      exists i :: 0 <= i < |params| && StepFails(params[i], args)
    decreases |params|
  {
    if params != [] {
      var init := params[..|params| - 1];
      ValidatedFailsIff(init, args);
      if exists i :: 0 <= i < |init| && StepFails(init[i], args) {
        var i :| 0 <= i < |init| && StepFails(init[i], args);
        assert params[i] == init[i];
      }
      if exists i :: 0 <= i < |params| && StepFails(params[i], args) {
        var i :| 0 <= i < |params| && StepFails(params[i], args);
        assert i < |init| ==> init[i] == params[i];
      }
    }
  }

  /** On success the keys are exactly the names of the parameters that were
      supplied; arguments that match no parameter are dropped. */
  lemma {:induction false} ValidatedKeys(params: seq<SkillParameter>, args: map<string, Json>)
    requires Validated(params, args).Success?
    ensures Validated(params, args).value.Keys == set i | 0 <= i < |params| && params[i].name in args :: params[i].name
    decreases |params|
  {
    if params != [] {
      var init := params[..|params| - 1];
      ValidatedKeys(init, args);
      var names := set i | 0 <= i < |params| && params[i].name in args :: params[i].name;
      var initNames := set i | 0 <= i < |init| && init[i].name in args :: init[i].name;
      var last := params[|params| - 1];
      assert names == initNames + (if last.name in args then {last.name} else {}) by {
        forall x | x in names
          ensures x in initNames + (if last.name in args then {last.name} else {})
        {
          var i :| 0 <= i < |params| && params[i].name in args && params[i].name == x;
          if i < |init| {
            assert init[i] == params[i];
          }
        }
        forall x | x in initNames
          ensures x in names
        {
          var i :| 0 <= i < |init| && init[i].name in args && init[i].name == x;
          assert params[i] == init[i];
        }
      }
    }
  }

  /** A name maps to the processed value of the last parameter with that
      name: a later duplicate overwrites an earlier one. */
  lemma {:induction false} ValidatedLastWins(params: seq<SkillParameter>, args: map<string, Json>, i: nat)
    requires i < |params|
    requires Validated(params, args).Success?
    requires params[i].name in args
    requires forall j :: i < j < |params| ==> params[j].name != params[i].name
    ensures params[i].name in Validated(params, args).value
    ensures ProcessValue(params[i], args[params[i].name]).Success?
    ensures Validated(params, args).value[params[i].name] == ProcessValue(params[i], args[params[i].name]).value
    decreases |params|
  {
    var init := params[..|params| - 1];
    if i < |init| {
      ValidatedLastWins(init, args, i);
    }
  }

  /** A multi-valued parameter that was supplied always arrives as a list,
      and an unconstrained single-valued one arrives unchanged. */
  lemma ValidatedShapes(params: seq<SkillParameter>, args: map<string, Json>, i: nat)
    requires i < |params|
    requires Validated(params, args).Success?
    requires params[i].name in args
    requires forall j :: i < j < |params| ==> params[j].name != params[i].name
    ensures params[i].name in Validated(params, args).value
    ensures params[i].isMulti ==> Validated(params, args).value[params[i].name].JArr?
    ensures !params[i].isMulti && !TruthyList(params[i].constrainedValues) ==>
      Validated(params, args).value[params[i].name] == args[params[i].name]
  {
    ValidatedLastWins(params, args, i);
  }

  /** A required parameter that was not supplied makes the call fail. */
  lemma MissingRequiredFails(params: seq<SkillParameter>, args: map<string, Json>, i: nat)
    requires i < |params|
    requires params[i].required && params[i].name !in args
    ensures Validated(params, args).Failure?
  {
    ValidatedFailsIff(params, args);
  }
}
