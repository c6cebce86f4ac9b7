/** The step definition snippet builder (src/formatter/step_definition_snippet_builder/index.js):
    the arguments it hands to the snippet syntax for an undefined step. The expression
    generator and the snippet syntax are libraries; they are parameters here. */
module SnippetBuilder {
  import opened Wrappers
  import opened Gherkin

  /** The keyword types of a step. */
  datatype KeywordType = Event | Outcome | Precondition

  /** What `build` reads of a step. */
  datatype SnippetStep = SnippetStep(keywordType: KeywordType, text: string, arguments: seq<StepArgument>)

  /** The generated cucumber expression: its source and its parameter names. */
  datatype GeneratedExpression = GeneratedExpression(source: string, parameterNames: seq<string>)

  /** The four arguments of `snippetSyntax.build(functionName, pattern, parameters, comment)`. */
  datatype SnippetCall = SnippetCall(functionName: string, pattern: string, parameters: seq<string>, comment: string)

  const Comment := "Write code here that turns the phrase above into concrete actions"

  /** `getFunctionName`: event steps are written with When, outcomes with Then and
      preconditions with Given. */
  function GetFunctionName(keywordType: KeywordType): (name: string)
    ensures keywordType == Event <==> name == "When"
    ensures keywordType == Outcome <==> name == "Then"
    ensures keywordType == Precondition <==> name == "Given"
  {
    match keywordType
    case Event => "When"
    case Outcome => "Then"
    case Precondition => "Given"
  }

  /** The parameter name of one step argument: a data table is 'table', a doc string with
      non-empty content 'string'; an empty doc string or any other argument is unknown. */
  function ArgumentParameter(arg: StepArgument): Result<string>
  {
    match arg
    case DataTable(_) => Ok("table")
    case DocString(content) => if content != "" then Ok("string") else Fail(UnknownArgumentType)
    case OtherArgument => Fail(UnknownArgumentType)
  }

  /** `getStepArgumentParameters`: one name per argument in argument order, or the error of
      the first argument that has none. */
  function GetStepArgumentParameters(arguments: seq<StepArgument>): (r: Result<seq<string>>)
    ensures r.Ok? <==> forall i :: 0 <= i < |arguments| ==> ArgumentParameter(arguments[i]).Ok?
    ensures r.Fail? ==> r.error == UnknownArgumentType
    ensures r.Ok? ==> |r.value| == |arguments| &&
                      forall i :: 0 <= i < |arguments| ==>
                        r.value[i] == (if arguments[i].DataTable? then "table" else "string")
    decreases |arguments|
  {
    if arguments == [] then Ok([])
    else
      var n := |arguments| - 1;
      match GetStepArgumentParameters(arguments[..n])
      case Fail(e) => Fail(e)
      case Ok(names) =>
        match ArgumentParameter(arguments[n])
        case Fail(e) => Fail(e)
        case Ok(name) => Ok(names + [name])
  }

  /** `getParameters`: the expression's parameter names, then one per step argument, then
      'callback'. */
  function GetParameters(step: SnippetStep, expressionParameterNames: seq<string>): (r: Result<seq<string>>)
    ensures r.Ok? <==> GetStepArgumentParameters(step.arguments).Ok?
    ensures r.Ok? ==> |r.value| == |expressionParameterNames| + |step.arguments| + 1
    ensures r.Ok? ==> r.value[..|expressionParameterNames|] == expressionParameterNames
    ensures r.Ok? ==> r.value[|expressionParameterNames|..|r.value| - 1] == GetStepArgumentParameters(step.arguments).value
    ensures r.Ok? ==> r.value[|r.value| - 1] == "callback"
  {
    match GetStepArgumentParameters(step.arguments)
    case Fail(e) => Fail(e)
    case Ok(names) =>
      var r := expressionParameterNames + names + ["callback"];
      assert r[..|expressionParameterNames|] == expressionParameterNames;
      assert r[|expressionParameterNames|..|r| - 1] == names;
      Ok(r)
  }

  /** `build(step)`: the function name from the keyword type, the generated pattern, the
      parameters, and always the same comment. */
  function Build(step: SnippetStep, generate: string -> GeneratedExpression): (r: Result<SnippetCall>)
    ensures r.Ok? <==> GetStepArgumentParameters(step.arguments).Ok?
    ensures r.Ok? ==> r.value.comment == Comment
    ensures r.Ok? ==> r.value.pattern == generate(step.text).source
    ensures r.Ok? ==> r.value.functionName == GetFunctionName(step.keywordType)
    ensures r.Ok? ==> r.value.parameters == GetParameters(step, generate(step.text).parameterNames).value
    ensures r.Ok? ==> |r.value.parameters| == |generate(step.text).parameterNames| + |step.arguments| + 1 &&
                      r.value.parameters[|r.value.parameters| - 1] == "callback"
  {
    var generated := generate(step.text);
    match GetParameters(step, generated.parameterNames)
    case Fail(e) => Fail(e)
    case Ok(parameters) => Ok(SnippetCall(GetFunctionName(step.keywordType), generated.source, parameters, Comment))
  }
}
