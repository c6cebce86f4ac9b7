/** The message shown under a step in an issue (src/formatter/helpers/step_result_helpers.js):
    chosen by the step's status, and absent for passed and skipped steps. */
module StepResultHelpers {
  import opened Wrappers
  import opened Statuses
  import opened Events
  import opened Rendering

  const PendingText := "Pending"
  const UndefinedIntro := "Undefined. Implement with the following snippet:"

  /** The undefined message before colouring: the intro, a blank line, the snippet indented
      by two, and a final newline. */
  function UndefinedText(snippet: string, r: Renderers): string
  {
    UndefinedIntro + "\n\n" + r.indent(snippet, 2) + "\n"
  }

  /** `snippetBuilder.build(step)` on the test step that `getStepMessage` is handed: a test
      step carries no `arguments`, so `step.arguments.map` in `getStepArgumentParameters`
      throws before a snippet exists. */
  function TestStepSnippet(step: TestStep): Result<string>
  {
    Fail(TypeError("map of undefined"))
  }

  /** `getUndefinedStepResultMessage`: the undefined text around the snippet, coloured; a
      throw of the snippet builder propagates. */
  function UndefinedMessage(snippet: Result<string>, r: Renderers): (m: Result<string>)
    ensures m.Ok? <==> snippet.Ok?
    ensures snippet.Fail? ==> m == Fail(snippet.error)
    ensures snippet.Ok? ==> m.value == r.color(Undefined, UndefinedText(snippet.value, r))
  {
    match snippet
    case Fail(e) => Fail(e)
    case Ok(text) => Ok(r.color(Undefined, UndefinedText(text, r)))
  }

  /** `getStepMessage({colorFns, snippetBuilder, step})`: reading the status of a step
      without a result throws; passed and skipped steps have no message; an undefined step
      throws, since the snippet is built from the test step. */
  function GetStepMessage(step: TestStep, r: Renderers): (m: Result<Option<string>>)
    ensures m.Fail? <==> step.result.None? || step.result.value.status == Undefined
    ensures step.result.None? ==> m == Fail(TypeError("status of undefined"))
    ensures m.Ok? ==> (m.value.Some? <==> step.result.value.status in FailingStatuses + [Pending])
    ensures m.Ok? && step.result.value.status == Ambiguous ==>
      m.value == Some(r.color(Ambiguous, r.show(step.result.value.exception)))
    ensures m.Ok? && step.result.value.status == Failed ==> m.value == Some(r.formatError(step.result.value.exception))
    ensures m.Ok? && step.result.value.status == Pending ==> m.value == Some(r.color(Pending, PendingText))
    ensures step.result.Some? && step.result.value.status == Undefined ==>
      m == Fail(TypeError("map of undefined"))
  {
    match step.result
    case None => Fail(TypeError("status of undefined"))
    case Some(result) =>
      match result.status
      case Ambiguous => Ok(Some(r.color(Ambiguous, r.show(result.exception))))
      case Failed => Ok(Some(r.formatError(result.exception)))
      case Undefined =>
        (match UndefinedMessage(TestStepSnippet(step), r)
         case Fail(e) => Fail(e)
         case Ok(message) => Ok(Some(message)))
      case Pending => Ok(Some(r.color(Pending, PendingText)))
      case Passed => Ok(None)
      case Skipped => Ok(None)
  }

  /** The undefined message opens with the fixed intro and a blank line and ends with a newline. */
  lemma UndefinedTextShape(snippet: string, r: Renderers)
    ensures var t := UndefinedText(snippet, r);
            |t| > |UndefinedIntro| + 2 && t[..|UndefinedIntro| + 2] == UndefinedIntro + "\n\n" && t[|t| - 1] == '\n'
  {
    var t := UndefinedText(snippet, r);
    assert t == (UndefinedIntro + "\n\n") + (r.indent(snippet, 2) + "\n");
  }
}
