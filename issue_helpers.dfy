/** The text of an issue (src/formatter/helpers/issue_helpers.js): a numbered scenario
    header, then one line per step with its status symbol, keyword, text and definition
    location, the step's arguments indented under it, and its message when it has one. */
module IssueHelpers {
  import opened Wrappers
  import opened Strings
  import opened Statuses
  import opened Gherkin
  import opened Events
  import opened Rendering
  import opened StepResultHelpers

  /** `figures.tick` and `figures.cross`. */
  const Tick := "\U{2714}"
  const Cross := "\U{2716}"

  /** `CHARACTERS[status]`: the symbol in front of a step. */
  function Character(status: Status): (c: string)
    ensures c == Tick <==> status == Passed
    ensures c == Cross <==> status in FailingStatuses
    ensures c == "?" <==> status in StrictFailingStatuses
    ensures c == "-" <==> status == Skipped
  {
    match status
    case Ambiguous => Cross
    case Failed => Cross
    case Passed => Tick
    case Pending => "?"
    case Skipped => "-"
    case Undefined => "?"
  }

  /** A table cell: every backslash doubled first, then every newline written as `\n`. */
  function EscapeCell(value: string): string
  {
    ReplaceAll(ReplaceAll(value, '\\', "\\\\"), '\n', "\\n")
  }

  /** The escape of one character. */
  function EscapeChar(c: char): string
  {
    if c == '\\' then "\\\\" else if c == '\n' then "\\n" else [c]
  }

  /** Escaping character by character. */
  function Escaped(s: string): string
  {
    if s == [] then [] else EscapeChar(s[0]) + Escaped(s[1..])
  }

  /** Reading an escaped cell back: `\\` is a backslash and `\n` a newline. */
  function Unescape(s: string): string
  {
    if |s| >= 2 && s[0] == '\\' && s[1] == '\\' then "\\" + Unescape(s[2..])
    else if |s| >= 2 && s[0] == '\\' && s[1] == 'n' then "\n" + Unescape(s[2..])
    else if s == [] then []
    else [s[0]] + Unescape(s[1..])
  }

  lemma {:induction false} ReplaceAllConcat(a: string, b: string, c: char, rep: string)
    ensures ReplaceAll(a + b, c, rep) == ReplaceAll(a, c, rep) + ReplaceAll(b, c, rep)
  {
    if a != [] {
      assert (a + b)[1..] == a[1..] + b;
      ReplaceAllConcat(a[1..], b, c, rep);
    } else {
      assert a + b == b;
    }
  }

  /** The two replacements, in the source's order, escape each character on its own. */
  lemma {:induction false} EscapeCellIsEscaped(value: string)
    ensures EscapeCell(value) == Escaped(value)
  {
    if value != [] {
      var c := value[0];
      var first := if c == '\\' then "\\\\" else [c];
      assert ReplaceAll(value, '\\', "\\\\") == first + ReplaceAll(value[1..], '\\', "\\\\");
      ReplaceAllConcat(first, ReplaceAll(value[1..], '\\', "\\\\"), '\n', "\\n");
      EscapeCellIsEscaped(value[1..]);
      if c == '\\' {
        assert ReplaceAll(first, '\n', "\\n") == "\\\\";
      } else if c == '\n' {
        assert ReplaceAll(first, '\n', "\\n") == "\\n";
      } else {
        assert ReplaceAll(first, '\n', "\\n") == [c];
      }
    }
  }

  lemma {:induction false} UnescapeEscaped(s: string)
    ensures Unescape(Escaped(s)) == s
  {
    if s != [] {
      var rest := Escaped(s[1..]);
      UnescapeEscaped(s[1..]);
      var e := EscapeChar(s[0]) + rest;
      if s[0] == '\\' || s[0] == '\n' {
        assert e[2..] == rest;
      } else {
        assert e[1..] == rest;
      }
    }
  }

  /** Escaping loses nothing: the cell text is read back from the table unchanged, newlines
      and backslashes included. */
  lemma EscapeCellRoundTrip(value: string)
    ensures Unescape(EscapeCell(value)) == value
    ensures '\n' !in EscapeCell(value)
  {
    EscapeCellIsEscaped(value);
    UnescapeEscaped(value);
  }

  /** The order of the two replacements matters: newline first would double the backslash
      that its escape introduces. */
  lemma EscapeOrderMatters()
    ensures EscapeCell("\n") == "\\n"
    ensures ReplaceAll(ReplaceAll("\n", '\n', "\\n"), '\\', "\\\\") == "\\\\n"
  {
    assert ReplaceAll("\n", '\n', "\\n") == "\\n";
    assert ReplaceAll("\\n", '\\', "\\\\") == "\\\\" + ReplaceAll("n", '\\', "\\\\");
    assert ReplaceAll("\n", '\\', "\\\\") == "\n";
  }

  /** The escaped cells of a data table, row by row. */
  function EscapeRows(rows: seq<seq<string>>): (r: seq<seq<string>>)
    ensures |r| == |rows|
    ensures forall i :: 0 <= i < |rows| ==> |r[i]| == |rows[i]|
  {
    seq(|rows|, i requires 0 <= i < |rows| =>
      seq(|rows[i]|, j requires 0 <= j < |rows[i]| => EscapeCell(rows[i][j])))
  }

  /** Every cell of an escaped table reads back as the original cell. */
  lemma EscapeRowsRoundTrip(rows: seq<seq<string>>)
    ensures forall i, j :: 0 <= i < |rows| && 0 <= j < |rows[i]| ==>
      Unescape(EscapeRows(rows)[i][j]) == rows[i][j] && '\n' !in EscapeRows(rows)[i][j]
  {
    forall i, j | 0 <= i < |rows| && 0 <= j < |rows[i]|
      ensures Unescape(EscapeRows(rows)[i][j]) == rows[i][j] && '\n' !in EscapeRows(rows)[i][j]
    {
      EscapeCellRoundTrip(rows[i][j]);
    }
  }

  /** `formatDocString`: the content between two lines of triple quotes. */
  function FormatDocString(content: string): (t: string)
    ensures |t| == |content| + 8
    ensures t[..4] == "\"\"\"\n" && t[|t| - 4..] == "\n\"\"\""
    ensures t[4..|t| - 4] == content
  {
    "\"\"\"\n" + content + "\n\"\"\""
  }

  /** A step argument as text: a table when it has rows, a doc string when it has
      non-empty content; anything else throws. */
  function FormatArgument(arg: StepArgument, r: Renderers): (t: Result<string>)
    ensures t.Fail? ==> t.error == UnknownArgumentType
    ensures t.Fail? <==> arg.OtherArgument? || (arg.DocString? && arg.content == "")
    ensures arg.DocString? && t.Ok? ==> t.value == FormatDocString(arg.content)
    ensures arg.DataTable? ==> t == Ok(r.table(EscapeRows(arg.rows)))
  {
    match arg
    case DataTable(rows) => Ok(r.table(EscapeRows(rows)))
    case DocString(content) => if content != "" then Ok(FormatDocString(content)) else Fail(UnknownArgumentType)
    case OtherArgument => Fail(UnknownArgumentType)
  }

  /** The keyword as concatenated into the step line: `undefined` prints as "undefined". */
  function KeywordText(keyword: Option<string>): string
  {
    if keyword.Some? then keyword.value else "undefined"
  }

  /** The first line of a step: coloured symbol, keyword and text, then the definition's
      location when the step has one, then a newline. */
  function StepHead(status: Status, keyword: Option<string>, text: string, actionLocation: Option<Location>, r: Renderers): string
  {
    r.color(status, Character(status) + " " + KeywordText(keyword) + text) +
    (if actionLocation.Some? then " # " + r.location(r.formatLocation(actionLocation.value)) else "") +
    "\n"
  }

  /** The arguments of a step, each coloured and indented by four, or the first error. */
  function ArgumentsText(args: seq<StepArgument>, status: Status, r: Renderers): Result<string>
    decreases |args|
  {
    if args == [] then Ok("")
    else
      var n := |args| - 1;
      match ArgumentsText(args[..n], status, r)
      case Fail(e) => Fail(e)
      case Ok(text) =>
        match FormatArgument(args[n], r)
        case Fail(e) => Fail(e)
        case Ok(s) => Ok(text + r.indent(r.color(status, s) + "\n", 4))
  }

  /** Any argument that is neither a table nor a non-empty doc string makes the arguments
      fail with `UnknownArgumentType`; otherwise they succeed. */
  lemma {:induction false} ArgumentsTextFails(args: seq<StepArgument>, status: Status, r: Renderers)
    ensures ArgumentsText(args, status, r).Fail? <==> exists i :: 0 <= i < |args| && FormatArgument(args[i], r).Fail?
    ensures ArgumentsText(args, status, r).Fail? ==> ArgumentsText(args, status, r).error == UnknownArgumentType
    decreases |args|
  {
    if args != [] {
      var n := |args| - 1;
      ArgumentsTextFails(args[..n], status, r);
      if exists i :: 0 <= i < n && FormatArgument(args[..n][i], r).Fail? {
        var i :| 0 <= i < n && FormatArgument(args[..n][i], r).Fail?;
        assert args[i] == args[..n][i];
      }
      if exists i :: 0 <= i < |args| && FormatArgument(args[i], r).Fail? {
        var i :| 0 <= i < |args| && FormatArgument(args[i], r).Fail?;
        if i < n {
          assert args[..n][i] == args[i];
        }
      }
    }
  }

  /** The pickle step behind a prepared step, by the line of its first location. */
  function PickledStepAt(pickle: Pickle, line: nat): Option<PickleStep>
  {
    LookupLast(FirstLinePairs(pickle.steps), line)
  }

  /** `formatStep`: reading the status of a step without a result, the line of a hook step
      or the locations of a missing pickle step throws. */
  function StepText(step: TestStep, keywordPairs: seq<(nat, string)>, pickle: Pickle, r: Renderers): Result<string>
  {
    match step.result
    case None => Fail(TypeError("status of undefined"))
    case Some(result) =>
      match step.sourceLocation
      case None => Fail(TypeError("line of undefined"))
      case Some(source) =>
        match PickledStepAt(pickle, source.line)
        case None => Fail(TypeError("locations of undefined"))
        case Some(pickledStep) =>
          var head := StepHead(result.status, StepKeyword(keywordPairs, pickledStep), pickledStep.text, step.actionLocation, r);
          match ArgumentsText(pickledStep.arguments, result.status, r)
          case Fail(e) => Fail(e)
          case Ok(args) => Ok(head + args)
  }

  /** A step's text opens with its head line, which shows the definition's location exactly
      when the prepared step has one; it fails exactly when the step has no result, no
      source location, no pickle step at that line, or an argument of unknown type. */
  lemma StepTextShape(step: TestStep, keywordPairs: seq<(nat, string)>, pickle: Pickle, r: Renderers)
    ensures StepText(step, keywordPairs, pickle, r).Fail? <==>
      step.result.None? || step.sourceLocation.None? || PickledStepAt(pickle, step.sourceLocation.value.line).None? ||
      exists i :: 0 <= i < |PickledStepAt(pickle, step.sourceLocation.value.line).value.arguments| &&
                  FormatArgument(PickledStepAt(pickle, step.sourceLocation.value.line).value.arguments[i], r).Fail?
    ensures StepText(step, keywordPairs, pickle, r).Ok? ==>
      var pickledStep := PickledStepAt(pickle, step.sourceLocation.value.line).value;
      var head := StepHead(step.result.value.status, StepKeyword(keywordPairs, pickledStep), pickledStep.text, step.actionLocation, r);
      var t := StepText(step, keywordPairs, pickle, r).value;
      |head| <= |t| && t[..|head|] == head
  {
    if step.result.Some? && step.sourceLocation.Some? && PickledStepAt(pickle, step.sourceLocation.value.line).Some? {
      var pickledStep := PickledStepAt(pickle, step.sourceLocation.value.line).value;
      ArgumentsTextFails(pickledStep.arguments, step.result.value.status, r);
      var head := StepHead(step.result.value.status, StepKeyword(keywordPairs, pickledStep), pickledStep.text, step.actionLocation, r);
      var args := ArgumentsText(pickledStep.arguments, step.result.value.status, r);
      if args.Ok? {
        assert (head + args.value)[..|head|] == head;
      }
    }
  }

  /** The head line of a step ends with ` # ` and the definition's location exactly when
      the prepared step has one. */
  lemma StepHeadLocation(status: Status, keyword: Option<string>, text: string, actionLocation: Option<Location>, r: Renderers)
    ensures var id := r.color(status, Character(status) + " " + KeywordText(keyword) + text);
            var h := StepHead(status, keyword, text, actionLocation, r);
            h[..|id|] == id && h[|h| - 1] == '\n' &&
            (actionLocation.None? ==> h == id + "\n") &&
            (actionLocation.Some? ==> h[|id|..|h| - 1] == " # " + r.location(r.formatLocation(actionLocation.value)))
  {
    var id := r.color(status, Character(status) + " " + KeywordText(keyword) + text);
    if actionLocation.Some? {
      var loc := " # " + r.location(r.formatLocation(actionLocation.value));
      assert StepHead(status, keyword, text, actionLocation, r) == id + loc + "\n";
      assert (id + loc + "\n")[|id|..|id + loc + "\n"| - 1] == loc;
    } else {
      assert StepHead(status, keyword, text, actionLocation, r) == id + "" + "\n";
    }
  }

  /** `formatStep`, as the source builds it: the head line, then the arguments one by one. */
  method FormatStep(step: TestStep, keywordPairs: seq<(nat, string)>, pickle: Pickle, r: Renderers)
    returns (res: Result<string>)
    ensures res == StepText(step, keywordPairs, pickle, r)
  {
    if step.result.None? {
      return Fail(TypeError("status of undefined"));
    }
    var status := step.result.value.status;
    if step.sourceLocation.None? {
      return Fail(TypeError("line of undefined"));
    }
    var pickledStep := PickledStepAt(pickle, step.sourceLocation.value.line);
    if pickledStep.None? {
      return Fail(TypeError("locations of undefined"));
    }
    var args := pickledStep.value.arguments;
    var head := StepHead(status, StepKeyword(keywordPairs, pickledStep.value), pickledStep.value.text, step.actionLocation, r);
    var text := head;
    ghost var body := "";
    var i := 0;
    while i < |args|
      invariant 0 <= i <= |args|
      invariant ArgumentsText(args[..i], status, r) == Ok(body)
      invariant text == head + body
    {
      var arg := FormatArgument(args[i], r);
      if arg.Fail? {
        ArgumentsFail(args, i, status, r);
        return Fail(arg.error);
      }
      ArgumentsAppend(args, i, status, r);
      AppendAssoc(head, body, r.indent(r.color(status, arg.value) + "\n", 4));
      text := text + r.indent(r.color(status, arg.value) + "\n", 4);
      body := body + r.indent(r.color(status, arg.value) + "\n", 4);
      i := i + 1;
    }
    assert args[..i] == args;
    res := Ok(text);
  }

  /** One more argument appends its coloured, indented text. */
  lemma ArgumentsAppend(args: seq<StepArgument>, i: nat, status: Status, r: Renderers)
    requires i < |args|
    requires ArgumentsText(args[..i], status, r).Ok?
    requires FormatArgument(args[i], r).Ok?
    ensures ArgumentsText(args[..i + 1], status, r) ==
      Ok(ArgumentsText(args[..i], status, r).value + r.indent(r.color(status, FormatArgument(args[i], r).value) + "\n", 4))
  {
    assert args[..i + 1][..i] == args[..i];
  }

  /** An argument that fails makes all the arguments fail with its error. */
  lemma ArgumentsFail(args: seq<StepArgument>, i: nat, status: Status, r: Renderers)
    requires i < |args|
    requires ArgumentsText(args[..i], status, r).Ok?
    requires FormatArgument(args[i], r).Fail?
    ensures ArgumentsText(args, status, r) == Fail(FormatArgument(args[i], r).error)
  {
    assert args[..i + 1][..i] == args[..i];
    ArgumentsFailFrom(args, i + 1, status, r);
  }

  /** Once a prefix of the arguments fails, the whole list fails with the same error. */
  lemma {:induction false} ArgumentsFailFrom(args: seq<StepArgument>, k: nat, status: Status, r: Renderers)
    requires k <= |args|
    requires ArgumentsText(args[..k], status, r).Fail?
    ensures ArgumentsText(args, status, r) == ArgumentsText(args[..k], status, r)
    decreases |args| - k
  {
    if k < |args| {
      var n := |args| - 1;
      assert args[..n][..k] == args[..k];
      ArgumentsFailFrom(args[..n], k, status, r);
    } else {
      assert args[..k] == args;
    }
  }

  /** `number + ') '`. */
  function Prefix(number: nat): string
  {
    NatToString(number) + ") "
  }

  /** The first line of an issue. */
  function IssueHeader(number: nat, name: string, testCase: Location, r: Renderers): string
  {
    Prefix(number) + "Scenario: " + name + " # " + r.location(r.formatLocation(testCase)) + "\n"
  }

  /** The text of one step inside an issue: its lines indented by the prefix's width, then
      its message, indented four more and closed by a newline, when it has a non-empty one. */
  function IssueStepText(step: TestStep, width: nat, keywordPairs: seq<(nat, string)>, pickle: Pickle, r: Renderers)
    : Result<string>
  {
    match StepText(step, keywordPairs, pickle, r)
    case Fail(e) => Fail(e)
    case Ok(identifier) =>
      match GetStepMessage(step, r)
      case Fail(e) => Fail(e)
      case Ok(message) =>
        Ok(r.indent(identifier, width) +
           if message.Some? && message.value != "" then r.indent(message.value, width + 4) + "\n" else "")
  }

  /** The steps of an issue, one after the other, or the first error. */
  function StepsText(steps: seq<TestStep>, width: nat, keywordPairs: seq<(nat, string)>, pickle: Pickle, r: Renderers)
    : Result<string>
    decreases |steps|
  {
    if steps == [] then Ok("")
    else
      var n := |steps| - 1;
      match StepsText(steps[..n], width, keywordPairs, pickle, r)
      case Fail(e) => Fail(e)
      case Ok(text) =>
        match IssueStepText(steps[n], width, keywordPairs, pickle, r)
        case Fail(e) => Fail(e)
        case Ok(s) => Ok(text + s)
  }

  /** `formatIssue`: reading the name of a missing pickle, or the children of a missing
      document or feature, throws. */
  function IssueText(number: nat, gherkinDocument: Option<GherkinDocument>, pickle: Option<Pickle>,
                     steps: seq<TestStep>, testCase: Location, r: Renderers): Result<string>
  {
    match pickle
    case None => Fail(TypeError("name of undefined"))
    case Some(p) =>
      if gherkinDocument.None? then Fail(TypeError("feature of undefined"))
      else if gherkinDocument.value.feature.None? then Fail(TypeError("children of undefined"))
      else
        var keywordPairs := StepLineKeywordPairs(gherkinDocument.value.feature.value);
        match StepsText(steps, |Prefix(number)|, keywordPairs, p, r)
        case Fail(e) => Fail(e)
        case Ok(body) => Ok(IssueHeader(number, p.name, testCase, r) + body + "\n")
  }

  /** An issue opens with `number) Scenario: name # location` on its own line and closes
      with one extra newline; without steps it is exactly those two. */
  lemma IssueShape(number: nat, gherkinDocument: Option<GherkinDocument>, pickle: Option<Pickle>,
                   steps: seq<TestStep>, testCase: Location, r: Renderers)
    ensures IssueText(number, gherkinDocument, pickle, steps, testCase, r).Ok? ==>
      var h := IssueHeader(number, pickle.value.name, testCase, r);
      var t := IssueText(number, gherkinDocument, pickle, steps, testCase, r).value;
      |h| < |t| && t[..|h|] == h && t[|t| - 1] == '\n' && (steps == [] ==> t == h + "\n")
    ensures steps == [] ==>
      (IssueText(number, gherkinDocument, pickle, steps, testCase, r).Fail? <==>
       pickle.None? || gherkinDocument.None? || gherkinDocument.value.feature.None?)
  {
    var res := IssueText(number, gherkinDocument, pickle, steps, testCase, r);
    if res.Ok? {
      var h := IssueHeader(number, pickle.value.name, testCase, r);
      var keywordPairs := StepLineKeywordPairs(gherkinDocument.value.feature.value);
      var body := StepsText(steps, |Prefix(number)|, keywordPairs, pickle.value, r).value;
      assert res.value == h + (body + "\n");
    }
  }

  /** `formatIssue`, as the source builds it: the header, then the steps one by one. */
  method FormatIssue(number: nat, gherkinDocument: Option<GherkinDocument>, pickle: Option<Pickle>,
                     steps: seq<TestStep>, testCase: Location, r: Renderers) returns (res: Result<string>)
    ensures res == IssueText(number, gherkinDocument, pickle, steps, testCase, r)
  {
    var prefix := Prefix(number);
    if pickle.None? {
      return Fail(TypeError("name of undefined"));
    }
    var text := prefix + "Scenario: " + pickle.value.name + " # " + r.location(r.formatLocation(testCase)) + "\n";
    if gherkinDocument.None? {
      return Fail(TypeError("feature of undefined"));
    }
    if gherkinDocument.value.feature.None? {
      return Fail(TypeError("children of undefined"));
    }
    var keywordPairs := StepLineKeywordPairs(gherkinDocument.value.feature.value);
    ghost var header := text;
    ghost var body := "";
    var i := 0;
    while i < |steps|
      invariant 0 <= i <= |steps|
      invariant StepsText(steps[..i], |prefix|, keywordPairs, pickle.value, r) == Ok(body)
      invariant text == header + body
    {
      var lines := FormatIssueStep(steps[i], |prefix|, keywordPairs, pickle.value, r);
      if lines.Fail? {
        StepsFail(steps, i, |prefix|, keywordPairs, pickle.value, r);
        return Fail(lines.error);
      }
      StepsAppend(steps, i, |prefix|, keywordPairs, pickle.value, r);
      AppendAssoc(header, body, lines.value);
      text := text + lines.value;
      body := body + lines.value;
      i := i + 1;
    }
    assert steps[..i] == steps;
    res := Ok(text + "\n");
  }

  /** The loop body of `formatIssue` for one step: its lines indented by the prefix's width,
      then its message line when it has a non-empty message. */
  method FormatIssueStep(step: TestStep, width: nat, keywordPairs: seq<(nat, string)>, pickle: Pickle, r: Renderers)
    returns (res: Result<string>)
    ensures res == IssueStepText(step, width, keywordPairs, pickle, r)
  {
    var identifier := FormatStep(step, keywordPairs, pickle, r);
    if identifier.Fail? {
      return Fail(identifier.error);
    }
    var text := r.indent(identifier.value, width);
    var message := GetStepMessage(step, r);
    if message.Fail? {
      return Fail(message.error);
    }
    if message.value.Some? && message.value.value != "" {
      text := text + (r.indent(message.value.value, width + 4) + "\n");
    } else {
      assert text + "" == text;
    }
    return Ok(text);
  }

  /** One more step of an issue appends that step's text. */
  lemma StepsAppend(steps: seq<TestStep>, i: nat, width: nat, keywordPairs: seq<(nat, string)>, pickle: Pickle, r: Renderers)
    requires i < |steps|
    requires StepsText(steps[..i], width, keywordPairs, pickle, r).Ok?
    requires IssueStepText(steps[i], width, keywordPairs, pickle, r).Ok?
    ensures StepsText(steps[..i + 1], width, keywordPairs, pickle, r) ==
      Ok(StepsText(steps[..i], width, keywordPairs, pickle, r).value + IssueStepText(steps[i], width, keywordPairs, pickle, r).value)
  {
    assert steps[..i + 1][..i] == steps[..i];
  }

  /** Concatenation regroups. */
  lemma AppendAssoc(a: string, b: string, c: string)
    ensures a + b + c == a + (b + c)
  {
  }

  /** A step that fails makes the whole issue fail with its error. */
  lemma StepsFail(steps: seq<TestStep>, i: nat, width: nat, keywordPairs: seq<(nat, string)>, pickle: Pickle, r: Renderers)
    requires i < |steps|
    requires StepsText(steps[..i], width, keywordPairs, pickle, r).Ok?
    requires IssueStepText(steps[i], width, keywordPairs, pickle, r).Fail?
    ensures StepsText(steps, width, keywordPairs, pickle, r) == Fail(IssueStepText(steps[i], width, keywordPairs, pickle, r).error)
  {
    assert steps[..i + 1][..i] == steps[..i];
    StepsFailFrom(steps, i + 1, width, keywordPairs, pickle, r);
  }

  /** Once a prefix of the steps fails, the whole issue fails with the same error. */
  lemma {:induction false} StepsFailFrom(steps: seq<TestStep>, k: nat, width: nat, keywordPairs: seq<(nat, string)>,
                                         pickle: Pickle, r: Renderers)
    requires k <= |steps|
    requires StepsText(steps[..k], width, keywordPairs, pickle, r).Fail?
    ensures StepsText(steps, width, keywordPairs, pickle, r) == StepsText(steps[..k], width, keywordPairs, pickle, r)
    decreases |steps| - k
  {
    if k < |steps| {
      var n := |steps| - 1;
      assert steps[..n][..k] == steps[..k];
      StepsFailFrom(steps[..n], k, width, keywordPairs, pickle, r);
    } else {
      assert steps[..k] == steps;
    }
  }
}
