/** The lifecycle event stream and its payloads, the key under which consumers file test
    cases, and the synchronous event broadcaster, reduced to the log of emitted events. */
module Events {
  import opened Wrappers
  import opened Strings
  import opened Statuses
  import opened Gherkin

  /** A place in a feature file or in support code. */
  datatype Location = Location(uri: string, line: nat)

  /** `getTestCaseKey`: `${uri}:${line}`. */
  function TestCaseKey(loc: Location): string
  {
    loc.uri + ":" + NatToString(loc.line)
  }

  /** The key identifies the location: a uri may itself hold ':' but the decimal line
      cannot, so the last ':' separates the two. */
  lemma TestCaseKeyInjective(a: Location, b: Location)
    requires TestCaseKey(a) == TestCaseKey(b)
    ensures a == b
  {
    var da, db := NatToString(a.line), NatToString(b.line);
    var s := TestCaseKey(a);
    assert s == a.uri + ":" + da;
    assert s == b.uri + ":" + db;
    LastColonSeparates(a.uri, da);
    LastColonSeparates(b.uri, db);
    assert a.uri == s[..|a.uri|] == b.uri;
    assert da == s[|a.uri| + 1..] == db;
    NatToStringInjective(a.line, b.line);
  }

  /** Position of the last occurrence of `c` in `s`. */
  function LastIndexOf(s: string, c: char): Option<nat>
    decreases |s|
  {
    if s == [] then None
    else if s[|s| - 1] == c then Some(|s| - 1)
    else LastIndexOf(s[..|s| - 1], c)
  }

  lemma {:induction false} LastColonSeparates(uri: string, digits: string)
    requires forall i :: 0 <= i < |digits| ==> IsDigit(digits[i])
    ensures LastIndexOf(uri + ":" + digits, ':') == Some(|uri|)
    decreases |digits|
  {
    var s := uri + ":" + digits;
    if digits != [] {
      assert IsDigit(digits[|digits| - 1]);
      assert s[..|s| - 1] == uri + ":" + digits[..|digits| - 1];
      LastColonSeparates(uri, digits[..|digits| - 1]);
    } else {
      assert s[|s| - 1] == ':';
    }
  }

  /** A thrown value: an `Error` with a stack, or any other value (rendered as `value`). */
  datatype Exception = Exception(stack: Option<string>, value: string)

  /** One candidate of an ambiguous match: `_.pick(definition, ['pattern', 'line', 'uri'])`. */
  datatype Match = Match(pattern: string, line: nat, uri: string)

  /** The result of one test step. */
  datatype StepResult = StepResult(
    status: Status, duration: Option<nat>, exception: Option<Exception>, matches: Option<seq<Match>>)

  function StatusOnly(status: Status): StepResult
  {
    StepResult(status, None, None, None)
  }

  /** A prepared test step; `result` is filled in by the collectors once it finishes. */
  datatype TestStep = TestStep(
    sourceLocation: Option<Location>, actionLocation: Option<Location>, result: Option<StepResult>)

  datatype TestCaseResult = TestCaseResult(status: Status, duration: Option<nat>)

  datatype Event =
    | TestRunStarted
    | TestRunFinished
    | Source(uri: string, data: string)
    | GherkinDocumentEvent(uri: string, document: GherkinDocument)
    | PickleEvent(pickle: Pickle, uri: string)
    | PickleAccepted(pickle: Pickle, uri: string)
    | PickleRejected(pickle: Pickle, uri: string)
    | TestCasePrepared(testCase: Location, steps: seq<TestStep>)
    | TestCaseStarted(testCase: Location)
    | TestStepStarted(testCase: Location, index: nat)
    | TestStepFinished(testCase: Location, index: nat, result: StepResult)
    | TestCaseFinished(testCase: Location, caseResult: TestCaseResult)

  /** The event emitter shared by the runtime, the runners and the CLI helpers. Dispatch is
      synchronous, so the order of this log is the order every listener observes. */
  class Broadcaster {
    var log: seq<Event>

    constructor ()
      ensures log == []
    {
      log := [];
    }

    method Emit(e: Event)
      modifies this
      ensures log == old(log) + [e]
    {
      log := log + [e];
    }
  }
}
