/** The run loop (src/runtime/index.js): the test cases run one after the other, each with
    its own runner on the shared broadcaster, between `test-run-started` and
    `test-run-finished`; a listener on `test-case-finished` clears the `success` flag for
    any status other than passed, and `start` returns that flag. */
module Runtime {
  import opened Wrappers
  import opened Statuses
  import opened Events
  import opened Seqs
  import opened TestCaseRunner

  /** A call into the stack trace filter, with the number of events emitted before it. */
  datatype FilterCall = Filtered(at: nat) | Unfiltered(at: nat)

  /** The stack trace filter, reduced to the calls made to it (its effect on stack traces
      is not modelled). */
  class StackTraceFilter {
    var calls: seq<FilterCall>

    constructor ()
      ensures calls == []
    {
      calls := [];
    }

    method Filter(at: nat)
      modifies this
      ensures calls == old(calls) + [Filtered(at)]
    {
      calls := calls + [Filtered(at)];
    }

    method Unfilter(at: nat)
      modifies this
      ensures calls == old(calls) + [Unfiltered(at)]
    {
      calls := calls + [Unfiltered(at)];
    }
  }

  /** `options || {}`: without options every flag reads as false. */
  const NoOptions := Options(false, false, false, false)

  /** The events of a list of test cases run one after the other, given each one's events. */
  function Sequential(caseEvents: TestCase -> seq<Event>, testCases: seq<TestCase>): seq<Event>
    decreases |testCases|
  {
    if testCases == [] then []
    else
      var n := |testCases| - 1;
      Sequential(caseEvents, testCases[..n]) + caseEvents(testCases[n])
  }

  lemma {:induction false} SequentialConcat(caseEvents: TestCase -> seq<Event>, xs: seq<TestCase>, ys: seq<TestCase>)
    ensures Sequential(caseEvents, xs + ys) == Sequential(caseEvents, xs) + Sequential(caseEvents, ys)
    decreases |ys|
  {
    if ys == [] {
      assert xs + ys == xs;
    } else {
      var n := |ys| - 1;
      assert (xs + ys)[..|xs + ys| - 1] == xs + ys[..n];
      assert (xs + ys)[|xs + ys| - 1] == ys[n];
      SequentialConcat(caseEvents, xs, ys[..n]);
    }
  }

  /** When each test case's events end with its only `test-case-finished`, which carries
      `status(tc)`, the finished events of the whole run are passed exactly when every
      test case's status is. */
  lemma {:induction false} SequentialFinished(caseEvents: TestCase -> seq<Event>, status: TestCase -> Status,
                                              testCases: seq<TestCase>)
    requires forall tc :: |caseEvents(tc)| > 0 &&
               caseEvents(tc)[|caseEvents(tc)| - 1] == TestCaseFinished(TestCaseLocation(tc), TestCaseResult(status(tc), None))
    requires forall tc, j :: 0 <= j < |caseEvents(tc)| - 1 ==> !caseEvents(tc)[j].TestCaseFinished?
    ensures (forall i :: 0 <= i < |testCases| ==> status(testCases[i]) == Passed) <==>
            forall e :: e in Sequential(caseEvents, testCases) && e.TestCaseFinished? ==> e.caseResult.status == Passed
    decreases |testCases|
  {
    if testCases != [] {
      var n := |testCases| - 1;
      var init := testCases[..n];
      var tc := testCases[n];
      SequentialFinished(caseEvents, status, init);
      var es := caseEvents(tc);
      assert forall e :: e in es && e.TestCaseFinished? ==> e.caseResult.status == status(tc) by {
        forall e | e in es && e.TestCaseFinished? ensures e.caseResult.status == status(tc) {
          var j :| 0 <= j < |es| && es[j] == e;
        }
      }
      assert es[|es| - 1] in es;
      assert forall i :: 0 <= i < n ==> testCases[i] == init[i];
    }
  }

  /** Every event of running the test cases in order, each test case's events together. */
  function RunEvents(lib: SupportCodeLibrary, run: StepRunner, options: Options, testCases: seq<TestCase>): seq<Event>
  {
    Sequential(tc => CaseEvents(lib, run, options, tc), testCases)
  }

  /** Whether every test case finishes passed. */
  predicate AllPassed(lib: SupportCodeLibrary, run: StepRunner, options: Options, testCases: seq<TestCase>)
  {
    forall i :: 0 <= i < |testCases| ==> FinalStatus(lib, run, options, testCases[i]) == Passed
  }

  /** Test cases run strictly in list order: the events of test case `i` sit, whole, between
      those of the test cases before it and those of the test cases after it. */
  lemma RunEventsInOrder(lib: SupportCodeLibrary, run: StepRunner, options: Options, testCases: seq<TestCase>, i: nat)
    requires i < |testCases|
    ensures RunEvents(lib, run, options, testCases) ==
            RunEvents(lib, run, options, testCases[..i]) + CaseEvents(lib, run, options, testCases[i]) +
            RunEvents(lib, run, options, testCases[i + 1..])
  {
    var f := tc => CaseEvents(lib, run, options, tc);
    assert testCases == testCases[..i] + [testCases[i]] + testCases[i + 1..];
    SequentialConcat(f, testCases[..i] + [testCases[i]], testCases[i + 1..]);
    SequentialConcat(f, testCases[..i], [testCases[i]]);
    assert [testCases[i]][..0] == [];
  }

  /** Every test case passed exactly when every `test-case-finished` event of the run
      carries the status passed. */
  lemma AllPassedIffFinishedPassed(lib: SupportCodeLibrary, run: StepRunner, options: Options, testCases: seq<TestCase>)
    ensures AllPassed(lib, run, options, testCases) <==>
            forall e :: e in RunEvents(lib, run, options, testCases) && e.TestCaseFinished? ==> e.caseResult.status == Passed
  {
    var f := tc => CaseEvents(lib, run, options, tc);
    var g := tc => FinalStatus(lib, run, options, tc);
    forall tc ensures |f(tc)| > 0 && f(tc)[|f(tc)| - 1] == TestCaseFinished(TestCaseLocation(tc), TestCaseResult(g(tc), None)) {
      CaseEventOrder(lib, run, options, tc);
    }
    forall tc ensures forall j :: 0 <= j < |f(tc)| - 1 ==> !f(tc)[j].TestCaseFinished? {
      CaseEventPayloads(lib, run, options, tc);
    }
    SequentialFinished(f, g, testCases);
  }

  /** The events of one more test case follow those of the test cases before it. */
  lemma RunEventsSnoc(lib: SupportCodeLibrary, run: StepRunner, options: Options, done: seq<TestCase>, tc: TestCase)
    ensures RunEvents(lib, run, options, done + [tc]) == RunEvents(lib, run, options, done) + CaseEvents(lib, run, options, tc)
  {
    assert (done + [tc])[..|done|] == done;
  }

  /** One more test case keeps every test case passed exactly when it passes itself. */
  lemma AllPassedSnoc(lib: SupportCodeLibrary, run: StepRunner, options: Options, done: seq<TestCase>, tc: TestCase)
    ensures AllPassed(lib, run, options, done + [tc]) == (AllPassed(lib, run, options, done) && FinalStatus(lib, run, options, tc) == Passed)
  {
    assert (done + [tc])[|done|] == tc;
    assert forall i :: 0 <= i < |done| ==> (done + [tc])[i] == done[i];
  }

  class Runtime {
    const bus: Broadcaster
    const options: Options
    const stackTraceFilter: StackTraceFilter
    const supportCodeLibrary: SupportCodeLibrary
    const stepRunner: StepRunner
    const testCases: seq<TestCase>
    var success: bool

    /** Absent options read as no flags set and absent test cases as none; `success` starts true. */
    constructor (bus: Broadcaster, options: Option<Options>, supportCodeLibrary: SupportCodeLibrary,
                 testCases: Option<seq<TestCase>>, stepRunner: StepRunner)
      ensures this.bus == bus && this.supportCodeLibrary == supportCodeLibrary && this.stepRunner == stepRunner
      ensures this.options == (if options.Some? then options.value else NoOptions)
      ensures this.testCases == (if testCases.Some? then testCases.value else [])
      ensures fresh(stackTraceFilter) && stackTraceFilter.calls == []
      ensures success
    {
      this.bus := bus;
      this.options := if options.Some? then options.value else NoOptions;
      this.stackTraceFilter := new StackTraceFilter();
      this.supportCodeLibrary := supportCodeLibrary;
      this.testCases := if testCases.Some? then testCases.value else [];
      this.stepRunner := stepRunner;
      success := true;
    }

    /** The `test-case-finished` listener: any status but passed clears `success` for good. */
    method OnTestCaseFinished(result: TestCaseResult)
      modifies this`success
      ensures success == (old(success) && result.status == Passed)
    {
      if result.status != Passed {
        success := false;
      }
    }

    /** `runTestCase`: a fresh runner runs the test case to completion. The listener is
        applied as the runner's last event, `test-case-finished`, is emitted. */
    method RunTestCase(testCase: TestCase)
      modifies bus, this`success
      ensures bus.log == old(bus.log) + CaseEvents(supportCodeLibrary, stepRunner, options, testCase)
      ensures success == (old(success) && FinalStatus(supportCodeLibrary, stepRunner, options, testCase) == Passed)
    {
      var testCaseRunner := new TestCaseRunner(bus, options, testCase, supportCodeLibrary, stepRunner);
      testCaseRunner.Run();
      OnTestCaseFinished(TestCaseResult(testCaseRunner.result, None));
    }

    /** `Promise.each(this.testCases, ::this.runTestCase)`: the test cases in list order,
        each run to completion before the next starts. */
    method RunTestCases()
      modifies bus, this`success
      ensures bus.log == old(bus.log) + RunEvents(supportCodeLibrary, stepRunner, options, testCases)
      ensures success == (old(success) && AllPassed(supportCodeLibrary, stepRunner, options, testCases))
    {
      var i := 0;
      while i < |testCases|
        invariant 0 <= i <= |testCases|
        invariant bus.log == old(bus.log) + RunEvents(supportCodeLibrary, stepRunner, options, testCases[..i])
        invariant success == (old(success) && AllPassed(supportCodeLibrary, stepRunner, options, testCases[..i]))
      {
        ghost var done := testCases[..i];
        RunTestCase(testCases[i]);
        assert testCases[..i + 1] == done + [testCases[i]];
        RunEventsSnoc(supportCodeLibrary, stepRunner, options, done, testCases[i]);
        ConcatAssoc(old(bus.log), RunEvents(supportCodeLibrary, stepRunner, options, done),
                    CaseEvents(supportCodeLibrary, stepRunner, options, testCases[i]));
        AllPassedSnoc(supportCodeLibrary, stepRunner, options, done, testCases[i]);
        i := i + 1;
      }
      assert testCases[..i] == testCases;
    }

    /** `start`: filter stack traces when asked, `test-run-started`, every test case in list
        order, `test-run-finished`, unfilter when asked; the result is the `success` flag. */
    method Start() returns (ok: bool)
      modifies this`success, bus, stackTraceFilter
      ensures bus.log == old(bus.log) + [TestRunStarted] +
                         RunEvents(supportCodeLibrary, stepRunner, options, testCases) + [TestRunFinished]
      ensures ok == success == (old(success) && AllPassed(supportCodeLibrary, stepRunner, options, testCases))
      ensures stackTraceFilter.calls == old(stackTraceFilter.calls) +
                (if options.filterStacktraces then [Filtered(|old(bus.log)|), Unfiltered(|bus.log|)] else [])
    {
      if options.filterStacktraces {
        stackTraceFilter.Filter(|bus.log|);
      }
      bus.Emit(TestRunStarted);
      RunTestCases();
      bus.Emit(TestRunFinished);
      if options.filterStacktraces {
        stackTraceFilter.Unfilter(|bus.log|);
      }
      ok := success;
    }
  }
}
