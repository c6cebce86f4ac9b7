/** The summary formatter (src/formatter/summary_formatter.js): its own bookkeeping of the
    event stream and, when the run finishes, the failing test cases, then the test cases
    with warnings, each section numbered from one, and then the run's summary. */
module SummaryFormatter {
  import opened Wrappers
  import opened Statuses
  import opened Gherkin
  import opened Events
  import opened OrderedMaps
  import opened Seqs
  import opened Bookkeeping
  import opened Rendering
  import opened IssueHelpers

  /** Reading `testCase.result.status` of a test case that never finished throws. */
  const MissingResult := TypeError("status of undefined")

  /** `isTestCaseFailure`: ambiguous or failed. */
  function IsTestCaseFailure(testCase: TestCaseEntry): (r: Result<bool>)
    ensures r.Fail? <==> testCase.result.None?
    ensures r.Fail? ==> r.error == MissingResult
    ensures r == Ok(true) <==>
      testCase.result.Some? && (testCase.result.value.status == Ambiguous || testCase.result.value.status == Failed)
  {
    match testCase.result
    case None => Fail(MissingResult)
    case Some(result) => Ok(result.status in FailingStatuses)
  }

  /** `isTestCaseWarning`: pending or undefined. */
  function IsTestCaseWarning(testCase: TestCaseEntry): (r: Result<bool>)
    ensures r.Fail? <==> testCase.result.None?
    ensures r.Fail? ==> r.error == MissingResult
    ensures r == Ok(true) <==>
      testCase.result.Some? && (testCase.result.value.status == Pending || testCase.result.value.status == Undefined)
  {
    match testCase.result
    case None => Fail(MissingResult)
    case Some(result) => Ok(result.status in StrictFailingStatuses)
  }

  /** No test case is both a failure and a warning; passed and skipped ones are neither. */
  lemma FailureOrWarning(testCase: TestCaseEntry)
    ensures !(IsTestCaseFailure(testCase) == Ok(true) && IsTestCaseWarning(testCase) == Ok(true))
    ensures testCase.result.Some? && testCase.result.value.status in {Passed, Skipped} ==>
      IsTestCaseFailure(testCase) == Ok(false) && IsTestCaseWarning(testCase) == Ok(false)
  {
  }

  predicate Failing(testCase: TestCaseEntry)
  {
    IsTestCaseFailure(testCase) == Ok(true)
  }

  predicate Warning(testCase: TestCaseEntry)
  {
    IsTestCaseWarning(testCase) == Ok(true)
  }

  datatype Partition = Partition(failures: seq<TestCaseEntry>, warnings: seq<TestCaseEntry>)

  /** The `forEach` of `logSummary`, test case by test case in map order: a failure is
      pushed onto the failures, otherwise a warning onto the warnings. */
  function Classify(testCases: seq<TestCaseEntry>): Result<Partition>
    decreases |testCases|
  {
    if testCases == [] then Ok(Partition([], []))
    else
      var n := |testCases| - 1;
      match Classify(testCases[..n])
      case Fail(e) => Fail(e)
      case Ok(issues) =>
        match IsTestCaseFailure(testCases[n])
        case Fail(e) => Fail(e)
        case Ok(failure) =>
          if failure then Ok(issues.(failures := issues.failures + [testCases[n]]))
          else if IsTestCaseWarning(testCases[n]) == Ok(true) then Ok(issues.(warnings := issues.warnings + [testCases[n]]))
          else Ok(issues)
  }

  /** The partition throws exactly when some test case has no result; otherwise the
      failures and the warnings are the failing and the warning test cases, each in map
      order. */
  lemma {:induction false} ClassifySpec(testCases: seq<TestCaseEntry>)
    ensures Classify(testCases).Fail? <==> exists i :: 0 <= i < |testCases| && testCases[i].result.None?
    ensures Classify(testCases).Fail? ==> Classify(testCases).error == MissingResult
    ensures Classify(testCases).Ok? ==>
      Classify(testCases).value == Partition(Filter(testCases, Failing), Filter(testCases, Warning))
    decreases |testCases|
  {
    if testCases != [] {
      var n := |testCases| - 1;
      ClassifySpec(testCases[..n]);
      if exists i :: 0 <= i < n && testCases[..n][i].result.None? {
        var i :| 0 <= i < n && testCases[..n][i].result.None?;
        assert testCases[i] == testCases[..n][i];
      }
      if exists i :: 0 <= i < |testCases| && testCases[i].result.None? {
        var i :| 0 <= i < |testCases| && testCases[i].result.None?;
        if i < n {
          assert testCases[..n][i] == testCases[i];
        }
      }
    }
  }

  /** Every test case with a result lands in the failures when it failed or was ambiguous,
      in the warnings when it is pending or undefined, and nowhere else. */
  lemma ClassifyPartitions(testCases: seq<TestCaseEntry>)
    requires Classify(testCases).Ok?
    ensures forall t :: t in Classify(testCases).value.failures <==> t in testCases && Failing(t)
    ensures forall t :: t in Classify(testCases).value.warnings <==> t in testCases && Warning(t)
    ensures forall t :: !(t in Classify(testCases).value.failures && t in Classify(testCases).value.warnings)
  {
    ClassifySpec(testCases);
    FilterSpec(testCases, Failing);
    FilterSpec(testCases, Warning);
    forall t ensures !(t in Classify(testCases).value.failures && t in Classify(testCases).value.warnings) {
      FailureOrWarning(t);
    }
  }

  /** Once a prefix of the test cases throws, the whole partition throws the same error. */
  lemma {:induction false} ClassifyFailFrom(testCases: seq<TestCaseEntry>, k: nat)
    requires k <= |testCases|
    requires Classify(testCases[..k]).Fail?
    ensures Classify(testCases) == Classify(testCases[..k])
    decreases |testCases| - k
  {
    if k < |testCases| {
      var n := |testCases| - 1;
      assert testCases[..n][..k] == testCases[..k];
      ClassifyFailFrom(testCases[..n], k);
    } else {
      assert testCases[..k] == testCases;
    }
  }

  /** What a handler logged, and whether it returned or threw. */
  datatype Logged = Logged(lines: seq<string>, outcome: Outcome)

  /** One issue of the summary: the document by the test case's uri, the pickle by its key,
      and no steps, since `logIssues` passes none. */
  function IssueOf(number: nat, testCase: TestCaseEntry, gherkinDocumentMap: OrderedMap<string, GherkinDocument>,
                   pickleMap: OrderedMap<string, Pickle>, r: Renderers): (t: Result<string>)
    ensures t.Ok? <==>
      TestCaseKey(testCase.sourceLocation) in Keys(pickleMap) && testCase.sourceLocation.uri in Keys(gherkinDocumentMap) &&
      Get(gherkinDocumentMap, testCase.sourceLocation.uri).value.feature.Some?
    ensures t.Ok? ==>
      t.value == IssueHeader(number, Get(pickleMap, TestCaseKey(testCase.sourceLocation)).value.name, testCase.sourceLocation, r) + "\n"
  {
    var gherkinDocument := Get(gherkinDocumentMap, testCase.sourceLocation.uri);
    var pickle := Get(pickleMap, TestCaseKey(testCase.sourceLocation));
    IssueShape(number, gherkinDocument, pickle, [], testCase.sourceLocation, r);
    IssueText(number, gherkinDocument, pickle, [], testCase.sourceLocation, r)
  }

  /** `IssueOf` over the formatter's maps, as a function of the number and the test case. */
  function Issues(gherkinDocumentMap: OrderedMap<string, GherkinDocument>, pickleMap: OrderedMap<string, Pickle>,
                  r: Renderers): (nat, TestCaseEntry) -> Result<string>
  {
    (number: nat, testCase: TestCaseEntry) => IssueOf(number, testCase, gherkinDocumentMap, pickleMap, r)
  }

  /** The issues logged one by one, numbered from one, up to the first that throws. */
  function IssuesLog<T>(issues: seq<T>, issue: (nat, T) -> Result<string>): Logged
    decreases |issues|
  {
    if issues == [] then Logged([], Pass)
    else
      var n := |issues| - 1;
      var before := IssuesLog(issues[..n], issue);
      if before.outcome.Throw? then before
      else
        match issue(n + 1, issues[n])
        case Fail(e) => Logged(before.lines, Throw(e))
        case Ok(t) => Logged(before.lines + [t], Pass)
  }

  /** Issue `i` is logged as number `i + 1`; the log either holds every issue, or the
      issues before the first one that throws, with that one's error. */
  lemma {:induction false} IssuesLogSpec<T>(issues: seq<T>, issue: (nat, T) -> Result<string>)
    ensures var log := IssuesLog(issues, issue);
      |log.lines| <= |issues| &&
      (forall i :: 0 <= i < |log.lines| ==> issue(i + 1, issues[i]) == Ok(log.lines[i])) &&
      (log.outcome.Pass? ==> |log.lines| == |issues|) &&
      (log.outcome.Throw? ==>
        |log.lines| < |issues| && issue(|log.lines| + 1, issues[|log.lines|]) == Fail(log.outcome.error))
    decreases |issues|
  {
    if issues != [] {
      var n := |issues| - 1;
      IssuesLogSpec(issues[..n], issue);
      assert forall i :: 0 <= i < n ==> issues[..n][i] == issues[i];
    }
  }

  /** Once a prefix of the issues throws, logging all of them logs the same and throws the same. */
  lemma {:induction false} IssuesLogFailFrom<T>(issues: seq<T>, k: nat, issue: (nat, T) -> Result<string>)
    requires k <= |issues|
    requires IssuesLog(issues[..k], issue).outcome.Throw?
    ensures IssuesLog(issues, issue) == IssuesLog(issues[..k], issue)
    decreases |issues| - k
  {
    if k < |issues| {
      var n := |issues| - 1;
      assert issues[..n][..k] == issues[..k];
      IssuesLogFailFrom(issues[..n], k, issue);
    } else {
      assert issues[..k] == issues;
    }
  }

  /** One more issue that does not throw is logged after the ones before it. */
  lemma IssuesLogAppend<T>(issues: seq<T>, i: nat, issue: (nat, T) -> Result<string>)
    requires i < |issues|
    requires IssuesLog(issues[..i], issue).outcome.Pass?
    requires issue(i + 1, issues[i]).Ok?
    ensures IssuesLog(issues[..i + 1], issue) ==
      Logged(IssuesLog(issues[..i], issue).lines + [issue(i + 1, issues[i]).value], Pass)
  {
    assert issues[..i + 1][..i] == issues[..i];
  }

  /** What `logIssues` logs: the title line, then the issues. */
  function IssuesSection<T>(title: string, issues: seq<T>, issue: (nat, T) -> Result<string>): Logged
  {
    var log := IssuesLog(issues, issue);
    Logged([title + ":\n\n"] + log.lines, log.outcome)
  }

  /** A section of the summary: logged only when it has issues. */
  function Section<T>(title: string, issues: seq<T>, issue: (nat, T) -> Result<string>): Logged
  {
    if issues == [] then Logged([], Pass) else IssuesSection(title, issues, issue)
  }

  /** A section that completes is empty without issues, and otherwise its title line followed
      by one line per issue, issue `i` numbered `i + 1`. */
  lemma SectionSpec<T>(title: string, issues: seq<T>, issue: (nat, T) -> Result<string>)
    requires Section(title, issues, issue).outcome.Pass?
    ensures var lines := Section(title, issues, issue).lines;
      (issues == [] ==> lines == []) &&
      (issues != [] ==>
        |lines| == |issues| + 1 && lines[0] == title + ":\n\n" &&
        forall i :: 0 <= i < |issues| ==> issue(i + 1, issues[i]) == Ok(lines[i + 1]))
  {
    IssuesLogSpec(issues, issue);
  }

  /** `logSummary`: the failures section, the warnings section, then the summary; a throw
      stops the output where it happens. */
  function SummaryLog(testCaseMap: OrderedMap<string, TestCaseEntry>, issue: (nat, TestCaseEntry) -> Result<string>,
                      formatSummary: OrderedMap<string, TestCaseEntry> -> string): Logged
  {
    match Classify(Values(testCaseMap))
    case Fail(e) => Logged([], Throw(e))
    case Ok(issues) =>
      var failures := Section("Failures", issues.failures, issue);
      if failures.outcome.Throw? then failures
      else
        var warnings := Section("Warnings", issues.warnings, issue);
        if warnings.outcome.Throw? then Logged(failures.lines + warnings.lines, warnings.outcome)
        else Logged(failures.lines + warnings.lines + [formatSummary(testCaseMap)], Pass)
  }

  /** The summary for a known partition: the failures section, then the warnings section,
      then the summary line, stopping at the first section that throws. */
  lemma SummaryLogOf(testCaseMap: OrderedMap<string, TestCaseEntry>, issue: (nat, TestCaseEntry) -> Result<string>,
                     formatSummary: OrderedMap<string, TestCaseEntry> -> string, p: Partition)
    requires Classify(Values(testCaseMap)) == Ok(p)
    ensures var f := Section("Failures", p.failures, issue);
      var w := Section("Warnings", p.warnings, issue);
      SummaryLog(testCaseMap, issue, formatSummary) ==
        if f.outcome.Throw? then f
        else if w.outcome.Throw? then Logged(f.lines + w.lines, w.outcome)
        else Logged(f.lines + w.lines + [formatSummary(testCaseMap)], Pass)
  {
  }

  /** When the summary completes, the failures title opens the output if there are failures,
      the warnings title follows the failures' issues if there are warnings, each issue
      is one line numbered within its section, and the summary is last; with neither, the
      summary is all. */
  lemma SummaryLogOrder(testCaseMap: OrderedMap<string, TestCaseEntry>, issue: (nat, TestCaseEntry) -> Result<string>,
                        formatSummary: OrderedMap<string, TestCaseEntry> -> string)
    requires SummaryLog(testCaseMap, issue, formatSummary).outcome.Pass?
    ensures Classify(Values(testCaseMap)).Ok?
    ensures var issues := Classify(Values(testCaseMap)).value;
      var lines := SummaryLog(testCaseMap, issue, formatSummary).lines;
      var nf := if issues.failures != [] then |issues.failures| + 1 else 0;
      var nw := if issues.warnings != [] then |issues.warnings| + 1 else 0;
      |lines| == nf + nw + 1 &&
      lines[|lines| - 1] == formatSummary(testCaseMap) &&
      (issues.failures != [] ==> lines[0] == "Failures:\n\n") &&
      (issues.warnings != [] ==> lines[nf] == "Warnings:\n\n") &&
      (forall i :: 0 <= i < |issues.failures| ==> issue(i + 1, issues.failures[i]) == Ok(lines[i + 1])) &&
      (forall i :: 0 <= i < |issues.warnings| ==> issue(i + 1, issues.warnings[i]) == Ok(lines[nf + i + 1]))
  {
    var issues := Classify(Values(testCaseMap)).value;
    SummaryLogOf(testCaseMap, issue, formatSummary, issues);
    var f := Section("Failures", issues.failures, issue);
    var w := Section("Warnings", issues.warnings, issue);
    assert f.outcome.Pass? && w.outcome.Pass?;
    SectionSpec("Failures", issues.failures, issue);
    SectionSpec("Warnings", issues.warnings, issue);
    SummaryLayout(f.lines, w.lines, formatSummary(testCaseMap));
  }

  /** Where the parts of `a + b + [last]` sit. */
  lemma SummaryLayout<T>(a: seq<T>, b: seq<T>, last: T)
    ensures |a + b + [last]| == |a| + |b| + 1 && (a + b + [last])[|a| + |b|] == last
    ensures forall i :: 0 <= i < |a| ==> (a + b + [last])[i] == a[i]
    ensures forall i :: 0 <= i < |b| ==> (a + b + [last])[|a| + i] == b[i]
  {
  }

  class SummaryFormatter {
    var gherkinDocumentMap: OrderedMap<string, GherkinDocument>
    var pickleMap: OrderedMap<string, Pickle>
    var testCaseMap: OrderedMap<string, TestCaseEntry>
    /** What `this.log` has written, one entry per call. */
    var output: seq<string>
    const renderers: Renderers
    /** `formatSummary` over the test cases (the run's duration is not modelled). */
    const formatSummary: OrderedMap<string, TestCaseEntry> -> string

    ghost predicate Valid()
      reads this
    {
      OrderedMaps.Valid(gherkinDocumentMap) && OrderedMaps.Valid(pickleMap) &&
      OrderedMaps.Valid(testCaseMap) && KeyedByLocation(testCaseMap)
    }

    constructor (renderers: Renderers, formatSummary: OrderedMap<string, TestCaseEntry> -> string)
      ensures Valid()
      ensures gherkinDocumentMap == Empty() && pickleMap == Empty() && testCaseMap == Empty() && output == []
      ensures this.renderers == renderers && this.formatSummary == formatSummary
    {
      gherkinDocumentMap, pickleMap, testCaseMap := Empty(), Empty(), Empty();
      output := [];
      this.renderers := renderers;
      this.formatSummary := formatSummary;
    }

    /** `storeGherkinDocument`: `Map.set` by uri. */
    method StoreGherkinDocument(document: GherkinDocument, uri: string)
      requires Valid()
      modifies this`gherkinDocumentMap
      ensures Valid()
      ensures gherkinDocumentMap == Set(old(gherkinDocumentMap), uri, document)
      ensures Get(gherkinDocumentMap, uri) == Some(document)
    {
      gherkinDocumentMap := Set(gherkinDocumentMap, uri, document);
    }

    /** `storePickle`: filed under the uri and the line of the pickle's first location. */
    method StorePickle(pickle: Pickle, uri: string)
      requires Valid()
      modifies this`pickleMap
      ensures Valid()
      ensures pickleMap == Set(old(pickleMap), PickleKey(uri, pickle), pickle)
      ensures Get(pickleMap, TestCaseKey(Location(uri, pickle.locations[0]))) == Some(pickle)
    {
      pickleMap := Set(pickleMap, PickleKey(uri, pickle), pickle);
    }

    /** `storeTestCase`: sets the key to `{sourceLocation, steps}`, with no result. */
    method StoreTestCase(sourceLocation: Location, steps: seq<TestStep>)
      requires Valid()
      modifies this`testCaseMap
      ensures Valid()
      ensures testCaseMap == Set(old(testCaseMap), TestCaseKey(sourceLocation), TestCaseEntry(sourceLocation, steps, None))
    {
      testCaseMap := Set(testCaseMap, TestCaseKey(sourceLocation), TestCaseEntry(sourceLocation, steps, None));
    }

    /** `storeTestStepResult`: only `steps[index].result` of that test case changes; a
        missing test case or step throws and nothing changes. */
    method StoreTestStepResult(index: nat, testCase: Location, result: StepResult) returns (o: Outcome)
      requires Valid()
      modifies this`testCaseMap
      ensures Valid()
      ensures o.Pass? <==> StoreStepResultIn(old(testCaseMap), TestCaseKey(testCase), index, result).Ok?
      ensures testCaseMap == if o.Pass? then StoreStepResultIn(old(testCaseMap), TestCaseKey(testCase), index, result).value
                             else old(testCaseMap)
    {
      match StoreStepResultIn(testCaseMap, TestCaseKey(testCase), index, result)
      case Fail(e) =>
        o := Throw(e);
      case Ok(m) =>
        testCaseMap := m;
        o := Pass;
    }

    /** `storeTestCaseResult`: only that test case's `result` changes; a missing test case
        throws and nothing changes. */
    method StoreTestCaseResult(sourceLocation: Location, result: TestCaseResult) returns (o: Outcome)
      requires Valid()
      modifies this`testCaseMap
      ensures Valid()
      ensures o.Pass? <==> TestCaseKey(sourceLocation) in Keys(old(testCaseMap))
      ensures testCaseMap == if o.Pass? then StoreCaseResultIn(old(testCaseMap), TestCaseKey(sourceLocation), result).value
                             else old(testCaseMap)
    {
      match StoreCaseResultIn(testCaseMap, TestCaseKey(sourceLocation), result)
      case Fail(e) =>
        o := Throw(e);
      case Ok(m) =>
        testCaseMap := m;
        o := Pass;
    }

    /** The loop of `logSummary` that sorts the test cases into failures and warnings. */
    method PartitionTestCases() returns (res: Result<Partition>)
      ensures res == Classify(Values(testCaseMap))
    {
      var testCases := Values(testCaseMap);
      var failures, warnings := [], [];
      var i := 0;
      while i < |testCases|
        invariant 0 <= i <= |testCases|
        invariant Classify(testCases[..i]) == Ok(Partition(failures, warnings))
      {
        assert testCases[..i + 1][..i] == testCases[..i];
        var failure := IsTestCaseFailure(testCases[i]);
        if failure.Fail? {
          ClassifyFailFrom(testCases, i + 1);
          return Fail(failure.error);
        }
        if failure.value {
          failures := failures + [testCases[i]];
        } else if IsTestCaseWarning(testCases[i]).value {
          warnings := warnings + [testCases[i]];
        }
        i := i + 1;
      }
      assert testCases[..i] == testCases;
      res := Ok(Partition(failures, warnings));
    }

    method Log(text: string)
      modifies this`output
      ensures output == old(output) + [text]
    {
      output := output + [text];
    }

    /** `logIssues`: the title line, then each issue numbered from one; a throw stops the
        loop with the issues before it logged. */
    method LogIssues(issues: seq<TestCaseEntry>, title: string) returns (o: Outcome)
      modifies this`output
      ensures output == old(output) + IssuesSection(title, issues, Issues(gherkinDocumentMap, pickleMap, renderers)).lines
      ensures o == IssuesSection(title, issues, Issues(gherkinDocumentMap, pickleMap, renderers)).outcome
    {
      var issue := Issues(gherkinDocumentMap, pickleMap, renderers);
      Log(title + ":\n\n");
      ghost var start := output;
      ghost var logged := [];
      var i := 0;
      while i < |issues|
        invariant 0 <= i <= |issues|
        invariant IssuesLog(issues[..i], issue) == Logged(logged, Pass)
        invariant output == start + logged
      {
        var testCase := issues[i];
        var text := FormatIssue(i + 1, Get(gherkinDocumentMap, testCase.sourceLocation.uri),
                                Get(pickleMap, TestCaseKey(testCase.sourceLocation)), [], testCase.sourceLocation, renderers);
        assert text == issue(i + 1, issues[i]);
        if text.Fail? {
          assert issues[..i + 1][..i] == issues[..i];
          IssuesLogFailFrom(issues, i + 1, issue);
          ConcatAssoc(old(output), [title + ":\n\n"], logged);
          return Throw(text.error);
        }
        IssuesLogAppend(issues, i, issue);
        Log(text.value);
        ConcatAssoc(start, logged, [text.value]);
        logged := logged + [text.value];
        i := i + 1;
      }
      assert issues[..i] == issues;
      ConcatAssoc(old(output), [title + ":\n\n"], logged);
      o := Pass;
    }

    /** A section of `logSummary`: `logIssues` runs only when there are issues. */
    method LogSection(issues: seq<TestCaseEntry>, title: string) returns (o: Outcome)
      modifies this`output
      ensures output == old(output) + Section(title, issues, Issues(gherkinDocumentMap, pickleMap, renderers)).lines
      ensures o == Section(title, issues, Issues(gherkinDocumentMap, pickleMap, renderers)).outcome
    {
      if issues != [] {
        o := LogIssues(issues, title);
      } else {
        o := Pass;
      }
    }

    /** `logSummary`, on `test-run-finished`. */
    method LogSummary() returns (o: Outcome)
      modifies this`output
      ensures output == old(output) + SummaryLog(testCaseMap, Issues(gherkinDocumentMap, pickleMap, renderers), formatSummary).lines
      ensures o == SummaryLog(testCaseMap, Issues(gherkinDocumentMap, pickleMap, renderers), formatSummary).outcome
    {
      ghost var issue := Issues(gherkinDocumentMap, pickleMap, renderers);
      var issues := PartitionTestCases();
      if issues.Fail? {
        return Throw(issues.error);
      }
      SummaryLogOf(testCaseMap, issue, formatSummary, issues.value);
      ghost var f := Section("Failures", issues.value.failures, issue);
      ghost var w := Section("Warnings", issues.value.warnings, issue);
      o := LogSection(issues.value.failures, "Failures");
      if o.Throw? {
        return;
      }
      o := LogSection(issues.value.warnings, "Warnings");
      ConcatAssoc(old(output), f.lines, w.lines);
      if o.Throw? {
        return;
      }
      Log(formatSummary(testCaseMap));
      ConcatAssoc(old(output), f.lines + w.lines, [formatSummary(testCaseMap)]);
    }
  }
}
