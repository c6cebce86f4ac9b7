/** The per-test-case state machine (src/runtime/test_case_runner.js). A runner prepares
    the test case (before hooks, pickle steps, after hooks), then runs each of them in turn
    between a `test-step-started` and a `test-step-finished` event, folding the step results
    into the test case's status.

    The support code the runner consults is abstract: whether a step definition matches a
    step, whether a hook applies to a test case, and what running user code returns are
    oracles (total functions), so every property below holds whatever they answer. */
module TestCaseRunner {
  import opened Wrappers
  import opened Seqs
  import opened Statuses
  import opened Gherkin
  import opened Events

  /** A step definition, as far as the runner reads it. */
  datatype StepDefinition = StepDefinition(pattern: string, uri: string, line: nat)

  /** A before or after hook definition. */
  datatype HookDefinition = HookDefinition(uri: string, line: nat)

  /** The registries of the support code library, with the matching behaviour of their
      entries: `matchesStepName` of a step definition and `appliesToTestCase` of a hook
      (cucumber-expressions and tag expressions, not modelled). */
  datatype SupportCodeLibrary = SupportCodeLibrary(
    beforeHookDefinitions: seq<HookDefinition>,
    afterHookDefinitions: seq<HookDefinition>,
    stepDefinitions: seq<StepDefinition>,
    matchesStepName: (StepDefinition, PickleStep) -> bool,
    appliesToTestCase: (HookDefinition, TestCase) -> bool)

  /** `{dryRun, failFast, filterStacktraces, strict}`; an absent flag reads as false. */
  datatype Options = Options(dryRun: bool, failFast: bool, filterStacktraces: bool, strict: bool)

  /** A test case: a pickle and the uri of its feature file. */
  datatype TestCase = TestCase(uri: string, pickle: Pickle)

  /** What a call into user code runs: a hook, or a pickle step with its one definition. */
  datatype Action = HookAction(hook: HookDefinition) | StepAction(step: PickleStep, definition: StepDefinition)

  /** `StepRunner.run`: the result of running user code for the step at an index of a test case. */
  type StepRunner = (TestCase, nat, Action) -> StepResult

  /** The `testCase` payload of every event the runner emits: the uri and the line of the
      pickle's first location. */
  function TestCaseLocation(tc: TestCase): Location
  {
    Location(tc.uri, tc.pickle.locations[0])
  }

  /** `getBeforeHookDefinitions` / `getAfterHookDefinitions`: the hooks that apply. */
  function ApplicableHooks(lib: SupportCodeLibrary, tc: TestCase, hooks: seq<HookDefinition>): seq<HookDefinition>
  {
    Filter(hooks, h => lib.appliesToTestCase(h, tc))
  }

  /** Hook filtering keeps exactly the applicable hooks, in registration order. */
  lemma ApplicableHooksSpec(lib: SupportCodeLibrary, tc: TestCase, hooks: seq<HookDefinition>, more: seq<HookDefinition>)
    ensures forall h :: h in ApplicableHooks(lib, tc, hooks) <==> h in hooks && lib.appliesToTestCase(h, tc)
    ensures ApplicableHooks(lib, tc, hooks + more) == ApplicableHooks(lib, tc, hooks) + ApplicableHooks(lib, tc, more)
  {
    FilterSpec(hooks, h => lib.appliesToTestCase(h, tc));
    FilterConcat(hooks, more, h => lib.appliesToTestCase(h, tc));
  }

  /** `getStepDefinitions(step)`: the matching step definitions, in registration order. */
  function StepDefinitionsFor(lib: SupportCodeLibrary, step: PickleStep): seq<StepDefinition>
  {
    Filter(lib.stepDefinitions, d => lib.matchesStepName(d, step))
  }

  /** Step definition lookup keeps exactly the definitions whose pattern matches the step
      text, never more than are registered, in registration order and as often as they are
      registered: a library registering `more` after its own definitions finds its own
      matches followed by those of `more`, and a single registered definition is found
      exactly when it matches. */
  lemma StepDefinitionsForSpec(lib: SupportCodeLibrary, step: PickleStep, more: seq<StepDefinition>, single: StepDefinition)
    ensures |StepDefinitionsFor(lib, step)| <= |lib.stepDefinitions|
    ensures forall d :: d in StepDefinitionsFor(lib, step) <==> d in lib.stepDefinitions && lib.matchesStepName(d, step)
    ensures StepDefinitionsFor(lib.(stepDefinitions := lib.stepDefinitions + more), step) ==
            StepDefinitionsFor(lib, step) + StepDefinitionsFor(lib.(stepDefinitions := more), step)
    ensures StepDefinitionsFor(lib.(stepDefinitions := [single]), step) == if lib.matchesStepName(single, step) then [single] else []
  {
    var matches := d => lib.matchesStepName(d, step);
    FilterSpec(lib.stepDefinitions, matches);
    FilterConcat(lib.stepDefinitions, more, matches);
    FilterSingleton(single, matches);
  }

  function DefinitionLocation(d: StepDefinition): Location
  {
    Location(d.uri, d.line)
  }

  function HookLocation(h: HookDefinition): Location
  {
    Location(h.uri, h.line)
  }

  /** `_.pick(d, ['pattern', 'line', 'uri'])` for every candidate of an ambiguous step. */
  function MatchesOf(defs: seq<StepDefinition>): (r: seq<Match>)
    ensures |r| == |defs|
    ensures forall i :: 0 <= i < |defs| ==> r[i] == Match(defs[i].pattern, defs[i].line, defs[i].uri)
  {
    seq(|defs|, i requires 0 <= i < |defs| => Match(defs[i].pattern, defs[i].line, defs[i].uri))
  }

  /** One unit of work of a test case, in the order the runner performs them. */
  datatype PlannedStep = HookStep(hook: HookDefinition) | PickleStepEntry(step: PickleStep)

  function HookPlan(hooks: seq<HookDefinition>): (r: seq<PlannedStep>)
  {
    seq(|hooks|, i requires 0 <= i < |hooks| => HookStep(hooks[i]))
  }

  function StepPlan(steps: seq<PickleStep>): (r: seq<PlannedStep>)
  {
    seq(|steps|, i requires 0 <= i < |steps| => PickleStepEntry(steps[i]))
  }

  /** The applicable before hooks, the pickle steps, then the applicable after hooks. */
  function Plan(lib: SupportCodeLibrary, tc: TestCase): seq<PlannedStep>
  {
    HookPlan(ApplicableHooks(lib, tc, lib.beforeHookDefinitions)) + StepPlan(tc.pickle.steps) +
    HookPlan(ApplicableHooks(lib, tc, lib.afterHookDefinitions))
  }

  /** The entry `emitPrepared` pushes for one planned step: a hook has only an
      `actionLocation`; a pickle step has its `sourceLocation` and, when exactly one
      definition matches it, that definition's location as `actionLocation`. */
  function PreparedEntry(lib: SupportCodeLibrary, tc: TestCase, p: PlannedStep): TestStep
  {
    match p
    case HookStep(h) => TestStep(None, Some(HookLocation(h)), None)
    case PickleStepEntry(step) =>
      var defs := StepDefinitionsFor(lib, step);
      TestStep(Some(Location(tc.uri, step.locations[0])),
               if |defs| == 1 then Some(DefinitionLocation(defs[0])) else None, None)
  }

  function PreparedEntries(lib: SupportCodeLibrary, tc: TestCase, plan: seq<PlannedStep>): (r: seq<TestStep>)
    ensures |r| == |plan|
    decreases |plan|
  {
    if plan == [] then []
    else PreparedEntries(lib, tc, plan[..|plan| - 1]) + [PreparedEntry(lib, tc, plan[|plan| - 1])]
  }

  /** The `steps` payload of `test-case-prepared`. */
  function PreparedSteps(lib: SupportCodeLibrary, tc: TestCase): seq<TestStep>
  {
    PreparedEntries(lib, tc, Plan(lib, tc))
  }

  lemma PreparedEntriesSnoc(lib: SupportCodeLibrary, tc: TestCase, plan: seq<PlannedStep>, p: PlannedStep)
    ensures PreparedEntries(lib, tc, plan + [p]) == PreparedEntries(lib, tc, plan) + [PreparedEntry(lib, tc, p)]
  {
    assert (plan + [p])[..|plan|] == plan;
  }

  lemma {:induction false} PreparedEntriesAt(lib: SupportCodeLibrary, tc: TestCase, plan: seq<PlannedStep>, i: nat)
    requires i < |plan|
    ensures PreparedEntries(lib, tc, plan)[i] == PreparedEntry(lib, tc, plan[i])
    decreases |plan|
  {
    if i < |plan| - 1 {
      PreparedEntriesAt(lib, tc, plan[..|plan| - 1], i);
    }
  }

  /** The prepared step list: one entry per applicable before hook, per pickle step and per
      applicable after hook, in that order; hooks carry only an `actionLocation`; a pickle
      step's entry has the line of its first location, and as `actionLocation` the location
      of the one step definition that matches it, or none when zero or several match. */
  lemma PreparedStepsShape(lib: SupportCodeLibrary, tc: TestCase)
    ensures var before := ApplicableHooks(lib, tc, lib.beforeHookDefinitions);
            var after := ApplicableHooks(lib, tc, lib.afterHookDefinitions);
            var steps := tc.pickle.steps;
            var prepared := PreparedSteps(lib, tc);
            |prepared| == |before| + |steps| + |after| &&
            (forall i :: 0 <= i < |before| ==> prepared[i] == TestStep(None, Some(HookLocation(before[i])), None)) &&
            (forall j :: 0 <= j < |steps| ==>
               prepared[|before| + j].sourceLocation == Some(Location(tc.uri, steps[j].locations[0])) &&
               prepared[|before| + j].actionLocation ==
                 (var defs := StepDefinitionsFor(lib, steps[j]);
                  if |defs| == 1 then Some(DefinitionLocation(defs[0])) else None) &&
               prepared[|before| + j].result.None?) &&
            (forall k :: 0 <= k < |after| ==>
               prepared[|before| + |steps| + k] == TestStep(None, Some(HookLocation(after[k])), None))
  {
    var before := ApplicableHooks(lib, tc, lib.beforeHookDefinitions);
    var after := ApplicableHooks(lib, tc, lib.afterHookDefinitions);
    var steps := tc.pickle.steps;
    var plan := Plan(lib, tc);
    forall i | 0 <= i < |plan| ensures PreparedSteps(lib, tc)[i] == PreparedEntry(lib, tc, plan[i]) {
      PreparedEntriesAt(lib, tc, plan, i);
    }
    assert forall i :: 0 <= i < |before| ==> plan[i] == HookStep(before[i]);
    assert forall j :: 0 <= j < |steps| ==> plan[|before| + j] == PickleStepEntry(steps[j]);
    assert forall k :: 0 <= k < |after| ==> plan[|before| + |steps| + k] == HookStep(after[k]);
  }

  /** `shouldUpdateStatus`: whether a step result replaces the test case's status. */
  function ShouldUpdateStatus(current: Status, stepStatus: Status): bool
  {
    match stepStatus
    case Failed => true
    case Ambiguous | Pending | Skipped | Undefined => current == Passed
    case Passed => false
  }

  /** The test case's status after a step result (`this.result = _.pick(result, 'status')`). */
  function UpdatedStatus(current: Status, stepStatus: Status): Status
  {
    if ShouldUpdateStatus(current, stepStatus) then stepStatus else current
  }

  /** Precedence: a failed step always wins, a passed step never changes the status, and the
      other statuses only replace `passed`; so a non-passed status can only become failed. */
  lemma StatusPrecedence(current: Status, stepStatus: Status)
    ensures stepStatus == Failed ==> UpdatedStatus(current, stepStatus) == Failed
    ensures stepStatus == Passed ==> UpdatedStatus(current, stepStatus) == current
    ensures current == Passed ==> UpdatedStatus(current, stepStatus) == stepStatus
    ensures current != Passed ==> UpdatedStatus(current, stepStatus) in {current, Failed}
  {
  }

  /** What running one step yields: its result, and the calls made into user code. */
  datatype Ran = Ran(result: StepResult, invoked: seq<Action>)

  function Invoke(run: StepRunner, tc: TestCase, index: nat, action: Action): Ran
  {
    Ran(run(tc, index, action), [action])
  }

  /** `runHook`: skipped under dry run, else the hook is run, whatever the status so far. */
  function HookOutcome(run: StepRunner, options: Options, tc: TestCase, index: nat, h: HookDefinition): Ran
  {
    if options.dryRun then Ran(StatusOnly(Skipped), []) else Invoke(run, tc, index, HookAction(h))
  }

  /** `runStep`: undefined without a matching definition, ambiguous with several, skipped
      under dry run or once the test case is no longer passing, else the definition runs. */
  function PickleStepOutcome(lib: SupportCodeLibrary, run: StepRunner, options: Options, tc: TestCase,
                             index: nat, status: Status, step: PickleStep): Ran
  {
    var defs := StepDefinitionsFor(lib, step);
    if |defs| == 0 then Ran(StatusOnly(Undefined), [])
    else if |defs| > 1 then Ran(StepResult(Ambiguous, None, None, Some(MatchesOf(defs))), [])
    else if options.dryRun || status != Passed then Ran(StatusOnly(Skipped), [])
    else Invoke(run, tc, index, StepAction(step, defs[0]))
  }

  function EntryOutcome(lib: SupportCodeLibrary, run: StepRunner, options: Options, tc: TestCase,
                        index: nat, status: Status, p: PlannedStep): Ran
  {
    match p
    case HookStep(h) => HookOutcome(run, options, tc, index, h)
    case PickleStepEntry(step) => PickleStepOutcome(lib, run, options, tc, index, status, step)
  }

  /** The effect of running a plan from a fresh runner: every step's result, the final
      status and the calls made into user code, in order. */
  datatype Trace = Trace(results: seq<StepResult>, status: Status, invoked: seq<Action>)

  function Execute(lib: SupportCodeLibrary, run: StepRunner, options: Options, tc: TestCase,
                   plan: seq<PlannedStep>): (t: Trace)
    ensures |t.results| == |plan|
    decreases |plan|
  {
    if plan == [] then Trace([], Passed, [])
    else
      var prev := Execute(lib, run, options, tc, plan[..|plan| - 1]);
      var o := EntryOutcome(lib, run, options, tc, |plan| - 1, prev.status, plan[|plan| - 1]);
      Trace(prev.results + [o.result], UpdatedStatus(prev.status, o.result.status), prev.invoked + o.invoked)
  }

  /** Running one more step extends the trace by that step's outcome. */
  lemma ExecuteSnoc(lib: SupportCodeLibrary, run: StepRunner, options: Options, tc: TestCase,
                    done: seq<PlannedStep>, p: PlannedStep)
    ensures var prev := Execute(lib, run, options, tc, done);
            var o := EntryOutcome(lib, run, options, tc, |done|, prev.status, p);
            Execute(lib, run, options, tc, done + [p]) ==
              Trace(prev.results + [o.result], UpdatedStatus(prev.status, o.result.status), prev.invoked + o.invoked)
  {
    assert (done + [p])[..|done|] == done;
  }

  /** The result of step `i` is decided by that step and the status reached before it. */
  lemma {:induction false} ExecuteStepAt(lib: SupportCodeLibrary, run: StepRunner, options: Options, tc: TestCase,
                                         plan: seq<PlannedStep>, i: nat)
    requires i < |plan|
    ensures Execute(lib, run, options, tc, plan).results[i] ==
            EntryOutcome(lib, run, options, tc, i, Execute(lib, run, options, tc, plan[..i]).status, plan[i]).result
    decreases |plan|
  {
    if i < |plan| - 1 {
      var init := plan[..|plan| - 1];
      ExecuteStepAt(lib, run, options, tc, init, i);
      assert init[..i] == plan[..i];
    }
  }

  /** A pickle step's result in any run: undefined without a match even after a failure;
      ambiguous, listing the candidates in registration order, with several; skipped with
      one under dry run or after a non-passing step; else whatever its definition returns. */
  lemma PickleStepResult(lib: SupportCodeLibrary, run: StepRunner, options: Options, tc: TestCase,
                         plan: seq<PlannedStep>, i: nat)
    requires i < |plan| && plan[i].PickleStepEntry?
    ensures var r := Execute(lib, run, options, tc, plan).results[i];
            var step := plan[i].step;
            var defs := StepDefinitionsFor(lib, step);
            var before := Execute(lib, run, options, tc, plan[..i]).status;
            (|defs| == 0 ==> r == StatusOnly(Undefined)) &&
            (|defs| > 1 ==> r.status == Ambiguous && r.matches == Some(MatchesOf(defs))) &&
            (|defs| == 1 && (options.dryRun || before != Passed) ==> r == StatusOnly(Skipped)) &&
            (|defs| == 1 && !options.dryRun && before == Passed ==> r == run(tc, i, StepAction(step, defs[0])))
  {
    ExecuteStepAt(lib, run, options, tc, plan, i);
  }

  /** A hook's result in any run: skipped under dry run, else run even after a failure. */
  lemma HookResult(lib: SupportCodeLibrary, run: StepRunner, options: Options, tc: TestCase,
                   plan: seq<PlannedStep>, i: nat)
    requires i < |plan| && plan[i].HookStep?
    ensures var r := Execute(lib, run, options, tc, plan).results[i];
            (options.dryRun ==> r == StatusOnly(Skipped)) &&
            (!options.dryRun ==> r == run(tc, i, HookAction(plan[i].hook)))
  {
    ExecuteStepAt(lib, run, options, tc, plan, i);
  }

  /** Under dry run no user code is called at all. */
  lemma {:induction false} DryRunInvokesNothing(lib: SupportCodeLibrary, run: StepRunner, options: Options, tc: TestCase,
                                                plan: seq<PlannedStep>)
    requires options.dryRun
    ensures Execute(lib, run, options, tc, plan).invoked == []
    decreases |plan|
  {
    if plan != [] {
      DryRunInvokesNothing(lib, run, options, tc, plan[..|plan| - 1]);
    }
  }

  /** The first status other than passed among the results, or passed. */
  function FirstNonPassed(results: seq<StepResult>): Status
  {
    if results == [] then Passed
    else if results[0].status != Passed then results[0].status
    else FirstNonPassed(results[1..])
  }

  lemma {:induction false} FirstNonPassedSnoc(results: seq<StepResult>, r: StepResult)
    ensures FirstNonPassed(results + [r]) == if FirstNonPassed(results) != Passed then FirstNonPassed(results) else r.status
  {
    if results != [] {
      assert (results + [r])[1..] == results[1..] + [r];
      FirstNonPassedSnoc(results[1..], r);
    } else {
      assert [r][1..] == [];
    }
  }

  /** The aggregate status: failed when any step failed, otherwise the status of the first
      step that did not pass, and passed when every step passed (or there were none). */
  lemma {:induction false} AggregateStatus(lib: SupportCodeLibrary, run: StepRunner, options: Options, tc: TestCase,
                                           plan: seq<PlannedStep>)
    ensures var t := Execute(lib, run, options, tc, plan);
            t.status == if exists i :: 0 <= i < |t.results| && t.results[i].status == Failed then Failed
                        else FirstNonPassed(t.results)
    decreases |plan|
  {
    if plan != [] {
      var init := plan[..|plan| - 1];
      AggregateStatus(lib, run, options, tc, init);
      var prev := Execute(lib, run, options, tc, init);
      var t := Execute(lib, run, options, tc, plan);
      var r := t.results[|plan| - 1];
      assert t.results == prev.results + [r];
      FirstNonPassedSnoc(prev.results, r);
      if exists i :: 0 <= i < |prev.results| && prev.results[i].status == Failed {
        var i :| 0 <= i < |prev.results| && prev.results[i].status == Failed;
        assert t.results[i].status == Failed;
      } else if r.status != Failed {
        forall i | 0 <= i < |t.results| ensures t.results[i].status != Failed {
          if i < |prev.results| { assert t.results[i] == prev.results[i]; }
        }
      }
    }
  }

  /** Once a run is no longer passing, the rest of the run can only turn it to failed. */
  lemma {:induction false} StatusNeverRecovers(lib: SupportCodeLibrary, run: StepRunner, options: Options, tc: TestCase,
                                               plan: seq<PlannedStep>, k: nat)
    requires k <= |plan|
    requires Execute(lib, run, options, tc, plan[..k]).status != Passed
    ensures Execute(lib, run, options, tc, plan).status in {Execute(lib, run, options, tc, plan[..k]).status, Failed}
    decreases |plan|
  {
    if k < |plan| {
      var init := plan[..|plan| - 1];
      assert init[..k] == plan[..k];
      StatusNeverRecovers(lib, run, options, tc, init, k);
    } else {
      assert plan[..k] == plan;
    }
  }

  /** The started/finished pair of every step, in index order. */
  function StepEvents(loc: Location, results: seq<StepResult>): (es: seq<Event>)
    ensures |es| == 2 * |results|
    decreases |results|
  {
    if results == [] then []
    else
      var n := |results| - 1;
      StepEvents(loc, results[..n]) + [TestStepStarted(loc, n), TestStepFinished(loc, n, results[n])]
  }

  lemma {:induction false} StepEventsAt(loc: Location, results: seq<StepResult>, i: nat)
    requires i < |results|
    ensures StepEvents(loc, results)[2 * i] == TestStepStarted(loc, i)
    ensures StepEvents(loc, results)[2 * i + 1] == TestStepFinished(loc, i, results[i])
    decreases |results|
  {
    if i < |results| - 1 {
      StepEventsAt(loc, results[..|results| - 1], i);
    }
  }

  /** Every event the runner emits for a test case, in order. */
  function CaseEvents(lib: SupportCodeLibrary, run: StepRunner, options: Options, tc: TestCase): seq<Event>
  {
    var loc := TestCaseLocation(tc);
    var t := Execute(lib, run, options, tc, Plan(lib, tc));
    [TestCasePrepared(loc, PreparedSteps(lib, tc)), TestCaseStarted(loc)] + StepEvents(loc, t.results) +
    [TestCaseFinished(loc, TestCaseResult(t.status, None))]
  }

  /** The status a test case finishes with. */
  function FinalStatus(lib: SupportCodeLibrary, run: StepRunner, options: Options, tc: TestCase): Status
  {
    Execute(lib, run, options, tc, Plan(lib, tc)).status
  }

  /** The location a payload names as its test case, when it has one. */
  function EventTestCase(e: Event): Option<Location>
  {
    match e
    case TestCasePrepared(loc, _) => Some(loc)
    case TestCaseStarted(loc) => Some(loc)
    case TestStepStarted(loc, _) => Some(loc)
    case TestStepFinished(loc, _, _) => Some(loc)
    case TestCaseFinished(loc, _) => Some(loc)
    case _ => None
  }

  /** The step events name the test case and hold no `test-case-finished`. */
  lemma {:induction false} StepEventsPayloads(loc: Location, results: seq<StepResult>)
    ensures forall e :: e in StepEvents(loc, results) ==> EventTestCase(e) == Some(loc) && !e.TestCaseFinished?
    decreases |results|
  {
    if results != [] {
      StepEventsPayloads(loc, results[..|results| - 1]);
    }
  }

  /** Event order per test case: prepared, started, then for each step index i in turn
      `test-step-started{index: i}` immediately followed by `test-step-finished{index: i}`
      with that step's result, and `test-case-finished` with the final status last. */
  lemma CaseEventOrder(lib: SupportCodeLibrary, run: StepRunner, options: Options, tc: TestCase)
    ensures var es := CaseEvents(lib, run, options, tc);
            var loc := TestCaseLocation(tc);
            var t := Execute(lib, run, options, tc, Plan(lib, tc));
            var n := |Plan(lib, tc)|;
            |es| == 2 * n + 3 &&
            es[0] == TestCasePrepared(loc, PreparedSteps(lib, tc)) &&
            es[1] == TestCaseStarted(loc) &&
            (forall i :: 0 <= i < n ==>
               es[2 + 2 * i] == TestStepStarted(loc, i) && es[3 + 2 * i] == TestStepFinished(loc, i, t.results[i])) &&
            es[2 * n + 2] == TestCaseFinished(loc, TestCaseResult(FinalStatus(lib, run, options, tc), None))
  {
    var loc := TestCaseLocation(tc);
    var t := Execute(lib, run, options, tc, Plan(lib, tc));
    var es := CaseEvents(lib, run, options, tc);
    var mid := StepEvents(loc, t.results);
    assert forall k :: 0 <= k < |mid| ==> es[2 + k] == mid[k];
    forall i | 0 <= i < |t.results|
      ensures es[2 + 2 * i] == TestStepStarted(loc, i) && es[3 + 2 * i] == TestStepFinished(loc, i, t.results[i])
    {
      StepEventsAt(loc, t.results, i);
    }
  }

  /** Every payload the runner emits names the test case by its uri and the line of the
      pickle's first location, and only the last event is `test-case-finished`. */
  lemma CaseEventPayloads(lib: SupportCodeLibrary, run: StepRunner, options: Options, tc: TestCase)
    ensures var es := CaseEvents(lib, run, options, tc);
            (forall e :: e in es ==> EventTestCase(e) == Some(TestCaseLocation(tc))) &&
            (forall j :: 0 <= j < |es| - 1 ==> !es[j].TestCaseFinished?)
  {
    var loc := TestCaseLocation(tc);
    var t := Execute(lib, run, options, tc, Plan(lib, tc));
    var es := CaseEvents(lib, run, options, tc);
    var mid := StepEvents(loc, t.results);
    StepEventsPayloads(loc, t.results);
    assert es == [es[0], es[1]] + mid + [es[|es| - 1]];
    forall j | 2 <= j < |es| - 1 ensures es[j] in mid {
      assert es[j] == mid[j - 2];
    }
  }

  /** A test case without steps or applicable hooks is prepared empty and finishes passed. */
  lemma EmptyTestCase(lib: SupportCodeLibrary, run: StepRunner, options: Options, tc: TestCase)
    requires tc.pickle.steps == []
    requires ApplicableHooks(lib, tc, lib.beforeHookDefinitions) == []
    requires ApplicableHooks(lib, tc, lib.afterHookDefinitions) == []
    ensures var loc := TestCaseLocation(tc);
            CaseEvents(lib, run, options, tc) ==
              [TestCasePrepared(loc, []), TestCaseStarted(loc), TestCaseFinished(loc, TestCaseResult(Passed, None))]
  {
    assert Plan(lib, tc) == [];
  }

  /** One runner per test case. The event broadcaster is shared with the rest of the run. */
  class TestCaseRunner {
    const bus: Broadcaster
    const options: Options
    const testCase: TestCase
    const supportCodeLibrary: SupportCodeLibrary
    const stepRunner: StepRunner
    const beforeHookDefinitions: seq<HookDefinition>
    const afterHookDefinitions: seq<HookDefinition>
    var testStepIndex: nat
    var result: Status
    /** The calls made into user code so far (the effect of `StepRunner.run`). */
    var invocations: seq<Action>

    ghost predicate Valid()
    {
      beforeHookDefinitions == ApplicableHooks(supportCodeLibrary, testCase, supportCodeLibrary.beforeHookDefinitions) &&
      afterHookDefinitions == ApplicableHooks(supportCodeLibrary, testCase, supportCodeLibrary.afterHookDefinitions)
    }

    constructor (bus: Broadcaster, options: Options, testCase: TestCase, supportCodeLibrary: SupportCodeLibrary,
                 stepRunner: StepRunner)
      ensures Valid()
      ensures this.bus == bus && this.options == options && this.testCase == testCase
      ensures this.supportCodeLibrary == supportCodeLibrary && this.stepRunner == stepRunner
      ensures testStepIndex == 0 && result == Passed && invocations == []
    {
      this.bus := bus;
      this.options := options;
      this.testCase := testCase;
      this.supportCodeLibrary := supportCodeLibrary;
      this.stepRunner := stepRunner;
      this.beforeHookDefinitions := ApplicableHooks(supportCodeLibrary, testCase, supportCodeLibrary.beforeHookDefinitions);
      this.afterHookDefinitions := ApplicableHooks(supportCodeLibrary, testCase, supportCodeLibrary.afterHookDefinitions);
      testStepIndex := 0;
      result := Passed;
      invocations := [];
    }

    function Loc(): Location
    {
      TestCaseLocation(testCase)
    }

    /** The state after running the steps `done` from a fresh runner whose events start
        after `log0`. */
    ghost predicate Progress(log0: seq<Event>, done: seq<PlannedStep>)
      reads this, bus
    {
      var t := Execute(supportCodeLibrary, stepRunner, options, testCase, done);
      testStepIndex == |done| && result == t.status && invocations == t.invoked &&
      bus.log == log0 + StepEvents(Loc(), t.results)
    }

    /** `emitPrepared`: one `test-case-prepared` event listing the prepared steps. */
    method EmitPrepared()
      requires Valid()
      modifies bus
      ensures bus.log == old(bus.log) + [TestCasePrepared(Loc(), PreparedSteps(supportCodeLibrary, testCase))]
    {
      var steps := CollectPreparedSteps();
      bus.Emit(TestCasePrepared(Loc(), steps));
    }

    /** The `steps` array that `emitPrepared` fills: an entry per before hook, per pickle
        step (with the matching definitions' locations) and per after hook. */
    method CollectPreparedSteps() returns (steps: seq<TestStep>)
      requires Valid()
      ensures steps == PreparedSteps(supportCodeLibrary, testCase)
    {
      assert [] + HookPlan(beforeHookDefinitions) == HookPlan(beforeHookDefinitions);
      steps := PushHookEntries(supportCodeLibrary, testCase, [], [], beforeHookDefinitions);
      ghost var plan := HookPlan(beforeHookDefinitions);
      ghost var prefix := plan;
      var pickleSteps := testCase.pickle.steps;
      var j := 0;
      while j < |pickleSteps|
        invariant 0 <= j <= |pickleSteps|
        invariant plan == prefix + StepPlan(pickleSteps[..j])
        invariant steps == PreparedEntries(supportCodeLibrary, testCase, plan)
      {
        var step := pickleSteps[j];
        var definitions := StepDefinitionsFor(supportCodeLibrary, step);
        var actionLocations := seq(|definitions|, k requires 0 <= k < |definitions| => DefinitionLocation(definitions[k]));
        var sourceLocation := Location(testCase.uri, step.locations[0]);
        var data := TestStep(Some(sourceLocation), None, None);
        if |actionLocations| == 1 {
          data := data.(actionLocation := Some(actionLocations[0]));
        }
        steps := steps + [data];
        PreparedEntriesSnoc(supportCodeLibrary, testCase, plan, PickleStepEntry(step));
        StepPlanSnoc(pickleSteps, j);
        plan := plan + [PickleStepEntry(step)];
        j := j + 1;
      }
      assert pickleSteps[..j] == pickleSteps;
      steps := PushHookEntries(supportCodeLibrary, testCase, steps, plan, afterHookDefinitions);
      assert plan + HookPlan(afterHookDefinitions) == HookPlan(beforeHookDefinitions) + StepPlan(pickleSteps) + HookPlan(afterHookDefinitions);
    }

    /** `isSkippingSteps`: an earlier step left the test case non-passing. */
    predicate IsSkippingSteps()
      reads this
    {
      result != Passed
    }

    /** `invokeStep`: hands the action to the step runner. */
    method InvokeStep(action: Action) returns (r: StepResult)
      modifies this`invocations
      ensures r == stepRunner(testCase, testStepIndex, action)
      ensures invocations == old(invocations) + [action]
    {
      r := stepRunner(testCase, testStepIndex, action);
      invocations := invocations + [action];
    }

    method RunHook(hookDefinition: HookDefinition) returns (r: StepResult)
      modifies this`invocations
      ensures var o := HookOutcome(stepRunner, options, testCase, testStepIndex, hookDefinition);
              r == o.result && invocations == old(invocations) + o.invoked
    {
      if options.dryRun {
        r := StatusOnly(Skipped);
      } else {
        r := InvokeStep(HookAction(hookDefinition));
      }
    }

    method RunStep(step: PickleStep) returns (r: StepResult)
      modifies this`invocations
      ensures var o := PickleStepOutcome(supportCodeLibrary, stepRunner, options, testCase, testStepIndex, result, step);
              r == o.result && invocations == old(invocations) + o.invoked
    {
      var stepDefinitions := StepDefinitionsFor(supportCodeLibrary, step);
      if |stepDefinitions| == 0 {
        r := StatusOnly(Undefined);
      } else if |stepDefinitions| > 1 {
        r := StepResult(Ambiguous, None, None, Some(MatchesOf(stepDefinitions)));
      } else if options.dryRun || IsSkippingSteps() {
        r := StatusOnly(Skipped);
      } else {
        r := InvokeStep(StepAction(step, stepDefinitions[0]));
      }
    }

    /** `aroundTestStep`: the step (a hook or a pickle step) runs between its started and
        finished events, its result updates the status by precedence, and the index moves on. */
    method AroundTestStep(entry: PlannedStep, ghost log0: seq<Event>, ghost done: seq<PlannedStep>)
      requires Progress(log0, done)
      modifies this, bus
      ensures Progress(log0, done + [entry])
      ensures var o := EntryOutcome(supportCodeLibrary, stepRunner, options, testCase, old(testStepIndex), old(result), entry);
              bus.log == old(bus.log) + [TestStepStarted(Loc(), old(testStepIndex)),
                                         TestStepFinished(Loc(), old(testStepIndex), o.result)] &&
              result == UpdatedStatus(old(result), o.result.status) &&
              invocations == old(invocations) + o.invoked &&
              testStepIndex == old(testStepIndex) + 1
    {
      ghost var o := EntryOutcome(supportCodeLibrary, stepRunner, options, testCase, testStepIndex, result, entry);
      ghost var (index0, result0, invocations0, log1) := (testStepIndex, result, invocations, bus.log);
      bus.Emit(TestStepStarted(Loc(), testStepIndex));
      var testStepResult;
      match entry {
        case HookStep(h) => testStepResult := RunHook(h);
        case PickleStepEntry(step) => testStepResult := RunStep(step);
      }
      assert testStepResult == o.result && invocations == old(invocations) + o.invoked;
      if ShouldUpdateStatus(result, testStepResult.status) {
        result := testStepResult.status;
      }
      bus.Emit(TestStepFinished(Loc(), testStepIndex, testStepResult));
      testStepIndex := testStepIndex + 1;
      ProgressAfterStep(supportCodeLibrary, stepRunner, options, testCase, Loc(), log0, done, entry,
                        index0, result0, invocations0, log1, testStepIndex, result, invocations, bus.log);
    }

    /** `runHooks`: each hook in turn. */
    method RunHooks(hookDefinitions: seq<HookDefinition>, ghost log0: seq<Event>, ghost done: seq<PlannedStep>)
      requires Progress(log0, done)
      modifies this, bus
      ensures Progress(log0, done + HookPlan(hookDefinitions))
    {
      var i := 0;
      assert done + HookPlan(hookDefinitions[..i]) == done;
      while i < |hookDefinitions|
        invariant 0 <= i <= |hookDefinitions|
        invariant Progress(log0, done + HookPlan(hookDefinitions[..i]))
      {
        ghost var before := done + HookPlan(hookDefinitions[..i]);
        AroundTestStep(HookStep(hookDefinitions[i]), log0, before);
        HookPlanSnoc(hookDefinitions, i);
        assert done + HookPlan(hookDefinitions[..i + 1]) == before + [HookStep(hookDefinitions[i])];
        i := i + 1;
      }
      assert hookDefinitions[..i] == hookDefinitions;
    }

    /** `runSteps`: each pickle step in turn. */
    method RunSteps(ghost log0: seq<Event>, ghost done: seq<PlannedStep>)
      requires Progress(log0, done)
      modifies this, bus
      ensures Progress(log0, done + StepPlan(testCase.pickle.steps))
    {
      var steps := testCase.pickle.steps;
      var i := 0;
      assert done + StepPlan(steps[..i]) == done;
      while i < |steps|
        invariant 0 <= i <= |steps|
        invariant Progress(log0, done + StepPlan(steps[..i]))
      {
        ghost var before := done + StepPlan(steps[..i]);
        AroundTestStep(PickleStepEntry(steps[i]), log0, before);
        StepPlanSnoc(steps, i);
        assert done + StepPlan(steps[..i + 1]) == before + [PickleStepEntry(steps[i])];
        i := i + 1;
      }
      assert steps[..i] == steps;
    }

    /** `run`: prepared, started, the before hooks, the steps, the after hooks, finished.
        The emitted events are exactly `CaseEvents`, and the runner ends in the final status. */
    method Run()
      requires Valid()
      requires testStepIndex == 0 && result == Passed && invocations == []
      modifies this, bus
      ensures bus.log == old(bus.log) + CaseEvents(supportCodeLibrary, stepRunner, options, testCase)
      ensures result == FinalStatus(supportCodeLibrary, stepRunner, options, testCase)
      ensures invocations == Execute(supportCodeLibrary, stepRunner, options, testCase, Plan(supportCodeLibrary, testCase)).invoked
    {
      EmitPrepared();
      bus.Emit(TestCaseStarted(Loc()));
      ghost var log0 := bus.log;
      assert Execute(supportCodeLibrary, stepRunner, options, testCase, []) == Trace([], Passed, []);
      assert [] + HookPlan(beforeHookDefinitions) == HookPlan(beforeHookDefinitions);
      RunHooks(beforeHookDefinitions, log0, []);
      RunSteps(log0, HookPlan(beforeHookDefinitions));
      RunHooks(afterHookDefinitions, log0, HookPlan(beforeHookDefinitions) + StepPlan(testCase.pickle.steps));
      CaseEventsUnfold(supportCodeLibrary, stepRunner, options, testCase, old(bus.log), bus.log);
      bus.Emit(TestCaseFinished(Loc(), TestCaseResult(result, None)));
    }
  }

  /** The events of a whole run, once the last step has finished: the finished event completes them. */
  lemma CaseEventsUnfold(lib: SupportCodeLibrary, run: StepRunner, options: Options, tc: TestCase,
                         before: seq<Event>, log: seq<Event>)
    requires var loc := TestCaseLocation(tc);
             log == before + [TestCasePrepared(loc, PreparedSteps(lib, tc)), TestCaseStarted(loc)] +
                    StepEvents(loc, Execute(lib, run, options, tc, Plan(lib, tc)).results)
    ensures log + [TestCaseFinished(TestCaseLocation(tc), TestCaseResult(FinalStatus(lib, run, options, tc), None))] ==
            before + CaseEvents(lib, run, options, tc)
  {
  }

  /** The runner state after one more step, in terms of the trace of the longer plan. */
  lemma ProgressAfterStep(lib: SupportCodeLibrary, run: StepRunner, options: Options, tc: TestCase, loc: Location,
                          log0: seq<Event>, done: seq<PlannedStep>, p: PlannedStep,
                          index: nat, status: Status, invoked: seq<Action>, log: seq<Event>,
                          index': nat, status': Status, invoked': seq<Action>, log': seq<Event>)
    requires var t := Execute(lib, run, options, tc, done);
             index == |done| && status == t.status && invoked == t.invoked && log == log0 + StepEvents(loc, t.results)
    requires var o := EntryOutcome(lib, run, options, tc, index, status, p);
             index' == index + 1 && status' == UpdatedStatus(status, o.result.status) && invoked' == invoked + o.invoked &&
             log' == log + [TestStepStarted(loc, index), TestStepFinished(loc, index, o.result)]
    ensures var t := Execute(lib, run, options, tc, done + [p]);
            index' == |done + [p]| && status' == t.status && invoked' == t.invoked && log' == log0 + StepEvents(loc, t.results)
  {
    ExecuteStepEvents(lib, run, options, tc, loc, done, p);
  }

  /** A hook `forEach` of `emitPrepared`: one entry per hook, holding only its location. */
  method PushHookEntries(lib: SupportCodeLibrary, tc: TestCase, steps: seq<TestStep>, ghost plan: seq<PlannedStep>,
                         hooks: seq<HookDefinition>) returns (r: seq<TestStep>)
    requires steps == PreparedEntries(lib, tc, plan)
    ensures r == PreparedEntries(lib, tc, plan + HookPlan(hooks))
  {
    r := steps;
    var i := 0;
    assert plan + HookPlan(hooks[..0]) == plan;
    while i < |hooks|
      invariant 0 <= i <= |hooks|
      invariant r == PreparedEntries(lib, tc, plan + HookPlan(hooks[..i]))
    {
      var definition := hooks[i];
      r := r + [TestStep(None, Some(Location(definition.uri, definition.line)), None)];
      HookPlanSnoc(hooks, i);
      assert plan + HookPlan(hooks[..i + 1]) == plan + HookPlan(hooks[..i]) + [HookStep(definition)];
      PreparedEntriesSnoc(lib, tc, plan + HookPlan(hooks[..i]), HookStep(definition));
      i := i + 1;
    }
    assert hooks[..i] == hooks;
  }

  lemma HookPlanSnoc(hooks: seq<HookDefinition>, i: nat)
    requires i < |hooks|
    ensures HookPlan(hooks[..i + 1]) == HookPlan(hooks[..i]) + [HookStep(hooks[i])]
  {
  }

  lemma StepPlanSnoc(steps: seq<PickleStep>, i: nat)
    requires i < |steps|
    ensures StepPlan(steps[..i + 1]) == StepPlan(steps[..i]) + [PickleStepEntry(steps[i])]
  {
  }

  /** One more step: the trace grows by that step's outcome and the events by its pair. */
  lemma ExecuteStepEvents(lib: SupportCodeLibrary, run: StepRunner, options: Options, tc: TestCase,
                          loc: Location, done: seq<PlannedStep>, p: PlannedStep)
    ensures var prev := Execute(lib, run, options, tc, done);
            var o := EntryOutcome(lib, run, options, tc, |done|, prev.status, p);
            Execute(lib, run, options, tc, done + [p]).status == UpdatedStatus(prev.status, o.result.status)
    ensures var prev := Execute(lib, run, options, tc, done);
            var o := EntryOutcome(lib, run, options, tc, |done|, prev.status, p);
            Execute(lib, run, options, tc, done + [p]).invoked == prev.invoked + o.invoked
    ensures var prev := Execute(lib, run, options, tc, done);
            var o := EntryOutcome(lib, run, options, tc, |done|, prev.status, p);
            StepEvents(loc, Execute(lib, run, options, tc, done + [p]).results) ==
              StepEvents(loc, prev.results) + [TestStepStarted(loc, |done|), TestStepFinished(loc, |done|, o.result)]
  {
    var prev := Execute(lib, run, options, tc, done);
    var o := EntryOutcome(lib, run, options, tc, |done|, prev.status, p);
    ExecuteSnoc(lib, run, options, tc, done, p);
    StepEventsSnoc(loc, prev.results, o.result);
  }

  lemma StepEventsSnoc(loc: Location, results: seq<StepResult>, r: StepResult)
    ensures StepEvents(loc, results + [r]) ==
            StepEvents(loc, results) + [TestStepStarted(loc, |results|), TestStepFinished(loc, |results|, r)]
  {
    assert (results + [r])[..|results|] == results;
  }
}
