# cucumber-js core, modelled in Dafny

This project models the event-driven core of cucumber-js and proves properties of the
model.

**Runtime.** For each test case, a `TestCaseRunner` does the following:
- prepares the steps: the applicable before hooks, then the pickle steps, then the
  applicable after hooks;
- runs each step between a `test-step-started` and a `test-step-finished` event;
- folds the step results into the test case's status.

The `Runtime` runs the test cases one after the other on a shared event broadcaster, and
keeps a one-way `success` flag.

**Event consumers.** Several consumers rebuild state from that event stream:
- the event data collector;
- the formatters' test case collector;
- the summary formatter, which classifies test cases as failures or warnings and logs the
  numbered issues;
- the progress formatter, which prints one character per step;
- the JSON formatter, which groups test cases by feature file and builds the feature,
  scenario and step objects;
- the issue and step-message text builders, and the snippet builder's parameter list.

**CLI helpers** splice a profile's arguments into argv, and accept or reject pickles.

**How the model is written.**
- Objects whose fields the source updates become classes with `modifies` clauses:
  - the runner, the runtime, the collectors and the formatters;
  - the event broadcaster, whose `log` records every emitted event in order.
- JavaScript `Map`s and plain objects used as dictionaries become `OrderedMap`, a finite
  map that keeps insertion order. This matches a `Map`, and a plain object whose keys are
  not integer-like (see "## Left out"). Reading a property of `undefined` throws in the
  source; the model returns that as a `Fail`/`Throw` value, and the state is left unchanged.
- Each loop that updates variables (`for`, `forEach`, `+=` accumulation, `_.each` into an
  object) is a method with a `while` loop. It is proved against a specification function
  defined by recursion on the prefix. A `.map` that builds a new list, such as the features,
  elements and steps of the JSON formatter, is the function `MapResult`, which stops at the
  first element that throws.

Things the core takes from elsewhere are parameters:
- step-definition matching, hook applicability and the running of user code (`StepRunner`);
- the colour, table, indentation, location and error formatting functions (`Renderers`);
- `formatSummary`;
- a profile's arguments;
- the events the Gherkin library generates for a file;
- the scenario filter.

Every property below holds for any behaviour of these parameters.

## Model

| member | source | states |
|---|---|---|
| Statuses.FromValue | src/status.js:4-11 | reading a string back as a status gives a status whose string value is that string |
| Statuses.StatusValues | src/status.js:4-11 | there are exactly six statuses, each listed once, with pairwise distinct string values, and each value reads back as its status |
| Statuses.ValueInjective | src/status.js:4-11 | two statuses with the same string value are the same status |
| Statuses.GetStatusMapping | src/status.js:23-28 | the mapping has exactly six keys, one per status value, each mapped to the initial value |
| Statuses.FailingGroups | src/status.js:30-31 | failing statuses are exactly ambiguous and failed, and strict-failing statuses exactly pending and undefined; the groups are disjoint and contain neither passed nor skipped |
| Statuses.UpperCaseFirst | src/status.js:17 | a lower-case ASCII first letter becomes its upper-case letter, any other first character is kept, and the length and every later character are kept |
| Statuses.PredicateName | src/status.js:17 | the predicate installed for a status is named 'is' followed by its value with the first letter upper-cased; stated by `PredicateNameShape`, `PredicateNameExample` and `PredicateNameInjective` |
| Statuses.PredicateNameShape | src/status.js:17 | every predicate name is 'is', then the status value's lower-case first letter upper-cased, then the rest of the value |
| Statuses.PredicateNameExample | src/status.js:17 | the predicate for `passed` is `isPassed` |
| Statuses.PredicateNameInjective | src/status.js:17 | different statuses get differently named predicates |
| Statuses.InstallSpec | src/status.js:15-21 | installing adds one predicate per listed status under its `is…` name and keeps every other method |
| Statuses.InstallAdds | src/status.js:15-21 | after installing, every listed status has its predicate under its `is…` name, even when the object already had a method of that name |
| Statuses.InstallKeeps | src/status.js:15-21 | a method whose name is no listed status's predicate name is left as it was |
| Statuses.InstallOnly | src/status.js:15-21 | installing adds no method other than the listed statuses' predicates |
| Statuses.PredicatesAfterInstall | src/status.js:15-21 | after installation, `isX()` on an object holds exactly when its status string is X's value, so at most one predicate holds |
| Statuses.Prototype.AddStatusPredicates | src/status.js:15-21 | the prototype's methods become the old ones with every status predicate installed in key order |
| Events.TestCaseKey | src/event_data_collector.js:16-18 | the `uri:line` key of a location; that it identifies the location is `TestCaseKeyInjective` |
| Events.TestCaseKeyInjective | src/event_data_collector.js:16-18 | `uri:line` keys of different locations differ, even when a uri contains ':' |
| Gherkin.LookupLast | src/event_data_collector.js:36-47 | looking up a `fromPairs` mapping finds nothing exactly when no pair has the key; otherwise it finds the value of the last pair with that key |
| Gherkin.StepLineKeywordPairs | src/event_data_collector.js:41-46 | there is one (line, keyword) pair per document step of the feature, in document order |
| Gherkin.KeywordAtLine | src/event_data_collector.js:41-47 | a keyword is found for a line exactly when some document step sits on that line, and the keyword found is that of the last such step |
| Gherkin.FirstLinePairs | src/formatter/helpers/issue_helpers.js:119-122 | there is one pair per pickle step, keyed by the line of the step's first location |
| Gherkin.LastLinePairs | src/event_data_collector.js:36-39 | there is one pair per pickle step, keyed by the line of the step's last location |
| Gherkin.FirstTruthy | src/formatter/helpers/issue_helpers.js:67-71 | the result is the first present, non-empty entry, and nothing only when there is no such entry |
| Bookkeeping.PickleKeyIsTestCaseKey | src/event_data_collector.js:56-58 | an accepted pickle is filed under the same `uri:line` key as the runner's test case location for it |
| Bookkeeping.WithStepResult | src/event_data_collector.js:65-68 | only `steps[index].result` changes; the location, the case result and every other step stay the same; an index past the steps throws |
| Bookkeeping.WithStepResultCommutes | src/event_data_collector.js:65-68 | results of different steps can be stored in either order, and storing the same result twice changes nothing |
| Bookkeeping.StoreStepResultIn | src/formatter/helpers/test_case_collector.js:38-41 | succeeds exactly when the key is filed and the index exists; only that entry changes, the keys stay the same and stay distinct |
| Bookkeeping.StoreCaseResultIn | src/formatter/helpers/test_case_collector.js:43-46 | succeeds exactly when the key is filed; only that entry's result changes, and it now holds the new result |
| Bookkeeping.KeyedLookup | src/event_data_collector.js:60-63 | in a map filed by location, the test case found under a location's key has that location |
| EventDataCollector.StepData | src/event_data_collector.js:28-50 | a hook step's data exist exactly when the test case and the step do, and carry neither a pickled step nor a keyword. A step with a source location additionally needs the pickle (read first), the document and its feature, and throws without them. It then gets a pickle step whose last location has its line, and the keyword of a document step on that line; each is absent only when no step sits on that line (which such step is found is stated by `Gherkin.LookupLast` and `Gherkin.KeywordAtLine`) |
| EventDataCollector.EventDataCollector.constructor | src/event_data_collector.js:3-14 | all three maps start empty |
| EventDataCollector.EventDataCollector.GetTestCaseData | src/event_data_collector.js:20-26 | returns the document filed by uri, and the pickle and test case filed by `uri:line`; a test case found has that location |
| EventDataCollector.EventDataCollector.GetTestStepData | src/event_data_collector.js:28-50 | throws exactly when the test case or the step is missing, or, for a step with a source location, when the pickle, the document or its feature is missing; otherwise returns the step data of that step |
| EventDataCollector.EventDataCollector.StoreGherkinDocument | src/event_data_collector.js:52-54 | the latest document for a uri wins; the other maps are unchanged |
| EventDataCollector.EventDataCollector.StorePickle | src/event_data_collector.js:56-58 | the pickle is filed under its uri and the line of its first location; the other maps are unchanged |
| EventDataCollector.EventDataCollector.StoreTestCase | src/event_data_collector.js:60-63 | creates or replaces `{sourceLocation, steps}` with no result; the other maps are unchanged |
| EventDataCollector.EventDataCollector.StoreTestStepResult | src/event_data_collector.js:65-68 | only `steps[index].result` of the keyed test case changes; a missing test case or step throws and changes nothing |
| EventDataCollector.EventDataCollector.StoreTestCaseResult | src/event_data_collector.js:70-73 | only the keyed test case's result changes; a missing test case throws |
| TestCaseCollector.TestCaseCollector.constructor | src/formatter/helpers/test_case_collector.js:2-12 | all three maps start empty |
| TestCaseCollector.TestCaseCollector.GetTestCaseData | src/formatter/helpers/test_case_collector.js:18-23 | returns only the document by uri and the pickle by `uri:line`, each present exactly when filed |
| TestCaseCollector.TestCaseCollector.GetTestCase | src/formatter/helpers/test_case_collector.js:14-16 | the test case filed under `uri:line` of a location, which has that location |
| TestCaseCollector.TestCaseCollector.StoreGherkinDocument | src/formatter/helpers/test_case_collector.js:25-27 | `Map.set`: the latest document for a uri wins; the other maps are unchanged |
| TestCaseCollector.TestCaseCollector.StorePickle | src/formatter/helpers/test_case_collector.js:29-31 | the pickle is filed under its uri and the line of its first location |
| TestCaseCollector.TestCaseCollector.StoreTestCase | src/formatter/helpers/test_case_collector.js:33-36 | the key is set to `{sourceLocation, steps}` with no result |
| TestCaseCollector.TestCaseCollector.StoreTestStepResult | src/formatter/helpers/test_case_collector.js:38-41 | only `steps[index].result` of that entry changes; a missing entry or step throws |
| TestCaseCollector.TestCaseCollector.StoreTestCaseResult | src/formatter/helpers/test_case_collector.js:43-46 | only that entry's result changes; a missing entry throws |
| TestCaseRunner.ApplicableHooks | src/runtime/test_case_runner.js:62-76 | the before or after hooks that apply to the test case, in registration order; stated by `ApplicableHooksSpec` |
| TestCaseRunner.ApplicableHooksSpec | src/runtime/test_case_runner.js:62-76 | hook filtering keeps exactly the applicable hooks, in registration order |
| TestCaseRunner.StepDefinitionsFor | src/runtime/test_case_runner.js:78-85 | the registered step definitions whose pattern matches the step text, in registration order; stated by `StepDefinitionsForSpec` |
| TestCaseRunner.StepDefinitionsForSpec | src/runtime/test_case_runner.js:78-85 | a definition is found exactly when it is registered and matches the step text; no more are found than are registered; lookup over definitions registered in two runs is the lookup over the first followed by the lookup over the second (order and multiplicity); one registered definition is found exactly when it matches |
| TestCaseRunner.MatchesOf | src/runtime/test_case_runner.js:166-172 | there is one `{pattern, line, uri}` per candidate definition, in registration order |
| TestCaseRunner.ShouldUpdateStatus | src/runtime/test_case_runner.js:103-115 | whether a step result replaces the status: always for failed, never for passed, and for the other statuses only while passed; its consequences are `StatusPrecedence` |
| TestCaseRunner.HookOutcome | src/runtime/test_case_runner.js:145-151 | a hook's result and user-code calls: skipped with no call under dry run, otherwise one call of the hook; stated by `HookResult` |
| TestCaseRunner.PickleStepOutcome | src/runtime/test_case_runner.js:162-178 | a pickle step's result and user-code calls, by number of matching definitions, dry run and current status; stated by `PickleStepResult` |
| TestCaseRunner.PreparedStepsShape | src/runtime/test_case_runner.js:35-60 | length is \|before\|+\|steps\|+\|after\|; hooks carry only an action location; a pickle step has the line of its first location, and as action location the location of the one matching step definition, or none when zero or several match |
| TestCaseRunner.StatusPrecedence | src/runtime/test_case_runner.js:103-115 | a failed result always replaces the status and a passed one never does; from passed, any result replaces it; once non-passed, the status can only become failed |
| TestCaseRunner.UpdatedStatus | src/runtime/test_case_runner.js:120-122 | the test case status after a step result: the result's status when `shouldUpdateStatus` holds, the old one otherwise; stated by `StatusPrecedence` |
| TestCaseRunner.TestCaseRunner.IsSkippingSteps | src/runtime/test_case_runner.js:99-101 | steps are skipped once the test case status is no longer passed; `RunStep` and `PickleStepResult` state its effect |
| TestCaseRunner.ExecuteStepAt | src/runtime/test_case_runner.js:117-128 | the result of step i depends only on that step, its index and the status reached before it |
| TestCaseRunner.PickleStepResult | src/runtime/test_case_runner.js:162-178 | no match gives undefined, even after a failure; several matches give ambiguous with the matches listed; one match under dry run or after a non-passing step gives skipped; otherwise the definition runs |
| TestCaseRunner.HookResult | src/runtime/test_case_runner.js:145-151 | a hook is skipped under dry run and otherwise runs, even after a failure |
| TestCaseRunner.DryRunInvokesNothing | src/runtime/test_case_runner.js:145-178 | under dry run no user code is called |
| TestCaseRunner.AggregateStatus | src/runtime/test_case_runner.js:103-122 | the final status is failed if any step failed; otherwise it is the status of the first non-passed step, or passed |
| TestCaseRunner.StatusNeverRecovers | src/runtime/test_case_runner.js:103-122 | once a prefix of the run is non-passing, the final status is that status or failed |
| TestCaseRunner.StepEventsAt | src/runtime/test_case_runner.js:117-128 | step i's started event sits at 2i, immediately followed by its finished event with its result |
| TestCaseRunner.StepEventsPayloads | src/runtime/test_case_runner.js:25-33 | every step event names the test case, and none is `test-case-finished` |
| TestCaseRunner.CaseEventOrder | src/runtime/test_case_runner.js:130-143 | the events are prepared, then started, then a started/finished pair per step index with no gaps or repeats, then finished with the final status |
| TestCaseRunner.CaseEventPayloads | src/runtime/test_case_runner.js:25-33 | every payload carries the uri and the line of the pickle's first location, and only the last event is `test-case-finished` |
| TestCaseRunner.EmptyTestCase | src/runtime/test_case_runner.js:21-22 | with no steps or hooks, the test case is prepared empty and finishes passed |
| TestCaseRunner.TestCaseRunner.constructor | src/runtime/test_case_runner.js:9-23 | the index starts at 0, the status at passed, and no user code has been called |
| TestCaseRunner.TestCaseRunner.EmitPrepared | src/runtime/test_case_runner.js:35-60 | emits one `test-case-prepared` event with the prepared steps |
| TestCaseRunner.TestCaseRunner.CollectPreparedSteps | src/runtime/test_case_runner.js:36-58 | the `forEach` loops build exactly the prepared step list |
| TestCaseRunner.PushHookEntries | src/runtime/test_case_runner.js:37-40 | appending one entry per hook to the prepared list extends it exactly as planning those hooks does (used for lines 37-40 and 55-58) |
| TestCaseRunner.TestCaseRunner.InvokeStep | src/runtime/test_case_runner.js:87-97 | returns the step runner's result for this step and records the call |
| TestCaseRunner.TestCaseRunner.RunHook | src/runtime/test_case_runner.js:145-151 | returns the hook outcome: skipped under dry run, otherwise the run hook's result |
| TestCaseRunner.TestCaseRunner.RunStep | src/runtime/test_case_runner.js:162-178 | returns the pickle-step outcome for the current status |
| TestCaseRunner.TestCaseRunner.AroundTestStep | src/runtime/test_case_runner.js:117-128 | started, the step, finished; the status is updated by precedence, and the index advances by one |
| TestCaseRunner.TestCaseRunner.RunHooks | src/runtime/test_case_runner.js:153-160 | each hook in turn, extending the run by the hooks' plan |
| TestCaseRunner.TestCaseRunner.RunSteps | src/runtime/test_case_runner.js:180-186 | each pickle step in turn, extending the run by the steps' plan |
| TestCaseRunner.TestCaseRunner.Run | src/runtime/test_case_runner.js:130-143 | emits exactly the test case's events; ends with the final status and with exactly the user-code calls of the plan |
| Runtime.RunEventsInOrder | src/runtime/index.js:23-38 | test case i's events sit whole between those of the test cases before and after it |
| Runtime.AllPassedIffFinishedPassed | src/runtime/index.js:17-21 | every test case passed exactly when every `test-case-finished` of the run carries passed |
| Runtime.Runtime.constructor | src/runtime/index.js:7-15 | absent options read as no flags, absent test cases as none, and `success` starts true |
| Runtime.Runtime.OnTestCaseFinished | src/runtime/index.js:17-21 | `success` becomes false on any non-passed status (including skipped) and never returns to true |
| Runtime.Runtime.RunTestCase | src/runtime/index.js:23-31 | a fresh runner emits the test case's events, and `success` is updated by its final status |
| Runtime.Runtime.RunTestCases | src/runtime/index.js:38 | the events are each test case's events, whole and in list order, and `success` stays true exactly when it was true and every test case finished passed |
| Runtime.Runtime.Start | src/runtime/index.js:33-44 | the events are `test-run-started`, each test case's events in list order, then `test-run-finished`. It returns `success`, which is true for no test cases. filter/unfilter wrap the run only when asked |
| SummaryFormatter.IsTestCaseFailure | src/formatter/summary_formatter.js:21-23 | true exactly for ambiguous or failed; throws without a result |
| SummaryFormatter.IsTestCaseWarning | src/formatter/summary_formatter.js:25-30 | true exactly for pending or undefined; throws without a result |
| SummaryFormatter.FailureOrWarning | src/formatter/summary_formatter.js:21-30 | no test case is both a failure and a warning; passed and skipped are neither |
| SummaryFormatter.Classify | src/formatter/summary_formatter.js:60-68 | the failures and warnings the `forEach` collects, or the first error; stated by `ClassifySpec` and `ClassifyPartitions` |
| SummaryFormatter.ClassifySpec | src/formatter/summary_formatter.js:59-68 | throws exactly when some test case has no result; otherwise failures and warnings are the order-preserving filters of the map's values |
| SummaryFormatter.ClassifyPartitions | src/formatter/summary_formatter.js:59-68 | each test case is in failures exactly when failing, in warnings exactly when a warning, and never in both |
| SummaryFormatter.IssueOf | src/formatter/summary_formatter.js:84-99 | an issue needs its pickle, its document and the document's feature; it is then the numbered header plus a blank line, since no steps are passed |
| SummaryFormatter.IssuesLog | src/formatter/summary_formatter.js:86-99 | the lines logged for a list of issues, numbered from one, up to the first that throws; stated by `IssuesLogSpec` |
| SummaryFormatter.IssuesLogSpec | src/formatter/summary_formatter.js:86-99 | issue i is logged as number i+1; either every issue is logged, or the ones before the first that throws |
| SummaryFormatter.SectionSpec | src/formatter/summary_formatter.js:84-93 | a section that completes is empty without issues; otherwise it is `title + ':\n\n'` followed by one numbered line per issue |
| SummaryFormatter.SummaryLog | src/formatter/summary_formatter.js:59-82 | everything `logSummary` logs, with its outcome; stated by `SummaryLogOrder` |
| SummaryFormatter.SummaryLogOrder | src/formatter/summary_formatter.js:59-82 | the failures section only if non-empty, then the warnings section only if non-empty, then the summary, always last |
| SummaryFormatter.SummaryFormatter.constructor | src/formatter/summary_formatter.js:7-19 | the maps and the output start empty |
| SummaryFormatter.SummaryFormatter.StoreGherkinDocument | src/formatter/summary_formatter.js:36-38 | the latest document for a uri wins |
| SummaryFormatter.SummaryFormatter.StorePickle | src/formatter/summary_formatter.js:40-42 | the pickle is filed under its uri and the line of its first location |
| SummaryFormatter.SummaryFormatter.StoreTestCase | src/formatter/summary_formatter.js:44-47 | the key is set to `{sourceLocation, steps}` with no result |
| SummaryFormatter.SummaryFormatter.StoreTestStepResult | src/formatter/summary_formatter.js:49-52 | only `steps[index].result` of the keyed test case changes; a missing one throws |
| SummaryFormatter.SummaryFormatter.StoreTestCaseResult | src/formatter/summary_formatter.js:54-57 | only the keyed test case's result changes; a missing one throws |
| SummaryFormatter.SummaryFormatter.PartitionTestCases | src/formatter/summary_formatter.js:60-68 | the `forEach` loop computes exactly the classification of the map's values |
| SummaryFormatter.SummaryFormatter.LogIssues | src/formatter/summary_formatter.js:84-100 | logs the title line, then the numbered issues, up to the first that throws |
| SummaryFormatter.SummaryFormatter.LogSection | src/formatter/summary_formatter.js:69-74 | a section without issues logs nothing and completes; otherwise the output grows by exactly the `logIssues` log of that title and those issues |
| SummaryFormatter.SummaryFormatter.LogSummary | src/formatter/summary_formatter.js:59-82 | the output grows by exactly the summary log, and the outcome is that log's |
| ProgressFormatter.StatusCharactersDistinct | src/formatter/progress_formatter.js:4-11 | the six characters are pairwise distinct, and '.' belongs to passed only |
| ProgressFormatter.StatusCharacter | src/formatter/progress_formatter.js:4-11 | `STATUS_CHARACTER_MAPPING`: A, F, '.', P, '-', U; stated by `StatusCharactersDistinct` |
| ProgressFormatter.ProgressFormatter.constructor | src/formatter/progress_formatter.js:13-21 | starts as an empty summary formatter with the given colour functions |
| ProgressFormatter.ProgressFormatter.OnTestStepFinished | src/formatter/progress_formatter.js:23-27 | after the summary stores the result, logs exactly one character: the status's character, coloured by status |
| ProgressFormatter.ProgressFormatter.OnTestRunFinished | src/formatter/progress_formatter.js:18-20 | `\n\n` is logged before the summary output |
| JsonFormatter.ConvertNameToId | src/formatter/json_formatter.js:16-18 | every space replaced by '-', then lower-cased; stated pointwise by `ConvertNameToIdPointwise` and `ConvertNameToIdOf` |
| JsonFormatter.ConvertNameToIdPointwise | src/formatter/json_formatter.js:16-18 | each character is kept in place: a space becomes '-', anything else is lower-cased |
| JsonFormatter.ConvertNameToIdNormal | src/formatter/json_formatter.js:16-18 | an id has no space and no upper-case letter, and converting it again changes nothing |
| JsonFormatter.ConvertNameToIdOf | src/formatter/json_formatter.js:16-18 | any string related pointwise to the name in that way is its id |
| JsonFormatter.FeatureIdExample | src/formatter/json_formatter.js:16-18 | 'my feature' becomes 'my-feature' |
| JsonFormatter.ScenarioIdExample | src/formatter/json_formatter.js:16-18 | 'my scenario' becomes 'my-scenario' |
| JsonFormatter.GetTags | src/formatter/json_formatter.js:163-167 | each tag maps, in order, to `{name, line}` |
| JsonFormatter.FormatAttachments | src/formatter/json_formatter.js:20-27 | there is one embedding per attachment, in order |
| JsonFormatter.AttachmentsRoundTrip | src/formatter/json_formatter.js:20-27 | renaming `mimeType` to `mime_type` loses nothing: reading the embeddings back gives the attachments, and the reverse also holds |
| JsonFormatter.GetFeatureData | src/formatter/json_formatter.js:102-112 | description, keyword, name and line of the feature; the id from the name; `{name, line}` of each tag in order; and the uri |
| JsonFormatter.DescriptionPairs | src/formatter/json_formatter.js:71-74 | there is one (line, description) pair per child of the feature |
| JsonFormatter.GetScenarioData | src/formatter/json_formatter.js:114-128 | id is feature id + ';' + the name's id; keyword is 'Scenario'; line is the pickle's first location; name and tags are the pickle's; the description is the first present, non-empty description mapped at one of the pickle's locations, taken in location order, and absent exactly when there is none |
| JsonFormatter.ErrorMessage | src/formatter/json_formatter.js:156-158 | present exactly for a failed result with an exception; it is the non-empty stack if there is one, otherwise the exception itself |
| JsonFormatter.ResultDataOf | src/formatter/json_formatter.js:150-159 | present exactly when the step has a result; status always, duration only when non-zero, and the error message as above |
| JsonFormatter.GetStepData | src/formatter/json_formatter.js:130-161 | hidden exactly when the step has no source location, and then without line, name or keyword; otherwise arguments, keyword, line and text come from the pickle step at that line, which must exist |
| JsonFormatter.PickledStepFound | src/formatter/json_formatter.js:84-87 | a pickle step found by line is a step of the pickle whose first location is that line |
| JsonFormatter.ScenarioOf | src/formatter/json_formatter.js:75-96 | one element: the scenario data of the test case's pickle with one step object per test step, or the first error; stated by `ScenarioOfSpec` |
| JsonFormatter.FeatureOf | src/formatter/json_formatter.js:62-98 | one feature: `getFeatureData` of the uri's document feature with one element per test case of the group, or the first error; stated by `FeatureOfSpec` |
| JsonFormatter.ScenarioOfSpec | src/formatter/json_formatter.js:75-96 | an element completes exactly when the test case's pickle is filed under its `uri:line` key and every test step gives a step object; it is then `getScenarioData` of that pickle (full id, description, keyword, line, name, tags) with one step object per test step, in order |
| JsonFormatter.AddToGroupKeys | src/formatter/json_formatter.js:56-60 | adding a test case appends its uri to the keys only when the uri is new, and keeps keys distinct |
| JsonFormatter.AddToGroupSpec | src/formatter/json_formatter.js:56-60 | the test case is pushed onto its uri's group, which starts empty when missing; other groups are unchanged |
| JsonFormatter.GroupByUri | src/formatter/json_formatter.js:54-61 | `groupedTestCases` after the loop has seen a list of test cases; stated by `GroupByUriSpec` |
| JsonFormatter.GroupByUriValid | src/formatter/json_formatter.js:54-61 | no uri is grouped twice |
| JsonFormatter.GroupByUriKeys | src/formatter/json_formatter.js:54-61 | the groups are keyed by the uris in order of first appearance |
| JsonFormatter.GroupByUriGroups | src/formatter/json_formatter.js:54-61 | each group is exactly the test cases of its uri, in map order |
| JsonFormatter.GroupByUriSpec | src/formatter/json_formatter.js:54-61 | one group per distinct uri, in order of first appearance, each holding exactly that uri's test cases |
| JsonFormatter.NoTestCasesNoFeatures | src/formatter/json_formatter.js:53-99 | with no test cases the output is `[]` |
| JsonFormatter.Features | src/formatter/json_formatter.js:53-99 | the feature objects of the run: `FeatureOf` of each group, in group order, or the first error; stated by `FeaturesSpec` |
| JsonFormatter.FeatureOfSpec | src/formatter/json_formatter.js:62-98 | a completed feature is `getFeatureData` of the document's feature for its uri, with the scenario data of each test case of the group, in order |
| JsonFormatter.FeaturesSpec | src/formatter/json_formatter.js:62-98 | one feature per distinct uri, in order of first appearance. Each feature is `getFeatureData` of the feature of the document filed for that uri. Its elements are, in map order, the scenario data (`ScenarioOf`) of that uri's test cases, built with the feature's id, keyword lines and descriptions |
| JsonFormatter.JsonFormatter.constructor | src/formatter/json_formatter.js:8-14 | a fresh, empty collector and no output |
| JsonFormatter.JsonFormatter.GroupTestCases | src/formatter/json_formatter.js:54-61 | the loop builds exactly the grouping by uri |
| JsonFormatter.JsonFormatter.OnTestRunFinished | src/formatter/json_formatter.js:53-100 | logs the features exactly when building them does not throw; otherwise throws that error and logs nothing |
| IssueHelpers.Character | src/formatter/helpers/issue_helpers.js:9-16 | tick exactly for passed, cross exactly for ambiguous or failed, '?' exactly for pending or undefined, '-' exactly for skipped |
| IssueHelpers.EscapeCell | src/formatter/helpers/issue_helpers.js:21 | backslashes doubled, then newlines written as `\n`; stated by `EscapeCellIsEscaped` and `EscapeCellRoundTrip` |
| IssueHelpers.EscapeCellIsEscaped | src/formatter/helpers/issue_helpers.js:21 | the two chained replaces equal escaping each character on its own |
| IssueHelpers.EscapeCellRoundTrip | src/formatter/helpers/issue_helpers.js:21 | an escaped cell has no newline, and unescaping gives back the cell |
| IssueHelpers.EscapeOrderMatters | src/formatter/helpers/issue_helpers.js:21 | escaping backslashes first is what makes a newline read `\n`; the other order would give `\\n` |
| IssueHelpers.EscapeRows | src/formatter/helpers/issue_helpers.js:19-23 | the escaped rows have the same shape as the table |
| IssueHelpers.EscapeRowsRoundTrip | src/formatter/helpers/issue_helpers.js:19-23 | every escaped cell unescapes to its original and has no newline |
| IssueHelpers.FormatDocString | src/formatter/helpers/issue_helpers.js:52-54 | the content between an opening `"""` line and a closing `"""` line |
| IssueHelpers.FormatArgument | src/formatter/helpers/issue_helpers.js:81-91 | a table is formatted as a table; non-empty doc string content as a doc string; anything else throws |
| IssueHelpers.ArgumentsTextFails | src/formatter/helpers/issue_helpers.js:81-91 | the arguments throw exactly when one of them cannot be formatted |
| IssueHelpers.StepText | src/formatter/helpers/issue_helpers.js:56-93 | the text `formatStep` builds for a step, or the error it throws; stated by `StepTextShape` and `StepHeadLocation` |
| IssueHelpers.StepTextShape | src/formatter/helpers/issue_helpers.js:56-93 | a step's text is its identifier line followed by its formatted arguments. It throws when there is no result, no pickle step at that line, or an unknown argument |
| IssueHelpers.StepHead | src/formatter/helpers/issue_helpers.js:72-79 | the coloured identifier line of a step with its optional ` # location`; stated by `StepHeadLocation` |
| IssueHelpers.StepHeadLocation | src/formatter/helpers/issue_helpers.js:72-79 | the identifier line is `symbol + ' ' + keyword + text`, followed by ` # location` only with an action location, then '\n' |
| IssueHelpers.FormatStep | src/formatter/helpers/issue_helpers.js:56-93 | the `+=` loop over the arguments builds exactly the step's text |
| IssueHelpers.IssueText | src/formatter/helpers/issue_helpers.js:95-141 | the text `formatIssue` builds, or the error it throws; stated by `IssueShape` |
| IssueHelpers.IssueShape | src/formatter/helpers/issue_helpers.js:95-141 | an issue starts with `number + ') Scenario: ' + name + ' # ' + location + '\n'` and ends with one extra '\n' |
| IssueHelpers.FormatIssue | src/formatter/helpers/issue_helpers.js:95-141 | the `+=` loop over the steps builds exactly the issue text |
| IssueHelpers.FormatIssueStep | src/formatter/helpers/issue_helpers.js:123-139 | one step of an issue: its indented text, then an indented message line only when the step has a message |
| StepResultHelpers.GetStepMessage | src/formatter/helpers/step_result_helpers.js:17-32 | it throws exactly for a step without a result and for an undefined step (whose snippet cannot be built from a test step); otherwise a message exists exactly for ambiguous, failed and pending: 'Pending', the ambiguous exception, or the formatted error |
| StepResultHelpers.TestStepSnippet | src/formatter/step_definition_snippet_builder/index.js:49 | `build` on a test step throws the TypeError of `step.arguments.map`, a test step having no `arguments`; stated through `GetStepMessage` |
| StepResultHelpers.UndefinedMessage | src/formatter/helpers/step_result_helpers.js:34-42 | the coloured undefined text around a built snippet, and the builder's throw passed on unchanged when it throws |
| StepResultHelpers.UndefinedText | src/formatter/helpers/step_result_helpers.js:34-42 | the undefined message before colouring; stated by `UndefinedTextShape` |
| StepResultHelpers.UndefinedTextShape | src/formatter/helpers/step_result_helpers.js:34-42 | the undefined text is the fixed intro, a blank line, the indented snippet, then '\n' |
| SnippetBuilder.GetFunctionName | src/formatter/step_definition_snippet_builder/index.js:29-38 | event gives 'When', outcome 'Then', precondition 'Given', in both directions |
| SnippetBuilder.ArgumentParameter | src/formatter/step_definition_snippet_builder/index.js:49-56 | one argument's parameter name: 'table' for a data table, 'string' for non-empty doc string content, otherwise the unknown-argument error; stated by `GetStepArgumentParameters` |
| SnippetBuilder.GetStepArgumentParameters | src/formatter/step_definition_snippet_builder/index.js:48-58 | in order, a table gives 'table' and non-empty content gives 'string'; anything else (including empty content) throws |
| SnippetBuilder.GetParameters | src/formatter/step_definition_snippet_builder/index.js:40-46 | the expression's parameter names, then the argument names, then 'callback' (n+m+1 in all) |
| SnippetBuilder.Build | src/formatter/step_definition_snippet_builder/index.js:13-27 | the snippet call has `getFunctionName` of the step's keyword type, the generated expression's source as pattern, `getParameters` of the step and the generated parameter names, and the fixed comment; it throws exactly when an argument has no parameter name |
| CliHelpers.ExpandedArgv | src/cli/helpers.js:8-16 | argv with a non-empty profile spliced in after the first two arguments; stated by `ExpandedArgvSpec` and `RemoveProfile` |
| CliHelpers.ExpandedArgvSpec | src/cli/helpers.js:8-16 | an empty profile leaves argv unchanged; otherwise the first two arguments, then the profile, then the rest, so the length is \|argv\|+\|profile\| |
| CliHelpers.RemoveProfile | src/cli/helpers.js:12-14 | removing the inserted profile arguments gives back argv |
| CliHelpers.AcceptedIsFiltered | src/cli/helpers.js:27-34 | the returned list is exactly the pickle events the filter matches, as `{pickle, uri}`, in event order |
| CliHelpers.DispatchOne | src/cli/helpers.js:27-37 | emitting a Gherkin event adds a verdict exactly for a pickle: accepted if it matches, otherwise rejected |
| CliHelpers.DispatchedAccepted | src/cli/helpers.js:27-37 | the `pickle-accepted` events are exactly the matching pickles, in order |
| CliHelpers.DispatchedRejected | src/cli/helpers.js:27-37 | the `pickle-rejected` events are exactly the non-matching pickles, in order |
| CliHelpers.DispatchedLength | src/cli/helpers.js:27-37 | the bus grows by one event per generated event plus one verdict per pickle, so each pickle gets exactly one verdict |
| CliHelpers.NoPicklesNoTestCases | src/cli/helpers.js:18-40 | a file without pickle events emits only its own events and yields `[]` |
| CliHelpers.GetTestCases | src/cli/helpers.js:18-40 | the loop emits every event, with each pickle's verdict right after it, and returns the accepted list |

## Left out

- `StepRunner.run` is left out: user code, timeouts, asynchronous completion and attachments. It is a parameter returning an arbitrary result for (test case, index, action). Durations are opaque naturals.
- Step-definition matching and hook applicability are parameters of the support code library. `matchesStepName` comes from cucumber-expressions and `appliesToTestCase` from tag expressions. The scenario filter of `getTestCases` is a parameter too.
- The legacy `scenario_runner.js` and `features_runner.js` are left out; `Runtime` does not reach them. `failFast` and `strict` are carried in `Options` but never read, as in `Runtime`.
- CLI entry points, the feature parser, the progress bar, usage-JSON formatters and the fixtures are left out. These are I/O plumbing or wrappers over libraries.
- Other helpers are left out: `ArgvParser`, `ProfileLoader` and file reading. The profile's arguments and the events the Gherkin library generates are parameters.
- CliHelpers.GetTestCases models one feature path. The source maps concurrently over paths and registers one `pickle` listener per path without removing it. The cross-path behaviour is not modelled.
- Parse-error attachment events from the Gherkin library are not modelled.
- The legacy `handleStepResult` / `formatStepArguments` in the JSON formatter are left out; they are unreachable.
- JsonFormatter.FormatAttachments: `formatAttachments` is called only from that legacy `handleStepResult` (src/formatter/json_formatter.js:195), so the live `getStepData` path never writes `embeddings`; `FormatAttachments`, `ParseEmbeddings` and `AttachmentsRoundTrip` model the helper on its own, off the live path.
- `JSON.stringify` layout is not modelled: JsonFormatter.JsonFormatter.OnTestRunFinished logs the feature objects themselves.
- Several text functions stay uninterpreted parameters (`Renderers`):
  - colours and `formatLocation`;
  - `formatError`, `indent-string` and the `cli-table` layout.
- SnippetBuilder.Build: the cucumber expression generator is a parameter, and the snippet syntax is not applied; `Build` returns the four arguments it would receive.
- StepResultHelpers.TestStepSnippet: the throw is modelled as the TypeError of `step.arguments.map`. `generateExpression` of the missing `text` runs first, inside cucumber-expressions, which is not part of this model, so the thrown message may differ.
- IssueHelpers.Character: the `figures` tick and cross are fixed to the symbols `figures` gives outside Windows, U+2714 and U+2716; on Windows `figures` gives √ and × instead, and the model does not capture that platform choice.
- `formatSummary` is an uninterpreted parameter, and the `testRun` payload it receives (the run duration) is not modelled.
- `keyword_type.js` is left out. Keyword types are a three-valued datatype.
- JsonFormatter.ConvertNameToId: `toLowerCase` is modelled on ASCII letters only. Other characters are kept, so every feature and scenario id built from a name outside ASCII differs from the one JavaScript builds; `FeatureIdExample` and `ScenarioIdExample` use ASCII names only.
- Runtime.Runtime.RunTestCase applies the `test-case-finished` listener after the runner completes, not during that emit. Dispatch is synchronous and that event is the runner's last, so the observable state is the same.
- Runtime.Runtime.RunTestCases runs the test cases one after the other, in list order. As written, `Promise.each` is bluebird's, but src/runtime/index.js does not import bluebird, so with native promises the call would throw. The model follows the evident intent, not that throw.
- EventDataCollector.EventDataCollector.StoreTestCase, TestCaseCollector.TestCaseCollector.StoreTestCase and SummaryFormatter.SummaryFormatter.StoreTestCase take the test case's location as a parameter, as do the collectors' other Store* methods. As written, the runner's `test-case-prepared` payload is `{steps, testCase: {uri, line}}` (src/runtime/test_case_runner.js:25-33,59), and `storeTestCase` destructures a `sourceLocation` from it. That location would be undefined, and the key lookup would throw. The model follows the intended payload, `{sourceLocation, steps}`; the throw is not modelled.
- JsonFormatter.ScenarioOf looks the pickle up by the test case's location. As written, src/formatter/json_formatter.js:76-78 passes `testCase.sourceLocation` to `getTestCaseData`, which reads `.sourceLocation.uri` of it again (src/formatter/helpers/test_case_collector.js:20) and would throw. The model follows the intent, not that throw.
- JsonFormatter.Features, JsonFormatter.JsonFormatter.OnTestRunFinished: the collector's `Map`s are read as maps. As written, `_.each` over a `Map` and `gherkinDocumentMap[uri]` (src/formatter/json_formatter.js:55,63) see no entries. The model follows the intent, not that behaviour.
- JsonFormatter.GroupByUriKeys: the groups are ordered by the first appearance of each uri. `groupedTestCases` is a plain object, and JavaScript lists integer-like keys (such as a uri "7") first, in ascending order. Feature file uris end in `.feature`, so no such key arises in practice; the model does not capture that ordering rule.
- SummaryFormatter.IssueOf formats the test case's location in the issue header. As written, `logIssues` passes the stored entry `{sourceLocation, steps, result}` as the location (src/formatter/summary_formatter.js:95), and `formatLocation` then renders that object. `formatLocation` is an uninterpreted parameter, so the model applies it to the location.
- TestCaseRunner.ApplicableHooksSpec: hook applicability is one abstract predicate. As written, the runner calls `appliesToScenario` (src/runtime/test_case_runner.js:62-76), while hook definitions define `appliesToTestCase`, so the call would throw. The model follows the intent.
- TestCaseRunner.PickleStepOutcome: step-definition matching is abstract over the whole pickle step. As written, the runner matches on `step.name`, while pickle steps carry `text`. The model follows the intent.
- The stack trace filter is reduced to the record of its `filter`/`unfilter` calls.
- The `world` object and the attachment manager of the runner are left out. Hook keywords (`Hook` model objects) are also left out: they are passed only to user code.

## Where the code and its tests or design disagree

Each item says whether the model follows the code as written or its evident intent. The intent is followed only where the code as written would throw or read nothing. Each such item also has a line under "## Left out" naming the member concerned.

- **Runner keeps only the status.** (follows the code.) The runner stores only `status` in its result (src/runtime/test_case_runner.js:121). Its test expects `exception` as well. `test-case-finished` therefore carries the status alone.
- **Progress character for passed.** (follows the code.) The progress formatter maps passed to '.' (src/formatter/progress_formatter.js:7). Its test expects no output for a passed step. The model logs '.'.
- **JSON formatter reads Maps as objects.** (follows the intent.) The JSON formatter uses object-style access (`_.each`, `[uri]`) on the collector's `Map`s (src/formatter/json_formatter.js:55,63). The model reads them as the finite maps they are meant to be.
- **JSON formatter's lookup argument.** (follows the intent.) The JSON formatter passes `testCase.sourceLocation` to `getTestCaseData` (src/formatter/json_formatter.js:76-78), which then reads `.sourceLocation` of it again. The model looks the pickle up by the test case's location.
- **Hook applicability method name.** (follows the intent.) The runner calls `appliesToScenario`, but hook definitions define `appliesToTestCase`. Applicability is one abstract predicate.
- **Runner payloads vs collector expectations.** (follows the intent.)
  - The runner's payloads name the test case `testCase: {uri, line}`, while the collectors read `sourceLocation` and `testCase.sourceLocation`. The collectors' methods take the location directly.
  - The runner matches step definitions on `step.name`, while pickle steps carry `text`. Matching is abstract over the whole step.
- **Issues without steps.** (follows the code for the steps and the intent for the location.) The summary formatter's `logIssues` passes no `steps` to `formatIssue`, and passes the stored entry where a location is formatted. Its issues are therefore header lines only.
- **Ambiguous message.** (follows the code.) Ambiguous results carry `matches`, not `exception`, so the ambiguous step message shows an absent exception.
- **Undefined snippet input.** (follows the code.) `formatIssue` hands `getStepMessage` the test step (src/formatter/helpers/issue_helpers.js:123-135), and `snippetBuilder.build` then maps over `step.arguments` (src/formatter/step_definition_snippet_builder/index.js:49), which a test step lacks. So an undefined step's message throws, and so does the issue holding it; the model returns that TypeError.
- **Missing bluebird import.** (follows the intent.) `Promise.each` in src/runtime/index.js:38 has no bluebird import. The model runs the test cases sequentially and in order, following the intent.
- **Step `match` attribute.** (follows the code.) The JSON formatter's test expects each step object to carry `match: {location}`. `getStepData` (src/formatter/json_formatter.js:130-161) never writes `match`; only the unreachable legacy `handleStepResult` does (line 206). The model's step objects have no `match`.
