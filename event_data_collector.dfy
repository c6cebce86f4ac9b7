/** The event data collector (src/event_data_collector.js): it files gherkin documents by
    uri, accepted pickles and prepared test cases by `uri:line`, patches the stored test
    case as its steps and then the test case finish, and answers lookups by location. */
module EventDataCollector {
  import opened Wrappers
  import opened Gherkin
  import opened Events
  import opened OrderedMaps
  import opened Bookkeeping

  /** `getTestCaseData`: what is filed for a location, each part absent when nothing is. */
  datatype TestCaseData = TestCaseData(
    gherkinDocument: Option<GherkinDocument>, pickle: Option<Pickle>, testCase: Option<TestCaseEntry>)

  /** `getTestStepData`: the prepared step and, for a step of the pickle, the pickle step and
      the keyword written in the document at its line (each absent when not found). */
  datatype TestStepData = TestStepData(testStep: TestStep, pickledStep: Option<PickleStep>, gherkinKeyword: Option<string>)

  /** The last line of a pickle step: its own line, or the example row of an outline. */
  function LastLine(step: PickleStep): nat
  {
    step.locations[|step.locations| - 1]
  }

  /** The step data of step `index` of the test case in `data`. For a step with a source
      location, the pickle's steps are read first and then the document's feature, so reading
      `steps` of a missing test case, `sourceLocation` of a missing step, `steps` of a missing
      pickle or `feature.children` of a missing document or feature throws; a line found in
      neither only leaves that part absent. */
  function StepData(data: TestCaseData, index: nat): (r: Result<TestStepData>)
    ensures r.Ok? <==>
      data.testCase.Some? && index < |data.testCase.value.steps| &&
      (data.testCase.value.steps[index].sourceLocation.Some? ==>
         data.pickle.Some? && data.gherkinDocument.Some? && data.gherkinDocument.value.feature.Some?)
    ensures r.Ok? ==> r.value.testStep == data.testCase.value.steps[index]
    ensures r.Ok? && r.value.testStep.sourceLocation.None? ==>
      r.value.pickledStep.None? && r.value.gherkinKeyword.None?
    ensures r.Ok? && r.value.pickledStep.Some? ==>
      data.pickle.Some? && r.value.pickledStep.value in data.pickle.value.steps &&
      LastLine(r.value.pickledStep.value) == r.value.testStep.sourceLocation.value.line
    ensures r.Ok? && r.value.testStep.sourceLocation.Some? &&
            (exists j :: 0 <= j < |data.pickle.value.steps| &&
                         LastLine(data.pickle.value.steps[j]) == r.value.testStep.sourceLocation.value.line) ==>
      r.value.pickledStep.Some?
    ensures r.Ok? && r.value.gherkinKeyword.Some? ==>
      var steps := AllDocumentSteps(data.gherkinDocument.value.feature.value.children);
      exists j :: 0 <= j < |steps| &&
                  steps[j] == DocumentStep(r.value.testStep.sourceLocation.value.line, r.value.gherkinKeyword.value)
    ensures r.Ok? && r.value.testStep.sourceLocation.Some? &&
            (var steps := AllDocumentSteps(data.gherkinDocument.value.feature.value.children);
             exists j :: 0 <= j < |steps| && steps[j].line == r.value.testStep.sourceLocation.value.line) ==>
      r.value.gherkinKeyword.Some?
  {
    match data.testCase
    case None => Fail(MissingTestCase)
    case Some(testCase) =>
      if index >= |testCase.steps| then Fail(TypeError("sourceLocation of undefined"))
      else
        var step := testCase.steps[index];
        match step.sourceLocation
        case None => Ok(TestStepData(step, None, None))
        case Some(source) =>
          match data.pickle
          case None => Fail(TypeError("steps of undefined"))
          case Some(pickle) =>
            var pickledStep := LookupLast(LastLinePairs(pickle.steps), source.line);
            match data.gherkinDocument
            case None => Fail(TypeError("feature of undefined"))
            case Some(document) =>
              match document.feature
              case None => Fail(TypeError("children of undefined"))
              case Some(feature) =>
                KeywordAtLine(feature, source.line);
                Ok(TestStepData(step, pickledStep, LookupLast(StepLineKeywordPairs(feature), source.line)))
  }

  class EventDataCollector {
    var gherkinDocumentMap: OrderedMap<string, GherkinDocument>
    var pickleMap: OrderedMap<string, Pickle>
    var testCaseMap: OrderedMap<string, TestCaseEntry>

    /** No key is filed twice, and each test case is filed under its own location. */
    ghost predicate Valid()
      reads this
    {
      OrderedMaps.Valid(gherkinDocumentMap) && OrderedMaps.Valid(pickleMap) &&
      OrderedMaps.Valid(testCaseMap) && KeyedByLocation(testCaseMap)
    }

    constructor ()
      ensures Valid()
      ensures gherkinDocumentMap == Empty() && pickleMap == Empty() && testCaseMap == Empty()
    {
      gherkinDocumentMap, pickleMap, testCaseMap := Empty(), Empty(), Empty();
    }

    /** `getTestCaseData`: the document by uri, the pickle and the test case by `uri:line`;
        a test case found is the one prepared at that very location. */
    function GetTestCaseData(sourceLocation: Location): (d: TestCaseData)
      reads this
      requires Valid()
      ensures d.gherkinDocument == Get(gherkinDocumentMap, sourceLocation.uri)
      ensures d.pickle == Get(pickleMap, TestCaseKey(sourceLocation))
      ensures d.testCase == Get(testCaseMap, TestCaseKey(sourceLocation))
      ensures d.testCase.Some? ==> d.testCase.value.sourceLocation == sourceLocation
    {
      KeyedLookup(testCaseMap, sourceLocation);
      TestCaseData(
        Get(gherkinDocumentMap, sourceLocation.uri),
        Get(pickleMap, TestCaseKey(sourceLocation)),
        Get(testCaseMap, TestCaseKey(sourceLocation)))
    }

    /** `getTestStepData({testCase: {sourceLocation}, index})`. */
    function GetTestStepData(sourceLocation: Location, index: nat): (r: Result<TestStepData>)
      reads this
      requires Valid()
      ensures r.Ok? ==> GetTestCaseData(sourceLocation).testCase.Some? &&
                        index < |GetTestCaseData(sourceLocation).testCase.value.steps| &&
                        r.value.testStep == GetTestCaseData(sourceLocation).testCase.value.steps[index]
      ensures r.Fail? <==> Get(testCaseMap, TestCaseKey(sourceLocation)).None? ||
                           StepData(GetTestCaseData(sourceLocation), index).Fail?
    {
      StepData(GetTestCaseData(sourceLocation), index)
    }

    /** `storeGherkinDocument`: the document most recently stored for a uri wins. */
    method StoreGherkinDocument(document: GherkinDocument, uri: string)
      requires Valid()
      modifies this
      ensures Valid()
      ensures gherkinDocumentMap == Set(old(gherkinDocumentMap), uri, document)
      ensures pickleMap == old(pickleMap) && testCaseMap == old(testCaseMap)
      ensures forall line :: GetTestCaseData(Location(uri, line)).gherkinDocument == Some(document)
    {
      gherkinDocumentMap := Set(gherkinDocumentMap, uri, document);
    }

    /** `storePickle`: filed under the uri and the line of the pickle's first location. */
    method StorePickle(pickle: Pickle, uri: string)
      requires Valid()
      modifies this
      ensures Valid()
      ensures pickleMap == Set(old(pickleMap), PickleKey(uri, pickle), pickle)
      ensures gherkinDocumentMap == old(gherkinDocumentMap) && testCaseMap == old(testCaseMap)
      ensures GetTestCaseData(Location(uri, pickle.locations[0])).pickle == Some(pickle)
    {
      pickleMap := Set(pickleMap, PickleKey(uri, pickle), pickle);
    }

    /** `storeTestCase`: creates or replaces the entry `{sourceLocation, steps}`, with no result. */
    method StoreTestCase(sourceLocation: Location, steps: seq<TestStep>)
      requires Valid()
      modifies this
      ensures Valid()
      ensures testCaseMap == Set(old(testCaseMap), TestCaseKey(sourceLocation), TestCaseEntry(sourceLocation, steps, None))
      ensures gherkinDocumentMap == old(gherkinDocumentMap) && pickleMap == old(pickleMap)
      ensures GetTestCaseData(sourceLocation).testCase == Some(TestCaseEntry(sourceLocation, steps, None))
    {
      testCaseMap := Set(testCaseMap, TestCaseKey(sourceLocation), TestCaseEntry(sourceLocation, steps, None));
    }

    /** `storeTestStepResult`: sets `result` on step `index` of the test case only; with no
        such test case or step it throws and nothing changes. */
    method StoreTestStepResult(index: nat, testCase: Location, result: StepResult) returns (o: Outcome)
      requires Valid()
      modifies this
      ensures Valid()
      ensures o.Pass? <==> StoreStepResultIn(old(testCaseMap), TestCaseKey(testCase), index, result).Ok?
      ensures testCaseMap == if o.Pass? then StoreStepResultIn(old(testCaseMap), TestCaseKey(testCase), index, result).value
                             else old(testCaseMap)
      ensures gherkinDocumentMap == old(gherkinDocumentMap) && pickleMap == old(pickleMap)
    {
      match StoreStepResultIn(testCaseMap, TestCaseKey(testCase), index, result)
      case Fail(e) =>
        o := Throw(e);
      case Ok(m) =>
        testCaseMap := m;
        o := Pass;
    }

    /** `storeTestCaseResult`: sets `result` on the test case only; with no such test case
        it throws and nothing changes. */
    method StoreTestCaseResult(sourceLocation: Location, result: TestCaseResult) returns (o: Outcome)
      requires Valid()
      modifies this
      ensures Valid()
      ensures o.Pass? <==> TestCaseKey(sourceLocation) in Keys(old(testCaseMap))
      ensures testCaseMap == if o.Pass? then StoreCaseResultIn(old(testCaseMap), TestCaseKey(sourceLocation), result).value
                             else old(testCaseMap)
      ensures gherkinDocumentMap == old(gherkinDocumentMap) && pickleMap == old(pickleMap)
      ensures o.Pass? ==> GetTestCaseData(sourceLocation).testCase.value.result == Some(result)
    {
      match StoreCaseResultIn(testCaseMap, TestCaseKey(sourceLocation), result)
      case Fail(e) =>
        o := Throw(e);
      case Ok(m) =>
        testCaseMap := m;
        o := Pass;
    }
  }
}
