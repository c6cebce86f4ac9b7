/** The formatters' test case collector (src/formatter/helpers/test_case_collector.js): the
    same filing as the event data collector, in `Map`s, whose lookup answers only the
    document and the pickle of a test case. */
module TestCaseCollector {
  import opened Wrappers
  import opened Gherkin
  import opened Events
  import opened OrderedMaps
  import opened Bookkeeping

  /** `getTestCaseData(testCase)`: the document and the pickle, never the test case itself. */
  datatype CaseData = CaseData(gherkinDocument: Option<GherkinDocument>, pickle: Option<Pickle>)

  class TestCaseCollector {
    var gherkinDocumentMap: OrderedMap<string, GherkinDocument>
    var pickleMap: OrderedMap<string, Pickle>
    var testCaseMap: OrderedMap<string, TestCaseEntry>

    /** No key is filed twice, and each test case is filed under its own location. */
    ghost predicate Valid()
      reads this
    {
      OrderedMaps.Valid(gherkinDocumentMap) && OrderedMaps.Valid(pickleMap) &&
      OrderedMaps.Valid(testCaseMap) && KeyedByLocation(testCaseMap)
    }

    constructor ()
      ensures Valid()
      ensures gherkinDocumentMap == Empty() && pickleMap == Empty() && testCaseMap == Empty()
    {
      gherkinDocumentMap, pickleMap, testCaseMap := Empty(), Empty(), Empty();
    }

    /** `getTestCaseData({sourceLocation})`: the document by uri and the pickle by `uri:line`. */
    function GetTestCaseData(sourceLocation: Location): (d: CaseData)
      reads this
      ensures d.gherkinDocument.Some? <==> sourceLocation.uri in Keys(gherkinDocumentMap)
      ensures d.gherkinDocument == Get(gherkinDocumentMap, sourceLocation.uri)
      ensures d.pickle.Some? <==> TestCaseKey(sourceLocation) in Keys(pickleMap)
      ensures d.pickle == Get(pickleMap, TestCaseKey(sourceLocation))
    {
      CaseData(Get(gherkinDocumentMap, sourceLocation.uri), Get(pickleMap, TestCaseKey(sourceLocation)))
    }

    /** The test case filed for a location, as `testCaseMap.get(key)`; a test case found is
        the one prepared at that location. */
    function GetTestCase(sourceLocation: Location): (r: Option<TestCaseEntry>)
      reads this
      requires Valid()
      ensures r == Get(testCaseMap, TestCaseKey(sourceLocation))
      ensures r.Some? ==> r.value.sourceLocation == sourceLocation
    {
      KeyedLookup(testCaseMap, sourceLocation);
      Get(testCaseMap, TestCaseKey(sourceLocation))
    }

    /** `storeGherkinDocument`: `Map.set`, so the latest document for a uri wins. */
    method StoreGherkinDocument(document: GherkinDocument, uri: string)
      requires Valid()
      modifies this
      ensures Valid()
      ensures gherkinDocumentMap == Set(old(gherkinDocumentMap), uri, document)
      ensures pickleMap == old(pickleMap) && testCaseMap == old(testCaseMap)
      ensures forall line :: GetTestCaseData(Location(uri, line)).gherkinDocument == Some(document)
    {
      gherkinDocumentMap := Set(gherkinDocumentMap, uri, document);
    }

    /** `storePickle`: filed under the uri and the line of the pickle's first location. */
    method StorePickle(pickle: Pickle, uri: string)
      requires Valid()
      modifies this
      ensures Valid()
      ensures pickleMap == Set(old(pickleMap), PickleKey(uri, pickle), pickle)
      ensures gherkinDocumentMap == old(gherkinDocumentMap) && testCaseMap == old(testCaseMap)
      ensures GetTestCaseData(Location(uri, pickle.locations[0])).pickle == Some(pickle)
    {
      pickleMap := Set(pickleMap, PickleKey(uri, pickle), pickle);
    }

    /** `storeTestCase`: sets the key to `{sourceLocation, steps}`, with no result. */
    method StoreTestCase(sourceLocation: Location, steps: seq<TestStep>)
      requires Valid()
      modifies this
      ensures Valid()
      ensures testCaseMap == Set(old(testCaseMap), TestCaseKey(sourceLocation), TestCaseEntry(sourceLocation, steps, None))
      ensures gherkinDocumentMap == old(gherkinDocumentMap) && pickleMap == old(pickleMap)
      ensures GetTestCase(sourceLocation) == Some(TestCaseEntry(sourceLocation, steps, None))
    {
      testCaseMap := Set(testCaseMap, TestCaseKey(sourceLocation), TestCaseEntry(sourceLocation, steps, None));
    }

    /** `storeTestStepResult`: only `steps[index].result` of that test case changes; a
        missing test case or step throws and nothing changes. */
    method StoreTestStepResult(index: nat, testCase: Location, result: StepResult) returns (o: Outcome)
      requires Valid()
      modifies this
      ensures Valid()
      ensures o.Pass? <==> StoreStepResultIn(old(testCaseMap), TestCaseKey(testCase), index, result).Ok?
      ensures testCaseMap == if o.Pass? then StoreStepResultIn(old(testCaseMap), TestCaseKey(testCase), index, result).value
                             else old(testCaseMap)
      ensures gherkinDocumentMap == old(gherkinDocumentMap) && pickleMap == old(pickleMap)
    {
      match StoreStepResultIn(testCaseMap, TestCaseKey(testCase), index, result)
      case Fail(e) =>
        o := Throw(e);
      case Ok(m) =>
        testCaseMap := m;
        o := Pass;
    }

    /** `storeTestCaseResult`: only that test case's `result` changes; a missing test case
        throws and nothing changes. */
    method StoreTestCaseResult(sourceLocation: Location, result: TestCaseResult) returns (o: Outcome)
      requires Valid()
      modifies this
      ensures Valid()
      ensures o.Pass? <==> TestCaseKey(sourceLocation) in Keys(old(testCaseMap))
      ensures testCaseMap == if o.Pass? then StoreCaseResultIn(old(testCaseMap), TestCaseKey(sourceLocation), result).value
                             else old(testCaseMap)
      ensures gherkinDocumentMap == old(gherkinDocumentMap) && pickleMap == old(pickleMap)
      ensures o.Pass? ==> GetTestCase(sourceLocation).value.result == Some(result)
    {
      match StoreCaseResultIn(testCaseMap, TestCaseKey(sourceLocation), result)
      case Fail(e) =>
        o := Throw(e);
      case Ok(m) =>
        testCaseMap := m;
        o := Pass;
    }
  }
}
