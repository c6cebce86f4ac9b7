/** The bookkeeping that every event consumer keeps, in its own copy: gherkin documents by
    uri, pickles and test cases by `uri:line`, and the in-place patching of a stored test
    case when its steps and then the test case itself finish. */
module Bookkeeping {
  import opened Wrappers
  import opened Gherkin
  import opened Events
  import opened OrderedMaps
  import TestCaseRunner

  /** A stored test case: `{sourceLocation, steps}` from `test-case-prepared`, and `result`,
      absent until `test-case-finished` is stored. */
  datatype TestCaseEntry = TestCaseEntry(sourceLocation: Location, steps: seq<TestStep>, result: Option<TestCaseResult>)

  /** The key a pickle is filed under: its uri and the line of its first location. */
  function PickleKey(uri: string, pickle: Pickle): string
  {
    TestCaseKey(Location(uri, pickle.locations[0]))
  }

  /** The pickle accepted for a test case is filed under the key of the location that the
      runner reports for that test case, so the two meet in every consumer. */
  lemma PickleKeyIsTestCaseKey(testCase: TestCaseRunner.TestCase)
    ensures PickleKey(testCase.uri, testCase.pickle) == TestCaseKey(TestCaseRunner.TestCaseLocation(testCase))
  {
  }

  /** Reading a property of `undefined` throws. */
  const MissingTestCase := TypeError("steps of undefined")
  const MissingTestStep := TypeError("result of undefined")

  /** `entry.steps[index].result = result`: only that step's result changes. An index past
      the last step reads `undefined`, on which setting `result` throws. */
  function WithStepResult(entry: TestCaseEntry, index: nat, result: StepResult): (r: Result<TestCaseEntry>)
    ensures r.Ok? <==> index < |entry.steps|
    ensures r.Fail? ==> r.error == MissingTestStep
    ensures r.Ok? ==> r.value.sourceLocation == entry.sourceLocation && r.value.result == entry.result
    ensures r.Ok? ==> |r.value.steps| == |entry.steps|
    ensures r.Ok? ==> r.value.steps[index].result == Some(result) &&
                      r.value.steps[index].sourceLocation == entry.steps[index].sourceLocation &&
                      r.value.steps[index].actionLocation == entry.steps[index].actionLocation
    ensures r.Ok? ==> forall j :: 0 <= j < |entry.steps| && j != index ==> r.value.steps[j] == entry.steps[j]
  {
    if index < |entry.steps| then
      Ok(entry.(steps := entry.steps[index := entry.steps[index].(result := Some(result))]))
    else
      Fail(MissingTestStep)
  }

  /** Results of different steps can be stored in either order, and storing a result again
      changes nothing. */
  lemma WithStepResultCommutes(entry: TestCaseEntry, i: nat, a: StepResult, j: nat, b: StepResult)
    requires i < |entry.steps| && j < |entry.steps|
    ensures WithStepResult(entry, i, a).Ok? && WithStepResult(WithStepResult(entry, i, a).value, j, b).Ok?
    ensures i != j ==>
      WithStepResult(WithStepResult(entry, i, a).value, j, b) == WithStepResult(WithStepResult(entry, j, b).value, i, a)
    ensures WithStepResult(WithStepResult(entry, i, a).value, i, a) == WithStepResult(entry, i, a)
  {
    var ea := WithStepResult(entry, i, a).value;
    if i != j {
      var eb := WithStepResult(entry, j, b).value;
      var l, r := WithStepResult(ea, j, b).value, WithStepResult(eb, i, a).value;
      assert l.steps == r.steps;
    }
    assert WithStepResult(ea, i, a).value.steps == ea.steps;
  }

  /** `testCaseMap.get(key).steps[index].result = result` on a `Map`: only that entry
      changes, in place; a missing key or step throws and changes nothing. */
  function StoreStepResultIn(m: OrderedMap<string, TestCaseEntry>, key: string, index: nat, result: StepResult)
    : (r: Result<OrderedMap<string, TestCaseEntry>>)
    ensures r.Ok? <==> key in Keys(m) && index < |Get(m, key).value.steps|
    ensures r.Fail? ==> r.error == (if key in Keys(m) then MissingTestStep else MissingTestCase)
    ensures r.Ok? ==> Get(r.value, key) == Some(WithStepResult(Get(m, key).value, index, result).value)
    ensures r.Ok? ==> forall k :: k != key ==> Get(r.value, k) == Get(m, k)
    ensures r.Ok? ==> Keys(r.value) == Keys(m)
    ensures r.Ok? && Valid(m) ==> Valid(r.value)
  {
    match Get(m, key)
    case None => Fail(MissingTestCase)
    case Some(entry) =>
      match WithStepResult(entry, index, result)
      case Fail(e) => Fail(e)
      case Ok(entry') => Ok(Set(m, key, entry'))
  }

  /** `testCaseMap.get(key).result = result`: only that entry changes; a missing key throws. */
  function StoreCaseResultIn(m: OrderedMap<string, TestCaseEntry>, key: string, result: TestCaseResult)
    : (r: Result<OrderedMap<string, TestCaseEntry>>)
    ensures r.Ok? <==> key in Keys(m)
    ensures r.Fail? ==> r.error == TypeError("result of undefined")
    ensures r.Ok? ==> Get(r.value, key) == Some(Get(m, key).value.(result := Some(result)))
    ensures r.Ok? ==> forall k :: k != key ==> Get(r.value, k) == Get(m, k)
    ensures r.Ok? ==> Keys(r.value) == Keys(m)
    ensures r.Ok? && Valid(m) ==> Valid(r.value)
  {
    match Get(m, key)
    case None => Fail(TypeError("result of undefined"))
    case Some(entry) => Ok(Set(m, key, entry.(result := Some(result))))
  }

  /** Every stored test case sits under the key of its own location. */
  ghost predicate KeyedByLocation(m: OrderedMap<string, TestCaseEntry>)
  {
    forall k :: Get(m, k).Some? ==> k == TestCaseKey(Get(m, k).value.sourceLocation)
  }

  /** In a map keyed by location, the test case found under a location's key is the test
      case of that location. */
  lemma KeyedLookup(m: OrderedMap<string, TestCaseEntry>, loc: Location)
    requires KeyedByLocation(m)
    ensures Get(m, TestCaseKey(loc)).Some? ==> Get(m, TestCaseKey(loc)).value.sourceLocation == loc
  {
    if Get(m, TestCaseKey(loc)).Some? {
      TestCaseKeyInjective(Get(m, TestCaseKey(loc)).value.sourceLocation, loc);
    }
  }
}
