/** The JSON formatter (src/formatter/json_formatter.js): when the run finishes, the test
    cases its collector filed are grouped by feature file, and each group becomes a feature
    object holding one element per test case, each with one object per test step. The
    objects are modelled as datatypes; the JSON text they are stringified to is not. */
module JsonFormatter {
  import opened Wrappers
  import opened Strings
  import opened Statuses
  import opened Gherkin
  import opened Events
  import opened OrderedMaps
  import opened Seqs
  import opened Bookkeeping
  import TestCaseCollector

  /** `{name, line}` of a tag. */
  datatype TagData = TagData(name: string, line: nat)

  /** `data.result`: the status, and the duration and the error message when present. */
  datatype ResultData = ResultData(status: Status, duration: Option<nat>, errorMessage: Option<string>)

  /** A step object: absent fields are `None`; `hidden` is present only when true. */
  datatype StepData = StepData(
    arguments: Option<seq<StepArgument>>, keyword: Option<string>, line: Option<nat>, name: Option<string>,
    hidden: bool, result: Option<ResultData>)

  datatype ScenarioData = ScenarioData(
    description: Option<string>, id: string, keyword: string, line: nat, name: string, tags: seq<TagData>,
    steps: seq<StepData>)

  datatype FeatureData = FeatureData(
    description: Option<string>, keyword: string, name: string, line: nat, id: string, tags: seq<TagData>,
    uri: string, elements: seq<ScenarioData>)

  /** An attachment as a step result carries it, and as the JSON output writes it. */
  datatype Attachment = Attachment(data: string, mimeType: string)
  datatype Embedding = Embedding(data: string, mime_type: string)

  // ---------------------------------------------------------------------------------------
  // Identifiers

  /** `convertNameToId`: every space becomes a dash, then the name is lower-cased. */
  function ConvertNameToId(name: string): string
  {
    ToLower(ReplaceAll(name, ' ', "-"))
  }

  /** Replacing a character by one character keeps the length and changes only the
      positions that held it. */
  lemma {:induction false} ReplaceCharPointwise(s: string, c: char, d: char)
    ensures |ReplaceAll(s, c, [d])| == |s|
    ensures forall i :: 0 <= i < |s| ==> ReplaceAll(s, c, [d])[i] == if s[i] == c then d else s[i]
    decreases |s|
  {
    if s != [] {
      ReplaceCharPointwise(s[1..], c, d);
      var r := ReplaceAll(s, c, [d]);
      assert r == (if s[0] == c then [d] else [s[0]]) + ReplaceAll(s[1..], c, [d]);
      forall i | 0 < i < |s| ensures r[i] == if s[i] == c then d else s[i] {
        assert s[i] == s[1..][i - 1];
      }
    }
  }

  /** The id has the name's length; at each position a space of the name is a dash and any
      other character is lower-cased. */
  lemma ConvertNameToIdPointwise(name: string)
    ensures |ConvertNameToId(name)| == |name|
    ensures forall i :: 0 <= i < |name| ==>
      ConvertNameToId(name)[i] == if name[i] == ' ' then '-' else LowerChar(name[i])
  {
    ReplaceCharPointwise(name, ' ', '-');
  }

  /** An id holds no space and no upper-case letter, and converting it again changes nothing. */
  lemma ConvertNameToIdNormal(name: string)
    ensures forall i :: 0 <= i < |ConvertNameToId(name)| ==>
      ConvertNameToId(name)[i] != ' ' && !('A' <= ConvertNameToId(name)[i] <= 'Z')
    ensures ConvertNameToId(ConvertNameToId(name)) == ConvertNameToId(name)
  {
    var id := ConvertNameToId(name);
    ConvertNameToIdPointwise(name);
    ConvertNameToIdPointwise(id);
  }

  /** A string is the id of a name when it matches the name position by position. */
  lemma ConvertNameToIdOf(name: string, id: string)
    requires |id| == |name|
    requires forall i :: 0 <= i < |name| ==> id[i] == if name[i] == ' ' then '-' else LowerChar(name[i])
    ensures ConvertNameToId(name) == id
  {
    ConvertNameToIdPointwise(name);
  }

  /** The feature name of the formatter's example. */
  lemma FeatureIdExample()
    ensures ConvertNameToId("my feature") == "my-feature"
  {
    var name, id := "my feature", "my-feature";
    forall i | 0 <= i < |name| ensures id[i] == if name[i] == ' ' then '-' else LowerChar(name[i]) {
      if i != 2 {
        assert name[i] == id[i] && !('A' <= name[i] <= 'Z');
      }
    }
    ConvertNameToIdOf(name, id);
  }

  /** The scenario name of the formatter's example. */
  lemma ScenarioIdExample()
    ensures ConvertNameToId("my scenario") == "my-scenario"
  {
    var name, id := "my scenario", "my-scenario";
    forall i | 0 <= i < |name| ensures id[i] == if name[i] == ' ' then '-' else LowerChar(name[i]) {
      if i != 2 {
        assert name[i] == id[i] && !('A' <= name[i] <= 'Z');
      }
    }
    ConvertNameToIdOf(name, id);
  }

  // ---------------------------------------------------------------------------------------
  // Tags and attachments

  /** `getTags`: each tag, in order, as `{name, line}`. */
  function GetTags(tags: seq<Tag>): (r: seq<TagData>)
    ensures |r| == |tags|
    ensures forall i :: 0 <= i < |tags| ==> r[i].name == tags[i].name && r[i].line == tags[i].line
  {
    seq(|tags|, i requires 0 <= i < |tags| => TagData(tags[i].name, tags[i].line))
  }

  /** `formatAttachments`: each attachment, in order, with `mimeType` written `mime_type`. */
  function FormatAttachments(attachments: seq<Attachment>): (r: seq<Embedding>)
    ensures |r| == |attachments|
  {
    seq(|attachments|, i requires 0 <= i < |attachments| => Embedding(attachments[i].data, attachments[i].mimeType))
  }

  /** Reading embeddings back as attachments. */
  function ParseEmbeddings(embeddings: seq<Embedding>): (r: seq<Attachment>)
    ensures |r| == |embeddings|
  {
    seq(|embeddings|, i requires 0 <= i < |embeddings| => Attachment(embeddings[i].data, embeddings[i].mime_type))
  }

  /** Nothing of an attachment is lost or reordered: the embeddings read back as the
      attachments, and the attachments format back to the embeddings. */
  lemma AttachmentsRoundTrip(attachments: seq<Attachment>, embeddings: seq<Embedding>)
    ensures ParseEmbeddings(FormatAttachments(attachments)) == attachments
    ensures FormatAttachments(ParseEmbeddings(embeddings)) == embeddings
  {
  }

  // ---------------------------------------------------------------------------------------
  // Features, scenarios and steps

  /** `getFeatureData`: the feature's fields, its id and tags, and the uri; `elements` is
      filled in afterwards. */
  function GetFeatureData(feature: Feature, uri: string): (d: FeatureData)
    ensures d.uri == uri && d.name == feature.name && d.line == feature.line && d.elements == []
    ensures d.id == ConvertNameToId(feature.name) && d.tags == GetTags(feature.tags)
    ensures d.description == feature.description && d.keyword == feature.keyword
  {
    FeatureData(feature.description, feature.keyword, feature.name, feature.line, ConvertNameToId(feature.name),
                GetTags(feature.tags), uri, [])
  }

  /** The `scenarioLineToDescriptionMapping` pairs: (line, description) of every child. */
  function DescriptionPairs(feature: Feature): (r: seq<(nat, Option<string>)>)
    ensures |r| == |feature.children|
    ensures forall i :: 0 <= i < |r| ==> r[i] == (feature.children[i].line, feature.children[i].description)
  {
    seq(|feature.children|, i requires 0 <= i < |feature.children| =>
      (feature.children[i].line, feature.children[i].description))
  }

  /** `mapping[line]`, where the mapping's value may itself be undefined. */
  function DescriptionAt(descriptions: seq<(nat, Option<string>)>, line: nat): Option<string>
  {
    match LookupLast(descriptions, line)
    case None => None
    case Some(d) => d
  }

  /** The description mapped at each of the pickle's lines, in location order. */
  function LocationDescriptions(descriptions: seq<(nat, Option<string>)>, pickle: Pickle): (r: seq<Option<string>>)
    ensures |r| == |pickle.locations|
    ensures forall i :: 0 <= i < |r| ==> r[i] == DescriptionAt(descriptions, pickle.locations[i])
  {
    seq(|pickle.locations|, i requires 0 <= i < |pickle.locations| => DescriptionAt(descriptions, pickle.locations[i]))
  }

  /** `getScenarioData`: the first non-empty description of a child at one of the pickle's
      lines, the id joining the feature's id and the pickle's, the keyword `Scenario`, and
      the line of the pickle's first location; `steps` is filled in afterwards. */
  function GetScenarioData(featureId: string, pickle: Pickle, descriptions: seq<(nat, Option<string>)>): (d: ScenarioData)
    ensures d.id == featureId + ";" + ConvertNameToId(pickle.name)
    ensures d.keyword == "Scenario" && d.line == pickle.locations[0] && d.name == pickle.name
    ensures d.tags == GetTags(pickle.tags) && d.steps == []
    ensures d.description == FirstTruthy(LocationDescriptions(descriptions, pickle))
    ensures d.description.Some? ==>
      d.description.value != "" &&
      exists i :: 0 <= i < |pickle.locations| && DescriptionAt(descriptions, pickle.locations[i]) == d.description
    ensures d.description.None? <==>
      forall i :: 0 <= i < |pickle.locations| ==>
        DescriptionAt(descriptions, pickle.locations[i]).None? || DescriptionAt(descriptions, pickle.locations[i]).value == ""
  {
    var description := FirstTruthy(LocationDescriptions(descriptions, pickle));
    ScenarioData(description, featureId + ";" + ConvertNameToId(pickle.name), "Scenario", pickle.locations[0],
                 pickle.name, GetTags(pickle.tags), [])
  }

  /** The error message of a result: only for a failed step that threw, its stack when it
      has one, and otherwise the thrown value. */
  function ErrorMessage(result: StepResult): (m: Option<string>)
    ensures m.Some? <==> result.status == Failed && result.exception.Some?
    ensures m.Some? && result.exception.value.stack.Some? && result.exception.value.stack.value != "" ==>
      m.value == result.exception.value.stack.value
    ensures m.Some? && (result.exception.value.stack.None? || result.exception.value.stack.value == "") ==>
      m.value == result.exception.value.value
  {
    if result.status == Failed && result.exception.Some? then
      var exception := result.exception.value;
      Some(if exception.stack.Some? && exception.stack.value != "" then exception.stack.value else exception.value)
    else None
  }

  /** `data.result`, present exactly when the step has a result: always the status, the
      duration only when it is non-zero, and the error message. */
  function ResultDataOf(result: Option<StepResult>): (r: Option<ResultData>)
    ensures r.Some? <==> result.Some?
    ensures r.Some? ==> r.value.status == result.value.status && r.value.errorMessage == ErrorMessage(result.value)
    ensures r.Some? ==> (r.value.duration.Some? <==> result.value.duration.Some? && result.value.duration.value != 0)
    ensures r.Some? && r.value.duration.Some? ==> r.value.duration == result.value.duration
  {
    match result
    case None => None
    case Some(res) =>
      Some(ResultData(res.status, if res.duration.Some? && res.duration.value != 0 then res.duration else None,
                      ErrorMessage(res)))
  }

  /** `getStepData`: a step with a source location shows the arguments, keyword and text of
      the pickle step at that line; a hook step is hidden; reading the arguments of a
      missing pickle step throws. */
  function GetStepData(keywordPairs: seq<(nat, string)>, pickle: Pickle, testStep: TestStep): (r: Result<StepData>)
    ensures r.Fail? <==>
      testStep.sourceLocation.Some? && LookupLast(FirstLinePairs(pickle.steps), testStep.sourceLocation.value.line).None?
    ensures r.Fail? ==> r.error == TypeError("arguments of undefined")
    ensures r.Ok? ==> (r.value.hidden <==> testStep.sourceLocation.None?)
    ensures r.Ok? && r.value.hidden ==>
      r.value.arguments.None? && r.value.keyword.None? && r.value.line.None? && r.value.name.None?
    ensures r.Ok? && !r.value.hidden ==>
      var pickledStep := LookupLast(FirstLinePairs(pickle.steps), testStep.sourceLocation.value.line).value;
      pickledStep in pickle.steps && pickledStep.locations[0] == testStep.sourceLocation.value.line &&
      r.value.line == Some(testStep.sourceLocation.value.line) && r.value.name == Some(pickledStep.text) &&
      r.value.arguments == Some(pickledStep.arguments) && r.value.keyword == StepKeyword(keywordPairs, pickledStep)
    ensures r.Ok? ==> r.value.result == ResultDataOf(testStep.result)
  {
    match testStep.sourceLocation
    case None => Ok(StepData(None, None, None, None, true, ResultDataOf(testStep.result)))
    case Some(source) =>
      PickledStepFound(pickle, source.line);
      match LookupLast(FirstLinePairs(pickle.steps), source.line)
      case None => Fail(TypeError("arguments of undefined"))
      case Some(pickledStep) =>
        Ok(StepData(Some(pickledStep.arguments), StepKeyword(keywordPairs, pickledStep), Some(source.line),
                    Some(pickledStep.text), false, ResultDataOf(testStep.result)))
  }

  /** The pickle step found at a line is one of the pickle's steps, and its first location
      is that line. */
  lemma PickledStepFound(pickle: Pickle, line: nat)
    ensures LookupLast(FirstLinePairs(pickle.steps), line).Some? ==>
      LookupLast(FirstLinePairs(pickle.steps), line).value in pickle.steps &&
      LookupLast(FirstLinePairs(pickle.steps), line).value.locations[0] == line
  {
    var pairs := FirstLinePairs(pickle.steps);
    if LookupLast(pairs, line).Some? {
      var i :| 0 <= i < |pairs| && pairs[i] == (line, LookupLast(pairs, line).value) &&
               forall j :: i < j < |pairs| ==> pairs[j].0 != line;
      assert pickle.steps[i] == LookupLast(pairs, line).value;
    }
  }

  /** The step objects of a test case, as `getStepData` of each test step. */
  function StepOf(keywordPairs: seq<(nat, string)>, pickle: Pickle): TestStep -> Result<StepData>
  {
    (testStep: TestStep) => GetStepData(keywordPairs, pickle, testStep)
  }

  /** One element of a feature: the scenario data of the test case's pickle, with one step
      object per test step; a test case whose pickle was not filed throws. */
  function ScenarioOf(featureId: string, keywordPairs: seq<(nat, string)>, descriptions: seq<(nat, Option<string>)>,
                      pickleMap: OrderedMap<string, Pickle>): TestCaseEntry -> Result<ScenarioData>
  {
    (testCase: TestCaseEntry) =>
      match Get(pickleMap, TestCaseKey(testCase.sourceLocation))
      case None => Fail(TypeError("locations of undefined"))
      case Some(pickle) =>
        match MapResult(testCase.steps, StepOf(keywordPairs, pickle))
        case Fail(e) => Fail(e)
        case Ok(steps) => Ok(GetScenarioData(featureId, pickle, descriptions).(steps := steps))
  }

  /** One feature object: the feature of the document filed for the uri, with one element
      per test case of the group. A uri without a document, or a document without a
      feature, throws. */
  function FeatureOf(gherkinDocumentMap: OrderedMap<string, GherkinDocument>, pickleMap: OrderedMap<string, Pickle>)
    : ((string, seq<TestCaseEntry>)) -> Result<FeatureData>
  {
    (group: (string, seq<TestCaseEntry>)) =>
      match Get(gherkinDocumentMap, group.0)
      case None => Fail(TypeError("feature of undefined"))
      case Some(document) =>
        match document.feature
        case None => Fail(TypeError("description of undefined"))
        case Some(feature) =>
          var featureData := GetFeatureData(feature, group.0);
          var scenario := ScenarioOf(featureData.id, StepLineKeywordPairs(feature), DescriptionPairs(feature), pickleMap);
          match MapResult(group.1, scenario)
          case Fail(e) => Fail(e)
          case Ok(elements) => Ok(featureData.(elements := elements))
  }

  /** An element completes exactly when the test case's pickle is filed under its key and
      every test step gives a step object. It is then `getScenarioData` of that pickle (id,
      description, keyword, line, name and tags), with one step object per test step, in order. */
  lemma ScenarioOfSpec(featureId: string, keywordPairs: seq<(nat, string)>, descriptions: seq<(nat, Option<string>)>,
                       pickleMap: OrderedMap<string, Pickle>, testCase: TestCaseEntry)
    ensures var pickle := Get(pickleMap, TestCaseKey(testCase.sourceLocation));
      ScenarioOf(featureId, keywordPairs, descriptions, pickleMap)(testCase).Ok? <==>
        pickle.Some? &&
        forall i :: 0 <= i < |testCase.steps| ==> GetStepData(keywordPairs, pickle.value, testCase.steps[i]).Ok?
    ensures var pickle := Get(pickleMap, TestCaseKey(testCase.sourceLocation));
      var r := ScenarioOf(featureId, keywordPairs, descriptions, pickleMap)(testCase);
      r.Ok? ==>
        pickle.Some? &&
        r.value == GetScenarioData(featureId, pickle.value, descriptions).(steps := r.value.steps) &&
        r.value.id[..|featureId| + 1] == featureId + ";" &&
        |r.value.steps| == |testCase.steps| &&
        forall i :: 0 <= i < |testCase.steps| ==> GetStepData(keywordPairs, pickle.value, testCase.steps[i]) == Ok(r.value.steps[i])
  {
    var pickle := Get(pickleMap, TestCaseKey(testCase.sourceLocation));
    if pickle.Some? {
      MapResultSpec(testCase.steps, StepOf(keywordPairs, pickle.value));
      var r := ScenarioOf(featureId, keywordPairs, descriptions, pickleMap)(testCase);
      if r.Ok? {
        assert r.value.id == featureId + ";" + ConvertNameToId(pickle.value.name);
      }
    }
  }

  // ---------------------------------------------------------------------------------------
  // Grouping

  /** Whether a test case comes from the feature file `uri`. */
  function SameUri(uri: string): TestCaseEntry -> bool
  {
    (testCase: TestCaseEntry) => testCase.sourceLocation.uri == uri
  }

  /** One pass of the loop of `onTestRunFinished`: an empty group is created the first time
      the test case's uri is seen, then the test case is pushed onto its group. */
  function AddToGroup(grouped: OrderedMap<string, seq<TestCaseEntry>>, testCase: TestCaseEntry): OrderedMap<string, seq<TestCaseEntry>>
  {
    var uri := testCase.sourceLocation.uri;
    var withGroup := if Get(grouped, uri).None? then Set(grouped, uri, []) else grouped;
    Set(withGroup, uri, Get(withGroup, uri).value + [testCase])
  }

  /** Adding a test case appends its uri to the keys if new, and keeps them distinct. */
  lemma AddToGroupKeys(grouped: OrderedMap<string, seq<TestCaseEntry>>, testCase: TestCaseEntry)
    ensures var uri := testCase.sourceLocation.uri;
      Keys(AddToGroup(grouped, testCase)) == if uri in Keys(grouped) then Keys(grouped) else Keys(grouped) + [uri]
    ensures OrderedMaps.Valid(grouped) ==> OrderedMaps.Valid(AddToGroup(grouped, testCase))
  {
  }

  /** Adding a test case extends its uri's group (or starts it) and leaves every other
      group alone. */
  lemma AddToGroupSpec(grouped: OrderedMap<string, seq<TestCaseEntry>>, testCase: TestCaseEntry)
    ensures var uri := testCase.sourceLocation.uri;
      Get(AddToGroup(grouped, testCase), uri) ==
        Some((if Get(grouped, uri).Some? then Get(grouped, uri).value else []) + [testCase])
    ensures forall uri :: uri != testCase.sourceLocation.uri ==> Get(AddToGroup(grouped, testCase), uri) == Get(grouped, uri)
  {
  }

  /** `groupedTestCases` after the loop of `onTestRunFinished` has seen the test cases. */
  function GroupByUri(testCases: seq<TestCaseEntry>): OrderedMap<string, seq<TestCaseEntry>>
    decreases |testCases|
  {
    if testCases == [] then Empty()
    else
      var n := |testCases| - 1;
      AddToGroup(GroupByUri(testCases[..n]), testCases[n])
  }

  /** The uris in order of first appearance. */
  function FirstAppearances(uris: seq<string>): seq<string>
    decreases |uris|
  {
    if uris == [] then []
    else
      var n := |uris| - 1;
      var seen := FirstAppearances(uris[..n]);
      if uris[n] in seen then seen else seen + [uris[n]]
  }

  function Uris(testCases: seq<TestCaseEntry>): (r: seq<string>)
    ensures |r| == |testCases|
    ensures forall i :: 0 <= i < |testCases| ==> r[i] == testCases[i].sourceLocation.uri
  {
    seq(|testCases|, i requires 0 <= i < |testCases| => testCases[i].sourceLocation.uri)
  }

  lemma UrisPrefix(testCases: seq<TestCaseEntry>, n: nat)
    requires n <= |testCases|
    ensures Uris(testCases)[..n] == Uris(testCases[..n])
  {
    var a := Uris(testCases)[..n];
    var b := Uris(testCases[..n]);
    assert |a| == |b|;
    forall i | 0 <= i < n ensures a[i] == b[i] {
      assert a[i] == testCases[i].sourceLocation.uri;
    }
  }

  /** No uri is keyed twice. */
  lemma {:induction false} GroupByUriValid(testCases: seq<TestCaseEntry>)
    ensures OrderedMaps.Valid(GroupByUri(testCases))
    decreases |testCases|
  {
    if testCases != [] {
      var n := |testCases| - 1;
      GroupByUriValid(testCases[..n]);
      AddToGroupKeys(GroupByUri(testCases[..n]), testCases[n]);
    }
  }

  /** The groups are keyed by the uris in order of first appearance. */
  lemma {:induction false} GroupByUriKeys(testCases: seq<TestCaseEntry>)
    ensures Keys(GroupByUri(testCases)) == FirstAppearances(Uris(testCases))
    decreases |testCases|
  {
    if testCases != [] {
      var n := |testCases| - 1;
      var uris := Uris(testCases);
      var before := GroupByUri(testCases[..n]);
      assert GroupByUri(testCases) == AddToGroup(before, testCases[n]);
      GroupByUriKeys(testCases[..n]);
      UrisPrefix(testCases, n);
      var seen := FirstAppearances(uris[..n]);
      assert Keys(before) == seen;
      AddToGroupKeys(before, testCases[n]);
      assert FirstAppearances(uris) == if uris[n] in seen then seen else seen + [uris[n]];
    }
  }

  /** Each group holds exactly the test cases of its uri, in map order. */
  lemma {:induction false} GroupByUriGroups(testCases: seq<TestCaseEntry>)
    ensures forall uri :: Get(GroupByUri(testCases), uri).Some? ==>
      Get(GroupByUri(testCases), uri).value == Filter(testCases, SameUri(uri))
    decreases |testCases|
  {
    if testCases != [] {
      var n := |testCases| - 1;
      var init := testCases[..n];
      var last := testCases[n];
      GroupByUriGroups(init);
      assert testCases == init + [last];
      forall uri | Get(GroupByUri(testCases), uri).Some?
        ensures Get(GroupByUri(testCases), uri).value == Filter(testCases, SameUri(uri))
      {
        AddToGroupSpec(GroupByUri(init), last);
        FilterConcat(init, [last], SameUri(uri));
        FilterSingleton(last, SameUri(uri));
        if uri != last.sourceLocation.uri {
          assert Filter(testCases, SameUri(uri)) == Filter(init, SameUri(uri)) + [];
        } else if Get(GroupByUri(init), uri).None? {
          NoGroupNoTestCases(init, uri);
        }
      }
    }
  }

  /** A uri without a group has no test case. */
  lemma NoGroupNoTestCases(testCases: seq<TestCaseEntry>, uri: string)
    requires Get(GroupByUri(testCases), uri).None?
    ensures Filter(testCases, SameUri(uri)) == []
  {
    GroupByUriKeys(testCases);
    FirstAppearancesMembers(Uris(testCases));
    FilterSpec(testCases, SameUri(uri));
    forall i | 0 <= i < |testCases| ensures !SameUri(uri)(testCases[i]) {
      assert Uris(testCases)[i] == testCases[i].sourceLocation.uri;
    }
  }

  /** One group per uri, each uri once and in order of first appearance; each group holds
      exactly the test cases of its uri, in map order. */
  lemma GroupByUriSpec(testCases: seq<TestCaseEntry>)
    ensures OrderedMaps.Valid(GroupByUri(testCases))
    ensures Keys(GroupByUri(testCases)) == FirstAppearances(Uris(testCases))
    ensures forall uri :: Get(GroupByUri(testCases), uri).Some? <==> uri in Uris(testCases)
    ensures forall uri :: Get(GroupByUri(testCases), uri).Some? ==>
      Get(GroupByUri(testCases), uri).value == Filter(testCases, SameUri(uri))
  {
    GroupByUriValid(testCases);
    GroupByUriKeys(testCases);
    GroupByUriGroups(testCases);
    FirstAppearancesMembers(Uris(testCases));
  }

  /** A uri is among the first appearances exactly when it appears. */
  lemma {:induction false} FirstAppearancesMembers(uris: seq<string>)
    ensures forall u :: u in FirstAppearances(uris) <==> u in uris
    decreases |uris|
  {
    if uris != [] {
      var n := |uris| - 1;
      FirstAppearancesMembers(uris[..n]);
      assert uris == uris[..n] + [uris[n]];
    }
  }

  /** The feature objects of the run: one per group, in group order, or the first error. */
  function Features(testCaseMap: OrderedMap<string, TestCaseEntry>, gherkinDocumentMap: OrderedMap<string, GherkinDocument>,
                    pickleMap: OrderedMap<string, Pickle>): Result<seq<FeatureData>>
  {
    MapResult(GroupByUri(Values(testCaseMap)).entries, FeatureOf(gherkinDocumentMap, pickleMap))
  }

  /** Without test cases the output is the empty list. */
  lemma NoTestCasesNoFeatures(testCaseMap: OrderedMap<string, TestCaseEntry>,
                              gherkinDocumentMap: OrderedMap<string, GherkinDocument>, pickleMap: OrderedMap<string, Pickle>)
    requires testCaseMap.entries == []
    ensures Features(testCaseMap, gherkinDocumentMap, pickleMap) == Ok([])
  {
    assert Values(testCaseMap) == [];
  }

  /** A feature object that completes is `getFeatureData` of the document's feature for its
      uri, with one element per test case of the group: the scenario data of that test case. */
  lemma FeatureOfSpec(gherkinDocumentMap: OrderedMap<string, GherkinDocument>, pickleMap: OrderedMap<string, Pickle>,
                      group: (string, seq<TestCaseEntry>))
    requires FeatureOf(gherkinDocumentMap, pickleMap)(group).Ok?
    ensures Get(gherkinDocumentMap, group.0).Some? && Get(gherkinDocumentMap, group.0).value.feature.Some?
    ensures var feature := Get(gherkinDocumentMap, group.0).value.feature.value;
      var d := FeatureOf(gherkinDocumentMap, pickleMap)(group).value;
      d == GetFeatureData(feature, group.0).(elements := d.elements) &&
      |d.elements| == |group.1| &&
      forall j :: 0 <= j < |group.1| ==>
        ScenarioOf(d.id, StepLineKeywordPairs(feature), DescriptionPairs(feature), pickleMap)(group.1[j]) == Ok(d.elements[j])
  {
    var feature := Get(gherkinDocumentMap, group.0).value.feature.value;
    var featureData := GetFeatureData(feature, group.0);
    MapResultSpec(group.1, ScenarioOf(featureData.id, StepLineKeywordPairs(feature), DescriptionPairs(feature), pickleMap));
  }

  /** Feature `i` of a completed output: the group at position `i` of the grouping. */
  lemma FeatureAt(testCaseMap: OrderedMap<string, TestCaseEntry>,
                  gherkinDocumentMap: OrderedMap<string, GherkinDocument>, pickleMap: OrderedMap<string, Pickle>, i: nat)
    requires Features(testCaseMap, gherkinDocumentMap, pickleMap).Ok?
    requires i < |Features(testCaseMap, gherkinDocumentMap, pickleMap).value|
    ensures var testCases := Values(testCaseMap);
      var grouped := GroupByUri(testCases);
      i < |grouped.entries| && i < |FirstAppearances(Uris(testCases))| &&
      FeatureOf(gherkinDocumentMap, pickleMap)(grouped.entries[i]) == Ok(Features(testCaseMap, gherkinDocumentMap, pickleMap).value[i]) &&
      grouped.entries[i].0 == FirstAppearances(Uris(testCases))[i] &&
      grouped.entries[i].1 == Filter(testCases, SameUri(grouped.entries[i].0))
  {
    var testCases := Values(testCaseMap);
    var grouped := GroupByUri(testCases);
    var features := Features(testCaseMap, gherkinDocumentMap, pickleMap);
    MapResultSpec(grouped.entries, FeatureOf(gherkinDocumentMap, pickleMap));
    assert i < |grouped.entries|;
    var group := grouped.entries[i];
    GroupByUriKeys(testCases);
    assert Keys(grouped)[i] == group.0;
    GroupByUriValid(testCases);
    GroupAt(grouped, i);
    GroupByUriGroups(testCases);
    assert Get(grouped, group.0) == Some(group.1);
  }

  /** When the output completes there is one feature per feature file among the test cases,
      in order of first appearance. Each is `getFeatureData` of the feature of the document
      filed for its uri, and its elements are the scenario data of that file's test cases,
      in map order. */
  lemma FeaturesSpec(testCaseMap: OrderedMap<string, TestCaseEntry>,
                     gherkinDocumentMap: OrderedMap<string, GherkinDocument>, pickleMap: OrderedMap<string, Pickle>)
    requires Features(testCaseMap, gherkinDocumentMap, pickleMap).Ok?
    ensures var features := Features(testCaseMap, gherkinDocumentMap, pickleMap).value;
      var testCases := Values(testCaseMap);
      |features| == |FirstAppearances(Uris(testCases))| &&
      forall i :: 0 <= i < |features| ==>
        features[i].uri == FirstAppearances(Uris(testCases))[i] &&
        |features[i].elements| == |Filter(testCases, SameUri(features[i].uri))| &&
        Get(gherkinDocumentMap, features[i].uri).Some? && Get(gherkinDocumentMap, features[i].uri).value.feature.Some? &&
        var feature := Get(gherkinDocumentMap, features[i].uri).value.feature.value;
        features[i] == GetFeatureData(feature, features[i].uri).(elements := features[i].elements) &&
        forall j :: 0 <= j < |features[i].elements| ==>
          ScenarioOf(features[i].id, StepLineKeywordPairs(feature), DescriptionPairs(feature), pickleMap)(
            Filter(testCases, SameUri(features[i].uri))[j]) == Ok(features[i].elements[j])
  {
    var testCases := Values(testCaseMap);
    var grouped := GroupByUri(testCases);
    GroupByUriSpec(testCases);
    MapResultSpec(grouped.entries, FeatureOf(gherkinDocumentMap, pickleMap));
    var features := Features(testCaseMap, gherkinDocumentMap, pickleMap).value;
    forall i | 0 <= i < |features|
      ensures features[i].uri == FirstAppearances(Uris(testCases))[i]
      ensures |features[i].elements| == |Filter(testCases, SameUri(features[i].uri))|
      ensures Get(gherkinDocumentMap, features[i].uri).Some? && Get(gherkinDocumentMap, features[i].uri).value.feature.Some?
      ensures var feature := Get(gherkinDocumentMap, features[i].uri).value.feature.value;
        features[i] == GetFeatureData(feature, features[i].uri).(elements := features[i].elements) &&
        forall j :: 0 <= j < |features[i].elements| ==>
          ScenarioOf(features[i].id, StepLineKeywordPairs(feature), DescriptionPairs(feature), pickleMap)(
            Filter(testCases, SameUri(features[i].uri))[j]) == Ok(features[i].elements[j])
    {
      FeatureAt(testCaseMap, gherkinDocumentMap, pickleMap, i);
      FeatureOfSpec(gherkinDocumentMap, pickleMap, grouped.entries[i]);
    }
  }

  /** In a map whose keys are distinct, the entry at a position is what `get` finds. */
  lemma GroupAt<V>(m: OrderedMap<string, V>, i: nat)
    requires OrderedMaps.Valid(m) && i < |m.entries|
    ensures Get(m, m.entries[i].0) == Some(m.entries[i].1)
  {
    var k := m.entries[i].0;
    var j :| 0 <= j < |m.entries| && m.entries[j] == (k, Get(m, k).value);
  }

  /** The formatter: its own test case collector, and the feature lists it has logged. */
  class JsonFormatter {
    const collector: TestCaseCollector.TestCaseCollector
    var output: seq<seq<FeatureData>>

    constructor ()
      ensures fresh(collector) && collector.Valid()
      ensures collector.testCaseMap == Empty() && output == []
    {
      collector := new TestCaseCollector.TestCaseCollector();
      output := [];
    }

    /** The loop of `onTestRunFinished` that files each test case under its uri. */
    method GroupTestCases(testCases: seq<TestCaseEntry>) returns (grouped: OrderedMap<string, seq<TestCaseEntry>>)
      ensures grouped == GroupByUri(testCases)
    {
      grouped := Empty();
      var i := 0;
      while i < |testCases|
        invariant 0 <= i <= |testCases|
        invariant grouped == GroupByUri(testCases[..i])
      {
        assert testCases[..i + 1][..i] == testCases[..i];
        var uri := testCases[i].sourceLocation.uri;
        if Get(grouped, uri).None? {
          grouped := Set(grouped, uri, []);
        }
        grouped := Set(grouped, uri, Get(grouped, uri).value + [testCases[i]]);
        i := i + 1;
      }
      assert testCases[..i] == testCases;
    }

    /** `onTestRunFinished`: the feature objects are logged, or the first error is thrown
        and nothing is logged. */
    method OnTestRunFinished() returns (o: Outcome)
      modifies this`output
      ensures o.Pass? <==> Features(collector.testCaseMap, collector.gherkinDocumentMap, collector.pickleMap).Ok?
      ensures o.Throw? ==> o.error == Features(collector.testCaseMap, collector.gherkinDocumentMap, collector.pickleMap).error
      ensures output == old(output) +
        if o.Pass? then [Features(collector.testCaseMap, collector.gherkinDocumentMap, collector.pickleMap).value] else []
    {
      var grouped := GroupTestCases(Values(collector.testCaseMap));
      var features := MapResult(grouped.entries, FeatureOf(collector.gherkinDocumentMap, collector.pickleMap));
      if features.Fail? {
        assert output == old(output) + [];
        return Throw(features.error);
      }
      output := output + [features.value];
      o := Pass;
    }
  }
}
