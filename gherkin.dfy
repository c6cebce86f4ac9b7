/** The parsed feature files the core consumes, as the external Gherkin parser and pickle
    compiler hand them over: documents (for keywords, descriptions and feature data) and
    pickles (executable scenarios). Only the fields the core reads are kept. */
module Gherkin {
  import opened Wrappers

  /** Source lines of the places a pickle or pickle step comes from. The compiler always
      gives at least one, so `locations[0]` is always defined. */
  type Lines = s: seq<nat> | |s| > 0 witness [1]

  datatype Tag = Tag(name: string, line: nat)

  /** A step argument: a data table (rows of cell values), a doc string, or anything else. */
  datatype StepArgument =
    | DataTable(rows: seq<seq<string>>)
    | DocString(content: string)
    | OtherArgument

  datatype PickleStep = PickleStep(text: string, arguments: seq<StepArgument>, locations: Lines)

  datatype Pickle = Pickle(name: string, locations: Lines, steps: seq<PickleStep>, tags: seq<Tag>)

  /** A step as written in the document, with the literal keyword ('Given ', 'When ', ...). */
  datatype DocumentStep = DocumentStep(line: nat, keyword: string)

  /** A child of a feature (background, scenario or outline). */
  datatype ScenarioDefinition =
    ScenarioDefinition(line: nat, description: Option<string>, steps: seq<DocumentStep>)

  datatype Feature = Feature(
    name: string, description: Option<string>, keyword: string, line: nat,
    tags: seq<Tag>, children: seq<ScenarioDefinition>)

  /** An empty file parses to a document without a feature. */
  datatype GherkinDocument = GherkinDocument(feature: Option<Feature>)

  /** `_.fromPairs(pairs)[key]`: later pairs overwrite earlier ones, so the value of the
      LAST pair with that key, or nothing. */
  function LookupLast<V>(pairs: seq<(nat, V)>, key: nat): (r: Option<V>)
    ensures r.None? <==> forall i :: 0 <= i < |pairs| ==> pairs[i].0 != key
    ensures r.Some? ==> exists i :: 0 <= i < |pairs| && pairs[i] == (key, r.value) &&
                                    forall j :: i < j < |pairs| ==> pairs[j].0 != key
    decreases |pairs|
  {
    if pairs == [] then None
    else if pairs[|pairs| - 1].0 == key then Some(pairs[|pairs| - 1].1)
    else LookupLast(pairs[..|pairs| - 1], key)
  }

  /** The steps of every child of the feature, flattened in document order. */
  function AllDocumentSteps(children: seq<ScenarioDefinition>): (r: seq<DocumentStep>)
    ensures forall c, st :: c in children && st in c.steps ==> st in r
  {
    if children == [] then [] else children[0].steps + AllDocumentSteps(children[1..])
  }

  /** The `stepLineToKeywordMapping` pairs: (line, keyword) of every document step. */
  function StepLineKeywordPairs(feature: Feature): (r: seq<(nat, string)>)
    ensures |r| == |AllDocumentSteps(feature.children)|
    ensures forall i :: 0 <= i < |r| ==>
      r[i] == (AllDocumentSteps(feature.children)[i].line, AllDocumentSteps(feature.children)[i].keyword)
  {
    var steps := AllDocumentSteps(feature.children);
    seq(|steps|, i requires 0 <= i < |steps| => (steps[i].line, steps[i].keyword))
  }

  /** The keyword mapping finds a keyword at a line exactly when some document step sits on
      that line, and the keyword it finds is that of the last document step on that line. */
  lemma KeywordAtLine(feature: Feature, line: nat)
    ensures LookupLast(StepLineKeywordPairs(feature), line).Some? <==>
            exists j :: 0 <= j < |AllDocumentSteps(feature.children)| && AllDocumentSteps(feature.children)[j].line == line
    ensures LookupLast(StepLineKeywordPairs(feature), line).Some? ==>
            exists j :: 0 <= j < |AllDocumentSteps(feature.children)| &&
                        AllDocumentSteps(feature.children)[j] == DocumentStep(line, LookupLast(StepLineKeywordPairs(feature), line).value) &&
                        forall j' :: j < j' < |AllDocumentSteps(feature.children)| ==> AllDocumentSteps(feature.children)[j'].line != line
  {
    var steps := AllDocumentSteps(feature.children);
    var pairs := StepLineKeywordPairs(feature);
    var k := LookupLast(pairs, line);
    if k.Some? {
      var j :| 0 <= j < |pairs| && pairs[j] == (line, k.value) && forall j' :: j < j' < |pairs| ==> pairs[j'].0 != line;
      assert steps[j] == DocumentStep(line, k.value);
      assert steps[j].line == line;
      assert forall j' :: j < j' < |steps| ==> steps[j'].line == pairs[j'].0;
      assert exists j :: 0 <= j < |AllDocumentSteps(feature.children)| && AllDocumentSteps(feature.children)[j].line == line;
    } else {
      assert forall j :: 0 <= j < |steps| ==> steps[j].line == pairs[j].0;
    }
  }

  /** `(locations[0].line, step)` for every pickle step: how the formatters find the pickle
      step behind a prepared step. */
  function FirstLinePairs(steps: seq<PickleStep>): (r: seq<(nat, PickleStep)>)
    ensures |r| == |steps|
    ensures forall i :: 0 <= i < |steps| ==> r[i].0 == steps[i].locations[0] && r[i].1 == steps[i]
  {
    seq(|steps|, i requires 0 <= i < |steps| => (steps[i].locations[0], steps[i]))
  }

  /** `(_.last(locations).line, step)` for every pickle step: how the event data collector
      finds it. For a step of a scenario outline the last location is the example row. */
  function LastLinePairs(steps: seq<PickleStep>): (r: seq<(nat, PickleStep)>)
    ensures |r| == |steps|
    ensures forall i :: 0 <= i < |steps| ==> r[i].0 == steps[i].locations[|steps[i].locations| - 1] && r[i].1 == steps[i]
  {
    seq(|steps|, i requires 0 <= i < |steps| => (steps[i].locations[|steps[i].locations| - 1], steps[i]))
  }

  /** `_.chain(xs).compact().first()` over optional strings: the first present, non-empty one. */
  function FirstTruthy(xs: seq<Option<string>>): (r: Option<string>)
    ensures r.Some? ==> r.value != "" && exists i :: 0 <= i < |xs| && xs[i] == r
    ensures r.Some? ==> exists i :: 0 <= i < |xs| && xs[i] == r &&
                          forall j :: 0 <= j < i ==> xs[j].None? || xs[j].value == ""
    ensures r.None? <==> forall i :: 0 <= i < |xs| ==> xs[i].None? || xs[i].value == ""
  {
    if xs == [] then None
    else if xs[0].Some? && xs[0].value != "" then xs[0]
    else
      var r := FirstTruthy(xs[1..]);
      assert r.Some? ==> exists i :: 0 <= i < |xs[1..]| && xs[1..][i] == r &&
                          forall j :: 0 <= j < i ==> xs[1..][j].None? || xs[1..][j].value == "";
      r
  }

  /** The keyword shown for a pickle step: the first non-empty keyword among the document
      steps at the pickle step's locations (outline steps carry several locations). */
  function StepKeyword(keywordPairs: seq<(nat, string)>, step: PickleStep): Option<string>
  {
    FirstTruthy(seq(|step.locations|, i requires 0 <= i < |step.locations| =>
      LookupLast(keywordPairs, step.locations[i])))
  }
}
