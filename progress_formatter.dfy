/** The progress formatter (src/formatter/progress_formatter.js): a summary formatter that
    also prints one coloured character per finished step and, before the summary, two
    newlines. */
module ProgressFormatter {
  import opened Wrappers
  import opened Statuses
  import opened Events
  import opened OrderedMaps
  import opened Bookkeeping
  import opened Rendering
  import SummaryFormatter

  /** `STATUS_CHARACTER_MAPPING`. */
  function StatusCharacter(status: Status): char
  {
    match status
    case Ambiguous => 'A'
    case Failed => 'F'
    case Passed => '.'
    case Pending => 'P'
    case Skipped => '-'
    case Undefined => 'U'
  }

  /** The characters tell the statuses apart, and none is a letter used for another status. */
  lemma StatusCharactersDistinct(s: Status, t: Status)
    ensures StatusCharacter(s) == StatusCharacter(t) <==> s == t
    ensures StatusCharacter(s) == '.' <==> s == Passed
  {
  }

  /** The formatter `extends SummaryFormatter`: the summary part holds the bookkeeping and
      the output both write to. */
  class ProgressFormatter {
    const summary: SummaryFormatter.SummaryFormatter

    ghost predicate Valid()
      reads this, summary
    {
      summary.Valid()
    }

    constructor (renderers: Renderers, formatSummary: OrderedMap<string, TestCaseEntry> -> string)
      ensures Valid() && fresh(summary)
      ensures summary.output == [] && summary.testCaseMap == Empty()
      ensures summary.renderers == renderers && summary.formatSummary == formatSummary
    {
      summary := new SummaryFormatter.SummaryFormatter(renderers, formatSummary);
    }

    /** `test-step-finished`: the summary's listener, registered first, stores the result;
        then one character coloured by the status is logged. A throw in the first listener
        ends the dispatch, so nothing is logged. */
    method OnTestStepFinished(index: nat, testCase: Location, result: StepResult) returns (o: Outcome)
      requires Valid()
      modifies summary`testCaseMap, summary`output
      ensures Valid()
      ensures summary.gherkinDocumentMap == old(summary.gherkinDocumentMap) && summary.pickleMap == old(summary.pickleMap)
      ensures o.Pass? <==> StoreStepResultIn(old(summary.testCaseMap), TestCaseKey(testCase), index, result).Ok?
      ensures summary.testCaseMap ==
        if o.Pass? then StoreStepResultIn(old(summary.testCaseMap), TestCaseKey(testCase), index, result).value
        else old(summary.testCaseMap)
      ensures summary.output ==
        old(summary.output) + if o.Pass? then [summary.renderers.color(result.status, [StatusCharacter(result.status)])] else []
    {
      o := summary.StoreTestStepResult(index, testCase, result);
      if o.Throw? {
        assert summary.output == old(summary.output) + [];
        return;
      }
      var character := summary.renderers.color(result.status, [StatusCharacter(result.status)]);
      summary.Log(character);
    }

    /** `test-run-finished`: the prepended listener logs two newlines, then the summary
        listener logs the summary. */
    method OnTestRunFinished() returns (o: Outcome)
      requires Valid()
      modifies summary`output
      ensures Valid()
      ensures summary.gherkinDocumentMap == old(summary.gherkinDocumentMap) && summary.pickleMap == old(summary.pickleMap)
      ensures summary.testCaseMap == old(summary.testCaseMap)
      ensures summary.output == old(summary.output) + ["\n\n"] +
        SummaryFormatter.SummaryLog(summary.testCaseMap,
          SummaryFormatter.Issues(summary.gherkinDocumentMap, summary.pickleMap, summary.renderers), summary.formatSummary).lines
      ensures o == SummaryFormatter.SummaryLog(summary.testCaseMap,
          SummaryFormatter.Issues(summary.gherkinDocumentMap, summary.pickleMap, summary.renderers), summary.formatSummary).outcome
    {
      summary.Log("\n\n");
      o := summary.LogSummary();
    }
  }
}
