/** The CLI helpers (src/cli/helpers.js): splicing a profile's arguments into argv, and the
    pickle filter of `getTestCases`, for the events of one feature file. */
module CliHelpers {
  import opened Gherkin
  import opened Events
  import opened Seqs

  // ---------------------------------------------------------------------------------------
  // getExpandedArgv

  /** `argv.slice(0, k)` and `argv.slice(k)` split at `min(k, |argv|)`. */
  function SplitPoint(argv: seq<string>): (k: nat)
    ensures k <= |argv| && k <= 2
    ensures k == 2 || k == |argv|
  {
    if |argv| < 2 then |argv| else 2
  }

  /** `getExpandedArgv`, given the profile's arguments (read by `ProfileLoader`): a non-empty
      profile is inserted after the node binary and the script, an empty one changes nothing. */
  function ExpandedArgv(argv: seq<string>, profileArgv: seq<string>): seq<string>
  {
    if |profileArgv| > 0 then
      var k := SplitPoint(argv);
      argv[..k] + profileArgv + argv[k..]
    else argv
  }

  /** The expanded argv is argv with the profile inserted at the split point: the first two
      arguments, then the profile, then the rest; its length is the sum of both lengths. */
  lemma ExpandedArgvSpec(argv: seq<string>, profileArgv: seq<string>)
    ensures profileArgv == [] ==> ExpandedArgv(argv, profileArgv) == argv
    ensures |ExpandedArgv(argv, profileArgv)| == |argv| + |profileArgv|
    ensures var k := SplitPoint(argv); var r := ExpandedArgv(argv, profileArgv);
      r[..k] == argv[..k] && r[k..k + |profileArgv|] == profileArgv && r[k + |profileArgv|..] == argv[k..]
  {
    var k := SplitPoint(argv);
    var r := ExpandedArgv(argv, profileArgv);
    if profileArgv != [] {
      assert r == argv[..k] + profileArgv + argv[k..];
      assert r[..k] == argv[..k];
      assert r[k..k + |profileArgv|] == profileArgv;
      assert r[k + |profileArgv|..] == argv[k..];
    }
  }

  /** Taking the profile's arguments back out of the expanded argv gives argv again. */
  lemma RemoveProfile(argv: seq<string>, profileArgv: seq<string>)
    ensures var k := SplitPoint(argv); var r := ExpandedArgv(argv, profileArgv);
      r[..k] + r[k + |profileArgv|..] == argv
  {
    var k := SplitPoint(argv);
    ExpandedArgvSpec(argv, profileArgv);
    assert argv == argv[..k] + argv[k..];
  }

  // ---------------------------------------------------------------------------------------
  // getTestCases

  /** An entry of the returned list, `{ pickle, uri }`. */
  datatype PickleWithUri = PickleWithUri(pickle: Pickle, uri: string)

  /** The events the Gherkin library generates from one file: source, gherkin-document and
      pickle events, never a verdict on a pickle. */
  predicate FromGherkin(events: seq<Event>)
  {
    forall i :: 0 <= i < |events| ==> events[i].Source? || events[i].GherkinDocumentEvent? || events[i].PickleEvent?
  }

  /** What emitting one event puts on the bus: the event itself and, when it is a pickle, the
      `pickle-accepted` or `pickle-rejected` the listener emits while it is dispatched. */
  function Dispatch(e: Event, matches: Pickle -> bool): seq<Event>
  {
    match e
    case PickleEvent(pickle, uri) =>
      [e, if matches(pickle) then PickleAccepted(pickle, uri) else PickleRejected(pickle, uri)]
    case _ => [e]
  }

  /** The bus after the events of a file have been emitted in order. */
  function Dispatched(events: seq<Event>, matches: Pickle -> bool): seq<Event>
    decreases |events|
  {
    if events == [] then []
    else
      var n := |events| - 1;
      Dispatched(events[..n], matches) + Dispatch(events[n], matches)
  }

  /** The `result` array: one entry per accepted pickle event, in event order. */
  function Accepted(events: seq<Event>, matches: Pickle -> bool): seq<PickleWithUri>
    decreases |events|
  {
    if events == [] then []
    else
      var n := |events| - 1;
      var e := events[n];
      Accepted(events[..n], matches) +
        if e.PickleEvent? && matches(e.pickle) then [PickleWithUri(e.pickle, e.uri)] else []
  }

  /** The `{ pickle, uri }` an event carries, if it is a pickle event. */
  function PickleOf(e: Event): seq<PickleWithUri>
  {
    if e.PickleEvent? then [PickleWithUri(e.pickle, e.uri)] else []
  }

  /** The pickle events of a file, in order, as `{ pickle, uri }`. */
  function Pickles(events: seq<Event>): seq<PickleWithUri>
    decreases |events|
  {
    if events == [] then []
    else
      var n := |events| - 1;
      Pickles(events[..n]) + PickleOf(events[n])
  }

  /** The payloads of the `pickle-accepted` events on a bus. */
  function AcceptedOn(log: seq<Event>): seq<PickleWithUri>
    decreases |log|
  {
    if log == [] then []
    else
      var n := |log| - 1;
      var e := log[n];
      AcceptedOn(log[..n]) + if e.PickleAccepted? then [PickleWithUri(e.pickle, e.uri)] else []
  }

  /** The payloads of the `pickle-rejected` events on a bus. */
  function RejectedOn(log: seq<Event>): seq<PickleWithUri>
    decreases |log|
  {
    if log == [] then []
    else
      var n := |log| - 1;
      var e := log[n];
      RejectedOn(log[..n]) + if e.PickleRejected? then [PickleWithUri(e.pickle, e.uri)] else []
  }

  function Matching(matches: Pickle -> bool): PickleWithUri -> bool
  {
    (p: PickleWithUri) => matches(p.pickle)
  }

  function NotMatching(matches: Pickle -> bool): PickleWithUri -> bool
  {
    (p: PickleWithUri) => !matches(p.pickle)
  }

  lemma AcceptedOnConcat(a: seq<Event>, b: seq<Event>)
    ensures AcceptedOn(a + b) == AcceptedOn(a) + AcceptedOn(b)
    ensures RejectedOn(a + b) == RejectedOn(a) + RejectedOn(b)
    decreases |b|
  {
    if b != [] {
      var n := |b| - 1;
      assert (a + b)[..|a + b| - 1] == a + b[..n];
      AcceptedOnConcat(a, b[..n]);
    } else {
      assert a + b == a;
    }
  }

  /** The returned list is exactly the pickles the filter matches, in event order. */
  lemma {:induction false} AcceptedIsFiltered(events: seq<Event>, matches: Pickle -> bool)
    ensures Accepted(events, matches) == Filter(Pickles(events), Matching(matches))
    decreases |events|
  {
    if events != [] {
      var n := |events| - 1;
      var e := events[n];
      AcceptedIsFiltered(events[..n], matches);
      FilterConcat(Pickles(events[..n]), PickleOf(e), Matching(matches));
      if e.PickleEvent? {
        FilterSingleton(PickleWithUri(e.pickle, e.uri), Matching(matches));
      } else {
        assert Filter(PickleOf(e), Matching(matches)) == [];
      }
    }
  }

  /** Emitting one event from the Gherkin library puts a verdict on the bus exactly when it
      is a pickle: accepted when it matches, rejected otherwise. */
  lemma DispatchOne(e: Event, matches: Pickle -> bool)
    requires e.Source? || e.GherkinDocumentEvent? || e.PickleEvent?
    ensures AcceptedOn(Dispatch(e, matches)) == Filter(PickleOf(e), Matching(matches))
    ensures RejectedOn(Dispatch(e, matches)) == Filter(PickleOf(e), NotMatching(matches))
    ensures |Dispatch(e, matches)| == 1 + |PickleOf(e)|
  {
    assert [e][..0] == [];
    if e.PickleEvent? {
      var p := PickleWithUri(e.pickle, e.uri);
      var verdict := if matches(e.pickle) then PickleAccepted(e.pickle, e.uri) else PickleRejected(e.pickle, e.uri);
      assert Dispatch(e, matches) == [e] + [verdict];
      AcceptedOnConcat([e], [verdict]);
      assert [verdict][..0] == [];
      FilterSingleton(p, Matching(matches));
      FilterSingleton(p, NotMatching(matches));
    }
  }

  lemma FromGherkinPrefix(events: seq<Event>, n: nat)
    requires FromGherkin(events) && n <= |events|
    ensures FromGherkin(events[..n])
  {
    forall i | 0 <= i < n ensures events[..n][i] == events[i] { }
  }

  /** The accepted pickles on the bus are the matching pickle events, in event order. */
  lemma {:induction false} DispatchedAccepted(events: seq<Event>, matches: Pickle -> bool)
    requires FromGherkin(events)
    ensures AcceptedOn(Dispatched(events, matches)) == Filter(Pickles(events), Matching(matches))
    decreases |events|
  {
    if events != [] {
      var n := |events| - 1;
      FromGherkinPrefix(events, n);
      DispatchedAccepted(events[..n], matches);
      AcceptedOnConcat(Dispatched(events[..n], matches), Dispatch(events[n], matches));
      DispatchOne(events[n], matches);
      FilterConcat(Pickles(events[..n]), PickleOf(events[n]), Matching(matches));
    }
  }

  /** The rejected pickles on the bus are the other pickle events, in event order. */
  lemma {:induction false} DispatchedRejected(events: seq<Event>, matches: Pickle -> bool)
    requires FromGherkin(events)
    ensures RejectedOn(Dispatched(events, matches)) == Filter(Pickles(events), NotMatching(matches))
    decreases |events|
  {
    if events != [] {
      var n := |events| - 1;
      FromGherkinPrefix(events, n);
      DispatchedRejected(events[..n], matches);
      AcceptedOnConcat(Dispatched(events[..n], matches), Dispatch(events[n], matches));
      DispatchOne(events[n], matches);
      FilterConcat(Pickles(events[..n]), PickleOf(events[n]), NotMatching(matches));
    }
  }

  /** The bus grows by one event per emitted event and one verdict per pickle. */
  lemma {:induction false} DispatchedLength(events: seq<Event>, matches: Pickle -> bool)
    requires FromGherkin(events)
    ensures |Dispatched(events, matches)| == |events| + |Pickles(events)|
    decreases |events|
  {
    if events != [] {
      var n := |events| - 1;
      FromGherkinPrefix(events, n);
      DispatchedLength(events[..n], matches);
      DispatchOne(events[n], matches);
    }
  }

  /** A file without scenarios gives no pickle events, so the bus only carries the file's
      own events and the returned list is empty. */
  lemma {:induction false} NoPicklesNoTestCases(events: seq<Event>, matches: Pickle -> bool)
    requires forall i :: 0 <= i < |events| ==> !events[i].PickleEvent?
    ensures Dispatched(events, matches) == events
    ensures Accepted(events, matches) == []
    decreases |events|
  {
    if events != [] {
      var n := |events| - 1;
      NoPicklesNoTestCases(events[..n], matches);
      assert events == events[..n] + [events[n]];
    }
  }

  /** `getTestCases` for one feature path: `events` are what `Gherkin.generateEvents` gives
      for the file's text; each is emitted in order, and the `pickle` listener emits the
      verdict for every pickle and collects the accepted ones. */
  method GetTestCases(bus: Broadcaster, events: seq<Event>, matches: Pickle -> bool) returns (result: seq<PickleWithUri>)
    modifies bus
    ensures bus.log == old(bus.log) + Dispatched(events, matches)
    ensures result == Accepted(events, matches)
  {
    result := [];
    var i := 0;
    while i < |events|
      invariant 0 <= i <= |events|
      invariant bus.log == old(bus.log) + Dispatched(events[..i], matches)
      invariant result == Accepted(events[..i], matches)
    {
      assert events[..i + 1][..i] == events[..i];
      var event := events[i];
      bus.Emit(event);
      if event.PickleEvent? {
        if matches(event.pickle) {
          bus.Emit(PickleAccepted(event.pickle, event.uri));
          result := result + [PickleWithUri(event.pickle, event.uri)];
        } else {
          bus.Emit(PickleRejected(event.pickle, event.uri));
        }
      }
      i := i + 1;
    }
    assert events[..i] == events;
  }
}
