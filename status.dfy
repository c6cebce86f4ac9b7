/** The status enumeration (src/status.js): six statuses with their string values, the
    status-indexed mapping, the failing and strict-failing groups, and the `isX()`
    predicates that `addStatusPredicates` installs on a prototype. */
module Statuses {
  import opened Wrappers

  datatype Status = Ambiguous | Failed | Passed | Pending | Skipped | Undefined

  /** The statuses in the key order of the source's `statuses` object. */
  const AllStatuses: seq<Status> := [Ambiguous, Failed, Passed, Pending, Skipped, Undefined]

  /** The string value of a status, as it travels in event payloads. */
  function Value(s: Status): string
  {
    match s
    case Ambiguous => "ambiguous"
    case Failed => "failed"
    case Passed => "passed"
    case Pending => "pending"
    case Skipped => "skipped"
    case Undefined => "undefined"
  }

  /** Reads a status back from its string value; anything else is not a status. */
  function FromValue(v: string): (r: Option<Status>)
    ensures r.Some? ==> Value(r.value) == v
  {
    if v == "ambiguous" then Some(Ambiguous)
    else if v == "failed" then Some(Failed)
    else if v == "passed" then Some(Passed)
    else if v == "pending" then Some(Pending)
    else if v == "skipped" then Some(Skipped)
    else if v == "undefined" then Some(Undefined)
    else None
  }

  /** Every status is listed once, and the string values identify the statuses. */
  lemma StatusValues()
    ensures |AllStatuses| == 6
    ensures forall s :: s in AllStatuses
    ensures forall i, j :: 0 <= i < j < |AllStatuses| ==> Value(AllStatuses[i]) != Value(AllStatuses[j])
    ensures forall s :: FromValue(Value(s)) == Some(s)
  {
    forall s ensures s in AllStatuses && FromValue(Value(s)) == Some(s) {
      match s
      case Ambiguous =>
      case Failed =>
      case Passed =>
      case Pending =>
      case Skipped =>
      case Undefined =>
    }
  }

  lemma ValueInjective(s: Status, t: Status)
    requires Value(s) == Value(t)
    ensures s == t
  {
    StatusValues();
    assert FromValue(Value(s)) == Some(s);
  }

  /** `getStatusMapping(initialValue)`: one key per status value, each mapped to the initial value. */
  function GetStatusMapping<V>(initialValue: V): (m: map<string, V>)
    ensures forall s :: Value(s) in m && m[Value(s)] == initialValue
    ensures forall k :: k in m ==> FromValue(k).Some?
    ensures |m| == 6
  {
    var m := map["ambiguous" := initialValue, "failed" := initialValue, "passed" := initialValue,
                 "pending" := initialValue, "skipped" := initialValue, "undefined" := initialValue];
    assert m.Keys == {"ambiguous", "failed", "passed", "pending", "skipped", "undefined"};
    m
  }

  const FailingStatuses: seq<Status> := [Ambiguous, Failed]
  const StrictFailingStatuses: seq<Status> := [Pending, Undefined]

  /** The two failing groups are disjoint and leave out passed and skipped. */
  lemma FailingGroups()
    ensures forall s :: s in FailingStatuses <==> s == Ambiguous || s == Failed
    ensures forall s :: s in StrictFailingStatuses <==> s == Pending || s == Undefined
    ensures forall s :: !(s in FailingStatuses && s in StrictFailingStatuses)
    ensures Passed !in FailingStatuses + StrictFailingStatuses
    ensures Skipped !in FailingStatuses + StrictFailingStatuses
  {
  }

  /** `upperCaseFirst` on an ASCII word: the first letter upper-cased, the rest kept. */
  function UpperCaseFirst(s: string): (r: string)
    ensures |r| == |s|
    ensures |s| > 0 ==> r[1..] == s[1..]
    ensures |s| > 0 && 'a' <= s[0] <= 'z' ==> 'A' <= r[0] <= 'Z' && r[0] as int == s[0] as int - ('a' as int - 'A' as int)
    ensures |s| > 0 && !('a' <= s[0] <= 'z') ==> r[0] == s[0]
  {
    if s == [] then []
    else if 'a' <= s[0] <= 'z' then [(s[0] as int - 32) as char] + s[1..]
    else s
  }

  /** The name of the predicate installed for a status: 'is' + UpperCaseFirst(value). */
  function PredicateName(s: Status): string
  {
    "is" + UpperCaseFirst(Value(s))
  }

  /** Every predicate name is 'is', then the first letter of the status value upper-cased,
      then the rest of the value: `isAmbiguous`, `isFailed`, …, `isUndefined`. */
  lemma PredicateNameShape(s: Status)
    ensures |PredicateName(s)| == |Value(s)| + 2 && PredicateName(s)[..2] == "is"
    ensures 'a' <= Value(s)[0] <= 'z' && 'A' <= PredicateName(s)[2] <= 'Z'
    ensures PredicateName(s)[2] as int == Value(s)[0] as int - ('a' as int - 'A' as int)
    ensures PredicateName(s)[3..] == Value(s)[1..]
  {
    var u := UpperCaseFirst(Value(s));
    assert PredicateName(s) == "is" + u;
    assert PredicateName(s)[3..] == u[1..];
  }

  /** For example, the predicate of `passed` is `isPassed`. */
  lemma PredicateNameExample()
    ensures PredicateName(Passed) == "isPassed"
  {
    assert UpperCaseFirst("passed") == ['P'] + "assed";
  }

  lemma PredicateNameInjective(s: Status, t: Status)
    requires PredicateName(s) == PredicateName(t)
    ensures s == t
  {
    assert PredicateName(s)[2..] == UpperCaseFirst(Value(s));
    assert PredicateName(t)[2..] == UpperCaseFirst(Value(t));
    assert Value(s)[1..] == Value(t)[1..];
    match s
    case Ambiguous =>
    case Failed =>
    case Passed =>
    case Pending =>
    case Skipped =>
    case Undefined =>
  }

  /** The methods present after installing, one by one and in order, the predicates of
      `statuses` into `predicates`; a later assignment to a name replaces an earlier one. */
  function Install(predicates: map<string, Status>, statuses: seq<Status>): map<string, Status>
    decreases |statuses|
  {
    if statuses == [] then predicates
    else
      var last := statuses[|statuses| - 1];
      Install(predicates, statuses[..|statuses| - 1])[PredicateName(last) := last]
  }

  /** Installing a list of statuses adds exactly one predicate per listed status, named
      after it, and keeps every other method. */
  lemma InstallSpec(predicates: map<string, Status>, statuses: seq<Status>)
    ensures forall s :: s in statuses ==>
      PredicateName(s) in Install(predicates, statuses) && Install(predicates, statuses)[PredicateName(s)] == s
    ensures forall n :: n in predicates && (forall s :: s in statuses ==> n != PredicateName(s)) ==>
      n in Install(predicates, statuses) && Install(predicates, statuses)[n] == predicates[n]
    ensures forall n :: n in Install(predicates, statuses) ==>
      n in predicates || exists s :: s in statuses && n == PredicateName(s)
  {
    InstallAdds(predicates, statuses);
    InstallKeeps(predicates, statuses);
    InstallOnly(predicates, statuses);
  }

  lemma {:induction false} InstallAdds(predicates: map<string, Status>, statuses: seq<Status>)
    ensures forall s :: s in statuses ==>
      PredicateName(s) in Install(predicates, statuses) && Install(predicates, statuses)[PredicateName(s)] == s
    decreases |statuses|
  {
    if statuses != [] {
      var init := statuses[..|statuses| - 1];
      var last := statuses[|statuses| - 1];
      InstallAdds(predicates, init);
      assert statuses == init + [last];
      forall s | s in statuses
        ensures Install(predicates, statuses)[PredicateName(s)] == s
      {
        if s != last {
          assert s in init;
          if PredicateName(s) == PredicateName(last) {
            PredicateNameInjective(s, last);
          }
        }
      }
    }
  }

  lemma {:induction false} InstallKeeps(predicates: map<string, Status>, statuses: seq<Status>)
    ensures forall n :: n in predicates && (forall s :: s in statuses ==> n != PredicateName(s)) ==>
      n in Install(predicates, statuses) && Install(predicates, statuses)[n] == predicates[n]
    decreases |statuses|
  {
    if statuses != [] {
      var init := statuses[..|statuses| - 1];
      InstallKeeps(predicates, init);
      assert forall s :: s in init ==> s in statuses;
    }
  }

  lemma {:induction false} InstallOnly(predicates: map<string, Status>, statuses: seq<Status>)
    ensures forall n :: n in Install(predicates, statuses) ==>
      n in predicates || exists s :: s in statuses && n == PredicateName(s)
    decreases |statuses|
  {
    if statuses != [] {
      var init := statuses[..|statuses| - 1];
      var last := statuses[|statuses| - 1];
      InstallOnly(predicates, init);
      assert forall s :: s in init ==> s in statuses;
      assert last in statuses;
    }
  }

  /** Installing one more status of a list overwrites its predicate name last. */
  lemma InstallSnoc(predicates: map<string, Status>, statuses: seq<Status>, i: nat)
    requires i < |statuses|
    ensures Install(predicates, statuses[..i + 1]) == Install(predicates, statuses[..i])[PredicateName(statuses[i]) := statuses[i]]
  {
    assert statuses[..i + 1][..i] == statuses[..i];
  }

  /** Calling the installed predicate `name` on an object whose `status` is the string `status`:
      nothing when no such predicate is installed, else `this.status === <its status>`. */
  function CallPredicate(predicates: map<string, Status>, name: string, status: string): Option<bool>
  {
    if name in predicates then Some(status == Value(predicates[name])) else None
  }

  /** After `addStatusPredicates`, calling `isX()` on an object whose `status` is the
      string `v` answers true exactly when `v` is the value of X; so for a valid status
      exactly one predicate holds, and for any other string none does. */
  lemma PredicatesAfterInstall(before: map<string, Status>, v: string)
    ensures forall t :: CallPredicate(Install(before, AllStatuses), PredicateName(t), v) == Some(FromValue(v) == Some(t))
  {
    InstallSpec(before, AllStatuses);
    StatusValues();
    forall t ensures CallPredicate(Install(before, AllStatuses), PredicateName(t), v) == Some(FromValue(v) == Some(t)) {
      assert t in AllStatuses;
      assert FromValue(Value(t)) == Some(t);
    }
  }

  /** A prototype object, reduced to the methods installed on it. */
  class Prototype {
    var predicates: map<string, Status>

    constructor ()
      ensures predicates == map[]
    {
      predicates := map[];
    }

    /** `addStatusPredicates(prototype)`: installs `isX` for every status X, in key order,
        overwriting a method of the same name and leaving every other method in place. */
    method AddStatusPredicates()
      modifies this
      ensures predicates == Install(old(predicates), AllStatuses)
    {
      var i := 0;
      while i < |AllStatuses|
        invariant 0 <= i <= |AllStatuses|
        invariant predicates == Install(old(predicates), AllStatuses[..i])
      {
        var s := AllStatuses[i];
        predicates := predicates[PredicateName(s) := s];
        InstallSnoc(old(predicates), AllStatuses, i);
        i := i + 1;
      }
      assert AllStatuses[..i] == AllStatuses;
    }
  }
}
