/**
 Which recorded fields decide the next action. For each action seen with two or more
 outcomes, a field is reported when its value always goes with one outcome.
 */
module Branches {

  datatype ActionSignature = ActionSignature(application: string, action: string, entityType: string)

  datatype Observation = Observation(
    demonstrationID: string, eventID: string,
    next: ActionSignature, nextEnd: bool,
    fields: map<string, string>)

  datatype Candidate = Candidate(
    action: ActionSignature, location: string, path: string,
    outcomeCount: nat, distinctValueCount: nat, occurrences: nat,
    demonstrationIDs: set<string>, demonstrationSupport: real)

  const NUL: char := '\0'
  const MISSING := "<missing>"
  const END := "<end>"

  // ---- Outcomes and values ----

  function SignatureKey(s: ActionSignature): string {
    s.application + [NUL] + s.action + [NUL] + s.entityType
  }

  function OutcomeKey(item: Observation): string {
    if item.nextEnd then END else SignatureKey(item.next)
  }

  /** The value of a field; an absent field counts as one more value. */
  function Value(item: Observation, path: string): string {
    if path in item.fields then item.fields[path] else MISSING
  }

  /**
   * Two observations share a value when both have it or neither has the field;
   * or one lacks it and the other says "<missing>".
   */
  lemma SameValueIff(a: Observation, b: Observation, path: string)
    ensures Value(a, path) == Value(b, path) <==>
            || (path in a.fields && path in b.fields && a.fields[path] == b.fields[path])
            || (path !in a.fields && path !in b.fields)
            || (path in a.fields && path !in b.fields && a.fields[path] == "<missing>")
            || (path !in a.fields && path in b.fields && b.fields[path] == "<missing>")
  {}

  function Outcomes(items: seq<Observation>): set<string> {
    set item | item in items :: OutcomeKey(item)
  }

  function Values(items: seq<Observation>, path: string): set<string> {
    set item | item in items :: Value(item, path)
  }

  function OutcomesOf(items: seq<Observation>, path: string, value: string): set<string> {
    set item | item in items && Value(item, path) == value :: OutcomeKey(item)
  }

  function Paths(items: seq<Observation>): set<string> {
    set item, path | item in items && path in item.fields :: path
  }

  function Demonstrations(items: seq<Observation>): set<string> {
    set item | item in items :: item.demonstrationID
  }

  /** Equal values always lead to the same next action. */
  ghost predicate Determines(items: seq<Observation>, path: string) {
    forall a, b :: a in items && b in items && Value(a, path) == Value(b, path) ==> OutcomeKey(a) == OutcomeKey(b)
  }

  /** What is to be reported: a recorded field that determines the outcome where there is a choice. */
  ghost predicate Reported(items: seq<Observation>, path: string) {
    path in Paths(items) && |Outcomes(items)| >= 2 && Determines(items, path)
  }

  // ---- Keys tell signatures apart ----

  predicate NulFree(s: string) {
    NUL !in s
  }

  predicate CleanSignature(s: ActionSignature) {
    NulFree(s.application) && NulFree(s.action) && NulFree(s.entityType)
  }

  lemma FirstCut(a: string, rest: string, b: string, rest': string)
    requires NulFree(a) && NulFree(b) && a + [NUL] + rest == b + [NUL] + rest'
    ensures a == b && rest == rest'
  {
    var left, right := a + [NUL] + rest, b + [NUL] + rest';
    assert forall k :: 0 <= k < |a| ==> left[k] == a[k];
    assert forall k :: 0 <= k < |b| ==> right[k] == b[k];
    assert left[|a|] == NUL == right[|b|];
    assert |a| == |b|;
    assert a == left[..|a|] == right[..|b|] == b;
    assert rest == left[|a| + 1..] == right[|b| + 1..] == rest';
  }

  /** Two observations have the same outcome key exactly when what followed them is the same. */
  lemma OutcomeKeysTellApart(a: Observation, b: Observation)
    requires CleanSignature(a.next) && CleanSignature(b.next)
    ensures OutcomeKey(a) == OutcomeKey(b) <==> a.nextEnd == b.nextEnd && (a.nextEnd || a.next == b.next)
  {
    var k, l := SignatureKey(a.next), SignatureKey(b.next);
    assert k[|a.next.application|] == NUL && l[|b.next.application|] == NUL;
    assert NUL in k && NUL in l && NUL !in END;
    if k == l {
      assert k == a.next.application + [NUL] + (a.next.action + [NUL] + a.next.entityType);
      assert l == b.next.application + [NUL] + (b.next.action + [NUL] + b.next.entityType);
      FirstCut(a.next.application, a.next.action + [NUL] + a.next.entityType,
               b.next.application, b.next.action + [NUL] + b.next.entityType);
      FirstCut(a.next.action, a.next.entityType, b.next.action, b.next.entityType);
    }
  }

  // ---- The two further tests never fail ----

  ghost function CoveredOutcomes(items: seq<Observation>, path: string): set<string> {
    set value, outcome | value in Values(items, path) && outcome in OutcomesOf(items, path, value) :: outcome
  }

  /** Sets of strings onto which a function maps another set are no larger. */
  lemma {:induction false} NoMoreOutcomesThanValues(items: seq<Observation>, path: string,
                                                  values: set<string>, outcomes: set<string>)
    requires Determines(items, path)
    requires forall outcome :: outcome in outcomes ==>
               exists item :: item in items && OutcomeKey(item) == outcome && Value(item, path) in values
    ensures |outcomes| <= |values|
    decreases outcomes
  {
    if outcome :| outcome in outcomes {
      var item :| item in items && OutcomeKey(item) == outcome && Value(item, path) in values;
      var v := Value(item, path);
      forall other | other in outcomes - {outcome}
        ensures exists b :: b in items && OutcomeKey(b) == other && Value(b, path) in values - {v}
      {
        var b :| b in items && OutcomeKey(b) == other && Value(b, path) in values;
        assert OutcomeKey(b) != OutcomeKey(item);
        assert Value(b, path) in values - {v};
      }
      NoMoreOutcomesThanValues(items, path, values - {v}, outcomes - {outcome});
    }
  }

  /**
   Once the field determines an outcome chosen among two or more, it takes at least as
   many values as there are outcomes, and its values together cover every outcome.
   */
  lemma FurtherTestsHold(items: seq<Observation>, path: string)
    requires Determines(items, path)
    ensures |Values(items, path)| >= |Outcomes(items)|
    ensures CoveredOutcomes(items, path) == Outcomes(items)
  {
    forall outcome | outcome in Outcomes(items)
      ensures exists item :: item in items && OutcomeKey(item) == outcome && Value(item, path) in Values(items, path)
    {
      var item :| item in items && OutcomeKey(item) == outcome;
      assert Value(item, path) in Values(items, path);
    }
    NoMoreOutcomesThanValues(items, path, Values(items, path), Outcomes(items));
    forall outcome | outcome in Outcomes(items)
      ensures outcome in CoveredOutcomes(items, path)
    {
      var item :| item in items && OutcomeKey(item) == outcome;
      assert outcome in OutcomesOf(items, path, Value(item, path));
    }
  }

  /** A single outcome per value is the same as the field deciding the outcome. */
  lemma OneOutcomeEach(items: seq<Observation>, path: string)
    ensures Determines(items, path) <==>
            forall value :: value in Values(items, path) ==> |OutcomesOf(items, path, value)| == 1
  {
    if Determines(items, path) {
      forall value | value in Values(items, path)
        ensures |OutcomesOf(items, path, value)| == 1
      {
        var item :| item in items && Value(item, path) == value;
        assert OutcomesOf(items, path, value) == {OutcomeKey(item)};
      }
    }
    if forall value :: value in Values(items, path) ==> |OutcomesOf(items, path, value)| == 1 {
      forall a, b | a in items && b in items && Value(a, path) == Value(b, path)
        ensures OutcomeKey(a) == OutcomeKey(b)
      {
        var all := OutcomesOf(items, path, Value(a, path));
        assert Value(a, path) in Values(items, path);
        assert OutcomeKey(a) in all && OutcomeKey(b) in all;
        Single(all, OutcomeKey(a), OutcomeKey(b));
      }
    }
  }

  lemma Single(s: set<string>, a: string, b: string)
    requires |s| == 1 && a in s && b in s
    ensures a == b
  {
    assert |s - {a}| == 0;
    assert b !in s - {a};
  }

  // ---- Discovery ----

  lemma OneMore(items: seq<Observation>, item: Observation, path: string)
    ensures Values(items + [item], path) == Values(items, path) + {Value(item, path)}
    ensures OutcomesOf(items + [item], path, Value(item, path)) ==
            OutcomesOf(items, path, Value(item, path)) + {OutcomeKey(item)}
    ensures forall value :: value != Value(item, path) ==>
              OutcomesOf(items + [item], path, value) == OutcomesOf(items, path, value)
    ensures Value(item, path) !in Values(items, path) ==> OutcomesOf(items, path, Value(item, path)) == {}
  {
    var longer := items + [item];
    assert forall x :: x in longer <==> x in items || x == item;
    forall v ensures v in Values(longer, path) <==> v in Values(items, path) + {Value(item, path)} {
      if v == Value(item, path) { assert item in longer; }
      if v in Values(items, path) { var x :| x in items && Value(x, path) == v; assert x in longer; }
    }
    forall value, o
      ensures o in OutcomesOf(longer, path, value) <==>
              o in OutcomesOf(items, path, value) || (value == Value(item, path) && o == OutcomeKey(item))
    {
      if value == Value(item, path) && o == OutcomeKey(item) { assert item in longer; }
      if o in OutcomesOf(items, path, value) {
        var x :| x in items && Value(x, path) == value && OutcomeKey(x) == o;
        assert x in longer;
      }
    }
  }

  method GroupOutcomes(items: seq<Observation>, path: string) returns (groups: map<string, set<string>>)
    ensures groups.Keys == Values(items, path)
    ensures forall value :: value in groups ==> groups[value] == OutcomesOf(items, path, value)
  {
    groups := map[];
    for i := 0 to |items|
      invariant groups.Keys == Values(items[..i], path)
      invariant forall value :: value in groups ==> groups[value] == OutcomesOf(items[..i], path, value)
    {
      var item := items[i];
      assert items[..i + 1] == items[..i] + [item];
      var value := MISSING;
      if path in item.fields { value := item.fields[path]; }
      OneMore(items[..i], item, path);
      if value !in groups {
        groups := groups[value := {}];
      }
      groups := groups[value := groups[value] + {OutcomeKey(item)}];
    }
    assert items[..|items|] == items;
  }

  ghost function Union(groups: map<string, set<string>>): set<string> {
    set value, outcome | value in groups && outcome in groups[value] :: outcome
  }

  ghost predicate OneEach(groups: map<string, set<string>>) {
    forall value :: value in groups ==> |groups[value]| == 1
  }

  /** The three tests as they are made, over the value groups in any order. */
  method Discriminates(groups: map<string, set<string>>, outcomes: set<string>) returns (discriminates: bool)
    ensures discriminates <==> |groups| >= 2 && OneEach(groups) && |Union(groups)| == |outcomes|
  {
    discriminates := |groups| >= 2;
    var covered: set<string> := {};
    var pending := groups.Keys;
    while pending != {}
      invariant pending <= groups.Keys && (discriminates <==> |groups| >= 2)
      invariant forall value :: value in groups.Keys - pending ==> |groups[value]| == 1
      invariant covered == set value, outcome | value in groups.Keys - pending && outcome in groups[value] :: outcome
    {
      var value :| value in pending;
      pending := pending - {value};
      if |groups[value]| != 1 {
        discriminates := false;
        break;
      }
      covered := covered + groups[value];
    }
    assert discriminates ==> covered == Union(groups);
    if |covered| != |outcomes| { discriminates := false; }
  }

  /** Together the three tests decide whether the field determines the outcome. */
  lemma TestsDecide(items: seq<Observation>, path: string, groups: map<string, set<string>>)
    requires groups.Keys == Values(items, path) && |Outcomes(items)| >= 2
    requires forall value :: value in groups ==> groups[value] == OutcomesOf(items, path, value)
    ensures |groups| == |Values(items, path)|
    ensures |groups| >= 2 && OneEach(groups) && |Union(groups)| == |Outcomes(items)| <==> Determines(items, path)
  {
    assert |groups| == |groups.Keys|;
    OneOutcomeEach(items, path);
    assert Union(groups) == CoveredOutcomes(items, path);
    if Determines(items, path) { FurtherTestsHold(items, path); }
  }

  predicate HasLocation(path: string) {
    NUL in path
  }

  /** A combined path cut at its first NUL into location and path. */
  function Location(path: string): (location: string)
    requires HasLocation(path)
    ensures NulFree(location) && location + [NUL] <= path
  {
    if path[0] == NUL then "" else [path[0]] + Location(path[1..])
  }

  function CandidateFor(action: ActionSignature, items: seq<Observation>, path: string, demonstrationCount: nat): Candidate
    requires HasLocation(path)
  {
    Candidate(action, Location(path), path[|Location(path)| + 1..],
              |Outcomes(items)|, |Values(items, path)|, |items|, Demonstrations(items),
              if demonstrationCount > 0 then |Demonstrations(items)| as real / demonstrationCount as real else 0.0)
  }

  /**
   * A candidate tells the two halves of its field's name, and how many outcomes, values,
   * observations and demonstrations spoke for it.
   */
  lemma CandidateTells(action: ActionSignature, items: seq<Observation>, path: string, demonstrationCount: nat)
    requires HasLocation(path)
    ensures var c := CandidateFor(action, items, path, demonstrationCount);
            && c.action == action && NulFree(c.location) && c.location + [NUL] + c.path == path
            && c.occurrences == |items| && c.outcomeCount == |set item | item in items :: OutcomeKey(item)|
            && c.distinctValueCount == |set item | item in items :: Value(item, path)|
            && (forall id :: id in c.demonstrationIDs <==> exists item :: item in items && item.demonstrationID == id)
            && c.demonstrationSupport * demonstrationCount as real ==
               if demonstrationCount > 0 then |c.demonstrationIDs| as real else 0.0
  {
    var location := Location(path);
    assert path == location + [NUL] + path[|location| + 1..];
  }

  ghost predicate Located(items: seq<Observation>) {
    forall item, path :: item in items && path in item.fields ==> HasLocation(path)
  }

  ghost predicate Distinct<T>(s: seq<T>) {
    forall i, j :: 0 <= i < j < |s| ==> s[i] != s[j]
  }

  /** The fields of one action that are reported, among some of its paths. */
  ghost predicate FoundAmong(c: Candidate, action: ActionSignature, items: seq<Observation>, paths: set<string>, count: nat) {
    exists path :: path in paths && HasLocation(path) && Reported(items, path) && c == CandidateFor(action, items, path, count)
  }

  method CandidatesOf(action: ActionSignature, items: seq<Observation>, demonstrationCount: nat) returns (found: seq<Candidate>)
    requires Located(items)
    ensures forall c :: c in found <==> FoundAmong(c, action, items, Paths(items), demonstrationCount)
    ensures Distinct(found)
  {
    found := [];
    var outcomes, paths, demonstrations := Collect(items);
    NoPathsYet(action, items, demonstrationCount);
    if |outcomes| < 2 { return; }
    var pending := paths;
    hide *;
    while pending != {}
      invariant pending <= paths && Distinct(found)
      invariant forall c :: c in found <==> FoundAmong(c, action, items, paths - pending, demonstrationCount)
    {
      var path :| path in pending;
      ghost var done := paths - pending;
      FoundGrows(action, items, done, path, demonstrationCount);
      var reported := ExamineField(action, items, path, demonstrationCount, outcomes, demonstrations);
      AppendDistinct(found, reported);
      found := found + reported;
      pending := pending - {path};
      assert paths - pending == done + {path};
    }
    assert paths - pending == paths;
  }

  /** Reports the field, or nothing. */
  method ExamineField(action: ActionSignature, items: seq<Observation>, path: string, demonstrationCount: nat,
                      outcomes: set<string>, demonstrations: set<string>) returns (reported: seq<Candidate>)
    requires HasLocation(path) && outcomes == Outcomes(items) && demonstrations == Demonstrations(items)
    requires |outcomes| >= 2
    ensures reported == if Determines(items, path) then [CandidateFor(action, items, path, demonstrationCount)] else []
  {
    var groups := GroupOutcomes(items, path);
    var discriminates := Discriminates(groups, outcomes);
    TestsDecide(items, path, groups);
    if !discriminates { return []; }
    var support := 0.0;
    if demonstrationCount > 0 { support := |demonstrations| as real / demonstrationCount as real; }
    reported := [Candidate(action, Location(path), path[|Location(path)| + 1..],
                           |outcomes|, |groups|, |items|, demonstrations, support)];
  }

  /** Nothing is found before any path is looked at, nor where there is no choice of outcome. */
  lemma NoPathsYet(action: ActionSignature, items: seq<Observation>, count: nat)
    ensures forall c :: !FoundAmong(c, action, items, {}, count)
    ensures |Outcomes(items)| < 2 ==> forall c :: !FoundAmong(c, action, items, Paths(items), count)
  {}

  method Collect(items: seq<Observation>) returns (outcomes: set<string>, paths: set<string>, demonstrations: set<string>)
    ensures outcomes == Outcomes(items) && paths == Paths(items) && demonstrations == Demonstrations(items)
  {
    outcomes, paths, demonstrations := {}, {}, {};
    for i := 0 to |items|
      invariant outcomes == Outcomes(items[..i]) && paths == Paths(items[..i]) && demonstrations == Demonstrations(items[..i])
    {
      assert items[..i + 1] == items[..i] + [items[i]];
      outcomes := outcomes + {OutcomeKey(items[i])};
      demonstrations := demonstrations + {items[i].demonstrationID};
      paths := paths + items[i].fields.Keys;
    }
    assert items[..|items|] == items;
  }

  lemma FoundGrows(action: ActionSignature, items: seq<Observation>, paths: set<string>, path: string, count: nat)
    requires Located(items) && path in Paths(items) && |Outcomes(items)| >= 2 && path !in paths
    ensures HasLocation(path)
    ensures !FoundAmong(CandidateFor(action, items, path, count), action, items, paths, count)
    ensures forall c :: FoundAmong(c, action, items, paths + {path}, count) <==>
              FoundAmong(c, action, items, paths, count)
              || (Determines(items, path) && c == CandidateFor(action, items, path, count))
  {
    assert HasLocation(path);
    hide Outcomes, Values, Demonstrations, Determines;
    forall p | HasLocation(p) && CandidateFor(action, items, p, count) == CandidateFor(action, items, path, count)
      ensures p == path
    {
      assert p == Location(p) + [NUL] + p[|Location(p)| + 1..];
    }
  }

  ghost predicate FoundIn(c: Candidate, observations: map<ActionSignature, seq<Observation>>,
                          actions: set<ActionSignature>, count: nat)
  {
    exists action :: action in actions && action in observations
                     && FoundAmong(c, action, observations[action], Paths(observations[action]), count)
  }

  lemma AppendDistinct<T>(a: seq<T>, b: seq<T>)
    requires Distinct(a) && Distinct(b) && forall x :: x in a ==> x !in b
    ensures Distinct(a + b)
  {
    forall i, j | 0 <= i < j < |a + b|
      ensures (a + b)[i] != (a + b)[j]
    {
      if i < |a| <= j { assert a[i] in a && b[j - |a|] in b; }
    }
  }

  /** Reports one candidate per action and deciding field, and nothing else, whatever the map order. */
  method DiscoverBranchCandidates(observations: map<ActionSignature, seq<Observation>>, demonstrationCount: nat)
      returns (output: seq<Candidate>)
    requires forall action :: action in observations ==> Located(observations[action])
    ensures forall c :: c in output <==> FoundIn(c, observations, observations.Keys, demonstrationCount)
    ensures Distinct(output)
  {
    output := [];
    var pending := observations.Keys;
    while pending != {}
      invariant pending <= observations.Keys && Distinct(output)
      invariant forall c :: c in output <==> FoundIn(c, observations, observations.Keys - pending, demonstrationCount)
      invariant forall c :: c in output ==> c.action !in pending
    {
      var action :| action in pending;
      var found := CandidatesOf(action, observations[action], demonstrationCount);
      AppendDistinct(output, found);
      pending := pending - {action};
      output := output + found;
    }
    assert observations.Keys - pending == observations.Keys;
  }
}
