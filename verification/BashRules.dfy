/**
 Permission rules for one tool call. Bash rules are tried against every segment of a composite
 command, first on the complete list of bash rules and, while they do not decide, again on the
 shorter lists that begin further down. How tool and path rules apply, and how regular
 expressions and wildcards match, are parameters.
 */
module BashRules {
  import opened Results
  import opened Text
  import opened Scanners
  import opened CompositeCommands

  datatype Decision = Allow | Deny | OtherDecision

  datatype RuleKind = ToolRule | PathRule | BashRule | OtherRule

  datatype Pattern = Regex(source: string) | Plain(text: string)

  datatype Rule = Rule(kind: RuleKind, decision: Decision, pattern: Pattern)

  datatype Matchers = Matchers(applies: Rule -> bool, regex: (string, string) -> bool, glob: (string, string) -> bool)

  datatype Ruling = Ruling(index: nat, decision: Decision)

  // ---- One rule and one segment ----

  predicate TokensStart(tokens: seq<string>, prefix: seq<string>) {
    prefix != [] && prefix <= tokens
  }

  method TokensStartWith(tokens: seq<string>, prefix: seq<string>) returns (yes: bool)
    ensures yes <==> TokensStart(tokens, prefix)
  {
    if |prefix| == 0 || |prefix| > |tokens| { return false; }
    for i := 0 to |prefix|
      invariant prefix[..i] == tokens[..i]
    {
      if tokens[i] != prefix[i] { return false; }
    }
    assert prefix == tokens[..|prefix|];
    return true;
  }

  predicate IsWildcard(ch: char) {
    ch == '*' || ch == '?' || ch == '['
  }

  predicate Matches(m: Matchers, rule: Rule, segment: string) {
    var text := TrimSpace(segment);
    match rule.pattern
    case Regex(source) => m.regex(source, text)
    case Plain(p) =>
      && p != ""
      && if exists i :: 0 <= i < |p| && IsWildcard(p[i]) then m.glob(p, text) else TokensStart(Tokens(text), Tokens(p))
  }

  method MatchBashRule(m: Matchers, rule: Rule, segment: string) returns (yes: bool)
    ensures yes <==> Matches(m, rule, segment)
  {
    var text := TrimSpace(segment);
    if rule.pattern.Regex? { return m.regex(rule.pattern.source, text); }
    var p := rule.pattern.text;
    if p == "" { return false; }
    for i := 0 to |p|
      invariant forall j :: 0 <= j < i ==> !IsWildcard(p[j])
    {
      if IsWildcard(p[i]) { return m.glob(p, text); }
    }
    var tokens := TokenizeShellPrefix(text);
    var prefix := TokenizeShellPrefix(p);
    yes := TokensStartWith(tokens, prefix);
  }

  // ---- One list of bash rules ----

  function FirstMatch(m: Matchers, rules: seq<Rule>, segment: string): Option<Decision> {
    if rules == [] then None
    else if Matches(m, rules[0], segment) then Some(rules[0].decision)
    else FirstMatch(m, rules[1..], segment)
  }

  method FirstMatchingBashDecision(m: Matchers, rules: seq<Rule>, segment: string) returns (d: Option<Decision>)
    ensures d == FirstMatch(m, rules, segment)
  {
    for i := 0 to |rules|
      invariant FirstMatch(m, rules, segment) == FirstMatch(m, rules[i..], segment)
    {
      assert rules[i..][1..] == rules[i + 1..];
      var yes := MatchBashRule(m, rules[i], segment);
      if yes { return Some(rules[i].decision); }
    }
    return None;
  }

  predicate AllAllowed(m: Matchers, rules: seq<Rule>, segments: seq<string>) {
    forall s :: s in segments && !Blank(s) ==> FirstMatch(m, rules, s) == Some(Allow)
  }

  predicate SomeDenied(m: Matchers, rules: seq<Rule>, segments: seq<string>) {
    exists s :: s in segments && !Blank(s) && FirstMatch(m, rules, s) == Some(Deny)
  }

  /** A denied segment denies the command; it is allowed only when every segment is. */
  function Verdict(m: Matchers, rules: seq<Rule>, segments: seq<string>): Option<Decision> {
    if segments == [] then None
    else if SomeDenied(m, rules, segments) then Some(Deny)
    else if AllAllowed(m, rules, segments) then Some(Allow)
    else None
  }

  lemma {:induction false} NoBlankSegments(stretches: seq<string>)
    ensures forall s :: s in NotBlank(stretches) ==> !Blank(s)
  {
    if stretches != [] { NoBlankSegments(stretches[..|stretches| - 1]); }
  }

  lemma OneMoreSegment(m: Matchers, rules: seq<Rule>, segments: seq<string>, s: string)
    ensures SomeDenied(m, rules, segments + [s]) <==>
            SomeDenied(m, rules, segments) || (!Blank(s) && FirstMatch(m, rules, s) == Some(Deny))
    ensures AllAllowed(m, rules, segments + [s]) <==>
            AllAllowed(m, rules, segments) && (Blank(s) || FirstMatch(m, rules, s) == Some(Allow))
  {
    hide FirstMatch;
    var all := segments + [s];
    assert forall x :: x in all <==> x in segments || x == s;
  }

  method EvaluateBashRules(m: Matchers, rules: seq<Rule>, command: string) returns (d: Option<Decision>)
    ensures d == Verdict(m, rules, Segments(command))
  {
    var segments := SplitCompositeCommand(command);
    d := JudgeSegments(m, rules, segments);
  }

  method JudgeSegments(m: Matchers, rules: seq<Rule>, segments: seq<string>) returns (d: Option<Decision>)
    ensures d == Verdict(m, rules, segments)
  {
    if |segments| == 0 { return None; }
    var allAllowed := true;
    assert !SomeDenied(m, rules, segments[..0]) && AllAllowed(m, rules, segments[..0]);
    hide SomeDenied, AllAllowed, FirstMatch;
    for i := 0 to |segments|
      invariant !SomeDenied(m, rules, segments[..i])
      invariant allAllowed <==> AllAllowed(m, rules, segments[..i])
    {
      assert segments[..i + 1] == segments[..i] + [segments[i]];
      OneMoreSegment(m, rules, segments[..i], segments[i]);
      if TrimSpace(segments[i]) == "" { continue; }
      var decision := FirstMatchingBashDecision(m, rules, segments[i]);
      if decision == Some(Deny) {
        DeniedStays(m, rules, segments, i + 1);
        return Some(Deny);
      }
      if decision != Some(Allow) { allAllowed := false; }
    }
    assert segments[..|segments|] == segments;
    d := if allAllowed then Some(Allow) else None;
  }

  lemma DeniedStays(m: Matchers, rules: seq<Rule>, segments: seq<string>, n: nat)
    requires n <= |segments| && SomeDenied(m, rules, segments[..n])
    ensures SomeDenied(m, rules, segments)
  {
    hide FirstMatch;
    var s :| s in segments[..n] && !Blank(s) && FirstMatch(m, rules, s) == Some(Deny);
    assert s in segments;
  }

  // ---- All rules ----

  predicate Decides(rule: Rule) {
    rule.decision == Allow || rule.decision == Deny
  }

  /** The bash rules from a place on, in order. */
  function BashRulesFrom(rules: seq<Rule>, start: nat): seq<Rule>
    requires start <= |rules|
    decreases |rules| - start
  {
    if start == |rules| then []
    else if rules[start].kind == BashRule && Decides(rules[start]) then [rules[start]] + BashRulesFrom(rules, start + 1)
    else BashRulesFrom(rules, start + 1)
  }

  method CollectBashRules(rules: seq<Rule>, start: nat) returns (found: seq<Rule>)
    requires start <= |rules|
    ensures found == BashRulesFrom(rules, start)
  {
    found := [];
    for i := start to |rules|
      invariant found + BashRulesFrom(rules, i) == BashRulesFrom(rules, start)
    {
      if rules[i].kind == BashRule && Decides(rules[i]) {
        assert found + ([rules[i]] + BashRulesFrom(rules, i + 1)) == (found + [rules[i]]) + BashRulesFrom(rules, i + 1);
        found := found + [rules[i]];
      }
    }
    assert found + [] == found;
  }

  /** The first rule from `i` on that decides the call; `segments` is there for a bash call with a command. */
  function Evaluate(m: Matchers, rules: seq<Rule>, i: nat, segments: Option<seq<string>>): Option<Ruling>
    requires i <= |rules|
    decreases |rules| - i
  {
    if i == |rules| then None
    else
      var rule := rules[i];
      if !Decides(rule) then Evaluate(m, rules, i + 1, segments)
      else if (rule.kind == ToolRule || rule.kind == PathRule) && m.applies(rule) then Some(Ruling(i, rule.decision))
      else if rule.kind == BashRule && segments.Some? && Verdict(m, BashRulesFrom(rules, i), segments.value).Some? then
        Some(Ruling(i, Verdict(m, BashRulesFrom(rules, i), segments.value).value))
      else Evaluate(m, rules, i + 1, segments)
  }

  /** What the rules see of a call: the segments of its command, if it is a bash call that has one. */
  ghost function SeenOf(isBash: bool, command: Option<string>): Option<seq<string>> {
    if isBash && command.Some? then Some(Segments(command.value)) else None
  }

  method EvaluateRules(m: Matchers, rules: seq<Rule>, isBash: bool, command: Option<string>) returns (ruling: Option<Ruling>)
    ensures ruling == Evaluate(m, rules, 0, SeenOf(isBash, command))
  {
    ghost var segments := SeenOf(isBash, command);
    hide Segments, Verdict, BashRulesFrom;
    for i := 0 to |rules|
      invariant Evaluate(m, rules, 0, segments) == Evaluate(m, rules, i, segments)
    {
      var rule := rules[i];
      if !Decides(rule) { continue; }
      if rule.kind == ToolRule && m.applies(rule) { return Some(Ruling(i, rule.decision)); }
      if rule.kind == PathRule && m.applies(rule) { return Some(Ruling(i, rule.decision)); }
      if rule.kind == BashRule && isBash {
        if command.None? { continue; }
        var bashRules := CollectBashRules(rules, i);
        var d := EvaluateBashRules(m, bashRules, command.value);
        if d.Some? { return Some(Ruling(i, d.value)); }
      }
    }
    return None;
  }

  // ---- What a later, shorter list can decide ----

  lemma {:induction false} BashRulesDecide(rules: seq<Rule>, start: nat)
    requires start <= |rules|
    ensures forall r :: r in BashRulesFrom(rules, start) ==> Decides(r)
    decreases |rules| - start
  {
    if start < |rules| { BashRulesDecide(rules, start + 1); }
  }

  lemma {:induction false} FirstMatchDecides(m: Matchers, rules: seq<Rule>, segment: string)
    requires forall r :: r in rules ==> Decides(r)
    ensures FirstMatch(m, rules, segment).Some? ==> FirstMatch(m, rules, segment).value in {Allow, Deny}
    ensures FirstMatch(m, rules, segment).Some? <==> exists r :: r in rules && Matches(m, r, segment)
    ensures FirstMatch(m, rules, segment) == Some(Deny) ==> exists r :: r in rules && r.decision == Deny && Matches(m, r, segment)
  {
    if rules != [] {
      assert rules == [rules[0]] + rules[1..];
      assert Decides(rules[0]) by { assert rules[0] in rules; }
      FirstMatchDecides(m, rules[1..], segment);
    }
  }

  /** When a list of bash rules leaves the command undecided, some segment matches no rule of it at all. */
  lemma UndecidedMeansUnmatched(m: Matchers, rules: seq<Rule>, segments: seq<string>) returns (s: string)
    requires (forall r :: r in rules ==> Decides(r)) && segments != [] && Verdict(m, rules, segments).None?
    ensures s in segments && !Blank(s) && forall r :: r in rules ==> !Matches(m, r, s)
  {
    s :| s in segments && !Blank(s) && FirstMatch(m, rules, s) != Some(Allow);
    FirstMatchDecides(m, rules, s);
  }

  ghost predicate DenyMatches(m: Matchers, rules: seq<Rule>, segments: seq<string>) {
    exists r, s :: r in rules && r.decision == Deny && s in segments && !Blank(s) && Matches(m, r, s)
  }

  /** A list that leaves the command undecided does not decide it by losing its first rule, save to deny it. */
  lemma UndecidedStep(m: Matchers, rule: Rule, rest: seq<Rule>, segments: seq<string>)
    requires (forall r :: r in [rule] + rest ==> Decides(r)) && segments != []
    requires Verdict(m, [rule] + rest, segments).None?
    ensures !AllAllowed(m, [rule] + rest, segments) && !AllAllowed(m, rest, segments)
    ensures DenyMatches(m, [rule] + rest, segments) <==> DenyMatches(m, rest, segments)
  {
    var all := [rule] + rest;
    assert all[1..] == rest && all[0] == rule;
    assert forall r :: r in all <==> r == rule || r in rest;
    var s := UndecidedMeansUnmatched(m, all, segments);
    FirstMatchDecides(m, rest, s);
    if rule.decision == Deny {
      forall t | t in segments && !Blank(t) ensures !Matches(m, rule, t) {
        assert FirstMatch(m, all, t) != Some(Deny);
      }
    }
    hide Matches, FirstMatch;
  }

  lemma DecidedStep(m: Matchers, all: seq<Rule>, segments: seq<string>)
    requires (forall r :: r in all ==> Decides(r)) && Verdict(m, all, segments).Some?
    ensures var d := Verdict(m, all, segments).value;
            && segments != [] && (d == Allow || d == Deny)
            && (d == Allow <==> AllAllowed(m, all, segments))
            && (d == Deny <==> !AllAllowed(m, all, segments) && DenyMatches(m, all, segments))
  {
    if SomeDenied(m, all, segments) {
      var s :| s in segments && !Blank(s) && FirstMatch(m, all, s) == Some(Deny);
      FirstMatchDecides(m, all, s);
    }
    hide FirstMatch, Matches;
  }

  /** A bash rule allows a call only if the complete list of bash rules from there on allows every segment first. */
  lemma {:induction false} AllowedFrom(m: Matchers, rules: seq<Rule>, i: nat, segments: seq<string>)
    requires i <= |rules|
    requires var r := Evaluate(m, rules, i, Some(segments));
             r.Some? && r.value.index < |rules| && rules[r.value.index].kind == BashRule && r.value.decision == Allow
    ensures segments != [] && AllAllowed(m, BashRulesFrom(rules, i), segments)
    decreases |rules| - i
  {
    if i < |rules| {
      BashRulesDecide(rules, i);
      var rule, all := rules[i], BashRulesFrom(rules, i);
      if Decides(rule) && rule.kind == BashRule && segments != [] {
        if Verdict(m, all, segments).None? {
          UndecidedStep(m, rule, BashRulesFrom(rules, i + 1), segments);
          AllowedFrom(m, rules, i + 1, segments);
        }
      } else {
        AllowedFrom(m, rules, i + 1, segments);
      }
    }
  }

  /**
   Whichever bash rule allows a call, every segment's first match in the complete list of
   bash rules is an allow: no shorter list can turn an undecided command into an allowed one.
   */
  lemma AllowNeedsTheCompleteList(m: Matchers, rules: seq<Rule>, command: string)
    requires var r := Evaluate(m, rules, 0, Some(Segments(command)));
             r.Some? && r.value.index < |rules| && rules[r.value.index].kind == BashRule && r.value.decision == Allow
    ensures Segments(command) != []
    ensures forall s :: s in Segments(command) ==> FirstMatch(m, BashRulesFrom(rules, 0), s) == Some(Allow)
  {
    AllowedFrom(m, rules, 0, Segments(command));
    NoBlankSegments(Stretches(command, Parts(command)));
  }

  ghost predicate NoOtherRuleApplies(m: Matchers, rules: seq<Rule>) {
    forall r :: r in rules && Decides(r) && (r.kind == ToolRule || r.kind == PathRule) ==> !m.applies(r)
  }

  lemma {:induction false} BashVerdictFrom(m: Matchers, rules: seq<Rule>, i: nat, segments: seq<string>)
    requires i <= |rules| && NoOtherRuleApplies(m, rules) && forall s :: s in segments ==> !Blank(s)
    ensures var r, all := Evaluate(m, rules, i, Some(segments)), BashRulesFrom(rules, i);
            var allowed := segments != [] && AllAllowed(m, all, segments);
            && (r.Some? && r.value.decision == Allow <==> allowed)
            && (r.Some? && r.value.decision == Deny <==> !allowed && DenyMatches(m, all, segments))
            && (r.Some? ==> r.value.decision == Allow || r.value.decision == Deny)
    decreases |rules| - i
  {
    if i == |rules| {
      if segments != [] { assert segments[0] in segments && FirstMatch(m, [], segments[0]).None?; }
    } else {
      BashVerdictFrom(m, rules, i + 1, segments);
      var rule, all, rest := rules[i], BashRulesFrom(rules, i), BashRulesFrom(rules, i + 1);
      assert rule in rules;
      BashRulesDecide(rules, i);
      BashRulesDecide(rules, i + 1);
      if Decides(rule) && rule.kind == BashRule && segments != [] {
        assert all == [rule] + rest;
        if Verdict(m, all, segments).None? { UndecidedStep(m, rule, rest, segments); } else { DecidedStep(m, all, segments); }
      }
      if segments == [] {
        assert !DenyMatches(m, all, segments) && !DenyMatches(m, rest, segments) && Verdict(m, all, segments).None?;
      }
      hide AllAllowed, DenyMatches, FirstMatch, Verdict, SomeDenied;
    }
  }

  /**
   Where only bash rules bear on the call, it is allowed exactly when every segment's first
   match is an allow, and otherwise denied exactly when any deny rule at all matches any
   segment, even one that an earlier allow rule covers.
   */
  lemma BashVerdict(m: Matchers, rules: seq<Rule>, command: string)
    requires NoOtherRuleApplies(m, rules)
    ensures var r, all, segments := Evaluate(m, rules, 0, Some(Segments(command))), BashRulesFrom(rules, 0), Segments(command);
            var allowed := segments != [] && forall s :: s in segments ==> FirstMatch(m, all, s) == Some(Allow);
            && (r.Some? && r.value.decision == Allow <==> allowed)
            && (r.Some? && r.value.decision == Deny <==> !allowed && DenyMatches(m, all, segments))
            && (r.Some? ==> r.value.decision == Allow || r.value.decision == Deny)
  {
    NoBlankSegments(Stretches(command, Parts(command)));
    BashVerdictFrom(m, rules, 0, Segments(command));
    hide Evaluate, FirstMatch, DenyMatches, Segments, BashRulesFrom;
  }
}
