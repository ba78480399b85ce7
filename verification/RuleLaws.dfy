/** Which rule rules: the evaluation of permission rules said of positions in the list, and what a plain pattern matches. */
module RuleLaws {
  import opened Results
  import opened Text
  import opened Scanners
  import opened Spellings
  import opened CompositeCommands
  import opened BashRules

  predicate Deciding(rule: Rule) {
    rule.decision == Allow || rule.decision == Deny
  }

  predicate BashDecider(m: Matchers, rule: Rule, segment: string) {
    rule.kind == BashRule && Deciding(rule) && Matches(m, rule, segment)
  }

  /** From position `j` on, the first deciding bash rule that matches the segment decides this. */
  ghost predicate FirstFrom(m: Matchers, rules: seq<Rule>, j: nat, segment: string, d: Decision) {
    exists i :: j <= i < |rules| && BashDecider(m, rules[i], segment) && rules[i].decision == d
                && forall k :: j <= k < i ==> !BashDecider(m, rules[k], segment)
  }

  lemma {:induction false} FirstMatchIff(m: Matchers, rules: seq<Rule>, j: nat, segment: string, d: Decision)
    requires j <= |rules|
    ensures FirstMatch(m, BashRulesFrom(rules, j), segment) == Some(d) <==> FirstFrom(m, rules, j, segment, d)
    decreases |rules| - j
  {
    hide Matches;
    if j < |rules| {
      FirstMatchIff(m, rules, j + 1, segment, d);
      if rules[j].kind == BashRule && Deciding(rules[j]) {
        var rest := BashRulesFrom(rules, j + 1);
        assert ([rules[j]] + rest)[1..] == rest;
      }
      if BashDecider(m, rules[j], segment) {
        assert FirstFrom(m, rules, j, segment, d) <==> rules[j].decision == d;
      } else {
        OneFurther(m, rules, j, segment, d);
      }
    }
  }

  lemma OneFurther(m: Matchers, rules: seq<Rule>, j: nat, segment: string, d: Decision)
    requires j < |rules| && !BashDecider(m, rules[j], segment)
    ensures FirstFrom(m, rules, j, segment, d) <==> FirstFrom(m, rules, j + 1, segment, d)
  {
    hide BashDecider;
  }

  /** A bash rule at `j` denies when some segment is denied, and else allows when every segment is allowed. */
  ghost predicate BashSays(m: Matchers, rules: seq<Rule>, j: nat, segments: seq<string>, d: Decision) {
    var denied := exists s :: s in segments && !Blank(s) && FirstFrom(m, rules, j, s, Deny);
    && segments != []
    && ((d == Deny && denied)
        || (d == Allow && !denied && forall s :: s in segments && !Blank(s) ==> FirstFrom(m, rules, j, s, Allow)))
  }

  /** What the rule at `j` has to say to a call, if anything. */
  ghost predicate Says(m: Matchers, rules: seq<Rule>, j: nat, segments: Option<seq<string>>, d: Decision)
    requires j < |rules|
  {
    && Deciding(rules[j])
    && (((rules[j].kind == ToolRule || rules[j].kind == PathRule) && m.applies(rules[j]) && d == rules[j].decision)
        || (rules[j].kind == BashRule && segments.Some? && BashSays(m, rules, j, segments.value, d)))
  }

  lemma VerdictIff(m: Matchers, rules: seq<Rule>, j: nat, segments: seq<string>, d: Decision)
    requires j <= |rules|
    ensures Verdict(m, BashRulesFrom(rules, j), segments) == Some(d) <==> BashSays(m, rules, j, segments, d)
  {
    forall s, e
      ensures FirstMatch(m, BashRulesFrom(rules, j), s) == Some(e) <==> FirstFrom(m, rules, j, s, e)
    {
      FirstMatchIff(m, rules, j, s, e);
    }
    hide FirstFrom, FirstMatch, BashRulesFrom, Blank;
  }

  /** The ruling is that of the first rule that says anything, and there is none when no rule does. */
  lemma {:induction false} RulingIsTheFirst(m: Matchers, rules: seq<Rule>, from: nat, segments: Option<seq<string>>)
    requires from <= |rules|
    ensures var r := Evaluate(m, rules, from, segments);
            && (r.Some? ==>
                  && from <= r.value.index < |rules| && Says(m, rules, r.value.index, segments, r.value.decision)
                  && forall j, d :: from <= j < r.value.index ==> !Says(m, rules, j, segments, d))
            && (r.None? ==> forall j, d :: from <= j < |rules| ==> !Says(m, rules, j, segments, d))
    decreases |rules| - from
  {
    hide Verdict, BashRulesFrom, BashSays;
    if from < |rules| {
      RulingIsTheFirst(m, rules, from + 1, segments);
      if segments.Some? {
        forall d
          ensures Verdict(m, BashRulesFrom(rules, from), segments.value) == Some(d) <==>
                  BashSays(m, rules, from, segments.value, d)
        {
          VerdictIff(m, rules, from, segments.value, d);
        }
      }
    }
  }

  /**
   A plain pattern without wildcards, however its words are spelled, matches a command exactly
   when the command's words begin with them; a pattern of no words matches nothing.
   */
  lemma PlainPatternMatchesWords(m: Matchers, rule: Rule, pattern: seq<Word>, patternGaps: seq<string>,
                                 command: seq<Word>, commandGaps: seq<string>)
    requires GoodLine(pattern, patternGaps) && GoodLine(command, commandGaps)
    requires rule.pattern == Pattern.Plain(Line(pattern, patternGaps))
    requires forall i :: 0 <= i < |Line(pattern, patternGaps)| ==> Line(pattern, patternGaps)[i] !in {'*', '?', '['}
    requires TrimSpace(Line(command, commandGaps)) == Line(command, commandGaps)
    ensures Matches(m, rule, Line(command, commandGaps)) <==>
            pattern != [] && Meanings(pattern) <= Meanings(command)
  {
    hide *;
    GapsFit(pattern, patternGaps);
    GapsFit(command, commandGaps);
    SpellingRoundTrip(pattern, patternGaps);
    SpellingRoundTrip(command, commandGaps);
    PlainMatches(m, rule, Line(pattern, patternGaps), Line(command, commandGaps));
    AsManyMeanings(pattern);
    NoTokens();
  }

  lemma GapsFit(words: seq<Word>, gaps: seq<string>)
    requires GoodLine(words, gaps)
    ensures |gaps| == |words| + 1
  {}

  lemma AsManyMeanings(words: seq<Word>)
    ensures |Meanings(words)| == |words|
  {}

  lemma PlainMatches(m: Matchers, rule: Rule, p: string, text: string)
    requires rule.pattern == Pattern.Plain(p) && TrimSpace(text) == text
    requires forall i :: 0 <= i < |p| ==> p[i] !in {'*', '?', '['}
    ensures Matches(m, rule, text) <==> p != "" && Tokens(p) != [] && Tokens(p) <= Tokens(text)
  {
    hide Tokens, TrimSpace;
  }

  // ---- Blanks around a segment ----

  lemma {:induction false} TrimLeftSkips(pad: string, s: string)
    requires forall i :: 0 <= i < |pad| ==> IsSpace(pad[i])
    ensures TrimLeft(pad + s) == TrimLeft(s)
  {
    if pad == "" {
      assert pad + s == s;
    } else {
      assert (pad + s)[1..] == pad[1..] + s;
      TrimLeftSkips(pad[1..], s);
    }
  }

  lemma {:induction false} TrimRightSkips(s: string, pad: string)
    requires forall i :: 0 <= i < |pad| ==> IsSpace(pad[i])
    ensures TrimRight(s + pad) == TrimRight(s)
  {
    if pad == "" {
      assert s + pad == s;
    } else {
      assert (s + pad)[..|s + pad| - 1] == s + pad[..|pad| - 1];
      TrimRightSkips(s, pad[..|pad| - 1]);
    }
  }

  lemma {:induction false} TrimLeftKeepsEnd(s: string, pad: string)
    requires forall i :: 0 <= i < |pad| ==> IsSpace(pad[i])
    ensures TrimRight(TrimLeft(s + pad)) == TrimRight(TrimLeft(s))
  {
    if s != "" && IsSpace(s[0]) {
      assert (s + pad)[1..] == s[1..] + pad;
      TrimLeftKeepsEnd(s[1..], pad);
    } else if s == "" {
      assert s + pad == pad && pad + "" == pad;
      TrimLeftSkips(pad, "");
    } else {
      TrimRightSkips(s, pad);
    }
  }

  /** Every pattern, of any kind, sees a segment without the blanks around it. */
  lemma BlanksAroundDoNotMatter(m: Matchers, rule: Rule, before: string, segment: string, behind: string)
    requires forall i :: 0 <= i < |before| ==> IsSpace(before[i])
    requires forall i :: 0 <= i < |behind| ==> IsSpace(behind[i])
    ensures Matches(m, rule, before + segment + behind) <==> Matches(m, rule, segment)
  {
    assert before + segment + behind == before + (segment + behind);
    TrimLeftSkips(before, segment + behind);
    TrimLeftKeepsEnd(segment, behind);
    hide TrimLeft, TrimRight, Tokens;
  }

  /** A pattern with a wildcard in it, and every regular expression, is put to its matcher. */
  lemma MatchersAreAsked(m: Matchers, rule: Rule, segment: string)
    ensures rule.pattern.Regex? ==> (Matches(m, rule, segment) <==> m.regex(rule.pattern.source, TrimSpace(segment)))
    ensures rule.pattern.Plain? && ('*' in rule.pattern.text || '?' in rule.pattern.text || '[' in rule.pattern.text) ==>
              (Matches(m, rule, segment) <==> m.glob(rule.pattern.text, TrimSpace(segment)))
  {
    hide TrimSpace;
    if rule.pattern.Plain? && ('*' in rule.pattern.text || '?' in rule.pattern.text || '[' in rule.pattern.text) {
      var p := rule.pattern.text;
      var i :| 0 <= i < |p| && p[i] in {'*', '?', '['};
      assert IsWildcard(p[i]);
    }
  }

  lemma NoTokens()
    ensures Tokens("") == []
  {}
}
