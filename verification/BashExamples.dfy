/** What unquoted commands are cut into, and a deny rule that another segment brings to bear. */
module BashExamples {
  import opened Results
  import opened Text
  import opened Scanners
  import opened CompositeCommands
  import opened BashRules

  // ---- Plain commands joined by an operator ----

  predicate Unquoted(text: string) {
    forall i :: 0 <= i < |text| ==> text[i] != '\\' && QuoteOf(text[i]) == NoQuote
  }

  predicate Plain(text: string) {
    Unquoted(text) && !Blank(text) && forall i :: 0 <= i < |text| ==> !IsOperatorChar(text[i])
  }

  lemma {:induction false} UnquotedScan(text: string)
    requires Unquoted(text)
    ensures Run(START, text).quote == NoQuote && !Run(START, text).escaped
  {
    if text != "" {
      var front := text[..|text| - 1];
      UnquotedScan(front);
    }
  }

  /** Where no quote and no backslash occurs, exactly the operators cut. */
  lemma UnquotedCuts(text: string, i: nat)
    requires Unquoted(text) && i < |text|
    ensures Cuts(text, i) <==> OperatorLength(text, i) > 0
  {
    UnquotedScan(text[..i]);
  }

  lemma PlainIsOneSegment(a: string)
    requires Plain(a)
    ensures Segments(a) == [a]
  {
    hide Blank;
    NothingCuts(a);
  }

  lemma NotBlankGrows(stretches: seq<string>, s: string)
    ensures NotBlank(stretches + [s]) == NotBlank(stretches) + if Blank(s) then [] else [s]
  {
    assert (stretches + [s])[..|stretches|] == stretches;
    hide Blank;
  }

  /** Only the operator cuts, and it does so as a whole. */
  lemma OperatorCuts(a: string, op: string, b: string, j: nat)
    requires Plain(a) && Plain(b) && op in LONG_OPERATORS + SHORT_OPERATORS && j < |a + op + b|
    ensures j <= |a| || j >= |a| + |op| ==> (Cuts(a + op + b, j) <==> j == |a|)
    ensures OperatorLength(a + op + b, |a|) == |op|
  {
    var line, n := a + op + b, |a|;
    Joined(a, op, b);
    hide Blank;
    UnquotedCuts(line, j);
    hide Cuts;
  }

  lemma Joined(a: string, op: string, b: string)
    requires Plain(a) && Plain(b) && op in LONG_OPERATORS + SHORT_OPERATORS
    ensures var line, n := a + op + b, |a|;
            && (|op| == 1 || (|op| == 2 && op[0] == op[1])) && IsOperatorChar(op[0]) && (|op| == 1 ==> op[0] != '&')
            && (|op| == 2 ==> op[0] != ';')
            && (forall i :: 0 <= i < n ==> line[i] == a[i])
            && (forall i :: 0 <= i < |op| ==> line[n + i] == op[i])
            && (forall i :: n + |op| <= i < |line| ==> line[i] == b[i - n - |op|])
            && b != "" && Unquoted(line)
  {
    EmptyIsBlank();
    hide Blank;
  }

  lemma PlainsAreTwoParts(a: string, op: string, b: string)
    requires Plain(a) && Plain(b) && op in LONG_OPERATORS + SHORT_OPERATORS
    ensures Parts(a + op + b) == [Part(0, |a|, |op|), Part(|a| + |op|, |a + op + b|, 0)]
  {
    var line, n := a + op + b, |a|;
    Joined(a, op, b);
    OperatorCuts(a, op, b, n);
    forall j: nat | j < |line| && (j <= n || j >= n + |op|)
      ensures Cuts(line, j) <==> j == n
    {
      OperatorCuts(a, op, b, j);
    }
    hide Cuts, Blank, OperatorLength, Unquoted;
    PartsAreCutUp(line);
    CutUpIsUnique(line, 0, Parts(line), [Part(0, n, |op|), Part(n + |op|, |line|, 0)]);
  }

  lemma TwoStretches(line: string, p: Part, q: Part)
    requires p.from <= p.to <= |line| && q.from <= q.to <= |line|
    requires !Blank(line[p.from..p.to]) && !Blank(line[q.from..q.to])
    ensures NotBlank(Stretches(line, [p, q])) == [line[p.from..p.to], line[q.from..q.to]]
  {
    var a, b := line[p.from..p.to], line[q.from..q.to];
    assert Stretches(line, []) == [] && NotBlank([]) == [];
    hide *;
    StretchAdded(line, [], p);
    StretchAdded(line, [p], q);
    NotBlankGrows([], a);
    NotBlankGrows([a], b);
    assert [] + [p] == [p] && [p] + [q] == [p, q] && [] + [a] == [a] && [a] + [b] == [a, b];
  }

  /** Two plain commands with any of the four operators between them are two segments. */
  lemma PlainsAreTwoSegments(a: string, op: string, b: string)
    requires Plain(a) && Plain(b) && op in LONG_OPERATORS + SHORT_OPERATORS
    ensures Segments(a + op + b) == [a, b]
  {
    var line, n := a + op + b, |a|;
    PlainsAreTwoParts(a, op, b);
    Joined(a, op, b);
    hide Parts, Stretches, NotBlank, Blank, Unquoted;
    assert line[0..n] == a && line[n + |op|..|line|] == b;
    TwoStretches(line, Part(0, n, |op|), Part(n + |op|, |line|, 0));
  }

  /** A single ampersand cuts nothing. */
  lemma AmpersandIsNoOperator(a: string, b: string)
    requires Plain(a) && Plain(b)
    ensures Segments(a + "&" + b) == [a + "&" + b]
  {
    var line, n := a + "&" + b, |a|;
    assert line[..n] == a && line[n] == '&' && line[n + 1..] == b;
    assert forall i :: 0 <= i < |line| ==> line[i] == if i < n then a[i] else if i == n then '&' else b[i - n - 1];
    NotBlankInside(line, a);
    hide Blank;
    NothingCuts(line);
  }

  lemma NothingCuts(line: string)
    requires Unquoted(line) && !Blank(line) && forall j :: 0 <= j < |line| ==> OperatorLength(line, j) == 0
    ensures Segments(line) == [line]
  {
    var p := Part(0, |line|, 0);
    forall j | 0 <= j < |line| ensures !Cuts(line, j) { UnquotedCuts(line, j); }
    hide Cuts, Blank;
    PartsAreCutUp(line);
    CutUpIsUnique(line, 0, Parts(line), [p]);
    StretchAdded(line, [], p);
    NotBlankGrows([], line);
    assert [] + [p] == [p] && [] + [line] == [line] && line[0..|line|] == line;
  }

  /** A text is blank when it has nothing but spaces. */
  lemma {:induction false} BlankIff(s: string)
    ensures Blank(s) <==> forall i :: 0 <= i < |s| ==> IsSpace(s[i])
  {
    if s != "" && IsSpace(s[0]) {
      BlankIff(s[1..]);
      assert forall i :: 0 <= i < |s| ==> s[i] == if i == 0 then s[0] else s[1..][i - 1];
    } else if s != "" {
      TrimRightKeepsPrefix(s, 1);
    }
  }

  lemma NotBlankInside(line: string, a: string)
    requires !Blank(a) && a <= line
    ensures !Blank(line)
  {
    BlankIff(a);
    BlankIff(line);
    hide Blank;
    assert forall i :: 0 <= i < |a| ==> line[i] == a[i];
  }

  /** A command that is allowed alone is not allowed in front of one that no rule matches. */
  lemma AllowStopsAtOperators(m: Matchers, rules: seq<Rule>, a: string, op: string, b: string)
    requires Plain(a) && Plain(b) && op in LONG_OPERATORS + SHORT_OPERATORS && NoOtherRuleApplies(m, rules)
    requires FirstMatch(m, BashRulesFrom(rules, 0), b) == None
    ensures var r := Evaluate(m, rules, 0, Some(Segments(a + op + b)));
            !(r.Some? && r.value.decision == Allow)
  {
    hide *;
    PlainsAreTwoSegments(a, op, b);
    BashVerdict(m, rules, a + op + b);
    assert b in [a, b];
  }

  // ---- A deny rule behind an allow rule ----

  /** Where the texts are equal. */
  const SAME := Matchers(r => false, (p, t) => p == t, (p, t) => false)

  /** The segment "a" is first allowed and then denied; nothing is said of "b". */
  const SHADOWED: seq<Rule> := [Rule(BashRule, Allow, Regex("a")), Rule(BashRule, Deny, Regex("a"))]

  lemma ExampleMatches()
    ensures FirstMatch(SAME, SHADOWED, "a") == Some(Allow) && FirstMatch(SAME, SHADOWED, "b") == None
    ensures FirstMatch(SAME, SHADOWED[1..], "a") == Some(Deny)
    ensures TrimSpace("a") == "a" && TrimSpace("b") == "b"
  {
    assert TrimSpace("a") == "a" && TrimSpace("b") == "b";
    hide TrimSpace;
    assert SHADOWED[1..][1..] == [];
  }

  lemma ExampleVerdicts()
    ensures Verdict(SAME, SHADOWED, ["a"]) == Some(Allow) && Verdict(SAME, SHADOWED, ["a", "b"]) == None
    ensures Verdict(SAME, SHADOWED[1..], ["a", "b"]) == Some(Deny)
  {
    ExampleMatches();
    hide FirstMatch, TrimSpace;
    assert "a" in ["a", "b"] && "b" in ["a", "b"];
  }

  lemma ExampleLists()
    ensures BashRulesFrom(SHADOWED, 0) == SHADOWED && BashRulesFrom(SHADOWED, 1) == SHADOWED[1..]
  {
    assert BashRulesFrom(SHADOWED, 2) == [];
  }

  lemma ExampleRulings()
    ensures Evaluate(SAME, SHADOWED, 0, Some(["a"])) == Some(Ruling(0, Allow))
    ensures Evaluate(SAME, SHADOWED, 0, Some(["a", "b"])) == Some(Ruling(1, Deny))
  {
    ExampleVerdicts();
    ExampleLists();
    hide Verdict, BashRulesFrom;
  }

  /** Alone the segment is allowed; beside one that no rule matches the command is denied. */
  lemma ShadowedDenyTakesEffect()
    ensures Evaluate(SAME, SHADOWED, 0, Some(Segments("a"))) == Some(Ruling(0, Allow))
    ensures Evaluate(SAME, SHADOWED, 0, Some(Segments("a;b"))) == Some(Ruling(1, Deny))
  {
    ExampleMatches();
    hide TrimSpace;
    PlainIsOneSegment("a");
    PlainsAreTwoSegments("a", ";", "b");
    assert "a" + ";" + "b" == "a;b";
    ExampleRulings();
    hide Segments, Evaluate;
  }
}
