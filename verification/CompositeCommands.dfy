/** Cutting a composite shell command at its operators. */
module CompositeCommands {
  import opened Text
  import opened Scanners

  function OperatorLength(input: string, index: nat): nat
    requires index < |input|
  {
    var ch, next := input[index], if index + 1 < |input| then input[index + 1] else '\0';
    if (ch == '&' && next == '&') || (ch == '|' && next == '|') then 2
    else if ch == ';' || ch == '|' then 1
    else 0
  }

  /** An operator that the scan of the whole command meets with no open quote and no pending escape. */
  ghost predicate Cuts(input: string, i: nat)
    requires i < |input|
  {
    var s := Run(START, input[..i]);
    s.quote == NoQuote && !s.escaped && OperatorLength(input, i) > 0
  }

  /** A stretch of the command and the length of the operator after it. */
  datatype Part = Part(from: nat, to: nat, op: nat)

  ghost predicate PartAt(input: string, p: Part) {
    && p.from <= p.to && p.to + p.op <= |input|
    && (forall j :: p.from <= j < p.to ==> !Cuts(input, j))
    && if p.op == 0 then p.to == |input| else Cuts(input, p.to) && p.op == OperatorLength(input, p.to)
  }

  /** The command from `start` on, cut at each operator met, left to right, and nowhere else. */
  ghost predicate CutUp(input: string, start: nat, parts: seq<Part>) {
    && parts != [] && parts[0].from == start
    && (forall k :: 0 <= k < |parts| ==> PartAt(input, parts[k]) && (parts[k].op == 0 <==> k == |parts| - 1))
    && (forall k :: 0 <= k < |parts| - 1 ==> parts[k + 1].from == parts[k].to + parts[k].op)
  }

  lemma {:induction false} CutUpIsUnique(input: string, start: nat, a: seq<Part>, b: seq<Part>)
    requires CutUp(input, start, a) && CutUp(input, start, b)
    ensures a == b
    decreases |a|
  {
    SamePart(input, a[0], b[0]);
    if a[0].op > 0 {
      CutUpRest(input, start, a);
      CutUpRest(input, start, b);
      CutUpIsUnique(input, a[0].to + a[0].op, a[1..], b[1..]);
      assert a == [a[0]] + a[1..] && b == [b[0]] + b[1..];
    }
  }

  /** The stretches from `start` on, when nothing cuts between there and `i`. */
  ghost function PartsFrom(input: string, start: nat, i: nat): seq<Part>
    requires start <= i <= |input|
    decreases |input| - i
  {
    if i == |input| then [Part(start, i, 0)]
    else if Cuts(input, i) then
      OperatorKeepsMode(input, i);
      var op := OperatorLength(input, i);
      [Part(start, i, op)] + PartsFrom(input, i + op, i + op)
    else PartsFrom(input, start, i + 1)
  }

  ghost function Parts(input: string): seq<Part> {
    PartsFrom(input, 0, 0)
  }

  lemma {:induction false} PartsCutUp(input: string, start: nat, i: nat)
    requires start <= i <= |input| && forall j :: start <= j < i ==> !Cuts(input, j)
    ensures CutUp(input, start, PartsFrom(input, start, i))
    decreases |input| - i
  {
    hide Cuts;
    if i < |input| {
      if Cuts(input, i) {
        OperatorKeepsMode(input, i);
        var op := OperatorLength(input, i);
        PartsCutUp(input, i + op, i + op);
        CutUpFirst(input, Part(start, i, op), PartsFrom(input, i + op, i + op));
      } else {
        PartsCutUp(input, start, i + 1);
      }
    }
  }

  lemma PartsAreCutUp(input: string)
    ensures CutUp(input, 0, Parts(input))
  {
    PartsCutUp(input, 0, 0);
  }

  lemma CutUpFirst(input: string, p: Part, rest: seq<Part>)
    requires PartAt(input, p) && p.op > 0 && CutUp(input, p.to + p.op, rest)
    ensures CutUp(input, p.from, [p] + rest)
  {
    hide PartAt;
  }

  lemma SamePart(input: string, p: Part, q: Part)
    requires PartAt(input, p) && PartAt(input, q) && p.from == q.from
    ensures p == q
  {}

  lemma CutUpRest(input: string, start: nat, parts: seq<Part>)
    requires CutUp(input, start, parts) && parts[0].op > 0
    ensures CutUp(input, parts[0].to + parts[0].op, parts[1..])
  {
    forall k | 0 <= k < |parts[1..]|
      ensures PartAt(input, parts[1..][k]) && (parts[1..][k].op == 0 <==> k == |parts[1..]| - 1)
    {
      assert parts[1..][k] == parts[k + 1];
    }
  }

  predicate Inside(input: string, p: Part) {
    p.from <= p.to && p.to + p.op <= |input|
  }

  /** The stretches and the operators between them, put together again. */
  function Glued(input: string, parts: seq<Part>): string {
    if parts == [] || !Inside(input, parts[0]) then ""
    else
      var p := parts[0];
      input[p.from..p.to] + input[p.to..p.to + p.op] + Glued(input, parts[1..])
  }

  lemma FirstPart(input: string, start: nat, parts: seq<Part>)
    requires CutUp(input, start, parts)
    ensures parts != [] && Inside(input, parts[0]) && parts[0].from == start
    ensures if parts[0].op == 0 then parts[1..] == [] && parts[0].to == |input|
            else CutUp(input, parts[0].to + parts[0].op, parts[1..])
  {
    assert PartAt(input, parts[0]);
    if parts[0].op > 0 { CutUpRest(input, start, parts); }
  }

  /** Three neighbouring slices are one. */
  lemma SlicesJoin(input: string, a: nat, b: nat, c: nat)
    requires a <= b <= c <= |input|
    ensures input[a..b] + input[b..c] + input[c..] == input[a..]
  {}

  lemma GluedFirst(input: string, parts: seq<Part>)
    requires parts != [] && Inside(input, parts[0])
    ensures var p := parts[0];
            Glued(input, parts) == input[p.from..p.to] + input[p.to..p.to + p.op] + Glued(input, parts[1..])
  {}

  lemma {:induction false} PartsRebuild(input: string, start: nat, parts: seq<Part>)
    requires CutUp(input, start, parts)
    ensures start <= |input| && Glued(input, parts) == input[start..]
    decreases |parts|
  {
    hide *;
    FirstPart(input, start, parts);
    InsideBounds(input, parts[0]);
    GluedFirst(input, parts);
    var p := parts[0];
    SlicesJoin(input, start, p.to, p.to + p.op);
    if p.op > 0 {
      PartsRebuild(input, p.to + p.op, parts[1..]);
    } else {
      GluedNothing(input);
      assert input[|input|..] == "";
    }
  }

  lemma InsideBounds(input: string, p: Part)
    requires Inside(input, p)
    ensures p.from <= p.to <= p.to + p.op <= |input|
  {}

  lemma GluedNothing(input: string)
    ensures Glued(input, []) == ""
  {}

  /** The texts of the stretches, in order. */
  function Stretches(input: string, parts: seq<Part>): seq<string> {
    if parts == [] then []
    else
      var p := parts[|parts| - 1];
      Stretches(input, parts[..|parts| - 1]) + [if p.from <= p.to <= |input| then input[p.from..p.to] else ""]
  }

  function NotBlank(stretches: seq<string>): seq<string> {
    if stretches == [] then []
    else
      var last := stretches[|stretches| - 1];
      NotBlank(stretches[..|stretches| - 1]) + if Blank(last) then [] else [last]
  }

  /** The segments of a command: its stretches between operators that are not blank. */
  ghost function Segments(input: string): seq<string> {
    NotBlank(Stretches(input, Parts(input)))
  }

  /** The parts cut off before `start`, and nothing to cut from there up to `i`. */
  ghost predicate CutSoFar(input: string, start: nat, i: nat, parts: seq<Part>) {
    && start <= i <= |input|
    && (forall k :: 0 <= k < |parts| ==> PartAt(input, parts[k]) && parts[k].op > 0)
    && (forall k :: 0 <= k < |parts| - 1 ==> parts[k + 1].from == parts[k].to + parts[k].op)
    && (parts == [] ==> start == 0)
    && (parts != [] ==> parts[0].from == 0 && start == parts[|parts| - 1].to + parts[|parts| - 1].op)
    && (forall j :: start <= j < i ==> !Cuts(input, j))
  }

  lemma CutHere(input: string, start: nat, i: nat, parts: seq<Part>)
    requires CutSoFar(input, start, i, parts) && i < |input| && Cuts(input, i)
    ensures var p := Part(start, i, OperatorLength(input, i));
            i + p.op <= |input| && CutSoFar(input, i + p.op, i + p.op, parts + [p])
  {
    var p := Part(start, i, OperatorLength(input, i));
    assert p.op > 0;
    hide Cuts;
    assert PartAt(input, p);
  }

  lemma NoCutHere(input: string, start: nat, i: nat, parts: seq<Part>)
    requires CutSoFar(input, start, i, parts) && i < |input| && !Cuts(input, i)
    ensures CutSoFar(input, start, i + 1, parts)
  {
    hide Cuts, PartAt;
  }

  lemma CutDone(input: string, start: nat, parts: seq<Part>)
    requires CutSoFar(input, start, |input|, parts)
    ensures CutUp(input, 0, parts + [Part(start, |input|, 0)])
  {
    hide Cuts;
  }

  /** An operator leaves the scanner as it was: no quote opens in it and no escape begins. */
  lemma OperatorKeepsMode(input: string, i: nat)
    requires i < |input| && Cuts(input, i)
    ensures var n := OperatorLength(input, i);
            && n > 0 && i + n <= |input|
            && Run(START, input[..i + n]).quote == NoQuote && !Run(START, input[..i + n]).escaped
  {
    RunOne(START, input, i);
    if OperatorLength(input, i) == 2 { RunOne(START, input, i + 1); }
  }

  lemma StretchAdded(input: string, parts: seq<Part>, p: Part)
    requires p.from <= p.to <= |input|
    ensures Stretches(input, parts + [p]) == Stretches(input, parts) + [input[p.from..p.to]]
  {
    assert (parts + [p])[..|parts|] == parts;
  }

  /** The scan up to `i` ends in this quoting. */
  ghost predicate Stands(input: string, i: nat, quote: Quote, escaped: bool) {
    i <= |input| && Run(START, input[..i]).quote == quote && Run(START, input[..i]).escaped == escaped
  }

  /** How one character changes the quoting, and when it is an operator to cut at. */
  lemma ModeOn(input: string, i: nat, quote: Quote, escaped: bool)
    requires i < |input| && Stands(input, i, quote, escaped)
    ensures var ch := input[i];
            if escaped then Stands(input, i + 1, quote, false)
            else if quote != Single && ch == '\\' then Stands(input, i + 1, quote, true)
            else if quote != NoQuote then Stands(input, i + 1, if QuoteOf(ch) == quote then NoQuote else quote, false)
            else Stands(input, i + 1, QuoteOf(ch), false)
    ensures Cuts(input, i) <==> quote == NoQuote && !escaped && OperatorLength(input, i) > 0
    ensures OperatorLength(input, i) > 0 ==> input[i] != '\\' && QuoteOf(input[i]) == NoQuote
    ensures QuoteOf(input[i]) != NoQuote <==> input[i] == '\'' || input[i] == '"'
    ensures Cuts(input, i) ==> Stands(input, i + OperatorLength(input, i), NoQuote, false)
  {
    RunOne(START, input, i);
    if Cuts(input, i) { OperatorKeepsMode(input, i); }
  }

  /** Cuts left to right while it scans, then drops the blank stretches. */
  method SplitCompositeCommand(input: string) returns (segments: seq<string>)
    ensures segments == Segments(input)
  {
    var stretches := CutAtOperators(input);
    segments := [];
    for k := 0 to |stretches|
      invariant segments == NotBlank(stretches[..k])
    {
      assert stretches[..k + 1][..k] == stretches[..k];
      if TrimSpace(stretches[k]) != "" { segments := segments + [stretches[k]]; }
    }
    assert stretches[..|stretches|] == stretches;
  }

  /** One character, or one operator that cuts. */
  method TakeCharacter(input: string, start0: nat, i0: nat, quote0: Quote, escaped0: bool,
                       ghost parts0: seq<Part>, stretches0: seq<string>)
      returns (start: nat, i: nat, quote: Quote, escaped: bool, ghost parts: seq<Part>, stretches: seq<string>)
    requires start0 <= i0 < |input| && Scanning(input, start0, i0, quote0, escaped0, parts0, stretches0)
    ensures start <= i <= |input| && i0 < i && Scanning(input, start, i, quote, escaped, parts, stretches)
  {
    ScanOn(input, start0, i0, quote0, escaped0, parts0, stretches0);
    hide *;
    start, i, quote, escaped, parts, stretches := start0, i0, quote0, escaped0, parts0, stretches0;
    var ch := input[i];
    if escaped {
      escaped := false;
    } else if quote != Single && ch == '\\' {
      escaped := true;
    } else if quote != NoQuote {
      if QuoteOf(ch) == quote { quote := NoQuote; }
    } else if ch == '\'' || ch == '"' {
      quote := QuoteOf(ch);
    } else {
      var operatorLength := OperatorLength(input, i);
      if operatorLength > 0 {
        stretches := stretches + [input[start..i]];
        parts := parts + [Part(start, i, operatorLength)];
        i := i + (operatorLength - 1);
        start := i + 1;
      }
    }
    i := i + 1;
  }

  method CutAtOperators(input: string) returns (stretches: seq<string>)
    ensures CutUp(input, 0, Parts(input)) && stretches == Stretches(input, Parts(input))
  {
    ghost var parts: seq<Part> := [];
    stretches := [];
    var start: nat := 0;
    var quote := NoQuote;
    var escaped := false;
    var i := 0;
    assert Scanning(input, start, i, quote, escaped, parts, stretches);
    hide *;
    while i < |input|
      invariant start <= i <= |input| && Scanning(input, start, i, quote, escaped, parts, stretches)
    {
      start, i, quote, escaped, parts, stretches := TakeCharacter(input, start, i, quote, escaped, parts, stretches);
    }
    ScanDone(input, start, quote, escaped, parts, stretches);
    stretches := stretches + [input[start..]];
    parts := parts + [Part(start, |input|, 0)];
    PartsAreCutUp(input);
    CutUpIsUnique(input, 0, parts, Parts(input));
  }

  ghost predicate Progress(input: string, start: nat, i: nat, parts: seq<Part>, stretches: seq<string>) {
    CutSoFar(input, start, i, parts) && stretches == Stretches(input, parts)
  }

  /** One position further: past an operator that cuts, or within the same stretch. */
  lemma ProgressOn(input: string, start: nat, i: nat, parts: seq<Part>, stretches: seq<string>)
    requires start <= i < |input| && Progress(input, start, i, parts, stretches)
    ensures !Cuts(input, i) ==> Progress(input, start, i + 1, parts, stretches)
    ensures Cuts(input, i) ==>
              var op := OperatorLength(input, i);
              i + op <= |input| && Progress(input, i + op, i + op, parts + [Part(start, i, op)], stretches + [input[start..i]])
  {
    hide Cuts, OperatorLength, PartAt;
    if Cuts(input, i) {
      CutHere(input, start, i, parts);
      StretchAdded(input, parts, Part(start, i, OperatorLength(input, i)));
    } else {
      NoCutHere(input, start, i, parts);
    }
  }

  ghost predicate Scanning(input: string, start: nat, i: nat, quote: Quote, escaped: bool,
                           parts: seq<Part>, stretches: seq<string>)
  {
    start <= i <= |input| && Stands(input, i, quote, escaped) && Progress(input, start, i, parts, stretches)
  }

  /** The five ways in which the scan goes on. */
  lemma ScanOn(input: string, start: nat, i: nat, quote: Quote, escaped: bool, parts: seq<Part>, stretches: seq<string>)
    requires start <= i < |input| && Scanning(input, start, i, quote, escaped, parts, stretches)
    ensures var ch, op := input[i], OperatorLength(input, i);
            if escaped then Scanning(input, start, i + 1, quote, false, parts, stretches)
            else if quote != Single && ch == '\\' then Scanning(input, start, i + 1, quote, true, parts, stretches)
            else if quote != NoQuote then
              Scanning(input, start, i + 1, if QuoteOf(ch) == quote then NoQuote else quote, false, parts, stretches)
            else if ch == '\'' || ch == '"' then Scanning(input, start, i + 1, QuoteOf(ch), false, parts, stretches)
            else if op > 0 then
              i + op <= |input|
              && Scanning(input, i + op, i + op, NoQuote, false, parts + [Part(start, i, op)], stretches + [input[start..i]])
            else Scanning(input, start, i + 1, NoQuote, false, parts, stretches)
  {
    hide Progress, Stands, Cuts, OperatorLength;
    ModeOn(input, i, quote, escaped);
    ProgressOn(input, start, i, parts, stretches);
  }

  lemma ScanDone(input: string, start: nat, quote: Quote, escaped: bool, parts: seq<Part>, stretches: seq<string>)
    requires start <= |input| && Scanning(input, start, |input|, quote, escaped, parts, stretches)
    ensures CutUp(input, 0, parts + [Part(start, |input|, 0)])
    ensures stretches + [input[start..]] == Stretches(input, parts + [Part(start, |input|, 0)])
  {
    CutDone(input, start, parts);
    StretchAdded(input, parts, Part(start, |input|, 0));
    assert input[start..] == input[start..|input|];
  }

  // ---- What the operators are ----

  const LONG_OPERATORS: set<string> := {"&&", "||"}
  const SHORT_OPERATORS: set<string> := {";", "|"}

  predicate StandsAt(input: string, i: nat, text: string) {
    i + |text| <= |input| && input[i..i + |text|] == text
  }

  /** No quote is open at this position and no escape is pending. */
  ghost predicate InTheOpen(input: string, i: nat) {
    i < |input| && Run(START, input[..i]).quote == NoQuote && !Run(START, input[..i]).escaped
  }

  /** This operator begins here: two ampersands or two bars, or else a semicolon or a bar. */
  predicate OperatorAt(input: string, i: nat, text: string) {
    && StandsAt(input, i, text)
    && (text in LONG_OPERATORS
        || (text in SHORT_OPERATORS && forall long :: long in LONG_OPERATORS ==> !StandsAt(input, i, long)))
  }

  lemma CutsIff(input: string, i: nat)
    requires i < |input|
    ensures Cuts(input, i) <==> InTheOpen(input, i) && exists text :: OperatorAt(input, i, text)
    ensures forall text :: OperatorAt(input, i, text) ==> |text| == OperatorLength(input, i)
  {
    hide Run;
    LettersOf(input, i);
    var op := OperatorLength(input, i);
    if op > 0 { assert OperatorAt(input, i, input[i..i + op]); }
  }

  /** Which texts stand at a position, by their characters. */
  lemma LettersOf(input: string, i: nat)
    requires i < |input|
    ensures StandsAt(input, i, "&&") <==> i + 1 < |input| && input[i] == '&' && input[i + 1] == '&'
    ensures StandsAt(input, i, "||") <==> i + 1 < |input| && input[i] == '|' && input[i + 1] == '|'
    ensures StandsAt(input, i, ";") <==> input[i] == ';'
    ensures StandsAt(input, i, "|") <==> input[i] == '|'
  {
    assert i + 1 < |input| ==> input[i..i + 2] == [input[i], input[i + 1]];
    assert input[i..i + 1] == [input[i]];
  }

  /**
   The command is cut at each of "&&", "||", ";" and "|" that stands in the open, the longer
   ones first, at no other character and nowhere inside quotes: every part but the last ends at
   such an operator and goes on behind it, and none holds one.
   */
  lemma PartsEndAtOperators(input: string)
    ensures var parts := Parts(input);
            && parts != [] && parts[0].from == 0 && parts[|parts| - 1].to == |input| && parts[|parts| - 1].op == 0
            && (forall k :: 0 <= k < |parts| ==>
                  parts[k].from <= parts[k].to <= parts[k].to + parts[k].op <= |input|)
            && (forall k :: 0 <= k < |parts| - 1 ==>
                  && InTheOpen(input, parts[k].to)
                  && OperatorAt(input, parts[k].to, input[parts[k].to..parts[k].to + parts[k].op])
                  && parts[k + 1].from == parts[k].to + parts[k].op)
            && (forall k, j, text :: 0 <= k < |parts| && parts[k].from <= j < parts[k].to && InTheOpen(input, j) ==>
                  !OperatorAt(input, j, text))
  {
    PartsAreCutUp(input);
    var parts := Parts(input);
    hide Parts, Cuts, InTheOpen, OperatorAt, OperatorLength;
    forall k | 0 <= k < |parts|
      ensures parts[k].from <= parts[k].to <= parts[k].to + parts[k].op <= |input|
      ensures k < |parts| - 1 ==>
                && InTheOpen(input, parts[k].to)
                && OperatorAt(input, parts[k].to, input[parts[k].to..parts[k].to + parts[k].op])
      ensures k == |parts| - 1 ==> parts[k].to == |input| && parts[k].op == 0
      ensures forall j, text :: parts[k].from <= j < parts[k].to && InTheOpen(input, j) ==> !OperatorAt(input, j, text)
    {
      assert PartAt(input, parts[k]);
      PartEnds(input, parts[k]);
    }
  }

  lemma PartEnds(input: string, p: Part)
    requires PartAt(input, p)
    ensures p.from <= p.to <= p.to + p.op <= |input|
    ensures p.op > 0 ==> InTheOpen(input, p.to) && OperatorAt(input, p.to, input[p.to..p.to + p.op])
    ensures forall j, text :: p.from <= j < p.to && InTheOpen(input, j) ==> !OperatorAt(input, j, text)
  {
    hide Cuts, InTheOpen, OperatorLength, OperatorAt;
    forall j | p.from <= j < p.to
      ensures InTheOpen(input, j) ==> forall text :: !OperatorAt(input, j, text)
    {
      CutsIff(input, j);
    }
    if p.op > 0 {
      CutsIff(input, p.to);
      var text :| OperatorAt(input, p.to, text);
      OperatorStands(input, p.to, text);
    }
  }

  lemma OperatorStands(input: string, i: nat, text: string)
    requires OperatorAt(input, i, text)
    ensures i + |text| <= |input| && input[i..i + |text|] == text
  {}

  // ---- A quoted command line is one command ----

  /** No token of a quoted command line can end the command, whatever characters it holds. */
  lemma QuotedCommandIsOnePart(tokens: seq<string>)
    ensures Parts(CommandLine(tokens)) == [Part(0, |CommandLine(tokens)|, 0)]
  {
    var line := CommandLine(tokens);
    CommandLineScan(tokens);
    forall j | 0 <= j < |line| ensures !Cuts(line, j) {
      assert IsOperatorChar(line[j]) ==> Run(START, line[..j]).quote != NoQuote || Run(START, line[..j]).escaped;
    }
    PartsAreCutUp(line);
    CutUpIsUnique(line, 0, Parts(line), [Part(0, |line|, 0)]);
  }
}
