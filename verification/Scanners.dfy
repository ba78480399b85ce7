/**
 The hand-written scanners of shell-like text: the argument splitter of skills, the tokenizer
 of permission rules and the splitter of composite commands. All three share one quoting
 discipline: single quotes keep everything, a backslash elsewhere keeps the next character.
 */
module Scanners {
  import opened Results
  import opened Text

  datatype Quote = NoQuote | Single | Double

  /** Where a scan stands: the tokens done, the one being read, and how the next character is quoted. */
  datatype Scan = Scan(tokens: seq<string>, current: string, inToken: bool, quote: Quote, escaped: bool)

  const START := Scan([], "", false, NoQuote, false)

  predicate IsBlank(ch: char) {
    ch == ' ' || ch == '\t' || ch == '\n' || ch == '\r'
  }

  function QuoteOf(ch: char): Quote {
    if ch == '\'' then Single else if ch == '"' then Double else NoQuote
  }

  function Next(s: Scan, ch: char): Scan {
    if s.escaped then s.(current := s.current + [ch], inToken := true, escaped := false)
    else if s.quote != Single && ch == '\\' then s.(escaped := true, inToken := true)
    else if s.quote != NoQuote then
      if QuoteOf(ch) == s.quote then s.(quote := NoQuote, inToken := true)
      else s.(current := s.current + [ch], inToken := true)
    else if QuoteOf(ch) != NoQuote then s.(quote := QuoteOf(ch), inToken := true)
    else if IsBlank(ch) then
      if s.inToken then s.(tokens := s.tokens + [s.current], current := "", inToken := false) else s
    else s.(current := s.current + [ch], inToken := true)
  }

  function Run(s: Scan, input: string): Scan {
    if input == "" then s else Next(Run(s, input[..|input| - 1]), input[|input| - 1])
  }

  /** The tokens of a scan that ends here; a backslash with nothing after it stands for itself. */
  function Finish(s: Scan): seq<string> {
    if !s.inToken then s.tokens
    else s.tokens + [if s.escaped then s.current + ['\\'] else s.current]
  }

  function Tokens(input: string): seq<string> {
    Finish(Run(START, input))
  }

  lemma {:induction false} RunJoins(s: Scan, a: string, b: string)
    ensures Run(s, a + b) == Run(Run(s, a), b)
  {
    if b == "" {
      assert a + b == a;
    } else {
      assert (a + b)[..|a + b| - 1] == a + b[..|b| - 1];
      RunJoins(s, a, b[..|b| - 1]);
    }
  }

  lemma RunOne(s: Scan, input: string, i: nat)
    requires i < |input|
    ensures Run(s, input[..i + 1]) == Next(Run(s, input[..i]), input[i])
  {
    assert input[..i + 1][..i] == input[..i];
  }

  /** A backslash outside single quotes and the character after it, taken together. */
  lemma EscapedPair(input: string, i: nat)
    requires i + 1 < |input| && input[i] == '\\'
    requires var s := Run(START, input[..i]); !s.escaped && s.quote != Single
    ensures var s := Run(START, input[..i]);
            Run(START, input[..i + 2]) == s.(current := s.current + [input[i + 1]], inToken := true)
  {
    RunOne(START, input, i);
    RunOne(START, input, i + 1);
  }

  // ---- The three scanners ----

  /** The argument splitter: the tokens, unless the text ends inside a quote. */
  method SplitArguments(input: string) returns (args: Option<seq<string>>)
    ensures args == if Run(START, input).quote != NoQuote then None else Some(Tokens(input))
  {
    var done: seq<string> := [];
    var current := "";
    var quote := NoQuote;
    var inToken := false;
    var escaped := false;
    for i := 0 to |input|
      invariant escaped ==> inToken
      invariant Run(START, input[..i]) == Scan(done, current, inToken, quote, escaped)
    {
      RunOne(START, input, i);
      var ch := input[i];
      if escaped {
        current := current + [ch];
        inToken := true;
        escaped := false;
        continue;
      }
      if quote != Single && ch == '\\' {
        escaped := true;
        inToken := true;
        continue;
      }
      if quote != NoQuote {
        if QuoteOf(ch) == quote { quote := NoQuote; } else { current := current + [ch]; }
        inToken := true;
        continue;
      }
      if ch == '\'' || ch == '"' {
        quote := QuoteOf(ch);
        inToken := true;
      } else if IsBlank(ch) {
        if inToken {
          done := done + [current];
          current := "";
          inToken := false;
        }
      } else {
        current := current + [ch];
        inToken := true;
      }
    }
    assert input[..|input|] == input;
    if escaped { current := current + ['\\']; }
    if quote != NoQuote { return None; }
    if inToken { done := done + [current]; }
    args := Some(done);
  }

  /** The tokenizer of permission rules never fails; it reads an escaped character together with its backslash. */
  method TokenizeShellPrefix(input: string) returns (tokens: seq<string>)
    ensures tokens == Tokens(input)
  {
    tokens := [];
    var current := "";
    var quote := NoQuote;
    var inToken := false;
    ghost var tail := false;
    var i := 0;
    assert Run(START, input[..0]) == START;
    hide Run;
    while i < |input|
      invariant i <= |input| && (tail ==> i == |input|) && (quote != NoQuote ==> inToken)
      invariant !tail ==> Run(START, input[..i]) == Scan(tokens, current, inToken, quote, false)
      invariant tail ==> inToken && |current| > 0 && current[|current| - 1] == '\\'
                         && Run(START, input) == Scan(tokens, current[..|current| - 1], true, quote, true)
    {
      RunOne(START, input, i);
      assert i + 1 == |input| ==> input[..i + 1] == input;
      var ch := input[i];
      if quote == Single {
        if ch == '\'' { quote := NoQuote; } else { current := current + [ch]; }
        i := i + 1;
        continue;
      }
      if quote == Double {
        if ch == '"' {
          quote := NoQuote;
        } else if ch == '\\' && i + 1 < |input| {
          EscapedPair(input, i);
          i := i + 1;
          current := current + [input[i]];
        } else {
          tail := ch == '\\';
          current := current + [ch];
        }
        i := i + 1;
        continue;
      }
      if IsBlank(ch) {
        if inToken {
          tokens := tokens + [current];
          current := "";
          inToken := false;
        }
        i := i + 1;
        continue;
      }
      inToken := true;
      if ch == '\'' || ch == '"' {
        quote := QuoteOf(ch);
      } else if ch == '\\' && i + 1 < |input| {
        EscapedPair(input, i);
        i := i + 1;
        current := current + [input[i]];
      } else {
        tail := ch == '\\';
        current := current + [ch];
      }
      i := i + 1;
    }
    assert input[..i] == input;
    assert tail ==> current == current[..|current| - 1] + ['\\'];
    if inToken { tokens := tokens + [current]; }
  }

  /** Both scanners on one text: where the argument splitter succeeds, the tokenizer finds the same tokens. */
  method ScanBothWays(input: string) returns (args: Option<seq<string>>, tokens: seq<string>)
    ensures args.Some? ==> args.value == tokens
    ensures args.None? <==> Run(START, input).quote != NoQuote
  {
    args := SplitArguments(input);
    tokens := TokenizeShellPrefix(input);
  }

  // ---- Quoting and back ----

  /** A character inside single quotes; a single quote closes them, is escaped, and reopens them. */
  function Guarded(ch: char): string {
    if ch == '\'' then ['\'', '\\', '\'', '\''] else [ch]
  }

  function GuardedText(token: string): string {
    if token == "" then "" else GuardedText(token[..|token| - 1]) + Guarded(token[|token| - 1])
  }

  function Quoted(token: string): string {
    ['\''] + GuardedText(token) + ['\'']
  }

  function CommandLine(tokens: seq<string>): string {
    if tokens == [] then ""
    else
      var front := tokens[..|tokens| - 1];
      CommandLine(front) + (if front == [] then "" else " ") + Quoted(tokens[|tokens| - 1])
  }

  predicate IsOperatorChar(ch: char) {
    ch == '&' || ch == '|' || ch == ';'
  }

  /** No operator character of the text would be read as an operator by a scan that starts here. */
  ghost predicate Shielded(s: Scan, text: string) {
    forall j :: 0 <= j < |text| && IsOperatorChar(text[j]) ==>
      Run(s, text[..j]).quote != NoQuote || Run(s, text[..j]).escaped
  }

  lemma ShieldedJoins(s: Scan, a: string, b: string)
    requires Shielded(s, a) && Shielded(Run(s, a), b)
    ensures Shielded(s, a + b)
  {
    forall j | 0 <= j < |a + b| && IsOperatorChar((a + b)[j])
      ensures Run(s, (a + b)[..j]).quote != NoQuote || Run(s, (a + b)[..j]).escaped
    {
      if j < |a| {
        assert (a + b)[..j] == a[..j];
      } else {
        assert (a + b)[..j] == a + b[..j - |a|];
        RunJoins(s, a, b[..j - |a|]);
      }
    }
  }

  lemma OneCharacter(s: Scan, ch: char)
    requires s.quote != NoQuote || s.escaped || !IsOperatorChar(ch)
    ensures Run(s, [ch]) == Next(s, ch) && Shielded(s, [ch])
  {
    assert [ch][..0] == "";
    assert Run(s, "") == s;
  }

  /** Inside single quotes, a guarded character adds just that character. */
  lemma GuardedAdds(s: Scan, ch: char)
    requires s.quote == Single && !s.escaped && s.inToken
    ensures Run(s, Guarded(ch)) == s.(current := s.current + [ch]) && Shielded(s, Guarded(ch))
  {
    OneCharacter(s, ch);
    if ch == '\'' {
      var open := s.(quote := NoQuote);
      var escaped := open.(escaped := true);
      var added := open.(current := s.current + [ch]);
      OneCharacter(open, '\\');
      OneCharacter(escaped, '\'');
      OneCharacter(added, '\'');
      ShieldedJoins(added, "", ['\'']);
      RunJoins(s, ['\''], ['\\']);
      ShieldedJoins(s, ['\''], ['\\']);
      assert ['\''] + ['\\'] == ['\'', '\\'];
      RunJoins(s, ['\'', '\\'], ['\'']);
      ShieldedJoins(s, ['\'', '\\'], ['\'']);
      assert ['\'', '\\'] + ['\''] == ['\'', '\\', '\''];
      RunJoins(s, ['\'', '\\', '\''], ['\'']);
      ShieldedJoins(s, ['\'', '\\', '\''], ['\'']);
      assert ['\'', '\\', '\''] + ['\''] == Guarded(ch);
    }
  }

  lemma {:induction false} GuardedTextAdds(s: Scan, token: string)
    requires s.quote == Single && !s.escaped && s.inToken && s.current == ""
    ensures Run(s, GuardedText(token)) == s.(current := token) && Shielded(s, GuardedText(token))
  {
    if token == "" {
      assert s.(current := "") == s;
    } else {
      var front, ch := token[..|token| - 1], token[|token| - 1];
      assert front + [ch] == token && GuardedText(token) == GuardedText(front) + Guarded(ch);
      hide *;
      GuardedTextAdds(s, front);
      GuardedAdds(s.(current := front), ch);
      RunJoins(s, GuardedText(front), Guarded(ch));
      ShieldedJoins(s, GuardedText(front), Guarded(ch));
    }
  }

  lemma QuotedAdds(s: Scan, token: string)
    requires s.quote == NoQuote && !s.escaped && s.current == ""
    ensures Run(s, Quoted(token)) == s.(current := token, inToken := true) && Shielded(s, Quoted(token))
  {
    var inside := s.(quote := Single, inToken := true);
    OneCharacter(s, '\'');
    GuardedTextAdds(inside, token);
    OneCharacter(inside.(current := token), '\'');
    RunJoins(s, ['\''], GuardedText(token));
    ShieldedJoins(s, ['\''], GuardedText(token));
    RunJoins(s, ['\''] + GuardedText(token), ['\'']);
    ShieldedJoins(s, ['\''] + GuardedText(token), ['\'']);
  }

  lemma {:induction false} CommandLineScan(tokens: seq<string>)
    ensures Shielded(START, CommandLine(tokens))
    ensures Run(START, CommandLine(tokens)) ==
            if tokens == [] then START
            else Scan(tokens[..|tokens| - 1], tokens[|tokens| - 1], true, NoQuote, false)
  {
    if tokens != [] {
      var front, last := tokens[..|tokens| - 1], tokens[|tokens| - 1];
      CommandLineScan(front);
      if front == [] {
        QuotedAdds(START, last);
        assert CommandLine(front) + "" + Quoted(last) == Quoted(last);
      } else {
        NextToken(CommandLine(front), front, last);
        assert CommandLine(tokens) == CommandLine(front) + " " + Quoted(last);
      }
    }
  }

  /** A blank ends the token being read, and the quoted text after it is the next one. */
  lemma NextToken(line: string, tokens: seq<string>, token: string)
    requires Shielded(START, line) && tokens != []
    requires Run(START, line) == Scan(tokens[..|tokens| - 1], tokens[|tokens| - 1], true, NoQuote, false)
    ensures Shielded(START, line + " " + Quoted(token))
    ensures Run(START, line + " " + Quoted(token)) == Scan(tokens, token, true, NoQuote, false)
  {
    var s, t := Run(START, line), Scan(tokens, "", false, NoQuote, false);
    OneCharacter(s, ' ');
    assert tokens[..|tokens| - 1] + [tokens[|tokens| - 1]] == tokens;
    assert Next(s, ' ') == t;
    hide *;
    RunJoins(START, line, " ");
    ShieldedJoins(START, line, " ");
    QuotedAdds(t, token);
    RunJoins(START, line + " ", Quoted(token));
    ShieldedJoins(START, line + " ", Quoted(token));
  }

  /** Quoting any tokens and splitting the line gives the tokens back. */
  lemma QuotingRoundTrip(tokens: seq<string>)
    ensures Run(START, CommandLine(tokens)).quote == NoQuote && Tokens(CommandLine(tokens)) == tokens
  {
    CommandLineScan(tokens);
    if tokens != [] { assert tokens[..|tokens| - 1] + [tokens[|tokens| - 1]] == tokens; }
  }
}
