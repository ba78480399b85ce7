/** The ways to write a word for the shell-like scanners, and that each gives the word back. */
module Spellings {
  import opened Scanners

  /** A piece of a word: as it stands, in single or in double quotes, or one character behind a backslash. */
  datatype Piece = Bare(text: string) | InSingle(text: string) | InDouble(text: string) | Escaped(ch: char)

  type Word = seq<Piece>

  predicate Ordinary(ch: char) {
    ch !in {' ', '\t', '\n', '\r', '\'', '"', '\\'}
  }

  predicate CanSpell(p: Piece) {
    match p
    case Bare(text) => text != "" && forall i :: 0 <= i < |text| ==> Ordinary(text[i])
    case InSingle(text) => '\'' !in text
    case InDouble(_) => true
    case Escaped(_) => true
  }

  /** Inside double quotes the quote and the backslash need a backslash. */
  function Shield(text: string): string {
    if text == "" then ""
    else
      var ch := text[|text| - 1];
      Shield(text[..|text| - 1]) + if ch == '"' || ch == '\\' then ['\\', ch] else [ch]
  }

  function Spell(p: Piece): string {
    match p
    case Bare(text) => text
    case InSingle(text) => ['\''] + text + ['\'']
    case InDouble(text) => ['"'] + Shield(text) + ['"']
    case Escaped(ch) => ['\\', ch]
  }

  function Meaning(p: Piece): string {
    match p
    case Bare(text) => text
    case InSingle(text) => text
    case InDouble(text) => text
    case Escaped(ch) => [ch]
  }

  function SpellWord(w: Word): string {
    if w == [] then "" else SpellWord(w[..|w| - 1]) + Spell(w[|w| - 1])
  }

  function MeaningOf(w: Word): string {
    if w == [] then "" else MeaningOf(w[..|w| - 1]) + Meaning(w[|w| - 1])
  }

  predicate GoodWord(w: Word) {
    w != [] && forall p :: p in w ==> CanSpell(p)
  }

  predicate Gap(text: string) {
    forall i :: 0 <= i < |text| ==> text[i] in {' ', '\t', '\n', '\r'}
  }

  /** Words with blanks around them: one gap before the first and one behind each. */
  function Line(words: seq<Word>, gaps: seq<string>): string
    requires |gaps| == |words| + 1
  {
    if words == [] then gaps[0]
    else
      var n := |words| - 1;
      Line(words[..n], gaps[..n + 1]) + SpellWord(words[n]) + gaps[n + 1]
  }

  predicate GoodLine(words: seq<Word>, gaps: seq<string>) {
    && |gaps| == |words| + 1
    && (forall i :: 0 <= i < |words| ==> GoodWord(words[i]))
    && (forall i :: 0 <= i < |gaps| ==> Gap(gaps[i]) && (0 < i < |gaps| - 1 ==> gaps[i] != ""))
  }

  function Meanings(words: seq<Word>): seq<string> {
    seq(|words|, i requires 0 <= i < |words| => MeaningOf(words[i]))
  }

  // ---- One piece ----

  lemma RunTwo(s: Scan, a: char, b: char)
    ensures Run(s, [a]) == Next(s, a) && Run(s, [a, b]) == Next(Next(s, a), b)
  {
    assert [a][..0] == "" && [a, b][..1] == [a];
    assert Run(s, "") == s;
    hide Next;
  }

  lemma {:induction false} OrdinaryAdds(s: Scan, text: string)
    requires s.quote == NoQuote && !s.escaped && s.inToken && forall i :: 0 <= i < |text| ==> Ordinary(text[i])
    ensures Run(s, text) == s.(current := s.current + text)
  {
    if text == "" {
      assert s.current + "" == s.current;
    } else {
      var front, ch := text[..|text| - 1], text[|text| - 1];
      OrdinaryAdds(s, front);
      assert s.current + text == (s.current + front) + [ch];
    }
  }

  lemma BareAdds(s: Scan, text: string)
    requires s.quote == NoQuote && !s.escaped && text != "" && forall i :: 0 <= i < |text| ==> Ordinary(text[i])
    ensures Run(s, text) == s.(current := s.current + text, inToken := true)
  {
    var first := [text[0]];
    RunTwo(s, text[0], text[0]);
    assert text == first + text[1..];
    RunJoins(s, first, text[1..]);
    OrdinaryAdds(Run(s, first), text[1..]);
    assert s.current + text == (s.current + first) + text[1..];
  }

  lemma {:induction false} SingleAdds(s: Scan, text: string)
    requires s.quote == Single && !s.escaped && s.inToken && '\'' !in text
    ensures Run(s, text) == s.(current := s.current + text)
  {
    if text == "" {
      assert s.current + "" == s.current;
    } else {
      var front, ch := text[..|text| - 1], text[|text| - 1];
      assert text == front + [ch];
      SingleAdds(s, front);
      assert s.current + text == (s.current + front) + [ch];
    }
  }

  lemma {:induction false} ShieldAdds(s: Scan, text: string)
    requires s.quote == Double && !s.escaped && s.inToken
    ensures Run(s, Shield(text)) == s.(current := s.current + text)
  {
    if text == "" {
      assert s.current + "" == s.current;
    } else {
      var front, ch := text[..|text| - 1], text[|text| - 1];
      ShieldAdds(s, front);
      var added := s.(current := s.current + front);
      RunTwo(added, '\\', ch);
      RunTwo(added, ch, ch);
      RunJoins(s, Shield(front), if ch == '"' || ch == '\\' then ['\\', ch] else [ch]);
      assert s.current + text == (s.current + front) + [ch];
    }
  }

  lemma PieceAdds(s: Scan, p: Piece)
    requires s.quote == NoQuote && !s.escaped && CanSpell(p)
    ensures Run(s, Spell(p)) == s.(current := s.current + Meaning(p), inToken := true)
  {
    match p
    case Bare(text) => BareAdds(s, text);
    case InSingle(text) =>
      var inside := s.(quote := Single, inToken := true);
      RunTwo(s, '\'', '\'');
      SingleAdds(inside, text);
      RunTwo(inside.(current := s.current + text), '\'', '\'');
      RunJoins(s, ['\''], text);
      RunJoins(s, ['\''] + text, ['\'']);
    case InDouble(text) =>
      var inside := s.(quote := Double, inToken := true);
      RunTwo(s, '"', '"');
      ShieldAdds(inside, text);
      RunTwo(inside.(current := s.current + text), '"', '"');
      RunJoins(s, ['"'], Shield(text));
      RunJoins(s, ['"'] + Shield(text), ['"']);
    case Escaped(ch) => RunTwo(s, '\\', ch);
  }

  lemma {:induction false} WordAdds(s: Scan, w: Word)
    requires s.quote == NoQuote && !s.escaped && GoodWord(w)
    ensures Run(s, SpellWord(w)) == s.(current := s.current + MeaningOf(w), inToken := true)
  {
    hide Spell, Meaning, CanSpell, Next;
    var front, p := w[..|w| - 1], w[|w| - 1];
    assert p in w;
    if front == [] {
      PieceAdds(s, p);
      assert SpellWord(w) == Spell(p) && MeaningOf(w) == Meaning(p) by {
        assert SpellWord([]) == "" && MeaningOf([]) == "";
        assert "" + Spell(p) == Spell(p) && "" + Meaning(p) == Meaning(p);
      }
    } else {
      WordAdds(s, front);
      var mid := s.(current := s.current + MeaningOf(front), inToken := true);
      PieceAdds(mid, p);
      RunJoins(s, SpellWord(front), Spell(p));
      assert s.current + MeaningOf(w) == (s.current + MeaningOf(front)) + Meaning(p);
    }
  }

  // ---- Gaps ----

  /** Blanks end the word before them and are otherwise passed over. */
  lemma {:induction false} GapEnds(s: Scan, gap: string)
    requires s.quote == NoQuote && !s.escaped && Gap(gap) && (!s.inToken ==> s.current == "")
    ensures Run(s, gap) ==
            if gap == "" || !s.inToken then s else s.(tokens := s.tokens + [s.current], current := "", inToken := false)
  {
    if gap != "" {
      var front := gap[..|gap| - 1];
      assert Gap(front) by { assert forall i :: 0 <= i < |front| ==> front[i] == gap[i]; }
      GapEnds(s, front);
      assert gap[|gap| - 1] in {' ', '\t', '\n', '\r'};
    }
  }

  // ---- A line of words ----

  lemma {:induction false} LineScan(words: seq<Word>, gaps: seq<string>)
    requires GoodLine(words, gaps)
    ensures Run(START, Line(words, gaps)) ==
            if words == [] || gaps[|words|] != "" then Scan(Meanings(words), "", false, NoQuote, false)
            else Scan(Meanings(words)[..|words| - 1], MeaningOf(words[|words| - 1]), true, NoQuote, false)
  {
    if words == [] {
      GapEnds(START, gaps[0]);
    } else {
      var n := |words| - 1;
      var front, before := words[..n], gaps[..n + 1];
      FrontIsGood(words, gaps);
      LineScan(front, before);
      hide Run, Gap, SpellWord, MeaningOf, GoodWord, Meanings, GoodLine;
      WordAndGap(Line(front, before), Meanings(front), words[n], gaps[n + 1]);
      MeaningsGrow(words);
      if n == 0 { assert front == []; }
    }
  }

  lemma MeaningsGrow(words: seq<Word>)
    requires words != []
    ensures Meanings(words) == Meanings(words[..|words| - 1]) + [MeaningOf(words[|words| - 1])]
    ensures Meanings(words)[..|words| - 1] == Meanings(words[..|words| - 1])
  {}

  /** One more word, and the gap behind it. */
  lemma WordAndGap(line: string, tokens: seq<string>, w: Word, gap: string)
    requires Run(START, line) == Scan(tokens, "", false, NoQuote, false) && GoodWord(w) && Gap(gap)
    ensures Run(START, line + SpellWord(w) + gap) ==
            if gap != "" then Scan(tokens + [MeaningOf(w)], "", false, NoQuote, false)
            else Scan(tokens, MeaningOf(w), true, NoQuote, false)
  {
    hide Run, Gap, SpellWord, MeaningOf, GoodWord;
    var s := Scan(tokens, "", false, NoQuote, false);
    WordAdds(s, w);
    assert "" + MeaningOf(w) == MeaningOf(w);
    GapEnds(Scan(tokens, MeaningOf(w), true, NoQuote, false), gap);
    RunJoins(START, line, SpellWord(w));
    RunJoins(START, line + SpellWord(w), gap);
  }

  lemma FrontIsGood(words: seq<Word>, gaps: seq<string>)
    requires GoodLine(words, gaps) && words != []
    ensures GoodLine(words[..|words| - 1], gaps[..|words|])
    ensures |words| > 1 ==> gaps[|words| - 1] != ""
    ensures GoodWord(words[|words| - 1]) && Gap(gaps[|words|])
  {
    hide GoodWord, Gap;
  }

  /**
   However its words are written, bare, in quotes of either kind, behind backslashes or in any
   mixture of these, and whatever blanks stand between them, a line gives back its words.
   */
  lemma SpellingRoundTrip(words: seq<Word>, gaps: seq<string>)
    requires GoodLine(words, gaps)
    ensures Run(START, Line(words, gaps)).quote == NoQuote && Tokens(Line(words, gaps)) == Meanings(words)
  {
    LineScan(words, gaps);
    hide GoodLine, Run, MeaningOf, Meanings, Line;
    if words != [] { MeaningsGrow(words); }
  }

  /** A backslash at the very end stands for itself. */
  lemma LastBackslashStays(s: Scan, w: Word)
    requires s.quote == NoQuote && !s.escaped && s.current == "" && GoodWord(w)
    ensures Finish(Run(s, SpellWord(w) + ['\\'])) == s.tokens + [MeaningOf(w) + ['\\']]
  {
    WordAdds(s, w);
    var t := s.(current := s.current + MeaningOf(w), inToken := true);
    RunJoins(s, SpellWord(w), ['\\']);
    RunTwo(t, '\\', '\\');
    assert "" + MeaningOf(w) == MeaningOf(w);
    hide Run, SpellWord, MeaningOf, GoodWord;
  }

  /** A quote that is opened behind good words and not closed stays open to the end. */
  lemma OpenQuoteStaysOpen(words: seq<Word>, gaps: seq<string>, rest: string)
    requires GoodLine(words, gaps)
    ensures '\'' !in rest ==> Run(START, Line(words, gaps) + ['\''] + rest).quote == Single
    ensures Run(START, Line(words, gaps) + ['"'] + Shield(rest)).quote == Double
  {
    SpellingRoundTrip(words, gaps);
    LineScan(words, gaps);
    hide GoodLine, Line, Meanings, MeaningOf;
    var s := Run(START, Line(words, gaps));
    RunTwo(s, '\'', '\'');
    RunTwo(s, '"', '"');
    RunJoins(START, Line(words, gaps), ['\'']);
    RunJoins(START, Line(words, gaps), ['"']);
    RunJoins(START, Line(words, gaps) + ['\''], rest);
    RunJoins(START, Line(words, gaps) + ['"'], Shield(rest));
    if '\'' !in rest { SingleAdds(s.(quote := Single, inToken := true), rest); }
    ShieldAdds(s.(quote := Double, inToken := true), rest);
  }
}
