/** What stands in a compacted history: the summary's text, which skills are replayed; and when compaction is due. */
module CompactionContent {
  import opened Results
  import opened Text
  import opened Compaction
  import opened SessionHistory

  // ---- Trimming twice ----

  lemma {:induction false} TrimLeftStart(s: string)
    ensures TrimLeft(s) != "" ==> !IsSpace(TrimLeft(s)[0])
  {
    if s != "" && IsSpace(s[0]) { TrimLeftStart(s[1..]); }
  }

  lemma {:induction false} TrimRightEnd(s: string)
    ensures TrimRight(s) <= s && (TrimRight(s) != "" ==> !IsSpace(TrimRight(s)[|TrimRight(s)| - 1]))
  {
    if s != "" && IsSpace(s[|s| - 1]) {
      TrimRightEnd(s[..|s| - 1]);
      assert s[..|s| - 1] <= s;
    }
  }

  lemma TrimTwice(s: string)
    ensures TrimSpace(TrimSpace(s)) == TrimSpace(s)
  {
    TrimLeftStart(s);
    TrimRightEnd(TrimLeft(s));
    var t := TrimSpace(s);
    if t != "" {
      assert t[0] == TrimLeft(s)[0];
      assert TrimLeft(t) == t && TrimRight(t) == t;
    }
  }

  // ---- The summary ----

  /** The text of a message between an opening and a closing line. */
  predicate Encloses(m: Message, opening: string, inner: string, closing: string) {
    && m.role == USER && |m.content| == 1 && m.content[0].TextBlock?
    && var text := m.content[0].text;
       && |text| == |opening| + 1 + |inner| + 1 + |closing|
       && text[..|opening|] == opening && text[|opening|] == '\n'
       && text[|opening| + 1..|opening| + 1 + |inner|] == inner
       && text[|opening| + 1 + |inner|] == '\n' && text[|opening| + |inner| + 2..] == closing
  }

  lemma SummaryEncloses(summary: string)
    ensures Encloses(SummaryMessage(TrimSpace(summary)), SUMMARY_TAG, TrimSpace(summary), SUMMARY_END)
  {
    TrimTwice(summary);
    hide TrimSpace;
    var t := TrimSpace(summary);
    var text := SUMMARY_TAG + "\n" + t + "\n" + SUMMARY_END;
    var n := |SUMMARY_TAG|;
    assert text[n + 1..n + 1 + |t|] == t && text[n + |t| + 2..] == SUMMARY_END && text[..n] == SUMMARY_TAG;
  }

  // ---- The skills ----

  predicate Says(skill: Skill) {
    !Blank(skill.name) || !Blank(skill.body)
  }

  /** `kept` are the skills that say something, in their order, each as often as it was invoked. */
  ghost predicate SayingOnes(skills: seq<Skill>, kept: seq<Skill>, places: seq<nat>) {
    && |places| == |kept|
    && (forall i :: 0 <= i < |kept| ==> places[i] < |skills| && kept[i] == skills[places[i]])
    && (forall i, j :: 0 <= i < j < |places| ==> places[i] < places[j])
    && (forall k :: 0 <= k < |skills| ==> (k in places <==> Says(skills[k])))
  }

  lemma {:induction false} NamedAreTheSaying(skills: seq<Skill>) returns (places: seq<nat>)
    ensures SayingOnes(skills, Named(skills), places)
  {
    hide Blank;
    if skills == [] {
      places := [];
    } else {
      var n := |skills| - 1;
      places := NamedAreTheSaying(skills[..n]);
      var before := places;
      if Says(skills[n]) { places := places + [n]; }
      forall k | 0 <= k < |skills|
        ensures k in places <==> Says(skills[k])
      {
        assert k < n ==> skills[..n][k] == skills[k];
        assert forall i :: 0 <= i < |before| ==> before[i] < n;
      }
    }
  }

  /**
   A compacted history opens with the summary's text. Behind it, one message replays the skills
   that say something, in their order; there is none when no skill does. Then come the last user
   turns, of which nothing is a replay.
   */
  lemma CompactedContent(history: seq<Message>, turns: int, summary: Option<string>,
                         skills: Option<seq<Skill>>, render: Renderer) returns (named: seq<Skill>, places: seq<nat>)
    requires Pipeline(history, turns, summary, skills, render).Changed?
    ensures summary.Some? && skills.Some? && SayingOnes(skills.value, named, places)
    ensures var next := Pipeline(history, turns, summary, skills, render).messages;
            && next != [] && Encloses(next[0], SUMMARY_TAG, TrimSpace(summary.value), SUMMARY_END)
            && (named != [] ==>
                  && |next| > 1 && next[1] == Message(USER, [TextBlock(SKILL_TAG + render(named))])
                  && forall i :: 2 <= i < |next| ==> next[i] in history && !IsReplay(next[i]))
            && (named == [] ==> forall i :: 1 <= i < |next| ==> next[i] in history && !IsReplay(next[i]))
  {
    hide Encloses, SummaryMessage, TrimSpace, Pipeline, IsReplay, Strip, LastTurnsStart, StartsUserTurn, CountTurns;
    hide SayingOnes, Named;
    KeptTail(history, turns, summary, skills, render);
    SummaryEncloses(summary.value);
    places := NamedAreTheSaying(skills.value);
    named := Named(skills.value);
    Stripped(history);
    var kept := Strip(history);
    var tail := kept[LastTurnsStart(kept, Turns(turns))..];
    forall i | 0 <= i < |tail|
      ensures tail[i] in history && !IsReplay(tail[i])
    {
      assert tail[i] in kept;
    }
  }

  // ---- Which messages open a turn ----

  /** A single text that begins, blanks aside, with the tag. */
  predicate Tagged(m: Message, tag: string) {
    |m.content| == 1 && m.content[0].TextBlock? && tag <= TrimSpace(m.content[0].text)
  }

  /** A user's message that is more than tool results and neither a summary nor a replay. */
  predicate Spoken(m: Message) {
    && m.role == "user" && (exists b :: b in m.content && !b.ToolResultBlock?)
    && !Tagged(m, "<conversation_summary>") && !Tagged(m, "<invoked_skills_replay>")
  }

  /** Where the user speaks, from `start` on. */
  function SpokenFrom(messages: seq<Message>, start: nat): set<nat> {
    set i | start <= i < |messages| && Spoken(messages[i])
  }

  lemma TurnsAreSpoken(m: Message)
    ensures StartsUserTurn(m) <==> Spoken(m)
  {
    hide TrimSpace;
  }

  lemma {:induction false} TurnsAreCounted(messages: seq<Message>, start: nat)
    requires start <= |messages|
    ensures CountTurns(messages[start..]) == |SpokenFrom(messages, start)|
    decreases |messages| - start
  {
    hide StartsUserTurn, Spoken;
    if start < |messages| {
      TurnsAreCounted(messages, start + 1);
      TurnsAreSpoken(messages[start]);
      assert messages[start..][1..] == messages[start + 1..];
      var later := SpokenFrom(messages, start + 1);
      assert SpokenFrom(messages, start) == if Spoken(messages[start]) then later + {start} else later;
    } else {
      assert SpokenFrom(messages, start) == {};
    }
  }

  predicate EndsWith(all: seq<Message>, end: seq<Message>) {
    |end| <= |all| && all[|all| - |end|..] == end
  }

  lemma EndOfJoin(front: seq<Message>, end: seq<Message>)
    ensures EndsWith(front + end, end)
  {}

  lemma InSpoken(messages: seq<Message>, start: nat)
    requires start < |messages|
    ensures Spoken(messages[start]) ==> start in SpokenFrom(messages, start)
  {
    hide Spoken;
  }

  /** Of a compacted history the end is kept that begins with the last few times the user speaks, ten by default. */
  lemma KeptTurnsAreSpoken(history: seq<Message>, turns: int, summary: Option<string>, skills: Option<seq<Skill>>,
                           render: Renderer) returns (start: nat)
    requires Pipeline(history, turns, summary, skills, render).Changed?
    ensures var kept := Strip(history);
            && 0 < start < |kept| && start in SpokenFrom(kept, start)
            && |SpokenFrom(kept, start)| == (if turns <= 0 then 10 else turns)
            && EndsWith(Pipeline(history, turns, summary, skills, render).messages, kept[start..])
  {
    hide *;
    KeptTail(history, turns, summary, skills, render);
    start := LastTurnsStart(Strip(history), Turns(turns));
    EndOfJoin([SummaryMessage(TrimSpace(summary.value))] + Replay(skills.value, render), Strip(history)[start..]);
    InSpoken(Strip(history), start);
    TurnsAreCounted(Strip(history), start);
    TurnsAreSpoken(Strip(history)[start]);
  }

  // ---- When compaction is due ----

  /** A fuller history is compacted whenever a smaller one is; without a window, or empty, none is. */
  lemma FullerIsCompactedToo(s: Session, chars: nat, more: nat)
    requires chars <= more
    ensures s.ShouldCompact(TokensFromChars(chars)) ==> s.ShouldCompact(TokensFromChars(more))
    ensures s.window <= 0 || chars == 0 ==> !s.ShouldCompact(TokensFromChars(chars))
  {
    var n, m := TokensFromChars(chars), TokensFromChars(more);
    assert n <= m;
    var bar := s.window as real * (if s.threshold <= 0.0 then DEFAULT_THRESHOLD else s.threshold);
    assert n as real >= bar ==> m as real >= bar;
  }

  lemma {:induction false} StrippingLightens(size: Measure, messages: seq<Message>)
    ensures Total(size, Strip(messages)) <= Total(size, messages)
  {
    hide IsReplay;
    if messages != [] {
      var front, last := messages[..|messages| - 1], messages[|messages| - 1];
      StrippingLightens(size, front);
      TotalJoins(size, Strip(front), [last]);
      assert Total(size, [last]) == size(last);
      assert Strip(front) + [] == Strip(front);
    }
  }

  /**
   Replays do not bring a compaction about: it is due exactly when the history is too full without
   them, and on request always.
   */
  lemma ReplaysDoNotCount(s: Session)
    requires s.Valid()
    ensures s.Due(true) <==>
              && !s.compactionDisabled
              && s.ShouldCompact(TokensFromChars(s.staticChars + Total(s.size, Strip(s.providerHistory))))
    ensures s.Due(false) <==> !s.compactionDisabled
  {
    hide RecentView, PairsKept, Strip, Total;
    StrippingLightens(s.size, s.providerHistory);
    FullerIsCompactedToo(s, s.staticChars + Total(s.size, Strip(s.providerHistory)), s.staticChars + s.providerChars);
  }

  /**
   A share of the window that is not positive counts as four fifths. With a share of at most the
   whole window a full window is compacted, and with a larger one it is not.
   */
  lemma WindowDecides(s: Session, tokens: nat)
    requires s.window > 0 && tokens > 0
    ensures s.threshold <= 0.0 ==> (s.ShouldCompact(tokens) <==> 5 * tokens >= 4 * s.window)
    ensures s.threshold <= 1.0 && tokens >= s.window ==> s.ShouldCompact(tokens)
    ensures s.threshold > 1.0 && tokens <= s.window ==> !s.ShouldCompact(tokens)
  {
    if s.threshold <= 0.0 {
      FourFifths(tokens, s.window);
    } else if s.threshold <= 1.0 {
      if tokens >= s.window { AtMostTheWhole(tokens, s.window, s.threshold); }
    } else if tokens <= s.window {
      MoreThanTheWhole(tokens, s.window, s.threshold);
    }
  }

  lemma AtMostTheWhole(tokens: nat, window: int, share: real)
    requires 0 < window <= tokens && 0.0 < share <= 1.0
    ensures tokens as real >= window as real * share
  {
    var whole := window as real;
    assert tokens as real >= whole;
    ShareOf(whole, share);
  }

  lemma MoreThanTheWhole(tokens: nat, window: int, share: real)
    requires 0 < window && tokens <= window && share > 1.0
    ensures !(tokens as real >= window as real * share)
  {
    var whole := window as real;
    assert tokens as real <= whole;
    ShareOf(whole, share);
  }

  lemma FourFifths(tokens: int, window: int)
    ensures tokens as real >= window as real * DEFAULT_THRESHOLD <==> 5 * tokens >= 4 * window
    ensures tokens >= window > 0 ==> tokens as real >= window as real * DEFAULT_THRESHOLD
  {
    assert window as real * DEFAULT_THRESHOLD == (4 * window) as real / 5.0;
    assert 5.0 * tokens as real == (5 * tokens) as real;
  }

  lemma ShareOf(whole: real, share: real)
    requires whole > 0.0
    ensures share <= 1.0 ==> whole * share <= whole
    ensures share > 1.0 ==> whole * share > whole
  {}
}
