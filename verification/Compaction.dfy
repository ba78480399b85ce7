/**
 Compaction of the history sent to the provider: everything before the last few user turns is
 replaced by a summary, and the bodies of invoked skills are replayed after it.
 */
module Compaction {
  import opened Results
  import opened Text

  datatype Block =
    | TextBlock(text: string)
    | ToolUseBlock(id: string)
    | ToolResultBlock(toolUseID: string)
    | OtherBlock(content: string)

  datatype Message = Message(role: string, content: seq<Block>)

  datatype Skill = Skill(name: string, body: string)

  /** How the kept skills are listed after the opening tag. */
  type Renderer = seq<Skill> -> string

  const SUMMARY_TAG := "<conversation_summary>"
  const SUMMARY_END := "</conversation_summary>"
  const SKILL_TAG := "<invoked_skills_replay>"
  const USER := "user"
  const DEFAULT_TURNS: nat := 10

  // ---- Messages ----

  predicate OpensWith(m: Message, tag: string) {
    m.role == USER && |m.content| == 1 && m.content[0].TextBlock? && HasPrefix(TrimSpace(m.content[0].text), tag)
  }

  predicate IsSummary(m: Message) {
    OpensWith(m, SUMMARY_TAG)
  }

  predicate IsReplay(m: Message) {
    OpensWith(m, SKILL_TAG)
  }

  predicate StartsUserTurn(m: Message) {
    && m.role == USER && !IsSummary(m) && !IsReplay(m)
    && exists b :: b in m.content && !b.ToolResultBlock?
  }

  function SummaryMessage(summary: string): Message {
    Message(USER, [TextBlock(SUMMARY_TAG + "\n" + TrimSpace(summary) + "\n" + SUMMARY_END)])
  }

  function Named(skills: seq<Skill>): seq<Skill> {
    if skills == [] then []
    else
      var last := skills[|skills| - 1];
      Named(skills[..|skills| - 1]) + if Blank(last.name) && Blank(last.body) then [] else [last]
  }

  /** The replay message, when any skill has a name or a body. */
  function Replay(skills: seq<Skill>, render: Renderer): seq<Message> {
    if Named(skills) == [] then [] else [Message(USER, [TextBlock(SKILL_TAG + render(Named(skills)))])]
  }

  lemma SummaryIsSummary(summary: string)
    ensures IsSummary(SummaryMessage(summary)) && !IsReplay(SummaryMessage(summary))
    ensures !StartsUserTurn(SummaryMessage(summary))
  {
    var rest := "\n" + TrimSpace(summary) + "\n" + SUMMARY_END;
    var text := SummaryMessage(summary).content[0].text;
    assert text == SUMMARY_TAG + rest;
    assert SUMMARY_TAG[|SUMMARY_TAG| - 1] == '>';
    TrimKeepsTag(SUMMARY_TAG, rest);
    TagsDiffer(TrimSpace(text), SUMMARY_TAG, SKILL_TAG, 1);
  }

  lemma ReplayIsReplay(skills: seq<Skill>, render: Renderer)
    ensures |Replay(skills, render)| <= 1
    ensures forall m :: m in Replay(skills, render) ==> IsReplay(m) && !StartsUserTurn(m)
  {
    assert SKILL_TAG[|SKILL_TAG| - 1] == '>';
    TrimKeepsTag(SKILL_TAG, render(Named(skills)));
  }

  // ---- User turns ----

  function CountTurns(messages: seq<Message>): nat {
    if messages == [] then 0 else (if StartsUserTurn(messages[0]) then 1 else 0) + CountTurns(messages[1..])
  }

  lemma {:induction false} CountSplits(a: seq<Message>, b: seq<Message>)
    ensures CountTurns(a + b) == CountTurns(a) + CountTurns(b)
  {
    if a == [] {
      assert a + b == b;
    } else {
      assert (a + b)[1..] == a[1..] + b;
      CountSplits(a[1..], b);
    }
  }

  /** `start` opens the last `turns` user turns; it is 0 when there are not more than that. */
  ghost predicate OpensLastTurns(messages: seq<Message>, turns: nat, start: nat) {
    && start <= |messages|
    && if CountTurns(messages) < turns then start == 0
       else start < |messages| && StartsUserTurn(messages[start]) && CountTurns(messages[start..]) == turns
  }

  /** There is only one such place. */
  lemma LastTurnsStartIsUnique(messages: seq<Message>, turns: nat, a: nat, b: nat)
    requires turns > 0 && OpensLastTurns(messages, turns, a) && OpensLastTurns(messages, turns, b)
    ensures a == b
  {
    if CountTurns(messages) >= turns {
      var low, high := if a < b then a else b, if a < b then b else a;
      if low < high {
        assert messages[low..high][0] == messages[low];
        assert CountTurns(messages[low..high]) >= 1;
      }
      assert messages[low..] == messages[low..high] + messages[high..];
      CountSplits(messages[low..high], messages[high..]);
    }
  }

  function Turns(turns: int): (n: nat)
    ensures n > 0
  {
    if turns <= 0 then DEFAULT_TURNS else turns
  }

  function LastTurnsStart(messages: seq<Message>, turns: nat): (start: nat)
    requires turns > 0
    ensures OpensLastTurns(messages, turns, start)
  {
    if CountTurns(messages) < turns || (StartsUserTurn(messages[0]) && CountTurns(messages) == turns) then 0
    else 1 + LastTurnsStart(messages[1..], turns)
  }

  method KeepLastTurnsStart(messages: seq<Message>, turns: int) returns (start: nat)
    ensures start == LastTurnsStart(messages, Turns(turns))
  {
    var wanted := turns;
    if wanted <= 0 { wanted := DEFAULT_TURNS; }
    var seen := 0;
    for i := |messages| downto 0
      invariant seen == CountTurns(messages[i..]) && seen < wanted
    {
      assert messages[i..][1..] == messages[i + 1..];
      if !StartsUserTurn(messages[i]) { continue; }
      seen := seen + 1;
      if seen == wanted {
        assert messages == messages[..i] + messages[i..];
        CountSplits(messages[..i], messages[i..]);
        LastTurnsStartIsUnique(messages, Turns(turns), i, LastTurnsStart(messages, Turns(turns)));
        return i;
      }
    }
    assert messages[0..] == messages;
    return 0;
  }

  // ---- One compaction ----

  datatype Compacted = Unchanged | Failed | Changed(messages: seq<Message>)

  /** The result for a given place to cut; the summary is asked for only when there is something to cut. */
  function CutAt(messages: seq<Message>, start: nat, summary: Option<string>): Compacted
    requires start <= |messages|
  {
    if start == 0 || (start == 1 && IsSummary(messages[0])) then Unchanged
    else if summary.None? then Failed
    else if Blank(summary.value) then Unchanged
    else Changed([SummaryMessage(TrimSpace(summary.value))] + messages[start..])
  }

  method Compact(messages: seq<Message>, turns: int, summary: Option<string>) returns (r: Compacted)
    ensures r == CutAt(messages, LastTurnsStart(messages, Turns(turns)), summary)
  {
    var keepStart := KeepLastTurnsStart(messages, turns);
    if keepStart <= 0 { return Unchanged; }
    if keepStart == 1 && IsSummary(messages[0]) { return Unchanged; }
    if summary.None? { return Failed; }
    var text := TrimSpace(summary.value);
    if text == "" { return Unchanged; }
    var next := [SummaryMessage(text)];
    next := next + messages[keepStart..];
    return Changed(next);
  }

  function Strip(messages: seq<Message>): seq<Message> {
    if messages == [] then []
    else
      var last := messages[|messages| - 1];
      Strip(messages[..|messages| - 1]) + if IsReplay(last) then [] else [last]
  }

  method StripReplay(messages: seq<Message>) returns (out: seq<Message>)
    ensures out == Strip(messages)
  {
    out := [];
    for i := 0 to |messages|
      invariant out == Strip(messages[..i])
    {
      assert messages[..i + 1][..i] == messages[..i];
      if IsReplay(messages[i]) { continue; }
      out := out + [messages[i]];
    }
    assert messages[..|messages|] == messages;
  }

  function Inject(messages: seq<Message>, replay: seq<Message>): seq<Message> {
    if messages != [] && IsSummary(messages[0]) then [messages[0]] + replay + messages[1..] else replay + messages
  }

  method InjectReplay(messages: seq<Message>, skills: seq<Skill>, render: Renderer) returns (out: seq<Message>)
    ensures out == Inject(messages, Replay(skills, render))
  {
    hide IsSummary;
    var filtered: seq<Skill> := [];
    for i := 0 to |skills|
      invariant filtered == Named(skills[..i])
    {
      assert skills[..i + 1][..i] == skills[..i];
      if TrimSpace(skills[i].name) == "" && TrimSpace(skills[i].body) == "" { continue; }
      filtered := filtered + [skills[i]];
    }
    assert skills[..|skills|] == skills;
    if |filtered| == 0 {
      if messages != [] { assert [messages[0]] + [] + messages[1..] == messages; }
      return messages;
    }
    var msg := Message(USER, [TextBlock(SKILL_TAG + render(filtered))]);
    out := messages;
    var insertAt := 0;
    if |out| > 0 && IsSummary(out[0]) { insertAt := 1; }
    out := out[..insertAt] + ([msg] + out[insertAt..]);
  }

  // ---- The pipeline: strip, compact, strip, inject ----

  function Pipeline(history: seq<Message>, turns: int, summary: Option<string>, skills: Option<seq<Skill>>,
                    render: Renderer): Compacted
  {
    var kept := Strip(history);
    var cut := CutAt(kept, LastTurnsStart(kept, Turns(turns)), summary);
    if !cut.Changed? then cut
    else if skills.None? then Failed
    else Changed(Inject(Strip(cut.messages), Replay(skills.value, render)))
  }

  lemma {:induction false} StripJoins(a: seq<Message>, b: seq<Message>)
    ensures Strip(a + b) == Strip(a) + Strip(b)
  {
    if b == [] {
      assert a + b == a;
    } else {
      assert (a + b)[..|a + b| - 1] == a + b[..|b| - 1];
      StripJoins(a, b[..|b| - 1]);
    }
  }

  lemma {:induction false} Stripped(messages: seq<Message>)
    ensures forall m :: m in Strip(messages) <==> m in messages && !IsReplay(m)
  {
    hide IsReplay;
    if messages != [] {
      var front, last := messages[..|messages| - 1], messages[|messages| - 1];
      Stripped(front);
      assert messages == front + [last];
    }
  }

  lemma {:induction false} NothingStripped(messages: seq<Message>)
    requires forall m :: m in messages ==> !IsReplay(m)
    ensures Strip(messages) == messages
  {
    hide IsReplay;
    if messages != [] {
      var front, last := messages[..|messages| - 1], messages[|messages| - 1];
      NothingStripped(front);
      assert messages == front + [last];
    }
  }

  lemma {:induction false} AllStripped(messages: seq<Message>)
    requires forall m :: m in messages ==> IsReplay(m)
    ensures Strip(messages) == []
  {
    hide IsReplay;
    if messages != [] { AllStripped(messages[..|messages| - 1]); }
  }

  /**
   What a compaction leaves: the summary, the replay if any skill is left, and then exactly
   the last user turns, unchanged.
   */
  lemma KeptTail(history: seq<Message>, turns: int, summary: Option<string>,
                 skills: Option<seq<Skill>>, render: Renderer)
    requires Pipeline(history, turns, summary, skills, render).Changed?
    ensures var kept := Strip(history);
            var start := LastTurnsStart(kept, Turns(turns));
            && 0 < start < |kept| && StartsUserTurn(kept[start])
            && CountTurns(kept[start..]) == Turns(turns) == (if turns <= 0 then 10 else turns)
            && summary.Some? && skills.Some?
            && Pipeline(history, turns, summary, skills, render).messages ==
               [SummaryMessage(TrimSpace(summary.value))] + Replay(skills.value, render) + kept[start..]
  {
    var kept := Strip(history);
    var start := LastTurnsStart(kept, Turns(turns));
    var top := SummaryMessage(TrimSpace(summary.value));
    SummaryIsSummary(TrimSpace(summary.value));
    NothingToStrip(history, top, start);
    assert ([top] + kept[start..])[1..] == kept[start..];
    hide Strip, SummaryMessage, CountTurns, LastTurnsStart, StartsUserTurn;
  }

  lemma NothingToStrip(history: seq<Message>, top: Message, start: nat)
    requires start <= |Strip(history)| && !IsReplay(top)
    ensures Strip([top] + Strip(history)[start..]) == [top] + Strip(history)[start..]
  {
    Stripped(history);
    var cut := [top] + Strip(history)[start..];
    forall m | m in cut ensures !IsReplay(m) {
      if m != top { assert m in Strip(history); }
    }
    NothingStripped(cut);
  }

  /** When the history is cut at all. */
  lemma ChangedWhenMoreTurns(history: seq<Message>, turns: int, summary: Option<string>,
                             skills: Option<seq<Skill>>, render: Renderer)
    ensures var kept := Strip(history);
            Pipeline(history, turns, summary, skills, render).Changed? <==>
            && summary.Some? && !Blank(summary.value) && skills.Some?
            && CountTurns(kept) >= Turns(turns)
            && !OpensLastTurns(kept, Turns(turns), 0)
            && !(IsSummary(kept[0]) && OpensLastTurns(kept, Turns(turns), 1))
  {
    var kept := Strip(history);
    var start := LastTurnsStart(kept, Turns(turns));
    if OpensLastTurns(kept, Turns(turns), 0) { LastTurnsStartIsUnique(kept, Turns(turns), start, 0); }
    if OpensLastTurns(kept, Turns(turns), 1) { LastTurnsStartIsUnique(kept, Turns(turns), start, 1); }
  }

  lemma StripOutcome(history: seq<Message>, start: nat, top: Message, replay: seq<Message>)
    requires start <= |Strip(history)| && !IsReplay(top) && forall m :: m in replay ==> IsReplay(m)
    ensures Strip([top] + replay + Strip(history)[start..]) == [top] + Strip(history)[start..]
  {
    var tail := Strip(history)[start..];
    NothingToStrip(history, top, start);
    StripJoins([top], tail);
    StripJoins([top] + replay, tail);
    StripJoins([top], replay);
    AllStripped(replay);
    assert Strip([top]) + [] == Strip([top]);
  }

  /** Without its replay, the outcome is the summary followed by a proper end of what was there. */
  lemma OutcomeStripped(history: seq<Message>, turns: int, summary: Option<string>,
                        skills: Option<seq<Skill>>, render: Renderer)
      returns (top: Message, start: nat)
    requires Pipeline(history, turns, summary, skills, render).Changed?
    ensures var next := Pipeline(history, turns, summary, skills, render).messages;
            && start == LastTurnsStart(Strip(history), Turns(turns)) && 0 < start < |Strip(history)|
            && IsSummary(top) && Strip(next) == [top] + Strip(history)[start..]
            && StartsUserTurn(Strip(history)[start]) && CountTurns(Strip(history)[start..]) == Turns(turns)
  {
    start := LastTurnsStart(Strip(history), Turns(turns));
    top := SummaryMessage(TrimSpace(summary.value));
    KeptTail(history, turns, summary, skills, render);
    SummaryIsSummary(TrimSpace(summary.value));
    ReplayIsReplay(skills.value, render);
    StripOutcome(history, start, top, Replay(skills.value, render));
  }

  /** Compacting the outcome again changes nothing, whatever the summary or the skills would now be. */
  lemma CompactionIsFixedPoint(history: seq<Message>, turns: int, summary: Option<string>, skills: Option<seq<Skill>>,
                               render: Renderer, summary': Option<string>, skills': Option<seq<Skill>>)
    requires Pipeline(history, turns, summary, skills, render).Changed?
    ensures var next := Pipeline(history, turns, summary, skills, render).messages;
            Pipeline(next, turns, summary', skills', render) == Unchanged
  {
    var top, start := OutcomeStripped(history, turns, summary, skills, render);
    var again := [top] + Strip(history)[start..];
    assert again[1..] == Strip(history)[start..] && StartsUserTurn(again[1]);
    assert OpensLastTurns(again, Turns(turns), 1);
    LastTurnsStartIsUnique(again, Turns(turns), LastTurnsStart(again, Turns(turns)), 1);
  }

  // ---- Tool results stay with their calls ----

  function Calls(m: Message): set<string> {
    set b | b in m.content && b.ToolUseBlock? :: b.id
  }

  function Answers(m: Message): set<string> {
    set b | b in m.content && b.ToolResultBlock? :: b.toolUseID
  }

  /** The message directly before holds the calls that this one answers. */
  ghost predicate FollowsItsCalls(messages: seq<Message>, i: nat)
    requires i < |messages|
  {
    Answers(messages[i]) != {} ==> i > 0 && Answers(messages[i]) <= Calls(messages[i - 1])
  }

  ghost predicate Paired(messages: seq<Message>) {
    forall i :: 0 <= i < |messages| ==> FollowsItsCalls(messages, i)
  }

  predicate ResultsOnly(m: Message) {
    Answers(m) != {} && forall b :: b in m.content ==> b.ToolResultBlock?
  }

  /** As `Paired`, for the messages that hold nothing but tool results. */
  ghost predicate ResultsPaired(messages: seq<Message>) {
    forall i :: 0 <= i < |messages| && ResultsOnly(messages[i]) ==> FollowsItsCalls(messages, i)
  }

  /** Dropping replay messages parts no result from its call: a replay holds no call and no result. */
  lemma {:induction false} StripKeepsPairs(messages: seq<Message>)
    requires Paired(messages)
    ensures Paired(Strip(messages))
    ensures messages != [] && !IsReplay(messages[|messages| - 1]) ==>
              Strip(messages) != [] && Strip(messages)[|Strip(messages)| - 1] == messages[|messages| - 1]
  {
    if messages != [] {
      var front, last := messages[..|messages| - 1], messages[|messages| - 1];
      forall i | 0 <= i < |front| ensures FollowsItsCalls(front, i) {
        assert FollowsItsCalls(messages, i);
      }
      StripKeepsPairs(front);
      assert FollowsItsCalls(messages, |front|);
      var kept := Strip(messages);
      if !IsReplay(last) {
        assert kept == Strip(front) + [last];
        if Answers(last) != {} { assert Calls(front[|front| - 1]) != {} && !IsReplay(front[|front| - 1]); }
        forall i | 0 <= i < |kept| ensures FollowsItsCalls(kept, i) {
          if i < |Strip(front)| { assert FollowsItsCalls(Strip(front), i); }
        }
      } else {
        assert kept == Strip(front);
      }
    }
  }

  /** The same for the messages of nothing but results, whatever mixed messages there are. */
  lemma {:induction false} StripKeepsResultPairs(messages: seq<Message>)
    requires ResultsPaired(messages)
    ensures ResultsPaired(Strip(messages))
  {
    if messages != [] {
      var front, last := messages[..|messages| - 1], messages[|messages| - 1];
      forall i | 0 <= i < |front| && ResultsOnly(front[i]) ensures FollowsItsCalls(front, i) {
        assert FollowsItsCalls(messages, i);
      }
      StripKeepsResultPairs(front);
      StripKeepsEnd(front);
      var kept := Strip(messages);
      hide IsReplay;
      if IsReplay(last) {
        assert kept == Strip(front);
      } else {
        assert kept == Strip(front) + [last];
        if ResultsOnly(last) {
          assert FollowsItsCalls(messages, |front|);
          HoldsCalls(front[|front| - 1]);
        }
        forall i | 0 <= i < |kept| && ResultsOnly(kept[i]) ensures FollowsItsCalls(kept, i) {
          if i < |Strip(front)| { assert FollowsItsCalls(Strip(front), i); }
        }
      }
    }
  }

  lemma StripKeepsEnd(messages: seq<Message>)
    ensures messages != [] && !IsReplay(messages[|messages| - 1]) ==>
              Strip(messages) != [] && Strip(messages)[|Strip(messages)| - 1] == messages[|messages| - 1]
  {}

  lemma HoldsCalls(m: Message)
    ensures Calls(m) != {} ==> !IsReplay(m)
  {}

  /** A cut before a user turn parts no message of nothing but results from its calls. */
  lemma TailResultPairs(messages: seq<Message>, start: nat, head: seq<Message>)
    requires start < |messages| && StartsUserTurn(messages[start]) && ResultsPaired(messages)
    requires forall m :: m in head ==> !ResultsOnly(m)
    ensures ResultsPaired(head + messages[start..])
  {
    var whole, n := head + messages[start..], |head|;
    assert forall i :: 0 <= i < n ==> whole[i] == head[i] && head[i] in head;
    forall i | 0 <= i < |whole| && ResultsOnly(whole[i]) ensures FollowsItsCalls(whole, i) {
      assert i > n;
      assert FollowsItsCalls(messages, start + i - n);
    }
  }

  /** If each message of nothing but results follows its calls, it still does after a compaction. */
  lemma CompactionKeepsResultPairs(history: seq<Message>, turns: int, summary: Option<string>,
                                   skills: Option<seq<Skill>>, render: Renderer)
    requires ResultsPaired(history) && Pipeline(history, turns, summary, skills, render).Changed?
    ensures ResultsPaired(Pipeline(history, turns, summary, skills, render).messages)
  {
    KeptTail(history, turns, summary, skills, render);
    StripKeepsResultPairs(history);
    NoCallsInHead(TrimSpace(summary.value), skills.value, render);
    TailResultPairs(Strip(history), LastTurnsStart(Strip(history), Turns(turns)),
                    [SummaryMessage(TrimSpace(summary.value))] + Replay(skills.value, render));
  }

  lemma TailPairs(messages: seq<Message>, start: nat, head: seq<Message>)
    requires start < |messages| && head != [] && Paired(messages)
    requires forall m :: m in head ==> Answers(m) == {} && Calls(m) == {}
    ensures Paired(head + messages[start..]) <==> Answers(messages[start]) == {}
    ensures StartsUserTurn(messages[start]) ==> ResultsPaired(head + messages[start..])
  {
    var whole, n := head + messages[start..], |head|;
    forall i | 0 <= i < |whole| && i != n ensures FollowsItsCalls(whole, i) {
      if i > n {
        assert FollowsItsCalls(messages, start + i - n);
      } else {
        assert whole[i] in head;
      }
    }
    assert whole[n - 1] in head && whole[n] == messages[start];
    assert FollowsItsCalls(whole, n) <==> Answers(messages[start]) == {};
  }

  lemma NoCallsInHead(summary: string, skills: seq<Skill>, render: Renderer)
    ensures forall m :: m in [SummaryMessage(summary)] + Replay(skills, render) ==> Answers(m) == {} && Calls(m) == {}
  {
    hide TrimSpace, Named;
  }

  /**
   Where every result at all follows its calls, mixed messages included, that is kept exactly
   when the first kept message, which opens a turn, carries no result.
   */
  lemma CompactionKeepsPairs(history: seq<Message>, turns: int, summary: Option<string>,
                             skills: Option<seq<Skill>>, render: Renderer)
    requires Paired(history) && Pipeline(history, turns, summary, skills, render).Changed?
    ensures var next := Pipeline(history, turns, summary, skills, render).messages;
            && ResultsPaired(next)
            && (Paired(next) <==> Answers(Strip(history)[LastTurnsStart(Strip(history), Turns(turns))]) == {})
  {
    KeptTail(history, turns, summary, skills, render);
    StripKeepsPairs(history);
    NoCallsInHead(TrimSpace(summary.value), skills.value, render);
    TailPairs(Strip(history), LastTurnsStart(Strip(history), Turns(turns)),
              [SummaryMessage(TrimSpace(summary.value))] + Replay(skills.value, render));
  }

  /** A user message that answers a call and adds text opens a turn, so a cut there leaves its call behind. */
  lemma MixedMessageLosesItsCall(render: Renderer)
    ensures var history := [Message(USER, [TextBlock("go")]), Message("assistant", [ToolUseBlock("t")]),
                            Message(USER, [ToolResultBlock("t"), TextBlock("on")])];
            var out := Pipeline(history, 1, Some("s"), Some([]), render);
            Paired(history) && out.Changed? && !Paired(out.messages)
  {
    var a, b, c := Message(USER, [TextBlock("go")]), Message("assistant", [ToolUseBlock("t")]),
                   Message(USER, [ToolResultBlock("t"), TextBlock("on")]);
    assert TextBlock("on") in c.content && ToolUseBlock("t") in b.content && ToolResultBlock("t") in c.content;
    assert "t" in Calls(b) && "t" in Answers(c);
    assert TrimSpace("go") == "go" && TrimSpace("s") == "s";
    assert !IsReplay(a) && StartsUserTurn(c) && !IsReplay(c);
    CutAfterTheCall(a, b, c, "s", render);
  }

  lemma CutAfterTheCall(a: Message, b: Message, c: Message, summary: string, render: Renderer)
    requires Answers(a) == {} && Answers(b) == {} && {} < Answers(c) <= Calls(b)
    requires !IsReplay(a) && !IsReplay(b) && StartsUserTurn(c) && !Blank(summary)
    ensures var out := Pipeline([a, b, c], 1, Some(summary), Some([]), render);
            Paired([a, b, c]) && out.Changed? && !Paired(out.messages)
  {
    var history := [a, b, c];
    assert !IsReplay(c);
    hide Calls, Answers, IsReplay, StartsUserTurn, Blank;
    assert Paired(history);
    NothingStripped(history);
    assert CountTurns([c]) == 1;
    assert history[2..] == [c];
    CountSplits([a, b], [c]);
    assert [a, b] + [c] == history;
    assert OpensLastTurns(history, 1, 2);
    LastTurnsStartIsUnique(history, 1, LastTurnsStart(history, 1), 2);
    CompactionKeepsPairs(history, 1, Some(summary), Some([]), render);
  }
}
