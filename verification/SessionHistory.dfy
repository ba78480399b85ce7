/**
 The two histories of a session: everything that was said, and the view sent to the provider,
 which compaction shortens. Message sizes and the listing of skills are parameters.
 */
module SessionHistory {
  import opened Results
  import opened Compaction

  type Measure = Message -> nat

  const DEFAULT_THRESHOLD: real := 0.8

  function Total(size: Measure, messages: seq<Message>): nat {
    if messages == [] then 0 else Total(size, messages[..|messages| - 1]) + size(messages[|messages| - 1])
  }

  lemma {:induction false} TotalJoins(size: Measure, a: seq<Message>, b: seq<Message>)
    ensures Total(size, a + b) == Total(size, a) + Total(size, b)
  {
    if b == [] {
      assert a + b == a;
    } else {
      assert (a + b)[..|a + b| - 1] == a + b[..|b| - 1];
      TotalJoins(size, a, b[..|b| - 1]);
    }
  }

  method Estimate(size: Measure, messages: seq<Message>) returns (chars: nat)
    ensures chars == Total(size, messages)
  {
    chars := 0;
    for i := 0 to |messages|
      invariant chars == Total(size, messages[..i])
    {
      assert messages[..i + 1][..i] == messages[..i];
      chars := chars + size(messages[i]);
    }
    assert messages[..|messages|] == messages;
  }

  /** Four characters to a token, rounded up. */
  function TokensFromChars(chars: nat): (tokens: nat)
    ensures 4 * tokens >= chars && (tokens > 0 ==> 4 * (tokens - 1) < chars)
  {
    if chars == 0 then 0 else chars / 4 + if chars % 4 != 0 then 1 else 0
  }

  /**
   The provider sees either all of the history or one summary and an unbroken end of it;
   replayed skills aside.
   */
  ghost predicate RecentView(view: seq<Message>, complete: seq<Message>) {
    Strip(view) == Strip(complete)
    || exists top, k: nat :: k <= |Strip(complete)| && IsSummary(top) && Strip(view) == [top] + Strip(complete)[k..]
  }

  lemma AppendKeepsView(view: seq<Message>, complete: seq<Message>, more: seq<Message>)
    requires RecentView(view, complete)
    ensures RecentView(view + more, complete + more)
  {
    StripJoins(view, more);
    StripJoins(complete, more);
    hide Strip, IsSummary;
    if Strip(view) != Strip(complete) {
      var top, k: nat :| k <= |Strip(complete)| && IsSummary(top) && Strip(view) == [top] + Strip(complete)[k..];
      assert Strip(complete + more)[k..] == Strip(complete)[k..] + Strip(more);
      assert Strip(view + more) == [top] + Strip(complete + more)[k..];
    }
  }

  lemma CompactionKeepsView(view: seq<Message>, complete: seq<Message>,
                            turns: int, summary: Option<string>, skills: Option<seq<Skill>>, render: Renderer)
    requires RecentView(view, complete) && Pipeline(view, turns, summary, skills, render).Changed?
    ensures RecentView(Pipeline(view, turns, summary, skills, render).messages, complete)
  {
    hide *;
    var top, start := OutcomeStripped(view, turns, summary, skills, render);
    var next, kept, all := Pipeline(view, turns, summary, skills, render).messages, Strip(view), Strip(complete);
    if kept == all {
      EndOfView(next, complete, top, start);
    } else {
      var top', k := ShortView(view, complete);
      EndOfEnd(all, k, top', start);
      EndOfView(next, complete, top, k + start - 1);
    }
  }

  lemma EndOfView(view: seq<Message>, complete: seq<Message>, top: Message, k: nat)
    requires k <= |Strip(complete)| && IsSummary(top) && Strip(view) == [top] + Strip(complete)[k..]
    ensures RecentView(view, complete)
  {}

  lemma ShortView(view: seq<Message>, complete: seq<Message>) returns (top: Message, k: nat)
    requires RecentView(view, complete) && Strip(view) != Strip(complete)
    ensures k <= |Strip(complete)| && IsSummary(top) && Strip(view) == [top] + Strip(complete)[k..]
  {
    hide Strip, IsSummary;
    top, k :| k <= |Strip(complete)| && IsSummary(top) && Strip(view) == [top] + Strip(complete)[k..];
  }

  lemma EndOfEnd(all: seq<Message>, k: nat, top: Message, start: nat)
    requires k <= |all| && 0 < start <= 1 + |all| - k
    ensures ([top] + all[k..])[start..] == all[k + start - 1..]
  {}

  // ---- Tool results stay with their calls, in the view as in all that was said ----

  /** The view ends as the complete history does, unless that ends in a replayed message. */
  ghost predicate SameEnd(view: seq<Message>, complete: seq<Message>) {
    complete != [] && !IsReplay(complete[|complete| - 1]) ==>
      view != [] && view[|view| - 1] == complete[|complete| - 1]
  }

  /** Where the complete history keeps each message of nothing but results by its calls, the view does. */
  ghost predicate PairsKept(view: seq<Message>, complete: seq<Message>) {
    SameEnd(view, complete) && (ResultsPaired(complete) ==> ResultsPaired(view))
  }

  lemma AppendKeepsPairs(view: seq<Message>, complete: seq<Message>, more: seq<Message>)
    requires PairsKept(view, complete)
    ensures PairsKept(view + more, complete + more)
  {
    var all, seen := complete + more, view + more;
    if more == [] {
      assert all == complete && seen == view;
    } else if ResultsPaired(all) {
      PrefixPaired(complete, more);
      forall i | 0 <= i < |seen| && ResultsOnly(seen[i]) ensures FollowsItsCalls(seen, i) {
        if i < |view| {
          assert FollowsItsCalls(view, i);
        } else {
          assert FollowsItsCalls(all, |complete| + i - |view|);
          if i == |view| { HoldsCalls(complete[|complete| - 1]); }
        }
      }
    }
  }

  lemma PrefixPaired(front: seq<Message>, more: seq<Message>)
    requires ResultsPaired(front + more)
    ensures ResultsPaired(front)
  {
    forall i | 0 <= i < |front| && ResultsOnly(front[i]) ensures FollowsItsCalls(front, i) {
      assert FollowsItsCalls(front + more, i);
    }
  }

  lemma CompactionKeepsPairsOfView(view: seq<Message>, complete: seq<Message>, turns: int, summary: Option<string>,
                                   skills: Option<seq<Skill>>, render: Renderer)
    requires PairsKept(view, complete) && Pipeline(view, turns, summary, skills, render).Changed?
    ensures PairsKept(Pipeline(view, turns, summary, skills, render).messages, complete)
  {
    KeptTail(view, turns, summary, skills, render);
    StripKeepsEnd(view);
    if ResultsPaired(complete) { CompactionKeepsResultPairs(view, turns, summary, skills, render); }
    hide Pipeline, Strip, ResultsPaired, IsReplay, StartsUserTurn, CountTurns, LastTurnsStart;
  }

  class Session {
    const maxSessionBytes: Option<nat>
    const compactionDisabled: bool
    const turns: int
    const window: int
    const threshold: real
    const staticChars: nat
    const size: Measure
    const render: Renderer

    var providerHistory: seq<Message>
    var completeHistory: seq<Message>
    var providerChars: nat

    ghost predicate Valid()
      reads this
    {
      && providerChars == Total(size, providerHistory)
      && RecentView(providerHistory, completeHistory) && PairsKept(providerHistory, completeHistory)
    }

    /** A session opened on its stored messages. */
    constructor (maxSessionBytes: Option<nat>, compactionDisabled: bool, turns: int, window: int, threshold: real,
                 staticChars: nat, size: Measure, render: Renderer, stored: seq<Message>)
      ensures Valid() && providerHistory == completeHistory == stored
    {
      this.maxSessionBytes, this.compactionDisabled := maxSessionBytes, compactionDisabled;
      this.turns, this.window, this.threshold, this.staticChars := turns, window, threshold, staticChars;
      this.size, this.render := size, render;
      providerHistory, completeHistory := stored, stored;
      var chars := Estimate(size, stored);
      providerChars := chars;
    }

    predicate ShouldCompact(tokens: int) {
      window > 0 && tokens > 0
      && tokens as real >= window as real * (if threshold <= 0.0 then DEFAULT_THRESHOLD else threshold)
    }

    /** Both histories grow together, unless the budget or the store refuses. */
    method Append(messages: seq<Message>, stored: bool) returns (ok: bool)
      requires Valid()
      modifies this
      ensures Valid()
      ensures ok <==> stored && (maxSessionBytes.Some? ==> Total(size, old(completeHistory) + messages) <= maxSessionBytes.value)
      ensures ok ==> providerHistory == old(providerHistory) + messages && completeHistory == old(completeHistory) + messages
      ensures !ok ==> providerHistory == old(providerHistory) && completeHistory == old(completeHistory)
    {
      TotalJoins(size, completeHistory, messages);
      TotalJoins(size, providerHistory, messages);
      AppendKeepsView(providerHistory, completeHistory, messages);
      AppendKeepsPairs(providerHistory, completeHistory, messages);
      hide RecentView, PairsKept, Total;
      if maxSessionBytes.Some? {
        var incoming := Estimate(size, messages);
        var current := Estimate(size, completeHistory);
        if current + incoming > maxSessionBytes.value { return false; }
      }
      if !stored { return false; }
      providerHistory := providerHistory + messages;
      var added := Estimate(size, messages);
      providerChars := providerChars + added;
      completeHistory := completeHistory + messages;
      return true;
    }

    /** Whether compaction is attempted at all; on request it always is. */
    ghost predicate Due(proactive: bool)
      reads this
    {
      && !compactionDisabled
      && (proactive ==>
            ShouldCompact(TokensFromChars(staticChars + providerChars))
            && ShouldCompact(TokensFromChars(staticChars + Total(size, Strip(providerHistory)))))
    }

    method CompactProviderHistory(proactive: bool, summary: Option<string>, skills: Option<seq<Skill>>)
        returns (changed: bool, failed: bool)
      requires Valid()
      modifies this
      ensures Valid() && completeHistory == old(completeHistory)
      ensures var r := Pipeline(old(providerHistory), turns, summary, skills, render);
              && (changed <==> old(Due(proactive)) && r.Changed?)
              && (failed <==> old(Due(proactive)) && r.Failed?)
              && providerHistory == if changed then r.messages else old(providerHistory)
    {
      hide Pipeline, Strip, RecentView, PairsKept, ShouldCompact, Total;
      if compactionDisabled { return false, false; }
      if proactive {
        if !ShouldCompact(TokensFromChars(staticChars + providerChars)) { return false, false; }
      }
      var messages := StripReplay(providerHistory);
      var chars := Estimate(size, messages);
      if proactive && !ShouldCompact(TokensFromChars(staticChars + chars)) { return false, false; }
      var result := Recompact(providerHistory, messages, summary, skills);
      if result.Changed? {
        CompactionKeepsView(providerHistory, completeHistory, turns, summary, skills, render);
        CompactionKeepsPairsOfView(providerHistory, completeHistory, turns, summary, skills, render);
        providerHistory := result.messages;
        providerChars := Estimate(size, result.messages);
      }
      return result.Changed?, result.Failed?;
    }

    /** Compact, strip again and put the replay back. */
    method Recompact(ghost history: seq<Message>, messages: seq<Message>, summary: Option<string>, skills: Option<seq<Skill>>)
        returns (r: Compacted)
      requires messages == Strip(history)
      ensures r == Pipeline(history, turns, summary, skills, render)
    {
      r := Compact(messages, turns, summary);
      if !r.Changed? { return; }
      var next := StripReplay(r.messages);
      if skills.None? { return Failed; }
      next := InjectReplay(next, skills.value, render);
      r := Changed(next);
    }
  }
}
