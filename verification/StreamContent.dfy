/**
 What a turn assembled from a provider stream holds: the text and thinking of the deltas, one
 block for each finished tool call, and whether the attempt may be repeated.
 */
module StreamContent {
  import opened Results
  import opened Stream

  // ---- What the message holds ----

  /** One character of an answer, marked as thinking or plain text. */
  datatype Mark = Mark(thinking: bool, c: char)

  function Marked(text: string, thinking: bool): seq<Mark> {
    seq(|text|, i requires 0 <= i < |text| => Mark(thinking, text[i]))
  }

  function TextOf(content: seq<Block>): seq<Mark> {
    if content == [] then []
    else
      var b := content[|content| - 1];
      TextOf(content[..|content| - 1]) +
      match b
      case Text(text) => Marked(text, false)
      case Thinking(text, _) => Marked(text, true)
      case ToolUse(_, _, _) => []
  }

  /** The blocks done so far, then whichever buffer is filling. */
  function Written(a: Answer): seq<Mark> {
    TextOf(a.content) + Marked(a.textBuf, false) + Marked(a.thinkingBuf, true)
  }

  ghost predicate OneBuffer(a: Answer) {
    a.textBuf == "" || a.thinkingBuf == ""
  }

  lemma AppendBlock(content: seq<Block>, b: Block)
    ensures TextOf(content + [b]) ==
            TextOf(content) +
            match b
            case Text(text) => Marked(text, false)
            case Thinking(text, _) => Marked(text, true)
            case ToolUse(_, _, _) => []
  {
    assert (content + [b])[..|content|] == content;
  }

  lemma FlushTextKeeps(a: Answer)
    requires OneBuffer(a)
    ensures Written(FlushText(a)) == Written(a) && FlushText(a).textBuf == ""
    ensures FlushText(a).thinkingBuf == a.thinkingBuf
  {
    AppendBlock(a.content, Text(a.textBuf));
    hide TextOf;
    assert Marked("", false) == [] && Marked("", true) == [];
  }

  lemma FlushThinkingKeeps(a: Answer)
    requires OneBuffer(a)
    ensures Written(FlushThinking(a)) == Written(a) && FlushThinking(a).thinkingBuf == ""
    ensures FlushThinking(a).textBuf == a.textBuf
  {
    AppendBlock(a.content, Thinking(a.thinkingBuf, a.thinkingSig));
    hide TextOf;
    assert Marked("", false) == [] && Marked("", true) == [];
  }

  lemma MarkedJoins(a: string, b: string, thinking: bool)
    ensures Marked(a + b, thinking) == Marked(a, thinking) + Marked(b, thinking)
  {}

  /** What one event adds to the text. */
  function SentBy(ev: StreamEvent): seq<Mark> {
    if ev.kind.TextDelta? then Marked(ev.text, false)
    else if ev.kind.ThinkingDelta? then Marked(ev.text, true)
    else []
  }

  lemma TextDeltaKeeps(a: Answer, text: string)
    requires a.thinkingBuf == ""
    ensures Written(a.(textBuf := a.textBuf + text)) == Written(a) + Marked(text, false)
  {
    MarkedJoins(a.textBuf, text, false);
    assert Marked("", true) == [];
    hide TextOf, Marked;
  }

  lemma ThinkingDeltaKeeps(a: Answer, text: string, signature: string)
    requires a.textBuf == ""
    ensures Written(a.(thinkingBuf := a.thinkingBuf + text, thinkingSig := signature)) == Written(a) + Marked(text, true)
  {
    MarkedJoins(a.thinkingBuf, text, true);
    assert Marked("", false) == [];
    hide TextOf, Marked;
  }

  lemma BlockKeeps(a: Answer, b: Block)
    requires b.ToolUse?
    ensures Written(a.(content := a.content + [b])) == Written(a)
  {
    AppendBlock(a.content, b);
  }

  lemma NextAnswerKeepsText(a: Answer, calls: Calls, parse: Decoder, ev: StreamEvent)
    requires OneBuffer(a)
    ensures var b := NextAnswer(a, calls, parse, ev); OneBuffer(b) && Written(b) == Written(a) + SentBy(ev)
  {
    FlushTextKeeps(a);
    FlushThinkingKeeps(a);
    FlushThinkingKeeps(FlushText(a));
    hide Written, FlushText, FlushThinking, Marked, ToolBlock;
    match ev.kind
    case TextDelta => TextDeltaKeeps(FlushThinking(a), ev.text);
    case ThinkingDelta =>
      var b := FlushText(a);
      ThinkingDeltaKeeps(b, ev.text, if ev.signature != "" then ev.signature else b.thinkingSig);
    case ToolUseEnd => BlockKeeps(a, ToolBlock(calls, parse, ev.id));
    case _ =>
  }

  function SentText(evs: seq<StreamEvent>): seq<Mark> {
    if evs == [] then [] else SentText(evs[..|evs| - 1]) + SentBy(evs[|evs| - 1])
  }

  lemma EventsGrow(front: seq<StreamResult>, last: StreamResult)
    requires AllGot(front) && last.Got?
    ensures AllGot(front + [last]) && |Events(front)| == |front| && Events(front + [last]) == Events(front) + [last.event]
  {}

  lemma {:induction false} FoldKeepsText(production: Option<Limits>, parse: Decoder, results: seq<StreamResult>)
    requires Fold(production, parse, results).Going?
    ensures AllGot(results)
    ensures var a := Fold(production, parse, results).state.answer;
            OneBuffer(a) && Written(a) == SentText(Events(results))
  {
    if results == [] {
      assert Events(results) == [];
    } else {
      var front, last := results[..|results| - 1], results[|results| - 1];
      assert results == front + [last];
      FoldGrows(production, parse, front, last);
      FoldKeepsText(production, parse, front);
      EventsGrow(front, last);
      var s := Fold(production, parse, front).state;
      NextAnswerKeepsText(s.answer, s.calls, parse, last.event);
      hide Fold, NextAnswer, Written, OneBuffer, Admitted, SentBy, Events, AllGot;
      assert Events(results)[..|front|] == Events(front);
    }
  }

  /**
   The text and thinking blocks, read in order, give back every character of the deltas in
   order and of the same kind, in production or not.
   */
  lemma TextIsKept(production: Option<Limits>, parse: Decoder, results: seq<StreamResult>)
    requires Attempt(production, parse, results).Assembled?
    ensures AllGot(results) && TextOf(Attempt(production, parse, results).content) == SentText(Events(results))
  {
    FoldKeepsText(production, parse, results);
    var a := Fold(production, parse, results).state.answer;
    FlushTextKeeps(a);
    FlushThinkingKeeps(FlushText(a));
    var b := FlushThinking(FlushText(a));
    assert Written(b) == TextOf(b.content) + [] + [];
  }

  // ---- Tool calls ----

  function ToolsOf(content: seq<Block>): seq<Block> {
    if content == [] then []
    else
      var b := content[|content| - 1];
      ToolsOf(content[..|content| - 1]) + if b.ToolUse? then [b] else []
  }

  /** The name under which a tool call was last opened. */
  function NameOf(evs: seq<StreamEvent>, id: string): string {
    if evs == [] then ""
    else
      var ev := evs[|evs| - 1];
      if ev.kind.ToolUseStart? && ev.id == id then ev.name else NameOf(evs[..|evs| - 1], id)
  }

  /** The block of a call that ends after these events. */
  function CallBlock(evs: seq<StreamEvent>, id: string, parse: Decoder): Block {
    ToolUse(id, NameOf(evs, id), ToolInput(parse, InputText(evs, id)))
  }

  /** One block for each finished call, in the order of the ends. */
  function FinishedTools(evs: seq<StreamEvent>, parse: Decoder): seq<Block> {
    if evs == [] then []
    else
      var ev, front := evs[|evs| - 1], evs[..|evs| - 1];
      FinishedTools(front, parse) +
      if ev.kind.ToolUseEnd? then [CallBlock(front, ev.id, parse)] else []
  }

  lemma AppendTool(content: seq<Block>, b: Block)
    ensures ToolsOf(content + [b]) == ToolsOf(content) + if b.ToolUse? then [b] else []
  {
    assert (content + [b])[..|content|] == content;
  }

  lemma FlushingAddsNoTool(a: Answer)
    ensures ToolsOf(FlushText(a).content) == ToolsOf(a.content)
    ensures ToolsOf(FlushThinking(a).content) == ToolsOf(a.content)
  {
    AppendTool(a.content, Text(a.textBuf));
    AppendTool(a.content, Thinking(a.thinkingBuf, a.thinkingSig));
  }

  lemma NextAnswerTools(a: Answer, calls: Calls, parse: Decoder, ev: StreamEvent)
    ensures ToolsOf(NextAnswer(a, calls, parse, ev).content) ==
            ToolsOf(a.content) + if ev.kind.ToolUseEnd? then [ToolBlock(calls, parse, ev.id)] else []
  {
    FlushingAddsNoTool(a);
    FlushingAddsNoTool(FlushText(a));
    AppendTool(a.content, ToolBlock(calls, parse, ev.id));
    hide ToolsOf, FlushText, FlushThinking;
  }

  ghost predicate Named(s: State, evs: seq<StreamEvent>, parse: Decoder) {
    && (forall id :: Lookup(s.calls.names, id) == NameOf(evs, id))
    && ToolsOf(s.answer.content) == FinishedTools(evs, parse)
  }

  lemma OneMoreCall(evs: seq<StreamEvent>, ev: StreamEvent, parse: Decoder)
    ensures forall id :: NameOf(evs + [ev], id) == if ev.kind.ToolUseStart? && ev.id == id then ev.name else NameOf(evs, id)
    ensures FinishedTools(evs + [ev], parse) ==
            FinishedTools(evs, parse)
            + if ev.kind.ToolUseEnd? then [CallBlock(evs, ev.id, parse)] else []
    ensures EndIds(evs + [ev]) == EndIds(evs) + if ev.kind.ToolUseEnd? then [ev.id] else []
  {
    assert (evs + [ev])[..|evs|] == evs;
    hide InputText, ToolInput;
  }

  lemma CallsAreNamed(s: State, evs: seq<StreamEvent>, ev: StreamEvent, parse: Decoder)
    requires Named(s, evs, parse) && Remembers(s, evs)
    ensures Named(After(parse, s, ev), evs + [ev], parse)
  {
    NextAnswerTools(s.answer, s.calls, parse, ev);
    OneMoreCall(evs, ev, parse);
    hide NameOf, FinishedTools, NextAnswer, ToolsOf, InputText, Ids, Bytes, Seen, ToolInput;
    assert Lookup(s.calls.inputs, ev.id) == InputText(evs, ev.id);
    var t := After(parse, s, ev);
    assert forall id :: Lookup(t.calls.names, id) == NameOf(evs + [ev], id);
  }

  lemma {:induction false} FoldKeepsTools(limits: Limits, parse: Decoder, results: seq<StreamResult>)
    requires Fold(Some(limits), parse, results).Going? && AllGot(results)
    ensures Named(Fold(Some(limits), parse, results).state, Events(results), parse)
  {
    if results == [] {
      assert Events(results) == [];
    } else {
      var front, last := results[..|results| - 1], results[|results| - 1];
      var ev := last.event;
      assert results == front + [last];
      FoldGrows(Some(limits), parse, front, last);
      EventsGrow(front, last);
      FoldKeepsTools(limits, parse, front);
      GoingMeansOrderly(limits, parse, front);
      CallsAreNamed(Fold(Some(limits), parse, front).state, Events(front), ev, parse);
      hide *;
    }
  }

  function EndIds(evs: seq<StreamEvent>): seq<string> {
    if evs == [] then []
    else
      var ev := evs[|evs| - 1];
      EndIds(evs[..|evs| - 1]) + if ev.kind.ToolUseEnd? then [ev.id] else []
  }

  ghost predicate Started(evs: seq<StreamEvent>, id: string, name: string) {
    exists ev :: ev in evs && ev.kind.ToolUseStart? && ev.id == id && ev.name == name
  }

  /** The block of a finished call: its opening name and the whole of its input, decoded. */
  ghost predicate Reports(b: Block, evs: seq<StreamEvent>, parse: Decoder) {
    && b.ToolUse? && Started(evs, b.id, b.name)
    && var raw := InputText(evs, b.id);
       if raw == "" then b.input == map[] else parse(raw).Some? && b.input == parse(raw).value
  }

  lemma {:induction false} NameIsStarted(evs: seq<StreamEvent>, id: string)
    requires id in Ids(evs, ToolUseStart)
    ensures Started(evs, id, NameOf(evs, id))
  {
    var front, ev := evs[..|evs| - 1], evs[|evs| - 1];
    assert evs == front + [ev];
    if ev.kind.ToolUseStart? && ev.id == id {
      assert ev in evs;
    } else {
      NameIsStarted(front, id);
      var st :| st in front && st.kind.ToolUseStart? && st.id == id && st.name == NameOf(front, id);
      assert st in evs;
    }
  }

  lemma ReportsLater(b: Block, evs: seq<StreamEvent>, ev: StreamEvent, limits: Limits, parse: Decoder)
    requires Reports(b, evs, parse) && b.id in Ids(evs, ToolUseEnd) && Next(evs, ev, limits, parse)
    ensures Reports(b, evs + [ev], parse)
  {
    OneMoreEvent(evs, ev);
    assert InputText(evs, b.id) + "" == InputText(evs, b.id);
    var st :| st in evs && st.kind.ToolUseStart? && st.id == b.id && st.name == b.name;
    assert st in evs + [ev];
  }

  /** One block for each end, in the order of the ends, each for another call. */
  ghost predicate ReportEnds(tools: seq<Block>, evs: seq<StreamEvent>, parse: Decoder) {
    var ids := EndIds(evs);
    && |tools| == |ids|
    && (forall k :: 0 <= k < |ids| ==> Reports(tools[k], evs, parse) && tools[k].id == ids[k])
    && (forall j, k :: 0 <= j < k < |ids| ==> ids[j] != ids[k])
    && (forall id :: id in ids <==> id in Ids(evs, ToolUseEnd))
  }

  lemma EarlierStillReport(tools: seq<Block>, evs: seq<StreamEvent>, ev: StreamEvent, limits: Limits, parse: Decoder)
    requires ReportEnds(tools, evs, parse) && Next(evs, ev, limits, parse)
    ensures forall k :: 0 <= k < |tools| ==> Reports(tools[k], evs + [ev], parse)
  {
    hide EndIds, Ids, Next, Reports;
    forall k | 0 <= k < |tools| ensures Reports(tools[k], evs + [ev], parse) {
      assert EndIds(evs)[k] in EndIds(evs);
      ReportsLater(tools[k], evs, ev, limits, parse);
    }
  }

  lemma ReportOneMore(tools: seq<Block>, evs: seq<StreamEvent>, ev: StreamEvent, limits: Limits, parse: Decoder)
    requires ReportEnds(tools, evs, parse) && Next(evs, ev, limits, parse)
    ensures var more := if ev.kind.ToolUseEnd? then [CallBlock(evs, ev.id, parse)] else [];
            ReportEnds(tools + more, evs + [ev], parse)
  {
    hide Reports, Next, Ids, InputText, EndIds, NameOf, ToolInput, FinishedTools, CallBlock, Started;
    OneMoreCall(evs, ev, parse);
    EarlierStillReport(tools, evs, ev, limits, parse);
    EndsOneMore(evs, ev, limits, parse);
    if ev.kind.ToolUseEnd? {
      LastReports(evs, ev, limits, parse);
      EndsAppend(tools, EndIds(evs), CallBlock(evs, ev.id, parse), evs + [ev], parse);
    } else {
      assert tools + [] == tools && EndIds(evs) + [] == EndIds(evs);
    }
  }

  lemma EndsOneMore(evs: seq<StreamEvent>, ev: StreamEvent, limits: Limits, parse: Decoder)
    requires Next(evs, ev, limits, parse)
    ensures Ids(evs + [ev], ToolUseEnd) == Ids(evs, ToolUseEnd) + if ev.kind.ToolUseEnd? then {ev.id} else {}
    ensures ev.kind.ToolUseEnd? ==> ev.id !in Ids(evs, ToolUseEnd)
    ensures CallBlock(evs, ev.id, parse).id == ev.id
  {
    OneMoreEvent(evs, ev);
    hide InputText, NameOf, Seen, Bytes;
  }

  lemma EndsAppend(tools: seq<Block>, ids: seq<string>, b: Block, evs: seq<StreamEvent>, parse: Decoder)
    requires |tools| == |ids| && forall k :: 0 <= k < |ids| ==> Reports(tools[k], evs, parse) && tools[k].id == ids[k]
    requires forall j, k :: 0 <= j < k < |ids| ==> ids[j] != ids[k]
    requires Reports(b, evs, parse) && b.id !in ids
    ensures forall k :: 0 <= k < |ids| + 1 ==>
              Reports((tools + [b])[k], evs, parse) && (tools + [b])[k].id == (ids + [b.id])[k]
    ensures forall j, k :: 0 <= j < k < |ids| + 1 ==> (ids + [b.id])[j] != (ids + [b.id])[k]
  {
    assert forall k :: 0 <= k < |ids| ==> ids[k] in ids;
    forall k | 0 <= k < |ids| + 1
      ensures Reports((tools + [b])[k], evs, parse) && (tools + [b])[k].id == (ids + [b.id])[k]
    {
      if k < |ids| { assert (tools + [b])[k] == tools[k]; }
    }
  }

  lemma LastReports(evs: seq<StreamEvent>, ev: StreamEvent, limits: Limits, parse: Decoder)
    requires ev.kind.ToolUseEnd? && Next(evs, ev, limits, parse)
    ensures Reports(CallBlock(evs, ev.id, parse), evs + [ev], parse)
  {
    OneMoreEvent(evs, ev);
    NameIsStarted(evs, ev.id);
    var st :| st in evs && st.kind.ToolUseStart? && st.id == ev.id && st.name == NameOf(evs, ev.id);
    assert st in evs + [ev];
    assert InputText(evs, ev.id) + "" == InputText(evs, ev.id);
  }

  lemma {:induction false} FinishedToolsReport(evs: seq<StreamEvent>, limits: Limits, parse: Decoder)
    requires Orderly(evs, limits, parse)
    ensures ReportEnds(FinishedTools(evs, parse), evs, parse)
  {
    hide *;
    if evs == [] {
      NoReports(parse);
    } else {
      var front, ev := evs[..|evs| - 1], evs[|evs| - 1];
      assert evs == front + [ev];
      OrderlyGrows(front, ev, limits, parse);
      FinishedToolsReport(front, limits, parse);
      ReportOneMore(FinishedTools(front, parse), front, ev, limits, parse);
      OneMoreCall(front, ev, parse);
    }
  }

  lemma NoReports(parse: Decoder)
    ensures ReportEnds(FinishedTools([], parse), [], parse)
  {}

  /** What an accepted production turn holds. */
  lemma ToolCallsAreKept(limits: Limits, parse: Decoder, results: seq<StreamResult>)
    requires Attempt(Some(limits), parse, results).Assembled? && AllGot(results)
    ensures var out, evs := Attempt(Some(limits), parse, results), Events(results);
            && ReportEnds(ToolsOf(out.content), evs, parse)
            && Ids(evs, ToolUseEnd) == Ids(evs, ToolUseStart)
            && evs != [] && out.ending == EndingOf(evs[|evs| - 1])
  {
    var s, evs := Fold(Some(limits), parse, results).state, Events(results);
    GoingMeansOrderly(limits, parse, results);
    FoldKeepsTools(limits, parse, results);
    FinishedToolsReport(evs, limits, parse);
    FlushingAddsNoTool(s.answer);
    FlushingAddsNoTool(FlushText(s.answer));
    EndedAreStarted(evs, limits, parse);
    hide Fold, ToolsOf, FinishedTools, EndIds, Reports, Ids, FlushText, FlushThinking;
  }

  lemma EndedAreStarted(evs: seq<StreamEvent>, limits: Limits, parse: Decoder)
    requires Orderly(evs, limits, parse)
    ensures Ids(evs, ToolUseEnd) <= Ids(evs, ToolUseStart)
  {
    forall id | id in Ids(evs, ToolUseEnd) ensures id in Ids(evs, ToolUseStart) {
      var ev :| ev in evs && ev.kind.ToolUseEnd? && ev.id == id;
      var i :| 0 <= i < |evs| && evs[i] == ev;
      assert id in Ids(evs[..i], ToolUseStart);
      var st :| st in evs[..i] && st.kind.ToolUseStart? && st.id == id;
      assert st in evs;
    }
  }

  // ---- When an attempt may be repeated ----

  ghost predicate CommittedBy(results: seq<StreamResult>) {
    exists r :: r in results && r.Got? && r.event.kind in {TextDelta, ThinkingDelta, ToolUseStart, ToolUseInputDelta}
  }

  lemma {:induction false} CommittedMeansContent(production: Option<Limits>, parse: Decoder, results: seq<StreamResult>)
    requires Fold(production, parse, results).Going?
    ensures Fold(production, parse, results).state.committed <==> CommittedBy(results)
  {
    if results != [] {
      var front, last := results[..|results| - 1], results[|results| - 1];
      assert results == front + [last];
      FoldGrows(production, parse, front, last);
      CommittedMeansContent(production, parse, front);
      assert forall r :: r in results <==> r in front || r == last;
      hide Fold, Admitted;
      if last.Got? && Commits(last.event.kind) { assert last in results; }
    }
  }

  /** How far the stream is let through. */
  lemma LetThrough(production: Option<Limits>, parse: Decoder, results: seq<StreamResult>) returns (n: nat)
    ensures n <= |results| && Fold(production, parse, results[..n]).Going?
    ensures n < |results| ==>
              && Fold(production, parse, results[..n + 1]).Stopped?
              && Fold(production, parse, results) == Fold(production, parse, results[..n + 1])
  {
    n := 0;
    hide Step;
    while n < |results| && Fold(production, parse, results[..n + 1]).Going?
      invariant n <= |results| && Fold(production, parse, results[..n]).Going?
    {
      n := n + 1;
    }
    if n < |results| { StoppedForGood(production, parse, results, n + 1); }
  }

  /** What a refusal leaves is what was held before it. */
  lemma RefusalKeepsTheRest(production: Option<Limits>, parse: Decoder, results: seq<StreamResult>, n: nat)
    requires n <= |results| && Fold(production, parse, results[..n]).Going?
    requires n < |results| ==>
               && Fold(production, parse, results[..n + 1]).Stopped?
               && Fold(production, parse, results) == Fold(production, parse, results[..n + 1])
    ensures var out, s := Attempt(production, parse, results), Fold(production, parse, results[..n]).state;
            && out.committed == s.committed
            && (if out.Assembled? then out.ending.usage else out.usage) == s.ending.usage
  {
    hide Fold, FlushText, FlushThinking, Complete;
    if n < |results| {
      assert results[..n + 1] == results[..n] + [results[n]];
      RefusalKeeps(production, parse, results[..n], results[n]);
    } else {
      assert results[..n] == results;
    }
  }

  lemma RefusalKeeps(production: Option<Limits>, parse: Decoder, front: seq<StreamResult>, last: StreamResult)
    requires Fold(production, parse, front).Going? && Fold(production, parse, front + [last]).Stopped?
    ensures var s := Fold(production, parse, front).state;
            Fold(production, parse, front + [last]) == Stopped(s.ending.usage, s.committed)
  {
    hide Admitted, After;
    assert (front + [last])[..|front|] == front;
  }

  /** Whatever the outcome, it says whether any answer content was let through before it. */
  lemma OutcomeTellsCommitted(production: Option<Limits>, parse: Decoder, results: seq<StreamResult>) returns (n: nat)
    ensures n <= |results| && Fold(production, parse, results[..n]).Going?
    ensures n < |results| ==> Fold(production, parse, results[..n + 1]).Stopped?
    ensures Attempt(production, parse, results).committed <==> CommittedBy(results[..n])
  {
    hide *;
    n := LetThrough(production, parse, results);
    CommittedMeansContent(production, parse, results[..n]);
    RefusalKeepsTheRest(production, parse, results, n);
  }

  // ---- What an attempt has cost ----

  /** The usage of the last message end among these events. */
  function UsageOf(evs: seq<StreamEvent>): Usage {
    if evs == [] then NO_USAGE
    else
      var ev := evs[|evs| - 1];
      if ev.kind.MessageEnd? then ev.usage else UsageOf(evs[..|evs| - 1])
  }

  lemma {:induction false} FoldTellsUsage(production: Option<Limits>, parse: Decoder, results: seq<StreamResult>)
    requires Fold(production, parse, results).Going?
    ensures AllGot(results) && Fold(production, parse, results).state.ending.usage == UsageOf(Events(results))
  {
    if results == [] {
      assert Events(results) == [];
    } else {
      var front, last := results[..|results| - 1], results[|results| - 1];
      assert results == front + [last];
      FoldGrows(production, parse, front, last);
      FoldTellsUsage(production, parse, front);
      EventsGrow(front, last);
      hide Fold, NextAnswer, NextCalls, Admitted, Events, AllGot;
      assert (Events(front) + [last.event])[..|Events(front)|] == Events(front);
    }
  }

  /** Every outcome, also a refusal, tells the usage of the last message end that was let through before it. */
  lemma OutcomeTellsUsage(production: Option<Limits>, parse: Decoder, results: seq<StreamResult>) returns (n: nat)
    ensures n <= |results| && AllGot(results[..n])
    ensures n < |results| ==> Fold(production, parse, results[..n + 1]).Stopped?
    ensures var out := Attempt(production, parse, results);
            (if out.Assembled? then out.ending.usage else out.usage) == UsageOf(Events(results[..n]))
  {
    hide *;
    n := LetThrough(production, parse, results);
    FoldTellsUsage(production, parse, results[..n]);
    RefusalKeepsTheRest(production, parse, results, n);
  }
}
