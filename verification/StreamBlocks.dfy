/**
 Where each block of an assembled message comes from: the stretch of deltas it joins, the
 signature it carries, the call it reports, and its place among the others.
 */
module StreamBlocks {
  import opened Results
  import opened Stream
  import opened StreamContent

  // ---- What the events say ----

  /** The text, or the thinking, of these events. */
  function Spoken(evs: seq<StreamEvent>, thinking: bool): string {
    if evs == [] then ""
    else
      var ev := evs[|evs| - 1];
      Spoken(evs[..|evs| - 1], thinking)
      + if (thinking && ev.kind.ThinkingDelta?) || (!thinking && ev.kind.TextDelta?) then ev.text else ""
  }

  /** The last signature that came with thinking. */
  function LastSignature(evs: seq<StreamEvent>): string {
    if evs == [] then ""
    else
      var ev := evs[|evs| - 1];
      if ev.kind.ThinkingDelta? && ev.signature != "" then ev.signature else LastSignature(evs[..|evs| - 1])
  }

  /** The input of a call since it was last opened. */
  function InputSinceStart(evs: seq<StreamEvent>, id: string): string {
    if evs == [] then ""
    else
      var ev := evs[|evs| - 1];
      if ev.kind.ToolUseStart? && ev.id == id then ""
      else InputSinceStart(evs[..|evs| - 1], id) + if ev.kind.ToolUseInputDelta? && ev.id == id then ev.jsonDelta else ""
  }

  /** Which events end a stretch of text, or of thinking. */
  predicate Ends(kind: Kind, thinking: bool) {
    kind.ToolUseStart? || kind.MessageEnd? || (thinking && kind.TextDelta?) || (!thinking && kind.ThinkingDelta?)
  }

  // ---- Where blocks stand ----

  /** The events from `from` up to `to`; a tool block stands at its end event. */
  datatype Span = Span(from: nat, to: nat)

  predicate Speaks(b: Block, thinking: bool) {
    if thinking then b.Thinking? else b.Text?
  }

  /** Where the last block of this kind ends. */
  function LastTo(content: seq<Block>, places: seq<Span>, thinking: bool): nat
    requires |places| == |content|
  {
    if content == [] then 0
    else
      var n := |content| - 1;
      if Speaks(content[n], thinking) then places[n].to else LastTo(content[..n], places[..n], thinking)
  }

  /** Nothing was said in the stretch before an event that would have ended it. */
  ghost predicate Unbroken(evs: seq<StreamEvent>, from: nat, to: nat, thinking: bool)
    requires from <= to <= |evs|
  {
    forall m :: from <= m < to && Ends(evs[m].kind, thinking) ==> Spoken(evs[from..m], thinking) == ""
  }

  /** A whole stretch: something was said, nothing cut it short, and it ends where it must. */
  ghost predicate Stretch(evs: seq<StreamEvent>, p: Span, thinking: bool) {
    && p.from <= p.to <= |evs| && Spoken(evs[p.from..p.to], thinking) != ""
    && Unbroken(evs, p.from, p.to, thinking)
    && (p.to < |evs| ==> Ends(evs[p.to].kind, thinking))
  }

  /** The call that ends at this event, with its opening name and its decoded input. */
  predicate EndsCall(b: Block, evs: seq<StreamEvent>, at: nat, parse: Decoder) {
    && at < |evs| && evs[at].kind.ToolUseEnd? && b.ToolUse? && b.id == evs[at].id
    && b.name == NameOf(evs[..at], b.id)
    && var raw := InputSinceStart(evs[..at], b.id);
       && (raw == "" ==> b.input == map[])
       && (raw != "" && parse(raw).Some? ==> b.input == parse(raw).value)
       && (raw != "" && parse(raw).None? ==>
             b.input.Keys == {"__invalidJson", "raw"} && b.input["__invalidJson"] == "true" && b.input["raw"] == raw)
  }

  ghost predicate PlacedAt(content: seq<Block>, places: seq<Span>, evs: seq<StreamEvent>, parse: Decoder, k: nat)
    requires |places| == |content| && k < |content|
  {
    var p := places[k];
    match content[k]
    case Text(text) =>
      && Stretch(evs, p, false) && text == Spoken(evs[p.from..p.to], false)
      && p.from == LastTo(content[..k], places[..k], false)
    case Thinking(text, signature) =>
      && Stretch(evs, p, true) && text == Spoken(evs[p.from..p.to], true)
      && p.from == LastTo(content[..k], places[..k], true)
      && signature == LastSignature(evs[p.from..p.to])
    case ToolUse(_, _, _) => EndsCall(content[k], evs, p.to, parse)
  }

  /** Every block has its place, and blocks stand in the order of their places. */
  ghost predicate Placed(content: seq<Block>, places: seq<Span>, evs: seq<StreamEvent>, parse: Decoder) {
    && |places| == |content|
    && (forall k :: 0 <= k < |content| ==> PlacedAt(content, places, evs, parse, k))
    && (forall j, k :: 0 <= j < k < |places| ==> places[j].to <= places[k].to)
  }

  // ---- What the automaton holds after n events ----

  ghost predicate Buffer(buf: string, from: nat, evs: seq<StreamEvent>, n: nat, thinking: bool) {
    && from <= n <= |evs| && buf == Spoken(evs[from..n], thinking) && Unbroken(evs, from, n, thinking)
  }

  ghost predicate Holding(a: Answer, places: seq<Span>, evs: seq<StreamEvent>, n: nat, parse: Decoder) {
    && Placed(a.content, places, evs, parse) && n <= |evs|
    && (forall k :: 0 <= k < |places| ==> places[k].to <= n)
    && Buffer(a.textBuf, LastTo(a.content, places, false), evs, n, false)
    && Buffer(a.thinkingBuf, LastTo(a.content, places, true), evs, n, true)
    && a.thinkingSig == LastSignature(evs[LastTo(a.content, places, true)..n])
  }

  lemma LastToOfMore(content: seq<Block>, places: seq<Span>, b: Block, p: Span, thinking: bool)
    requires |places| == |content|
    ensures LastTo(content + [b], places + [p], thinking) ==
            if Speaks(b, thinking) then p.to else LastTo(content, places, thinking)
  {
    assert (content + [b])[..|content|] == content && (places + [p])[..|places|] == places;
  }

  lemma PlacedOneMore(content: seq<Block>, places: seq<Span>, evs: seq<StreamEvent>, parse: Decoder, b: Block, p: Span)
    requires Placed(content, places, evs, parse)
    requires forall k :: 0 <= k < |places| ==> places[k].to <= p.to
    requires PlacedAt(content + [b], places + [p], evs, parse, |content|)
    ensures Placed(content + [b], places + [p], evs, parse)
  {
    var more, there := content + [b], places + [p];
    hide Stretch, EndsCall, Spoken, LastSignature, LastTo;
    forall k | 0 <= k < |more|
      ensures PlacedAt(more, there, evs, parse, k)
    {
      if k < |content| {
        assert more[..k] == content[..k] && there[..k] == places[..k];
        assert PlacedAt(content, places, evs, parse, k);
      }
    }
  }

  lemma FlushTextPlaces(a: Answer, places: seq<Span>, evs: seq<StreamEvent>, n: nat, parse: Decoder) returns (there: seq<Span>)
    requires Holding(a, places, evs, n, parse) && (n < |evs| ==> Ends(evs[n].kind, false))
    ensures Holding(FlushText(a), there, evs, n, parse) && FlushText(a).textBuf == ""
    ensures FlushText(a).thinkingBuf == a.thinkingBuf
  {
    there := places;
    if a.textBuf != "" {
      var b, p := Text(a.textBuf), Span(LastTo(a.content, places, false), n);
      there := places + [p];
      LastToOfMore(a.content, places, b, p, false);
      LastToOfMore(a.content, places, b, p, true);
      assert (a.content + [b])[..|a.content|] == a.content && there[..|places|] == places;
      PlacedOneMore(a.content, places, evs, parse, b, p);
      hide Placed, LastTo;
      assert evs[n..n] == [];
    }
  }

  lemma FlushThinkingPlaces(a: Answer, places: seq<Span>, evs: seq<StreamEvent>, n: nat, parse: Decoder)
    returns (there: seq<Span>)
    requires Holding(a, places, evs, n, parse) && (n < |evs| ==> Ends(evs[n].kind, true))
    ensures Holding(FlushThinking(a), there, evs, n, parse) && FlushThinking(a).thinkingBuf == ""
    ensures FlushThinking(a).textBuf == a.textBuf
  {
    there := places;
    if a.thinkingBuf != "" {
      var b, p := Thinking(a.thinkingBuf, a.thinkingSig), Span(LastTo(a.content, places, true), n);
      there := places + [p];
      LastToOfMore(a.content, places, b, p, false);
      LastToOfMore(a.content, places, b, p, true);
      assert (a.content + [b])[..|a.content|] == a.content && there[..|places|] == places;
      PlacedOneMore(a.content, places, evs, parse, b, p);
      hide Placed, LastTo;
      assert evs[n..n] == [];
    }
  }

  lemma CallPlaces(a: Answer, places: seq<Span>, evs: seq<StreamEvent>, n: nat, parse: Decoder, b: Block)
    returns (there: seq<Span>)
    requires Holding(a, places, evs, n, parse) && EndsCall(b, evs, n, parse)
    ensures Holding(a.(content := a.content + [b]), there, evs, n, parse)
  {
    var p := Span(n, n);
    there := places + [p];
    LastToOfMore(a.content, places, b, p, false);
    LastToOfMore(a.content, places, b, p, true);
    hide EndsCall;
    PlacedOneMore(a.content, places, evs, parse, b, p);
    hide Placed, LastTo;
  }

  /** The next event adds its delta to the stretch of its kind and leaves the other alone. */
  lemma BufferGrows(buf: string, from: nat, evs: seq<StreamEvent>, n: nat, thinking: bool)
    requires Buffer(buf, from, evs, n, thinking) && n < |evs| && (Ends(evs[n].kind, thinking) ==> buf == "")
    ensures Buffer(buf + Spoken([evs[n]], thinking), from, evs, n + 1, thinking)
    ensures LastSignature(evs[from..n + 1]) ==
            if evs[n].kind.ThinkingDelta? && evs[n].signature != "" then evs[n].signature else LastSignature(evs[from..n])
  {
    assert evs[from..n + 1] == evs[from..n] + [evs[n]];
    assert evs[from..n + 1][..n - from] == evs[from..n];
    assert [evs[n]][..0] == [];
  }

  /** What the automaton knows of a call. */
  ghost predicate Knows(calls: Calls, evs: seq<StreamEvent>) {
    forall id :: Lookup(calls.names, id) == NameOf(evs, id) && Lookup(calls.inputs, id) == InputSinceStart(evs, id)
  }

  lemma KnowsNext(calls: Calls, evs: seq<StreamEvent>, ev: StreamEvent)
    requires Knows(calls, evs)
    ensures Knows(NextCalls(calls, ev), evs + [ev])
  {
    assert (evs + [ev])[..|evs|] == evs;
    var next := NextCalls(calls, ev);
    forall id
      ensures Lookup(next.names, id) == NameOf(evs + [ev], id) && Lookup(next.inputs, id) == InputSinceStart(evs + [ev], id)
    {
      assert Lookup(calls.names, id) == NameOf(evs, id) && Lookup(calls.inputs, id) == InputSinceStart(evs, id);
    }
  }

  lemma CallIsEnded(calls: Calls, evs: seq<StreamEvent>, n: nat, parse: Decoder)
    requires n < |evs| && evs[n].kind.ToolUseEnd? && Knows(calls, evs[..n])
    ensures EndsCall(ToolBlock(calls, parse, evs[n].id), evs, n, parse)
  {
    hide NameOf, InputSinceStart;
    assert Lookup(calls.names, evs[n].id) == NameOf(evs[..n], evs[n].id);
    assert Lookup(calls.inputs, evs[n].id) == InputSinceStart(evs[..n], evs[n].id);
  }

  lemma NextAnswerPlaces(a: Answer, calls: Calls, places: seq<Span>, evs: seq<StreamEvent>, n: nat, parse: Decoder)
      returns (there: seq<Span>)
    requires Holding(a, places, evs, n, parse) && n < |evs| && Knows(calls, evs[..n])
    ensures Holding(NextAnswer(a, calls, parse, evs[n]), there, evs, n + 1, parse)
  {
    hide Placed, LastTo, Buffer, Knows, FlushText, FlushThinking, EndsCall, LastSignature, ToolBlock, Holding;
    var ev := evs[n];
    var b := a;
    there := places;
    if Ends(ev.kind, false) {
      there := FlushTextPlaces(b, there, evs, n, parse);
      b := FlushText(b);
    }
    if Ends(ev.kind, true) {
      there := FlushThinkingPlaces(b, there, evs, n, parse);
      b := FlushThinking(b);
    }
    if ev.kind.ToolUseEnd? {
      CallIsEnded(calls, evs, n, parse);
      there := CallPlaces(b, there, evs, n, parse, ToolBlock(calls, parse, ev.id));
      b := b.(content := b.content + [ToolBlock(calls, parse, ev.id)]);
    }
    Grown(b, there, evs, n, parse);
    assert Spoken([ev], true) == if ev.kind.ThinkingDelta? then ev.text else "" by { OneSpeaks(ev, true); }
    assert Spoken([ev], false) == if ev.kind.TextDelta? then ev.text else "" by { OneSpeaks(ev, false); }
    NothingAdded(b);
  }

  lemma OneSpeaks(ev: StreamEvent, thinking: bool)
    ensures Spoken([ev], thinking) ==
            if (thinking && ev.kind.ThinkingDelta?) || (!thinking && ev.kind.TextDelta?) then ev.text else ""
  {
    assert [ev][..0] == [];
  }

  lemma NothingAdded(a: Answer)
    ensures a.(textBuf := a.textBuf + "") == a && a.(thinkingBuf := a.thinkingBuf + "") == a
  {
    assert a.textBuf + "" == a.textBuf && a.thinkingBuf + "" == a.thinkingBuf;
  }

  lemma Grown(a: Answer, places: seq<Span>, evs: seq<StreamEvent>, n: nat, parse: Decoder)
    requires Holding(a, places, evs, n, parse) && n < |evs|
    requires Ends(evs[n].kind, false) ==> a.textBuf == ""
    requires Ends(evs[n].kind, true) ==> a.thinkingBuf == ""
    ensures var ev := evs[n];
            Holding(a.(textBuf := a.textBuf + Spoken([ev], false), thinkingBuf := a.thinkingBuf + Spoken([ev], true),
                       thinkingSig := if ev.kind.ThinkingDelta? && ev.signature != "" then ev.signature else a.thinkingSig),
                    places, evs, n + 1, parse)
  {
    BufferGrows(a.textBuf, LastTo(a.content, places, false), evs, n, false);
    BufferGrows(a.thinkingBuf, LastTo(a.content, places, true), evs, n, true);
    hide Placed, LastTo, Buffer, LastSignature, Spoken;
  }

  // ---- The message ----

  lemma {:induction false} FoldPlaces(production: Option<Limits>, parse: Decoder, results: seq<StreamResult>, n: nat)
      returns (places: seq<Span>)
    requires AllGot(results) && n <= |results| && Fold(production, parse, results[..n]).Going?
    ensures Holding(Fold(production, parse, results[..n]).state.answer, places, Events(results), n, parse)
    ensures Knows(Fold(production, parse, results[..n]).state.calls, Events(results)[..n])
  {
    var evs := Events(results);
    if n == 0 {
      places := [];
      assert evs[0..0] == [] && results[..0] == [];
    } else {
      var front := results[..n - 1];
      assert results[..n] == front + [results[n - 1]] && results[n - 1] in results;
      FoldGrows(production, parse, front, results[n - 1]);
      places := FoldPlaces(production, parse, results, n - 1);
      var s := Fold(production, parse, front).state;
      places := NextAnswerPlaces(s.answer, s.calls, places, evs, n - 1, parse);
      KnowsNext(s.calls, evs[..n - 1], evs[n - 1]);
      assert evs[..n] == evs[..n - 1] + [evs[n - 1]];
      hide Holding, Knows, NextAnswer, NextCalls, Fold, Admitted;
    }
  }

  /**
   Every block of an assembled message, in production or not, has its place in the stream: a text
   or thinking block joins one whole stretch of its deltas, from the end of the previous one of
   its kind to the event that ends it, a thinking block with the last signature in that stretch;
   a tool block stands at the end of its call and holds its input, decoded if it decodes and kept
   as it is if not. The blocks stand in the order of their places.
   */
  lemma BlocksHaveTheirPlaces(production: Option<Limits>, parse: Decoder, results: seq<StreamResult>)
      returns (places: seq<Span>)
    requires Attempt(production, parse, results).Assembled? && AllGot(results)
    ensures Placed(Attempt(production, parse, results).content, places, Events(results), parse)
  {
    assert results[..|results|] == results;
    places := FoldPlaces(production, parse, results, |results|);
    var a, evs := Fold(production, parse, results).state.answer, Events(results);
    hide Placed, LastTo, Buffer, Fold, FlushText, FlushThinking;
    places := FlushTextPlaces(a, places, evs, |evs|, parse);
    places := FlushThinkingPlaces(FlushText(a), places, evs, |evs|, parse);
  }
}
