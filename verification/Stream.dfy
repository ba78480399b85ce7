/**
 Assembly of one provider turn from its event stream. In production mode the stream must keep
 to a protocol and to limits; otherwise nearly everything is let through. Byte lengths are
 taken as character counts, and JSON decoding is a parameter.
 */
module Stream {
  import opened Results

  const MAX_INT: int := 0x7fff_ffff_ffff_ffff
  type Int64 = i: int | -MAX_INT - 1 <= i <= MAX_INT

  datatype Kind =
    | MessageStart | TextDelta | ThinkingDelta | ToolUseStart | ToolUseInputDelta | ToolUseEnd | MessageEnd
    | Unsupported(name: string)

  datatype Usage = Usage(input: Int64, output: Int64, cacheRead: Int64, cacheCreation: Int64)

  /** Provider metadata; `json` is its encoding, if it has one. */
  datatype Metadata = NoMetadata | Metadata(json: Option<string>)

  datatype StreamEvent = StreamEvent(
    kind: Kind, model: string, text: string, signature: string, id: string, name: string,
    jsonDelta: string, stopReason: string, usage: Usage, metadata: Metadata)

  datatype StreamResult = Got(event: StreamEvent) | Failed

  type Json = map<string, string>
  type Decoder = string -> Option<Json>

  /** A production limit, checked to be positive when the agent is set up. */
  type Limit = i: int | 0 < i <= MAX_INT witness 1

  datatype Limits = Limits(maxResponseBytes: Limit, maxEvents: Limit, maxToolCalls: Limit, maxTotalTokens: Limit)

  datatype Block =
    | Text(text: string)
    | Thinking(text: string, signature: string)
    | ToolUse(id: string, name: string, input: Json)

  datatype Outcome =
    | Assembled(content: seq<Block>, ending: Ending, committed: bool)
    | Refused(usage: Usage, committed: bool)

  const NO_USAGE := Usage(0, 0, 0, 0)
  const END_TURN := "end_turn"
  const TOOL_USE := "tool_use"

  function KindName(kind: Kind): string {
    match kind
    case MessageStart => "message_start"
    case TextDelta => "text_delta"
    case ThinkingDelta => "thinking_delta"
    case ToolUseStart => "tool_use_start"
    case ToolUseInputDelta => "tool_use_input_delta"
    case ToolUseEnd => "tool_use_end"
    case MessageEnd => "message_end"
    case Unsupported(name) => name
  }

  function MetadataSize(m: Metadata): nat {
    if m.Metadata? && m.json.Some? then |m.json.value| else 0
  }

  predicate Serializable(m: Metadata) {
    m.Metadata? ==> m.json.Some?
  }

  function Size(ev: StreamEvent): nat {
    32 + |KindName(ev.kind)| + |ev.id| + |ev.name| + |ev.text| + |ev.signature|
    + |ev.jsonDelta| + |ev.model| + |ev.stopReason| + MetadataSize(ev.metadata)
  }

  // ---- Token counts ----

  /** An event costs 32 bytes and the length of all its texts put together. */
  lemma SizeCountsTexts(ev: StreamEvent)
    ensures var metadata := if ev.metadata.Metadata? && ev.metadata.json.Some? then ev.metadata.json.value else "";
            var texts := KindName(ev.kind) + ev.id + ev.name + ev.text + ev.signature
                         + ev.jsonDelta + ev.model + ev.stopReason + metadata;
            Size(ev) == 32 + |texts|
  {}

  function Values(u: Usage): seq<int> {
    [u.input, u.output, u.cacheRead, u.cacheCreation]
  }

  function Tokens(u: Usage): int {
    u.input + u.output + u.cacheRead + u.cacheCreation
  }

  function SumOf(values: seq<int>): int {
    if values == [] then 0 else SumOf(values[..|values| - 1]) + values[|values| - 1]
  }

  lemma PartialSums(u: Usage)
    ensures var v := Values(u);
            && SumOf(v[..0]) == 0 && SumOf(v[..4]) == Tokens(u) && v[..4] == v
            && forall k :: 0 <= k < 4 ==> SumOf(v[..k + 1]) == SumOf(v[..k]) + v[k]
    ensures u.input >= 0 && u.output >= 0 && u.cacheRead >= 0 && u.cacheCreation >= 0 ==>
              forall k :: 0 <= k <= 4 ==> SumOf(Values(u)[..k]) <= Tokens(u)
  {
    var v := Values(u);
    assert v[..4] == v;
    forall k | 0 <= k < 4 ensures SumOf(v[..k + 1]) == SumOf(v[..k]) + v[k] {
      assert v[..k + 1][..k] == v[..k];
    }
    assert SumOf(v[..1]) == v[0] && SumOf(v[..2]) == v[0] + v[1] && SumOf(v[..3]) == v[0] + v[1] + v[2];
  }

  /** The total, unless a count is negative or the total does not fit the machine integer. */
  method UsageTokenCount(u: Usage) returns (count: Option<Int64>)
    ensures count.Some? <==>
            u.input >= 0 && u.output >= 0 && u.cacheRead >= 0 && u.cacheCreation >= 0 && Tokens(u) <= MAX_INT
    ensures count.Some? ==> count.value == Tokens(u)
  {
    PartialSums(u);
    var total: Int64 := 0;
    var values := Values(u);
    for k := 0 to |values|
      invariant forall i :: 0 <= i < k ==> values[i] >= 0
      invariant total == SumOf(values[..k])
    {
      if values[k] < 0 { return None; }
      if total > MAX_INT - values[k] { return None; }
      total := total + values[k];
    }
    return Some(total);
  }

  predicate UsageAllowed(u: Usage, limits: Limits) {
    u.input >= 0 && u.output >= 0 && u.cacheRead >= 0 && u.cacheCreation >= 0 && Tokens(u) <= limits.maxTotalTokens
  }

  lemma UsageAllowedIff(u: Usage, limits: Limits)
    ensures UsageAllowed(u, limits) <==>
            (forall count :: count in Values(u) ==> count >= 0) && SumOf(Values(u)) <= limits.maxTotalTokens
  {
    hide SumOf;
    PartialSums(u);
    AllCounts(u);
  }

  lemma AllCounts(u: Usage)
    ensures (forall count :: count in Values(u) ==> count >= 0) <==>
            u.input >= 0 && u.output >= 0 && u.cacheRead >= 0 && u.cacheCreation >= 0
  {
    var v := Values(u);
    assert v[0] in v && v[1] in v && v[2] in v && v[3] in v;
  }

  // ---- The state between two events ----

  /** The blocks that are done and the two buffers that fill up to the next ones. */
  datatype Answer = Answer(content: seq<Block>, textBuf: string, thinkingBuf: string, thinkingSig: string)

  datatype Calls = Calls(names: map<string, string>, inputs: map<string, string>, started: set<string>, ended: set<string>)

  datatype Ending = Ending(stop: string, usage: Usage, metadata: Metadata)

  datatype State = State(
    answer: Answer, calls: Calls, ending: Ending,
    committed: bool, responseBytes: nat, providerEvents: nat, messageStarted: bool, messageEnded: bool)

  const INITIAL := State(Answer([], "", "", ""), Calls(map[], map[], {}, {}), Ending(END_TURN, NO_USAGE, NoMetadata),
                         false, 0, 0, false, false)

  datatype Progress = Going(state: State) | Stopped(usage: Usage, committed: bool)

  function FlushText(a: Answer): Answer {
    if a.textBuf == "" then a else a.(content := a.content + [Text(a.textBuf)], textBuf := "")
  }

  function FlushThinking(a: Answer): Answer {
    if a.thinkingBuf == "" then a
    else a.(content := a.content + [Thinking(a.thinkingBuf, a.thinkingSig)], thinkingBuf := "", thinkingSig := "")
  }

  function Lookup(m: map<string, string>, key: string): string {
    if key in m then m[key] else ""
  }

  /** The decoded tool input; text that is no JSON is kept aside outside production. */
  function ToolInput(parse: Decoder, raw: string): Json {
    if raw == "" then map[]
    else if parse(raw).Some? then parse(raw).value
    else map["__invalidJson" := "true", "raw" := raw]
  }

  function ToolBlock(calls: Calls, parse: Decoder, id: string): Block {
    ToolUse(id, Lookup(calls.names, id), ToolInput(parse, Lookup(calls.inputs, id)))
  }

  function NextAnswer(a: Answer, calls: Calls, parse: Decoder, ev: StreamEvent): Answer {
    match ev.kind
    case TextDelta => var b := FlushThinking(a); b.(textBuf := b.textBuf + ev.text)
    case ThinkingDelta =>
      var b := FlushText(a);
      b.(thinkingBuf := b.thinkingBuf + ev.text, thinkingSig := if ev.signature != "" then ev.signature else b.thinkingSig)
    case ToolUseStart => FlushThinking(FlushText(a))
    case ToolUseEnd => a.(content := a.content + [ToolBlock(calls, parse, ev.id)])
    case MessageEnd => FlushThinking(FlushText(a))
    case _ => a
  }

  function NextCalls(c: Calls, ev: StreamEvent): Calls {
    match ev.kind
    case ToolUseStart => Calls(c.names[ev.id := ev.name], c.inputs[ev.id := ""], c.started + {ev.id}, c.ended)
    case ToolUseInputDelta => c.(inputs := c.inputs[ev.id := Lookup(c.inputs, ev.id) + ev.jsonDelta])
    case ToolUseEnd => c.(ended := c.ended + {ev.id})
    case _ => c
  }

  function NextEnding(e: Ending, ev: StreamEvent): Ending {
    if ev.kind.MessageEnd? then Ending(ev.stopReason, ev.usage, ev.metadata) else e
  }

  /** The events after which a failed attempt is not repeated. */
  predicate Commits(kind: Kind) {
    kind.TextDelta? || kind.ThinkingDelta? || kind.ToolUseStart? || kind.ToolUseInputDelta?
  }

  /** The production checks that go with the kind of event. */
  predicate KindAdmitted(limits: Limits, parse: Decoder, s: State, ev: StreamEvent) {
    match ev.kind
    case MessageStart => !s.messageStarted
    case TextDelta => s.messageStarted
    case ThinkingDelta => true
    case ToolUseStart =>
      ev.id != "" && ev.name != "" && ev.id !in s.calls.started && |s.calls.started| < limits.maxToolCalls
    case ToolUseInputDelta => ev.id in s.calls.started && ev.id !in s.calls.ended
    case ToolUseEnd =>
      && ev.id in s.calls.started && ev.id !in s.calls.ended
      && var raw := Lookup(s.calls.inputs, ev.id); (raw == "" || parse(raw).Some?)
    case MessageEnd => !s.messageEnded && s.messageStarted && UsageAllowed(ev.usage, limits)
    case Unsupported(_) => false
  }

  /** The checks made in production, limits first. */
  predicate Admitted(limits: Limits, parse: Decoder, s: State, ev: StreamEvent) {
    && s.providerEvents + 1 <= limits.maxEvents && !s.messageEnded
    && s.responseBytes + Size(ev) <= limits.maxResponseBytes
    && KindAdmitted(limits, parse, s, ev)
  }

  function After(parse: Decoder, s: State, ev: StreamEvent): State {
    State(NextAnswer(s.answer, s.calls, parse, ev), NextCalls(s.calls, ev), NextEnding(s.ending, ev),
          s.committed || Commits(ev.kind), s.responseBytes + Size(ev), s.providerEvents + 1,
          s.messageStarted || ev.kind.MessageStart?, s.messageEnded || ev.kind.MessageEnd?)
  }

  function Step(production: Option<Limits>, parse: Decoder, s: State, r: StreamResult): Progress {
    if r.Failed? || !Serializable(r.event.metadata) || (production.Some? && !Admitted(production.value, parse, s, r.event))
    then Stopped(s.ending.usage, s.committed)
    else Going(After(parse, s, r.event))
  }

  function Fold(production: Option<Limits>, parse: Decoder, results: seq<StreamResult>): Progress {
    if results == [] then Going(INITIAL)
    else
      var before := Fold(production, parse, results[..|results| - 1]);
      if before.Stopped? then before else Step(production, parse, before.state, results[|results| - 1])
  }

  /** One result more: let through exactly when all before it were and it passes its own checks. */
  lemma FoldGrows(production: Option<Limits>, parse: Decoder, front: seq<StreamResult>, last: StreamResult)
    ensures var before, after := Fold(production, parse, front), Fold(production, parse, front + [last]);
            && (after.Going? <==>
                  before.Going? && last.Got? && Serializable(last.event.metadata)
                  && (production.Some? ==> Admitted(production.value, parse, before.state, last.event)))
            && (after.Going? ==> after.state == After(parse, before.state, last.event))
            && (before.Stopped? ==> after == before)
  {
    assert (front + [last])[..|front|] == front;
    hide Admitted, After;
  }

  /** A refusal is final. */
  lemma {:induction false} StoppedForGood(production: Option<Limits>, parse: Decoder, results: seq<StreamResult>, n: nat)
    requires n <= |results| && Fold(production, parse, results[..n]).Stopped?
    ensures Fold(production, parse, results) == Fold(production, parse, results[..n])
  {
    if n < |results| {
      var front := results[..|results| - 1];
      assert front[..n] == results[..n];
      StoppedForGood(production, parse, front, n);
    } else {
      assert results[..n] == results;
    }
  }

  predicate Complete(s: State) {
    && s.messageEnded
    && s.calls.started <= s.calls.ended
    && (s.ending.stop == TOOL_USE ==> s.calls.ended != {})
  }

  function Attempt(production: Option<Limits>, parse: Decoder, results: seq<StreamResult>): Outcome {
    var end := Fold(production, parse, results);
    if end.Stopped? then Refused(end.usage, end.committed)
    else if production.Some? && !Complete(end.state) then Refused(end.state.ending.usage, end.state.committed)
    else
      var s := end.state;
      Assembled(FlushThinking(FlushText(s.answer)).content, s.ending, s.committed)
  }

  // ---- The protocol, as a property of the whole sequence ----

  ghost predicate Seen(evs: seq<StreamEvent>, kind: Kind) {
    exists ev :: ev in evs && ev.kind == kind
  }

  function Ids(evs: seq<StreamEvent>, kind: Kind): set<string> {
    set ev | ev in evs && ev.kind == kind :: ev.id
  }

  function Bytes(evs: seq<StreamEvent>): nat {
    if evs == [] then 0 else Bytes(evs[..|evs| - 1]) + Size(evs[|evs| - 1])
  }

  /** All input text sent for one tool call. */
  function InputText(evs: seq<StreamEvent>, id: string): string {
    if evs == [] then ""
    else
      var ev := evs[|evs| - 1];
      InputText(evs[..|evs| - 1], id) + if ev.kind.ToolUseInputDelta? && ev.id == id then ev.jsonDelta else ""
  }

  /** At most one message start, and no text and no end before it. */
  ghost predicate StartsFirst(evs: seq<StreamEvent>) {
    && (forall i, j :: 0 <= i < j < |evs| ==> !(evs[i].kind.MessageStart? && evs[j].kind.MessageStart?))
    && (forall i :: 0 <= i < |evs| && (evs[i].kind.TextDelta? || evs[i].kind.MessageEnd?) ==> Seen(evs[..i], MessageStart))
  }

  /** Nothing follows the message end. */
  ghost predicate EndsLast(evs: seq<StreamEvent>) {
    forall i :: 0 <= i < |evs| - 1 ==> !evs[i].kind.MessageEnd?
  }

  /** Each tool call is opened once, under a name, before its input and its one end, and no input follows the end. */
  ghost predicate ToolsOpenAndClose(evs: seq<StreamEvent>) {
    && (forall i :: 0 <= i < |evs| && evs[i].kind.ToolUseStart? ==>
          evs[i].id != "" && evs[i].name != "" && evs[i].id !in Ids(evs[..i], ToolUseStart))
    && (forall i :: 0 <= i < |evs| && (evs[i].kind.ToolUseInputDelta? || evs[i].kind.ToolUseEnd?) ==>
          evs[i].id in Ids(evs[..i], ToolUseStart) && evs[i].id !in Ids(evs[..i], ToolUseEnd))
  }

  /** Each event taken by itself is acceptable. */
  ghost predicate EachAcceptable(evs: seq<StreamEvent>, limits: Limits) {
    forall i :: 0 <= i < |evs| ==>
      && Serializable(evs[i].metadata) && !evs[i].kind.Unsupported?
      && (evs[i].kind.MessageEnd? ==> UsageAllowed(evs[i].usage, limits))
  }

  /** The input of each finished tool call is empty or valid JSON. */
  ghost predicate InputsDecode(evs: seq<StreamEvent>, parse: Decoder) {
    forall i :: 0 <= i < |evs| && evs[i].kind.ToolUseEnd? ==>
      var raw := InputText(evs[..i], evs[i].id);
      raw == "" || parse(raw).Some?
  }

  ghost predicate WithinLimits(evs: seq<StreamEvent>, limits: Limits) {
    && |evs| <= limits.maxEvents
    && Bytes(evs) <= limits.maxResponseBytes
    && |Ids(evs, ToolUseStart)| <= limits.maxToolCalls
  }

  /** What a stream must keep while it runs. */
  ghost predicate Orderly(evs: seq<StreamEvent>, limits: Limits, parse: Decoder) {
    && StartsFirst(evs) && EndsLast(evs) && ToolsOpenAndClose(evs)
    && EachAcceptable(evs, limits) && InputsDecode(evs, parse) && WithinLimits(evs, limits)
  }

  /** What a stream must have reached when it ends. */
  ghost predicate Finished(evs: seq<StreamEvent>) {
    && evs != [] && evs[|evs| - 1].kind.MessageEnd?
    && Ids(evs, ToolUseStart) <= Ids(evs, ToolUseEnd)
    && (evs[|evs| - 1].stopReason == TOOL_USE ==> Ids(evs, ToolUseEnd) != {})
  }

  ghost predicate Protocol(evs: seq<StreamEvent>, limits: Limits, parse: Decoder) {
    Orderly(evs, limits, parse) && Finished(evs)
  }

  // ---- The automaton accepts exactly the protocol ----

  lemma OneMoreEvent(evs: seq<StreamEvent>, ev: StreamEvent)
    ensures forall kind :: Seen(evs + [ev], kind) <==> Seen(evs, kind) || ev.kind == kind
    ensures forall kind :: Ids(evs + [ev], kind) == Ids(evs, kind) + if ev.kind == kind then {ev.id} else {}
    ensures Bytes(evs + [ev]) == Bytes(evs) + Size(ev)
    ensures forall id :: InputText(evs + [ev], id) ==
              InputText(evs, id) + if ev.kind.ToolUseInputDelta? && ev.id == id then ev.jsonDelta else ""
  {
    var all := evs + [ev];
    assert all[..|all| - 1] == evs;
    assert forall x :: x in all <==> x in evs || x == ev;
    forall kind ensures Seen(all, kind) <==> Seen(evs, kind) || ev.kind == kind {
      if ev.kind == kind { assert ev in all; }
      if Seen(evs, kind) { var x :| x in evs && x.kind == kind; assert x in all; }
    }
    forall kind ensures Ids(all, kind) == Ids(evs, kind) + if ev.kind == kind then {ev.id} else {} {
      forall id ensures id in Ids(all, kind) <==> id in Ids(evs, kind) || (ev.kind == kind && id == ev.id) {
        if ev.kind == kind { assert ev in all; }
        if id in Ids(evs, kind) { var x :| x in evs && x.kind == kind && x.id == id; assert x in all; }
      }
    }
  }

  lemma Prefixes(evs: seq<StreamEvent>, ev: StreamEvent)
    ensures forall i :: 0 <= i < |evs| ==> (evs + [ev])[..i] == evs[..i] && (evs + [ev])[i] == evs[i]
    ensures (evs + [ev])[..|evs|] == evs && (evs + [ev])[|evs|] == ev
  {}

  /** What one more event must meet, given those before it. */
  ghost predicate Next(evs: seq<StreamEvent>, ev: StreamEvent, limits: Limits, parse: Decoder) {
    && !Seen(evs, MessageEnd)
    && (ev.kind.MessageStart? ==> !Seen(evs, MessageStart))
    && (ev.kind.TextDelta? || ev.kind.MessageEnd? ==> Seen(evs, MessageStart))
    && (ev.kind.ToolUseStart? ==>
          ev.id != "" && ev.name != "" && ev.id !in Ids(evs, ToolUseStart)
          && |Ids(evs, ToolUseStart)| < limits.maxToolCalls)
    && (ev.kind.ToolUseInputDelta? || ev.kind.ToolUseEnd? ==>
          ev.id in Ids(evs, ToolUseStart) && ev.id !in Ids(evs, ToolUseEnd))
    && (ev.kind.ToolUseEnd? ==> InputText(evs, ev.id) == "" || parse(InputText(evs, ev.id)).Some?)
    && Serializable(ev.metadata) && !ev.kind.Unsupported?
    && (ev.kind.MessageEnd? ==> UsageAllowed(ev.usage, limits))
    && |evs| + 1 <= limits.maxEvents && Bytes(evs) + Size(ev) <= limits.maxResponseBytes
  }

  lemma StartsFirstGrows(evs: seq<StreamEvent>, ev: StreamEvent)
    ensures StartsFirst(evs + [ev]) <==>
            && StartsFirst(evs) && (ev.kind.MessageStart? ==> !Seen(evs, MessageStart))
            && (ev.kind.TextDelta? || ev.kind.MessageEnd? ==> Seen(evs, MessageStart))
  {
    Prefixes(evs, ev);
    var all := evs + [ev];
    if Seen(evs, MessageStart) && ev.kind.MessageStart? {
      var x :| x in evs && x.kind == MessageStart;
      var i :| 0 <= i < |evs| && evs[i] == x;
      assert all[i].kind.MessageStart? && all[|evs|].kind.MessageStart?;
    }
    if StartsFirst(all) {
      assert all[|evs|] == ev;
      forall i, j | 0 <= i < j < |evs| ensures !(evs[i].kind.MessageStart? && evs[j].kind.MessageStart?) {
        assert all[i] == evs[i] && all[j] == evs[j];
      }
      forall i | 0 <= i < |evs| && (evs[i].kind.TextDelta? || evs[i].kind.MessageEnd?)
        ensures Seen(evs[..i], MessageStart)
      {
        assert all[i] == evs[i];
      }
    }
    if StartsFirst(evs) && (ev.kind.MessageStart? ==> !Seen(evs, MessageStart)) {
      forall i, j | 0 <= i < j < |all| ensures !(all[i].kind.MessageStart? && all[j].kind.MessageStart?) {
        assert all[i] == evs[i] && evs[i] in evs;
      }
    }
  }

  lemma EndsLastGrows(evs: seq<StreamEvent>, ev: StreamEvent)
    ensures EndsLast(evs + [ev]) <==> !Seen(evs, MessageEnd)
    ensures !Seen(evs, MessageEnd) ==> EndsLast(evs)
  {
    Prefixes(evs, ev);
    if Seen(evs, MessageEnd) {
      var x :| x in evs && x.kind == MessageEnd;
      var i :| 0 <= i < |evs| && evs[i] == x;
      assert (evs + [ev])[i].kind.MessageEnd?;
    }
  }

  lemma ToolsGrow(evs: seq<StreamEvent>, ev: StreamEvent)
    ensures ToolsOpenAndClose(evs + [ev]) <==>
            && ToolsOpenAndClose(evs)
            && (ev.kind.ToolUseStart? ==> ev.id != "" && ev.name != "" && ev.id !in Ids(evs, ToolUseStart))
            && (ev.kind.ToolUseInputDelta? || ev.kind.ToolUseEnd? ==>
                  ev.id in Ids(evs, ToolUseStart) && ev.id !in Ids(evs, ToolUseEnd))
  {
    Prefixes(evs, ev);
    hide Ids;
    var all := evs + [ev];
    assert forall i :: 0 <= i < |all| ==> (i < |evs| && all[i] == evs[i] && all[..i] == evs[..i])
                                          || (i == |evs| && all[i] == ev && all[..i] == evs);
    if ToolsOpenAndClose(all) {
      assert all[|evs|] == ev;
      assert forall i :: 0 <= i < |evs| ==> all[i] == evs[i];
    }
  }

  lemma InputsGrow(evs: seq<StreamEvent>, ev: StreamEvent, parse: Decoder)
    ensures InputsDecode(evs + [ev], parse) <==>
            && InputsDecode(evs, parse)
            && (ev.kind.ToolUseEnd? ==> InputText(evs, ev.id) == "" || parse(InputText(evs, ev.id)).Some?)
  {
    Prefixes(evs, ev);
    hide InputText;
    var all := evs + [ev];
    assert forall i :: 0 <= i < |all| ==> (i < |evs| && all[i] == evs[i] && all[..i] == evs[..i])
                                          || (i == |evs| && all[i] == ev && all[..i] == evs);
    if InputsDecode(all, parse) {
      assert all[|evs|] == ev;
      assert forall i :: 0 <= i < |evs| ==> all[i] == evs[i];
    }
  }

  lemma AcceptableGrows(evs: seq<StreamEvent>, ev: StreamEvent, limits: Limits)
    ensures EachAcceptable(evs + [ev], limits) <==>
            && EachAcceptable(evs, limits)
            && Serializable(ev.metadata) && !ev.kind.Unsupported?
            && (ev.kind.MessageEnd? ==> UsageAllowed(ev.usage, limits))
  {
    Prefixes(evs, ev);
    var all := evs + [ev];
    if EachAcceptable(all, limits) {
      assert all[|evs|] == ev;
      assert forall i :: 0 <= i < |evs| ==> all[i] == evs[i];
    }
  }

  lemma LimitsGrow(evs: seq<StreamEvent>, ev: StreamEvent, limits: Limits)
    requires ev.kind.ToolUseStart? ==> ev.id !in Ids(evs, ToolUseStart)
    ensures WithinLimits(evs + [ev], limits) <==>
            && WithinLimits(evs, limits)
            && |evs| + 1 <= limits.maxEvents && Bytes(evs) + Size(ev) <= limits.maxResponseBytes
            && (ev.kind.ToolUseStart? ==> |Ids(evs, ToolUseStart)| < limits.maxToolCalls)
  {
    OneMoreEvent(evs, ev);
    assert |evs + [ev]| == |evs| + 1;
    if ev.kind.ToolUseStart? {
      assert |Ids(evs, ToolUseStart) + {ev.id}| == |Ids(evs, ToolUseStart)| + 1;
    } else {
      assert Ids(evs, ToolUseStart) + {} == Ids(evs, ToolUseStart);
    }
  }

  /** Order is kept event by event. */
  lemma OrderlyGrows(evs: seq<StreamEvent>, ev: StreamEvent, limits: Limits, parse: Decoder)
    ensures Orderly(evs + [ev], limits, parse) <==> Orderly(evs, limits, parse) && Next(evs, ev, limits, parse)
  {
    StartsFirstGrows(evs, ev);
    EndsLastGrows(evs, ev);
    ToolsGrow(evs, ev);
    InputsGrow(evs, ev, parse);
    AcceptableGrows(evs, ev, limits);
    hide StartsFirst, EndsLast, ToolsOpenAndClose, EachAcceptable, InputsDecode, WithinLimits, Seen, Ids, InputText, Bytes, Size;
    if ev.kind.ToolUseStart? ==> ev.id !in Ids(evs, ToolUseStart) {
      LimitsGrow(evs, ev, limits);
    }
  }

  /** What the automaton remembers of the events it has let through. */
  ghost predicate Remembers(s: State, evs: seq<StreamEvent>) {
    && (s.messageStarted <==> Seen(evs, MessageStart))
    && (s.messageEnded <==> Seen(evs, MessageEnd))
    && s.responseBytes == Bytes(evs) && s.providerEvents == |evs|
    && RemembersCalls(s.calls, evs)
    && (s.messageEnded ==> evs != [] && evs[|evs| - 1].kind.MessageEnd? && EndingOf(evs[|evs| - 1]) == s.ending)
  }

  function EndingOf(ev: StreamEvent): Ending {
    Ending(ev.stopReason, ev.usage, ev.metadata)
  }

  ghost predicate RemembersCalls(calls: Calls, evs: seq<StreamEvent>) {
    && calls.started == Ids(evs, ToolUseStart) && calls.ended == Ids(evs, ToolUseEnd)
    && calls.inputs.Keys <= calls.started
    && (forall id :: Lookup(calls.inputs, id) == InputText(evs, id))
  }

  lemma AdmittedIsNext(limits: Limits, parse: Decoder, s: State, evs: seq<StreamEvent>, ev: StreamEvent)
    requires Remembers(s, evs)
    ensures Serializable(ev.metadata) && Admitted(limits, parse, s, ev) <==> Next(evs, ev, limits, parse)
  {
    hide Seen, Ids, Bytes, Size, InputText, UsageAllowed;
  }

  lemma CallsRemember(calls: Calls, evs: seq<StreamEvent>, ev: StreamEvent)
    requires RemembersCalls(calls, evs)
    requires ev.kind.ToolUseStart? ==> ev.id !in Ids(evs, ToolUseStart)
    requires ev.kind.ToolUseInputDelta? ==> ev.id in Ids(evs, ToolUseStart)
    ensures RemembersCalls(NextCalls(calls, ev), evs + [ev])
  {
    OneMoreEvent(evs, ev);
    hide Ids, InputText;
    forall id ensures Lookup(NextCalls(calls, ev).inputs, id) == InputText(evs + [ev], id) {
      assert InputText(evs, id) + "" == InputText(evs, id);
    }
  }

  lemma AfterRemembers(limits: Limits, parse: Decoder, s: State, evs: seq<StreamEvent>, ev: StreamEvent)
    requires Remembers(s, evs) && Next(evs, ev, limits, parse)
    ensures Remembers(After(parse, s, ev), evs + [ev])
  {
    CallsRemember(s.calls, evs, ev);
    OneMoreEvent(evs, ev);
    hide Seen, Ids, Bytes, Size, InputText, UsageAllowed, RemembersCalls, NextCalls, NextAnswer;
    assert (evs + [ev])[|evs|] == ev;
  }

  ghost predicate AllGot(results: seq<StreamResult>) {
    forall r :: r in results ==> r.Got?
  }

  ghost function Events(results: seq<StreamResult>): seq<StreamEvent>
    requires AllGot(results)
  {
    seq(|results|, i requires 0 <= i < |results| => assert results[i] in results; results[i].event)
  }

  /** The stream so far was let through, and it was in order. */
  ghost predicate InOrder(limits: Limits, parse: Decoder, results: seq<StreamResult>) {
    AllGot(results) && Orderly(Events(results), limits, parse)
  }

  lemma InOrderGrows(limits: Limits, parse: Decoder, front: seq<StreamResult>, last: StreamResult)
    ensures InOrder(limits, parse, front + [last]) <==>
            InOrder(limits, parse, front) && last.Got? && Next(Events(front), last.event, limits, parse)
    ensures AllGot(front) && last.Got? ==> Events(front + [last]) == Events(front) + [last.event]
  {
    var results := front + [last];
    assert AllGot(results) <==> AllGot(front) && last.Got?;
    hide Orderly, Next;
    if AllGot(results) {
      assert Events(results) == Events(front) + [last.event];
      OrderlyGrows(Events(front), last.event, limits, parse);
    }
  }

  lemma {:induction false} GoingMeansOrderly(limits: Limits, parse: Decoder, results: seq<StreamResult>)
    ensures Fold(Some(limits), parse, results).Going? <==> InOrder(limits, parse, results)
    ensures Fold(Some(limits), parse, results).Going? ==>
            Remembers(Fold(Some(limits), parse, results).state, Events(results))
  {
    if results == [] {
      assert Events(results) == [];
    } else {
      var front, last := results[..|results| - 1], results[|results| - 1];
      assert results == front + [last];
      GoingMeansOrderly(limits, parse, front);
      FoldGrows(Some(limits), parse, front, last);
      InOrderGrows(limits, parse, front, last);
      var before := Fold(Some(limits), parse, front);
      assert before.Going? ==> AllGot(front);
      hide *;
      if before.Going? && last.Got? {
        AdmittedIsNext(limits, parse, before.state, Events(front), last.event);
        if Next(Events(front), last.event, limits, parse) {
          AfterRemembers(limits, parse, before.state, Events(front), last.event);
        }
      }
    }
  }

  /** In production a stream yields a message exactly when it keeps to the protocol from beginning to end. */
  lemma AcceptedIffProtocol(limits: Limits, parse: Decoder, results: seq<StreamResult>)
    ensures Attempt(Some(limits), parse, results).Assembled? <==>
            AllGot(results) && Protocol(Events(results), limits, parse)
  {
    GoingMeansOrderly(limits, parse, results);
    hide Orderly, Fold;
    if Fold(Some(limits), parse, results).Going? {
      var evs, s := Events(results), Fold(Some(limits), parse, results).state;
      if evs != [] && evs[|evs| - 1].kind.MessageEnd? { assert evs[|evs| - 1] in evs && Seen(evs, MessageEnd); }
      hide Seen, Ids, InputText, Bytes;
      assert Complete(s) <==> Finished(evs);
    }
  }
}
