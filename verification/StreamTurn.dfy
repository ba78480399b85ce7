/** The loop that consumes a provider stream, with the buffers it fills as fields. */
module StreamTurn {
  import opened Results
  import opened Stream

  class Turn {
    const production: Option<Limits>
    const parse: Decoder

    var content: seq<Block>
    var textBuf: string
    var thinkingBuf: string
    var thinkingSig: string
    var toolMeta: map<string, string>
    var toolInput: map<string, string>
    var toolStarted: set<string>
    var toolEnded: set<string>
    var stop: string
    var usage: Usage
    var metadata: Metadata
    var committed: bool
    var responseBytes: nat
    var providerEvents: nat
    var messageStarted: bool
    var messageEnded: bool

    constructor (production: Option<Limits>, parse: Decoder)
      ensures this.production == production && this.parse == parse
      ensures View() == INITIAL
    {
      this.production, this.parse := production, parse;
      content, textBuf, thinkingBuf, thinkingSig := [], "", "", "";
      toolMeta, toolInput, toolStarted, toolEnded := map[], map[], {}, {};
      stop, usage, metadata := END_TURN, NO_USAGE, NoMetadata;
      committed, responseBytes, providerEvents, messageStarted, messageEnded := false, 0, 0, false, false;
    }

    ghost function AnswerView(): Answer
      reads this
    {
      Answer(content, textBuf, thinkingBuf, thinkingSig)
    }

    ghost function CallsView(): Calls
      reads this
    {
      Calls(toolMeta, toolInput, toolStarted, toolEnded)
    }

    ghost function View(): State
      reads this
    {
      State(AnswerView(), CallsView(), Ending(stop, usage, metadata),
            committed, responseBytes, providerEvents, messageStarted, messageEnded)
    }

    method FlushTextBuffer()
      modifies `content, `textBuf
      ensures AnswerView() == FlushText(old(AnswerView()))
    {
      if textBuf != "" {
        content := content + [Text(textBuf)];
        textBuf := "";
      }
    }

    method FlushThinkingBuffer()
      modifies `content, `thinkingBuf, `thinkingSig
      ensures AnswerView() == FlushThinking(old(AnswerView()))
    {
      if thinkingBuf != "" {
        content := content + [Thinking(thinkingBuf, thinkingSig)];
        thinkingBuf := "";
        thinkingSig := "";
      }
    }

    method AddResponseBytes(size: nat) returns (ok: bool)
      modifies `responseBytes
      ensures responseBytes == old(responseBytes) + size
      ensures ok <==> (production.Some? ==> responseBytes <= production.value.maxResponseBytes)
    {
      responseBytes := responseBytes + size;
      ok := production.None? || responseBytes <= production.value.maxResponseBytes;
    }

    method FlushBuffers()
      modifies `content, `textBuf, `thinkingBuf, `thinkingSig
      ensures AnswerView() == FlushThinking(FlushText(old(AnswerView())))
    {
      FlushTextBuffer();
      FlushThinkingBuffer();
    }

    method TakeTextDelta(ev: StreamEvent)
      requires ev.kind.TextDelta?
      modifies `content, `textBuf, `thinkingBuf, `thinkingSig, `committed
      ensures AnswerView() == NextAnswer(old(AnswerView()), old(CallsView()), parse, ev) && committed
    {
      committed := true;
      FlushThinkingBuffer();
      hide FlushThinking;
      textBuf := textBuf + ev.text;
    }

    method TakeThinkingDelta(ev: StreamEvent)
      requires ev.kind.ThinkingDelta?
      modifies `content, `textBuf, `thinkingBuf, `thinkingSig, `committed
      ensures AnswerView() == NextAnswer(old(AnswerView()), old(CallsView()), parse, ev) && committed
    {
      committed := true;
      FlushTextBuffer();
      hide FlushText;
      thinkingBuf := thinkingBuf + ev.text;
      if ev.signature != "" { thinkingSig := ev.signature; }
    }

    method TakeToolUseStart(ev: StreamEvent) returns (ok: bool)
      requires ev.kind.ToolUseStart?
      modifies `content, `textBuf, `thinkingBuf, `thinkingSig, `committed, `toolStarted, `toolMeta, `toolInput
      ensures ok <==> (production.Some? ==> KindAdmitted(production.value, parse, old(View()), ev))
      ensures ok ==> AnswerView() == NextAnswer(old(AnswerView()), old(CallsView()), parse, ev)
      ensures ok ==> CallsView() == NextCalls(old(CallsView()), ev) && committed
      ensures !ok ==> committed == old(committed)
    {
      if production.Some? {
        if ev.id == "" || ev.name == "" { return false; }
        if ev.id in toolStarted { return false; }
        if |toolStarted| >= production.value.maxToolCalls { return false; }
      }
      committed := true;
      FlushBuffers();
      hide FlushText, FlushThinking;
      toolStarted := toolStarted + {ev.id};
      toolMeta := toolMeta[ev.id := ev.name];
      toolInput := toolInput[ev.id := ""];
      return true;
    }

    method TakeToolUseInputDelta(ev: StreamEvent) returns (ok: bool)
      requires ev.kind.ToolUseInputDelta?
      modifies `committed, `toolInput
      ensures ok <==> (production.Some? ==> KindAdmitted(production.value, parse, old(View()), ev))
      ensures ok ==> CallsView() == NextCalls(old(CallsView()), ev) && committed
      ensures !ok ==> committed == old(committed)
    {
      if production.Some? {
        if ev.id !in toolStarted { return false; }
        if ev.id in toolEnded { return false; }
      }
      committed := true;
      toolInput := toolInput[ev.id := Lookup(toolInput, ev.id) + ev.jsonDelta];
      return true;
    }

    method TakeToolUseEnd(ev: StreamEvent) returns (ok: bool)
      requires ev.kind.ToolUseEnd?
      modifies `content, `toolEnded
      ensures ok <==> (production.Some? ==> KindAdmitted(production.value, parse, old(View()), ev))
      ensures ok ==> AnswerView() == NextAnswer(old(AnswerView()), old(CallsView()), parse, ev)
      ensures ok ==> CallsView() == NextCalls(old(CallsView()), ev)
    {
      if production.Some? {
        if ev.id !in toolStarted { return false; }
        if ev.id in toolEnded { return false; }
      }
      var input: Json := map[];
      var raw := Lookup(toolInput, ev.id);
      if raw != "" {
        var decoded := parse(raw);
        if decoded.Some? {
          input := decoded.value;
        } else {
          if production.Some? { return false; }
          input := map["__invalidJson" := "true", "raw" := raw];
        }
      }
      toolEnded := toolEnded + {ev.id};
      content := content + [ToolUse(ev.id, Lookup(toolMeta, ev.id), input)];
      return true;
    }

    method TakeMessageEnd(ev: StreamEvent) returns (ok: bool)
      requires ev.kind.MessageEnd?
      modifies `content, `textBuf, `thinkingBuf, `thinkingSig, `stop, `usage, `metadata, `messageEnded
      ensures ok <==> (production.Some? ==> KindAdmitted(production.value, parse, old(View()), ev))
      ensures ok ==> AnswerView() == NextAnswer(old(AnswerView()), old(CallsView()), parse, ev)
      ensures ok ==> Ending(stop, usage, metadata) == NextEnding(old(View()).ending, ev) && messageEnded
      ensures !ok ==> usage == old(usage)
    {
      if production.Some? {
        if messageEnded { return false; }
        if !messageStarted { return false; }
        var count := UsageTokenCount(ev.usage);
        if count.None? || count.value > production.value.maxTotalTokens { return false; }
      }
      FlushBuffers();
      hide FlushText, FlushThinking;
      stop, usage, metadata := ev.stopReason, ev.usage, ev.metadata;
      messageEnded := true;
      return true;
    }

    /** The handling that depends on the kind of event. */
    method Dispatch(ev: StreamEvent) returns (ok: bool)
      modifies `content, `textBuf, `thinkingBuf, `thinkingSig, `committed, `toolStarted, `toolMeta, `toolInput,
               `toolEnded, `stop, `usage, `metadata, `messageStarted, `messageEnded
      ensures ok <==> (production.Some? ==> KindAdmitted(production.value, parse, old(View()), ev))
      ensures ok ==> AnswerView() == NextAnswer(old(AnswerView()), old(CallsView()), parse, ev)
      ensures ok ==> CallsView() == NextCalls(old(CallsView()), ev)
      ensures ok ==> Ending(stop, usage, metadata) == NextEnding(old(View()).ending, ev)
      ensures ok ==> committed == (old(committed) || Commits(ev.kind))
                     && messageStarted == (old(messageStarted) || ev.kind.MessageStart?)
                     && messageEnded == (old(messageEnded) || ev.kind.MessageEnd?)
      ensures !ok ==> usage == old(usage) && committed == old(committed)
    {
      hide FlushText, FlushThinking, UsageAllowed, ToolBlock;
      ok := true;
      match ev.kind
      case MessageStart =>
        if production.Some? && messageStarted { return false; }
        messageStarted := true;
      case TextDelta =>
        if production.Some? && !messageStarted { return false; }
        TakeTextDelta(ev);
      case ThinkingDelta =>
        TakeThinkingDelta(ev);
      case ToolUseStart =>
        ok := TakeToolUseStart(ev);
      case ToolUseInputDelta =>
        ok := TakeToolUseInputDelta(ev);
      case ToolUseEnd =>
        ok := TakeToolUseEnd(ev);
      case MessageEnd =>
        ok := TakeMessageEnd(ev);
      case Unsupported(_) =>
        if production.Some? { return false; }
    }

    /** One result of the stream; a refusal leaves the usage and the committed mark as they were. */
    method Take(r: StreamResult) returns (ok: bool)
      modifies this
      ensures ok <==> Step(production, parse, old(View()), r).Going?
      ensures ok ==> View() == Step(production, parse, old(View()), r).state
      ensures !ok ==> usage == old(usage) && committed == old(committed)
    {
      if r.Failed? { return false; }
      var ev := r.event;
      if ev.metadata.Metadata? && ev.metadata.json.None? { return false; }
      providerEvents := providerEvents + 1;
      if production.Some? {
        if providerEvents > production.value.maxEvents { return false; }
        if messageEnded { return false; }
      }
      ok := AddResponseBytes(Size(ev));
      if !ok { return; }
      assert production.Some? ==>
        KindAdmitted(production.value, parse, View(), ev) == KindAdmitted(production.value, parse, old(View()), ev);
      hide NextAnswer, NextCalls, NextEnding, KindAdmitted, Size;
      ok := Dispatch(ev);
    }

    /** Reads the stream to its end or to the first result that is refused. */
    method Run(results: seq<StreamResult>) returns (out: Outcome)
      requires View() == INITIAL
      modifies this
      ensures out == Attempt(production, parse, results)
    {
      assert results[..0] == [];
      for k := 0 to |results|
        invariant Fold(production, parse, results[..k]) == Going(View())
      {
        assert results[..k + 1] == results[..k] + [results[k]];
        assert results[..k + 1][..k] == results[..k];
        ghost var before := View();
        var ok := Take(results[k]);
        if !ok {
          StoppedForGood(production, parse, results, k + 1);
          return Refused(usage, committed);
        }
      }
      assert results[..|results|] == results;
      if production.Some? {
        if !messageEnded { return Refused(usage, committed); }
        var open := toolStarted;
        while open != {}
          invariant open <= toolStarted && toolStarted - open <= toolEnded
        {
          var id :| id in open;
          if id !in toolEnded { return Refused(usage, committed); }
          open := open - {id};
        }
        if stop == TOOL_USE && |toolEnded| == 0 { return Refused(usage, committed); }
      }
      FlushTextBuffer();
      FlushThinkingBuffer();
      out := Assembled(content, Ending(stop, usage, metadata), committed);
    }
  }
}
