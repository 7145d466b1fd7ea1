/** The Bedrock stream translated to OpenAI chunks, and the buffered reply it must agree with. */
module BedrockStream {
  import opened OrderedMap

  datatype ToolStart = ToolStart(id: string, name: string)

  /** The payloads of one `contentBlockDelta`. */
  datatype Delta = Delta(text: Option<string>, reasoning: Option<string>, toolInput: Option<string>)

  datatype Usage = Usage(input: nat, output: nat, total: nat)

  /** One upstream event. Several fields may be set; the translator looks at them in this order.
      `start` and `delta` carry the index of their content block. */
  datatype Event = Event(
    fault: Option<string>,
    start: Option<(int, ToolStart)>,
    delta: Option<(int, Delta)>,
    stopReason: Option<string>,
    usage: Option<Usage>)

  datatype Chunk =
    | Role
    | Content(text: string)
    | Reasoning(text: string)
    | ToolOpen(index: nat, id: string, name: string)
    | ToolArguments(index: nat, arguments: string)
    | Fault(name: string)
    | Final(finishReason: string, usage: Option<Usage>)
    | Done

  function ConvertStopReason(reason: string): string {
    match reason
    case "tool_use" => "tool_calls"
    case "max_tokens" => "length"
    case _ => "stop"
  }

  // ---------------------------------------------------------------- translating

  /** What the translator remembers between events. `toolIndexes` maps content blocks to tool indices. */
  datatype Memory = Memory(toolIndexes: map<int, nat>, nextTool: nat, finishReason: string, usage: Option<Usage>)

  const FRESH: Memory := Memory(map[], 0, "stop", None)

  function DeltaChunks(m: Memory, block: int, d: Delta): seq<Chunk> {
    TextChunks(d) + ReasoningChunks(d) + InputChunks(m, block, d)
  }

  function TextChunks(d: Delta): seq<Chunk> {
    if d.text.GetOr("") != "" then [Content(d.text.value)] else []
  }

  function ReasoningChunks(d: Delta): seq<Chunk> {
    if d.reasoning.GetOr("") != "" then [Reasoning(d.reasoning.value)] else []
  }

  /** An input delta of a block that was never opened as a tool goes to tool 0. */
  function ToolIndex(m: Memory, block: int): nat {
    if block in m.toolIndexes then m.toolIndexes[block] else 0
  }

  function InputChunks(m: Memory, block: int, d: Delta): seq<Chunk> {
    if d.toolInput.Some? then [ToolArguments(ToolIndex(m, block), d.toolInput.value)] else []
  }

  function EventChunks(m: Memory, e: Event): seq<Chunk> {
    if e.fault.Some? then [Fault(e.fault.value)]
    else if e.start.Some? then [ToolOpen(m.nextTool, e.start.value.1.id, e.start.value.1.name)]
    else if e.delta.Some? then DeltaChunks(m, e.delta.value.0, e.delta.value.1)
    else []
  }

  function After(m: Memory, e: Event): Memory {
    if e.fault.Some? then m
    else if e.start.Some? then
      m.(toolIndexes := m.toolIndexes[e.start.value.0 := m.nextTool], nextTool := m.nextTool + 1)
    else if e.delta.Some? then m
    else if e.stopReason.Some? && e.stopReason.value != "" then
      m.(finishReason := ConvertStopReason(e.stopReason.value))
    else if e.usage.Some? then m.(usage := e.usage)
    else m
  }

  function Remembered(events: seq<Event>): Memory {
    if events == [] then FRESH else After(Remembered(events[..|events| - 1]), events[|events| - 1])
  }

  function Body(events: seq<Event>): seq<Chunk> {
    if events == [] then []
    else Body(events[..|events| - 1]) + EventChunks(Remembered(events[..|events| - 1]), events[|events| - 1])
  }

  ghost predicate FaultFree(events: seq<Event>) {
    forall e <- events :: e.fault.None?
  }

  /** Events up to and including the first fault. */
  function Handled(events: seq<Event>): seq<Event> {
    if events == [] then [] else if events[0].fault.Some? then [events[0]] else [events[0]] + Handled(events[1..])
  }

  predicate Faulted(events: seq<Event>) {
    var handled := Handled(events);
    handled != [] && handled[|handled| - 1].fault.Some?
  }

  /** The chunks of a whole run; `broken` says that reading threw after the given events, which only
      matters while no fault event has ended the run. */
  function Translation(events: seq<Event>, broken: Option<string>): seq<Chunk> {
    [Role] + Body(Handled(events)) + [Ending(events, broken)] + [Done]
  }

  function Ending(events: seq<Event>, broken: Option<string>): Chunk {
    var m := Remembered(Handled(events));
    if broken.Some? && !Faulted(events) then Fault(broken.value) else Final(m.finishReason, m.usage)
  }

  /** The translator as the executor runs it. */
  class Translator {
    var blockToolIndexes: map<int, nat>
    var nextToolIndex: nat
    var finishReason: string
    var finalUsage: Option<Usage>
    var chunks: seq<Chunk>

    function State(): Memory
      reads this
    {
      Memory(blockToolIndexes, nextToolIndex, finishReason, finalUsage)
    }

    constructor ()
      ensures State() == FRESH && chunks == []
    {
      blockToolIndexes, nextToolIndex, finishReason, finalUsage, chunks := map[], 0, "stop", None, [];
    }

    method Handle(e: Event) returns (stop: bool)
      modifies this
      ensures State() == After(old(State()), e)
      ensures chunks == old(chunks) + EventChunks(old(State()), e)
      ensures stop == e.fault.Some?
    {
      stop := false;
      if e.fault.Some? {
        chunks := chunks + [Fault(e.fault.value)];
        stop := true;
      } else if e.start.Some? {
        var (block, tool) := e.start.value;
        var index := nextToolIndex;
        nextToolIndex := nextToolIndex + 1;
        blockToolIndexes := blockToolIndexes[block := index];
        chunks := chunks + [ToolOpen(index, tool.id, tool.name)];
      } else if e.delta.Some? {
        var (block, d) := e.delta.value;
        if d.text.Some? && |d.text.value| > 0 {
          chunks := chunks + [Content(d.text.value)];
        }
        if d.reasoning.Some? && d.reasoning.value != "" {
          chunks := chunks + [Reasoning(d.reasoning.value)];
        }
        if d.toolInput.Some? {
          var index := if block in blockToolIndexes then blockToolIndexes[block] else 0;
          chunks := chunks + [ToolArguments(index, d.toolInput.value)];
        }
      } else if e.stopReason.Some? && e.stopReason.value != "" {
        finishReason := ConvertStopReason(e.stopReason.value);
      } else if e.usage.Some? {
        finalUsage := e.usage;
      }
    }

    /** The read loop: events up to the first fault. */
    method Drain(events: seq<Event>) returns (stopped: bool)
      requires State() == FRESH
      modifies this
      ensures State() == Remembered(Handled(events))
      ensures chunks == old(chunks) + Body(Handled(events))
      ensures stopped == Faulted(events)
    {
      var n := 0;
      stopped := false;
      ghost var start := chunks;
      assert chunks + [] == chunks;
      while n < |events| && !stopped
        invariant n <= |events|
        invariant stopped <==> n > 0 && events[n - 1].fault.Some?
        invariant Handled(events) == events[..n] + if stopped then [] else Handled(events[n..])
        invariant State() == Remembered(events[..n])
        invariant chunks == start + Body(events[..n])
        decreases |events| - n, !stopped
      {
        HandledStep(events, n);
        ghost var sent, more := Body(events[..n]), EventChunks(State(), events[n]);
        stopped := Handle(events[n]);
        Associative(start, sent, more);
        assert sent + more == Body(events[..n + 1]);
        n := n + 1;
      }
      assert Handled(events) == events[..n];
    }

    method Run(events: seq<Event>, broken: Option<string>)
      requires State() == FRESH && chunks == []
      modifies this
      ensures chunks == Translation(events, broken)
    {
      chunks := chunks + [Role];
      assert chunks == [Role];
      var stopped := Drain(events);
      if broken.Some? && !stopped {
        chunks := chunks + [Fault(broken.value)];
      } else {
        chunks := chunks + [Final(finishReason, finalUsage)];
      }
      chunks := chunks + [Done];
    }
  }

  lemma Associative(a: seq<Chunk>, b: seq<Chunk>, c: seq<Chunk>)
    ensures a + b + c == a + (b + c)
  {
  }

  lemma HandledStep(events: seq<Event>, n: nat)
    requires n < |events|
    ensures events[..n] + Handled(events[n..])
         == events[..n + 1] + if events[n].fault.Some? then [] else Handled(events[n + 1..])
    ensures Remembered(events[..n + 1]) == After(Remembered(events[..n]), events[n])
    ensures Body(events[..n + 1]) == Body(events[..n]) + EventChunks(Remembered(events[..n]), events[n])
  {
    assert events[n..][1..] == events[n + 1..];
    assert events[..n + 1] == events[..n] + [events[n]];
    assert events[..n + 1][..n] == events[..n];
  }

  // ---------------------------------------------------------------- what a run sends, on every input

  predicate Payload(c: Chunk) {
    !c.Role? && !c.Final? && !c.Done?
  }

  lemma EventChunksShape(m: Memory, e: Event)
    ensures forall c <- EventChunks(m, e) :: Payload(c) && (e.fault.None? ==> !c.Fault?)
  {
    if e.fault.None? && e.start.None? && e.delta.Some? {
      var (block, d) := e.delta.value;
      forall c | c in DeltaChunks(m, block, d)
        ensures Payload(c) && !c.Fault?
      {
        assert c in TextChunks(d) || c in ReasoningChunks(d) || c in InputChunks(m, block, d);
      }
    }
  }

  lemma {:induction false} BodyShape(events: seq<Event>)
    ensures forall c <- Body(events) :: Payload(c)
    ensures FaultFree(events) ==> forall c <- Body(events) :: !c.Fault?
  {
    if events != [] {
      var init, e := events[..|events| - 1], events[|events| - 1];
      BodyShape(init);
      EventChunksShape(Remembered(init), e);
      assert e in events;
      forall c | c in Body(events)
        ensures c in Body(init) || c in EventChunks(Remembered(init), e)
      {
      }
    }
  }

  /** What a run looks like around a body of payload chunks. */
  lemma FramedShape(body: seq<Chunk>, ending: Chunk)
    requires (ending.Final? || ending.Fault?) && forall i :: 0 <= i < |body| ==> Payload(body[i])
    ensures var t := [Role] + body + [ending] + [Done];
      && |t| == |body| + 3 && t[0] == Role && t[|t| - 1] == Done && t[|t| - 2] == ending
      && (forall i :: 0 < i < |t| - 2 ==> t[i] == body[i - 1])
      && (forall i :: 0 < i < |t| ==> t[i] != Role)
      && (forall i :: 0 <= i < |t| - 1 ==> t[i] != Done)
      && (forall i :: 0 <= i < |t| - 2 ==> !t[i].Final?)
  {
    var t := [Role] + body + [ending] + [Done];
    assert forall i :: 0 < i < |t| - 2 ==> t[i] == body[i - 1] && Payload(body[i - 1]);
  }

  /** Every run, clean, faulted or broken off: the role chunk comes first and only there, `[DONE]` comes
      last and only there, and at most one final chunk, right before it. */
  lemma RunShape(events: seq<Event>, broken: Option<string>)
    ensures var t := Translation(events, broken);
      && |t| >= 3 && t[0] == Role && t[|t| - 1] == Done && (t[|t| - 2].Final? || t[|t| - 2].Fault?)
      && (forall i :: 0 < i < |t| ==> t[i] != Role)
      && (forall i :: 0 <= i < |t| - 1 ==> t[i] != Done)
      && (forall i :: 0 <= i < |t| - 2 ==> !t[i].Final?)
      && (FaultFree(events) && broken.None? ==> forall i :: 0 <= i < |t| ==> !t[i].Fault?)
  {
    var body, t := Body(Handled(events)), Translation(events, broken);
    BodyShape(Handled(events));
    HandledFaultFree(events);
    assert forall i :: 0 <= i < |body| ==> body[i] in body;
    FramedShape(body, Ending(events, broken));
    if FaultFree(events) && broken.None? {
      forall i | 0 <= i < |t| ensures !t[i].Fault? {
        assert 0 < i < |t| - 2 ==> t[i] == body[i - 1] && body[i - 1] in body;
      }
    }
  }

  lemma {:induction false} HandledFaultFree(events: seq<Event>)
    ensures FaultFree(events) ==> Handled(events) == events
  {
    if events != [] && FaultFree(events) {
      assert events[0] in events;
      HandledFaultFree(events[1..]);
    }
  }

  // ---------------------------------------------------------------- how a run ends

  /** What is handled is the front of the events, up to the first fault if there is one. */
  lemma {:induction false} HandledExactly(events: seq<Event>)
    ensures var h := Handled(events);
      && |h| <= |events| && h == events[..|h|]
      && (forall i :: 0 <= i < |h| - 1 ==> h[i].fault.None?)
      && (|h| < |events| ==> Faulted(events))
  {
    if events != [] && events[0].fault.None? {
      HandledExactly(events[1..]);
      var h, rest := Handled(events), Handled(events[1..]);
      assert h == [events[0]] + rest == events[..|h|];
      assert |h| < |events| ==> |rest| > 0 && h[|h| - 1] == rest[|rest| - 1];
      forall i | 0 <= i < |h| - 1 ensures h[i].fault.None? {
        assert i > 0 ==> h[i] == rest[i - 1];
      }
    }
  }

  /** An event that says why the message stopped: none that is read as something else. */
  predicate IsStop(e: Event) {
    e.fault.None? && e.start.None? && e.delta.None? && e.stopReason.GetOr("") != ""
  }

  /** An event that is read for its usage. */
  predicate IsUsage(e: Event) {
    e.fault.None? && e.start.None? && e.delta.None? && e.stopReason.GetOr("") == "" && e.usage.Some?
  }

  predicate LastStop(events: seq<Event>, i: nat) {
    i < |events| && IsStop(events[i]) && forall j :: i < j < |events| ==> !IsStop(events[j])
  }

  predicate LastUsage(events: seq<Event>, i: nat) {
    i < |events| && IsUsage(events[i]) && forall j :: i < j < |events| ==> !IsUsage(events[j])
  }

  /** The last stop event gives this reason. */
  ghost predicate StoppedFor(events: seq<Event>, reason: string) {
    exists i: nat :: LastStop(events, i) && events[i].stopReason == Some(reason)
  }

  /** The last usage event gives this usage. */
  ghost predicate UsedUp(events: seq<Event>, usage: Usage) {
    exists i: nat :: LastUsage(events, i) && events[i].usage == Some(usage)
  }

  lemma StoppedForNext(events: seq<Event>, init: seq<Event>, e: Event, reason: string)
    requires events == init + [e]
    ensures StoppedFor(events, reason) <==> if IsStop(e) then e.stopReason == Some(reason) else StoppedFor(init, reason)
  {
    if IsStop(e) {
      assert LastStop(events, |init|);
    } else {
      assert forall i: nat :: LastStop(init, i) ==> LastStop(events, i) && events[i] == init[i];
      assert forall i: nat :: LastStop(events, i) ==> LastStop(init, i) && events[i] == init[i];
    }
  }

  lemma UsedUpNext(events: seq<Event>, init: seq<Event>, e: Event, usage: Usage)
    requires events == init + [e]
    ensures UsedUp(events, usage) <==> if IsUsage(e) then e.usage == Some(usage) else UsedUp(init, usage)
  {
    if IsUsage(e) {
      assert LastUsage(events, |init|);
    } else {
      assert forall i: nat :: LastUsage(init, i) ==> LastUsage(events, i) && events[i] == init[i];
      assert forall i: nat :: LastUsage(events, i) ==> LastUsage(init, i) && events[i] == init[i];
    }
  }

  /** The finish reason is "tool_calls" or "length" exactly when the last stop event says so in Bedrock's
      terms, and "stop" in every other case. */
  ghost predicate FinishSays(events: seq<Event>, finishReason: string) {
    && finishReason in {"tool_calls", "length", "stop"}
    && (finishReason == "tool_calls" <==> StoppedFor(events, "tool_use"))
    && (finishReason == "length" <==> StoppedFor(events, "max_tokens"))
  }

  lemma {:induction false} FinishRemembered(events: seq<Event>)
    ensures FinishSays(events, Remembered(events).finishReason)
  {
    if events != [] {
      var init, e := events[..|events| - 1], events[|events| - 1];
      FinishRemembered(init);
      StoppedForNext(events, init, e, "tool_use");
      StoppedForNext(events, init, e, "max_tokens");
    }
  }

  lemma {:induction false} UsageRemembered(events: seq<Event>, usage: Usage)
    ensures Remembered(events).usage == Some(usage) <==> UsedUp(events, usage)
  {
    if events != [] {
      var init, e := events[..|events| - 1], events[|events| - 1];
      UsageRemembered(init, usage);
      UsedUpNext(events, init, e, usage);
    }
  }

  /** Every run but one whose reading threw: its last chunk before `[DONE]` gives the finish reason of the last
      stop event handled and the usage of the last usage event handled. */
  lemma FinalSays(events: seq<Event>, broken: Option<string>)
    requires broken.None? || Faulted(events)
    ensures var h, t := Handled(events), Translation(events, broken);
      && |t| >= 3 && t[|t| - 2].Final? && FinishSays(h, t[|t| - 2].finishReason)
      && forall u :: t[|t| - 2].usage == Some(u) <==> UsedUp(h, u)
  {
    var h := Handled(events);
    FinishRemembered(h);
    forall u ensures Remembered(h).usage == Some(u) <==> UsedUp(h, u) {
      UsageRemembered(h, u);
    }
  }

  /** A run whose reading threw ends with that error; a fault event is sent on under its own name, as the last
      chunk before the final one. */
  lemma FailureSays(events: seq<Event>, broken: Option<string>)
    ensures var h, t := Handled(events), Translation(events, broken);
      && (broken.Some? && !Faulted(events) ==> |t| >= 2 && t[|t| - 2] == Fault(broken.value))
      && (Faulted(events) ==> |t| >= 3 && t[|t| - 3] == Fault(h[|h| - 1].fault.value))
  {
    var h := Handled(events);
    if Faulted(events) {
      var sent := [Role] + Body(h[..|h| - 1]);
      assert [Role] + Body(h) == sent + [Fault(h[|h| - 1].fault.value)];
    }
  }

  const TOOL_STOP: Event := Event(None, None, None, Some("tool_use"), None)

  /** A run that stops for its tools. */
  lemma ToolStopExample()
    ensures Translation([TOOL_STOP], None) == [Role, Final("tool_calls", None), Done]
  {
    assert [TOOL_STOP][..0] == [] && Handled([TOOL_STOP]) == [TOOL_STOP] + Handled([]);
    assert Remembered([TOOL_STOP]) == After(FRESH, TOOL_STOP);
    assert Body([TOOL_STOP]) == [];
  }

  // ---------------------------------------------------------------- the buffered reply

  datatype Tool = Tool(id: string, name: string, arguments: string)

  /** One content block of a buffered reply; a tool's `arguments` is its input as JSON text. */
  datatype Held = Held(text: Option<string>, reasoning: Option<string>, tool: Option<Tool>)

  datatype Reply = Reply(content: Option<string>, reasoning: Option<string>, toolCalls: seq<Tool>)

  function TextOf(blocks: seq<Held>): string {
    if blocks == [] then ""
    else TextOf(blocks[..|blocks| - 1]) + blocks[|blocks| - 1].text.GetOr("")
  }

  function ReasoningOf(blocks: seq<Held>): string {
    if blocks == [] then ""
    else ReasoningOf(blocks[..|blocks| - 1]) + blocks[|blocks| - 1].reasoning.GetOr("")
  }

  function ToolsOf(blocks: seq<Held>): seq<Tool> {
    if blocks == [] then []
    else
      var last := blocks[|blocks| - 1].tool;
      ToolsOf(blocks[..|blocks| - 1]) + if last.Some? then [last.value] else []
  }

  /** `canonical` stands for parsing a tool's input and printing it again. */
  function Printed(tools: seq<Tool>, canonical: string -> string): (r: seq<Tool>)
    ensures |r| == |tools|
  {
    seq(|tools|, i requires 0 <= i < |tools| => tools[i].(arguments := canonical(tools[i].arguments)))
  }

  method ContentBlocksToOpenAIMessage(blocks: seq<Held>, canonical: string -> string) returns (r: Reply)
    ensures |r.toolCalls| == |ToolsOf(blocks)|
    ensures forall i :: 0 <= i < |r.toolCalls| ==> var t := ToolsOf(blocks)[i];
      r.toolCalls[i] == Tool(t.id, t.name, canonical(t.arguments))
    ensures r.content == if TextOf(blocks) == "" && ToolsOf(blocks) != [] then None else Some(TextOf(blocks))
    ensures r.reasoning.None? <==> forall i :: 0 <= i < |blocks| ==> blocks[i].reasoning.None?
    ensures r.reasoning.Some? ==> r.reasoning == Some(ReasoningOf(blocks))
  {
    var text, reasoning, anyReasoning, toolCalls: seq<Tool> := "", "", false, [];
    for n := 0 to |blocks|
      invariant text == TextOf(blocks[..n]) && reasoning == ReasoningOf(blocks[..n])
      invariant anyReasoning <==> exists i :: 0 <= i < n && blocks[i].reasoning.Some?
      invariant toolCalls == Printed(ToolsOf(blocks[..n]), canonical)
    {
      var b := blocks[n];
      assert blocks[..n + 1][..n] == blocks[..n];
      if b.text.Some? {
        text := text + b.text.value;
      }
      if b.reasoning.Some? {
        reasoning := reasoning + b.reasoning.value;
        anyReasoning := true;
      }
      if b.tool.Some? {
        toolCalls := toolCalls + [b.tool.value.(arguments := canonical(b.tool.value.arguments))];
      }
    }
    assert blocks[..|blocks|] == blocks;
    r := Reply(Some(text), if anyReasoning then Some(reasoning) else None, toolCalls);
    if |toolCalls| > 0 {
      r := r.(content := if text != "" then Some(text) else None);
    }
  }

  // ---------------------------------------------------------------- the blocks an event sequence stands for

  /** Content blocks under their indices, in the order in which events first touch them. */
  type Assembly = seq<(int, Held)>

  const EMPTY: Held := Held(None, None, None)

  function Touched(b: Assembly, block: int): (r: Assembly)
    ensures Find(r, block) < |r|
  {
    if Has(b, block) then b
    else assert (b + [(block, EMPTY)])[|b|].0 == block; b + [(block, EMPTY)]
  }

  function Appended(had: Option<string>, more: Option<string>): Option<string> {
    if more.None? then had else Some(had.GetOr("") + more.value)
  }

  function Extended(h: Held, d: Delta): Held {
    Held(Appended(h.text, d.text), Appended(h.reasoning, d.reasoning),
         if h.tool.Some? && d.toolInput.Some?
         then Some(h.tool.value.(arguments := h.tool.value.arguments + d.toolInput.value)) else h.tool)
  }

  function Assemble(b: Assembly, e: Event): Assembly {
    if e.fault.Some? then b
    else if e.start.Some? then
      var r := Touched(b, e.start.value.0);
      var i := Find(r, e.start.value.0);
      r[i := (e.start.value.0, r[i].1.(tool := Some(Tool(e.start.value.1.id, e.start.value.1.name, ""))))]
    else if e.delta.Some? then
      var r := Touched(b, e.delta.value.0);
      var i := Find(r, e.delta.value.0);
      r[i := (e.delta.value.0, Extended(r[i].1, e.delta.value.1))]
    else b
  }

  function Assembled(events: seq<Event>): Assembly {
    if events == [] then [] else Assemble(Assembled(events[..|events| - 1]), events[|events| - 1])
  }

  function Blocks(b: Assembly): (r: seq<Held>)
    ensures |r| == |b|
  {
    seq(|b|, i requires 0 <= i < |b| => b[i].1)
  }

  /** An event that opens a tool block opens a new block. */
  ghost predicate StartsFirst(b: Assembly, e: Event) {
    e.fault.None? && e.start.Some? ==> !Has(b, e.start.value.0)
  }

  predicate IsDelta(e: Event) {
    e.fault.None? && e.start.None? && e.delta.Some?
  }

  predicate IsOpen(b: Assembly, block: int) {
    var i := Find(b, block);
    i < |b| && b[i].1.tool.Some?
  }

  /** Input for a block that no start has opened. */
  predicate Stray(b: Assembly, e: Event) {
    IsDelta(e) && e.delta.value.1.toolInput.Some? && !IsOpen(b, e.delta.value.0)
  }

  /** Such input while no tool is open at all. */
  predicate Early(b: Assembly, e: Event) {
    Stray(b, e) && ToolsOf(Blocks(b)) == []
  }

  /** Text comes for the last block that holds any, or for a later one. */
  ghost predicate TextForward(b: Assembly, e: Event) {
    IsDelta(e) && e.delta.value.1.text.Some? ==>
      forall j :: Find(b, e.delta.value.0) < j < |b| ==> b[j].1.text.None?
  }

  ghost predicate ReasoningForward(b: Assembly, e: Event) {
    IsDelta(e) && e.delta.value.1.reasoning.Some? ==>
      forall j :: Find(b, e.delta.value.0) < j < |b| ==> b[j].1.reasoning.None?
  }

  ghost predicate StartOnce(events: seq<Event>) {
    events == [] ||
    var init, e := events[..|events| - 1], events[|events| - 1];
    StartOnce(init) && StartsFirst(Assembled(init), e)
  }

  /** No stray input carries a character. */
  predicate StraysEmpty(events: seq<Event>) {
    events == [] ||
    var init, e := events[..|events| - 1], events[|events| - 1];
    StraysEmpty(init) && (Stray(Assembled(init), e) ==> e.delta.value.1.toolInput.value == "")
  }

  /** Some stray input, empty or not, comes before the first tool is opened. */
  predicate EarlyStray(events: seq<Event>) {
    events != [] &&
    var init, e := events[..|events| - 1], events[|events| - 1];
    EarlyStray(init) || Early(Assembled(init), e)
  }

  ghost predicate TextInOrder(events: seq<Event>) {
    events == [] ||
    var init, e := events[..|events| - 1], events[|events| - 1];
    TextInOrder(init) && TextForward(Assembled(init), e)
  }

  ghost predicate ReasoningInOrder(events: seq<Event>) {
    events == [] ||
    var init, e := events[..|events| - 1], events[|events| - 1];
    ReasoningInOrder(init) && ReasoningForward(Assembled(init), e)
  }

  // ---------------------------------------------------------------- the client's side

  datatype Received = Received(text: string, reasoning: string, tools: seq<Tool>)

  /** The name of a tool whose first chunk brings none. */
  const UNNAMED: string := "unknown"

  function Absorb(r: Received, c: Chunk): Received {
    match c
    case Content(text) => r.(text := r.text + text)
    case Reasoning(text) => r.(reasoning := r.reasoning + text)
    case ToolOpen(index, id, name) => r.(tools := WithHead(r.tools, index, id, name))
    case ToolArguments(index, arguments) => r.(tools := WithInput(r.tools, index, arguments))
    case _ => r
  }

  /** A tool chunk with an id and a name. An entry that is there keeps the id and the name it has. */
  function WithHead(tools: seq<Tool>, index: nat, id: string, name: string): seq<Tool> {
    if index < |tools| then
      var t := tools[index];
      tools[index := Tool(if t.id != "" then t.id else id, if t.name != "" then t.name else name, t.arguments)]
    else tools + [Tool(id, name, "")]
  }

  function AddInput(tools: seq<Tool>, index: nat, input: Option<string>): seq<Tool> {
    if input.Some? then WithInput(tools, index, input.value) else tools
  }

  /** A tool chunk with arguments only; the first sight of an index makes an entry. */
  function WithInput(tools: seq<Tool>, index: nat, input: string): seq<Tool> {
    if index < |tools| then tools[index := tools[index].(arguments := tools[index].arguments + input)]
    else tools + [Tool("", UNNAMED, input)]
  }

  /** Reassembly by tool index, as the repository's own stream collector does it. The translator's
      indices are seen in ascending order, so a new entry always goes last. */
  function Reassembled(chunks: seq<Chunk>): Received {
    if chunks == [] then Received("", "", [])
    else Absorb(Reassembled(chunks[..|chunks| - 1]), chunks[|chunks| - 1])
  }

  lemma ReassembledSnoc(chunks: seq<Chunk>, c: Chunk)
    ensures Reassembled(chunks + [c]) == Absorb(Reassembled(chunks), c)
  {
    assert (chunks + [c])[..|chunks + [c]| - 1] == chunks;
  }

  // ---------------------------------------------------------------- refinement

  lemma {:induction false} TextUpdated(blocks: seq<Held>, i: nat, h: Held, more: string)
    requires i < |blocks| && h.text.GetOr("") == blocks[i].text.GetOr("") + more
    requires more == "" || forall j :: i < j < |blocks| ==> blocks[j].text.None?
    ensures TextOf(blocks[i := h]) == TextOf(blocks) + more
  {
    var n := |blocks| - 1;
    if i < n {
      TextUpdated(blocks[..n], i, h, more);
      assert blocks[i := h][..n] == blocks[..n][i := h];
    } else {
      assert blocks[i := h][..n] == blocks[..n];
    }
  }

  lemma {:induction false} ReasoningUpdated(blocks: seq<Held>, i: nat, h: Held, more: string)
    requires i < |blocks| && h.reasoning.GetOr("") == blocks[i].reasoning.GetOr("") + more
    requires more == "" || forall j :: i < j < |blocks| ==> blocks[j].reasoning.None?
    ensures ReasoningOf(blocks[i := h]) == ReasoningOf(blocks) + more
  {
    var n := |blocks| - 1;
    if i < n {
      ReasoningUpdated(blocks[..n], i, h, more);
      assert blocks[i := h][..n] == blocks[..n][i := h];
    } else {
      assert blocks[i := h][..n] == blocks[..n];
    }
  }

  /** A tool sits in the tool list after the tools of the blocks before it. */
  lemma {:induction false} ToolsUpdated(blocks: seq<Held>, i: nat, h: Held)
    requires i < |blocks|
    ensures blocks[i].tool == h.tool ==> ToolsOf(blocks[i := h]) == ToolsOf(blocks)
    ensures blocks[i].tool.Some? && h.tool.Some? ==>
      && |ToolsOf(blocks[..i])| < |ToolsOf(blocks)|
      && ToolsOf(blocks)[|ToolsOf(blocks[..i])|] == blocks[i].tool.value
      && ToolsOf(blocks[i := h]) == ToolsOf(blocks)[|ToolsOf(blocks[..i])| := h.tool.value]
  {
    var n := |blocks| - 1;
    if i < n {
      ToolsUpdated(blocks[..n], i, h);
      assert blocks[i := h][..n] == blocks[..n][i := h];
      assert blocks[..n][..i] == blocks[..i];
    } else {
      assert blocks[i := h][..n] == blocks[..n];
    }
  }

  /** What the chunks of a delta add at the client. */
  lemma DeltaReceived(chunks: seq<Chunk>, m: Memory, block: int, d: Delta)
    ensures var r := Reassembled(chunks);
      Reassembled(chunks + DeltaChunks(m, block, d))
      == Received(r.text + d.text.GetOr(""), r.reasoning + d.reasoning.GetOr(""),
                  AddInput(r.tools, ToolIndex(m, block), d.toolInput))
  {
    var a, b, c := TextChunks(d), ReasoningChunks(d), InputChunks(m, block, d);
    TextReceived(chunks, d);
    ReasoningReceived(chunks + a, d);
    InputReceived(chunks + a + b, m, block, d);
    Associative3(chunks, a, b, c);
  }

  lemma Associative3(chunks: seq<Chunk>, a: seq<Chunk>, b: seq<Chunk>, c: seq<Chunk>)
    ensures chunks + (a + b + c) == chunks + a + b + c
  {
  }

  lemma TextReceived(chunks: seq<Chunk>, d: Delta)
    ensures var r := Reassembled(chunks);
      Reassembled(chunks + TextChunks(d)) == r.(text := r.text + d.text.GetOr(""))
  {
    if TextChunks(d) == [] {
      assert chunks + [] == chunks;
    } else {
      ReassembledSnoc(chunks, Content(d.text.value));
    }
  }

  lemma ReasoningReceived(chunks: seq<Chunk>, d: Delta)
    ensures var r := Reassembled(chunks);
      Reassembled(chunks + ReasoningChunks(d)) == r.(reasoning := r.reasoning + d.reasoning.GetOr(""))
  {
    if ReasoningChunks(d) == [] {
      assert chunks + [] == chunks;
    } else {
      ReassembledSnoc(chunks, Reasoning(d.reasoning.value));
    }
  }

  lemma InputReceived(chunks: seq<Chunk>, m: Memory, block: int, d: Delta)
    ensures var r := Reassembled(chunks);
      Reassembled(chunks + InputChunks(m, block, d)) == r.(tools := AddInput(r.tools, ToolIndex(m, block), d.toolInput))
  {
    if d.toolInput.None? {
      assert chunks + [] == chunks;
    } else {
      var c := ToolArguments(ToolIndex(m, block), d.toolInput.value);
      assert InputChunks(m, block, d) == [c];
      ReassembledSnoc(chunks, c);
    }
  }

  /** What one event adds at the client. */
  function Learned(r: Received, m: Memory, e: Event): Received {
    if e.fault.Some? then r
    else if e.start.Some? then Absorb(r, ToolOpen(m.nextTool, e.start.value.1.id, e.start.value.1.name))
    else if e.delta.Some? then
      var (block, d) := e.delta.value;
      Received(r.text + d.text.GetOr(""), r.reasoning + d.reasoning.GetOr(""),
               AddInput(r.tools, ToolIndex(m, block), d.toolInput))
    else r
  }

  lemma EventReceived(chunks: seq<Chunk>, m: Memory, e: Event)
    ensures Reassembled(chunks + EventChunks(m, e)) == Learned(Reassembled(chunks), m, e)
  {
    if e.fault.Some? {
      ReassembledSnoc(chunks, Fault(e.fault.value));
    } else if e.start.Some? {
      ReassembledSnoc(chunks, ToolOpen(m.nextTool, e.start.value.1.id, e.start.value.1.name));
    } else if e.delta.Some? {
      DeltaReceived(chunks, m, e.delta.value.0, e.delta.value.1);
    } else {
      assert chunks + [] == chunks;
    }
  }

  function NewText(e: Event): string {
    if IsDelta(e) then e.delta.value.1.text.GetOr("") else ""
  }

  function NewReasoning(e: Event): string {
    if IsDelta(e) then e.delta.value.1.reasoning.GetOr("") else ""
  }

  lemma LearnedWords(r: Received, m: Memory, e: Event)
    ensures Learned(r, m, e).text == r.text + NewText(e)
    ensures Learned(r, m, e).reasoning == r.reasoning + NewReasoning(e)
  {
    assert r.text + "" == r.text && r.reasoning + "" == r.reasoning;
  }

  lemma TouchedBlocks(b: Assembly, block: int)
    ensures TextOf(Blocks(Touched(b, block))) == TextOf(Blocks(b))
    ensures ReasoningOf(Blocks(Touched(b, block))) == ReasoningOf(Blocks(b))
    ensures ToolsOf(Blocks(Touched(b, block))) == ToolsOf(Blocks(b))
  {
    if !Has(b, block) {
      assert Blocks(Touched(b, block))[..|b|] == Blocks(b);
    }
  }

  /** Where the block of an event sits. */
  lemma TouchedPlace(b: Assembly, block: int)
    ensures Find(Touched(b, block), block) == Find(b, block)
    ensures |Touched(b, block)| == if Has(b, block) then |b| else |b| + 1
  {
    if !Has(b, block) {
      FindUnique(Touched(b, block), block, |b|);
    }
  }

  lemma TextStep(b: Assembly, e: Event)
    requires TextForward(b, e)
    ensures TextOf(Blocks(Assemble(b, e))) == TextOf(Blocks(b)) + NewText(e)
  {
    if e.fault.None? && (e.start.Some? || e.delta.Some?) {
      var block := if e.start.Some? then e.start.value.0 else e.delta.value.0;
      var t := Touched(b, block);
      var i := Find(t, block);
      TouchedBlocks(b, block);
      TouchedPlace(b, block);
      var next := Assemble(b, e);
      assert Blocks(next) == Blocks(t)[i := next[i].1];
      TextUpdated(Blocks(t), i, next[i].1, NewText(e));
    }
  }

  lemma ReasoningStep(b: Assembly, e: Event)
    requires ReasoningForward(b, e)
    ensures ReasoningOf(Blocks(Assemble(b, e)))
         == ReasoningOf(Blocks(b)) + NewReasoning(e)
  {
    if e.fault.None? && (e.start.Some? || e.delta.Some?) {
      var block := if e.start.Some? then e.start.value.0 else e.delta.value.0;
      var t := Touched(b, block);
      var i := Find(t, block);
      TouchedBlocks(b, block);
      TouchedPlace(b, block);
      var next := Assemble(b, e);
      assert Blocks(next) == Blocks(t)[i := next[i].1];
      ReasoningUpdated(Blocks(t), i, next[i].1, NewReasoning(e));
    }
  }

  /** One more event, on both sides. */
  lemma RunSnoc(events: seq<Event>)
    requires events != []
    ensures var init, e := events[..|events| - 1], events[|events| - 1];
      && Reassembled(Body(events)) == Learned(Reassembled(Body(init)), Remembered(init), e)
      && Assembled(events) == Assemble(Assembled(init), e)
  {
    EventReceived(Body(events[..|events| - 1]), Remembered(events[..|events| - 1]), events[|events| - 1]);
  }

  lemma {:induction false} TextRefined(events: seq<Event>)
    requires TextInOrder(events)
    ensures Reassembled(Body(events)).text == TextOf(Blocks(Assembled(events)))
  {
    if events != [] {
      var init, e := events[..|events| - 1], events[|events| - 1];
      RunSnoc(events);
      TextRefined(init);
      LearnedWords(Reassembled(Body(init)), Remembered(init), e);
      TextStep(Assembled(init), e);
    }
  }

  lemma {:induction false} ReasoningRefined(events: seq<Event>)
    requires ReasoningInOrder(events)
    ensures Reassembled(Body(events)).reasoning == ReasoningOf(Blocks(Assembled(events)))
  {
    if events != [] {
      var init, e := events[..|events| - 1], events[|events| - 1];
      RunSnoc(events);
      ReasoningRefined(init);
      LearnedWords(Reassembled(Body(init)), Remembered(init), e);
      ReasoningStep(Assembled(init), e);
    }
  }

  // ---------------------------------------------------------------- refinement of the tools, exactly

  /** The same tools, but for `extra` more characters in the arguments of the first and, after an early
      stray, for its name; with no tool held, an early stray has made an entry of its own. */
  ghost predicate Alike(got: seq<Tool>, held: seq<Tool>, extra: nat, early: bool) {
    if held == [] then
      if early then |got| == 1 && got[0] == Tool("", UNNAMED, got[0].arguments) && |got[0].arguments| == extra
      else got == [] && extra == 0
    else
      && |got| == |held|
      && (forall i :: 0 < i < |got| ==> got[i] == held[i])
      && got[0] == Tool(held[0].id, if early then UNNAMED else held[0].name, got[0].arguments)
      && |got[0].arguments| == |held[0].arguments| + extra
      && (extra == 0 ==> got[0].arguments == held[0].arguments)
  }

  lemma AlikeExactly(got: seq<Tool>, held: seq<Tool>, extra: nat, early: bool)
    requires Alike(got, held, extra, early)
    ensures got == held <==> extra == 0 && (early ==> held != [] && held[0].name == UNNAMED)
  {
    if held != [] {
      assert got == held <==> got[0] == held[0];
    }
  }

  lemma AlikeInput(got: seq<Tool>, held: seq<Tool>, extra: nat, early: bool, k: nat, input: string)
    requires Alike(got, held, extra, early) && k < |held|
    ensures Alike(WithInput(got, k, input), WithInput(held, k, input), extra, early)
  {
  }

  lemma AlikeStray(got: seq<Tool>, held: seq<Tool>, extra: nat, early: bool, input: string)
    requires Alike(got, held, extra, early)
    ensures Alike(WithInput(got, 0, input), held, extra + |input|, early || held == [])
  {
    if got != [] && input == "" {
      assert got[0].arguments + input == got[0].arguments;
    }
  }

  lemma AlikeOpen(got: seq<Tool>, held: seq<Tool>, extra: nat, early: bool, id: string, name: string)
    requires Alike(got, held, extra, early)
    ensures Alike(WithHead(got, |held|, id, name), held + [Tool(id, name, "")], extra, early)
  {
  }

  /** The translator's tool index of every tool block is its place among the tools; blocks without a
      tool have none. */
  ghost predicate Placed(m: Memory, b: Assembly) {
    && Distinct(b)
    && m.nextTool == |ToolsOf(Blocks(b))|
    && (forall i :: 0 <= i < |b| && b[i].1.tool.Some? ==>
         b[i].0 in m.toolIndexes && m.toolIndexes[b[i].0] == |ToolsOf(Blocks(b)[..i])|)
    && (forall block :: block in m.toolIndexes ==> IsOpen(b, block))
  }

  lemma PlacedStart(m: Memory, b: Assembly, e: Event)
    requires Placed(m, b) && StartsFirst(b, e) && e.fault.None? && e.start.Some?
    ensures Placed(After(m, e), Assemble(b, e))
    ensures ToolsOf(Blocks(Assemble(b, e))) == ToolsOf(Blocks(b)) + [Tool(e.start.value.1.id, e.start.value.1.name, "")]
  {
    var (block, tool) := e.start.value;
    var h := EMPTY.(tool := Some(Tool(tool.id, tool.name, "")));
    var next := Assemble(b, e);
    TouchedPlace(b, block);
    assert next == b + [(block, h)];
    assert Blocks(next)[..|b|] == Blocks(b);
    forall i | 0 <= i < |b| ensures Blocks(next)[..i] == Blocks(b)[..i] {}
    forall q | q in After(m, e).toolIndexes ensures IsOpen(next, q) {
      FindUnique(next, q, if q == block then |b| else Find(b, q));
    }
  }

  /** A block that is only touched holds no tool. */
  lemma PlacedTouch(m: Memory, b: Assembly, block: int)
    requires Placed(m, b)
    ensures Placed(m, Touched(b, block)) && (IsOpen(Touched(b, block), block) <==> IsOpen(b, block))
  {
    if !Has(b, block) {
      var next := Touched(b, block);
      TouchedPlace(b, block);
      TouchedBlocks(b, block);
      assert Blocks(next)[..|b|] == Blocks(b);
      forall i | 0 <= i < |b| ensures Blocks(next)[..i] == Blocks(b)[..i] {}
      forall q | q in m.toolIndexes ensures IsOpen(next, q) {
        FindUnique(next, q, Find(b, q));
      }
    }
  }

  /** Rewriting a block's payload without adding or removing a tool moves no tool. */
  lemma ToolPlaces(blocks: seq<Held>, i: nat, h: Held, j: nat)
    requires i < |blocks| && j <= |blocks| && blocks[i].tool.Some? == h.tool.Some?
    ensures |ToolsOf(blocks[i := h][..j])| == |ToolsOf(blocks[..j])|
  {
    if i < j {
      assert blocks[i := h][..j] == blocks[..j][i := h];
      ToolsUpdated(blocks[..j], i, h);
    } else {
      assert blocks[i := h][..j] == blocks[..j];
    }
  }

  lemma PlacedKept(m: Memory, t: Assembly, i: nat, h: Held)
    requires Placed(m, t) && i < |t| && t[i].1.tool.Some? == h.tool.Some?
    ensures Placed(m, t[i := (t[i].0, h)])
  {
    var next := t[i := (t[i].0, h)];
    assert Blocks(next) == Blocks(t)[i := h];
    forall j | 0 <= j <= |t| ensures |ToolsOf(Blocks(next)[..j])| == |ToolsOf(Blocks(t)[..j])| {
      ToolPlaces(Blocks(t), i, h, j);
    }
    assert Blocks(next)[..|t|] == Blocks(next) && Blocks(t)[..|t|] == Blocks(t);
    forall q | q in m.toolIndexes ensures IsOpen(next, q) {
      FindUnique(next, q, Find(t, q));
    }
  }

  lemma PlacedDelta(m: Memory, b: Assembly, e: Event)
    requires Placed(m, b) && IsDelta(e)
    ensures Placed(m, Assemble(b, e))
    ensures var (block, d) := e.delta.value;
      && ToolsOf(Blocks(Assemble(b, e)))
           == (if IsOpen(b, block) then AddInput(ToolsOf(Blocks(b)), ToolIndex(m, block), d.toolInput)
               else ToolsOf(Blocks(b)))
      && (IsOpen(b, block) ==> ToolIndex(m, block) < |ToolsOf(Blocks(b))|)
      && (!IsOpen(b, block) ==> ToolIndex(m, block) == 0)
  {
    var (block, d) := e.delta.value;
    var t := Touched(b, block);
    var i := Find(t, block);
    PlacedTouch(m, b, block);
    TouchedBlocks(b, block);
    PlacedKept(m, t, i, Extended(t[i].1, d));
    assert Blocks(Assemble(b, e)) == Blocks(t)[i := Extended(t[i].1, d)];
    ToolsUpdated(Blocks(t), i, Extended(t[i].1, d));
  }

  /** Characters of stray input. */
  function Extra(b: Assembly, e: Event): nat {
    if Stray(b, e) then |e.delta.value.1.toolInput.value| else 0
  }

  function TotalExtra(events: seq<Event>): nat {
    if events == [] then 0
    else TotalExtra(events[..|events| - 1]) + Extra(Assembled(events[..|events| - 1]), events[|events| - 1])
  }

  lemma {:induction false} TotalExtraExactly(events: seq<Event>)
    ensures TotalExtra(events) == 0 <==> StraysEmpty(events)
  {
    if events != [] {
      TotalExtraExactly(events[..|events| - 1]);
    }
  }

  lemma ToolsDelta(m: Memory, b: Assembly, got: seq<Tool>, extra: nat, early: bool, e: Event)
    requires Placed(m, b) && IsDelta(e) && Alike(got, ToolsOf(Blocks(b)), extra, early)
    ensures Alike(AddInput(got, ToolIndex(m, e.delta.value.0), e.delta.value.1.toolInput),
                  ToolsOf(Blocks(Assemble(b, e))), extra + Extra(b, e), early || Early(b, e))
  {
    var (block, d) := e.delta.value;
    PlacedDelta(m, b, e);
    if d.toolInput.Some? {
      if IsOpen(b, block) {
        AlikeInput(got, ToolsOf(Blocks(b)), extra, early, ToolIndex(m, block), d.toolInput.value);
      } else {
        AlikeStray(got, ToolsOf(Blocks(b)), extra, early, d.toolInput.value);
      }
    }
  }

  lemma ToolsStep(m: Memory, b: Assembly, r: Received, extra: nat, early: bool, e: Event)
    requires Placed(m, b) && StartsFirst(b, e) && Alike(r.tools, ToolsOf(Blocks(b)), extra, early)
    ensures Placed(After(m, e), Assemble(b, e))
    ensures Alike(Learned(r, m, e).tools, ToolsOf(Blocks(Assemble(b, e))), extra + Extra(b, e), early || Early(b, e))
  {
    if e.fault.None? && e.start.Some? {
      var tool := e.start.value.1;
      PlacedStart(m, b, e);
      AlikeOpen(r.tools, ToolsOf(Blocks(b)), extra, early, tool.id, tool.name);
      assert Learned(r, m, e).tools == WithHead(r.tools, |ToolsOf(Blocks(b))|, tool.id, tool.name);
    } else if IsDelta(e) {
      PlacedDelta(m, b, e);
      ToolsDelta(m, b, r.tools, extra, early, e);
    }
  }

  lemma {:induction false} ToolsRefined(events: seq<Event>)
    requires StartOnce(events)
    ensures Placed(Remembered(events), Assembled(events))
    ensures Alike(Reassembled(Body(events)).tools, ToolsOf(Blocks(Assembled(events))),
                  TotalExtra(events), EarlyStray(events))
  {
    if events != [] {
      var init, e := events[..|events| - 1], events[|events| - 1];
      RunSnoc(events);
      ToolsRefined(init);
      ToolsStep(Remembered(init), Assembled(init), Reassembled(Body(init)), TotalExtra(init), EarlyStray(init), e);
    }
  }

  lemma {:induction false} ReassembledPrefix(chunks: seq<Chunk>)
    ensures Reassembled([Role] + chunks) == Reassembled(chunks)
  {
    if chunks == [] {
      ReassembledSnoc([], Role);
      assert [] + [Role] == [Role] + chunks;
    } else {
      var init, c := chunks[..|chunks| - 1], chunks[|chunks| - 1];
      ReassembledPrefix(init);
      ReassembledSnoc([Role] + init, c);
      assert ([Role] + init) + [c] == [Role] + chunks;
    }
  }

  lemma EndingReceived(sent: seq<Chunk>, last: Chunk)
    requires last.Fault? || last.Final?
    ensures Reassembled(sent + [last] + [Done]) == Reassembled(sent)
  {
    ReassembledSnoc(sent, last);
    ReassembledSnoc(sent + [last], Done);
  }

  lemma TranslationReceived(events: seq<Event>, broken: Option<string>)
    ensures Reassembled(Translation(events, broken)) == Reassembled(Body(Handled(events)))
  {
    var sent, last := [Role] + Body(Handled(events)), Ending(events, broken);
    EndingReceived(sent, last);
    ReassembledPrefix(Body(Handled(events)));
    assert Translation(events, broken) == sent + [last] + [Done];
  }

  /** When the client's tools are the blocks' own: no stray input has a character, and none comes before
      the first tool, unless that tool happens to have the name the client gives to nameless ones. */
  predicate ToolsUnspoilt(events: seq<Event>) {
    var tools := ToolsOf(Blocks(Assembled(events)));
    StraysEmpty(events) && (EarlyStray(events) ==> tools != [] && tools[0].name == UNNAMED)
  }

  /** Streaming refines the buffered form, on every run, clean, faulted or broken off: the client of the
      stream ends up with the text and the reasoning of the blocks the handled events stand for when
      these arrive in block order; and with each tool, in order, holding exactly its own block's input,
      if and only if stray input leaves the tools unspoilt. */
  lemma StreamRefinesBuffered(events: seq<Event>, broken: Option<string>)
    ensures var h := Handled(events);
      var r, blocks := Reassembled(Translation(events, broken)), Blocks(Assembled(h));
      && (TextInOrder(h) ==> r.text == TextOf(blocks))
      && (ReasoningInOrder(h) ==> r.reasoning == ReasoningOf(blocks))
      && (StartOnce(h) ==> (r.tools == ToolsOf(blocks) <==> ToolsUnspoilt(h)))
  {
    var h := Handled(events);
    TranslationReceived(events, broken);
    if TextInOrder(h) {
      TextRefined(h);
    }
    if ReasoningInOrder(h) {
      ReasoningRefined(h);
    }
    if StartOnce(h) {
      ToolsExactly(h);
    }
  }

  lemma ToolsExactly(h: seq<Event>)
    requires StartOnce(h)
    ensures Reassembled(Body(h)).tools == ToolsOf(Blocks(Assembled(h))) <==> ToolsUnspoilt(h)
  {
    ToolsRefined(h);
    TotalExtraExactly(h);
    AlikeExactly(Reassembled(Body(h)).tools, ToolsOf(Blocks(Assembled(h))), TotalExtra(h), EarlyStray(h));
  }

  // ---------------------------------------------------------------- words, in order of arrival

  function AllText(events: seq<Event>): string {
    if events == [] then "" else AllText(events[..|events| - 1]) + NewText(events[|events| - 1])
  }

  function AllReasoning(events: seq<Event>): string {
    if events == [] then "" else AllReasoning(events[..|events| - 1]) + NewReasoning(events[|events| - 1])
  }

  lemma {:induction false} WordsArrive(events: seq<Event>)
    ensures Reassembled(Body(events)).text == AllText(events)
    ensures Reassembled(Body(events)).reasoning == AllReasoning(events)
  {
    if events != [] {
      var init, e := events[..|events| - 1], events[|events| - 1];
      RunSnoc(events);
      WordsArrive(init);
      LearnedWords(Reassembled(Body(init)), Remembered(init), e);
    }
  }

  /** On every run the client's text and reasoning are all the deltas of the handled events, in order of
      arrival, whatever blocks they are for. */
  lemma WordsAsTheyCome(events: seq<Event>, broken: Option<string>)
    ensures var h, r := Handled(events), Reassembled(Translation(events, broken));
      r.text == AllText(h) && r.reasoning == AllReasoning(h)
  {
    TranslationReceived(events, broken);
    WordsArrive(Handled(events));
  }

  // ---------------------------------------------------------------- tools, in order of their starts

  /** The tools that were started, one for every start. */
  function Starts(events: seq<Event>): seq<ToolStart> {
    if events == [] then []
    else
      var e := events[|events| - 1];
      Starts(events[..|events| - 1]) + if e.fault.None? && e.start.Some? then [e.start.value.1] else []
  }

  /** Whose input a delta for `block` is after these events: the latest start of the block, or the first
      start of all. */
  function Owner(events: seq<Event>, block: int): nat {
    if events == [] then 0
    else
      var init, e := events[..|events| - 1], events[|events| - 1];
      if e.fault.None? && e.start.Some? && e.start.value.0 == block then |Starts(init)| else Owner(init, block)
  }

  /** The input of an event that goes to tool `i`. */
  function InputFor(events: seq<Event>, e: Event, i: nat): string {
    if IsDelta(e) && Owner(events, e.delta.value.0) == i then e.delta.value.1.toolInput.GetOr("") else ""
  }

  /** All input that goes to tool `i`, in order of arrival. */
  function InputsOf(events: seq<Event>, i: nat): string {
    if events == [] then ""
    else
      var init, e := events[..|events| - 1], events[|events| - 1];
      InputsOf(init, i) + InputFor(init, e, i)
  }

  /** Some input came before any start. */
  predicate InputFirst(events: seq<Event>) {
    events != [] &&
    var init, e := events[..|events| - 1], events[|events| - 1];
    InputFirst(init) || (IsDelta(e) && e.delta.value.1.toolInput.Some? && Starts(init) == [])
  }

  lemma {:induction false} OwnerIsToolIndex(events: seq<Event>, block: int)
    ensures ToolIndex(Remembered(events), block) == Owner(events, block)
    ensures Remembered(events).nextTool == |Starts(events)|
    ensures Owner(events, block) < |Starts(events)| || Owner(events, block) == 0
  {
    if events != [] {
      OwnerIsToolIndex(events[..|events| - 1], block);
    }
  }

  /** How many tools the client holds: one per start, and one for input that no start has preceded. */
  function ToolNumber(events: seq<Event>): nat {
    if Starts(events) == [] && InputFirst(events) then 1 else |Starts(events)|
  }

  /** The client's tool `i`: its start's id and name, with the input it owns. Input before the first start
      makes an entry without a name, which keeps the client's own. */
  function ToolAt(events: seq<Event>, i: nat): Tool
    requires i < ToolNumber(events)
  {
    var starts := Starts(events);
    if starts == [] then Tool("", UNNAMED, InputsOf(events, i))
    else Tool(starts[i].id, if i == 0 && InputFirst(events) then UNNAMED else starts[i].name, InputsOf(events, i))
  }

  ghost predicate ToolsByStart(tools: seq<Tool>, events: seq<Event>) {
    |tools| == ToolNumber(events) && forall i :: 0 <= i < |tools| ==> tools[i] == ToolAt(events, i)
  }

  /** Input goes only to tools that have been started, or to the first. */
  lemma {:induction false} NoInputAhead(events: seq<Event>, i: nat)
    requires i >= ToolNumber(events)
    ensures InputsOf(events, i) == ""
  {
    if events != [] {
      var init, e := events[..|events| - 1], events[|events| - 1];
      NoInputAhead(init, i);
      if IsDelta(e) {
        OwnerIsToolIndex(init, e.delta.value.0);
      }
    }
  }

  predicate IsStart(e: Event) {
    e.fault.None? && e.start.Some?
  }

  predicate HasInput(e: Event) {
    IsDelta(e) && e.delta.value.1.toolInput.Some?
  }

  /** All events but the last, which is `e`. */
  ghost predicate Ends(events: seq<Event>, init: seq<Event>, e: Event) {
    events != [] && init == events[..|events| - 1] && e == events[|events| - 1]
  }

  lemma StartsLast(events: seq<Event>, init: seq<Event>, e: Event)
    requires Ends(events, init, e)
    ensures Starts(events) == if IsStart(e) then Starts(init) + [e.start.value.1] else Starts(init)
    ensures InputFirst(events) <==> InputFirst(init) || (HasInput(e) && Starts(init) == [])
  {
    assert Starts(init) + [] == Starts(init);
  }

  lemma InputsLast(events: seq<Event>, init: seq<Event>, e: Event, i: nat)
    requires Ends(events, init, e)
    ensures InputsOf(events, i)
         == if HasInput(e) && Owner(init, e.delta.value.0) == i then InputsOf(init, i) + e.delta.value.1.toolInput.value
            else InputsOf(init, i)
  {
    assert InputsOf(init, i) + "" == InputsOf(init, i);
  }

  /** A start changes no earlier tool. */
  lemma StartKeeps(events: seq<Event>, init: seq<Event>, e: Event, i: nat)
    requires Ends(events, init, e) && IsStart(e) && i < |Starts(init)|
    ensures i < ToolNumber(init) && i < ToolNumber(events) && ToolAt(events, i) == ToolAt(init, i)
  {
    StartsLast(events, init, e);
    InputsLast(events, init, e, i);
  }

  lemma StartOpens(events: seq<Event>, init: seq<Event>, e: Event)
    requires Ends(events, init, e) && IsStart(e)
    ensures var n, tool := |Starts(init)|, e.start.value.1;
      && ToolNumber(events) == n + 1
      && ToolAt(events, n)
         == Tool(tool.id, if n == 0 && InputFirst(init) then UNNAMED else tool.name, InputsOf(init, n))
  {
    StartsLast(events, init, e);
    InputsLast(events, init, e, |Starts(init)|);
  }

  /** The tool that a start makes: a new entry, or the nameless one that is there. */
  lemma OpenedLast(tools: seq<Tool>, init: seq<Event>, id: string, name: string)
    requires ToolsByStart(tools, init)
    ensures var n := |Starts(init)|;
      var next := WithHead(tools, n, id, name);
      && |next| == n + 1
      && next[n] == Tool(id, if n == 0 && InputFirst(init) then UNNAMED else name, InputsOf(init, n))
      && forall i :: 0 <= i < n ==> next[i] == tools[i]
  {
    var n := |Starts(init)|;
    if |tools| == n {
      NoInputAhead(init, n);
    } else {
      assert tools[0] == ToolAt(init, 0);
    }
  }

  lemma OpenedAt(tools: seq<Tool>, events: seq<Event>, init: seq<Event>, e: Event, next: seq<Tool>, i: nat)
    requires Ends(events, init, e) && ToolsByStart(tools, init) && IsStart(e) && i <= |Starts(init)|
    requires next == WithHead(tools, |Starts(init)|, e.start.value.1.id, e.start.value.1.name)
    ensures |next| == |Starts(init)| + 1 == ToolNumber(events) && next[i] == ToolAt(events, i)
  {
    StartOpens(events, init, e);
    OpenedLast(tools, init, e.start.value.1.id, e.start.value.1.name);
    if i < |Starts(init)| {
      StartKeeps(events, init, e, i);
      assert tools[i] == ToolAt(init, i);
    }
  }

  lemma ByStartOpens(tools: seq<Tool>, events: seq<Event>, init: seq<Event>, e: Event)
    requires Ends(events, init, e) && ToolsByStart(tools, init) && IsStart(e)
    ensures ToolsByStart(WithHead(tools, |Starts(init)|, e.start.value.1.id, e.start.value.1.name), events)
  {
    var next := WithHead(tools, |Starts(init)|, e.start.value.1.id, e.start.value.1.name);
    OpenedAt(tools, events, init, e, next, 0);
    forall i | 0 <= i < |next| ensures next[i] == ToolAt(events, i) {
      OpenedAt(tools, events, init, e, next, i);
    }
  }

  lemma InputAdds(events: seq<Event>, init: seq<Event>, e: Event, i: nat)
    requires Ends(events, init, e) && !IsStart(e) && i < ToolNumber(init)
    ensures i < ToolNumber(events)
    ensures ToolAt(events, i) == ToolAt(init, i).(arguments := InputsOf(events, i))
  {
    StartsLast(events, init, e);
  }

  lemma ByStartInput(tools: seq<Tool>, events: seq<Event>, init: seq<Event>, e: Event)
    requires Ends(events, init, e) && ToolsByStart(tools, init) && HasInput(e)
    ensures ToolsByStart(WithInput(tools, Owner(init, e.delta.value.0), e.delta.value.1.toolInput.value), events)
  {
    var k, input := Owner(init, e.delta.value.0), e.delta.value.1.toolInput.value;
    var next := WithInput(tools, k, input);
    OwnerIsToolIndex(init, e.delta.value.0);
    StartsLast(events, init, e);
    if |tools| == 0 {
      FirstInput(events, init, e);
    } else {
      forall i | 0 <= i < |tools| ensures next[i] == ToolAt(events, i) {
        InputAdds(events, init, e, i);
        InputsLast(events, init, e, i);
        assert tools[i] == ToolAt(init, i);
      }
    }
  }

  lemma FirstInput(events: seq<Event>, init: seq<Event>, e: Event)
    requires Ends(events, init, e) && HasInput(e) && ToolNumber(init) == 0
    ensures ToolNumber(events) == 1 && ToolAt(events, 0) == Tool("", UNNAMED, e.delta.value.1.toolInput.value)
    ensures Owner(init, e.delta.value.0) == 0
  {
    OwnerIsToolIndex(init, e.delta.value.0);
    StartsLast(events, init, e);
    InputsLast(events, init, e, 0);
    NoInputAhead(init, 0);
    assert "" + e.delta.value.1.toolInput.value == e.delta.value.1.toolInput.value;
  }

  lemma ByStartOther(tools: seq<Tool>, events: seq<Event>, init: seq<Event>, e: Event)
    requires Ends(events, init, e) && ToolsByStart(tools, init) && !IsStart(e) && !HasInput(e)
    ensures ToolsByStart(tools, events)
  {
    StartsLast(events, init, e);
    forall i | 0 <= i < |tools| ensures tools[i] == ToolAt(events, i) {
      InputAdds(events, init, e, i);
      InputsLast(events, init, e, i);
      assert tools[i] == ToolAt(init, i);
    }
  }

  /** What an event does to the client's tools. */
  lemma LearnedTools(r: Received, events: seq<Event>, e: Event)
    ensures var tools := Learned(r, Remembered(events), e).tools;
      && (IsStart(e) ==> tools == WithHead(r.tools, |Starts(events)|, e.start.value.1.id, e.start.value.1.name))
      && (HasInput(e) ==>
            tools == WithInput(r.tools, Owner(events, e.delta.value.0), e.delta.value.1.toolInput.value))
      && (!IsStart(e) && !HasInput(e) ==> tools == r.tools)
  {
    OwnerIsToolIndex(events, if IsDelta(e) then e.delta.value.0 else 0);
  }

  lemma ByStartNext(r: Received, events: seq<Event>, init: seq<Event>, e: Event)
    requires Ends(events, init, e) && ToolsByStart(r.tools, init)
    ensures ToolsByStart(Learned(r, Remembered(init), e).tools, events)
  {
    LearnedTools(r, init, e);
    if IsStart(e) {
      ByStartOpens(r.tools, events, init, e);
    } else if HasInput(e) {
      ByStartInput(r.tools, events, init, e);
    } else {
      ByStartOther(r.tools, events, init, e);
    }
  }

  lemma {:induction false} BodyByStart(events: seq<Event>)
    ensures ToolsByStart(Reassembled(Body(events)).tools, events)
  {
    if events != [] {
      var init, e := events[..|events| - 1], events[|events| - 1];
      RunSnoc(events);
      BodyByStart(init);
      ByStartNext(Reassembled(Body(init)), events, init, e);
    }
  }

  /** On every run, whatever blocks the starts and deltas are for: the client holds one tool per start, in
      order, each with the input of its own block while that start was the block's latest. */
  lemma ToolsAsTheyStart(events: seq<Event>, broken: Option<string>)
    ensures ToolsByStart(Reassembled(Translation(events, broken)).tools, Handled(events))
  {
    TranslationReceived(events, broken);
    BodyByStart(Handled(events));
  }

  /** What one event puts on the stream after `before`: a fault its name, a start the number of starts so far
      with its own id and name, a delta its text, its reasoning and its input, in this order and as far as there
      are any, the input under the number of its block's latest start; anything else nothing. */
  function Saying(before: seq<Event>, e: Event): seq<Chunk> {
    if e.fault.Some? then [Fault(e.fault.value)]
    else if IsStart(e) then [ToolOpen(|Starts(before)|, e.start.value.1.id, e.start.value.1.name)]
    else if !IsDelta(e) then []
    else
      var (block, d) := e.delta.value;
      var text, reasoning, owner := d.text.GetOr(""), d.reasoning.GetOr(""), Owner(before, block);
      match (text != "", reasoning != "", d.toolInput)
      case (true, true, None) => [Content(text), Reasoning(reasoning)]
      case (true, false, None) => [Content(text)]
      case (false, true, None) => [Reasoning(reasoning)]
      case (false, false, None) => []
      case (true, true, Some(input)) => [Content(text), Reasoning(reasoning), ToolArguments(owner, input)]
      case (true, false, Some(input)) => [Content(text), ToolArguments(owner, input)]
      case (false, true, Some(input)) => [Reasoning(reasoning), ToolArguments(owner, input)]
      case (false, false, Some(input)) => [ToolArguments(owner, input)]
  }

  function Sayings(events: seq<Event>, n: nat): seq<Chunk>
    requires n <= |events|
  {
    if n == 0 then [] else Sayings(events, n - 1) + Saying(events[..n - 1], events[n - 1])
  }

  lemma EventSays(before: seq<Event>, e: Event)
    ensures EventChunks(Remembered(before), e) == Saying(before, e)
  {
    OwnerIsToolIndex(before, if IsDelta(e) then e.delta.value.0 else 0);
  }

  lemma {:induction false} BodySays(events: seq<Event>, n: nat)
    requires n <= |events|
    ensures Body(events[..n]) == Sayings(events, n)
  {
    if n > 0 {
      BodySays(events, n - 1);
      EventSays(events[..n - 1], events[n - 1]);
      assert events[..n][..n - 1] == events[..n - 1];
    }
  }

  /** Between the role and the ending, every run sends what its handled events say, event by event. */
  lemma SaidInOrder(events: seq<Event>, broken: Option<string>)
    ensures var h, t := Handled(events), Translation(events, broken);
      |t| >= 3 && t == [Role] + Sayings(h, |h|) + [t[|t| - 2], Done]
  {
    var h := Handled(events);
    BodySays(h, |h|);
    assert h[..|h|] == h;
    FramedIs([Role] + Body(h), Ending(events, broken));
  }

  lemma FramedIs(sent: seq<Chunk>, ending: Chunk)
    ensures var t := sent + [ending] + [Done]; t[|t| - 2] == ending && t == sent + [ending, Done]
  {
  }

  /** Some start is for a block that holds a tool already. */
  predicate Reopens(events: seq<Event>) {
    events != [] &&
    var init, e := events[..|events| - 1], events[|events| - 1];
    Reopens(init) || (e.fault.None? && e.start.Some? && IsOpen(Assembled(init), e.start.value.0))
  }

  lemma {:induction false} ToolCount(blocks: seq<Held>, i: nat, h: Held)
    requires i < |blocks|
    ensures |ToolsOf(blocks[i := h])| + (if blocks[i].tool.Some? then 1 else 0)
         == |ToolsOf(blocks)| + (if h.tool.Some? then 1 else 0)
  {
    var n := |blocks| - 1;
    if i < n {
      ToolCount(blocks[..n], i, h);
      assert blocks[i := h][..n] == blocks[..n][i := h];
    } else {
      assert blocks[i := h][..n] == blocks[..n];
    }
  }

  lemma AssembleCount(b: Assembly, e: Event)
    ensures |ToolsOf(Blocks(Assemble(b, e)))|
         == |ToolsOf(Blocks(b))|
            + if e.fault.None? && e.start.Some? && !IsOpen(b, e.start.value.0) then 1 else 0
  {
    if e.fault.None? && (e.start.Some? || e.delta.Some?) {
      var block := if e.start.Some? then e.start.value.0 else e.delta.value.0;
      var t, next := Touched(b, block), Assemble(b, e);
      var i := Find(t, block);
      TouchedBlocks(b, block);
      TouchedPlace(b, block);
      assert Blocks(next) == Blocks(t)[i := next[i].1];
      ToolCount(Blocks(t), i, next[i].1);
    }
  }

  /** Blocks hold at most one tool per start, and fewer exactly when one is reopened. */
  lemma {:induction false} HeldWithinStarts(events: seq<Event>)
    ensures |ToolsOf(Blocks(Assembled(events)))| <= |Starts(events)|
    ensures |ToolsOf(Blocks(Assembled(events)))| == |Starts(events)| <==> !Reopens(events)
  {
    if events != [] {
      HeldWithinStarts(events[..|events| - 1]);
      AssembleCount(Assembled(events[..|events| - 1]), events[|events| - 1]);
    }
  }

  /** When a block is opened twice, the client holds more tools than the blocks do. */
  lemma ReopenedBlockDiffers(events: seq<Event>, broken: Option<string>)
    requires Reopens(Handled(events))
    ensures |Reassembled(Translation(events, broken)).tools| > |ToolsOf(Blocks(Assembled(Handled(events))))|
  {
    ToolsAsTheyStart(events, broken);
    HeldWithinStarts(Handled(events));
  }

  // ---------------------------------------------------------------- runs on which the two differ

  const OPEN: Event := Event(None, Some((0, ToolStart("a", "f"))), None, None, None)
  const STRAY: Event := Event(None, None, Some((1, Delta(None, None, Some("x")))), None, None)

  lemma OpenAssembled()
    ensures Assembled([OPEN]) == [(0, EMPTY.(tool := Some(Tool("a", "f", ""))))]
    ensures ToolsOf(Blocks(Assembled([OPEN]))) == [Tool("a", "f", "")]
  {
    assert [OPEN][..0] == [];
    var t := Touched([], 0);
    assert t == [(0, EMPTY)];
    var b := Assemble([], OPEN);
    assert b == [(0, EMPTY.(tool := Some(Tool("a", "f", ""))))];
    assert Blocks(b)[..0] == [] && Blocks(b)[0].tool.Some?;
    assert Assembled([OPEN]) == b;
  }

  /** A run that opens one block twice. */
  lemma ReopenedExample()
    ensures FaultFree([OPEN, OPEN])
    ensures |Reassembled(Translation([OPEN, OPEN], None)).tools| > |ToolsOf(Blocks(Assembled([OPEN, OPEN])))|
  {
    var events := [OPEN, OPEN];
    assert events[..1] == [OPEN];
    OpenAssembled();
    assert IsOpen(Assembled([OPEN]), 0);
    assert Reopens(events);
    HandledFaultFree(events);
    ReopenedBlockDiffers(events, None);
  }

  lemma StrayAfterOpen()
    ensures StartOnce([OPEN, STRAY]) && !StraysEmpty([OPEN, STRAY])
  {
    var events := [OPEN, STRAY];
    assert events[..1] == [OPEN] && [OPEN][..0] == [];
    OpenAssembled();
    assert Stray(Assembled([OPEN]), STRAY) && STRAY.delta.value.1.toolInput.value == "x";
  }

  /** An input delta whose block was never opened is booked on tool 0: one such run. */
  lemma UnopenedDeltaSpoilsToolZero()
    ensures StartOnce([OPEN, STRAY]) && FaultFree([OPEN, STRAY])
    ensures Reassembled(Translation([OPEN, STRAY], None)).tools != ToolsOf(Blocks(Assembled([OPEN, STRAY])))
  {
    StrayAfterOpen();
    HandledFaultFree([OPEN, STRAY]);
    StreamRefinesBuffered([OPEN, STRAY], None);
  }

  /** The same when the delta comes before tool 0 is opened. */
  lemma EarlyDeltaSpoilsToolZero()
    ensures StartOnce([STRAY, OPEN]) && FaultFree([STRAY, OPEN])
    ensures Reassembled(Translation([STRAY, OPEN], None)).tools != ToolsOf(Blocks(Assembled([STRAY, OPEN])))
  {
    var events := [STRAY, OPEN];
    assert events[..1] == [STRAY] && [STRAY][..0] == [];
    var b := Assembled([STRAY]);
    assert Stray([], STRAY) && !StraysEmpty([STRAY]);
    assert b == [(1, EMPTY)] by {
      assert Touched([], 1) == [(1, EMPTY)];
      assert Extended(EMPTY, STRAY.delta.value.1) == EMPTY;
    }
    assert StartOnce([STRAY]);
    HandledFaultFree(events);
    StreamRefinesBuffered(events, None);
  }

  function Says(block: int, text: string): Event {
    Event(None, None, Some((block, Delta(Some(text), None, None))), None, None)
  }

  const INTERLEAVED: seq<Event> := [Says(0, "x"), Says(1, "y"), Says(0, "z")]

  lemma InterleavedArrives()
    ensures AllText(INTERLEAVED) == "xyz"
  {
    var e := INTERLEAVED;
    AllTextSnoc([], e[0]);
    AllTextSnoc([e[0]], e[1]);
    AllTextSnoc([e[0], e[1]], e[2]);
    assert [] + [e[0]] == [e[0]] && [e[0]] + [e[1]] == [e[0], e[1]] && [e[0], e[1]] + [e[2]] == e;
    assert "" + "x" == "x" && "x" + "y" == "xy" && "xy" + "z" == "xyz";
  }

  /** Text that goes back to an earlier block is heard in another order than the block holds it. */
  lemma InterleavedTextDiffers()
    ensures FaultFree(INTERLEAVED)
    ensures Reassembled(Translation(INTERLEAVED, None)).text == "xyz"
    ensures TextOf(Blocks(Assembled(INTERLEAVED))) == "xzy"
  {
    HandledFaultFree(INTERLEAVED);
    WordsAsTheyCome(INTERLEAVED, None);
    InterleavedArrives();
    InterleavedBlocks();
  }

  lemma AllTextSnoc(events: seq<Event>, e: Event)
    ensures AllText(events + [e]) == AllText(events) + NewText(e)
  {
    assert (events + [e])[..|events + [e]| - 1] == events;
  }

  function Holds(text: string): Held {
    EMPTY.(text := Some(text))
  }

  /** A text for a new block adds a block that holds it. */
  lemma SaysNew(b: Assembly, block: int, text: string)
    requires !Has(b, block)
    ensures Assemble(b, Says(block, text)) == b + [(block, Holds(text))]
  {
    TouchedPlace(b, block);
    assert "" + text == text;
  }

  lemma TwoSaid()
    ensures Assembled([Says(0, "x"), Says(1, "y")]) == [(0, Holds("x")), (1, Holds("y"))]
  {
    var e := [Says(0, "x"), Says(1, "y")];
    assert e[..1] == [e[0]] && [e[0]][..0] == [];
    SaysNew([], 0, "x");
    SaysNew([(0, Holds("x"))], 1, "y");
    assert Assembled([e[0]]) == [] + [(0, Holds("x"))] == [(0, Holds("x"))];
    assert [(0, Holds("x"))] + [(1, Holds("y"))] == [(0, Holds("x")), (1, Holds("y"))];
  }

  lemma InterleavedBlocks()
    ensures TextOf(Blocks(Assembled(INTERLEAVED))) == "xzy"
  {
    TwoSaid();
    assert INTERLEAVED[..2] == [Says(0, "x"), Says(1, "y")] && "x" + "z" == "xz";
    assert Blocks(Assembled(INTERLEAVED)) == [Holds("xz"), Holds("y")];
    TwoTexts(Holds("xz"), Holds("y"));
    assert "xz" + "y" == "xzy";
  }

  lemma TwoTexts(x: Held, y: Held)
    ensures TextOf([x, y]) == x.text.GetOr("") + y.text.GetOr("")
  {
    assert [x, y][..1] == [x] && [x][..0] == [];
    assert TextOf([x]) == "" + x.text.GetOr("") == x.text.GetOr("");
  }
}
