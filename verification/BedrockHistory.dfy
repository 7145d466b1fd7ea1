/** From an OpenAI chat history to the Bedrock message list. */
module BedrockHistory {
  import opened JsText
  import opened OrderedMap
  import opened BedrockPairs
  import opened BedrockMessages
  import opened Sequences

  /** A content part, by the first test of the executor that it passes. `image` is what the data-URL
      parser makes of the part, `input` and `content` the already serialised payloads. */
  datatype Part =
    | PlainText(text: string)
    | ImagePart(image: Option<string>)
    | UsePart(id: string, name: string, input: string)
    | ResultPart(toolUseId: string, content: string, isError: bool)
    | OtherPart

  datatype Content = TextContent(text: string) | Parts(parts: seq<Part>) | NoContent

  datatype Call = Call(id: Option<string>, name: string, input: string)

  /** `resultContent` is the tool-result payload built from a tool message's content. */
  datatype ChatMessage =
    | NotAnObject
    | ChatMessage(
        role: string, toolCallId: Option<string>, content: Content, calls: seq<Call>, resultContent: seq<string>)

  function Normalized(id: Option<string>): Option<string> {
    if id.Some? then NormalizeId(id.value) else None
  }

  // ---------------------------------------------------------------- specification

  function PartResultIds(content: Content): set<string> {
    if content.Parts?
    then set p | p in content.parts && p.ResultPart? && NormalizeId(p.toolUseId).Some? :: NormalizeId(p.toolUseId).value
    else {}
  }

  /** Ids with a result anywhere in the history. */
  function AnsweredIds(messages: seq<ChatMessage>): set<string> {
    if messages == [] then {}
    else
      var m := messages[|messages| - 1];
      AnsweredIds(messages[..|messages| - 1])
      + (if m.ChatMessage? && m.role == "tool" && Normalized(m.toolCallId).Some?
         then {Normalized(m.toolCallId).value} else {})
      + if m.ChatMessage? then PartResultIds(m.content) else {}
  }

  /** Blocks built so far, and how many random ids were drawn. */
  datatype Blocks = Blocks(blocks: seq<Block>, drawn: nat)

  function GeneratedId(uuid: nat -> string, drawn: nat): string {
    "toolu_" + uuid(drawn)
  }

  function AddPart(b: Blocks, p: Part, skip: set<string>, answered: set<string>, uuid: nat -> string): Blocks {
    match p
    case PlainText(text) => if Trim(text) != "" then b.(blocks := b.blocks + [Text(text)]) else b
    case ImagePart(image) => if image.Some? then b.(blocks := b.blocks + [Image(image.value)]) else b
    case UsePart(id, name, input) =>
      var raw := NormalizeId(id);
      if raw.None? then Blocks(b.blocks + [ToolUse(Identified(GeneratedId(uuid, b.drawn)), name, input)], b.drawn + 1)
      else if raw.value in skip || raw.value !in answered then b
      else b.(blocks := b.blocks + [ToolUse(Identified(raw.value), name, input)])
    case ResultPart(id, content, isError) => b.(blocks := b.blocks + [ToolResult(Identified(id), [content], isError)])
    case OtherPart => b
  }

  function AddParts(
    b: Blocks, parts: seq<Part>, skip: set<string>, answered: set<string>, uuid: nat -> string): Blocks {
    if parts == [] then b
    else AddPart(AddParts(b, parts[..|parts| - 1], skip, answered, uuid), parts[|parts| - 1], skip, answered, uuid)
  }

  function ContentBlocks(
    drawn: nat, content: Content, skip: set<string>, answered: set<string>, uuid: nat -> string): Blocks {
    match content
    case TextContent(text) => Blocks(if Trim(text) != "" then [Text(text)] else [], drawn)
    case Parts(parts) => AddParts(Blocks([], drawn), parts, skip, answered, uuid)
    case NoContent => Blocks([], drawn)
  }

  /** The translation so far: messages, tool calls still waiting for a result, ids known to have a
      result, random ids drawn. */
  datatype Draft = Draft(turns: seq<Turn>, pending: set<string>, answered: set<string>, drawn: nat)

  datatype Asking = Asking(content: seq<Block>, pending: set<string>, drawn: nat)

  function AddCall(a: Asking, c: Call, answered: set<string>, uuid: nat -> string): Asking {
    var normal := Normalized(c.id);
    var id := if normal.Some? then normal.value else GeneratedId(uuid, a.drawn);
    var drawn := if normal.Some? then a.drawn else a.drawn + 1;
    if id in a.pending || id !in answered then a.(drawn := drawn)
    else
      var name := if c.name != "" then c.name else "unknown_tool";
      Asking(a.content + [ToolUse(Identified(id), name, c.input)], a.pending + {id}, drawn)
  }

  function AddCalls(a: Asking, calls: seq<Call>, answered: set<string>, uuid: nat -> string): Asking {
    if calls == [] then a
    else AddCall(AddCalls(a, calls[..|calls| - 1], answered, uuid), calls[|calls| - 1], answered, uuid)
  }

  function CallIds(calls: seq<Call>): set<string> {
    set c | c in calls && Normalized(c.id).Some? :: Normalized(c.id).value
  }

  /** Those are the trimmed ids of the calls that have one. */
  lemma CallIdsExactly(calls: seq<Call>, id: string)
    ensures id in CallIds(calls)
      <==> exists j :: 0 <= j < |calls|
             && calls[j].id.Some? && !Blank(calls[j].id.value) && Trim(calls[j].id.value) == id
  {
    if id in CallIds(calls) {
      var c :| c in calls && Normalized(c.id) == Some(id);
      var j :| 0 <= j < |calls| && calls[j] == c;
      BlankExactly(calls[j].id.value);
    }
    if j :| 0 <= j < |calls| && calls[j].id.Some? && !Blank(calls[j].id.value) && Trim(calls[j].id.value) == id {
      BlankExactly(calls[j].id.value);
      assert calls[j] in calls;
    }
  }

  function AddMessage(d: Draft, m: ChatMessage, uuid: nat -> string): Draft {
    if m.NotAnObject? || m.role == "system" || m.role == "developer" then d
    else if m.role == "tool" then
      var normal := Normalized(m.toolCallId);
      var id := if normal.Some? then normal.value else GeneratedId(uuid, d.drawn);
      Draft(d.turns + [Turn(User, [ToolResult(Identified(id), m.resultContent, false)])],
            d.pending - {id}, d.answered + {id},
            if normal.Some? then d.drawn else d.drawn + 1)
    else
      var b := ContentBlocks(d.drawn, m.content, CallIds(m.calls), d.answered, uuid);
      var a := AddCalls(Asking(b.blocks, d.pending, b.drawn), m.calls, d.answered, uuid);
      Draft(d.turns + [Turn(if m.role == "assistant" then Assistant else User, NonEmpty(a.content))],
            a.pending, d.answered, a.drawn)
  }

  function Drafted(messages: seq<ChatMessage>, n: nat, uuid: nat -> string): Draft
    requires n <= |messages|
  {
    if n == 0 then Draft([], {}, AnsweredIds(messages), 0)
    else AddMessage(Drafted(messages, n - 1, uuid), messages[n - 1], uuid)
  }

  /** What is handed to the repair: never an empty list. */
  function Converted(messages: seq<ChatMessage>, uuid: nat -> string): seq<Turn> {
    var turns := Drafted(messages, |messages|, uuid).turns;
    if turns == [] then [Turn(User, [BLANK])] else turns
  }

  // ---------------------------------------------------------------- properties

  /** Message `m` brings a result of `id`: a tool message for it, or a result part. */
  ghost predicate Brings(m: ChatMessage, id: string) {
    && m.ChatMessage?
    && ((m.role == "tool" && Normalized(m.toolCallId) == Some(id)) || HasResultPart(m.content, id))
  }

  ghost predicate HasResultPart(content: Content, id: string) {
    content.Parts? && exists p :: p in content.parts && p.ResultPart? && NormalizeId(p.toolUseId) == Some(id)
  }

  /** Some message of the history brings a result of `id`. */
  ghost predicate AnsweredIn(messages: seq<ChatMessage>, id: string) {
    exists i :: 0 <= i < |messages| && Brings(messages[i], id)
  }

  lemma {:induction false} AnsweredIdsAre(messages: seq<ChatMessage>, id: string)
    ensures id in AnsweredIds(messages) <==> AnsweredIn(messages, id)
  {
    if messages != [] {
      var init, m := messages[..|messages| - 1], messages[|messages| - 1];
      AnsweredIdsAre(init, id);
      if m.ChatMessage? {
        assert id in PartResultIds(m.content) <==> HasResultPart(m.content, id);
      }
      if i :| 0 <= i < |init| && Brings(init[i], id) {
        assert Brings(messages[i], id);
      }
      if i :| 0 <= i < |messages| && Brings(messages[i], id) {
        assert i < |init| ==> Brings(init[i], id);
      }
    }
  }

  // ---------------------------------------------------------------- which parts become blocks

  /** A part that becomes a block: a text that is not blank, an image that can be read, a use that is
      answered somewhere and not repeated by a tool call, or has no id yet, and every result. */
  predicate Shown(p: Part, skip: set<string>, answered: set<string>) {
    match p
    case PlainText(text) => !Blank(text)
    case ImagePart(image) => image.Some?
    case UsePart(id, _, _) => Blank(id) || (Trim(id) !in skip && Trim(id) in answered)
    case ResultPart(_, _, _) => true
    case OtherPart => false
  }

  /** The block of a shown part: its own payload; a use under its trimmed id or, without one, under id number
      `k` of the supply. */
  function BlockFor(p: Part, k: nat, uuid: nat -> string): Block {
    match p
    case PlainText(text) => Text(text)
    case ImagePart(image) => Image(image.GetOr(""))
    case UsePart(id, name, input) =>
      ToolUse(Identified(if Blank(id) then "toolu_" + uuid(k) else Trim(id)), name, input)
    case ResultPart(id, content, isError) => ToolResult(Identified(id), [content], isError)
    case OtherPart => BLANK
  }

  /** Uses without an id among the first `n` parts. */
  function IdLess(parts: seq<Part>, n: nat): nat
    requires n <= |parts|
  {
    if n == 0 then 0 else IdLess(parts, n - 1) + if parts[n - 1].UsePart? && Blank(parts[n - 1].id) then 1 else 0
  }

  /** The blocks of the shown parts, in order; `drawn` ids of the supply are taken already. */
  function ShownBlocks(
    parts: seq<Part>, n: nat, drawn: nat, skip: set<string>, answered: set<string>, uuid: nat -> string): seq<Block>
    requires n <= |parts|
  {
    Gathered(n, ShownAt(parts, skip, answered), BlockAt(parts, drawn, uuid))
  }

  function ShownAt(parts: seq<Part>, skip: set<string>, answered: set<string>): nat -> bool {
    (t: nat) => t < |parts| && Shown(parts[t], skip, answered)
  }

  function BlockAt(parts: seq<Part>, drawn: nat, uuid: nat -> string): nat -> Block {
    (t: nat) => if t < |parts| then BlockFor(parts[t], drawn + IdLess(parts, t), uuid) else BLANK
  }

  lemma AddPartShows(b: Blocks, p: Part, skip: set<string>, answered: set<string>, uuid: nat -> string)
    ensures AddPart(b, p, skip, answered, uuid).blocks
         == if Shown(p, skip, answered) then b.blocks + [BlockFor(p, b.drawn, uuid)] else b.blocks
    ensures AddPart(b, p, skip, answered, uuid).drawn == b.drawn + if p.UsePart? && Blank(p.id) then 1 else 0
  {
    match p
    case PlainText(text) => BlankExactly(text);
    case UsePart(id, _, _) => BlankExactly(id);
    case _ =>
  }

  lemma PartGathered(
    b: Blocks, p: Part, n: nat, keep: nat -> bool, of: nat -> Block,
    skip: set<string>, answered: set<string>, uuid: nat -> string)
    requires b.blocks == Gathered(n, keep, of)
    requires keep(n) == Shown(p, skip, answered) && of(n) == BlockFor(p, b.drawn, uuid)
    ensures AddPart(b, p, skip, answered, uuid).blocks == Gathered(n + 1, keep, of)
  {
    AddPartShows(b, p, skip, answered, uuid);
    GatheredNext(n, keep, of);
  }

  lemma PartBlocksNext(
    b: Blocks, drawn: nat, parts: seq<Part>, n: nat, skip: set<string>, answered: set<string>, uuid: nat -> string)
    requires n < |parts| && b.drawn == drawn + IdLess(parts, n)
    requires b.blocks == ShownBlocks(parts, n, drawn, skip, answered, uuid)
    ensures AddPart(b, parts[n], skip, answered, uuid).blocks == ShownBlocks(parts, n + 1, drawn, skip, answered, uuid)
  {
    PartGathered(b, parts[n], n, ShownAt(parts, skip, answered), BlockAt(parts, drawn, uuid), skip, answered, uuid);
  }

  lemma PartDrawnNext(
    b: Blocks, drawn: nat, parts: seq<Part>, n: nat, skip: set<string>, answered: set<string>, uuid: nat -> string)
    requires n < |parts| && b.drawn == drawn + IdLess(parts, n)
    ensures AddPart(b, parts[n], skip, answered, uuid).drawn == drawn + IdLess(parts, n + 1)
  {
    AddPartShows(b, parts[n], skip, answered, uuid);
  }

  /** The shown parts become blocks, each its own, in order, and nothing else does; every use without an id
      takes the next of the supply. */
  lemma {:induction false} PartsShown(
    drawn: nat, parts: seq<Part>, n: nat, skip: set<string>, answered: set<string>, uuid: nat -> string)
    requires n <= |parts|
    ensures var r := AddParts(Blocks([], drawn), parts[..n], skip, answered, uuid);
      r.blocks == ShownBlocks(parts, n, drawn, skip, answered, uuid) && r.drawn == drawn + IdLess(parts, n)
  {
    if n > 0 {
      PartsShown(drawn, parts, n - 1, skip, answered, uuid);
      AddPartsNext(Blocks([], drawn), parts, n - 1, skip, answered, uuid);
      var b := AddParts(Blocks([], drawn), parts[..n - 1], skip, answered, uuid);
      PartBlocksNext(b, drawn, parts, n - 1, skip, answered, uuid);
      PartDrawnNext(b, drawn, parts, n - 1, skip, answered, uuid);
    }
  }

  lemma AddPartsNext(b: Blocks, parts: seq<Part>, n: nat, skip: set<string>, answered: set<string>, uuid: nat -> string)
    requires n < |parts|
    ensures AddParts(b, parts[..n + 1], skip, answered, uuid)
         == AddPart(AddParts(b, parts[..n], skip, answered, uuid), parts[n], skip, answered, uuid)
  {
    assert parts[..n + 1][..n] == parts[..n];
  }

  /** What a content shows: a string itself unless it is blank, the shown parts of a list, else nothing. */
  function ShownContent(
    content: Content, drawn: nat, skip: set<string>, answered: set<string>, uuid: nat -> string): seq<Block>
  {
    match content
    case TextContent(text) => if Blank(text) then [] else [Text(text)]
    case Parts(parts) => ShownBlocks(parts, |parts|, drawn, skip, answered, uuid)
    case NoContent => []
  }

  function ContentIdLess(content: Content): nat {
    if content.Parts? then IdLess(content.parts, |content.parts|) else 0
  }

  lemma ContentShown(drawn: nat, content: Content, skip: set<string>, answered: set<string>, uuid: nat -> string)
    ensures ContentBlocks(drawn, content, skip, answered, uuid)
         == Blocks(ShownContent(content, drawn, skip, answered, uuid), drawn + ContentIdLess(content))
  {
    match content
    case TextContent(text) => BlankExactly(text);
    case Parts(parts) =>
      PartsShown(drawn, parts, |parts|, skip, answered, uuid);
      assert parts[..|parts|] == parts;
    case NoContent =>
  }

  // ---------------------------------------------------------------- which calls become uses

  /** Calls without an id among the first `n`. */
  function IdLessCalls(calls: seq<Call>, n: nat): nat
    requires n <= |calls|
  {
    if n == 0 then 0 else IdLessCalls(calls, n - 1) + if Blank(calls[n - 1].id.GetOr("")) then 1 else 0
  }

  /** The id that call `j` goes by: its own, trimmed, or the next of the supply. */
  function CallId(calls: seq<Call>, j: nat, drawn: nat, uuid: nat -> string): string
    requires j < |calls|
  {
    if Blank(calls[j].id.GetOr("")) then "toolu_" + uuid(drawn + IdLessCalls(calls, j)) else Trim(calls[j].id.value)
  }

  /** Call `j` becomes a use: its id is answered, was not pending, and no earlier call has it. */
  predicate Pushes(start: Asking, calls: seq<Call>, j: nat, answered: set<string>, uuid: nat -> string) {
    && j < |calls|
    && CallId(calls, j, start.drawn, uuid) in answered && CallId(calls, j, start.drawn, uuid) !in start.pending
    && forall i :: 0 <= i < j ==> CallId(calls, i, start.drawn, uuid) != CallId(calls, j, start.drawn, uuid)
  }

  function UseFor(calls: seq<Call>, j: nat, drawn: nat, uuid: nat -> string): Block
    requires j < |calls|
  {
    ToolUse(Identified(CallId(calls, j, drawn, uuid)), if calls[j].name != "" then calls[j].name else "unknown_tool",
            calls[j].input)
  }

  /** The uses that the first `n` calls become, in order. */
  function UsesFor(start: Asking, calls: seq<Call>, n: nat, answered: set<string>, uuid: nat -> string): seq<Block>
    requires n <= |calls|
  {
    Gathered(n, PushesAt(start, calls, answered, uuid), UseAt(calls, start.drawn, uuid))
  }

  function PushesAt(start: Asking, calls: seq<Call>, answered: set<string>, uuid: nat -> string): nat -> bool {
    (j: nat) => Pushes(start, calls, j, answered, uuid)
  }

  function UseAt(calls: seq<Call>, drawn: nat, uuid: nat -> string): nat -> Block {
    (j: nat) => if j < |calls| then UseFor(calls, j, drawn, uuid) else BLANK
  }

  /** The ids that the first `n` calls go by. */
  function GoneBy(calls: seq<Call>, n: nat, drawn: nat, uuid: nat -> string): set<string>
    requires n <= |calls|
  {
    if n == 0 then {} else GoneBy(calls, n - 1, drawn, uuid) + {CallId(calls, n - 1, drawn, uuid)}
  }

  lemma {:induction false} GoneByExactly(calls: seq<Call>, n: nat, drawn: nat, uuid: nat -> string, id: string)
    requires n <= |calls|
    ensures id in GoneBy(calls, n, drawn, uuid) <==> exists j :: 0 <= j < n && CallId(calls, j, drawn, uuid) == id
  {
    if n > 0 {
      GoneByExactly(calls, n - 1, drawn, uuid, id);
      if j :| 0 <= j < n && CallId(calls, j, drawn, uuid) == id {
        assert j == n - 1 || id in GoneBy(calls, n - 1, drawn, uuid);
      }
    }
  }

  /** What pushing the first `n` calls leaves: the content with their uses behind it, and as pending what was
      and every answered id that one of them goes by. */
  ghost predicate CallsPushed(
    start: Asking, calls: seq<Call>, n: nat, a: Asking, answered: set<string>, uuid: nat -> string)
    requires n <= |calls|
  {
    && a.content == start.content + UsesFor(start, calls, n, answered, uuid)
    && a.drawn == start.drawn + IdLessCalls(calls, n)
    && a.pending == start.pending + GoneBy(calls, n, start.drawn, uuid) * answered
  }

  lemma UsesForNext(start: Asking, calls: seq<Call>, n: nat, answered: set<string>, uuid: nat -> string)
    requires n < |calls|
    ensures var before := UsesFor(start, calls, n, answered, uuid);
      UsesFor(start, calls, n + 1, answered, uuid)
      == if Pushes(start, calls, n, answered, uuid) then before + [UseFor(calls, n, start.drawn, uuid)] else before
  {
    GatheredNext(n, PushesAt(start, calls, answered, uuid), UseAt(calls, start.drawn, uuid));
  }

  lemma NormalizedIs(id: Option<string>)
    ensures Normalized(id) == if Blank(id.GetOr("")) then None else Some(Trim(id.value))
  {
    BlankExactly(id.GetOr(""));
    assert Blank("");
  }

  lemma CallIdIs(calls: seq<Call>, n: nat, drawn: nat, uuid: nat -> string)
    requires n < |calls|
    ensures CallId(calls, n, drawn, uuid)
         == Normalized(calls[n].id).GetOr(GeneratedId(uuid, drawn + IdLessCalls(calls, n)))
    ensures IdLessCalls(calls, n + 1) == IdLessCalls(calls, n) + if Normalized(calls[n].id).Some? then 0 else 1
  {
    NormalizedIs(calls[n].id);
  }

  /** One call, in terms of the id it goes by. */
  lemma AddCallIs(start: Asking, calls: seq<Call>, n: nat, a: Asking, answered: set<string>, uuid: nat -> string)
    requires n < |calls| && a.drawn == start.drawn + IdLessCalls(calls, n)
    ensures var id := CallId(calls, n, start.drawn, uuid);
      var drawn := start.drawn + IdLessCalls(calls, n + 1);
      AddCall(a, calls[n], answered, uuid)
      == if id in a.pending || id !in answered then Asking(a.content, a.pending, drawn)
         else Asking(a.content + [UseFor(calls, n, start.drawn, uuid)], a.pending + {id}, drawn)
  {
    CallIdIs(calls, n, start.drawn, uuid);
  }

  lemma PushesIfNotPending(
    start: Asking, calls: seq<Call>, n: nat, a: Asking, answered: set<string>, uuid: nat -> string)
    requires n < |calls| && CallsPushed(start, calls, n, a, answered, uuid)
    ensures var id := CallId(calls, n, start.drawn, uuid);
      Pushes(start, calls, n, answered, uuid) <==> id in answered && id !in a.pending
  {
    GoneByExactly(calls, n, start.drawn, uuid, CallId(calls, n, start.drawn, uuid));
  }

  lemma CallPends(start: Asking, calls: seq<Call>, n: nat, a: Asking, answered: set<string>, uuid: nat -> string)
    requires n < |calls| && CallsPushed(start, calls, n, a, answered, uuid)
    ensures AddCall(a, calls[n], answered, uuid).pending
         == start.pending + GoneBy(calls, n + 1, start.drawn, uuid) * answered
  {
    AddCallIs(start, calls, n, a, answered, uuid);
  }

  lemma CallPushed(start: Asking, calls: seq<Call>, n: nat, a: Asking, answered: set<string>, uuid: nat -> string)
    requires n < |calls| && CallsPushed(start, calls, n, a, answered, uuid)
    ensures CallsPushed(start, calls, n + 1, AddCall(a, calls[n], answered, uuid), answered, uuid)
  {
    AddCallIs(start, calls, n, a, answered, uuid);
    PushesIfNotPending(start, calls, n, a, answered, uuid);
    UsesForNext(start, calls, n, answered, uuid);
    Regroup(start.content, UsesFor(start, calls, n, answered, uuid), [UseFor(calls, n, start.drawn, uuid)]);
    CallPends(start, calls, n, a, answered, uuid);
  }

  lemma {:induction false} CallsPush(
    start: Asking, calls: seq<Call>, n: nat, answered: set<string>, uuid: nat -> string)
    requires n <= |calls|
    ensures CallsPushed(start, calls, n, AddCalls(start, calls[..n], answered, uuid), answered, uuid)
  {
    if n > 0 {
      assert calls[..n][..n - 1] == calls[..n - 1];
      CallsPush(start, calls, n - 1, answered, uuid);
      CallPushed(start, calls, n - 1, AddCalls(start, calls[..n - 1], answered, uuid), answered, uuid);
    } else {
      assert start.content + [] == start.content;
    }
  }

  // ---------------------------------------------------------------- which messages become turns

  predicate Skipped(m: ChatMessage) {
    m.NotAnObject? || m.role == "system" || m.role == "developer"
  }

  /** The id that a tool message answers: its own, trimmed, or the next of the supply. */
  function AnswerId(m: ChatMessage, drawn: nat, uuid: nat -> string): string
    requires m.ChatMessage?
  {
    if Blank(m.toolCallId.GetOr("")) then "toolu_" + uuid(drawn) else Trim(m.toolCallId.value)
  }

  /** What a message has to push its calls behind: its shown content. */
  function Opening(d: Draft, m: ChatMessage, uuid: nat -> string): Asking
    requires m.ChatMessage?
  {
    Asking(ShownContent(m.content, d.drawn, CallIds(m.calls), d.answered, uuid), d.pending,
           d.drawn + ContentIdLess(m.content))
  }

  /** The turn of a message: a tool message is one result, with its id and its own payload; any other holds
      what its content shows, then the uses of its calls, or a blank. */
  function TurnFor(d: Draft, m: ChatMessage, uuid: nat -> string): Turn
    requires !Skipped(m)
  {
    if m.role == "tool" then Turn(User, [ToolResult(Identified(AnswerId(m, d.drawn, uuid)), m.resultContent, false)])
    else
      var start := Opening(d, m, uuid);
      var content := start.content + UsesFor(start, m.calls, |m.calls|, d.answered, uuid);
      Turn(if m.role == "assistant" then Assistant else User, if content == [] then [Text(" ")] else content)
  }

  lemma ReplyTurn(d: Draft, m: ChatMessage, uuid: nat -> string)
    requires !Skipped(m) && m.role == "tool"
    ensures var r, id := AddMessage(d, m, uuid), AnswerId(m, d.drawn, uuid);
      r.turns == d.turns + [TurnFor(d, m, uuid)] && r.pending == d.pending - {id} && r.answered == d.answered + {id}
  {
    NormalizedIs(m.toolCallId);
  }

  /** The calls of a message, pushed behind what it shows. */
  function Asked(d: Draft, m: ChatMessage, uuid: nat -> string): Asking
    requires m.ChatMessage?
  {
    AddCalls(Opening(d, m, uuid), m.calls, d.answered, uuid)
  }

  lemma OpeningIs(d: Draft, m: ChatMessage, uuid: nat -> string)
    requires m.ChatMessage?
    ensures var b := ContentBlocks(d.drawn, m.content, CallIds(m.calls), d.answered, uuid);
      Opening(d, m, uuid) == Asking(b.blocks, d.pending, b.drawn)
  {
    ContentShown(d.drawn, m.content, CallIds(m.calls), d.answered, uuid);
  }

  lemma AskedForm(d: Draft, m: ChatMessage, uuid: nat -> string)
    requires !Skipped(m) && m.role != "tool"
    ensures var a := Asked(d, m, uuid);
      AddMessage(d, m, uuid)
      == Draft(d.turns + [Turn(if m.role == "assistant" then Assistant else User, NonEmpty(a.content))],
               a.pending, d.answered, a.drawn)
  {
    OpeningIs(d, m, uuid);
  }

  lemma AskedPushed(d: Draft, m: ChatMessage, uuid: nat -> string)
    requires m.ChatMessage?
    ensures CallsPushed(Opening(d, m, uuid), m.calls, |m.calls|, Asked(d, m, uuid), d.answered, uuid)
  {
    CallsPush(Opening(d, m, uuid), m.calls, |m.calls|, d.answered, uuid);
    assert m.calls[..|m.calls|] == m.calls;
  }

  lemma AskedTurn(d: Draft, m: ChatMessage, uuid: nat -> string)
    requires !Skipped(m) && m.role != "tool"
    ensures var r := AddMessage(d, m, uuid);
      && r.turns == d.turns + [TurnFor(d, m, uuid)] && r.answered == d.answered
      && r.pending == Asked(d, m, uuid).pending
  {
    AskedForm(d, m, uuid);
    AskedPushed(d, m, uuid);
  }

  /** Messages that become turns, among the first `n`. */
  function Visible(messages: seq<ChatMessage>, n: nat): nat
    requires n <= |messages|
  {
    if n == 0 then 0 else Visible(messages, n - 1) + if Skipped(messages[n - 1]) then 0 else 1
  }

  /** One more message: one more turn, its own, unless it is skipped. */
  lemma DraftedNext(messages: seq<ChatMessage>, n: nat, uuid: nat -> string)
    requires n < |messages|
    ensures var d, r := Drafted(messages, n, uuid), Drafted(messages, n + 1, uuid);
      r.turns == if Skipped(messages[n]) then d.turns else d.turns + [TurnFor(d, messages[n], uuid)]
  {
    var d, m := Drafted(messages, n, uuid), messages[n];
    if !Skipped(m) {
      if m.role == "tool" {
        ReplyTurn(d, m, uuid);
      } else {
        AskedTurn(d, m, uuid);
      }
    }
  }

  lemma LengthNext(messages: seq<ChatMessage>, n: nat, uuid: nat -> string)
    requires n < |messages|
    ensures |Drafted(messages, n + 1, uuid).turns|
         == |Drafted(messages, n, uuid).turns| + if Skipped(messages[n]) then 0 else 1
  {
  }

  lemma {:induction false} DraftedLength(messages: seq<ChatMessage>, n: nat, uuid: nat -> string)
    requires n <= |messages|
    ensures |Drafted(messages, n, uuid).turns| == Visible(messages, n)
  {
    if n > 0 {
      DraftedLength(messages, n - 1, uuid);
      LengthNext(messages, n - 1, uuid);
    }
  }

  lemma TurnsNext(messages: seq<ChatMessage>, n: nat, uuid: nat -> string)
    requires n < |messages|
    ensures Drafted(messages, n, uuid).turns <= Drafted(messages, n + 1, uuid).turns
  {
  }

  /** A turn once made is kept. */
  lemma {:induction false} TurnKept(messages: seq<ChatMessage>, i: nat, n: nat, k: nat, uuid: nat -> string)
    requires i <= n <= |messages| && k < |Drafted(messages, i, uuid).turns|
    ensures k < |Drafted(messages, n, uuid).turns|
    ensures Drafted(messages, n, uuid).turns[k] == Drafted(messages, i, uuid).turns[k]
  {
    if i < n {
      TurnKept(messages, i, n - 1, k, uuid);
      TurnsNext(messages, n - 1, uuid);
    }
  }

  lemma MessageAddsTurn(messages: seq<ChatMessage>, i: nat, uuid: nat -> string)
    requires i < |messages| && !Skipped(messages[i])
    ensures var k, turns := |Drafted(messages, i, uuid).turns|, Drafted(messages, i + 1, uuid).turns;
      k < |turns| && turns[k] == TurnFor(Drafted(messages, i, uuid), messages[i], uuid)
  {
    DraftedNext(messages, i, uuid);
  }

  /** Every message but the system and developer ones becomes one turn, in order, its own. */
  lemma MessageKeepsTurn(messages: seq<ChatMessage>, i: nat, n: nat, uuid: nat -> string)
    requires i < n <= |messages| && !Skipped(messages[i])
    ensures Visible(messages, i) < |Drafted(messages, n, uuid).turns|
    ensures Drafted(messages, n, uuid).turns[Visible(messages, i)]
         == TurnFor(Drafted(messages, i, uuid), messages[i], uuid)
  {
    DraftedLength(messages, i, uuid);
    MessageAddsTurn(messages, i, uuid);
    TurnKept(messages, i + 1, n, Visible(messages, i), uuid);
  }

  /** The whole translation, turn by turn; a history without visible messages is one blank user turn. */
  lemma HistoryTurns(messages: seq<ChatMessage>, uuid: nat -> string)
    ensures var turns, n := Converted(messages, uuid), |messages|;
      if Visible(messages, n) == 0 then turns == [Turn(User, [Text(" ")])]
      else |turns| == Visible(messages, n) && forall i :: 0 <= i < n && !Skipped(messages[i]) ==>
        Visible(messages, i) < |turns|
        && turns[Visible(messages, i)] == TurnFor(Drafted(messages, i, uuid), messages[i], uuid)
  {
    DraftedLength(messages, |messages|, uuid);
    forall i | 0 <= i < |messages| && !Skipped(messages[i])
      ensures Visible(messages, i) < |Drafted(messages, |messages|, uuid).turns|
      ensures Drafted(messages, |messages|, uuid).turns[Visible(messages, i)]
           == TurnFor(Drafted(messages, i, uuid), messages[i], uuid)
    {
      MessageKeepsTurn(messages, i, |messages|, uuid);
    }
  }

  /** Ids of the supply that the first `n` messages take: one for a tool message without an id, and one for
      each use or call without an id in any other message that becomes a turn. */
  function TakenIds(messages: seq<ChatMessage>, n: nat): nat
    requires n <= |messages|
  {
    if n == 0 then 0
    else
      var m := messages[n - 1];
      TakenIds(messages, n - 1)
      + if Skipped(m) then 0
        else if m.role == "tool" then if Blank(m.toolCallId.GetOr("")) then 1 else 0
        else ContentIdLess(m.content) + IdLessCalls(m.calls, |m.calls|)
  }

  lemma MessageTakes(d: Draft, m: ChatMessage, uuid: nat -> string)
    requires !Skipped(m)
    ensures AddMessage(d, m, uuid).drawn
         == d.drawn + if m.role == "tool" then if Blank(m.toolCallId.GetOr("")) then 1 else 0
                      else ContentIdLess(m.content) + IdLessCalls(m.calls, |m.calls|)
  {
    if m.role == "tool" {
      NormalizedIs(m.toolCallId);
    } else {
      AskedForm(d, m, uuid);
      AskedPushed(d, m, uuid);
    }
  }

  lemma DrawnNext(messages: seq<ChatMessage>, n: nat, uuid: nat -> string)
    requires n < |messages| && Drafted(messages, n, uuid).drawn == TakenIds(messages, n)
    ensures Drafted(messages, n + 1, uuid).drawn == TakenIds(messages, n + 1)
  {
    if !Skipped(messages[n]) {
      MessageTakes(Drafted(messages, n, uuid), messages[n], uuid);
    }
  }

  /** So many are taken, one after the other. */
  lemma {:induction false} DrawnExactly(messages: seq<ChatMessage>, n: nat, uuid: nat -> string)
    requires n <= |messages|
    ensures Drafted(messages, n, uuid).drawn == TakenIds(messages, n)
  {
    if n > 0 {
      DrawnExactly(messages, n - 1, uuid);
      DrawnNext(messages, n - 1, uuid);
    }
  }

  /** Message `j` is a tool message that answers `id`. */
  predicate AnswersAt(messages: seq<ChatMessage>, j: nat, uuid: nat -> string, id: string)
    requires j < |messages|
  {
    var m := messages[j];
    !Skipped(m) && m.role == "tool" && AnswerId(m, TakenIds(messages, j), uuid) == id
  }

  /** The ids that tool messages among the first `n` answer. */
  function Replied(messages: seq<ChatMessage>, n: nat, uuid: nat -> string): set<string>
    requires n <= |messages|
  {
    if n == 0 then {}
    else
      var m := messages[n - 1];
      Replied(messages, n - 1, uuid)
      + if !Skipped(m) && m.role == "tool" then {AnswerId(m, TakenIds(messages, n - 1), uuid)} else {}
  }

  lemma RepliedNext(messages: seq<ChatMessage>, n: nat, uuid: nat -> string, id: string)
    requires n < |messages|
    ensures id in Replied(messages, n + 1, uuid)
      <==> id in Replied(messages, n, uuid) || AnswersAt(messages, n, uuid, id)
  {
  }

  lemma {:induction false} RepliedExactly(messages: seq<ChatMessage>, n: nat, uuid: nat -> string, id: string)
    requires n <= |messages|
    ensures id in Replied(messages, n, uuid) <==> exists j :: 0 <= j < n && AnswersAt(messages, j, uuid, id)
  {
    if n > 0 {
      RepliedExactly(messages, n - 1, uuid, id);
      RepliedNext(messages, n - 1, uuid, id);
      if j :| 0 <= j < n && AnswersAt(messages, j, uuid, id) {
        assert j == n - 1 || id in Replied(messages, n - 1, uuid);
      }
    }
  }

  /** The ids that the calls of message `j` go by. */
  function CalledBy(messages: seq<ChatMessage>, j: nat, uuid: nat -> string): set<string>
    requires j < |messages|
  {
    var m := messages[j];
    if Skipped(m) || m.role == "tool" then {}
    else GoneBy(m.calls, |m.calls|, TakenIds(messages, j) + ContentIdLess(m.content), uuid)
  }

  /** A call of message `j` goes by `id`, which some message anywhere brings a result of or an earlier tool
      message has been given. */
  predicate CallsAt(messages: seq<ChatMessage>, j: nat, uuid: nat -> string, id: string)
    requires j < |messages|
  {
    id in CalledBy(messages, j, uuid) && (id in AnsweredIds(messages) || id in Replied(messages, j, uuid))
  }

  lemma CallsPend(start: Asking, calls: seq<Call>, answered: set<string>, uuid: nat -> string)
    ensures AddCalls(start, calls, answered, uuid).pending
         == start.pending + GoneBy(calls, |calls|, start.drawn, uuid) * answered
  {
    CallsPush(start, calls, |calls|, answered, uuid);
    assert calls[..|calls|] == calls;
  }

  lemma ContentDraws(drawn: nat, content: Content, skip: set<string>, answered: set<string>, uuid: nat -> string)
    ensures ContentBlocks(drawn, content, skip, answered, uuid).drawn == drawn + ContentIdLess(content)
  {
    ContentShown(drawn, content, skip, answered, uuid);
  }

  lemma AskedPending(d: Draft, m: ChatMessage, taken: nat, called: set<string>, uuid: nat -> string)
    requires !Skipped(m) && m.role != "tool" && d.drawn == taken
    requires called == GoneBy(m.calls, |m.calls|, taken + ContentIdLess(m.content), uuid)
    ensures AddMessage(d, m, uuid).pending == d.pending + called * d.answered
  {
    var b := ContentBlocks(d.drawn, m.content, CallIds(m.calls), d.answered, uuid);
    ContentDraws(d.drawn, m.content, CallIds(m.calls), d.answered, uuid);
    CallsPend(Asking(b.blocks, d.pending, b.drawn), m.calls, d.answered, uuid);
  }

  lemma AnsweredNext(messages: seq<ChatMessage>, n: nat, uuid: nat -> string)
    requires n < |messages|
    requires Drafted(messages, n, uuid).answered == AnsweredIds(messages) + Replied(messages, n, uuid)
    ensures Drafted(messages, n + 1, uuid).answered == AnsweredIds(messages) + Replied(messages, n + 1, uuid)
  {
    var d, m := Drafted(messages, n, uuid), messages[n];
    if !Skipped(m) && m.role == "tool" {
      DrawnExactly(messages, n, uuid);
      ReplyTurn(d, m, uuid);
    }
  }

  /** Answered are the ids that some message anywhere brings a result of, and those that tool messages so far
      have been given. */
  lemma {:induction false} AnsweredExactlySoFar(messages: seq<ChatMessage>, n: nat, uuid: nat -> string)
    requires n <= |messages|
    ensures Drafted(messages, n, uuid).answered == AnsweredIds(messages) + Replied(messages, n, uuid)
  {
    if n > 0 {
      AnsweredExactlySoFar(messages, n - 1, uuid);
      AnsweredNext(messages, n - 1, uuid);
    }
  }

  lemma PendingAnswered(messages: seq<ChatMessage>, n: nat, uuid: nat -> string, id: string)
    requires n < |messages| && !Skipped(messages[n]) && messages[n].role == "tool"
    ensures id in Drafted(messages, n + 1, uuid).pending
      <==> id in Drafted(messages, n, uuid).pending && !AnswersAt(messages, n, uuid, id)
  {
    DrawnExactly(messages, n, uuid);
    ReplyTurn(Drafted(messages, n, uuid), messages[n], uuid);
  }

  lemma PendingAsked(messages: seq<ChatMessage>, n: nat, uuid: nat -> string)
    requires n < |messages| && !Skipped(messages[n]) && messages[n].role != "tool"
    ensures Drafted(messages, n + 1, uuid).pending
         == Drafted(messages, n, uuid).pending + CalledBy(messages, n, uuid) * Drafted(messages, n, uuid).answered
  {
    DrawnExactly(messages, n, uuid);
    AskedPending(Drafted(messages, n, uuid), messages[n], TakenIds(messages, n), CalledBy(messages, n, uuid), uuid);
  }

  lemma PendingCalled(messages: seq<ChatMessage>, n: nat, uuid: nat -> string, id: string)
    requires n < |messages| && !Skipped(messages[n]) && messages[n].role != "tool"
    ensures id in Drafted(messages, n + 1, uuid).pending
      <==> id in Drafted(messages, n, uuid).pending || CallsAt(messages, n, uuid, id)
  {
    PendingAsked(messages, n, uuid);
    AnsweredExactlySoFar(messages, n, uuid);
  }

  lemma PendingNext(messages: seq<ChatMessage>, n: nat, uuid: nat -> string, id: string)
    requires n < |messages|
    ensures id in Drafted(messages, n + 1, uuid).pending
      <==> || CallsAt(messages, n, uuid, id)
           || (id in Drafted(messages, n, uuid).pending && !AnswersAt(messages, n, uuid, id))
  {
    if !Skipped(messages[n]) {
      if messages[n].role == "tool" {
        PendingAnswered(messages, n, uuid, id);
      } else {
        PendingCalled(messages, n, uuid, id);
      }
    }
  }

  /** Message `i` calls for `id` and none up to `n` answers it. */
  ghost predicate StaysCalled(messages: seq<ChatMessage>, i: nat, n: nat, uuid: nat -> string, id: string)
    requires i < n <= |messages|
  {
    CallsAt(messages, i, uuid, id) && forall j :: i < j < n ==> !AnswersAt(messages, j, uuid, id)
  }

  /** Pending are the ids called for since they were last answered. */
  ghost predicate CalledSince(messages: seq<ChatMessage>, n: nat, uuid: nat -> string, id: string)
    requires n <= |messages|
  {
    exists i :: 0 <= i < n && StaysCalled(messages, i, n, uuid, id)
  }

  lemma CalledSinceNext(messages: seq<ChatMessage>, n: nat, uuid: nat -> string, id: string)
    requires n < |messages|
    ensures CalledSince(messages, n + 1, uuid, id)
      <==> CallsAt(messages, n, uuid, id)
           || (CalledSince(messages, n, uuid, id) && !AnswersAt(messages, n, uuid, id))
  {
    if CalledSince(messages, n, uuid, id) && !AnswersAt(messages, n, uuid, id) {
      var i :| 0 <= i < n && StaysCalled(messages, i, n, uuid, id);
      assert StaysCalled(messages, i, n + 1, uuid, id);
    }
    if CallsAt(messages, n, uuid, id) {
      assert StaysCalled(messages, n, n + 1, uuid, id);
    }
    if CalledSince(messages, n + 1, uuid, id) {
      var i :| 0 <= i < n + 1 && StaysCalled(messages, i, n + 1, uuid, id);
      assert i < n ==> StaysCalled(messages, i, n, uuid, id);
    }
  }

  lemma PendingStep(messages: seq<ChatMessage>, n: nat, uuid: nat -> string, id: string)
    requires n < |messages| && (id in Drafted(messages, n, uuid).pending <==> CalledSince(messages, n, uuid, id))
    ensures id in Drafted(messages, n + 1, uuid).pending <==> CalledSince(messages, n + 1, uuid, id)
  {
    CalledSinceNext(messages, n, uuid, id);
    PendingNext(messages, n, uuid, id);
  }

  lemma {:induction false} PendingExactly(messages: seq<ChatMessage>, n: nat, uuid: nat -> string, id: string)
    requires n <= |messages|
    ensures id in Drafted(messages, n, uuid).pending <==> CalledSince(messages, n, uuid, id)
  {
    if n > 0 {
      PendingExactly(messages, n - 1, uuid, id);
      PendingStep(messages, n - 1, uuid, id);
    }
  }

  const HELLO: ChatMessage := ChatMessage("user", None, TextContent("Hello"), [], [])
  const HI: ChatMessage := ChatMessage("assistant", None, Parts([PlainText("Hi"), PlainText(" ")]), [], [])

  lemma HelloTurn(d: Draft, uuid: nat -> string)
    ensures TurnFor(d, HELLO, uuid) == Turn(User, [Text("Hello")])
  {
    assert !IsSpace("Hello"[0]);
  }

  lemma HiTurn(d: Draft, uuid: nat -> string)
    ensures TurnFor(d, HI, uuid) == Turn(Assistant, [Text("Hi")])
  {
    var parts, skip := HI.content.parts, CallIds(HI.calls);
    assert !IsSpace("Hi"[0]) && Blank(" ");
    assert parts[0] == PlainText("Hi") && parts[1] == PlainText(" ");
    GatheredNext(0, ShownAt(parts, skip, d.answered), BlockAt(parts, d.drawn, uuid));
    GatheredNext(1, ShownAt(parts, skip, d.answered), BlockAt(parts, d.drawn, uuid));
    assert ShownContent(HI.content, d.drawn, skip, d.answered, uuid) == [Text("Hi")];
  }

  /** A string is sent as it is; of a part list the blank text goes. */
  lemma GreetingExample(uuid: nat -> string)
    ensures Converted([HELLO, HI], uuid) == [Turn(User, [Text("Hello")]), Turn(Assistant, [Text("Hi")])]
  {
    var h := [HELLO, HI];
    DraftedNext(h, 0, uuid);
    DraftedNext(h, 1, uuid);
    HelloTurn(Drafted(h, 0, uuid), uuid);
    HiTurn(Drafted(h, 1, uuid), uuid);
  }

  // ---------------------------------------------------------------- what goes to Bedrock

  lemma {:induction false} DraftedHasContent(messages: seq<ChatMessage>, n: nat, uuid: nat -> string)
    requires n <= |messages|
    ensures forall m <- Drafted(messages, n, uuid).turns :: m.content != []
  {
    if n > 0 {
      DraftedHasContent(messages, n - 1, uuid);
    }
  }

  /** Whatever the history, Bedrock gets at least one message and none without content, no two
      neighbouring result-only messages, and as many results of each id as messages asking for it. */
  lemma BedrockListIsWellFormed(messages: seq<ChatMessage>, uuid: nat -> string)
    ensures var out := Sanitized(Converted(messages, uuid));
      out != [] && (forall m <- out :: m.content != []) && NoAdjacentResultOnly(out) && Balanced(out)
  {
    DraftedHasContent(messages, |messages|, uuid);
    var turns := Converted(messages, uuid);
    SanitizedHasContent(turns);
    MergedProperties(turns);
    RepairKeepsApart(Merged(turns));
    RepairAllBalanced(Merged(turns));
  }

  /** Tool uses and tool results with a given id, block by block. */
  function Asks(content: seq<Block>, id: string): nat {
    if content == [] then 0
    else
      var b := content[|content| - 1];
      Asks(content[..|content| - 1], id) + if b.ToolUse? && b.id.raw == id then 1 else 0
  }

  function Replies(content: seq<Block>, id: string): nat {
    if content == [] then 0
    else
      var b := content[|content| - 1];
      Replies(content[..|content| - 1], id) + if b.ToolResult? && b.id.raw == id then 1 else 0
  }

  lemma AsksSnoc(content: seq<Block>, b: Block, id: string)
    ensures Asks(content + [b], id) == Asks(content, id) + if b.ToolUse? && b.id.raw == id then 1 else 0
    ensures Replies(content + [b], id) == Replies(content, id) + if b.ToolResult? && b.id.raw == id then 1 else 0
  {
    assert (content + [b])[..|content + [b]| - 1] == content;
  }

  function TotalAsks(turns: seq<Turn>, id: string): nat {
    if turns == [] then 0 else TotalAsks(turns[..|turns| - 1], id) + Asks(turns[|turns| - 1].content, id)
  }

  function TotalReplies(turns: seq<Turn>, id: string): nat {
    if turns == [] then 0 else TotalReplies(turns[..|turns| - 1], id) + Replies(turns[|turns| - 1].content, id)
  }

  /** Each new pending id stands for one new use, and nothing else was added. */
  ghost predicate AsksFor(a: Asking, r: Asking, id: string) {
    && Asks(r.content, id) == Asks(a.content, id) + (if id in r.pending && id !in a.pending then 1 else 0)
    && Replies(r.content, id) == Replies(a.content, id)
    && (id in a.pending ==> id in r.pending)
  }

  lemma CallAsks(a: Asking, c: Call, answered: set<string>, uuid: nat -> string, id: string)
    ensures AsksFor(a, AddCall(a, c, answered, uuid), id)
  {
    var r := AddCall(a, c, answered, uuid);
    if |r.content| > |a.content| {
      AsksSnoc(a.content, r.content[|a.content|], id);
    }
  }

  lemma {:induction false} CallsAsk(a: Asking, calls: seq<Call>, answered: set<string>, uuid: nat -> string, id: string)
    ensures AsksFor(a, AddCalls(a, calls, answered, uuid), id)
  {
    if calls != [] {
      var init := calls[..|calls| - 1];
      CallsAsk(a, init, answered, uuid, id);
      CallAsks(AddCalls(a, init, answered, uuid), calls[|calls| - 1], answered, uuid, id);
    }
  }

  lemma SingletonAsks(b: Block, id: string)
    ensures Asks([b], id) == if b.ToolUse? && b.id.raw == id then 1 else 0
    ensures Replies([b], id) == if b.ToolResult? && b.id.raw == id then 1 else 0
  {
    AsksSnoc([], b, id);
    assert [] + [b] == [b];
  }

  /** Inline uses of `id` that the translation of `m` keeps. */
  function InlineAsks(d: Draft, m: ChatMessage, uuid: nat -> string, id: string): nat {
    if Skipped(m) || m.role == "tool" then 0
    else Asks(ContentBlocks(d.drawn, m.content, CallIds(m.calls), d.answered, uuid).blocks, id)
  }

  /** Inline uses of `id` kept from the first `n` messages. */
  function TotalInline(messages: seq<ChatMessage>, n: nat, uuid: nat -> string, id: string): nat
    requires n <= |messages|
  {
    if n == 0 then 0
    else TotalInline(messages, n - 1, uuid, id) + InlineAsks(Drafted(messages, n - 1, uuid), messages[n - 1], uuid, id)
  }

  lemma TotalSnoc(turns: seq<Turn>, t: Turn, id: string)
    ensures TotalAsks(turns + [t], id) == TotalAsks(turns, id) + Asks(t.content, id)
    ensures TotalReplies(turns + [t], id) == TotalReplies(turns, id) + Replies(t.content, id)
  {
    assert (turns + [t])[..|turns + [t]| - 1] == turns;
  }

  /** Apart from `inline` uses, an id is asked for at most once more than it is answered, and then it is
      pending. */
  ghost predicate AskedOnce(d: Draft, id: string, inline: nat) {
    TotalAsks(d.turns, id) <= TotalReplies(d.turns, id) + inline + if id in d.pending then 1 else 0
  }

  lemma AddReplyAsks(d: Draft, m: ChatMessage, uuid: nat -> string, id: string, inline: nat)
    requires !Skipped(m) && m.role == "tool" && AskedOnce(d, id, inline)
    ensures AskedOnce(AddMessage(d, m, uuid), id, inline)
  {
    var t := AddMessage(d, m, uuid).turns[|d.turns|];
    TotalSnoc(d.turns, t, id);
    SingletonAsks(t.content[0], id);
  }

  lemma NonEmptyAsks(content: seq<Block>, id: string)
    ensures Asks(NonEmpty(content), id) == Asks(content, id) && Replies(NonEmpty(content), id) == Replies(content, id)
  {
    SingletonAsks(BLANK, id);
  }

  lemma AddTurnAsks(d: Draft, m: ChatMessage, uuid: nat -> string, id: string, inline: nat)
    requires !Skipped(m) && m.role != "tool" && AskedOnce(d, id, inline)
    ensures AskedOnce(AddMessage(d, m, uuid), id, inline + InlineAsks(d, m, uuid, id))
  {
    var b := ContentBlocks(d.drawn, m.content, CallIds(m.calls), d.answered, uuid);
    var start := Asking(b.blocks, d.pending, b.drawn);
    var a := AddCalls(start, m.calls, d.answered, uuid);
    CallsAsk(start, m.calls, d.answered, uuid, id);
    NonEmptyAsks(a.content, id);
    AskedMore(d, Turn(if m.role == "assistant" then Assistant else User, NonEmpty(a.content)), a, start, id, inline);
  }

  lemma AskedMore(d: Draft, t: Turn, a: Asking, start: Asking, id: string, inline: nat)
    requires AskedOnce(d, id, inline) && start.pending == d.pending && AsksFor(start, a, id)
    requires Asks(t.content, id) == Asks(a.content, id) && Replies(t.content, id) == Replies(a.content, id)
    ensures AskedOnce(Draft(d.turns + [t], a.pending, d.answered, a.drawn), id, inline + Asks(start.content, id))
  {
    TotalSnoc(d.turns, t, id);
  }

  /** No tool call asks again for an id that waits for its answer: after any prefix of any history an id has
      been asked for at most once more than it has been answered, not counting inline uses. */
  lemma {:induction false} NoDoubleAsk(messages: seq<ChatMessage>, n: nat, uuid: nat -> string, id: string)
    requires n <= |messages|
    ensures AskedOnce(Drafted(messages, n, uuid), id, TotalInline(messages, n, uuid, id))
  {
    if n > 0 {
      NoDoubleAsk(messages, n - 1, uuid, id);
      var d, m, inline := Drafted(messages, n - 1, uuid), messages[n - 1], TotalInline(messages, n - 1, uuid, id);
      if !Skipped(m) && m.role == "tool" {
        AddReplyAsks(d, m, uuid, id, inline);
      } else if !Skipped(m) {
        AddTurnAsks(d, m, uuid, id, inline);
      }
    }
  }

  const INLINE: Part := UsePart("a", "f", "")
  const TWICE: seq<ChatMessage> := [
    ChatMessage("assistant", None, Parts([INLINE, INLINE]), [], []),
    ChatMessage("tool", Some("a"), NoContent, [], [])]

  lemma InlineShown(answered: set<string>, uuid: nat -> string)
    requires "a" in answered
    ensures ContentBlocks(0, TWICE[0].content, {}, answered, uuid) == Blocks([ASK, ASK], 0)
  {
    var b0 := Blocks([], 0);
    assert Trim("a") == "a" && Identified("a") == ToolId("a", Some("a"));
    assert [INLINE, INLINE][..1] == [INLINE] && [INLINE][..0] == [];
    assert [] + [ASK] == [ASK] && [ASK] + [ASK] == [ASK, ASK];
    assert AddPart(b0, INLINE, {}, answered, uuid) == Blocks([ASK], 0);
    assert AddParts(b0, [INLINE], {}, answered, uuid) == Blocks([ASK], 0);
  }

  lemma InlineDrafted(uuid: nat -> string)
    ensures "a" in AnsweredIds(TWICE)
    ensures Drafted(TWICE, 1, uuid) == Draft([Turn(Assistant, [ASK, ASK])], {}, AnsweredIds(TWICE), 0)
  {
    var m, d := TWICE[0], Drafted(TWICE, 0, uuid);
    assert Trim("a") == "a";
    AnsweredIdsAre(TWICE, "a");
    assert Brings(TWICE[1], "a") && CallIds(m.calls) == {};
    InlineShown(d.answered, uuid);
    assert [] + [Turn(Assistant, [ASK, ASK])] == [Turn(Assistant, [ASK, ASK])];
    assert AddMessage(d, m, uuid).turns == [Turn(Assistant, [ASK, ASK])];
  }

  lemma TwoAsks()
    ensures Asks([ASK, ASK], "a") == 2 && Replies([ASK, ASK], "a") == 0
  {
    AsksSnoc([ASK], ASK, "a");
    SingletonAsks(ASK, "a");
    assert [ASK] + [ASK] == [ASK, ASK];
  }

  /** Inline uses do repeat: one message that asks twice for an id before it is answered. */
  lemma InlineExample(uuid: nat -> string)
    ensures TotalInline(TWICE, 1, uuid, "a") == 2
    ensures var d := Drafted(TWICE, 1, uuid);
      TotalAsks(d.turns, "a") == 2 && TotalReplies(d.turns, "a") == 0 && d.pending == {}
  {
    InlineDrafted(uuid);
    InlineShown(AnsweredIds(TWICE), uuid);
    TwoAsks();
    assert CallIds(TWICE[0].calls) == {};
    TotalSnoc([], Turn(Assistant, [ASK, ASK]), "a");
    assert [] + [Turn(Assistant, [ASK, ASK])] == [Turn(Assistant, [ASK, ASK])];
  }

  // ---------------------------------------------------------------- which histories come out answered

  lemma ConvertedHasContent(messages: seq<ChatMessage>, uuid: nat -> string)
    ensures forall m <- Converted(messages, uuid) :: m.content != []
  {
    DraftedHasContent(messages, |messages|, uuid);
  }

  /** A history reaches Bedrock with every use answered next door, and every result next to its use, exactly
      when its translation has no early surplus; and translating is then all the repair there is to do. */
  lemma HistoryExactly(messages: seq<ChatMessage>, uuid: nat -> string)
    ensures var turns := Converted(messages, uuid);
      && (Answered(Sanitized(turns)) <==> NoEarlySurplus(Merged(turns)))
      && (Adjacent(Sanitized(turns)) <==> NoEarlySurplus(Merged(turns)))
      && (Sanitized(Sanitized(turns)) == Sanitized(turns) <==> NoEarlySurplus(Merged(turns)))
  {
    ConvertedHasContent(messages, uuid);
    SanitizedExactly(Converted(messages, uuid));
  }

  /** So it does whenever the translated user turns hold at most one result of every id. */
  lemma OneResultAnswered(messages: seq<ChatMessage>, uuid: nat -> string)
    requires var turns := Converted(messages, uuid); forall id :: Results(turns, |turns|, id) <= 1
    ensures var out := Sanitized(Converted(messages, uuid)); Answered(out) && Adjacent(out)
  {
    var turns := Converted(messages, uuid);
    OneResultOneHome(turns);
    OneHomeSuffices(Merged(turns));
    HistoryExactly(messages, uuid);
  }

  function ResultParts(parts: seq<Part>, id: string): nat {
    if parts == [] then 0
    else
      var p := parts[|parts| - 1];
      ResultParts(parts[..|parts| - 1], id)
      + if p.ResultPart? && NormalizeId(p.toolUseId) == Some(id) then 1 else 0
  }

  /** Results of `id` that a message gives to a user turn: as a tool message for it, or as result parts
      outside assistant messages. */
  function Given(m: ChatMessage, id: string): nat {
    if Skipped(m) || m.role == "assistant" then 0
    else if m.role == "tool" then if Normalized(m.toolCallId) == Some(id) then 1 else 0
    else if m.content.Parts? then ResultParts(m.content.parts, id)
    else 0
  }

  function TotalGiven(messages: seq<ChatMessage>, n: nat, id: string): nat
    requires n <= |messages|
  {
    if n == 0 then 0 else TotalGiven(messages, n - 1, id) + Given(messages[n - 1], id)
  }

  /** A tool message without an id is given one from the supply. */
  function Drew(d: Draft, m: ChatMessage, uuid: nat -> string, id: string): nat {
    if !Skipped(m) && m.role == "tool" && Normalized(m.toolCallId).None?
       && NormalizeId(GeneratedId(uuid, d.drawn)) == Some(id) then 1 else 0
  }

  function TotalDrew(messages: seq<ChatMessage>, n: nat, uuid: nat -> string, id: string): nat
    requires n <= |messages|
  {
    if n == 0 then 0
    else TotalDrew(messages, n - 1, uuid, id) + Drew(Drafted(messages, n - 1, uuid), messages[n - 1], uuid, id)
  }

  lemma PartCount(b: Blocks, p: Part, skip: set<string>, answered: set<string>, uuid: nat -> string, id: string)
    ensures Count(AddPart(b, p, skip, answered, uuid).blocks, id)
         == Count(b.blocks, id) + if p.ResultPart? && NormalizeId(p.toolUseId) == Some(id) then 1 else 0
  {
    var r := AddPart(b, p, skip, answered, uuid).blocks;
    if r != b.blocks {
      assert r == b.blocks + [r[|b.blocks|]];
      CountSnoc(b.blocks, r[|b.blocks|], id);
    }
  }

  lemma {:induction false} PartsCount(
    b: Blocks, parts: seq<Part>, skip: set<string>, answered: set<string>, uuid: nat -> string, id: string)
    ensures Count(AddParts(b, parts, skip, answered, uuid).blocks, id) == Count(b.blocks, id) + ResultParts(parts, id)
  {
    if parts != [] {
      var init := parts[..|parts| - 1];
      PartsCount(b, init, skip, answered, uuid, id);
      PartCount(AddParts(b, init, skip, answered, uuid), parts[|parts| - 1], skip, answered, uuid, id);
    }
  }

  lemma {:induction false} CallsCount(
    a: Asking, calls: seq<Call>, answered: set<string>, uuid: nat -> string, id: string)
    ensures Count(AddCalls(a, calls, answered, uuid).content, id) == Count(a.content, id)
  {
    if calls != [] {
      var init := calls[..|calls| - 1];
      CallsCount(a, init, answered, uuid, id);
      var b, r := AddCalls(a, init, answered, uuid), AddCalls(a, calls, answered, uuid);
      if r.content != b.content {
        CountSnoc(b.content, r.content[|b.content|], id);
        assert r.content == b.content + [r.content[|b.content|]];
      }
    }
  }

  lemma SingleCount(b: Block, id: string)
    ensures Count([b], id) == if ResultId(b) == Some(id) then 1 else 0
  {
    CountSnoc([], b, id);
    assert [] + [b] == [b];
  }

  lemma ContentCount(
    drawn: nat, content: Content, skip: set<string>, answered: set<string>, uuid: nat -> string, id: string)
    ensures Count(ContentBlocks(drawn, content, skip, answered, uuid).blocks, id)
         == if content.Parts? then ResultParts(content.parts, id) else 0
  {
    match content
    case TextContent(text) => SingleCount(Text(text), id);
    case Parts(parts) => PartsCount(Blocks([], drawn), parts, skip, answered, uuid, id);
    case NoContent =>
  }

  /** Trimming a trimmed id changes nothing. */
  lemma {:induction false} TrimTwice(s: string)
    ensures Trim(Trim(s)) == Trim(s)
  {
    if s != "" && IsSpace(s[0]) {
      TrimTwice(s[1..]);
    } else if s != "" && IsSpace(s[|s| - 1]) {
      TrimTwice(s[..|s| - 1]);
    }
  }

  /** What a message adds to the results of `id` in user turns. */
  lemma MessageResults(d: Draft, m: ChatMessage, uuid: nat -> string, id: string)
    ensures var r := AddMessage(d, m, uuid);
      Results(r.turns, |r.turns|, id) == Results(d.turns, |d.turns|, id) + Given(m, id) + Drew(d, m, uuid, id)
  {
    if !Skipped(m) {
      var r := AddMessage(d, m, uuid);
      var t := r.turns[|d.turns|];
      assert r.turns == d.turns + [t];
      ResultsSnoc(d.turns, t, id);
      TurnGiven(d, m, uuid, t, id);
    }
  }

  lemma TurnGiven(d: Draft, m: ChatMessage, uuid: nat -> string, t: Turn, id: string)
    requires !Skipped(m) && AddMessage(d, m, uuid).turns == d.turns + [t]
    ensures TurnResults(t, id) == Given(m, id) + Drew(d, m, uuid, id)
  {
    assert t == AddMessage(d, m, uuid).turns[|d.turns|];
    if m.role == "tool" {
      SingleCount(t.content[0], id);
      if m.toolCallId.Some? {
        TrimTwice(m.toolCallId.value);
      }
    } else {
      var b := ContentBlocks(d.drawn, m.content, CallIds(m.calls), d.answered, uuid);
      var a := AddCalls(Asking(b.blocks, d.pending, b.drawn), m.calls, d.answered, uuid);
      ContentCount(d.drawn, m.content, CallIds(m.calls), d.answered, uuid, id);
      CallsCount(Asking(b.blocks, d.pending, b.drawn), m.calls, d.answered, uuid, id);
      CountNonEmpty(a.content, id);
    }
  }

  lemma {:induction false} DraftedResults(messages: seq<ChatMessage>, n: nat, uuid: nat -> string, id: string)
    requires n <= |messages|
    ensures var turns := Drafted(messages, n, uuid).turns;
      Results(turns, |turns|, id) == TotalGiven(messages, n, id) + TotalDrew(messages, n, uuid, id)
  {
    if n > 0 {
      DraftedResults(messages, n - 1, uuid, id);
      MessageResults(Drafted(messages, n - 1, uuid), messages[n - 1], uuid, id);
    }
  }

  /** Ids from the supply are new: no two alike, and none that the history gives. */
  ghost predicate FreshSupply(messages: seq<ChatMessage>, uuid: nat -> string) {
    && (forall j: nat, k: nat :: j < k ==> NormalizeId(GeneratedId(uuid, j)) != NormalizeId(GeneratedId(uuid, k)))
    && (forall k: nat, id :: NormalizeId(GeneratedId(uuid, k)) == Some(id) ==>
          TotalGiven(messages, |messages|, id) == 0)
  }

  lemma {:induction false} PartsDraw(
    b: Blocks, parts: seq<Part>, skip: set<string>, answered: set<string>, uuid: nat -> string)
    ensures AddParts(b, parts, skip, answered, uuid).drawn >= b.drawn
  {
    if parts != [] {
      PartsDraw(b, parts[..|parts| - 1], skip, answered, uuid);
    }
  }

  lemma {:induction false} CallsDraw(a: Asking, calls: seq<Call>, answered: set<string>, uuid: nat -> string)
    ensures AddCalls(a, calls, answered, uuid).drawn >= a.drawn
  {
    if calls != [] {
      CallsDraw(a, calls[..|calls| - 1], answered, uuid);
    }
  }

  lemma DrawnGrows(d: Draft, m: ChatMessage, uuid: nat -> string)
    ensures AddMessage(d, m, uuid).drawn >= d.drawn
    ensures !Skipped(m) && m.role == "tool" && Normalized(m.toolCallId).None?
      ==> AddMessage(d, m, uuid).drawn == d.drawn + 1
  {
    if !Skipped(m) && m.role != "tool" {
      var b := ContentBlocks(d.drawn, m.content, CallIds(m.calls), d.answered, uuid);
      if m.content.Parts? {
        PartsDraw(Blocks([], d.drawn), m.content.parts, CallIds(m.calls), d.answered, uuid);
      }
      CallsDraw(Asking(b.blocks, d.pending, b.drawn), m.calls, d.answered, uuid);
    }
  }

  /** Id number `k` of the supply, in normal form, is `id`. */
  predicate Supplies(uuid: nat -> string, k: nat, id: string) {
    NormalizeId(GeneratedId(uuid, k)) == Some(id)
  }

  lemma {:induction false} DrewOnce(messages: seq<ChatMessage>, n: nat, uuid: nat -> string, id: string)
    requires n <= |messages| && FreshSupply(messages, uuid)
    ensures TotalDrew(messages, n, uuid, id) <= 1
    ensures TotalDrew(messages, n, uuid, id) == 1 ==>
      exists k: nat :: k < Drafted(messages, n, uuid).drawn && Supplies(uuid, k, id)
  {
    if n > 0 {
      DrewOnce(messages, n - 1, uuid, id);
      var d := Drafted(messages, n - 1, uuid);
      DrawnGrows(d, messages[n - 1], uuid);
      if TotalDrew(messages, n - 1, uuid, id) == 1 {
        var k: nat :| k < d.drawn && Supplies(uuid, k, id);
        assert NormalizeId(GeneratedId(uuid, k)) != NormalizeId(GeneratedId(uuid, d.drawn));
      } else if Drew(d, messages[n - 1], uuid, id) == 1 {
        assert Supplies(uuid, d.drawn, id);
      }
    }
  }

  /** In particular a history does when it has, for every id, at most one tool message or result part outside
      assistant messages. */
  lemma OneReplySuffices(messages: seq<ChatMessage>, uuid: nat -> string)
    requires FreshSupply(messages, uuid) && forall id :: TotalGiven(messages, |messages|, id) <= 1
    ensures var out := Sanitized(Converted(messages, uuid)); Answered(out) && Adjacent(out)
  {
    var turns, n := Converted(messages, uuid), |messages|;
    forall id ensures Results(turns, |turns|, id) <= 1 {
      DraftedResults(messages, n, uuid, id);
      DrewOnce(messages, n, uuid, id);
      if TotalDrew(messages, n, uuid, id) == 1 {
        var k: nat :| k < Drafted(messages, n, uuid).drawn && Supplies(uuid, k, id);
      }
      if turns != Drafted(messages, n, uuid).turns {
        BlankHasNone(id);
      }
    }
    OneResultAnswered(messages, uuid);
  }

  lemma BlankHasNone(id: string)
    ensures Results([Turn(User, [BLANK])], 1, id) == 0
  {
    SingleCount(BLANK, id);
  }

  const CALL: ChatMessage := ChatMessage("assistant", None, NoContent, [Call(Some("a"), "f", "")], [])
  const ANSWER: ChatMessage := ChatMessage("tool", Some("a"), NoContent, [], [])

  /** A history that does not: one id called twice, and answered twice the first time. */
  lemma DoubledAnswerExample(uuid: nat -> string)
    ensures var turns := Converted([CALL, ANSWER, ANSWER, CALL, ANSWER], uuid); !Answered(Sanitized(turns))
  {
    var h := [CALL, ANSWER, ANSWER, CALL, ANSWER];
    DoubledAnswerConverted(uuid);
    DoubledAnswerMerged();
    EarlySurplusExample();
    RepeatedIsMerged();
    assert Sanitized(Converted(h, uuid)) == Sanitized(REPEATED);
  }

  lemma DoubledAnswerConverted(uuid: nat -> string)
    ensures Converted([CALL, ANSWER, ANSWER, CALL, ANSWER], uuid)
         == [ASKING, ANSWERING, ANSWERING, ASKING, ANSWERING]
  {
    var h := [CALL, ANSWER, ANSWER, CALL, ANSWER];
    assert Trim("a") == "a";
    AnsweredIdsAre(h, "a");
    assert Brings(h[1], "a");
    var answered := AnsweredIds(h);
    assert answered + {"a"} == answered;
    var turns := [ASKING, ANSWERING, ANSWERING, ASKING, ANSWERING];
    CallDrafted(Draft([], {}, answered, 0), uuid);
    AnswerDrafted(Draft(turns[..1], {"a"}, answered, 0), uuid);
    AnswerDrafted(Draft(turns[..2], {}, answered, 0), uuid);
    CallDrafted(Draft(turns[..3], {}, answered, 0), uuid);
    AnswerDrafted(Draft(turns[..4], {"a"}, answered, 0), uuid);
    assert Drafted(h, 1, uuid) == Draft(turns[..1], {"a"}, answered, 0);
    assert Drafted(h, 2, uuid) == Draft(turns[..2], {}, answered, 0);
    assert Drafted(h, 3, uuid) == Draft(turns[..3], {}, answered, 0);
    assert Drafted(h, 4, uuid) == Draft(turns[..4], {"a"}, answered, 0);
  }

  const ASKING: Turn := Turn(Assistant, [ASK])
  const ANSWERING: Turn := Turn(User, [REPLY])

  lemma CallDrafted(d: Draft, uuid: nat -> string)
    requires "a" !in d.pending && "a" in d.answered
    ensures AddMessage(d, CALL, uuid) == Draft(d.turns + [ASKING], d.pending + {"a"}, d.answered, d.drawn)
  {
    assert Trim("a") == "a";
    assert CALL.calls[..0] == [] && [] + [ASK] == [ASK];
    assert AddCalls(Asking([], d.pending, d.drawn), CALL.calls, d.answered, uuid)
        == AddCall(Asking([], d.pending, d.drawn), CALL.calls[0], d.answered, uuid);
  }

  lemma AnswerDrafted(d: Draft, uuid: nat -> string)
    ensures AddMessage(d, ANSWER, uuid) == Draft(d.turns + [ANSWERING], d.pending - {"a"}, d.answered + {"a"}, d.drawn)
  {
    assert Trim("a") == "a";
  }

  lemma MergedSnoc(ms: seq<Turn>, m: Turn)
    ensures Merged(ms + [m]) == MergeOne(Merged(ms), m)
  {
    assert (ms + [m])[..|ms + [m]| - 1] == ms;
  }

  lemma MergedStart()
    ensures Merged([ASKING, ANSWERING]) == [ASKING, ANSWERING]
  {
    MergedSnoc([], ASKING);
    MergedSnoc([ASKING], ANSWERING);
    assert [] + [ASKING] == [ASKING] && [ASKING] + [ANSWERING] == [ASKING, ANSWERING];
  }

  lemma MergedTwice()
    ensures Merged([ASKING, ANSWERING, ANSWERING]) == [ASKING, Turn(User, [REPLY, REPLY])]
  {
    MergedStart();
    MergedSnoc([ASKING, ANSWERING], ANSWERING);
    assert [ASKING, ANSWERING] + [ANSWERING] == [ASKING, ANSWERING, ANSWERING];
    assert ResultOnly(ANSWERING) && [REPLY] + [REPLY] == [REPLY, REPLY];
    assert [ASKING, ANSWERING][..1] == [ASKING];
  }

  lemma DoubledAnswerMerged()
    ensures Merged([ASKING, ANSWERING, ANSWERING, ASKING, ANSWERING]) == REPEATED
  {
    MergedTwice();
    MergedSnoc([ASKING, ANSWERING, ANSWERING], ASKING);
    MergedSnoc([ASKING, ANSWERING, ANSWERING] + [ASKING], ANSWERING);
    assert [ASKING, ANSWERING, ANSWERING] + [ASKING] + [ANSWERING] == [ASKING, ANSWERING, ANSWERING, ASKING, ANSWERING];
    assert !ResultOnly(ASKING);
  }

  // ---------------------------------------------------------------- the translation itself

  method CollectAnsweredToolUseIds(messages: seq<ChatMessage>) returns (answered: set<string>)
    ensures answered == AnsweredIds(messages)
    ensures forall id :: id in answered <==> AnsweredIn(messages, id)
  {
    answered := {};
    for n := 0 to |messages|
      invariant answered == AnsweredIds(messages[..n])
    {
      var m := messages[n];
      assert messages[..n + 1][..n] == messages[..n];
      if m.ChatMessage? {
        if m.role == "tool" && Normalized(m.toolCallId).Some? {
          answered := answered + {Normalized(m.toolCallId).value};
        }
        answered := answered + PartResultIds(m.content);
      }
    }
    assert messages[..|messages|] == messages;
    forall id ensures id in answered <==> AnsweredIn(messages, id) {
      AnsweredIdsAre(messages, id);
    }
  }

  /** One part: is it shown, and as what. */
  method PartBlock(p: Part, drawn: nat, skip: set<string>, answered: set<string>, uuid: nat -> string)
    returns (block: Option<Block>, next: nat)
    ensures forall blocks :: AddPart(Blocks(blocks, drawn), p, skip, answered, uuid)
                          == Blocks(if block.Some? then blocks + [block.value] else blocks, next)
  {
    block, next := None, drawn;
    match p
    case PlainText(text) =>
      if Trim(text) != "" {
        block := Some(Text(text));
      }
    case ImagePart(image) =>
      if image.Some? {
        block := Some(Image(image.value));
      }
    case UsePart(id, name, input) =>
      var rawId := NormalizeId(id);
      if rawId.Some? && rawId.value in skip {
        return;
      }
      if rawId.Some? && rawId.value !in answered {
        return;
      }
      if rawId.Some? {
        block := Some(ToolUse(Identified(rawId.value), name, input));
      } else {
        block, next := Some(ToolUse(Identified(GeneratedId(uuid, drawn)), name, input)), drawn + 1;
      }
    case ResultPart(id, content, isError) =>
      block := Some(ToolResult(Identified(id), [content], isError));
    case OtherPart =>
  }

  method TextBlocksFromContent(
    drawn: nat, content: Content, skip: set<string>, answered: set<string>, uuid: nat -> string)
    returns (r: Blocks)
    ensures r == ContentBlocks(drawn, content, skip, answered, uuid)
    ensures r == Blocks(ShownContent(content, drawn, skip, answered, uuid), drawn + ContentIdLess(content))
  {
    r := Blocks([], drawn);
    ContentShown(drawn, content, skip, answered, uuid);
    match content
    case TextContent(text) =>
      if Trim(text) != "" {
        r := r.(blocks := [Text(text)]);
      }
    case Parts(parts) =>
      for n := 0 to |parts|
        invariant r == AddParts(Blocks([], drawn), parts[..n], skip, answered, uuid)
      {
        AddPartsNext(Blocks([], drawn), parts, n, skip, answered, uuid);
        var block, next := PartBlock(parts[n], r.drawn, skip, answered, uuid);
        r := Blocks(if block.Some? then r.blocks + [block.value] else r.blocks, next);
      }
      assert parts[..|parts|] == parts;
    case NoContent =>
  }

  method PushToolCalls(start: Asking, calls: seq<Call>, answered: set<string>, uuid: nat -> string) returns (a: Asking)
    ensures a == AddCalls(start, calls, answered, uuid)
    ensures CallsPushed(start, calls, |calls|, a, answered, uuid)
    ensures forall id :: AsksFor(start, a, id)
  {
    a := start;
    for n := 0 to |calls|
      invariant a == AddCalls(start, calls[..n], answered, uuid)
    {
      assert calls[..n + 1][..n] == calls[..n];
      var normal := Normalized(calls[n].id);
      var id;
      if normal.Some? {
        id := normal.value;
      } else {
        id := GeneratedId(uuid, a.drawn);
        a := a.(drawn := a.drawn + 1);
      }
      if id !in a.pending && id in answered {
        var name := if calls[n].name != "" then calls[n].name else "unknown_tool";
        a := a.(content := a.content + [ToolUse(Identified(id), name, calls[n].input)], pending := a.pending + {id});
      }
    }
    assert calls[..|calls|] == calls;
    CallsPush(start, calls, |calls|, answered, uuid);
    forall id ensures AsksFor(start, a, id) {
      CallsAsk(start, calls, answered, uuid, id);
    }
  }

  /** One message of the history, with what is pending, answered and drawn. */
  method ConvertMessage(m: ChatMessage, d: Draft, uuid: nat -> string) returns (turn: Turn, r: Draft)
    requires !Skipped(m)
    ensures r == AddMessage(d, m, uuid) && r.turns == d.turns + [turn]
  {
    if m.role == "tool" {
      var normal := Normalized(m.toolCallId);
      var id := if normal.Some? then normal.value else GeneratedId(uuid, d.drawn);
      var drawn := if normal.Some? then d.drawn else d.drawn + 1;
      turn := Turn(User, [ToolResult(Identified(id), m.resultContent, false)]);
      r := Draft(d.turns + [turn], d.pending - {id}, d.answered + {id}, drawn);
    } else {
      var blocks := TextBlocksFromContent(d.drawn, m.content, CallIds(m.calls), d.answered, uuid);
      var a := PushToolCalls(Asking(blocks.blocks, d.pending, blocks.drawn), m.calls, d.answered, uuid);
      var content := a.content;
      if content == [] {
        content := [BLANK];
      }
      turn := Turn(if m.role == "assistant" then Assistant else User, content);
      r := Draft(d.turns + [turn], a.pending, d.answered, a.drawn);
    }
  }

  method NewMessage(turn: Turn) returns (message: Message)
    ensures fresh(message) && message.Value() == turn
  {
    message := new Message(turn.role, turn.content);
  }

  /** The whole translation; the result is repaired in place. */
  method MessagesFromOpenAI(messages: seq<ChatMessage>, uuid: nat -> string) returns (out: seq<Message>)
    ensures Values(out) == Sanitized(Converted(messages, uuid))
    ensures fresh(out)
  {
    var converted: seq<Message> := [];
    var answered := CollectAnsweredToolUseIds(messages);
    var d := Draft([], {}, answered, 0);
    for n := 0 to |messages|
      invariant d == Drafted(messages, n, uuid)
      invariant |converted| == |d.turns| && forall k :: 0 <= k < |converted| ==> converted[k].Value() == d.turns[k]
      invariant Apart(converted) && fresh(converted)
    {
      if !Skipped(messages[n]) {
        var turn;
        turn, d := ConvertMessage(messages[n], d, uuid);
        var message := NewMessage(turn);
        converted := converted + [message];
      }
    }
    if converted == [] {
      var message := NewMessage(Turn(User, [BLANK]));
      converted := [message];
    }
    assert Values(converted) == Converted(messages, uuid);
    out := SanitizeBedrockToolPairs(converted);
    assert forall k :: 0 <= k < |out| ==> out[k] in converted;
  }
}
