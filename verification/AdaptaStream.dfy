/** The Adapta executor's reading of an event stream: line reassembly, translation to OpenAI chunks, and
    the buffered collection of the same events. */
module AdaptaStream {
  import opened JsText
  import opened Sequences

  /** A text delta: a string, or something else with the string it would be coerced to. */
  datatype Delta = Str(text: string) | NotAString(coerced: string) {
    function Coerced(): string { if Str? then text else coerced }
  }

  /** What the JSON parser makes of a payload; `quick` marks the loading placeholder's id. */
  datatype Parsed =
    | Invalid
    | Null
    | Event(kind: string, quick: bool, delta: Delta, errorText: string)

  datatype Chunk = Role | Content(text: string) | Stop | Done

  const PREFIX: string := "data: "

  // ---------------------------------------------------------------- lines

  /** The lines of `text` that a newline ends: what splitting gives, without its last piece. */
  function CompleteLines(text: string): seq<string> {
    if text == "" then []
    else
      var init, c := text[..|text| - 1], text[|text| - 1];
      if c == '\n' then CompleteLines(init) + [Rest(init)] else CompleteLines(init)
  }

  /** What follows the last newline: the last piece. */
  function Rest(text: string): string {
    if text == "" then ""
    else
      var init, c := text[..|text| - 1], text[|text| - 1];
      if c == '\n' then "" else Rest(init) + [c]
  }

  lemma LinesSnoc(text: string, c: char)
    ensures CompleteLines(text + [c]) == if c == '\n' then CompleteLines(text) + [Rest(text)] else CompleteLines(text)
    ensures Rest(text + [c]) == if c == '\n' then "" else Rest(text) + [c]
  {
    assert (text + [c])[..|text + [c]| - 1] == text;
  }

  ghost predicate NoNewline(s: string) {
    forall k :: 0 <= k < |s| ==> s[k] != '\n'
  }

  lemma {:induction false} NoNewlineLines(s: string)
    requires NoNewline(s)
    ensures CompleteLines(s) == [] && Rest(s) == s
  {
    if s != "" {
      NoNewlineLines(s[..|s| - 1]);
    }
  }

  lemma {:induction false} RestHasNoNewline(text: string)
    ensures NoNewline(Rest(text))
  {
    if text != "" {
      RestHasNoNewline(text[..|text| - 1]);
    }
  }

  /** The text that some ended lines came from. */
  function Ended(lines: seq<string>): string {
    if lines == [] then "" else Ended(lines[..|lines| - 1]) + (lines[|lines| - 1] + "\n")
  }

  /** The lines and the rest are the text, cut at every newline. */
  lemma {:induction false} LinesAreText(text: string)
    ensures Ended(CompleteLines(text)) + Rest(text) == text
    ensures forall i :: 0 <= i < |CompleteLines(text)| ==> NoNewline(CompleteLines(text)[i])
  {
    if text != "" {
      var init, c := text[..|text| - 1], text[|text| - 1];
      var lines := CompleteLines(init);
      LinesAreText(init);
      RestHasNoNewline(init);
      assert text == init + [c];
      if c == '\n' {
        assert (lines + [Rest(init)])[..|lines|] == lines;
        assert Ended(lines + [Rest(init)]) == Ended(lines) + (Rest(init) + "\n");
        Regroup(Ended(lines), Rest(init), "\n");
        assert Ended(CompleteLines(text)) + "" == Ended(CompleteLines(text));
      } else {
        Regroup(Ended(lines), Rest(init), [c]);
      }
    }
  }

  /** Splitting what is left together with the next read gives the lines of the whole. */
  lemma {:induction false} LinesPlus(a: string, b: string)
    ensures CompleteLines(a + b) == CompleteLines(a) + CompleteLines(Rest(a) + b)
    ensures Rest(a + b) == Rest(Rest(a) + b)
  {
    if b == "" {
      assert a + b == a && Rest(a) + b == Rest(a);
      RestHasNoNewline(a);
      NoNewlineLines(Rest(a));
    } else {
      var init, c := b[..|b| - 1], b[|b| - 1];
      LinesPlus(a, init);
      assert a + b == (a + init) + [c] && Rest(a) + b == (Rest(a) + init) + [c];
      LinesSnoc(a + init, c);
      LinesSnoc(Rest(a) + init, c);
      Regroup(CompleteLines(a), CompleteLines(Rest(a) + init), [Rest(Rest(a) + init)]);
    }
  }

  // ---------------------------------------------------------------- events

  /** The translation so far: has the role been sent, what was sent, has an event ended the stream. */
  datatype State = State(roleEmitted: bool, chunks: seq<Chunk>, stopped: bool)

  const START: State := State(false, [], false)

  function EnsureRole(s: State): State {
    if s.roleEmitted then s else State(true, s.chunks + [Role], s.stopped)
  }

  function Emit(s: State, c: Chunk): State {
    s.(chunks := s.chunks + [c])
  }

  /** The error shown as content. */
  function Notice(errorText: string): string {
    "\n\n[Erro: " + errorText + "]"
  }

  /** The event of a line, as the streaming path reads it: blanks around the payload are dropped. */
  function StreamEvent(parse: string -> Parsed, line: string): Parsed {
    if !StartsWith(line, PREFIX) then Invalid
    else
      var payload := Trim(line[|PREFIX|..]);
      if payload == "" then Invalid else parse(payload)
  }

  /** A JSON `null` makes the event handler throw, which ends the stream like a `done`. */
  function HandleEvent(s: State, ev: Parsed): State {
    match ev
    case Invalid => s
    case Null => s.(stopped := true)
    case Event(kind, quick, delta, errorText) =>
      if kind == "text-delta" then
        if !quick && delta.Str? && delta.text != "" then Emit(EnsureRole(s), Content(delta.text)) else s
      else if kind == "error" then Emit(EnsureRole(s), Content(Notice(errorText))).(stopped := true)
      else if kind == "done" || kind == "end" then s.(stopped := true)
      else s
  }

  function Handle(parse: string -> Parsed, s: State, line: string): State {
    if s.stopped then s else HandleEvent(s, StreamEvent(parse, line))
  }

  function HandleAll(parse: string -> Parsed, s: State, lines: seq<string>): State {
    if lines == [] then s
    else Handle(parse, HandleAll(parse, s, lines[..|lines| - 1]), lines[|lines| - 1])
  }

  lemma {:induction false} HandleAllPlus(parse: string -> Parsed, s: State, a: seq<string>, b: seq<string>)
    ensures HandleAll(parse, s, a + b) == HandleAll(parse, HandleAll(parse, s, a), b)
  {
    if b == [] {
      assert a + b == a;
    } else {
      HandleAllPlus(parse, s, a, b[..|b| - 1]);
      assert (a + b)[..|a + b| - 1] == a + b[..|b| - 1];
    }
  }

  /** The end of every stream: role if still missing, one stop chunk, `[DONE]`. */
  function Finalized(s: State): seq<Chunk> {
    EnsureRole(s).chunks + [Stop, Done]
  }

  /** What a text translates to, however it arrives. */
  function Translation(parse: string -> Parsed, text: string): seq<Chunk> {
    Finalized(HandleAll(parse, START, CompleteLines(text)))
  }

  // ---------------------------------------------------------------- reading

  function Joined(pieces: seq<string>): string {
    if pieces == [] then "" else Joined(pieces[..|pieces| - 1]) + pieces[|pieces| - 1]
  }

  class Translator {
    const parse: string -> Parsed
    var buffer: string
    var roleEmitted: bool
    var chunks: seq<Chunk>
    var stopped: bool

    ghost predicate At(s: State)
      reads this
    {
      State(roleEmitted, chunks, stopped) == s
    }

    constructor (parse: string -> Parsed)
      ensures this.parse == parse && At(START) && buffer == ""
    {
      this.parse := parse;
      buffer, roleEmitted, chunks, stopped := "", false, [], false;
    }

    method SendRole()
      modifies this
      ensures At(EnsureRole(old(State(roleEmitted, chunks, stopped)))) && buffer == old(buffer)
    {
      if !roleEmitted {
        roleEmitted := true;
        chunks := chunks + [Role];
      }
    }

    method HandleLine(line: string)
      requires !stopped
      modifies this
      ensures At(Handle(parse, old(State(roleEmitted, chunks, stopped)), line)) && buffer == old(buffer)
    {
      if !StartsWith(line, PREFIX) {
        return;
      }
      var payload := Trim(line[|PREFIX|..]);
      if payload == "" {
        return;
      }
      match parse(payload)
      case Invalid =>
      case Null =>
        stopped := true;
      case Event(kind, quick, delta, errorText) =>
        if kind == "text-delta" {
          if !quick && delta.Str? && |delta.text| > 0 {
            SendRole();
            chunks := chunks + [Content(delta.text)];
          }
        } else if kind == "error" {
          SendRole();
          chunks := chunks + [Content(Notice(errorText))];
          stopped := true;
        } else if kind == "done" || kind == "end" {
          stopped := true;
        }
    }

    /** One read: the lines it completes are handled until one ends the stream. */
    method Read(piece: string)
      requires !stopped
      modifies this
      ensures At(HandleAll(parse, old(State(roleEmitted, chunks, stopped)), CompleteLines(old(buffer) + piece)))
      ensures buffer == Rest(old(buffer) + piece)
    {
      ghost var before := State(roleEmitted, chunks, stopped);
      buffer := buffer + piece;
      var lines := CompleteLines(buffer);
      buffer := Rest(buffer);
      ghost var left := buffer;
      var n := 0;
      while n < |lines| && !stopped
        invariant n <= |lines| && buffer == left
        invariant At(HandleAll(parse, before, lines[..n]))
      {
        assert lines[..n + 1][..n] == lines[..n];
        HandleLine(lines[n]);
        n := n + 1;
      }
      TailIgnored(parse, before, lines, n);
    }

    /** A whole stream, ended by its source or broken off by an error after these reads. */
    method Run(pieces: seq<string>)
      requires At(START) && buffer == ""
      modifies this
      ensures chunks == Translation(parse, Joined(pieces))
    {
      var n := 0;
      assert pieces[..0] == [];
      while n < |pieces| && !stopped
        invariant n <= |pieces|
        invariant At(HandleAll(parse, START, CompleteLines(Joined(pieces[..n]))))
        invariant buffer == Rest(Joined(pieces[..n]))
      {
        ghost var text := Joined(pieces[..n]);
        assert pieces[..n + 1][..n] == pieces[..n];
        LinesPlus(text, pieces[n]);
        HandleAllPlus(parse, START, CompleteLines(text), CompleteLines(buffer + pieces[n]));
        Read(pieces[n]);
        n := n + 1;
      }
      RemainderIgnored(parse, pieces, n);
      SendRole();
      chunks := chunks + [Stop];
      chunks := chunks + [Done];
    }
  }

  lemma {:induction false} StoppedStays(parse: string -> Parsed, s: State, lines: seq<string>)
    ensures s.stopped || lines == [] ==> HandleAll(parse, s, lines) == s
  {
    if lines != [] {
      StoppedStays(parse, s, lines[..|lines| - 1]);
    }
  }

  /** Lines that come after the end of the stream change nothing. */
  lemma TailIgnored(parse: string -> Parsed, s: State, lines: seq<string>, n: nat)
    requires n <= |lines| && (n == |lines| || HandleAll(parse, s, lines[..n]).stopped)
    ensures HandleAll(parse, s, lines) == HandleAll(parse, s, lines[..n])
  {
    HandleAllPlus(parse, s, lines[..n], lines[n..]);
    assert lines[..n] + lines[n..] == lines;
    StoppedStays(parse, HandleAll(parse, s, lines[..n]), lines[n..]);
  }

  lemma {:induction false} JoinedPlus(a: seq<string>, b: seq<string>)
    ensures Joined(a + b) == Joined(a) + Joined(b)
  {
    if b == [] {
      assert a + b == a;
    } else {
      JoinedPlus(a, b[..|b| - 1]);
      assert (a + b)[..|a + b| - 1] == a + b[..|b| - 1];
      Regroup(Joined(a), Joined(b[..|b| - 1]), b[|b| - 1]);
    }
  }

  /** Text that comes after the end of the stream changes nothing. */
  lemma MoreIgnored(parse: string -> Parsed, text: string, more: string)
    requires HandleAll(parse, START, CompleteLines(text)).stopped
    ensures HandleAll(parse, START, CompleteLines(text + more)) == HandleAll(parse, START, CompleteLines(text))
  {
    var seen, rest := CompleteLines(text), CompleteLines(Rest(text) + more);
    LinesPlus(text, more);
    HandleAllPlus(parse, START, seen, rest);
    StoppedStays(parse, HandleAll(parse, START, seen), rest);
  }

  /** Reads that come after the end of the stream change nothing. */
  lemma RemainderIgnored(parse: string -> Parsed, pieces: seq<string>, n: nat)
    requires n <= |pieces|
    requires n == |pieces| || HandleAll(parse, START, CompleteLines(Joined(pieces[..n]))).stopped
    ensures HandleAll(parse, START, CompleteLines(Joined(pieces)))
         == HandleAll(parse, START, CompleteLines(Joined(pieces[..n])))
  {
    if n < |pieces| {
      assert pieces[..n] + pieces[n..] == pieces;
      JoinedPlus(pieces[..n], pieces[n..]);
      MoreIgnored(parse, Joined(pieces[..n]), Joined(pieces[n..]));
    } else {
      assert pieces[..n] == pieces;
    }
  }

  // ---------------------------------------------------------------- what every stream looks like

  /** Nothing before the role, and after it only content. */
  ghost predicate Orderly(s: State) {
    if s.roleEmitted
    then |s.chunks| > 0 && s.chunks[0] == Role && forall i :: 0 < i < |s.chunks| ==> s.chunks[i].Content?
    else s.chunks == []
  }

  lemma {:induction false} HandleAllOrderly(parse: string -> Parsed, lines: seq<string>)
    ensures Orderly(HandleAll(parse, START, lines))
  {
    if lines != [] {
      HandleAllOrderly(parse, lines[..|lines| - 1]);
    }
  }

  /** Every stream, whatever the events: the role first and once, one stop chunk, `[DONE]` last, and only
      content between. */
  lemma TranslationShape(parse: string -> Parsed, text: string)
    ensures var t := Translation(parse, text);
      && |t| >= 3 && t[0] == Role && t[|t| - 2] == Stop && t[|t| - 1] == Done
      && forall i :: 0 < i < |t| - 2 ==> t[i].Content?
  {
    HandleAllOrderly(parse, CompleteLines(text));
  }

  // ---------------------------------------------------------------- the buffered path

  /** The event of a line as the buffered path reads it. */
  function BufferedEvent(parse: string -> Parsed, line: string): Parsed {
    if StartsWith(line, PREFIX) then parse(line[|PREFIX|..]) else Invalid
  }

  function EventText(ev: Parsed): string {
    if ev.Event? && ev.kind == "text-delta" && !ev.quick then ev.delta.Coerced() else ""
  }

  function BufferedText(parse: string -> Parsed, line: string): string {
    EventText(BufferedEvent(parse, line))
  }

  function Collected(parse: string -> Parsed, lines: seq<string>): string {
    if lines == [] then "" else Collected(parse, lines[..|lines| - 1]) + BufferedText(parse, lines[|lines| - 1])
  }

  lemma {:induction false} CollectedPlus(parse: string -> Parsed, a: seq<string>, b: seq<string>)
    ensures Collected(parse, a + b) == Collected(parse, a) + Collected(parse, b)
  {
    if b == [] {
      assert a + b == a;
    } else {
      CollectedPlus(parse, a, b[..|b| - 1]);
      assert (a + b)[..|a + b| - 1] == a + b[..|b| - 1];
      Regroup(Collected(parse, a), Collected(parse, b[..|b| - 1]), BufferedText(parse, b[|b| - 1]));
    }
  }

  method CollectLines(parse: string -> Parsed, lines: seq<string>, had: string) returns (fullText: string)
    ensures fullText == had + Collected(parse, lines)
  {
    fullText := had;
    assert had + "" == had;
    for k := 0 to |lines|
      invariant fullText == had + Collected(parse, lines[..k])
    {
      ghost var before := Collected(parse, lines[..k]);
      assert lines[..k + 1][..k] == lines[..k];
      if StartsWith(lines[k], PREFIX) {
        var ev := parse(lines[k][|PREFIX|..]);
        if ev.Event? && ev.kind == "text-delta" && !ev.quick {
          fullText := fullText + ev.delta.Coerced();
        }
      }
      assert (had + before) + BufferedText(parse, lines[k]) == had + (before + BufferedText(parse, lines[k]));
      assert (had + before) + "" == had + before;
    }
    assert lines[..|lines|] == lines;
  }

  method Collect(parse: string -> Parsed, pieces: seq<string>) returns (fullText: string)
    ensures fullText == Collected(parse, CompleteLines(Joined(pieces)))
  {
    fullText := "";
    var buf := "";
    for n := 0 to |pieces|
      invariant fullText == Collected(parse, CompleteLines(Joined(pieces[..n])))
      invariant buf == Rest(Joined(pieces[..n]))
    {
      ghost var text := Joined(pieces[..n]);
      assert pieces[..n + 1][..n] == pieces[..n];
      LinesPlus(text, pieces[n]);
      buf := buf + pieces[n];
      var lines := CompleteLines(buf);
      CollectedPlus(parse, CompleteLines(text), lines);
      buf := Rest(buf);
      fullText := CollectLines(parse, lines, fullText);
    }
    assert pieces[..|pieces|] == pieces;
  }

  // ---------------------------------------------------------------- what the client is told

  /** The text of an event that the stream passes on: string deltas only. */
  function StreamText(ev: Parsed): string {
    if ev.Event? && ev.kind == "text-delta" && !ev.quick && ev.delta.Str? then ev.delta.text else ""
  }

  predicate ErrorEvent(ev: Parsed) {
    ev.Event? && ev.kind == "error"
  }

  /** An event after which the stream is over. */
  predicate StopEvent(ev: Parsed) {
    ev.Null? || (ev.Event? && (ev.kind == "error" || ev.kind == "done" || ev.kind == "end"))
  }

  /** What such an event leaves behind as content. */
  function StopText(ev: Parsed): string {
    if ErrorEvent(ev) then Notice(ev.errorText) else ""
  }

  predicate Stops(parse: string -> Parsed, line: string) {
    StopEvent(StreamEvent(parse, line))
  }

  /** The first line that ends the stream, or the number of lines. */
  function FirstStop(parse: string -> Parsed, lines: seq<string>): (k: nat)
    ensures k <= |lines|
    ensures k < |lines| ==> Stops(parse, lines[k])
    ensures forall j :: 0 <= j < k ==> !Stops(parse, lines[j])
  {
    if lines == [] then 0
    else
      var init := lines[..|lines| - 1];
      var k := FirstStop(parse, init);
      assert forall j :: 0 <= j < |init| ==> lines[j] == init[j];
      if k < |init| then k else if Stops(parse, lines[|init|]) then |init| else |lines|
  }

  /** The text passed on from some lines, none of which ends the stream. */
  function Told(parse: string -> Parsed, lines: seq<string>): string {
    if lines == [] then "" else Told(parse, lines[..|lines| - 1]) + StreamText(StreamEvent(parse, lines[|lines| - 1]))
  }

  /** The content of a stream, in terms of its lines. */
  function ToldBy(parse: string -> Parsed, lines: seq<string>): string {
    var k := FirstStop(parse, lines);
    Told(parse, lines[..k]) + if k < |lines| then StopText(StreamEvent(parse, lines[k])) else ""
  }

  function ContentOf(chunks: seq<Chunk>): string {
    if chunks == [] then ""
    else ContentOf(chunks[..|chunks| - 1]) + if chunks[|chunks| - 1].Content? then chunks[|chunks| - 1].text else ""
  }

  lemma ContentSnoc(chunks: seq<Chunk>, c: Chunk)
    ensures ContentOf(chunks + [c]) == ContentOf(chunks) + if c.Content? then c.text else ""
  {
    assert (chunks + [c])[..|chunks + [c]| - 1] == chunks;
  }

  lemma EnsureRoleContent(s: State)
    ensures ContentOf(EnsureRole(s).chunks) == ContentOf(s.chunks)
  {
    ContentSnoc(s.chunks, Role);
    assert ContentOf(s.chunks) + "" == ContentOf(s.chunks);
  }

  lemma HandleEventContent(s: State, ev: Parsed)
    requires !s.stopped
    ensures var r := HandleEvent(s, ev);
      && r.stopped == StopEvent(ev)
      && ContentOf(r.chunks) == ContentOf(s.chunks) + if StopEvent(ev) then StopText(ev) else StreamText(ev)
  {
    assert ContentOf(s.chunks) + "" == ContentOf(s.chunks);
    EnsureRoleContent(s);
    if ErrorEvent(ev) {
      ContentSnoc(EnsureRole(s).chunks, Content(Notice(ev.errorText)));
    } else if ev.Event? && ev.kind == "text-delta" && !ev.quick && ev.delta.Str? && ev.delta.text != "" {
      ContentSnoc(EnsureRole(s).chunks, Content(ev.delta.text));
    }
  }

  /** The chunks sent so far say what the lines so far tell. */
  ghost predicate InPace(parse: string -> Parsed, s: State, lines: seq<string>) {
    s.stopped == (FirstStop(parse, lines) < |lines|) && ContentOf(s.chunks) == ToldBy(parse, lines)
  }

  lemma FirstStopSnoc(parse: string -> Parsed, init: seq<string>, line: string)
    ensures var k := FirstStop(parse, init);
      FirstStop(parse, init + [line])
      == if k < |init| then k else if Stops(parse, line) then |init| else |init| + 1
  {
    assert (init + [line])[..|init + [line]| - 1] == init;
  }

  lemma ToldSnoc(parse: string -> Parsed, init: seq<string>, line: string)
    ensures Told(parse, init + [line]) == Told(parse, init) + StreamText(StreamEvent(parse, line))
  {
    assert (init + [line])[..|init + [line]| - 1] == init;
  }

  lemma ToldByOpen(parse: string -> Parsed, lines: seq<string>)
    requires FirstStop(parse, lines) == |lines|
    ensures ToldBy(parse, lines) == Told(parse, lines)
  {
    assert lines[..|lines|] == lines;
    assert Told(parse, lines) + "" == Told(parse, lines);
  }

  lemma ToldByStopped(parse: string -> Parsed, init: seq<string>, line: string)
    requires FirstStop(parse, init) < |init|
    ensures ToldBy(parse, init + [line]) == ToldBy(parse, init)
  {
    FirstStopSnoc(parse, init, line);
    PrefixSame(init, line, FirstStop(parse, init));
  }

  lemma PrefixSame(init: seq<string>, line: string, k: nat)
    requires k < |init|
    ensures (init + [line])[..k] == init[..k] && (init + [line])[k] == init[k]
  {
  }

  lemma ToldByStopping(parse: string -> Parsed, init: seq<string>, line: string)
    requires FirstStop(parse, init) == |init| && Stops(parse, line)
    ensures ToldBy(parse, init + [line]) == Told(parse, init) + StopText(StreamEvent(parse, line))
  {
    var lines := init + [line];
    FirstStopSnoc(parse, init, line);
    assert lines[..|init|] == init && lines[|init|] == line;
  }

  /** A line after the end tells nothing; one before it tells its text, and the ending one its notice. */
  lemma ToldBySnoc(parse: string -> Parsed, init: seq<string>, line: string)
    ensures var ev := StreamEvent(parse, line);
      ToldBy(parse, init + [line])
      == if FirstStop(parse, init) < |init| then ToldBy(parse, init)
         else ToldBy(parse, init) + if StopEvent(ev) then StopText(ev) else StreamText(ev)
  {
    if FirstStop(parse, init) < |init| {
      ToldByStopped(parse, init, line);
    } else {
      ToldByOpen(parse, init);
      if Stops(parse, line) {
        ToldByStopping(parse, init, line);
      } else {
        FirstStopSnoc(parse, init, line);
        ToldByOpen(parse, init + [line]);
        ToldSnoc(parse, init, line);
      }
    }
  }

  lemma {:induction false} HandleAllContent(parse: string -> Parsed, lines: seq<string>)
    ensures InPace(parse, HandleAll(parse, START, lines), lines)
  {
    if lines != [] {
      var init, line := lines[..|lines| - 1], lines[|lines| - 1];
      var s := HandleAll(parse, START, init);
      HandleAllContent(parse, init);
      assert init + [line] == lines;
      ToldBySnoc(parse, init, line);
      FirstStopSnoc(parse, init, line);
      if !s.stopped {
        HandleEventContent(s, StreamEvent(parse, line));
      }
    }
  }

  lemma FinalizedContent(s: State)
    ensures ContentOf(Finalized(s)) == ContentOf(s.chunks)
  {
    var c := EnsureRole(s).chunks;
    EnsureRoleContent(s);
    ContentSnoc(c, Stop);
    ContentSnoc(c + [Stop], Done);
    assert c + [Stop, Done] == c + [Stop] + [Done];
    assert ContentOf(c) + "" == ContentOf(c);
  }

  /** The content of every stream: the string deltas up to the first line that ends it, in order, and the
      notice if that is an error. */
  lemma StreamedExactly(parse: string -> Parsed, text: string)
    ensures ContentOf(Translation(parse, text)) == ToldBy(parse, CompleteLines(text))
  {
    HandleAllContent(parse, CompleteLines(text));
    FinalizedContent(HandleAll(parse, START, CompleteLines(text)));
  }

  /** What an event puts on the stream: a string delta that is neither empty nor the placeholder's its text, an
      error its own text in a notice, anything else nothing. */
  function Said(ev: Parsed): seq<Chunk> {
    match ev
    case Event("text-delta", false, Str(text), _) => if text != "" then [Content(text)] else []
    case Event("error", _, _, message) => [Content("\n\n[Erro: " + message + "]")]
    case _ => []
  }

  /** What the first `n` lines put on it. */
  function SaidBy(parse: string -> Parsed, lines: seq<string>, n: nat): seq<Chunk>
    requires n <= |lines|
  {
    if n == 0 then [] else SaidBy(parse, lines, n - 1) + Said(StreamEvent(parse, lines[n - 1]))
  }

  /** `said` has been sent, behind the role if there is anything. */
  predicate HasSaid(s: State, said: seq<Chunk>) {
    s.roleEmitted == (said != []) && s.chunks == if said == [] then [] else [Role] + said
  }

  lemma EventSays(s: State, ev: Parsed, said: seq<Chunk>)
    requires !s.stopped && HasSaid(s, said)
    ensures HasSaid(HandleEvent(s, ev), said + Said(ev)) && HandleEvent(s, ev).stopped == StopEvent(ev)
  {
    if Said(ev) == [] {
      assert said + [] == said;
    } else {
      Regroup([Role], said, Said(ev));
    }
  }

  lemma {:induction false} SaidByKept(parse: string -> Parsed, init: seq<string>, lines: seq<string>, n: nat)
    requires n <= |init| <= |lines| && init == lines[..|init|]
    ensures SaidBy(parse, lines, n) == SaidBy(parse, init, n)
  {
    if n > 0 {
      SaidByKept(parse, init, lines, n - 1);
      assert init[n - 1] == lines[n - 1];
    }
  }

  /** The lines that are heard: up to the first that ends the stream. */
  function HeardLines(parse: string -> Parsed, lines: seq<string>): (n: nat)
    ensures n <= |lines|
  {
    var k := FirstStop(parse, lines);
    if k < |lines| then k + 1 else k
  }

  /** The lines so far have said what was heard of them. */
  predicate Spoken(parse: string -> Parsed, s: State, lines: seq<string>) {
    && HasSaid(s, SaidBy(parse, lines, HeardLines(parse, lines)))
    && s.stopped == (FirstStop(parse, lines) < |lines|)
  }

  lemma HeardNext(parse: string -> Parsed, init: seq<string>, line: string, lines: seq<string>)
    requires lines == init + [line]
    ensures HeardLines(parse, lines) == if FirstStop(parse, init) < |init| then HeardLines(parse, init) else |lines|
    ensures FirstStop(parse, lines) < |lines| <==> FirstStop(parse, init) < |init| || Stops(parse, line)
  {
    FirstStopSnoc(parse, init, line);
  }

  lemma SpokenStays(parse: string -> Parsed, s: State, init: seq<string>, line: string, lines: seq<string>)
    requires Spoken(parse, s, init) && lines == init + [line] && s.stopped
    ensures Spoken(parse, s, lines)
  {
    HeardNext(parse, init, line, lines);
    SaidByKept(parse, init, lines, HeardLines(parse, init));
  }

  lemma SpokenGrows(parse: string -> Parsed, s: State, init: seq<string>, line: string, lines: seq<string>)
    requires Spoken(parse, s, init) && lines == init + [line] && !s.stopped
    ensures Spoken(parse, HandleEvent(s, StreamEvent(parse, line)), lines)
  {
    HeardNext(parse, init, line, lines);
    SaidByKept(parse, init, lines, |init|);
    EventSays(s, StreamEvent(parse, line), SaidBy(parse, init, |init|));
    assert lines[|init|] == line;
  }

  lemma {:induction false} AllSay(parse: string -> Parsed, lines: seq<string>)
    ensures Spoken(parse, HandleAll(parse, START, lines), lines)
  {
    if lines != [] {
      var init, line := lines[..|lines| - 1], lines[|lines| - 1];
      AllSay(parse, init);
      var s := HandleAll(parse, START, init);
      if s.stopped {
        SpokenStays(parse, s, init, line, lines);
      } else {
        SpokenGrows(parse, s, init, line, lines);
      }
    }
  }

  /** The chunks of every stream: the role, what its lines say up to the first that ends it, chunk by chunk, and
      the ending. */
  lemma ChunksExactly(parse: string -> Parsed, text: string)
    ensures var lines := CompleteLines(text);
      Translation(parse, text) == [Role] + SaidBy(parse, lines, HeardLines(parse, lines)) + [Stop, Done]
  {
    var lines := CompleteLines(text);
    AllSay(parse, lines);
    FinalizedSays(HandleAll(parse, START, lines), SaidBy(parse, lines, HeardLines(parse, lines)));
  }

  lemma FinalizedSays(s: State, said: seq<Chunk>)
    requires HasSaid(s, said)
    ensures Finalized(s) == [Role] + said + [Stop, Done]
  {
    assert [Role] + [] == [Role];
  }

  /** The payload of a line: what stands behind `data: `, without the blanks around it, if there is anything. */
  lemma PayloadIs(parse: string -> Parsed, line: string, payload: string)
    ensures StreamEvent(parse, "data: " + payload) == if Blank(payload) then Invalid else parse(Trim(payload))
    ensures (forall rest :: line != "data: " + rest) ==> StreamEvent(parse, line).Invalid?
  {
    var full := "data: " + payload;
    assert full[..6] == "data: " && full[6..] == payload;
    BlankExactly(payload);
    if StartsWith(line, PREFIX) {
      assert line == "data: " + line[6..];
    }
  }

  // ---------------------------------------------------------------- streaming against buffering

  /** A line on which the parser accepts the trimmed payload if it accepts the raw one, and reads it alike; as
      a JSON parser does, which allows some of the blanks that trimming removes. */
  predicate Lenient(parse: string -> Parsed, line: string) {
    BufferedEvent(parse, line) == StreamEvent(parse, line) || BufferedEvent(parse, line).Invalid?
  }

  ghost predicate AllLenient(parse: string -> Parsed, lines: seq<string>) {
    forall i :: 0 <= i < |lines| ==> Lenient(parse, lines[i])
  }

  /** A text that only the stream has: the parser rejects its payload for the blanks around it. */
  predicate Unheard(parse: string -> Parsed, line: string) {
    BufferedEvent(parse, line).Invalid? && StreamText(StreamEvent(parse, line)) != ""
  }

  ghost predicate NoneUnheard(parse: string -> Parsed, lines: seq<string>) {
    forall i :: 0 <= i < |lines| ==> !Unheard(parse, lines[i])
  }

  /** A delta that is not a string, and not empty either when it is made one: only the buffered path has it. */
  predicate Coerced(parse: string -> Parsed, line: string) {
    var ev := BufferedEvent(parse, line);
    ev.Event? && ev.kind == "text-delta" && !ev.quick && ev.delta.NotAString? && ev.delta.coerced != ""
  }

  ghost predicate NoneCoerced(parse: string -> Parsed, lines: seq<string>) {
    forall i :: 0 <= i < |lines| ==> !Coerced(parse, lines[i])
  }

  lemma LineWithin(parse: string -> Parsed, line: string)
    requires Lenient(parse, line)
    ensures var told, collected := StreamText(StreamEvent(parse, line)), BufferedText(parse, line);
      if Coerced(parse, line) then told == "" && collected != "" && !Unheard(parse, line)
      else if Unheard(parse, line) then told != "" && collected == ""
      else told == collected
  {
  }

  lemma NoneSnoc(parse: string -> Parsed, init: seq<string>, line: string)
    ensures NoneCoerced(parse, init + [line]) <==> NoneCoerced(parse, init) && !Coerced(parse, line)
    ensures NoneUnheard(parse, init + [line]) <==> NoneUnheard(parse, init) && !Unheard(parse, line)
  {
    var lines := init + [line];
    assert lines[|init|] == line && forall i :: 0 <= i < |init| ==> lines[i] == init[i];
  }

  lemma PartsWithin(a: string, b: string, x: string, y: string)
    requires |a| <= |b| && |x| <= |y|
    ensures |a + x| <= |b + y|
    ensures |a + x| == |b + y| ==> |a| == |b| && |x| == |y|
  {
  }

  /** With no unheard text, buffering collects at least what is told, and more exactly by the coerced deltas. */
  lemma {:induction false} ToldWithin(parse: string -> Parsed, lines: seq<string>)
    requires AllLenient(parse, lines) && NoneUnheard(parse, lines)
    ensures NoneCoerced(parse, lines) ==> Told(parse, lines) == Collected(parse, lines)
    ensures |Told(parse, lines)| <= |Collected(parse, lines)|
    ensures |Told(parse, lines)| == |Collected(parse, lines)| ==> NoneCoerced(parse, lines)
  {
    if lines != [] {
      var init, line := lines[..|lines| - 1], lines[|lines| - 1];
      assert init + [line] == lines;
      NoneSnoc(parse, init, line);
      ToldWithin(parse, init);
      LineWithin(parse, line);
      PartsWithin(Told(parse, init), Collected(parse, init),
                  StreamText(StreamEvent(parse, line)), BufferedText(parse, line));
    }
  }

  /** With no coerced delta, the stream tells at least what is collected, and more exactly by the unheard
      texts. */
  lemma {:induction false} CollectedWithin(parse: string -> Parsed, lines: seq<string>)
    requires AllLenient(parse, lines) && NoneCoerced(parse, lines)
    ensures |Collected(parse, lines)| <= |Told(parse, lines)|
    ensures |Collected(parse, lines)| == |Told(parse, lines)| ==> NoneUnheard(parse, lines)
  {
    if lines != [] {
      var init, line := lines[..|lines| - 1], lines[|lines| - 1];
      assert init + [line] == lines;
      NoneSnoc(parse, init, line);
      CollectedWithin(parse, init);
      LineWithin(parse, line);
      PartsWithin(Collected(parse, init), Told(parse, init),
                  BufferedText(parse, line), StreamText(StreamEvent(parse, line)));
    }
  }

  lemma CollectedCut(parse: string -> Parsed, lines: seq<string>, k: nat)
    requires k <= |lines|
    ensures Collected(parse, lines) == Collected(parse, lines[..k]) + Collected(parse, lines[k..])
  {
    CutWhole(lines, k);
    CollectedParts(parse, lines[..k], lines[k..], lines);
  }

  lemma CutWhole(lines: seq<string>, k: nat)
    requires k <= |lines|
    ensures lines == lines[..k] + lines[k..]
  {
  }

  lemma CollectedParts(parse: string -> Parsed, a: seq<string>, b: seq<string>, lines: seq<string>)
    requires lines == a + b
    ensures Collected(parse, lines) == Collected(parse, a) + Collected(parse, b)
  {
    CollectedPlus(parse, a, b);
  }

  lemma PlusMore(told: string, front: string, back: string)
    requires |told| <= |front|
    ensures told == front + back <==> told == front && back == ""
  {
    assert |front + back| == |front| + |back|;
    if told == front && back == "" {
      assert front + back == front;
    }
  }

  lemma PlusRest(told: string, front: string, back: string)
    ensures told == front + back <==> front <= told && told[|front|..] == back
  {
    if told == front + back {
      assert (front + back)[..|front|] == front && (front + back)[|front|..] == back;
    }
    if front <= told && told[|front|..] == back {
      assert told == told[..|front|] + told[|front|..];
    }
  }

  /** The stream has text that the buffered path has not heard. */
  ghost predicate StreamHasMore(parse: string -> Parsed, lines: seq<string>) {
    !NoneUnheard(parse, lines[..FirstStop(parse, lines)])
  }

  /** The buffered path has coerced deltas, or collects after the end. */
  ghost predicate BufferHasMore(parse: string -> Parsed, lines: seq<string>) {
    var k := FirstStop(parse, lines);
    !NoneCoerced(parse, lines[..k]) || Collected(parse, lines[k..]) != ""
  }

  lemma PlainEndTold(parse: string -> Parsed, lines: seq<string>)
    requires AllLenient(parse, lines)
    requires var k := FirstStop(parse, lines); k < |lines| ==> !ErrorEvent(StreamEvent(parse, lines[k]))
    requires !(StreamHasMore(parse, lines) && BufferHasMore(parse, lines))
    ensures ToldBy(parse, lines) == Collected(parse, lines)
      <==> !StreamHasMore(parse, lines) && !BufferHasMore(parse, lines)
  {
    var k := FirstStop(parse, lines);
    var told, front, back := Told(parse, lines[..k]), Collected(parse, lines[..k]), Collected(parse, lines[k..]);
    assert AllLenient(parse, lines[..k]);
    CollectedCut(parse, lines, k);
    assert ToldBy(parse, lines) == told + "" == told;
    if StreamHasMore(parse, lines) {
      CollectedWithin(parse, lines[..k]);
      assert front + back == front;
    } else {
      ToldWithin(parse, lines[..k]);
      PlusMore(told, front, back);
    }
  }

  /** For parsers that accept a trimmed payload whenever they accept the raw one, and streams that do not end
      in an error: unless each path has something that the other lacks, the two texts are the same exactly
      when neither has. In any case they are the same exactly when what the buffered path collects up to
      the end begins what is told, notice included, and what it collects afterwards is the rest of it. */
  lemma StreamedIsBuffered(parse: string -> Parsed, text: string)
    requires AllLenient(parse, CompleteLines(text))
    ensures var lines := CompleteLines(text);
      var k := FirstStop(parse, lines);
      var told, front := ContentOf(Translation(parse, text)), Collected(parse, lines[..k]);
      && (told == Collected(parse, lines) <==> front <= told && told[|front|..] == Collected(parse, lines[k..]))
      && ((k < |lines| ==> !ErrorEvent(StreamEvent(parse, lines[k])))
          && !(StreamHasMore(parse, lines) && BufferHasMore(parse, lines)) ==>
            (told == Collected(parse, lines) <==> !StreamHasMore(parse, lines) && !BufferHasMore(parse, lines)))
  {
    var lines := CompleteLines(text);
    var k := FirstStop(parse, lines);
    StreamedExactly(parse, text);
    CollectedCut(parse, lines, k);
    PlusRest(ToldBy(parse, lines), Collected(parse, lines[..k]), Collected(parse, lines[k..]));
    if (k < |lines| ==> !ErrorEvent(StreamEvent(parse, lines[k])))
       && !(StreamHasMore(parse, lines) && BufferHasMore(parse, lines)) {
      PlainEndTold(parse, lines);
    }
  }

  /** With string deltas only, and nothing that ends the stream, they agree exactly when no text goes unheard. */
  lemma EndlessAgrees(parse: string -> Parsed, text: string)
    requires AllLenient(parse, CompleteLines(text)) && NoneCoerced(parse, CompleteLines(text))
    requires forall i :: 0 <= i < |CompleteLines(text)| ==> !Stops(parse, CompleteLines(text)[i])
    ensures ContentOf(Translation(parse, text)) == Collected(parse, CompleteLines(text))
      <==> NoneUnheard(parse, CompleteLines(text))
  {
    var lines := CompleteLines(text);
    StreamedIsBuffered(parse, text);
    assert lines[..|lines|] == lines && lines[|lines|..] == [];
  }

  // ---------------------------------------------------------------- streams on which the two differ

  /** A payload that stands in one line as it is. */
  ghost predicate OneLine(payload: string) {
    payload != "" && Trim(payload) == payload && NoNewline(payload)
  }

  lemma PayloadRead(parse: string -> Parsed, payload: string)
    requires OneLine(payload)
    ensures StreamEvent(parse, PREFIX + payload) == BufferedEvent(parse, PREFIX + payload) == parse(payload)
    ensures NoNewline(PREFIX + payload)
  {
    var line := PREFIX + payload;
    assert line[..|PREFIX|] == PREFIX && line[|PREFIX|..] == payload;
  }

  lemma OneLineSplit(line: string)
    requires NoNewline(line)
    ensures CompleteLines(line + "\n") == [line] && Rest(line + "\n") == ""
  {
    NoNewlineLines(line);
    LinesSnoc(line, '\n');
    assert "\n" == ['\n'] && [] + [line] == [line];
  }

  lemma FirstLine(line: string, more: string)
    requires NoNewline(line)
    ensures CompleteLines(line + "\n" + more) == [line] + CompleteLines(more)
  {
    OneLineSplit(line);
    LinesPlus(line + "\n", more);
    assert "" + more == more;
  }

  function TwoLines(first: string, second: string): string {
    PREFIX + first + "\n" + (PREFIX + second + "\n" + "")
  }

  lemma TwoLinesSplit(first: string, second: string)
    requires OneLine(first) && OneLine(second)
    ensures CompleteLines(TwoLines(first, second)) == [PREFIX + first, PREFIX + second]
  {
    var a, b := PREFIX + first, PREFIX + second;
    PayloadRead(_ => Invalid, first);
    PayloadRead(_ => Invalid, second);
    FirstLine(b, "");
    FirstLine(a, b + "\n" + "");
    assert CompleteLines("") == [] && [a] + ([b] + []) == [a, b];
  }

  /** Whatever the parser: after a payload that it reads as `done`, `end` or `null`, the stream passes no
      text on and the buffered path still collects it. */
  lemma TextAfterStop(parse: string -> Parsed, stop: string, late: string)
    requires OneLine(stop) && StopEvent(parse(stop)) && !ErrorEvent(parse(stop))
    requires OneLine(late) && EventText(parse(late)) != ""
    ensures ContentOf(Translation(parse, TwoLines(stop, late))) == ""
    ensures Collected(parse, CompleteLines(TwoLines(stop, late))) == EventText(parse(late))
  {
    var a, b := PREFIX + stop, PREFIX + late;
    var lines := [a, b];
    TwoLinesSplit(stop, late);
    PayloadRead(parse, stop);
    PayloadRead(parse, late);
    assert Stops(parse, lines[0]);
    assert FirstStop(parse, lines) == 0 && lines[..0] == [];
    StreamedExactly(parse, TwoLines(stop, late));
    assert lines[..1] == [a] && [a][..0] == [];
    assert "" + "" == "" && "" + EventText(parse(late)) == EventText(parse(late));
    assert Collected(parse, [a]) == "";
  }

  /** One stream on which the paths differ: a bare JSON `null`, then a text. */
  lemma TextAfterNull(parse: string -> Parsed, late: string)
    requires parse("null") == Null && OneLine(late) && EventText(parse(late)) != ""
    ensures var text := TwoLines("null", late);
      ContentOf(Translation(parse, text)) != Collected(parse, CompleteLines(text))
  {
    assert Trim("null") == "null";
    TextAfterStop(parse, "null", late);
  }

  /** Whatever the parser: on a lone error, or a lone delta that is made a string, the two paths differ. */
  lemma OneEventDiffers(parse: string -> Parsed, payload: string)
    requires OneLine(payload)
    requires ErrorEvent(parse(payload)) || Coerced(parse, PREFIX + payload)
    ensures var text := PREFIX + payload + "\n" + "";
      ContentOf(Translation(parse, text)) != Collected(parse, CompleteLines(text))
  {
    var line, text := PREFIX + payload, PREFIX + payload + "\n" + "";
    PayloadRead(parse, payload);
    FirstLine(line, "");
    assert CompleteLines("") == [] && [line] + [] == [line];
    StreamedExactly(parse, text);
    OneLineTold(parse, line);
  }

  lemma OneLineTold(parse: string -> Parsed, line: string)
    ensures var ev := StreamEvent(parse, line);
      ToldBy(parse, [line]) == if StopEvent(ev) then StopText(ev) else StreamText(ev)
    ensures Collected(parse, [line]) == BufferedText(parse, line)
  {
    ToldBySnoc(parse, [], line);
    assert [] + [line] == [line] && [line][..0] == [];
    assert ToldBy(parse, []) == "" + "";
    assert "" + BufferedText(parse, line) == BufferedText(parse, line);
    var ev := StreamEvent(parse, line);
    assert "" + StopText(ev) == StopText(ev) && "" + StreamText(ev) == StreamText(ev);
  }

  const NO_BREAK_SPACE: char := '\U{00A0}'

  lemma BlankRead(parse: string -> Parsed, payload: string)
    requires OneLine(payload)
    ensures var line := PREFIX + ([NO_BREAK_SPACE] + payload);
      && StreamEvent(parse, line) == parse(payload)
      && BufferedEvent(parse, line) == parse([NO_BREAK_SPACE] + payload)
      && NoNewline(line)
  {
    var raw := [NO_BREAK_SPACE] + payload;
    var line := PREFIX + raw;
    assert line[..|PREFIX|] == PREFIX && line[|PREFIX|..] == raw;
    assert raw[0] == NO_BREAK_SPACE && raw[1..] == payload;
    assert Trim(raw) == Trim(raw[1..]);
  }

  lemma OneLineStream(parse: string -> Parsed, line: string)
    requires NoNewline(line) && !StopEvent(StreamEvent(parse, line))
    ensures ContentOf(Translation(parse, line + "\n" + "")) == StreamText(StreamEvent(parse, line))
    ensures Collected(parse, CompleteLines(line + "\n" + "")) == BufferedText(parse, line)
  {
    FirstLine(line, "");
    assert CompleteLines("") == [] && [line] + [] == [line];
    StreamedExactly(parse, line + "\n" + "");
    OneLineTold(parse, line);
  }

  /** Whatever the parser: a text behind a no-break space, which trimming drops and the parser rejects, is
      passed on by the stream only. */
  lemma BlankGoesUnheard(parse: string -> Parsed, payload: string)
    requires OneLine(payload) && StreamText(parse(payload)) != ""
    requires parse([NO_BREAK_SPACE] + payload) == Invalid
    ensures var text := PREFIX + ([NO_BREAK_SPACE] + payload) + "\n" + "";
      && ContentOf(Translation(parse, text)) == StreamText(parse(payload))
      && Collected(parse, CompleteLines(text)) == ""
  {
    BlankRead(parse, payload);
    OneLineStream(parse, PREFIX + ([NO_BREAK_SPACE] + payload));
  }

  /** However a text is cut into pieces, and whether its source ends or breaks off after it, the client
      is sent the same chunks. */
  method CutAnywhere(parse: string -> Parsed, pieces: seq<string>, others: seq<string>)
    returns (chunks: seq<Chunk>, otherChunks: seq<Chunk>)
    requires Joined(pieces) == Joined(others)
    ensures chunks == otherChunks == Translation(parse, Joined(pieces))
  {
    var t := new Translator(parse);
    var u := new Translator(parse);
    t.Run(pieces);
    u.Run(others);
    chunks, otherChunks := t.chunks, u.chunks;
  }
}
