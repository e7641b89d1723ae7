/** Capturing a server-sent-event stream as recorded events, and rebuilding the text from them.
    `parse` stands for the JSON decoding of one block. */
module Streams {
  import opened Results

  datatype Tool = Tool(index: int, callId: string, name: string)

  datatype Choice = Choice(finish: string, tools: seq<Tool>)

  datatype Payload = DoneMark | Choices(choices: seq<Choice>) | Raw

  type Parser = string -> Payload

  datatype Kind = RequestSent | ResponseReceived | StreamChunk | StreamEnd | ToolStart | ToolEnd | Failure | Timeout

  datatype Event = Event(sequence: int, t: int, kind: Kind, chunk: Option<string>, tool: Option<Tool>)

  const GAP := "\n\n"

  // ---------------------------------------------------------------- splitting

  /** Where the first blank line starts; the length of the text if there is none. */
  function FirstGap(s: string): (i: nat)
    ensures i <= |s|
    ensures i < |s| ==> i + 1 < |s| && s[i] == '\n' && s[i + 1] == '\n'
    ensures forall j | 0 <= j < i && j + 1 < |s| :: !(s[j] == '\n' && s[j + 1] == '\n')
  {
    if |s| < 2 then |s|
    else if s[0] == '\n' && s[1] == '\n' then 0
    else
      var i := FirstGap(s[1..]);
      assert forall j | 0 < j < i + 1 && j + 1 < |s| :: s[1..][j - 1] == s[j] && s[1..][j] == s[j + 1];
      i + 1
  }

  // str.split("\n\n")
  function Split(s: string): (pieces: seq<string>)
    ensures pieces != []
    decreases |s|
  {
    var i := FirstGap(s);
    if i == |s| then [s] else [s[..i]] + Split(s[i + 2..])
  }

  function Join(pieces: seq<string>): string
    requires pieces != []
  {
    if |pieces| == 1 then pieces[0] else pieces[0] + GAP + Join(pieces[1..])
  }

  /** Splitting loses nothing. */
  lemma {:induction false} JoinSplit(s: string)
    ensures Join(Split(s)) == s
    decreases |s|
  {
    var i := FirstGap(s);
    if i < |s| {
      JoinSplit(s[i + 2..]);
      assert s == s[..i] + s[i..i + 2] + s[i + 2..];
      assert s[i..i + 2] == GAP;
    }
  }

  function Blocks(pieces: seq<string>): seq<string> {
    if pieces == [] then [] else (if pieces[0] == "" then [] else [pieces[0]]) + Blocks(pieces[1..])
  }

  /** Every block with the blank line that ends it. */
  function Ended(blocks: seq<string>): string {
    if blocks == [] then "" else blocks[0] + GAP + Ended(blocks[1..])
  }

  // ---------------------------------------------------------------- capturing

  /** The events so far, the tool calls that are open in the order they were opened, and the time. */
  datatype Building = Building(events: seq<Event>, open: seq<Tool>, t: int)

  predicate IsOpen(open: seq<Tool>, index: int) {
    exists i :: 0 <= i < |open| && open[i].index == index
  }

  function Put(b: Building, kind: Kind, chunk: Option<string>, tool: Option<Tool>): Building {
    b.(events := b.events + [Event(3 + |b.events|, b.t, kind, chunk, tool)])
  }

  // assigning to a key of a Python dict keeps its place
  function Assign(open: seq<Tool>, tool: Tool): seq<Tool> {
    if open == [] then [tool]
    else if open[0].index == tool.index then [tool] + open[1..]
    else [open[0]] + Assign(open[1..], tool)
  }

  function CallTool(b: Building, tool: Tool): Building {
    var started := if IsOpen(b.open, tool.index) then b else Put(b, ToolStart, None, Some(tool));
    started.(open := Assign(b.open, tool))
  }

  function CallTools(b: Building, tools: seq<Tool>): Building {
    if tools == [] then b else CallTool(CallTools(b, tools[..|tools| - 1]), tools[|tools| - 1])
  }

  function CallChoices(b: Building, choices: seq<Choice>): Building {
    if choices == [] then b
    else CallTools(CallChoices(b, choices[..|choices| - 1]), choices[|choices| - 1].tools)
  }

  /** The last finish reason that is not empty. */
  function FinishReason(choices: seq<Choice>): string {
    if choices == [] then ""
    else if choices[|choices| - 1].finish != "" then choices[|choices| - 1].finish
    else FinishReason(choices[..|choices| - 1])
  }

  /** Ends for the first n open tool calls. */
  function CloseTools(b: Building, n: nat): Building
    requires n <= |b.open|
  {
    if n == 0 then b else Put(CloseTools(b, n - 1), ToolEnd, None, Some(b.open[n - 1]))
  }

  function CloseAll(b: Building): Building {
    CloseTools(b, |b.open|).(open := [])
  }

  function AddBlock(b: Building, parse: Parser, block: string): Building {
    var chunk := Some(block + GAP);
    match parse(block)
    case DoneMark => Put(CloseAll(b), StreamEnd, chunk, None)
    case Choices(choices) =>
      var called := CallChoices(Put(b, StreamChunk, chunk, None), choices);
      var closed := if FinishReason(choices) == "tool_calls" then CloseAll(called) else called;
      closed.(t := b.t + 1)
    case Raw => Put(b, StreamChunk, chunk, None).(t := b.t + 1)
  }

  function AddBlocks(parse: Parser, blocks: seq<string>, t: int): Building {
    if blocks == [] then Building([], [], t)
    else AddBlock(AddBlocks(parse, blocks[..|blocks| - 1], t), parse, blocks[|blocks| - 1])
  }

  predicate HasEnd(events: seq<Event>) {
    exists i :: 0 <= i < |events| && events[i].kind == StreamEnd
  }

  /** The events of a whole stream; one that nothing ended is ended here. */
  function StreamEvents(parse: Parser, raw: string, t: int): seq<Event> {
    var b := AddBlocks(parse, Blocks(Split(raw)), t);
    if HasEnd(b.events) then b.events else Put(b, StreamEnd, Some(""), None).events
  }

  // ---------------------------------------------------------------- replaying

  function ChunkOf(e: Event): string {
    if e.kind == StreamChunk || e.kind == StreamEnd then if e.chunk.Some? then e.chunk.value else "" else ""
  }

  function Extracted(events: seq<Event>): string {
    if events == [] then "" else Extracted(events[..|events| - 1]) + ChunkOf(events[|events| - 1])
  }
}
