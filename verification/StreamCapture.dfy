/** The capture and replay loops for streamed responses, and the recorder's check of their events. */
module StreamCapture {
  import opened Results
  import opened StreamLaws
  import opened Streams

  /** Ends for all open tool calls, in the order they were opened. */
  method EndTools(events: seq<Event>, open: seq<Tool>, nextSequence: int, t: int)
    returns (events': seq<Event>, nextSequence': int)
    requires nextSequence == 3 + |events|
    ensures events' == CloseTools(Building(events, open, t), |open|).events
    ensures nextSequence' == 3 + |events'|
  {
    events', nextSequence' := events, nextSequence;
    for n := 0 to |open|
      invariant events' == CloseTools(Building(events, open, t), n).events
      invariant nextSequence' == 3 + |events'|
    {
      KeepsRest(Building(events, open, t), n);
      events' := events' + [Event(nextSequence', t, ToolEnd, None, Some(open[n]))];
      nextSequence' := nextSequence' + 1;
    }
  }

  lemma {:induction false} KeepsRest(b: Building, n: nat)
    requires n <= |b.open|
    ensures CloseTools(b, n).t == b.t && CloseTools(b, n).open == b.open
  {
    if n > 0 {
      KeepsRest(b, n - 1);
    }
  }

  /** Starts for the tool calls that are not open yet; the table takes the newest details of each. */
  method StartTools(events: seq<Event>, open: seq<Tool>, nextSequence: int, t: int, tools: seq<Tool>)
    returns (events': seq<Event>, open': seq<Tool>, nextSequence': int)
    requires nextSequence == 3 + |events|
    ensures Building(events', open', t) == CallTools(Building(events, open, t), tools)
    ensures nextSequence' == 3 + |events'|
  {
    events', open', nextSequence' := events, open, nextSequence;
    for n := 0 to |tools|
      invariant Building(events', open', t) == CallTools(Building(events, open, t), tools[..n])
      invariant nextSequence' == 3 + |events'|
    {
      assert tools[..n + 1][..n] == tools[..n];
      if !IsOpen(open', tools[n].index) {
        events' := events' + [Event(nextSequence', t, ToolStart, None, Some(tools[n]))];
        nextSequence' := nextSequence' + 1;
      }
      open' := Assign(open', tools[n]);
    }
    assert tools[..|tools|] == tools;
  }

  method ReadChoices(events: seq<Event>, open: seq<Tool>, nextSequence: int, t: int, choices: seq<Choice>)
    returns (events': seq<Event>, open': seq<Tool>, nextSequence': int, finish: string)
    requires nextSequence == 3 + |events|
    ensures Building(events', open', t) == CallChoices(Building(events, open, t), choices)
    ensures nextSequence' == 3 + |events'|
    ensures finish == FinishReason(choices)
  {
    events', open', nextSequence', finish := events, open, nextSequence, "";
    for n := 0 to |choices|
      invariant Building(events', open', t) == CallChoices(Building(events, open, t), choices[..n])
      invariant nextSequence' == 3 + |events'|
      invariant finish == FinishReason(choices[..n])
    {
      assert choices[..n + 1][..n] == choices[..n];
      if choices[n].finish != "" {
        finish := choices[n].finish;
      }
      events', open', nextSequence' := StartTools(events', open', nextSequence', t, choices[n].tools);
    }
    assert choices[..|choices|] == choices;
  }

  /** One block: a done mark ends the open tool calls and the stream and takes no time; anything else
      is a chunk and takes one millisecond. */
  method ReadBlock(parse: Parser, block: string, events: seq<Event>, open: seq<Tool>, nextSequence: int, t: int)
    returns (events': seq<Event>, open': seq<Tool>, nextSequence': int, t': int)
    requires nextSequence == 3 + |events|
    ensures Building(events', open', t') == AddBlock(Building(events, open, t), parse, block)
    ensures nextSequence' == 3 + |events'|
  {
    var chunk, payload := Some(block + GAP), parse(block);
    ghost var b := Building(events, open, t);
    KeepsRest(b, |open|);
    if payload == DoneMark {
      events', nextSequence' := EndTools(events, open, nextSequence, t);
      events', open', t' := events' + [Event(nextSequence', t, StreamEnd, chunk, None)], [], t;
      nextSequence' := nextSequence' + 1;
      return;
    }
    events', open', nextSequence' := events + [Event(nextSequence, t, StreamChunk, chunk, None)], open, nextSequence + 1;
    if payload.Choices? {
      var finish;
      events', open', nextSequence', finish := ReadChoices(events', open', nextSequence', t, payload.choices);
      KeepsRest(Building(events', open', t), |open'|);
      if finish == "tool_calls" {
        events', nextSequence' := EndTools(events', open', nextSequence', t);
        open' := [];
      }
    }
    t' := t + 1;
  }

  method BuildStreamEvents(parse: Parser, raw: string, initial: int) returns (events: seq<Event>)
    ensures events == StreamEvents(parse, raw, initial)
  {
    var blocks := Blocks(Split(raw));
    var open: seq<Tool>, nextSequence, t := [], 3, initial;
    events := [];
    for n := 0 to |blocks|
      invariant Building(events, open, t) == AddBlocks(parse, blocks[..n], initial)
      invariant nextSequence == 3 + |events|
    {
      assert blocks[..n + 1][..n] == blocks[..n];
      events, open, nextSequence, t := ReadBlock(parse, blocks[n], events, open, nextSequence, t);
    }
    assert blocks[..|blocks|] == blocks;
    if !HasEnd(events) {
      events := events + [Event(nextSequence, t, StreamEnd, Some(""), None)];
    }
  }

  /** The chunks one after the other. */
  function Concat(chunks: seq<string>): string {
    if chunks == [] then "" else Concat(chunks[..|chunks| - 1]) + chunks[|chunks| - 1]
  }

  /** The chunks of a recorded stream; joined they are the replayed body. */
  method ExtractStreamChunks(events: seq<Event>) returns (chunks: seq<string>)
    ensures Concat(chunks) == Extracted(events)
    ensures forall i | 0 <= i < |chunks| :: exists e :: e in events && e.chunk == Some(chunks[i])
  {
    chunks := [];
    for n := 0 to |events|
      invariant Concat(chunks) == Extracted(events[..n])
      invariant forall i | 0 <= i < |chunks| :: exists e :: e in events && e.chunk == Some(chunks[i])
    {
      var e := events[n];
      assert events[..n + 1][..n] == events[..n];
      if e.kind == StreamChunk && e.chunk.Some? {
        chunks := chunks + [e.chunk.value];
      }
      if e.kind == StreamEnd && e.chunk.Some? && e.chunk.value != "" {
        chunks := chunks + [e.chunk.value];
      }
    }
    assert events[..|events|] == events;
  }

  /** The recorder's check of an interaction's events. */
  method ValidateEvents(events: seq<Event>) returns (ok: bool)
    ensures ok <==> Orderly(events)
  {
    if |events| == 0 {
      return false;
    }
    ok := true;
    var lastSequence, lastT := 0, -1;
    var seen: set<int> := {};
    for n := 0 to |events|
      invariant ok ==> forall s :: s in seen <==> exists i :: 0 <= i < n && events[i].sequence == s
      invariant ok ==> lastSequence == (if n == 0 then 0 else events[n - 1].sequence)
      invariant ok ==> lastT == (if n == 0 then -1 else events[n - 1].t)
      invariant ok <==>
                && (forall i | 0 <= i < n :: events[i].sequence > 0 && events[i].t >= 0)
                && (forall i, j | 0 <= i < j < n :: events[i].sequence < events[j].sequence && events[i].t <= events[j].t)
    {
      var e := events[n];
      if e.sequence in seen || e.sequence <= lastSequence || e.t < lastT || e.sequence <= 0 || e.t < 0 {
        ok := false;
      }
      seen, lastSequence, lastT := seen + {e.sequence}, e.sequence, e.t;
    }
    if !IsTerminal(events[|events| - 1].kind) {
      ok := false;
    }
  }

  datatype Interaction = Interaction(sequence: nat, elapsed: int, events: seq<Event>)

  /** The capture buffer numbers interactions as they come. */
  class CaptureBuffer {
    var nextSequence: nat
    var interactions: seq<Interaction>

    ghost predicate Valid()
      reads this
    {
      nextSequence == |interactions| + 1 && forall i | 0 <= i < |interactions| :: interactions[i].sequence == i + 1
    }

    constructor ()
      ensures Valid() && interactions == []
    {
      nextSequence, interactions := 1, [];
    }

    method RecordStreamResponse(parse: Parser, raw: string, elapsed: int) returns (x: Interaction)
      requires Valid()
      modifies this
      ensures Valid()
      ensures x == Interaction(old(nextSequence), elapsed, Recorded(parse, raw, elapsed))
      ensures interactions == old(interactions) + [x]
    {
      var stream := BuildStreamEvents(parse, raw, elapsed);
      var events := [Event(1, 0, RequestSent, None, None), Event(2, elapsed, ResponseReceived, None, None)];
      x := Interaction(nextSequence, elapsed, events + stream);
      nextSequence := nextSequence + 1;
      interactions := interactions + [x];
    }
  }
}
