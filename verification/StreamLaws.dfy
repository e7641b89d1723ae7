/** What a captured stream keeps: its text, the order and pairing of its events, and the recorder's
    rules. */
module StreamLaws {
  import opened Results
  import opened Sorting
  import opened Streams

  // --------------------------------------------- the text that comes back

  lemma {:induction false} ExtractedAppend(a: seq<Event>, b: seq<Event>)
    ensures Extracted(a + b) == Extracted(a) + Extracted(b)
  {
    if b == [] {
      assert a + b == a;
    } else {
      assert (a + b)[..|a + b| - 1] == a + b[..|b| - 1];
      ExtractedAppend(a, b[..|b| - 1]);
    }
  }

  lemma PutExtracts(b: Building, kind: Kind, chunk: Option<string>, tool: Option<Tool>)
    ensures Extracted(Put(b, kind, chunk, tool).events)
            == Extracted(b.events) + ChunkOf(Event(3 + |b.events|, b.t, kind, chunk, tool))
  {
    var e := Event(3 + |b.events|, b.t, kind, chunk, tool);
    assert (b.events + [e])[..|b.events|] == b.events;
  }

  lemma ToolHasNoText(b: Building, kind: Kind, tool: Option<Tool>)
    requires kind == ToolStart || kind == ToolEnd
    ensures Extracted(Put(b, kind, None, tool).events) == Extracted(b.events)
  {
    PutExtracts(b, kind, None, tool);
    assert Extracted(b.events) + "" == Extracted(b.events);
  }

  lemma ChunkText(b: Building, kind: Kind, text: string)
    requires kind == StreamChunk || kind == StreamEnd
    ensures Extracted(Put(b, kind, Some(text), None).events) == Extracted(b.events) + text
  {
    PutExtracts(b, kind, Some(text), None);
  }

  lemma CloseExtracts(b: Building, n: nat)
    requires n <= |b.open|
    ensures Extracted(CloseTools(b, n).events) == Extracted(b.events)
  {
    for i := 0 to n
      invariant Extracted(CloseTools(b, i).events) == Extracted(b.events)
    {
      CloseOne(b, i + 1);
    }
  }

  lemma CloseOne(b: Building, n: nat)
    requires 0 < n <= |b.open|
    ensures Extracted(CloseTools(b, n).events) == Extracted(CloseTools(b, n - 1).events)
  {
    var closed, tool := CloseTools(b, n - 1), Some(b.open[n - 1]);
    assert CloseTools(b, n) == Put(closed, ToolEnd, None, tool);
    ToolHasNoText(closed, ToolEnd, tool);
  }

  lemma {:induction false} ToolsExtract(b: Building, tools: seq<Tool>)
    ensures Extracted(CallTools(b, tools).events) == Extracted(b.events)
  {
    if tools != [] {
      ToolsExtract(b, tools[..|tools| - 1]);
      ToolHasNoText(CallTools(b, tools[..|tools| - 1]), ToolStart, Some(tools[|tools| - 1]));
    }
  }

  lemma {:induction false} ChoicesExtract(b: Building, choices: seq<Choice>)
    ensures Extracted(CallChoices(b, choices).events) == Extracted(b.events)
  {
    if choices != [] {
      ChoicesExtract(b, choices[..|choices| - 1]);
      ToolsExtract(CallChoices(b, choices[..|choices| - 1]), choices[|choices| - 1].tools);
    }
  }

  lemma BlockExtracts(b: Building, parse: Parser, block: string)
    ensures Extracted(AddBlock(b, parse, block).events) == Extracted(b.events) + (block + GAP)
  {
    var text := block + GAP;
    match parse(block)
    case DoneMark =>
      CloseExtracts(b, |b.open|);
      ChunkText(CloseAll(b), StreamEnd, text);
    case Choices(choices) =>
      var put := Put(b, StreamChunk, Some(text), None);
      ChunkText(b, StreamChunk, text);
      ChoicesExtract(put, choices);
      CloseExtracts(CallChoices(put, choices), |CallChoices(put, choices).open|);
    case Raw =>
      ChunkText(b, StreamChunk, text);
  }

  lemma {:induction false} EndedSnoc(blocks: seq<string>, block: string)
    ensures Ended(blocks + [block]) == Ended(blocks) + (block + GAP)
  {
    if blocks == [] {
      assert [] + [block] == [block] && Ended([block][1..]) == "";
      assert Ended([block]) == block + GAP;
    } else {
      assert (blocks + [block])[1..] == blocks[1..] + [block];
      EndedSnoc(blocks[1..], block);
    }
  }

  lemma BlockEnds(parse: Parser, blocks: seq<string>, block: string, t: int)
    requires Extracted(AddBlocks(parse, blocks, t).events) == Ended(blocks)
    ensures Extracted(AddBlocks(parse, blocks + [block], t).events) == Ended(blocks + [block])
  {
    BlockExtracts(AddBlocks(parse, blocks, t), parse, block);
    EndedSnoc(blocks, block);
    assert (blocks + [block])[..|blocks|] == blocks;
  }

  /** The events of these blocks give back their text. */
  ghost predicate GivesBack(parse: Parser, t: int, blocks: seq<string>) {
    Extracted(AddBlocks(parse, blocks, t).events) == Ended(blocks)
  }

  lemma BlocksExtract(parse: Parser, blocks: seq<string>, t: int)
    ensures GivesBack(parse, t, blocks)
  {
    var p := (prefix: seq<string>) => GivesBack(parse, t, prefix);
    forall prefix, block | p(prefix)
      ensures p(prefix + [block])
    {
      BlockEnds(parse, prefix, block, t);
    }
    PrefixInduction(blocks, p);
  }

  /** Replaying a captured stream gives every block of the text that is not empty, ended by a blank
      line. */
  lemma ReplayGivesBlocks(parse: Parser, raw: string, t: int)
    ensures Extracted(StreamEvents(parse, raw, t)) == Ended(Blocks(Split(raw)))
  {
    var b := AddBlocks(parse, Blocks(Split(raw)), t);
    BlocksExtract(parse, Blocks(Split(raw)), t);
    ChunkText(b, StreamEnd, "");
  }

  // ------------------------------------------------ when it is the text itself

  ghost predicate NoGap(s: string) {
    forall j | 0 <= j && j + 1 < |s| :: !(s[j] == '\n' && s[j + 1] == '\n')
  }

  /** Pieces as splitting leaves them: no blank line inside, and no newline before a blank line. */
  ghost predicate PiecesOk(pieces: seq<string>) {
    && (forall i | 0 <= i < |pieces| :: NoGap(pieces[i]))
    && (forall i | 0 <= i < |pieces| - 1 :: pieces[i] != "" ==> pieces[i][|pieces[i]| - 1] != '\n')
  }

  lemma {:induction false} SplitOk(s: string)
    ensures PiecesOk(Split(s))
    decreases |s|
  {
    var i := FirstGap(s);
    if i < |s| {
      SplitOk(s[i + 2..]);
      var rest := Split(s[i + 2..]);
      assert NoGap(s[..i]);
      forall k | 0 <= k < |Split(s)|
        ensures NoGap(Split(s)[k])
        ensures k < |Split(s)| - 1 && Split(s)[k] != "" ==> Split(s)[k][|Split(s)[k]| - 1] != '\n'
      {
        if k > 0 {
          assert Split(s)[k] == rest[k - 1];
        }
      }
    }
  }

  /** All pieces but the last have text and the last is empty; or the last two are an empty piece and
      a lone newline, as splitting leaves them of five newlines, and all others have text. */
  ghost predicate Exact(pieces: seq<string>)
    requires pieces != []
  {
    var n := |pieces|;
    || (pieces[n - 1] == "" && forall i | 0 <= i < n - 1 :: pieces[i] != "")
    || (n >= 2 && pieces[n - 1] == "\n" && pieces[n - 2] == "" && forall i | 0 <= i < n - 2 :: pieces[i] != "")
  }

  function Total(pieces: seq<string>): nat {
    if pieces == [] then 0 else |pieces[0]| + Total(pieces[1..])
  }

  lemma {:induction false} Lengths(pieces: seq<string>)
    ensures |Ended(Blocks(pieces))| == Total(pieces) + 2 * |Blocks(pieces)|
    ensures |Blocks(pieces)| <= |pieces|
    ensures |Blocks(pieces)| == |pieces| ==> Blocks(pieces) == pieces
    ensures pieces != [] ==> |Join(pieces)| == Total(pieces) + 2 * (|pieces| - 1)
  {
    if pieces != [] {
      Lengths(pieces[1..]);
      EndedCons(pieces);
      if |pieces| == 1 {
        assert pieces[1..] == [];
      }
    }
  }

  lemma EndedCons(pieces: seq<string>)
    requires pieces != []
    ensures Ended(Blocks(pieces)) ==
            if pieces[0] == "" then Ended(Blocks(pieces[1..])) else pieces[0] + GAP + Ended(Blocks(pieces[1..]))
  {
    var rest := Blocks(pieces[1..]);
    if pieces[0] == "" {
      assert Blocks(pieces) == [] + rest == rest;
    } else {
      assert Blocks(pieces) == [pieces[0]] + rest;
      assert ([pieces[0]] + rest)[1..] == rest;
    }
  }

  /** After an empty piece the text only comes back if a lone newline is all that follows. */
  lemma AfterEmpty(rest: seq<string>)
    requires rest != [] && PiecesOk(rest)
    ensures Ended(Blocks(rest)) == GAP + Join(rest) <==> rest == ["\n"]
  {
    Lengths(rest);
    if Ended(Blocks(rest)) == GAP + Join(rest) {
      assert |GAP + Join(rest)| == 2 + |Join(rest)|;
      assert Blocks(rest) == rest;
      FirstText(rest);
    }
    if rest == ["\n"] {
      assert Blocks(rest[1..]) == [] && Blocks(rest) == ["\n"];
      assert Ended(["\n"][1..]) == "";
      assert Ended(["\n"]) == "\n" + GAP + "";
    }
  }

  lemma StartsWithGap(q: string, a: string, b: string)
    ensures q + a == GAP + b && |q| >= 2 ==> !NoGap(q)
  {
    if q + a == GAP + b && |q| >= 2 {
      assert (q + a)[0] == q[0] && (q + a)[1] == q[1];
      assert q[0] == '\n' && q[1] == '\n';
    }
  }

  lemma FirstText(rest: seq<string>)
    requires rest != [] && PiecesOk(rest) && Blocks(rest) == rest
    requires Ended(rest) == GAP + Join(rest)
    ensures rest == ["\n"]
  {
    var q := rest[0];
    assert q != "" by {
      BlocksHaveText(rest);
    }
    assert Ended(rest)[0] == q[0] == '\n';
    StartsWithGap(q, GAP + Ended(rest[1..]), Join(rest));
    assert q + (GAP + Ended(rest[1..])) == Ended(rest);
    assert NoGap(q);
    assert q == "\n";
  }

  lemma {:induction false} BlocksHaveText(pieces: seq<string>)
    ensures forall i | 0 <= i < |Blocks(pieces)| :: Blocks(pieces)[i] != ""
  {
    if pieces != [] {
      BlocksHaveText(pieces[1..]);
    }
  }

  lemma {:induction false} ExactIff(pieces: seq<string>)
    requires pieces != [] && PiecesOk(pieces)
    ensures Ended(Blocks(pieces)) == Join(pieces) <==> Exact(pieces)
  {
    var rest := pieces[1..];
    if rest == [] {
      assert Blocks(rest) == [];
    } else {
      assert PiecesOk(rest);
      EndedCons(pieces);
      if pieces[0] == "" {
        assert "" + GAP == GAP;
        AfterEmpty(rest);
        ExactEmpty(pieces);
      } else {
        ExactIff(rest);
        SamePrefix(pieces[0] + GAP, Ended(Blocks(rest)), Join(rest));
        ExactTail(pieces);
      }
    }
  }

  lemma ExactEmpty(pieces: seq<string>)
    requires |pieces| >= 2 && pieces[0] == ""
    ensures Exact(pieces) <==> pieces[1..] == ["\n"]
  {
    assert pieces == [pieces[0]] + pieces[1..];
    if pieces[1..] == ["\n"] {
      assert |pieces| == 2 && pieces[1] == "\n";
    }
  }

  lemma SamePrefix(p: string, a: string, b: string)
    ensures p + a == p + b <==> a == b
  {
    assert (p + a)[|p|..] == a && (p + b)[|p|..] == b;
  }

  lemma ExactTail(pieces: seq<string>)
    requires |pieces| >= 2 && pieces[0] != ""
    ensures Exact(pieces) <==> Exact(pieces[1..])
  {
    var rest := pieces[1..];
    assert forall i | 0 <= i < |rest| :: rest[i] == pieces[i + 1];
    if Exact(rest) {
      forall i | 0 <= i < |pieces| - 2
        ensures pieces[i] != "" || (rest[|rest| - 1] == "" && i == 0)
      {
        assert i > 0 ==> rest[i - 1] == pieces[i];
      }
    }
  }

  /** Capture and replay give back the text itself exactly when its pieces are of that form. */
  lemma ReplayIsText(parse: Parser, raw: string, t: int)
    ensures Extracted(StreamEvents(parse, raw, t)) == raw <==> Exact(Split(raw))
  {
    ReplayGivesBlocks(parse, raw, t);
    JoinSplit(raw);
    SplitOk(raw);
    ExactIff(Split(raw));
  }

  // ------------------------------------------------------- sequence and time

  /** Sequence numbers count from 3, times never go back and stay at or below the builder's. */
  ghost predicate InStep(b: Building, start: int) {
    && (forall i | 0 <= i < |b.events| :: b.events[i].sequence == 3 + i && start <= b.events[i].t <= b.t)
    && (forall i, j | 0 <= i < j < |b.events| :: b.events[i].t <= b.events[j].t)
    && start <= b.t
  }

  lemma PutInStep(b: Building, start: int, kind: Kind, chunk: Option<string>, tool: Option<Tool>)
    requires InStep(b, start)
    ensures InStep(Put(b, kind, chunk, tool), start)
  {
  }

  lemma {:induction false} CloseInStep(b: Building, start: int, n: nat)
    requires n <= |b.open| && InStep(b, start)
    ensures InStep(CloseTools(b, n), start) && CloseTools(b, n).t == b.t
  {
    if n > 0 {
      CloseInStep(b, start, n - 1);
      PutInStep(CloseTools(b, n - 1), start, ToolEnd, None, Some(b.open[n - 1]));
    }
  }

  lemma {:induction false} ToolsInStep(b: Building, start: int, tools: seq<Tool>)
    requires InStep(b, start)
    ensures InStep(CallTools(b, tools), start) && CallTools(b, tools).t == b.t
  {
    if tools != [] {
      var front, last := tools[..|tools| - 1], tools[|tools| - 1];
      ToolsInStep(b, start, front);
      PutInStep(CallTools(b, front), start, ToolStart, None, Some(last));
    }
  }

  lemma {:induction false} ChoicesInStep(b: Building, start: int, choices: seq<Choice>)
    requires InStep(b, start)
    ensures InStep(CallChoices(b, choices), start) && CallChoices(b, choices).t == b.t
  {
    if choices != [] {
      ChoicesInStep(b, start, choices[..|choices| - 1]);
      ToolsInStep(CallChoices(b, choices[..|choices| - 1]), start, choices[|choices| - 1].tools);
    }
  }

  lemma BlockInStep(b: Building, start: int, parse: Parser, block: string)
    requires InStep(b, start)
    ensures InStep(AddBlock(b, parse, block), start)
  {
    var chunk := Some(block + GAP);
    PutInStep(b, start, StreamChunk, chunk, None);
    match parse(block)
    case DoneMark =>
      CloseInStep(b, start, |b.open|);
      PutInStep(CloseAll(b), start, StreamEnd, chunk, None);
    case Choices(choices) =>
      var called := CallChoices(Put(b, StreamChunk, chunk, None), choices);
      ChoicesInStep(Put(b, StreamChunk, chunk, None), start, choices);
      CloseInStep(called, start, |called.open|);
    case Raw =>
  }

  lemma {:induction false} BlocksInStep(parse: Parser, blocks: seq<string>, t: int)
    ensures InStep(AddBlocks(parse, blocks, t), t)
  {
    if blocks != [] {
      BlocksInStep(parse, blocks[..|blocks| - 1], t);
      BlockInStep(AddBlocks(parse, blocks[..|blocks| - 1], t), t, parse, blocks[|blocks| - 1]);
    }
  }

  // ------------------------------------------------------------- tool calls

  /** Whether the tool call with this index is open after these events: None if a start came while
      it was open or an end while it was not. */
  function Track(events: seq<Event>, index: int): Option<bool> {
    if events == [] then Some(false)
    else
      var before, e := Track(events[..|events| - 1], index), events[|events| - 1];
      if before.None? || e.tool.None? || e.tool.value.index != index then before
      else if e.kind == ToolStart then if before.value then None else Some(true)
      else if e.kind == ToolEnd then if before.value then Some(false) else None
      else before
  }

  ghost predicate OneEach(open: seq<Tool>) {
    forall i, j | 0 <= i < j < |open| :: open[i].index != open[j].index
  }

  /** The events agree with the table of open tool calls. */
  ghost predicate Tracked(events: seq<Event>, open: seq<Tool>) {
    OneEach(open) && forall index :: Track(events, index) == Some(IsOpen(open, index))
  }

  lemma {:induction false} AssignOpens(open: seq<Tool>, tool: Tool)
    ensures forall index :: IsOpen(Assign(open, tool), index) <==> IsOpen(open, index) || index == tool.index
    ensures OneEach(open) ==> OneEach(Assign(open, tool))
  {
    if open != [] {
      var rest := open[1..];
      AssignOpens(rest, tool);
      forall index
        ensures IsOpen(open, index) <==> open[0].index == index || IsOpen(rest, index)
      {
        OpenCons(open, index);
      }
      forall index
        ensures IsOpen(Assign(open, tool), index) <==> IsOpen(open, index) || index == tool.index
      {
        OpenCons(Assign(open, tool), index);
      }
      if OneEach(open) {
        assert OneEach(rest);
        if open[0].index != tool.index {
          assert !IsOpen(rest, open[0].index);
          assert !IsOpen(Assign(rest, tool), open[0].index);
        }
      }
    } else {
      assert Assign(open, tool) == [tool] && [tool][0].index == tool.index;
    }
  }

  lemma OpenCons(open: seq<Tool>, index: int)
    requires open != []
    ensures IsOpen(open, index) <==> open[0].index == index || IsOpen(open[1..], index)
  {
    var rest := open[1..];
    if IsOpen(rest, index) {
      var i :| 0 <= i < |rest| && rest[i].index == index;
      assert open[i + 1].index == index;
    }
    if IsOpen(open, index) && open[0].index != index {
      var i :| 0 <= i < |open| && open[i].index == index;
      assert rest[i - 1].index == index;
    }
  }

  lemma PutTracks(b: Building, kind: Kind, chunk: Option<string>, tool: Option<Tool>, index: int)
    ensures Track(Put(b, kind, chunk, tool).events, index) ==
            var before := Track(b.events, index);
            if before.None? || tool.None? || tool.value.index != index then before
            else if kind == ToolStart then if before.value then None else Some(true)
            else if kind == ToolEnd then if before.value then Some(false) else None
            else before
  {
    var e := Event(3 + |b.events|, b.t, kind, chunk, tool);
    assert (b.events + [e])[..|b.events|] == b.events;
  }

  lemma ToolTracked(b: Building, tool: Tool)
    requires Tracked(b.events, b.open)
    ensures Tracked(CallTool(b, tool).events, CallTool(b, tool).open)
  {
    AssignOpens(b.open, tool);
    forall index
      ensures Track(CallTool(b, tool).events, index) == Some(IsOpen(Assign(b.open, tool), index))
    {
      PutTracks(b, ToolStart, None, Some(tool), index);
    }
  }

  lemma {:induction false} ToolsTracked(b: Building, tools: seq<Tool>)
    requires Tracked(b.events, b.open)
    ensures Tracked(CallTools(b, tools).events, CallTools(b, tools).open)
  {
    if tools != [] {
      ToolsTracked(b, tools[..|tools| - 1]);
      ToolTracked(CallTools(b, tools[..|tools| - 1]), tools[|tools| - 1]);
    }
  }

  lemma {:induction false} ChoicesTracked(b: Building, choices: seq<Choice>)
    requires Tracked(b.events, b.open)
    ensures Tracked(CallChoices(b, choices).events, CallChoices(b, choices).open)
  {
    if choices != [] {
      ChoicesTracked(b, choices[..|choices| - 1]);
      ToolsTracked(CallChoices(b, choices[..|choices| - 1]), choices[|choices| - 1].tools);
    }
  }

  lemma OpenDrop(open: seq<Tool>, n: nat, index: int)
    requires n < |open| && OneEach(open)
    ensures IsOpen(open[n + 1..], index) <==> IsOpen(open[n..], index) && index != open[n].index
  {
    OpenCons(open[n..], index);
    assert open[n..][1..] == open[n + 1..];
    if IsOpen(open[n + 1..], index) {
      var i :| 0 <= i < |open[n + 1..]| && open[n + 1..][i].index == index;
      assert open[n + 1 + i].index == index;
    }
  }

  lemma {:induction false} CloseTracks(b: Building, n: nat, index: int)
    requires n <= |b.open| && Tracked(b.events, b.open)
    ensures Track(CloseTools(b, n).events, index) == Some(IsOpen(b.open[n..], index))
  {
    if n == 0 {
      assert b.open[0..] == b.open;
    } else {
      CloseTracks(b, n - 1, index);
      var closed := CloseTools(b, n - 1);
      PutTracks(closed, ToolEnd, None, Some(b.open[n - 1]), index);
      OpenDrop(b.open, n - 1, index);
      OpenCons(b.open[n - 1..], index);
      assert CloseTools(b, n) == Put(closed, ToolEnd, None, Some(b.open[n - 1]));
    }
  }

  lemma AllClosed(b: Building)
    requires Tracked(b.events, b.open)
    ensures Tracked(CloseAll(b).events, [])
  {
    forall index
      ensures Track(CloseAll(b).events, index) == Some(IsOpen([], index))
    {
      CloseTracks(b, |b.open|, index);
      assert b.open[|b.open|..] == [];
    }
  }

  lemma ChunkTracked(b: Building, kind: Kind, chunk: Option<string>)
    requires Tracked(b.events, b.open)
    ensures Tracked(Put(b, kind, chunk, None).events, b.open)
  {
    forall index
      ensures Track(Put(b, kind, chunk, None).events, index) == Track(b.events, index)
    {
      PutTracks(b, kind, chunk, None, index);
    }
  }

  lemma BlockTracked(b: Building, parse: Parser, block: string)
    requires Tracked(b.events, b.open)
    ensures Tracked(AddBlock(b, parse, block).events, AddBlock(b, parse, block).open)
  {
    var chunk := Some(block + GAP);
    match parse(block)
    case DoneMark =>
      AllClosed(b);
      ChunkTracked(CloseAll(b), StreamEnd, chunk);
    case Choices(choices) =>
      var put := Put(b, StreamChunk, chunk, None);
      ChunkTracked(b, StreamChunk, chunk);
      ChoicesTracked(put, choices);
      AllClosed(CallChoices(put, choices));
    case Raw =>
      ChunkTracked(b, StreamChunk, chunk);
  }

  /** At every moment, for every tool index, starts and ends alternate beginning with a start, and
      the call is open exactly if the table of open calls says so. */
  lemma {:induction false} ToolsAlternate(parse: Parser, blocks: seq<string>, t: int)
    ensures
      var b := AddBlocks(parse, blocks, t);
      Tracked(b.events, b.open)
  {
    if blocks != [] {
      ToolsAlternate(parse, blocks[..|blocks| - 1], t);
      BlockTracked(AddBlocks(parse, blocks[..|blocks| - 1], t), parse, blocks[|blocks| - 1]);
    } else {
      assert forall index :: !IsOpen([], index);
    }
  }

  /** After a done mark no tool call is open. */
  lemma DoneClosesTools(parse: Parser, blocks: seq<string>, t: int, index: int)
    requires blocks != [] && parse(blocks[|blocks| - 1]) == DoneMark
    ensures Track(AddBlocks(parse, blocks, t).events, index) == Some(false)
  {
    ToolsAlternate(parse, blocks, t);
  }

  // ------------------------------------------------------------ the last event

  predicate EndsStream(events: seq<Event>) {
    events != [] && events[|events| - 1].kind == StreamEnd
  }

  lemma {:induction false} CloseKinds(b: Building, n: nat)
    requires n <= |b.open|
    ensures HasEnd(CloseTools(b, n).events) == HasEnd(b.events)
    ensures n > 0 || !EndsStream(b.events) ==> !EndsStream(CloseTools(b, n).events)
    ensures |CloseTools(b, n).events| >= |b.events|
  {
    if n > 0 {
      CloseKinds(b, n - 1);
      PutKind(CloseTools(b, n - 1), ToolEnd, None, Some(b.open[n - 1]));
    }
  }

  lemma PutKind(b: Building, kind: Kind, chunk: Option<string>, tool: Option<Tool>)
    ensures
      var b' := Put(b, kind, chunk, tool);
      HasEnd(b'.events) == (HasEnd(b.events) || kind == StreamEnd) && EndsStream(b'.events) == (kind == StreamEnd)
  {
    var b' := Put(b, kind, chunk, tool);
    assert b'.events[|b.events|].kind == kind;
    if HasEnd(b.events) {
      var i :| 0 <= i < |b.events| && b.events[i].kind == StreamEnd;
      assert b'.events[i].kind == StreamEnd;
    }
  }

  lemma {:induction false} ToolsKinds(b: Building, tools: seq<Tool>)
    requires !EndsStream(b.events)
    ensures HasEnd(CallTools(b, tools).events) == HasEnd(b.events) && !EndsStream(CallTools(b, tools).events)
  {
    if tools != [] {
      ToolsKinds(b, tools[..|tools| - 1]);
      PutKind(CallTools(b, tools[..|tools| - 1]), ToolStart, None, Some(tools[|tools| - 1]));
    }
  }

  lemma {:induction false} ChoicesKinds(b: Building, choices: seq<Choice>)
    requires !EndsStream(b.events)
    ensures HasEnd(CallChoices(b, choices).events) == HasEnd(b.events) && !EndsStream(CallChoices(b, choices).events)
  {
    if choices != [] {
      ChoicesKinds(b, choices[..|choices| - 1]);
      ToolsKinds(CallChoices(b, choices[..|choices| - 1]), choices[|choices| - 1].tools);
    }
  }

  lemma BlockKinds(b: Building, parse: Parser, block: string)
    ensures
      var b', done := AddBlock(b, parse, block), parse(block) == DoneMark;
      HasEnd(b'.events) == (HasEnd(b.events) || done) && EndsStream(b'.events) == done
  {
    var chunk := Some(block + GAP);
    PutKind(b, StreamChunk, chunk, None);
    match parse(block)
    case DoneMark =>
      CloseKinds(b, |b.open|);
      PutKind(CloseAll(b), StreamEnd, chunk, None);
    case Choices(choices) =>
      var put := Put(b, StreamChunk, chunk, None);
      ChoicesKinds(put, choices);
      CloseKinds(CallChoices(put, choices), |CallChoices(put, choices).open|);
    case Raw =>
  }

  predicate IsDone(parse: Parser, blocks: seq<string>) {
    exists i :: 0 <= i < |blocks| && parse(blocks[i]) == DoneMark
  }

  lemma {:induction false} BlocksKinds(parse: Parser, blocks: seq<string>, t: int)
    ensures
      var b := AddBlocks(parse, blocks, t);
      && HasEnd(b.events) == IsDone(parse, blocks)
      && EndsStream(b.events) == (blocks != [] && parse(blocks[|blocks| - 1]) == DoneMark)
  {
    if blocks != [] {
      var front, last := blocks[..|blocks| - 1], blocks[|blocks| - 1];
      BlocksKinds(parse, front, t);
      BlockKinds(AddBlocks(parse, front, t), parse, last);
      assert forall i | 0 <= i < |front| :: front[i] == blocks[i];
      if IsDone(parse, blocks) && parse(last) != DoneMark {
        var i :| 0 <= i < |blocks| && parse(blocks[i]) == DoneMark;
        assert parse(front[i]) == DoneMark;
      }
    }
  }

  // ------------------------------------------------------- the recorder's rules

  predicate IsTerminal(kind: Kind) {
    kind == ResponseReceived || kind == Failure || kind == Timeout || kind == StreamEnd
  }

  /** The rules the recorder has for the events of an interaction. */
  ghost predicate Orderly(events: seq<Event>) {
    && events != []
    && (forall i | 0 <= i < |events| :: events[i].sequence > 0 && events[i].t >= 0)
    && (forall i, j | 0 <= i < j < |events| :: events[i].sequence < events[j].sequence && events[i].t <= events[j].t)
    && IsTerminal(events[|events| - 1].kind)
  }

  /** What is recorded for a streamed response: the request, the response, then the stream. */
  function Recorded(parse: Parser, raw: string, elapsed: int): seq<Event> {
    [Event(1, 0, RequestSent, None, None), Event(2, elapsed, ResponseReceived, None, None)]
    + StreamEvents(parse, raw, elapsed)
  }

  /** The recorder accepts the events exactly if there is no done mark or the last block is one. */
  lemma RecordedOrderlyIff(parse: Parser, raw: string, elapsed: int)
    requires elapsed >= 0
    ensures
      var blocks := Blocks(Split(raw));
      Orderly(Recorded(parse, raw, elapsed)) <==>
      !IsDone(parse, blocks) || parse(blocks[|blocks| - 1]) == DoneMark
  {
    var blocks := Blocks(Split(raw));
    var b := AddBlocks(parse, blocks, elapsed);
    BlocksInStep(parse, blocks, elapsed);
    BlocksKinds(parse, blocks, elapsed);
    if HasEnd(b.events) {
      RecordedOrder(b, elapsed);
      LastKind(b, parse, blocks, elapsed);
    } else {
      var ended := Put(b, StreamEnd, Some(""), None);
      PutInStep(b, elapsed, StreamEnd, Some(""), None);
      PutKind(b, StreamEnd, Some(""), None);
      RecordedOrder(ended, elapsed);
    }
  }

  lemma RecordedOrder(b: Building, elapsed: int)
    requires elapsed >= 0 && InStep(b, elapsed) && b.events != []
    ensures
      var head := [Event(1, 0, RequestSent, None, None), Event(2, elapsed, ResponseReceived, None, None)];
      Orderly(head + b.events) <==> IsTerminal(b.events[|b.events| - 1].kind)
  {
    var head := [Event(1, 0, RequestSent, None, None), Event(2, elapsed, ResponseReceived, None, None)];
    var all := head + b.events;
    assert all[|all| - 1] == b.events[|b.events| - 1];
    assert forall i | 2 <= i < |all| :: all[i] == b.events[i - 2];
  }

  /** Only a stream end is terminal among the events a block adds. */
  lemma LastKind(b: Building, parse: Parser, blocks: seq<string>, t: int)
    requires b == AddBlocks(parse, blocks, t)
    ensures b.events != [] ==> (IsTerminal(b.events[|b.events| - 1].kind) <==> EndsStream(b.events))
  {
    BlocksMade(parse, blocks, t);
  }

  predicate Made(events: seq<Event>) {
    forall i | 0 <= i < |events| ::
      || events[i].kind == StreamChunk || events[i].kind == StreamEnd
      || events[i].kind == ToolStart || events[i].kind == ToolEnd
  }

  lemma {:induction false} CloseMade(b: Building, n: nat)
    requires n <= |b.open| && Made(b.events)
    ensures Made(CloseTools(b, n).events)
  {
    if n > 0 {
      CloseMade(b, n - 1);
    }
  }

  lemma {:induction false} ToolsMade(b: Building, tools: seq<Tool>)
    requires Made(b.events)
    ensures Made(CallTools(b, tools).events)
  {
    if tools != [] {
      ToolsMade(b, tools[..|tools| - 1]);
    }
  }

  lemma {:induction false} ChoicesMade(b: Building, choices: seq<Choice>)
    requires Made(b.events)
    ensures Made(CallChoices(b, choices).events)
  {
    if choices != [] {
      ChoicesMade(b, choices[..|choices| - 1]);
      ToolsMade(CallChoices(b, choices[..|choices| - 1]), choices[|choices| - 1].tools);
    }
  }

  lemma {:induction false} BlocksMade(parse: Parser, blocks: seq<string>, t: int)
    ensures Made(AddBlocks(parse, blocks, t).events)
  {
    if blocks != [] {
      var b, block := AddBlocks(parse, blocks[..|blocks| - 1], t), blocks[|blocks| - 1];
      BlocksMade(parse, blocks[..|blocks| - 1], t);
      CloseMade(b, |b.open|);
      if parse(block).Choices? {
        var put := Put(b, StreamChunk, Some(block + GAP), None);
        ChoicesMade(put, parse(block).choices);
        CloseMade(CallChoices(put, parse(block).choices), |CallChoices(put, parse(block).choices).open|);
      }
    }
  }
}
