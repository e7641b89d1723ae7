/** Which tool calls are open while a stream is captured, said over what its blocks contain, and what
    each block adds to the events. */
module StreamCalls {
  import opened Results
  import opened StreamLaws
  import opened Streams

  /** The block calls the tool with this index. */
  predicate CallsTool(parse: Parser, block: string, index: int) {
    parse(block).Choices? && exists i, j ::
      0 <= i < |parse(block).choices| && 0 <= j < |parse(block).choices[i].tools|
      && parse(block).choices[i].tools[j].index == index
  }

  /** The last finish reason given is "tool_calls". */
  predicate FinishesCalls(choices: seq<Choice>) {
    exists i :: 0 <= i < |choices| && choices[i].finish == "tool_calls"
                && forall j | i < j < |choices| :: choices[j].finish == ""
  }

  /** The block is the done mark, or finishes the tool calls. */
  predicate Closes(parse: Parser, block: string) {
    parse(block) == DoneMark || (parse(block).Choices? && FinishesCalls(parse(block).choices))
  }

  lemma {:induction false} FinishReasonIs(choices: seq<Choice>)
    ensures FinishReason(choices) == "tool_calls" <==> FinishesCalls(choices)
  {
    if choices != [] {
      var front, last := choices[..|choices| - 1], choices[|choices| - 1];
      if last.finish == "" {
        FinishReasonIs(front);
        if FinishesCalls(front) {
          var i :| 0 <= i < |front| && front[i].finish == "tool_calls"
                   && forall j | i < j < |front| :: front[j].finish == "";
          assert choices[i].finish == "tool_calls" && forall j | i < j < |choices| :: choices[j].finish == "";
        }
        if FinishesCalls(choices) {
          var i :| 0 <= i < |choices| && choices[i].finish == "tool_calls"
                   && forall j | i < j < |choices| :: choices[j].finish == "";
          assert front[i].finish == "tool_calls";
        }
      } else if FinishesCalls(choices) {
        var i :| 0 <= i < |choices| && choices[i].finish == "tool_calls"
                 && forall j | i < j < |choices| :: choices[j].finish == "";
        assert i == |choices| - 1;
      } else {
        assert choices[|choices| - 1].finish != "tool_calls";
      }
    }
  }

  lemma {:induction false} ToolsOpen(b: Building, tools: seq<Tool>, index: int)
    ensures IsOpen(CallTools(b, tools).open, index) <==>
            IsOpen(b.open, index) || exists j :: 0 <= j < |tools| && tools[j].index == index
  {
    if tools != [] {
      var front, last := tools[..|tools| - 1], tools[|tools| - 1];
      ToolsOpen(b, front, index);
      AssignOpens(CallTools(b, front).open, last);
      assert forall j | 0 <= j < |front| :: tools[j] == front[j];
    }
  }

  lemma {:induction false} ChoicesOpen(b: Building, choices: seq<Choice>, index: int)
    ensures IsOpen(CallChoices(b, choices).open, index) <==>
            || IsOpen(b.open, index)
            || exists i, j :: 0 <= i < |choices| && 0 <= j < |choices[i].tools| && choices[i].tools[j].index == index
  {
    if choices != [] {
      var front, last := choices[..|choices| - 1], choices[|choices| - 1];
      ChoicesOpen(b, front, index);
      ToolsOpen(CallChoices(b, front), last.tools, index);
      assert forall i | 0 <= i < |front| :: choices[i] == front[i];
    }
  }

  lemma BlockOpens(b: Building, parse: Parser, block: string, index: int)
    ensures IsOpen(AddBlock(b, parse, block).open, index) <==>
            !Closes(parse, block) && (IsOpen(b.open, index) || CallsTool(parse, block, index))
  {
    if parse(block).Choices? {
      var choices := parse(block).choices;
      FinishReasonIs(choices);
      ChoicesOpen(Put(b, StreamChunk, Some(block + GAP), None), choices, index);
    }
  }

  /** Some block calls the tool, and neither it nor a later one closes the calls. */
  ghost predicate CalledSince(parse: Parser, blocks: seq<string>, index: int) {
    exists i :: 0 <= i < |blocks| && CallsTool(parse, blocks[i], index)
                && forall j | i <= j < |blocks| :: !Closes(parse, blocks[j])
  }

  lemma CalledSinceStep(parse: Parser, blocks: seq<string>, block: string, index: int)
    ensures CalledSince(parse, blocks + [block], index) <==>
            !Closes(parse, block) && (CalledSince(parse, blocks, index) || CallsTool(parse, block, index))
  {
    var all, n := blocks + [block], |blocks|;
    if CalledSince(parse, blocks, index) && !Closes(parse, block) {
      var i :| 0 <= i < n && CallsTool(parse, blocks[i], index) && forall j | i <= j < n :: !Closes(parse, blocks[j]);
      assert CallsTool(parse, all[i], index) && forall j | i <= j < n :: all[j] == blocks[j];
    }
    if CallsTool(parse, block, index) && !Closes(parse, block) {
      assert CallsTool(parse, all[n], index);
    }
    if CalledSince(parse, all, index) {
      var i :| 0 <= i < n + 1 && CallsTool(parse, all[i], index) && forall j | i <= j < n + 1 :: !Closes(parse, all[j]);
      assert !Closes(parse, all[n]);
      if i < n {
        assert CallsTool(parse, blocks[i], index) && forall j | i <= j < n :: blocks[j] == all[j];
      }
    }
  }

  /** A tool call is open exactly if some block has called the tool and neither that block nor a later
      one has finished the calls or the stream. */
  lemma {:induction false} OpenIff(parse: Parser, blocks: seq<string>, t: int, index: int)
    ensures IsOpen(AddBlocks(parse, blocks, t).open, index) <==> CalledSince(parse, blocks, index)
  {
    if blocks != [] {
      var front, last := blocks[..|blocks| - 1], blocks[|blocks| - 1];
      assert blocks == front + [last];
      OpenIff(parse, front, t, index);
      BlockOpens(AddBlocks(parse, front, t), parse, last, index);
      CalledSinceStep(parse, front, last, index);
    }
  }

  // ------------------------------------------------------------- one block's events

  lemma {:induction false} CloseAdds(b: Building, n: nat)
    requires n <= |b.open|
    ensures
      var events := CloseTools(b, n).events;
      && |events| == |b.events| + n && events[..|b.events|] == b.events
      && forall i | 0 <= i < n :: events[|b.events| + i]
                                  == Event(3 + |b.events| + i, b.t, ToolEnd, None, Some(b.open[i]))
    ensures CloseTools(b, n).t == b.t && CloseTools(b, n).open == b.open
  {
    if n > 0 {
      CloseAdds(b, n - 1);
    }
  }

  /** A done mark ends the open calls in order and then the stream, all at the present time. */
  lemma DoneAdds(b: Building, parse: Parser, block: string)
    requires parse(block) == DoneMark
    ensures
      var b', n := AddBlock(b, parse, block), |b.events|;
      && |b'.events| == n + |b.open| + 1 && b'.events[..n] == b.events && b'.open == [] && b'.t == b.t
      && (forall i | 0 <= i < |b.open| ::
            b'.events[n + i] == Event(3 + n + i, b.t, ToolEnd, None, Some(b.open[i])))
      && b'.events[n + |b.open|] == Event(3 + n + |b.open|, b.t, StreamEnd, Some(block + "\n\n"), None)
  {
    CloseAdds(b, |b.open|);
    var closed := CloseAll(b);
    assert AddBlock(b, parse, block).events[..|closed.events|] == closed.events;
  }

  lemma {:induction false} ToolsAdd(b: Building, tools: seq<Tool>)
    ensures b.events <= CallTools(b, tools).events && CallTools(b, tools).t == b.t
  {
    if tools != [] {
      ToolsAdd(b, tools[..|tools| - 1]);
    }
  }

  lemma {:induction false} ChoicesAdd(b: Building, choices: seq<Choice>)
    ensures b.events <= CallChoices(b, choices).events && CallChoices(b, choices).t == b.t
  {
    if choices != [] {
      ChoicesAdd(b, choices[..|choices| - 1]);
      ToolsAdd(CallChoices(b, choices[..|choices| - 1]), choices[|choices| - 1].tools);
    }
  }

  /** Any other block comes first as a chunk, and the next block is one tick later. */
  lemma ChunkAdds(b: Building, parse: Parser, block: string)
    requires parse(block) != DoneMark
    ensures
      var b' := AddBlock(b, parse, block);
      && b.events + [Event(3 + |b.events|, b.t, StreamChunk, Some(block + "\n\n"), None)] <= b'.events
      && b'.t == b.t + 1
      && (parse(block).Raw? ==> |b'.events| == |b.events| + 1)
  {
    if parse(block).Choices? {
      var put := Put(b, StreamChunk, Some(block + GAP), None);
      ChoicesAdd(put, parse(block).choices);
      var called := CallChoices(put, parse(block).choices);
      CloseAdds(called, |called.open|);
      assert called.events <= CloseAll(called).events;
    }
  }

  /** A stream that nothing ended is ended once all its blocks are in. */
  lemma EndedOnce(parse: Parser, raw: string, t: int)
    ensures
      var blocks := Blocks(Split(raw));
      var b := AddBlocks(parse, blocks, t);
      StreamEvents(parse, raw, t)
      == if exists i :: 0 <= i < |blocks| && parse(blocks[i]) == DoneMark then b.events
         else b.events + [Event(3 + |b.events|, b.t, StreamEnd, Some(""), None)]
  {
    BlocksKinds(parse, Blocks(Split(raw)), t);
  }
}
