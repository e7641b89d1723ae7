/** What the tool calls of a block do to the events and to the table of open calls, all of them at once. */
module StreamTools {
  import opened Results
  import opened StreamCalls
  import opened StreamLaws
  import opened Streams

  predicate Named(tools: seq<Tool>, index: int) {
    exists i :: 0 <= i < |tools| && tools[i].index == index
  }

  /** The calls that start something: the first of each index that is not open. */
  function Starting(open: seq<Tool>, calls: seq<Tool>): seq<Tool> {
    if calls == [] then []
    else
      var front, last := calls[..|calls| - 1], calls[|calls| - 1];
      Starting(open, front) + if Named(open, last.index) || Named(front, last.index) then [] else [last]
  }

  /** The last of the calls with this index, or what was there. */
  function Newest(calls: seq<Tool>, was: Tool): (now: Tool)
    ensures now.index == was.index
  {
    if calls == [] then was
    else if calls[|calls| - 1].index == was.index then calls[|calls| - 1]
    else Newest(calls[..|calls| - 1], was)
  }

  function Renewed(open: seq<Tool>, calls: seq<Tool>): seq<Tool> {
    seq(|open|, i requires 0 <= i < |open| => Newest(calls, open[i]))
  }

  /** One event of the kind for each tool, numbered on from n. */
  function EventsFor(kind: Kind, n: nat, t: int, tools: seq<Tool>): seq<Event> {
    seq(|tools|, i requires 0 <= i < |tools| => Event(3 + n + i, t, kind, None, Some(tools[i])))
  }

  lemma {:induction false} StartingNamed(open: seq<Tool>, calls: seq<Tool>, index: int)
    ensures Named(open + Starting(open, calls), index) <==> Named(open, index) || Named(calls, index)
  {
    var all := open + Starting(open, calls);
    if calls == [] {
      assert all == open;
    } else {
      var front, last := calls[..|calls| - 1], calls[|calls| - 1];
      StartingNamed(open, front, index);
      StartingNamed(open, front, last.index);
      assert calls == front + [last];
      NamedJoin(front, [last], index);
      NamedJoin(open + Starting(open, front), [last], index);
      assert Named([last], index) <==> last.index == index;
      StartingNext(open, front, last);
      if Named(open, last.index) || Named(front, last.index) {
        assert all == open + Starting(open, front);
      }
    }
  }

  lemma StartingNext(open: seq<Tool>, front: seq<Tool>, last: Tool)
    ensures open + Starting(open, front + [last])
            == open + Starting(open, front) + if Named(open, last.index) || Named(front, last.index) then [] else [last]
  {
    var calls, before := front + [last], Starting(open, front);
    assert calls[..|calls| - 1] == front;
    if Named(open, last.index) || Named(front, last.index) {
      assert Starting(open, calls) == before + [] && before + [] == before;
      assert open + before + [] == open + before;
    } else {
      assert open + (before + [last]) == open + before + [last];
    }
  }

  lemma NamedJoin(a: seq<Tool>, b: seq<Tool>, index: int)
    ensures Named(a + b, index) <==> Named(a, index) || Named(b, index)
  {
    if i :| 0 <= i < |a| && a[i].index == index {
      assert (a + b)[i] == a[i];
    }
    if i :| 0 <= i < |b| && b[i].index == index {
      assert (a + b)[|a| + i] == b[i];
    }
  }

  lemma {:induction false} StartingDistinct(open: seq<Tool>, calls: seq<Tool>)
    requires OneEach(open)
    ensures OneEach(open + Starting(open, calls))
  {
    if calls != [] {
      var front, last := calls[..|calls| - 1], calls[|calls| - 1];
      StartingDistinct(open, front);
      StartingNamed(open, front, last.index);
      assert calls == front + [last];
      StartingNext(open, front, last);
    } else {
      assert open + [] == open;
    }
  }

  lemma RenewedNamed(open: seq<Tool>, calls: seq<Tool>, index: int)
    ensures IsOpen(Renewed(open, calls), index) <==> Named(open, index)
  {
    forall i | 0 <= i < |open|
      ensures Renewed(open, calls)[i].index == open[i].index
    {
    }
  }

  lemma RenewedCons(x: Tool, rest: seq<Tool>, tool: Tool)
    ensures Renewed([x] + rest, [tool]) == [if x.index == tool.index then tool else x] + Renewed(rest, [tool])
  {
    OneNewest(tool, x);
  }

  lemma RenewedNone(rest: seq<Tool>, tool: Tool)
    requires !Named(rest, tool.index)
    ensures Renewed(rest, [tool]) == rest
  {
    forall i | 0 <= i < |rest|
      ensures Newest([tool], rest[i]) == rest[i]
    {
      OneNewest(tool, rest[i]);
    }
  }

  /** Assigning replaces the tool with the index, or adds one at the end. */
  lemma {:induction false} AssignIs(open: seq<Tool>, tool: Tool)
    requires OneEach(open)
    ensures Assign(open, tool) == if Named(open, tool.index) then Renewed(open, [tool]) else open + [tool]
  {
    if open != [] {
      var x, rest := open[0], open[1..];
      assert open == [x] + rest;
      NamedJoin([x], rest, tool.index);
      assert Named([x], tool.index) <==> x.index == tool.index;
      RenewedCons(x, rest, tool);
      if x.index == tool.index {
        RenewedNone(rest, tool);
      } else {
        AssignIs(rest, tool);
      }
    }
  }

  lemma OneNewest(tool: Tool, was: Tool)
    ensures Newest([tool], was) == if was.index == tool.index then tool else was
  {
    assert [tool][..0] == [];
  }

  lemma NewestNext(calls: seq<Tool>, tool: Tool, was: Tool)
    ensures Newest(calls + [tool], was) == Newest([tool], Newest(calls, was))
    ensures !Named(calls, was.index) ==> Newest(calls, was) == was
  {
    OneNewest(tool, Newest(calls, was));
    assert (calls + [tool])[..|calls|] == calls;
    if !Named(calls, was.index) {
      NoneNewest(calls, was);
    }
  }

  lemma {:induction false} NoneNewest(calls: seq<Tool>, was: Tool)
    requires !Named(calls, was.index)
    ensures Newest(calls, was) == was
  {
    if calls != [] {
      var front := calls[..|calls| - 1];
      forall i | 0 <= i < |front|
        ensures front[i].index != was.index
      {
        assert front[i] == calls[i];
      }
      NoneNewest(front, was);
    }
  }

  /** The events and the table after these calls. */
  function Called(b: Building, calls: seq<Tool>): Building {
    var starting := Starting(b.open, calls);
    Building(b.events + EventsFor(ToolStart, |b.events|, b.t, starting), Renewed(b.open + starting, calls), b.t)
  }

  lemma EventsNext(kind: Kind, n: nat, t: int, tools: seq<Tool>, last: Tool)
    ensures EventsFor(kind, n, t, tools + [last])
            == EventsFor(kind, n, t, tools) + [Event(3 + n + |tools|, t, kind, None, Some(last))]
  {
  }

  lemma AgainCalled(b: Building, front: seq<Tool>, last: Tool)
    requires OneEach(b.open + Starting(b.open, front))
    requires Named(b.open, last.index) || Named(front, last.index)
    ensures CallTool(Called(b, front), last) == Called(b, front + [last])
  {
    var s := Starting(b.open, front);
    StartingNamed(b.open, front, last.index);
    assert (front + [last])[..|front|] == front;
    assert Starting(b.open, front + [last]) == s + [] && s + [] == s;
    CalledIs(Called(b, front), b.open + s, front, last);
  }

  lemma SeqJoined<T>(a: seq<T>, b: seq<T>, c: seq<T>)
    ensures a + (b + c) == a + b + c
  {
  }

  lemma StartingOne(open: seq<Tool>, front: seq<Tool>, last: Tool)
    requires !Named(open, last.index) && !Named(front, last.index)
    ensures Starting(open, front + [last]) == Starting(open, front) + [last]
  {
    assert (front + [last])[..|front|] == front;
  }

  lemma FirstShape(b: Building, front: seq<Tool>, last: Tool, s: seq<Tool>, started: Event)
    requires Starting(b.open, front) == s && Starting(b.open, front + [last]) == s + [last]
    requires started == Event(3 + |b.events| + |s|, b.t, ToolStart, None, Some(last))
    ensures Called(b, front + [last])
            == Building(Called(b, front).events + [started], Renewed(b.open + s + [last], front + [last]), b.t)
  {
    SeqJoined(b.open, s, [last]);
    EventsNext(ToolStart, |b.events|, b.t, s, last);
    SeqJoined(b.events, EventsFor(ToolStart, |b.events|, b.t, s), [started]);
  }

  lemma FirstCalled(b: Building, front: seq<Tool>, last: Tool)
    requires OneEach(b.open + Starting(b.open, front))
    requires !Named(b.open, last.index) && !Named(front, last.index)
    ensures CallTool(Called(b, front), last) == Called(b, front + [last])
  {
    var s := Starting(b.open, front);
    StartingNamed(b.open, front, last.index);
    CalledIs(Called(b, front), b.open + s, front, last);
    StartingOne(b.open, front, last);
    FirstShape(b, front, last, s, Event(3 + |b.events| + |s|, b.t, ToolStart, None, Some(last)));
  }

  /** Calls give an event to each that starts something, and each open call gets the newest details. */
  lemma {:induction false} ToolsCalled(b: Building, calls: seq<Tool>)
    requires OneEach(b.open)
    ensures CallTools(b, calls) == Called(b, calls)
  {
    if calls == [] {
      assert b.open + [] == b.open && Renewed(b.open, []) == b.open;
    } else {
      var front, last := calls[..|calls| - 1], calls[|calls| - 1];
      ToolsCalled(b, front);
      StartingDistinct(b.open, front);
      assert calls == front + [last];
      if Named(b.open, last.index) || Named(front, last.index) {
        AgainCalled(b, front, last);
      } else {
        FirstCalled(b, front, last);
      }
    }
  }

  /** One more call. */
  lemma CalledIs(b: Building, all: seq<Tool>, front: seq<Tool>, last: Tool)
    requires OneEach(all) && b.open == Renewed(all, front)
    ensures
      CallTool(b, last)
      == if Named(all, last.index) then b.(open := Renewed(all, front + [last]))
         else Building(b.events + [Event(3 + |b.events|, b.t, ToolStart, None, Some(last))],
                       Renewed(all + [last], front + [last]), b.t)
  {
    assert CallTool(b, last).open == Assign(b.open, last);
    RenewedNamed(all, front, last.index);
    RenewedDistinct(all, front);
    AssignIs(b.open, last);
    if Named(all, last.index) {
      forall i | 0 <= i < |all|
        ensures Newest(front + [last], all[i]) == Newest([last], Newest(front, all[i]))
      {
        NewestNext(front, last, all[i]);
      }
      assert Renewed(b.open, [last]) == Renewed(all, front + [last]);
    } else {
      LastRenewed(all, front, last);
    }
  }

  lemma RenewedDistinct(open: seq<Tool>, calls: seq<Tool>)
    requires OneEach(open)
    ensures OneEach(Renewed(open, calls))
  {
  }

  lemma LastRenewed(all: seq<Tool>, front: seq<Tool>, last: Tool)
    requires !Named(all, last.index)
    ensures Renewed(all + [last], front + [last]) == Renewed(all, front) + [last]
  {
    var calls := front + [last];
    assert calls[..|front|] == front;
    forall i | 0 <= i < |all|
      ensures Newest(calls, all[i]) == Newest(front, all[i])
    {
      assert all[i].index != last.index;
    }
  }

  // -------------------------------------------------------------- whole blocks

  /** All calls of a block, choice by choice. */
  function Calls(choices: seq<Choice>): seq<Tool> {
    if choices == [] then [] else Calls(choices[..|choices| - 1]) + choices[|choices| - 1].tools
  }

  lemma {:induction false} CallsJoin(b: Building, some: seq<Tool>, more: seq<Tool>)
    ensures CallTools(CallTools(b, some), more) == CallTools(b, some + more)
  {
    if more == [] {
      assert some + more == some;
    } else {
      var front, last := more[..|more| - 1], more[|more| - 1];
      CallsJoin(b, some, front);
      assert (some + more)[..|some + more| - 1] == some + front;
    }
  }

  lemma {:induction false} ChoicesCall(b: Building, choices: seq<Choice>)
    ensures CallChoices(b, choices) == CallTools(b, Calls(choices))
  {
    if choices != [] {
      var front, last := choices[..|choices| - 1], choices[|choices| - 1];
      ChoicesCall(b, front);
      CallsJoin(b, Calls(front), last.tools);
    }
  }

  /** A block of choices adds its chunk and the starts of its new calls, all at the present time, and
      ends every call with its newest details if it finishes them. */
  lemma BlockCalls(b: Building, parse: Parser, block: string)
    requires OneEach(b.open) && parse(block).Choices?
    ensures
      var choices, n := parse(block).choices, |b.events| + 1;
      var calls := Calls(choices);
      var starting := Starting(b.open, calls);
      var open := Renewed(b.open + starting, calls);
      var events := b.events + [Event(2 + n, b.t, StreamChunk, Some(block + "\n\n"), None)]
                    + EventsFor(ToolStart, n, b.t, starting);
      AddBlock(b, parse, block)
      == if FinishesCalls(choices) then
           Building(events + EventsFor(ToolEnd, n + |starting|, b.t, open), [], b.t + 1)
         else Building(events, open, b.t + 1)
  {
    var choices := parse(block).choices;
    var put := Put(b, StreamChunk, Some(block + GAP), None);
    ChoicesCall(put, choices);
    ToolsCalled(put, Calls(choices));
    FinishReasonIs(choices);
    var called := Called(put, Calls(choices));
    CloseEvents(called);
    BlockGives(b, parse, block, called);
  }

  lemma BlockGives(b: Building, parse: Parser, block: string, called: Building)
    requires parse(block).Choices?
    requires called == CallChoices(Put(b, StreamChunk, Some(block + GAP), None), parse(block).choices)
    ensures AddBlock(b, parse, block)
            == (if FinishReason(parse(block).choices) == "tool_calls" then CloseAll(called) else called).(t := b.t + 1)
  {
  }

  lemma CloseEvents(b: Building)
    ensures CloseAll(b) == Building(b.events + EventsFor(ToolEnd, |b.events|, b.t, b.open), [], b.t)
  {
    CloseAdds(b, |b.open|);
    var events := CloseTools(b, |b.open|).events;
    assert events == events[..|b.events|] + events[|b.events|..];
    assert events[|b.events|..] == EventsFor(ToolEnd, |b.events|, b.t, b.open);
  }
}
