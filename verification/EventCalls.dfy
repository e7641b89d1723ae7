/** What AdvanceTime and PullDue do when nothing comes in between, said over the fields of the rows:
    when they succeed, which events they hand out and in which order, and what the tables are then. */
module EventCalls {
  import opened EventQueue
  import opened EventStore
  import opened Results
  import opened Sorting
  import opened Text

  /** A pending row of this session and mode whose time has come. */
  ghost predicate Ripe(events: map<string, Event>, k: string, session: string, mode: Mode, at: int) {
    && k in events && events[k].delivered == None
    && events[k].session == session && events[k].mode == mode && events[k].due <= at
  }

  /** Exactly the ripe rows are handed out, stamped, by due time and then by id, and they are the rows
      that change. */
  ghost predicate HandsOut(
    events: map<string, Event>, session: string, mode: Mode, at: int, out: seq<Event>, left: map<string, Event>)
  {
    && (forall e: Event :: e in out <==>
          Ripe(events, e.id, session, mode, at) && e == events[e.id].(delivered := Some(at)))
    && (forall i, j | 0 <= i < j < |out| ::
          out[i].due < out[j].due || (out[i].due == out[j].due && out[i].id != out[j].id && StrLe(out[i].id, out[j].id)))
    && left.Keys == events.Keys
    && (forall k | k in events ::
          left[k] == if Ripe(events, k, session, mode, at) then events[k].(delivered := Some(at)) else events[k])
  }

  lemma ListedIsRipe(events: map<string, Event>, session: string, mode: Mode, at: int, e: Event)
    requires Keyed(events)
    ensures e in Listing(events, session, mode, at) <==> Ripe(events, e.id, session, mode, at) && e == events[e.id]
  {
    ListingIs(events, session, mode, at);
  }

  lemma ListingOrder(events: map<string, Event>, session: string, mode: Mode, at: int, i: nat, j: nat)
    requires Keyed(events) && i < j < |Listing(events, session, mode, at)|
    ensures
      var a, b := Listing(events, session, mode, at)[i], Listing(events, session, mode, at)[j];
      a.due < b.due || (a.due == b.due && a.id != b.id && StrLe(a.id, b.id))
  {
    ListingIs(events, session, mode, at);
  }

  lemma ListedId(listed: seq<Event>, k: string)
    ensures k in Ids(listed) <==> exists e :: e in listed && e.id == k
  {
    if k in Ids(listed) {
      var i :| 0 <= i < |Ids(listed)| && Ids(listed)[i] == k;
      assert listed[i] in listed;
    }
    if e :| e in listed && e.id == k {
      var i :| 0 <= i < |listed| && listed[i] == e;
      IdsMember(listed, i);
    }
  }

  lemma RipeIsMarked(events: map<string, Event>, session: string, mode: Mode, at: int, k: string)
    requires Keyed(events) && k in events
    ensures k in Ids(Listing(events, session, mode, at)) <==> Ripe(events, k, session, mode, at)
  {
    var listed := Listing(events, session, mode, at);
    ListedId(listed, k);
    ListedIsRipe(events, session, mode, at, events[k]);
    if e :| e in listed && e.id == k {
      ListedIsRipe(events, session, mode, at, e);
    }
  }

  lemma StampedIsRipe(events: map<string, Event>, session: string, mode: Mode, at: int, e: Event)
    requires Keyed(events)
    ensures e in WithDeliveredAt(Listing(events, session, mode, at), at) <==>
            Ripe(events, e.id, session, mode, at) && e == events[e.id].(delivered := Some(at))
  {
    var listed := Listing(events, session, mode, at);
    var out := WithDeliveredAt(listed, at);
    if e in out {
      var i :| 0 <= i < |out| && out[i] == e;
      assert listed[i] in listed;
      ListedIsRipe(events, session, mode, at, listed[i]);
    }
    if Ripe(events, e.id, session, mode, at) && e == events[e.id].(delivered := Some(at)) {
      ListedIsRipe(events, session, mode, at, events[e.id]);
      var i :| 0 <= i < |listed| && listed[i] == events[e.id];
      assert out[i] == e;
    }
  }

  lemma ListingHandsOut(events: map<string, Event>, session: string, mode: Mode, at: int)
    requires Keyed(events)
    ensures
      var listed := Listing(events, session, mode, at);
      HandsOut(events, session, mode, at, WithDeliveredAt(listed, at), Marked(events, Ids(listed), at))
  {
    var listed := Listing(events, session, mode, at);
    var out := WithDeliveredAt(listed, at);
    forall e: Event
      ensures e in out <==> Ripe(events, e.id, session, mode, at) && e == events[e.id].(delivered := Some(at))
    {
      StampedIsRipe(events, session, mode, at, e);
    }
    forall i, j | 0 <= i < j < |out|
      ensures out[i].due < out[j].due
              || (out[i].due == out[j].due && out[i].id != out[j].id && StrLe(out[i].id, out[j].id))
    {
      ListingOrder(events, session, mode, at, i, j);
    }
    forall k | k in events
      ensures k in Ids(listed) <==> Ripe(events, k, session, mode, at)
    {
      RipeIsMarked(events, session, mode, at, k);
    }
  }

  /** AdvanceTime succeeds exactly for a duration that is not negative, an existing session and a clock
      that does not land on the zero time.  It moves the clock by the duration and hands out the ripe
      push events; a call that fails changes nothing. */
  lemma AdvanceHandsOut(t: Tables, session: string, duration: int, now: int)
    requires Keyed(t.events)
    ensures
      var name, (t', p) := TrimSpace(session), Alone(t, Advance(session, duration, now));
      var at := (if name in t.clocks then t.clocks[name] else now) + duration;
      && (p.Done? <==> duration >= 0 && now != 0 && name != "" && name in t.sessions && at != 0)
      && (if p.Done? then
            && p.batch.session == name && p.batch.mode == Push && p.batch.at == at
            && t'.sessions == t.sessions && t'.clocks == t.clocks[name := at]
            && HandsOut(t.events, name, Push, at, p.batch.events, t'.events)
          else p == Failed && t' == t)
  {
    var name := TrimSpace(session);
    var at := (if name in t.clocks then t.clocks[name] else now) + duration;
    if duration >= 0 && now != 0 && name != "" && name in t.sessions && at != 0 {
      AdvanceAlone(t, session, duration, now);
      ListingHandsOut(t.events, name, Push, at);
    } else {
      TrimIdempotent(session);
    }
  }

  lemma PullAtClock(t: Tables, session: string, now: int)
    requires Keyed(t.events) && TrimSpace(session) != "" && TrimSpace(session) in t.clocks
    requires t.clocks[TrimSpace(session)] != 0
    ensures
      var name := TrimSpace(session);
      var at, due := t.clocks[name], Listing(t.events, name, Mode.Pull, t.clocks[name]);
      Alone(t, Call.Pull(session, now)) ==
        (t.(events := Marked(t.events, Ids(due), at)), Done(Batch(name, Mode.Pull, at, WithDeliveredAt(due, at))))
  {
    var name := TrimSpace(session);
    TrimIdempotent(session);
    DeliverIs(t, name, Mode.Pull, t.clocks[name]);
  }

  /** PullDue succeeds exactly if the session has a clock other than the zero time, or exists and gets
      one.  A clock that is there stays, and the ripe pull events are handed out; a call that fails
      changes nothing. */
  lemma PullHandsOut(t: Tables, session: string, now: int)
    requires Keyed(t.events)
    ensures
      var name, (t', p) := TrimSpace(session), Alone(t, Call.Pull(session, now));
      var at := if name in t.clocks then t.clocks[name] else now;
      && (p.Done? <==> name != "" && at != 0 && (name in t.clocks || name in t.sessions))
      && (if p.Done? then
            && p.batch.session == name && p.batch.mode == Mode.Pull && p.batch.at == at
            && t'.sessions == t.sessions && t'.clocks == t.clocks[name := at]
            && HandsOut(t.events, name, Mode.Pull, at, p.batch.events, t'.events)
          else p == Failed && t' == t)
  {
    var name := TrimSpace(session);
    var at := if name in t.clocks then t.clocks[name] else now;
    TrimIdempotent(session);
    if name != "" && at != 0 && (name in t.clocks || name in t.sessions) {
      ListingHandsOut(t.events, name, Mode.Pull, at);
      if name in t.clocks {
        PullAtClock(t, session, now);
        assert t.clocks[name := at] == t.clocks;
      } else {
        PullAlone(t, session, now);
      }
    }
  }

  /** An event enters the tables exactly if its session exists and it has a new id and a due time. */
  lemma ScheduleStores(s: System, e: Event)
    requires GoodId(e.id) && e.delivered == None
    ensures
      var s' := Next(s, Schedule(e));
      if e.id !in s.tables.events && !Blank(e.session) && e.session in s.tables.sessions && e.due != 0
      then s' == s.(tables := s.tables.(events := s.tables.events[e.id := e]))
      else s' == s
  {
  }

  /** A session that comes into being is there from then on; nothing else changes. */
  lemma SessionAdded(s: System, name: string)
    ensures
      var t, s' := s.tables, Next(s, CreateSession(name));
      && s'.tables == Tables(t.sessions + {name}, t.clocks, t.events) && s'.procs == s.procs
  {
  }

  // ------------------------------------------------------- single transactions

  /** A clock that is there stays; a missing one is set to the time given. */
  lemma EnsureClockIff(t: Tables, session: string, now: int)
    ensures
      var r := EnsureClock(t, session, now);
      && (r.Ok? <==> !Blank(session) && now != 0 && session in t.sessions)
      && (r == Err(NotFound) <==> !Blank(session) && now != 0 && session !in t.sessions)
      && (r.Ok? && session in t.clocks ==> r.value == (t, t.clocks[session]))
      && (r.Ok? && session !in t.clocks ==> r.value == (Tables(t.sessions, t.clocks[session := now], t.events), now))
  {
  }

  /** A clock moves from where it stands, or from the initial time, never back and never to no time. */
  lemma AdvanceClockIff(t: Tables, session: string, step: int, initial: int)
    ensures
      var name, r := TrimSpace(session), AdvanceClock(t, session, step, initial);
      var at := step + if name in t.clocks then t.clocks[name] else initial;
      && (r.Ok? <==> name != "" && step >= 0 && initial != 0 && name in t.sessions && at != 0)
      && (r == Err(NotFound) <==> name != "" && step >= 0 && initial != 0 && name !in t.sessions)
      && (r.Ok? ==> r.value == (Tables(t.sessions, t.clocks[name := at], t.events), at))
  {
  }

  lemma PutEventIff(t: Tables, e: Event)
    ensures
      var r := PutEvent(t, e);
      && (r.Ok? <==> !Blank(e.id) && !Blank(e.session) && e.due != 0 && e.session in t.sessions)
      && (r == Err(NotFound) <==> !Blank(e.id) && !Blank(e.session) && e.due != 0 && e.session !in t.sessions)
      && (r.Ok? ==> r.value == Tables(t.sessions, t.clocks, t.events[e.id := e]))
  {
  }
}
