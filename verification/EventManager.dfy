/** The queue manager and the store it calls, as objects: rows are updated in place, one store
    method per transaction. */
module EventManager {
  import opened EventQueue
  import opened EventStore
  import opened Results
  import opened Sorting
  import opened Text

  class Store {
    var sessions: set<string>
    var clocks: map<string, int>
    var events: map<string, Event>

    function Rows(): Tables
      reads this
    {
      Tables(sessions, clocks, events)
    }

    constructor ()
      ensures Rows() == INIT.tables
    {
      sessions, clocks, events := {}, map[], map[];
    }

    method GetSessionClock(session: string) returns (clock: Result<int, Error>)
      ensures clock == if session in clocks then Ok(clocks[session]) else Err(NotFound)
    {
      if session in clocks {
        return Ok(clocks[session]);
      }
      return Err(NotFound);
    }

    method EnsureSessionClock(session: string, now: int) returns (clock: Result<int, Error>)
      modifies this`clocks
      ensures
        match EnsureClock(old(Rows()), session, now)
        case Ok((t, at)) => Rows() == t && clock == Ok(at)
        case Err(e) => Rows() == old(Rows()) && clock == Err(e)
    {
      if Blank(session) || now == 0 {
        return Err(Rejected);
      }
      if session !in sessions {
        return Err(NotFound);
      }
      if session !in clocks {
        clocks := clocks[session := now];
      }
      return Ok(clocks[session]);
    }

    method AdvanceSessionClock(session: string, duration: int, initial: int) returns (clock: Result<int, Error>)
      modifies this`clocks
      ensures
        match AdvanceClock(old(Rows()), session, duration, initial)
        case Ok((t, at)) => Rows() == t && clock == Ok(at)
        case Err(e) => Rows() == old(Rows()) && clock == Err(e)
    {
      var name := TrimSpace(session);
      if name == "" || duration < 0 || initial == 0 {
        return Err(Rejected);
      }
      if name !in sessions {
        return Err(NotFound);
      }
      var current := initial;
      if name in clocks {
        current := clocks[name];
      }
      if current + duration == 0 {
        return Err(Rejected);
      }
      clocks := clocks[name := current + duration];
      return Ok(current + duration);
    }

    /** The due rows, collected in any order and kept sorted. */
    method ListDueScheduledEvents(session: string, mode: Mode, at: int) returns (due: Result<seq<Event>, Error>)
      requires Keyed(events)
      ensures due ==
        if Blank(session) || at == 0 then Err(Rejected) else Ok(Listing(events, session, mode, at))
    {
      if Blank(session) || at == 0 {
        return Err(Rejected);
      }
      var rows: seq<Event> := [];
      var left := events.Keys;
      EventLePreorder();
      while left != {}
        invariant left <= events.Keys
        invariant Sorted(rows, EventLe) && Distinct(rows)
        invariant forall e :: e in rows <==>
          e.id in events && e.id !in left && events[e.id] == e && Due(e, session, mode, at)
        decreases |left|
      {
        var k :| k in left;
        left := left - {k};
        if Due(events[k], session, mode, at) {
          InsertSorted(events[k], rows, EventLe);
          InsertMember(events[k], rows);
          rows := Insert(events[k], rows, EventLe);
        }
      }
      ListingUnique(rows, events, session, mode, at);
      return Ok(rows);
    }

    /** All rows or none: the first that is not pending abandons the transaction. */
    method MarkScheduledEventsDelivered(session: string, ids: seq<string>, at: int) returns (ok: bool)
      modifies this`events
      ensures
        match MarkAll(old(events), session, ids, at)
        case Some(marked) => ok && events == marked
        case None => !ok && events == old(events)
    {
      var working := events;
      var i := 0;
      while i < |ids|
        invariant i <= |ids|
        invariant events == old(events)
        invariant MarkAll(events, session, ids, at) == MarkAll(working, session, ids[i..], at)
      {
        var id := TrimSpace(ids[i]);
        assert ids[i..][1..] == ids[i + 1..];
        if id == "" || id !in working || working[id].session != session || working[id].delivered.Some? {
          return false;
        }
        working := working[id := working[id].(delivered := Some(at))];
        i := i + 1;
      }
      events := working;
      return true;
    }
  }

  lemma {:induction false} InsertMember(x: Event, s: seq<Event>)
    requires Distinct(s) && forall e | e in s :: e.id != x.id
    ensures Distinct(Insert(x, s, EventLe))
    ensures forall e :: e in Insert(x, s, EventLe) <==> e == x || e in s
  {
    if s != [] && !EventLe(x, s[0]) {
      var rest := s[1..];
      forall i, j | 0 <= i < j < |rest|
        ensures rest[i].id != rest[j].id
      {
        assert s[i + 1].id != s[j + 1].id;
      }
      InsertMember(x, rest);
      assert s == [s[0]] + rest;
      forall e | e in rest
        ensures e.id != s[0].id
      {
        var j :| 0 <= j < |rest| && rest[j] == e;
        assert s[j + 1].id != s[0].id;
      }
      assert s[0] in s;
      forall j | 0 <= j < |Insert(x, rest, EventLe)|
        ensures Insert(x, rest, EventLe)[j].id != s[0].id
      {
        assert Insert(x, rest, EventLe)[j] in Insert(x, rest, EventLe);
      }
    }
  }

  class Manager {
    const store: Store

    constructor (store: Store)
      ensures this.store == store
    {
      this.store := store;
    }

    /** How a finished call appears to its caller. */
    ghost static predicate Reported(p: Proc, r: Result<Batch, Error>) {
      if r.Ok? then p == Done(r.value) else p == Failed
    }

    method EnsureManagerClock(session: string, now: int) returns (clock: Result<int, Error>)
      modifies store`clocks
      ensures
        if session in old(store.clocks) then store.Rows() == old(store.Rows()) && clock == Ok(store.clocks[session])
        else match EnsureClock(old(store.Rows()), session, now)
          case Ok((t, at)) => store.Rows() == t && clock == Ok(at)
          case Err(e) => store.Rows() == old(store.Rows()) && clock == Err(e)
    {
      clock := store.GetSessionClock(session);
      if clock.Ok? {
        return;
      }
      clock := store.EnsureSessionClock(session, now);
    }

    method MarkDelivered(session: string, events: seq<Event>, at: int) returns (ok: bool)
      modifies store`events
      ensures
        if events == [] then ok && store.events == old(store.events)
        else match MarkAll(old(store.events), session, Ids(events), at)
          case Some(marked) => ok && store.events == marked
          case None => !ok && store.events == old(store.events)
    {
      if |events| == 0 {
        return true;
      }
      var ids: seq<string> := [];
      var i := 0;
      while i < |events|
        invariant i <= |events| && ids == Ids(events[..i])
        invariant store.events == old(store.events)
      {
        ids := ids + [events[i].id];
        assert events[..i + 1] == events[..i] + [events[i]];
        i := i + 1;
      }
      assert events[..i] == events;
      ok := store.MarkScheduledEventsDelivered(session, ids, at);
    }

    method Stamp(events: seq<Event>, at: int) returns (delivered: seq<Event>)
      ensures delivered == WithDeliveredAt(events, at)
    {
      delivered := [];
      for i := 0 to |events|
        invariant delivered == WithDeliveredAt(events[..i], at)
      {
        delivered := delivered + [events[i].(delivered := Some(at))];
        assert events[..i + 1] == events[..i] + [events[i]];
      }
      assert events[..|events|] == events;
    }

    /** Lists the due events of one mode and marks them at the given clock. */
    method DeliverDue(name: string, mode: Mode, at: int) returns (r: Result<Batch, Error>)
      requires Keyed(store.events)
      modifies store`events
      ensures
        var (t, p) := Deliver(old(store.Rows()), name, mode, at);
        store.Rows() == t && Reported(p, r)
    {
      var due :- store.ListDueScheduledEvents(name, mode, at);
      var ok := MarkDelivered(name, due, at);
      if !ok {
        return Err(NotFound);
      }
      var delivered := Stamp(due, at);
      return Ok(Batch(name, mode, at, delivered));
    }

    /** AdvanceTime runs the transactions of the interleaved model one after the other. */
    method AdvanceTime(session: string, duration: int, now: int) returns (r: Result<Batch, Error>)
      requires Keyed(store.events)
      modifies store
      ensures
        var (t, p) := Alone(old(store.Rows()), Advance(session, duration, now));
        store.Rows() == t && Reported(p, r)
    {
      if duration < 0 {
        return Err(Rejected);
      }
      var name := TrimSpace(session);
      var at :- store.AdvanceSessionClock(name, duration, now);
      r := DeliverDue(name, Push, at);
    }

    /** PullDue likewise, starting from the clock it finds or creates. */
    method PullDue(session: string, now: int) returns (r: Result<Batch, Error>)
      requires Keyed(store.events)
      modifies store
      ensures
        var (t, p) := Alone(old(store.Rows()), Call.Pull(session, now));
        store.Rows() == t && Reported(p, r)
    {
      var name := TrimSpace(session);
      var at :- EnsureManagerClock(name, now);
      r := DeliverDue(name, Mode.Pull, at);
    }
  }
}
