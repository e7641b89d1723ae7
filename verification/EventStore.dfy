/** The event tables of the store: session clocks and scheduled events, with each store call one
    atomic transaction.  Instants are integers; 0 is Go's zero time. */
module EventStore {
  import opened Results
  import opened Sorting
  import opened Text

  datatype Mode = Push | Pull

  /** A row; it is pending until it carries a delivery time. */
  datatype Event = Event(id: string, session: string, mode: Mode, due: int, payload: string, delivered: Option<int>)

  datatype Tables = Tables(sessions: set<string>, clocks: map<string, int>, events: map<string, Event>)

  datatype Error = NotFound | Rejected

  // ------------------------------------------------------------ transactions

  /** The clock if there is one; otherwise it is created at `now`. */
  function EnsureClock(t: Tables, session: string, now: int): Result<(Tables, int), Error> {
    if Blank(session) || now == 0 then Err(Rejected)
    else if session !in t.sessions then Err(NotFound)
    else if session in t.clocks then Ok((t, t.clocks[session]))
    else Ok((t.(clocks := t.clocks[session := now]), now))
  }

  function AdvanceClock(t: Tables, session: string, step: int, initial: int): Result<(Tables, int), Error> {
    var name := TrimSpace(session);
    if name == "" || step < 0 || initial == 0 then Err(Rejected)
    else if name !in t.sessions then Err(NotFound)
    else
      var at := (if name in t.clocks then t.clocks[name] else initial) + step;
      if at == 0 then Err(Rejected) else Ok((t.(clocks := t.clocks[name := at]), at))
  }

  function PutEvent(t: Tables, e: Event): Result<Tables, Error> {
    if Blank(e.id) || Blank(e.session) || e.due == 0 then Err(Rejected)
    else if e.session !in t.sessions then Err(NotFound)
    else Ok(t.(events := t.events[e.id := e]))
  }

  predicate Due(e: Event, session: string, mode: Mode, at: int) {
    e.session == session && e.delivered == None && e.mode == mode && e.due <= at
  }

  predicate EventLe(a: Event, b: Event) {
    a.due < b.due || (a.due == b.due && StrLe(a.id, b.id))
  }

  /** The rows a due query returns: pending, of one session and mode, ordered by due time and id. */
  ghost function Listing(events: map<string, Event>, session: string, mode: Mode, at: int): seq<Event> {
    Sort(Members(set k | k in events && Due(events[k], session, mode, at) :: events[k]), EventLe)
  }

  /** Marks every id or none: the first row that is not pending rolls the transaction back. */
  function MarkAll(events: map<string, Event>, session: string, ids: seq<string>, at: int): Option<map<string, Event>> {
    if ids == [] then Some(events)
    else
      var id := TrimSpace(ids[0]);
      if id == "" || id !in events || events[id].session != session || events[id].delivered.Some? then None
      else MarkAll(events[id := events[id].(delivered := Some(at))], session, ids[1..], at)
  }

  // -------------------------------------------------------------- properties

  /** Ids as the generator makes them: not blank, no surrounding space. */
  predicate GoodId(id: string) {
    id != "" && TrimSpace(id) == id
  }

  ghost predicate Keyed(events: map<string, Event>) {
    forall k | k in events :: events[k].id == k && GoodId(k)
  }

  lemma EventLePreorder()
    ensures Preorder(EventLe)
  {
    forall a: Event, b: Event
      ensures EventLe(a, b) || EventLe(b, a)
    {
      StrLeTotal(a.id, b.id);
    }
    forall a: Event, b: Event, c: Event | EventLe(a, b) && EventLe(b, c)
      ensures EventLe(a, c)
    {
      if a.due == b.due == c.due {
        StrLeTransitive(a.id, b.id, c.id);
      }
    }
  }

  /** A listing has exactly the due rows, each once, strictly ordered by due time and id. */
  ghost predicate IsListing(s: seq<Event>, events: map<string, Event>, session: string, mode: Mode, at: int) {
    && Sorted(s, EventLe)
    && (forall i, j | 0 <= i < j < |s| :: s[i].id != s[j].id)
    && (forall e :: e in s <==> e.id in events && events[e.id] == e && Due(e, session, mode, at))
  }

  lemma ListingIs(events: map<string, Event>, session: string, mode: Mode, at: int)
    requires Keyed(events)
    ensures IsListing(Listing(events, session, mode, at), events, session, mode, at)
  {
    var rows := set k | k in events && Due(events[k], session, mode, at) :: events[k];
    EventLePreorder();
    MembersAre(rows);
    SortKeeps(Members(rows), EventLe);
    SortSorted(Members(rows), EventLe);
    ArrangementIs(Listing(events, session, mode, at), rows);
  }

  /** An arrangement of a set of rows with distinct ids has each row once. */
  lemma ArrangementIs(s: seq<Event>, rows: set<Event>)
    requires multiset(s) == multiset(rows)
    requires forall a, b | a in rows && b in rows && a.id == b.id :: a == b
    ensures forall e :: e in s <==> e in rows
    ensures forall i, j | 0 <= i < j < |s| :: s[i].id != s[j].id
  {
    forall e
      ensures e in s <==> e in rows
    {
      assert e in s <==> e in multiset(s);
      assert e in rows <==> e in multiset(rows);
    }
    forall i, j | 0 <= i < j < |s|
      ensures s[i].id != s[j].id
    {
      assert s[i] in rows && s[j] in rows;
      assert multiset(rows)[s[i]] == 1;
      if s[i] == s[j] {
        TwiceCounts(s, i, j);
      }
    }
  }

  lemma ListingUnique(s: seq<Event>, events: map<string, Event>, session: string, mode: Mode, at: int)
    requires Keyed(events) && IsListing(s, events, session, mode, at)
    ensures s == Listing(events, session, mode, at)
  {
    var r := Listing(events, session, mode, at);
    ListingIs(events, session, mode, at);
    EventLePreorder();
    SameMembers(s, r);
    forall i, j | 0 <= i < |s| && 0 <= j < |s| && EventLe(s[i], s[j]) && EventLe(s[j], s[i])
      ensures s[i] == s[j]
    {
      StrLeAntisymmetric(s[i].id, s[j].id);
      assert s[i] in s && s[j] in s;
    }
    SortedUnique(s, r, EventLe);
  }

  // ------------------------------------------------------------------- marks

  function Ids(s: seq<Event>): seq<string> {
    seq(|s|, i requires 0 <= i < |s| => s[i].id)
  }

  /** Marking succeeds exactly when the ids are distinct pending rows of the session. */
  ghost predicate Markable(events: map<string, Event>, session: string, ids: seq<string>) {
    && (forall i | 0 <= i < |ids| ::
          ids[i] in events && events[ids[i]].session == session && events[ids[i]].delivered == None)
    && (forall i, j | 0 <= i < j < |ids| :: ids[i] != ids[j])
  }

  ghost function Marked(events: map<string, Event>, ids: seq<string>, at: int): map<string, Event> {
    map k | k in events :: if k in ids then events[k].(delivered := Some(at)) else events[k]
  }

  lemma MarkedStep(events: map<string, Event>, ids: seq<string>, at: int)
    requires ids != [] && ids[0] in events
    ensures Marked(events[ids[0] := events[ids[0]].(delivered := Some(at))], ids[1..], at) == Marked(events, ids, at)
  {
    forall k | k in events
      ensures (k in ids) == (k == ids[0] || k in ids[1..])
    {
      assert ids == [ids[0]] + ids[1..];
    }
  }

  lemma {:induction false} MarkAllIs(events: map<string, Event>, session: string, ids: seq<string>, at: int)
    requires forall i | 0 <= i < |ids| :: GoodId(ids[i])
    ensures MarkAll(events, session, ids, at) ==
            if Markable(events, session, ids) then Some(Marked(events, ids, at)) else None
    decreases |ids|
  {
    if ids == [] {
      assert Marked(events, ids, at) == events;
    } else {
      var id := ids[0];
      if id in events && events[id].session == session && events[id].delivered == None {
        MarkAllIs(events[id := events[id].(delivered := Some(at))], session, ids[1..], at);
        MarkableStep(events, session, ids, at);
        MarkedStep(events, ids, at);
      }
    }
  }

  lemma MarkableStep(events: map<string, Event>, session: string, ids: seq<string>, at: int)
    requires ids != [] && ids[0] in events
    requires events[ids[0]].session == session && events[ids[0]].delivered == None
    ensures
      var events' := events[ids[0] := events[ids[0]].(delivered := Some(at))];
      Markable(events, session, ids) <==> Markable(events', session, ids[1..])
  {
    var events' := events[ids[0] := events[ids[0]].(delivered := Some(at))];
    var rest := ids[1..];
    if Markable(events', session, rest) {
      forall i | 0 <= i < |ids|
        ensures ids[i] in events && events[ids[i]].session == session && events[ids[i]].delivered == None
        ensures i > 0 ==> ids[i] != ids[0]
      {
        if i > 0 {
          assert rest[i - 1] == ids[i];
        }
      }
      forall i, j | 0 <= i < j < |ids|
        ensures ids[i] != ids[j]
      {
        if i > 0 {
          assert rest[i - 1] != rest[j - 1];
        }
      }
    }
    if Markable(events, session, ids) {
      forall i | 0 <= i < |rest|
        ensures rest[i] in events' && events'[rest[i]].session == session && events'[rest[i]].delivered == None
      {
        assert rest[i] == ids[i + 1] && ids[0] != ids[i + 1];
      }
    }
  }
}
