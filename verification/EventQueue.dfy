/** The event queue as interleaved steps: any number of AdvanceTime and PullDue calls, each a
    sequence of atomic store transactions, any of which may also fail. */
module EventQueue {
  import opened EventStore
  import opened Results
  import opened Sorting
  import opened Text

  datatype Call = Advance(session: string, duration: int, now: int) | Pull(session: string, now: int)

  /** What a successful call returns. */
  datatype Batch = Batch(session: string, mode: Mode, at: int, events: seq<Event>)

  /** Where a call stands between two store transactions. */
  datatype Proc =
    | Started(call: Call)
    | NoClock(session: string, now: int)
    | Clocked(session: string, mode: Mode, at: int)
    | Listed(session: string, mode: Mode, at: int, events: seq<Event>)
    | Done(batch: Batch)
    | Failed

  datatype System = System(tables: Tables, procs: map<nat, Proc>)

  const INIT := System(Tables({}, map[], map[]), map[])

  /** `io` says whether the next transaction of the call goes through. */
  datatype Action =
    | CreateSession(name: string)
    | Schedule(event: Event)
    | Begin(pid: nat, call: Call)
    | Tick(pid: nat, io: bool)

  function WithDeliveredAt(events: seq<Event>, at: int): seq<Event> {
    seq(|events|, i requires 0 <= i < |events| => events[i].(delivered := Some(at)))
  }

  /** The next transaction of one call. */
  ghost function TickProc(t: Tables, p: Proc): (Tables, Proc) {
    match p
    case Started(Advance(session, duration, now)) =>
      if duration < 0 then (t, Failed) else
      (match AdvanceClock(t, TrimSpace(session), duration, now)
       case Ok((t', at)) => (t', Clocked(TrimSpace(session), Push, at))
       case Err(_) => (t, Failed))
    case Started(Pull(session, now)) =>
      var name := TrimSpace(session);
      if name in t.clocks then (t, Clocked(name, Mode.Pull, t.clocks[name])) else (t, NoClock(name, now))
    case NoClock(name, now) =>
      (match EnsureClock(t, name, now)
       case Ok((t', at)) => (t', Clocked(name, Mode.Pull, at))
       case Err(_) => (t, Failed))
    case Clocked(name, mode, at) =>
      if Blank(name) || at == 0 then (t, Failed)
      else (t, Listed(name, mode, at, Listing(t.events, name, mode, at)))
    case Listed(name, mode, at, events) =>
      if events == [] then (t, Done(Batch(name, mode, at, []))) else
      (match MarkAll(t.events, name, Ids(events), at)
       case Some(marked) => (t.(events := marked), Done(Batch(name, mode, at, WithDeliveredAt(events, at))))
       case None => (t, Failed))
    case Done(_) => (t, p)
    case Failed => (t, p)
  }

  ghost function Next(s: System, a: Action): System {
    match a
    case CreateSession(name) => s.(tables := s.tables.(sessions := s.tables.sessions + {name}))
    case Schedule(e) =>
      // the manager schedules pending events under generated, never repeated ids
      if !GoodId(e.id) || e.id in s.tables.events || e.delivered != None then s else
      (match PutEvent(s.tables, e)
       case Ok(t) => s.(tables := t)
       case Err(_) => s)
    case Begin(pid, call) => if pid in s.procs then s else s.(procs := s.procs[pid := Started(call)])
    case Tick(pid, io) =>
      if pid !in s.procs || s.procs[pid].Done? || s.procs[pid].Failed? then s
      else if !io then s.(procs := s.procs[pid := Failed])
      else
        var (t, p) := TickProc(s.tables, s.procs[pid]);
        System(t, s.procs[pid := p])
  }

  ghost function Run(s: System, actions: seq<Action>): System
    decreases |actions|
  {
    if actions == [] then s else Run(Next(s, actions[0]), actions[1..])
  }

  // --------------------------------------------------------------- evolution

  /** Nothing is forgotten: clocks never go back, events keep their identity, and a delivered
      event never changes again. */
  ghost predicate Extends(t: Tables, t': Tables) {
    && t.sessions <= t'.sessions
    && (forall c | c in t.clocks :: c in t'.clocks && t.clocks[c] <= t'.clocks[c])
    && (forall k | k in t.events ::
          && k in t'.events
          && t'.events[k] == t.events[k].(delivered := t'.events[k].delivered)
          && (t.events[k].delivered.Some? ==> t'.events[k] == t.events[k]))
  }

  lemma ExtendsTransitive(a: Tables, b: Tables, c: Tables)
    requires Extends(a, b) && Extends(b, c)
    ensures Extends(a, c)
  {
  }

  // --------------------------------------------------------------- invariant

  ghost predicate Distinct(events: seq<Event>) {
    forall i, j | 0 <= i < j < |events| :: events[i].id != events[j].id
  }

  ghost predicate ClockSeen(t: Tables, name: string, at: int) {
    name in t.clocks && at <= t.clocks[name]
  }

  /** A row a call has listed: still the same event, though another call may have delivered it. */
  ghost predicate ListedRow(t: Tables, e: Event, session: string, mode: Mode, at: int) {
    && e.id in t.events && e == t.events[e.id].(delivered := None)
    && e.session == session && e.mode == mode && e.due <= at
  }

  /** A row a call has delivered. */
  ghost predicate DeliveredRow(t: Tables, e: Event, b: Batch) {
    && e.id in t.events && e == t.events[e.id] && e.delivered == Some(b.at)
    && e.session == b.session && e.mode == b.mode && e.due <= b.at
  }

  ghost predicate ProcOk(t: Tables, p: Proc) {
    match p
    case Clocked(name, _, at) => ClockSeen(t, name, at)
    case Listed(name, mode, at, events) =>
      && ClockSeen(t, name, at) && Sorted(events, EventLe) && Distinct(events)
      && (forall i | 0 <= i < |events| :: ListedRow(t, events[i], name, mode, at))
    case Done(b) =>
      && ClockSeen(t, b.session, b.at) && Sorted(b.events, EventLe) && Distinct(b.events)
      && (forall i | 0 <= i < |b.events| :: DeliveredRow(t, b.events[i], b))
    case _ => true
  }

  ghost predicate ProcsOk(s: System) {
    forall p | p in s.procs :: ProcOk(s.tables, s.procs[p])
  }

  ghost predicate InBatch(s: System, p: nat, k: string) {
    p in s.procs && s.procs[p].Done? && k in Ids(s.procs[p].batch.events)
  }

  /** No event is in the results of two calls. */
  ghost predicate AtMostOnce(s: System) {
    forall p, q, k | InBatch(s, p, k) && InBatch(s, q, k) :: p == q
  }

  /** Every delivered event is in the result of some call. */
  ghost predicate NoneLost(s: System) {
    forall k | k in s.tables.events && s.tables.events[k].delivered.Some? :: exists p :: InBatch(s, p, k)
  }

  ghost predicate Invariant(s: System) {
    && Keyed(s.tables.events)
    && ProcsOk(s)
    && AtMostOnce(s)
    && NoneLost(s)
  }

  /** What a call knows stays true whatever the others do. */
  lemma ProcOkStable(t: Tables, t': Tables, p: Proc)
    requires ProcOk(t, p) && Extends(t, t')
    ensures ProcOk(t', p)
  {
  }

  lemma IdsMember(events: seq<Event>, i: nat)
    requires i < |events|
    ensures events[i].id in Ids(events)
  {
    assert Ids(events)[i] == events[i].id;
  }

  /** A listing is made of rows that are due now. */
  lemma ListingOk(t: Tables, name: string, mode: Mode, at: int)
    requires Keyed(t.events) && ClockSeen(t, name, at)
    ensures ProcOk(t, Listed(name, mode, at, Listing(t.events, name, mode, at)))
  {
    var s := Listing(t.events, name, mode, at);
    ListingIs(t.events, name, mode, at);
    forall i | 0 <= i < |s|
      ensures ListedRow(t, s[i], name, mode, at)
    {
      assert s[i] in s;
    }
  }

  /** Marking what was listed: if it goes through, every listed row was pending and is now
      delivered at the call's clock, and no other row has changed. */
  lemma MarkOk(t: Tables, name: string, mode: Mode, at: int, events: seq<Event>)
    requires Keyed(t.events) && ProcOk(t, Listed(name, mode, at, events))
    requires MarkAll(t.events, name, Ids(events), at).Some?
    ensures Markable(t.events, name, Ids(events))
    ensures MarkAll(t.events, name, Ids(events), at).value == Marked(t.events, Ids(events), at)
    ensures
      var t' := t.(events := Marked(t.events, Ids(events), at));
      && Extends(t, t') && Keyed(t'.events)
      && ProcOk(t', Done(Batch(name, mode, at, WithDeliveredAt(events, at))))
  {
    forall i | 0 <= i < |Ids(events)|
      ensures GoodId(Ids(events)[i])
    {
      assert ListedRow(t, events[i], name, mode, at);
    }
    MarkAllIs(t.events, name, Ids(events), at);
    var t' := t.(events := Marked(t.events, Ids(events), at));
    forall k | k in t.events && k in Ids(events)
      ensures t.events[k].delivered == None
    {
    }
    var b := Batch(name, mode, at, WithDeliveredAt(events, at));
    forall i | 0 <= i < |b.events|
      ensures DeliveredRow(t', b.events[i], b)
    {
      assert ListedRow(t, events[i], name, mode, at);
      IdsMember(events, i);
    }
    assert Sorted(b.events, EventLe) by {
      forall i, j | 0 <= i < j < |b.events|
        ensures EventLe(b.events[i], b.events[j])
      {
        assert EventLe(events[i], events[j]);
      }
    }
  }

  /** One transaction keeps the tables growing and what the call knows true. */
  lemma TickListedOk(t: Tables, p: Proc)
    requires Keyed(t.events) && ProcOk(t, p) && p.Listed?
    ensures
      var (t', p') := TickProc(t, p);
      Extends(t, t') && Keyed(t'.events) && ProcOk(t', p')
  {
    if p.events != [] && MarkAll(t.events, p.session, Ids(p.events), p.at).Some? {
      MarkOk(t, p.session, p.mode, p.at, p.events);
    }
  }

  lemma TickProcOk(t: Tables, p: Proc)
    requires Keyed(t.events) && ProcOk(t, p)
    ensures
      var (t', p') := TickProc(t, p);
      Extends(t, t') && Keyed(t'.events) && ProcOk(t', p')
  {
    match p
    case Started(Advance(session, _, _)) => TrimIdempotent(session);
    case Clocked(name, mode, at) => ListingOk(t, name, mode, at);
    case Listed(name, mode, at, events) => TickListedOk(t, p);
    case _ =>
  }

  /** A transaction changes events only when it is the last of a call that succeeds. */
  lemma OnlyDoneMarks(t: Tables, p: Proc)
    ensures
      var (t', p') := TickProc(t, p);
      t'.events != t.events ==> p.Listed? && p'.Done?
  {
  }

  // ----------------------------------------------------------- one step safe

  lemma NextExtends(s: System, a: Action)
    requires Invariant(s)
    ensures Extends(s.tables, Next(s, a).tables) && Keyed(Next(s, a).tables.events)
  {
    if a.Tick? && a.pid in s.procs {
      TickProcOk(s.tables, s.procs[a.pid]);
    }
  }

  lemma NextProcsOk(s: System, a: Action)
    requires Invariant(s)
    ensures ProcsOk(Next(s, a))
  {
    NextExtends(s, a);
    var s' := Next(s, a);
    forall p | p in s'.procs
      ensures ProcOk(s'.tables, s'.procs[p])
    {
      if a.Tick? && p == a.pid {
        TickProcOk(s.tables, s.procs[p]);
      }
      if p in s.procs {
        ProcOkStable(s.tables, s'.tables, s.procs[p]);
      }
    }
  }

  /** The ids of a batch are those the call listed. */
  lemma BatchIds(events: seq<Event>, at: int)
    ensures Ids(WithDeliveredAt(events, at)) == Ids(events)
  {
  }

  /** The batch of a call that has just finished: all of it was pending before. */
  lemma NewBatch(s: System, pid: nat, k: string)
    requires Invariant(s) && pid in s.procs && !s.procs[pid].Done?
    requires InBatch(Next(s, Tick(pid, true)), pid, k)
    ensures k in s.tables.events && s.tables.events[k].delivered == None
  {
    var p := s.procs[pid];
    MarkOk(s.tables, p.session, p.mode, p.at, p.events);
    BatchIds(p.events, p.at);
  }

  lemma OldBatch(s: System, q: nat, k: string)
    requires Invariant(s) && InBatch(s, q, k)
    ensures k in s.tables.events && s.tables.events[k].delivered.Some?
  {
    var b := s.procs[q].batch;
    var i :| 0 <= i < |Ids(b.events)| && Ids(b.events)[i] == k;
    assert DeliveredRow(s.tables, b.events[i], b);
  }

  lemma NextAtMostOnce(s: System, a: Action)
    requires Invariant(s)
    ensures AtMostOnce(Next(s, a))
  {
    var s' := Next(s, a);
    forall p, q, k | InBatch(s', p, k) && InBatch(s', q, k)
      ensures p == q
    {
      if p != q {
        if InBatch(s, p, k) && !InBatch(s, q, k) {
          OldBatch(s, p, k);
          NewBatch(s, q, k);
        } else if InBatch(s, q, k) && !InBatch(s, p, k) {
          OldBatch(s, q, k);
          NewBatch(s, p, k);
        }
      }
    }
  }

  lemma NextNoneLost(s: System, a: Action)
    requires Invariant(s)
    ensures NoneLost(Next(s, a))
  {
    var s' := Next(s, a);
    NextExtends(s, a);
    forall k | k in s'.tables.events && s'.tables.events[k].delivered.Some?
      ensures exists p :: InBatch(s', p, k)
    {
      if k in s.tables.events && s.tables.events[k].delivered.Some? {
        var p :| InBatch(s, p, k);
        assert InBatch(s', p, k);
      } else {
        OnlyDoneMarks(s.tables, s.procs[a.pid]);
        var p := s.procs[a.pid];
        MarkOk(s.tables, p.session, p.mode, p.at, p.events);
        BatchIds(p.events, p.at);
        assert InBatch(s', a.pid, k);
      }
    }
  }

  lemma NextInvariant(s: System, a: Action)
    requires Invariant(s)
    ensures Invariant(Next(s, a))
  {
    NextExtends(s, a);
    NextProcsOk(s, a);
    NextAtMostOnce(s, a);
    NextNoneLost(s, a);
  }

  // ------------------------------------------------------------ whole runs

  /** Under every interleaving the invariant holds and nothing recorded is undone. */
  lemma {:induction false} RunInvariant(s: System, actions: seq<Action>)
    requires Invariant(s)
    ensures Invariant(Run(s, actions)) && Extends(s.tables, Run(s, actions).tables)
    decreases |actions|
  {
    if actions != [] {
      var s' := Next(s, actions[0]);
      NextInvariant(s, actions[0]);
      NextExtends(s, actions[0]);
      RunInvariant(s', actions[1..]);
      ExtendsTransitive(s.tables, s'.tables, Run(s, actions).tables);
    }
  }

  /** Exactly once: after every interleaving each delivered event is in the result of exactly
      one call, and each event in a result is delivered. */
  lemma DeliveredExactlyOnce(actions: seq<Action>, k: string)
    ensures
      var s := Run(INIT, actions);
      && ((k in s.tables.events && s.tables.events[k].delivered.Some?) <==> exists p :: InBatch(s, p, k))
      && (forall p, q | InBatch(s, p, k) && InBatch(s, q, k) :: p == q)
  {
    var s := Run(INIT, actions);
    RunInvariant(INIT, actions);
    forall p | InBatch(s, p, k)
      ensures k in s.tables.events && s.tables.events[k].delivered.Some?
    {
      OldBatch(s, p, k);
    }
  }

  /** Never early: every event of a result was due at the session clock the call saw, belongs to
      the call's session and mode, and comes once, in order of due time and id. */
  lemma NeverEarly(actions: seq<Action>, p: nat)
    requires p in Run(INIT, actions).procs && Run(INIT, actions).procs[p].Done?
    ensures
      var s := Run(INIT, actions);
      var b := s.procs[p].batch;
      && ClockSeen(s.tables, b.session, b.at)
      && Sorted(b.events, EventLe) && Distinct(b.events)
      && forall e | e in b.events ::
           e.due <= b.at && e.session == b.session && e.mode == b.mode && e.delivered == Some(b.at)
  {
    var s := Run(INIT, actions);
    RunInvariant(INIT, actions);
    assert ProcOk(s.tables, s.procs[p]);
    var b := s.procs[p].batch;
    forall e | e in b.events
      ensures DeliveredRow(s.tables, e, b)
    {
    }
  }

  /** A step that does not finish its call successfully changes no event. */
  lemma UnfinishedStep(s: System, a: Action)
    requires a.Tick? && (a.pid in s.procs ==> !Next(s, a).procs[a.pid].Done?)
    ensures Next(s, a).tables.events == s.tables.events
  {
    if a.pid in s.procs {
      OnlyDoneMarks(s.tables, s.procs[a.pid]);
    }
  }

  lemma {:induction false} DoneStays(s: System, actions: seq<Action>, pid: nat)
    requires pid in s.procs && s.procs[pid].Done?
    ensures pid in Run(s, actions).procs && Run(s, actions).procs[pid] == s.procs[pid]
    decreases |actions|
  {
    if actions != [] {
      DoneStays(Next(s, actions[0]), actions[1..], pid);
    }
  }

  /** In every run, a call that has failed, or has not come to its end, has marked nothing: none of
      its steps has changed any event. */
  lemma {:induction false} FailedCallMarksNothing(s: System, actions: seq<Action>, pid: nat, i: nat)
    requires pid in Run(s, actions).procs && !Run(s, actions).procs[pid].Done?
    requires i < |actions| && actions[i].Tick? && actions[i].pid == pid
    ensures Run(s, actions[..i + 1]).tables.events == Run(s, actions[..i]).tables.events
    decreases |actions|
  {
    var s', rest := Next(s, actions[0]), actions[1..];
    assert actions[..i + 1][1..] == rest[..i];
    if i > 0 {
      assert actions[..i][1..] == rest[..i - 1];
      FailedCallMarksNothing(s', rest, pid, i - 1);
    } else {
      if pid in s.procs && s'.procs[pid].Done? {
        DoneStays(s', rest, pid);
      }
      UnfinishedStep(s, actions[0]);
      assert Run(s', rest[..0]) == s';
    }
  }

  // ------------------------------------------------------------- undisturbed

  /** A listing can be marked, as long as nothing has happened since. */
  lemma ListedMarkable(s: seq<Event>, events: map<string, Event>, name: string, mode: Mode, at: int)
    requires Keyed(events) && IsListing(s, events, name, mode, at)
    ensures forall i | 0 <= i < |Ids(s)| :: GoodId(Ids(s)[i])
    ensures Markable(events, name, Ids(s))
  {
    forall i | 0 <= i < |s|
      ensures GoodId(s[i].id) && s[i].id in events && events[s[i].id] == s[i]
      ensures Due(s[i], name, mode, at)
    {
      assert s[i] in s;
    }
  }

  lemma ListingMarkable(t: Tables, name: string, mode: Mode, at: int)
    requires Keyed(t.events)
    ensures
      var events := Listing(t.events, name, mode, at);
      MarkAll(t.events, name, Ids(events), at) == Some(Marked(t.events, Ids(events), at))
  {
    var events := Listing(t.events, name, mode, at);
    ListingIs(t.events, name, mode, at);
    ListedMarkable(events, t.events, name, mode, at);
    MarkAllIs(t.events, name, Ids(events), at);
  }

  /** Once a listing is marked, nothing of it is due any more. */
  lemma NothingLeft(s: seq<Event>, events: map<string, Event>, name: string, mode: Mode, at: int)
    requires Keyed(events) && IsListing(s, events, name, mode, at)
    ensures IsListing([], Marked(events, Ids(s), at), name, mode, at)
  {
    forall e: Event
      ensures !(e.id in events && Marked(events, Ids(s), at)[e.id] == e && Due(e, name, mode, at))
    {
      if e.id in events && events[e.id] == e && Due(e, name, mode, at) {
        assert e in s;
        var i :| 0 <= i < |s| && s[i] == e;
        IdsMember(s, i);
      }
    }
  }

  /** The last two transactions of a call that knows its clock: list, then mark. */
  ghost function Deliver(t: Tables, name: string, mode: Mode, at: int): (Tables, Proc) {
    var (t1, p1) := TickProc(t, Clocked(name, mode, at));
    TickProc(t1, p1)
  }

  /** All the transactions of one call run back to back. */
  ghost function Alone(t: Tables, call: Call): (Tables, Proc) {
    var (t1, p1) := TickProc(t, Started(call));
    var (t2, p2) := if p1.NoClock? then TickProc(t1, p1) else (t1, p1);
    if p2.Clocked? then Deliver(t2, p2.session, p2.mode, p2.at) else (t2, p2)
  }

  lemma MarkNothing(events: map<string, Event>, at: int)
    ensures Marked(events, Ids([]), at) == events
    ensures WithDeliveredAt([], at) == []
  {
  }

  /** A call that has read the clock and is not interleaved delivers exactly the pending due
      events of its mode, in order, and leaves none of them behind. */
  lemma DeliverIs(t: Tables, name: string, mode: Mode, at: int)
    requires Keyed(t.events) && !Blank(name) && at != 0
    ensures
      var due := Listing(t.events, name, mode, at);
      Deliver(t, name, mode, at) ==
        (t.(events := Marked(t.events, Ids(due), at)), Done(Batch(name, mode, at, WithDeliveredAt(due, at))))
    ensures IsListing([], Deliver(t, name, mode, at).0.events, name, mode, at)
  {
    var due := Listing(t.events, name, mode, at);
    ListingMarkable(t, name, mode, at);
    MarkNothing(t.events, at);
    ListingIs(t.events, name, mode, at);
    NothingLeft(due, t.events, name, mode, at);
    DeliverListed(t, name, mode, at, due);
  }

  lemma DeliverListed(t: Tables, name: string, mode: Mode, at: int, due: seq<Event>)
    requires !Blank(name) && at != 0 && due == Listing(t.events, name, mode, at)
    requires MarkAll(t.events, name, Ids(due), at) == Some(Marked(t.events, Ids(due), at))
    requires due == [] ==> Marked(t.events, Ids(due), at) == t.events && WithDeliveredAt(due, at) == []
    ensures
      Deliver(t, name, mode, at) ==
        (t.(events := Marked(t.events, Ids(due), at)), Done(Batch(name, mode, at, WithDeliveredAt(due, at))))
  {
  }

  /** An AdvanceTime call on its own: the clock moves by the duration, and exactly the push events
      pending and due by then are delivered, in order. */
  lemma AdvanceAlone(t: Tables, session: string, duration: int, now: int)
    requires Keyed(t.events) && duration >= 0 && now != 0
    requires TrimSpace(session) != "" && TrimSpace(session) in t.sessions
    requires (if TrimSpace(session) in t.clocks then t.clocks[TrimSpace(session)] else now) + duration != 0
    ensures
      var name := TrimSpace(session);
      var at := (if name in t.clocks then t.clocks[name] else now) + duration;
      var due := Listing(t.events, name, Push, at);
      Alone(t, Advance(session, duration, now)) ==
        (t.(clocks := t.clocks[name := at], events := Marked(t.events, Ids(due), at)),
         Done(Batch(name, Push, at, WithDeliveredAt(due, at))))
  {
    var name := TrimSpace(session);
    var at := (if name in t.clocks then t.clocks[name] else now) + duration;
    TrimIdempotent(session);
    DeliverIs(t.(clocks := t.clocks[name := at]), name, Push, at);
  }

  /** A PullDue call on its own: the clock is read or created but never moved, and exactly the
      pull events pending and due by then are delivered, in order. */
  lemma PullAlone(t: Tables, session: string, now: int)
    requires Keyed(t.events) && now != 0
    requires TrimSpace(session) != "" && TrimSpace(session) in t.sessions
    requires TrimSpace(session) in t.clocks ==> t.clocks[TrimSpace(session)] != 0
    ensures
      var name := TrimSpace(session);
      var at := if name in t.clocks then t.clocks[name] else now;
      var due := Listing(t.events, name, Mode.Pull, at);
      Alone(t, Call.Pull(session, now)) ==
        (t.(clocks := t.clocks[name := at], events := Marked(t.events, Ids(due), at)),
         Done(Batch(name, Mode.Pull, at, WithDeliveredAt(due, at))))
  {
    var name := TrimSpace(session);
    var at := if name in t.clocks then t.clocks[name] else now;
    TrimIdempotent(session);
    assert name in t.clocks ==> t.clocks[name := at] == t.clocks;
    DeliverIs(t.(clocks := t.clocks[name := at]), name, Mode.Pull, at);
  }
}
