/** Create, Snapshot, Fork and Restore as interleaved steps over the session tables: any number of
    calls, each a sequence of atomic store transactions, any of which may also fail.  Beside them
    runs are recorded, and other writers append snapshots that name the run they were taken from.
    A fork that fails once its child exists stops before its clean-up, which deletes the child. */
module Sessions {
  import opened Json
  import opened Results
  import opened SessionStore
  import opened Text

  datatype Call =
    | Create(name: string, now: int)
    | Snap(name: string, state: Json, now: int)
    | Fork(parent: string, child: string, now: int)
    | Restore(name: string, id: string, now: int)
    | Import(name: string, source: string, state: Json, now: int)

  /** Where a call stands between two store transactions. */
  datatype Proc =
    | Started(call: Call)
    | Appending(snapshot: Snapshot)                              // the snapshot has its id
    | ForkRead(parent: Session, child: Session)                  // the parent's record was read
    | ForkCreated(copied: string, child: Session)                // the child exists
    | ForkLoaded(from: Snapshot, child: Session)                 // the parent's snapshot was read
    | ForkReady(from: Snapshot, child: Session, id: string)      // the child's snapshot has its id
    | ForkPut(from: Snapshot, child: Session)                    // the child's snapshot is stored
    | RestoreRead(session: Session, id: string, now: int)
    | RestoreLoaded(session: Session, snapshot: Snapshot, now: int)
    | Done(name: string)
    | Failed
    | CleaningUp(orphan: string)                                 // failed; the child is to be deleted

  /** `issued` lists the snapshot ids generated so far; `born` the stored snapshots and `made` the
      sessions, each in order of storing. */
  datatype System = System(
    tables: Tables, procs: map<nat, Proc>, issued: set<string>, born: seq<string>, made: seq<string>)

  const INIT := System(Tables(map[], map[], map[]), map[], {}, [], [])

  /** `io` says whether the next step of the call goes through, `id` what the generator returns if
      the step asks it for one. */
  datatype Action =
    | Begin(pid: nat, call: Call)
    | Tick(pid: nat, io: bool, id: string)
    | Record(run: string, session: string)

  predicate NeedsId(p: Proc) {
    p.ForkLoaded? || (p.Started? && (p.call.Snap? || p.call.Import?))
  }

  /** The child of the fork exists but is not finished. */
  predicate Forking(p: Proc) {
    p.ForkCreated? || p.ForkLoaded? || p.ForkReady? || p.ForkPut?
  }

  /** How a call ends that cannot go on. */
  function Stopped(p: Proc): Proc {
    if Forking(p) then CleaningUp(p.child.name) else Failed
  }

  /** The child's snapshot: a copy of the one read, source run included. */
  function Copy(from: Snapshot, child: Session, id: string): Snapshot {
    Snapshot(id, child.name, from.id, from.source, from.state, child.created)
  }

  function NewSession(name: string, parent: string, now: int): Session {
    Session(TrimSpace(name), parent, "", now, now)
  }

  /** At most how many steps a call still takes. */
  function Remaining(p: Proc): nat {
    match p
    case Started(_) => 6
    case ForkRead(_, _) => 5
    case ForkCreated(_, _) => 4
    case ForkLoaded(_, _) => 3
    case ForkReady(_, _, _) => 2
    case RestoreRead(_, _, _) => 2
    case ForkPut(_, _) => 1
    case RestoreLoaded(_, _, _) => 1
    case Appending(_) => 1
    case _ => 0
  }

  /** The next step of one call. */
  function TickProc(t: Tables, p: Proc, id: string): (Tables, Proc) {
    match p
    case Started(Create(name, now)) =>
      (match CreateSession(t, NewSession(name, "", now))
       case Ok(t') => (t', Done(TrimSpace(name)))
       case Err(_) => (t, Failed))
    case Started(Snap(name, state, now)) => (t, Appending(Snapshot(id, TrimSpace(name), "", "", state, now)))
    case Started(Import(name, source, state, now)) =>
      (t, Appending(Snapshot(id, TrimSpace(name), "", source, state, now)))
    case Appending(s) =>
      (match AppendSnapshot(t, s, s.created)
       case Ok((t', _)) => (t', Done(s.session))
       case Err(_) => (t, Failed))
    case Started(Fork(parent, child, now)) =>
      (match GetSession(t, TrimSpace(parent))
       case Ok(session) => (t, ForkRead(session, NewSession(child, session.name, now)))
       case Err(_) => (t, Failed))
    case ForkRead(parent, child) =>
      (match CreateSession(t, child)
       case Ok(t') => (t', if Blank(parent.current) then Done(child.name) else ForkCreated(parent.current, child))
       case Err(_) => (t, Failed))
    case ForkCreated(copied, child) =>
      (match GetSnapshot(t, copied)
       case Ok(snapshot) => (t, ForkLoaded(snapshot, child))
       case Err(_) => (t, Stopped(p)))
    case ForkLoaded(from, child) => (t, ForkReady(from, child, id))
    case ForkReady(from, child, newId) =>
      (match PutSnapshot(t, Copy(from, child, newId))
       case Ok(t') => (t', ForkPut(from, child.(current := newId)))
       case Err(_) => (t, Stopped(p)))
    case ForkPut(from, child) =>
      (match UpdateSession(t, child)
       case Ok(t') => (t', Done(child.name))
       case Err(_) => (t, Stopped(p)))
    case Started(Restore(name, snapshot, now)) =>
      (match GetSession(t, TrimSpace(name))
       case Ok(session) => (t, RestoreRead(session, TrimSpace(snapshot), now))
       case Err(_) => (t, Failed))
    case RestoreRead(session, snapshot, now) =>
      (match GetSnapshot(t, snapshot)
       case Ok(s) => (t, if s.session != session.name then Failed else RestoreLoaded(session, s, now))
       case Err(_) => (t, Failed))
    case RestoreLoaded(session, s, now) =>
      (match UpdateSession(t, session.(current := s.id, updated := now))
       case Ok(t') => (t', Done(session.name))
       case Err(_) => (t, Failed))
    case _ => (t, p)
  }

  lemma TickShrinks(t: Tables, p: Proc, id: string)
    requires Remaining(p) > 0
    ensures Remaining(TickProc(t, p, id).1) < Remaining(p)
  {
  }

  /** A call that runs by itself, with no store error. */
  function Alone(t: Tables, p: Proc, id: string): (Tables, Proc)
    decreases Remaining(p)
  {
    if Remaining(p) == 0 then (t, p)
    else
      TickShrinks(t, p, id);
      var (t', p') := TickProc(t, p, id);
      Alone(t', p', id)
  }

  /** The snapshot a step has stored, if it stores one. */
  function Stores(t: Tables, p: Proc): seq<string> {
    match p
    case Appending(s) => if AppendSnapshot(t, s, s.created).Ok? then [s.id] else []
    case ForkReady(from, child, id) => if PutSnapshot(t, Copy(from, child, id)).Ok? then [id] else []
    case _ => []
  }

  /** The session a step has created, if it creates one. */
  function Opens(t: Tables, p: Proc): seq<string> {
    match p
    case Started(Create(name, now)) => if CreateSession(t, NewSession(name, "", now)).Ok? then [TrimSpace(name)] else []
    case ForkRead(_, child) => if CreateSession(t, child).Ok? then [child.name] else []
    case _ => []
  }

  /** The generator never repeats an id and never returns a blank one. */
  predicate GoodId(s: System, p: Proc, id: string) {
    NeedsId(p) ==> !Blank(id) && id !in s.issued
  }

  function Next(s: System, a: Action): System {
    match a
    case Begin(pid, call) => if pid in s.procs then s else s.(procs := s.procs[pid := Started(call)])
    case Record(run, session) =>
      (match RecordRun(s.tables, run, session)
       case Ok(t) => s.(tables := t)
       case Err(_) => s)
    case Tick(pid, io, id) =>
      if pid !in s.procs || Remaining(s.procs[pid]) == 0 || !GoodId(s, s.procs[pid], id) then s
      else if !io then s.(procs := s.procs[pid := Stopped(s.procs[pid])])
      else
        var p := s.procs[pid];
        var (t, p') := TickProc(s.tables, p, id);
        System(
          t, s.procs[pid := p'], if NeedsId(p) then s.issued + {id} else s.issued,
          s.born + Stores(s.tables, p), s.made + Opens(s.tables, p))
  }

  function Run(s: System, actions: seq<Action>): System
    decreases |actions|
  {
    if actions == [] then s else Run(Next(s, actions[0]), actions[1..])
  }

  // --------------------------------------------------------------- evolution

  /** Sessions and runs stay, and a stored snapshot never changes. */
  ghost predicate Extends(t: Tables, t': Tables) {
    && (forall n | n in t.sessions :: n in t'.sessions
          && t'.sessions[n].parent == t.sessions[n].parent && t'.sessions[n].created == t.sessions[n].created)
    && (forall k | k in t.snapshots :: k in t'.snapshots && t'.snapshots[k] == t.snapshots[k])
    && (forall r | r in t.runs :: r in t'.runs && t'.runs[r] == t.runs[r])
  }

  // --------------------------------------------------------------- invariant

  /** The parent of a session, if any, exists, and its current snapshot, if any, is one of its own. */
  ghost predicate SessionOk(t: Tables, n: string)
    requires n in t.sessions
  {
    var s := t.sessions[n];
    && s.name == n && ValidSession(s) && s.parent == NullIfEmpty(s.parent)
    && (s.parent == "" || s.parent in t.sessions)
    && (s.current != "" ==> !Blank(s.current) && s.current in t.snapshots && t.snapshots[s.current].session == n)
  }

  /** The source run of a snapshot, if any, is one of its session. */
  ghost predicate SnapshotOk(t: Tables, k: string)
    requires k in t.snapshots
  {
    var s := t.snapshots[k];
    && s.id == k && ValidSnapshot(s) && s.session in t.sessions && (s.parent != "" ==> s.parent in t.snapshots)
    && (s.source == "" || (!Blank(s.source) && s.source in t.runs && t.runs[s.source] == s.session))
  }

  ghost predicate TablesOk(t: Tables) {
    (forall n | n in t.sessions :: SessionOk(t, n)) && (forall k | k in t.snapshots :: SnapshotOk(t, k))
  }

  /** Who is whose parent. */
  type Links = map<string, string>

  function SnapshotLinks(t: Tables): Links {
    map k | k in t.snapshots :: t.snapshots[k].parent
  }

  function SessionLinks(t: Tables): Links {
    map n | n in t.sessions :: t.sessions[n].parent
  }

  /** Everything is listed once, after its parent. */
  ghost predicate InOrder(links: Links, order: seq<string>) {
    && (forall k :: k in order <==> k in links)
    && (forall i, j | 0 <= i < j < |order| :: order[i] != order[j])
    && (forall i | 0 <= i < |order| :: links[order[i]] == "" || links[order[i]] in order[..i])
  }

  /** The child a fork has made, not yet pointing at its snapshot. */
  ghost predicate ChildOk(t: Tables, child: Session) {
    && ValidSession(child) && child.name in t.sessions && child.parent == t.sessions[child.name].parent
    && child.created == t.sessions[child.name].created && child.parent != child.name
  }

  ghost predicate StoredSnapshot(t: Tables, s: Snapshot) {
    s.id in t.snapshots && t.snapshots[s.id] == s
  }

  /** The record as a call read it, apart from what may have been updated since. */
  ghost predicate RecordOk(t: Tables, s: Session) {
    && s.name in t.sessions && s.parent == t.sessions[s.name].parent
    && s.created == t.sessions[s.name].created
  }

  /** What a call knows. */
  ghost predicate ProcOk(t: Tables, p: Proc) {
    match p
    case ForkRead(parent, child) =>
      && parent.name in t.sessions && child.parent == parent.name && child.current == ""
      && child.created == child.updated
      && (|| Blank(parent.current)
          || (parent.current in t.snapshots && t.snapshots[parent.current].session == parent.name))
    case ForkCreated(copied, child) =>
      ChildOk(t, child) && copied in t.snapshots && t.snapshots[copied].session == child.parent
    case ForkLoaded(from, child) => ChildOk(t, child) && StoredSnapshot(t, from) && from.session == child.parent
    case ForkReady(from, child, id) =>
      ChildOk(t, child) && StoredSnapshot(t, from) && from.session == child.parent && !Blank(id)
    case ForkPut(from, child) =>
      && ChildOk(t, child) && StoredSnapshot(t, from) && from.session == child.parent && from.source == ""
      && !Blank(child.current) && StoredSnapshot(t, Copy(from, child, child.current))
    case RestoreRead(session, _, _) => RecordOk(t, session)
    case RestoreLoaded(session, s, _) => RecordOk(t, session) && StoredSnapshot(t, s) && s.session == session.name
    case _ => true
  }

  /** The id a call holds and has not stored yet. */
  function Held(p: Proc): set<string> {
    match p
    case Appending(s) => {s.id}
    case ForkReady(_, _, id) => {id}
    case _ => {}
  }

  /** Held ids were issued, are not stored, and belong to one call. */
  ghost predicate HeldOk(s: System) {
    && (forall k | k in s.tables.snapshots :: k in s.issued)
    && (forall p, k | p in s.procs && k in Held(s.procs[p]) :: k in s.issued && k !in s.tables.snapshots)
    && (forall p, q, k | p in s.procs && q in s.procs && k in Held(s.procs[p]) && k in Held(s.procs[q]) :: p == q)
  }

  ghost predicate Invariant(s: System) {
    && TablesOk(s.tables)
    && InOrder(SnapshotLinks(s.tables), s.born)
    && InOrder(SessionLinks(s.tables), s.made)
    && (forall p | p in s.procs :: ProcOk(s.tables, s.procs[p]))
    && HeldOk(s)
  }
}
