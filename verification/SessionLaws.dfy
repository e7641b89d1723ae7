/** What holds under every interleaving of session calls. */
module SessionLaws {
  import opened Json
  import opened Results
  import opened Sessions
  import opened SessionStore
  import opened Text

  // -------------------------------------------------------- the transactions

  lemma CreateKeeps(t: Tables, s: Session)
    requires TablesOk(t) && CreateSession(t, s).Ok? && s.current == ""
    ensures
      var t' := CreateSession(t, s).value;
      && Extends(t, t') && TablesOk(t') && t'.snapshots == t.snapshots
      && t'.sessions == t.sessions[s.name := Stored(s)] && s.name !in t.sessions
      && (NullIfEmpty(s.parent) == "" || s.parent in t.sessions)
  {
    var t' := CreateSession(t, s).value;
    forall n | n in t'.sessions
      ensures SessionOk(t', n)
    {
      assert n != s.name ==> SessionOk(t, n);
    }
    forall k | k in t'.snapshots
      ensures SnapshotOk(t', k)
    {
      assert SnapshotOk(t, k);
    }
  }

  lemma PutKeeps(t: Tables, s: Snapshot)
    requires TablesOk(t) && PutSnapshot(t, s).Ok? && s.id !in t.snapshots
    ensures
      var t' := PutSnapshot(t, s).value;
      Extends(t, t') && TablesOk(t') && t'.sessions == t.sessions
  {
    var t' := PutSnapshot(t, s).value;
    forall n | n in t'.sessions
      ensures SessionOk(t', n)
    {
      assert SessionOk(t, n);
    }
    forall k | k in t'.snapshots
      ensures SnapshotOk(t', k)
    {
      assert k != s.id ==> SnapshotOk(t, k);
    }
  }

  lemma UpdateKeeps(t: Tables, s: Session)
    requires TablesOk(t) && UpdateSession(t, s).Ok?
    requires s.parent == t.sessions[s.name].parent && s.created == t.sessions[s.name].created
    ensures
      var t' := UpdateSession(t, s).value;
      Extends(t, t') && TablesOk(t') && t'.snapshots == t.snapshots
  {
    var t' := UpdateSession(t, s).value;
    assert SessionOk(t, s.name);
    forall n | n in t'.sessions
      ensures SessionOk(t', n)
    {
      assert n != s.name ==> SessionOk(t, n);
    }
    forall k | k in t'.snapshots
      ensures SnapshotOk(t', k)
    {
      assert SnapshotOk(t, k);
    }
  }

  lemma SessionStays(t: Tables, t': Tables, n: string)
    requires n in t.sessions && SessionOk(t, n) && n in t'.sessions && t'.sessions[n] == t.sessions[n]
    requires forall k | k in t.snapshots :: k in t'.snapshots && t'.snapshots[k] == t.snapshots[k]
    requires t.sessions.Keys <= t'.sessions.Keys
    ensures SessionOk(t', n)
  {
  }

  lemma SnapshotStays(t: Tables, t': Tables, k: string)
    requires k in t.snapshots && SnapshotOk(t, k) && k in t'.snapshots && t'.snapshots[k] == t.snapshots[k]
    requires t.sessions.Keys <= t'.sessions.Keys && t.snapshots.Keys <= t'.snapshots.Keys && t.runs == t'.runs
    ensures SnapshotOk(t', k)
  {
  }

  /** A snapshot fit to be stored. */
  predicate NewSnapshotOk(t: Tables, s: Snapshot) {
    && ValidSnapshot(s) && (s.parent != "" ==> s.parent in t.snapshots)
    && (s.source == "" || (!Blank(s.source) && s.source in t.runs && t.runs[s.source] == s.session))
  }

  lemma BothOk(t: Tables, t': Tables, s: Session, added: Snapshot)
    requires TablesOk(t) && s.name in t.sessions && added.id !in t.snapshots
    requires t' == t.(sessions := t.sessions[s.name := s], snapshots := t.snapshots[added.id := added])
    requires s == t.sessions[s.name].(current := added.id, updated := s.updated) && ValidSession(s)
    requires NewSnapshotOk(t, added) && added.session == s.name
    ensures SessionOk(t', s.name) && SnapshotOk(t', added.id)
  {
    assert SessionOk(t, s.name);
  }

  /** A session row and a new snapshot of that session are written together. */
  lemma BothKeep(t: Tables, t': Tables, s: Session, added: Snapshot)
    requires TablesOk(t) && s.name in t.sessions && added.id !in t.snapshots
    requires t' == t.(sessions := t.sessions[s.name := s], snapshots := t.snapshots[added.id := added])
    requires s == t.sessions[s.name].(current := added.id, updated := s.updated) && ValidSession(s)
    requires NewSnapshotOk(t, added) && added.session == s.name
    ensures TablesOk(t')
  {
    BothOk(t, t', s, added);
    forall n | n in t'.sessions
      ensures SessionOk(t', n)
    {
      if n != s.name {
        SessionStays(t, t', n);
      }
    }
    forall k | k in t'.snapshots
      ensures SnapshotOk(t', k)
    {
      if k != added.id {
        SnapshotStays(t, t', k);
      }
    }
  }

  lemma BothExtends(t: Tables, t': Tables, s: Session, added: Snapshot)
    requires s.name in t.sessions && added.id !in t.snapshots
    requires t' == t.(sessions := t.sessions[s.name := s], snapshots := t.snapshots[added.id := added])
    requires s == t.sessions[s.name].(current := added.id, updated := s.updated)
    ensures Extends(t, t')
  {
  }

  /** What an append writes: the session's row, pointing at the snapshot, and the snapshot itself,
      with what was current before as its parent. */
  lemma AppendWrites(t: Tables, s: Snapshot, now: int) returns (row: Session, added: Snapshot)
    requires TablesOk(t) && AppendSnapshot(t, s, now).Ok?
    ensures s.session in t.sessions && s.id !in t.snapshots && NewSnapshotOk(t, added)
    ensures added == s.(parent := t.sessions[s.session].current, source := NullIfEmpty(s.source))
    ensures row == t.sessions[s.session].(current := s.id, updated := row.updated) && ValidSession(row)
    ensures row.name == s.session
    ensures AppendSnapshot(t, s, now).value ==
            (t.(sessions := t.sessions[s.session := row], snapshots := t.snapshots[s.id := added]), added)
  {
    assert SessionOk(t, s.session);
    var session := t.sessions[s.session];
    row := session.(current := s.id, updated := if now < session.updated then session.updated else now);
    added := s.(parent := session.current, source := NullIfEmpty(s.source));
  }

  lemma AppendKeeps(t: Tables, s: Snapshot, now: int)
    requires TablesOk(t) && AppendSnapshot(t, s, now).Ok?
    ensures
      var (t', appended) := AppendSnapshot(t, s, now).value;
      Extends(t, t') && TablesOk(t') && s.id !in t.snapshots
  {
    var row, added := AppendWrites(t, s, now);
    var t' := AppendSnapshot(t, s, now).value.0;
    BothKeep(t, t', row, added);
    BothExtends(t, t', row, added);
  }

  // ---------------------------------------------------------------- one step

  /** What a call knows stays true whatever the others do. */
  lemma ProcOkStable(t: Tables, t': Tables, p: Proc)
    requires ProcOk(t, p) && Extends(t, t')
    ensures ProcOk(t', p)
  {
  }

  lemma CreateTick(t: Tables, p: Proc, id: string)
    requires TablesOk(t) && ProcOk(t, p) && (p.ForkRead? || (p.Started? && p.call.Create?))
    ensures
      var (t', p') := TickProc(t, p, id);
      Extends(t, t') && TablesOk(t') && ProcOk(t', p') && t'.snapshots == t.snapshots
  {
    var s := if p.ForkRead? then p.child else NewSession(p.call.name, "", p.call.now);
    if CreateSession(t, s).Ok? {
      CreateKeeps(t, s);
      if p.ForkRead? {
        assert SessionOk(t, p.parent.name);
      }
    }
  }

  lemma SnapTick(t: Tables, p: Proc, id: string)
    requires TablesOk(t) && p.Appending?
    ensures
      var (t', p') := TickProc(t, p, id);
      Extends(t, t') && TablesOk(t') && ProcOk(t', p')
  {
    if AppendSnapshot(t, p.snapshot, p.snapshot.created).Ok? {
      AppendKeeps(t, p.snapshot, p.snapshot.created);
    }
  }

  /** The child's snapshot is stored exactly if the one it copies names no source run: a source run is
      the parent's, and the store wants it to be the child's. */
  lemma CopyStoredIff(t: Tables, p: Proc)
    requires TablesOk(t) && ProcOk(t, p) && p.ForkReady?
    ensures PutSnapshot(t, Copy(p.from, p.child, p.id)).Ok? <==> p.from.source == ""
    ensures p.from.source == "" ==>
              PutSnapshot(t, Copy(p.from, p.child, p.id)).value ==
              t.(snapshots := t.snapshots[p.id := Copy(p.from, p.child, p.id)])
  {
    assert SnapshotOk(t, p.from.id);
  }

  lemma CopyPut(t: Tables, p: Proc)
    requires TablesOk(t) && ProcOk(t, p) && p.ForkReady? && p.id !in t.snapshots && p.from.source == ""
    ensures
      var copy := Copy(p.from, p.child, p.id);
      var t' := t.(snapshots := t.snapshots[p.id := copy]);
      && Extends(t, t') && TablesOk(t') && t'.sessions == t.sessions
      && PutSnapshot(t, copy) == Ok(t')
  {
    CopyStoredIff(t, p);
    PutKeeps(t, Copy(p.from, p.child, p.id));
  }

  lemma PutKnown(t: Tables, t': Tables, p: Proc)
    requires ProcOk(t, p) && p.ForkReady? && Extends(t, t') && p.from.source == ""
    requires StoredSnapshot(t', Copy(p.from, p.child, p.id))
    ensures ProcOk(t', ForkPut(p.from, p.child.(current := p.id)))
  {
  }

  lemma ForkPutsSnapshot(t: Tables, p: Proc, id: string)
    requires TablesOk(t) && ProcOk(t, p) && p.ForkReady? && p.id !in t.snapshots
    ensures
      var (t', p') := TickProc(t, p, id);
      && Extends(t, t') && TablesOk(t') && ProcOk(t', p')
      && (if p.from.source == "" then p' == ForkPut(p.from, p.child.(current := p.id))
          else t' == t && p' == CleaningUp(p.child.name))
  {
    if p.from.source == "" {
      CopyPut(t, p);
      PutKnown(t, TickProc(t, p, id).0, p);
    } else {
      CopyStoredIff(t, p);
    }
  }

  lemma ForkPointsChild(t: Tables, p: Proc, id: string)
    requires TablesOk(t) && ProcOk(t, p) && p.ForkPut?
    ensures
      var (t', p') := TickProc(t, p, id);
      Extends(t, t') && TablesOk(t') && ProcOk(t', p') && t'.snapshots == t.snapshots && p'.Done?
  {
    UpdateKeeps(t, p.child);
  }

  lemma RestorePoints(t: Tables, p: Proc, id: string)
    requires TablesOk(t) && ProcOk(t, p) && p.RestoreLoaded?
    ensures
      var (t', p') := TickProc(t, p, id);
      Extends(t, t') && TablesOk(t') && ProcOk(t', p') && t'.snapshots == t.snapshots
  {
    var s := p.session.(current := p.snapshot.id, updated := p.now);
    if UpdateSession(t, s).Ok? {
      UpdateKeeps(t, s);
    }
  }

  lemma ReadTick(t: Tables, p: Proc, id: string)
    requires TablesOk(t) && ProcOk(t, p) && (NeedsId(p) ==> !Blank(id))
    requires p.Started? || p.ForkCreated? || p.ForkLoaded? || p.RestoreRead? || Remaining(p) == 0
    requires !(p.Started? && p.call.Create?)
    ensures
      var (t', p') := TickProc(t, p, id);
      t' == t && ProcOk(t, p')
  {
    match p
    case Started(Fork(parent, child, now)) =>
      if TrimSpace(parent) in t.sessions {
        assert SessionOk(t, TrimSpace(parent));
      }
    case Started(Restore(name, snapshot, now)) =>
      if TrimSpace(name) in t.sessions {
        assert SessionOk(t, TrimSpace(name));
      }
    case ForkCreated(copied, child) =>
      assert SnapshotOk(t, copied);
    case RestoreRead(session, snapshot, now) =>
      if snapshot in t.snapshots {
        assert SnapshotOk(t, snapshot);
      }
    case _ =>
  }

  /** One step keeps what is stored and what the call knows. */
  lemma TickKeeps(t: Tables, p: Proc, id: string)
    requires TablesOk(t) && ProcOk(t, p) && (NeedsId(p) ==> !Blank(id))
    requires forall k | k in Held(p) :: k !in t.snapshots
    ensures
      var (t', p') := TickProc(t, p, id);
      Extends(t, t') && TablesOk(t') && ProcOk(t', p')
  {
    match p
    case Started(Create(_, _)) => CreateTick(t, p, id);
    case ForkRead(_, _) => CreateTick(t, p, id);
    case Appending(_) => SnapTick(t, p, id);
    case ForkReady(_, _, _) => ForkPutsSnapshot(t, p, id);
    case ForkPut(_, _) => ForkPointsChild(t, p, id);
    case RestoreLoaded(_, _, _) => RestorePoints(t, p, id);
    case _ => ReadTick(t, p, id);
  }

  /** The snapshots after a step: those before, and the one it stores, whose parent was there. */
  ghost predicate StoresOne(t: Tables, t': Tables, p: Proc) {
    var added := Stores(t, p);
    && (forall k :: k in t'.snapshots <==> k in t.snapshots || k in added)
    && |added| <= 1 && (forall k | k in added :: k in Held(p))
    && (forall k | k in added :: t'.snapshots[k].parent == "" || t'.snapshots[k].parent in t.snapshots)
  }

  lemma AppendStores(t: Tables, p: Proc, id: string)
    requires TablesOk(t) && p.Appending?
    ensures StoresOne(t, TickProc(t, p, id).0, p)
  {
    if AppendSnapshot(t, p.snapshot, p.snapshot.created).Ok? {
      var row, added := AppendWrites(t, p.snapshot, p.snapshot.created);
      OneMore(t, TickProc(t, p, id).0, p, added);
    }
  }

  lemma OneMore(t: Tables, t': Tables, p: Proc, s: Snapshot)
    requires t'.snapshots == t.snapshots[s.id := s] && Stores(t, p) == [s.id] && s.id in Held(p)
    requires s.parent == "" || s.parent in t.snapshots
    ensures StoresOne(t, t', p)
  {
  }

  lemma PutStores(t: Tables, p: Proc, id: string)
    requires TablesOk(t) && ProcOk(t, p) && p.ForkReady?
    ensures StoresOne(t, TickProc(t, p, id).0, p)
  {
    CopyStoredIff(t, p);
    if p.from.source == "" {
      OneMore(t, TickProc(t, p, id).0, p, Copy(p.from, p.child, p.id));
    }
  }

  lemma TickStores(t: Tables, p: Proc, id: string)
    requires TablesOk(t) && ProcOk(t, p) && (NeedsId(p) ==> !Blank(id))
    ensures StoresOne(t, TickProc(t, p, id).0, p)
  {
    match p
    case Appending(_) => AppendStores(t, p, id);
    case ForkReady(_, _, _) => PutStores(t, p, id);
    case Started(Create(_, _)) => CreateTick(t, p, id);
    case ForkRead(_, _) => CreateTick(t, p, id);
    case ForkPut(_, _) => ForkPointsChild(t, p, id);
    case RestoreLoaded(_, _, _) => RestorePoints(t, p, id);
    case _ => ReadTick(t, p, id);
  }

  /** Storing one thing after its parent keeps the order. */
  lemma OrderGrows(links: Links, links': Links, order: seq<string>, added: seq<string>)
    requires InOrder(links, order) && |added| <= 1
    requires forall k :: k in links' <==> k in links || k in added
    requires forall k | k in links :: links'[k] == links[k]
    requires forall k | k in added :: k !in links && (links'[k] == "" || links'[k] in links)
    ensures InOrder(links', order + added)
  {
    var order' := order + added;
    forall i | 0 <= i < |order'|
      ensures links'[order'[i]] == "" || links'[order'[i]] in order'[..i]
    {
      if i < |order| {
        assert order'[..i] == order[..i] && order[i] in order;
      } else {
        assert order'[..i] == order && order'[i] in added;
      }
    }
    forall i, j | 0 <= i < j < |order'|
      ensures order'[i] != order'[j]
    {
      if j >= |order| {
        assert order[i] in order && order'[j] in added;
      }
    }
  }

  lemma BornStep(t: Tables, p: Proc, id: string, born: seq<string>)
    requires TablesOk(t) && ProcOk(t, p) && (NeedsId(p) ==> !Blank(id)) && InOrder(SnapshotLinks(t), born)
    requires forall k | k in Held(p) :: k !in t.snapshots
    ensures InOrder(SnapshotLinks(TickProc(t, p, id).0), born + Stores(t, p))
  {
    TickKeeps(t, p, id);
    TickStores(t, p, id);
    OrderGrows(SnapshotLinks(t), SnapshotLinks(TickProc(t, p, id).0), born, Stores(t, p));
  }

  /** The sessions after a step: those before, and the one it creates, whose parent was there. */
  ghost predicate OpensOne(t: Tables, t': Tables, p: Proc) {
    var added := Opens(t, p);
    && (forall n :: n in t'.sessions <==> n in t.sessions || n in added)
    && |added| <= 1 && (forall n | n in added :: n !in t.sessions)
    && (forall n | n in added :: t'.sessions[n].parent == "" || t'.sessions[n].parent in t.sessions)
  }

  lemma CreateOpens(t: Tables, p: Proc, id: string)
    requires TablesOk(t) && ProcOk(t, p) && (p.ForkRead? || (p.Started? && p.call.Create?))
    ensures OpensOne(t, TickProc(t, p, id).0, p)
  {
    var s := if p.ForkRead? then p.child else NewSession(p.call.name, "", p.call.now);
    if CreateSession(t, s).Ok? {
      CreateKeeps(t, s);
      assert Opens(t, p) == [s.name];
      assert TickProc(t, p, id).0 == CreateSession(t, s).value;
    }
  }

  lemma TickOpens(t: Tables, p: Proc, id: string)
    requires TablesOk(t) && ProcOk(t, p) && (NeedsId(p) ==> !Blank(id))
    requires forall k | k in Held(p) :: k !in t.snapshots
    ensures OpensOne(t, TickProc(t, p, id).0, p)
  {
    if p.ForkRead? || (p.Started? && p.call.Create?) {
      CreateOpens(t, p, id);
    } else {
      SameSessions(t, p, id);
    }
  }

  lemma AppendSameSessions(t: Tables, p: Proc, id: string)
    requires TablesOk(t) && p.Appending?
    ensures TickProc(t, p, id).0.sessions.Keys == t.sessions.Keys
  {
    if AppendSnapshot(t, p.snapshot, p.snapshot.created).Ok? {
      var row, added := AppendWrites(t, p.snapshot, p.snapshot.created);
      assert TickProc(t, p, id).0.sessions == t.sessions[p.snapshot.session := row];
    }
  }

  lemma UpdateSameSessions(t: Tables, p: Proc, id: string)
    requires p.ForkPut? || p.RestoreLoaded?
    ensures TickProc(t, p, id).0.sessions.Keys == t.sessions.Keys
  {
  }

  lemma OtherSameSessions(t: Tables, p: Proc, id: string)
    requires !WritesSession(p)
    ensures TickProc(t, p, id).0.sessions.Keys == t.sessions.Keys
  {
    WritesNoSession(t, p, id);
  }

  lemma SameSessions(t: Tables, p: Proc, id: string)
    requires TablesOk(t) && !p.ForkRead? && !(p.Started? && p.call.Create?)
    ensures TickProc(t, p, id).0.sessions.Keys == t.sessions.Keys && Opens(t, p) == []
  {
    if p.Appending? {
      AppendSameSessions(t, p, id);
    } else if p.ForkPut? || p.RestoreLoaded? {
      UpdateSameSessions(t, p, id);
    } else {
      OtherSameSessions(t, p, id);
    }
  }

  lemma MadeStep(t: Tables, p: Proc, id: string, made: seq<string>)
    requires TablesOk(t) && ProcOk(t, p) && (NeedsId(p) ==> !Blank(id)) && InOrder(SessionLinks(t), made)
    requires forall k | k in Held(p) :: k !in t.snapshots
    ensures InOrder(SessionLinks(TickProc(t, p, id).0), made + Opens(t, p))
  {
    TickKeeps(t, p, id);
    TickOpens(t, p, id);
    OrderGrows(SessionLinks(t), SessionLinks(TickProc(t, p, id).0), made, Opens(t, p));
  }

  lemma RecordKeeps(t: Tables, id: string, session: string)
    requires TablesOk(t) && RecordRun(t, id, session).Ok?
    ensures
      var t' := RecordRun(t, id, session).value;
      Extends(t, t') && TablesOk(t') && t'.sessions == t.sessions && t'.snapshots == t.snapshots
  {
    var t' := RecordRun(t, id, session).value;
    forall n | n in t'.sessions
      ensures SessionOk(t', n)
    {
      assert SessionOk(t, n);
    }
    forall k | k in t'.snapshots
      ensures SnapshotOk(t', k)
    {
      assert SnapshotOk(t, k);
    }
  }

  // ------------------------------------------------------------ the invariant

  lemma NextExtends(s: System, a: Action)
    requires Invariant(s)
    ensures Extends(s.tables, Next(s, a).tables) && TablesOk(Next(s, a).tables)
  {
    if a.Tick? && a.pid in s.procs && GoodId(s, s.procs[a.pid], a.id) {
      TickKeeps(s.tables, s.procs[a.pid], a.id);
    }
    if a.Record? && RecordRun(s.tables, a.run, a.session).Ok? {
      RecordKeeps(s.tables, a.run, a.session);
    }
  }

  /** The action is a step some call really takes. */
  predicate Steps(s: System, a: Action) {
    a.Tick? && a.pid in s.procs && Remaining(s.procs[a.pid]) > 0 && GoodId(s, s.procs[a.pid], a.id) && a.io
  }

  lemma NextBorn(s: System, a: Action)
    requires Invariant(s)
    ensures InOrder(SnapshotLinks(Next(s, a).tables), Next(s, a).born)
  {
    if Steps(s, a) {
      BornStep(s.tables, s.procs[a.pid], a.id, s.born);
    } else {
      assert SnapshotLinks(Next(s, a).tables) == SnapshotLinks(s.tables);
    }
  }

  lemma NextMade(s: System, a: Action)
    requires Invariant(s)
    ensures InOrder(SessionLinks(Next(s, a).tables), Next(s, a).made)
  {
    if Steps(s, a) {
      MadeStep(s.tables, s.procs[a.pid], a.id, s.made);
    } else {
      assert SessionLinks(Next(s, a).tables) == SessionLinks(s.tables);
    }
  }

  lemma NextProc(s: System, a: Action, p: nat)
    requires Invariant(s) && p in Next(s, a).procs
    ensures ProcOk(Next(s, a).tables, Next(s, a).procs[p])
  {
    NextExtends(s, a);
    if Steps(s, a) && p == a.pid {
      TickKeeps(s.tables, s.procs[p], a.id);
    }
    if p in s.procs {
      ProcOkStable(s.tables, Next(s, a).tables, s.procs[p]);
    }
  }

  /** A step takes hold only of the id it asked for, and lets go of the one it stores. */
  lemma TickHeld(t: Tables, p: Proc, id: string)
    ensures
      var (t', p') := TickProc(t, p, id);
      && Held(p') == (if NeedsId(p) then {id} else {})
      && (NeedsId(p) ==> Held(p) == {} && t' == t)
  {
  }

  /** Where a held id after a step comes from: the same call held it, or was just given it. */
  lemma HeldBefore(s: System, a: Action, p: nat, k: string)
    requires p in Next(s, a).procs && k in Held(Next(s, a).procs[p])
    ensures p in s.procs
    ensures (k in Held(s.procs[p]) && !(Steps(s, a) && a.pid == p))
            || (Steps(s, a) && a.pid == p && NeedsId(s.procs[p]) && k == a.id && k !in s.issued)
  {
    if Steps(s, a) && a.pid == p {
      TickHeld(s.tables, s.procs[p], a.id);
    }
  }

  lemma NextIssued(s: System, a: Action, k: string)
    requires Invariant(s) && k in Next(s, a).tables.snapshots
    ensures k in Next(s, a).issued
    ensures k in s.tables.snapshots || (Steps(s, a) && k in Held(s.procs[a.pid]))
  {
    if Steps(s, a) {
      TickStores(s.tables, s.procs[a.pid], a.id);
    }
  }

  lemma NextHeld(s: System, a: Action)
    requires Invariant(s)
    ensures HeldOk(Next(s, a))
  {
    var s' := Next(s, a);
    forall k | k in s'.tables.snapshots
      ensures k in s'.issued
    {
      NextIssued(s, a, k);
    }
    forall p, k | p in s'.procs && k in Held(s'.procs[p])
      ensures k in s'.issued && k !in s'.tables.snapshots
    {
      HeldBefore(s, a, p, k);
      if k in s'.tables.snapshots {
        NextIssued(s, a, k);
      }
    }
    forall p, q, k | p in s'.procs && q in s'.procs && k in Held(s'.procs[p]) && k in Held(s'.procs[q])
      ensures p == q
    {
      HeldBefore(s, a, p, k);
      HeldBefore(s, a, q, k);
    }
  }

  lemma NextInvariant(s: System, a: Action)
    requires Invariant(s)
    ensures Invariant(Next(s, a))
  {
    NextExtends(s, a);
    NextBorn(s, a);
    NextMade(s, a);
    NextHeld(s, a);
    forall p | p in Next(s, a).procs
      ensures ProcOk(Next(s, a).tables, Next(s, a).procs[p])
    {
      NextProc(s, a, p);
    }
  }

  /** Under every interleaving: the current snapshot of a session belongs to it, snapshots have
      their parents stored before them, and every call's knowledge stays true. */
  lemma {:induction false} RunInvariant(s: System, actions: seq<Action>)
    requires Invariant(s)
    ensures Invariant(Run(s, actions)) && Extends(s.tables, Run(s, actions).tables)
    decreases |actions|
  {
    if actions != [] {
      NextExtends(s, actions[0]);
      NextInvariant(s, actions[0]);
      RunInvariant(Next(s, actions[0]), actions[1..]);
    }
  }

  lemma InitSound()
    ensures Invariant(INIT)
  {
  }

  // -------------------------------------------------- parent links lead to a root

  /** The n-th ancestor; "" above a root. */
  function Up(links: Links, id: string, n: nat): string
    decreases n
  {
    if n == 0 || id !in links then id else Up(links, links[id], n - 1)
  }

  lemma {:induction false} LinksEndAt(links: Links, order: seq<string>, i: nat)
    requires InOrder(links, order) && i < |order| && "" !in links
    ensures exists n: nat :: n <= i + 1 && Up(links, order[i], n) == ""
    decreases i
  {
    assert order[i] in order;
    var parent := links[order[i]];
    if parent == "" {
      assert Up(links, order[i], 1) == Up(links, "", 0) == "";
    } else {
      var j :| 0 <= j < i && order[j] == parent;
      LinksEndAt(links, order, j);
      var n: nat :| n <= j + 1 && Up(links, parent, n) == "";
      assert Up(links, order[i], n + 1) == "";
    }
  }

  lemma SnapshotLinksIs(t: Tables)
    requires TablesOk(t)
    ensures SnapshotLinks(t).Keys == t.snapshots.Keys && "" !in t.snapshots
    ensures |SnapshotLinks(t)| == |t.snapshots|
  {
    forall k | k in t.snapshots
      ensures k != ""
    {
      assert SnapshotOk(t, k);
    }
    assert SnapshotLinks(t).Keys == t.snapshots.Keys;
    assert |SnapshotLinks(t)| == |SnapshotLinks(t).Keys| && |t.snapshots| == |t.snapshots.Keys|;
  }

  lemma SessionLinksIs(t: Tables)
    requires TablesOk(t)
    ensures SessionLinks(t).Keys == t.sessions.Keys && "" !in t.sessions
    ensures |SessionLinks(t)| == |t.sessions|
  {
    forall n | n in t.sessions
      ensures n != ""
    {
      assert SessionOk(t, n);
    }
    assert SessionLinks(t).Keys == t.sessions.Keys;
    assert |SessionLinks(t)| == |SessionLinks(t).Keys| && |t.sessions| == |t.sessions.Keys|;
  }

  /** Parent links of snapshots never form a cycle: from every snapshot they lead to a root, in no
      more steps than there are snapshots. */
  lemma ParentsEnd(s: System, id: string)
    requires Invariant(s) && id in s.tables.snapshots
    ensures exists n: nat :: n <= |s.tables.snapshots| && Up(SnapshotLinks(s.tables), id, n) == ""
  {
    SnapshotLinksIs(s.tables);
    LinksEnd(SnapshotLinks(s.tables), s.born, id);
  }

  /** Likewise the parent links of sessions. */
  lemma SessionParentsEnd(s: System, name: string)
    requires Invariant(s) && name in s.tables.sessions
    ensures exists n: nat :: n <= |s.tables.sessions| && Up(SessionLinks(s.tables), name, n) == ""
  {
    SessionLinksIs(s.tables);
    LinksEnd(SessionLinks(s.tables), s.made, name);
  }

  lemma LinksEnd(links: Links, order: seq<string>, id: string)
    requires InOrder(links, order) && id in links && "" !in links
    ensures exists n: nat :: n <= |links| && Up(links, id, n) == ""
  {
    var i :| 0 <= i < |order| && order[i] == id;
    LinksEndAt(links, order, i);
    OrderSize(order, links.Keys);
    var n: nat :| n <= i + 1 && Up(links, id, n) == "";
    assert |links| == |links.Keys|;
  }

  lemma {:induction false} OrderSize(order: seq<string>, all: set<string>)
    requires (forall k :: k in order <==> k in all) && forall i, j | 0 <= i < j < |order| :: order[i] != order[j]
    ensures |order| == |all|
  {
    if order == [] {
      assert all == {};
    } else {
      var front, last := order[..|order| - 1], order[|order| - 1];
      assert order == front + [last];
      assert forall i | 0 <= i < |front| :: order[i] != order[|order| - 1];
      OrderSize(front, all - {last});
    }
  }

  // ------------------------------------------------------- sessions are apart

  /** The one session a call may change. */
  function Target(p: Proc): string {
    match p
    case Started(Create(name, _)) => TrimSpace(name)
    case Started(Snap(name, _, _)) => TrimSpace(name)
    case Started(Fork(_, child, _)) => TrimSpace(child)
    case Started(Restore(name, _, _)) => TrimSpace(name)
    case Started(Import(name, _, _, _)) => TrimSpace(name)
    case Appending(s) => s.session
    case ForkRead(_, child) => child.name
    case ForkCreated(_, child) => child.name
    case ForkLoaded(_, child) => child.name
    case ForkReady(_, child, _) => child.name
    case ForkPut(_, child) => child.name
    case RestoreRead(session, _, _) => session.name
    case RestoreLoaded(session, _, _) => session.name
    case Done(name) => name
    case CleaningUp(orphan) => orphan
    case Failed => ""
  }

  lemma TargetRestore(t: Tables, p: Proc, id: string)
    requires TablesOk(t) && p.Started? && p.call.Restore?
    ensures TickProc(t, p, id).1.Failed? || Target(TickProc(t, p, id).1) == Target(p)
  {
    RestoreStarts(t, p, id);
    if TrimSpace(p.call.name) in t.sessions {
      assert SessionOk(t, TrimSpace(p.call.name));
    }
  }

  lemma RestoreStarts(t: Tables, p: Proc, id: string)
    requires p.Started? && p.call.Restore?
    ensures
      var name := TrimSpace(p.call.name);
      TickProc(t, p, id).1 ==
      if name in t.sessions then RestoreRead(t.sessions[name], TrimSpace(p.call.id), p.call.now) else Failed
  {
  }

  lemma TargetCreate(t: Tables, p: Proc, id: string)
    requires p.Started? && p.call.Create?
    ensures TickProc(t, p, id).1.Failed? || Target(TickProc(t, p, id).1) == Target(p)
  {
  }

  lemma TargetStarted(t: Tables, p: Proc, id: string)
    requires TablesOk(t) && p.Started?
    ensures TickProc(t, p, id).1.Failed? || Target(TickProc(t, p, id).1) == Target(p)
  {
    match p.call
    case Restore(_, _, _) => TargetRestore(t, p, id);
    case Create(_, _) => TargetCreate(t, p, id);
    case _ => TargetReads(t, p, id);
  }

  lemma TargetReads(t: Tables, p: Proc, id: string)
    requires p.Started? && (p.call.Snap? || p.call.Import? || p.call.Fork?)
    ensures TickProc(t, p, id).1.Failed? || Target(TickProc(t, p, id).1) == Target(p)
  {
  }

  lemma TargetFork(t: Tables, p: Proc, id: string)
    requires Forking(p) || p.ForkRead?
    ensures TickProc(t, p, id).1.Failed? || Target(TickProc(t, p, id).1) == Target(p)
  {
  }

  lemma TargetElse(t: Tables, p: Proc, id: string)
    requires !p.Started? && !Forking(p) && !p.ForkRead?
    ensures TickProc(t, p, id).1.Failed? || Target(TickProc(t, p, id).1) == Target(p)
  {
  }

  /** A call keeps to its session until it fails. */
  lemma TargetFixed(t: Tables, p: Proc, id: string)
    requires TablesOk(t)
    ensures TickProc(t, p, id).1.Failed? || Target(TickProc(t, p, id).1) == Target(p)
  {
    if p.Started? {
      TargetStarted(t, p, id);
    } else if Forking(p) || p.ForkRead? {
      TargetFork(t, p, id);
    } else {
      TargetElse(t, p, id);
    }
  }

  /** A step of one call leaves every session but its target as it is, with the state it is in. */
  lemma OthersUntouched(s: System, a: Action, n: string)
    requires Invariant(s) && n in s.tables.sessions
    requires Steps(s, a) ==> n != Target(s.procs[a.pid])
    ensures n in Next(s, a).tables.sessions && Next(s, a).tables.sessions[n] == s.tables.sessions[n]
    ensures CurrentSnapshot(Next(s, a).tables, n) == CurrentSnapshot(s.tables, n)
  {
    NextExtends(s, a);
    assert SessionOk(s.tables, n);
    if Steps(s, a) {
      RowKept(s.tables, s.procs[a.pid], a.id, n);
    }
  }

  lemma CreateOther(t: Tables, s: Session, n: string)
    requires n in t.sessions && n != s.name && CreateSession(t, s).Ok?
    ensures n in CreateSession(t, s).value.sessions && CreateSession(t, s).value.sessions[n] == t.sessions[n]
  {
  }

  lemma UpdateOther(t: Tables, s: Session, n: string)
    requires n in t.sessions && n != s.name && UpdateSession(t, s).Ok?
    ensures n in UpdateSession(t, s).value.sessions && UpdateSession(t, s).value.sessions[n] == t.sessions[n]
  {
  }

  lemma CreatesOther(t: Tables, p: Proc, id: string, n: string)
    requires TablesOk(t) && n in t.sessions && n != Target(p)
    requires p.ForkRead? || (p.Started? && p.call.Create?)
    ensures n in TickProc(t, p, id).0.sessions && TickProc(t, p, id).0.sessions[n] == t.sessions[n]
  {
    var s := if p.ForkRead? then p.child else NewSession(p.call.name, "", p.call.now);
    if CreateSession(t, s).Ok? {
      CreateOther(t, s, n);
    }
  }

  lemma UpdatesOther(t: Tables, p: Proc, id: string, n: string)
    requires TablesOk(t) && n in t.sessions && n != Target(p)
    requires p.ForkPut? || p.RestoreLoaded?
    ensures n in TickProc(t, p, id).0.sessions && TickProc(t, p, id).0.sessions[n] == t.sessions[n]
  {
    var s := if p.ForkPut? then p.child else p.session.(current := p.snapshot.id, updated := p.now);
    if UpdateSession(t, s).Ok? {
      UpdateOther(t, s, n);
    }
  }

  lemma AppendsOther(t: Tables, p: Proc, id: string, n: string)
    requires TablesOk(t) && n in t.sessions && n != Target(p) && p.Appending?
    ensures n in TickProc(t, p, id).0.sessions && TickProc(t, p, id).0.sessions[n] == t.sessions[n]
  {
    if AppendSnapshot(t, p.snapshot, p.snapshot.created).Ok? {
      var row, added := AppendWrites(t, p.snapshot, p.snapshot.created);
    }
  }

  predicate WritesSession(p: Proc) {
    p.ForkRead? || (p.Started? && p.call.Create?) || p.ForkPut? || p.RestoreLoaded? || p.Appending?
  }

  lemma WritesNoSession(t: Tables, p: Proc, id: string)
    requires !WritesSession(p)
    ensures TickProc(t, p, id).0.sessions == t.sessions
  {
  }

  lemma RowKept(t: Tables, p: Proc, id: string, n: string)
    requires TablesOk(t) && n in t.sessions && n != Target(p)
    ensures n in TickProc(t, p, id).0.sessions && TickProc(t, p, id).0.sessions[n] == t.sessions[n]
  {
    if !WritesSession(p) {
      WritesNoSession(t, p, id);
    } else if p.Appending? {
      AppendsOther(t, p, id, n);
    } else if p.ForkPut? || p.RestoreLoaded? {
      UpdatesOther(t, p, id, n);
    } else {
      CreatesOther(t, p, id, n);
    }
  }

  // -------------------------------------------------------- what calls achieve

  /** A snapshot becomes the current one, on top of what was current. */
  lemma SnapshotIsCurrent(t: Tables, p: Proc, id: string)
    requires TablesOk(t) && p.Appending? && TickProc(t, p, id).1.Done?
    ensures
      var t' := TickProc(t, p, id).0;
      && p.snapshot.session in t.sessions
      && CurrentSnapshot(t', p.snapshot.session)
         == Ok(p.snapshot.(parent := t.sessions[p.snapshot.session].current, source := NullIfEmpty(p.snapshot.source)))
  {
    var row, added := AppendWrites(t, p.snapshot, p.snapshot.created);
  }

  /** A finished restore leaves the session in the state of the snapshot. */
  lemma RestoreIsCurrent(t: Tables, p: Proc, id: string)
    requires TablesOk(t) && ProcOk(t, p) && p.RestoreLoaded? && TickProc(t, p, id).1.Done?
    ensures CurrentSnapshot(TickProc(t, p, id).0, p.session.name) == Ok(p.snapshot)
  {
    assert SnapshotOk(t, p.snapshot.id);
  }

  /** A finished fork leaves the child in a snapshot of its own with the state it read. */
  lemma ForkIsCurrent(t: Tables, p: Proc, id: string)
    requires TablesOk(t) && ProcOk(t, p) && p.ForkPut?
    ensures
      var (t', p') := TickProc(t, p, id);
      && p' == Done(p.child.name)
      && CurrentSnapshot(t', p.child.name) == Ok(Copy(p.from, p.child, p.child.current))
  {
    ForkPointsChild(t, p, id);
  }

  // ------------------------------------------- when a fork has to be cleaned up

  /** The snapshot a fork past the creation of its child copies. */
  ghost function Copied(t: Tables, p: Proc): Snapshot
    requires ProcOk(t, p) && Forking(p)
  {
    if p.ForkCreated? then t.snapshots[p.copied] else p.from
  }

  lemma ForkGoesOnIff(t: Tables, p: Proc, id: string)
    requires TablesOk(t) && ProcOk(t, p) && Forking(p) && (p.ForkReady? ==> p.id !in t.snapshots)
    ensures
      var p' := TickProc(t, p, id).1;
      && (p'.CleaningUp? <==> p.ForkReady? && Copied(t, p).source != "")
      && (p'.CleaningUp? || (if p.ForkPut? then p'.Done? else Forking(p')))
  {
    match p
    case ForkReady(_, _, _) => ForkPutsSnapshot(t, p, id);
    case ForkPut(_, _) => ForkPointsChild(t, p, id);
    case _ =>
  }

  lemma StuckForkChangesNothing(t: Tables, p: Proc, id: string)
    requires TablesOk(t) && ProcOk(t, p) && Forking(p) && (p.ForkReady? ==> p.id !in t.snapshots)
    requires TickProc(t, p, id).1.CleaningUp?
    ensures TickProc(t, p, id).0 == t
  {
    if p.ForkReady? {
      ForkPutsSnapshot(t, p, id);
    } else {
      ForkGoesOnIff(t, p, id);
    }
  }

  /** The snapshot a fork copies stays the same to the end. */
  lemma CopiedFixed(t: Tables, p: Proc, id: string)
    requires TablesOk(t) && ProcOk(t, p) && Forking(p) && (p.ForkReady? ==> p.id !in t.snapshots)
    requires NeedsId(p) ==> !Blank(id)
    ensures
      var (t', p') := TickProc(t, p, id);
      ProcOk(t', p') && (Forking(p') ==> Copied(t', p') == Copied(t, p))
  {
    TickKeeps(t, p, id);
    if p.ForkReady? {
      ForkPutsSnapshot(t, p, id);
    }
  }

  /** In every reachable state a fork whose child exists can only fail, store errors apart, when it
      stores the copy, and fails then exactly if the snapshot it copies names a source run. */
  lemma ForkStuckIff(s: System, pid: nat, id: string)
    requires Invariant(s) && pid in s.procs && GoodId(s, s.procs[pid], id) && Forking(s.procs[pid])
    ensures
      var p, s' := s.procs[pid], Next(s, Tick(pid, true, id));
      && (s'.procs[pid].CleaningUp? <==> p.ForkReady? && Copied(s.tables, p).source != "")
      && (s'.procs[pid].CleaningUp? ==> s'.tables == s.tables)
      && (!s'.procs[pid].CleaningUp? ==> s'.procs[pid].Done? || Forking(s'.procs[pid]))
  {
    var p := s.procs[pid];
    assert p.ForkReady? ==> p.id in Held(p);
    NextTick(s, pid, id);
    var (t', p') := TickProc(s.tables, p, id);
    ForkGoesOnIff(s.tables, p, id);
    if p'.CleaningUp? {
      StuckForkChangesNothing(s.tables, p, id);
    }
  }

  lemma NextTick(s: System, pid: nat, id: string)
    requires pid in s.procs && GoodId(s, s.procs[pid], id) && Remaining(s.procs[pid]) > 0
    ensures
      var s', (t', p') := Next(s, Tick(pid, true, id)), TickProc(s.tables, s.procs[pid], id);
      pid in s'.procs && s'.procs[pid] == p' && s'.tables == t'
  {
  }

  /** The run uses the four calls only: no other writer appends snapshots with source runs. */
  predicate FourCalls(actions: seq<Action>) {
    forall i | 0 <= i < |actions| && actions[i].Begin? :: !actions[i].call.Import?
  }

  /** No snapshot names a source run, stored or about to be. */
  ghost predicate NoSources(s: System) {
    Sourceless(s.tables) && (forall p | p in s.procs :: NoSource(s.procs[p]))
  }

  predicate NoSource(p: Proc) {
    && (p.Started? ==> !p.call.Import?)
    && (p.Appending? ==> p.snapshot.source == "")
    && (p.ForkLoaded? || p.ForkReady? || p.ForkPut? ==> p.from.source == "")
  }

  ghost predicate Sourceless(t: Tables) {
    forall k | k in t.snapshots :: t.snapshots[k].source == ""
  }

  lemma NoSourceAppend(t: Tables, p: Proc, id: string)
    requires TablesOk(t) && p.Appending? && NoSource(p) && Sourceless(t)
    ensures NoSource(TickProc(t, p, id).1) && Sourceless(TickProc(t, p, id).0)
  {
    if AppendSnapshot(t, p.snapshot, p.snapshot.created).Ok? {
      var row, added := AppendWrites(t, p.snapshot, p.snapshot.created);
      assert TickProc(t, p, id).0.snapshots == t.snapshots[p.snapshot.id := added];
    }
  }

  lemma NoSourceReady(t: Tables, p: Proc, id: string)
    requires TablesOk(t) && ProcOk(t, p) && p.ForkReady? && NoSource(p) && Sourceless(t)
    ensures NoSource(TickProc(t, p, id).1) && Sourceless(TickProc(t, p, id).0)
  {
    CopyStoredIff(t, p);
  }

  lemma NoSourceElse(t: Tables, p: Proc, id: string)
    requires NoSource(p) && Sourceless(t) && !p.ForkReady? && !p.Appending?
    ensures NoSource(TickProc(t, p, id).1) && TickProc(t, p, id).0.snapshots == t.snapshots
  {
  }

  lemma NoSourceTick(t: Tables, p: Proc, id: string)
    requires TablesOk(t) && ProcOk(t, p) && NoSource(p) && Sourceless(t)
    ensures NoSource(TickProc(t, p, id).1) && Sourceless(TickProc(t, p, id).0)
  {
    if p.Appending? {
      NoSourceAppend(t, p, id);
    } else if p.ForkReady? {
      NoSourceReady(t, p, id);
    } else {
      NoSourceElse(t, p, id);
    }
  }

  lemma NextNoSources(s: System, a: Action)
    requires Invariant(s) && NoSources(s) && (a.Begin? ==> !a.call.Import?)
    ensures NoSources(Next(s, a))
  {
    if Steps(s, a) {
      NoSourceTick(s.tables, s.procs[a.pid], a.id);
    }
  }

  lemma {:induction false} FourCallsNoSources(s: System, actions: seq<Action>)
    requires Invariant(s) && NoSources(s) && FourCalls(actions)
    ensures NoSources(Run(s, actions))
    decreases |actions|
  {
    if actions != [] {
      NextNoSources(s, actions[0]);
      NextInvariant(s, actions[0]);
      assert forall i | 0 <= i < |actions[1..]| :: actions[1..][i] == actions[i + 1];
      FourCallsNoSources(Next(s, actions[0]), actions[1..]);
    }
  }

  /** In runs of the four calls a fork whose child exists fails only on a store error. */
  lemma ForkNeverStuck(actions: seq<Action>, pid: nat, id: string)
    requires FourCalls(actions)
    requires
      var s := Run(INIT, actions);
      pid in s.procs && GoodId(s, s.procs[pid], id) && Forking(s.procs[pid])
    ensures !Next(Run(INIT, actions), Tick(pid, true, id)).procs[pid].CleaningUp?
  {
    var s := Run(INIT, actions);
    InitSound();
    RunInvariant(INIT, actions);
    FourCallsNoSources(INIT, actions);
    ForkStuckIff(s, pid, id);
  }

  // ------------------------------------------------- the parent's state as read

  lemma {:induction false} RunSnoc(s: System, actions: seq<Action>, a: Action)
    ensures Run(s, actions + [a]) == Next(Run(s, actions), a)
    decreases |actions|
  {
    if actions == [] {
      assert actions + [a] == [a];
      assert Run(s, [a]) == Run(Next(s, a), []);
    } else {
      assert (actions + [a])[0] == actions[0] && (actions + [a])[1..] == actions[1..] + [a];
      RunSnoc(Next(s, actions[0]), actions[1..], a);
    }
  }

  /** Step i of the run is the one in which fork `pid` reads its parent `name`, and the parent is then
      in this very snapshot. */
  ghost predicate ReadAt(actions: seq<Action>, i: nat, pid: nat, name: string, from: Snapshot)
    requires i < |actions|
  {
    var s := Run(INIT, actions[..i]);
    && actions[i].Tick? && actions[i].pid == pid && pid in s.procs
    && s.procs[pid].Started? && s.procs[pid].call.Fork? && TrimSpace(s.procs[pid].call.parent) == name
    && CurrentSnapshot(s.tables, name) == Ok(from)
  }

  ghost predicate WasRead(actions: seq<Action>, pid: nat, name: string, from: Snapshot) {
    exists i :: 0 <= i < |actions| && ReadAt(actions, i, pid, name, from)
  }

  lemma WasReadLater(actions: seq<Action>, a: Action, pid: nat, name: string, from: Snapshot)
    requires WasRead(actions, pid, name, from)
    ensures WasRead(actions + [a], pid, name, from)
  {
    var i :| 0 <= i < |actions| && ReadAt(actions, i, pid, name, from);
    assert (actions + [a])[..i] == actions[..i];
    assert ReadAt(actions + [a], i, pid, name, from);
  }

  /** A fork that is going to copy a snapshot, or has copied one, and which. */
  ghost predicate Copying(t: Tables, p: Proc) {
    ProcOk(t, p) && (Forking(p) || (p.ForkRead? && !Blank(p.parent.current)))
  }

  ghost function Original(t: Tables, p: Proc): Snapshot
    requires Copying(t, p)
  {
    if p.ForkRead? then t.snapshots[p.parent.current] else Copied(t, p)
  }

  function ParentName(p: Proc): string
    requires Forking(p) || p.ForkRead?
  {
    p.child.parent
  }

  lemma OriginalStable(t: Tables, t': Tables, p: Proc)
    requires Copying(t, p) && Extends(t, t')
    ensures Copying(t', p) && Original(t', p) == Original(t, p)
  {
    ProcOkStable(t, t', p);
  }

  /** Once the parent is read the fork keeps to what it has read. */
  lemma OriginalTick(t: Tables, p: Proc, id: string)
    requires TablesOk(t) && ProcOk(t, p) && (NeedsId(p) ==> !Blank(id))
    requires forall k | k in Held(p) :: k !in t.snapshots
    requires !p.Started? && Copying(TickProc(t, p, id).0, TickProc(t, p, id).1)
    ensures
      var (t', p') := TickProc(t, p, id);
      Copying(t, p) && Original(t', p') == Original(t, p) && ParentName(p') == ParentName(p)
  {
    if p.ForkRead? {
      OriginalCreates(t, p, id);
    } else if Forking(p) {
      CopiedFixed(t, p, id);
      ForkKeepsParent(t, p, id);
    } else {
      OthersDoNotCopy(t, p, id);
    }
  }

  lemma OthersDoNotCopy(t: Tables, p: Proc, id: string)
    requires !p.Started? && !p.ForkRead? && !Forking(p)
    ensures !TickProc(t, p, id).1.ForkRead? && !Forking(TickProc(t, p, id).1)
  {
  }

  lemma ForkKeepsParent(t: Tables, p: Proc, id: string)
    requires Forking(p) && Forking(TickProc(t, p, id).1)
    ensures ParentName(TickProc(t, p, id).1) == ParentName(p)
  {
  }

  lemma OriginalCreates(t: Tables, p: Proc, id: string)
    requires TablesOk(t) && ProcOk(t, p) && p.ForkRead?
    requires Copying(TickProc(t, p, id).0, TickProc(t, p, id).1)
    ensures
      var (t', p') := TickProc(t, p, id);
      Copying(t, p) && Original(t', p') == Original(t, p) && ParentName(p') == ParentName(p)
  {
    CreateTick(t, p, id);
  }

  lemma FirstStepReads(t: Tables, p: Proc, id: string)
    requires p.Started? && TickProc(t, p, id).1.ForkRead?
    ensures p.call.Fork? && TrimSpace(p.call.parent) in t.sessions
    ensures
      var parent := t.sessions[TrimSpace(p.call.parent)];
      TickProc(t, p, id) == (t, ForkRead(parent, NewSession(p.call.child, parent.name, p.call.now)))
  {
  }

  lemma FirstStepForks(t: Tables, p: Proc, id: string)
    requires p.Started?
    ensures !Forking(TickProc(t, p, id).1)
  {
  }

  /** The step that reads the parent finds it in the snapshot the fork is going to copy. */
  lemma OriginalRead(t: Tables, p: Proc, id: string)
    requires TablesOk(t) && p.Started? && Copying(TickProc(t, p, id).0, TickProc(t, p, id).1)
    ensures
      var (t', p') := TickProc(t, p, id);
      && p.call.Fork? && TrimSpace(p.call.parent) == ParentName(p')
      && CurrentSnapshot(t, ParentName(p')) == Ok(Original(t', p'))
  {
    FirstStepForks(t, p, id);
    FirstStepReads(t, p, id);
    assert SessionOk(t, TrimSpace(p.call.parent));
  }

  ghost predicate ReadByFork(actions: seq<Action>, pid: nat) {
    var s := Run(INIT, actions);
    pid in s.procs && Copying(s.tables, s.procs[pid]) ==>
      WasRead(actions, pid, ParentName(s.procs[pid]), Original(s.tables, s.procs[pid]))
  }

  lemma ReadStep(actions: seq<Action>, a: Action, pid: nat)
    requires Invariant(Run(INIT, actions)) && ReadByFork(actions, pid)
    requires Steps(Run(INIT, actions), a) && a.pid == pid
    ensures ReadByFork(actions + [a], pid)
  {
    var s := Run(INIT, actions);
    var p := s.procs[pid];
    RunSnoc(INIT, actions, a);
    var (t', p') := TickProc(s.tables, p, a.id);
    if Copying(t', p') {
      if p.Started? {
        OriginalRead(s.tables, p, a.id);
        assert (actions + [a])[..|actions|] == actions;
        assert ReadAt(actions + [a], |actions|, pid, ParentName(p'), Original(t', p'));
      } else {
        OriginalTick(s.tables, p, a.id);
        WasReadLater(actions, a, pid, ParentName(p), Original(s.tables, p));
      }
    }
  }

  lemma ReadElsewhere(actions: seq<Action>, a: Action, pid: nat)
    requires Invariant(Run(INIT, actions)) && ReadByFork(actions, pid)
    requires !(Steps(Run(INIT, actions), a) && a.pid == pid)
    ensures ReadByFork(actions + [a], pid)
  {
    var s := Run(INIT, actions);
    RunSnoc(INIT, actions, a);
    NextExtends(s, a);
    var s' := Next(s, a);
    if pid in s'.procs && Copying(s'.tables, s'.procs[pid]) {
      assert s'.procs[pid] == s.procs[pid];
      OriginalStable(s.tables, s'.tables, s.procs[pid]);
      WasReadLater(actions, a, pid, ParentName(s.procs[pid]), Original(s.tables, s.procs[pid]));
    }
  }

  /** In every run, what a fork copies is the snapshot its parent was in when the fork read it. */
  lemma {:induction false} ForkReadsParent(actions: seq<Action>, pid: nat)
    ensures ReadByFork(actions, pid)
    decreases |actions|
  {
    if actions != [] {
      var front, a := actions[..|actions| - 1], actions[|actions| - 1];
      assert front + [a] == actions;
      InitSound();
      RunInvariant(INIT, front);
      ForkReadsParent(front, pid);
      if Steps(Run(INIT, front), a) && a.pid == pid {
        ReadStep(front, a, pid);
      } else {
        ReadElsewhere(front, a, pid);
      }
    }
  }

  /** In every run, the step that finishes a fork leaves the child in a snapshot of its own whose
      content and parent are the snapshot the fork's parent was in when the fork read it. */
  lemma FinishedForkStartsFromParent(actions: seq<Action>, pid: nat, id: string)
    requires pid in Run(INIT, actions).procs && Run(INIT, actions).procs[pid].ForkPut?
    ensures
      var p := Run(INIT, actions).procs[pid];
      var s' := Run(INIT, actions + [Tick(pid, true, id)]);
      && pid in s'.procs && s'.procs[pid] == Done(p.child.name)
      && WasRead(actions, pid, p.child.parent, p.from)
      && CurrentSnapshot(s'.tables, p.child.name) == Ok(Copy(p.from, p.child, p.child.current))
  {
    var s := Run(INIT, actions);
    InitSound();
    RunInvariant(INIT, actions);
    ForkReadsParent(actions, pid);
    RunSnoc(INIT, actions, Tick(pid, true, id));
    ForkIsCurrent(s.tables, s.procs[pid], id);
  }
}
