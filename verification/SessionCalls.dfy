/** When session calls succeed and what they leave, said over the fields of the rows. */
module SessionCalls {
  import opened Json
  import opened Results
  import opened SessionLaws
  import opened Sessions
  import opened SessionStore
  import opened Text

  // -------------------------------------------------------- the transactions

  /** The run a snapshot names, if it names one, was recorded in its session. */
  predicate SourceKnown(t: Tables, s: Snapshot) {
    Blank(s.source) || (s.source in t.runs && t.runs[s.source] == s.session)
  }

  /** A snapshot is appended exactly if it is complete and new, its session exists, and its source run
      is one of the session. */
  lemma AppendAcceptedIff(t: Tables, s: Snapshot, now: int)
    requires TablesOk(t)
    ensures AppendSnapshot(t, s, now).Ok? <==>
            && !Blank(s.id) && !Blank(s.session) && s.created != 0 && now != 0
            && s.session in t.sessions && s.id !in t.snapshots && SourceKnown(t, s)
    ensures AppendSnapshot(t, s, now) == Err(NotFound) <==>
            && !Blank(s.id) && !Blank(s.session) && s.created != 0 && now != 0
            && (s.session !in t.sessions || (!Blank(s.source) && s.source !in t.runs))
  {
    if s.session in t.sessions {
      assert SessionOk(t, s.session);
    }
  }

  /** An appended snapshot is the child of the one that was current, and is current itself. */
  lemma AppendGives(t: Tables, s: Snapshot, now: int)
    requires TablesOk(t) && AppendSnapshot(t, s, now).Ok?
    ensures s.session in t.sessions
    ensures
      var (t', added) := AppendSnapshot(t, s, now).value;
      var was := t.sessions[s.session];
      && added == Snapshot(s.id, s.session, was.current, if Blank(s.source) then "" else s.source, s.state, s.created)
      && t'.snapshots == t.snapshots[s.id := added] && t'.runs == t.runs
      && t'.sessions
         == t.sessions[s.session := Session(
              s.session, was.parent, s.id, was.created, if now < was.updated then was.updated else now)]
  {
    assert SessionOk(t, s.session);
  }

  function OrNone(s: string): string {
    if Blank(s) then "" else s
  }

  /** A session is created exactly once, at a time, under an existing parent if any. */
  lemma CreateAcceptedIff(t: Tables, s: Session)
    ensures CreateSession(t, s).Ok? <==>
            && !Blank(s.name) && s.created != 0 && s.updated != 0 && s.created <= s.updated
            && s.name !in t.sessions && (Blank(s.parent) || s.parent in t.sessions)
    ensures CreateSession(t, s).Ok? ==> CreateSession(t, s).value == WithRow(t, s)
    ensures CreateSession(t, s) != Err(NotFound)
  {
  }

  /** The tables with one session row written, a blank parent or current snapshot as none. */
  function WithRow(t: Tables, s: Session): Tables {
    var row := Session(s.name, OrNone(s.parent), OrNone(s.current), s.created, s.updated);
    Tables(t.sessions[s.name := row], t.snapshots, t.runs)
  }

  /** A session row is written exactly if it is complete, the session exists, and the snapshot it points
      at, if any, is one of the session. */
  lemma UpdateAcceptedIff(t: Tables, s: Session)
    ensures UpdateSession(t, s).Ok? <==>
            && !Blank(s.name) && s.created != 0 && s.updated != 0 && s.created <= s.updated && s.name in t.sessions
            && (Blank(s.current) || (s.current in t.snapshots && t.snapshots[s.current].session == s.name))
    ensures UpdateSession(t, s).Ok? ==> UpdateSession(t, s).value == WithRow(t, s)
  {
  }

  lemma UpdateNotFoundIff(t: Tables, s: Session)
    ensures UpdateSession(t, s) == Err(NotFound) <==>
            && !Blank(s.name) && s.created != 0 && s.updated != 0 && s.created <= s.updated
            && if Blank(s.current) then s.name !in t.sessions
               else s.current in t.snapshots ==> s.name !in t.sessions && t.snapshots[s.current].session == s.name
  {
  }

  /** A snapshot is put exactly if it is complete, its session and its parent exist, and its source run
      is one of the session. */
  lemma PutAcceptedIff(t: Tables, s: Snapshot)
    ensures PutSnapshot(t, s).Ok? <==>
            && !Blank(s.id) && !Blank(s.session) && s.created != 0 && s.session in t.sessions
            && (Blank(s.parent) || s.parent in t.snapshots) && SourceKnown(t, s)
    ensures PutSnapshot(t, s).Ok? ==>
              var row := Snapshot(s.id, s.session, OrNone(s.parent), OrNone(s.source), s.state, s.created);
              PutSnapshot(t, s).value == Tables(t.sessions, t.snapshots[s.id := row], t.runs)
    ensures PutSnapshot(t, s) == Err(NotFound) <==>
            && !Blank(s.id) && !Blank(s.session) && s.created != 0
            && (s.session !in t.sessions || (!Blank(s.parent) && s.parent !in t.snapshots)
                || (!Blank(s.source) && s.source !in t.runs))
  {
  }

  /** A run is recorded exactly once, in a session. */
  lemma RecordAcceptedIff(t: Tables, id: string, session: string)
    ensures RecordRun(t, id, session).Ok? <==> !Blank(id) && !Blank(session) && id !in t.runs
    ensures RecordRun(t, id, session).Ok? ==>
              RecordRun(t, id, session).value == Tables(t.sessions, t.snapshots, t.runs[id := session])
  {
  }

  // ---------------------------------------------------------- calls that run alone

  lemma CreateAlone(t: Tables, name: string, now: int)
    ensures
      var created := CreateSession(t, NewSession(name, "", now));
      Alone(t, Started(Create(name, now)), "")
      == if created.Ok? then (created.value, Done(TrimSpace(name))) else (t, Failed)
  {
    var p := Started(Create(name, now));
    var (t', p') := TickProc(t, p, "");
    AloneStep(t, p, "", t', p');
    AloneEnds(t', p', "");
  }

  lemma SnapAlone(t: Tables, name: string, state: Json, id: string, now: int)
    ensures
      var appended := AppendSnapshot(t, Snapshot(id, TrimSpace(name), "", "", state, now), now);
      Alone(t, Started(Snap(name, state, now)), id)
      == if appended.Ok? then (appended.value.0, Done(TrimSpace(name))) else (t, Failed)
  {
    var p := Appending(Snapshot(id, TrimSpace(name), "", "", state, now));
    AloneStep(t, Started(Snap(name, state, now)), id, t, p);
    var (t', p') := TickProc(t, p, id);
    AloneStep(t, p, id, t', p');
    AloneEnds(t', p', id);
  }

  /** What a restore running by itself comes to. */
  function Restored(t: Tables, n: string, k: string, now: int): (Tables, Proc) {
    if n !in t.sessions || k !in t.snapshots || t.snapshots[k].session != t.sessions[n].name then (t, Failed)
    else match UpdateSession(t, t.sessions[n].(current := t.snapshots[k].id, updated := now))
      case Ok(t') => (t', Done(t.sessions[n].name))
      case Err(_) => (t, Failed)
  }

  lemma AloneFails(t: Tables, p: Proc, id: string)
    requires Remaining(p) > 0 && TickProc(t, p, id) == (t, Failed)
    ensures Alone(t, p, id) == (t, Failed)
  {
    AloneStep(t, p, id, t, Failed);
    AloneEnds(t, Failed, id);
  }

  lemma RestoreReads(t: Tables, n: string, k: string, now: int)
    requires n in t.sessions
    ensures Alone(t, RestoreRead(t.sessions[n], k, now), "") == Restored(t, n, k, now)
  {
    if k !in t.snapshots || t.snapshots[k].session != t.sessions[n].name {
      AloneFails(t, RestoreRead(t.sessions[n], k, now), "");
    } else {
      RestoreTail(t, t.sessions[n], k, now);
    }
  }

  lemma RestoreAlone(t: Tables, name: string, id: string, now: int)
    ensures Alone(t, Started(Restore(name, id, now)), "") == Restored(t, TrimSpace(name), TrimSpace(id), now)
  {
    var p := Started(Restore(name, id, now));
    if TrimSpace(name) !in t.sessions {
      AloneFails(t, p, "");
    } else {
      AloneStep(t, p, "", t, RestoreRead(t.sessions[TrimSpace(name)], TrimSpace(id), now));
      RestoreReads(t, TrimSpace(name), TrimSpace(id), now);
    }
  }

  /** Writing a session last: the call ends with the row updated, or fails and changes nothing. */
  lemma ForkUpdates(t: Tables, p: Proc, id: string)
    requires p.ForkPut?
    ensures Alone(t, p, id)
            == match UpdateSession(t, p.child) case Ok(t') => (t', Done(p.child.name)) case Err(_) => (t, Stopped(p))
  {
    var (t', p') := TickProc(t, p, id);
    AloneStep(t, p, id, t', p');
    AloneEnds(t', p', id);
  }

  lemma RestoreUpdates(t: Tables, p: Proc, id: string)
    requires p.RestoreLoaded?
    ensures
      var s := p.session.(current := p.snapshot.id, updated := p.now);
      Alone(t, p, id) == match UpdateSession(t, s) case Ok(t') => (t', Done(s.name)) case Err(_) => (t, Stopped(p))
  {
    var (t', p') := TickProc(t, p, id);
    AloneStep(t, p, id, t', p');
    AloneEnds(t', p', id);
  }

  lemma RestoreTail(t: Tables, session: Session, snapshot: string, now: int)
    requires snapshot in t.snapshots && t.snapshots[snapshot].session == session.name
    ensures
      var s := session.(current := t.snapshots[snapshot].id, updated := now);
      Alone(t, RestoreRead(session, snapshot, now), "")
      == match UpdateSession(t, s) case Ok(t') => (t', Done(s.name)) case Err(_) => (t, Failed)
  {
    var p := RestoreLoaded(session, t.snapshots[snapshot], now);
    AloneStep(t, RestoreRead(session, snapshot, now), "", t, p);
    RestoreUpdates(t, p, "");
  }

  lemma ForkReadyRefused(t: Tables, from: Snapshot, child: Session, id: string)
    requires TablesOk(t) && ProcOk(t, ForkReady(from, child, id)) && id !in t.snapshots && from.source != ""
    ensures PutSnapshot(t, Copy(from, child, id)).Err?
    ensures Alone(t, ForkReady(from, child, id), id) == (t, CleaningUp(child.name))
  {
    var p := ForkReady(from, child, id);
    CopyStoredIff(t, p);
    ForkPutsSnapshot(t, p, id);
    AloneStep(t, p, id, t, CleaningUp(child.name));
    AloneEnds(t, CleaningUp(child.name), id);
  }

  lemma ForkReadyTail(t: Tables, from: Snapshot, child: Session, id: string)
    requires TablesOk(t) && ProcOk(t, ForkReady(from, child, id)) && id !in t.snapshots && from.source == ""
    ensures
      var put := PutSnapshot(t, Copy(from, child, id));
      && put.Ok?
      && var updated := UpdateSession(put.value, child.(current := id));
         updated.Ok? && Alone(t, ForkReady(from, child, id), id) == (updated.value, Done(child.name))
  {
    var p3, p4 := ForkReady(from, child, id), ForkPut(from, child.(current := id));
    ForkPutsSnapshot(t, p3, id);
    var t' := TickProc(t, p3, id).0;
    CopyPut(t, p3);
    AloneStep(t, p3, id, t', p4);
    ForkPointsChild(t', p4, id);
    ForkUpdates(t', p4, id);
  }

  lemma ForkReads(t: Tables, source: string, child: Session, id: string)
    requires source in t.snapshots
    ensures Alone(t, ForkCreated(source, child), id) == Alone(t, ForkReady(t.snapshots[source], child, id), id)
  {
    var from := t.snapshots[source];
    AloneStep(t, ForkCreated(source, child), id, t, ForkLoaded(from, child));
    ForkGetsId(t, from, child, id);
  }

  lemma ForkGetsId(t: Tables, from: Snapshot, child: Session, id: string)
    ensures Alone(t, ForkLoaded(from, child), id) == Alone(t, ForkReady(from, child, id), id)
  {
    AloneStep(t, ForkLoaded(from, child), id, t, ForkReady(from, child, id));
  }

  lemma ForkTail(t: Tables, copied: string, child: Session, id: string)
    requires TablesOk(t) && ProcOk(t, ForkCreated(copied, child)) && !Blank(id) && id !in t.snapshots
    ensures
      var put := PutSnapshot(t, Copy(t.snapshots[copied], child, id));
      var end := Alone(t, ForkCreated(copied, child), id);
      if t.snapshots[copied].source != "" then put.Err? && end == (t, CleaningUp(child.name))
      else
        && put.Ok?
        && var updated := UpdateSession(put.value, child.(current := id));
           updated.Ok? && end == (updated.value, Done(child.name))
  {
    var from := t.snapshots[copied];
    assert SnapshotOk(t, copied);
    if from.source == "" {
      ForkReadyTail(t, from, child, id);
    } else {
      ForkReadyRefused(t, from, child, id);
    }
    ForkReads(t, copied, child, id);
  }

  /** The parent is there and the child can be created. */
  predicate CanFork(t: Tables, parent: string, child: string, now: int) {
    parent in t.sessions && CreateSession(t, NewSession(child, t.sessions[parent].name, now)).Ok?
  }

  /** The session is in a snapshot that names a source run. */
  predicate Borrowed(t: Tables, name: string) {
    CurrentSnapshot(t, name).Ok? && CurrentSnapshot(t, name).value.source != ""
  }

  function WithoutRuns(t: Tables, name: string): Tables {
    t.(runs := map r | r in t.runs && t.runs[r] != name :: t.runs[r])
  }

  lemma UnlinkedSame(t: Tables, name: string, k: string)
    requires TablesOk(t) && name !in t.sessions && k in t.snapshots
    ensures t.snapshots[k].session != name && Unlinked(t, name, t.snapshots[k]) == t.snapshots[k]
  {
    var s := t.snapshots[k];
    assert SnapshotOk(t, k);
    if s.parent in t.snapshots {
      assert SnapshotOk(t, s.parent);
    }
  }

  lemma NoChildren(t: Tables, name: string)
    requires TablesOk(t) && !Blank(name) && name !in t.sessions
    ensures forall n | n in t.sessions :: t.sessions[n].parent != name
  {
    forall n | n in t.sessions
      ensures t.sessions[n].parent != name
    {
      assert SessionOk(t, n);
    }
  }

  lemma DeleteAddedSessions(t: Tables, t': Tables, row: Session)
    requires row.name !in t.sessions && t'.sessions == t.sessions[row.name := row]
    requires forall n | n in t.sessions :: t.sessions[n].parent != row.name
    ensures DeleteSession(t', row.name).sessions == t.sessions
  {
    var left := DeleteSession(t', row.name).sessions;
    assert left.Keys == t.sessions.Keys;
  }

  lemma DeleteAddedRuns(t: Tables, t': Tables, name: string)
    requires t'.runs == t.runs
    ensures DeleteSession(t', name).runs == WithoutRuns(t, name).runs
  {
  }

  lemma DeleteAddedSnapshots(t: Tables, t': Tables, row: Session)
    requires TablesOk(t) && !Blank(row.name) && row.name !in t.sessions
    requires t' == t.(sessions := t.sessions[row.name := row])
    ensures DeleteSession(t', row.name).snapshots == t.snapshots
  {
    forall k | k in t.snapshots
      ensures t.snapshots[k].session != row.name && Unlinked(t', row.name, t.snapshots[k]) == t.snapshots[k]
    {
      UnlinkedSame(t, row.name, k);
    }
  }

  /** Deleting a session that was just created takes away nothing but the runs recorded under its
      name. */
  lemma DeleteUndoesCreate(t: Tables, s: Session)
    requires TablesOk(t) && CreateSession(t, s).Ok? && s.current == ""
    ensures DeleteSession(CreateSession(t, s).value, s.name) == WithoutRuns(t, s.name)
  {
    var t' := CreateSession(t, s).value;
    NoChildren(t, s.name);
    DeleteAddedSessions(t, t', Stored(s));
    DeleteAddedRuns(t, t', s.name);
    DeleteAddedSnapshots(t, t', Stored(s));
  }

  /** What holds once the child of a fork exists. */
  lemma ChildMade(t: Tables, name: string, s: Session, id: string)
    requires TablesOk(t) && name in t.sessions && CreateSession(t, s).Ok?
    requires s == Session(s.name, t.sessions[name].name, "", s.created, s.created)
    ensures
      var from, t' := t.sessions[name], CreateSession(t, s).value;
      && TablesOk(t') && t'.snapshots == t.snapshots && DeleteSession(t', s.name) == WithoutRuns(t, s.name)
      && (if Blank(from.current) then !Borrowed(t, name)
          else && ProcOk(t', ForkCreated(from.current, s))
               && (Borrowed(t, name) <==> t.snapshots[from.current].source != ""))
  {
    assert SessionOk(t, name);
    CreateTick(t, ForkRead(t.sessions[name], s), id);
    DeleteUndoesCreate(t, s);
  }

  /** The first two steps of a fork. */
  lemma ForkStart(t: Tables, parent: string, child: string, id: string, now: int)
    requires TrimSpace(parent) in t.sessions
    ensures
      var from := t.sessions[TrimSpace(parent)];
      Alone(t, Started(Fork(parent, child, now)), id) == ForkRest(t, from, NewSession(child, from.name, now), id)
  {
    var from := t.sessions[TrimSpace(parent)];
    var s := NewSession(child, from.name, now);
    AloneStep(t, Started(Fork(parent, child, now)), id, t, ForkRead(from, s));
    ForkCreates(t, from, s, id);
  }

  /** What a fork comes to once the parent is read. */
  ghost function ForkRest(t: Tables, from: Session, s: Session, id: string): (Tables, Proc) {
    var created := CreateSession(t, s);
    if created.Err? then (t, Failed)
    else if Blank(from.current) then (created.value, Done(s.name))
    else Alone(created.value, ForkCreated(from.current, s), id)
  }

  lemma ForkCreates(t: Tables, from: Session, s: Session, id: string)
    ensures Alone(t, ForkRead(from, s), id) == ForkRest(t, from, s, id)
  {
    var (t', p') := TickProc(t, ForkRead(from, s), id);
    AloneStep(t, ForkRead(from, s), id, t', p');
    if Remaining(p') == 0 {
      AloneEnds(t', p', id);
    }
  }

  lemma AloneStep(t: Tables, p: Proc, id: string, t': Tables, p': Proc)
    requires Remaining(p) > 0 && TickProc(t, p, id) == (t', p')
    ensures Alone(t, p, id) == Alone(t', p', id)
  {
  }

  lemma AloneEnds(t: Tables, p: Proc, id: string)
    requires Remaining(p) == 0
    ensures Alone(t, p, id) == (t, p)
  {
  }

  lemma RestoredIsCurrent(t: Tables, n: string, k: string, now: int)
    requires TablesOk(t) && Restored(t, n, k, now).1.Done?
    ensures CurrentSnapshot(Restored(t, n, k, now).0, n) == Ok(t.snapshots[k])
  {
    assert SessionOk(t, n);
    assert SnapshotOk(t, k);
  }

  // ------------------------------------------------------------------- calls

  /** Create succeeds exactly for a new name that is not blank. */
  lemma CreateSucceedsIff(t: Tables, name: string, now: int)
    ensures
      var n, (t', p) := TrimSpace(name), Alone(t, Started(Create(name, now)), "");
      && (p.Done? <==> n != "" && now != 0 && n !in t.sessions)
      && t' == if p.Done? then t.(sessions := t.sessions[n := Session(n, "", "", now, now)]) else t
  {
    TrimIdempotent(name);
    CreateAlone(t, name, now);
  }

  /** Snapshot succeeds exactly in an existing session with a new id, whether the session has been in a
      snapshot before or not; the session is then in the state given, on top of where it was. */
  lemma SnapSucceedsIff(t: Tables, name: string, state: Json, id: string, now: int)
    requires TablesOk(t)
    ensures
      var n, (t', p) := TrimSpace(name), Alone(t, Started(Snap(name, state, now)), id);
      && (p.Done? <==> !Blank(id) && id !in t.snapshots && now != 0 && n in t.sessions)
      && (if p.Done? then
            CurrentSnapshot(t', n) == Ok(Snapshot(id, n, t.sessions[n].current, "", state, now))
          else t' == t)
  {
    var n := TrimSpace(name);
    var s := Snapshot(id, n, "", "", state, now);
    TrimIdempotent(name);
    SnapAlone(t, name, state, id, now);
    AppendAcceptedIff(t, s, now);
    if n in t.sessions {
      assert SessionOk(t, n);
    }
    if AppendSnapshot(t, s, now).Ok? {
      AppendGives(t, s, now);
    }
  }

  /** Restore succeeds exactly if the snapshot is one of the session and the session is not younger than
      the call; it is then in that snapshot. */
  lemma RestoreSucceedsIff(t: Tables, name: string, id: string, now: int)
    requires TablesOk(t)
    ensures
      var n, k, (t', p) := TrimSpace(name), TrimSpace(id), Alone(t, Started(Restore(name, id, now)), "");
      && (p.Done? <==>
            && n in t.sessions && k in t.snapshots && t.snapshots[k].session == n
            && now != 0 && t.sessions[n].created <= now)
      && (if p.Done? then CurrentSnapshot(t', n) == Ok(t.snapshots[k]) else t' == t)
      && (p.Done? ==> t' == WithRow(t, Session(n, t.sessions[n].parent, k, t.sessions[n].created, now)))
  {
    var n, k := TrimSpace(name), TrimSpace(id);
    RestoreAlone(t, name, id, now);
    if n in t.sessions {
      assert SessionOk(t, n);
    }
    if k in t.snapshots {
      assert SnapshotOk(t, k);
    }
    if Restored(t, n, k, now).1.Done? {
      RestoredIsCurrent(t, n, k, now);
    }
  }

  /** A fork can begin exactly if the parent exists and the child has a new name that is not blank. */
  lemma CanForkIff(t: Tables, parent: string, child: string, now: int)
    requires TablesOk(t)
    ensures CanFork(t, parent, child, now) <==>
            parent in t.sessions && TrimSpace(child) != "" && TrimSpace(child) !in t.sessions && now != 0
  {
    TrimIdempotent(child);
    if parent in t.sessions {
      assert SessionOk(t, parent);
    }
  }

  /** Fork succeeds exactly if it can begin and the parent is in no snapshot with a source run; the child
      is then in a copy of the parent's snapshot, if the parent is in one.  A fork that cannot begin
      changes nothing. */
  lemma ForkSucceedsIff(t: Tables, parent: string, child: string, id: string, now: int)
    requires TablesOk(t) && !Blank(id) && id !in t.snapshots
    ensures
      var n, c, (t', p) := TrimSpace(parent), TrimSpace(child), Alone(t, Started(Fork(parent, child, now)), id);
      && (p.Done? <==> CanFork(t, n, child, now) && !Borrowed(t, n))
      && (p.CleaningUp? <==> CanFork(t, n, child, now) && Borrowed(t, n))
      && (!CanFork(t, n, child, now) ==> t' == t)
      && (p.Done? ==>
            match CurrentSnapshot(t, n)
            case Ok(from) => CurrentSnapshot(t', c) == Ok(Snapshot(id, c, from.id, "", from.state, now))
            case Err(_) => CurrentSnapshot(t', c).Err?)
  {
    var n := TrimSpace(parent);
    if n !in t.sessions {
      AloneFails(t, Started(Fork(parent, child, now)), id);
    } else {
      ForkStart(t, parent, child, id, now);
      ForkRestIs(t, n, NewSession(child, t.sessions[n].name, now), id);
    }
  }

  lemma ForkRestIs(t: Tables, n: string, s: Session, id: string)
    requires TablesOk(t) && !Blank(id) && id !in t.snapshots && n in t.sessions
    requires s == Session(s.name, t.sessions[n].name, "", s.created, s.created)
    ensures
      var (t', p) := ForkRest(t, t.sessions[n], s, id);
      var can := CreateSession(t, s).Ok?;
      && (p.Done? <==> can && !Borrowed(t, n)) && (p.CleaningUp? <==> can && Borrowed(t, n))
      && (!can ==> t' == t)
      && (p.Done? ==>
            match CurrentSnapshot(t, n)
            case Ok(from) => CurrentSnapshot(t', s.name) == Ok(Snapshot(id, s.name, from.id, "", from.state, s.created))
            case Err(_) => CurrentSnapshot(t', s.name).Err?)
  {
    assert SessionOk(t, n);
    if CreateSession(t, s).Ok? {
      ChildMade(t, n, s, id);
      var t1 := CreateSession(t, s).value;
      if !Blank(t.sessions[n].current) {
        ForkTail(t1, t.sessions[n].current, s, id);
        if !Borrowed(t, n) {
          ForkTailIsCurrent(t1, t.snapshots[t.sessions[n].current], s, id);
        }
      }
    }
  }

  lemma ForkTailIsCurrent(t: Tables, from: Snapshot, s: Session, id: string)
    requires !Blank(id) && from.source == "" && PutSnapshot(t, Copy(from, s, id)).Ok?
    requires UpdateSession(PutSnapshot(t, Copy(from, s, id)).value, s.(current := id)).Ok? && !Blank(from.id)
    ensures
      var t' := UpdateSession(PutSnapshot(t, Copy(from, s, id)).value, s.(current := id)).value;
      CurrentSnapshot(t', s.name) == Ok(Snapshot(id, s.name, from.id, "", from.state, s.created))
  {
  }

  // ----------------------------------------------------------------- deletion

  /** Deleting a session keeps the tables consistent and takes away the session, its snapshots and the
      runs of its name; the others keep everything but what pointed at it. */
  lemma DeleteTakesAway(t: Tables, name: string)
    requires TablesOk(t)
    ensures
      var t' := DeleteSession(t, name);
      && t'.sessions.Keys == t.sessions.Keys - {name}
      && (forall k :: k in t'.snapshots <==> k in t.snapshots && t.snapshots[k].session != name)
      && (forall r :: r in t'.runs <==> r in t.runs && t.runs[r] != name)
      && (forall n | n in t'.sessions ::
            && t'.sessions[n].parent == (if t.sessions[n].parent == name then "" else t.sessions[n].parent)
            && t'.sessions[n] == t.sessions[n].(parent := t'.sessions[n].parent))
      && (forall k | k in t'.snapshots ::
            t'.snapshots[k] == t.snapshots[k].(parent := t'.snapshots[k].parent, source := t'.snapshots[k].source))
  {
  }

  /** A snapshot that is left keeps its parent and its source run unless they went with the session. */
  lemma DeleteUnlinks(t: Tables, name: string, k: string)
    requires TablesOk(t) && k in DeleteSession(t, name).snapshots
    ensures
      var s, s' := t.snapshots[k], DeleteSession(t, name).snapshots[k];
      && s'.parent == (if s.parent in t.snapshots && s.parent !in DeleteSession(t, name).snapshots then "" else s.parent)
      && s'.source == (if s.source in t.runs && s.source !in DeleteSession(t, name).runs then "" else s.source)
  {
  }

  lemma DeleteKeepsSessions(t: Tables, name: string, n: string)
    requires TablesOk(t) && n in DeleteSession(t, name).sessions
    ensures SessionOk(DeleteSession(t, name), n)
  {
    assert SessionOk(t, n);
  }

  lemma DeleteKeepsSnapshots(t: Tables, name: string, k: string)
    requires TablesOk(t) && k in DeleteSession(t, name).snapshots
    ensures SnapshotOk(DeleteSession(t, name), k)
  {
    assert SnapshotOk(t, k);
  }

  lemma DeleteKeeps(t: Tables, name: string)
    requires TablesOk(t)
    ensures TablesOk(DeleteSession(t, name))
  {
    forall n | n in DeleteSession(t, name).sessions
      ensures SessionOk(DeleteSession(t, name), n)
    {
      DeleteKeepsSessions(t, name, n);
    }
    forall k | k in DeleteSession(t, name).snapshots
      ensures SnapshotOk(DeleteSession(t, name), k)
    {
      DeleteKeepsSnapshots(t, name, k);
    }
  }

  // ------------------------------------------------------------ over whole runs

  /** Whatever happened since a snapshot was stored, restoring it succeeds exactly if it is one of the
      session and the session is not younger than the call, and brings its very content back. */
  lemma StateComesBack(s: System, actions: seq<Action>, name: string, id: string, now: int)
    requires Invariant(s) && TrimSpace(id) in s.tables.snapshots
    ensures
      var n, k := TrimSpace(name), TrimSpace(id);
      var (t', p) := Alone(Run(s, actions).tables, Started(Restore(name, id, now)), "");
      && (p.Done? <==>
            && s.tables.snapshots[k].session == n && n in s.tables.sessions
            && now != 0 && s.tables.sessions[n].created <= now)
      && (p.Done? ==> CurrentSnapshot(t', n) == Ok(s.tables.snapshots[k]))
  {
    RunInvariant(s, actions);
    assert SnapshotOk(s.tables, TrimSpace(id));
    RestoreSucceedsIff(Run(s, actions).tables, name, id, now);
  }
}
