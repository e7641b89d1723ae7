/** The session manager over its store, as objects: each method runs the steps of the interleaved
    model one after the other. */
module SessionManager {
  import opened Json
  import opened Results
  import opened SessionCalls
  import opened SessionLaws
  import opened Sessions
  import opened SessionStore
  import opened Text

  class Store {
    var sessions: map<string, Session>
    var snapshots: map<string, Snapshot>
    var runs: map<string, string>

    ghost function Rows(): Tables
      reads this
    {
      Tables(sessions, snapshots, runs)
    }

    constructor ()
      ensures Rows() == Tables(map[], map[], map[])
    {
      sessions, snapshots, runs := map[], map[], map[];
    }

    method Create(s: Session) returns (r: Result<(), Error>)
      modifies this`sessions
      ensures match CreateSession(old(Rows()), s)
              case Ok(t) => r.Ok? && Rows() == t
              case Err(e) => r == Err(e) && Rows() == old(Rows())
    {
      if !ValidSession(s) || s.name in sessions {
        return Err(Rejected);
      }
      if NullIfEmpty(s.parent) != "" && s.parent !in sessions {
        return Err(Rejected);
      }
      sessions := sessions[s.name := Stored(s)];
      r := Ok(());
    }

    method Update(s: Session) returns (r: Result<(), Error>)
      modifies this`sessions
      ensures match UpdateSession(old(Rows()), s)
              case Ok(t) => r.Ok? && Rows() == t
              case Err(e) => r == Err(e) && Rows() == old(Rows())
    {
      if !ValidSession(s) {
        return Err(Rejected);
      }
      if !Blank(s.current) {
        if s.current !in snapshots {
          return Err(NotFound);
        }
        if snapshots[s.current].session != s.name {
          return Err(Rejected);
        }
      }
      if s.name !in sessions {
        return Err(NotFound);
      }
      sessions := sessions[s.name := Stored(s)];
      r := Ok(());
    }

    method Put(s: Snapshot) returns (r: Result<(), Error>)
      modifies this`snapshots
      ensures match PutSnapshot(old(Rows()), s)
              case Ok(t) => r.Ok? && Rows() == t
              case Err(e) => r == Err(e) && Rows() == old(Rows())
    {
      if !ValidSnapshot(s) {
        return Err(Rejected);
      }
      if s.session !in sessions || (!Blank(s.parent) && s.parent !in snapshots) {
        return Err(NotFound);
      }
      if !Blank(s.source) {
        if s.source !in runs {
          return Err(NotFound);
        }
        if runs[s.source] != s.session {
          return Err(Rejected);
        }
      }
      snapshots := snapshots[s.id := Normal(s)];
      r := Ok(());
    }

    method Append(s: Snapshot, now: int) returns (r: Result<Snapshot, Error>)
      modifies this
      ensures match AppendSnapshot(old(Rows()), s, now)
              case Ok((t, added)) => r == Ok(added) && Rows() == t
              case Err(e) => r == Err(e) && Rows() == old(Rows())
    {
      if !ValidSnapshot(s) || now == 0 {
        return Err(Rejected);
      }
      if s.session !in sessions {
        return Err(NotFound);
      }
      var session, added := sessions[s.session], s.(parent := "", source := NullIfEmpty(s.source));
      if !Blank(session.current) {
        if session.current !in snapshots {
          return Err(NotFound);
        }
        if snapshots[session.current].session != session.name {
          return Err(Rejected);
        }
        added := added.(parent := session.current);
      }
      if !Blank(s.source) {
        if s.source !in runs {
          return Err(NotFound);
        }
        if runs[s.source] != s.session {
          return Err(Rejected);
        }
      }
      var updated := session.(current := s.id, updated := if now < session.updated then session.updated else now);
      if !ValidSession(updated) || s.id in snapshots {
        return Err(Rejected);
      }
      snapshots := snapshots[s.id := added];
      sessions := sessions[session.name := updated];
      r := Ok(added);
    }

    method Delete(name: string) returns (r: Result<(), Error>)
      modifies this
      ensures r == if Mentioned(old(Rows()), name) then Ok(()) else Err(NotFound)
      ensures Rows() == if r.Ok? then DeleteSession(old(Rows()), name) else old(Rows())
    {
      if name !in sessions && name !in runs.Values && !exists k | k in snapshots :: snapshots[k].session == name {
        return Err(NotFound);
      }
      var t := DeleteSession(Tables(sessions, snapshots, runs), name);
      sessions, snapshots, runs := t.sessions, t.snapshots, t.runs;
      r := Ok(());
    }
  }

  predicate Mentioned(t: Tables, name: string) {
    name in t.sessions || name in t.runs.Values || exists k | k in t.snapshots :: t.snapshots[k].session == name
  }

  class Manager {
    const store: Store

    constructor (store: Store)
      ensures this.store == store
    {
      this.store := store;
    }

    /** The call has run to its end, and the store is as it leaves it, an orphaned child deleted. */
    ghost static predicate Ends(before: Tables, call: Call, id: string, after: Tables, ok: bool, name: string) {
      EndsFrom(Alone(before, Started(call), id), after, ok, name)
    }

    ghost static predicate EndsFrom(end: (Tables, Proc), after: Tables, ok: bool, name: string) {
      match end.1
      case Done(session) => ok && session == name && after == end.0
      case Failed => !ok && after == end.0
      case CleaningUp(orphan) => !ok && after == DeleteSession(end.0, orphan)
      case _ => false
    }

    method CreateNamed(name: string, now: int) returns (ok: bool)
      modifies store
      ensures Ends(old(store.Rows()), Create(name, now), "", store.Rows(), ok, TrimSpace(name))
      ensures ok <==> TrimSpace(name) != "" && now != 0 && TrimSpace(name) !in old(store.sessions)
    {
      CreateSucceedsIff(store.Rows(), name, now);
      CreateAlone(store.Rows(), name, now);
      var r := store.Create(NewSession(name, "", now));
      ok := r.Ok?;
    }

    method TakeSnapshot(name: string, state: Json, id: string, now: int) returns (ok: bool)
      modifies store
      ensures Ends(old(store.Rows()), Snap(name, state, now), id, store.Rows(), ok, TrimSpace(name))
      ensures TablesOk(old(store.Rows())) ==>
                (ok <==>
                   && !Blank(id) && id !in old(store.snapshots) && now != 0
                   && TrimSpace(name) in old(store.sessions))
    {
      if TablesOk(store.Rows()) {
        SnapSucceedsIff(store.Rows(), name, state, id, now);
      }
      var s := Snapshot(id, TrimSpace(name), "", "", state, now);
      SnapAlone(store.Rows(), name, state, id, now);
      var r := store.Append(s, now);
      ok := r.Ok?;
    }

    /** The generated id is new and not blank.  The fork succeeds exactly if the parent exists, the
        child can be created, and the parent's current snapshot, if any, names no source run.  A fork
        that fails leaves no child behind, and nothing else changes, except that deleting the child
        takes with it the runs that were recorded under its name beforehand. */
    method ForkInto(parent: string, child: string, id: string, now: int) returns (ok: bool)
      requires TablesOk(store.Rows()) && !Blank(id) && id !in store.snapshots
      modifies store
      ensures Ends(old(store.Rows()), Fork(parent, child, now), id, store.Rows(), ok, TrimSpace(child))
      ensures ok <==> CanFork(old(store.Rows()), TrimSpace(parent), child, now)
                      && !Borrowed(old(store.Rows()), TrimSpace(parent))
      ensures !ok ==> store.Rows() == if CanFork(old(store.Rows()), TrimSpace(parent), child, now)
                                      then WithoutRuns(old(store.Rows()), TrimSpace(child))
                                      else old(store.Rows())
    {
      var name := TrimSpace(parent);
      ghost var t := store.Rows();
      if name !in store.sessions {
        AloneFails(t, Started(Fork(parent, child, now)), id);
        return false;
      }
      var from := store.sessions[name];
      var s := NewSession(child, from.name, now);
      ForkStart(t, parent, child, id, now);
      var created := store.Create(s);
      if created.Err? {
        return false;
      }
      ChildMade(t, name, s, id);
      if Blank(from.current) {
        return true;
      }
      ok := FinishFork(from.current, s, id);
    }

    /** The steps of a fork once the child exists. */
    method FinishFork(copied: string, child: Session, id: string) returns (ok: bool)
      requires TablesOk(store.Rows()) && !Blank(id) && id !in store.snapshots
      requires ProcOk(store.Rows(), ForkCreated(copied, child))
      modifies store
      ensures ok <==> old(store.snapshots)[copied].source == ""
      ensures EndsFrom(Alone(old(store.Rows()), ForkCreated(copied, child), id), store.Rows(), ok, child.name)
      ensures !ok ==> store.Rows() == DeleteSession(old(store.Rows()), child.name)
    {
      ForkTail(store.Rows(), copied, child, id);
      var from := store.snapshots[copied];
      var put := store.Put(Copy(from, child, id));
      ok := false;
      if put.Ok? {
        var updated := store.Update(child.(current := id));
        ok := updated.Ok?;
      }
      if !ok {
        var _ := store.Delete(child.name);
      }
    }

    method RestoreTo(name: string, id: string, now: int) returns (ok: bool)
      requires TablesOk(store.Rows())
      modifies store
      ensures Ends(old(store.Rows()), Restore(name, id, now), "", store.Rows(), ok, TrimSpace(name))
      ensures ok <==>
              && TrimSpace(name) in old(store.sessions) && TrimSpace(id) in old(store.snapshots)
              && old(store.snapshots)[TrimSpace(id)].session == TrimSpace(name)
              && now != 0 && old(store.sessions)[TrimSpace(name)].created <= now
    {
      RestoreSucceedsIff(store.Rows(), name, id, now);
      RestoreAlone(store.Rows(), name, id, now);
      if TrimSpace(name) !in store.sessions {
        return false;
      }
      var session := store.sessions[TrimSpace(name)];
      assert SessionOk(store.Rows(), TrimSpace(name));
      if TrimSpace(id) !in store.snapshots {
        return false;
      }
      var snapshot := store.snapshots[TrimSpace(id)];
      if snapshot.session != session.name {
        return false;
      }
      var updated := store.Update(session.(current := snapshot.id, updated := now));
      ok := updated.Ok?;
    }
  }
}
