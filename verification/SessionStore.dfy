/** The session tables of the store: session records, their snapshots, and the session of every
    recorded run, with each store call one atomic transaction.  Instants are integers; 0 is Go's zero
    time. */
module SessionStore {
  import opened Json
  import opened Results
  import opened Text

  datatype Session = Session(name: string, parent: string, current: string, created: int, updated: int)

  /** `source` is the run a snapshot was taken from, if any. */
  datatype Snapshot =
    Snapshot(id: string, session: string, parent: string, source: string, state: Json, created: int)

  datatype Tables =
    Tables(sessions: map<string, Session>, snapshots: map<string, Snapshot>, runs: map<string, string>)

  datatype Error = NotFound | Rejected

  function NullIfEmpty(s: string): string {
    if Blank(s) then "" else s
  }

  predicate ValidSession(s: Session) {
    !Blank(s.name) && s.created != 0 && s.updated != 0 && s.created <= s.updated
  }

  predicate ValidSnapshot(s: Snapshot) {
    !Blank(s.id) && !Blank(s.session) && s.created != 0
  }

  function Stored(s: Session): Session {
    s.(parent := NullIfEmpty(s.parent), current := NullIfEmpty(s.current))
  }

  /** A session can be created once, under an existing parent if it has one. */
  function CreateSession(t: Tables, s: Session): Result<Tables, Error> {
    if !ValidSession(s) || s.name in t.sessions then Err(Rejected)
    else if NullIfEmpty(s.parent) != "" && s.parent !in t.sessions then Err(Rejected)
    else Ok(t.(sessions := t.sessions[s.name := Stored(s)]))
  }

  function GetSession(t: Tables, name: string): Result<Session, Error> {
    if name in t.sessions then Ok(t.sessions[name]) else Err(NotFound)
  }

  function GetSnapshot(t: Tables, id: string): Result<Snapshot, Error> {
    if id in t.snapshots then Ok(t.snapshots[id]) else Err(NotFound)
  }

  function Normal(s: Snapshot): Snapshot {
    s.(parent := NullIfEmpty(s.parent), source := NullIfEmpty(s.source))
  }

  /** A run belongs to one session from the start. */
  function RecordRun(t: Tables, id: string, session: string): Result<Tables, Error> {
    if Blank(id) || Blank(session) || id in t.runs then Err(Rejected)
    else Ok(t.(runs := t.runs[id := session]))
  }

  /** The source run of a snapshot, if it has one, must be a run of the snapshot's session. */
  function CheckSource(t: Tables, s: Snapshot): Result<(), Error> {
    if Blank(s.source) then Ok(())
    else if s.source !in t.runs then Err(NotFound)
    else if t.runs[s.source] != s.session then Err(Rejected)
    else Ok(())
  }

  /** Inserts a snapshot or overwrites the one with its id. */
  function PutSnapshot(t: Tables, s: Snapshot): Result<Tables, Error> {
    if !ValidSnapshot(s) then Err(Rejected)
    else if s.session !in t.sessions then Err(NotFound)
    else if !Blank(s.parent) && s.parent !in t.snapshots then Err(NotFound)
    else
      var _ :- CheckSource(t, s);
      Ok(t.(snapshots := t.snapshots[s.id := Normal(s)]))
  }

  /** The whole row is written; a current snapshot must be one of the session's own. */
  function UpdateSession(t: Tables, s: Session): Result<Tables, Error> {
    if !ValidSession(s) then Err(Rejected)
    else if !Blank(s.current) && s.current !in t.snapshots then Err(NotFound)
    else if !Blank(s.current) && t.snapshots[s.current].session != s.name then Err(Rejected)
    else if s.name !in t.sessions then Err(NotFound)
    else Ok(t.(sessions := t.sessions[s.name := Stored(s)]))
  }

  /** In one transaction the snapshot becomes the child of the session's current one and current itself. */
  function AppendSnapshot(t: Tables, s: Snapshot, now: int): Result<(Tables, Snapshot), Error> {
    if !ValidSnapshot(s) || now == 0 then Err(Rejected)
    else if s.session !in t.sessions then Err(NotFound)
    else
      var session := t.sessions[s.session];
      if !Blank(session.current) && session.current !in t.snapshots then Err(NotFound)
      else if !Blank(session.current) && t.snapshots[session.current].session != session.name then Err(Rejected)
      else
        var _ :- CheckSource(t, s);
        var updated := session.(current := s.id, updated := if now < session.updated then session.updated else now);
        if !ValidSession(updated) || s.id in t.snapshots then Err(Rejected)
        else
          var appended := Normal(s.(parent := session.current));
          var t' := t.(sessions := t.sessions[session.name := updated], snapshots := t.snapshots[s.id := appended]);
          Ok((t', appended))
  }

  /** Deletes a session with its snapshots and with every run recorded under its name; what points
      at a deleted row points nowhere afterwards. */
  function DeleteSession(t: Tables, name: string): Tables {
    Tables(
      map n | n in t.sessions && n != name ::
        if t.sessions[n].parent == name then t.sessions[n].(parent := "") else t.sessions[n],
      map k | k in t.snapshots && t.snapshots[k].session != name :: Unlinked(t, name, t.snapshots[k]),
      map r | r in t.runs && t.runs[r] != name :: t.runs[r])
  }

  function Unlinked(t: Tables, name: string, s: Snapshot): Snapshot {
    s.(parent := if s.parent in t.snapshots && t.snapshots[s.parent].session == name then "" else s.parent,
       source := if s.source in t.runs && t.runs[s.source] == name then "" else s.source)
  }

  /** The state a session is in. */
  function CurrentSnapshot(t: Tables, name: string): Result<Snapshot, Error> {
    if name !in t.sessions || Blank(t.sessions[name].current) then Err(NotFound)
    else GetSnapshot(t, t.sessions[name].current)
  }
}
