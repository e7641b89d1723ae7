/** A fork that cannot be finished, as one run from the empty store. */
module StuckFork {
  import opened Json
  import opened Results
  import opened Sessions
  import opened SessionStore
  import opened Text

  /** Session "a" is created, and a run "r" recorded in it. */
  const OWNING := [Begin(0, Create("a", 1)), Tick(0, true, ""), Record("r", "a")]

  /** Its snapshot "x" is taken from the run. */
  const BORROWING := [Begin(1, Import("a", "r", Null, 1)), Tick(1, true, "x"), Tick(1, true, "")]

  /** A fork of it into "b" starts and runs as far as it gets. */
  const FORKING := [Begin(2, Fork("a", "b", 1)), Tick(2, true, ""), Tick(2, true, "")]
  const COPYING := [Tick(2, true, ""), Tick(2, true, "y"), Tick(2, true, "")]

  const OWNED := Tables(map["a" := Session("a", "", "", 1, 1)], map[], map["r" := "a"])

  const BORROWED :=
    Tables(map["a" := Session("a", "", "x", 1, 1)], map["x" := Snapshot("x", "a", "", "r", Null, 1)], map["r" := "a"])

  const CHILD := Session("b", "a", "", 1, 1)
  const WITH_CHILD := BORROWED.(sessions := BORROWED.sessions["b" := CHILD])

  lemma {:induction false} RunSplit(s: System, first: seq<Action>, second: seq<Action>)
    ensures Run(s, first + second) == Run(Run(s, first), second)
    decreases |first|
  {
    if first == [] {
      assert first + second == second;
    } else {
      assert (first + second)[0] == first[0] && (first + second)[1..] == first[1..] + second;
      RunSplit(Next(s, first[0]), first[1..], second);
    }
  }

  lemma RunThree(s: System, a: seq<Action>, s1: System, s2: System, s3: System)
    requires |a| == 3 && Next(s, a[0]) == s1 && Next(s1, a[1]) == s2 && Next(s2, a[2]) == s3
    ensures Run(s, a) == s3
  {
    assert a == [a[0]] + ([a[1]] + [a[2]]);
    RunSplit(s, [a[0]], [a[1]] + [a[2]]);
    RunSplit(s1, [a[1]], [a[2]]);
    RunOne(s, a[0]);
    RunOne(s1, a[1]);
    RunOne(s2, a[2]);
  }

  lemma RunOne(s: System, a: Action)
    ensures Run(s, [a]) == Next(s, a)
  {
    assert [a][1..] == [];
  }

  lemma Names()
    ensures TrimSpace("") == ""
    ensures forall n | n in {"a", "b", "r", "x", "y"} :: TrimSpace(n) == n && n != ""
  {
    forall n | n in {"a", "b", "r", "x", "y"}
      ensures TrimSpace(n) == n && n != ""
    {
      TrimFixed(n);
    }
  }

  lemma OwnedRun()
    ensures Run(INIT, OWNING) == System(OWNED, map[0 := Done("a")], {}, [], ["a"])
  {
    Names();
    var s1 := INIT.(procs := map[0 := Started(Create("a", 1))]);
    var s2 := System(OWNED.(runs := map[]), map[0 := Done("a")], {}, [], ["a"]);
    RunThree(INIT, OWNING, s1, s2, s2.(tables := OWNED));
  }

  lemma BorrowAppends()
    ensures AppendSnapshot(OWNED, Snapshot("x", "a", "", "r", Null, 1), 1) == Ok((BORROWED, BORROWED.snapshots["x"]))
  {
    Names();
    assert BORROWED.sessions == OWNED.sessions["a" := Session("a", "", "x", 1, 1)];
  }

  lemma ChildCreated()
    ensures CreateSession(BORROWED, CHILD) == Ok(WITH_CHILD)
  {
    Names();
  }

  lemma CopyRefused()
    ensures PutSnapshot(WITH_CHILD, Copy(BORROWED.snapshots["x"], CHILD, "y")) == Err(Rejected)
  {
    Names();
  }

  lemma BorrowedRun(s: System)
    requires s.tables == OWNED && 1 !in s.procs && s.issued == {}
    ensures Run(s, BORROWING)
            == System(BORROWED, s.procs[1 := Done("a")], {"x"}, s.born + ["x"], s.made)
  {
    var s1 := s.(procs := s.procs[1 := Started(Import("a", "r", Null, 1))]);
    var s2 := s1.(procs := s1.procs[1 := Appending(Snapshot("x", "a", "", "r", Null, 1))], issued := {"x"});
    var s3 := s2.(tables := BORROWED, procs := s2.procs[1 := Done("a")], born := s2.born + ["x"]);
    assert s3.procs == s.procs[1 := Done("a")];
    BorrowingStarts(s1, s2);
    BorrowingStores(s2, s3);
    RunThree(s, BORROWING, s1, s2, s3);
  }

  lemma BorrowingStarts(s1: System, s2: System)
    requires s1.issued == {} && 1 in s1.procs && s1.procs[1] == Started(Import("a", "r", Null, 1))
    requires s2 == s1.(procs := s1.procs[1 := Appending(Snapshot("x", "a", "", "r", Null, 1))], issued := {"x"})
    ensures Next(s1, BORROWING[1]) == s2
  {
    Names();
  }

  lemma BorrowingStores(s2: System, s3: System)
    requires s2.tables == OWNED && 1 in s2.procs
    requires s2.procs[1] == Appending(Snapshot("x", "a", "", "r", Null, 1))
    requires s3 == s2.(tables := BORROWED, procs := s2.procs[1 := Done("a")], born := s2.born + ["x"])
    ensures Next(s2, BORROWING[2]) == s3
  {
    BorrowAppends();
  }

  lemma ForkingRun(s: System)
    requires s.tables == BORROWED && 2 !in s.procs
    ensures Run(s, FORKING)
            == s.(tables := WITH_CHILD, procs := s.procs[2 := ForkCreated("x", CHILD)], made := s.made + ["b"])
  {
    var s1 := s.(procs := s.procs[2 := Started(Fork("a", "b", 1))]);
    var s2 := s1.(procs := s1.procs[2 := ForkRead(BORROWED.sessions["a"], CHILD)]);
    var s3 := s2.(tables := WITH_CHILD, procs := s2.procs[2 := ForkCreated("x", CHILD)], made := s2.made + ["b"]);
    assert s3.procs == s.procs[2 := ForkCreated("x", CHILD)];
    ForkingReads(s1, s2);
    ForkingCreates(s2, s3);
    RunThree(s, FORKING, s1, s2, s3);
  }

  lemma ForkingReads(s1: System, s2: System)
    requires s1.tables == BORROWED && 2 in s1.procs && s1.procs[2] == Started(Fork("a", "b", 1))
    requires s2 == s1.(procs := s1.procs[2 := ForkRead(BORROWED.sessions["a"], CHILD)])
    ensures Next(s1, FORKING[1]) == s2
  {
    Names();
  }

  lemma ForkingCreates(s2: System, s3: System)
    requires s2.tables == BORROWED && 2 in s2.procs && s2.procs[2] == ForkRead(BORROWED.sessions["a"], CHILD)
    requires s3 == s2.(
               tables := WITH_CHILD, procs := s2.procs[2 := ForkCreated("x", CHILD)], made := s2.made + ["b"])
    ensures Next(s2, FORKING[2]) == s3
  {
    Names();
    ChildCreated();
  }

  lemma CopyingRun(s: System)
    requires s.tables == WITH_CHILD && 2 in s.procs && s.procs[2] == ForkCreated("x", CHILD) && "y" !in s.issued
    ensures Run(s, COPYING) == s.(procs := s.procs[2 := CleaningUp("b")], issued := s.issued + {"y"})
  {
    var from := BORROWED.snapshots["x"];
    var s1 := s.(procs := s.procs[2 := ForkLoaded(from, CHILD)]);
    var s2 := s1.(procs := s1.procs[2 := ForkReady(from, CHILD, "y")], issued := s.issued + {"y"});
    var s3 := s2.(procs := s2.procs[2 := CleaningUp("b")]);
    assert s3.procs == s.procs[2 := CleaningUp("b")];
    CopyingReads(s, s1);
    CopyingStops(s1, s2);
    RunThree(s, COPYING, s1, s2, s3);
  }

  lemma CopyingReads(s: System, s1: System)
    requires s.tables == WITH_CHILD && 2 in s.procs && s.procs[2] == ForkCreated("x", CHILD)
    requires s1 == s.(procs := s.procs[2 := ForkLoaded(BORROWED.snapshots["x"], CHILD)])
    ensures Next(s, COPYING[0]) == s1
  {
  }

  lemma CopyingStops(s1: System, s2: System)
    requires s1.tables == WITH_CHILD && 2 in s1.procs && "y" !in s1.issued
    requires s1.procs[2] == ForkLoaded(BORROWED.snapshots["x"], CHILD)
    requires s2 == s1.(
               procs := s1.procs[2 := ForkReady(BORROWED.snapshots["x"], CHILD, "y")], issued := s1.issued + {"y"})
    ensures Next(s1, COPYING[1]) == s2
    ensures Next(s2, COPYING[2]) == s2.(procs := s2.procs[2 := CleaningUp("b")])
  {
    Names();
    CopyRefused();
  }

  /** A run from the empty store, no store call failing, after which a fork has a child to delete. */
  lemma ForkMayStick()
    ensures
      var s := Run(INIT, OWNING + BORROWING + FORKING + COPYING);
      2 in s.procs && s.procs[2] == CleaningUp("b") && "b" in s.tables.sessions
  {
    OwnedRun();
    BorrowedRun(Run(INIT, OWNING));
    RunSplit(INIT, OWNING, BORROWING);
    var s := Run(INIT, OWNING + BORROWING);
    ForkingRun(s);
    RunSplit(INIT, OWNING + BORROWING, FORKING);
    CopyingRun(Run(s, FORKING));
    RunSplit(INIT, OWNING + BORROWING + FORKING, COPYING);
  }
}
