/** The numbers that the literal loop keeps for an insert. They are never dropped with an aborted
    transaction, and what is kept is what the clients are told; except for alarms, which have no
    numbers. */
module LiteralNumbers {
  import opened Workload
  import opened Database
  import opened LiteralLoop
  import opened LiteralFrames
  import opened LiteralFails
  import opened LiteralExact

  /** The numbers of the entries of u in a log, one after the other. */
  function Gathered(log: seq<Entry>, o: Oracle, u: Unit): seq<nat> {
    if log == [] then []
    else if log[0].u == u then o.numbers(log[0].pass, u) + Gathered(log[1..], o, u)
    else Gathered(log[1..], o, u)
  }

  lemma {:induction false} GatheredConcat(a: seq<Entry>, b: seq<Entry>, o: Oracle, u: Unit)
    ensures Gathered(a + b, o, u) == Gathered(a, o, u) + Gathered(b, o, u)
  {
    if a == [] {
      assert a + b == b;
    } else {
      assert (a + b)[1..] == a[1..] + b;
      GatheredConcat(a[1..], b, o, u);
    }
  }

  lemma GatheredOne(log: seq<Entry>, e: Entry, o: Oracle, u: Unit)
    ensures Gathered(log + [e], o, u) ==
            if e.u == u then Gathered(log, o, u) + o.numbers(e.pass, u) else Gathered(log, o, u)
  {
    GatheredConcat(log, [e], o, u);
    assert [e][1..] == [];
  }

  lemma {:induction false} GatheredNone(log: seq<Entry>, o: Oracle, u: Unit)
    requires Times(log, u) == 0
    ensures Gathered(log, o, u) == []
  {
    if log == [] {
    } else {
      GatheredNone(log[1..], o, u);
    }
  }

  /** The numbers kept for u are those of its executions that are durable or still open. */
  predicate Numbered(s: State, o: Oracle, u: Unit) {
    Get(s.tx.nums, u) == Gathered(s.tx.committed, o, u) + Gathered(s.tx.open, o, u)
  }

  /** The numbers, and none of u's executions is open. */
  predicate Closed(s: State, o: Oracle, u: Unit) {
    Numbered(s, o, u) && Times(s.tx.open, u) == 0
  }

  lemma NothingGathered(o: Oracle, u: Unit)
    ensures Gathered([], o, u) == [] && Times([], u) == 0
  {
  }

  // ---- one visit ----

  lemma OtherVisit(s: State, o: Oracle, p: nat, v: Visit, u: Unit) returns (s': State)
    requires v.Statement? ==> v.u != u
    ensures s' == VisitOne(s, o, p, v) && Get(s'.tx.nums, u) == Get(s.tx.nums, u)
    ensures Closed(s, o, u) ==> Closed(s', o, u)
  {
    hide Gathered, Times;
    s' := VisitOne(s, o, p, v);
    NothingGathered(o, u);
    if v.Statement? {
      GatheredOne(s.tx.open, Entry(v.u, p), o, u);
      GatheredOne(s.tx.committed, Entry(v.u, p), o, u);
      TimesSnoc(s.tx.open, Entry(v.u, p), u);
    }
    if Closed(s, o, u) { GatheredNone(s.tx.open, o, u); }
  }

  lemma OwnVisit(s: State, o: Oracle, p: nat, v: Visit, u: Unit) returns (s': State)
    requires v.Statement? && v.u == u && Closed(s, o, u)
    ensures s' == VisitOne(s, o, p, v) && Numbered(s', o, u)
  {
    hide Gathered, Times, Sent;
    s' := VisitOne(s, o, p, v);
    NothingGathered(o, u);
    GatheredNone(s.tx.open, o, u);
    if u !in s.tx.flagged && o.ok(p, u) { OwnSent(s, o, p, u); }
  }

  lemma OwnSent(s: State, o: Oracle, p: nat, u: Unit)
    requires Closed(s, o, u)
    ensures Numbered(Sent(s, o, p, u), o, u)
  {
    hide Gathered, Times;
    GatheredNone(s.tx.open, o, u);
    GatheredOne(s.tx.open, Entry(u, p), o, u);
    GatheredOne(s.tx.committed, Entry(u, p), o, u);
  }

  // ---- the sections before the write section ----

  lemma {:induction false} OtherWalk(s: State, o: Oracle, p: nat, vs: seq<Visit>, u: Unit) returns (s': State)
    requires forall v :: v in vs && v.Statement? ==> v.u != u
    ensures s' == Walk(s, o, p, vs) && Get(s'.tx.nums, u) == Get(s.tx.nums, u)
    ensures Closed(s, o, u) ==> Closed(s', o, u)
  {
    if vs == [] {
      s' := s;
    } else {
      s' := OtherWalk(s, o, p, vs[..|vs| - 1], u);
      s' := OtherVisit(s', o, p, vs[|vs| - 1], u);
    }
  }

  lemma {:induction false} OtherBatches(job: Job, s: State, o: Oracle, p: nat, n: nat, u: Unit) returns (s': State)
    requires u.Insert?
    ensures s' == GenericBatches(job, s, o, p, n) && Get(s'.tx.nums, u) == Get(s.tx.nums, u)
    ensures Closed(s, o, u) ==> Closed(s', o, u)
  {
    if n == 0 {
      s' := s;
    } else {
      s' := OtherBatches(job, s, o, p, n - 1, u);
      if n - 1 < |job.batches| {
        GenericVisitsIn(job, n - 1, s'.cj, LastJ(s', job.batches[n - 1].generics));
        s' := OtherWalk(s', o, p, GenericVisits(job, n - 1, s'.cj, LastJ(s', job.batches[n - 1].generics)), u);
      } else {
        s' := OtherVisit(s', o, p, OutOfBounds, u);
      }
    }
  }

  lemma OtherSection(job: Job, s: State, o: Oracle, p: nat, step: Step, u: Unit) returns (s': State)
    requires u.Insert? && step != Writes && step != Finish
    ensures s' == RunSection(job, s, o, p, step) && Get(s'.tx.nums, u) == Get(s.tx.nums, u)
    ensures Closed(s, o, u) ==> Closed(s', o, u)
  {
    var n := Last(s, step, job.QueueSize(step));
    if step == Generics {
      s' := OtherBatches(job, s, o, p, n, u);
    } else {
      s' := OtherWalk(s, o, p, MulticastVisits(job, step, n), u);
    }
  }

  // ---- the last insert of a job ----

  /** u is the last statement of a full pass. */
  predicate LastInsert(job: Job, u: Unit) {
    FullVisits(job, Writes) != [] && u.Insert? && u == LastUnit(job, Writes)
  }

  /** Nothing is sent after u. */
  predicate OwnLast(vs: seq<Visit>, u: Unit) {
    vs == [] ||
    var before, last := vs[..|vs| - 1], vs[|vs| - 1];
    OwnLast(before, u) && (last.Statement? ==> Occurs(before, u) == 0)
  }

  lemma {:induction false} OwnWalk(s: State, o: Oracle, p: nat, vs: seq<Visit>, u: Unit) returns (s': State)
    requires OwnLast(vs, u) && Closed(s, o, u)
    ensures s' == Walk(s, o, p, vs) && Numbered(s', o, u)
    ensures Occurs(vs, u) == 0 ==> Closed(s', o, u)
  {
    if vs == [] {
      s' := s;
    } else {
      s' := OwnWalk(s, o, p, vs[..|vs| - 1], u);
      var v := vs[|vs| - 1];
      if !v.Statement? {
        s' := s'.(fault := true);
      } else if v.u == u {
        s' := OwnVisit(s', o, p, v, u);
      } else {
        s' := OtherVisit(s', o, p, v, u);
      }
    }
  }

  /** A stretch without u but for its end. */
  lemma {:induction false} NoneBeforeLast(vs: seq<Visit>, u: Unit, k: nat)
    requires k <= |vs| && (vs != [] ==> Occurs(vs[..|vs| - 1], u) == 0)
    ensures OwnLast(vs[..k], u) && (k < |vs| ==> Occurs(vs[..k], u) == 0)
  {
    if k == 0 {
      assert vs[..0] == [];
    } else {
      NoneBeforeLast(vs, u, k - 1);
      assert vs[..k][..k - 1] == vs[..k - 1];
      if k < |vs| {
        assert vs[..|vs| - 1] == vs[..k] + vs[k..|vs| - 1];
        OccursConcat(vs[..k], vs[k..|vs| - 1], u);
      }
    }
  }

  lemma {:induction false} WritePrefix(job: Job, n: nat, m: nat)
    requires n <= m
    ensures WriteVisits(job, n) <= WriteVisits(job, m)
  {
    if n == m {
    } else {
      WritePrefix(job, n, m - 1);
    }
  }

  lemma WritesWithin(job: Job, n: nat, u: Unit)
    requires n <= |job.batches| && FullVisits(job, Writes) != [] && u == LastUnit(job, Writes)
    ensures OwnLast(WriteVisits(job, n), u)
  {
    hide TableVisits, OwnLast;
    var full := FullVisits(job, Writes);
    LastVisit(job, Writes);
    FullVisitsExact(job, Writes, u);
    WritePrefix(job, n, |job.batches|);
    NoneBeforeLast(full, u, |WriteVisits(job, n)|);
    assert full[..|WriteVisits(job, n)|] == WriteVisits(job, n);
  }

  lemma {:induction false} WritesEndWith(job: Job, n: nat, u: Unit)
    requires FullVisits(job, Writes) != [] && u == LastUnit(job, Writes)
    ensures OwnLast(WriteVisits(job, n), u)
  {
    hide TableVisits, FullVisits, LastUnit;
    if n <= |job.batches| {
      WritesWithin(job, n, u);
    } else {
      WritesEndWith(job, n - 1, u);
      assert WriteVisits(job, n)[..|WriteVisits(job, n)| - 1] == WriteVisits(job, n - 1);
    }
  }

  lemma OwnSection(job: Job, s: State, o: Oracle, p: nat, u: Unit) returns (s': State)
    requires LastInsert(job, u) && Closed(s, o, u)
    ensures s' == RunSection(job, s, o, p, Writes) && Numbered(s', o, u)
  {
    var n := Last(s, Writes, |job.batches|);
    WritesEndWith(job, n, u);
    s' := OwnWalk(s, o, p, WriteVisits(job, n), u);
  }

  /** The insert is the last statement of a pass, so nothing aborts it. */
  lemma {:induction false} NumberedPass(job: Job, s: State, o: Oracle, p: nat, a: Step, u: Unit)
    requires LastInsert(job, u) && Closed(s, o, u) && a != Finish
    ensures Numbered(PassFrom(job, s, o, p, a), o, u)
    decreases 6 - Rank(a)
  {
    if a == Writes {
      var s1 := OwnSection(job, s, o, p, u);
    } else {
      var s1 := OtherSection(job, s, o, p, a, u);
      if s1.tx.hadError {
        NumberedPass(job, s1, o, p, Next(a), u);
      } else if s1.endpoint != Next(a) {
        NumberedPass(job, s1.(checkpoint := Next(a)), o, p, Next(a), u);
      }
    }
  }

  lemma CommitCloses(w: State, o: Oracle, p: nat, u: Unit)
    requires Numbered(w, o, u) && Commits(w, o, p)
    ensures Closed(Commit(w, o, p), o, u)
  {
    GatheredConcat(w.tx.committed, w.tx.open, o, u);
  }

  lemma NumberedTurn(job: Job, s: State, o: Oracle, p: nat, u: Unit) returns (s': State)
    requires LastInsert(job, u) && Closed(s, o, u) && s.handle != Broken && o.commits(p)
    ensures s' == Pass(job, s, o, p) && Closed(s', o, u) && s'.handle != Broken
  {
    hide Pass, PassFrom;
    var w := PassFrom(job, s, o, p, Generics);
    PassCommits(job, s, o, p, w);
    PassFollows(job, s, o, p, Generics);
    NumberedPass(job, s, o, p, Generics, u);
    s' := Commit(w, o, p);
    CommitCloses(w, o, p, u);
  }

  lemma {:induction false} NumberedRun(job: Job, s: State, o: Oracle, p: nat, n: nat, u: Unit)
    requires LastInsert(job, u) && Closed(s, o, u) && AllCommit(o) && s.handle != Broken && !s.tx.hadError
    ensures Closed(After(job, s, o, p, n), o, u)
    decreases n
  {
    hide Pass;
    if n == 0 {
    } else {
      var s' := NumberedTurn(job, s, o, p, u);
      Turn(job, s, o, p, n, s');
      if s'.tx.hadError { NumberedRun(job, Again(s'), o, p + 1, n - 1, u); }
    }
  }

  // ---- alarm inserts ----

  /** The inserts of alarms return no numbers that the code would collect. */
  ghost predicate AlarmsUnnumbered(o: Oracle) {
    forall p: nat, u: Unit :: u.Insert? && u.table == Alarm ==> o.numbers(p, u) == []
  }

  lemma UnnumberedRun(job: Job, s: State, o: Oracle, p: nat, n: nat, u: Unit)
    requires Get(s.tx.nums, u) == [] && forall q :: o.numbers(q, u) == []
    ensures Get(After(job, s, o, p, n).tx.nums, u) == []
  {
    RunSteady(job, s, o, p, n, (tx: Tx) => Get(tx.nums, u) == []);
  }

  lemma {:induction false} GatheredUnnumbered(log: seq<Entry>, o: Oracle, u: Unit)
    requires forall q :: o.numbers(q, u) == []
    ensures Gathered(log, o, u) == []
  {
    if log == [] {
    } else {
      GatheredUnnumbered(log[1..], o, u);
    }
  }

  // ---- inserts that are not the last ----

  /** Whatever else fails in a stretch, a statement that does not fail leaves its numbers. */
  lemma {:induction false} SentWalk(s: State, o: Oracle, p: nat, vs: seq<Visit>, u: Unit)
    requires u !in s.tx.flagged && o.ok(p, u) && Occurs(vs, u) <= 1
    ensures u !in Walk(s, o, p, vs).tx.flagged
    ensures Get(Walk(s, o, p, vs).tx.nums, u) ==
            if Occurs(vs, u) == 1 then Get(s.tx.nums, u) + o.numbers(p, u) else Get(s.tx.nums, u)
  {
    if vs == [] {
    } else {
      SentWalk(s, o, p, vs[..|vs| - 1], u);
    }
  }

  /** A pass to the end sends the insert u, whatever else fails. */
  lemma {:induction false} SentPass(job: Job, s: State, o: Oracle, p: nat, a: Step, u: Unit)
    requires job.Fits() && s.endpoint == Finish && a != Finish && IsUnit(job, u) && u.Insert?
    requires u !in s.tx.flagged && o.ok(p, u)
    ensures Get(PassFrom(job, s, o, p, a).tx.nums, u) == Get(s.tx.nums, u) + o.numbers(p, u)
    decreases 6 - Rank(a)
  {
    SectionFollows(job, s, o, p, a);
    if a == Writes {
      FullSection(job, s, o, p, Writes);
      WriteOccurs(job, |job.batches|, u);
      SentWalk(s, o, p, WriteVisits(job, |job.batches|), u);
    } else {
      var s1 := OtherSection(job, s, o, p, a, u);
      Continue(job, s, o, p, a);
      SentPass(job, Enter(job, s, o, p, a), o, p, Next(a), u);
    }
  }

  /** A pass that is quiet up to the write section, and stops before it. */
  lemma {:induction false} StopsBeforeWrites(job: Job, s: State, o: Oracle, p: nat, a: Step, u: Unit)
    requires job.Fits() && Rank(a) < 5 && u.Insert? && s.endpoint == Writes && !s.tx.hadError
    requires QuietRange(job, s, o, p, a, Writes)
    ensures Get(PassFrom(job, s, o, p, a).tx.nums, u) == Get(s.tx.nums, u)
    decreases 6 - Rank(a)
  {
    var s1 := OtherSection(job, s, o, p, a, u);
    QuietSection(job, s, o, p, a, u);
    if Next(a) != Writes {
      Continue(job, s, o, p, a);
      StopsBeforeWrites(job, Moved(s1, Next(a)), o, p, Next(a), u);
    }
  }

  /** Under every adversary that fails the last write statement of the job and nothing else, every
      other insert is lost: it is neither committed nor flagged. But what numbers it returned in the
      first pass are kept. */
  lemma LostYetNumbered(job: Job, s: State, o: Oracle, u: Unit) returns (n: nat)
    requires job.Fits() && Fresh(s) && IsUnit(job, u) && u.Insert?
    requires FullVisits(job, Writes) != [] && u != LastUnit(job, Writes) && Fails(o, {LastUnit(job, Writes)})
    ensures Ends(job, s, o, 0, n)
    ensures var t := After(job, s, o, 0, n);
      Miscounted(t, u, false) && Get(t.tx.nums, u) == o.numbers(0, u)
  {
    hide Pass, PassFrom, FullVisits;
    var last := LastUnit(job, Writes);
    var bad := {last};
    n := 2;
    LastVisit(job, Writes);
    assert bad == {last, last};
    var w := FirstPassLoses(job, s, o, Writes, Writes, u, bad);
    SentPass(job, s, o, 0, Generics, u);
    PassCommits(job, s, o, 0, w);
    Turn(job, s, o, 0, 2, Commit(w, o, 0));
    LostInSecond(job, w, o, bad, u);
  }

  lemma LostInSecond(job: Job, w: State, o: Oracle, bad: set<Unit>, u: Unit)
    requires job.Fits() && IsUnit(job, u) && u.Insert? && u !in bad && Fails(o, bad)
    requires forall x :: x in bad ==> x.Insert?
    requires Times(w.tx.open, u) == 0 && w.tx.hadError && w.handle == Usable && w.tx.committed == []
    requires w.checkpoint == Writes && w.tx.flagged <= bad && !w.fault
    ensures var s := Again(Commit(w, o, 0));
      Ends(job, s, o, 1, 1) && var t := After(job, s, o, 1, 1);
        Miscounted(t, u, false) && Get(t.tx.nums, u) == Get(w.tx.nums, u)
  {
    hide Pass, PassFrom;
    var s := Again(Commit(w, o, 0));
    CommitTotal(w, o, 0, u);
    PassStops(job, s, o, 1, Generics, u);
    StopsBeforeWrites(job, s, o, 1, Generics, u);
    var w' := PassFrom(job, s, o, 1, Generics);
    PassCommits(job, s, o, 1, w');
    CommitTotal(w', o, 1, u);
    Turn(job, s, o, 1, 1, Commit(w', o, 1));
  }

  /** In the end the numbers kept for an insert are those of its committed executions. */
  ghost predicate NumbersKept(job: Job, s: State, o: Oracle, u: Unit) {
    forall n: nat :: Ends(job, s, o, 0, n) ==>
      Get(After(job, s, o, 0, n).tx.nums, u) == Gathered(After(job, s, o, 0, n).tx.committed, o, u)
  }

  lemma LastKept(job: Job, s: State, o: Oracle, u: Unit)
    requires Fresh(s) && AllCommit(o) && LastInsert(job, u)
    ensures NumbersKept(job, s, o, u)
  {
    forall n: nat | Ends(job, s, o, 0, n)
      ensures Get(After(job, s, o, 0, n).tx.nums, u) == Gathered(After(job, s, o, 0, n).tx.committed, o, u)
    {
      NumberedRun(job, s, o, 0, n, u);
      GatheredNone(After(job, s, o, 0, n).tx.open, o, u);
    }
  }

  lemma AlarmKept(job: Job, s: State, o: Oracle, u: Unit)
    requires Fresh(s) && AlarmsUnnumbered(o) && u.Insert? && u.table == Alarm
    ensures NumbersKept(job, s, o, u)
  {
    forall n: nat | Ends(job, s, o, 0, n)
      ensures Get(After(job, s, o, 0, n).tx.nums, u) == Gathered(After(job, s, o, 0, n).tx.committed, o, u)
    {
      UnnumberedRun(job, s, o, 0, n, u);
      GatheredUnnumbered(After(job, s, o, 0, n).tx.committed, o, u);
    }
  }

  /** As long as commits succeed: the numbers kept for the inserts of a job are those of their
      committed executions, under every pattern of failing statements, if and only if an insert that
      returns numbers is the last write statement of the job. Alarm inserts return none, and may stand
      before it. */
  lemma NumbersKeptIff(job: Job, checkpoint: Step, ci: nat, cj: nat, ei: nat, ej: nat)
    requires job.Fits()
    ensures var s := Start(checkpoint, ci, cj, ei, ej);
      (forall u :: IsUnit(job, u) && u.Insert? && u.table != Alarm ==> u == LastUnit(job, Writes)) <==>
      forall o: Oracle, u :: AllCommit(o) && AlarmsUnnumbered(o) && IsUnit(job, u) && u.Insert? ==>
        NumbersKept(job, s, o, u)
  {
    var s := Start(checkpoint, ci, cj, ei, ej);
    if u :| IsUnit(job, u) && u.Insert? && u.table != Alarm && u != LastUnit(job, Writes) {
      var o := Failing({LastUnit(job, Writes)}, SomeNumbers);
      LastUnitIn(job, Writes, u);
      var n := LostYetNumbered(job, s, o, u);
      GatheredNone(After(job, s, o, 0, n).tx.committed, o, u);
      assert !NumbersKept(job, s, o, u);
    } else {
      forall o: Oracle, u | AllCommit(o) && AlarmsUnnumbered(o) && IsUnit(job, u) && u.Insert?
        ensures NumbersKept(job, s, o, u)
      {
        LastUnitIn(job, Writes, u);
        if u.table == Alarm { AlarmKept(job, s, o, u); } else { LastKept(job, s, o, u); }
      }
    }
  }
}
