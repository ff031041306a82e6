/** What the batches say after the literal loop, and jobs on which that is true of the log whatever
    statements fail. */
module LiteralReports {
  import opened Options
  import opened Workload
  import opened Database
  import opened LiteralLoop
  import opened LiteralFrames
  import opened LiteralFails
  import opened LiteralExact
  import opened LiteralNumbers

  /** A statement that somebody gets a reply to, and one that nobody does. */
  predicate HasClients(job: Job, u: Unit) {
    IsUnit(job, u) && !u.Multicast?
  }

  predicate Silent(job: Job, u: Unit) {
    IsUnit(job, u) && u.Multicast?
  }

  /** What tells the clients of u that it succeeded: for an insert that returns numbers, that there are
      any; else that there is no error. */
  predicate Told(tx: Tx, u: Unit) {
    if u.Insert? && u.table != Alarm then Get(tx.nums, u) != [] else u !in tx.flagged
  }

  /** The numbers or the result held for a statement are those of this execution. */
  predicate HeldFrom(tx: Tx, o: Oracle, e: Entry) {
    && (e.u.Insert? ==> Get(tx.nums, e.u) == o.numbers(e.pass, e.u))
    && (e.u.Generic? ==> e.u in tx.ran && tx.ran[e.u] == e.pass)
  }

  /** The clients of u are told that it succeeded exactly if it is in the log, once; and with what its
      committed execution returned. */
  ghost predicate Honest(tx: Tx, o: Oracle, u: Unit) {
    && (Told(tx, u) <==> Times(tx.committed, u) == 1)
    && (Told(tx, u) ==> forall e :: e in tx.committed && e.u == u ==> HeldFrom(tx, o, e))
  }

  /** An insert returns numbers unless it is one of alarms. */
  ghost predicate Numbering(job: Job, numbers: (nat, Unit) -> seq<nat>) {
    forall p: nat, u :: IsUnit(job, u) && u.Insert? ==> (numbers(p, u) == [] <==> u.table == Alarm)
  }

  /** u has failed for good, or its report is true. */
  ghost predicate Settled(tx: Tx, o: Oracle, u: Unit) {
    if u in tx.flagged then Times(tx.committed, u) == 0 && (u.Insert? ==> Get(tx.nums, u) == [])
    else Times(tx.committed, u) == 1 && forall e :: e in tx.committed && e.u == u ==> HeldFrom(tx, o, e)
  }

  lemma SettledHonest(job: Job, tx: Tx, o: Oracle, u: Unit)
    requires Settled(tx, o, u) && Numbering(job, o.numbers) && IsUnit(job, u)
    ensures Honest(tx, o, u)
  {
    if u !in tx.flagged {
      TimesHas(tx.committed, u);
      var e :| e in tx.committed && e.u == u;
      assert u.Insert? ==> (o.numbers(e.pass, u) == [] <==> u.table == Alarm);
    }
  }

  // ---- a statement that has failed before it was committed stays so ----

  predicate Gone(tx: Tx, u: Unit) {
    u in tx.flagged && Times(tx.committed, u) == 0 && Times(tx.open, u) == 0 && (u.Insert? ==> Get(tx.nums, u) == [])
  }

  lemma GoneVisit(s: State, o: Oracle, p: nat, v: Visit, u: Unit)
    requires Gone(s.tx, u)
    ensures Gone(VisitOne(s, o, p, v).tx, u)
  {
    if v.Statement? {
      TimesSnoc(s.tx.open, Entry(v.u, p), u);
      TimesSnoc(s.tx.committed, Entry(v.u, p), u);
    }
  }

  lemma GoneLasts(o: Oracle, u: Unit)
    ensures Lasting((tx: Tx) => Gone(tx, u), o)
  {
    var inv := (tx: Tx) => Gone(tx, u);
    forall p, s: State, v | inv(s.tx) ensures inv(VisitOne(s, o, p, v).tx) { GoneVisit(s, o, p, v, u); }
    forall s: State, p | inv(s.tx) ensures inv(Commit(s, o, p).tx) {
      TimesConcat(s.tx.committed, s.tx.open, u);
    }
  }

  lemma GoneRun(job: Job, s: State, o: Oracle, p: nat, n: nat, u: Unit)
    requires Gone(s.tx, u)
    ensures Settled(After(job, s, o, p, n).tx, o, u)
  {
    GoneLasts(o, u);
    RunSteady(job, s, o, p, n, (tx: Tx) => Gone(tx, u));
  }

  /** If u has failed somewhere in a pass, it is gone after it. */
  lemma GoneRest(job: Job, s: State, o: Oracle, p: nat, a: Step, u: Unit)
    requires a != Finish && Gone(s.tx, u)
    ensures Gone(Again(Commit(PassFrom(job, s, o, p, a), o, p)).tx, u)
  {
    hide PassFrom, Commit, Again;
    var inv := (tx: Tx) => Gone(tx, u);
    GoneLasts(o, u);
    PassSteady(job, s, o, p, a, inv);
    assert inv(Commit(PassFrom(job, s, o, p, a), o, p).tx);
  }

  // ---- sections without u ----

  /** What a walk without u leaves of it: all, or, if a statement fails, what is durable. */
  ghost predicate Aside(s: State, s': State, u: Unit) {
    && s.tx.flagged <= s'.tx.flagged && (u in s'.tx.flagged ==> u in s.tx.flagged)
    && Get(s'.tx.nums, u) == Get(s.tx.nums, u)
    && (u in s.tx.ran <==> u in s'.tx.ran) && (u in s.tx.ran ==> s'.tx.ran[u] == s.tx.ran[u])
    && Times(s'.tx.committed, u) == Times(s.tx.committed, u)
    && Times(s'.tx.open, u) == (if s'.tx.flagged == s.tx.flagged then Times(s.tx.open, u) else 0)
    && (forall e :: e in s'.tx.open && e.u == u ==> e in s.tx.open)
    && s'.cj == s.cj
  }

  lemma AsideFails(s: State, s1: State, o: Oracle, p: nat, v: Unit, ci: nat, u: Unit)
    requires Aside(s, s1, u) && v != u && v !in s1.tx.flagged
    ensures Aside(s, s1.(tx := Fail(s1.tx, v), handle := Usable, ci := ci), u)
  {
    assert v !in s.tx.flagged;
    assert v in Fail(s1.tx, v).flagged;
  }

  lemma AsideSent(s: State, s1: State, o: Oracle, p: nat, v: Unit, u: Unit)
    requires Aside(s, s1, u) && v != u
    ensures Aside(s, Sent(s1, o, p, v), u)
  {
    hide Times;
    TimesSnoc(s1.tx.open, Entry(v, p), u);
    TimesSnoc(s1.tx.committed, Entry(v, p), u);
  }

  lemma AsideVisit(s: State, s1: State, o: Oracle, p: nat, v: Visit, u: Unit)
    requires Aside(s, s1, u) && v.Statement? && v.u != u && v.cj == None
    ensures Aside(s, VisitOne(s1, o, p, v), u)
  {
    hide Aside, Sent, Fail;
    if v.u !in s1.tx.flagged {
      if o.ok(p, v.u) { AsideSent(s, s1, o, p, v.u, u); } else { AsideFails(s, s1, o, p, v.u, v.ci, u); }
    }
  }

  lemma {:induction false} AsideWalk(s: State, o: Oracle, p: nat, vs: seq<Visit>, u: Unit)
    requires forall v :: v in vs ==> v.Statement? && v.u != u && v.cj == None
    ensures Aside(s, Walk(s, o, p, vs), u)
  {
    hide VisitOne;
    if vs == [] {
    } else {
      AsideWalk(s, o, p, vs[..|vs| - 1], u);
      AsideVisit(s, Walk(s, o, p, vs[..|vs| - 1]), o, p, vs[|vs| - 1], u);
    }
  }

  lemma NoGenericIndex(job: Job, step: Step)
    requires IsMulticast(step) || step == Writes
    ensures forall v :: v in FullVisits(job, step) ==> v.Statement? && Section(v.u) == step && v.cj == None
  {
    FullVisitsExact(job, step, Generic(0, 0));
    if step == Writes { WriteIndices(job, |job.batches|); }
  }

  /** A full section that u is not in. */
  lemma AsideSection(job: Job, s: State, o: Oracle, p: nat, step: Step, u: Unit) returns (s': State)
    requires job.Fits() && (IsMulticast(step) || step == Writes) && s.endpoint != step && Section(u) != step
    ensures s' == RunSection(job, s, o, p, step) && Aside(s, s', u) && Follows(job, o, p, s, s')
    ensures s'.checkpoint == s.checkpoint
  {
    hide RunSection, FullVisits, Aside, Follows;
    FullSectionVisits(job, s, o, p, step);
    NoGenericIndex(job, step);
    AsideWalk(s, o, p, FullVisits(job, step), u);
    WalkKeeps(s, o, p, FullVisits(job, step));
    SectionFollows(job, s, o, p, step);
    s' := RunSection(job, s, o, p, step);
  }

  // ---- a statement that succeeds at last ----

  /** u is neither durable nor open, and nothing is held for it. */
  predicate Unsent(tx: Tx, u: Unit) {
    u !in tx.flagged && Times(tx.committed, u) == 0 && Times(tx.open, u) == 0 && (u.Insert? ==> Get(tx.nums, u) == [])
  }

  lemma SentSettled(s: State, w: State, o: Oracle, p: nat, u: Unit)
    requires Unsent(s.tx, u) && w.tx == Sent(s, o, p, u).tx && Commits(w, o, p)
    ensures Settled(Commit(w, o, p).tx, o, u) && u !in Commit(w, o, p).tx.flagged
  {
    hide Times;
    TimesSnoc(s.tx.open, Entry(u, p), u);
    TimesSnoc(s.tx.committed, Entry(u, p), u);
    TimesConcat(w.tx.committed, w.tx.open, u);
    TimesHas(s.tx.committed, u);
    TimesHas(s.tx.open, u);
  }

  lemma FailedGone(s: State, o: Oracle, p: nat, u: Unit, ci: nat)
    requires Unsent(s.tx, u) && !o.ok(p, u)
    ensures Gone(AfterOne(s, o, p, u, ci).tx, u)
  {
  }

  // ---- a job of one insert and statements of one multicast section ----

  /** Everything but u is in section x. */
  ghost predicate Beside(job: Job, u: Unit, x: Step) {
    && HasClients(job, u) && Section(u) != x
    && (IsMulticast(x) || x == Writes)
    && (forall v :: IsUnit(job, v) && v != u ==> Section(v) == x)
  }

  /** The first pass up to the insert. */
  lemma UpToInsert(job: Job, s: State, o: Oracle, x: Step, u: Unit) returns (s1: State, ci: nat)
    requires job.Fits() && Fresh(s) && u.Insert? && Beside(job, u, x)
    ensures PassFrom(job, s, o, 0, Generics) == AfterOne(s1, o, 0, u, ci)
    ensures Unsent(s1.tx, u) && s1.handle == Usable && s1.endpoint == Finish
    ensures s1.tx.hadError ==> s1.checkpoint == x
  {
    hide PassFrom, RunSection;
    SkipTo(job, s, o, 0, Generics, x);
    var s0 := s.(checkpoint := x);
    var s' := AsideSection(job, s0, o, 0, x, u);
    Continue(job, s0, o, 0, x);
    s1 := Arrive(Moved(s', Next(x)), Next(x), Writes);
    ci := PassWithOne(job, Moved(s', Next(x)), o, 0, Next(x), u);
  }

  /** u is settled, and the next pass stops before section x. */
  ghost predicate Stops(s: State, o: Oracle, u: Unit, x: Step) {
    s.handle == Finished && s.endpoint == x && s.tx.open == [] && !s.tx.hadError && Settled(s.tx, o, u)
  }

  lemma InsertPass(job: Job, s: State, o: Oracle, x: Step, u: Unit) returns (s': State)
    requires job.Fits() && Fresh(s) && u.Insert? && Beside(job, u, x) && o.commits(0)
    ensures s' == Pass(job, s, o, 0)
    ensures Gone(Again(s').tx, u) || (if s'.tx.hadError then Stops(Again(s'), o, u, x) else Settled(s'.tx, o, u))
  {
    hide PassFrom, Pass, Settled;
    var s1, ci := UpToInsert(job, s, o, x, u);
    var w := AfterOne(s1, o, 0, u, ci);
    PassCommits(job, s, o, 0, w);
    s' := Commit(w, o, 0);
    if o.ok(0, u) {
      SentSettled(s1, w, o, 0, u);
      assert Again(s').tx == s'.tx.(hadError := false);
      assert Settled(Again(s').tx, o, u) by { SettledAgain(s', o, u); }
    } else {
      FailedGone(s1, o, 0, u, ci);
      TimesConcat(w.tx.committed, w.tx.open, u);
    }
  }

  lemma SettledAgain(s: State, o: Oracle, u: Unit)
    requires Settled(s.tx, o, u)
    ensures Settled(Again(s).tx, o, u)
  {
  }

  lemma StopsThen(job: Job, s: State, o: Oracle, p: nat, n: nat, x: Step, u: Unit)
    requires job.Fits() && Stops(s, o, u, x) && 1 <= Rank(x) <= 5 && Ends(job, s, o, p, n)
    requires forall v :: IsUnit(job, v) ==> Rank(Section(v)) >= Rank(x)
    ensures Settled(After(job, s, o, p, n).tx, o, u)
  {
    hide PassFrom, Settled;
    var c := SkipToStop(job, s, o, p, Generics);
    Turn(job, s, o, p, n, Commit(s.(checkpoint := c), o, p));
    assert s.tx.committed + [] == s.tx.committed;
  }

  lemma InsertSettled(job: Job, s: State, o: Oracle, n: nat, x: Step, u: Unit)
    requires job.Fits() && Fresh(s) && u.Insert? && Beside(job, u, x) && AllCommit(o) && Ends(job, s, o, 0, n)
    ensures Settled(After(job, s, o, 0, n).tx, o, u)
  {
    hide Pass, Settled, Gone, Stops;
    var s' := InsertPass(job, s, o, x, u);
    Turn(job, s, o, 0, n, s');
    if Gone(Again(s').tx, u) {
      if s'.tx.hadError { GoneRun(job, Again(s'), o, 1, n - 1, u); } else { GoneRun(job, s', o, 1, 0, u); }
    } else if s'.tx.hadError {
      StopsThen(job, Again(s'), o, 1, n - 1, x, u);
    }
  }

  // ---- a job of one generic query and statements of one other section ----

  /** The first pass: a section without g, up to the end. */
  lemma RestAside(job: Job, s: State, o: Oracle, p: nat, x: Step, g: Unit) returns (s': State, c: Step)
    requires job.Fits() && g.Generic? && Beside(job, g, x) && s.endpoint == Finish
    ensures PassFrom(job, s, o, p, x) == s'.(checkpoint := c) && (s'.tx.hadError ==> c == s.checkpoint)
    ensures Aside(s, s', g) && Follows(job, o, p, s, s') && s'.cj == s.cj
  {
    hide PassFrom, RunSection;
    s' := AsideSection(job, s, o, p, x, g);
    c := s'.checkpoint;
    if x == Writes {
      LastSection(job, s, o, p);
    } else {
      Continue(job, s, o, p, x);
      SkipToEnd(job, Moved(s', Next(x)), o, p, Next(x));
      if !s'.tx.hadError { c := Writes; }
    }
  }

  /** g has been dropped with an aborted transaction; the next pass sends it and stops before section x. */
  ghost predicate Pending(s: State, g: Unit, x: Step) {
    && s.handle == Finished && s.endpoint == x && !s.tx.hadError && s.cj == 0
    && Unsent(s.tx, g)
  }

  lemma PendingThen(job: Job, s: State, o: Oracle, p: nat, n: nat, x: Step, g: Unit)
    requires job.Fits() && g.Generic? && Beside(job, g, x) && Pending(s, g, x) && AllCommit(o) && Ends(job, s, o, p, n)
    ensures Settled(After(job, s, o, p, n).tx, o, g)
  {
    hide PassFrom, RunSection, Pass, Settled, Gone;
    var ci := SectionOne(job, s, o, p, g);
    var t := AfterOne(s, o, p, g, ci);
    PassCommits(job, s, o, p, PassFrom(job, s, o, p, Generics));
    if o.ok(p, g) {
      var c := SentThenStops(job, s, t, o, p, Generics);
      SentSettled(s, t.(checkpoint := c), o, p, g);
      Turn(job, s, o, p, n, Commit(t.(checkpoint := c), o, p));
    } else {
      FailedGone(s, o, p, g, ci);
      GoneAfter(job, s, o, p, n, t, g);
    }
  }

  /** If g fails in the first section, it is gone to the end of the run. */
  lemma GoneAfter(job: Job, s: State, o: Oracle, p: nat, n: nat, t: State, g: Unit)
    requires t == RunSection(job, s, o, p, Generics) && t.tx.hadError && Gone(t.tx, g) && Ends(job, s, o, p, n)
    ensures Settled(After(job, s, o, p, n).tx, o, g)
  {
    hide PassFrom, RunSection, Pass, Settled, Gone;
    GoesOn(job, s, o, p, Generics, t);
    GoneRest(job, t, o, p, Logging, g);
    PassCommits(job, s, o, p, PassFrom(job, t, o, p, Logging));
    var s' := Pass(job, s, o, p);
    Turn(job, s, o, p, n, s');
    if s'.tx.hadError { GoneRun(job, Again(s'), o, p + 1, n - 1, g); } else { GoneRun(job, Again(s'), o, p + 1, 0, g); }
  }

  /** g succeeds first, and what follows it either commits with it or drops it. */
  lemma GenericPass(job: Job, s: State, o: Oracle, x: Step, g: Unit) returns (s': State)
    requires job.Fits() && Fresh(s) && s.cj == 0 && g.Generic? && Beside(job, g, x) && AllCommit(o) && o.ok(0, g)
    ensures s' == Pass(job, s, o, 0)
    ensures if s'.tx.hadError then Pending(Again(s'), g, x) else Settled(s'.tx, o, g)
  {
    hide PassFrom, RunSection, Pass, Aside;
    var ci := SectionOne(job, s, o, 0, g);
    var t := Sent(s, o, 0, g);
    Continue(job, s, o, 0, Generics);
    SkipTo(job, t.(checkpoint := Logging), o, 0, Logging, x);
    var s1 := t.(checkpoint := x);
    assert Arrive(t.(checkpoint := Logging), Logging, x) == s1;
    var w, c := RestAside(job, s1, o, 0, x, g);
    PassCommits(job, s, o, 0, w.(checkpoint := c));
    s' := Commit(w.(checkpoint := c), o, 0);
    AsideCommitted(job, s, s1, w, o, s', g);
  }

  lemma AsideCommitted(job: Job, s: State, s1: State, w: State, o: Oracle, s': State, g: Unit)
    requires Fresh(s) && g.Generic? && s1.tx == Sent(s, o, 0, g).tx && s1.handle == Usable
    requires Aside(s1, w, g) && Follows(job, o, 0, s1, w)
    requires s'.tx == w.tx.(committed := w.tx.committed + w.tx.open, open := [])
    ensures if s'.tx.hadError then Unsent(Again(s').tx, g) else Settled(s'.tx, o, g)
  {
    assert s1.tx.open == [Entry(g, 0)] && s1.tx.committed == [];
    TimesConcat(w.tx.committed, w.tx.open, g);
    TimesHas(w.tx.committed, g);
    assert Times(s1.tx.open, g) == 1;
  }

  lemma GenericSettled(job: Job, s: State, o: Oracle, n: nat, x: Step, g: Unit)
    requires job.Fits() && Fresh(s) && s.cj == 0 && g.Generic? && Beside(job, g, x)
    requires AllCommit(o) && Ends(job, s, o, 0, n)
    ensures Settled(After(job, s, o, 0, n).tx, o, g)
  {
    hide Pass, Settled, Gone, Pending;
    if o.ok(0, g) {
      var s' := GenericPass(job, s, o, x, g);
      Turn(job, s, o, 0, n, s');
      if s'.tx.hadError { PendingThen(job, Again(s'), o, 1, n - 1, x, g); }
    } else {
      var ci := SectionOne(job, s, o, 0, g);
      FailedGone(s, o, 0, g, ci);
      GoneAfter(job, s, o, 0, n, AfterOne(s, o, 0, g, ci), g);
    }
  }

  // ---- a job of one generic query and one insert ----

  lemma {:induction false} GatheredOnce(log: seq<Entry>, e: Entry, o: Oracle)
    requires e in log && Times(log, e.u) == 1
    ensures Gathered(log, o, e.u) == o.numbers(e.pass, e.u)
  {
    if log[0].u == e.u {
      TimesHas(log[1..], e.u);
      GatheredNone(log[1..], o, e.u);
    } else {
      GatheredOnce(log[1..], e, o);
    }
  }

  /** The only insert of a safe job. */
  lemma PairSettled(job: Job, s: State, o: Oracle, n: nat, u: Unit)
    requires job.Fits() && Fresh(s) && Safe(job, s.checkpoint, s.cj) && AllCommit(o) && Ends(job, s, o, 0, n)
    requires IsUnit(job, u) && u.Insert?
    ensures Settled(After(job, s, o, 0, n).tx, o, u)
  {
    StartKept(job, s);
    SafeRun(job, s, o, 0);
    var m: nat :| Ends(job, s, o, 0, m) && Done(job, After(job, s, o, 0, m));
    EndsOnce(job, s, o, 0, if n < m then n else m, if n < m then m else n);
    LastUnitIn(job, Writes, u);
    LastKept(job, s, o, u);
    KeptSettled(job, After(job, s, o, 0, n).tx, o, u);
  }

  lemma KeptSettled(job: Job, tx: Tx, o: Oracle, u: Unit)
    requires ExactlyOnce(job, tx) && IsUnit(job, u) && u.Insert? && Get(tx.nums, u) == Gathered(tx.committed, o, u)
    ensures Settled(tx, o, u)
  {
    if u in tx.flagged {
      GatheredNone(tx.committed, o, u);
    } else {
      forall e | e in tx.committed && e.u == u ensures HeldFrom(tx, o, e) { GatheredOnce(tx.committed, e, o); }
    }
  }

  // ---- all of them together ----

  /** The jobs whose reports are true whatever statements fail, seen from what a caller knows before the
      call. At most one generic query, and no stale checkpoint index with it, and at most one insert;
      beside them statements of one multicast section only; and beside both of them none, nor a
      checkpoint of an earlier job that makes the loop send the insert twice. */
  ghost predicate Trusty(job: Job, checkpoint: Step, cj: nat) {
    && (forall u, v :: HasClients(job, u) && HasClients(job, v) && Section(u) == Section(v) ==> u == v)
    && (forall g :: IsUnit(job, g) && g.Generic? ==> cj == 0)
    && (forall u, m, n :: HasClients(job, u) && Silent(job, m) && Silent(job, n) ==> m.step == n.step)
    && (forall g, u :: IsUnit(job, g) && g.Generic? && IsUnit(job, u) && u.Insert? ==>
          !Resent(checkpoint, u) && forall m :: !Silent(job, m))
  }

  /** The section that holds everything beside u, unless that is a generic query beside an insert. */
  lemma OtherSectionOf(job: Job, checkpoint: Step, cj: nat, u: Unit) returns (x: Step)
    requires Trusty(job, checkpoint, cj) && HasClients(job, u)
    requires u.Insert? ==> forall g :: IsUnit(job, g) ==> !g.Generic?
    ensures Beside(job, u, x)
  {
    if v :| IsUnit(job, v) && v != u {
      x := Section(v);
      forall w | IsUnit(job, w) && w != u ensures Section(w) == x {
        assert HasClients(job, v) || Silent(job, v);
        assert HasClients(job, w) || Silent(job, w);
      }
    } else {
      x := Logging;
    }
  }

  lemma PairSafe(job: Job, checkpoint: Step, cj: nat, g: Unit, u: Unit)
    requires Trusty(job, checkpoint, cj) && IsUnit(job, g) && g.Generic? && IsUnit(job, u) && u.Insert?
    ensures Safe(job, checkpoint, cj)
  {
    UnitsExact(job);
    assert HasClients(job, g) && HasClients(job, u);
    forall v | IsUnit(job, v) ensures v == g || v == u { assert HasClients(job, v) || Silent(job, v); }
    assert UnitSet(job) <= {g, u};
    SmallSet({g, u}, UnitSet(job));
  }

  lemma TrustySettled(job: Job, s: State, o: Oracle, n: nat, u: Unit)
    requires job.Fits() && Fresh(s) && Trusty(job, s.checkpoint, s.cj) && AllCommit(o) && Ends(job, s, o, 0, n)
    requires HasClients(job, u)
    ensures Settled(After(job, s, o, 0, n).tx, o, u)
  {
    hide Settled;
    if g :| u.Insert? && IsUnit(job, g) && g.Generic? {
      PairSafe(job, s.checkpoint, s.cj, g, u);
      PairSettled(job, s, o, n, u);
    } else {
      var x := OtherSectionOf(job, s.checkpoint, s.cj, u);
      if u.Insert? { InsertSettled(job, s, o, n, x, u); } else { GenericSettled(job, s, o, n, x, u); }
    }
  }
}
