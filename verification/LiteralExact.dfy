/** Exactly when the literal bookkeeping is right. */
module LiteralExact {
  import opened Options
  import opened Workload
  import opened Database
  import opened LiteralLoop
  import opened LiteralEnds
  import opened LiteralFrames
  import opened LiteralFails

  /** The jobs on which nothing can go wrong as long as commits succeed, seen from what a caller knows
      before the call: at most two statements, in different sections; and for a generic query, no
      stale checkpoint index, and beside it nothing that the checkpoint left by an earlier job makes
      the loop send twice. */
  ghost predicate Safe(job: Job, checkpoint: Step, cj: nat) {
    && |UnitSet(job)| <= 2
    && (forall u, v :: IsUnit(job, u) && IsUnit(job, v) && Section(u) == Section(v) ==> u == v)
    && (forall g, u :: IsUnit(job, g) && g.Generic? && IsUnit(job, u) ==>
          cj == 0 && (u != g ==> !Resent(checkpoint, u)))
  }

  // ---- sections of a safe job ----

  lemma {:induction false} WalkFlagged(s: State, o: Oracle, p: nat, vs: seq<Visit>)
    requires forall v :: v in vs ==> v.Statement? && v.u in s.tx.flagged
    ensures Walk(s, o, p, vs) == s
  {
    if vs == [] {
    } else {
      WalkFlagged(s, o, p, vs[..|vs| - 1]);
    }
  }

  ghost predicate AllFlagged(job: Job, s: State, a: Step, b: Step) {
    forall u :: IsUnit(job, u) && Between(a, u, b) ==> u in s.tx.flagged
  }

  /** The loop bounds of a section do not run past the queues. */
  predicate InBounds(job: Job, s: State, step: Step) {
    s.endpoint == step ==> s.ei <= job.QueueSize(step) && (step == Generics ==> s.ej <= s.cj)
  }

  lemma {:induction false} FlaggedBatches(job: Job, s: State, o: Oracle, p: nat, n: nat)
    requires n <= |job.batches| && (s.endpoint == Generics ==> s.ej <= s.cj)
    requires forall u :: IsUnit(job, u) && Section(u) == Generics ==> u in s.tx.flagged
    ensures GenericBatches(job, s, o, p, n) == s
  {
    hide VisitOne;
    if n == 0 {
    } else {
      FlaggedBatches(job, s, o, p, n - 1);
      if s.endpoint != Generics {
        GenericVisitsIn(job, n - 1, s.cj, job.batches[n - 1].generics);
        GenericVisitsInBounds(job, n - 1, s.cj, job.batches[n - 1].generics);
        WalkFlagged(s, o, p, GenericVisits(job, n - 1, s.cj, job.batches[n - 1].generics));
      }
    }
  }

  lemma SectionNone(job: Job, s: State, o: Oracle, p: nat, step: Step)
    requires job.Fits() && step != Finish && InBounds(job, s, step)
    requires forall u :: IsUnit(job, u) && Section(u) == step ==> u in s.tx.flagged
    ensures RunSection(job, s, o, p, step) == s
  {
    var n := Last(s, step, job.QueueSize(step));
    assert n <= job.QueueSize(step);
    if step == Generics {
      FlaggedBatches(job, s, o, p, n);
    } else if step == Writes {
      WriteInBounds(job, n);
      WalkFlagged(s, o, p, WriteVisits(job, n));
    } else {
      WalkFlagged(s, o, p, MulticastVisits(job, step, n));
    }
  }

  lemma {:induction false} OccursLength(vs: seq<Visit>, u: Unit)
    requires forall v :: v in vs ==> v.Statement? && v.u == u
    ensures Occurs(vs, u) == |vs|
  {
    if vs == [] {
    } else {
      OccursLength(vs[..|vs| - 1], u);
    }
  }

  ghost predicate Alone(job: Job, u: Unit) {
    IsUnit(job, u) && forall v :: IsUnit(job, v) && Section(v) == Section(u) ==> v == u
  }

  /** A section with u as its only statement, not flagged so far. */
  function AfterOne(s: State, o: Oracle, p: nat, u: Unit, ci: nat): State {
    if o.ok(p, u) then Sent(s, o, p, u) else s.(tx := Fail(s.tx, u), handle := Usable, ci := ci)
  }

  lemma BatchSizes(job: Job, u: Unit, n: nat)
    requires Alone(job, u) && u.Generic? && n < |job.batches|
    ensures job.batches[n].generics == if n == u.i then 1 else 0
    ensures u.j == 0
  {
    assert u.j != 0 ==> !IsUnit(job, Generic(u.i, 0));
    assert !IsUnit(job, Generic(u.i, 1));
    if n != u.i { assert !IsUnit(job, Generic(n, 0)); }
  }

  lemma OwnBatch(job: Job, s: State, o: Oracle, p: nat, u: Unit)
    requires Alone(job, u) && u.Generic? && u !in s.tx.flagged && s.cj == 0
    ensures Walk(s, o, p, GenericVisits(job, u.i, 0, 1)) == AfterOne(s, o, p, u, u.i + 1)
  {
    BatchSizes(job, u, u.i);
    assert GenericVisits(job, u.i, 0, 1) == [GenericVisit(job, u.i, 0)];
    WalkOne(s, o, p, GenericVisit(job, u.i, 0));
  }

  lemma {:induction false} OneBatch(job: Job, s: State, o: Oracle, p: nat, u: Unit, n: nat)
    requires Alone(job, u) && u.Generic? && u !in s.tx.flagged && s.cj == 0 && s.endpoint != Generics
    requires n <= |job.batches|
    ensures GenericBatches(job, s, o, p, n) == if n <= u.i then s else AfterOne(s, o, p, u, u.i + 1)
  {
    if n == 0 {
    } else {
      OneBatch(job, s, o, p, u, n - 1);
      BatchSizes(job, u, u.i);
      BatchSizes(job, u, n - 1);
      var s1 := GenericBatches(job, s, o, p, n - 1);
      assert s1.cj == 0 && s1.endpoint == s.endpoint;
      if n - 1 == u.i {
        OwnBatch(job, s, o, p, u);
      }
    }
  }

  lemma OnlyVisit(job: Job, u: Unit) returns (ci: nat)
    requires Alone(job, u) && (IsMulticast(Section(u)) || Section(u) == Writes)
    ensures FullVisits(job, Section(u)) == [Statement(u, ci, None)] && ci <= job.QueueSize(Section(u))
  {
    var vs := FullVisits(job, Section(u));
    FullVisitsExact(job, Section(u), u);
    OccursLength(vs, u);
    FirstVisit(job, Section(u));
    ci := vs[0].ci;
    assert vs[0] == Statement(u, ci, None);
    assert vs == [vs[0]];
  }

  lemma SectionOne(job: Job, s: State, o: Oracle, p: nat, u: Unit) returns (ci: nat)
    requires job.Fits() && Alone(job, u) && u !in s.tx.flagged && s.endpoint != Section(u)
    requires u.Generic? ==> s.cj == 0
    ensures RunSection(job, s, o, p, Section(u)) == AfterOne(s, o, p, u, ci)
    ensures ci <= job.QueueSize(Section(u))
  {
    if u.Generic? {
      FullSection(job, s, o, p, Generics);
      OneBatch(job, s, o, p, u, |job.batches|);
      ci := u.i + 1;
    } else {
      FullSectionVisits(job, s, o, p, Section(u));
      ci := OnlyVisit(job, u);
      WalkOne(s, o, p, Statement(u, ci, None));
    }
  }

  lemma FirstVisit(job: Job, step: Step)
    requires (IsMulticast(step) || step == Writes) && FullVisits(job, step) != []
    ensures FullVisits(job, step)[0].Statement? && FullVisits(job, step)[0].ci <= job.QueueSize(step)
    ensures FullVisits(job, step)[0].cj == None
  {
    if step == Writes { WriteIndices(job, |job.batches|); }
  }

  lemma {:induction false} TableIndices(i: nat, tables: set<Table>, order: seq<Table>)
    ensures forall v :: v in TableVisits(i, tables, order) ==> v.Statement? && v.ci == i + 1 && v.cj == None
  {
    if order == [] {
    } else {
      TableIndices(i, tables, order[..|order| - 1]);
    }
  }

  lemma {:induction false} WriteIndices(job: Job, n: nat)
    requires n <= |job.batches|
    ensures forall v :: v in WriteVisits(job, n) ==> v.Statement? && v.ci <= n && v.cj == None
  {
    hide TableVisits;
    if n == 0 {
    } else {
      WriteIndices(job, n - 1);
      TableIndices(n - 1, job.batches[n - 1].tables, TABLES);
    }
  }

  // ---- stretches of a pass without anything to send ----

  function Moved(s: State, b: Step): State {
    if s.tx.hadError then s else s.(checkpoint := b)
  }

  lemma {:induction false} SkipTo(job: Job, s: State, o: Oracle, p: nat, a: Step, b: Step)
    requires job.Fits() && Rank(a) <= Rank(b) <= 5 && AllFlagged(job, s, a, b)
    requires Rank(a) <= Rank(s.endpoint) < Rank(b) ==> InBounds(job, s, s.endpoint)
    requires s.tx.hadError || !(Rank(a) < Rank(s.endpoint) <= Rank(b))
    ensures PassFrom(job, s, o, p, a) == PassFrom(job, if a == b then s else Moved(s, b), o, p, b)
    decreases 6 - Rank(a)
  {
    hide PassFrom, RunSection;
    if a != b {
      if Rank(a) == Rank(b) { SameRank(a, b); }
      SectionNone(job, s, o, p, a);
      Continue(job, s, o, p, a);
      SkipTo(job, Moved(s, Next(a)), o, p, Next(a), b);
    }
  }

  lemma SkipToEnd(job: Job, s: State, o: Oracle, p: nat, a: Step)
    requires job.Fits() && a != Finish && AllFlagged(job, s, a, Finish)
    requires Rank(a) <= Rank(s.endpoint) <= 5 ==> InBounds(job, s, s.endpoint)
    requires s.tx.hadError || !(Rank(a) < Rank(s.endpoint) <= 5)
    ensures PassFrom(job, s, o, p, a) == if a == Writes then s else Moved(s, Writes)
  {
    hide PassFrom, RunSection;
    SkipTo(job, s, o, p, a, Writes);
    LastSection(job, if a == Writes then s else Moved(s, Writes), o, p);
    SectionNone(job, if a == Writes then s else Moved(s, Writes), o, p, Writes);
  }

  lemma {:induction false} SkipToStop(job: Job, s: State, o: Oracle, p: nat, a: Step) returns (c: Step)
    requires job.Fits() && !s.tx.hadError && Rank(a) < Rank(s.endpoint) <= 5 && AllFlagged(job, s, a, s.endpoint)
    ensures PassFrom(job, s, o, p, a) == s.(checkpoint := c)
    ensures c == s.checkpoint || 1 <= Rank(c) <= 5
    decreases 6 - Rank(a)
  {
    SectionNone(job, s, o, p, a);
    if s.endpoint == Next(a) {
      c := s.checkpoint;
    } else {
      if Rank(s.endpoint) == Rank(Next(a)) { SameRank(s.endpoint, Next(a)); }
      Continue(job, s, o, p, a);
      c := SkipToStop(job, Moved(s, Next(a)), o, p, Next(a));
    }
  }

  function Arrive(s: State, a: Step, b: Step): State {
    if a == b then s else Moved(s, b)
  }

  /** The rest of a pass from section a with u as the only statement left to send. */
  function RestWithOne(s: State, o: Oracle, p: nat, a: Step, u: Unit, ci: nat): State {
    var t := AfterOne(Arrive(s, a, Section(u)), o, p, u, ci);
    if Section(u) == Writes then t else Moved(t, Writes)
  }

  lemma RestAfterOne(job: Job, s: State, o: Oracle, p: nat, u: Unit, ci: nat)
    requires job.Fits() && Section(u) != Finish && RunSection(job, s, o, p, Section(u)) == AfterOne(s, o, p, u, ci)
    requires (s.endpoint == Finish || Rank(s.endpoint) < Rank(Section(u)))
    requires forall v :: IsUnit(job, v) && Rank(Section(u)) < Rank(Section(v)) ==> v in s.tx.flagged
    ensures var t := AfterOne(s, o, p, u, ci);
      PassFrom(job, s, o, p, Section(u)) == if Section(u) == Writes then t else Moved(t, Writes)
  {
    var t := AfterOne(s, o, p, u, ci);
    if Section(u) != Writes {
      Continue(job, s, o, p, Section(u));
      SkipToEnd(job, Moved(t, Next(Section(u))), o, p, Next(Section(u)));
    }
  }

  lemma PassWithOne(job: Job, s: State, o: Oracle, p: nat, a: Step, u: Unit) returns (ci: nat)
    requires job.Fits() && Alone(job, u) && u !in s.tx.flagged && (u.Generic? ==> s.cj == 0)
    requires Rank(a) <= Rank(Section(u)) && (s.endpoint == Finish || Rank(s.endpoint) < Rank(a))
    requires forall v :: IsUnit(job, v) && Rank(a) <= Rank(Section(v)) && v != u ==> v in s.tx.flagged
    ensures PassFrom(job, s, o, p, a) == RestWithOne(s, o, p, a, u, ci)
    ensures ci <= job.QueueSize(Section(u))
  {
    hide PassFrom, RunSection;
    assert AllFlagged(job, s, a, Section(u));
    SkipTo(job, s, o, p, a, Section(u));
    ci := SectionOne(job, Arrive(s, a, Section(u)), o, p, u);
    RestAfterOne(job, Arrive(s, a, Section(u)), o, p, u, ci);
  }

  /** The start of a pass, up to and with the section of u. */
  lemma ThroughOne(job: Job, s: State, o: Oracle, p: nat, u: Unit) returns (ci: nat, s2: State)
    requires job.Fits() && s.endpoint == Finish && Alone(job, u) && u !in s.tx.flagged && (u.Generic? ==> s.cj == 0)
    requires AllFlagged(job, s, Generics, Section(u)) && Section(u) != Writes
    ensures s2 == Moved(AfterOne(Arrive(s, Generics, Section(u)), o, p, u, ci), Next(Section(u)))
    ensures PassFrom(job, s, o, p, Generics) == PassFrom(job, s2, o, p, Next(Section(u)))
    ensures ci <= job.QueueSize(Section(u))
  {
    hide PassFrom, RunSection;
    SkipTo(job, s, o, p, Generics, Section(u));
    var s1 := Arrive(s, Generics, Section(u));
    ci := SectionOne(job, s1, o, p, u);
    Continue(job, s1, o, p, Section(u));
    s2 := Moved(AfterOne(s1, o, p, u, ci), Next(Section(u)));
  }

  /** A whole pass with u and v, in this order, as the only statements left to send. */
  lemma PassWithTwo(job: Job, s: State, o: Oracle, p: nat, u: Unit, v: Unit) returns (ci: nat, cj: nat)
    requires job.Fits() && s.endpoint == Finish
    requires Alone(job, u) && u !in s.tx.flagged && (u.Generic? ==> s.cj == 0)
    requires Alone(job, v) && v !in s.tx.flagged && Rank(Section(u)) < Rank(Section(v))
    requires forall x :: IsUnit(job, x) && x != u && x != v ==> x in s.tx.flagged
    ensures PassFrom(job, s, o, p, Generics) ==
      RestWithOne(Moved(AfterOne(Arrive(s, Generics, Section(u)), o, p, u, ci), Next(Section(u))),
                  o, p, Next(Section(u)), v, cj)
    ensures ci <= job.QueueSize(Section(u)) && cj <= job.QueueSize(Section(v))
  {
    hide PassFrom, RunSection;
    var s2: State;
    ci, s2 := ThroughOne(job, s, o, p, u);
    cj := PassWithOne(job, s2, o, p, Next(Section(u)), v);
  }

  // ---- what a safe job keeps between passes ----

  ghost predicate Lone(job: Job) {
    && |UnitSet(job)| <= 2
    && (forall u, v :: IsUnit(job, u) && IsUnit(job, v) && Section(u) == Section(v) ==> u == v)
  }

  ghost predicate Common(job: Job, s: State) {
    && s.tx.open == [] && !s.fault && !s.tx.hadError
    && (forall u :: u in s.tx.flagged ==> IsUnit(job, u))
    && (forall e :: e in s.tx.committed ==> IsUnit(job, e.u))
    && (forall g :: IsUnit(job, g) && g.Generic? ==> s.cj == 0)
    && (forall g, u :: IsUnit(job, g) && g.Generic? && IsUnit(job, u) && u != g ==> 1 <= Rank(s.checkpoint) <= 5)
  }

  /** The first pass has not begun. */
  ghost predicate Untouched(job: Job, s: State) {
    && s.handle == Usable && s.endpoint == Finish && s.tx.committed == []
    && (forall g, u :: IsUnit(job, g) && g.Generic? && IsUnit(job, u) && u != g ==> !Resent(s.checkpoint, u))
  }

  /** A statement before the endpoint that is left. */
  predicate Behind(job: Job, s: State, u: Unit) {
    IsUnit(job, u) && Rank(Section(u)) < Rank(s.endpoint) && u !in s.tx.flagged
  }

  /** From the endpoint on everything is settled; before it at most one statement is left. */
  ghost predicate Partly(job: Job, s: State) {
    && s.handle == Finished && 1 <= Rank(s.endpoint) <= 5
    && (forall u :: IsUnit(job, u) ==>
          Times(s.tx.committed, u) == if Rank(Section(u)) >= Rank(s.endpoint) && u !in s.tx.flagged then 1 else 0)
    && (forall u, v :: Behind(job, s, u) && IsUnit(job, v) && v != u ==> v in s.tx.flagged)
    && (forall u :: Behind(job, s, u) ==> s.ei <= job.QueueSize(s.endpoint))
  }

  /** Every statement has failed. */
  ghost predicate Hopeless(job: Job, s: State) {
    && s.handle != Broken
    && (forall u :: IsUnit(job, u) ==> u in s.tx.flagged && Times(s.tx.committed, u) == 0)
    && InBounds(job, s, Generics)
  }

  ghost predicate Kept(job: Job, s: State) {
    Common(job, s) && (Untouched(job, s) || Partly(job, s) || Hopeless(job, s))
  }

  ghost predicate Done(job: Job, s: State) {
    ExactlyOnce(job, s.tx) && !s.fault
  }

  /** After a pass the loop has either ended well or can go on. */
  ghost predicate Good(job: Job, s: State) {
    if s.tx.hadError then Kept(job, Again(s)) else Done(job, s)
  }

  /** The end of a pass that saw no error: everything unflagged is either committed or open, once. */
  lemma EndsWell(job: Job, w: State, o: Oracle, p: nat)
    requires Commits(w, o, p) && !w.tx.hadError && !w.fault
    requires forall u :: u in w.tx.flagged ==> IsUnit(job, u)
    requires forall e :: e in w.tx.committed || e in w.tx.open ==> IsUnit(job, e.u)
    requires forall u :: IsUnit(job, u) ==> Total(w, u) == if u in w.tx.flagged then 0 else 1
    ensures Good(job, Commit(w, o, p))
  {
    UnitsExact(job);
    forall u | IsUnit(job, u) ensures Times(Commit(w, o, p).tx.committed, u) == Total(w, u) {
      CommitTotal(w, o, p, u);
    }
  }

  lemma NoneOpen(w: State, u: Unit)
    requires w.tx.open == []
    ensures Total(w, u) == Times(w.tx.committed, u)
  {
  }

  lemma HopelessPass(job: Job, s: State, o: Oracle, p: nat)
    requires job.Fits() && Common(job, s) && Hopeless(job, s) && o.commits(p)
    ensures Good(job, Pass(job, s, o, p))
  {
    var c: Step;
    if 1 <= Rank(s.endpoint) <= 5 {
      c := SkipToStop(job, s, o, p, Generics);
    } else {
      if Rank(s.endpoint) == 0 { SameRank(s.endpoint, Generics); }
      SkipToEnd(job, s, o, p, Generics);
      c := Writes;
    }
    EndsWell(job, s.(checkpoint := c), o, p);
  }

  /** A statement before the endpoint is left: it is sent again, and the pass stops at the
      endpoint, or it fails and everything has failed. */
  lemma PartlyPass(job: Job, s: State, o: Oracle, p: nat, u: Unit)
    requires job.Fits() && Lone(job) && Common(job, s) && Partly(job, s) && o.commits(p)
    requires Behind(job, s, u)
    ensures Good(job, Pass(job, s, o, p))
  {
    hide PassFrom, RunSection;
    var b := Section(u);
    SkipTo(job, s, o, p, Generics, b);
    var s1 := Arrive(s, Generics, b);
    var ci := SectionOne(job, s1, o, p, u);
    var t := AfterOne(s1, o, p, u, ci);
    if o.ok(p, u) {
      PartlySent(job, s, s1, o, p, u);
    } else {
      Continue(job, s1, o, p, b);
      if b != Writes { SkipToEnd(job, t, o, p, Next(b)); }
      FailedLast(job, s, t, o, p);
    }
  }

  /** After the last statement that was left has been sent, the pass stops at the endpoint. */
  lemma SentThenStops(job: Job, s: State, t: State, o: Oracle, p: nat, b: Step) returns (c: Step)
    requires job.Fits() && Rank(b) < Rank(t.endpoint) <= 5 && !t.tx.hadError && RunSection(job, s, o, p, b) == t
    requires forall v :: IsUnit(job, v) && Rank(b) < Rank(Section(v)) < Rank(t.endpoint) ==> v in t.tx.flagged
    ensures PassFrom(job, s, o, p, b) == t.(checkpoint := c)
  {
    if Next(b) == t.endpoint {
      c := t.checkpoint;
    } else {
      Continue(job, s, o, p, b);
      if Rank(t.endpoint) == Rank(Next(b)) { SameRank(t.endpoint, Next(b)); }
      c := SkipToStop(job, Moved(t, Next(b)), o, p, Next(b));
    }
  }

  lemma {:induction false} PartlySent(job: Job, s: State, s1: State, o: Oracle, p: nat, u: Unit)
    requires job.Fits() && Lone(job) && Common(job, s) && Partly(job, s)
    requires Behind(job, s, u)
    requires s1 == Arrive(s, Generics, Section(u))
    requires PassFrom(job, s, o, p, Generics) == PassFrom(job, s1, o, p, Section(u))
    requires RunSection(job, s1, o, p, Section(u)) == Sent(s1, o, p, u)
    ensures Good(job, Pass(job, s, o, p))
  {
    var t := Sent(s1, o, p, u);
    var c := SentThenStops(job, s1, t, o, p, Section(u));
    var w := t.(checkpoint := c);
    forall v | IsUnit(job, v) ensures Total(w, v) == if v in w.tx.flagged then 0 else 1 {
      var sent := SentOnce(s1, o, p, u, v);
      NoneOpen(s1, v);
    }
    EndsWell(job, w, o, p);
  }

  /** The end of a pass in which the last statement that was left has failed. */
  lemma FailedLast(job: Job, s: State, t: State, o: Oracle, p: nat)
    requires Common(job, s) && s.endpoint != Generics && Commits(t, o, p)
    requires forall v :: IsUnit(job, v) ==> v in t.tx.flagged
    requires t.tx.open == [] && t.tx.hadError && !t.fault && t.tx.committed == s.tx.committed
    requires forall u :: u in t.tx.flagged ==> IsUnit(job, u)
    requires forall v :: IsUnit(job, v) ==> Times(s.tx.committed, v) == 0
    requires t.endpoint == s.endpoint && t.ei == s.ei && t.ej == s.ej && t.cj == s.cj
    requires 1 <= Rank(t.checkpoint) <= 5 || t.checkpoint == s.checkpoint
    requires t.checkpoint == Generics ==> t.ci <= |job.batches|
    ensures Good(job, Commit(t, o, p))
  {
    assert Commit(t, o, p).tx.committed == t.tx.committed by { assert t.tx.committed + [] == t.tx.committed; }
  }

  lemma SettledPass(job: Job, s: State, o: Oracle, p: nat)
    requires job.Fits() && Common(job, s) && Partly(job, s) && o.commits(p)
    requires forall u :: !Behind(job, s, u)
    ensures Good(job, Pass(job, s, o, p))
  {
    forall u | IsUnit(job, u) && Between(Generics, u, s.endpoint) ensures u in s.tx.flagged {
      assert !Behind(job, s, u);
    }
    var c := SkipToStop(job, s, o, p, Generics);
    EndsWell(job, s.(checkpoint := c), o, p);
  }

  lemma FirstPassWithOne(job: Job, s: State, o: Oracle, p: nat, u: Unit)
    requires job.Fits() && Lone(job) && Common(job, s) && Untouched(job, s) && o.commits(p)
    requires IsUnit(job, u) && u !in s.tx.flagged && forall v :: IsUnit(job, v) && v != u ==> v in s.tx.flagged
    ensures Good(job, Pass(job, s, o, p))
  {
    var ci := PassWithOne(job, s, o, p, Generics, u);
    var w := RestWithOne(s, o, p, Generics, u, ci);
    if o.ok(p, u) {
      OneSent(job, s, w, o, p, u);
    } else {
      FailedLast(job, s, w, o, p);
    }
  }

  /** One statement is sent and does not fail; the others have failed before. */
  lemma OneSent(job: Job, s: State, w: State, o: Oracle, p: nat, u: Unit)
    requires Common(job, s) && Untouched(job, s) && o.commits(p)
    requires IsUnit(job, u) && u !in s.tx.flagged && forall v :: IsUnit(job, v) && v != u ==> v in s.tx.flagged
    requires w == s.(tx := Succeed(s.tx, o, p, u), checkpoint := w.checkpoint)
    ensures Good(job, Commit(w, o, p))
  {
    forall v | IsUnit(job, v) ensures Total(w, v) == if v == u then 1 else 0 {
      var sent := SentOnce(s, o, p, u, v);
      NoneOpen(s, v);
    }
    EndsWell(job, w, o, p);
  }

  /** Both statements are sent and neither fails. */
  lemma BothSent(job: Job, s: State, w: State, o: Oracle, p: nat, u: Unit, v: Unit)
    requires Common(job, s) && Untouched(job, s) && o.commits(p)
    requires IsUnit(job, u) && IsUnit(job, v) && u != v && u !in s.tx.flagged && v !in s.tx.flagged
    requires forall x :: IsUnit(job, x) && x != u && x != v ==> x in s.tx.flagged
    requires w.tx.open == [Entry(u, p), Entry(v, p)] && w.tx.committed == [] && w.tx.flagged == s.tx.flagged
    requires !w.tx.hadError && w.handle == Usable && !w.fault
    ensures Good(job, Commit(w, o, p))
  {
    forall x | IsUnit(job, x) ensures Total(w, x) == if x == u || x == v then 1 else 0 {
      TimesSnoc([Entry(u, p)], Entry(v, p), x);
      TimesSnoc([], Entry(u, p), x);
      assert [] + [Entry(u, p)] == [Entry(u, p)];
      assert [Entry(u, p)] + [Entry(v, p)] == w.tx.open;
    }
    EndsWell(job, w, o, p);
  }

  /** The first statement fails, the second is sent: the endpoint comes to stand on or before the
      second, with the first as the only statement that could stand before it. */
  lemma FirstFailed(job: Job, s: State, w: State, o: Oracle, p: nat, u: Unit, v: Unit)
    requires Common(job, s) && Untouched(job, s) && o.commits(p)
    requires IsUnit(job, u) && IsUnit(job, v) && Rank(Section(u)) < Rank(Section(v)) && v !in s.tx.flagged
    requires forall x :: IsUnit(job, x) && x != u && x != v ==> x in s.tx.flagged
    requires w.tx.flagged == s.tx.flagged + {u} && w.tx.open == [Entry(v, p)] && w.tx.committed == [] && w.tx.hadError
    requires w == s.(tx := w.tx, checkpoint := w.checkpoint, ci := w.ci)
    requires w.checkpoint == if u.Generic? then s.checkpoint else Section(u)
    ensures Good(job, Commit(w, o, p))
  {
    if u.Generic? { assert !Resent(s.checkpoint, v); }
    OnlySecond(job, s, w, o, p, u, v);
  }

  lemma OnlySecond(job: Job, s: State, w: State, o: Oracle, p: nat, u: Unit, v: Unit)
    requires Common(job, s) && Untouched(job, s) && o.commits(p) && IsUnit(job, u) && IsUnit(job, v)
    requires forall x :: IsUnit(job, x) && x != v ==> x in w.tx.flagged
    requires w.tx.flagged == s.tx.flagged + {u} && v !in w.tx.flagged
    requires w.tx.open == [Entry(v, p)] && w.tx.committed == [] && w.tx.hadError
    requires w == s.(tx := w.tx, checkpoint := w.checkpoint, ci := w.ci)
    requires 1 <= Rank(w.checkpoint) <= 5 && Rank(w.checkpoint) <= Rank(Section(v))
    ensures Good(job, Commit(w, o, p))
  {
    hide IsUnit;
    forall x ensures Times(w.tx.open, x) == if x == v then 1 else 0 {
      TimesSnoc([], Entry(v, p), x);
      assert [] + [Entry(v, p)] == [Entry(v, p)];
    }
    assert w.tx.committed + w.tx.open == w.tx.open;
  }

  /** What the two statements leave open. */
  function BothOpen(o: Oracle, p: nat, u: Unit, v: Unit): seq<Entry> {
    if !o.ok(p, v) then [] else if o.ok(p, u) then [Entry(u, p), Entry(v, p)] else [Entry(v, p)]
  }

  /** What becomes of a pass with u and v, in this order, as the only statements left to send. */
  predicate AfterBoth(s: State, w: State, o: Oracle, p: nat, u: Unit, v: Unit) {
    && w == s.(tx := w.tx, checkpoint := w.checkpoint, ci := w.ci)
    && w.tx.committed == s.tx.committed
    && w.tx.flagged == s.tx.flagged + (if o.ok(p, u) then {} else {u}) + (if o.ok(p, v) then {} else {v})
    && w.tx.open == BothOpen(o, p, u, v)
    && w.tx.hadError == (!o.ok(p, u) || !o.ok(p, v))
    && (if o.ok(p, u) then w.checkpoint == (if o.ok(p, v) then Writes else Section(v))
        else w.checkpoint == if u.Generic? then s.checkpoint else Section(u))
  }

  lemma TwoOutcomes(s: State, w: State, o: Oracle, p: nat, u: Unit, v: Unit, ci: nat, cj: nat)
    requires Rank(Section(u)) < Rank(Section(v)) <= 5 && !s.tx.hadError && s.tx.open == [] && s.handle == Usable
    requires u.Generic? <==> Section(u) == Generics
    requires w == RestWithOne(Moved(AfterOne(Arrive(s, Generics, Section(u)), o, p, u, ci), Next(Section(u))),
                              o, p, Next(Section(u)), v, cj)
    ensures AfterBoth(s, w, o, p, u, v)
    ensures !o.ok(p, v) ==> w.ci == cj
  {
    var a := AfterOne(Arrive(s, Generics, Section(u)), o, p, u, ci);
    assert a.tx.hadError == !o.ok(p, u);
    assert a.checkpoint == if u.Generic? then s.checkpoint else Section(u);
    var r := Arrive(Moved(a, Next(Section(u))), Next(Section(u)), Section(v));
    assert r == a.(checkpoint := if o.ok(p, u) then Section(v) else a.checkpoint);
    var t := AfterOne(r, o, p, v, cj);
    assert w == if Section(v) == Writes then t else Moved(t, Writes);
  }

  lemma FirstPassWithTwo(job: Job, s: State, o: Oracle, p: nat, u: Unit, v: Unit)
    requires job.Fits() && Lone(job) && Common(job, s) && Untouched(job, s) && o.commits(p)
    requires IsUnit(job, u) && IsUnit(job, v) && Rank(Section(u)) < Rank(Section(v))
    requires u !in s.tx.flagged && v !in s.tx.flagged
    requires forall x :: IsUnit(job, x) && x != u && x != v ==> x in s.tx.flagged
    ensures Good(job, Pass(job, s, o, p))
  {
    hide PassFrom, RunSection;
    var ci, cj := PassWithTwo(job, s, o, p, u, v);
    var w := PassFrom(job, s, o, p, Generics);
    TwoOutcomes(s, w, o, p, u, v, ci, cj);
    AfterTwo(job, s, w, o, p, u, v, cj);
  }

  lemma AfterTwo(job: Job, s: State, w: State, o: Oracle, p: nat, u: Unit, v: Unit, cj: nat)
    requires Common(job, s) && Untouched(job, s) && o.commits(p)
    requires IsUnit(job, u) && IsUnit(job, v) && Rank(Section(u)) < Rank(Section(v))
    requires u !in s.tx.flagged && v !in s.tx.flagged
    requires forall x :: IsUnit(job, x) && x != u && x != v ==> x in s.tx.flagged
    requires AfterBoth(s, w, o, p, u, v) && (!o.ok(p, v) ==> w.ci == cj <= job.QueueSize(Section(v)))
    ensures Good(job, Commit(w, o, p))
  {
    if o.ok(p, u) && o.ok(p, v) {
      BothSent(job, s, w, o, p, u, v);
    } else if o.ok(p, v) {
      FirstFailed(job, s, w, o, p, u, v);
    } else if !o.ok(p, u) {
      FailedLast(job, s, w, o, p);
    } else {
      assert w.tx.committed + [] == [];
    }
  }

  lemma Pair(job: Job, u: Unit, v: Unit, x: Unit)
    requires Lone(job) && IsUnit(job, u) && IsUnit(job, v) && IsUnit(job, x) && u != v
    ensures x == u || x == v
  {
    UnitsExact(job);
    if x != u && x != v { SmallSet(UnitSet(job), {u, v, x}); }
  }

  lemma SmallSet<T>(big: set<T>, small: set<T>)
    requires small <= big
    ensures |small| <= |big|
  {
    assert big == small + (big - small);
  }

  lemma SafePass(job: Job, s: State, o: Oracle, p: nat)
    requires job.Fits() && Lone(job) && Kept(job, s) && o.commits(p)
    ensures Good(job, Pass(job, s, o, p))
  {
    if forall u :: IsUnit(job, u) ==> u in s.tx.flagged {
      if Untouched(job, s) || Hopeless(job, s) { HopelessPass(job, s, o, p); } else { SettledPass(job, s, o, p); }
    } else {
      var u :| IsUnit(job, u) && u !in s.tx.flagged;
      if Untouched(job, s) {
        FirstPass(job, s, o, p, u);
      } else if v :| Behind(job, s, v) {
        PartlyPass(job, s, o, p, v);
      } else {
        SettledPass(job, s, o, p);
      }
    }
  }

  lemma FirstPass(job: Job, s: State, o: Oracle, p: nat, u: Unit)
    requires job.Fits() && Lone(job) && Common(job, s) && Untouched(job, s) && o.commits(p)
    requires IsUnit(job, u) && u !in s.tx.flagged
    ensures Good(job, Pass(job, s, o, p))
  {
    if v :| IsUnit(job, v) && v !in s.tx.flagged && v != u {
      forall x | IsUnit(job, x) ensures x == u || x == v { Pair(job, u, v, x); }
      if Rank(Section(u)) == Rank(Section(v)) { SameRank(Section(u), Section(v)); }
      if Rank(Section(u)) < Rank(Section(v)) {
        FirstPassWithTwo(job, s, o, p, u, v);
      } else {
        FirstPassWithTwo(job, s, o, p, v, u);
      }
    } else {
      FirstPassWithOne(job, s, o, p, u);
    }
  }

  // ---- whole runs ----

  /** The loop ends, with every statement committed once or flagged, and without reading past a queue. */
  ghost predicate Right(job: Job, s: State, o: Oracle, p: nat) {
    exists n: nat :: Ends(job, s, o, p, n) && Done(job, After(job, s, o, p, n))
  }

  lemma RightNow(job: Job, s: State, o: Oracle, p: nat, s': State)
    requires s' == Pass(job, s, o, p) && !s'.tx.hadError && Done(job, s')
    ensures Right(job, s, o, p)
  {
    Turn(job, s, o, p, 1, s');
  }

  lemma RightLater(job: Job, s: State, o: Oracle, p: nat, s': State)
    requires s' == Pass(job, s, o, p) && s'.tx.hadError && Right(job, Again(s'), o, p + 1)
    ensures Right(job, s, o, p)
  {
    var n: nat :| Ends(job, Again(s'), o, p + 1, n) && Done(job, After(job, Again(s'), o, p + 1, n));
    Turn(job, s, o, p, n + 1, s');
  }

  /** A run does not end both well and badly. */
  lemma WrongNotRight(job: Job, s: State, o: Oracle, p: nat, u: Unit, twice: bool)
    requires Wrong(job, s, o, p, u, twice)
    ensures !Right(job, s, o, p)
  {
    var n: nat :| Ends(job, s, o, p, n) && Miscounted(After(job, s, o, p, n), u, twice);
    forall m: nat | Ends(job, s, o, p, m) ensures !Done(job, After(job, s, o, p, m)) {
      EndsOnce(job, s, o, p, if n < m then n else m, if n < m then m else n);
    }
  }

  lemma SafeStep(job: Job, s: State, o: Oracle, p: nat) returns (s': State)
    requires job.Fits() && Lone(job) && Kept(job, s) && s.handle != Broken && o.commits(p)
    ensures s' == Pass(job, s, o, p)
    ensures if s'.tx.hadError then Kept(job, Again(s')) && Again(s').handle != Broken else Done(job, s')
    ensures s'.tx.hadError ==> |Unflagged(job, Again(s'))| < |Unflagged(job, s)|
  {
    s' := PassProgress(job, s, o, p);
    SafePass(job, s, o, p);
    CommitFails(job, s, o, p);
    assert Unflagged(job, Again(s')) == Unflagged(job, s');
  }

  lemma {:induction false} SafeRun(job: Job, s: State, o: Oracle, p: nat)
    requires job.Fits() && Lone(job) && Kept(job, s) && AllCommit(o)
    ensures Right(job, s, o, p)
    decreases |Unflagged(job, s)|
  {
    var s' := SafeStep(job, s, o, p);
    if !s'.tx.hadError {
      RightNow(job, s, o, p, s');
    } else {
      SafeRun(job, Again(s'), o, p + 1);
      RightLater(job, s, o, p, s');
    }
  }

  // ---- every other job can be broken ----

  lemma {:induction false} FirstOf(job: Job, n: nat) returns (v: Unit)
    requires n < |job.batches| && exists i :: n <= i < |job.batches| && job.batches[i].generics > 0
    requires forall i :: 0 <= i < n ==> job.batches[i].generics == 0
    ensures FirstGeneric(job, v)
    decreases |job.batches| - n
  {
    if job.batches[n].generics > 0 { v := Generic(n, 0); } else { v := FirstOf(job, n + 1); }
  }

  lemma {:induction false} LastOf(job: Job, n: nat) returns (v: Unit)
    requires n <= |job.batches| && exists i :: 0 <= i < n && job.batches[i].generics > 0
    requires forall i :: n <= i < |job.batches| ==> job.batches[i].generics == 0
    ensures LastGeneric(job, v)
  {
    if job.batches[n - 1].generics > 0 {
      v := Generic(n - 1, job.batches[n - 1].generics - 1);
    } else {
      v := LastOf(job, n - 1);
    }
  }

  /** Two generic queries. */
  lemma TwoGenerics(job: Job, s: State, u: Unit, v: Unit, numbers: (nat, Unit) -> seq<nat>)
    returns (o: Oracle, x: Unit, twice: bool)
    requires job.Fits() && Fresh(s) && s.cj == 0
    requires IsUnit(job, u) && IsUnit(job, v) && u.Generic? && v.Generic? && u != v
    ensures AllCommit(o) && o.numbers == numbers && x.Generic? && Wrong(job, s, o, 0, x, twice)
  {
    if s.checkpoint == Generics {
      var last := LastOf(job, |job.batches|);
      o, x, twice := Failing({last}, numbers), if u == last then v else u, false;
      GenericsLost(job, s, o, last, x);
    } else {
      var first := FirstOf(job, 0);
      o, x, twice := Failing({first}, numbers), if u == first then v else u, true;
      CommittedTwice(job, s, o, 0, first, x);
    }
  }

  /** Two statements of another section. */
  lemma TwoInSection(job: Job, s: State, u: Unit, v: Unit, numbers: (nat, Unit) -> seq<nat>)
    returns (o: Oracle, x: Unit)
    requires job.Fits() && Fresh(s)
    requires IsUnit(job, u) && IsUnit(job, v) && !u.Generic? && Section(u) == Section(v) && u != v
    ensures AllCommit(o) && o.numbers == numbers && o.ok(0, x) && Section(x) == Section(u)
    ensures Wrong(job, s, o, 0, x, false)
  {
    var last := LastUnit(job, Section(u));
    LastUnitIn(job, Section(u), u);
    o, x := Failing({last, last}, numbers), if u == last then v else u;
    LostBetween(job, s, o, Section(u), Section(u), x);
  }

  /** A generic query g and a statement u that the second pass sends again. */
  lemma GenericAndOther(job: Job, s: State, g: Unit, u: Unit, numbers: (nat, Unit) -> seq<nat>)
    returns (o: Oracle)
    requires job.Fits() && Fresh(s) && s.cj == 0
    requires IsUnit(job, g) && g.Generic? && IsUnit(job, u) && !u.Generic? && Resent(s.checkpoint, u)
    ensures AllCommit(o) && o.numbers == numbers && o.ok(0, u) && Wrong(job, s, o, 0, u, true)
  {
    var first := FirstOf(job, 0);
    o := Failing({first}, numbers);
    CommittedTwice(job, s, o, 0, first, u);
  }

  /** Statements in three sections. */
  lemma ThreeSections(job: Job, s: State, u: Unit, v: Unit, w: Unit) returns (o: Oracle)
    requires job.Fits() && Fresh(s) && IsUnit(job, u) && IsUnit(job, v) && IsUnit(job, w) && !u.Generic?
    requires Rank(Section(u)) < Rank(Section(v)) < Rank(Section(w))
    ensures AllCommit(o) && Wrong(job, s, o, 0, v, false)
  {
    o := Failing({LastUnit(job, Section(u)), LastUnit(job, Section(w))}, SomeNumbers);
    LastUnitIn(job, Section(u), u);
    LastUnitIn(job, Section(w), w);
    LostBetween(job, s, o, Section(u), Section(w), v);
  }

  lemma Sorted(u: Unit, v: Unit, w: Unit) returns (a: Unit, b: Unit, c: Unit)
    requires Section(u) != Section(v) && Section(v) != Section(w) && Section(u) != Section(w)
    ensures {a, b, c} == {u, v, w} && Rank(Section(a)) < Rank(Section(b)) < Rank(Section(c))
  {
    a, b, c := u, v, w;
    if Rank(Section(a)) > Rank(Section(b)) { a, b := b, a; }
    if Rank(Section(b)) > Rank(Section(c)) { b, c := c, b; }
    if Rank(Section(a)) > Rank(Section(b)) { a, b := b, a; }
    if Rank(Section(a)) == Rank(Section(b)) { SameRank(Section(a), Section(b)); }
    if Rank(Section(b)) == Rank(Section(c)) { SameRank(Section(b), Section(c)); }
  }

  lemma ThreeOf<T>(s: set<T>) returns (a: T, b: T, c: T)
    requires |s| > 2
    ensures a in s && b in s && c in s && a != b && b != c && a != c
  {
    a :| a in s;
    assert |s - {a}| > 1;
    b :| b in s - {a};
    assert |s - {a} - {b}| > 0;
    c :| c in s - {a} - {b};
  }

  /** A generic query and statements in two other sections, none of them sent again. */
  lemma GenericAndTwo(job: Job, s: State, g: Unit, u: Unit, v: Unit) returns (o: Oracle)
    requires job.Fits() && Fresh(s) && s.cj == 0 && IsUnit(job, g) && g.Generic?
    requires IsUnit(job, u) && IsUnit(job, v) && 0 < Rank(Section(u)) < Rank(Section(v)) && !Resent(s.checkpoint, u)
    ensures AllCommit(o) && Wrong(job, s, o, 0, u, false)
  {
    var first := FirstOf(job, 0);
    o := Failing({first, LastUnit(job, Section(v))}, SomeNumbers);
    LastUnitIn(job, Section(v), v);
    LostBeforeLast(job, s, o, first, Section(v), u);
  }

  /** More than two statements, no two in one section. */
  lemma ManyUnits(job: Job, s: State) returns (o: Oracle, x: Unit)
    requires job.Fits() && Fresh(s) && |UnitSet(job)| > 2
    requires forall u, v :: IsUnit(job, u) && IsUnit(job, v) && Section(u) == Section(v) ==> u == v
    requires forall g, u :: IsUnit(job, g) && g.Generic? && IsUnit(job, u) ==>
               s.cj == 0 && (u != g ==> !Resent(s.checkpoint, u))
    ensures AllCommit(o) && Wrong(job, s, o, 0, x, false)
  {
    UnitsExact(job);
    var u, v, w := ThreeOf(UnitSet(job));
    var a, b, c := Sorted(u, v, w);
    assert a in {u, v, w} && b in {u, v, w} && c in {u, v, w};
    x := b;
    if a.Generic? { o := GenericAndTwo(job, s, a, b, c); } else { o := ThreeSections(job, s, a, b, c); }
  }

  /** Every other job has a pattern of failing statements that loses the statement x or commits it
      twice. */
  lemma Breakable(job: Job, s: State) returns (o: Oracle, x: Unit, twice: bool)
    requires job.Fits() && Fresh(s) && !Safe(job, s.checkpoint, s.cj)
    ensures AllCommit(o) && Wrong(job, s, o, 0, x, twice)
  {
    twice := false;
    if g :| IsUnit(job, g) && g.Generic? && s.cj != 0 {
      o, x := Failing({}, SomeNumbers), Generic(g.i, 0);
      StaleIndexSkips(job, s, o, g.i);
    } else if u, v :| IsUnit(job, u) && IsUnit(job, v) && Section(u) == Section(v) && u != v {
      if u.Generic? {
        o, x, twice := TwoGenerics(job, s, u, v, SomeNumbers);
      } else {
        o, x := TwoInSection(job, s, u, v, SomeNumbers);
      }
    } else if g, u :| IsUnit(job, g) && g.Generic? && IsUnit(job, u) && u != g && Resent(s.checkpoint, u) {
      o := GenericAndOther(job, s, g, u, SomeNumbers);
      x, twice := u, true;
    } else {
      o, x := ManyUnits(job, s);
    }
  }

  /** As long as commits succeed: the literal loop ends and commits every job's statements exactly
      once, under every pattern of failing statements and without reading past a queue, if and only if
      the job is safe. Every larger job has a pattern of failures that loses or duplicates a statement. */
  lemma LiteralExactlyOnceIff(job: Job, checkpoint: Step, ci: nat, cj: nat, ei: nat, ej: nat)
    requires job.Fits()
    ensures Safe(job, checkpoint, cj) <==>
      forall o: Oracle :: AllCommit(o) ==> Right(job, Start(checkpoint, ci, cj, ei, ej), o, 0)
  {
    var s := Start(checkpoint, ci, cj, ei, ej);
    if Safe(job, checkpoint, cj) {
      forall o: Oracle | AllCommit(o) ensures Right(job, s, o, 0) {
        StartKept(job, s);
        SafeRun(job, s, o, 0);
      }
    } else {
      var o, x, twice := Breakable(job, s);
      WrongNotRight(job, s, o, 0, x, twice);
    }
  }

  lemma StartKept(job: Job, s: State)
    requires Fresh(s) && Safe(job, s.checkpoint, s.cj)
    ensures Lone(job) && Kept(job, s)
  {
    forall g, u | IsUnit(job, g) && g.Generic? && IsUnit(job, u) && u != g ensures 1 <= Rank(s.checkpoint) <= 5 {
      assert Section(u) != Section(g);
      SomeCheckpoint(s.checkpoint, u);
    }
  }

  /** With failing commits there is no such job at all. */
  lemma NeverRightAlways(job: Job, checkpoint: Step, ci: nat, cj: nat, ei: nat, ej: nat)
    ensures !forall o: Oracle :: o.Valid() ==> Right(job, Start(checkpoint, ci, cj, ei, ej), o, 0)
  {
    FailedCommitHangs(job, checkpoint, ci, cj, ei, ej);
    assert !Right(job, Start(checkpoint, ci, cj, ei, ej), FIRST_COMMIT_FAILS, 0);
  }

  // ---- runs in which no statement fails ----

  /** When no statement fails, the literal loop ends and is right if and only if the first commit
      succeeds, and the job has no generic query or no checkpoint index is left over from an earlier
      job. */
  lemma QuietRunIff(job: Job, checkpoint: Step, ci: nat, cj: nat, ei: nat, ej: nat, o: Oracle)
    requires job.Fits() && NothingFailsFrom(o, 0)
    ensures Right(job, Start(checkpoint, ci, cj, ei, ej), o, 0) <==>
            o.commits(0) && (cj == 0 || forall u :: IsUnit(job, u) ==> !u.Generic?)
  {
    var s := Start(checkpoint, ci, cj, ei, ej);
    if !o.commits(0) {
      FirstCommitFails(job, s, o);
    } else if u :| IsUnit(job, u) && u.Generic? && cj > 0 {
      assert IsUnit(job, Generic(u.i, 0));
      PassEnds(job, s, o, 0, Generics, Generic(u.i, 0));
      WrongNow(job, s, o, 0, PassFrom(job, s, o, 0, Generics), Generic(u.i, 0), false);
      WrongNotRight(job, s, o, 0, Generic(u.i, 0), false);
    } else {
      QuietRun(job, s, o);
    }
  }

  lemma QuietRun(job: Job, s: State, o: Oracle)
    requires job.Fits() && Fresh(s) && NothingFailsFrom(o, 0) && o.commits(0)
    requires s.cj == 0 || forall u :: IsUnit(job, u) ==> !u.Generic?
    ensures Right(job, s, o, 0)
  {
    hide PassFrom;
    var w := PassFrom(job, s, o, 0, Generics);
    PassEnds(job, s, o, 0, Generics, Generic(0, 0));
    UnitsExact(job);
    var s' := Commit(w, o, 0);
    forall u ensures Times(s'.tx.committed, u) == if IsUnit(job, u) then 1 else 0 {
      PassEnds(job, s, o, 0, Generics, u);
      CommitTotal(w, o, 0, u);
    }
    forall e | e in s'.tx.committed ensures IsUnit(job, e.u) {
      TimesHas(s'.tx.committed, e.u);
    }
    RightNow(job, s, o, 0, s');
  }
}
