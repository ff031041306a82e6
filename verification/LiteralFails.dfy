/** Runs on which the literal bookkeeping loses or duplicates statements. */
module LiteralFails {
  import opened Workload
  import opened Database
  import opened LiteralLoop
  import opened LiteralFrames

  /** No commit of a usable transaction fails. */
  ghost predicate AllCommit(o: Oracle) {
    forall p :: o.commits(p)
  }

  /** Exactly the statements in `bad` fail, whenever they are sent. */
  ghost predicate Fails(o: Oracle, bad: set<Unit>) {
    AllCommit(o) && forall p, u :: o.ok(p, u) <==> u !in bad
  }

  /** The numbers that the inserts of a pass return: the code collects none for alarms. */
  function SomeNumbers(p: nat, u: Unit): seq<nat> {
    if u.Insert? && u.table == Alarm then [] else [p]
  }

  /** The adversary that does so and hands out the given numbers. */
  function Failing(bad: set<Unit>, numbers: (nat, Unit) -> seq<nat>): (o: Oracle)
    ensures Fails(o, bad) && o.numbers == numbers
  {
    Oracle((p, u) => u !in bad, numbers, p => true, 0)
  }

  ghost predicate Fresh(s: State) {
    s.tx == EMPTY && s.handle == Usable && !s.fault && s.endpoint == Finish
  }

  /** Without a read past a queue: u has not failed, but is committed more than once, or not at all. */
  predicate Miscounted(t: State, u: Unit, twice: bool) {
    !t.fault && u !in t.tx.flagged && if twice then Times(t.tx.committed, u) >= 2 else Times(t.tx.committed, u) == 0
  }

  /** The loop ends, but the statement u is lost, or committed twice. */
  ghost predicate Wrong(job: Job, s: State, o: Oracle, p: nat, u: Unit, twice: bool) {
    IsUnit(job, u) && exists n: nat :: Ends(job, s, o, p, n) && Miscounted(After(job, s, o, p, n), u, twice)
  }

  lemma CommitTotal(w: State, o: Oracle, p: nat, u: Unit)
    requires Commits(w, o, p)
    ensures Times(Commit(w, o, p).tx.committed, u) == Total(w, u)
  {
    TimesConcat(w.tx.committed, w.tx.open, u);
  }

  /** The pass ends the loop without u, or with too much of it. */
  lemma WrongNow(job: Job, s: State, o: Oracle, p: nat, w: State, u: Unit, twice: bool)
    requires w == PassFrom(job, s, o, p, Generics) && !w.tx.hadError && !w.fault && Commits(w, o, p)
    requires IsUnit(job, u) && u !in w.tx.flagged && if twice then Total(w, u) >= 2 else Total(w, u) == 0
    ensures Wrong(job, s, o, p, u, twice)
  {
    CommitTotal(w, o, p, u);
    Turn(job, s, o, p, 1, Commit(w, o, p));
  }

  lemma WrongLater(job: Job, s: State, o: Oracle, p: nat, w: State, u: Unit, twice: bool)
    requires w == PassFrom(job, s, o, p, Generics) && w.tx.hadError
    requires Wrong(job, Again(Commit(w, o, p)), o, p + 1, u, twice)
    ensures Wrong(job, s, o, p, u, twice)
  {
    var s' := Again(Commit(w, o, p));
    var n: nat :| Ends(job, s', o, p + 1, n) && Miscounted(After(job, s', o, p + 1, n), u, twice);
    Turn(job, s, o, p, n + 1, Commit(w, o, p));
  }

  lemma {:induction false} FlagsOnlyFailures(s: State, o: Oracle, p: nat, vs: seq<Visit>)
    ensures forall u :: u in Walk(s, o, p, vs).tx.flagged && u !in s.tx.flagged ==>
              !o.ok(p, u) && Occurs(vs, u) > 0
  {
    if vs == [] {
    } else {
      FlagsOnlyFailures(s, o, p, vs[..|vs| - 1]);
    }
  }

  lemma {:induction false} WalkKeeps(s: State, o: Oracle, p: nat, vs: seq<Visit>)
    ensures var s' := Walk(s, o, p, vs);
      && s'.checkpoint == s.checkpoint && s'.endpoint == s.endpoint
      && (s.handle == Usable ==> s'.handle == Usable && s'.tx.committed == s.tx.committed)
      && s.tx.flagged <= s'.tx.flagged
      && ((forall v :: v in vs ==> v.Statement?) ==> s'.fault == s.fault)
  {
    if vs == [] {
    } else {
      WalkKeeps(s, o, p, vs[..|vs| - 1]);
    }
  }

  // ---- generic queries below a stale checkpoint index are never sent ----

  /** A checkpoint index left over from an earlier job makes the first generic query of every
      batch be skipped, although nothing fails and the job reports success. */
  lemma StaleIndexSkips(job: Job, s: State, o: Oracle, i: nat)
    requires job.Fits() && Fresh(s) && s.cj > 0 && IsUnit(job, Generic(i, 0)) && Fails(o, {})
    ensures Wrong(job, s, o, 0, Generic(i, 0), false)
  {
    PassEnds(job, s, o, 0, Generics, Generic(i, 0));
    WrongNow(job, s, o, 0, PassFrom(job, s, o, 0, Generics), Generic(i, 0), false);
  }

  // ---- statements beyond what 16 bits can count are never sent ----

  /** A stretch in which nothing fails and u is not visited. */
  predicate PassedBy(s: State, s': State, u: Unit) {
    Grown(s, s') && Total(s', u) == Total(s, u)
  }

  lemma QuietStretch(s: State, o: Oracle, p: nat, vs: seq<Visit>, u: Unit)
    requires (forall v :: v in vs ==> v.Statement?) && (forall x :: o.ok(p, x)) && Occurs(vs, u) == 0
    ensures PassedBy(s, Walk(s, o, p, vs), u)
  {
    QuietWalk(s, o, p, vs, u);
  }

  lemma {:induction false} ShortBatches(job: Job, s: State, o: Oracle, p: nat, n: nat, u: Unit)
    requires n <= |job.batches| && s.endpoint == Finish && (forall x :: o.ok(p, x)) && (u.Generic? ==> n <= u.i)
    ensures PassedBy(s, GenericBatches(job, s, o, p, n), u)
  {
    hide Walk, GenericVisits;
    if n == 0 {
    } else {
      ShortBatches(job, s, o, p, n - 1, u);
      var s1, g := GenericBatches(job, s, o, p, n - 1), job.batches[n - 1].generics;
      GenericVisitsInBounds(job, n - 1, s1.cj, g);
      GenericOccurs(job, n - 1, s1.cj, g, u);
      QuietStretch(s1, o, p, GenericVisits(job, n - 1, s1.cj, g), u);
    }
  }

  lemma ShortSection(job: Job, s: State, o: Oracle, p: nat, step: Step, u: Unit)
    requires step != Finish && s.endpoint == Finish && (forall x :: o.ok(p, x)) && IsUnit(job, u)
    requires Section(u) == step ==> job.QueueSize(step) % 0x1_0000 <= u.i
    ensures PassedBy(s, RunSection(job, s, o, p, step), u)
  {
    hide Walk, WriteVisits;
    var n := job.QueueSize(step) % 0x1_0000;
    if step == Generics {
      ShortBatches(job, s, o, p, n, u);
    } else if step == Writes {
      WriteInBounds(job, n);
      WriteOccurs(job, n, u);
      QuietStretch(s, o, p, WriteVisits(job, n), u);
    } else {
      MulticastOccurs(job, step, n, u);
      QuietStretch(s, o, p, MulticastVisits(job, step, n), u);
    }
  }

  lemma {:induction false} ShortPass(job: Job, s: State, o: Oracle, p: nat, a: Step, u: Unit)
    requires a != Finish && s.endpoint == Finish && !s.tx.hadError && (forall x :: o.ok(p, x)) && IsUnit(job, u)
    requires job.QueueSize(Section(u)) % 0x1_0000 <= u.i
    ensures var s' := PassFrom(job, s, o, p, a);
      Total(s', u) == Total(s, u) && !s'.tx.hadError && s'.tx.flagged == s.tx.flagged
      && s'.handle == s.handle && s'.fault == s.fault
    decreases 6 - Rank(a)
  {
    hide RunSection, Total;
    ShortSection(job, s, o, p, a, u);
    if a != Writes {
      ShortPass(job, RunSection(job, s, o, p, a).(checkpoint := Next(a)), o, p, Next(a), u);
      SameTotal(RunSection(job, s, o, p, a), Next(a), u);
    }
  }

  lemma SameTotal(s: State, c: Step, u: Unit)
    ensures Total(s.(checkpoint := c), u) == Total(s, u)
  {
  }

  /** A loop bound of 16 bits: of a queue with 65536 entries or more only so many are visited as its length
      leaves over when divided by 65536. All others are lost although nothing fails. */
  lemma LongQueueLost(job: Job, s: State, o: Oracle, u: Unit)
    requires Fresh(s) && Fails(o, {}) && IsUnit(job, u) && job.QueueSize(Section(u)) % 0x1_0000 <= u.i
    ensures Wrong(job, s, o, 0, u, false)
  {
    hide PassFrom;
    ShortPass(job, s, o, 0, Generics, u);
    WrongNow(job, s, o, 0, PassFrom(job, s, o, 0, Generics), u, false);
  }

  // ---- statements between the first failing section and the last failure are lost ----

  /** The visits of a section that is run in full. */
  function FullVisits(job: Job, step: Step): seq<Visit> {
    if step == Writes then WriteVisits(job, |job.batches|) else MulticastVisits(job, step, job.QueueSize(step))
  }

  lemma FullVisitsExact(job: Job, step: Step, u: Unit)
    requires IsMulticast(step) || step == Writes
    ensures forall v :: v in FullVisits(job, step) ==> v.Statement? && IsUnit(job, v.u) && Section(v.u) == step
    ensures Occurs(FullVisits(job, step), u) == if IsUnit(job, u) && Section(u) == step then 1 else 0
  {
    if step == Writes {
      WriteInBounds(job, |job.batches|);
      WriteOccurs(job, |job.batches|, u);
    } else {
      MulticastOccurs(job, step, job.QueueSize(step), u);
    }
  }

  function LastUnit(job: Job, step: Step): Unit {
    var vs := FullVisits(job, step);
    if vs != [] && vs[|vs| - 1].Statement? then vs[|vs| - 1].u else Generic(0, 0)
  }

  lemma LastVisit(job: Job, step: Step)
    requires (IsMulticast(step) || step == Writes) && FullVisits(job, step) != []
    ensures var vs := FullVisits(job, step);
      && vs[|vs| - 1].Statement? && vs[|vs| - 1].u == LastUnit(job, step)
      && IsUnit(job, LastUnit(job, step)) && Section(LastUnit(job, step)) == step
  {
    FullVisitsExact(job, step, LastUnit(job, step));
    assert FullVisits(job, step)[|FullVisits(job, step)| - 1] in FullVisits(job, step);
  }

  lemma LastUnitIn(job: Job, step: Step, u: Unit)
    requires IsMulticast(step) || step == Writes
    requires IsUnit(job, u) && Section(u) == step
    ensures FullVisits(job, step) != []
    ensures IsUnit(job, LastUnit(job, step)) && Section(LastUnit(job, step)) == step
  {
    FullVisitsExact(job, step, u);
    LastVisit(job, step);
  }

  lemma {:induction false} FullSectionVisits(job: Job, s: State, o: Oracle, p: nat, step: Step)
    requires job.Fits() && (IsMulticast(step) || step == Writes) && s.endpoint != step
    ensures RunSection(job, s, o, p, step) == Walk(s, o, p, FullVisits(job, step))
  {
    FullSection(job, s, o, p, step);
  }

  lemma WalkLastFails(s: State, o: Oracle, p: nat, vs: seq<Visit>, bad: set<Unit>)
    requires vs != [] && vs[|vs| - 1].Statement?
    requires var v := vs[|vs| - 1].u; Occurs(vs, v) == 1 && v in bad && v !in s.tx.flagged
    requires (forall u :: o.ok(p, u) <==> u !in bad) && s.tx.flagged <= bad
    ensures var s' := Walk(s, o, p, vs);
      && s'.tx.open == [] && s'.tx.hadError && s'.handle == Usable
      && s.tx.flagged <= s'.tx.flagged <= bad && vs[|vs| - 1].u in s'.tx.flagged
      && s'.ci == vs[|vs| - 1].ci
  {
    FlagsOnlyFailures(s, o, p, vs[..|vs| - 1]);
    FlagsOnlyFailures(s, o, p, vs);
    WalkKeeps(s, o, p, vs);
  }

  /** A section whose last statement fails leaves an empty transaction and an error behind. */
  lemma LastFails(job: Job, s: State, o: Oracle, p: nat, step: Step, bad: set<Unit>)
    requires job.Fits() && (IsMulticast(step) || step == Writes) && s.endpoint != step && s.handle == Usable
    requires FullVisits(job, step) != [] && LastUnit(job, step) in bad && LastUnit(job, step) !in s.tx.flagged
    requires forall u :: o.ok(p, u) <==> u !in bad
    requires s.tx.flagged <= bad
    ensures var s' := RunSection(job, s, o, p, step);
      && s'.tx.open == [] && s'.tx.hadError && s'.handle == Usable && s'.tx.committed == s.tx.committed
      && s.tx.flagged <= s'.tx.flagged <= bad && LastUnit(job, step) in s'.tx.flagged
      && s'.checkpoint == s.checkpoint && s'.endpoint == s.endpoint && s'.fault == s.fault
  {
    FullSectionVisits(job, s, o, p, step);
    var vs := FullVisits(job, step);
    FullVisitsExact(job, step, LastUnit(job, step));
    assert vs[|vs| - 1] in vs;
    WalkLastFails(s, o, p, vs, bad);
    WalkKeeps(s, o, p, vs);
  }

  /** After a section with an error no test stops the pass. */
  lemma GoesOn(job: Job, s: State, o: Oracle, p: nat, a: Step, s1: State)
    requires a != Finish && s1 == RunSection(job, s, o, p, a) && s1.tx.hadError
    ensures PassFrom(job, s, o, p, a) == if a == Writes then s1 else PassFrom(job, s1, o, p, Next(a))
  {
  }

  /** The same for all sections from a on, as far as they are quiet, when the pass has already
      seen an error and the transaction holds nothing of u. */
  lemma TailWithout(job: Job, s: State, o: Oracle, p: nat, a: Step, u: Unit)
    requires job.Fits() && a != Finish && QuietRange(job, s, o, p, a, Finish) && s.endpoint == Finish
    requires s.handle == Usable && Rank(Section(u)) < Rank(a)
    ensures var s' := PassFrom(job, s, o, p, a);
      GrownTo(s, s') && Times(s'.tx.open, u) == Times(s.tx.open, u) && (s.tx.hadError ==> s'.checkpoint == s.checkpoint)
  {
    hide PassFrom, RunSection;
    PassEnds(job, s, o, p, a, u);
  }

  /** The rest of a first pass after the first failing section: the section of the last failure
      empties the transaction once more. */
  lemma LaterFailure(job: Job, s: State, o: Oracle, p: nat, a: Step, last: Step, bad: set<Unit>, u: Unit)
    requires job.Fits() && s.tx.hadError && s.endpoint == Finish && s.handle == Usable
    requires IsMulticast(last) || last == Writes
    requires Rank(a) <= Rank(last) && Rank(Section(u)) <= Rank(last)
    requires FullVisits(job, last) != [] && LastUnit(job, last) in bad && LastUnit(job, last) !in s.tx.flagged
    requires forall x :: o.ok(p, x) <==> x !in bad
    requires s.tx.flagged <= bad && forall x :: x in bad ==> x in s.tx.flagged || x == LastUnit(job, last)
    ensures var s' := PassFrom(job, s, o, p, a);
      && Times(s'.tx.open, u) == 0 && s'.tx.hadError && s'.handle == Usable && s'.tx.committed == s.tx.committed
      && s.tx.flagged <= s'.tx.flagged <= bad && LastUnit(job, last) in s'.tx.flagged
      && s'.checkpoint == s.checkpoint && s'.fault == s.fault
  {
    hide PassFrom, RunSection, FullVisits;
    LastVisit(job, last);
    PassTo(job, s, o, p, a, last, u);
    var s1 := Reach(job, s, o, p, a, last);
    LastFails(job, s1, o, p, last, bad);
    var s2 := RunSection(job, s1, o, p, last);
    GoesOn(job, s1, o, p, last, s2);
    if last != Writes {
      assert bad <= s2.tx.flagged;
      TailWithout(job, s2, o, p, Next(last), u);
    }
  }

  lemma FirstPassLoses(job: Job, s: State, o: Oracle, first: Step, last: Step, u: Unit, bad: set<Unit>)
    returns (w: State)
    requires job.Fits() && Fresh(s) && Fails(o, bad)
    requires (IsMulticast(first) || first == Writes) && (IsMulticast(last) || last == Writes)
    requires FullVisits(job, first) != [] && FullVisits(job, last) != []
    requires bad == {LastUnit(job, first), LastUnit(job, last)}
    requires Rank(first) <= Rank(Section(u)) <= Rank(last)
    ensures w == PassFrom(job, s, o, 0, Generics)
    ensures Times(w.tx.open, u) == 0 && w.tx.hadError && w.handle == Usable && w.tx.committed == []
    ensures w.checkpoint == first && w.tx.flagged <= bad && !w.fault
  {
    hide PassFrom, RunSection, FullVisits;
    w := PassFrom(job, s, o, 0, Generics);
    LastVisit(job, first);
    LastVisit(job, last);
    PassTo(job, s, o, 0, Generics, first, u);
    var s1 := Reach(job, s, o, 0, Generics, first);
    LastFails(job, s1, o, 0, first, bad);
    var s2 := RunSection(job, s1, o, 0, first);
    GoesOn(job, s1, o, 0, first, s2);
    if Rank(first) == Rank(last) {
      SameRank(first, last);
      if first != Writes { TailWithout(job, s2, o, 0, Next(first), u); }
    } else {
      NotFlaggedYet(job, s1, o, 0, first, LastUnit(job, last));
      LaterFailure(job, s2, o, 0, Next(first), last, bad, u);
    }
  }

  lemma NotFlaggedYet(job: Job, s: State, o: Oracle, p: nat, step: Step, u: Unit)
    requires job.Fits() && (IsMulticast(step) || step == Writes) && s.endpoint != step
    requires Section(u) != step && u !in s.tx.flagged
    ensures u !in RunSection(job, s, o, p, step).tx.flagged
  {
    FullSectionVisits(job, s, o, p, step);
    FullVisitsExact(job, step, u);
    FlagsOnlyFailures(s, o, p, FullVisits(job, step));
  }

  /** The first pass has ended in w without u in the transaction: the second pass stops before
      u's section, finds no error, and the loop ends without u. */
  lemma SecondPassStops(job: Job, w: State, o: Oracle, u: Unit)
    requires job.Fits() && w.tx.hadError && w.handle == Usable && w.tx.committed == [] && IsUnit(job, u)
    requires Times(w.tx.open, u) == 0 && u !in w.tx.flagged && !w.fault
    requires 1 <= Rank(w.checkpoint) <= 5 && Rank(w.checkpoint) <= Rank(Section(u))
    requires AllCommit(o) && QuietRange(job, w, o, 1, Generics, w.checkpoint)
    ensures Wrong(job, Again(Commit(w, o, 0)), o, 1, u, false)
  {
    hide PassFrom;
    var s := Again(Commit(w, o, 0));
    CommitTotal(w, o, 0, u);
    PassStops(job, s, o, 1, Generics, u);
    WrongNow(job, s, o, 1, PassFrom(job, s, o, 1, Generics), u, false);
  }

  lemma LostThen(job: Job, w: State, o: Oracle, bad: set<Unit>, u: Unit)
    requires job.Fits() && Fails(o, bad)
    requires w.tx.hadError && w.handle == Usable && w.tx.committed == [] && IsUnit(job, u)
    requires Times(w.tx.open, u) == 0 && w.tx.flagged <= bad && u !in bad && !w.fault
    requires 1 <= Rank(w.checkpoint) <= 5 && Rank(w.checkpoint) <= Rank(Section(u))
    requires forall x :: x in bad ==> x in w.tx.flagged || Rank(w.checkpoint) <= Rank(Section(x))
    ensures Wrong(job, Again(Commit(w, o, 0)), o, 1, u, false)
  {
    SecondPassStops(job, w, o, u);
  }

  /** If a statement of section `first` fails and, in that section or a later one, the last
      statement of section `last` fails, then everything else in between is lost: the second
      pass stops before section `first`. */
  lemma LostBetween(job: Job, s: State, o: Oracle, first: Step, last: Step, u: Unit)
    requires job.Fits() && Fresh(s)
    requires (IsMulticast(first) || first == Writes) && (IsMulticast(last) || last == Writes)
    requires FullVisits(job, first) != [] && FullVisits(job, last) != []
    requires Rank(first) <= Rank(Section(u)) <= Rank(last) && IsUnit(job, u)
    requires u != LastUnit(job, first) && u != LastUnit(job, last)
    requires Fails(o, {LastUnit(job, first), LastUnit(job, last)})
    ensures Wrong(job, s, o, 0, u, false)
  {
    hide Pass, PassFrom, FullVisits;
    var bad := {LastUnit(job, first), LastUnit(job, last)};
    LastVisit(job, first);
    LastVisit(job, last);
    var w := FirstPassLoses(job, s, o, first, last, u, bad);
    LostThen(job, w, o, bad, u);
    WrongLater(job, s, o, 0, w, u, false);
  }

  // ---- a failing generic query ----

  /** v is the first generic query of the job. */
  ghost predicate FirstGeneric(job: Job, v: Unit) {
    && v.Generic? && v.j == 0 && IsUnit(job, v)
    && (forall u :: IsUnit(job, u) && u.Generic? ==> v.i <= u.i)
  }

  lemma {:induction false} EmptyBatches(job: Job, s: State, o: Oracle, p: nat, n: nat)
    requires n <= |job.batches| && s.endpoint != Generics
    requires forall i :: 0 <= i < n ==> job.batches[i].generics == 0
    ensures GenericBatches(job, s, o, p, n) == s
  {
    if n == 0 {
    } else {
      EmptyBatches(job, s, o, p, n - 1);
    }
  }

  lemma {:induction false} GenericVisitsSplit(job: Job, i: nat, lo: nat, hi: nat)
    requires i < |job.batches| && lo < hi
    ensures GenericVisits(job, i, lo, hi) == [GenericVisit(job, i, lo)] + GenericVisits(job, i, lo + 1, hi)
    decreases hi
  {
    if hi <= lo + 1 {
    } else {
      GenericVisitsSplit(job, i, lo, hi - 1);
    }
  }

  /** The state right after the failure of v, with an empty transaction behind it. */
  function Failed(s: State, v: Unit): State
    requires v.Generic?
  {
    s.(tx := Fail(s.tx, v), handle := Usable, ci := v.i + 1, cj := v.j)
  }

  /** In pass p, only v fails. */
  ghost predicate FailsOnly(o: Oracle, p: nat, v: Unit) {
    forall u :: o.ok(p, u) <==> u != v
  }

  /** Only v fails from pass p on, and commits succeed. */
  ghost predicate OnlyFails(o: Oracle, p: nat, v: Unit) {
    (forall q: nat :: p <= q ==> FailsOnly(o, q, v)) && (forall q: nat :: p <= q ==> o.commits(q))
  }

  lemma WalkOne(s: State, o: Oracle, p: nat, v: Visit)
    ensures Walk(s, o, p, [v]) == VisitOne(s, o, p, v)
  {
    assert [v][..0] == [];
  }

  lemma FirstBatchFails(job: Job, s: State, o: Oracle, p: nat, v: Unit)
    requires FirstGeneric(job, v) && s.cj == 0 && v !in s.tx.flagged && !o.ok(p, v)
    ensures var vs := GenericVisits(job, v.i, 0, job.batches[v.i].generics);
      Walk(s, o, p, vs) == Walk(Failed(s, v), o, p, vs)
  {
    hide Walk;
    var f := Failed(s, v);
    var first, rest := GenericVisit(job, v.i, 0), GenericVisits(job, v.i, 1, job.batches[v.i].generics);
    GenericVisitsSplit(job, v.i, 0, job.batches[v.i].generics);
    WalkConcat(s, o, p, [first], rest);
    WalkConcat(f, o, p, [first], rest);
    WalkOne(s, o, p, first);
    WalkOne(f, o, p, first);
  }

  lemma NoneBefore(job: Job, v: Unit)
    requires FirstGeneric(job, v)
    ensures forall i :: 0 <= i < v.i ==> job.batches[i].generics == 0
  {
    forall i | 0 <= i < v.i ensures job.batches[i].generics == 0 {
      assert !IsUnit(job, Generic(i, 0));
    }
  }

  lemma FailureBatch(job: Job, s: State, o: Oracle, p: nat, v: Unit)
    requires FirstGeneric(job, v) && s.endpoint != Generics && s.cj == 0 && v !in s.tx.flagged && !o.ok(p, v)
    ensures GenericBatches(job, s, o, p, v.i + 1) == GenericBatches(job, Failed(s, v), o, p, v.i + 1)
  {
    NoneBefore(job, v);
    EmptyBatches(job, s, o, p, v.i);
    EmptyBatches(job, Failed(s, v), o, p, v.i);
    FirstBatchFails(job, s, o, p, v);
  }

  lemma SameNext(job: Job, a: State, b: State, o: Oracle, p: nat, n: nat)
    requires 0 < n && GenericBatches(job, a, o, p, n - 1) == GenericBatches(job, b, o, p, n - 1)
    ensures GenericBatches(job, a, o, p, n) == GenericBatches(job, b, o, p, n)
  {
  }

  lemma {:induction false} AfterFirstFailure(job: Job, s: State, o: Oracle, p: nat, v: Unit, n: nat)
    requires FirstGeneric(job, v) && v.i < n <= |job.batches|
    requires s.endpoint != Generics && s.cj == 0 && v !in s.tx.flagged && !o.ok(p, v)
    ensures GenericBatches(job, s, o, p, n) == GenericBatches(job, Failed(s, v), o, p, n)
  {
    hide GenericBatches;
    if n == v.i + 1 {
      FailureBatch(job, s, o, p, v);
    } else {
      AfterFirstFailure(job, s, o, p, v, n - 1);
      SameNext(job, s, Failed(s, v), o, p, n);
    }
  }

  lemma FirstFailureSection(job: Job, s: State, o: Oracle, p: nat, v: Unit, u: Unit)
    requires job.Fits() && s.tx.open == [] && s.tx.flagged == {} && s.endpoint == Finish && s.cj == 0
    requires FirstGeneric(job, v) && !o.ok(p, v) && IsUnit(job, u) && u != v
    requires forall x :: IsUnit(job, x) && x.Generic? && x != v ==> o.ok(p, x)
    ensures var w := RunSection(job, s, o, p, Generics);
      && Total(w, u) == Total(s, u) + (if u.Generic? then 1 else 0)
      && Grown(Failed(s, v), w)
  {
    var f := Failed(s, v);
    FullSection(job, s, o, p, Generics);
    FullSection(job, f, o, p, Generics);
    AfterFirstFailure(job, s, o, p, v, |job.batches|);
    QuietSection(job, f, o, p, Generics, u);
  }

  lemma Continue(job: Job, s: State, o: Oracle, p: nat, a: Step)
    requires Rank(a) < 5
    requires RunSection(job, s, o, p, a).tx.hadError || RunSection(job, s, o, p, a).endpoint != Next(a)
    ensures PassFrom(job, s, o, p, a) == PassFrom(job, Enter(job, s, o, p, a), o, p, Next(a))
  {
  }

  /** The pass in which the first generic query fails still commits every other statement, but
      the checkpoint stays where an earlier pass or job left it. */
  lemma FirstFailurePass(job: Job, s: State, o: Oracle, p: nat, v: Unit, u: Unit)
    requires job.Fits() && s.tx.open == [] && s.tx.flagged == {} && s.endpoint == Finish && s.cj == 0
    requires FirstGeneric(job, v) && FailsOnly(o, p, v) && IsUnit(job, u) && u != v
    ensures var w := PassFrom(job, s, o, p, Generics);
      && Total(w, u) == Total(s, u) + 1 && w.tx.hadError && w.tx.flagged == {v} && w.handle == Usable
      && w.checkpoint == s.checkpoint && w.ci == v.i + 1 && w.cj == 0 && w.fault == s.fault
  {
    FirstFailureSection(job, s, o, p, v, u);
    Continue(job, s, o, p, Generics);
    PassEnds(job, Enter(job, s, o, p, Generics), o, p, Logging, u);
    if Rank(Section(u)) == 0 { SameRank(Section(u), Generics); }
  }

  /** The statements that the second pass sends again. */
  predicate Resent(checkpoint: Step, u: Unit) {
    if checkpoint == Generics then !u.Generic?
    else checkpoint == Finish || Rank(Section(u)) < Rank(checkpoint)
  }

  lemma SecondPassResends(job: Job, s: State, o: Oracle, p: nat, v: Unit, u: Unit)
    requires job.Fits() && s.tx.flagged == {v} && !s.tx.hadError && s.cj == 0
    requires FirstGeneric(job, v) && FailsOnly(o, p, v) && IsUnit(job, u) && u != v
    requires s.ei == v.i + 1 && s.ej == 0 && Resent(s.endpoint, u)
    ensures var w := PassFrom(job, s, o, p, Generics);
      && Total(w, u) == Total(s, u) + 1 && !w.tx.hadError && w.tx.flagged == {v} && w.handle == s.handle
      && w.fault == s.fault
  {
    hide PassFrom, RunSection;
    if s.endpoint == Generics {
      NothingResent(job, s, o, p, v.i + 1);
      PassEnds(job, s.(checkpoint := Logging), o, p, Logging, u);
      if Rank(Section(u)) == 0 { SameRank(Section(u), Generics); }
    } else if s.endpoint == Finish {
      PassEnds(job, s, o, p, Generics, u);
    } else {
      PassStops(job, s, o, p, Generics, u);
    }
  }

  /** With an endpoint in the generic section, the start and the end of each batch coincide. */
  lemma NothingResent(job: Job, s: State, o: Oracle, p: nat, n: nat)
    requires job.Fits() && n <= |job.batches| && s.endpoint == Generics && s.ei == n && s.ej <= s.cj && !s.tx.hadError
    ensures PassFrom(job, s, o, p, Generics) == PassFrom(job, s.(checkpoint := Logging), o, p, Logging)
  {
    NoBatches(job, s, o, p, n);
    assert Last(s, Generics, |job.batches|) == n;
    assert RunSection(job, s, o, p, Generics) == s;
    Continue(job, s, o, p, Generics);
  }

  lemma {:induction false} NoBatches(job: Job, s: State, o: Oracle, p: nat, n: nat)
    requires n <= |job.batches| && s.endpoint == Generics && s.ej <= s.cj
    ensures GenericBatches(job, s, o, p, n) == s
  {
    if n == 0 {
    } else {
      NoBatches(job, s, o, p, n - 1);
    }
  }

  /** When the first generic query fails, statements that the first pass has committed are sent
      and committed a second time. */
  lemma CommittedTwice(job: Job, s: State, o: Oracle, p: nat, v: Unit, u: Unit)
    requires job.Fits() && s.tx.open == [] && s.tx.flagged == {} && !s.tx.hadError
    requires s.handle == Usable && s.endpoint == Finish && s.cj == 0 && !s.fault
    requires FirstGeneric(job, v) && OnlyFails(o, p, v) && IsUnit(job, u) && u != v
    requires Resent(s.checkpoint, u)
    ensures Wrong(job, s, o, p, u, true)
  {
    hide Pass, PassFrom;
    FirstFailurePass(job, s, o, p, v, u);
    var w := PassFrom(job, s, o, p, Generics);
    var s1 := Again(Commit(w, o, p));
    CommitTotal(w, o, p, u);
    SecondPassResends(job, s1, o, p + 1, v, u);
    WrongNow(job, s1, o, p + 1, PassFrom(job, s1, o, p + 1, Generics), u, true);
    WrongLater(job, s, o, p, w, u, true);
  }

  // ---- a failing generic query on a checkpoint of an earlier job ----

  lemma GenericAndLast(job: Job, s: State, o: Oracle, g: Unit, last: Step, u: Unit, bad: set<Unit>)
    returns (w: State)
    requires job.Fits() && Fails(o, bad) && Fresh(s) && s.cj == 0 && FirstGeneric(job, g)
    requires (IsMulticast(last) || last == Writes) && FullVisits(job, last) != []
    requires bad == {g, LastUnit(job, last)}
    requires IsUnit(job, u) && u !in bad && !u.Generic? && Rank(Section(u)) <= Rank(last)
    ensures w == PassFrom(job, s, o, 0, Generics)
    ensures Times(w.tx.open, u) == 0 && w.tx.hadError && w.handle == Usable && w.tx.committed == []
    ensures w.tx.flagged == bad && w.checkpoint == s.checkpoint && !w.fault
  {
    hide PassFrom, RunSection, FullVisits;
    LastVisit(job, last);
    FirstFailureSection(job, s, o, 0, g, u);
    Continue(job, s, o, 0, Generics);
    var s1 := Enter(job, s, o, 0, Generics);
    LaterFailure(job, s1, o, 0, Logging, last, bad, u);
    w := PassFrom(job, s, o, 0, Generics);
  }

  /** If the first generic query fails and then the last statement of section `last`, what lies before
      that and after the checkpoint of the earlier job is lost. */
  lemma LostBeforeLast(job: Job, s: State, o: Oracle, g: Unit, last: Step, u: Unit)
    requires job.Fits() && Fails(o, {g, LastUnit(job, last)}) && Fresh(s) && s.cj == 0 && FirstGeneric(job, g)
    requires (IsMulticast(last) || last == Writes) && FullVisits(job, last) != [] && u != LastUnit(job, last)
    requires IsUnit(job, u) && !u.Generic? && Rank(Section(u)) <= Rank(last) && !Resent(s.checkpoint, u)
    ensures Wrong(job, s, o, 0, u, false)
  {
    hide Pass, PassFrom, FullVisits;
    var bad := {g, LastUnit(job, last)};
    var w := GenericAndLast(job, s, o, g, last, u, bad);
    SomeCheckpoint(s.checkpoint, u);
    LostThen(job, w, o, bad, u);
    WrongLater(job, s, o, 0, w, u, false);
  }

  lemma SomeCheckpoint(checkpoint: Step, u: Unit)
    requires !u.Generic? && !Resent(checkpoint, u)
    ensures 1 <= Rank(checkpoint) <= 5 && Rank(checkpoint) <= Rank(Section(u))
  {
    if Rank(checkpoint) == 0 { SameRank(checkpoint, Generics); }
    if Rank(checkpoint) == 6 { SameRank(checkpoint, Finish); }
  }

  // ---- a failing generic query makes the later batches of the same pass skip ----

  /** The state right after the failure of v in its batch. */
  ghost predicate JustFailed(s: State, f: State, v: Unit)
    requires v.Generic?
  {
    && f.cj == v.j && f.endpoint == s.endpoint && f.tx.flagged == s.tx.flagged + {v} && f.handle == Usable
    && f.tx.committed == []
  }

  lemma AfterFailure(job: Job, s: State, o: Oracle, p: nat, v: Unit, u: Unit)
    requires v.Generic? && IsUnit(job, v) && s.cj <= v.j && v !in s.tx.flagged && FailsOnly(o, p, v)
    requires s.handle == Usable && u.Generic? && v.i < u.i && s.tx.committed == []
    ensures var s' := Walk(s, o, p, GenericVisits(job, v.i, s.cj, job.batches[v.i].generics));
      JustFailed(s, s', v) && Total(s', u) == 0
  {
    hide Walk, GenericVisits, GenericVisit, VisitOne;
    var g := job.batches[v.i].generics;
    var before, rest := GenericVisits(job, v.i, s.cj, v.j), GenericVisits(job, v.i, v.j + 1, g);
    GenericVisitsAt(job, v.i, s.cj, v.j, g);
    var f := BeforeFailure(job, s, o, p, v, u);
    WalkConcat(s, o, p, before + [GenericVisit(job, v.i, v.j)], rest);
    WalkConcat(s, o, p, before, [GenericVisit(job, v.i, v.j)]);
    WalkOne(Walk(s, o, p, before), o, p, GenericVisit(job, v.i, v.j));
    RestAfterFailure(job, f, o, p, v, u);
  }

  lemma RestAfterFailure(job: Job, f: State, o: Oracle, p: nat, v: Unit, u: Unit)
    requires v.Generic? && IsUnit(job, v) && v in f.tx.flagged && FailsOnly(o, p, v) && u.Generic? && v.i < u.i
    ensures var s' := Walk(f, o, p, GenericVisits(job, v.i, v.j + 1, job.batches[v.i].generics));
      Grown(f, s') && Total(s', u) == Total(f, u)
  {
    hide Walk;
    var g := job.batches[v.i].generics;
    GenericVisitsIn(job, v.i, v.j + 1, g);
    GenericVisitsInBounds(job, v.i, v.j + 1, g);
    GenericOccurs(job, v.i, v.j + 1, g, u);
    QuietWalk(f, o, p, GenericVisits(job, v.i, v.j + 1, g), u);
  }

  lemma BeforeFailure(job: Job, s: State, o: Oracle, p: nat, v: Unit, u: Unit) returns (f: State)
    requires v.Generic? && IsUnit(job, v) && s.cj <= v.j && v !in s.tx.flagged && FailsOnly(o, p, v)
    requires s.handle == Usable && u.Generic? && v.i < u.i && s.tx.committed == []
    ensures f == VisitOne(Walk(s, o, p, GenericVisits(job, v.i, s.cj, v.j)), o, p, GenericVisit(job, v.i, v.j))
    ensures JustFailed(s, f, v) && Total(f, u) == 0
  {
    hide Walk;
    GenericVisitsIn(job, v.i, s.cj, v.j);
    GenericVisitsInBounds(job, v.i, s.cj, v.j);
    QuietWalk(s, o, p, GenericVisits(job, v.i, s.cj, v.j), u);
    f := VisitOne(Walk(s, o, p, GenericVisits(job, v.i, s.cj, v.j)), o, p, GenericVisit(job, v.i, v.j));
  }

  lemma {:induction false} GenericVisitsAt(job: Job, i: nat, lo: nat, j: nat, hi: nat)
    requires i < |job.batches| && lo <= j < hi
    ensures GenericVisits(job, i, lo, hi) ==
            GenericVisits(job, i, lo, j) + [GenericVisit(job, i, j)] + GenericVisits(job, i, j + 1, hi)
    decreases hi
  {
    if hi == j + 1 {
      assert GenericVisits(job, i, j + 1, hi) == [];
    } else {
      GenericVisitsAt(job, i, lo, j, hi - 1);
    }
  }

  /** If only the generic query (i, j) fails in the first pass, the batches after i begin with their j-th
      query: what stands before it is not sent in this pass. */
  lemma {:induction false} LaterBatchesSkip(job: Job, s: State, o: Oracle, v: Unit, u: Unit, n: nat)
    requires Fresh(s) && s.cj == 0 && v.Generic? && IsUnit(job, v) && FailsOnly(o, 0, v)
    requires u.Generic? && IsUnit(job, u) && v.i < u.i && v.i < n <= |job.batches|
    ensures var s' := GenericBatches(job, s, o, 0, n);
      && s'.cj == v.j && s'.endpoint == Finish && s'.tx.flagged == {v} && s'.handle == Usable && s'.tx.committed == []
      && Total(s', u) == if v.j <= u.j && u.i < n then 1 else 0
  {
    hide Walk, GenericVisits, Total;
    if n == v.i + 1 {
      QuietBefore(job, s, o, 0, v, v.i);
      NothingSentYet(job, s, o, v, u, v.i);
      AfterFailure(job, GenericBatches(job, s, o, 0, v.i), o, 0, v, u);
    } else {
      LaterBatchesSkip(job, s, o, v, u, n - 1);
      var s1 := GenericBatches(job, s, o, 0, n - 1);
      var s' := QuietBatch(job, s1, o, 0, n - 1, u);
    }
  }

  lemma {:induction false} NothingSentYet(job: Job, s: State, o: Oracle, v: Unit, u: Unit, n: nat)
    requires Fresh(s) && v.Generic? && n <= v.i < |job.batches| && FailsOnly(o, 0, v) && u.Generic? && v.i < u.i
    ensures Total(GenericBatches(job, s, o, 0, n), u) == 0 && Grown(s, GenericBatches(job, s, o, 0, n))
  {
    hide Walk, GenericVisits;
    if n == 0 {
    } else {
      NothingSentYet(job, s, o, v, u, n - 1);
      var s1, g := GenericBatches(job, s, o, 0, n - 1), job.batches[n - 1].generics;
      GenericVisitsIn(job, n - 1, s1.cj, g);
      GenericVisitsInBounds(job, n - 1, s1.cj, g);
      GenericOccurs(job, n - 1, s1.cj, g, u);
      QuietWalk(s1, o, 0, GenericVisits(job, n - 1, s1.cj, g), u);
    }
  }

  // ---- the last generic query fails while the checkpoint names the generic section ----

  ghost predicate LastGeneric(job: Job, v: Unit) {
    && v.Generic? && IsUnit(job, v) && v.j + 1 == job.batches[v.i].generics
    && (forall i :: v.i < i < |job.batches| ==> job.batches[i].generics == 0)
  }

  lemma {:induction false} QuietBefore(job: Job, s: State, o: Oracle, p: nat, v: Unit, n: nat)
    requires v.Generic? && n <= v.i && n <= |job.batches| && s.endpoint != Generics && FailsOnly(o, p, v)
    ensures Grown(s, GenericBatches(job, s, o, p, n))
  {
    hide Walk, GenericVisits;
    if n == 0 {
    } else {
      QuietBefore(job, s, o, p, v, n - 1);
      var s1, g := GenericBatches(job, s, o, p, n - 1), job.batches[n - 1].generics;
      GenericVisitsIn(job, n - 1, s.cj, g);
      GenericVisitsInBounds(job, n - 1, s.cj, g);
      QuietWalk(s1, o, p, GenericVisits(job, n - 1, s.cj, g), v);
    }
  }

  /** s', after s, is an empty transaction right after the failure of v. */
  predicate AbortedAt(s: State, s': State, v: Unit)
    requires v.Generic?
  {
    s'.tx.open == [] && s' == Failed(s, v).(tx := Fail(s.tx, v).(nums := s'.tx.nums, ran := s'.tx.ran))
  }

  lemma LastBatchFails(job: Job, s: State, o: Oracle, p: nat, v: Unit)
    requires LastGeneric(job, v) && s.cj == 0 && v !in s.tx.flagged && FailsOnly(o, p, v) && s.handle == Usable
    ensures AbortedAt(s, Walk(s, o, p, GenericVisits(job, v.i, 0, v.j + 1)), v)
  {
    var init := GenericVisits(job, v.i, 0, v.j);
    GenericVisitsIn(job, v.i, 0, v.j);
    GenericVisitsInBounds(job, v.i, 0, v.j);
    QuietWalk(s, o, p, init, v);
    var vs := GenericVisits(job, v.i, 0, v.j + 1);
    assert vs[..|vs| - 1] == init;
  }

  lemma {:induction false} LastFailureBatches(job: Job, s: State, o: Oracle, p: nat, v: Unit, n: nat)
    requires LastGeneric(job, v) && v.i < n <= |job.batches|
    requires s.endpoint != Generics && s.cj == 0 && s.tx.flagged == {} && FailsOnly(o, p, v) && s.handle == Usable
    ensures AbortedAt(s, GenericBatches(job, s, o, p, n), v)
  {
    if n == v.i + 1 {
      QuietBefore(job, s, o, p, v, v.i);
      LastBatchFails(job, GenericBatches(job, s, o, p, v.i), o, p, v);
    } else {
      LastFailureBatches(job, s, o, p, v, n - 1);
    }
  }

  lemma LastFailurePass(job: Job, s: State, o: Oracle, v: Unit, u: Unit)
    requires job.Fits() && Fresh(s) && s.cj == 0 && FailsOnly(o, 0, v)
    requires LastGeneric(job, v) && u.Generic?
    ensures var w := PassFrom(job, s, o, 0, Generics);
      && Total(w, u) == 0 && w.tx.hadError && w.tx.flagged == {v} && w.handle == Usable
      && w.checkpoint == s.checkpoint && w.ci == v.i + 1 && w.cj == v.j && !w.fault
  {
    hide PassFrom, RunSection;
    LastFailureBatches(job, s, o, 0, v, |job.batches|);
    FullSection(job, s, o, 0, Generics);
    Continue(job, s, o, 0, Generics);
    PassEnds(job, Enter(job, s, o, 0, Generics), o, 0, Logging, u);
  }

  lemma SecondPassSkipsGenerics(job: Job, s: State, o: Oracle, v: Unit, u: Unit)
    requires job.Fits() && s.endpoint == Generics && s.ei == v.i + 1 && s.ej == s.cj && !s.tx.hadError
    requires LastGeneric(job, v) && u.Generic? && s.tx.flagged == {v} && FailsOnly(o, 1, v)
    ensures var w := PassFrom(job, s, o, 1, Generics);
      && Total(w, u) == Total(s, u) && !w.tx.hadError && w.tx.flagged == {v} && w.handle == s.handle
      && w.fault == s.fault
  {
    hide PassFrom, RunSection;
    NothingResent(job, s, o, 1, v.i + 1);
    PassEnds(job, s.(checkpoint := Logging), o, 1, Logging, u);
  }

  lemma SkippedThen(job: Job, w: State, o: Oracle, v: Unit, u: Unit)
    requires job.Fits() && LastGeneric(job, v) && u.Generic? && IsUnit(job, u) && u != v && FailsOnly(o, 1, v)
    requires Total(w, u) == 0 && w.tx.flagged == {v} && w.handle == Usable && !w.fault && o.commits(0)
    requires w.checkpoint == Generics && w.ci == v.i + 1 && w.cj == v.j && o.commits(1)
    ensures Wrong(job, Again(Commit(w, o, 0)), o, 1, u, false)
  {
    hide Pass, PassFrom;
    var s := Again(Commit(w, o, 0));
    CommitTotal(w, o, 0, u);
    SecondPassSkipsGenerics(job, s, o, v, u);
    WrongNow(job, s, o, 1, PassFrom(job, s, o, 1, Generics), u, false);
  }

  /** With a checkpoint that names the generic section, the second pass starts and ends each
      batch at the same index: it re-sends no generic query at all. */
  lemma GenericsLost(job: Job, s: State, o: Oracle, v: Unit, u: Unit)
    requires job.Fits() && Fresh(s) && s.cj == 0 && s.checkpoint == Generics
    requires LastGeneric(job, v) && u.Generic? && IsUnit(job, u) && u != v && OnlyFails(o, 0, v)
    ensures Wrong(job, s, o, 0, u, false)
  {
    hide Pass, PassFrom;
    LastFailurePass(job, s, o, v, u);
    var w := PassFrom(job, s, o, 0, Generics);
    SkippedThen(job, w, o, v, u);
    WrongLater(job, s, o, 0, w, u, false);
  }
}
