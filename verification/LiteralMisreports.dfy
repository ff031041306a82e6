/** Runs on which the batches say something untrue after the literal loop, and exactly which jobs have
    none. */
module LiteralMisreports {
  import opened Workload
  import opened Database
  import opened LiteralLoop
  import opened LiteralFrames
  import opened LiteralFails
  import opened LiteralExact
  import opened LiteralNumbers
  import opened LiteralReports

  // ---- a later failure makes the loop send again what is committed ----

  /** In the first pass only y fails, from the second one on x as well. */
  ghost predicate FailsThen(o: Oracle, y: Unit, x: Unit) {
    && AllCommit(o)
    && (forall u :: o.ok(0, u) <==> u != y)
    && (forall p: nat, u :: p > 0 ==> (o.ok(p, u) <==> u != y && u != x))
  }

  function FailingThen(y: Unit, x: Unit, numbers: (nat, Unit) -> seq<nat>): (o: Oracle)
    ensures FailsThen(o, y, x) && o.numbers == numbers
  {
    Oracle((p, u) => u != y && (p > 0 ==> u != x), numbers, p => true, 0)
  }

  /** y is the last statement of the multicast section b. */
  ghost predicate EndOf(job: Job, b: Step, y: Unit) {
    IsMulticast(b) && FullVisits(job, b) != [] && y == LastUnit(job, b)
  }

  /** A statement with clients that no index left over from an earlier job skips. */
  predicate Regular(job: Job, cj: nat, u: Unit) {
    HasClients(job, u) && (u.Generic? ==> cj == 0)
  }

  lemma LastSectionFails(job: Job, s: State, o: Oracle, p: nat, b: Step, y: Unit, bad: set<Unit>, u: Unit)
    returns (s': State)
    requires job.Fits() && EndOf(job, b, y) && s.endpoint != b && y in bad && y !in s.tx.flagged && !u.Multicast?
    requires (forall v :: o.ok(p, v) <==> v !in bad) && s.tx.flagged <= bad
    ensures s' == RunSection(job, s, o, p, b)
    ensures s'.tx.open == [] && s'.tx.hadError && s'.handle == Usable && s'.ci < job.QueueSize(b)
    ensures s.tx.flagged + {y} <= s'.tx.flagged <= bad && Times(s'.tx.committed, u) == Times(s.tx.committed, u)
    ensures s' == s.(tx := s'.tx, handle := Usable, ci := s'.ci)
    ensures s.handle == Usable ==> s'.tx.committed == s.tx.committed
  {
    hide RunSection;
    var vs := FullVisits(job, b);
    LastVisit(job, b);
    FullVisitsExact(job, b, y);
    FullSectionVisits(job, s, o, p, b);
    WalkLastFails(s, o, p, vs, bad);
    WalkKeeps(s, o, p, vs);
    s' := AsideSection(job, s, o, p, b, u);
  }

  /** What the failure of y, at the end of section b, leaves of a pass. */
  ghost predicate CutOff(job: Job, s: State, s': State, b: Step, y: Unit, bad: set<Unit>) {
    && s' == s.(tx := s'.tx, handle := Usable, ci := s'.ci, checkpoint := b) && s'.ci < job.QueueSize(b)
    && s'.tx.open == [] && s'.tx.hadError && s.tx.flagged + {y} <= s'.tx.flagged <= bad
  }

  /** A pass up to there: what was sent before is durable only if the transaction was closed already. */
  lemma ToEndOf(job: Job, s: State, o: Oracle, p: nat, b: Step, y: Unit, bad: set<Unit>, u: Unit) returns (s': State)
    requires job.Fits() && EndOf(job, b, y) && Clear(s, Generics, b) && QuietRange(job, s, o, p, Generics, b)
    requires s.endpoint != b && !s.tx.hadError && s.tx.open == [] && y in bad && y !in s.tx.flagged
    requires (forall v :: o.ok(p, v) <==> v !in bad) && s.tx.flagged <= bad
    requires Regular(job, s.cj, u) && u !in s.tx.flagged
    ensures PassFrom(job, s, o, p, Generics) == PassFrom(job, s', o, p, Next(b)) && CutOff(job, s, s', b, y, bad)
    ensures if s.handle == Usable then s'.tx.committed == s.tx.committed
            else Times(s'.tx.committed, u) == Times(s.tx.committed, u) + if u.Generic? then 1 else 0
  {
    hide PassFrom, RunSection, FullVisits, QuietRange;
    PassTo(job, s, o, p, Generics, b, u);
    var s1 := Reach(job, s, o, p, Generics, b);
    s' := LastSectionFails(job, s1, o, p, b, y, bad, u);
    GoesOn(job, s1, o, p, b, s');
  }

  /** The first pass drops what precedes y and commits the rest. */
  lemma FirstPassAt(job: Job, s: State, o: Oracle, b: Step, y: Unit, x: Unit, u: Unit) returns (w: State)
    requires job.Fits() && Fresh(s) && EndOf(job, b, y) && FailsThen(o, y, x) && Regular(job, s.cj, u)
    ensures w == PassFrom(job, s, o, 0, Generics)
    ensures w == s.(tx := w.tx, ci := w.ci, checkpoint := b) && w.ci < job.QueueSize(b)
    ensures w.tx.flagged == {y} && w.tx.hadError && w.tx.committed == [] && Total(w, u) == if u.Insert? then 1 else 0
  {
    hide PassFrom, RunSection, FullVisits;
    LastVisit(job, b);
    w := PassFrom(job, s, o, 0, Generics);
    var s2 := ToEndOf(job, s, o, 0, b, y, {y}, u);
    PassEnds(job, s2, o, 0, Next(b), u);
  }

  /** The state between the first and the second pass. */
  ghost predicate AfterFirst(job: Job, s: State, b: Step, y: Unit, u: Unit) {
    && s.handle == Finished && s.endpoint == b && s.checkpoint == b && s.ei < job.QueueSize(b)
    && s.tx.flagged == {y} && s.tx.open == [] && !s.tx.hadError && !s.fault
    && Times(s.tx.committed, u) == if u.Insert? then 1 else 0
  }

  /** The state in the second pass right after the failure of x in section a. */
  ghost predicate Interrupted(job: Job, s: State, a: Step, b: Step, y: Unit, x: Unit, u: Unit) {
    && s.handle == Usable && s.endpoint == b && s.ei < job.QueueSize(b) && !s.fault
    && s.tx.flagged == {x, y} && s.tx.open == [] && s.tx.hadError && Times(s.tx.committed, u) == 1
    && s.checkpoint == if a == Generics then b else a
  }

  /** The second pass up to a failure in an earlier multicast section. */
  lemma ToMulticast(job: Job, s: State, o: Oracle, a: Step, b: Step, y: Unit, x: Unit, u: Unit) returns (s2: State)
    requires job.Fits() && EndOf(job, b, y) && EndOf(job, a, x) && Rank(a) < Rank(b)
    requires FailsThen(o, y, x) && AfterFirst(job, s, b, y, u) && Regular(job, s.cj, u)
    ensures PassFrom(job, s, o, 1, Generics) == PassFrom(job, s2, o, 1, Next(a))
    ensures Interrupted(job, s2, a, b, y, x, u) && s2.cj == s.cj
  {
    hide PassFrom, RunSection;
    LastVisit(job, a);
    LastVisit(job, b);
    s2 := ToEndOf(job, s, o, 1, a, x, {x, y}, u);
  }

  /** The second pass up to the failure of the only generic query. */
  lemma ToGeneric(job: Job, s: State, o: Oracle, b: Step, y: Unit, x: Unit, u: Unit) returns (s2: State)
    requires job.Fits() && EndOf(job, b, y) && Alone(job, x) && x.Generic? && s.cj == 0 && u.Insert?
    requires FailsThen(o, y, x) && AfterFirst(job, s, b, y, u)
    ensures PassFrom(job, s, o, 1, Generics) == PassFrom(job, s2, o, 1, Logging)
    ensures Interrupted(job, s2, Generics, b, y, x, u) && s2.cj == s.cj
  {
    hide PassFrom, RunSection;
    LastVisit(job, b);
    var ci := SectionOne(job, s, o, 1, x);
    s2 := AfterOne(s, o, 1, x, ci);
    GoesOn(job, s, o, 1, Generics, s2);
  }

  /** The section of the endpoint, up to the index of the failure. */
  lemma UpToIndex(job: Job, s: State, o: Oracle, p: nat, b: Step, u: Unit)
    requires job.Fits() && IsMulticast(b) && s.endpoint == b && s.ei <= job.QueueSize(b) && QuietStep(job, s, o, p, b)
    requires !u.Multicast?
    ensures var s' := RunSection(job, s, o, p, b); Grown(s, s') && Total(s', u) == Total(s, u)
  {
    hide Total, Walk, Occurs;
    MulticastOccurs(job, b, s.ei, u);
    QuietWalk(s, o, p, MulticastVisits(job, b, s.ei), u);
  }

  /** The second pass from the failure of x to the end of section b. */
  lemma PastIndex(job: Job, s: State, o: Oracle, a: Step, b: Step, y: Unit, x: Unit, u: Unit) returns (s2: State)
    requires job.Fits() && IsMulticast(b) && Rank(a) < Rank(b) && FailsThen(o, y, x)
    requires HasClients(job, u) && Interrupted(job, s, a, b, y, x, u)
    ensures PassFrom(job, s, o, 1, Next(a)) == PassFrom(job, s2, o, 1, Next(b))
    ensures Grown(s, s2) && Total(s2, u) == Total(s, u)
  {
    hide PassFrom, RunSection;
    PassTo(job, s, o, 1, Next(a), b, u);
    var s1 := Reach(job, s, o, 1, Next(a), b);
    UpToIndex(job, s1, o, 1, b, u);
    s2 := RunSection(job, s1, o, 1, b);
    GoesOn(job, s1, o, 1, b, s2);
  }

  /** The rest of the second pass sends the insert again. */
  lemma RestAgain(job: Job, s: State, o: Oracle, a: Step, b: Step, y: Unit, x: Unit, u: Unit) returns (w: State)
    requires job.Fits() && IsMulticast(b) && Rank(a) < Rank(b) && FailsThen(o, y, x)
    requires HasClients(job, u) && u != x && u != y && Interrupted(job, s, a, b, y, x, u)
    ensures w == PassFrom(job, s, o, 1, Next(a))
    ensures w == s.(tx := w.tx) && w.tx.flagged == s.tx.flagged && w.tx.hadError
    ensures w.tx.committed == s.tx.committed && Total(w, u) == if u.Insert? then 2 else 1
  {
    hide PassFrom, RunSection;
    w := PassFrom(job, s, o, 1, Next(a));
    var s2 := PastIndex(job, s, o, a, b, y, x, u);
    PassEnds(job, s2, o, 1, Next(b), u);
  }

  /** The third pass sends a generic query again, and stops. */
  lemma ThirdPass(job: Job, w: State, o: Oracle, y: Unit, x: Unit, u: Unit)
    requires job.Fits() && FailsThen(o, y, x) && w.handle == Usable && w.tx.hadError && !w.fault
    requires w.tx.flagged == {x, y} && 1 <= Rank(w.checkpoint) < 5
    requires Regular(job, w.cj, u) && u != x && u != y && Total(w, u) == if u.Insert? then 2 else 1
    ensures Wrong(job, Again(Commit(w, o, 1)), o, 2, u, true)
  {
    hide PassFrom;
    var s := Again(Commit(w, o, 1));
    CommitTotal(w, o, 1, u);
    PassStops(job, s, o, 2, Generics, u);
    WrongNow(job, s, o, 2, PassFrom(job, s, o, 2, Generics), u, true);
  }

  lemma AgainFromSecond(job: Job, s: State, o: Oracle, a: Step, b: Step, y: Unit, x: Unit, u: Unit)
    requires job.Fits() && EndOf(job, b, y) && Rank(a) < Rank(b) && FailsThen(o, y, x)
    requires AfterFirst(job, s, b, y, u) && Regular(job, s.cj, u) && u != x && u != y
    requires if a == Generics then Alone(job, x) && x.Generic? && s.cj == 0 && u.Insert? else EndOf(job, a, x)
    ensures Wrong(job, s, o, 1, u, true)
  {
    hide PassFrom, RunSection, Pass;
    var s2: State;
    if a == Generics { s2 := ToGeneric(job, s, o, b, y, x, u); } else { s2 := ToMulticast(job, s, o, a, b, y, x, u); }
    var w := RestAgain(job, s2, o, a, b, y, x, u);
    ThirdPass(job, w, o, y, x, u);
    WrongLater(job, s, o, 1, w, u, true);
  }

  /** If first the last statement of a multicast section fails and then a statement of an earlier section,
      what is committed is sent again: nothing stops the second pass before its end. */
  lemma CommittedAgain(job: Job, s: State, o: Oracle, a: Step, b: Step, y: Unit, x: Unit, u: Unit)
    requires job.Fits() && Fresh(s) && EndOf(job, b, y) && Rank(a) < Rank(b) && FailsThen(o, y, x)
    requires Regular(job, s.cj, u) && u != x
    requires if a == Generics then Alone(job, x) && x.Generic? && s.cj == 0 && u.Insert? else EndOf(job, a, x)
    ensures Wrong(job, s, o, 0, u, true)
  {
    hide PassFrom, Pass;
    LastVisit(job, b);
    var w := FirstPassAt(job, s, o, b, y, x, u);
    CommitTotal(w, o, 0, u);
    AgainFromSecond(job, Again(Commit(w, o, 0)), o, a, b, y, x, u);
    WrongLater(job, s, o, 0, w, u, true);
  }

  // ---- who is told something untrue ----

  /** As far as the loop does not read past a queue, its reports are true in the end. */
  ghost predicate AlwaysHonest(job: Job, s: State, o: Oracle) {
    forall n: nat, u :: Ends(job, s, o, 0, n) && !After(job, s, o, 0, n).fault && HasClients(job, u) ==>
      Honest(After(job, s, o, 0, n).tx, o, u)
  }

  /** Without a read past a queue the loop ends after n passes, and the clients of u are told that it
      succeeded, although it is lost or committed more than once. */
  ghost predicate MisleadsBy(job: Job, s: State, o: Oracle, n: nat, u: Unit) {
    && Ends(job, s, o, 0, n) && HasClients(job, u)
    && var t := After(job, s, o, 0, n); !t.fault && Told(t.tx, u) && Times(t.tx.committed, u) != 1
  }

  ghost predicate Misleads(job: Job, s: State, o: Oracle) {
    exists n, u :: MisleadsBy(job, s, o, n, u)
  }

  /** Numbers are never dropped. */
  lemma NumbersLast(job: Job, s: State, o: Oracle, p: nat, n: nat, u: Unit)
    ensures Get(s.tx.nums, u) <= Get(After(job, s, o, p, n).tx.nums, u)
  {
    hide After, Times;
    var nums := Get(s.tx.nums, u);
    RunSteady(job, s, o, p, n, (tx: Tx) => nums <= Get(tx.nums, u));
  }

  /** An insert that the first pass sends without a failure has numbers ever after. */
  lemma SentThenTold(job: Job, s: State, o: Oracle, n: nat, u: Unit)
    requires job.Fits() && Fresh(s) && Numbering(job, o.numbers) && IsUnit(job, u) && u.Insert? && u.table != Alarm
    requires o.ok(0, u) && Ends(job, s, o, 0, n)
    ensures Told(After(job, s, o, 0, n).tx, u)
  {
    hide Pass, PassFrom;
    SentPass(job, s, o, 0, Generics, u);
    PassCommits(job, s, o, 0, PassFrom(job, s, o, 0, Generics));
    var s' := Pass(job, s, o, 0);
    Turn(job, s, o, 0, n, s');
    if s'.tx.hadError { NumbersLast(job, Again(s'), o, 1, n - 1, u); }
  }

  /** The clients of a statement that is lost or committed twice are misled. */
  lemma Misled(job: Job, s: State, o: Oracle, u: Unit, twice: bool)
    requires job.Fits() && Fresh(s) && Numbering(job, o.numbers) && HasClients(job, u)
    requires Wrong(job, s, o, 0, u, twice) && (u.Insert? ==> o.ok(0, u))
    ensures Misleads(job, s, o)
  {
    var n: nat :| Ends(job, s, o, 0, n) && Miscounted(After(job, s, o, 0, n), u, twice);
    if u.Insert? && u.table != Alarm { SentThenTold(job, s, o, n, u); }
    assert MisleadsBy(job, s, o, n, u);
  }

  // ---- every other job has such a run ----

  /** Two statements with clients in one section. */
  lemma TwoWithClients(job: Job, s: State, u: Unit, v: Unit, numbers: (nat, Unit) -> seq<nat>) returns (o: Oracle)
    requires job.Fits() && Fresh(s) && Numbering(job, numbers)
    requires Regular(job, s.cj, u) && HasClients(job, v) && Section(u) == Section(v) && u != v
    ensures AllCommit(o) && o.numbers == numbers && Misleads(job, s, o)
  {
    var x, twice;
    if u.Generic? {
      o, x, twice := TwoGenerics(job, s, u, v, numbers);
    } else {
      o, x := TwoInSection(job, s, u, v, numbers);
      twice := false;
    }
    Misled(job, s, o, x, twice);
  }

  lemma EndOfSection(job: Job, m: Unit) returns (y: Unit)
    requires Silent(job, m)
    ensures EndOf(job, m.step, y) && Silent(job, y)
  {
    LastUnitIn(job, m.step, m);
    y := LastUnit(job, m.step);
  }

  /** A generic query, an insert, and something in a multicast section. */
  lemma PairAndBuffer(job: Job, s: State, g: Unit, u: Unit, m: Unit, numbers: (nat, Unit) -> seq<nat>)
    returns (o: Oracle)
    requires job.Fits() && Fresh(s) && s.cj == 0 && Numbering(job, numbers)
    requires Alone(job, g) && g.Generic? && IsUnit(job, u) && u.Insert? && Silent(job, m)
    ensures AllCommit(o) && o.numbers == numbers && Misleads(job, s, o)
  {
    var y := EndOfSection(job, m);
    o := FailingThen(y, g, numbers);
    CommittedAgain(job, s, o, Generics, m.step, y, g, u);
    Misled(job, s, o, u, true);
  }

  /** A statement with clients, and something in two multicast sections. */
  lemma TwoBuffers(job: Job, s: State, u: Unit, m: Unit, n: Unit, numbers: (nat, Unit) -> seq<nat>)
    returns (o: Oracle)
    requires job.Fits() && Fresh(s) && Numbering(job, numbers) && Regular(job, s.cj, u)
    requires Silent(job, m) && Silent(job, n) && Rank(m.step) < Rank(n.step)
    ensures AllCommit(o) && o.numbers == numbers && Misleads(job, s, o)
  {
    var x := EndOfSection(job, m);
    var y := EndOfSection(job, n);
    o := FailingThen(y, x, numbers);
    CommittedAgain(job, s, o, m.step, n.step, y, x, u);
    Misled(job, s, o, u, true);
  }

  /** A generic query with an index left over from an earlier job. */
  lemma StaleIndex(job: Job, s: State, g: Unit, numbers: (nat, Unit) -> seq<nat>) returns (o: Oracle)
    requires job.Fits() && Fresh(s) && s.cj > 0 && Numbering(job, numbers) && IsUnit(job, g) && g.Generic?
    ensures AllCommit(o) && o.numbers == numbers && Misleads(job, s, o)
  {
    o := Failing({}, numbers);
    StaleIndexSkips(job, s, o, g.i);
    Misled(job, s, o, Generic(g.i, 0), false);
  }

  /** A generic query and an insert, and what makes one of them be sent twice. */
  lemma Pair(job: Job, s: State, g: Unit, u: Unit, numbers: (nat, Unit) -> seq<nat>) returns (o: Oracle)
    requires job.Fits() && Fresh(s) && s.cj == 0 && Numbering(job, numbers)
    requires Alone(job, g) && g.Generic? && IsUnit(job, u) && u.Insert?
    requires Resent(s.checkpoint, u) || exists m :: Silent(job, m)
    ensures AllCommit(o) && o.numbers == numbers && Misleads(job, s, o)
  {
    hide Misleads, Numbering;
    if Resent(s.checkpoint, u) {
      o := GenericAndOther(job, s, g, u, numbers);
      Misled(job, s, o, u, true);
    } else {
      var m :| Silent(job, m);
      o := PairAndBuffer(job, s, g, u, m, numbers);
    }
  }

  lemma InOrder(job: Job, m: Unit, n: Unit) returns (a: Unit, b: Unit)
    requires Silent(job, m) && Silent(job, n) && m.step != n.step
    ensures Silent(job, a) && Silent(job, b) && Rank(a.step) < Rank(b.step)
  {
    if Rank(m.step) == Rank(n.step) { SameRank(m.step, n.step); }
    a, b := if Rank(m.step) < Rank(n.step) then m else n, if Rank(m.step) < Rank(n.step) then n else m;
  }

  lemma Untrustworthy(job: Job, s: State, numbers: (nat, Unit) -> seq<nat>) returns (o: Oracle)
    requires job.Fits() && Fresh(s) && Numbering(job, numbers) && !Trusty(job, s.checkpoint, s.cj)
    ensures AllCommit(o) && o.numbers == numbers && Misleads(job, s, o)
  {
    hide Misleads, Numbering, Resent;
    if g :| IsUnit(job, g) && g.Generic? && s.cj != 0 {
      o := StaleIndex(job, s, g, numbers);
    } else if u, v :| HasClients(job, u) && HasClients(job, v) && Section(u) == Section(v) && u != v {
      o := TwoWithClients(job, s, u, v, numbers);
    } else if u, m, n :| HasClients(job, u) && Silent(job, m) && Silent(job, n) && m.step != n.step {
      var a, b := InOrder(job, m, n);
      o := TwoBuffers(job, s, u, a, b, numbers);
    } else {
      var g, u :| IsUnit(job, g) && g.Generic? && IsUnit(job, u) && u.Insert? &&
        (Resent(s.checkpoint, u) || exists m :: Silent(job, m));
      assert HasClients(job, g) && HasClients(job, u);
      o := Pair(job, s, g, u, numbers);
    }
  }

  /** As long as commits succeed: whatever statements fail, the reports that the literal loop leaves are
      true in the end, if and only if the job is trusty. Every other job has a pattern of failures after
      which the clients of a statement are told that it succeeded, although it is lost or committed
      twice. */
  lemma HonestIff(job: Job, numbers: (nat, Unit) -> seq<nat>, checkpoint: Step, ci: nat, cj: nat, ei: nat, ej: nat)
    requires job.Fits() && Numbering(job, numbers)
    ensures Trusty(job, checkpoint, cj) <==>
      forall o: Oracle :: AllCommit(o) && o.numbers == numbers ==>
        AlwaysHonest(job, Start(checkpoint, ci, cj, ei, ej), o)
  {
    var s := Start(checkpoint, ci, cj, ei, ej);
    if Trusty(job, checkpoint, cj) {
      forall o: Oracle, n: nat, u | AllCommit(o) && o.numbers == numbers && Ends(job, s, o, 0, n) && HasClients(job, u)
        ensures Honest(After(job, s, o, 0, n).tx, o, u)
      {
        TrustySettled(job, s, o, n, u);
        SettledHonest(job, After(job, s, o, 0, n).tx, o, u);
      }
    } else {
      var o := Untrustworthy(job, s, numbers);
      var n, u :| MisleadsBy(job, s, o, n, u);
      assert !Honest(After(job, s, o, 0, n).tx, o, u);
    }
  }
}
