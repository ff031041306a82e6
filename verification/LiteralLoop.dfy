/** The transactional retry loop as it is written, bookkeeping and all.

    A pass stops early only at the tests that stand before a section; the checkpoint is moved
    only while a pass has seen no error, while the indices follow the last error; neither
    checkpoint nor indices are reset between jobs; collected numbers are never dropped; and
    nothing but a failing statement opens a new transaction, so that a pass may go on with one
    that has been committed, or whose commit has failed. */
module LiteralLoop {
  import opened Options
  import opened Workload
  import opened Database

  /** One turn of an inner loop: a statement, with the checkpoint indices that its failure
      records, or a read past the end of a queue, which C++ leaves undefined. */
  datatype Visit = Statement(u: Unit, ci: nat, cj: Option<nat>) | OutOfBounds

  /** The transaction in hand: usable, committed, or one whose commit has failed. */
  datatype Handle = Usable | Finished | Broken

  datatype State = State(tx: Tx, handle: Handle, fault: bool,
                         checkpoint: Step, ci: nat, cj: nat,
                         endpoint: Step, ei: nat, ej: nat)

  /** A job starts with a new transaction, with the flags and the endpoint reset and with whatever
      checkpoint the recycled job structure still holds. */
  function Start(checkpoint: Step, ci: nat, cj: nat, ei: nat, ej: nat): State {
    State(EMPTY, Usable, false, checkpoint, ci, cj, Finish, ei, ej)
  }

  /** Loop bounds go through a 16-bit variable. */
  function Last(s: State, step: Step, size: nat): nat {
    (if s.endpoint == step then s.ei else size) % 0x1_0000
  }

  function LastJ(s: State, size: nat): nat {
    if s.endpoint == Generics then s.ej else size
  }

  /** A statement that succeeds outside any transaction takes effect at once. */
  function Outside(tx: Tx, o: Oracle, p: nat, u: Unit): Tx {
    Succeed(tx, o, p, u).(committed := tx.committed + [Entry(u, p)], open := tx.open)
  }

  /** A statement that succeeds. Whether one that is sent on a closed transaction fails or is
      executed outside it is up to the adversary. */
  function Sent(s: State, o: Oracle, p: nat, u: Unit): State {
    s.(tx := if s.handle == Usable then Succeed(s.tx, o, p, u) else Outside(s.tx, o, p, u))
  }

  function VisitOne(s: State, o: Oracle, p: nat, v: Visit): State {
    match v
    case OutOfBounds => s.(fault := true)
    case Statement(u, ci, cj) =>
      if u in s.tx.flagged then s
      else if o.ok(p, u) then Sent(s, o, p, u)
      else s.(tx := Fail(s.tx, u), handle := Usable, ci := ci, cj := if cj.Some? then cj.value else s.cj)
  }

  function Walk(s: State, o: Oracle, p: nat, vs: seq<Visit>): State {
    if vs == [] then s else VisitOne(Walk(s, o, p, vs[..|vs| - 1]), o, p, vs[|vs| - 1])
  }

  // ---- what each section visits ----

  function MulticastVisit(job: Job, step: Step, i: nat): Visit {
    if i < job.QueueSize(step) then Statement(Multicast(step, i), i, None) else OutOfBounds
  }

  function MulticastVisits(job: Job, step: Step, n: nat): seq<Visit> {
    seq(n, i requires 0 <= i => MulticastVisit(job, step, i))
  }

  function GenericVisit(job: Job, i: nat, j: nat): Visit
    requires i < |job.batches|
  {
    if j < job.batches[i].generics then Statement(Generic(i, j), i + 1, Some(j)) else OutOfBounds
  }

  function GenericVisits(job: Job, i: nat, lo: nat, hi: nat): seq<Visit>
    requires i < |job.batches|
    decreases hi
  {
    if hi <= lo then [] else GenericVisits(job, i, lo, hi - 1) + [GenericVisit(job, i, hi - 1)]
  }

  function TableVisits(i: nat, tables: set<Table>, order: seq<Table>): seq<Visit> {
    if order == [] then []
    else
      var t := order[|order| - 1];
      TableVisits(i, tables, order[..|order| - 1]) + if t in tables then [Statement(Insert(i, t), i + 1, None)] else []
  }

  function WriteVisits(job: Job, n: nat): seq<Visit> {
    if n == 0 then []
    else WriteVisits(job, n - 1) +
         if n - 1 < |job.batches| then TableVisits(n - 1, job.batches[n - 1].tables, TABLES) else [OutOfBounds]
  }

  /** Each batch's inner loop starts at the checkpoint index as it stands when the batch starts. */
  function GenericBatches(job: Job, s: State, o: Oracle, p: nat, n: nat): State {
    if n == 0 then s
    else
      var s1 := GenericBatches(job, s, o, p, n - 1);
      if n - 1 < |job.batches|
      then Walk(s1, o, p, GenericVisits(job, n - 1, s1.cj, LastJ(s1, job.batches[n - 1].generics)))
      else VisitOne(s1, o, p, OutOfBounds)
  }

  function RunSection(job: Job, s: State, o: Oracle, p: nat, step: Step): State
    requires step != Finish
  {
    var n := Last(s, step, job.QueueSize(step));
    match step
    case Generics => GenericBatches(job, s, o, p, n)
    case Writes => Walk(s, o, p, WriteVisits(job, n))
    case _ => Walk(s, o, p, MulticastVisits(job, step, n))
  }

  function PassFrom(job: Job, s: State, o: Oracle, p: nat, step: Step): State
    requires step != Finish
    decreases 6 - Rank(step), job
  {
    var s1 := RunSection(job, s, o, p, step);
    if step == Writes then s1
    else if s1.tx.hadError then PassFrom(job, s1, o, p, Next(step))
    else if s1.endpoint == Next(step) then s1
    else PassFrom(job, s1.(checkpoint := Next(step)), o, p, Next(step))
  }

  /** A second commit of a committed transaction does nothing; a transaction whose commit has failed
      cannot be committed any more. */
  predicate Commits(s: State, o: Oracle, p: nat) {
    s.handle == Finished || (s.handle == Usable && o.commits(p))
  }

  function Commit(s: State, o: Oracle, p: nat): State {
    if Commits(s, o, p) then
      s.(tx := s.tx.(committed := s.tx.committed + s.tx.open, open := []), handle := Finished,
         endpoint := s.checkpoint, ei := s.ci, ej := s.cj)
    else
      s.(tx := s.tx.(open := [], hadError := true), handle := Broken)
  }

  function Pass(job: Job, s: State, o: Oracle, p: nat): State {
    Commit(PassFrom(job, s, o, p, Generics), o, p)
  }

  // ---- what a pass may change ----

  /** Only a usable transaction holds anything. */
  predicate Tidy(s: State) {
    s.handle == Usable || s.tx.open == []
  }

  /** b follows a within pass p: flags only grow, by statements of the job that failed in that pass; a
      new flag means an error and a new transaction, no new flag that there is neither. */
  ghost predicate Follows(job: Job, o: Oracle, p: nat, a: State, b: State) {
    && a.tx.flagged <= b.tx.flagged
    && (forall u :: u in b.tx.flagged && u !in a.tx.flagged ==> IsUnit(job, u) && !o.ok(p, u))
    && (if a.tx.flagged == b.tx.flagged then b.handle == a.handle && b.tx.hadError == a.tx.hadError
        else b.handle == Usable && b.tx.hadError)
    && (a.handle == Usable ==> b.tx.committed == a.tx.committed)
    && (Tidy(a) ==> Tidy(b))
    && b.endpoint == a.endpoint && b.ei == a.ei && b.ej == a.ej
  }

  ghost predicate InJob(job: Job, vs: seq<Visit>) {
    forall v :: v in vs && v.Statement? ==> IsUnit(job, v.u)
  }

  lemma {:induction false} WalkFollows(job: Job, s: State, o: Oracle, p: nat, vs: seq<Visit>)
    requires InJob(job, vs)
    ensures Follows(job, o, p, s, Walk(s, o, p, vs))
  {
    if vs == [] {
    } else {
      WalkFollows(job, s, o, p, vs[..|vs| - 1]);
    }
  }

  lemma {:induction false} GenericVisitsIn(job: Job, i: nat, lo: nat, hi: nat)
    requires i < |job.batches|
    ensures forall v :: v in GenericVisits(job, i, lo, hi) && v.Statement? ==>
              v.u.Generic? && v.u.i == i && lo <= v.u.j < hi && IsUnit(job, v.u)
    decreases hi
  {
    if hi <= lo {
    } else {
      GenericVisitsIn(job, i, lo, hi - 1);
    }
  }

  lemma {:induction false} TableVisitsIn(job: Job, i: nat, order: seq<Table>)
    requires i < |job.batches|
    ensures forall v :: v in TableVisits(i, job.batches[i].tables, order) ==>
              v.Statement? && v.u.Insert? && v.u.i == i && IsUnit(job, v.u)
  {
    if order == [] {
    } else {
      TableVisitsIn(job, i, order[..|order| - 1]);
    }
  }

  lemma {:induction false} WriteVisitsIn(job: Job, n: nat)
    ensures forall v :: v in WriteVisits(job, n) && v.Statement? ==> v.u.Insert? && v.u.i < n && IsUnit(job, v.u)
  {
    if n == 0 {
    } else {
      WriteVisitsIn(job, n - 1);
      if n - 1 < |job.batches| { TableVisitsIn(job, n - 1, TABLES); }
    }
  }

  lemma {:induction false} GenericBatchesFollow(job: Job, s: State, o: Oracle, p: nat, n: nat)
    ensures Follows(job, o, p, s, GenericBatches(job, s, o, p, n))
  {
    if n == 0 {
    } else {
      GenericBatchesFollow(job, s, o, p, n - 1);
      var s1 := GenericBatches(job, s, o, p, n - 1);
      if n - 1 < |job.batches| {
        var hi := LastJ(s1, job.batches[n - 1].generics);
        GenericVisitsIn(job, n - 1, s1.cj, hi);
        WalkFollows(job, s1, o, p, GenericVisits(job, n - 1, s1.cj, hi));
      }
    }
  }

  lemma SectionFollows(job: Job, s: State, o: Oracle, p: nat, step: Step)
    requires step != Finish
    ensures Follows(job, o, p, s, RunSection(job, s, o, p, step))
  {
    var n := Last(s, step, job.QueueSize(step));
    match step
    case Generics => GenericBatchesFollow(job, s, o, p, n);
    case Writes =>
      WriteVisitsIn(job, n);
      WalkFollows(job, s, o, p, WriteVisits(job, n));
    case _ =>
      WalkFollows(job, s, o, p, MulticastVisits(job, step, n));
  }

  lemma {:induction false} PassFollows(job: Job, s: State, o: Oracle, p: nat, step: Step)
    requires step != Finish
    ensures Follows(job, o, p, s, PassFrom(job, s, o, p, step))
    decreases 6 - Rank(step)
  {
    SectionFollows(job, s, o, p, step);
    var s1 := RunSection(job, s, o, p, step);
    if step != Writes {
      if s1.tx.hadError { PassFollows(job, s1, o, p, Next(step)); }
      else if s1.endpoint != Next(step) { PassFollows(job, s1.(checkpoint := Next(step)), o, p, Next(step)); }
    }
  }

  // ---- what a pass without a commit leaves in the log ----

  /** What a walk from section a on adds to the log is executed outside a transaction, without a failure
      and in this pass: nothing once a statement of an earlier section has failed. */
  ghost predicate LoggedOutside(job: Job, o: Oracle, p: nat, a: Step, s: State, s': State) {
    && s.tx.committed <= s'.tx.committed
    && (s.handle == Usable ==> s'.tx.committed == s.tx.committed)
    && (forall x :: x in s'.tx.flagged && x !in s.tx.flagged ==> Rank(a) <= Rank(Section(x)))
    && (forall k :: |s.tx.committed| <= k < |s'.tx.committed| ==>
          var e := s'.tx.committed[k];
          && e.pass == p && o.ok(p, e.u) && IsUnit(job, e.u) && e.u !in s.tx.flagged && Rank(a) <= Rank(Section(e.u))
          && forall x :: x in s'.tx.flagged && x !in s.tx.flagged ==> Rank(Section(e.u)) <= Rank(Section(x)))
  }

  ghost predicate Within(job: Job, step: Step, vs: seq<Visit>) {
    forall v :: v in vs && v.Statement? ==> IsUnit(job, v.u) && Section(v.u) == step
  }

  /** The log after a stretch of one section. */
  ghost predicate LoggedIn(job: Job, o: Oracle, p: nat, step: Step, s: State, s': State) {
    && s.tx.committed <= s'.tx.committed && s.tx.flagged <= s'.tx.flagged
    && (forall x :: x in s'.tx.flagged && x !in s.tx.flagged ==> Section(x) == step)
    && (forall k :: |s.tx.committed| <= k < |s'.tx.committed| ==>
          var e := s'.tx.committed[k];
          e.pass == p && o.ok(p, e.u) && IsUnit(job, e.u) && e.u !in s.tx.flagged && Section(e.u) == step)
  }

  lemma {:induction false} WalkLogs(job: Job, s: State, o: Oracle, p: nat, step: Step, vs: seq<Visit>)
    requires Within(job, step, vs)
    ensures LoggedIn(job, o, p, step, s, Walk(s, o, p, vs))
  {
    if vs == [] {
    } else {
      WalkLogs(job, s, o, p, step, vs[..|vs| - 1]);
    }
  }

  lemma {:induction false} BatchesLog(job: Job, s: State, o: Oracle, p: nat, n: nat)
    ensures LoggedIn(job, o, p, Generics, s, GenericBatches(job, s, o, p, n))
  {
    if n == 0 {
    } else {
      BatchesLog(job, s, o, p, n - 1);
      var s1 := GenericBatches(job, s, o, p, n - 1);
      if n - 1 < |job.batches| {
        var hi := LastJ(s1, job.batches[n - 1].generics);
        GenericVisitsIn(job, n - 1, s1.cj, hi);
        WalkLogs(job, s1, o, p, Generics, GenericVisits(job, n - 1, s1.cj, hi));
      }
    }
  }

  lemma SectionLogs(job: Job, s: State, o: Oracle, p: nat, step: Step)
    requires step != Finish
    ensures LoggedIn(job, o, p, step, s, RunSection(job, s, o, p, step))
  {
    hide LoggedIn;
    var n := Last(s, step, job.QueueSize(step));
    match step
    case Generics => BatchesLog(job, s, o, p, n);
    case Writes =>
      WriteVisitsIn(job, n);
      WalkLogs(job, s, o, p, Writes, WriteVisits(job, n));
    case _ =>
      WalkLogs(job, s, o, p, step, MulticastVisits(job, step, n));
  }

  lemma {:induction false} PassLogs(job: Job, s: State, o: Oracle, p: nat, a: Step)
    requires a != Finish
    ensures LoggedOutside(job, o, p, a, s, PassFrom(job, s, o, p, a))
    decreases 6 - Rank(a)
  {
    hide RunSection;
    SectionFollows(job, s, o, p, a);
    SectionLogs(job, s, o, p, a);
    var s1 := RunSection(job, s, o, p, a);
    if a != Writes {
      if s1.tx.hadError {
        PassLogs(job, s1, o, p, Next(a));
        LogsThen(job, o, p, a, s, s1, PassFrom(job, s1, o, p, Next(a)));
      } else if s1.endpoint != Next(a) {
        var s2 := s1.(checkpoint := Next(a));
        PassLogs(job, s2, o, p, Next(a));
        LogsThen(job, o, p, a, s, s2, PassFrom(job, s2, o, p, Next(a)));
      }
    }
  }

  lemma LogsThen(job: Job, o: Oracle, p: nat, a: Step, s: State, s1: State, s2: State)
    requires a != Finish && LoggedIn(job, o, p, a, s, s1) && Follows(job, o, p, s, s1)
    requires LoggedOutside(job, o, p, Next(a), s1, s2)
    ensures LoggedOutside(job, o, p, a, s, s2)
  {
    if s1.tx.flagged != s.tx.flagged {
      assert s2.tx.committed == s1.tx.committed;
    }
  }

  /** A pass that is not committed makes nothing of its transaction durable: only statements that were
      executed outside any transaction can have joined the log, and none if the pass had one from its
      start. */
  lemma FailedCommit(job: Job, s: State, o: Oracle, p: nat)
    requires !Commits(PassFrom(job, s, o, p, Generics), o, p)
    ensures var w, s' := PassFrom(job, s, o, p, Generics), Pass(job, s, o, p);
      && s' == w.(tx := s'.tx, handle := Broken) && s'.tx == w.tx.(open := [], hadError := true)
      && s'.endpoint == s.endpoint && s'.ei == s.ei && s'.ej == s.ej
      && LoggedOutside(job, o, p, Generics, s, s')
  {
    PassLogs(job, s, o, p, Generics);
    PassFollows(job, s, o, p, Generics);
  }

  /** A pass on a usable transaction leaves the log alone if its commit fails. */
  lemma NothingDurable(job: Job, s: State, o: Oracle, p: nat)
    requires s.handle == Usable && !o.commits(p)
    ensures Pass(job, s, o, p).tx.committed == s.tx.committed
  {
    PassFollows(job, s, o, p, Generics);
    FailedCommit(job, s, o, p);
  }

  // ---- the loop, which need not end ----

  function Again(s: State): State {
    s.(tx := s.tx.(hadError := false))
  }

  /** The state after n passes, or after the pass that ends the loop if it is one of them. */
  function After(job: Job, s: State, o: Oracle, p: nat, n: nat): State
    decreases n
  {
    if n == 0 then s
    else
      var s' := Pass(job, s, o, p);
      if s'.tx.hadError then After(job, Again(s'), o, p + 1, n - 1) else s'
  }

  /** One of the next n passes ends the loop. */
  predicate Ends(job: Job, s: State, o: Oracle, p: nat, n: nat)
    decreases n
  {
    n > 0 &&
      var s' := Pass(job, s, o, p);
      s'.tx.hadError ==> Ends(job, Again(s'), o, p + 1, n - 1)
  }

  /** More passes change nothing once the loop has ended. */
  lemma {:induction false} EndsOnce(job: Job, s: State, o: Oracle, p: nat, n: nat, m: nat)
    requires Ends(job, s, o, p, n) && n <= m
    ensures Ends(job, s, o, p, m) && After(job, s, o, p, m) == After(job, s, o, p, n)
    decreases n
  {
    hide Pass;
    var s' := Pass(job, s, o, p);
    if !s'.tx.hadError {
    } else {
      EndsOnce(job, Again(s'), o, p + 1, n - 1, m - 1);
    }
  }

  ghost function Unflagged(job: Job, s: State): set<Unit> {
    UnitSet(job) - s.tx.flagged
  }

  lemma FewerUnflagged(job: Job, a: State, b: State)
    requires a.tx.flagged <= b.tx.flagged
    requires forall u :: u in b.tx.flagged && u !in a.tx.flagged ==> IsUnit(job, u)
    ensures |Unflagged(job, b)| <= |Unflagged(job, a)|
    ensures a.tx.flagged != b.tx.flagged ==> |Unflagged(job, b)| < |Unflagged(job, a)|
  {
    UnitsExact(job);
    var small, big := Unflagged(job, b), Unflagged(job, a);
    assert big == small + (big - small);
    if u :| u in b.tx.flagged && u !in a.tx.flagged {
      assert u in big - small;
    } else {
      assert b.tx.flagged == a.tx.flagged;
    }
  }

  lemma PassCommits(job: Job, s: State, o: Oracle, p: nat, w: State)
    requires w == PassFrom(job, s, o, p, Generics)
    ensures Pass(job, s, o, p) == Commit(w, o, p)
  {
  }

  /** A pass up to its commit. */
  lemma ThePass(job: Job, s: State, o: Oracle, p: nat) returns (w: State)
    ensures Pass(job, s, o, p) == Commit(w, o, p) && Follows(job, o, p, s, w)
  {
    w := PassFrom(job, s, o, p, Generics);
    PassFollows(job, s, o, p, Generics);
  }

  /** A pass after which the loop goes on, although the transaction has been committed, flags a new
      statement. A pass without a failing statement leaves a committed transaction committed and a
      broken one broken, and goes on only with a broken one. */
  lemma PassProgress(job: Job, s: State, o: Oracle, p: nat) returns (s': State)
    requires !s.tx.hadError
    ensures s' == Pass(job, s, o, p) && s'.handle != Usable
    ensures s.tx.flagged <= s'.tx.flagged && |Unflagged(job, s')| <= |Unflagged(job, s)|
    ensures if s'.tx.flagged == s.tx.flagged then
              && (s'.tx.hadError <==> s'.handle == Broken)
              && (s.handle != Usable ==> s'.handle == s.handle)
            else |Unflagged(job, s')| < |Unflagged(job, s)|
  {
    hide Pass, UnitSet;
    var w := ThePass(job, s, o, p);
    s' := Commit(w, o, p);
    FewerUnflagged(job, s, w);
    assert Unflagged(job, s') == Unflagged(job, w);
  }

  /** A commit fails only if the adversary says so or the transaction is broken. */
  lemma CommitFails(job: Job, s: State, o: Oracle, p: nat)
    requires s.handle != Broken && o.commits(p)
    ensures Pass(job, s, o, p).handle == Finished
  {
    var w := ThePass(job, s, o, p);
  }

  /** If no commit of a usable transaction fails, the loop ends: after one pass more than there are
      statements at the latest. */
  lemma {:induction false} EndsInTime(job: Job, s: State, o: Oracle, p: nat)
    requires !s.tx.hadError && s.handle != Broken && forall q :: p <= q ==> o.commits(q)
    ensures Ends(job, s, o, p, |Unflagged(job, s)| + 1)
    decreases |Unflagged(job, s)|
  {
    hide Pass;
    var s' := PassProgress(job, s, o, p);
    CommitFails(job, s, o, p);
    if !s'.tx.hadError {
    } else {
      assert Unflagged(job, Again(s')) == Unflagged(job, s');
      EndsInTime(job, Again(s'), o, p + 1);
      EndsOnce(job, Again(s'), o, p + 1, |Unflagged(job, s')| + 1, |Unflagged(job, s)|);
    }
  }

  /** What is still to come from pass p on leads to the end of the whole run. */
  ghost predicate SameEnd(job: Job, s: State, o: Oracle, p: nat, n: nat, s0: State, bound: nat) {
    After(job, s, o, p, n) == After(job, s0, o, 0, bound) && Ends(job, s, o, p, n) == Ends(job, s0, o, 0, bound)
  }

  lemma Turn(job: Job, s: State, o: Oracle, p: nat, n: nat, s': State)
    requires n > 0 && s' == Pass(job, s, o, p)
    ensures After(job, s, o, p, n) == if s'.tx.hadError then After(job, Again(s'), o, p + 1, n - 1) else s'
    ensures Ends(job, s, o, p, n) == if s'.tx.hadError then Ends(job, Again(s'), o, p + 1, n - 1) else true
  {
    hide Pass;
  }

  // ---- the loop itself ----

  class DatabaseJobStruct {
    /** The flags and results in the batches and in the job, and what is in the database. */
    var tx: Tx
    var handle: Handle
    var fault: bool
    var checkpoint: Step
    var checkpointI: nat
    var checkpointJ: nat
    var endpoint: Step
    var endpointI: nat
    var endpointJ: nat

    function Abstract(): State
      reads this
    {
      State(tx, handle, fault, checkpoint, checkpointI, checkpointJ, endpoint, endpointI, endpointJ)
    }

    /** Prepares a recycled structure and begins a transaction. The checkpoint and all four indices
        keep their values. */
    method Clear()
      modifies this
      ensures Abstract() == Start(old(checkpoint), old(checkpointI), old(checkpointJ), old(endpointI), old(endpointJ))
    {
      tx, handle, fault, endpoint := EMPTY, Usable, false, Finish;
    }

    method Execute(o: Oracle, p: nat, v: Visit)
      modifies this
      ensures Abstract() == VisitOne(old(Abstract()), o, p, v)
    {
      match v
      case OutOfBounds => fault := true;
      case Statement(u, ci, cj) =>
        if u in tx.flagged { return; }
        if o.ok(p, u) {
          tx := if handle == Usable then Succeed(tx, o, p, u) else Outside(tx, o, p, u);
        } else {
          tx, checkpointI := Fail(tx, u), ci;
          if cj.Some? { checkpointJ := cj.value; }
          handle := Usable;
        }
    }

    /** The generic queries of one batch, from the checkpoint index as it stands. */
    method RunBatch(job: Job, o: Oracle, p: nat, i: nat)
      requires i < |job.batches|
      modifies this
      ensures var s := old(Abstract());
        Abstract() == Walk(s, o, p, GenericVisits(job, i, s.cj, LastJ(s, job.batches[i].generics)))
    {
      hide VisitOne, GenericVisit;
      var lastJ := if endpoint == Generics then endpointJ else job.batches[i].generics;
      ghost var s := Abstract();
      ghost var lo := checkpointJ;
      var j := checkpointJ;
      while j < lastJ
        invariant lo <= j && (j <= lastJ || j == lo)
        invariant Abstract() == Walk(s, o, p, GenericVisits(job, i, lo, j))
      {
        ghost var vs, v := GenericVisits(job, i, lo, j), GenericVisit(job, i, j);
        assert (vs + [v])[..|vs|] == vs;
        Execute(o, p, GenericVisit(job, i, j));
        j := j + 1;
      }
      assert GenericVisits(job, i, lo, j) == GenericVisits(job, i, lo, lastJ);
    }

    method RunGenerics(job: Job, o: Oracle, p: nat)
      modifies this
      ensures Abstract() == RunSection(job, old(Abstract()), o, p, Generics)
    {
      hide VisitOne;
      var lastI := (if endpoint == Generics then endpointI else |job.batches|) % 0x1_0000;
      var i := 0;
      while i < lastI
        invariant 0 <= i <= lastI
        invariant Abstract() == GenericBatches(job, old(Abstract()), o, p, i)
      {
        if i < |job.batches| { RunBatch(job, o, p, i); } else { Execute(o, p, OutOfBounds); }
        i := i + 1;
      }
    }

    method RunMulticast(job: Job, o: Oracle, p: nat, step: Step)
      requires IsMulticast(step)
      modifies this
      ensures Abstract() == RunSection(job, old(Abstract()), o, p, step)
    {
      hide VisitOne;
      var lastI := (if endpoint == step then endpointI else job.QueueSize(step)) % 0x1_0000;
      var i := 0;
      while i < lastI
        invariant 0 <= i <= lastI
        invariant Abstract() == Walk(old(Abstract()), o, p, MulticastVisits(job, step, i))
      {
        ghost var vs := MulticastVisits(job, step, i + 1);
        assert vs[..i] == MulticastVisits(job, step, i);
        Execute(o, p, MulticastVisit(job, step, i));
        i := i + 1;
      }
    }

    /** The inserts of one write batch, one table after the other. */
    method RunTables(job: Job, o: Oracle, p: nat, i: nat, order: seq<Table>, ghost s: State, ghost done: seq<Visit>)
      requires i < |job.batches| && Abstract() == Walk(s, o, p, done)
      modifies this
      ensures Abstract() == Walk(s, o, p, done + TableVisits(i, job.batches[i].tables, order))
    {
      hide VisitOne;
      var tables := job.batches[i].tables;
      var k := 0;
      assert done + TableVisits(i, tables, order[..0]) == done;
      while k < |order|
        invariant 0 <= k <= |order|
        invariant Abstract() == Walk(s, o, p, done + TableVisits(i, tables, order[..k]))
      {
        assert order[..k + 1][..k] == order[..k];
        ghost var vs := done + TableVisits(i, tables, order[..k]);
        if order[k] in tables {
          var v := Statement(Insert(i, order[k]), i + 1, None);
          assert done + TableVisits(i, tables, order[..k + 1]) == vs + [v];
          assert (vs + [v])[..|vs|] == vs;
          Execute(o, p, v);
        } else {
          assert done + TableVisits(i, tables, order[..k + 1]) == vs;
        }
        k := k + 1;
      }
      assert order[..k] == order;
    }

    method RunWrites(job: Job, o: Oracle, p: nat)
      modifies this
      ensures Abstract() == RunSection(job, old(Abstract()), o, p, Writes)
    {
      hide VisitOne, TableVisits;
      var lastI := (if endpoint == Writes then endpointI else |job.batches|) % 0x1_0000;
      var i := 0;
      while i < lastI
        invariant 0 <= i <= lastI
        invariant Abstract() == Walk(old(Abstract()), o, p, WriteVisits(job, i))
      {
        ghost var vs := WriteVisits(job, i);
        if i < |job.batches| {
          RunTables(job, o, p, i, TABLES, old(Abstract()), vs);
        } else {
          assert (vs + [OutOfBounds])[..|vs|] == vs;
          Execute(o, p, OutOfBounds);
        }
        i := i + 1;
      }
    }

    method RunOne(job: Job, o: Oracle, p: nat, step: Step)
      requires step != Finish
      modifies this
      ensures Abstract() == RunSection(job, old(Abstract()), o, p, step)
    {
      if step == Generics {
        RunGenerics(job, o, p);
      } else if step == Writes {
        RunWrites(job, o, p);
      } else {
        RunMulticast(job, o, p, step);
      }
    }

    /** The six sections of a pass, up to the label before the commit: between two sections
        stands the same test each time. */
    method Sections(job: Job, o: Oracle, p: nat)
      modifies this
      ensures Abstract() == PassFrom(job, old(Abstract()), o, p, Generics)
    {
      var step := Generics;
      while step != Writes
        invariant step != Finish
        invariant PassFrom(job, Abstract(), o, p, step) == PassFrom(job, old(Abstract()), o, p, Generics)
        decreases 6 - Rank(step)
      {
        RunOne(job, o, p, step);
        if !tx.hadError {
          if endpoint == Next(step) { return; }
          checkpoint := Next(step);
        }
        step := Next(step);
      }
      RunOne(job, o, p, Writes);
    }

    method TryCommit(o: Oracle, p: nat)
      modifies this
      ensures Abstract() == Commit(old(Abstract()), o, p)
      ensures old(handle) == Broken || (old(handle) == Usable && !o.commits(p)) ==> tx.committed == old(tx).committed
    {
      if handle == Finished || (handle == Usable && o.commits(p)) {
        tx, handle := tx.(committed := tx.committed + tx.open, open := []), Finished;
        endpoint, endpointI, endpointJ := checkpoint, checkpointI, checkpointJ;
      } else {
        tx, handle := tx.(open := [], hadError := true), Broken;
      }
    }

    method RunPass(job: Job, o: Oracle, p: nat)
      modifies this
      ensures Abstract() == Pass(job, old(Abstract()), o, p)
    {
      Sections(job, o, p);
      TryCommit(o, p);
    }

    /** The loop. The source does not bound the number of passes; the bound stands for how long one
        watches. */
    method DatabaseJob(job: Job, o: Oracle, bound: nat) returns (ended: bool)
      requires !tx.hadError
      modifies this
      ensures ended == Ends(job, old(Abstract()), o, 0, bound)
      ensures Abstract() == After(job, old(Abstract()), o, 0, bound)
      ensures bound == 1 && old(handle) == Usable && !o.commits(0) ==> tx.committed == old(tx.committed)
    {
      hide Pass;
      ghost var s0 := Abstract();
      if s0.handle == Usable && !o.commits(0) { NothingDurable(job, s0, o, 0); }
      var p: nat := 0;
      ended := false;
      while p < bound
        invariant p <= bound && !tx.hadError
        invariant SameEnd(job, Abstract(), o, p, bound - p, s0, bound)
      {
        ghost var s := Abstract();
        RunPass(job, o, p);
        Turn(job, s, o, p, bound - p, Abstract());
        if !tx.hadError { return true; }
        tx := tx.(hadError := false);
        p := p + 1;
      }
    }
  }
}
