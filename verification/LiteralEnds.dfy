/** When the literal loop ends. Nothing but a failing statement opens a new transaction, so a failed
    commit can leave the loop with one that it tries to commit for ever. */
module LiteralEnds {
  import opened Workload
  import opened Database
  import opened LiteralLoop

  // ---- one failed commit is enough ----

  ghost predicate NothingFailsFrom(o: Oracle, p: nat) {
    forall q: nat, u :: p <= q ==> o.ok(q, u)
  }

  lemma {:induction false} Stuck(job: Job, s: State, o: Oracle, p: nat, n: nat)
    requires s.handle == Broken && !s.tx.hadError && NothingFailsFrom(o, p)
    ensures !Ends(job, s, o, p, n)
    decreases n
  {
    if n == 0 {
    } else {
      var s' := PassProgress(job, s, o, p);
      var w := ThePass(job, s, o, p);
      Stuck(job, Again(s'), o, p + 1, n - 1);
      Turn(job, s, o, p, n, s');
    }
  }

  /** If the first commit fails and no statement ever does, the loop does not end. */
  lemma FirstCommitFails(job: Job, s: State, o: Oracle)
    requires s.handle == Usable && !s.tx.hadError && NothingFailsFrom(o, 0) && !o.commits(0)
    ensures forall n: nat :: !Ends(job, s, o, 0, n)
  {
    var s' := PassProgress(job, s, o, 0);
    var w := ThePass(job, s, o, 0);
    forall n: nat ensures !Ends(job, s, o, 0, n) {
      if n > 0 {
        Stuck(job, Again(s'), o, 1, n - 1);
        Turn(job, s, o, 0, n, s');
      }
    }
  }

  /** Only the commit of the first pass fails. */
  const FIRST_COMMIT_FAILS: Oracle := Oracle((p, u) => true, (p, u) => [], p => p > 0, 1)

  /** For every job, even one without any statement: if the commit of the first pass fails, and
      nothing else ever does, the loop never ends. */
  lemma FailedCommitHangs(job: Job, checkpoint: Step, ci: nat, cj: nat, ei: nat, ej: nat)
    ensures FIRST_COMMIT_FAILS.Valid()
    ensures forall n: nat :: !Ends(job, Start(checkpoint, ci, cj, ei, ej), FIRST_COMMIT_FAILS, 0, n)
  {
    FirstCommitFails(job, Start(checkpoint, ci, cj, ei, ej), FIRST_COMMIT_FAILS);
  }

  // ---- exactly when it does not end ----

  /** The first n passes have not ended the loop: the rest of the run starts where they stopped. */
  lemma {:induction false} Shift(job: Job, s: State, o: Oracle, p: nat, n: nat, k: nat)
    requires !s.tx.hadError && !Ends(job, s, o, p, n)
    ensures var t := After(job, s, o, p, n);
      && !t.tx.hadError
      && After(job, s, o, p, n + k) == After(job, t, o, p + n, k)
      && Ends(job, s, o, p, n + k) == Ends(job, t, o, p + n, k)
    decreases n
  {
    hide Pass;
    if n == 0 {
    } else {
      var s' := Pass(job, s, o, p);
      Turn(job, s, o, p, n, s');
      Turn(job, s, o, p, n + k, s');
      Shift(job, Again(s'), o, p + 1, n - 1, k);
    }
  }

  lemma {:induction false} FlagsGrow(job: Job, s: State, o: Oracle, p: nat, n: nat)
    requires !s.tx.hadError
    ensures var t := After(job, s, o, p, n);
      s.tx.flagged <= t.tx.flagged && |Unflagged(job, t)| <= |Unflagged(job, s)|
    ensures After(job, s, o, p, n).tx.flagged != s.tx.flagged ==>
              |Unflagged(job, After(job, s, o, p, n))| < |Unflagged(job, s)|
    decreases n
  {
    hide Pass, UnitSet;
    if n == 0 {
    } else {
      var s' := PassProgress(job, s, o, p);
      Turn(job, s, o, p, n, s');
      assert Unflagged(job, Again(s')) == Unflagged(job, s');
      if s'.tx.hadError { FlagsGrow(job, Again(s'), o, p + 1, n - 1); }
    }
  }

  /** No pass from p on flags anything. */
  ghost predicate FlagsStay(job: Job, s: State, o: Oracle, p: nat) {
    forall k: nat :: After(job, s, o, p, k).tx.flagged == s.tx.flagged
  }

  /** After m passes the loop goes on with a broken transaction, and no statement fails any more. */
  ghost predicate Hung(job: Job, s: State, o: Oracle, p: nat, m: nat) {
    && !Ends(job, s, o, p, m)
    && After(job, s, o, p, m).handle == Broken
    && FlagsStay(job, After(job, s, o, p, m), o, p + m)
  }

  lemma StayNext(job: Job, s: State, o: Oracle, p: nat, s': State)
    requires FlagsStay(job, s, o, p) && s' == Pass(job, s, o, p)
    ensures s'.tx.flagged == s.tx.flagged
    ensures s'.tx.hadError ==> FlagsStay(job, Again(s'), o, p + 1)
  {
    hide Pass;
    Turn(job, s, o, p, 1, s');
    assert After(job, s, o, p, 1).tx.flagged == s.tx.flagged;
    var q := p + 1;
    if s'.tx.hadError {
      forall k: nat ensures After(job, Again(s'), o, q, k).tx.flagged == s'.tx.flagged {
        Turn(job, s, o, p, k + 1, s');
        assert After(job, s, o, p, k + 1).tx.flagged == s.tx.flagged;
      }
    }
  }

  lemma {:induction false} BrokenStays(job: Job, s: State, o: Oracle, p: nat, n: nat)
    requires s.handle == Broken && !s.tx.hadError && FlagsStay(job, s, o, p)
    ensures !Ends(job, s, o, p, n)
    decreases n
  {
    hide Pass;
    if n == 0 {
    } else {
      var s' := PassProgress(job, s, o, p);
      StayNext(job, s, o, p, s');
      Turn(job, s, o, p, n, s');
      BrokenStays(job, Again(s'), o, p + 1, n - 1);
    }
  }

  lemma HungForever(job: Job, s: State, o: Oracle, p: nat, m: nat, n: nat)
    requires !s.tx.hadError && Hung(job, s, o, p, m)
    ensures !Ends(job, s, o, p, n)
  {
    hide Pass;
    if n < m {
      if Ends(job, s, o, p, n) { EndsOnce(job, s, o, p, n, m); }
    } else {
      Shift(job, s, o, p, m, n - m);
      BrokenStays(job, After(job, s, o, p, m), o, p + m, n - m);
    }
  }

  ghost predicate Endless(job: Job, s: State, o: Oracle, p: nat) {
    forall n: nat :: !Ends(job, s, o, p, n)
  }

  lemma EndlessLater(job: Job, s: State, o: Oracle, p: nat, k: nat) returns (t: State)
    requires !s.tx.hadError && Endless(job, s, o, p)
    ensures t == After(job, s, o, p, k) && !t.tx.hadError && Endless(job, t, o, p + k)
  {
    hide Pass;
    t := After(job, s, o, p, k);
    Shift(job, s, o, p, k, 0);
    var q := p + k;
    forall n: nat ensures !Ends(job, t, o, q, n) {
      Shift(job, s, o, p, k, n);
      assert !Ends(job, s, o, p, k + n);
    }
  }

  /** Flags run out, so a run without end comes to a pass after which none is added. */
  lemma {:induction false} EndlessHangs(job: Job, s: State, o: Oracle, p: nat) returns (m: nat)
    requires !s.tx.hadError && Endless(job, s, o, p)
    ensures Hung(job, s, o, p, m)
    decreases |Unflagged(job, s)|
  {
    hide Pass, Ends, UnitSet;
    if k: nat :| After(job, s, o, p, k).tx.flagged != s.tx.flagged {
      FlagsGrow(job, s, o, p, k);
      var t := EndlessLater(job, s, o, p, k);
      var later := EndlessHangs(job, t, o, p + k);
      m := k + later;
      Shift(job, s, o, p, k, later);
    } else {
      m := 1;
      var s' := PassProgress(job, s, o, p);
      StayNext(job, s, o, p, s');
      Turn(job, s, o, p, 1, s');
      assert !Ends(job, s, o, p, 1);
    }
  }

  /** Under any pattern of failures the loop goes on for ever if and only if from some pass on the
      transaction is broken and no statement fails any more. */
  lemma NeverEndsIff(job: Job, checkpoint: Step, ci: nat, cj: nat, ei: nat, ej: nat, o: Oracle)
    ensures var s := Start(checkpoint, ci, cj, ei, ej);
      Endless(job, s, o, 0) <==> exists m: nat :: Hung(job, s, o, 0, m)
  {
    var s := Start(checkpoint, ci, cj, ei, ej);
    if Endless(job, s, o, 0) { var m := EndlessHangs(job, s, o, 0); }
    if m: nat :| Hung(job, s, o, 0, m) {
      forall n: nat ensures !Ends(job, s, o, 0, n) { HungForever(job, s, o, 0, m, n); }
    }
  }
}
