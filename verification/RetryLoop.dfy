/** The transactional retry loop as its comments intend it: every pass in a new transaction.

    The bookkeeping in the source departs from these comments; module LiteralLoop models it as
    written and module LiteralExact proves when it is right. Here the checkpoint names the
    statement of the last error, a pass after an error re-runs everything before it, and
    numbers collected in an aborted transaction are dropped. */
module RetryLoop {
  import opened Workload
  import opened Database

  datatype State = State(tx: Tx, checkpoint: nat, endpoint: nat)

  function Start(us: seq<Unit>): State {
    State(EMPTY, 0, |us|)
  }

  /** Numbers collected by statements of the open transaction are worthless once it is gone. */
  function DropOpen(tx: Tx): Tx {
    tx.(open := [], nums := map u | u in tx.nums && !Has(tx.open, u) :: tx.nums[u])
  }

  function Send(s: State, o: Oracle, p: nat, u: Unit, k: nat): State {
    if u in s.tx.flagged then s
    else if o.ok(p, u) then s.(tx := Succeed(s.tx, o, p, u))
    else s.(tx := Fail(DropOpen(s.tx), u), checkpoint := k)
  }

  /** The statements before position k have been visited; visit those from k to the endpoint. */
  function Walk(us: seq<Unit>, o: Oracle, p: nat, s: State, k: nat): State
    requires k <= s.endpoint <= |us|
    decreases s.endpoint - k
  {
    if k == s.endpoint then s else Walk(us, o, p, Send(s, o, p, us[k], k), k + 1)
  }

  function Commit(s: State, o: Oracle, p: nat): State {
    if o.commits(p) then
      State(s.tx.(committed := s.tx.committed + s.tx.open, open := []), s.checkpoint,
            if s.tx.hadError then s.checkpoint else 0)
    else
      s.(tx := DropOpen(s.tx).(hadError := true))
  }

  function Pass(us: seq<Unit>, o: Oracle, p: nat, s: State): State
    requires s.endpoint <= |us|
  {
    Commit(Walk(us, o, p, s, 0), o, p)
  }

  function Again(s: State): State {
    s.(tx := s.tx.(hadError := false))
  }

  function Unflagged(us: seq<Unit>, s: State): set<Unit> {
    (set u | u in us) - s.tx.flagged
  }

  // ---- a pass makes progress ----

  /** What any stretch of a walk does: flags only grow, by statements of the stretch that were
      not flagged, and an error always flags something new. */
  lemma {:induction false} WalkFlags(us: seq<Unit>, o: Oracle, p: nat, s: State, k: nat)
    requires k <= s.endpoint <= |us|
    requires s.tx.hadError ==> s.checkpoint < k
    ensures var s' := Walk(us, o, p, s, k);
      && s.tx.flagged <= s'.tx.flagged
      && (forall u :: u in s'.tx.flagged - s.tx.flagged ==> u in us[k..s.endpoint])
      && (s'.tx.hadError && !s.tx.hadError ==> exists u :: u in s'.tx.flagged && u !in s.tx.flagged)
      && s'.tx.committed == s.tx.committed && s'.endpoint == s.endpoint
      && (s'.tx.hadError ==> s'.checkpoint < s.endpoint)
      && (forall u :: u in s.tx.flagged && !Has(s.tx.open, u) ==> !Has(s'.tx.open, u))
    decreases s.endpoint - k
  {
    if s.endpoint <= k {
    } else {
      var s1 := Send(s, o, p, us[k], k);
      WalkFlags(us, o, p, s1, k + 1);
      assert us[k] in us[k..s.endpoint];
      assert forall u :: u in us[k + 1..s.endpoint] ==> u in us[k..s.endpoint];
    }
  }

  /** A pass that ends in an error either failed to commit or flagged a statement of the job
      that was not flagged before. */
  lemma PassProgress(us: seq<Unit>, o: Oracle, p: nat, s: State)
    requires s.endpoint <= |us| && !s.tx.hadError
    ensures var s' := Pass(us, o, p, s);
      && s'.endpoint <= |us|
      && (s'.tx.hadError && o.commits(p) ==> Unflagged(us, s') < Unflagged(us, s))
      && Unflagged(us, s') <= Unflagged(us, s)
  {
    WalkFlags(us, o, p, s, 0);
    var w := Walk(us, o, p, s, 0);
    if w.tx.hadError {
      var u :| u in w.tx.flagged && u !in s.tx.flagged;
      assert u in w.tx.flagged - s.tx.flagged;
    }
  }

  lemma SmallerSet<T>(a: set<T>, b: set<T>)
    requires a <= b
    ensures |a| <= |b|
    ensures a != b ==> |a| < |b|
  {
    assert b == a + (b - a);
    if a != b { var x :| x in b - a; }
  }

  ghost function PassesLeft(o: Oracle, p: nat): nat {
    if p < o.settled then o.settled - p else 0
  }

  /** The loop from pass p on. It ends because each further pass either uses up a failing commit
      or flags one more statement. */
  ghost function Run(us: seq<Unit>, o: Oracle, p: nat, s: State): State
    requires s.endpoint <= |us| && !s.tx.hadError && o.Valid()
    decreases PassesLeft(o, p), |Unflagged(us, s)|
  {
    var s' := Pass(us, o, p, s);
    PassProgress(us, o, p, s);
    SmallerSet(Unflagged(us, s'), Unflagged(us, s));
    if s'.tx.hadError then Run(us, o, p + 1, Again(s')) else s'
  }

  // ---- exactly once ----

  /** The unflagged statements of us[lo..hi], as executed in pass p. */
  function Live(us: seq<Unit>, flagged: set<Unit>, lo: nat, hi: nat, p: nat): seq<Entry>
    requires hi <= |us|
    decreases hi
  {
    if hi <= lo then []
    else Live(us, flagged, lo, hi - 1, p) + if us[hi - 1] in flagged then [] else [Entry(us[hi - 1], p)]
  }

  lemma {:induction false} LiveTimes(us: seq<Unit>, flagged: set<Unit>, lo: nat, hi: nat, p: nat, u: Unit)
    requires hi <= |us| && Distinct(us)
    ensures Times(Live(us, flagged, lo, hi, p), u) ==
            if u !in flagged && exists k :: lo <= k < hi && us[k] == u then 1 else 0
    ensures forall e :: e in Live(us, flagged, lo, hi, p) ==> e.u in us && e.u !in flagged && e.pass == p
    decreases hi
  {
    if hi <= lo {
    } else {
      LiveTimes(us, flagged, lo, hi - 1, p, u);
      TimesConcat(Live(us, flagged, lo, hi - 1, p), if us[hi - 1] in flagged then [] else [Entry(us[hi - 1], p)], u);
      assert (exists k :: lo <= k < hi && us[k] == u) <==>
             us[hi - 1] == u || exists k :: lo <= k < hi - 1 && us[k] == u;
    }
  }

  /** The first position that the open transaction still covers. */
  function Kept(s: State): nat {
    if s.tx.hadError then s.checkpoint + 1 else 0
  }

  /** The open transaction holds exactly the unflagged statements after the last error. */
  lemma {:induction false} WalkOpen(us: seq<Unit>, o: Oracle, p: nat, s: State, k: nat)
    requires Distinct(us) && k <= s.endpoint <= |us| && Kept(s) <= k
    requires s.tx.open == Live(us, s.tx.flagged, Kept(s), k, p)
    ensures var s' := Walk(us, o, p, s, k);
      Kept(s') <= s.endpoint && s'.tx.open == Live(us, s'.tx.flagged, Kept(s'), s.endpoint, p)
    decreases s.endpoint - k
  {
    if s.endpoint <= k {
    } else {
      WalkOpen(us, o, p, Send(s, o, p, us[k], k), k + 1);
    }
  }

  /** Between passes the committed log holds each unflagged statement at or after the endpoint
      exactly once, and nothing before it. */
  ghost predicate Settled(us: seq<Unit>, s: State) {
    && s.endpoint <= |us|
    && s.tx.open == []
    && (forall u :: u in s.tx.flagged ==> u in us)
    && (forall e :: e in s.tx.committed ==> e.u in us)
    && (forall k :: 0 <= k < |us| ==>
          Times(s.tx.committed, us[k]) == if s.endpoint <= k && us[k] !in s.tx.flagged then 1 else 0)
  }

  /** Every pass keeps it, whatever fails; a pass without an error leaves nothing outstanding;
      a failed commit changes neither the log nor the endpoint. */
  lemma PassSettled(us: seq<Unit>, o: Oracle, p: nat, s: State)
    requires Distinct(us) && Settled(us, s) && !s.tx.hadError
    ensures var s' := Pass(us, o, p, s);
      && Settled(us, s')
      && (!s'.tx.hadError ==> s'.endpoint == 0)
      && (!o.commits(p) ==> s'.tx.committed == s.tx.committed && s'.endpoint == s.endpoint)
  {
    var w, s' := Walk(us, o, p, s, 0), Pass(us, o, p, s);
    WalkFlags(us, o, p, s, 0);
    WalkOpen(us, o, p, s, 0);
    forall k | 0 <= k < |us|
      ensures Times(s'.tx.committed, us[k]) == if s'.endpoint <= k && us[k] !in s'.tx.flagged then 1 else 0
    {
      assert us[k] in w.tx.flagged - s.tx.flagged ==> k < s.endpoint;
      if o.commits(p) {
        TimesConcat(s.tx.committed, w.tx.open, us[k]);
        LiveTimes(us, w.tx.flagged, Kept(w), s.endpoint, p, us[k]);
        assert (exists m :: Kept(w) <= m < s.endpoint && us[m] == us[k]) <==> Kept(w) <= k < s.endpoint;
        if w.tx.hadError && k == w.checkpoint { WalkLastError(us, o, p, s, 0); }
      }
    }
    forall u | u in s'.tx.flagged ensures u in us {
      if u !in s.tx.flagged { assert u in w.tx.flagged - s.tx.flagged; }
    }
    if s.endpoint > 0 { LiveTimes(us, w.tx.flagged, Kept(w), s.endpoint, p, us[0]); }
  }

  /** The checkpoint names a statement that is flagged. */
  lemma {:induction false} WalkLastError(us: seq<Unit>, o: Oracle, p: nat, s: State, k: nat)
    requires k <= s.endpoint <= |us|
    requires s.tx.hadError ==> s.checkpoint < k && us[s.checkpoint] in s.tx.flagged
    ensures var s' := Walk(us, o, p, s, k);
      s'.tx.hadError ==> s'.checkpoint < s.endpoint && us[s'.checkpoint] in s'.tx.flagged
    decreases s.endpoint - k
  {
    if s.endpoint <= k {
    } else {
      WalkLastError(us, o, p, Send(s, o, p, us[k], k), k + 1);
    }
  }

  lemma {:induction false} RunSettled(us: seq<Unit>, o: Oracle, p: nat, s: State)
    requires Distinct(us) && Settled(us, s) && !s.tx.hadError && o.Valid()
    ensures var s' := Run(us, o, p, s);
      Settled(us, s') && s'.endpoint == 0 && !s'.tx.hadError
    decreases PassesLeft(o, p), |Unflagged(us, s)|
  {
    var s' := Pass(us, o, p, s);
    PassSettled(us, o, p, s);
    PassProgress(us, o, p, s);
    SmallerSet(Unflagged(us, s'), Unflagged(us, s));
    if s'.tx.hadError { RunSettled(us, o, p + 1, Again(s')); }
  }

  /** For every job and every pattern of failing statements and (finitely many) failing commits:
      when the loop ends, each unflagged statement is committed exactly once and each flagged
      one never; and only statements that have failed are flagged. */
  lemma ExactlyOnceCommit(job: Job, o: Oracle)
    requires o.Valid()
    ensures ExactlyOnce(job, Run(UnitsOf(job), o, 0, Start(UnitsOf(job))).tx)
    ensures Caused(o, Run(UnitsOf(job), o, 0, Start(UnitsOf(job))).tx)
  {
    var us := UnitsOf(job);
    UnitsExact(job);
    forall k | 0 <= k < |us| ensures Times([], us[k]) == 0 { }
    RunSettled(us, o, 0, Start(us));
    RunCaused(us, o, 0, Start(us));
    var tx := Run(us, o, 0, Start(us)).tx;
    forall u | IsUnit(job, u) ensures Times(tx.committed, u) == if u in tx.flagged then 0 else 1 {
      var k :| 0 <= k < |us| && us[k] == u;
    }
  }

  // ---- the numbers belong to the committing pass ----

  /** A statement in either log carries the numbers and the result of the pass that put it there; a
      statement in neither carries no numbers. */
  ghost predicate NumbersOk(o: Oracle, tx: Tx) {
    && (forall e :: e in tx.committed || e in tx.open ==>
          Get(tx.nums, e.u) == o.numbers(e.pass, e.u) && e.u in tx.ran && tx.ran[e.u] == e.pass)
    && (forall u :: !Has(tx.committed, u) && !Has(tx.open, u) ==> Get(tx.nums, u) == [])
  }

  ghost predicate Apart(us: seq<Unit>, s: State, k: nat)
    requires k <= s.endpoint <= |us|
  {
    && (forall e :: e in s.tx.open ==> e.u in us[..k])
    && (forall e :: e in s.tx.committed ==> e.u !in us[..s.endpoint])
  }

  lemma SendNumbers(us: seq<Unit>, o: Oracle, p: nat, s: State, k: nat)
    requires Distinct(us) && k < s.endpoint <= |us| && Apart(us, s, k) && NumbersOk(o, s.tx)
    ensures var s' := Send(s, o, p, us[k], k);
      s'.endpoint == s.endpoint && Apart(us, s', k + 1) && NumbersOk(o, s'.tx)
  {
    var u, s' := us[k], Send(s, o, p, us[k], k);
    assert us[..k + 1] == us[..k] + [u];
    assert u in us[..s.endpoint] by { assert us[..s.endpoint][k] == u; }
    assert u !in us[..k];
    assert forall v :: v in us[..k] ==> v in us[..s.endpoint];
    if u !in s.tx.flagged {
      if o.ok(p, u) {
        assert s'.tx.open[|s.tx.open|] == Entry(u, p);
        assert !Has(s.tx.open, u) && !Has(s.tx.committed, u);
        forall v | !Has(s'.tx.committed, v) && !Has(s'.tx.open, v) ensures Get(s'.tx.nums, v) == [] {
          assert Entry(u, p) in s'.tx.open;
          assert forall e :: e in s.tx.open ==> e in s'.tx.open;
        }
      } else {
        forall e | e in s.tx.committed ensures !Has(s.tx.open, e.u) { }
      }
    }
  }

  lemma {:induction false} WalkNumbers(us: seq<Unit>, o: Oracle, p: nat, s: State, k: nat)
    requires Distinct(us) && k <= s.endpoint <= |us| && Apart(us, s, k) && NumbersOk(o, s.tx)
    ensures var s' := Walk(us, o, p, s, k);
      s'.endpoint == s.endpoint && Apart(us, s', s.endpoint) && NumbersOk(o, s'.tx)
    decreases s.endpoint - k
  {
    if s.endpoint <= k {
    } else {
      SendNumbers(us, o, p, s, k);
      WalkNumbers(us, o, p, Send(s, o, p, us[k], k), k + 1);
    }
  }

  lemma PassNumbers(us: seq<Unit>, o: Oracle, p: nat, s: State)
    requires Distinct(us) && Settled(us, s) && NumbersOk(o, s.tx)
    ensures NumbersOk(o, Pass(us, o, p, s).tx)
  {
    forall e | e in s.tx.committed ensures e.u !in us[..s.endpoint] {
      if e.u in us[..s.endpoint] {
        var k :| 0 <= k < s.endpoint && us[k] == e.u;
        TimesHas(s.tx.committed, us[k]);
      }
    }
    WalkNumbers(us, o, p, s, 0);
    var w, s' := Walk(us, o, p, s, 0), Pass(us, o, p, s);
    if o.commits(p) {
      forall v | !Has(s'.tx.committed, v) ensures !Has(w.tx.committed, v) && !Has(w.tx.open, v) {
        forall e | e in w.tx.committed || e in w.tx.open ensures e in s'.tx.committed { }
      }
    } else {
      forall e | e in w.tx.committed ensures !Has(w.tx.open, e.u) { }
    }
  }

  lemma {:induction false} RunNumbers(us: seq<Unit>, o: Oracle, p: nat, s: State)
    requires Distinct(us) && Settled(us, s) && !s.tx.hadError && o.Valid() && NumbersOk(o, s.tx)
    ensures NumbersOk(o, Run(us, o, p, s).tx)
    decreases PassesLeft(o, p), |Unflagged(us, s)|
  {
    var s' := Pass(us, o, p, s);
    PassNumbers(us, o, p, s);
    PassSettled(us, o, p, s);
    PassProgress(us, o, p, s);
    SmallerSet(Unflagged(us, s'), Unflagged(us, s));
    if s'.tx.hadError { RunNumbers(us, o, p + 1, Again(s')); }
  }

  /** When the loop ends, the numbers and the result kept for a statement are those that its
      committing pass handed out, and a statement that is not committed has no numbers. */
  lemma NumbersOfCommittingPass(job: Job, o: Oracle)
    requires o.Valid()
    ensures var tx := Run(UnitsOf(job), o, 0, Start(UnitsOf(job))).tx;
      && (forall e :: e in tx.committed ==>
            Get(tx.nums, e.u) == o.numbers(e.pass, e.u) && e.u in tx.ran && tx.ran[e.u] == e.pass)
      && (forall u :: !Has(tx.committed, u) ==> Get(tx.nums, u) == [])
  {
    var us := UnitsOf(job);
    UnitsExact(job);
    RunNumbers(us, o, 0, Start(us));
    RunSettled(us, o, 0, Start(us));
  }

  // ---- nothing happens without a cause ----

  /** Only statements that failed in some pass are flagged; what is committed was executed without a
      failure in a pass that committed. */
  ghost predicate Caused(o: Oracle, tx: Tx) {
    && (forall u :: u in tx.flagged ==> CanFail(o, u))
    && (forall e :: e in tx.committed ==> o.ok(e.pass, e.u) && o.commits(e.pass))
  }

  /** The open transaction holds what pass p has executed without a failure. */
  ghost predicate Executed(o: Oracle, p: nat, tx: Tx) {
    forall e :: e in tx.open ==> e.pass == p && o.ok(p, e.u)
  }

  lemma {:induction false} WalkCaused(us: seq<Unit>, o: Oracle, p: nat, s: State, k: nat)
    requires k <= s.endpoint <= |us| && Caused(o, s.tx) && Executed(o, p, s.tx)
    ensures Caused(o, Walk(us, o, p, s, k).tx) && Executed(o, p, Walk(us, o, p, s, k).tx)
    decreases s.endpoint - k
  {
    if s.endpoint <= k {
    } else {
      WalkCaused(us, o, p, Send(s, o, p, us[k], k), k + 1);
    }
  }

  lemma {:induction false} RunCaused(us: seq<Unit>, o: Oracle, p: nat, s: State)
    requires Distinct(us) && Settled(us, s) && !s.tx.hadError && o.Valid() && Caused(o, s.tx)
    ensures Caused(o, Run(us, o, p, s).tx)
    decreases PassesLeft(o, p), |Unflagged(us, s)|
  {
    var s' := Pass(us, o, p, s);
    WalkCaused(us, o, p, s, 0);
    PassSettled(us, o, p, s);
    PassProgress(us, o, p, s);
    SmallerSet(Unflagged(us, s'), Unflagged(us, s));
    if s'.tx.hadError { RunCaused(us, o, p + 1, Again(s')); }
  }

  /** A statement that never fails is committed, once, whatever else fails. */
  lemma NeverFailing(job: Job, o: Oracle, u: Unit)
    requires o.Valid() && IsUnit(job, u) && !CanFail(o, u)
    ensures var tx := Run(UnitsOf(job), o, 0, Start(UnitsOf(job))).tx;
      u !in tx.flagged && Times(tx.committed, u) == 1
  {
    ExactlyOnceCommit(job, o);
  }

  lemma {:induction false} QuietWalk(us: seq<Unit>, o: Oracle, p: nat, s: State, k: nat)
    requires Distinct(us) && k <= s.endpoint <= |us| && forall u :: u in us ==> u in s.tx.flagged || o.ok(p, u)
    ensures var s' := Walk(us, o, p, s, k);
      && s'.tx.flagged == s.tx.flagged && s'.tx.committed == s.tx.committed && s'.tx.hadError == s.tx.hadError
      && s'.tx.open == s.tx.open + Live(us, s.tx.flagged, k, s.endpoint, p)
    decreases s.endpoint - k
  {
    if s.endpoint <= k {
    } else {
      QuietWalk(us, o, p, Send(s, o, p, us[k], k), k + 1);
      LiveSplit(us, s.tx.flagged, k, s.endpoint, p);
    }
  }

  lemma {:induction false} LiveSplit(us: seq<Unit>, flagged: set<Unit>, lo: nat, hi: nat, p: nat)
    requires lo < hi <= |us|
    ensures Live(us, flagged, lo, hi, p) == Own(us[lo], flagged, p) + Live(us, flagged, lo + 1, hi, p)
    decreases hi
  {
    if hi == lo + 1 {
      assert Live(us, flagged, lo, lo, p) == [] && Live(us, flagged, lo + 1, hi, p) == [];
    } else {
      LiveSplit(us, flagged, lo, hi - 1, p);
      assert Live(us, flagged, lo, hi, p) == Live(us, flagged, lo, hi - 1, p) + Own(us[hi - 1], flagged, p);
    }
  }

  function Own(u: Unit, flagged: set<Unit>, p: nat): seq<Entry> {
    if u in flagged then [] else [Entry(u, p)]
  }

  /** If nothing fails in the first pass, it commits every statement, in order, and is the only one. */
  lemma QuietRun(job: Job, o: Oracle)
    requires o.Valid() && o.commits(0) && forall u :: IsUnit(job, u) ==> o.ok(0, u)
    ensures var us := UnitsOf(job);
      var tx := Run(us, o, 0, Start(us)).tx;
      && tx.flagged == {} && |tx.committed| == |us|
      && (forall k :: 0 <= k < |us| ==> tx.committed[k] == Entry(us[k], 0))
  {
    var us := UnitsOf(job);
    UnitsExact(job);
    QuietWalk(us, o, 0, Start(us), 0);
    AllLive(us, |us|);
  }

  lemma {:induction false} AllLive(us: seq<Unit>, n: nat)
    requires n <= |us|
    ensures |Live(us, {}, 0, n, 0)| == n && forall k :: 0 <= k < n ==> Live(us, {}, 0, n, 0)[k] == Entry(us[k], 0)
  {
    if n == 0 {
    } else {
      AllLive(us, n - 1);
    }
  }

  // ---- the loop itself ----

  class RetryingJob {
    /** The flags and results in the batches and in the job, and what is in the database. */
    var tx: Tx
    var checkpoint: nat
    var endpoint: nat

    function Abstract(): State
      reads this
    {
      State(tx, checkpoint, endpoint)
    }

    constructor (us: seq<Unit>)
      ensures Abstract() == Start(us)
    {
      tx, checkpoint, endpoint := EMPTY, 0, |us|;
    }

    method Execute(o: Oracle, p: nat, u: Unit, k: nat)
      modifies this
      ensures Abstract() == Send(old(Abstract()), o, p, u, k)
      ensures u !in old(tx).flagged && o.ok(p, u) ==> tx.open == old(tx).open + [Entry(u, p)]
      ensures tx.flagged == old(tx).flagged + (if o.ok(p, u) then {} else {u})
    {
      if u in tx.flagged { return; }
      if o.ok(p, u) {
        tx := Succeed(tx, o, p, u);
      } else {
        tx, checkpoint := Fail(DropOpen(tx), u), k;
      }
    }

    method TryCommit(o: Oracle, p: nat)
      modifies this
      ensures Abstract() == Commit(old(Abstract()), o, p)
    {
      if o.commits(p) {
        tx := tx.(committed := tx.committed + tx.open, open := []);
        endpoint := if tx.hadError then checkpoint else 0;
      } else {
        tx := DropOpen(tx).(hadError := true);
      }
    }

    method RunPass(us: seq<Unit>, o: Oracle, p: nat)
      requires endpoint <= |us|
      modifies this
      ensures Abstract() == Pass(us, o, p, old(Abstract()))
    {
      ghost var s := Abstract();
      var k: nat := 0;
      while k < endpoint
        invariant k <= endpoint == s.endpoint
        invariant Walk(us, o, p, Abstract(), k) == Walk(us, o, p, s, 0)
      {
        Execute(o, p, us[k], k);
        k := k + 1;
      }
      TryCommit(o, p);
    }

    /** Loops until a pass ends without an error. */
    method DatabaseJob(job: Job, o: Oracle)
      requires Abstract() == Start(UnitsOf(job)) && o.Valid()
      modifies this
      ensures Abstract() == Run(UnitsOf(job), o, 0, Start(UnitsOf(job)))
      ensures ExactlyOnce(job, tx) && Caused(o, tx)
      ensures forall e :: e in tx.committed ==>
                Get(tx.nums, e.u) == o.numbers(e.pass, e.u) && e.u in tx.ran && tx.ran[e.u] == e.pass
    {
      hide Pass;
      var us := UnitsOf(job);
      var p: nat := 0;
      while true
        invariant endpoint <= |us| && !tx.hadError
        invariant Run(us, o, p, Abstract()) == Run(us, o, 0, Start(us))
        decreases PassesLeft(o, p), |Unflagged(us, Abstract())|
      {
        ghost var s := Abstract();
        PassProgress(us, o, p, s);
        SmallerSet(Unflagged(us, Pass(us, o, p, s)), Unflagged(us, s));
        RunPass(us, o, p);
        if !tx.hadError { break; }
        tx := tx.(hadError := false);
        p := p + 1;
      }
      ExactlyOnceCommit(job, o);
      NumbersOfCommittingPass(job, o);
    }
  }
}
