/** The database seen by a job: a committed log, an open transaction, and an adversary that
    decides which statements and which commits fail. */
module Database {
  import opened Workload

  /** Outcomes, one for each pass of the retry loop. A pass sends a statement at most once,
      so a function of the pass and the statement covers every pattern of failures.
      From pass `settled` on, commits succeed: finitely many commits fail. */
  datatype Oracle = Oracle(ok: (nat, Unit) -> bool, numbers: (nat, Unit) -> seq<nat>,
                           commits: nat -> bool, settled: nat) {
    ghost predicate Valid() {
      forall p: nat :: settled <= p ==> commits(p)
    }
  }

  /** In some pass the statement fails. */
  ghost predicate CanFail(o: Oracle, u: Unit) {
    exists q: nat :: !o.ok(q, u)
  }

  /** A statement that reached a log, with the pass that executed it. */
  datatype Entry = Entry(u: Unit, pass: nat)

  function Times(log: seq<Entry>, u: Unit): nat {
    if log == [] then 0 else (if log[0].u == u then 1 else 0) + Times(log[1..], u)
  }

  lemma {:induction false} TimesConcat(a: seq<Entry>, b: seq<Entry>, u: Unit)
    ensures Times(a + b, u) == Times(a, u) + Times(b, u)
  {
    if a == [] {
      assert a + b == b;
    } else {
      assert (a + b)[1..] == a[1..] + b;
      TimesConcat(a[1..], b, u);
    }
  }

  lemma TimesSnoc(log: seq<Entry>, e: Entry, u: Unit)
    ensures Times(log + [e], u) == Times(log, u) + if e.u == u then 1 else 0
  {
    TimesConcat(log, [e], u);
    assert [e][1..] == [];
  }

  predicate Has(log: seq<Entry>, u: Unit) {
    exists e :: e in log && e.u == u
  }

  lemma {:induction false} TimesHas(log: seq<Entry>, u: Unit)
    ensures Times(log, u) > 0 <==> Has(log, u)
  {
    if log == [] {
    } else {
      TimesHas(log[1..], u);
      assert log == [log[0]] + log[1..];
      if log[0].u == u { assert log[0] in log; }
      if Has(log[1..], u) { var e :| e in log[1..] && e.u == u; assert e in log; }
    }
  }

  /** Version numbers handed out for each inserted array. */
  type Numbers = map<Unit, seq<nat>>

  function Get(nums: Numbers, u: Unit): seq<nat> {
    if u in nums then nums[u] else []
  }

  /** What is flagged, what is durable, what the open transaction holds, the numbers collected so
      far, and the pass whose result is held for a statement. */
  datatype Tx = Tx(flagged: set<Unit>, committed: seq<Entry>, open: seq<Entry>,
                   nums: Numbers, ran: map<Unit, nat>, hadError: bool)

  const EMPTY: Tx := Tx({}, [], [], map[], map[], false)

  function Succeed(tx: Tx, o: Oracle, p: nat, u: Unit): Tx {
    tx.(open := tx.open + [Entry(u, p)],
        nums := tx.nums[u := Get(tx.nums, u) + o.numbers(p, u)], ran := tx.ran[u := p])
  }

  /** A failing statement aborts the transaction: everything executed since it opened is lost. */
  function Fail(tx: Tx, u: Unit): Tx {
    tx.(flagged := tx.flagged + {u}, open := [], ran := tx.ran - {u}, hadError := true)
  }

  /** The requirement: each statement of the job is committed exactly once, or flagged and never
      committed, and nothing else is committed. */
  ghost predicate ExactlyOnce(job: Job, tx: Tx) {
    && tx.flagged <= UnitSet(job)
    && (forall e :: e in tx.committed ==> IsUnit(job, e.u))
    && (forall u :: IsUnit(job, u) ==> Times(tx.committed, u) == if u in tx.flagged then 0 else 1)
  }
}
