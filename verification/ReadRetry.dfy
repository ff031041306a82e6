/** Read queries in a pipeline: a failure voids everything after it, so the rest is sent again. */
module ReadRetry {
  import opened Messages
  import opened WriteSplit

  /** What the database does to query j in attempt a, the rows it returns for a text, and the text
      of an error. */
  datatype Reads = Reads(ok: (nat, nat) -> bool, rows: (nat, string) -> seq<Row>, why: (nat, nat) -> string) {
    ghost predicate Valid() {
      forall a: nat, j: nat :: why(a, j) != ""
    }
  }

  /** Which query the test before a retrieval looks at: as written, the one at the same offset from
      the front of the batch; as meant, the query in hand. */
  datatype Test = Literal | Meant

  /** Queries that never go to the database. */
  predicate Skip(q: ZmqQuery)
    requires q.Received()
  {
    q.err != "" || q.Letter() == CACHED_CONFIG
  }

  function Hold(q: ZmqQuery, rows: seq<Row>): ZmqQuery {
    q.(result := rows)
  }

  function Flag(q: ZmqQuery, why: string): ZmqQuery {
    q.(result := [], err := why)
  }

  /** The first query from j on that was sent and failed; the pipeline has no results from there on. */
  function FirstBad(qs: Queries, o: Reads, a: nat, j: nat): (bad: nat)
    requires AllReceived(qs) && j <= |qs|
    ensures j <= bad <= |qs|
    ensures forall k :: j <= k < bad ==> Skip(qs[k]) || o.ok(a, k)
    ensures bad < |qs| ==> !Skip(qs[bad]) && !o.ok(a, bad)
    decreases |qs| - j
  {
    if j == |qs| || (!Skip(qs[j]) && !o.ok(a, j)) then j else FirstBad(qs, o, a, j + 1)
  }

  datatype Pulled = Pulled(qs: Queries, lastI: nat, failed: bool)

  function Looking(test: Test, lastI: nat, j: nat): nat
    requires lastI <= j
  {
    if test == Literal then j - lastI else j
  }

  /** Pulls the results from query j on. Retrieving a query that was not sent throws too. */
  function Pull(test: Test, qs: Queries, o: Reads, a: nat, lastI: nat, bad: nat, j: nat): Pulled
    requires AllReceived(qs) && lastI <= j <= |qs|
    decreases |qs| - j
  {
    if j == |qs| then Pulled(qs, lastI, false)
    else if Skip(qs[Looking(test, lastI, j)]) then Pull(test, qs, o, a, lastI, bad, j + 1)
    else if !Skip(qs[j]) && j < bad then
      Pull(test, qs[j := Hold(qs[j], o.rows(a, qs[j].Text()))], o, a, lastI, bad, j + 1)
    else Pulled(qs[j := Flag(qs[j], o.why(a, j))], j + 1, true)
  }

  lemma PullStep(test: Test, qs: Queries, o: Reads, a: nat, lastI: nat, bad: nat, j: nat)
    requires AllReceived(qs) && lastI <= j < |qs|
    ensures Pull(test, qs, o, a, lastI, bad, j) ==
            if Skip(qs[Looking(test, lastI, j)]) then Pull(test, qs, o, a, lastI, bad, j + 1)
            else if !Skip(qs[j]) && j < bad then
              Pull(test, qs[j := Hold(qs[j], o.rows(a, qs[j].Text()))], o, a, lastI, bad, j + 1)
            else Pulled(qs[j := Flag(qs[j], o.why(a, j))], j + 1, true)
  {
  }

  lemma PullEnds(test: Test, qs: Queries, o: Reads, a: nat, lastI: nat, bad: nat)
    requires AllReceived(qs) && lastI <= |qs|
    ensures Pull(test, qs, o, a, lastI, bad, |qs|) == Pulled(qs, lastI, false)
  {
  }

  lemma {:induction false} PullKeeps(test: Test, qs: Queries, o: Reads, a: nat, lastI: nat, bad: nat, j: nat)
    requires AllReceived(qs) && lastI <= j <= |qs|
    ensures var r := Pull(test, qs, o, a, lastI, bad, j);
      && |r.qs| == |qs| && AllReceived(r.qs)
      && (forall k :: 0 <= k < j ==> r.qs[k] == qs[k])
      && (if r.failed then j < r.lastI <= |qs| else r.lastI == lastI)
    decreases |qs| - j
  {
    if |qs| <= j {
    } else {
      if Skip(qs[Looking(test, lastI, j)]) {
        PullKeeps(test, qs, o, a, lastI, bad, j + 1);
      } else if !Skip(qs[j]) && j < bad {
        PullKeeps(test, qs[j := Hold(qs[j], o.rows(a, qs[j].Text()))], o, a, lastI, bad, j + 1);
      }
    }
  }

  /** Attempts from lastI on, until one meets no failure. Each failure moves lastI on. */
  function Run(test: Test, qs: Queries, o: Reads, a: nat, lastI: nat): Queries
    requires AllReceived(qs) && lastI <= |qs|
    decreases |qs| - lastI
  {
    var r := Pull(test, qs, o, a, lastI, FirstBad(qs, o, a, lastI), lastI);
    PullKeeps(test, qs, o, a, lastI, FirstBad(qs, o, a, lastI), lastI);
    if r.failed then Run(test, r.qs, o, a + 1, r.lastI) else r.qs
  }

  // ---- the reference: one query after the other ----

  /** Sends the queries from j on one by one; a failure starts the next attempt. */
  function OneByOne(qs: Queries, o: Reads, a: nat, j: nat): (r: Queries)
    requires AllReceived(qs) && j <= |qs|
    ensures |r| == |qs|
    decreases |qs| - j
  {
    if j == |qs| then qs
    else if Skip(qs[j]) then OneByOne(qs, o, a, j + 1)
    else if o.ok(a, j) then OneByOne(qs[j := Hold(qs[j], o.rows(a, qs[j].Text()))], o, a, j + 1)
    else OneByOne(qs[j := Flag(qs[j], o.why(a, j))], o, a + 1, j + 1)
  }

  /** The attempt in which query j gets its answer: one more for each failure before it. */
  function AttemptOf(qs: Queries, o: Reads, j: nat): nat
    requires AllReceived(qs) && j <= |qs|
  {
    if j == 0 then 0
    else
      var a := AttemptOf(qs, o, j - 1);
      if !Skip(qs[j - 1]) && !o.ok(a, j - 1) then a + 1 else a
  }

  /** What query j must hold in the end: nothing new if it was never to be sent, else its own rows
      or its own error. */
  function Answer(qs: Queries, o: Reads, j: nat): ZmqQuery
    requires AllReceived(qs) && j < |qs|
  {
    var q, a := qs[j], AttemptOf(qs, o, j);
    if Skip(q) then q
    else if o.ok(a, j) then Hold(q, o.rows(a, q.Text()))
    else Flag(q, o.why(a, j))
  }

  lemma {:induction false} OneByOneAnswers(qs: Queries, now: Queries, o: Reads, j: nat)
    requires AllReceived(qs) && AllReceived(now) && |now| == |qs| && j <= |qs|
    requires forall k :: 0 <= k < j ==> now[k] == Answer(qs, o, k)
    requires forall k :: j <= k < |qs| ==> now[k] == qs[k]
    ensures forall k :: 0 <= k < |qs| ==> OneByOne(now, o, AttemptOf(qs, o, j), j)[k] == Answer(qs, o, k)
    decreases |qs| - j
  {
    if |qs| <= j {
    } else {
      OneByOneAnswers(qs, now[j := Answer(qs, o, j)], o, j + 1);
      assert now[j := now[j]] == now;
    }
  }

  // ---- as meant ----

  /** One attempt of the meant loop does what the one-by-one loop does up to the failure. */
  lemma {:induction false} PullIsOneByOne(qs: Queries, o: Reads, a: nat, lastI: nat, bad: nat, j: nat)
    requires AllReceived(qs) && lastI <= j <= bad <= |qs|
    requires forall k :: j <= k < bad ==> Skip(qs[k]) || o.ok(a, k)
    requires bad < |qs| ==> !Skip(qs[bad]) && !o.ok(a, bad)
    ensures var r := Pull(Meant, qs, o, a, lastI, bad, j);
      && AllReceived(r.qs) && |r.qs| == |qs| && r.lastI <= |qs|
      && OneByOne(qs, o, a, j) == if r.failed then OneByOne(r.qs, o, a + 1, r.lastI) else r.qs
    decreases |qs| - j
  {
    if bad <= j {
    } else {
      var held := if Skip(qs[j]) then qs else qs[j := Hold(qs[j], o.rows(a, qs[j].Text()))];
      PullIsOneByOne(held, o, a, lastI, bad, j + 1);
    }
  }

  lemma {:induction false} MeantIsOneByOne(qs: Queries, o: Reads, a: nat, lastI: nat)
    requires AllReceived(qs) && lastI <= |qs|
    ensures Run(Meant, qs, o, a, lastI) == OneByOne(qs, o, a, lastI)
    decreases |qs| - lastI
  {
    var bad := FirstBad(qs, o, a, lastI);
    PullIsOneByOne(qs, o, a, lastI, bad, lastI);
    PullKeeps(Meant, qs, o, a, lastI, bad, lastI);
    var r := Pull(Meant, qs, o, a, lastI, bad, lastI);
    if r.failed { MeantIsOneByOne(r.qs, o, a + 1, r.lastI); }
  }

  /** The meant loop leaves every query as it was, or with the rows of its own text, or with its own
      error, whatever else fails before or after it. */
  lemma MeantAnswersAll(qs: Queries, o: Reads)
    requires AllReceived(qs)
    ensures |Run(Meant, qs, o, 0, 0)| == |qs|
    ensures forall k :: 0 <= k < |qs| ==> Run(Meant, qs, o, 0, 0)[k] == Answer(qs, o, k)
  {
    MeantIsOneByOne(qs, o, 0, 0);
    OneByOneAnswers(qs, qs, o, 0);
  }

  // ---- as written ----

  lemma {:induction false} FirstAttemptSame(qs: Queries, o: Reads, a: nat, bad: nat, j: nat)
    requires AllReceived(qs) && j <= |qs|
    ensures Pull(Literal, qs, o, a, 0, bad, j) == Pull(Meant, qs, o, a, 0, bad, j)
    decreases |qs| - j
  {
    if |qs| <= j {
    } else {
      FirstAttemptSame(qs, o, a, bad, j + 1);
      FirstAttemptSame(qs[j := Hold(qs[j], o.rows(a, qs[j].Text()))], o, a, bad, j + 1);
    }
  }

  lemma {:induction false} NothingToPull(qs: Queries, o: Reads, a: nat, lastI: nat, bad: nat, j: nat)
    requires AllReceived(qs) && lastI <= j <= |qs| && forall k :: 0 <= k < |qs| ==> Skip(qs[k])
    ensures Pull(Literal, qs, o, a, lastI, bad, j) == Pulled(qs, lastI, false)
    ensures OneByOne(qs, o, a, j) == qs
    decreases |qs| - j
  {
    if |qs| <= j {
    } else {
      NothingToPull(qs, o, a, lastI, bad, j + 1);
    }
  }

  lemma {:induction false} PullSkips(test: Test, qs: Queries, o: Reads, a: nat, lastI: nat, bad: nat, j: nat, k: nat)
    requires AllReceived(qs) && lastI <= j <= |qs| && o.Valid() && k < |qs| && Skip(qs[k])
    ensures var r := Pull(test, qs, o, a, lastI, bad, j); |r.qs| == |qs| && r.qs[k].Received() && Skip(r.qs[k])
    decreases |qs| - j
  {
    if |qs| <= j {
    } else {
      if Skip(qs[Looking(test, lastI, j)]) {
        PullSkips(test, qs, o, a, lastI, bad, j + 1, k);
      } else if !Skip(qs[j]) && j < bad {
        PullSkips(test, qs[j := Hold(qs[j], o.rows(a, qs[j].Text()))], o, a, lastI, bad, j + 1, k);
      }
    }
  }

  /** The query that a meant attempt stops at was to be sent, and holds an error afterwards. */
  lemma {:induction false} PullFlags(qs: Queries, o: Reads, a: nat, lastI: nat, bad: nat, j: nat)
    requires AllReceived(qs) && lastI <= j <= |qs| && o.Valid()
    ensures var r := Pull(Meant, qs, o, a, lastI, bad, j);
      r.failed ==> j < r.lastI <= |qs| == |r.qs| && !Skip(qs[r.lastI - 1]) && r.qs[r.lastI - 1].err != ""
    decreases |qs| - j
  {
    if |qs| <= j {
    } else {
      if Skip(qs[j]) {
        PullFlags(qs, o, a, lastI, bad, j + 1);
      } else if j < bad {
        PullFlags(qs[j := Hold(qs[j], o.rows(a, qs[j].Text()))], o, a, lastI, bad, j + 1);
      }
    }
  }

  ghost predicate AtMostOneRead(qs: Queries)
    requires AllReceived(qs)
  {
    forall i, j :: 0 <= i < |qs| && 0 <= j < |qs| && !Skip(qs[i]) && !Skip(qs[j]) ==> i == j
  }

  lemma SingleReadRight(qs: Queries, o: Reads)
    requires AllReceived(qs) && AtMostOneRead(qs) && o.Valid()
    ensures Run(Literal, qs, o, 0, 0) == OneByOne(qs, o, 0, 0)
  {
    var bad := FirstBad(qs, o, 0, 0);
    FirstAttemptSame(qs, o, 0, bad, 0);
    PullIsOneByOne(qs, o, 0, 0, bad, 0);
    PullFlags(qs, o, 0, 0, bad, 0);
    PullKeeps(Meant, qs, o, 0, 0, bad, 0);
    var r := Pull(Meant, qs, o, 0, 0, bad, 0);
    if r.failed {
      forall k | 0 <= k < |qs| ensures Skip(r.qs[k]) {
        if Skip(qs[k]) { PullSkips(Meant, qs, o, 0, 0, bad, 0, k); }
      }
      NothingToPull(r.qs, o, 1, r.lastI, FirstBad(r.qs, o, 1, r.lastI), r.lastI);
    }
  }

  lemma {:induction false} RunKeeps(test: Test, qs: Queries, o: Reads, a: nat, lastI: nat, k: nat)
    requires AllReceived(qs) && k < lastI <= |qs|
    ensures |Run(test, qs, o, a, lastI)| == |qs| && Run(test, qs, o, a, lastI)[k] == qs[k]
    decreases |qs| - lastI
  {
    var bad := FirstBad(qs, o, a, lastI);
    PullKeeps(test, qs, o, a, lastI, bad, lastI);
    var r := Pull(test, qs, o, a, lastI, bad, lastI);
    if r.failed { RunKeeps(test, r.qs, o, a + 1, r.lastI, k); }
  }

  /** In the first attempt only query f fails, nothing after; rows are returned for every text. */
  function FailOnce(f: nat, rows: seq<Row>): Reads {
    Reads((a, j) => !(a == 0 && j == f), (a, s) => rows, (a, j) => "failed")
  }

  lemma {:induction false} PullsTo(qs: Queries, o: Reads, lastI: nat, bad: nat, j: nat, f: nat)
    requires AllReceived(qs) && lastI == 0 && j <= f < |qs| && bad == f && !Skip(qs[f])
    requires forall k :: j <= k < f ==> Skip(qs[k])
    ensures Pull(Literal, qs, o, 0, 0, bad, j) == Pulled(qs[f := Flag(qs[f], o.why(0, f))], f + 1, true)
    decreases f - j
  {
    if f <= j {
    } else {
      PullsTo(qs, o, lastI, bad, j + 1, f);
    }
  }

  /** While the test looks at queries that are to be skipped, nothing is retrieved. */
  lemma {:induction false} PassesOver(qs: Queries, o: Reads, a: nat, lastI: nat, bad: nat, j: nat, q: nat)
    requires AllReceived(qs) && lastI <= j <= q < |qs|
    requires forall k :: 0 <= k <= q - lastI ==> Skip(qs[k])
    ensures Pull(Literal, qs, o, a, lastI, bad, j) == Pull(Literal, qs, o, a, lastI, bad, q + 1)
    decreases q - j
  {
    if q <= j {
    } else {
      PassesOver(qs, o, a, lastI, bad, j + 1, q);
    }
  }

  /** The attempt in which query f fails. */
  lemma AttemptFails(qs: Queries, o: Reads, f: nat)
    requires AllReceived(qs) && f < |qs| && !Skip(qs[f]) && !o.ok(0, f)
    requires forall k :: 0 <= k < f ==> Skip(qs[k])
    ensures Run(Literal, qs, o, 0, 0) == Run(Literal, qs[f := Flag(qs[f], o.why(0, f))], o, 1, f + 1)
  {
    hide Pull, Skip;
    assert FirstBad(qs, o, 0, 0) == f;
    PullsTo(qs, o, 0, f, 0, f);
  }

  /** The second query that goes to the database is never answered if the first one fails. */
  lemma SecondReadLost(qs: Queries, f: nat, q: nat, rows: seq<Row>)
    requires AllReceived(qs) && f < q < |qs| && !Skip(qs[f]) && !Skip(qs[q])
    requires forall k :: 0 <= k < q && k != f ==> Skip(qs[k])
    ensures |Run(Literal, qs, FailOnce(f, rows), 0, 0)| == |qs|
    ensures Run(Literal, qs, FailOnce(f, rows), 0, 0)[q] == qs[q]
  {
    var o := FailOnce(f, rows);
    AttemptFails(qs, o, f);
    var qs1 := qs[f := Flag(qs[f], o.why(0, f))];
    var bad1 := FirstBad(qs1, o, 1, f + 1);
    PassesOver(qs1, o, 1, f + 1, bad1, f + 1, q);
    PullKeeps(Literal, qs1, o, 1, f + 1, bad1, q + 1);
    var r := Pull(Literal, qs1, o, 1, f + 1, bad1, f + 1);
    if r.failed { RunKeeps(Literal, r.qs, o, 2, r.lastI, q); }
  }

  lemma {:induction false} FirstRead(qs: Queries, n: nat) returns (f: nat)
    requires AllReceived(qs) && n <= |qs| && exists k :: n <= k < |qs| && !Skip(qs[k])
    ensures n <= f < |qs| && !Skip(qs[f]) && forall k :: n <= k < f ==> Skip(qs[k])
    decreases |qs| - n
  {
    if !Skip(qs[n]) { f := n; } else { f := FirstRead(qs, n + 1); }
  }

  lemma TwoReadsBreak(qs: Queries) returns (o: Reads)
    requires AllReceived(qs) && !AtMostOneRead(qs)
    ensures o.Valid() && Run(Literal, qs, o, 0, 0) != OneByOne(qs, o, 0, 0)
  {
    var i, j :| 0 <= i < |qs| && 0 <= j < |qs| && !Skip(qs[i]) && !Skip(qs[j]) && i != j;
    var f := FirstRead(qs, 0);
    assert (f < i && !Skip(qs[i])) || (f < j && !Skip(qs[j]));
    var q := FirstRead(qs, f + 1);
    var rows := qs[q].result + [[Field("id", 23, "1")]];
    o := FailOnce(f, rows);
    SecondReadLost(qs, f, q, rows);
    OneByOneAnswers(qs, qs, o, 0);
    assert OneByOne(qs, o, 0, 0)[q] == Answer(qs, o, q);
  }

  /** As written, the loop answers every query under every pattern of failures if and only if at
      most one query of the batch goes to the database. */
  lemma LiteralReadIff(qs: Queries)
    requires AllReceived(qs)
    ensures AtMostOneRead(qs) <==>
      forall o: Reads :: o.Valid() ==> Run(Literal, qs, o, 0, 0) == OneByOne(qs, o, 0, 0)
  {
    if AtMostOneRead(qs) {
      forall o: Reads | o.Valid() ensures Run(Literal, qs, o, 0, 0) == OneByOne(qs, o, 0, 0) {
        SingleReadRight(qs, o);
      }
    } else {
      var o := TwoReadsBreak(qs);
    }
  }

  /** If nothing fails, both tests come to the same. */
  lemma QuietReadsRight(qs: Queries, o: Reads)
    requires AllReceived(qs) && forall a: nat, j: nat :: o.ok(a, j)
    ensures Run(Literal, qs, o, 0, 0) == OneByOne(qs, o, 0, 0)
  {
    var bad := FirstBad(qs, o, 0, 0);
    FirstAttemptSame(qs, o, 0, bad, 0);
    PullIsOneByOne(qs, o, 0, 0, bad, 0);
    QuietPull(qs, o, bad, 0);
  }

  lemma {:induction false} QuietPull(qs: Queries, o: Reads, bad: nat, j: nat)
    requires AllReceived(qs) && j <= |qs| == bad
    ensures !Pull(Meant, qs, o, 0, 0, bad, j).failed
    decreases |qs| - j
  {
    if |qs| <= j {
    } else {
      QuietPull(qs, o, bad, j + 1);
      QuietPull(qs[j := Hold(qs[j], o.rows(0, qs[j].Text()))], o, bad, j + 1);
    }
  }

  // ---- the loop itself ----

  class ReadJob {
    var queries: Queries
    /** A 16-bit counter. */
    var lastI: nat
    var pipelineError: bool

    constructor (qs: Queries)
      ensures queries == qs && lastI == 0 && !pipelineError
    {
      queries, lastI, pipelineError := qs, 0, false;
    }

    /** The ids that inserting the queries from lastI on yields: 0 for a query that is not sent. */
    method InsertAll() returns (ids: seq<nat>)
      requires AllReceived(queries) && lastI <= |queries|
      ensures |ids| == |queries| - lastI
      ensures forall i :: 0 <= i < |ids| ==> (ids[i] == 0 <==> Skip(queries[lastI + i]))
    {
      ids := [];
      var i := lastI;
      while i < |queries|
        invariant lastI <= i <= |queries| && |ids| == i - lastI
        invariant forall k :: 0 <= k < |ids| ==> (ids[k] == 0 <==> Skip(queries[lastI + k]))
      {
        ids := ids + [if Skip(queries[i]) then 0 else i + 1];
        i := i + 1;
      }
    }

    /** Retrieves the result of query lastI + i, unless the test passes it over. */
    method PullOne(test: Test, o: Reads, a: nat, bad: nat, i: nat, id: nat)
      requires AllReceived(queries) && lastI + i < |queries| < 0x1_0000 && !pipelineError
      requires id == 0 <==> Skip(queries[lastI + i])
      modifies this
      ensures |queries| == |old(queries)| && AllReceived(queries)
      ensures forall k :: old(lastI) + i < k < |queries| ==> queries[k] == old(queries)[k]
      ensures !pipelineError ==> lastI == old(lastI)
      ensures Pull(test, old(queries), o, a, old(lastI), bad, old(lastI) + i) ==
              if pipelineError then Pulled(queries, lastI, true)
              else Pull(test, queries, o, a, lastI, bad, lastI + i + 1)
    {
      hide Skip, FirstBad, Pull;
      var j := lastI + i;
      PullStep(test, queries, o, a, lastI, bad, j);
      if !Skip(queries[Looking(test, lastI, j)]) {
        if id != 0 && j < bad {
          queries := queries[j := Hold(queries[j], o.rows(a, queries[j].Text()))];
        } else {
          queries := queries[j := Flag(queries[j], o.why(a, j))];
          pipelineError := true;
          lastI := (lastI + i + 1) % 0x1_0000;
        }
      }
    }

    method PullAll(test: Test, o: Reads, a: nat, ids: seq<nat>)
      requires AllReceived(queries) && lastI <= |queries| < 0x1_0000 && |ids| == |queries| - lastI
      requires forall i :: 0 <= i < |ids| ==> (ids[i] == 0 <==> Skip(queries[lastI + i]))
      modifies this
      ensures Pulled(queries, lastI, pipelineError) ==
              Pull(test, old(queries), o, a, old(lastI), FirstBad(old(queries), o, a, old(lastI)), old(lastI))
    {
      hide Skip, Hold, Flag, FirstBad, Pull;
      ghost var qs := queries;
      var bad := FirstBad(queries, o, a, lastI);
      pipelineError := false;
      var i := 0;
      while i < |ids| && !pipelineError
        invariant 0 <= i <= |ids| && |queries| == |qs| && AllReceived(queries)
        invariant forall k :: old(lastI) + i <= k < |qs| ==> queries[k] == qs[k]
        invariant !pipelineError ==> lastI == old(lastI)
        invariant Pull(test, qs, o, a, old(lastI), bad, old(lastI)) ==
                  if pipelineError then Pulled(queries, lastI, true)
                  else Pull(test, queries, o, a, lastI, bad, lastI + i)
      {
        PullOne(test, o, a, bad, i, ids[i]);
        i := i + 1;
      }
      if !pipelineError { PullEnds(test, queries, o, a, lastI, bad); }
    }

    /** Attempts follow one another until one meets no failure. */
    method ReadBatch(test: Test, o: Reads)
      requires AllReceived(queries) && |queries| < 0x1_0000 && lastI == 0
      modifies this
      ensures queries == Run(test, old(queries), o, 0, 0)
    {
      ghost var qs := queries;
      var a: nat := 0;
      while true
        invariant AllReceived(queries) && lastI <= |queries| == |qs|
        invariant Run(test, queries, o, a, lastI) == Run(test, qs, o, 0, 0)
        decreases |queries| - lastI
      {
        PullKeeps(test, queries, o, a, lastI, FirstBad(queries, o, a, lastI), lastI);
        var ids := InsertAll();
        PullAll(test, o, a, ids);
        if !pipelineError { break; }
        a := a + 1;
      }
    }
  }
}
