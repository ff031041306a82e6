/** A write batch carried from the split through the retry loop to the replies: a query is told that
    it succeeded exactly when its own statement is in the committed log. */
module Acknowledgement {
  import opened Options
  import opened Workload
  import opened Database
  import opened RetryLoop
  import opened Messages
  import opened WriteSplit
  import opened ResultDealing
  import opened SplitMerge

  /** A write batch as the receiver left it, and the buffer that the write worker's job structure
      still has in hand. */
  datatype Filed = Filed(qs: Queries, out: Option<Table>)

  /** Received queries without an error so far and with non-empty texts. */
  ghost predicate Sound(b: Filed, unzip: Unzip) {
    && AllReceived(b.qs)
    && (forall i :: 0 <= i < |b.qs| ==> b.qs[i].err == "" && (Decodes(b.qs, unzip, i) ==> TextAt(b.qs, unzip, i) != ""))
  }

  ghost predicate AllSound(bs: seq<Filed>, unzip: Unzip) {
    forall i :: 0 <= i < |bs| ==> AllReceived(bs[i].qs) && Sound(bs[i], unzip)
  }

  ghost predicate ErrorsHaveTexts(unzip: Unzip) {
    forall s :: unzip(s).Bad? ==> unzip(s).why != ""
  }

  /** The indices of the queries in the array of table t. */
  function Members(b: Filed, unzip: Unzip, t: Table): seq<nat>
    requires AllReceived(b.qs)
  {
    Routed(b.qs, unzip, b.out, t, |b.qs|)
  }

  /** What the database job sees of the batch. */
  function ShapeOf(b: Filed, unzip: Unzip): Shape
    requires AllReceived(b.qs)
  {
    Shape(|GenericIndices(b.qs, unzip, |b.qs|)|,
          set t | t in TABLES && ArrayOf(WriteSplit.Elements(b.qs, unzip, b.out, t, |b.qs|)) != "")
  }

  function ShapesOf(bs: seq<Filed>, unzip: Unzip): (shapes: seq<Shape>)
    requires forall i :: 0 <= i < |bs| ==> AllReceived(bs[i].qs)
    ensures |shapes| == |bs| && forall i :: 0 <= i < |bs| ==> shapes[i] == ShapeOf(bs[i], unzip)
  {
    if bs == [] then [] else ShapesOf(bs[..|bs| - 1], unzip) + [ShapeOf(bs[|bs| - 1], unzip)]
  }

  /** A statement that inserts an array returns one number for each element; alarms return none. */
  ghost predicate OneNumberEach(o: Oracle, bs: seq<Filed>, unzip: Unzip)
    requires forall i :: 0 <= i < |bs| ==> AllReceived(bs[i].qs)
  {
    forall p: nat, i: nat, t: Table :: i < |bs| ==>
      |o.numbers(p, Insert(i, t))| == if t == Alarm then 0 else |Members(bs[i], unzip, t)|
  }

  /** What the database job leaves in the batch for one table. */
  function OutcomeOf(job: Job, tx: Tx, i: nat, t: Table, why: Unit -> string): Outcome
    requires i < |job.batches|
  {
    if t !in job.batches[i].tables then Stored([])
    else if Insert(i, t) in tx.flagged then Refused(why(Insert(i, t)))
    else Stored(Get(tx.nums, Insert(i, t)))
  }

  function OutcomesOf(job: Job, tx: Tx, i: nat, why: Unit -> string): Outcomes
    requires i < |job.batches|
  {
    map t | t in TABLES :: OutcomeOf(job, tx, i, t, why)
  }

  /** The position of query k among the generic queries of its batch. */
  function GenericPlace(b: Filed, unzip: Unzip, k: nat): nat
    requires AllReceived(b.qs) && k < |b.qs|
  {
    |GenericIndices(b.qs, unzip, k)|
  }

  /** The statement that carries query k of batch i, if any does. */
  function OwnUnit(b: Filed, unzip: Unzip, i: nat, k: nat): Option<Unit>
    requires AllReceived(b.qs) && k < |b.qs|
  {
    if !Decodes(b.qs, unzip, k) then None
    else match TopicAt(b.qs, k)
      case Batched(t) => Some(Insert(i, t))
      case Generics => Some(Generic(i, GenericPlace(b, unzip, k)))
      case Unknown => None
  }

  /** The rows that a generic query returns, by the pass that sends it. */
  type Results = (nat, Unit) -> seq<Row>

  /** Query k of batch i after the database job: a generic query holds the result of the pass that sent
      it last, or its error. */
  function AfterJob(b: Filed, unzip: Unzip, tx: Tx, i: nat, k: nat, why: Unit -> string, results: Results): ZmqQuery
    requires AllReceived(b.qs) && k < |b.qs|
  {
    var q := Looked(b.qs[k], unzip);
    var u := Generic(i, GenericPlace(b, unzip, k));
    if !Decodes(b.qs, unzip, k) || !TopicAt(b.qs, k).Generics? then q
    else if u in tx.flagged then q.(err := why(u), result := [])
    else if u in tx.ran then q.(result := results(tx.ran[u], u))
    else q
  }

  /** The reply to query k of batch i. */
  function ReplyTo(job: Job, b: Filed, unzip: Unzip, tx: Tx, i: nat, k: nat,
                   why: Unit -> string, results: Results, lib: Library): ZmqQuery
    requires AllReceived(b.qs) && k < |b.qs| && i < |job.batches|
  {
    var q, os := AfterJob(b, unzip, tx, i, k, why, results), OutcomesOf(job, tx, i, why);
    LookedSame(b.qs[k], unzip);
    OutcomesComplete(job, tx, i, why);
    WriteReply(q, AllNumbers(os), AllErrors(os), lib, Place(b.qs, k))
  }

  lemma OutcomesComplete(job: Job, tx: Tx, i: nat, why: Unit -> string)
    requires i < |job.batches|
    ensures forall t: Table :: t in OutcomesOf(job, tx, i, why)
  {
    forall t: Table ensures t in TABLES { TablesComplete(t); }
  }

  // ---- an array is present exactly if it has members ----

  lemma {:induction false} FilledLong(texts: seq<string>)
    requires forall k :: 0 <= k < |texts| ==> texts[k] != ""
    ensures |Filled(texts)| == 1 <==> texts == []
    ensures |Filled(texts)| >= 1
  {
    if texts == [] {
    } else {
      FilledLong(texts[..|texts| - 1]);
    }
  }

  lemma Present(b: Filed, unzip: Unzip, t: Table)
    requires Sound(b, unzip)
    ensures t in ShapeOf(b, unzip).tables <==> Members(b, unzip, t) != []
  {
    var idx := Members(b, unzip, t);
    RoutedExact(b.qs, unzip, b.out, t, |b.qs|);
    forall k | 0 <= k < |idx| ensures Texts(b.qs, unzip, idx)[k] != "" {
      assert idx[k] in idx;
      assert Target(b.qs, unzip, b.out, idx[k]) == Some(t);
    }
    FilledLong(Texts(b.qs, unzip, idx));
    TablesComplete(t);
  }

  lemma {:induction false} GenericPrefix(qs: Queries, unzip: Unzip, k: nat, n: nat)
    requires AllReceived(qs) && k <= n <= |qs|
    ensures GenericIndices(qs, unzip, k) <= GenericIndices(qs, unzip, n)
  {
    if n <= k {
    } else {
      GenericPrefix(qs, unzip, k, n - 1);
    }
  }

  lemma GenericAt(qs: Queries, unzip: Unzip, k: nat, n: nat)
    requires AllReceived(qs) && k < n <= |qs| && Decodes(qs, unzip, k) && TopicAt(qs, k).Generics?
    ensures |GenericIndices(qs, unzip, k)| < |GenericIndices(qs, unzip, n)|
    ensures GenericIndices(qs, unzip, n)[|GenericIndices(qs, unzip, k)|] == k
  {
    GenericPrefix(qs, unzip, k + 1, n);
    assert GenericIndices(qs, unzip, k + 1) == GenericIndices(qs, unzip, k) + [k];
  }

  // ---- the job ----

  /** The end of the retry loop on these batches. */
  ghost function Outcome(job: Job, o: Oracle): Tx
    requires o.Valid()
  {
    Run(UnitsOf(job), o, 0, Start(UnitsOf(job))).tx
  }

  ghost predicate Carries(job: Job, bs: seq<Filed>, unzip: Unzip)
    requires forall i :: 0 <= i < |bs| ==> AllReceived(bs[i].qs)
  {
    job.batches == ShapesOf(bs, unzip)
  }

  /** The entry that committed an unflagged statement. */
  lemma CommittedEntry(job: Job, o: Oracle, u: Unit) returns (e: Entry)
    requires o.Valid() && IsUnit(job, u) && u !in Outcome(job, o).flagged
    ensures e in Outcome(job, o).committed && e.u == u && Get(Outcome(job, o).nums, u) == o.numbers(e.pass, u)
    ensures u in Outcome(job, o).ran && Outcome(job, o).ran[u] == e.pass
    ensures forall other :: other in Outcome(job, o).committed && other.u == u ==> other == e
  {
    ExactlyOnceCommit(job, o);
    NumbersOfCommittingPass(job, o);
    var tx := Outcome(job, o);
    TimesHas(tx.committed, u);
    e :| e in tx.committed && e.u == u;
  }

  lemma CommittedIff(job: Job, o: Oracle, u: Unit)
    requires o.Valid() && IsUnit(job, u)
    ensures Times(Outcome(job, o).committed, u) == if u in Outcome(job, o).flagged then 0 else 1
  {
    ExactlyOnceCommit(job, o);
  }

  lemma OutcomesPossible(job: Job, bs: seq<Filed>, unzip: Unzip, o: Oracle, i: nat, why: Unit -> string)
    requires o.Valid() && i < |bs| && AllSound(bs, unzip)
    requires Carries(job, bs, unzip) && OneNumberEach(o, bs, unzip) && forall u :: why(u) != ""
    ensures Possible(OutcomesOf(job, Outcome(job, o), i, why), bs[i].qs, unzip, bs[i].out)
  {
    var tx := Outcome(job, o);
    OutcomesComplete(job, tx, i, why);
    forall t: Table
      ensures Fitting(OutcomeOf(job, tx, i, t, why), t, |Members(bs[i], unzip, t)|)
    {
      Present(bs[i], unzip, t);
      if t in job.batches[i].tables && Insert(i, t) !in tx.flagged {
        var e := CommittedEntry(job, o, Insert(i, t));
      }
    }
  }

  /** The statement is in the committed log, once; and the rows that its committing pass returned, if
      it is a generic query, can be read. */
  ghost predicate Committed(tx: Tx, u: Unit, results: Results, lib: Library) {
    && Times(tx.committed, u) == 1
    && (u.Generic? ==> forall e :: e in tx.committed && e.u == u ==> AllReadable(results(e.pass, u), lib))
  }

  /** Success is reported exactly to the queries whose own statement is in the committed log; any
      number reported is the one that the committing pass gave to the query's own element. */
  ghost predicate Acknowledged(b: Filed, unzip: Unzip, o: Oracle, tx: Tx, i: nat, k: nat,
                               results: Results, lib: Library, reply: ZmqQuery)
    requires AllReceived(b.qs) && k < |b.qs|
  {
    var own := OwnUnit(b, unzip, i, k);
    && |reply.parts| >= 3
    && reply.parts[0] == b.qs[k].parts[0] && reply.parts[1] == b.qs[k].parts[1]
    && (reply.Succeeded() <==> own.Some? && Committed(tx, own.value, results, lib))
    && (reply.Succeeded() && own.value.Insert? && own.value.table != Alarm ==>
          exists e, m :: e in tx.committed && e.u == own.value
            && 0 <= m < |o.numbers(e.pass, e.u)| && m < |Members(b, unzip, own.value.table)|
            && Members(b, unzip, own.value.table)[m] == k
            && reply.parts[3..] == [U16(o.numbers(e.pass, e.u)[m])])
  }

  /** The outcome that the job leaves for a table tells what is in the log. */
  ghost predicate Truthful(outcome: Outcome, o: Oracle, tx: Tx, u: Unit) {
    && (outcome.Stored? <==> Times(tx.committed, u) == 1)
    && (outcome.Stored? ==> exists e :: e in tx.committed && e.u == u && outcome.numbers == o.numbers(e.pass, u))
  }

  lemma OutcomeTruthful(job: Job, o: Oracle, i: nat, t: Table, why: Unit -> string)
    requires o.Valid() && i < |job.batches| && t in job.batches[i].tables
    ensures Truthful(OutcomeOf(job, Outcome(job, o), i, t, why), o, Outcome(job, o), Insert(i, t))
  {
    var tx, u := Outcome(job, o), Insert(i, t);
    assert IsUnit(job, u);
    ExactlyOnceCommit(job, o);
    if u !in tx.flagged {
      var e := CommittedEntry(job, o, u);
    }
  }

  lemma InsertAcknowledged(job: Job, b: Filed, unzip: Unzip, o: Oracle, tx: Tx, i: nat, k: nat,
                           why: Unit -> string, results: Results, lib: Library, t: Table)
    requires AllReceived(b.qs) && i < |job.batches| && k < |b.qs| && TopicAt(b.qs, k) == Batched(t)
    requires Possible(OutcomesOf(job, tx, i, why), b.qs, unzip, b.out) && Clean(b.qs, unzip, b.out)
    requires Decodes(b.qs, unzip, k) ==> Truthful(OutcomeOf(job, tx, i, t, why), o, tx, Insert(i, t))
    ensures Acknowledged(b, unzip, o, tx, i, k, results, lib,
                         ReplyTo(job, b, unzip, tx, i, k, why, results, lib))
  {
    var os := OutcomesOf(job, tx, i, why);
    OutcomesComplete(job, tx, i, why);
    LookedSame(b.qs[k], unzip);
    WriteAddress(Looked(b.qs[k], unzip), AllNumbers(os), AllErrors(os), lib, Place(b.qs, k));
    CleanDeserved(os, b.qs, unzip, b.out, lib, k);
    assert os[t] == OutcomeOf(job, tx, i, t, why);
    var reply := ReplyTo(job, b, unzip, tx, i, k, why, results, lib);
    if Decodes(b.qs, unzip, k) && reply.Succeeded() && t != Alarm {
      var e :| e in tx.committed && e.u == Insert(i, t) && os[t].numbers == o.numbers(e.pass, e.u);
      var m :| 0 <= m < |Members(b, unzip, t)| && m < |os[t].numbers| && Members(b, unzip, t)[m] == k
        && reply.parts[3..] == [U16(os[t].numbers[m])];
    }
  }

  lemma BatchedAcknowledged(job: Job, bs: seq<Filed>, unzip: Unzip, o: Oracle, i: nat, k: nat,
                            why: Unit -> string, results: Results, lib: Library, t: Table)
    requires o.Valid() && i < |bs| && AllSound(bs, unzip)
    requires Carries(job, bs, unzip) && OneNumberEach(o, bs, unzip) && forall u :: why(u) != ""
    requires Clean(bs[i].qs, unzip, bs[i].out) && k < |bs[i].qs| && TopicAt(bs[i].qs, k) == Batched(t)
    ensures Acknowledged(bs[i], unzip, o, Outcome(job, o), i, k, results, lib,
                         ReplyTo(job, bs[i], unzip, Outcome(job, o), i, k, why, results, lib))
  {
    var b := bs[i];
    OutcomesPossible(job, bs, unzip, o, i, why);
    if Decodes(b.qs, unzip, k) {
      HasArray(b, unzip, k, t);
      OutcomeTruthful(job, o, i, t, why);
    }
    InsertAcknowledged(job, b, unzip, o, Outcome(job, o), i, k, why, results, lib, t);
  }

  lemma HasArray(b: Filed, unzip: Unzip, k: nat, t: Table)
    requires Sound(b, unzip) && k < |b.qs| && TopicAt(b.qs, k) == Batched(t) && Decodes(b.qs, unzip, k)
    ensures t in ShapeOf(b, unzip).tables && Members(b, unzip, t) != []
  {
    OwnTarget(b.qs, unzip, b.out, k);
    RoutedExact(b.qs, unzip, b.out, t, |b.qs|);
    assert k in Members(b, unzip, t);
    Present(b, unzip, t);
  }

  lemma GenericAfterJob(b: Filed, unzip: Unzip, tx: Tx, i: nat, k: nat, why: Unit -> string, results: Results)
    requires Sound(b, unzip) && ErrorsHaveTexts(unzip) && forall u :: why(u) != ""
    requires k < |b.qs| && TopicAt(b.qs, k).Generics?
    ensures var q := AfterJob(b, unzip, tx, i, k, why, results);
      && q.Received() && q.parts == b.qs[k].parts && TopicOf(q.Letter()).Generics?
      && (q.err == "" <==> Decodes(b.qs, unzip, k) && Generic(i, GenericPlace(b, unzip, k)) !in tx.flagged)
  {
    LookedSame(b.qs[k], unzip);
  }

  lemma GenericIsUnit(job: Job, bs: seq<Filed>, unzip: Unzip, i: nat, k: nat)
    requires i < |bs| && AllSound(bs, unzip) && Carries(job, bs, unzip)
    requires k < |bs[i].qs| && TopicAt(bs[i].qs, k).Generics? && Decodes(bs[i].qs, unzip, k)
    ensures IsUnit(job, Generic(i, GenericPlace(bs[i], unzip, k)))
  {
    GenericAt(bs[i].qs, unzip, k, |bs[i].qs|);
  }

  /** The reply to a generic query: its error, its rows, or that they cannot be read. */
  lemma GenericReply(q: ZmqQuery, numbers: map<Table, seq<nat>>, errors: map<Table, string>, lib: Library, k: nat)
    requires q.Received() && TopicOf(q.Letter()).Generics? && forall t: Table :: t in numbers && t in errors
    ensures var r := WriteReply(q, numbers, errors, lib, k);
      && |r.parts| >= 3 && r.parts[0] == q.parts[0] && r.parts[1] == q.parts[1]
      && (r.Succeeded() <==> q.err == "" && AllReadable(q.result, lib))
      && r.parts[3..] == (if r.Succeeded() then RowParts(q.result, lib)
                          else [Bytes(lib.zip(if q.err != "" then q.err else WRITE_UNREADABLE))])
  {
  }

  lemma {:induction false} GenericAcknowledged(job: Job, bs: seq<Filed>, unzip: Unzip, o: Oracle, i: nat, k: nat,
                            why: Unit -> string, results: Results, lib: Library)
    requires o.Valid() && i < |bs| && AllSound(bs, unzip)
    requires Carries(job, bs, unzip) && ErrorsHaveTexts(unzip) && forall u :: why(u) != ""
    requires k < |bs[i].qs| && TopicAt(bs[i].qs, k).Generics?
    ensures Acknowledged(bs[i], unzip, o, Outcome(job, o), i, k, results, lib,
                         ReplyTo(job, bs[i], unzip, Outcome(job, o), i, k, why, results, lib))
  {
    hide WriteReply, Outcome;
    var b, tx := bs[i], Outcome(job, o);
    var u, os := Generic(i, GenericPlace(b, unzip, k)), OutcomesOf(job, tx, i, why);
    var q := AfterJob(b, unzip, tx, i, k, why, results);
    GenericAfterJob(b, unzip, tx, i, k, why, results);
    OutcomesComplete(job, tx, i, why);
    GenericReply(q, AllNumbers(os), AllErrors(os), lib, Place(b.qs, k));
    if Decodes(b.qs, unzip, k) {
      GenericIsUnit(job, bs, unzip, i, k);
      CommittedIff(job, o, u);
      if u !in tx.flagged { var e := CommittedEntry(job, o, u); }
    }
  }

  /** For every queue of clean batches and every pattern of statement and commit failures: the
      reply to a query reports success exactly if the query's own statement is committed (and its
      rows can be read), and a reported number is the one given to its own element in the
      committing pass. */
  lemma AcknowledgementSound(job: Job, bs: seq<Filed>, unzip: Unzip, o: Oracle, i: nat, k: nat,
                             why: Unit -> string, results: Results, lib: Library)
    requires o.Valid() && i < |bs| && AllSound(bs, unzip)
    requires Carries(job, bs, unzip) && OneNumberEach(o, bs, unzip)
    requires ErrorsHaveTexts(unzip) && forall u :: why(u) != ""
    requires Clean(bs[i].qs, unzip, bs[i].out) && k < |bs[i].qs|
    ensures Acknowledged(bs[i], unzip, o, Outcome(job, o), i, k, results, lib,
                         ReplyTo(job, bs[i], unzip, Outcome(job, o), i, k, why, results, lib))
  {
    match TopicAt(bs[i].qs, k)
    case Batched(t) => BatchedAcknowledged(job, bs, unzip, o, i, k, why, results, lib, t);
    case Generics => GenericAcknowledged(job, bs, unzip, o, i, k, why, results, lib);
    case Unknown => LookedSame(bs[i].qs[k], unzip);
  }

  // ---- what a reply carries besides the success ----

  /** A generic query gets the rows that its own statement returned in the committing pass; whoever is
      told of a failure gets the error of the own statement, or that its rows could not be read; alarms
      get nothing more. */
  ghost predicate Explained(b: Filed, unzip: Unzip, tx: Tx, i: nat, k: nat,
                            why: Unit -> string, results: Results, lib: Library, reply: ZmqQuery)
    requires AllReceived(b.qs) && k < |b.qs|
  {
    var own := OwnUnit(b, unzip, i, k);
    own.Some? ==>
      && |reply.parts| >= 3
      && match own.value
         case Insert(_, t) =>
           if t == Alarm then reply.parts[3..] == []
           else !reply.Succeeded() ==> reply.parts[3..] == [Bytes(lib.zip(why(own.value)))]
         case u =>
           if reply.Succeeded() then
             exists e :: e in tx.committed && e.u == u && reply.parts[3..] == RowParts(results(e.pass, u), lib)
           else reply.parts[3..] == [Bytes(lib.zip(if u in tx.flagged then why(u) else "Error accessing query result"))]
  }

  /** No numbers for a table means that its insert failed. */
  predicate NoNumbersRefused(outcome: Outcome, u: Unit, why: Unit -> string) {
    NumbersOf(outcome) == [] ==> outcome == Refused(why(u))
  }

  lemma InsertRefused(job: Job, bs: seq<Filed>, unzip: Unzip, o: Oracle, i: nat, k: nat,
                      why: Unit -> string, t: Table)
    requires o.Valid() && i < |bs| && AllSound(bs, unzip)
    requires Carries(job, bs, unzip) && OneNumberEach(o, bs, unzip) && forall u :: why(u) != ""
    requires k < |bs[i].qs| && TopicAt(bs[i].qs, k) == Batched(t) && Decodes(bs[i].qs, unzip, k) && t != Alarm
    ensures NoNumbersRefused(OutcomeOf(job, Outcome(job, o), i, t, why), Insert(i, t), why)
  {
    var b := bs[i];
    OutcomesPossible(job, bs, unzip, o, i, why);
    HasArray(b, unzip, k, t);
    assert Fitting(OutcomesOf(job, Outcome(job, o), i, why)[t], t, |Members(b, unzip, t)|);
  }

  lemma InsertTold(job: Job, b: Filed, unzip: Unzip, tx: Tx, i: nat, k: nat,
                   why: Unit -> string, results: Results, lib: Library, t: Table)
    requires AllReceived(b.qs) && i < |job.batches| && k < |b.qs| && TopicAt(b.qs, k) == Batched(t)
    requires Decodes(b.qs, unzip, k) && t != Alarm ==>
               NoNumbersRefused(OutcomeOf(job, tx, i, t, why), Insert(i, t), why)
    ensures Explained(b, unzip, tx, i, k, why, results, lib, ReplyTo(job, b, unzip, tx, i, k, why, results, lib))
  {
    var os := OutcomesOf(job, tx, i, why);
    OutcomesComplete(job, tx, i, why);
    LookedSame(b.qs[k], unzip);
    assert os[t] == OutcomeOf(job, tx, i, t, why);
  }

  lemma InsertExplained(job: Job, bs: seq<Filed>, unzip: Unzip, o: Oracle, i: nat, k: nat,
                         why: Unit -> string, results: Results, lib: Library, t: Table)
    requires o.Valid() && i < |bs| && AllSound(bs, unzip)
    requires Carries(job, bs, unzip) && OneNumberEach(o, bs, unzip) && forall u :: why(u) != ""
    requires k < |bs[i].qs| && TopicAt(bs[i].qs, k) == Batched(t)
    ensures Explained(bs[i], unzip, Outcome(job, o), i, k, why, results, lib,
                      ReplyTo(job, bs[i], unzip, Outcome(job, o), i, k, why, results, lib))
  {
    var b := bs[i];
    if Decodes(b.qs, unzip, k) && t != Alarm { InsertRefused(job, bs, unzip, o, i, k, why, t); }
    InsertTold(job, b, unzip, Outcome(job, o), i, k, why, results, lib, t);
  }

  lemma {:induction false} GenericExplained(job: Job, bs: seq<Filed>, unzip: Unzip, o: Oracle, i: nat, k: nat,
                          why: Unit -> string, results: Results, lib: Library)
    requires o.Valid() && i < |bs| && AllSound(bs, unzip)
    requires Carries(job, bs, unzip) && ErrorsHaveTexts(unzip) && forall u :: why(u) != ""
    requires k < |bs[i].qs| && TopicAt(bs[i].qs, k).Generics?
    ensures Explained(bs[i], unzip, Outcome(job, o), i, k, why, results, lib,
                      ReplyTo(job, bs[i], unzip, Outcome(job, o), i, k, why, results, lib))
  {
    hide WriteReply, Outcome;
    var b, tx := bs[i], Outcome(job, o);
    var u, os := Generic(i, GenericPlace(b, unzip, k)), OutcomesOf(job, tx, i, why);
    var q := AfterJob(b, unzip, tx, i, k, why, results);
    GenericAfterJob(b, unzip, tx, i, k, why, results);
    OutcomesComplete(job, tx, i, why);
    GenericReply(q, AllNumbers(os), AllErrors(os), lib, Place(b.qs, k));
    if Decodes(b.qs, unzip, k) {
      GenericIsUnit(job, bs, unzip, i, k);
      if u !in tx.flagged { var e := CommittedEntry(job, o, u); }
    }
  }

  /** The rest of a reply belongs to the query's own statement, too. */
  lemma {:induction false} RepliesExplained(job: Job, bs: seq<Filed>, unzip: Unzip, o: Oracle, i: nat, k: nat,
                          why: Unit -> string, results: Results, lib: Library)
    requires o.Valid() && i < |bs| && AllSound(bs, unzip)
    requires Carries(job, bs, unzip) && OneNumberEach(o, bs, unzip)
    requires ErrorsHaveTexts(unzip) && forall u :: why(u) != ""
    requires k < |bs[i].qs|
    ensures Explained(bs[i], unzip, Outcome(job, o), i, k, why, results, lib,
                      ReplyTo(job, bs[i], unzip, Outcome(job, o), i, k, why, results, lib))
  {
    match TopicAt(bs[i].qs, k)
    case Batched(t) => InsertExplained(job, bs, unzip, o, i, k, why, results, lib, t);
    case Generics => GenericExplained(job, bs, unzip, o, i, k, why, results, lib);
    case Unknown =>
  }
}
