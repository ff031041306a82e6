/** Whole batches answered by the result workers: which batches are answered as reads and which as writes,
    by the first letter of the first topic, and what stands in the batch afterwards. */
module Dispatch {
  import opened Workload
  import opened Database
  import opened RetryLoop
  import opened Messages
  import opened WriteSplit
  import opened ResultDealing
  import opened SplitMerge
  import opened Acknowledgement
  import ReadRetry
  import ReadAcknowledgement

  /** The first character of a batch's first topic. */
  function FirstLetter(qs: Queries): char
    requires qs != [] && AllReceived(qs)
  {
    qs[0].parts[2].s[0]
  }

  // ---- reads ----

  lemma ReadsKept(qs: Queries, o: ReadRetry.Reads)
    requires AllReceived(qs)
    ensures var done := ReadRetry.Run(ReadRetry.Meant, qs, o, 0, 0);
      |done| == |qs| && AllReceived(done) && forall k :: 0 <= k < |qs| ==> done[k].parts == qs[k].parts
  {
    ReadRetry.MeantAnswersAll(qs, o);
    var done := ReadRetry.Run(ReadRetry.Meant, qs, o, 0, 0);
    forall k | 0 <= k < |qs| ensures done[k].Received() && done[k].parts == qs[k].parts {
      assert done[k] == ReadRetry.Answer(qs, o, k);
    }
  }

  /** A batch whose first topic begins with R, after the meant retry: every reader is told what belongs to
      its own query. */
  method AnswerReads(job: ResultJob, batch: QueryBatch, cached: Cache, lib: Library,
                     ghost qs: Queries, ghost o: ReadRetry.Reads)
    requires qs != [] && AllReceived(qs) && o.Valid() && FirstLetter(qs) == 'R'
    requires batch.queries == ReadRetry.Run(ReadRetry.Meant, qs, o, 0, 0) && Same(job.next, 0)
    requires forall t: Table :: t in batch.numbers && t in batch.errors
    modifies job, batch`queries
    ensures |batch.queries| == |qs|
    ensures forall k :: 0 <= k < |qs| ==> ReadAcknowledgement.Told(qs, o, cached, lib, k, batch.queries[k])
  {
    ReadsKept(qs, o);
    ghost var done := batch.queries;
    ResultJobOn(job, batch, cached, lib);
    forall k | 0 <= k < |qs| ensures ReadAcknowledgement.Told(qs, o, cached, lib, k, batch.queries[k]) {
      ReadAcknowledgement.ReadsAcknowledged(qs, o, cached, lib, k);
    }
  }

  /** The same as a statement about the reply itself, whatever numbers and errors the batch holds. */
  lemma ReadsDealt(qs: Queries, o: ReadRetry.Reads, numbers: map<Table, seq<nat>>, errors: map<Table, string>,
                   cached: Cache, lib: Library, k: nat)
    requires k < |qs| && AllReceived(qs) && o.Valid() && FirstLetter(qs) == 'R'
    requires forall t: Table :: t in numbers && t in errors
    ensures var done := ReadRetry.Run(ReadRetry.Meant, qs, o, 0, 0);
      && |done| == |qs| && AllReceived(done)
      && ReadAcknowledgement.Told(qs, o, cached, lib, k, Reply(done, numbers, errors, cached, lib, k))
  {
    ReadsKept(qs, o);
    ReadAcknowledgement.ReadsAcknowledged(qs, o, cached, lib, k);
  }

  // ---- writes ----

  /** Batch i after the database job. */
  function QueriesAfter(b: Filed, unzip: Unzip, tx: Tx, i: nat, why: Unit -> string, results: Results): (qs: Queries)
    requires AllReceived(b.qs)
    ensures |qs| == |b.qs|
    ensures forall k :: 0 <= k < |qs| ==> qs[k] == AfterJob(b, unzip, tx, i, k, why, results)
    ensures AllReceived(qs) && forall k :: 0 <= k < |qs| ==> qs[k].parts == b.qs[k].parts
  {
    seq(|b.qs|, k requires 0 <= k < |b.qs| => AfterJob(b, unzip, tx, i, k, why, results))
  }

  lemma {:induction false} SameCount(a: Queries, b: Queries, t: Table, n: nat)
    requires AllReceived(a) && AllReceived(b) && n <= |a| == |b|
    requires forall k :: 0 <= k < |a| ==> a[k].parts == b[k].parts
    ensures CountTopic(a, t, n) == CountTopic(b, t, n)
  {
    if n == 0 {
    } else {
      SameCount(a, b, t, n - 1);
    }
  }

  lemma SamePlace(a: Queries, b: Queries, k: nat)
    requires AllReceived(a) && AllReceived(b) && k < |a| == |b|
    requires forall k :: 0 <= k < |a| ==> a[k].parts == b[k].parts
    ensures Place(a, k) == Place(b, k)
  {
    if TopicAt(a, k).Batched? { SameCount(a, b, TopicAt(a, k).table, k); }
  }

  /** A batch whose first topic begins with any other letter, after the meant loop: every client is told
      what became of its own query. */
  lemma WritesDealt(job: Job, bs: seq<Filed>, unzip: Unzip, o: Oracle, i: nat, k: nat,
                    why: Unit -> string, results: Results, cached: Cache, lib: Library)
    requires o.Valid() && i < |bs| && AllSound(bs, unzip)
    requires Carries(job, bs, unzip) && OneNumberEach(o, bs, unzip)
    requires ErrorsHaveTexts(unzip) && forall u :: why(u) != ""
    requires Clean(bs[i].qs, unzip, bs[i].out) && k < |bs[i].qs| && FirstLetter(bs[i].qs) != 'R'
    ensures var tx := Acknowledgement.Outcome(job, o);
      var os := OutcomesOf(job, tx, i, why);
      var qs := QueriesAfter(bs[i], unzip, tx, i, why, results);
      && (forall t: Table :: t in AllNumbers(os) && t in AllErrors(os))
      && var reply := Reply(qs, AllNumbers(os), AllErrors(os), cached, lib, k);
        && Acknowledged(bs[i], unzip, o, tx, i, k, results, lib, reply)
        && Explained(bs[i], unzip, tx, i, k, why, results, lib, reply)
  {
    hide WriteReply, Acknowledged, Explained, Acknowledgement.Outcome, OutcomesOf, AfterJob, Clean;
    hide AllNumbers, AllErrors;
    var tx := Acknowledgement.Outcome(job, o);
    var qs := QueriesAfter(bs[i], unzip, tx, i, why, results);
    AllThere(job, tx, i, why);
    SamePlace(qs, bs[i].qs, k);
    AcknowledgementSound(job, bs, unzip, o, i, k, why, results, lib);
    RepliesExplained(job, bs, unzip, o, i, k, why, results, lib);
  }

  lemma AllThere(job: Job, tx: Tx, i: nat, why: Unit -> string)
    requires i < |job.batches|
    ensures var os := OutcomesOf(job, tx, i, why); forall t: Table :: t in AllNumbers(os) && t in AllErrors(os)
  {
    OutcomesComplete(job, tx, i, why);
  }

  // ---- from the receiver's batch to the replies ----

  /** What the database job leaves in a batch that the write worker has looked at. */
  method StoreOutcome(batch: QueryBatch, job: Job, b: Filed, unzip: Unzip, tx: Tx, i: nat,
                      why: Unit -> string, results: Results)
    requires AllReceived(b.qs) && i < |job.batches| && |batch.queries| == |b.qs|
    requires forall k :: 0 <= k < |b.qs| ==> batch.queries[k] == Looked(b.qs[k], unzip)
    modifies batch`queries, batch`numbers, batch`errors
    ensures batch.queries == QueriesAfter(b, unzip, tx, i, why, results)
    ensures batch.numbers == AllNumbers(OutcomesOf(job, tx, i, why))
    ensures batch.errors == AllErrors(OutcomesOf(job, tx, i, why))
  {
    batch.queries := QueriesAfter(b, unzip, tx, i, why, results);
    batch.numbers := AllNumbers(OutcomesOf(job, tx, i, why));
    batch.errors := AllErrors(OutcomesOf(job, tx, i, why));
  }

  /** A write batch all the way: split by the write worker, run by the meant loop among the other
      batches of its database job, answered by the result worker. Every client is told what became of
      its own query. */
  method Serve(writer: WriteJob, answerer: ResultJob, batch: QueryBatch, job: Job, bs: seq<Filed>, unzip: Unzip,
               o: Oracle, i: nat, why: Unit -> string, results: Results, cached: Cache, lib: Library)
    requires o.Valid() && i < |bs| && AllSound(bs, unzip)
    requires Carries(job, bs, unzip) && OneNumberEach(o, bs, unzip)
    requires ErrorsHaveTexts(unzip) && forall u :: why(u) != ""
    requires batch.queries == bs[i].qs != [] && Clean(bs[i].qs, unzip, bs[i].out) && FirstLetter(bs[i].qs) != 'R'
    requires Same(answerer.next, 0)
    modifies writer, answerer, batch
    ensures |batch.queries| == |bs[i].qs|
    ensures forall k :: 0 <= k < |bs[i].qs| ==>
              && Acknowledged(bs[i], unzip, o, Acknowledgement.Outcome(job, o), i, k, results, lib, batch.queries[k])
              && Explained(bs[i], unzip, Acknowledgement.Outcome(job, o), i, k, why, results, lib, batch.queries[k])
  {
    hide WriteReply, Acknowledged, Explained, OutcomesOf, AfterJob, Clean, AllNumbers, AllErrors, Looked, ReadReply;
    hide Sound, Run, UnitsOf, QueriesAfter;
    writer.WriteMessageJob(batch, unzip, bs[i].out);
    var retry := new RetryingJob(UnitsOf(job));
    retry.DatabaseJob(job, o);
    StoreOutcome(batch, job, bs[i], unzip, retry.tx, i, why, results);
    AllThere(job, retry.tx, i, why);
    ResultJobOn(answerer, batch, cached, lib);
    forall k | 0 <= k < |bs[i].qs|
      ensures Acknowledged(bs[i], unzip, o, Acknowledgement.Outcome(job, o), i, k, results, lib, batch.queries[k])
      ensures Explained(bs[i], unzip, Acknowledgement.Outcome(job, o), i, k, why, results, lib, batch.queries[k])
    {
      WritesDealt(job, bs, unzip, o, i, k, why, results, cached, lib);
    }
  }
}
