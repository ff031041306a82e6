/** Dealing per-table numbers and errors back to the interleaved queries of a batch, and turning
    the results of reads into replies. */
module ResultDealing {
  import opened Workload
  import opened Messages
  import opened WriteSplit
  import RowPrinting

  type Cache = map<string, string>

  /** How many of the first n queries are of table t's topic. */
  function CountTopic(qs: Queries, t: Table, n: nat): nat
    requires AllReceived(qs) && n <= |qs|
  {
    if n == 0 then 0 else CountTopic(qs, t, n - 1) + if TopicAt(qs, n - 1) == Batched(t) then 1 else 0
  }

  const WRITE_UNREADABLE: string := "Error accessing query result"
  const READ_UNREADABLE: string := "error accessing query result"

  // ---- the reply to one write query ----

  function Refusal(q: ZmqQuery, lib: Library, why: string): ZmqQuery
    requires |q.parts| > 2
  {
    q.SetSuccess(false).SetResponseRows(1).SetResponse(0, Bytes(lib.zip(why)))
  }

  function NumberAt(numbers: seq<nat>, k: nat): Part {
    if k < |numbers| then U16(numbers[k]) else Undefined
  }

  function NumberReply(q: ZmqQuery, lib: Library, numbers: seq<nat>, why: string, k: nat): ZmqQuery
    requires |q.parts| > 2
  {
    if numbers != [] then q.SetSuccess(true).SetResponseRows(1).SetResponse(0, NumberAt(numbers, k))
    else Refusal(q, lib, why)
  }

  function RowParts(rows: seq<Row>, lib: Library): seq<Part> {
    seq(|rows|, k requires 0 <= k < |rows| => Bytes(lib.zip(RowPrinting.RowText(rows[k]))))
  }

  /** A reply that carries the rows ps. */
  function RowsReply(q: ZmqQuery, ps: seq<Part>): ZmqQuery
    requires |q.parts| > 2
  {
    q.(parts := [q.parts[0], q.parts[1], U32(1)] + ps)
  }

  /** The reply to a write query that is the k-th of its topic. */
  function WriteReply(q: ZmqQuery, numbers: map<Table, seq<nat>>, errors: map<Table, string>,
                      lib: Library, k: nat): ZmqQuery
    requires q.Received() && forall t: Table :: t in numbers && t in errors
  {
    (match TopicOf(q.Letter())
     case Unknown => q
     case Generics =>
       if q.err != "" then Refusal(q, lib, q.err)
       else if AllReadable(q.result, lib) then RowsReply(q, RowParts(q.result, lib))
       else Refusal(q, lib, WRITE_UNREADABLE)
     case Batched(t) =>
       if t == Alarm then q.SetSuccess(errors[t] == "").SetResponseRows(0)
       else NumberReply(q, lib, numbers[t], errors[t], k)).Clear()
  }

  /** The position of query i among the queries of its topic. */
  function Place(qs: Queries, i: nat): nat
    requires AllReceived(qs) && i < |qs|
  {
    if TopicAt(qs, i).Batched? then CountTopic(qs, TopicAt(qs, i).table, i) else 0
  }

  // ---- the reply to one read query ----

  function ReadParts(q: ZmqQuery, lib: Library): seq<Part> {
    seq(|q.result|, k requires 0 <= k < |q.result| =>
      if q.result[k] == [] then Undefined else Bytes(lib.zip(q.result[k][0].text)))
  }

  function ReadReply(q: ZmqQuery, cached: Cache, lib: Library): ZmqQuery
    requires q.Received()
  {
    if q.Letter() == CACHED_CONFIG then
      if q.Text() in cached then RowsReply(q, [Bytes(lib.zip(cached[q.Text()]))])
      else Refusal(q, lib, "no cached configuration for this device!")
    else if q.err != "" then Refusal(q, lib, q.err)
    else if AllReadable(q.result, lib) then RowsReply(q, ReadParts(q, lib)).Clear()
    else Refusal(q, lib, READ_UNREADABLE).Clear()
  }

  // ---- the job ----

  class ResultJob {
    /** Where the reader of each table's numbers stands. */
    var next: map<Table, nat>

    constructor ()
      ensures Same(next, 0)
    {
      forall t: Table ensures t in TABLES { TablesComplete(t); }
      next := map t | t in TABLES :: 0;
    }

    /** Overwrites the parts from slot 3 on, one by one. */
    static method SetRows(q: ZmqQuery, ps: seq<Part>) returns (r: ZmqQuery)
      requires |q.parts| > 2
      ensures r == RowsReply(q, ps)
    {
      r := q.SetSuccess(true).SetResponseRows(|ps|);
      ghost var blank := r.parts;
      var i := 0;
      while i < |ps|
        invariant 0 <= i <= |ps| && |r.parts| == 3 + |ps| && r == q.(parts := r.parts)
        invariant forall k :: 0 <= k < 3 ==> r.parts[k] == blank[k]
        invariant forall k :: 0 <= k < i ==> r.parts[3 + k] == ps[k]
      {
        r := r.SetResponse(i, ps[i]);
        i := i + 1;
      }
      assert r.parts == [q.parts[0], q.parts[1], U32(1)] + ps;
    }

    /** Prints row after row; a row that cannot be read ends it. */
    static method PrintRows(rows: seq<Row>, lib: Library) returns (ok: bool, ps: seq<Part>)
      ensures ok == AllReadable(rows, lib)
      ensures ok ==> ps == RowParts(rows, lib)
    {
      ps := [];
      var i := 0;
      while i < |rows|
        invariant 0 <= i == |ps| <= |rows|
        invariant forall k :: 0 <= k < i ==> lib.readable(rows[k])
        invariant forall k :: 0 <= k < i ==> ps[k] == Bytes(lib.zip(RowPrinting.RowText(rows[k])))
      {
        if !lib.readable(rows[i]) { return false, ps; }
        var text := RowPrinting.PrintRow(rows[i]);
        ps := ps + [Bytes(lib.zip(text))];
        i := i + 1;
      }
      ok := true;
    }

    method AnswerWrite(numbers: map<Table, seq<nat>>, errors: map<Table, string>, lib: Library, q: ZmqQuery)
      returns (r: ZmqQuery)
      requires q.Received() && forall t: Table :: t in numbers && t in errors && t in next
      modifies this
      ensures r == WriteReply(q, numbers, errors, lib,
                              if TopicOf(q.Letter()).Batched? then old(next)[TopicOf(q.Letter()).table] else 0)
      ensures next == var topic := TopicOf(q.Letter());
                if topic.Batched? && topic.table != Alarm && numbers[topic.table] != []
                then old(next)[topic.table := old(next)[topic.table] + 1] else old(next)
    {
      r := q;
      match TopicOf(q.Letter()) {
        case Batched(t) =>
          if t == Alarm {
            r := q.SetSuccess(errors[t] == "").SetResponseRows(0);
          } else if numbers[t] != [] {
            r := q.SetSuccess(true).SetResponseRows(1).SetResponse(0, NumberAt(numbers[t], next[t]));
            next := next[t := next[t] + 1];
          } else {
            r := Refusal(q, lib, errors[t]);
          }
        case Generics =>
          if q.err != "" {
            r := Refusal(q, lib, q.err);
          } else {
            var ok, ps := PrintRows(q.result, lib);
            if ok { r := SetRows(q, ps); } else { r := Refusal(q, lib, WRITE_UNREADABLE); }
          }
        case Unknown =>
      }
      r := r.Clear();
    }

    static method AnswerRead(cached: Cache, lib: Library, q: ZmqQuery) returns (r: ZmqQuery)
      requires q.Received()
      ensures r == ReadReply(q, cached, lib)
    {
      if q.Letter() == CACHED_CONFIG {
        if q.Text() in cached {
          r := SetRows(q, [Bytes(lib.zip(cached[q.Text()]))]);
        } else {
          r := Refusal(q, lib, "no cached configuration for this device!");
        }
      } else if q.err != "" {
        r := Refusal(q, lib, q.err);
      } else {
        if AllReadable(q.result, lib) {
          r := SetRows(q, ReadParts(q, lib));
        } else {
          r := Refusal(q, lib, READ_UNREADABLE);
        }
        r := r.Clear();
      }
    }

    method DealReads(batch: QueryBatch, cached: Cache, lib: Library)
      requires AllReceived(batch.queries)
      modifies batch`queries
      ensures var qs := old(batch.queries);
        |batch.queries| == |qs| && forall i :: 0 <= i < |qs| ==> batch.queries[i] == ReadReply(qs[i], cached, lib)
    {
      ghost var qs := batch.queries;
      var i := 0;
      while i < |batch.queries|
        invariant 0 <= i <= |batch.queries| == |qs|
        invariant forall k :: 0 <= k < i ==> batch.queries[k] == ReadReply(qs[k], cached, lib)
        invariant forall k :: i <= k < |qs| ==> batch.queries[k] == qs[k]
      {
        var r := AnswerRead(cached, lib, batch.queries[i]);
        batch.queries := batch.queries[i := r];
        i := i + 1;
      }
    }

    method DealOne(batch: QueryBatch, lib: Library, i: nat, ghost qs: Queries)
      requires AllReceived(qs) && i < |qs| && forall t: Table :: t in batch.numbers && t in batch.errors
      requires Answered(qs, batch.queries, batch.numbers, batch.errors, lib, i) && Dealt(qs, batch.numbers, next, i)
      modifies this, batch`queries
      ensures Answered(qs, batch.queries, batch.numbers, batch.errors, lib, i + 1)
      ensures Dealt(qs, batch.numbers, next, i + 1)
    {
      var numbers, errors := batch.numbers, batch.errors;
      var r := AnswerWrite(numbers, errors, lib, batch.queries[i]);
      batch.queries := batch.queries[i := r];
    }

    method DealWrites(batch: QueryBatch, lib: Library)
      requires AllReceived(batch.queries) && Same(next, 0)
      requires forall t: Table :: t in batch.numbers && t in batch.errors
      modifies this, batch`queries
      ensures Answered(old(batch.queries), batch.queries, batch.numbers, batch.errors, lib, |old(batch.queries)|)
      ensures Dealt(old(batch.queries), batch.numbers, next, |old(batch.queries)|)
    {
      ghost var qs := batch.queries;
      var i := 0;
      while i < |batch.queries|
        invariant 0 <= i <= |qs| && Answered(qs, batch.queries, batch.numbers, batch.errors, lib, i)
        invariant Dealt(qs, batch.numbers, next, i)
      {
        DealOne(batch, lib, i, qs);
        i := i + 1;
      }
    }
  }

  /** After n queries the readers stand at the number of queries of their topic so far; readers of
      empty vectors do not move, and there is none for alarms. */
  ghost predicate Dealt(qs: Queries, numbers: map<Table, seq<nat>>, next: map<Table, nat>, n: nat)
    requires AllReceived(qs) && n <= |qs|
  {
    forall t: Table :: t in next && t in numbers && next[t] ==
      if t != Alarm && numbers[t] != [] then CountTopic(qs, t, n) else 0
  }

  /** The first n queries have been overwritten by their replies. */
  ghost predicate Answered(qs: Queries, now: Queries, numbers: map<Table, seq<nat>>, errors: map<Table, string>,
                           lib: Library, n: nat)
    requires AllReceived(qs) && n <= |qs| && forall t: Table :: t in numbers && t in errors
  {
    && |now| == |qs|
    && (forall k :: 0 <= k < n ==> now[k] == WriteReply(qs[k], numbers, errors, lib, Place(qs, k)))
    && (forall k :: n <= k < |qs| ==> now[k] == qs[k])
  }

  /** Whatever the outcome, a reply goes back to the client and message it came from. */
  lemma WriteAddress(q: ZmqQuery, numbers: map<Table, seq<nat>>, errors: map<Table, string>, lib: Library, k: nat)
    requires q.Received() && forall t: Table :: t in numbers && t in errors
    ensures var r := WriteReply(q, numbers, errors, lib, k);
      |r.parts| >= 3 && r.parts[0] == q.parts[0] && r.parts[1] == q.parts[1]
  {
  }

  /** After the reply nothing of the query is left for the next use of the batch; a query of unknown topic
      goes back as it came. */
  lemma ReplyLeavesNothing(q: ZmqQuery, numbers: map<Table, seq<nat>>, errors: map<Table, string>, lib: Library,
                           cached: Cache, k: nat)
    requires q.Received() && forall t: Table :: t in numbers && t in errors
    ensures var r := WriteReply(q, numbers, errors, lib, k);
      && r.result == [] && r.err == "" && r.decompressed == ""
      && (TopicOf(q.Letter()).Unknown? ==> r.parts == q.parts)
    ensures q.parts[2].s[2] != 'K' && q.err == "" ==>
      var r := ReadReply(q, cached, lib); r.result == [] && r.err == "" && r.decompressed == ""
  {
  }

  lemma ReadAddress(q: ZmqQuery, cached: Cache, lib: Library)
    requires q.Received()
    ensures var r := ReadReply(q, cached, lib);
      |r.parts| >= 3 && r.parts[0] == q.parts[0] && r.parts[1] == q.parts[1]
  {
  }

  function Reply(qs: Queries, numbers: map<Table, seq<nat>>, errors: map<Table, string>,
                 cached: Cache, lib: Library, i: nat): ZmqQuery
    requires AllReceived(qs) && i < |qs| && forall t: Table :: t in numbers && t in errors
  {
    if qs[0].parts[2].s[0] == 'R' then ReadReply(qs[i], cached, lib)
    else WriteReply(qs[i], numbers, errors, lib, Place(qs, i))
  }

  /** Dispatches on the first character of the first query's topic. An empty batch has no first
      query. */
  method ResultJobOn(job: ResultJob, batch: QueryBatch, cached: Cache, lib: Library)
    requires batch.queries != [] && AllReceived(batch.queries) && Same(job.next, 0)
    requires forall t: Table :: t in batch.numbers && t in batch.errors
    modifies job, batch`queries
    ensures |batch.queries| == |old(batch.queries)|
    ensures forall i :: 0 <= i < |batch.queries| ==>
              batch.queries[i] == Reply(old(batch.queries), batch.numbers, batch.errors, cached, lib, i)
    ensures var qs := old(batch.queries);
      if qs[0].parts[2].s[0] == 'R'
      then forall i :: 0 <= i < |qs| ==> batch.queries[i] == ReadReply(qs[i], cached, lib)
      else forall i :: 0 <= i < |qs| ==>
             batch.queries[i] == WriteReply(qs[i], batch.numbers, batch.errors, lib, Place(qs, i))
  {
    if batch.queries[0].parts[2].s[0] == 'R' {
      job.DealReads(batch, cached, lib);
    } else {
      job.DealWrites(batch, lib);
    }
  }

  /** Batches that agree in their queries, numbers and errors get the same replies, whatever they were
      used for before. */
  method SameReplies(recycled: QueryBatch, fresh': QueryBatch, job: ResultJob, job': ResultJob,
                     cached: Cache, lib: Library)
    requires recycled != fresh' && job != job' && Same(job.next, 0) && Same(job'.next, 0)
    requires recycled.queries == fresh'.queries != [] && AllReceived(recycled.queries)
    requires recycled.numbers == fresh'.numbers && recycled.errors == fresh'.errors
    requires forall t: Table :: t in recycled.numbers && t in recycled.errors
    modifies job, job', recycled`queries, fresh'`queries
    ensures recycled.queries == fresh'.queries
  {
    ResultJobOn(job, recycled, cached, lib);
    ResultJobOn(job', fresh', cached, lib);
  }
}
