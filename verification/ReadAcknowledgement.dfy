/** A read batch carried through the pipelined retry to the replies. */
module ReadAcknowledgement {
  import opened Messages
  import opened WriteSplit
  import opened ResultDealing
  import opened ReadRetry
  import Filing

  /** The letter K asks for a cached configuration. */
  predicate FromCache(q: ZmqQuery)
    requires q.Received()
  {
    q.parts[2].s[2] == 'K'
  }

  /** What the query says: its last part, or what that has been unpacked to. */
  function Says(q: ZmqQuery): string
    requires q.Received()
  {
    if Filing.Packed(q.parts[3].s) then q.decompressed else q.parts[3].s
  }

  lemma SaysText(q: ZmqQuery)
    requires q.Received()
    ensures q.Text() == Says(q)
  {
    Filing.PackedExact(q.parts[3].s);
  }

  /** Query k was answered by the database. */
  predicate Answered(qs: Queries, o: Reads, k: nat)
    requires AllReceived(qs) && k < |qs|
  {
    qs[k].err == "" && !FromCache(qs[k]) && o.ok(AttemptOf(qs, o, k), k)
  }

  /** The error that a reader gets who cannot be told the rows. */
  function ErrorOf(qs: Queries, o: Reads, k: nat): string
    requires AllReceived(qs) && k < |qs|
  {
    if qs[k].err != "" then qs[k].err
    else if Answered(qs, o, k) then "error accessing query result"
    else o.why(AttemptOf(qs, o, k), k)
  }

  /** What the client is to be told: a cached configuration comes from the cache, everything else
      succeeds exactly if the database answered it with rows that can be read, with the first column
      of each row that it returned for the query's own text, in order; a failure carries the query's
      own error. */
  ghost predicate Told(qs: Queries, o: Reads, cached: Cache, lib: Library, k: nat, reply: ZmqQuery)
    requires AllReceived(qs) && k < |qs|
  {
    var q := qs[k];
    var rows := o.rows(AttemptOf(qs, o, k), Says(q));
    && |reply.parts| >= 3 && reply.parts[0] == q.parts[0] && reply.parts[1] == q.parts[1]
    && (if FromCache(q) then
          && (reply.Succeeded() <==> Says(q) in cached)
          && reply.parts[3..] == [Bytes(lib.zip(if Says(q) in cached then cached[Says(q)]
                                                else "no cached configuration for this device!"))]
        else
          && (reply.Succeeded() <==> Answered(qs, o, k) && AllReadable(rows, lib))
          && (reply.Succeeded() ==> |reply.parts| == 3 + |rows| && forall i :: 0 <= i < |rows| && rows[i] != [] ==>
                reply.parts[3 + i] == Bytes(lib.zip(rows[i][0].text)))
          && (!reply.Succeeded() ==> reply.parts[3..] == [Bytes(lib.zip(ErrorOf(qs, o, k)))]))
  }

  /** With the meant retry, whatever fails: every client of a read batch is told what belongs to its
      own query. */
  lemma ReadsAcknowledged(qs: Queries, o: Reads, cached: Cache, lib: Library, k: nat)
    requires AllReceived(qs) && o.Valid() && k < |qs|
    ensures var done := Run(Meant, qs, o, 0, 0);
      |done| == |qs| && done[k].Received() && Told(qs, o, cached, lib, k, ReadReply(done[k], cached, lib))
  {
    MeantAnswersAll(qs, o);
    hide Run, Told, ReadReply;
    TellsAnswer(qs, o, cached, lib, k);
  }

  /** The reply to a query that holds what it must hold in the end. */
  lemma TellsAnswer(qs: Queries, o: Reads, cached: Cache, lib: Library, k: nat)
    requires AllReceived(qs) && o.Valid() && k < |qs|
    ensures Answer(qs, o, k).Received() && Told(qs, o, cached, lib, k, ReadReply(Answer(qs, o, k), cached, lib))
  {
    hide AttemptOf;
    SaysText(qs[k]);
    SaysText(Answer(qs, o, k));
  }

  /** As written, the failure of one read makes the next one report success without any rows,
      although the database did not answer it in this batch. */
  lemma SilentlyEmpty(qs: Queries, f: nat, q: nat, rows: seq<Row>, cached: Cache, lib: Library)
    requires AllReceived(qs) && f < q < |qs| && !Skip(qs[f]) && !Skip(qs[q]) && qs[q].result == []
    requires forall k :: 0 <= k < q && k != f ==> Skip(qs[k])
    ensures var done := Run(Literal, qs, FailOnce(f, rows), 0, 0);
      && |done| == |qs| && done[q].Received()
      && ReadReply(done[q], cached, lib).Succeeded() && |ReadReply(done[q], cached, lib).parts| == 3
      && (rows != [] ==> !Told(qs, FailOnce(f, rows), cached, lib, q, ReadReply(done[q], cached, lib)))
  {
    SecondReadLost(qs, f, q, rows);
  }

  /** A read that the database has refused holds its error and no rows. */
  lemma RefusedEmpty(qs: Queries, o: Reads, k: nat)
    requires AllReceived(qs) && k < |qs| && qs[k].err == "" && !FromCache(qs[k]) && !Answered(qs, o, k)
    ensures var done := Run(Meant, qs, o, 0, 0);
      |done| == |qs| && done[k].result == [] && done[k].err == o.why(AttemptOf(qs, o, k), k)
  {
    MeantAnswersAll(qs, o);
  }

  /** A read that comes from the cache, or that has failed before, is not touched by the database. */
  lemma NotSent(test: Test, qs: Queries, o: Reads, k: nat)
    requires AllReceived(qs) && k < |qs| && (qs[k].err != "" || FromCache(qs[k]))
    ensures test == Meant ==> |Run(test, qs, o, 0, 0)| == |qs| && Run(test, qs, o, 0, 0)[k] == qs[k]
  {
    if test == Meant { MeantAnswersAll(qs, o); }
  }
}
