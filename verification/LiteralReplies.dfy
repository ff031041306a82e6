/** Write batches carried through the literal loop to the replies: exactly when every client is told
    the truth. */
module LiteralReplies {
  import opened Options
  import opened Workload
  import opened Database
  import opened Messages
  import opened WriteSplit
  import opened ResultDealing
  import opened SplitMerge
  import opened Acknowledgement
  import opened LiteralLoop
  import opened LiteralFails
  import opened LiteralNumbers
  import opened LiteralReports
  import opened LiteralMisreports

  // ---- what the clients are told ----

  /** The numbers and the errors that the loop leaves in batch i. An insert may have left both. */
  function NumbersAfter(job: Job, tx: Tx, i: nat): map<Table, seq<nat>>
    requires i < |job.batches|
  {
    map t | t in TABLES :: if t in job.batches[i].tables then Get(tx.nums, Insert(i, t)) else []
  }

  function ErrorsAfter(job: Job, tx: Tx, i: nat, why: Unit -> string): map<Table, string>
    requires i < |job.batches|
  {
    map t | t in TABLES ::
      if t in job.batches[i].tables && Insert(i, t) in tx.flagged then why(Insert(i, t)) else ""
  }

  lemma AllTables(job: Job, tx: Tx, i: nat, why: Unit -> string)
    requires i < |job.batches|
    ensures forall t: Table :: t in NumbersAfter(job, tx, i) && t in ErrorsAfter(job, tx, i, why)
  {
    forall t: Table ensures t in TABLES { TablesComplete(t); }
  }

  /** The reply to query k of batch i. */
  function LiteralReply(job: Job, b: Filed, unzip: Unzip, tx: Tx, i: nat, k: nat,
                        why: Unit -> string, results: Results, lib: Library): ZmqQuery
    requires AllReceived(b.qs) && k < |b.qs| && i < |job.batches|
  {
    AllTables(job, tx, i, why);
    LookedSame(b.qs[k], unzip);
    WriteReply(AfterJob(b, unzip, tx, i, k, why, results), NumbersAfter(job, tx, i), ErrorsAfter(job, tx, i, why),
               lib, Place(b.qs, k))
  }

  /** The job ends as the loop does after n passes. */
  ghost predicate Delivered(job: Job, bs: seq<Filed>, unzip: Unzip, o: Oracle, tx: Tx,
                            why: Unit -> string, results: Results, lib: Library)
    requires AllSound(bs, unzip) && Carries(job, bs, unzip)
  {
    forall i, k :: 0 <= i < |bs| && 0 <= k < |bs[i].qs| ==>
      Acknowledged(bs[i], unzip, o, tx, i, k, results, lib,
                   LiteralReply(job, bs[i], unzip, tx, i, k, why, results, lib))
  }

  // ---- reports and replies ----

  lemma BatchedReply(q: ZmqQuery, numbers: map<Table, seq<nat>>, errors: map<Table, string>, lib: Library, k: nat,
                     t: Table)
    requires q.Received() && TopicOf(q.Letter()) == Batched(t) && forall x: Table :: x in numbers && x in errors
    ensures WriteReply(q, numbers, errors, lib, k).Succeeded() <==>
            if t == Alarm then errors[t] == "" else numbers[t] != []
  {
  }

  /** The reply to a query of a table: its success is what the batch says of the insert. */
  lemma InsertTells(job: Job, b: Filed, unzip: Unzip, tx: Tx, i: nat, k: nat, t: Table,
                    why: Unit -> string, results: Results, lib: Library)
    requires AllReceived(b.qs) && k < |b.qs| && TopicAt(b.qs, k) == Batched(t)
    requires IsUnit(job, Insert(i, t)) && forall u :: why(u) != ""
    ensures LiteralReply(job, b, unzip, tx, i, k, why, results, lib).Succeeded() <==> Told(tx, Insert(i, t))
  {
    hide WriteReply;
    AllTables(job, tx, i, why);
    LookedSame(b.qs[k], unzip);
    var q, numbers, errors := Looked(b.qs[k], unzip), NumbersAfter(job, tx, i), ErrorsAfter(job, tx, i, why);
    BatchedReply(q, numbers, errors, lib, Place(b.qs, k), t);
  }

  /** The reply to a generic query: it succeeds if there is no error and its rows can be read. */
  lemma GenericTells(job: Job, b: Filed, unzip: Unzip, tx: Tx, i: nat, k: nat,
                     why: Unit -> string, results: Results, lib: Library)
    requires Sound(b, unzip) && ErrorsHaveTexts(unzip) && (forall u :: why(u) != "") && i < |job.batches|
    requires k < |b.qs| && TopicAt(b.qs, k).Generics?
    ensures LiteralReply(job, b, unzip, tx, i, k, why, results, lib).Succeeded() <==>
            Decodes(b.qs, unzip, k) && Told(tx, Generic(i, GenericPlace(b, unzip, k)))
            && AllReadable(AfterJob(b, unzip, tx, i, k, why, results).result, lib)
  {
    hide WriteReply;
    AllTables(job, tx, i, why);
    GenericAfterJob(b, unzip, tx, i, k, why, results);
    var q := AfterJob(b, unzip, tx, i, k, why, results);
    GenericReply(q, NumbersAfter(job, tx, i), ErrorsAfter(job, tx, i, why), lib, Place(b.qs, k));
  }

  // ---- the clients of a statement ----

  lemma {:induction false} PlaceOf(qs: Queries, unzip: Unzip, n: nat, j: nat)
    requires AllReceived(qs) && n <= |qs| && j < |GenericIndices(qs, unzip, n)|
    ensures var k := GenericIndices(qs, unzip, n)[j];
      k < n && Decodes(qs, unzip, k) && TopicAt(qs, k).Generics? && |GenericIndices(qs, unzip, k)| == j
  {
    if j < |GenericIndices(qs, unzip, n - 1)| { PlaceOf(qs, unzip, n - 1, j); }
  }

  /** An array of alarms is not made of queries of unknown topics alone. */
  ghost predicate AlarmsAsked(bs: seq<Filed>, unzip: Unzip)
    requires AllSound(bs, unzip)
  {
    forall i :: 0 <= i < |bs| && Members(bs[i], unzip, Alarm) != [] ==>
      exists k :: 0 <= k < |bs[i].qs| && TopicAt(bs[i].qs, k) == Batched(Alarm)
  }

  ghost predicate AllClean(bs: seq<Filed>, unzip: Unzip)
    requires AllSound(bs, unzip)
  {
    forall i :: 0 <= i < |bs| ==> Clean(bs[i].qs, unzip, bs[i].out)
  }

  /** Some query asked for the insert of table t. */
  lemma InsertAsker(bs: seq<Filed>, unzip: Unzip, i: nat, t: Table) returns (k: nat)
    requires AllSound(bs, unzip) && AllClean(bs, unzip) && AlarmsAsked(bs, unzip)
    requires i < |bs| && t in ShapeOf(bs[i], unzip).tables
    ensures k < |bs[i].qs| && Decodes(bs[i].qs, unzip, k) && TopicAt(bs[i].qs, k) == Batched(t)
  {
    hide ShapeOf, Target, Routed;
    var b := bs[i];
    Present(b, unzip, t);
    if t == Alarm {
      k :| 0 <= k < |b.qs| && TopicAt(b.qs, k) == Batched(Alarm);
    } else {
      k := Members(b, unzip, t)[0];
      assert k in Members(b, unzip, t);
      RoutedExact(b.qs, unzip, b.out, t, |b.qs|);
      assert NoStray(b.qs, unzip, Target(b.qs, unzip, b.out, k), k, k);
    }
  }

  lemma AskerOf(job: Job, bs: seq<Filed>, unzip: Unzip, u: Unit) returns (i: nat, k: nat)
    requires AllSound(bs, unzip) && AllClean(bs, unzip) && AlarmsAsked(bs, unzip) && Carries(job, bs, unzip)
    requires HasClients(job, u)
    ensures i < |bs| && k < |bs[i].qs| && OwnUnit(bs[i], unzip, i, k) == Some(u)
  {
    hide AllClean, AlarmsAsked;
    i := u.i;
    if u.Generic? {
      PlaceOf(bs[i].qs, unzip, |bs[i].qs|, u.j);
      k := GenericIndices(bs[i].qs, unzip, |bs[i].qs|)[u.j];
    } else {
      k := InsertAsker(bs, unzip, i, u.table);
    }
  }

  // ---- trusty jobs ----

  lemma NumberingOf(job: Job, bs: seq<Filed>, unzip: Unzip, o: Oracle)
    requires AllSound(bs, unzip) && Carries(job, bs, unzip) && OneNumberEach(o, bs, unzip)
    ensures Numbering(job, o.numbers)
  {
    forall p: nat, u | IsUnit(job, u) && u.Insert? ensures o.numbers(p, u) == [] <==> u.table == Alarm {
      Present(bs[u.i], unzip, u.table);
      assert |o.numbers(p, Insert(u.i, u.table))| == if u.table == Alarm then 0 else |Members(bs[u.i], unzip, u.table)|;
    }
  }

  lemma SettledFits(job: Job, bs: seq<Filed>, unzip: Unzip, o: Oracle, tx: Tx, i: nat, t: Table, why: Unit -> string)
    requires i < |bs| && AllSound(bs, unzip) && Carries(job, bs, unzip) && OneNumberEach(o, bs, unzip)
    requires IsUnit(job, Insert(i, t)) ==> Settled(tx, o, Insert(i, t))
    requires forall u :: why(u) != ""
    ensures Fitting(OutcomeOf(job, tx, i, t, why), t, |Members(bs[i], unzip, t)|)
    ensures IsUnit(job, Insert(i, t)) ==> Truthful(OutcomeOf(job, tx, i, t, why), o, tx, Insert(i, t))
  {
    Present(bs[i], unzip, t);
    if t in job.batches[i].tables {
      TimesHas(tx.committed, Insert(i, t));
      if Insert(i, t) !in tx.flagged { var e :| e in tx.committed && e.u == Insert(i, t); }
    }
  }

  /** A settled insert has left either numbers or an error, as after the meant loop. */
  lemma SameOutcome(job: Job, o: Oracle, tx: Tx, i: nat, t: Table, why: Unit -> string)
    requires i < |job.batches| && (IsUnit(job, Insert(i, t)) ==> Settled(tx, o, Insert(i, t)))
    ensures NumbersOf(OutcomeOf(job, tx, i, t, why)) ==
            if t in job.batches[i].tables then Get(tx.nums, Insert(i, t)) else []
    ensures ErrorOf(OutcomeOf(job, tx, i, t, why)) ==
            if t in job.batches[i].tables && Insert(i, t) in tx.flagged then why(Insert(i, t)) else ""
  {
  }

  lemma SameOutcomes(job: Job, o: Oracle, tx: Tx, i: nat, why: Unit -> string)
    requires i < |job.batches| && forall t :: IsUnit(job, Insert(i, t)) ==> Settled(tx, o, Insert(i, t))
    ensures NumbersAfter(job, tx, i) == AllNumbers(OutcomesOf(job, tx, i, why))
    ensures ErrorsAfter(job, tx, i, why) == AllErrors(OutcomesOf(job, tx, i, why))
  {
    hide Settled, OutcomeOf, NumbersOf, ErrorOf, IsUnit;
    OutcomesComplete(job, tx, i, why);
    AllTables(job, tx, i, why);
    var numbers, errors := AllNumbers(OutcomesOf(job, tx, i, why)), AllErrors(OutcomesOf(job, tx, i, why));
    forall t: Table
      ensures NumbersAfter(job, tx, i)[t] == numbers[t] && ErrorsAfter(job, tx, i, why)[t] == errors[t]
    {
      SameOutcome(job, o, tx, i, t, why);
    }
  }

  lemma SameReply(job: Job, b: Filed, unzip: Unzip, o: Oracle, tx: Tx, i: nat, k: nat,
                  why: Unit -> string, results: Results, lib: Library)
    requires AllReceived(b.qs) && k < |b.qs| && i < |job.batches|
    requires forall t :: IsUnit(job, Insert(i, t)) ==> Settled(tx, o, Insert(i, t))
    ensures LiteralReply(job, b, unzip, tx, i, k, why, results, lib) ==
            ReplyTo(job, b, unzip, tx, i, k, why, results, lib)
  {
    hide WriteReply, AfterJob, Settled, NumbersAfter, ErrorsAfter, OutcomesOf, AllNumbers, AllErrors;
    OutcomesComplete(job, tx, i, why);
    AllTables(job, tx, i, why);
    SameOutcomes(job, o, tx, i, why);
  }

  lemma SettledPossible(job: Job, bs: seq<Filed>, unzip: Unzip, o: Oracle, tx: Tx, i: nat, why: Unit -> string)
    requires i < |bs| && AllSound(bs, unzip) && Carries(job, bs, unzip) && OneNumberEach(o, bs, unzip)
    requires (forall u :: why(u) != "") && forall t :: IsUnit(job, Insert(i, t)) ==> Settled(tx, o, Insert(i, t))
    ensures Possible(OutcomesOf(job, tx, i, why), bs[i].qs, unzip, bs[i].out)
  {
    hide Settled, OutcomeOf, Fitting, Truthful;
    OutcomesComplete(job, tx, i, why);
    forall t: Table ensures Fitting(OutcomesOf(job, tx, i, why)[t], t, |Members(bs[i], unzip, t)|) {
      SettledFits(job, bs, unzip, o, tx, i, t, why);
    }
  }

  lemma SettledInsert(job: Job, bs: seq<Filed>, unzip: Unzip, o: Oracle, tx: Tx, i: nat, k: nat, t: Table,
                      why: Unit -> string, results: Results, lib: Library)
    requires i < |bs| && AllSound(bs, unzip) && Carries(job, bs, unzip) && OneNumberEach(o, bs, unzip)
    requires Clean(bs[i].qs, unzip, bs[i].out) && k < |bs[i].qs| && TopicAt(bs[i].qs, k) == Batched(t)
    requires (forall u :: why(u) != "") && forall x :: IsUnit(job, Insert(i, x)) ==> Settled(tx, o, Insert(i, x))
    ensures Acknowledged(bs[i], unzip, o, tx, i, k, results, lib,
                         LiteralReply(job, bs[i], unzip, tx, i, k, why, results, lib))
  {
    hide Acknowledged, LiteralReply, ReplyTo, Settled, Truthful, OutcomeOf, OutcomesOf, Clean, Possible;
    var b := bs[i];
    SettledPossible(job, bs, unzip, o, tx, i, why);
    SettledFits(job, bs, unzip, o, tx, i, t, why);
    SameReply(job, b, unzip, o, tx, i, k, why, results, lib);
    if Decodes(b.qs, unzip, k) { HasArray(b, unzip, k, t); }
    InsertAcknowledged(job, b, unzip, o, tx, i, k, why, results, lib, t);
  }

  lemma SettledGeneric(job: Job, bs: seq<Filed>, unzip: Unzip, o: Oracle, tx: Tx, i: nat, k: nat,
                       why: Unit -> string, results: Results, lib: Library)
    requires i < |bs| && AllSound(bs, unzip) && Carries(job, bs, unzip) && ErrorsHaveTexts(unzip)
    requires k < |bs[i].qs| && TopicAt(bs[i].qs, k).Generics?
    requires (forall u :: why(u) != "") && forall u :: HasClients(job, u) ==> Settled(tx, o, u)
    ensures Acknowledged(bs[i], unzip, o, tx, i, k, results, lib,
                         LiteralReply(job, bs[i], unzip, tx, i, k, why, results, lib))
  {
    hide WriteReply;
    var b, u := bs[i], Generic(i, GenericPlace(bs[i], unzip, k));
    GenericTells(job, b, unzip, tx, i, k, why, results, lib);
    AllTables(job, tx, i, why);
    LookedSame(b.qs[k], unzip);
    var q := AfterJob(b, unzip, tx, i, k, why, results);
    WriteAddress(q, NumbersAfter(job, tx, i), ErrorsAfter(job, tx, i, why), lib, Place(b.qs, k));
    if Decodes(b.qs, unzip, k) {
      GenericIsUnit(job, bs, unzip, i, k);
      assert HasClients(job, u);
      TimesHas(tx.committed, u);
    }
  }

  /** Once all statements with clients are settled, every reply is true. */
  lemma SettledDelivered(job: Job, bs: seq<Filed>, unzip: Unzip, o: Oracle, tx: Tx,
                         why: Unit -> string, results: Results, lib: Library)
    requires AllSound(bs, unzip) && Carries(job, bs, unzip) && OneNumberEach(o, bs, unzip) && AllClean(bs, unzip)
    requires ErrorsHaveTexts(unzip) && forall u :: why(u) != ""
    requires forall u :: HasClients(job, u) ==> Settled(tx, o, u)
    ensures Delivered(job, bs, unzip, o, tx, why, results, lib)
  {
    hide Acknowledged, LiteralReply, Settled;
    forall i, t | IsUnit(job, Insert(i, t)) ensures Settled(tx, o, Insert(i, t)) {
      assert HasClients(job, Insert(i, t));
    }
    forall i, k | 0 <= i < |bs| && 0 <= k < |bs[i].qs|
      ensures Acknowledged(bs[i], unzip, o, tx, i, k, results, lib,
                           LiteralReply(job, bs[i], unzip, tx, i, k, why, results, lib))
    {
      match TopicAt(bs[i].qs, k)
      case Batched(t) => SettledInsert(job, bs, unzip, o, tx, i, k, t, why, results, lib);
      case Generics => SettledGeneric(job, bs, unzip, o, tx, i, k, why, results, lib);
      case Unknown => UnknownReply(job, bs[i], unzip, o, tx, i, k, why, results, lib);
    }
  }

  lemma UnknownReply(job: Job, b: Filed, unzip: Unzip, o: Oracle, tx: Tx, i: nat, k: nat,
                     why: Unit -> string, results: Results, lib: Library)
    requires AllReceived(b.qs) && k < |b.qs| && i < |job.batches| && TopicAt(b.qs, k).Unknown?
    ensures Acknowledged(b, unzip, o, tx, i, k, results, lib,
                         LiteralReply(job, b, unzip, tx, i, k, why, results, lib))
  {
    LookedSame(b.qs[k], unzip);
  }

  // ---- all other jobs ----

  function MemberNumbers(bs: seq<Filed>, unzip: Unzip): (nat, Unit) -> seq<nat>
    requires forall i :: 0 <= i < |bs| ==> AllReceived(bs[i].qs)
  {
    (p: nat, u: Unit) =>
      if u.Insert? && u.table != Alarm && u.i < |bs| then seq(|Members(bs[u.i], unzip, u.table)|, k => 0) else []
  }

  /** The reply to a query whose statement has not been committed once, but is told to have succeeded. */
  lemma ToldFalsely(job: Job, bs: seq<Filed>, unzip: Unzip, o: Oracle, tx: Tx, i: nat, k: nat, u: Unit,
                    why: Unit -> string, results: Results, lib: Library)
    requires i < |bs| && AllSound(bs, unzip) && Carries(job, bs, unzip) && ErrorsHaveTexts(unzip)
    requires k < |bs[i].qs| && OwnUnit(bs[i], unzip, i, k) == Some(u) && HasClients(job, u)
    requires Told(tx, u) && Times(tx.committed, u) != 1 && forall x :: why(x) != ""
    requires forall row :: lib.readable(row)
    ensures LiteralReply(job, bs[i], unzip, tx, i, k, why, results, lib).Succeeded()
    ensures !Acknowledged(bs[i], unzip, o, tx, i, k, results, lib,
                          LiteralReply(job, bs[i], unzip, tx, i, k, why, results, lib))
  {
    hide LiteralReply;
    if u.Insert? {
      InsertTells(job, bs[i], unzip, tx, i, k, u.table, why, results, lib);
    } else {
      GenericTells(job, bs[i], unzip, tx, i, k, why, results, lib);
    }
  }

  /** The loop ends within its queues, but some client is not told the truth. */
  ghost predicate Deceives(job: Job, bs: seq<Filed>, unzip: Unzip, s: State, o: Oracle,
                           why: Unit -> string, results: Results, lib: Library)
    requires AllSound(bs, unzip) && Carries(job, bs, unzip)
  {
    exists n: nat :: Ends(job, s, o, 0, n) && !After(job, s, o, 0, n).fault &&
      !Delivered(job, bs, unzip, o, After(job, s, o, 0, n).tx, why, results, lib)
  }

  lemma SomeDeceived(job: Job, bs: seq<Filed>, unzip: Unzip, s: State)
    returns (o: Oracle, why: Unit -> string, results: Results, lib: Library)
    requires job.Fits() && Fresh(s) && AllSound(bs, unzip) && AllClean(bs, unzip) && Carries(job, bs, unzip)
    requires ErrorsHaveTexts(unzip) && AlarmsAsked(bs, unzip) && !Trusty(job, s.checkpoint, s.cj)
    ensures AllCommit(o) && OneNumberEach(o, bs, unzip) && (forall u :: why(u) != "")
    ensures Deceives(job, bs, unzip, s, o, why, results, lib)
  {
    hide Acknowledged, LiteralReply, Trusty;
    why, results := (u: Unit) => "error", (p: nat, u: Unit) => [];
    lib := Library((text: string) => text, (row: Row) => true);
    o := Failing({}, MemberNumbers(bs, unzip));
    NumberingOf(job, bs, unzip, o);
    o := Untrustworthy(job, s, MemberNumbers(bs, unzip));
    var n, u :| MisleadsBy(job, s, o, n, u);
    var i, k := AskerOf(job, bs, unzip, u);
    ToldFalsely(job, bs, unzip, o, After(job, s, o, 0, n).tx, i, k, u, why, results, lib);
    assert !Delivered(job, bs, unzip, o, After(job, s, o, 0, n).tx, why, results, lib);
  }

  /** As long as commits succeed: after the literal loop every client of clean batches is told the truth,
      whatever statements fail, if and only if the job is trusty. */
  lemma LiteralAcknowledgedIff(job: Job, bs: seq<Filed>, unzip: Unzip,
                               checkpoint: Step, ci: nat, cj: nat, ei: nat, ej: nat)
    requires job.Fits() && AllSound(bs, unzip) && AllClean(bs, unzip) && Carries(job, bs, unzip)
    requires ErrorsHaveTexts(unzip) && AlarmsAsked(bs, unzip)
    ensures var s := Start(checkpoint, ci, cj, ei, ej);
      Trusty(job, checkpoint, cj) <==>
      forall o: Oracle, why: Unit -> string, results: Results, lib: Library ::
        AllCommit(o) && OneNumberEach(o, bs, unzip) && (forall u :: why(u) != "") ==>
          !Deceives(job, bs, unzip, s, o, why, results, lib)
  {
    hide Trusty, Delivered;
    var s := Start(checkpoint, ci, cj, ei, ej);
    if Trusty(job, checkpoint, cj) {
      forall o: Oracle, why: Unit -> string, results: Results, lib: Library |
          AllCommit(o) && OneNumberEach(o, bs, unzip) && forall u :: why(u) != ""
        ensures !Deceives(job, bs, unzip, s, o, why, results, lib)
      {
        NeverDeceives(job, bs, unzip, s, o, why, results, lib);
      }
    } else {
      var o, why, results, lib := SomeDeceived(job, bs, unzip, s);
    }
  }

  lemma NeverDeceives(job: Job, bs: seq<Filed>, unzip: Unzip, s: State, o: Oracle,
                      why: Unit -> string, results: Results, lib: Library)
    requires job.Fits() && Fresh(s) && AllSound(bs, unzip) && AllClean(bs, unzip) && Carries(job, bs, unzip)
    requires ErrorsHaveTexts(unzip) && Trusty(job, s.checkpoint, s.cj)
    requires AllCommit(o) && OneNumberEach(o, bs, unzip) && forall u :: why(u) != ""
    ensures !Deceives(job, bs, unzip, s, o, why, results, lib)
  {
    hide Trusty, Settled, Delivered;
    forall n: nat | Ends(job, s, o, 0, n)
      ensures Delivered(job, bs, unzip, o, After(job, s, o, 0, n).tx, why, results, lib)
    {
      forall u | HasClients(job, u) ensures Settled(After(job, s, o, 0, n).tx, o, u) { TrustySettled(job, s, o, n, u); }
      SettledDelivered(job, bs, unzip, o, After(job, s, o, 0, n).tx, why, results, lib);
    }
  }

  // ---- a lost insert ----

  /** If only the last write statement fails, every other insert is lost; but whoever asked for it is
      told that it was stored. */
  lemma LostYetAcknowledged(job: Job, bs: seq<Filed>, unzip: Unzip, s: State, o: Oracle, i: nat, k: nat, t: Table,
                            why: Unit -> string, results: Results, lib: Library) returns (n: nat)
    requires job.Fits() && Fresh(s) && AllSound(bs, unzip) && Carries(job, bs, unzip) && OneNumberEach(o, bs, unzip)
    requires forall u :: why(u) != ""
    requires i < |bs| && k < |bs[i].qs| && TopicAt(bs[i].qs, k) == Batched(t) && Decodes(bs[i].qs, unzip, k)
    requires Insert(i, t) != LastUnit(job, Writes) && Fails(o, {LastUnit(job, Writes)})
    ensures Ends(job, s, o, 0, n)
    ensures var tx := After(job, s, o, 0, n).tx;
      Times(tx.committed, Insert(i, t)) == 0 && LiteralReply(job, bs[i], unzip, tx, i, k, why, results, lib).Succeeded()
  {
    HasArray(bs[i], unzip, k, t);
    var u := Insert(i, t);
    LastUnitIn(job, Writes, u);
    n := LostYetNumbered(job, s, o, u);
    NumberingOf(job, bs, unzip, o);
    InsertTells(job, bs[i], unzip, After(job, s, o, 0, n).tx, i, k, t, why, results, lib);
  }
}
