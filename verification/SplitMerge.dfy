/** Splitting a batch by table, inserting each array, and dealing the numbers back: exactly when
    every query gets the answer that belongs to it. */
module SplitMerge {
  import opened Options
  import opened Workload
  import opened Messages
  import opened WriteSplit
  import opened ResultDealing

  /** What became of the array of one table. */
  datatype Outcome = Stored(numbers: seq<nat>) | Refused(why: string)

  type Outcomes = map<Table, Outcome>

  function NumbersOf(outcome: Outcome): seq<nat> {
    if outcome.Stored? then outcome.numbers else []
  }

  function ErrorOf(outcome: Outcome): string {
    if outcome.Refused? then outcome.why else ""
  }

  function AllNumbers(os: Outcomes): map<Table, seq<nat>> {
    map t | t in os :: NumbersOf(os[t])
  }

  function AllErrors(os: Outcomes): map<Table, string> {
    map t | t in os :: ErrorOf(os[t])
  }

  /** Inserting an array of n elements returns one number for each, in order; alarms return none; an
      error has a text; a table without an array is not touched. */
  predicate Fitting(outcome: Outcome, t: Table, n: nat) {
    if outcome.Refused? then outcome.why != "" && n > 0
    else |outcome.numbers| == if t == Alarm then 0 else n
  }

  ghost predicate Possible(os: Outcomes, qs: Queries, unzip: Unzip, out: Option<Table>)
    requires AllReceived(qs)
  {
    forall t: Table :: t in os && Fitting(os[t], t, |Routed(qs, unzip, out, t, |qs|)|)
  }

  // ---- what each query should be told ----

  /** The reply to query i that its own array element deserves. A query that was not filed under
      its own topic has no element, and must not be told that it succeeded. */
  ghost predicate Deserved(os: Outcomes, qs: Queries, unzip: Unzip, out: Option<Table>, i: nat, reply: ZmqQuery)
    requires AllReceived(qs) && i < |qs| && forall t: Table :: t in os
  {
    match TopicAt(qs, i)
    case Batched(t) =>
      if Decodes(qs, unzip, i) then
        && |reply.parts| >= 3
        && (reply.Succeeded() <==> os[t].Stored?)
        && (reply.Succeeded() && t != Alarm ==>
              exists k :: 0 <= k < |Routed(qs, unzip, out, t, |qs|)| && k < |os[t].numbers|
                && Routed(qs, unzip, out, t, |qs|)[k] == i && reply.parts[3..] == [U16(os[t].numbers[k])])
      else !reply.Succeeded()
    case Generics => true
    case Unknown => !reply.Succeeded()
  }

  /** Each vector of numbers is used up exactly by the queries of its topic. */
  ghost predicate UsedUp(os: Outcomes, qs: Queries)
    requires AllReceived(qs) && forall t: Table :: t in os
  {
    forall t: Table :: t != Alarm && NumbersOf(os[t]) != [] ==> CountTopic(qs, t, |qs|) == |NumbersOf(os[t])|
  }

  ghost predicate AllDeserved(os: Outcomes, qs: Queries, unzip: Unzip, out: Option<Table>, lib: Library)
    requires AllReceived(qs) && forall t: Table :: t in os
  {
    && UsedUp(os, qs)
    && (forall i :: 0 <= i < |qs| ==>
          Deserved(os, qs, unzip, out, i,
                   WriteReply(Looked(qs[i], unzip), AllNumbers(os), AllErrors(os), lib, Place(qs, i))))
  }

  /** What a caller can see before the call: alarms decode; and a table with an array has neither
      an element of a query of unknown topic nor a query that does not decode. */
  ghost predicate Clean(qs: Queries, unzip: Unzip, out: Option<Table>)
    requires AllReceived(qs)
  {
    && (forall i :: 0 <= i < |qs| && TopicAt(qs, i) == Batched(Alarm) ==> Decodes(qs, unzip, i))
    && (forall i, j :: 0 <= i < |qs| && 0 <= j < |qs| ==> NoStray(qs, unzip, Target(qs, unzip, out, i), i, j))
  }

  /** If query i is filed under t, then it is of t's topic, and so does query j decode if it is. */
  predicate NoStray(qs: Queries, unzip: Unzip, t: Option<Table>, i: nat, j: nat)
    requires AllReceived(qs) && i < |qs| && j < |qs|
  {
    t.Some? && t != Some(Alarm) ==>
      TopicAt(qs, i) == Batched(t.value) && (TopicAt(qs, j) == Batched(t.value) ==> Decodes(qs, unzip, j))
  }

  // ---- positions ----

  /** Without strays, the array of a table and the queries of its topic run in step. */
  lemma {:induction false} InStep(qs: Queries, unzip: Unzip, out: Option<Table>, t: Table, n: nat)
    requires AllReceived(qs) && n <= |qs|
    requires forall i :: 0 <= i < n ==> (Target(qs, unzip, out, i) == Some(t) <==> TopicAt(qs, i) == Batched(t))
    ensures |Routed(qs, unzip, out, t, n)| == CountTopic(qs, t, n)
  {
    if n == 0 {
    } else {
      InStep(qs, unzip, out, t, n - 1);
    }
  }

  lemma {:induction false} InStepAt(qs: Queries, unzip: Unzip, out: Option<Table>, t: Table, n: nat, i: nat)
    requires AllReceived(qs) && i < n <= |qs| && TopicAt(qs, i) == Batched(t)
    requires forall i :: 0 <= i < n ==> (Target(qs, unzip, out, i) == Some(t) <==> TopicAt(qs, i) == Batched(t))
    ensures CountTopic(qs, t, i) < |Routed(qs, unzip, out, t, n)|
    ensures Routed(qs, unzip, out, t, n)[CountTopic(qs, t, i)] == i
  {
    hide Target, TopicAt;
    if i < n - 1 {
      InStepAt(qs, unzip, out, t, n - 1, i);
    } else {
      InStep(qs, unzip, out, t, n - 1);
    }
  }

  /** The queries of a topic are outnumbered by the array as soon as a stray query is filed with them. */
  lemma {:induction false} Outnumbered(qs: Queries, unzip: Unzip, out: Option<Table>, t: Table, n: nat)
    requires AllReceived(qs) && n <= |qs|
    requires forall i :: 0 <= i < n && TopicAt(qs, i) == Batched(t) ==> Target(qs, unzip, out, i) == Some(t)
    ensures |Routed(qs, unzip, out, t, n)| >= CountTopic(qs, t, n)
    ensures (exists i :: 0 <= i < n && Target(qs, unzip, out, i) == Some(t) && TopicAt(qs, i) != Batched(t)) ==>
              |Routed(qs, unzip, out, t, n)| > CountTopic(qs, t, n)
  {
    hide Target, TopicAt;
    if n == 0 {
    } else {
      Outnumbered(qs, unzip, out, t, n - 1);
    }
  }

  lemma CleanInStep(qs: Queries, unzip: Unzip, out: Option<Table>, t: Table)
    requires AllReceived(qs) && Clean(qs, unzip, out) && t != Alarm && Routed(qs, unzip, out, t, |qs|) != []
    ensures forall i :: 0 <= i < |qs| ==> (Target(qs, unzip, out, i) == Some(t) <==> TopicAt(qs, i) == Batched(t))
  {
    RoutedExact(qs, unzip, out, t, |qs|);
    var a := Routed(qs, unzip, out, t, |qs|)[0];
    assert a in Routed(qs, unzip, out, t, |qs|);
    forall i | 0 <= i < |qs| ensures Target(qs, unzip, out, i) == Some(t) <==> TopicAt(qs, i) == Batched(t) {
      CleanOne(qs, unzip, out, t, a, i);
    }
  }

  lemma CleanOne(qs: Queries, unzip: Unzip, out: Option<Table>, t: Table, a: nat, i: nat)
    requires AllReceived(qs) && Clean(qs, unzip, out) && t != Alarm && i < |qs|
    requires a < |qs| && Target(qs, unzip, out, a) == Some(t)
    ensures Target(qs, unzip, out, i) == Some(t) <==> TopicAt(qs, i) == Batched(t)
  {
    assert NoStray(qs, unzip, Target(qs, unzip, out, a), a, i);
    assert NoStray(qs, unzip, Target(qs, unzip, out, i), i, i);
    if TopicAt(qs, i).Batched? { OwnTarget(qs, unzip, out, i); }
  }

  lemma LookedSame(q: ZmqQuery, unzip: Unzip)
    requires q.Received()
    ensures var l := Looked(q, unzip); l.Received() && l.Letter() == q.Letter() && l.parts == q.parts
  {
  }

  lemma OwnTarget(qs: Queries, unzip: Unzip, out: Option<Table>, i: nat)
    requires AllReceived(qs) && i < |qs| && TopicAt(qs, i).Batched?
    ensures Target(qs, unzip, out, i) == if Decodes(qs, unzip, i) then Some(TopicAt(qs, i).table) else None
  {
  }

  // ---- clean batches are answered as deserved ----

  lemma CleanDeserved(os: Outcomes, qs: Queries, unzip: Unzip, out: Option<Table>, lib: Library, i: nat)
    requires AllReceived(qs) && Possible(os, qs, unzip, out) && Clean(qs, unzip, out) && i < |qs|
    ensures Deserved(os, qs, unzip, out, i,
                     WriteReply(Looked(qs[i], unzip), AllNumbers(os), AllErrors(os), lib, Place(qs, i)))
  {
    hide Target, Routed;
    LookedSame(qs[i], unzip);
    if TopicAt(qs, i).Batched? && TopicAt(qs, i) != Batched(Alarm) {
      var t := TopicAt(qs, i).table;
      var idx := Routed(qs, unzip, out, t, |qs|);
      OwnTarget(qs, unzip, out, i);
      RoutedExact(qs, unzip, out, t, |qs|);
      assert Fitting(os[t], t, |idx|);
      assert Decodes(qs, unzip, i) ==> i in idx;
      if idx != [] {
        CleanInStep(qs, unzip, out, t);
        InStepAt(qs, unzip, out, t, |qs|, i);
        NumberFound(os, qs, unzip, out, lib, i, t);
      }
    }
  }

  lemma NumberFound(os: Outcomes, qs: Queries, unzip: Unzip, out: Option<Table>, lib: Library, i: nat, t: Table)
    requires AllReceived(qs) && i < |qs| && t != Alarm && TopicAt(qs, i) == Batched(t) && Decodes(qs, unzip, i)
    requires forall x: Table :: x in os
    requires var idx, k := Routed(qs, unzip, out, t, |qs|), CountTopic(qs, t, i);
      Fitting(os[t], t, |idx|) && k < |idx| && idx[k] == i
    ensures Deserved(os, qs, unzip, out, i,
                     WriteReply(Looked(qs[i], unzip), AllNumbers(os), AllErrors(os), lib, Place(qs, i)))
  {
    LookedSame(qs[i], unzip);
    var k := CountTopic(qs, t, i);
    var reply := WriteReply(Looked(qs[i], unzip), AllNumbers(os), AllErrors(os), lib, Place(qs, i));
    if os[t].Stored? {
      assert Place(qs, i) == k && k < |os[t].numbers|;
      assert reply.parts[3..] == [U16(os[t].numbers[k])];
    }
  }

  lemma CleanUsedUp(os: Outcomes, qs: Queries, unzip: Unzip, out: Option<Table>)
    requires AllReceived(qs) && Possible(os, qs, unzip, out) && Clean(qs, unzip, out)
    ensures UsedUp(os, qs)
  {
    forall t: Table | t != Alarm && NumbersOf(os[t]) != [] ensures CountTopic(qs, t, |qs|) == |NumbersOf(os[t])| {
      assert Fitting(os[t], t, |Routed(qs, unzip, out, t, |qs|)|);
      CleanInStep(qs, unzip, out, t);
      InStep(qs, unzip, out, t, |qs|);
    }
  }

  // ---- any other batch can be answered wrongly ----

  /** Every array is stored, with as many numbers as it has elements. */
  function AllStored(qs: Queries, unzip: Unzip, out: Option<Table>): Outcomes
    requires AllReceived(qs)
  {
    map t | t in TABLES :: Stored(if t == Alarm then [] else seq(|Routed(qs, unzip, out, t, |qs|)|, k => 0))
  }

  lemma AllStoredPossible(qs: Queries, unzip: Unzip, out: Option<Table>)
    requires AllReceived(qs)
    ensures Possible(AllStored(qs, unzip, out), qs, unzip, out)
  {
    forall t: Table ensures t in TABLES { TablesComplete(t); }
  }

  lemma LostAlarm(os: Outcomes, qs: Queries, unzip: Unzip, out: Option<Table>, lib: Library, i: nat)
    requires AllReceived(qs) && (forall t: Table :: t in os) && os[Alarm].Stored?
    requires i < |qs| && TopicAt(qs, i) == Batched(Alarm) && !Decodes(qs, unzip, i)
    ensures !AllDeserved(os, qs, unzip, out, lib)
  {
    LookedSame(qs[i], unzip);
    var reply := WriteReply(Looked(qs[i], unzip), AllNumbers(os), AllErrors(os), lib, Place(qs, i));
    assert reply.Succeeded();
    assert !Deserved(os, qs, unzip, out, i, reply);
  }

  lemma LostElement(os: Outcomes, qs: Queries, unzip: Unzip, out: Option<Table>, lib: Library, i: nat)
    requires AllReceived(qs) && forall t: Table :: t in os
    requires i < |qs| && TopicAt(qs, i).Batched? && TopicAt(qs, i) != Batched(Alarm) && !Decodes(qs, unzip, i)
    requires NumbersOf(os[TopicAt(qs, i).table]) != []
    ensures !AllDeserved(os, qs, unzip, out, lib)
  {
    LookedSame(qs[i], unzip);
    var reply := WriteReply(Looked(qs[i], unzip), AllNumbers(os), AllErrors(os), lib, Place(qs, i));
    assert reply.Succeeded();
    assert !Deserved(os, qs, unzip, out, i, reply);
  }

  lemma StrayElement(os: Outcomes, qs: Queries, unzip: Unzip, out: Option<Table>, lib: Library, i: nat, t: Table)
    requires AllReceived(qs) && (forall x: Table :: x in os) && t != Alarm && os[t].Stored?
    requires |os[t].numbers| == |Routed(qs, unzip, out, t, |qs|)|
    requires i < |qs| && Target(qs, unzip, out, i) == Some(t) && TopicAt(qs, i) != Batched(t)
    requires forall j :: 0 <= j < |qs| && TopicAt(qs, j) == Batched(t) ==> Decodes(qs, unzip, j)
    ensures !AllDeserved(os, qs, unzip, out, lib)
  {
    forall j | 0 <= j < |qs| && TopicAt(qs, j) == Batched(t) ensures Target(qs, unzip, out, j) == Some(t) {
      OwnTarget(qs, unzip, out, j);
    }
    Outnumbered(qs, unzip, out, t, |qs|);
    assert !UsedUp(os, qs);
  }

  lemma UncleanFails(qs: Queries, unzip: Unzip, out: Option<Table>, lib: Library)
    requires AllReceived(qs) && !Clean(qs, unzip, out)
    ensures Possible(AllStored(qs, unzip, out), qs, unzip, out)
    ensures !AllDeserved(AllStored(qs, unzip, out), qs, unzip, out, lib)
  {
    var os := AllStored(qs, unzip, out);
    AllStoredPossible(qs, unzip, out);
    if i :| 0 <= i < |qs| && TopicAt(qs, i) == Batched(Alarm) && !Decodes(qs, unzip, i) {
      LostAlarm(os, qs, unzip, out, lib, i);
    } else {
      var i, j :| 0 <= i < |qs| && 0 <= j < |qs| && !NoStray(qs, unzip, Target(qs, unzip, out, i), i, j);
      var t := Target(qs, unzip, out, i).value;
      RoutedExact(qs, unzip, out, t, |qs|);
      assert i in Routed(qs, unzip, out, t, |qs|);
      if m :| 0 <= m < |qs| && TopicAt(qs, m) == Batched(t) && !Decodes(qs, unzip, m) {
        LostElement(os, qs, unzip, out, lib, m);
      } else {
        StrayElement(os, qs, unzip, out, lib, i, t);
      }
    }
  }

  /** Whatever becomes of the arrays, every query gets the answer its own element deserves, and
      every vector of numbers is used up exactly: this holds exactly for clean batches. */
  lemma AlignedIff(qs: Queries, unzip: Unzip, out: Option<Table>, lib: Library)
    requires AllReceived(qs)
    ensures Clean(qs, unzip, out) <==>
      forall os :: Possible(os, qs, unzip, out) ==> AllDeserved(os, qs, unzip, out, lib)
  {
    if Clean(qs, unzip, out) {
      forall os | Possible(os, qs, unzip, out) ensures AllDeserved(os, qs, unzip, out, lib) {
        CleanUsedUp(os, qs, unzip, out);
        forall i | 0 <= i < |qs| { CleanDeserved(os, qs, unzip, out, lib, i); }
      }
    } else {
      UncleanFails(qs, unzip, out, lib);
    }
  }

  /** When a table's insert fails, the queries of that topic are told so, and no others. */
  lemma FailureStaysInItsTopic(os: Outcomes, qs: Queries, unzip: Unzip, out: Option<Table>, lib: Library, i: nat)
    requires AllReceived(qs) && Possible(os, qs, unzip, out) && i < |qs|
    requires forall i :: 0 <= i < |qs| ==> !TopicAt(qs, i).Unknown? && Decodes(qs, unzip, i)
    requires TopicAt(qs, i).Batched?
    ensures var reply := WriteReply(Looked(qs[i], unzip), AllNumbers(os), AllErrors(os), lib, Place(qs, i));
      |reply.parts| >= 3 && reply.parts[2] == U32(if os[TopicAt(qs, i).table].Refused? then 0 else 1)
  {
    CleanDeserved(os, qs, unzip, out, lib, i);
  }
}
