/** Splitting a batch of interleaved write queries into one JSON array per table. */
module WriteSplit {
  import opened Options
  import opened Workload
  import opened Messages

  type Queries = seq<ZmqQuery>

  ghost predicate AllReceived(qs: Queries) {
    forall i :: 0 <= i < |qs| ==> qs[i].Received()
  }

  // ---- where each query goes ----

  function TopicAt(qs: Queries, i: nat): Topic
    requires i < |qs| && qs[i].Received()
  {
    TopicOf(qs[i].Letter())
  }

  predicate Decodes(qs: Queries, unzip: Unzip, i: nat)
    requires i < |qs| && qs[i].Received()
  {
    Decode(qs[i], unzip).Text?
  }

  /** The buffer in hand after query q: a generic query or one that does not decode leaves it
      alone. None stands for a buffer of some other batch. */
  function Hand(q: ZmqQuery, unzip: Unzip, out: Option<Table>): Option<Table>
    requires q.Received()
  {
    if Decode(q, unzip).Text? && TopicOf(q.Letter()).Batched? then Some(TopicOf(q.Letter()).table) else out
  }

  /** The table whose array query q is appended to. A query of unknown topic goes to whatever
      buffer is in hand. */
  function Destination(q: ZmqQuery, unzip: Unzip, out: Option<Table>): Option<Table>
    requires q.Received()
  {
    if Decode(q, unzip).Bad? then None
    else match TopicOf(q.Letter())
      case Batched(t) => Some(t)
      case Generics => None
      case Unknown => out
  }

  function OutAfter(qs: Queries, unzip: Unzip, out: Option<Table>, n: nat): Option<Table>
    requires AllReceived(qs) && n <= |qs|
  {
    if n == 0 then out else Hand(qs[n - 1], unzip, OutAfter(qs, unzip, out, n - 1))
  }

  function Target(qs: Queries, unzip: Unzip, out: Option<Table>, i: nat): Option<Table>
    requires AllReceived(qs) && i < |qs|
  {
    Destination(qs[i], unzip, OutAfter(qs, unzip, out, i))
  }

  /** The queries among the first n that end up in the array of table t, in order. */
  function Routed(qs: Queries, unzip: Unzip, out: Option<Table>, t: Table, n: nat): (idx: seq<nat>)
    requires AllReceived(qs) && n <= |qs|
    ensures forall k :: 0 <= k < |idx| ==> idx[k] < n
  {
    if n == 0 then []
    else if Target(qs, unzip, out, n - 1) == Some(t) then Routed(qs, unzip, out, t, n - 1) + [n - 1]
    else Routed(qs, unzip, out, t, n - 1)
  }

  ghost predicate Increasing(s: seq<nat>) {
    forall a, b :: 0 <= a < b < |s| ==> s[a] < s[b]
  }

  /** A table's array holds exactly the queries filed under it, in order of arrival. */
  lemma {:induction false} RoutedExact(qs: Queries, unzip: Unzip, out: Option<Table>, t: Table, n: nat)
    requires AllReceived(qs) && n <= |qs|
    ensures forall i: nat :: i in Routed(qs, unzip, out, t, n) <==> i < n && Target(qs, unzip, out, i) == Some(t)
    ensures Increasing(Routed(qs, unzip, out, t, n))
  {
    hide Target;
    if n == 0 {
    } else {
      RoutedExact(qs, unzip, out, t, n - 1);
    }
  }

  /** The generic queries among the first n. */
  function GenericIndices(qs: Queries, unzip: Unzip, n: nat): seq<nat>
    requires AllReceived(qs) && n <= |qs|
  {
    if n == 0 then []
    else if Decodes(qs, unzip, n - 1) && TopicAt(qs, n - 1).Generics? then GenericIndices(qs, unzip, n - 1) + [n - 1]
    else GenericIndices(qs, unzip, n - 1)
  }

  lemma {:induction false} GenericIndicesExact(qs: Queries, unzip: Unzip, n: nat)
    requires AllReceived(qs) && n <= |qs|
    ensures forall i: nat :: i in GenericIndices(qs, unzip, n) <==>
              i < n && Decodes(qs, unzip, i) && TopicAt(qs, i).Generics?
  {
    if n == 0 {
    } else {
      GenericIndicesExact(qs, unzip, n - 1);
    }
  }

  function TextAt(qs: Queries, unzip: Unzip, i: nat): string
    requires AllReceived(qs) && i < |qs|
  {
    var d := Decode(qs[i], unzip);
    if d.Text? then d.s else ""
  }

  /** The message texts that the indices stand for. */
  function Texts(qs: Queries, unzip: Unzip, idx: seq<nat>): (texts: seq<string>)
    requires AllReceived(qs) && forall k :: 0 <= k < |idx| ==> idx[k] < |qs|
    ensures |texts| == |idx| && forall k :: 0 <= k < |idx| ==> texts[k] == TextAt(qs, unzip, idx[k])
  {
    if idx == [] then [] else Texts(qs, unzip, idx[..|idx| - 1]) + [TextAt(qs, unzip, idx[|idx| - 1])]
  }

  /** The texts of the first n queries that belong to the array of table t. */
  function Elements(qs: Queries, unzip: Unzip, out: Option<Table>, t: Table, n: nat): seq<string>
    requires AllReceived(qs) && n <= |qs|
  {
    Texts(qs, unzip, Routed(qs, unzip, out, t, n))
  }

  // ---- arrays ----

  function Append(buffer: string, text: string): string {
    (if |buffer| > 1 then buffer + ", " else buffer) + text
  }

  function Filled(texts: seq<string>): string {
    if texts == [] then "[" else Append(Filled(texts[..|texts| - 1]), texts[|texts| - 1])
  }

  function Closed(buffer: string): string {
    if |buffer| != 1 then buffer + "]" else ""
  }

  function ArrayOf(texts: seq<string>): string {
    Closed(Filled(texts))
  }

  /** A query after the write worker has looked at it. */
  function Looked(q: ZmqQuery, unzip: Unzip): ZmqQuery
    requires q.Received()
  {
    if !Compressed(q.Raw()) then q
    else match unzip(q.Raw())
      case Text(s) => q.(decompressed := s)
      case Bad(why) => q.(err := why)
  }

  /** All tables hold the same value. */
  ghost predicate Same<V>(m: map<Table, V>, v: V) {
    forall t: Table :: t in m && m[t] == v
  }

  class QueryBatch {
    var queries: Queries
    var buffers: map<Table, string>
    var genericIndices: seq<nat>
    var numbers: map<Table, seq<nat>>
    var errors: map<Table, string>

    constructor ()
      ensures queries == [] && genericIndices == [] && buffers == map[] && numbers == map[] && errors == map[]
    {
      queries, genericIndices := [], [];
      buffers, numbers, errors := map[], map[], map[];
    }

    method Reset()
      modifies this
      ensures queries == old(queries) && genericIndices == []
      ensures Same(buffers, "[") && Same(numbers, []) && Same(errors, "")
    {
      forall t: Table ensures t in TABLES { TablesComplete(t); }
      buffers := map t | t in TABLES :: "[";
      numbers := map t | t in TABLES :: [];
      errors := map t | t in TABLES :: "";
      genericIndices := [];
    }

    method Close()
      requires forall t: Table :: t in buffers
      modifies this`buffers
      ensures forall t: Table :: t in buffers && buffers[t] == Closed(old(buffers)[t])
    {
      buffers := map t | t in buffers :: Closed(buffers[t]);
    }
  }

  class WriteJob {
    /** The buffer that was appended to last, if it is one of the batch in hand. */
    var outBuffer: Option<Table>

    constructor ()
      ensures outBuffer == None
    {
      outBuffer := None;
    }

    /** Files one query. */
    method File(batch: QueryBatch, unzip: Unzip, i: nat)
      requires i < |batch.queries| && batch.queries[i].Received() && forall t: Table :: t in batch.buffers
      modifies this, batch`queries, batch`buffers, batch`genericIndices
      ensures var q := old(batch.queries)[i];
        && batch.queries == old(batch.queries)[i := Looked(q, unzip)]
        && outBuffer == Hand(q, unzip, old(outBuffer))
        && batch.genericIndices == old(batch.genericIndices) +
             (if Decode(q, unzip).Text? && TopicOf(q.Letter()).Generics? then [i] else [])
        && batch.buffers == (var target := Destination(q, unzip, old(outBuffer));
             if target.None? then old(batch.buffers)
             else old(batch.buffers)[target.value := Append(old(batch.buffers)[target.value], Decode(q, unzip).s)])
      ensures var q := old(batch.queries)[i];
        forall t :: Names(q.parts[2].s[2], t) && Decode(q, unzip).Text? ==>
          outBuffer == Some(t) && batch.buffers[t] == Append(old(batch.buffers)[t], Decode(q, unzip).s)
    {
      var query := batch.queries[i];
      var text, topic := Decode(query, unzip), TopicOf(query.Letter());
      NamesExact(query.Letter());
      batch.queries := batch.queries[i := Looked(query, unzip)];
      if text.Text? {
        if topic.Generics? {
          batch.genericIndices := batch.genericIndices + [i];
        } else {
          if topic.Batched? { outBuffer := Some(topic.table); }
          if outBuffer.Some? {
            var t := outBuffer.value;
            batch.buffers := batch.buffers[t := Append(batch.buffers[t], text.s)];
          }
        }
      }
    }

    method FileAll(batch: QueryBatch, unzip: Unzip)
      requires AllReceived(batch.queries) && Same(batch.buffers, "[") && batch.genericIndices == []
      modifies this, batch`queries, batch`buffers, batch`genericIndices
      ensures var qs, n := old(batch.queries), |old(batch.queries)|;
        && |batch.queries| == n && (forall i :: 0 <= i < n ==> batch.queries[i] == Looked(qs[i], unzip))
        && batch.genericIndices == GenericIndices(qs, unzip, n)
        && FilledTo(batch.buffers, qs, unzip, old(outBuffer), n)
    {
      hide Looked, Texts;
      ghost var out0 := outBuffer;
      ghost var qs := batch.queries;
      var n := |batch.queries|;
      var i := 0;
      while i < n
        invariant 0 <= i <= n == |batch.queries| == |qs|
        invariant forall k :: 0 <= k < i ==> batch.queries[k] == Looked(qs[k], unzip)
        invariant forall k :: i <= k < n ==> batch.queries[k] == qs[k]
        invariant outBuffer == OutAfter(qs, unzip, out0, i)
        invariant batch.genericIndices == GenericIndices(qs, unzip, i)
        invariant FilledTo(batch.buffers, qs, unzip, out0, i)
      {
        ghost var before := batch.buffers;
        File(batch, unzip, i);
        FilledStep(before, batch.buffers, qs, unzip, out0, i);
        i := i + 1;
      }
    }

    /** Fills the arrays of a batch. The pointer that an earlier job left behind names a buffer of
        another batch (None), or a buffer of this one if the batch has been recycled since: `left`
        says which. Nothing but the queries and that pointer influences what ends up in the arrays. */
    method WriteMessageJob(batch: QueryBatch, unzip: Unzip, left: Option<Table>)
      requires AllReceived(batch.queries)
      modifies this, batch
      ensures var qs, n := old(batch.queries), |old(batch.queries)|;
        && |batch.queries| == n && (forall i :: 0 <= i < n ==> batch.queries[i] == Looked(qs[i], unzip))
        && batch.genericIndices == GenericIndices(qs, unzip, n)
        && (forall t: Table ::
              t in batch.buffers && batch.buffers[t] == ArrayOf(Elements(qs, unzip, left, t, n)))
        && Same(batch.numbers, []) && Same(batch.errors, "")
      ensures AllCarried(old(batch.queries), unzip, left)
    {
      hide Elements, Looked, GenericIndices, AllCarried;
      outBuffer := left;
      batch.Reset();
      CarriedAll(batch.queries, unzip, left);
      FileAll(batch, unzip);
      batch.Close();
    }
  }

  /** A query that decodes is among the elements of the table that its letter names. */
  lemma Carried(qs: Queries, unzip: Unzip, out: Option<Table>, i: nat, t: Table)
    requires AllReceived(qs) && i < |qs| && Decodes(qs, unzip, i) && Names(qs[i].parts[2].s[2], t)
    ensures i in Routed(qs, unzip, out, t, |qs|) && TextAt(qs, unzip, i) in Elements(qs, unzip, out, t, |qs|)
  {
    hide Routed, OutAfter;
    NamesExact(qs[i].Letter());
    RoutedExact(qs, unzip, out, t, |qs|);
    var idx := Routed(qs, unzip, out, t, |qs|);
    assert Target(qs, unzip, out, i) == Some(t);
    var m :| 0 <= m < |idx| && idx[m] == i;
    assert Elements(qs, unzip, out, t, |qs|)[m] == TextAt(qs, unzip, i);
  }

  /** Every query that decodes is among the elements of the table that its letter names. */
  ghost predicate AllCarried(qs: Queries, unzip: Unzip, out: Option<Table>)
    requires AllReceived(qs)
  {
    forall i, t :: 0 <= i < |qs| && Decodes(qs, unzip, i) && Names(qs[i].parts[2].s[2], t) ==>
      i in Routed(qs, unzip, out, t, |qs|) && TextAt(qs, unzip, i) in Elements(qs, unzip, out, t, |qs|)
  }

  lemma CarriedAll(qs: Queries, unzip: Unzip, out: Option<Table>)
    requires AllReceived(qs)
    ensures AllCarried(qs, unzip, out)
  {
    hide Routed, Elements, TextAt, Decodes, Names;
    forall i, t | 0 <= i < |qs| && Decodes(qs, unzip, i) && Names(qs[i].parts[2].s[2], t)
      ensures i in Routed(qs, unzip, out, t, |qs|) && TextAt(qs, unzip, i) in Elements(qs, unzip, out, t, |qs|)
    {
      Carried(qs, unzip, out, i, t);
    }
  }

  ghost predicate FilledTo(buffers: map<Table, string>, qs: Queries, unzip: Unzip, out: Option<Table>, n: nat)
    requires AllReceived(qs) && n <= |qs|
  {
    forall t: Table :: t in buffers && buffers[t] == Filled(Elements(qs, unzip, out, t, n))
  }

  /** What query i adds to the buffer of table t. */
  lemma FilledOne(qs: Queries, unzip: Unzip, out: Option<Table>, t: Table, i: nat)
    requires AllReceived(qs) && i < |qs|
    ensures var before, after := Elements(qs, unzip, out, t, i), Elements(qs, unzip, out, t, i + 1);
      Filled(after) == if Target(qs, unzip, out, i) == Some(t) then Append(Filled(before), TextAt(qs, unzip, i))
                       else Filled(before)
  {
    hide Target, TextAt, Append;
    var idx := Routed(qs, unzip, out, t, i + 1);
    if Target(qs, unzip, out, i) == Some(t) { assert idx[..|idx| - 1] == Routed(qs, unzip, out, t, i); }
  }

  lemma FilledStep(before: map<Table, string>, after: map<Table, string>,
                   qs: Queries, unzip: Unzip, out: Option<Table>, i: nat)
    requires AllReceived(qs) && i < |qs| && FilledTo(before, qs, unzip, out, i)
    requires var target := Target(qs, unzip, out, i);
      if target.Some? then target.value in before &&
        after == before[target.value := Append(before[target.value], TextAt(qs, unzip, i))]
      else after == before
    ensures FilledTo(after, qs, unzip, out, i + 1)
  {
    hide Elements, Filled, Append, Target, TextAt;
    forall t: Table ensures t in after && after[t] == Filled(Elements(qs, unzip, out, t, i + 1)) {
      FilledOne(qs, unzip, out, t, i);
    }
  }

  // ---- when the buffer left in hand by an earlier job matters ----

  /** Among the first n queries is one that puts a buffer of this batch in hand. */
  ghost predicate HandSet(qs: Queries, unzip: Unzip, n: nat)
    requires AllReceived(qs) && n <= |qs|
  {
    exists j :: 0 <= j < n && Decodes(qs, unzip, j) && TopicAt(qs, j).Batched?
  }

  /** Every query of unknown topic that decodes comes after one that puts a buffer in hand. */
  ghost predicate UnknownsLate(qs: Queries, unzip: Unzip)
    requires AllReceived(qs)
  {
    forall i :: 0 <= i < |qs| && Decodes(qs, unzip, i) && TopicAt(qs, i).Unknown? ==> HandSet(qs, unzip, i)
  }

  lemma {:induction false} HandOf(qs: Queries, unzip: Unzip, a: Option<Table>, b: Option<Table>, n: nat)
    requires AllReceived(qs) && n <= |qs|
    ensures HandSet(qs, unzip, n) ==> OutAfter(qs, unzip, a, n) == OutAfter(qs, unzip, b, n)
    ensures !HandSet(qs, unzip, n) ==> OutAfter(qs, unzip, a, n) == a
  {
    if n == 0 {
    } else {
      HandOf(qs, unzip, a, b, n - 1);
      if HandSet(qs, unzip, n - 1) { assert HandSet(qs, unzip, n); }
      if Decodes(qs, unzip, n - 1) && TopicAt(qs, n - 1).Batched? { assert HandSet(qs, unzip, n); }
    }
  }

  lemma {:induction false} SameRouted(qs: Queries, unzip: Unzip, a: Option<Table>, b: Option<Table>, t: Table, n: nat)
    requires AllReceived(qs) && n <= |qs| && UnknownsLate(qs, unzip)
    ensures Routed(qs, unzip, a, t, n) == Routed(qs, unzip, b, t, n)
  {
    if n == 0 {
    } else {
      SameRouted(qs, unzip, a, b, t, n - 1);
      HandOf(qs, unzip, a, b, n - 1);
    }
  }

  /** A query of unknown topic goes to whatever buffer is left in hand. */
  lemma {:induction false} StaleBufferUsed(qs: Queries, unzip: Unzip, i: nat)
    requires AllReceived(qs) && i < |qs| && Decodes(qs, unzip, i) && TopicAt(qs, i).Unknown? && !HandSet(qs, unzip, i)
    ensures Routed(qs, unzip, Some(Alarm), Alarm, |qs|) != Routed(qs, unzip, None, Alarm, |qs|)
  {
    hide Routed, OutAfter;
    HandOf(qs, unzip, None, None, i);
    HandOf(qs, unzip, Some(Alarm), None, i);
    RoutedExact(qs, unzip, None, Alarm, |qs|);
    RoutedExact(qs, unzip, Some(Alarm), Alarm, |qs|);
    assert i in Routed(qs, unzip, Some(Alarm), Alarm, |qs|) && i !in Routed(qs, unzip, None, Alarm, |qs|);
  }

  /** The buffer left in hand by an earlier job has no influence on any array if and only if no
      query of unknown topic decodes before the first batched one does. */
  lemma StaleBufferIff(qs: Queries, unzip: Unzip)
    requires AllReceived(qs)
    ensures UnknownsLate(qs, unzip) <==>
      forall a, b, t :: Routed(qs, unzip, a, t, |qs|) == Routed(qs, unzip, b, t, |qs|)
  {
    hide Routed, HandSet;
    if UnknownsLate(qs, unzip) {
      forall a, b, t { SameRouted(qs, unzip, a, b, t, |qs|); }
    } else {
      var i :| 0 <= i < |qs| && Decodes(qs, unzip, i) && TopicAt(qs, i).Unknown? && !HandSet(qs, unzip, i);
      StaleBufferUsed(qs, unzip, i);
    }
  }

  /** A recycled batch gives the same arrays, indices, numbers and errors as a fresh one, whatever
      either batch, the job structure and its pointer held before. */
  method RecycledLikeFresh(recycled: QueryBatch, fresh': QueryBatch, job: WriteJob, unzip: Unzip,
                           left: Option<Table>, left': Option<Table>)
    requires recycled != fresh' && recycled.queries == fresh'.queries && AllReceived(recycled.queries)
    requires UnknownsLate(recycled.queries, unzip)
    modifies recycled, fresh', job
    ensures recycled.queries == fresh'.queries && recycled.buffers == fresh'.buffers
    ensures recycled.genericIndices == fresh'.genericIndices
    ensures recycled.numbers == fresh'.numbers && recycled.errors == fresh'.errors
  {
    ghost var qs := recycled.queries;
    job.WriteMessageJob(recycled, unzip, left);
    job.WriteMessageJob(fresh', unzip, left');
    forall t { SameRouted(qs, unzip, left, left', t, |qs|); }
  }
}
