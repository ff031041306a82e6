/** Where a query ends up, told by the letter of its topic and by what its four parts hold, from the wire
    to the arrays of its batch. */
module Filing {
  import opened Options
  import opened Workload
  import opened Messages
  import opened WriteSplit
  import Receiver

  /** The frame of a zstd message: more than four bytes that begin with 28 B5 2F FD. */
  predicate Packed(raw: string) {
    |raw| > 4 && raw[0] == 0x28 as char && raw[1] == 0xB5 as char && raw[2] == 0x2F as char && raw[3] == 0xFD as char
  }

  /** What a query says: its last part, unpacked if it is packed. */
  function Says(query: string, unzip: Unzip): Unzipped {
    if Packed(query) then unzip(query) else Unzipped.Text(query)
  }

  lemma PackedExact(raw: string)
    ensures Packed(raw) <==> Compressed(raw)
  {
    if |raw| > 4 {
      assert raw[..4] == [raw[0], raw[1], raw[2], raw[3]];
    }
  }

  /** An entry of a batch as the receiver stores it. */
  function Entry(client: string, id: string, topic: string, query: string): Receiver.Parts {
    [client, id, topic, query]
  }

  /** The query of such an entry, not looked at so far. */
  function QueryOf(entry: Receiver.Parts): (q: ZmqQuery)
    requires |entry| == 4
    ensures |entry[2]| > 2 ==> q.Received()
  {
    ZmqQuery([Bytes(entry[0]), Bytes(entry[1]), Bytes(entry[2]), Bytes(entry[3])], "", [], "")
  }

  /** The batch holds, as its i-th entry, a message with these parts in these slots. */
  predicate Holds(qs: Queries, i: nat, client: string, id: string, topic: string, query: string) {
    i < |qs| && |topic| > 2 && qs[i].parts == [Bytes(client), Bytes(id), Bytes(topic), Bytes(query)]
  }

  /** A message with four parts, from either kind of socket, is held with its parts in these slots. */
  lemma FromWire(wire: Receiver.Wire, client: string, id: string, topic: string, query: string)
    requires |topic| > 2
    ensures var m := Receiver.OnWire(wire, client, id, topic, query);
      Holds([QueryOf(Receiver.Filled(wire, Receiver.BLANK, m, |m|))], 0, client, id, topic, query)
  {
    Receiver.StoredAlike(wire, Receiver.BLANK, client, id, topic, query);
  }

  lemma Decoded(qs: Queries, unzip: Unzip, i: nat, client: string, id: string, topic: string, query: string)
    requires Holds(qs, i, client, id, topic, query)
    ensures qs[i].Received() && Decode(qs[i], unzip) == Says(query, unzip) && qs[i].Letter() == topic[2]
  {
    PackedExact(query);
  }

  /** Element m of the array of table t is query i, with this text. */
  ghost predicate ElementOf(qs: Queries, unzip: Unzip, out: Option<Table>, t: Table, m: nat, i: nat, text: string)
    requires AllReceived(qs)
  {
    && m < |Routed(qs, unzip, out, t, |qs|)| && Routed(qs, unzip, out, t, |qs|)[m] == i
    && Elements(qs, unzip, out, t, |qs|)[m] == text
  }

  lemma InArray(qs: Queries, unzip: Unzip, out: Option<Table>, t: Table, i: nat) returns (m: nat)
    requires AllReceived(qs) && i < |qs| && Target(qs, unzip, out, i) == Some(t)
    ensures ElementOf(qs, unzip, out, t, m, i, TextAt(qs, unzip, i))
  {
    var idx := Routed(qs, unzip, out, t, |qs|);
    RoutedExact(qs, unzip, out, t, |qs|);
    assert i in idx;
    m :| 0 <= m < |idx| && idx[m] == i;
  }

  /** The query is an element of exactly these arrays, and is noted as generic or not. */
  ghost predicate FiledUnder(qs: Queries, unzip: Unzip, out: Option<Table>, i: nat, tables: set<Table>, generic: bool)
    requires AllReceived(qs)
  {
    && (forall t: Table :: i in Routed(qs, unzip, out, t, |qs|) <==> t in tables)
    && (i in GenericIndices(qs, unzip, |qs|) <==> generic)
  }

  lemma FiledExact(qs: Queries, unzip: Unzip, out: Option<Table>, i: nat)
    requires AllReceived(qs) && i < |qs|
    ensures forall t: Table :: i in Routed(qs, unzip, out, t, |qs|) <==> Target(qs, unzip, out, i) == Some(t)
    ensures i in GenericIndices(qs, unzip, |qs|) <==> Decodes(qs, unzip, i) && TopicAt(qs, i).Generics?
  {
    forall t: Table ensures i in Routed(qs, unzip, out, t, |qs|) <==> Target(qs, unzip, out, i) == Some(t) {
      RoutedExact(qs, unzip, out, t, |qs|);
    }
    GenericIndicesExact(qs, unzip, |qs|);
  }

  /** A query whose topic has the letter of a table is an element of the array of exactly that table,
      with what it says as the element's text. */
  lemma FiledByLetter(qs: Queries, unzip: Unzip, out: Option<Table>, i: nat, t: Table,
                      client: string, id: string, topic: string, query: string) returns (m: nat)
    requires AllReceived(qs) && Holds(qs, i, client, id, topic, query)
    requires Names(topic[2], t) && Says(query, unzip).Text?
    ensures FiledUnder(qs, unzip, out, i, {t}, false)
    ensures ElementOf(qs, unzip, out, t, m, i, Says(query, unzip).s)
  {
    hide Routed, GenericIndices, OutAfter;
    Decoded(qs, unzip, i, client, id, topic, query);
    assert Target(qs, unzip, out, i) == Some(t);
    FiledExact(qs, unzip, out, i);
    m := InArray(qs, unzip, out, t, i);
  }

  /** The letter Q: noted as generic, and in no array; the database is given what the query says. */
  lemma GenericByLetter(qs: Queries, unzip: Unzip, out: Option<Table>, i: nat,
                        client: string, id: string, topic: string, query: string)
    requires AllReceived(qs) && Holds(qs, i, client, id, topic, query) && topic[2] == 'Q' && Says(query, unzip).Text?
    ensures FiledUnder(qs, unzip, out, i, {}, true)
    ensures var q := Looked(qs[i], unzip); q.Received() && q.Text() == Says(query, unzip).s && q.err == qs[i].err
  {
    hide Routed, GenericIndices, OutAfter;
    PackedExact(query);
    Decoded(qs, unzip, i, client, id, topic, query);
    FiledExact(qs, unzip, out, i);
  }

  /** A query that cannot be unpacked is in no array, whatever its letter, and keeps the error. */
  lemma NotUnpacked(qs: Queries, unzip: Unzip, out: Option<Table>, i: nat,
                    client: string, id: string, topic: string, query: string)
    requires AllReceived(qs) && Holds(qs, i, client, id, topic, query) && Says(query, unzip).Bad?
    ensures FiledUnder(qs, unzip, out, i, {}, false)
    ensures Looked(qs[i], unzip) == qs[i].(err := Says(query, unzip).why)
  {
    hide Routed, GenericIndices, OutAfter;
    PackedExact(query);
    Decoded(qs, unzip, i, client, id, topic, query);
    FiledExact(qs, unzip, out, i);
  }

  ghost predicate Named(q: ZmqQuery)
    requires q.Received()
  {
    exists t: Table :: Names(q.Letter(), t)
  }

  /** None of the queries from lo on has a table's letter and can be unpacked. */
  ghost predicate NoneNamed(qs: Queries, unzip: Unzip, lo: nat, hi: nat)
    requires AllReceived(qs) && hi <= |qs|
  {
    forall k :: lo <= k < hi && Decodes(qs, unzip, k) ==> !Named(qs[k])
  }

  /** Query j is the last of the first n that has a table's letter and can be unpacked. */
  ghost predicate LastAt(qs: Queries, unzip: Unzip, n: nat, j: nat, t: Table)
    requires AllReceived(qs) && n <= |qs|
  {
    j < n && Decodes(qs, unzip, j) && Names(qs[j].Letter(), t) && NoneNamed(qs, unzip, j + 1, n)
  }

  /** The table of the last such query among the first n; what an earlier job left, if there is none. */
  ghost predicate LastNamed(qs: Queries, unzip: Unzip, out: Option<Table>, n: nat, hand: Option<Table>)
    requires AllReceived(qs) && n <= |qs|
  {
    || (hand == out && NoneNamed(qs, unzip, 0, n))
    || (hand.Some? && exists j :: LastAt(qs, unzip, n, j, hand.value))
  }

  lemma {:induction false} HandExact(qs: Queries, unzip: Unzip, out: Option<Table>, n: nat)
    requires AllReceived(qs) && n <= |qs|
    ensures LastNamed(qs, unzip, out, n, OutAfter(qs, unzip, out, n))
  {
    hide Names, TopicOf, LastAt, Named;
    if n == 0 {
    } else {
      HandExact(qs, unzip, out, n - 1);
      var before := OutAfter(qs, unzip, out, n - 1);
      if Decodes(qs, unzip, n - 1) && TopicAt(qs, n - 1).Batched? {
        NewHand(qs, unzip, n);
      } else {
        SameHand(qs, unzip, out, n, before);
      }
    }
  }

  lemma NewHand(qs: Queries, unzip: Unzip, n: nat)
    requires AllReceived(qs) && 0 < n <= |qs| && Decodes(qs, unzip, n - 1) && TopicAt(qs, n - 1).Batched?
    ensures LastAt(qs, unzip, n, n - 1, TopicAt(qs, n - 1).table)
  {
  }

  lemma SameHand(qs: Queries, unzip: Unzip, out: Option<Table>, n: nat, hand: Option<Table>)
    requires AllReceived(qs) && 0 < n <= |qs| && LastNamed(qs, unzip, out, n - 1, hand)
    requires Decodes(qs, unzip, n - 1) ==> !TopicAt(qs, n - 1).Batched?
    ensures LastNamed(qs, unzip, out, n, hand)
  {
    hide Names, TopicOf;
    NamesExact(qs[n - 1].Letter());
    assert Decodes(qs, unzip, n - 1) ==> !Named(qs[n - 1]);
    if hand.Some? {
      var m := n - 1;
      if j :| LastAt(qs, unzip, m, j, hand.value) { assert LastAt(qs, unzip, n, j, hand.value); }
    }
  }

  /** Any other letter: the query is appended to the array of the nearest earlier query with a table's
      letter, or to whatever buffer an earlier job has left in hand. */
  lemma StrayByLetter(qs: Queries, unzip: Unzip, out: Option<Table>, i: nat,
                      client: string, id: string, topic: string, query: string)
    requires AllReceived(qs) && Holds(qs, i, client, id, topic, query) && Says(query, unzip).Text?
    requires topic[2] != 'Q' && forall t: Table :: !Names(topic[2], t)
    ensures exists hand :: LastNamed(qs, unzip, out, i, hand)
              && FiledUnder(qs, unzip, out, i, if hand.Some? then {hand.value} else {}, false)
  {
    hide Routed, GenericIndices, OutAfter, LastNamed;
    Decoded(qs, unzip, i, client, id, topic, query);
    NamesExact(topic[2]);
    FiledExact(qs, unzip, out, i);
    HandExact(qs, unzip, out, i);
    assert Target(qs, unzip, out, i) == OutAfter(qs, unzip, out, i);
  }
}
