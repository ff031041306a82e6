/** Receiving multipart messages into the entries of a batch: the receivers of write and of read
    queries, which differ in the order of the parts on the wire. */
module Receiver {

  /** The first four parts on the wire: publishers put the topic first, routed clients second. */
  datatype Wire = Publisher | Router {
    /** The slot that each part is received into; further parts go where the fourth went. */
    function Order(): (order: seq<nat>)
      ensures |order| == 4 && forall k :: 0 <= k < 4 ==> order[k] < 4
    {
      match this
      case Publisher => [2, 0, 1, 3]
      case Router => [0, 2, 1, 3]
    }
  }

  type Parts = seq<string>

  const BLANK: Parts := ["", "", "", ""]

  /** What the socket yields: nothing, or the parts of a message that were received before the
      receive failed, if it did. A message has at least one part. */
  datatype Incoming = Nothing | Message(parts: Parts, failed: bool) {
    predicate Possible() {
      Message? && !failed ==> parts != []
    }

    predicate WellFormed() {
      Message? && !failed && |parts| == 4
    }
  }

  /** One turn: whether the transfer period is over, and what the socket yields. */
  datatype Tick = Tick(elapsed: bool, m: Incoming)

  datatype State = State(queries: seq<Parts>, makeNew: bool, published: seq<seq<Parts>>)

  const START: State := State([], true, [])

  predicate Valid(s: State) {
    && (!s.makeNew ==> s.queries != [])
    && (forall k :: 0 <= k < |s.queries| ==> |s.queries[k]| == 4)
  }

  function Slot(wire: Wire, k: nat): (slot: nat)
    ensures slot < 4
  {
    wire.Order()[if k < 3 then k else 3]
  }

  /** An entry after n parts have been received into it. */
  function Filled(wire: Wire, entry: Parts, parts: Parts, n: nat): (r: Parts)
    requires |entry| == 4 && n <= |parts|
    ensures |r| == 4
  {
    if n == 0 then entry else Filled(wire, entry, parts, n - 1)[Slot(wire, n - 1) := parts[n - 1]]
  }

  /** Hands the batch over. An entry that is not complete is dropped. */
  function Transfer(s: State): State
    requires Valid(s)
  {
    if s.queries == [] then s
    else State([], true, s.published + [if s.makeNew then s.queries else s.queries[..|s.queries| - 1]])
  }

  /** Receives into a new entry, or into the one that was left incomplete. */
  function Receive(wire: Wire, s: State, m: Incoming): (r: State)
    requires Valid(s)
    ensures Valid(r)
  {
    if m.Nothing? then s
    else
      var queries := if s.makeNew then s.queries + [BLANK] else s.queries;
      var entry := Filled(wire, queries[|queries| - 1], m.parts, |m.parts|);
      State(queries[|queries| - 1 := entry], m.WellFormed(), s.published)
  }

  /** One turn of the receiver. When the batch is full or the transfer period is over, it is handed
      over first. */
  function Turn(wire: Wire, limit: nat, s: State, elapsed: bool, m: Incoming): State
    requires Valid(s)
  {
    Receive(wire, if |s.queries| >= limit || elapsed then Transfer(s) else s, m)
  }

  function Run(wire: Wire, limit: nat, turns: seq<Tick>): (s: State)
    ensures Valid(s)
  {
    if turns == [] then START
    else
      var last := turns[|turns| - 1];
      Turn(wire, limit, Run(wire, limit, turns[..|turns| - 1]), last.elapsed, last.m)
  }

  // ---- what is to come out ----

  /** The parts of a four-part message in the order in which they are stored. */
  function Stored(wire: Wire, parts: Parts): Parts
    requires |parts| == 4
  {
    match wire
    case Publisher => [parts[1], parts[2], parts[0], parts[3]]
    case Router => [parts[0], parts[2], parts[1], parts[3]]
  }

  /** What a message adds to the stream of queries. */
  function Added(wire: Wire, m: Incoming): seq<Parts> {
    if m.WellFormed() then [Stored(wire, m.parts)] else []
  }

  /** Every well-formed message, in order. */
  function Expected(wire: Wire, turns: seq<Tick>): seq<Parts> {
    if turns == [] then []
    else Expected(wire, turns[..|turns| - 1]) + Added(wire, turns[|turns| - 1].m)
  }

  function Flatten(batches: seq<seq<Parts>>): seq<Parts> {
    if batches == [] then [] else Flatten(batches[..|batches| - 1]) + batches[|batches| - 1]
  }

  /** The entries of the local batch that are complete. */
  function Complete(s: State): seq<Parts>
    requires Valid(s)
  {
    if s.makeNew then s.queries else s.queries[..|s.queries| - 1]
  }

  /** Whatever an earlier, incomplete message left in an entry, four parts overwrite all of it. */
  lemma FourParts(wire: Wire, entry: Parts, parts: Parts)
    requires |entry| == 4 && |parts| == 4
    ensures Filled(wire, entry, parts, 4) == Stored(wire, parts)
  {
    var e0 := Filled(wire, entry, parts, 0);
    var e1 := e0[wire.Order()[0] := parts[0]];
    var e2 := e1[wire.Order()[1] := parts[1]];
    var e3 := e2[wire.Order()[2] := parts[2]];
    assert Filled(wire, entry, parts, 1) == e1;
    assert Filled(wire, entry, parts, 2) == e2;
    assert Filled(wire, entry, parts, 3) == e3;
  }

  lemma ReceiveKeeps(wire: Wire, s: State, m: Incoming)
    requires Valid(s)
    ensures var s' := Receive(wire, s, m);
      && s'.published == s.published
      && Complete(s') == Complete(s) + Added(wire, m)
  {
    if m.Message? {
      var queries := if s.makeNew then s.queries + [BLANK] else s.queries;
      if m.WellFormed() { FourParts(wire, queries[|queries| - 1], m.parts); }
      assert queries[..|queries| - 1] == Complete(s);
    }
  }

  lemma TurnKeeps(wire: Wire, limit: nat, s: State, tick: Tick)
    requires Valid(s)
    ensures var s' := Turn(wire, limit, s, tick.elapsed, tick.m);
      Flatten(s'.published) + Complete(s') == Flatten(s.published) + Complete(s) + Added(wire, tick.m)
  {
    var s1 := if |s.queries| >= limit || tick.elapsed then Transfer(s) else s;
    ReceiveKeeps(wire, s1, tick.m);
  }

  /** For any stream of messages of any number of parts, with failures anywhere: what has been
      handed over and the complete part of the local batch are exactly the well-formed messages,
      in order, each stored as client, message id, topic, query. */
  lemma {:induction false} NothingLostNothingAdded(wire: Wire, limit: nat, turns: seq<Tick>)
    ensures var s := Run(wire, limit, turns);
      Flatten(s.published) + Complete(s) == Expected(wire, turns)
  {
    if turns == [] {
    } else {
      NothingLostNothingAdded(wire, limit, turns[..|turns| - 1]);
      TurnKeeps(wire, limit, Run(wire, limit, turns[..|turns| - 1]), turns[|turns| - 1]);
    }
  }

  function OnWire(wire: Wire, client: string, id: string, topic: string, query: string): Parts {
    match wire
    case Publisher => [topic, client, id, query]
    case Router => [client, topic, id, query]
  }

  /** Both wire orders are stored alike. */
  lemma StoredAlike(wire: Wire, entry: Parts, client: string, id: string, topic: string, query: string)
    requires |entry| == 4
    ensures Filled(wire, entry, OnWire(wire, client, id, topic, query), 4) == [client, id, topic, query]
  {
    FourParts(wire, entry, OnWire(wire, client, id, topic, query));
  }

  /** An empty batch is handed over exactly when all the local batch holds is an incomplete entry. */
  lemma EmptyBatchIff(s: State)
    requires Valid(s) && s.queries != []
    ensures var s' := Transfer(s);
      && |s'.published| == |s.published| + 1
      && (s'.published[|s.published|] == [] <==> |s.queries| == 1 && !s.makeNew)
  {
  }

  /** Messages that are not well formed can make it happen, whatever the limit. */
  lemma EmptyBatchPossible(wire: Wire, limit: nat, part: string)
    ensures [] in Run(wire, limit, [Tick(false, Message([part], false)), Tick(true, Nothing)]).published
  {
    var first, second := Tick(false, Message([part], false)), Tick(true, Nothing);
    var turns: seq<Tick> := [first, second];
    assert turns[..1] == [first];
    assert [first][..0] == [];
    var s := Run(wire, limit, [first]);
    assert s == Turn(wire, limit, Run(wire, limit, [first][..0]), false, first.m);
    assert |s.queries| == 1 && !s.makeNew;
    EmptyBatchIff(s);
    var s' := Transfer(s);
    assert s'.published[|s.published|] in s'.published;
  }

  // ---- when entries are handed over ----

  /** A turn hands over all complete entries, as one batch, if the batch is full or the period is over, and
      nothing otherwise. */
  lemma HandedOver(wire: Wire, limit: nat, s: State, tick: Tick)
    requires Valid(s)
    ensures var s' := Turn(wire, limit, s, tick.elapsed, tick.m);
      if s.queries != [] && (|s.queries| >= limit || tick.elapsed)
      then s'.published == s.published + [Complete(s)] && Complete(s') == Added(wire, tick.m)
      else s'.published == s.published && Complete(s') == Complete(s) + Added(wire, tick.m)
  {
    var s1 := if |s.queries| >= limit || tick.elapsed then Transfer(s) else s;
    ReceiveKeeps(wire, s1, tick.m);
  }

  lemma FlattenSnoc(batches: seq<seq<Parts>>, b: seq<Parts>)
    ensures Flatten(batches + [b]) == Flatten(batches) + b
  {
    assert (batches + [b])[..|batches|] == batches;
  }

  /** Once the transfer period is over, everything that was complete before that turn has been handed over. */
  lemma PublishedInTime(wire: Wire, limit: nat, turns: seq<Tick>)
    requires turns != [] && turns[|turns| - 1].elapsed
    ensures Flatten(Run(wire, limit, turns).published) == Expected(wire, turns[..|turns| - 1])
  {
    var before, last := turns[..|turns| - 1], turns[|turns| - 1];
    var s := Run(wire, limit, before);
    NothingLostNothingAdded(wire, limit, before);
    HandedOver(wire, limit, s, last);
    FlattenSnoc(s.published, Complete(s));
  }

  /** No batch grows beyond the limit (or one entry, if the limit is zero). */
  lemma {:induction false} Bounded(wire: Wire, limit: nat, turns: seq<Tick>)
    ensures var s, most := Run(wire, limit, turns), if limit == 0 then 1 else limit;
      |s.queries| <= most && forall b :: b in s.published ==> |b| <= most
  {
    if turns == [] {
    } else {
      Bounded(wire, limit, turns[..|turns| - 1]);
    }
  }

  // ---- the receiver itself ----

  class QueryReceiver {
    const wire: Wire
    const limit: nat
    var queries: seq<Parts>
    var makeNew: bool
    var published: seq<seq<Parts>>

    function Abstract(): State
      reads this
    {
      State(queries, makeNew, published)
    }

    constructor (wire: Wire, limit: nat)
      ensures Abstract() == START && this.wire == wire && this.limit == limit
    {
      this.wire, this.limit := wire, limit;
      queries, makeNew, published := [], true, [];
    }

    method HandOver()
      requires Valid(Abstract())
      modifies this
      ensures Abstract() == Transfer(old(Abstract()))
    {
      if queries != [] {
        if !makeNew { queries := queries[..|queries| - 1]; }
        published := published + [queries];
        queries, makeNew := [], true;
      }
    }

    /** Receives part after part until there are no more or one fails. */
    method Read(m: Incoming)
      requires Valid(Abstract()) && m.Possible()
      modifies this
      ensures Abstract() == Receive(wire, old(Abstract()), m)
    {
      if m.Nothing? { return; }
      if makeNew {
        queries := queries + [BLANK];
        makeNew := false;
      }
      var last := |queries| - 1;
      ghost var was := queries;
      var msgParts := 0;
      assert queries == was[last := Filled(wire, was[last], m.parts, 0)];
      while msgParts < |m.parts|
        invariant 0 <= msgParts <= |m.parts| && !makeNew && published == old(published)
        invariant queries == was[last := Filled(wire, was[last], m.parts, msgParts)]
      {
        queries := queries[last := queries[last][Slot(wire, msgParts) := m.parts[msgParts]]];
        msgParts := msgParts + 1;
      }
      if !m.failed && msgParts == 4 { makeNew := true; }
    }

    method Thread(elapsed: bool, m: Incoming)
      requires Valid(Abstract()) && m.Possible()
      modifies this
      ensures Abstract() == Turn(wire, limit, old(Abstract()), elapsed, m) && Valid(Abstract())
    {
      if |queries| >= limit || elapsed { HandOver(); }
      Read(m);
    }
  }
}
