/** Multicast messages in and out: batches of received messages, and a local buffer of messages to
    send that is swapped with the shared queue once it is used up. */
module SwapBuffer {
  import opened Options

  type Messages = seq<string>

  /** `attempted` and `enqueued`, `received` only record what has happened. */
  datatype State = State(local: Messages, outI: nat, shared: Messages,
                         inbound: Messages, published: seq<Messages>,
                         attempted: Messages, enqueued: Messages, received: Messages)

  const START: State := State([], 0, [], [], [], [], [], [])

  /** Another tool appends to the shared queue, or the thread takes a turn: the transfer period may
      be over, the poll may fail, a datagram may be received. */
  datatype Event =
    | Enqueue(message: string)
    | Turn(elapsed: bool, pollOk: bool, datagram: Option<string>)

  predicate Valid(s: State) {
    s.outI <= |s.local|
  }

  function Publish(s: State, limit: nat, elapsed: bool): State {
    if s.inbound != [] && (|s.inbound| > limit || elapsed)
    then s.(published := s.published + [s.inbound], inbound := []) else s
  }

  function Receive(s: State, datagram: Option<string>): State {
    if datagram.Some?
    then s.(inbound := s.inbound + [datagram.value], received := s.received + [datagram.value]) else s
  }

  /** The cursor moves on whether or not the send succeeds. */
  function Send(s: State): State
    requires Valid(s)
  {
    if s.outI < |s.local| then s.(outI := s.outI + 1, attempted := s.attempted + [s.local[s.outI]])
    else if s.shared != [] then s.(local := s.shared, shared := [], outI := 0)
    else s
  }

  function Apply(s: State, limit: nat, e: Event): (r: State)
    requires Valid(s)
    ensures Valid(r)
  {
    match e
    case Enqueue(message) => s.(shared := s.shared + [message], enqueued := s.enqueued + [message])
    case Turn(elapsed, pollOk, datagram) =>
      var s1 := Publish(s, limit, elapsed);
      if pollOk then Send(Receive(s1, datagram)) else s1
  }

  function Run(s: State, limit: nat, events: seq<Event>): (r: State)
    requires Valid(s)
    ensures Valid(r)
  {
    if events == [] then s else Apply(Run(s, limit, events[..|events| - 1]), limit, events[|events| - 1])
  }

  function Flatten(batches: seq<Messages>): Messages {
    if batches == [] then [] else Flatten(batches[..|batches| - 1]) + batches[|batches| - 1]
  }

  /** The outbound side as one queue: what has been attempted and what is still to come. */
  function Outbound(s: State): Messages
    requires Valid(s)
  {
    s.attempted + s.local[s.outI..] + s.shared
  }

  function Inbound(s: State): Messages {
    Flatten(s.published) + s.inbound
  }

  lemma PublishKeeps(s: State, limit: nat, elapsed: bool)
    ensures Inbound(Publish(s, limit, elapsed)) == Inbound(s)
  {
    assert (s.published + [s.inbound])[..|s.published|] == s.published;
  }

  lemma SendKeeps(s: State)
    requires Valid(s)
    ensures Outbound(Send(s)) == Outbound(s) && Inbound(Send(s)) == Inbound(s)
  {
    if s.outI < |s.local| {
      assert s.local[s.outI..] == [s.local[s.outI]] + s.local[s.outI + 1..];
    }
  }

  /** Both sides account for everything that has come in. */
  ghost predicate Accounted(s: State) {
    Valid(s) && Outbound(s) == s.enqueued && Inbound(s) == s.received
  }

  lemma ReceiveKeeps(s: State, datagram: Option<string>)
    requires Accounted(s)
    ensures Accounted(Receive(s, datagram))
  {
    if datagram.Some? {
      assert Flatten(s.published) + (s.inbound + [datagram.value]) == Inbound(s) + [datagram.value];
    }
  }

  lemma EnqueueKeeps(s: State, limit: nat, message: string)
    requires Accounted(s)
    ensures Accounted(Apply(s, limit, Enqueue(message)))
  {
    assert s.attempted + s.local[s.outI..] + (s.shared + [message]) == Outbound(s) + [message];
  }

  lemma SendAccounted(s: State)
    requires Accounted(s)
    ensures Accounted(Send(s))
  {
    hide Outbound, Inbound;
    SendKeeps(s);
  }

  lemma PublishAccounted(s: State, limit: nat, elapsed: bool)
    requires Accounted(s)
    ensures Accounted(Publish(s, limit, elapsed))
  {
    hide Inbound;
    PublishKeeps(s, limit, elapsed);
  }

  lemma ApplyKeeps(s: State, limit: nat, e: Event)
    requires Accounted(s)
    ensures Accounted(Apply(s, limit, e))
  {
    hide Accounted, Publish, Receive, Send;
    match e
    case Enqueue(message) => EnqueueKeeps(s, limit, message);
    case Turn(elapsed, pollOk, datagram) =>
      var s1 := Publish(s, limit, elapsed);
      PublishAccounted(s, limit, elapsed);
      if pollOk {
        ReceiveKeeps(s1, datagram);
        SendAccounted(Receive(s1, datagram));
      }
  }

  /** Over any run: every enqueued message is attempted at most once and in order, none is lost
      between the buffers; every received datagram is in exactly one batch, in order. */
  lemma {:induction false} Fifo(limit: nat, events: seq<Event>)
    ensures Accounted(Run(START, limit, events))
  {
    if events == [] {
    } else {
      Fifo(limit, events[..|events| - 1]);
      ApplyKeeps(Run(START, limit, events[..|events| - 1]), limit, events[|events| - 1]);
    }
  }

  // ---- what the records record, and when batches are handed over ----

  function Enqueued(events: seq<Event>): Messages {
    if events == [] then []
    else
      var e := events[|events| - 1];
      Enqueued(events[..|events| - 1]) + if e.Enqueue? then [e.message] else []
  }

  /** The datagrams of the turns in which the poll worked. */
  function Datagrams(events: seq<Event>): Messages {
    if events == [] then []
    else
      var e := events[|events| - 1];
      Datagrams(events[..|events| - 1]) + if e.Turn? && e.pollOk && e.datagram.Some? then [e.datagram.value] else []
  }

  lemma {:induction false} Recorded(limit: nat, events: seq<Event>)
    ensures Run(START, limit, events).enqueued == Enqueued(events)
    ensures Run(START, limit, events).received == Datagrams(events)
  {
    if events == [] {
    } else {
      Recorded(limit, events[..|events| - 1]);
    }
  }

  /** A turn hands over everything received before it, as one batch, if there are more messages than the
      limit or the period is over, and nothing otherwise. */
  lemma HandedOver(limit: nat, events: seq<Event>, turn: Event)
    requires turn.Turn?
    ensures var s, s' := Run(START, limit, events), Run(START, limit, events + [turn]);
      if s.inbound != [] && (|s.inbound| > limit || turn.elapsed)
      then s'.published == s.published + [s.inbound] else s'.published == s.published
  {
    hide Run;
    OneMore(limit, events, turn);
  }

  lemma OneMore(limit: nat, events: seq<Event>, e: Event)
    ensures Run(START, limit, events + [e]) == Apply(Run(START, limit, events), limit, e)
  {
    assert (events + [e])[..|events|] == events;
  }

  /** Once the transfer period is over, everything that was received before that turn has been handed over. */
  lemma PublishedInTime(limit: nat, events: seq<Event>, turn: Event)
    requires turn.Turn? && turn.elapsed
    ensures Flatten(Run(START, limit, events + [turn]).published) == Datagrams(events)
  {
    hide Run, Apply;
    var s := Run(START, limit, events);
    Fifo(limit, events);
    Recorded(limit, events);
    HandedOver(limit, events, turn);
    FlattenSnoc(s.published, s.inbound);
  }

  lemma FlattenSnoc(batches: seq<Messages>, b: Messages)
    ensures Flatten(batches + [b]) == Flatten(batches) + b
  {
    assert (batches + [b])[..|batches|] == batches;
  }

  /** A turn attempts at most one message: none if the poll fails, the one at the cursor if there is one; a
      used-up buffer is swapped with the shared queue instead. */
  lemma OneTurn(limit: nat, events: seq<Event>, turn: Event)
    requires turn.Turn?
    ensures var s, s' := Run(START, limit, events), Run(START, limit, events + [turn]);
      if !turn.pollOk then
        s'.attempted == s.attempted && s'.local == s.local && s'.outI == s.outI && s'.shared == s.shared
      else if s.outI < |s.local| then
        s'.attempted == s.attempted + [s.local[s.outI]] && s'.outI == s.outI + 1 && s'.shared == s.shared
      else s'.attempted == s.attempted && (s.shared != [] ==> s'.local == s.shared && s'.outI == 0 && s'.shared == [])
  {
    hide Run;
    OneMore(limit, events, turn);
  }

  /** The local batch never grows beyond one more than the limit. */
  lemma {:induction false} Bounded(limit: nat, events: seq<Event>)
    ensures |Run(START, limit, events).inbound| <= limit + 1
  {
    if events == [] {
    } else {
      Bounded(limit, events[..|events| - 1]);
    }
  }

  /** Turns needed until everything has been attempted. */
  function ToDo(s: State): nat
    requires Valid(s)
  {
    |s.local| - s.outI + if s.shared == [] then 0 else 1 + |s.shared|
  }

  /** Once nothing is enqueued any more, that many turns with a working poll attempt everything. */
  lemma Drains(s: State, limit: nat, turns: seq<Event>)
    requires Valid(s) && Outbound(s) == s.enqueued && |turns| >= ToDo(s)
    requires forall e :: e in turns ==> e.Turn? && e.pollOk
    ensures Run(s, limit, turns).attempted == Run(s, limit, turns).enqueued == s.enqueued
  {
    Progress(s, limit, turns);
    var s' := Run(s, limit, turns);
    assert s'.local[s'.outI..] == [] && s'.shared == [];
  }

  lemma {:induction false} Progress(s: State, limit: nat, turns: seq<Event>)
    requires Valid(s) && forall e :: e in turns ==> e.Turn? && e.pollOk
    ensures var s' := Run(s, limit, turns);
      && ToDo(s') == (if |turns| >= ToDo(s) then 0 else ToDo(s) - |turns|)
      && s'.enqueued == s.enqueued && Outbound(s') == Outbound(s)
  {
    if turns == [] {
    } else {
      var before, last := turns[..|turns| - 1], turns[|turns| - 1];
      assert last in turns;
      Progress(s, limit, before);
      SendKeeps(Receive(Publish(Run(s, limit, before), limit, last.elapsed), last.datagram));
    }
  }

  // ---- the thread itself ----

  class MulticastSender {
    const limit: nat
    var outLocalQueue: Messages
    var outI: nat
    var outQueue: Messages
    var inLocalQueue: Messages
    var inQueue: seq<Messages>
    ghost var attempted: Messages
    ghost var enqueued: Messages
    ghost var received: Messages

    ghost function Abstract(): State
      reads this
    {
      State(outLocalQueue, outI, outQueue, inLocalQueue, inQueue, attempted, enqueued, received)
    }

    constructor (limit: nat)
      ensures Abstract() == START && this.limit == limit
    {
      this.limit := limit;
      outLocalQueue, outI, outQueue, inLocalQueue, inQueue := [], 0, [], [], [];
      attempted, enqueued, received := [], [], [];
    }

    method Thread(elapsed: bool, pollOk: bool, datagram: Option<string>) returns (sent: Messages)
      requires Valid(Abstract())
      modifies this
      ensures Abstract() == Apply(old(Abstract()), limit, Turn(elapsed, pollOk, datagram)) && Valid(Abstract())
      ensures attempted == old(attempted) + sent
    {
      sent := [];
      if inLocalQueue != [] && (|inLocalQueue| > limit || elapsed) {
        inQueue := inQueue + [inLocalQueue];
        inLocalQueue := [];
      }
      if !pollOk { return; }
      if datagram.Some? {
        inLocalQueue := inLocalQueue + [datagram.value];
        received := received + [datagram.value];
      }
      if outI < |outLocalQueue| {
        sent := [outLocalQueue[outI]];
        attempted := attempted + sent;
        outI := outI + 1;
      } else if outQueue != [] {
        outLocalQueue := [];
        outQueue, outLocalQueue := outLocalQueue, outQueue;
        outI := 0;
      }
    }
  }
}
