/** What becomes of a batch step by step, and that the pipeline can always go on: from wherever it
    stands, a request whose batch is not lost can be answered without any further failure. */
module HandoffProgress {
  import opened Handoff

  // ---- the route of a batch ----

  /** Where a batch may be after one step, if it moves: the stages in order, the same kind all the way to
      the database; a failing job loses it; the sender gives it back. */
  predicate Onward(p: Place, q: Place) {
    match p
    case Receiver(kind) => q == Place.Messages(kind)
    case Messages(kind) => q == Spawning(kind)
    case Spawning(kind) => q == Job(kind)
    case Job(kind) => q == Queries(kind) || q == Lost
    case Queries(kind) => q == Grabbed(kind)
    case Grabbed(kind) => q.DbJob? && q.kind == kind
    case DbJob(_, _) => q == Results || q == Lost
    case Results => q == Dealing
    case Dealing => q == ResultJob
    case ResultJob => q == Replies || q == Lost
    case Replies => q == Sender
    case Sender => q == Pool
    case Pool => q.Receiver?
    case Lost => false
  }

  /** The batch was at p and is at q: it has stayed, or moved on. */
  ghost predicate Stepped(a: Places, b: Places) {
    forall p, q, id :: In(a, p, id) && In(b, q, id) ==> p == q || Onward(p, q)
  }

  /** A move takes batches from one place to another and leaves all others where they are. */
  ghost predicate Moves(a: Places, b: Places, from: Place, dest: Place) {
    forall p, id :: In(b, p, id) && Somewhere(a, id) ==> In(a, p, id) || (p == dest && In(a, from, id))
  }

  lemma HandMoves(s: State, from: Place, k: nat, dest: Place)
    requires Once(s.at) && from != dest
    ensures Moves(s.at, Hand(s, from, k, dest).at, from, dest)
  {
    if k < |At(s.at, from)| {
      assert Workload.Distinct(At(s.at, from)) && In(s.at, from, At(s.at, from)[k]);
      forall p, id | In(Hand(s, from, k, dest).at, p, id)
        ensures In(s.at, p, id) || (p == dest && In(s.at, from, id))
      {
        MoveOneIn(s.at, from, k, dest, p, id);
      }
    }
  }

  lemma HandAllMoves(s: State, from: Place, dest: Place)
    requires from != dest
    ensures Moves(s.at, HandAll(s, from, dest).at, from, dest)
  {
    forall p, id | In(HandAll(s, from, dest).at, p, id) ensures In(s.at, p, id) || (p == dest && In(s.at, from, id)) {
      MoveAllIn(s.at, from, dest, p, id);
    }
  }

  lemma MoveStepped(a: Places, b: Places, from: Place, dest: Place)
    requires Once(a) && Moves(a, b, from, dest) && Onward(from, dest)
    ensures Stepped(a, b)
  {
    forall p, q, id | In(a, p, id) && In(b, q, id) ensures p == q || Onward(p, q) {
      assert Somewhere(a, id);
    }
  }

  /** One move after the other, of different batches. */
  lemma MovesStepped(a: Places, b: Places, c: Places, from1: Place, dest1: Place, from2: Place, dest2: Place)
    requires Once(a) && Moves(a, b, from1, dest1) && Moves(b, c, from2, dest2) && dest1 != from2
    requires Onward(from1, dest1) && Onward(from2, dest2)
    requires forall id :: Somewhere(a, id) ==> Somewhere(b, id)
    ensures Stepped(a, c)
  {
    hide Onward, In;
    forall p, q, id | In(a, p, id) && In(c, q, id) ensures p == q || Onward(p, q) {
      assert Somewhere(a, id) && Somewhere(b, id);
      assert In(b, q, id) || (q == dest2 && In(b, from2, id));
    }
  }

  lemma HandStepped(s: State, from: Place, k: nat, dest: Place)
    requires Once(s.at) && from != dest && Onward(from, dest)
    ensures Stepped(s.at, Hand(s, from, k, dest).at)
  {
    HandMoves(s, from, k, dest);
    MoveStepped(s.at, Hand(s, from, k, dest).at, from, dest);
  }

  lemma HandAllStepped(s: State, from: Place, dest: Place)
    requires Once(s.at) && from != dest && Onward(from, dest)
    ensures Stepped(s.at, HandAll(s, from, dest).at)
  {
    HandAllMoves(s, from, dest);
    MoveStepped(s.at, HandAll(s, from, dest).at, from, dest);
  }

  lemma BothStepped(s: State, from1: Place, dest1: Place, from2: Place, dest2: Place)
    requires Once(s.at) && from1 != dest1 && from2 != dest2 && dest1 != from2
    requires Onward(from1, dest1) && Onward(from2, dest2)
    ensures Stepped(s.at, HandAll(HandAll(s, from1, dest1), from2, dest2).at)
  {
    var s1 := HandAll(s, from1, dest1);
    HandAllMoves(s, from1, dest1);
    MoveAllShuffles(s.at, from1, dest1);
    HandAllMoves(s1, from2, dest2);
    MovesStepped(s.at, s1.at, HandAll(s1, from2, dest2).at, from1, dest1, from2, dest2);
  }

  lemma AcquireMoves(s: State, kind: Kind, reuse: bool)
    requires AllPlaced(s.at, s.next)
    ensures Moves(s.at, Acquire(s, kind, reuse).at, Pool, Receiver(kind))
  {
    if reuse && At(s.at, Pool) != [] {
      HandMoves(s, Pool, 0, Receiver(kind));
    } else {
      assert !Somewhere(s.at, s.next);
    }
  }

  lemma PublishStepped(s: State, kind: Kind, reuse: bool)
    requires Kept(s)
    ensures Stepped(s.at, Apply(s, Publish(kind, reuse)).at)
  {
    hide Tidy, Accounted, Acquire, Moves, Stepped;
    var s1 := Hand(s, Receiver(kind), 0, Place.Messages(kind));
    HandMoves(s, Receiver(kind), 0, Place.Messages(kind));
    HandQuietly(s, Receiver(kind), 0, Place.Messages(kind));
    AcquireMoves(s1, kind, reuse);
    MoveOneShuffles(s.at, Receiver(kind), 0, Place.Messages(kind));
    MovesStepped(s.at, s1.at, Acquire(s1, kind, reuse).at, Receiver(kind), Place.Messages(kind), Pool, Receiver(kind));
  }

  lemma ReleaseMoves(s: State)
    requires Once(s.at)
    ensures Moves(s.at, Release(s).at, Sender, Pool)
    ensures forall id :: Somewhere(s.at, id) ==> Somewhere(Release(s).at, id)
  {
    if At(s.at, Sender) != [] {
      HandMoves(s.(contents := Release(s).contents), Sender, 0, Pool);
      MoveOneShuffles(s.at, Sender, 0, Pool);
    }
  }

  lemma FetchStepped(s: State)
    requires Kept(s)
    ensures Stepped(s.at, Apply(s, FetchReplies).at)
  {
    hide Tidy, Accounted, Release, Hand, Moves, Stepped;
    if SenderIdle(s) && At(s.at, Replies) != [] {
      var s1 := Release(s);
      ReleaseKeeps(s);
      ReleaseMoves(s);
      HandMoves(s1, Replies, 0, Sender);
      MovesStepped(s.at, s1.at, Apply(s, FetchReplies).at, Sender, Pool, Replies, Sender);
    } else {
      Unmoved(s, FetchReplies);
    }
  }

  /** In every step of every thread a batch stays where it is or moves on to the next place of its route,
      and never to a place of the other kind. */
  lemma RouteKept(s: State, e: Event)
    requires Kept(s)
    ensures Stepped(s.at, Apply(s, e).at)
  {
    hide Tidy, Accounted, Stepped;
    match e
    case Receive(kind) => Unmoved(s, e);
    case Publish(kind, reuse) => PublishStepped(s, kind, reuse);
    case TakeMessages(kind) => HandAllStepped(s, Place.Messages(kind), Spawning(kind));
    case SpawnJob(kind) => HandStepped(s, Spawning(kind), 0, Job(kind));
    case JobDone(kind, k, ok) => HandStepped(s, Job(kind), k, if ok then Queries(kind) else Lost);
    case Grab(kind) => HandAllStepped(s, Queries(kind), Grabbed(kind));
    case SpawnDbJob => BothStepped(s, Grabbed(Reads), DbJob(Reads, s.jobs), Grabbed(Writes), DbJob(Writes, s.jobs));
    case PassReads(j) => HandAllStepped(s, DbJob(Reads, j), Results);
    case PassWrites(j) =>
      if At(s.at, DbJob(Reads, j)) == [] { HandAllStepped(s, DbJob(Writes, j), Results); } else { Unmoved(s, e); }
    case DbJobFails(j) => BothStepped(s, DbJob(Reads, j), Lost, DbJob(Writes, j), Lost);
    case TakeResults => HandAllStepped(s, Results, Dealing);
    case SpawnResultJob => HandStepped(s, Dealing, 0, ResultJob);
    case ResultDone(k, ok) => HandStepped(s, ResultJob, k, if ok then Replies else Lost);
    case FetchReplies => FetchStepped(s);
    case SendReply => Unmoved(s, e);
  }

  lemma Unmoved(s: State, e: Event)
    requires Kept(s) && Apply(s, e).at == s.at
    ensures Stepped(s.at, Apply(s, e).at)
  {
  }

  // ---- the pipeline can always go on ----

  /** A step in which no job fails. */
  predicate Working(e: Event) {
    (e.JobDone? || e.ResultDone? ==> e.ok) && !e.DbJobFails?
  }

  ghost predicate AllWorking(events: seq<Event>) {
    forall e :: e in events ==> Working(e)
  }

  function RunFrom(s: State, events: seq<Event>): State
    decreases |events|
  {
    if events == [] then s else RunFrom(Apply(s, events[0]), events[1..])
  }

  lemma {:induction false} RunMore(events: seq<Event>, more: seq<Event>)
    ensures Run(events + more) == RunFrom(Run(events), more)
    decreases |more|
  {
    if more == [] {
      assert events + more == events;
    } else {
      var one := events + [more[0]];
      assert one[..|events|] == events && events + more == one + more[1..];
      RunMore(one, more[1..]);
    }
  }

  /** How far a place is from the sender. */
  function Distance(p: Place): nat {
    match p
    case Receiver(_) => 11
    case Messages(_) => 10
    case Spawning(_) => 9
    case Job(_) => 8
    case Queries(_) => 7
    case Grabbed(_) => 6
    case DbJob(_, _) => 5
    case Results => 4
    case Dealing => 3
    case ResultJob => 2
    case Replies => 1
    case _ => 0
  }

  function Index(q: seq<nat>, id: nat): (k: nat)
    requires id in q
    ensures k < |q| && q[k] == id
  {
    if q[0] == id then 0 else 1 + Index(q[1..], id)
  }

  /** What has to be served at place p before batch id. */
  function Ahead(s: State, p: Place, id: nat): nat
    requires In(s.at, p, id)
  {
    match p
    case DbJob(kind, j) => if kind == Writes && At(s.at, DbJob(Reads, j)) != [] then 1 else 0
    case _ => Index(At(s.at, p), id)
  }

  /** Replies that the sender has still to attempt before it can fetch another batch. */
  function Pending(s: State): nat {
    if SenderIdle(s) then 0 else |Contents(s, At(s.at, Sender)[0])| - s.outI
  }

  /** Request r waits in batch id at place p, from where the sender can be reached. */
  ghost predicate Waiting(s: State, p: Place, id: nat, r: nat) {
    Kept(s) && In(s.at, p, id) && r in Rest(s, id) && p != Lost
  }

  lemma WaitingNotPooled(s: State, p: Place, id: nat, r: nat)
    requires Waiting(s, p, id, r)
    ensures p != Pool
  {
  }

  /** b is closer to answering the request than a, or has answered it. */
  ghost predicate Closer(a: State, p: Place, b: State, q: Place, id: nat, r: nat)
    requires Waiting(a, p, id, r)
  {
    r in b.attempted ||
    (Waiting(b, q, id, r) &&
      (Distance(q) < Distance(p)
        || (q == p && Ahead(b, q, id) < Ahead(a, p, id))
        || (q == p && Ahead(b, q, id) == Ahead(a, p, id) && Pending(b) < Pending(a))))
  }

  lemma SameRest(a: State, b: State, id: nat)
    requires b.outI == a.outI && Contents(b, id) == Contents(a, id) && (In(b.at, Sender, id) <==> In(a.at, Sender, id))
    ensures Rest(b, id) == Rest(a, id)
  {
  }

  /** All of a queue is taken. */
  lemma Taken(s: State, from: Place, dest: Place, id: nat, r: nat, s': State)
    requires Waiting(s, from, id, r) && from != dest && from != Sender && dest != Sender && dest != Lost
    requires s'.at == MoveAll(s.at, from, dest) && s'.outI == s.outI && s'.contents == s.contents && Kept(s')
    ensures Waiting(s', dest, id, r)
  {
    MoveAllIn(s.at, from, dest, dest, id);
    MoveAllIn(s.at, from, dest, Sender, id);
    SameRest(s, s', id);
  }

  /** The batch itself is handed on. */
  lemma HandedOn(s: State, from: Place, k: nat, dest: Place, id: nat, r: nat, s': State)
    requires Waiting(s, from, id, r) && from != dest && from != Sender && dest != Sender && dest != Lost
    requires k < |At(s.at, from)| && At(s.at, from)[k] == id
    requires s'.at == MoveOne(s.at, from, k, dest) && s'.outI == s.outI && s'.contents == s.contents && Kept(s')
    ensures Waiting(s', dest, id, r)
  {
    assert Workload.Distinct(At(s.at, from));
    MoveOneIn(s.at, from, k, dest, dest, id);
    MoveOneIn(s.at, from, k, dest, Sender, id);
    SameRest(s, s', id);
  }

  /** The batch in front of it is handed on. */
  lemma OneLess(s: State, from: Place, dest: Place, id: nat, r: nat, s': State)
    requires Waiting(s, from, id, r) && from != dest && from != Sender && dest != Sender && !from.DbJob?
    requires At(s.at, from)[0] != id && s'.at == MoveOne(s.at, from, 0, dest)
    requires s'.outI == s.outI && s'.contents == s.contents && Kept(s')
    ensures Waiting(s', from, id, r) && Ahead(s', from, id) < Ahead(s, from, id)
  {
    assert Workload.Distinct(At(s.at, from));
    MoveOneIn(s.at, from, 0, dest, from, id);
    MoveOneIn(s.at, from, 0, dest, Sender, id);
    SameRest(s, s', id);
    assert At(s'.at, from) == At(s.at, from)[1..];
  }

  /** A queue whose front is handed on: the batch, or one before it. */
  lemma FrontServed(s: State, from: Place, dest: Place, id: nat, r: nat, e: Event) returns (q: Place)
    requires Waiting(s, from, id, r) && from != dest && from != Sender && dest != Sender && dest != Lost && !from.DbJob?
    requires Distance(dest) < Distance(from) && Apply(s, e) == Hand(s, from, 0, dest)
    ensures Closer(s, from, Apply(s, e), q, id, r)
  {
    ApplyKeeps(s, e);
    if At(s.at, from)[0] == id {
      q := dest;
      HandedOn(s, from, 0, dest, id, r, Apply(s, e));
    } else {
      q := from;
      OneLess(s, from, dest, id, r, Apply(s, e));
    }
  }

  lemma NewBatchAside(s: State, s1: State, kind: Kind, id: nat)
    requires s1 == Hand(s, Receiver(kind), 0, Place.Messages(kind)) && At(s.at, Receiver(kind)) == [id] && id < s.next
    ensures var s' := Acquire(s1, kind, false);
      && At(s'.at, Place.Messages(kind)) == At(s.at, Place.Messages(kind)) + [id]
      && At(s'.at, Sender) == At(s.at, Sender) && s'.outI == s.outI && Contents(s', id) == Contents(s, id)
  {
  }

  lemma FromReceiver(s: State, kind: Kind, id: nat, r: nat)
    requires Waiting(s, Receiver(kind), id, r)
    ensures Waiting(Apply(s, Publish(kind, false)), Place.Messages(kind), id, r)
  {
    hide AllPlaced, Tidy, Accounted, Acquire, Hand;
    var s' := Apply(s, Publish(kind, false));
    ApplyKeeps(s, Publish(kind, false));
    Placed(s.at, s.next, Receiver(kind), id);
    assert At(s.at, Receiver(kind)) == [id];
    NewBatchAside(s, Hand(s, Receiver(kind), 0, Place.Messages(kind)), kind, id);
    SameRest(s, s', id);
  }

  lemma GrabbedTaken(s: State, kind: Kind)
    ensures var s' := Apply(s, SpawnDbJob);
      && At(s'.at, DbJob(kind, s.jobs)) == At(s.at, DbJob(kind, s.jobs)) + At(s.at, Grabbed(kind))
      && At(s'.at, Sender) == At(s.at, Sender) && s'.outI == s.outI && s'.contents == s.contents
  {
  }

  lemma FromGrabbed(s: State, kind: Kind, id: nat, r: nat)
    requires Waiting(s, Grabbed(kind), id, r)
    ensures Waiting(Apply(s, SpawnDbJob), DbJob(kind, s.jobs), id, r)
  {
    hide AllPlaced, Tidy, Accounted, Apply;
    ApplyKeeps(s, SpawnDbJob);
    GrabbedTaken(s, kind);
    SameRest(s, Apply(s, SpawnDbJob), id);
  }

  /** The write batches of a database job wait for its read batches. */
  lemma ReadsFirst(s: State, j: nat, id: nat, r: nat)
    requires Waiting(s, DbJob(Writes, j), id, r) && At(s.at, DbJob(Reads, j)) != []
    ensures Closer(s, DbJob(Writes, j), Apply(s, PassReads(j)), DbJob(Writes, j), id, r)
  {
    hide AllPlaced, Tidy, Accounted;
    var s' := Apply(s, PassReads(j));
    ApplyKeeps(s, PassReads(j));
    MoveAllIn(s.at, DbJob(Reads, j), Results, DbJob(Writes, j), id);
    MoveAllIn(s.at, DbJob(Reads, j), Results, Sender, id);
    SameRest(s, s', id);
    assert At(s'.at, DbJob(Reads, j)) == [];
  }

  lemma FromDbJob(s: State, kind: Kind, j: nat, id: nat, r: nat) returns (e: Event, q: Place)
    requires Waiting(s, DbJob(kind, j), id, r)
    ensures Working(e) && Closer(s, DbJob(kind, j), Apply(s, e), q, id, r)
  {
    hide AllPlaced, Tidy, Accounted, Rest;
    if kind == Writes && At(s.at, DbJob(Reads, j)) != [] {
      e, q := PassReads(j), DbJob(Writes, j);
      ReadsFirst(s, j, id, r);
    } else {
      e, q := if kind == Reads then PassReads(j) else PassWrites(j), Results;
      ApplyKeeps(s, e);
      Taken(s, DbJob(kind, j), Results, id, r, Apply(s, e));
    }
  }

  lemma SentFirst(s: State, x: nat)
    requires !SenderIdle(s) && At(s.at, Sender) == [x]
    ensures var s' := Apply(s, SendReply);
      && s'.at == s.at && Pending(s') < Pending(s) && s.outI < |Contents(s, x)|
      && s'.attempted == s.attempted + [Contents(s, x)[s.outI]]
  {
  }

  lemma SendsOne(s: State, p: Place, id: nat, r: nat)
    requires Waiting(s, p, id, r) && !SenderIdle(s) && (p == Replies || p == Sender)
    ensures Closer(s, p, Apply(s, SendReply), p, id, r)
  {
    hide AllPlaced, Accounted, Rest, Pending, Apply;
    var s', x := Apply(s, SendReply), At(s.at, Sender)[0];
    ApplyKeeps(s, SendReply);
    assert At(s.at, Sender) == [x];
    SentFirst(s, x);
    SendRest(s, x, id);
    if r == Contents(s, x)[s.outI] { assert s'.attempted[|s.attempted|] == r; }
  }

  /** What fetching the next batch of replies does to the two queues and to other batches. */
  lemma FetchExact(s: State, id: nat)
    requires Kept(s) && SenderIdle(s) && In(s.at, Replies, id)
    ensures var s', replies := Apply(s, FetchReplies), At(s.at, Replies);
      && At(s'.at, Replies) == replies[1..] && At(s'.at, Sender) == [replies[0]]
      && s'.outI == 0 && s'.attempted == s.attempted && Contents(s', id) == Contents(s, id)
  {
    hide AllPlaced, Accounted;
    ReleaseKeeps(s);
    if At(s.at, Sender) != [] { Elsewhere(s, id); }
  }

  lemma Elsewhere(s: State, id: nat)
    requires Kept(s) && In(s.at, Replies, id) && At(s.at, Sender) != []
    ensures At(s.at, Sender)[0] != id
  {
    assert In(s.at, Sender, At(s.at, Sender)[0]);
  }

  lemma Fetched(s: State, id: nat, r: nat) returns (q: Place)
    requires Waiting(s, Replies, id, r) && SenderIdle(s)
    ensures Closer(s, Replies, Apply(s, FetchReplies), q, id, r)
  {
    hide AllPlaced, Accounted, Tidy, Apply;
    ApplyKeeps(s, FetchReplies);
    FetchExact(s, id);
    q := if At(s.at, Replies)[0] == id then Sender else Replies;
    assert r in Contents(s, id);
  }

  /** The whole queue that the request is in is taken. */
  lemma QueueTaken(s: State, p: Place, q: Place, id: nat, r: nat, e: Event)
    requires Waiting(s, p, id, r) && p != q && p != Sender && q != Sender && q != Lost && Distance(q) < Distance(p)
    requires Apply(s, e) == HandAll(s, p, q)
    ensures Closer(s, p, Apply(s, e), q, id, r)
  {
    hide Kept, Rest;
    ApplyKeepsWaiting(s, p, id, r, e);
    Taken(s, p, q, id, r, Apply(s, e));
  }

  /** The job of its batch is done. */
  lemma DoneWith(s: State, p: Place, q: Place, id: nat, r: nat, e: Event)
    requires Waiting(s, p, id, r) && p != q && p != Sender && q != Sender && q != Lost && Distance(q) < Distance(p)
    requires Apply(s, e) == Hand(s, p, Index(At(s.at, p), id), q)
    ensures Closer(s, p, Apply(s, e), q, id, r)
  {
    hide Kept, Rest;
    ApplyKeepsWaiting(s, p, id, r, e);
    HandedOn(s, p, Index(At(s.at, p), id), q, id, r, Apply(s, e));
  }

  lemma OutCloser(s: State, p: Place, id: nat, r: nat) returns (e: Event, q: Place)
    requires Waiting(s, p, id, r) && (p == Replies || p == Sender)
    ensures Working(e) && Closer(s, p, Apply(s, e), q, id, r)
  {
    hide Kept, Rest, Apply;
    if p == Replies && SenderIdle(s) {
      e := FetchReplies;
      q := Fetched(s, id, r);
    } else {
      e, q := SendReply, p;
      if p == Sender { SenderBusy(s, id, r); }
      SendsOne(s, p, id, r);
    }
  }

  /** From wherever a request waits, some step without a failure brings it closer to its reply. */
  lemma StepCloser(s: State, p: Place, id: nat, r: nat) returns (e: Event, q: Place)
    requires Waiting(s, p, id, r)
    ensures Working(e) && Closer(s, p, Apply(s, e), q, id, r)
  {
    hide Kept, Rest, Hand, HandAll, Ahead, Pending;
    WaitingNotPooled(s, p, id, r);
    match p
    case Receiver(kind) =>
      e, q := Publish(kind, false), Place.Messages(kind);
      FromReceiver(s, kind, id, r);
    case Messages(kind) =>
      e, q := TakeMessages(kind), Spawning(kind);
      QueueTaken(s, p, q, id, r, e);
    case Spawning(kind) =>
      e := SpawnJob(kind);
      q := FrontServed(s, p, Job(kind), id, r, e);
    case Job(kind) =>
      e, q := JobDone(kind, Index(At(s.at, p), id), true), Queries(kind);
      DoneWith(s, p, q, id, r, e);
    case Queries(kind) =>
      e, q := Grab(kind), Grabbed(kind);
      QueueTaken(s, p, q, id, r, e);
    case Grabbed(kind) =>
      e, q := SpawnDbJob, DbJob(kind, s.jobs);
      FromGrabbed(s, kind, id, r);
    case DbJob(kind, j) =>
      e, q := FromDbJob(s, kind, j, id, r);
    case Results =>
      e, q := TakeResults, Dealing;
      QueueTaken(s, p, q, id, r, e);
    case Dealing =>
      e := SpawnResultJob;
      q := FrontServed(s, p, ResultJob, id, r, e);
    case ResultJob =>
      e, q := ResultDone(Index(At(s.at, p), id), true), Replies;
      DoneWith(s, p, q, id, r, e);
    case _ =>
      e, q := OutCloser(s, p, id, r);
  }

  lemma ApplyKeepsWaiting(s: State, p: Place, id: nat, r: nat, e: Event)
    requires Waiting(s, p, id, r)
    ensures Kept(Apply(s, e))
  {
    ApplyKeeps(s, e);
  }

  lemma SenderBusy(s: State, id: nat, r: nat)
    requires Waiting(s, Sender, id, r)
    ensures !SenderIdle(s)
  {
    assert At(s.at, Sender) == [id];
  }

  /** So that it can be answered without any failure. */
  lemma {:induction false} CanAnswer(s: State, p: Place, id: nat, r: nat) returns (more: seq<Event>)
    requires Waiting(s, p, id, r)
    ensures AllWorking(more) && r in RunFrom(s, more).attempted
    decreases Distance(p), Ahead(s, p, id), Pending(s)
  {
    hide Waiting, Rest;
    var e, q := StepCloser(s, p, id, r);
    if r in Apply(s, e).attempted {
      more := [e];
      assert RunFrom(Apply(s, e), []) == Apply(s, e);
    } else {
      var rest := CanAnswer(Apply(s, e), q, id, r);
      more := [e] + rest;
      assert more[1..] == rest;
    }
  }

  // ---- which requests can still be answered ----

  lemma {:induction false} InSum(s: State, n: nat, r: nat) returns (id: nat)
    requires SumRest(s, n)[r] > 0
    ensures id < n && r in Rest(s, id)
  {
    if multiset(Rest(s, n - 1))[r] > 0 { id := n - 1; } else { id := InSum(s, n - 1, r); }
  }

  lemma {:induction false} SumHas(s: State, n: nat, id: nat, r: nat)
    requires id < n && r in Rest(s, id)
    ensures SumRest(s, n)[r] > 0
  {
    hide Rest;
    if id < n - 1 { SumHas(s, n - 1, id, r); }
  }

  /** The request is in a batch of a job that failed. */
  ghost predicate LostRequest(s: State, r: nat) {
    exists id :: In(s.at, Lost, id) && r in Contents(s, id)
  }

  lemma WaitsSomewhere(s: State, r: nat) returns (p: Place, id: nat)
    requires Kept(s) && r < s.received && r !in s.attempted && !LostRequest(s, r)
    ensures Waiting(s, p, id, r)
  {
    SerialsExact(s.received, r);
    id := InSum(s, s.next, r);
    assert Somewhere(s.at, id);
    p :| In(s.at, p, id);
    assert r in Contents(s, id);
  }

  lemma NotAttempted(s: State, id: nat, r: nat)
    requires Kept(s) && In(s.at, Lost, id) && r in Contents(s, id)
    ensures r !in s.attempted
  {
    assert !In(s.at, Sender, id);
    Placed(s.at, s.next, Lost, id);
    SumHas(s, s.next, id, r);
    SerialsExact(s.received, r);
  }

  lemma NotFirst(s: State, p: Place, id: nat)
    requires Kept(s) && In(s.at, Lost, id) && p != Lost && At(s.at, p) != []
    ensures At(s.at, p)[0] != id
  {
    assert In(s.at, p, At(s.at, p)[0]);
  }

  lemma ContentsStay(s: State, e: Event, id: nat)
    requires Kept(s) && In(s.at, Lost, id)
    ensures Contents(Apply(s, e), id) == Contents(s, id)
  {
    hide AllPlaced, Accounted;
    Placed(s.at, s.next, Lost, id);
    if At(s.at, Sender) != [] { NotFirst(s, Sender, id); }
    match e
    case Receive(kind) => if At(s.at, Receiver(kind)) != [] { NotFirst(s, Receiver(kind), id); }
    case _ =>
  }

  lemma LostStays(s: State, e: Event, id: nat)
    requires Kept(s) && In(s.at, Lost, id)
    ensures In(Apply(s, e).at, Lost, id)
  {
    hide Apply;
    RouteKept(s, e);
    ApplyKeeps(s, e);
    Placed(s.at, s.next, Lost, id);
    NextGrows(s, e);
    assert Somewhere(Apply(s, e).at, id);
    var q :| In(Apply(s, e).at, q, id);
  }

  lemma NextGrows(s: State, e: Event)
    ensures s.next <= Apply(s, e).next
  {
  }

  /** A lost request is never answered. */
  lemma {:induction false} LostForever(events: seq<Event>, more: seq<Event>, id: nat, r: nat)
    requires In(Run(events).at, Lost, id) && r in Contents(Run(events), id)
    ensures r !in Run(events + more).attempted
    decreases |more|
  {
    hide Kept, Apply, Contents;
    Conservation(events);
    if more == [] {
      assert events + more == events;
      NotAttempted(Run(events), id, r);
    } else {
      var one := events + [more[0]];
      assert one[..|events|] == events && events + more == one + more[1..];
      LostStays(Run(events), more[0], id);
      ContentsStay(Run(events), more[0], id);
      LostForever(one, more[1..], id, r);
    }
  }

  /** After any run: a request that has arrived is answered already, or can be answered, exactly once and
      without any failure from now on, if and only if it is not in a batch of a job that failed. */
  lemma AnswerableIff(events: seq<Event>, r: nat)
    requires r < Run(events).received
    ensures (exists more :: AllWorking(more) && multiset(Run(events + more).attempted)[r] == 1) <==>
            !LostRequest(Run(events), r)
  {
    var s := Run(events);
    Conservation(events);
    if !LostRequest(s, r) {
      var more := AnswerInReach(events, r);
    } else {
      var id :| In(s.at, Lost, id) && r in Contents(s, id);
      forall more ensures r !in Run(events + more).attempted { LostForever(events, more, id, r); }
    }
  }

  lemma AnswerInReach(events: seq<Event>, r: nat) returns (more: seq<Event>)
    requires r < Run(events).received && !LostRequest(Run(events), r)
    ensures AllWorking(more) && multiset(Run(events + more).attempted)[r] == 1
  {
    var s := Run(events);
    Conservation(events);
    if r in s.attempted {
      more := [];
      assert events + more == events;
    } else {
      var p, id := WaitsSomewhere(s, r);
      more := CanAnswer(s, p, id, r);
      RunMore(events, more);
    }
    AtMostOneReply(events + more, r);
  }

  // ---- requests arrive, and jobs lose batches only by failing ----

  function Arrivals(events: seq<Event>): nat {
    if events == [] then 0 else Arrivals(events[..|events| - 1]) + if events[|events| - 1].Receive? then 1 else 0
  }

  /** Every received message arrives as a request. */
  lemma {:induction false} AllArrive(events: seq<Event>)
    ensures Run(events).received == Arrivals(events)
  {
    hide Apply, AllPlaced, Tidy, Accounted;
    if events == [] {
    } else {
      AllArrive(events[..|events| - 1]);
      Conservation(events[..|events| - 1]);
      OneArrives(Run(events[..|events| - 1]), events[|events| - 1]);
    }
  }

  lemma OneArrives(s: State, e: Event)
    requires OneEach(s)
    ensures Apply(s, e).received == s.received + if e.Receive? then 1 else 0
  {
    match e
    case Receive(kind) => assert kind == Reads || kind == Writes;
    case _ =>
  }

  /** It joins the end of the batch of its receiver. */
  lemma JoinsBatch(events: seq<Event>, kind: Kind)
    ensures var s, s' := Run(events), Run(events + [Receive(kind)]);
      && |At(s.at, Receiver(kind))| == 1 && s'.at == s.at
      && forall id :: Contents(s', id) ==
           Contents(s, id) + if id == At(s.at, Receiver(kind))[0] then [s.received] else []
  {
    Conservation(events);
    assert (events + [Receive(kind)])[..|events|] == events;
  }

  /** Without failures nothing is ever lost. */
  lemma {:induction false} NothingLost(events: seq<Event>)
    requires AllWorking(events)
    ensures At(Run(events).at, Lost) == []
  {
    if events == [] {
    } else {
      assert AllWorking(events[..|events| - 1]);
      NothingLost(events[..|events| - 1]);
      assert Working(events[|events| - 1]);
      NoneLost(Run(events[..|events| - 1]), events[|events| - 1]);
    }
  }

  lemma NoneLost(s: State, e: Event)
    requires Working(e) && At(s.at, Lost) == []
    ensures At(Apply(s, e).at, Lost) == []
  {
    hide SenderIdle, Contents;
  }

  /** A job that fails loses its batches. */
  lemma FailureLoses(s: State, kind: Kind, k: nat)
    ensures k < |At(s.at, Job(kind))| ==> In(Apply(s, JobDone(kind, k, false)).at, Lost, At(s.at, Job(kind))[k])
    ensures k < |At(s.at, ResultJob)| ==> In(Apply(s, ResultDone(k, false)).at, Lost, At(s.at, ResultJob)[k])
  {
  }

  lemma DbFailureLoses(s: State, kind: Kind, j: nat, id: nat)
    requires In(s.at, DbJob(kind, j), id)
    ensures In(Apply(s, DbJobFails(j)).at, Lost, id)
  {
    hide MoveAll, In;
    var s1 := HandAll(s, DbJob(Reads, j), Lost);
    MoveAllIn(s.at, DbJob(Reads, j), Lost, Lost, id);
    MoveAllIn(s.at, DbJob(Reads, j), Lost, DbJob(Writes, j), id);
    MoveAllIn(s1.at, DbJob(Writes, j), Lost, Lost, id);
  }

  lemma {:induction false} StillNoneLost(s: State, more: seq<Event>)
    requires AllWorking(more) && At(s.at, Lost) == []
    ensures At(RunFrom(s, more).at, Lost) == []
    decreases |more|
  {
    hide Apply;
    if more == [] {
    } else {
      assert Working(more[0]) && AllWorking(more[1..]);
      NoneLost(s, more[0]);
      StillNoneLost(Apply(s, more[0]), more[1..]);
    }
  }

  lemma {:induction false} StillAttempted(s: State, more: seq<Event>, r: nat)
    requires r in s.attempted
    ensures r in RunFrom(s, more).attempted
    decreases |more|
  {
    if more == [] {
    } else {
      StillAttempted(Apply(s, more[0]), more[1..], r);
    }
  }

  /** If no job has failed, all the first n requests can be answered in one go. */
  lemma {:induction false} AllInReach(events: seq<Event>, n: nat) returns (more: seq<Event>)
    requires n <= Run(events).received && At(Run(events).at, Lost) == []
    ensures AllWorking(more) && forall r: nat :: r < n ==> r in Run(events + more).attempted
  {
    hide Run, Apply;
    if n == 0 {
      more := [];
    } else {
      var before := AllInReach(events, n - 1);
      RunMore(events, before);
      StillNoneLost(Run(events), before);
      ReceivedGrows(Run(events), before);
      var last := AnswerInReach(events + before, n - 1);
      more := before + last;
      assert events + more == (events + before) + last;
      RunMore(events + before, last);
      forall r: nat | r < n - 1 ensures r in Run(events + more).attempted {
        StillAttempted(Run(events + before), last, r);
      }
    }
  }

  lemma {:induction false} ReceivedGrows(s: State, more: seq<Event>)
    ensures s.received <= RunFrom(s, more).received
    decreases |more|
  {
    if more == [] {
    } else {
      ReceivedGrows(Apply(s, more[0]), more[1..]);
    }
  }

  /** If no job has failed, the pipeline can go on so that every request that has arrived is answered, each
      exactly once. */
  lemma AllAnswerable(events: seq<Event>) returns (more: seq<Event>)
    requires AllWorking(events)
    ensures AllWorking(more)
    ensures forall r: nat :: r < Run(events).received ==> multiset(Run(events + more).attempted)[r] == 1
  {
    hide Run;
    NothingLost(events);
    more := AllInReach(events, Run(events).received);
    forall r: nat | r < Run(events).received ensures multiset(Run(events + more).attempted)[r] == 1 {
      AtMostOneReply(events + more, r);
      assert r in Run(events + more).attempted;
    }
  }

  // ---- queues are served in order ----

  /** What a distributor takes joins the end of what it holds; jobs are made for batches in that order. */
  lemma InOrder(s: State, kind: Kind)
    ensures At(Apply(s, TakeMessages(kind)).at, Spawning(kind)) ==
            At(s.at, Spawning(kind)) + At(s.at, Place.Messages(kind))
    ensures At(Apply(s, Grab(kind)).at, Grabbed(kind)) == At(s.at, Grabbed(kind)) + At(s.at, Queries(kind))
    ensures At(Apply(s, TakeResults).at, Dealing) == At(s.at, Dealing) + At(s.at, Results)
    ensures At(s.at, Spawning(kind)) != [] ==>
              var s' := Apply(s, SpawnJob(kind));
              && At(s'.at, Spawning(kind)) == At(s.at, Spawning(kind))[1..]
              && At(s'.at, Job(kind)) == At(s.at, Job(kind)) + [At(s.at, Spawning(kind))[0]]
    ensures At(s.at, Dealing) != [] ==>
              var s' := Apply(s, SpawnResultJob);
              && At(s'.at, Dealing) == At(s.at, Dealing)[1..]
              && At(s'.at, ResultJob) == At(s.at, ResultJob) + [At(s.at, Dealing)[0]]
  {
  }

  /** The write batches of a database job are passed on only when its read batches are. */
  lemma WritesWait(s: State, j: nat)
    requires At(s.at, DbJob(Reads, j)) != []
    ensures Apply(s, PassWrites(j)) == s
    ensures At(Apply(s, PassReads(j)).at, Results) == At(s.at, Results) + At(s.at, DbJob(Reads, j))
  {
  }

  // ---- batches are used again ----

  /** A receiver that finds a batch in the pool takes it, and nothing is allocated. */
  lemma PoolReused(events: seq<Event>, kind: Kind)
    requires At(Run(events).at, Pool) != []
    ensures var s, s' := Run(events), Run(events + [Publish(kind, true)]);
      && s'.next == s.next && At(s'.at, Receiver(kind)) == [At(s.at, Pool)[0]]
      && Contents(s', At(s.at, Pool)[0]) == []
  {
    Conservation(events);
    assert (events + [Publish(kind, true)])[..|events|] == events;
    assert In(Run(events).at, Pool, At(Run(events).at, Pool)[0]);
  }

  /** When the sender fetches the next batch, the one it has finished goes to the pool. */
  lemma ReleasedToPool(s: State, id: nat)
    requires At(s.at, Sender) == [id]
    ensures At(Release(s).at, Pool) == At(s.at, Pool) + [id] && At(Release(s).at, Replies) == At(s.at, Replies)
  {
  }

  lemma FinishedPooled(events: seq<Event>)
    requires var s := Run(events); SenderIdle(s) && At(s.at, Sender) != [] && At(s.at, Replies) != []
    ensures var s, s' := Run(events), Run(events + [FetchReplies]);
      && At(s'.at, Pool) == At(s.at, Pool) + At(s.at, Sender)
      && At(s'.at, Sender) == [At(s.at, Replies)[0]] && s'.outI == 0
  {
    hide AllPlaced, Accounted, Release;
    Conservation(events);
    assert (events + [FetchReplies])[..|events|] == events;
    var s := Run(events);
    ReleaseKeeps(s);
    ReleasedToPool(s, At(s.at, Sender)[0]);
  }
}
