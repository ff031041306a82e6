/** Query batches on their way from the receivers to the sender and back into the pool. Queues hold
    references; every locked section is one step, and steps of different threads interleave freely.

    A container that hands its batches on is modelled as emptied at that moment. In the source some keep
    the references a little longer without using them: the distributors' local queues until their next
    turn, the read and write queues of a database job until it is cleared for reuse. */
module Handoff {
  import Workload

  datatype Kind = Reads | Writes

  /** Everywhere a reference to a batch can be kept. */
  datatype Place =
    | Receiver(kind: Kind)
    | Messages(kind: Kind)        // received, waiting for a worker
    | Spawning(kind: Kind)        // taken by the distributor of the read or write workers
    | Job(kind: Kind)
    | Queries(kind: Kind)         // waiting for the database
    | Grabbed(kind: Kind)         // taken by the distributor of the database workers
    | DbJob(kind: Kind, j: nat)
    | Results | Dealing | ResultJob
    | Replies | Sender | Pool
    | Lost                        // held by a job that failed

  type Places = map<Place, seq<nat>>

  function At(at: Places, p: Place): seq<nat> {
    if p in at then at[p] else []
  }

  predicate In(at: Places, p: Place, id: nat) {
    id in At(at, p)
  }

  /** Batches are numbered by their allocation, requests by their arrival. `attempted` records the
      requests for which sending a reply has been attempted. */
  datatype State = State(at: Places, next: nat, contents: map<nat, seq<nat>>, outI: nat,
                         attempted: seq<nat>, received: nat, jobs: nat)

  const START: State :=
    State(map[Receiver(Reads) := [0], Receiver(Writes) := [1]], 2, map[0 := [], 1 := []], 0, [], 0, 0)

  datatype Event =
    | Receive(kind: Kind)
    | Publish(kind: Kind, reuse: bool)
    | TakeMessages(kind: Kind)
    | SpawnJob(kind: Kind)
    | JobDone(kind: Kind, k: nat, ok: bool)
    | Grab(kind: Kind)
    | SpawnDbJob
    | PassReads(j: nat)
    | PassWrites(j: nat)
    | DbJobFails(j: nat)
    | TakeResults
    | SpawnResultJob
    | ResultDone(k: nat, ok: bool)
    | FetchReplies
    | SendReply

  // ---- moving batches ----

  function MoveAll(at: Places, from: Place, dest: Place): Places
    requires from != dest
  {
    at[dest := At(at, dest) + At(at, from)][from := []]
  }

  function Without(q: seq<nat>, k: nat): seq<nat>
    requires k < |q|
  {
    q[..k] + q[k + 1..]
  }

  function MoveOne(at: Places, from: Place, k: nat, dest: Place): Places
    requires from != dest && k < |At(at, from)|
  {
    at[from := Without(At(at, from), k)][dest := At(at, dest) + [At(at, from)[k]]]
  }

  /** Moves the k-th batch, if there is one. */
  function Hand(s: State, from: Place, k: nat, dest: Place): State
    requires from != dest
  {
    if k < |At(s.at, from)| then s.(at := MoveOne(s.at, from, k, dest)) else s
  }

  function HandAll(s: State, from: Place, dest: Place): State
    requires from != dest
  {
    s.(at := MoveAll(s.at, from, dest))
  }

  /** The receiver gets a batch from the pool, or a new one. */
  function Acquire(s: State, kind: Kind, reuse: bool): State {
    if reuse && At(s.at, Pool) != [] then Hand(s, Pool, 0, Receiver(kind))
    else s.(at := s.at[Receiver(kind) := At(s.at, Receiver(kind)) + [s.next]],
            contents := s.contents[s.next := []], next := s.next + 1)
  }

  function Contents(s: State, id: nat): seq<nat> {
    if id in s.contents then s.contents[id] else []
  }

  predicate SenderIdle(s: State) {
    At(s.at, Sender) == [] || s.outI >= |Contents(s, At(s.at, Sender)[0])|
  }

  /** The sender clears its batch before it goes back into the pool. */
  function Release(s: State): State {
    if At(s.at, Sender) == [] then s
    else Hand(s.(contents := s.contents[At(s.at, Sender)[0] := []]), Sender, 0, Pool)
  }

  function Apply(s: State, e: Event): State {
    match e
    case Receive(kind) =>
      if At(s.at, Receiver(kind)) == [] then s
      else
        var id := At(s.at, Receiver(kind))[0];
        s.(contents := s.contents[id := Contents(s, id) + [s.received]], received := s.received + 1)
    case Publish(kind, reuse) => Acquire(Hand(s, Receiver(kind), 0, Messages(kind)), kind, reuse)
    case TakeMessages(kind) => HandAll(s, Messages(kind), Spawning(kind))
    case SpawnJob(kind) => Hand(s, Spawning(kind), 0, Job(kind))
    case JobDone(kind, k, ok) => Hand(s, Job(kind), k, if ok then Queries(kind) else Lost)
    case Grab(kind) => HandAll(s, Queries(kind), Grabbed(kind))
    case SpawnDbJob =>
      HandAll(HandAll(s, Grabbed(Reads), DbJob(Reads, s.jobs)), Grabbed(Writes), DbJob(Writes, s.jobs))
        .(jobs := s.jobs + 1)
    case PassReads(j) => HandAll(s, DbJob(Reads, j), Results)
    case PassWrites(j) => if At(s.at, DbJob(Reads, j)) == [] then HandAll(s, DbJob(Writes, j), Results) else s
    case DbJobFails(j) => HandAll(HandAll(s, DbJob(Reads, j), Lost), DbJob(Writes, j), Lost)
    case TakeResults => HandAll(s, Results, Dealing)
    case SpawnResultJob => Hand(s, Dealing, 0, ResultJob)
    case ResultDone(k, ok) => Hand(s, ResultJob, k, if ok then Replies else Lost)
    case FetchReplies =>
      if SenderIdle(s) && At(s.at, Replies) != [] then Hand(Release(s), Replies, 0, Sender).(outI := 0) else s
    case SendReply =>
      if SenderIdle(s) then s
      else s.(attempted := s.attempted + [Contents(s, At(s.at, Sender)[0])[s.outI]], outI := s.outI + 1)
  }

  function Run(events: seq<Event>): State {
    if events == [] then START else Apply(Run(events[..|events| - 1]), events[|events| - 1])
  }

  // ---- every batch is in exactly one place ----

  ghost predicate Once(at: Places) {
    && (forall p :: Workload.Distinct(At(at, p)))
    && (forall p, q, id :: In(at, p, id) && In(at, q, id) ==> p == q)
  }

  ghost predicate Somewhere(at: Places, id: nat) {
    exists p :: In(at, p, id)
  }

  /** The batches 0 to next - 1 are somewhere, once each, and nothing else is anywhere. */
  ghost predicate AllPlaced(at: Places, next: nat) {
    Once(at) && forall id: nat :: id < next <==> Somewhere(at, id)
  }

  /** A step that only moves batches around. */
  ghost predicate Shuffled(a: Places, b: Places) {
    && (Once(a) ==> Once(b))
    && (forall id :: Somewhere(a, id) <==> Somewhere(b, id))
  }

  lemma WithoutExact(q: seq<nat>, k: nat)
    requires k < |q| && Workload.Distinct(q)
    ensures Workload.Distinct(Without(q, k))
    ensures forall id :: id in Without(q, k) <==> id in q && id != q[k]
  {
    forall id | id in q && id != q[k] ensures id in Without(q, k) {
      var i :| 0 <= i < |q| && q[i] == id;
      assert Without(q, k)[if i < k then i else i - 1] == id;
    }
  }

  lemma MoveAllIn(at: Places, from: Place, dest: Place, p: Place, id: nat)
    requires from != dest
    ensures In(MoveAll(at, from, dest), p, id) <==>
      if p == from then false else In(at, p, id) || (p == dest && In(at, from, id))
  {
  }

  lemma MoveAllShuffles(at: Places, from: Place, dest: Place)
    requires from != dest
    ensures Shuffled(at, MoveAll(at, from, dest))
  {
    var b := MoveAll(at, from, dest);
    if Once(at) {
      forall p ensures Workload.Distinct(At(b, p)) {
        assert Workload.Distinct(At(at, from)) && Workload.Distinct(At(at, dest)) && Workload.Distinct(At(at, p));
        if p == dest {
          forall id | id in At(at, dest) ensures id !in At(at, from) { assert In(at, dest, id) && !In(at, from, id); }
          Workload.DistinctConcat(At(at, dest), At(at, from));
        }
      }
      forall p, q, id | In(b, p, id) && In(b, q, id) ensures p == q {
        MoveAllIn(at, from, dest, p, id);
        MoveAllIn(at, from, dest, q, id);
      }
    }
    forall id ensures Somewhere(at, id) <==> Somewhere(b, id) {
      if Somewhere(at, id) {
        var p :| In(at, p, id);
        MoveAllIn(at, from, dest, if p == from then dest else p, id);
      }
      if Somewhere(b, id) {
        var p :| In(b, p, id);
        MoveAllIn(at, from, dest, p, id);
      }
    }
  }

  lemma MoveOneIn(at: Places, from: Place, k: nat, dest: Place, p: Place, id: nat)
    requires from != dest && k < |At(at, from)| && Workload.Distinct(At(at, from))
    ensures In(MoveOne(at, from, k, dest), p, id) <==>
      if p == from then In(at, from, id) && id != At(at, from)[k]
      else In(at, p, id) || (p == dest && id == At(at, from)[k])
  {
    WithoutExact(At(at, from), k);
  }

  lemma MoveOneShuffles(at: Places, from: Place, k: nat, dest: Place)
    requires from != dest && k < |At(at, from)| && Once(at)
    ensures Shuffled(at, MoveOne(at, from, k, dest))
  {
    var b, x := MoveOne(at, from, k, dest), At(at, from)[k];
    assert Workload.Distinct(At(at, from)) && In(at, from, x);
    WithoutExact(At(at, from), k);
    forall p ensures Workload.Distinct(At(b, p)) {
      assert Workload.Distinct(At(at, p));
      if p == dest {
        assert !In(at, dest, x);
        Workload.DistinctConcat(At(at, dest), [x]);
      }
    }
    forall p, q, id | In(b, p, id) && In(b, q, id) ensures p == q {
      MoveOneIn(at, from, k, dest, p, id);
      MoveOneIn(at, from, k, dest, q, id);
    }
    forall id ensures Somewhere(at, id) <==> Somewhere(b, id) {
      if Somewhere(at, id) {
        var p :| In(at, p, id);
        MoveOneIn(at, from, k, dest, if id == x then dest else p, id);
      }
      if Somewhere(b, id) {
        var p :| In(b, p, id);
        MoveOneIn(at, from, k, dest, p, id);
      }
    }
  }

  // ---- every request is in exactly one place ----

  /** The requests of a batch that are still to be answered. */
  function Rest(s: State, id: nat): seq<nat> {
    var c := Contents(s, id);
    if In(s.at, Sender, id) && s.outI <= |c| then c[s.outI..] else c
  }

  function SumRest(s: State, n: nat): multiset<nat> {
    if n == 0 then multiset{} else SumRest(s, n - 1) + multiset(Rest(s, n - 1))
  }

  /** The requests that have arrived. */
  function Serials(n: nat): multiset<nat> {
    if n == 0 then multiset{} else Serials(n - 1) + multiset{n - 1}
  }

  lemma {:induction false} SerialsExact(n: nat, r: nat)
    ensures Serials(n)[r] == if r < n then 1 else 0
  {
    if n == 0 {
    } else {
      SerialsExact(n - 1, r);
    }
  }

  ghost predicate Accounted(s: State) {
    Serials(s.received) == multiset(s.attempted) + SumRest(s, s.next)
  }

  /** Batches in the pool are empty; the sender has at most one, with its cursor inside. */
  ghost predicate Tidy(s: State) {
    && (forall id :: In(s.at, Pool, id) ==> Contents(s, id) == [])
    && |At(s.at, Sender)| <= 1
    && (At(s.at, Sender) != [] ==> s.outI <= |Contents(s, At(s.at, Sender)[0])|)
  }

  predicate OneEach(s: State) {
    |At(s.at, Receiver(Reads))| == 1 && |At(s.at, Receiver(Writes))| == 1
  }

  /** Every batch is in one place, and every request that arrived has been attempted or is still in
      its batch. */
  ghost predicate Core(s: State) {
    AllPlaced(s.at, s.next) && Tidy(s) && Accounted(s)
  }

  ghost predicate Kept(s: State) {
    Core(s) && OneEach(s)
  }

  lemma {:induction false} SumSame(a: State, b: State, n: nat)
    requires forall id: nat :: id < n ==> Rest(a, id) == Rest(b, id)
    ensures SumRest(a, n) == SumRest(b, n)
  {
    if n == 0 {
    } else {
      SumSame(a, b, n - 1);
    }
  }

  lemma Regroup(a: multiset<nat>, b: multiset<nat>, c: multiset<nat>)
    ensures (a + b) + c == a + (b + c)
  {
  }

  lemma SumHere(a: State, b: State, n: nat, r: nat)
    requires n > 0 && SumRest(b, n - 1) == SumRest(a, n - 1)
    requires multiset(Rest(b, n - 1)) == multiset(Rest(a, n - 1)) + multiset{r}
    ensures SumRest(b, n) == SumRest(a, n) + multiset{r}
  {
    Regroup(SumRest(a, n - 1), multiset(Rest(a, n - 1)), multiset{r});
  }

  lemma SumBefore(a: State, b: State, n: nat, r: nat)
    requires n > 0 && SumRest(b, n - 1) == SumRest(a, n - 1) + multiset{r} && Rest(b, n - 1) == Rest(a, n - 1)
    ensures SumRest(b, n) == SumRest(a, n) + multiset{r}
  {
    Swap(SumRest(a, n - 1), multiset{r}, multiset(Rest(a, n - 1)));
  }

  lemma Swap(a: multiset<nat>, b: multiset<nat>, c: multiset<nat>)
    ensures (a + b) + c == (a + c) + b
  {
  }

  /** b's rest of one batch is a's and r. */
  lemma {:induction false} SumPlus(a: State, b: State, n: nat, id: nat, r: nat)
    requires id < n && multiset(Rest(b, id)) == multiset(Rest(a, id)) + multiset{r}
    requires forall x: nat :: x < n && x != id ==> Rest(a, x) == Rest(b, x)
    ensures SumRest(b, n) == SumRest(a, n) + multiset{r}
  {
    hide Rest;
    if id == n - 1 {
      SumSame(a, b, n - 1);
      SumHere(a, b, n, r);
    } else {
      SumPlus(a, b, n - 1, id, r);
      SumBefore(a, b, n, r);
    }
  }

  lemma Placed(at: Places, next: nat, p: Place, id: nat)
    requires AllPlaced(at, next) && In(at, p, id)
    ensures id < next
  {
    assert Somewhere(at, id);
  }

  /** Places between the receivers and the sender. */
  predicate Inner(p: Place) {
    !p.Receiver? && p != Sender && p != Pool
  }

  /** Moves that neither touch the sender nor put anything into the pool. */
  lemma QuietMove(a: State, b: State)
    requires Core(a) && b == a.(at := b.at, jobs := b.jobs) && Shuffled(a.at, b.at)
    requires At(b.at, Sender) == At(a.at, Sender) && forall id :: In(b.at, Pool, id) ==> In(a.at, Pool, id)
    ensures Core(b)
  {
    SumSame(a, b, a.next);
  }

  lemma HandQuietly(s: State, from: Place, k: nat, dest: Place)
    requires Core(s) && from != dest && from != Sender && dest != Sender && dest != Pool
    ensures Core(Hand(s, from, k, dest))
    ensures Inner(from) && Inner(dest) && Kept(s) ==> Kept(Hand(s, from, k, dest))
  {
    if k < |At(s.at, from)| {
      MoveOneShuffles(s.at, from, k, dest);
      forall id | In(Hand(s, from, k, dest).at, Pool, id) ensures In(s.at, Pool, id) {
        MoveOneIn(s.at, from, k, dest, Pool, id);
      }
      QuietMove(s, Hand(s, from, k, dest));
    }
  }

  lemma HandAllQuietly(s: State, from: Place, dest: Place)
    requires Core(s) && from != dest && from != Sender && dest != Sender && dest != Pool
    ensures Core(HandAll(s, from, dest))
    ensures Inner(from) && Inner(dest) && Kept(s) ==> Kept(HandAll(s, from, dest))
  {
    MoveAllShuffles(s.at, from, dest);
    QuietMove(s, HandAll(s, from, dest));
  }

  lemma ElsewhereNot(at: Places, p: Place, q: Place, id: nat)
    requires Once(at) && In(at, p, id) && p != q
    ensures !In(at, q, id)
  {
  }

  lemma Arrived(s: State, s': State)
    requires Accounted(s) && s'.received == s.received + 1 && s'.attempted == s.attempted && s'.next == s.next
    requires SumRest(s', s.next) == SumRest(s, s.next) + multiset{s.received}
    ensures Accounted(s')
  {
    Regroup(multiset(s.attempted), SumRest(s, s.next), multiset{s.received});
  }

  lemma Answered(s: State, s': State, r: nat)
    requires Accounted(s) && s'.received == s.received && s'.attempted == s.attempted + [r] && s'.next == s.next
    requires SumRest(s, s.next) == SumRest(s', s.next) + multiset{r}
    ensures Accounted(s')
  {
    assert SumRest(s, s.next) == multiset{r} + SumRest(s', s.next);
    Regroup(multiset(s.attempted), multiset{r}, SumRest(s', s.next));
  }

  lemma ReceiveRest(s: State, kind: Kind, id: nat, x: nat)
    requires At(s.at, Receiver(kind)) == [id] && !In(s.at, Sender, id)
    ensures Rest(Apply(s, Receive(kind)), x) == if x == id then Rest(s, x) + [s.received] else Rest(s, x)
  {
  }

  lemma ReceiveTidy(s: State, kind: Kind, id: nat)
    requires Tidy(s) && At(s.at, Receiver(kind)) == [id] && !In(s.at, Sender, id) && !In(s.at, Pool, id)
    ensures Tidy(Apply(s, Receive(kind)))
  {
    assert At(s.at, Sender) != [] ==> In(s.at, Sender, At(s.at, Sender)[0]);
  }

  lemma ReceiveAccounts(s: State, kind: Kind, id: nat)
    requires Accounted(s) && At(s.at, Receiver(kind)) == [id] && id < s.next && !In(s.at, Sender, id)
    ensures Accounted(Apply(s, Receive(kind)))
  {
    var s' := Apply(s, Receive(kind));
    ReceiveRest(s, kind, id, id);
    forall x: nat | x != id ensures Rest(s', x) == Rest(s, x) { ReceiveRest(s, kind, id, x); }
    SumPlus(s, s', s.next, id, s.received);
    Arrived(s, s');
  }

  lemma ReceiveKeeps(s: State, kind: Kind)
    requires Kept(s)
    ensures Kept(Apply(s, Receive(kind)))
  {
    var id := At(s.at, Receiver(kind))[0];
    assert In(s.at, Receiver(kind), id) && At(s.at, Receiver(kind)) == [id];
    ElsewhereNot(s.at, Receiver(kind), Sender, id);
    ElsewhereNot(s.at, Receiver(kind), Pool, id);
    Placed(s.at, s.next, Receiver(kind), id);
    ReceiveTidy(s, kind, id);
    ReceiveAccounts(s, kind, id);
  }

  lemma NewPlace(at: Places, next: nat, p: Place)
    requires AllPlaced(at, next)
    ensures AllPlaced(at[p := At(at, p) + [next]], next + 1)
  {
    var b := at[p := At(at, p) + [next]];
    assert !Somewhere(at, next) && !In(at, p, next);
    forall q ensures Workload.Distinct(At(b, q)) {
      assert Workload.Distinct(At(at, q));
      if q == p { Workload.DistinctConcat(At(at, p), [next]); }
    }
    forall q, x ensures In(b, q, x) <==> In(at, q, x) || (q == p && x == next) { }
    forall x: nat ensures x < next + 1 <==> Somewhere(b, x) {
      if x < next {
        assert Somewhere(at, x);
        var q :| In(at, q, x);
        assert In(b, q, x);
      } else if x == next {
        assert In(b, p, x);
      } else if Somewhere(b, x) {
        var q :| In(b, q, x);
        assert Somewhere(at, x);
      }
    }
  }

  lemma NewTidy(s: State, kind: Kind)
    requires Tidy(s) && !In(s.at, Pool, s.next) && !In(s.at, Sender, s.next)
    ensures Tidy(Acquire(s, kind, false))
  {
    var s' := Acquire(s, kind, false);
    assert At(s'.at, Sender) == At(s.at, Sender) && At(s'.at, Pool) == At(s.at, Pool);
    assert At(s.at, Sender) != [] ==> In(s.at, Sender, At(s.at, Sender)[0]);
    forall id | In(s'.at, Pool, id) ensures Contents(s', id) == [] { assert In(s.at, Pool, id); }
  }

  lemma NewRest(s: State, kind: Kind, id: nat)
    ensures Rest(Acquire(s, kind, false), id) == if id == s.next then [] else Rest(s, id)
  {
    var s' := Acquire(s, kind, false);
    assert At(s'.at, Sender) == At(s.at, Sender);
  }

  lemma NewAccounts(s: State, kind: Kind)
    requires Tidy(s) && Accounted(s) && !In(s.at, Pool, s.next) && !In(s.at, Sender, s.next)
    ensures Tidy(Acquire(s, kind, false)) && Accounted(Acquire(s, kind, false))
  {
    var s' := Acquire(s, kind, false);
    NewTidy(s, kind);
    forall id: nat ensures Rest(s', id) == if id == s.next then [] else Rest(s, id) { NewRest(s, kind, id); }
    SumSame(s, s', s.next);
  }

  lemma NewBatch(s: State, kind: Kind)
    requires Core(s)
    ensures Core(Acquire(s, kind, false))
  {
    NewPlace(s.at, s.next, Receiver(kind));
    assert !Somewhere(s.at, s.next);
    assert !In(s.at, Pool, s.next) && !In(s.at, Sender, s.next);
    NewAccounts(s, kind);
  }

  function Other(kind: Kind): Kind {
    if kind == Reads then Writes else Reads
  }

  lemma AcquireKeeps(s: State, kind: Kind, reuse: bool)
    requires Core(s) && At(s.at, Receiver(kind)) == [] && |At(s.at, Receiver(Other(kind)))| == 1
    ensures Kept(Acquire(s, kind, reuse))
  {
    hide AllPlaced, Tidy, Accounted;
    if reuse && At(s.at, Pool) != [] { HandQuietly(s, Pool, 0, Receiver(kind)); } else { NewBatch(s, kind); }
  }

  lemma HandedOver(s: State, kind: Kind)
    requires OneEach(s)
    ensures var s' := Hand(s, Receiver(kind), 0, Messages(kind));
      At(s'.at, Receiver(kind)) == [] && At(s'.at, Receiver(Other(kind))) == At(s.at, Receiver(Other(kind)))
  {
  }

  lemma PublishKeeps(s: State, kind: Kind, reuse: bool)
    requires Kept(s)
    ensures Kept(Apply(s, Publish(kind, reuse)))
  {
    var s1 := Hand(s, Receiver(kind), 0, Messages(kind));
    HandQuietly(s, Receiver(kind), 0, Messages(kind));
    HandedOver(s, kind);
    AcquireKeeps(s1, kind, reuse);
    assert Apply(s, Publish(kind, reuse)) == Acquire(s1, kind, reuse);
  }

  lemma ReleaseRest(s: State, id: nat, x: nat)
    requires SenderIdle(s) && At(s.at, Sender) == [id] && s.outI == |Contents(s, id)|
    ensures Rest(Release(s), x) == Rest(s, x)
  {
    assert At(Release(s).at, Sender) == [];
  }

  lemma ReleaseAccounts(s: State, id: nat)
    requires Tidy(s) && Accounted(s) && SenderIdle(s) && At(s.at, Sender) == [id]
    ensures Tidy(Release(s)) && Accounted(Release(s))
  {
    var b := Release(s);
    forall x | In(b.at, Pool, x) ensures Contents(b, x) == [] { assert In(s.at, Pool, x) || x == id; }
    forall x: nat ensures Rest(b, x) == Rest(s, x) { ReleaseRest(s, id, x); }
    SumSame(s, b, s.next);
  }

  lemma ReleaseKeeps(s: State)
    requires Core(s) && SenderIdle(s)
    ensures Core(Release(s)) && At(Release(s).at, Sender) == []
    ensures OneEach(s) ==> OneEach(Release(s))
    ensures At(Release(s).at, Replies) == At(s.at, Replies)
  {
    if At(s.at, Sender) != [] {
      var id := At(s.at, Sender)[0];
      assert In(s.at, Sender, id);
      MoveOneShuffles(s.at, Sender, 0, Pool);
      ReleaseAccounts(s, id);
    }
  }

  lemma FetchFrom(a: State)
    requires Core(a) && At(a.at, Sender) == [] && At(a.at, Replies) != []
    ensures Core(Hand(a, Replies, 0, Sender).(outI := 0))
    ensures OneEach(a) ==> OneEach(Hand(a, Replies, 0, Sender))
  {
    var b := Hand(a, Replies, 0, Sender).(outI := 0);
    MoveOneShuffles(a.at, Replies, 0, Sender);
    assert At(b.at, Pool) == At(a.at, Pool);
    forall id | In(b.at, Pool, id) ensures Contents(b, id) == [] { assert In(a.at, Pool, id); }
    forall x: nat ensures Rest(b, x) == Rest(a, x) { }
    SumSame(a, b, a.next);
  }

  lemma FetchKeeps(s: State)
    requires Kept(s)
    ensures Kept(Apply(s, FetchReplies))
  {
    if SenderIdle(s) && At(s.at, Replies) != [] {
      ReleaseKeeps(s);
      FetchFrom(Release(s));
    }
  }

  lemma SendRest(s: State, id: nat, x: nat)
    requires !SenderIdle(s) && At(s.at, Sender) == [id]
    ensures var s' := Apply(s, SendReply);
      if x == id then Rest(s, x) == [Contents(s, id)[s.outI]] + Rest(s', x) else Rest(s', x) == Rest(s, x)
  {
    var c := Contents(s, id);
    assert c[s.outI..] == [c[s.outI]] + c[s.outI + 1..];
  }

  lemma SendTidy(s: State, id: nat)
    requires Tidy(s) && !SenderIdle(s) && At(s.at, Sender) == [id]
    ensures Tidy(Apply(s, SendReply))
  {
  }

  lemma SendAccounts(s: State, id: nat)
    requires Accounted(s) && !SenderIdle(s) && At(s.at, Sender) == [id] && id < s.next
    ensures Accounted(Apply(s, SendReply))
  {
    var s', r := Apply(s, SendReply), Contents(s, id)[s.outI];
    SendRest(s, id, id);
    forall x: nat | x != id ensures Rest(s', x) == Rest(s, x) { SendRest(s, id, x); }
    SumPlus(s', s, s.next, id, r);
    Answered(s, s', r);
  }

  lemma SendKeeps(s: State)
    requires Kept(s)
    ensures Kept(Apply(s, SendReply))
  {
    if !SenderIdle(s) {
      var id := At(s.at, Sender)[0];
      assert In(s.at, Sender, id);
      Placed(s.at, s.next, Sender, id);
      SendTidy(s, id);
      SendAccounts(s, id);
    }
  }

  /** Two moves of a database job's queues, one after the other. */
  lemma HandBoth(s: State, from1: Place, dest1: Place, from2: Place, dest2: Place)
    requires Kept(s) && from1 != dest1 && from2 != dest2
    requires Inner(from1) && Inner(dest1) && Inner(from2) && Inner(dest2)
    ensures Kept(HandAll(HandAll(s, from1, dest1), from2, dest2))
  {
    HandAllQuietly(s, from1, dest1);
    HandAllQuietly(HandAll(s, from1, dest1), from2, dest2);
  }

  lemma SpawnDbKeeps(s: State)
    requires Kept(s)
    ensures Kept(Apply(s, SpawnDbJob))
  {
    hide AllPlaced, Tidy, Accounted;
    var s1 := HandAll(HandAll(s, Grabbed(Reads), DbJob(Reads, s.jobs)), Grabbed(Writes), DbJob(Writes, s.jobs));
    HandBoth(s, Grabbed(Reads), DbJob(Reads, s.jobs), Grabbed(Writes), DbJob(Writes, s.jobs));
    MoreJobs(s1, s.jobs + 1);
    assert Apply(s, SpawnDbJob) == s1.(jobs := s.jobs + 1);
  }

  lemma DbFailKeeps(s: State, j: nat)
    requires Kept(s)
    ensures Kept(Apply(s, DbJobFails(j)))
  {
    hide AllPlaced, Tidy, Accounted;
    HandBoth(s, DbJob(Reads, j), Lost, DbJob(Writes, j), Lost);
    assert Apply(s, DbJobFails(j)) == HandAll(HandAll(s, DbJob(Reads, j), Lost), DbJob(Writes, j), Lost);
  }

  lemma MoreJobs(s: State, n: nat)
    requires Kept(s)
    ensures Kept(s.(jobs := n))
  {
    SumSame(s, s.(jobs := n), s.next);
  }

  lemma MessagesKeep(s: State, kind: Kind)
    requires Kept(s)
    ensures Kept(Apply(s, TakeMessages(kind))) && Kept(Apply(s, SpawnJob(kind)))
  {
    assert Apply(s, TakeMessages(kind)) == HandAll(s, Messages(kind), Spawning(kind));
    assert Apply(s, SpawnJob(kind)) == Hand(s, Spawning(kind), 0, Job(kind));
    HandAllQuietly(s, Messages(kind), Spawning(kind));
    HandQuietly(s, Spawning(kind), 0, Job(kind));
  }

  lemma ResultsKeep(s: State)
    requires Kept(s)
    ensures Kept(Apply(s, TakeResults)) && Kept(Apply(s, SpawnResultJob))
  {
    assert Apply(s, TakeResults) == HandAll(s, Results, Dealing);
    assert Apply(s, SpawnResultJob) == Hand(s, Dealing, 0, ResultJob);
    HandAllQuietly(s, Results, Dealing);
    HandQuietly(s, Dealing, 0, ResultJob);
  }

  lemma JobDoneKeeps(s: State, kind: Kind, k: nat, ok: bool)
    requires Kept(s)
    ensures Kept(Apply(s, JobDone(kind, k, ok)))
  {
    var dest := if ok then Queries(kind) else Lost;
    assert Apply(s, JobDone(kind, k, ok)) == Hand(s, Job(kind), k, dest);
    HandQuietly(s, Job(kind), k, dest);
  }

  lemma ResultDoneKeeps(s: State, k: nat, ok: bool)
    requires Kept(s)
    ensures Kept(Apply(s, ResultDone(k, ok)))
  {
    var dest := if ok then Replies else Lost;
    assert Apply(s, ResultDone(k, ok)) == Hand(s, ResultJob, k, dest);
    HandQuietly(s, ResultJob, k, dest);
  }

  lemma ApplyKeeps(s: State, e: Event)
    requires Kept(s)
    ensures Kept(Apply(s, e))
  {
    hide AllPlaced, Tidy, Accounted;
    match e
    case Receive(kind) => ReceiveKeeps(s, kind);
    case Publish(kind, reuse) => PublishKeeps(s, kind, reuse);
    case JobDone(kind, k, ok) => JobDoneKeeps(s, kind, k, ok);
    case ResultDone(k, ok) => ResultDoneKeeps(s, k, ok);
    case Grab(kind) => HandAllQuietly(s, Queries(kind), Grabbed(kind));
    case SpawnDbJob => SpawnDbKeeps(s);
    case PassReads(j) => HandAllQuietly(s, DbJob(Reads, j), Results);
    case PassWrites(j) => HandAllQuietly(s, DbJob(Writes, j), Results);
    case DbJobFails(j) => DbFailKeeps(s, j);
    case FetchReplies => FetchKeeps(s);
    case SendReply => SendKeeps(s);
    case TakeMessages(kind) => MessagesKeep(s, kind);
    case SpawnJob(kind) => MessagesKeep(s, kind);
    case TakeResults => ResultsKeep(s);
    case SpawnResultJob => ResultsKeep(s);
  }

  lemma StartKept()
    ensures Kept(START)
  {
    forall p
      ensures At(START.at, p) == if p == Receiver(Reads) then [0] else if p == Receiver(Writes) then [1] else []
    {
    }
    assert In(START.at, Receiver(Reads), 0) && In(START.at, Receiver(Writes), 1);
    assert Rest(START, 0) == [] && Rest(START, 1) == [];
    assert SumRest(START, 1) == multiset{};
  }

  /** In every interleaving of the threads' steps. */
  lemma {:induction false} Conservation(events: seq<Event>)
    ensures Kept(Run(events))
  {
    if events == [] {
      StartKept();
    } else {
      Conservation(events[..|events| - 1]);
      ApplyKeeps(Run(events[..|events| - 1]), events[|events| - 1]);
    }
  }

  /** Every batch that was ever allocated is in exactly one place. */
  lemma OnePlaceEach(events: seq<Event>, id: nat)
    requires id < Run(events).next
    ensures exists p :: In(Run(events).at, p, id) && forall q :: In(Run(events).at, q, id) ==> q == p
  {
    var s := Run(events);
    Conservation(events);
    assert Somewhere(s.at, id);
    var p :| In(s.at, p, id);
  }

  /** No request is answered twice, and nothing is answered that was not asked. */
  lemma {:induction false} AtMostOneReply(events: seq<Event>, r: nat)
    ensures multiset(Run(events).attempted)[r] <= if r < Run(events).received then 1 else 0
  {
    Conservation(events);
    SerialsExact(Run(events).received, r);
  }

  /** No job has failed, all queues and jobs are empty, the receivers hold no request and the sender
      has come to the end of its batch. */
  ghost predicate Drained(s: State) {
    && (forall p :: At(s.at, p) != [] ==> p.Receiver? || p == Sender || p == Pool)
    && (forall kind, id :: In(s.at, Receiver(kind), id) ==> Contents(s, id) == [])
    && SenderIdle(s)
  }

  lemma {:induction false} SumNothing(s: State, n: nat)
    requires forall id: nat :: id < n ==> Rest(s, id) == []
    ensures SumRest(s, n) == multiset{}
  {
    if n == 0 {
    } else {
      SumNothing(s, n - 1);
    }
  }

  lemma NothingLeft(s: State, id: nat)
    requires Core(s) && Drained(s) && id < s.next
    ensures Rest(s, id) == []
  {
    assert Somewhere(s.at, id);
    var p :| In(s.at, p, id);
    assert At(s.at, p) != [];
    if p == Sender { assert At(s.at, Sender) == [id]; }
  }

  /** Once the pipeline is drained, a reply to every request has been attempted exactly once. */
  lemma {:induction false} ExactlyOneReply(events: seq<Event>, r: nat)
    requires Drained(Run(events)) && r < Run(events).received
    ensures multiset(Run(events).attempted)[r] == 1
  {
    var s := Run(events);
    Conservation(events);
    forall id: nat | id < s.next ensures Rest(s, id) == [] { NothingLeft(s, id); }
    SumNothing(s, s.next);
    SerialsExact(s.received, r);
  }
}
