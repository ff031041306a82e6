/** The counter that caps how many outstanding database jobs carry logging or monitoring work.
    One distributor; jobs finish and fail at any time. */
module WorkerCap {

  /** Where the distributor stands: between turns; grabbing queues, having read the counter; or
      with the job counted but not yet added to the job queue. */
  datatype Phase = Idle | Grabbing(may: bool, logMon: bool) | Counted(logMon: bool)

  datatype State = State(phase: Phase, n: int, outstanding: set<nat>, carrying: set<nat>, next: nat)

  const START: State := State(Idle, 0, {}, {}, 0)

  /** Atomic steps. `found` says whether the queue held anything; `other` whether any other queue
      did; a job returns by finishing or by its fail function. */
  datatype Event =
    | Load
    | GrabLogMon(found: bool)
    | Count(other: bool)
    | AddJob
    | JobReturns(j: nat)

  function Apply(s: State, max: nat, e: Event): State {
    match e
    case Load => if s.phase.Idle? then s.(phase := Grabbing(s.n < max, false)) else s
    case GrabLogMon(found) =>
      if s.phase.Grabbing? && s.phase.may && found then s.(phase := s.phase.(logMon := true)) else s
    case Count(other) =>
      if !s.phase.Grabbing? then s
      else if s.phase.logMon then s.(phase := Counted(true), n := s.n + 1)
      else if other then s.(phase := Counted(false))
      else s.(phase := Idle)
    case AddJob =>
      if s.phase.Counted? then
        s.(phase := Idle, outstanding := s.outstanding + {s.next}, next := s.next + 1,
           carrying := if s.phase.logMon then s.carrying + {s.next} else s.carrying)
      else s
    case JobReturns(j) =>
      if j !in s.outstanding then s
      else s.(outstanding := s.outstanding - {j}, carrying := s.carrying - {j},
              n := if j in s.carrying then s.n - 1 else s.n)
  }

  function Run(max: nat, events: seq<Event>): State {
    if events == [] then START else Apply(Run(max, events[..|events| - 1]), max, events[|events| - 1])
  }

  /** The counter is the number of outstanding jobs with logging or monitoring work, plus the one
      that is just being added, and it leaves room for that one. */
  ghost predicate Kept(s: State, max: nat) {
    && s.carrying <= s.outstanding
    && (forall j :: j in s.outstanding ==> j < s.next)
    && s.n == |s.carrying| + (if s.phase == Counted(true) then 1 else 0)
    && s.n <= max
    && (s.phase.Grabbing? ==> (s.phase.may ==> s.n < max) && (s.phase.logMon ==> s.phase.may))
  }

  lemma Removed(a: set<nat>, j: nat)
    ensures |a - {j}| == |a| - if j in a then 1 else 0
  {
    if j !in a { assert a - {j} == a; }
  }

  lemma ApplyKeeps(s: State, max: nat, e: Event)
    requires Kept(s, max)
    ensures Kept(Apply(s, max, e), max)
  {
    if e.JobReturns? { Removed(s.carrying, e.j); }
  }

  /** In every interleaving the counter equals the number of outstanding jobs with logging or
      monitoring work whenever the distributor is between turns, and never exceeds the cap. */
  lemma {:induction false} CapHolds(max: nat, events: seq<Event>)
    ensures var s := Run(max, events);
      Kept(s, max) && |s.carrying| <= s.n <= max && (s.phase.Idle? ==> s.n == |s.carrying|)
  {
    if events == [] {
    } else {
      CapHolds(max, events[..|events| - 1]);
      ApplyKeeps(Run(max, events[..|events| - 1]), max, events[|events| - 1]);
    }
  }

  /** Once all jobs have returned, the counter is back at zero: each counted job has given its
      place back exactly once. */
  lemma AllReturned(max: nat, events: seq<Event>)
    requires Run(max, events).outstanding == {} && Run(max, events).phase.Idle?
    ensures Run(max, events).n == 0
  {
    CapHolds(max, events);
  }

  lemma {:induction false} RunMore(max: nat, events: seq<Event>, e: Event)
    ensures Run(max, events + [e]) == Apply(Run(max, events), max, e)
  {
    assert (events + [e])[..|events|] == events;
  }

  /** A turn of the distributor: it reads the counter, looks into the queues of logging and monitoring work,
      and adds a job if there is anything to do. */
  function TurnOf(found: bool, other: bool): seq<Event> {
    [Load, GrabLogMon(found), Count(other), AddJob]
  }

  function AfterTurn(s: State, max: nat, found: bool, other: bool): State {
    var s1 := Apply(Apply(s, max, Load), max, GrabLogMon(found));
    Apply(Apply(s1, max, Count(other)), max, AddJob)
  }

  lemma TurnRuns(max: nat, events: seq<Event>, found: bool, other: bool)
    ensures Run(max, events + TurnOf(found, other)) == AfterTurn(Run(max, events), max, found, other)
  {
    var a := events + [Load];
    var b := a + [GrabLogMon(found)];
    var c := b + [Count(other)];
    RunMore(max, events, Load);
    RunMore(max, a, GrabLogMon(found));
    RunMore(max, b, Count(other));
    RunMore(max, c, AddJob);
    assert events + TurnOf(found, other) == c + [AddJob];
  }

  /** Below the cap, logging and monitoring work that is waiting is given to a new job; at the cap it waits,
      and a job with other work is added without it. */
  lemma AdmittedIff(max: nat, events: seq<Event>, found: bool, other: bool)
    requires Run(max, events).phase.Idle?
    ensures var s, s' := Run(max, events), Run(max, events + TurnOf(found, other));
      var carries := found && |s.carrying| < max;
      && s'.phase.Idle?
      && s'.outstanding == s.outstanding + (if carries || other then {s.next} else {})
      && s'.carrying == s.carrying + (if carries then {s.next} else {})
  {
    CapHolds(max, events);
    TurnRuns(max, events, found, other);
  }

  /** A job that returns is no longer outstanding, and makes room if it carried such work. */
  lemma ReturnFrees(max: nat, events: seq<Event>, j: nat)
    requires j in Run(max, events).outstanding
    ensures var s, s' := Run(max, events), Run(max, events + [JobReturns(j)]);
      && s'.outstanding == s.outstanding - {j} && s'.carrying == s.carrying - {j}
      && s'.n == s.n - if j in s.carrying then 1 else 0
  {
    RunMore(max, events, JobReturns(j));
  }
}
