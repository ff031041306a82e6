/** The cached device configurations: loading them for a pair of configuration ids, and looking
    them up. */
module ConfigCache {
  import opened Options
  import opened Messages
  import opened ResultDealing
  import ReadAcknowledgement

  datatype Ids = Ids(base: int, runmode: int)

  /** The configuration tables: which version of which device a base or run-mode configuration
      names, and the data of each version of a device. */
  datatype Configs = Configs(base: map<int, map<string, int>>, runmode: map<int, map<string, int>>,
                             devices: map<(string, int), string>)

  /** A cached document. */
  datatype Doc = Doc(version: int, data: string, ids: Ids)
  type Docs = map<string, Doc>

  /** The base configuration overridden by the run-mode configuration; nothing if either is missing. */
  function Merged(db: Configs, ids: Ids): map<string, int> {
    if ids.base in db.base && ids.runmode in db.runmode then db.base[ids.base] + db.runmode[ids.runmode] else map[]
  }

  /** A document for every device that the two name with an existing version. */
  function Wanted(db: Configs, ids: Ids): Docs {
    var versions := Merged(db, ids);
    map d | d in versions && (d, versions[d]) in db.devices :: Doc(versions[d], db.devices[(d, versions[d])], ids)
  }

  /** A request to load: its ids, the tables as the query sees them, and the rows it returns. */
  datatype Load = Load(ids: Ids, db: Configs, rows: seq<(string, Doc)>) {
    function Docs(): Docs {
      Wanted(db, ids)
    }

    /** The query returns the wanted documents, in any order. */
    ghost predicate Valid() {
      && (forall row :: row in rows ==> row.0 in Docs() && Docs()[row.0] == row.1)
      && (forall d :: d in Docs() ==> (d, Docs()[d]) in rows)
    }
  }

  /** The first n rows, by device. */
  function Collected(rows: seq<(string, Doc)>, n: nat): Docs
    requires n <= |rows|
  {
    if n == 0 then map[] else Collected(rows, n - 1)[rows[n - 1].0 := rows[n - 1].1]
  }

  lemma {:induction false} CollectedRows(rows: seq<(string, Doc)>, n: nat)
    requires n <= |rows|
    ensures forall d :: d in Collected(rows, n) <==> exists k :: 0 <= k < n && rows[k].0 == d
    ensures forall d :: d in Collected(rows, n) ==> (d, Collected(rows, n)[d]) in rows
  {
    if n == 0 {
    } else {
      CollectedRows(rows, n - 1);
      forall d ensures d in Collected(rows, n) <==> exists k :: 0 <= k < n && rows[k].0 == d {
        if d == rows[n - 1].0 { assert 0 <= n - 1 < n && rows[n - 1].0 == d; }
      }
    }
  }

  /** Whatever the order of the rows, they add up to the wanted documents. */
  lemma CollectedAll(load: Load)
    requires load.Valid()
    ensures Collected(load.rows, |load.rows|) == load.Docs()
  {
    var all := Collected(load.rows, |load.rows|);
    CollectedRows(load.rows, |load.rows|);
    forall d ensures d in all <==> d in load.Docs() {
      if d in load.Docs() {
        var k :| 0 <= k < |load.rows| && load.rows[k] == (d, load.Docs()[d]);
        assert load.rows[k].0 == d;
      }
    }
    forall d | d in all ensures all[d] == load.Docs()[d] {
      assert (d, all[d]) in load.rows;
    }
  }

  // ---- loading in small steps, with readers in between ----

  /** Where a load is: it collects rows, then the maps have been swapped, then the base id is set. */
  datatype Phase = Idle | Reading(load: Load, n: nat, tmp: Docs) | Swapped(load: Load) | BaseSet(load: Load)

  /** `last` is the load whose documents were swapped in last. */
  datatype State = State(cache: Docs, ids: Ids, phase: Phase, last: Option<Load>)

  datatype Event = Begin(load: Load) | Proceed | Fail

  /** A load can fail at any point before the swap. A request without both ids begins nothing. */
  function Step(s: State, e: Event): State {
    match e
    case Begin(load) => if s.phase.Idle? then s.(phase := Reading(load, 0, map[])) else s
    case Fail => if s.phase.Reading? then s.(phase := Idle) else s
    case Proceed =>
      match s.phase
      case Idle => s
      case Reading(load, n, tmp) =>
        if n < |load.rows| then s.(phase := Reading(load, n + 1, tmp[load.rows[n].0 := load.rows[n].1]))
        else s.(cache := tmp, phase := Swapped(load), last := Some(load))
      case Swapped(load) => s.(ids := s.ids.(base := load.ids.base), phase := BaseSet(load))
      case BaseSet(load) => s.(ids := s.ids.(runmode := load.ids.runmode), phase := Idle)
  }

  function Start(ids: Ids): State {
    State(map[], ids, Idle, None)
  }

  function Run(ids: Ids, events: seq<Event>): State {
    if events == [] then Start(ids) else Step(Run(ids, events[..|events| - 1]), events[|events| - 1])
  }

  ghost predicate ValidEvents(events: seq<Event>) {
    forall e :: e in events && e.Begin? ==> e.load.Valid()
  }

  /** The stored ids are those of the last load, except between its swap and the two assignments
      after it. */
  ghost predicate Consistent(s: State) {
    && s.cache == (if s.last.Some? then s.last.value.Docs() else map[])
    && (s.last.Some? && (s.phase.Idle? || s.phase.Reading?) ==> s.ids == s.last.value.ids)
    && (s.phase.Reading? ==>
          s.phase.load.Valid() && s.phase.n <= |s.phase.load.rows| &&
          s.phase.tmp == Collected(s.phase.load.rows, s.phase.n))
    && (s.phase.Swapped? || s.phase.BaseSet? ==> s.last == Some(s.phase.load))
    && (s.phase.BaseSet? ==> s.ids.base == s.phase.load.ids.base)
  }

  lemma StepKeeps(s: State, e: Event)
    requires Consistent(s) && (e.Begin? ==> e.load.Valid())
    ensures Consistent(Step(s, e))
  {
    if e.Proceed? && s.phase.Reading? && s.phase.n == |s.phase.load.rows| { CollectedAll(s.phase.load); }
  }

  /** Over any sequence of loads that fail or succeed, at every moment: the cache holds exactly the
      documents of the last load that got as far as the swap, never a part of them. */
  lemma {:induction false} RunKeeps(ids: Ids, events: seq<Event>)
    requires ValidEvents(events)
    ensures Consistent(Run(ids, events))
  {
    if events == [] {
    } else {
      RunKeeps(ids, events[..|events| - 1]);
      StepKeeps(Run(ids, events[..|events| - 1]), events[|events| - 1]);
    }
  }

  /** The texts that the result workers find in the cache. */
  function Rendered(cache: Docs, render: Doc -> string): Cache {
    map d | d in cache :: render(cache[d])
  }

  /** The version that a pair of configurations names for a device: the run mode's if it has one. */
  function VersionNamed(db: Configs, ids: Ids, device: string): Option<int> {
    if ids.base !in db.base || ids.runmode !in db.runmode then None
    else if device in db.runmode[ids.runmode] then Some(db.runmode[ids.runmode][device])
    else if device in db.base[ids.base] then Some(db.base[ids.base][device])
    else None
  }

  /** A client is told the data of the version that the load names, with the ids of that load; and of
      a failure exactly if there is no such version. */
  predicate Told(load: Load, device: string, render: Doc -> string, lib: Library, reply: ZmqQuery) {
    var version := VersionNamed(load.db, load.ids, device);
    && |reply.parts| > 3
    && (reply.Succeeded() <==> version.Some? && (device, version.value) in load.db.devices)
    && (reply.Succeeded() ==>
          var data := load.db.devices[(device, version.value)];
          reply.parts[3..] == [Bytes(lib.zip(render(Doc(version.value, data, load.ids))))])
  }

  /** A read from the cache, at any moment of any run. */
  lemma LookupSound(ids: Ids, events: seq<Event>, q: ZmqQuery, render: Doc -> string, lib: Library)
    requires ValidEvents(events) && q.Received() && ReadAcknowledgement.FromCache(q)
    ensures var s := Run(ids, events);
      var reply := ReadReply(q, Rendered(s.cache, render), lib);
      if s.last.Some? then Told(s.last.value, ReadAcknowledgement.Says(q), render, lib, reply) else !reply.Succeeded()
  {
    RunKeeps(ids, events);
    ReadAcknowledgement.SaysText(q);
  }

  // ---- one load on its own ----

  /** A load that fails before the swap leaves everything as it was, and another one can begin. */
  lemma FailureAside(s: State, load: Load, n: nat)
    requires s.phase.Idle? && n <= |load.rows|
    ensures Step(Proceeds(Step(s, Begin(load)), n), Fail) == s
  {
    Reads(Step(s, Begin(load)), load, n);
  }

  /** Loads come one after the other: a request while one is under way begins nothing here. */
  lemma OneAtATime(s: State, load: Load)
    requires !s.phase.Idle?
    ensures Step(s, Begin(load)) == s
  {
  }

  function Proceeds(s: State, n: nat): State {
    if n == 0 then s else Step(Proceeds(s, n - 1), Proceed)
  }

  lemma {:induction false} Reads(s: State, load: Load, n: nat)
    requires s.phase == Reading(load, 0, map[]) && n <= |load.rows|
    ensures Proceeds(s, n) == s.(phase := Reading(load, n, Collected(load.rows, n)))
  {
    if n == 0 {
    } else {
      Reads(s, load, n - 1);
    }
  }

  /** An undisturbed load ends with the wanted documents in the cache and with its ids stored. */
  lemma LoadCompletes(s: State, load: Load)
    requires s.phase.Idle? && load.Valid()
    ensures Proceeds(Step(s, Begin(load)), |load.rows| + 3) ==
            s.(cache := load.Docs(), ids := load.ids, last := Some(load))
  {
    hide Wanted;
    var begun, n := Step(s, Begin(load)), |load.rows|;
    Reads(begun, load, n);
    CollectedAll(load);
    assert Proceeds(begun, n + 1) == Step(Proceeds(begun, n), Proceed);
    assert Proceeds(begun, n + 2) == Step(Proceeds(begun, n + 1), Proceed);
  }

  class ConfigStore {
    var cache: Docs
    var ids: Ids

    /** Loads for the ids in the payload, if it has both. The query fails after so many rows, if it
        fails; zero stands for a connection that cannot be made. Returns the ids now stored, or None
        for an error text. */
    method CacheConfigs(payload: Option<Ids>, db: Configs, rows: seq<(string, Doc)>, fails: Option<nat>)
      returns (reply: Option<Ids>)
      requires payload.Some? ==> Load(payload.value, db, rows).Valid()
      modifies this
      ensures reply.Some? <==> payload.Some? && (fails.Some? ==> |rows| < fails.value)
      ensures reply.None? ==> cache == old(cache) && ids == old(ids)
      ensures reply.Some? ==> reply == payload && cache == Wanted(db, payload.value) && ids == payload.value
    {
      hide Wanted;
      if payload.None? { return None; }
      var tmp: Docs := map[];
      var n := 0;
      while n < |rows|
        invariant 0 <= n <= |rows| && tmp == Collected(rows, n)
        invariant cache == old(cache) && ids == old(ids)
        invariant fails.Some? ==> n <= fails.value
      {
        if fails == Some(n) { return None; }
        tmp := tmp[rows[n].0 := rows[n].1];
        n := n + 1;
      }
      if fails == Some(n) { return None; }
      CollectedAll(Load(payload.value, db, rows));
      cache := tmp;
      ids := payload.value;
      return payload;
    }
  }
}
