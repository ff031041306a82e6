/** What the sections of a literal pass do to the open transaction and, when that is closed already, to
    the log, for jobs of any size. */
module LiteralFrames {
  import opened Options
  import opened Workload
  import opened Database
  import opened LiteralLoop

  // ---- visits as multisets of statements ----

  function Occurs(vs: seq<Visit>, u: Unit): nat {
    if vs == [] then 0
    else Occurs(vs[..|vs| - 1], u) + if vs[|vs| - 1].Statement? && vs[|vs| - 1].u == u then 1 else 0
  }

  lemma {:induction false} OccursConcat(a: seq<Visit>, b: seq<Visit>, u: Unit)
    ensures Occurs(a + b, u) == Occurs(a, u) + Occurs(b, u)
  {
    if b == [] {
      assert a + b == a;
    } else {
      assert (a + b)[..|a + b| - 1] == a + b[..|b| - 1];
      OccursConcat(a, b[..|b| - 1], u);
    }
  }

  lemma {:induction false} WalkConcat(s: State, o: Oracle, p: nat, a: seq<Visit>, b: seq<Visit>)
    ensures Walk(s, o, p, a + b) == Walk(Walk(s, o, p, a), o, p, b)
  {
    if b == [] {
      assert a + b == a;
    } else {
      assert (a + b)[..|a + b| - 1] == a + b[..|b| - 1];
      WalkConcat(s, o, p, a, b[..|b| - 1]);
    }
  }

  lemma {:induction false} MulticastOccurs(job: Job, step: Step, n: nat, u: Unit)
    requires n <= job.QueueSize(step)
    ensures Occurs(MulticastVisits(job, step, n), u) == if u.Multicast? && u.step == step && u.i < n then 1 else 0
  {
    if n == 0 {
    } else {
      var vs := MulticastVisits(job, step, n);
      assert vs[..n - 1] == MulticastVisits(job, step, n - 1);
      MulticastOccurs(job, step, n - 1, u);
    }
  }

  lemma {:induction false} GenericOccurs(job: Job, i: nat, lo: nat, hi: nat, u: Unit)
    requires i < |job.batches| && hi <= job.batches[i].generics
    ensures Occurs(GenericVisits(job, i, lo, hi), u) == if u.Generic? && u.i == i && lo <= u.j < hi then 1 else 0
    decreases hi
  {
    if hi <= lo {
    } else {
      GenericOccurs(job, i, lo, hi - 1, u);
      OccursConcat(GenericVisits(job, i, lo, hi - 1), [GenericVisit(job, i, hi - 1)], u);
    }
  }

  lemma {:induction false} TableOccurs(i: nat, tables: set<Table>, order: seq<Table>, u: Unit)
    requires Distinct(order)
    ensures Occurs(TableVisits(i, tables, order), u) ==
            if u.Insert? && u.i == i && u.table in tables && u.table in order then 1 else 0
  {
    if order == [] {
    } else {
      var init, t := order[..|order| - 1], order[|order| - 1];
      assert order == init + [t] && t !in init;
      TableOccurs(i, tables, init, u);
      var last := if t in tables then [Statement(Insert(i, t), i + 1, None)] else [];
      OccursConcat(TableVisits(i, tables, init), last, u);
      assert t in tables ==> last[..0] == [];
    }
  }

  lemma AllTablesOccur(i: nat, tables: set<Table>, u: Unit)
    ensures Occurs(TableVisits(i, tables, TABLES), u) == if u.Insert? && u.i == i && u.table in tables then 1 else 0
  {
    hide TableVisits, Occurs;
    TableOccurs(i, tables, TABLES, u);
    if u.Insert? { TablesComplete(u.table); }
  }

  lemma NoWrites(job: Job, u: Unit)
    ensures Occurs(WriteVisits(job, 0), u) == 0
  {
  }

  lemma NextWrites(job: Job, n: nat, u: Unit)
    requires 0 < n <= |job.batches|
    ensures Occurs(WriteVisits(job, n), u) ==
            Occurs(WriteVisits(job, n - 1), u) + Occurs(TableVisits(n - 1, job.batches[n - 1].tables, TABLES), u)
  {
    hide TableVisits, Occurs;
    OccursConcat(WriteVisits(job, n - 1), TableVisits(n - 1, job.batches[n - 1].tables, TABLES), u);
  }

  lemma {:induction false} WriteOccurs(job: Job, n: nat, u: Unit)
    requires n <= |job.batches|
    ensures Occurs(WriteVisits(job, n), u) ==
            if u.Insert? && u.i < n && u.table in job.batches[u.i].tables then 1 else 0
  {
    hide WriteVisits, TableVisits, Occurs;
    if n == 0 {
      NoWrites(job, u);
    } else {
      WriteOccurs(job, n - 1, u);
      NextWrites(job, n, u);
      AllTablesOccur(n - 1, job.batches[n - 1].tables, u);
    }
  }

  lemma {:induction false} WriteInBounds(job: Job, n: nat)
    requires n <= |job.batches|
    ensures forall v :: v in WriteVisits(job, n) ==> v.Statement? && Section(v.u) == Writes && IsUnit(job, v.u)
  {
    if n == 0 {
    } else {
      WriteInBounds(job, n - 1);
      TableVisitsIn(job, n - 1, TABLES);
    }
  }

  // ---- what no failure can break ----

  /** No visit breaks inv, whatever the transaction in hand. */
  ghost predicate Steady(inv: Tx -> bool, o: Oracle, p: nat) {
    forall s: State, v :: inv(s.tx) ==> inv(VisitOne(s, o, p, v).tx)
  }

  lemma {:induction false} WalkSteady(s: State, o: Oracle, p: nat, vs: seq<Visit>, inv: Tx -> bool)
    requires Steady(inv, o, p) && inv(s.tx)
    ensures inv(Walk(s, o, p, vs).tx)
  {
    if vs == [] {
    } else {
      WalkSteady(s, o, p, vs[..|vs| - 1], inv);
    }
  }

  lemma {:induction false} BatchesSteady(job: Job, s: State, o: Oracle, p: nat, n: nat, inv: Tx -> bool)
    requires Steady(inv, o, p) && inv(s.tx)
    ensures inv(GenericBatches(job, s, o, p, n).tx)
  {
    hide VisitOne;
    if n == 0 {
    } else {
      BatchesSteady(job, s, o, p, n - 1, inv);
      var s1 := GenericBatches(job, s, o, p, n - 1);
      if n - 1 < |job.batches| {
        WalkSteady(s1, o, p, GenericVisits(job, n - 1, s1.cj, LastJ(s1, job.batches[n - 1].generics)), inv);
      }
    }
  }

  lemma SectionSteady(job: Job, s: State, o: Oracle, p: nat, step: Step, inv: Tx -> bool)
    requires step != Finish && Steady(inv, o, p) && inv(s.tx)
    ensures inv(RunSection(job, s, o, p, step).tx)
  {
    hide VisitOne, GenericBatches;
    var n := Last(s, step, job.QueueSize(step));
    match step
    case Generics => BatchesSteady(job, s, o, p, n, inv);
    case Writes => WalkSteady(s, o, p, WriteVisits(job, n), inv);
    case _ => WalkSteady(s, o, p, MulticastVisits(job, step, n), inv);
  }

  /** What no visit breaks holds to the end of a pass, ... */
  lemma {:induction false} PassSteady(job: Job, s: State, o: Oracle, p: nat, step: Step, inv: Tx -> bool)
    requires step != Finish && Steady(inv, o, p) && inv(s.tx)
    ensures inv(PassFrom(job, s, o, p, step).tx)
    decreases 6 - Rank(step)
  {
    hide RunSection, VisitOne;
    SectionSteady(job, s, o, p, step, inv);
    var s1 := RunSection(job, s, o, p, step);
    if step != Writes {
      if s1.tx.hadError { PassSteady(job, s1, o, p, Next(step), inv); }
      else if s1.endpoint != Next(step) { PassSteady(job, s1.(checkpoint := Next(step)), o, p, Next(step), inv); }
    }
  }

  ghost predicate Lasting(inv: Tx -> bool, o: Oracle) {
    && (forall p :: Steady(inv, o, p))
    && (forall s: State, p :: inv(s.tx) ==> inv(Commit(s, o, p).tx))
    && (forall s: State :: inv(s.tx) ==> inv(Again(s).tx))
  }

  /** ... and what no commit breaks either holds to the end of the run. */
  lemma {:induction false} RunSteady(job: Job, s: State, o: Oracle, p: nat, n: nat, inv: Tx -> bool)
    requires Lasting(inv, o) && inv(s.tx)
    ensures inv(After(job, s, o, p, n).tx)
    decreases n
  {
    hide Pass, PassFrom, Commit, Steady, Again;
    if n == 0 {
    } else {
      PassSteady(job, s, o, p, Generics, inv);
      PassCommits(job, s, o, p, PassFrom(job, s, o, p, Generics));
      var s' := Pass(job, s, o, p);
      assert inv(s'.tx);
      if s'.tx.hadError { RunSteady(job, Again(s'), o, p + 1, n - 1, inv); }
    }
  }

  /** What was logged or is open was executed without a failure, and what is flagged failed. */
  ghost predicate Caused(tx: Tx, o: Oracle) {
    && (forall u :: u in tx.flagged ==> CanFail(o, u))
    && (forall e :: e in tx.committed || e in tx.open ==> o.ok(e.pass, e.u))
  }

  lemma CausedRun(job: Job, s: State, o: Oracle, p: nat, n: nat)
    requires Caused(s.tx, o)
    ensures Caused(After(job, s, o, p, n).tx, o)
  {
    RunSteady(job, s, o, p, n, (tx: Tx) => Caused(tx, o));
  }

  // ---- stretches in which nothing fails ----

  ghost predicate Quiet(s: State, o: Oracle, p: nat, vs: seq<Visit>) {
    forall v :: v in vs ==> v.Statement? && (v.u in s.tx.flagged || o.ok(p, v.u))
  }

  /** How often u is in the open transaction or in the log. */
  function Total(s: State, u: Unit): nat {
    Times(s.tx.committed, u) + Times(s.tx.open, u)
  }

  /** The transaction of a, with what successful statements have left in b. */
  function Grow(a: Tx, b: Tx): Tx {
    a.(committed := b.committed, open := b.open, nums := b.nums, ran := b.ran)
  }

  /** A usable transaction takes everything, a closed one nothing. */
  predicate Fed(a: State, b: State) {
    if a.handle == Usable then b.tx.committed == a.tx.committed else b.tx.open == a.tx.open
  }

  /** b is a after some statements succeeded. */
  predicate Grown(a: State, b: State) {
    b == a.(tx := Grow(a.tx, b.tx)) && Fed(a, b)
  }

  lemma SentOnce(s: State, o: Oracle, p: nat, v: Unit, u: Unit) returns (s': State)
    ensures s' == Sent(s, o, p, v) && Grown(s, s')
    ensures Total(s', u) == Total(s, u) + if u == v then 1 else 0
  {
    s' := Sent(s, o, p, v);
    if s.handle == Usable {
      TimesSnoc(s.tx.open, Entry(v, p), u);
    } else {
      TimesSnoc(s.tx.committed, Entry(v, p), u);
    }
  }

  lemma {:induction false} QuietWalk(s: State, o: Oracle, p: nat, vs: seq<Visit>, u: Unit)
    requires Quiet(s, o, p, vs)
    ensures var s' := Walk(s, o, p, vs);
      && Grown(s, s')
      && Total(s', u) == Total(s, u) + if u in s.tx.flagged then 0 else Occurs(vs, u)
  {
    if vs == [] {
    } else {
      var init := vs[..|vs| - 1];
      QuietWalk(s, o, p, init, u);
      var s1, v := Walk(s, o, p, init), vs[|vs| - 1];
      if v.u !in s.tx.flagged { var s2 := SentOnce(s1, o, p, v.u, u); }
    }
  }

  /** A statement that a full run of a section visits: generic queries below the checkpoint
      index are passed over. */
  predicate Visited(job: Job, cj: nat, step: Step, u: Unit) {
    IsUnit(job, u) && Section(u) == step && (u.Generic? ==> cj <= u.j)
  }

  ghost predicate QuietStep(job: Job, s: State, o: Oracle, p: nat, step: Step) {
    forall u :: IsUnit(job, u) && Section(u) == step ==> u in s.tx.flagged || o.ok(p, u)
  }

  lemma QuietBatch(job: Job, s: State, o: Oracle, p: nat, i: nat, u: Unit) returns (s': State)
    requires i < |job.batches| && QuietStep(job, s, o, p, Generics)
    ensures s' == Walk(s, o, p, GenericVisits(job, i, s.cj, job.batches[i].generics)) && Grown(s, s')
    ensures Total(s', u) == Total(s, u) +
              if Visited(job, s.cj, Generics, u) && u.i == i && u !in s.tx.flagged then 1 else 0
  {
    var g := job.batches[i].generics;
    GenericVisitsIn(job, i, s.cj, g);
    GenericVisitsInBounds(job, i, s.cj, g);
    GenericOccurs(job, i, s.cj, g, u);
    QuietWalk(s, o, p, GenericVisits(job, i, s.cj, g), u);
    s' := Walk(s, o, p, GenericVisits(job, i, s.cj, g));
  }

  lemma NextBatch(job: Job, s: State, s1: State, o: Oracle, p: nat, n: nat)
    requires 0 < n <= |job.batches| && s.endpoint != Generics && QuietStep(job, s, o, p, Generics)
    requires s1 == GenericBatches(job, s, o, p, n - 1) && Grown(s, s1)
    ensures QuietStep(job, s1, o, p, Generics)
    ensures GenericBatches(job, s, o, p, n) ==
            Walk(s1, o, p, GenericVisits(job, n - 1, s1.cj, job.batches[n - 1].generics))
  {
  }

  /** What n batches in which nothing fails add for u. */
  predicate BatchGain(job: Job, s: State, s1: State, n: nat, u: Unit) {
    Total(s1, u) == Total(s, u) +
      if Visited(job, s.cj, Generics, u) && u.i < n && u !in s.tx.flagged then 1 else 0
  }

  lemma QuietNext(job: Job, s: State, s1: State, o: Oracle, p: nat, n: nat, u: Unit) returns (s': State)
    requires 0 < n <= |job.batches| && s.endpoint != Generics && QuietStep(job, s, o, p, Generics)
    requires s1 == GenericBatches(job, s, o, p, n - 1) && Grown(s, s1) && BatchGain(job, s, s1, n - 1, u)
    ensures s' == GenericBatches(job, s, o, p, n) && Grown(s, s') && BatchGain(job, s, s', n, u)
  {
    hide Walk, GenericVisits;
    NextBatch(job, s, s1, o, p, n);
    s' := QuietBatch(job, s1, o, p, n - 1, u);
  }

  lemma {:induction false} QuietBatches(job: Job, s: State, o: Oracle, p: nat, n: nat, u: Unit) returns (s': State)
    requires n <= |job.batches| && s.endpoint != Generics && QuietStep(job, s, o, p, Generics)
    ensures s' == GenericBatches(job, s, o, p, n) && Grown(s, s') && BatchGain(job, s, s', n, u)
  {
    hide Total, Visited, QuietStep, UnitSet;
    if n == 0 {
      s' := s;
    } else {
      s' := QuietBatches(job, s, o, p, n - 1, u);
      s' := QuietNext(job, s, s', o, p, n, u);
    }
  }

  lemma {:induction false} GenericVisitsInBounds(job: Job, i: nat, lo: nat, hi: nat)
    requires i < |job.batches| && hi <= job.batches[i].generics
    ensures OutOfBounds !in GenericVisits(job, i, lo, hi)
    decreases hi
  {
    if hi <= lo {
    } else {
      GenericVisitsInBounds(job, i, lo, hi - 1);
    }
  }

  lemma QuietWrites(job: Job, s: State, o: Oracle, p: nat, u: Unit)
    requires QuietStep(job, s, o, p, Writes)
    ensures var s' := Walk(s, o, p, WriteVisits(job, |job.batches|));
      && Grown(s, s')
      && Total(s', u) == Total(s, u) +
           if Visited(job, s.cj, Writes, u) && u !in s.tx.flagged then 1 else 0
  {
    hide Walk, WriteVisits;
    var n := |job.batches|;
    WriteInBounds(job, n);
    WriteOccurs(job, n, u);
    QuietWalk(s, o, p, WriteVisits(job, n), u);
  }

  lemma QuietMulticast(job: Job, s: State, o: Oracle, p: nat, step: Step, u: Unit)
    requires IsMulticast(step) && QuietStep(job, s, o, p, step)
    ensures var s' := Walk(s, o, p, MulticastVisits(job, step, job.QueueSize(step)));
      && Grown(s, s')
      && Total(s', u) == Total(s, u) +
           if Visited(job, s.cj, step, u) && u !in s.tx.flagged then 1 else 0
  {
    var n := job.QueueSize(step);
    MulticastOccurs(job, step, n, u);
    QuietWalk(s, o, p, MulticastVisits(job, step, n), u);
  }

  lemma FullSection(job: Job, s: State, o: Oracle, p: nat, step: Step)
    requires job.Fits() && step != Finish && s.endpoint != step
    ensures RunSection(job, s, o, p, step) ==
      if step == Generics then GenericBatches(job, s, o, p, |job.batches|)
      else if step == Writes then Walk(s, o, p, WriteVisits(job, |job.batches|))
      else Walk(s, o, p, MulticastVisits(job, step, job.QueueSize(step)))
  {
    assert Last(s, step, job.QueueSize(step)) == job.QueueSize(step);
  }

  /** A section in which nothing fails adds each of its visited statements once. */
  lemma QuietSection(job: Job, s: State, o: Oracle, p: nat, step: Step, u: Unit)
    requires job.Fits() && step != Finish && s.endpoint != step && QuietStep(job, s, o, p, step)
    ensures var s' := RunSection(job, s, o, p, step);
      && Grown(s, s')
      && Total(s', u) == Total(s, u) +
           if Visited(job, s.cj, step, u) && u !in s.tx.flagged then 1 else 0
  {
    FullSection(job, s, o, p, step);
    if step == Generics {
      var s' := QuietBatches(job, s, o, p, |job.batches|, u);
    } else if step == Writes {
      QuietWrites(job, s, o, p, u);
    } else {
      QuietMulticast(job, s, o, p, step, u);
    }
  }

  // ---- the section of the endpoint ----

  /** What a section sends whose end the endpoint's indices set. */
  predicate UpToEndpoint(job: Job, s: State, u: Unit) {
    IsUnit(job, u) && Section(u) == s.endpoint && u.i < s.ei && (u.Generic? ==> s.cj <= u.j < s.ej)
  }

  /** The indices lie within the queues. */
  predicate EndpointInside(job: Job, s: State) {
    && s.endpoint != Finish && s.ei <= job.QueueSize(s.endpoint)
    && (s.endpoint == Generics ==> forall i :: 0 <= i < s.ei ==> s.ej <= job.batches[i].generics)
  }

  lemma {:induction false} EndpointBatches(job: Job, s: State, o: Oracle, p: nat, n: nat, u: Unit)
    requires s.endpoint == Generics && EndpointInside(job, s) && n <= s.ei && QuietStep(job, s, o, p, Generics)
    ensures var s' := GenericBatches(job, s, o, p, n);
      && Grown(s, s')
      && Total(s', u) == Total(s, u) +
           if UpToEndpoint(job, s, u) && u.i < n && u !in s.tx.flagged then 1 else 0
  {
    hide Walk, GenericVisits, Total;
    if n == 0 {
    } else {
      EndpointBatches(job, s, o, p, n - 1, u);
      EndpointBatch(job, GenericBatches(job, s, o, p, n - 1), o, p, n - 1, u);
    }
  }

  lemma EndpointBatch(job: Job, s: State, o: Oracle, p: nat, i: nat, u: Unit)
    requires i < |job.batches| && s.ej <= job.batches[i].generics && QuietStep(job, s, o, p, Generics)
    ensures var s' := Walk(s, o, p, GenericVisits(job, i, s.cj, s.ej));
      && Grown(s, s')
      && Total(s', u) == Total(s, u) +
           if u.Generic? && u.i == i && s.cj <= u.j < s.ej && u !in s.tx.flagged then 1 else 0
  {
    GenericVisitsIn(job, i, s.cj, s.ej);
    GenericVisitsInBounds(job, i, s.cj, s.ej);
    GenericOccurs(job, i, s.cj, s.ej, u);
    QuietWalk(s, o, p, GenericVisits(job, i, s.cj, s.ej), u);
  }

  /** In the section of the endpoint, if a pass gets there and nothing fails, exactly the statements before
      the endpoint's indices are sent. */
  lemma EndpointSection(job: Job, s: State, o: Oracle, p: nat, u: Unit)
    requires job.Fits() && EndpointInside(job, s) && QuietStep(job, s, o, p, s.endpoint)
    ensures var s' := RunSection(job, s, o, p, s.endpoint);
      && Grown(s, s')
      && Total(s', u) == Total(s, u) + if UpToEndpoint(job, s, u) && u !in s.tx.flagged then 1 else 0
  {
    hide Walk, WriteVisits, GenericBatches, Total;
    assert Last(s, s.endpoint, job.QueueSize(s.endpoint)) == s.ei;
    if s.endpoint == Generics {
      EndpointBatches(job, s, o, p, s.ei, u);
    } else if s.endpoint == Writes {
      WriteInBounds(job, s.ei);
      WriteOccurs(job, s.ei, u);
      QuietWalk(s, o, p, WriteVisits(job, s.ei), u);
    } else {
      MulticastOccurs(job, s.endpoint, s.ei, u);
      QuietWalk(s, o, p, MulticastVisits(job, s.endpoint, s.ei), u);
    }
  }

  // ---- what a failure records ----

  /** The indices that the failure of a statement leaves behind: of a generic query or an insert one more
      than its batch's, of a buffer its own. */
  predicate Recorded(s: State, x: Unit) {
    match x
    case Generic(i, j) => s.ci == i + 1 && s.cj == j
    case Multicast(_, i) => s.ci == i
    case Insert(i, _) => s.ci == i + 1
  }

  /** Either nothing has failed and the indices stand, or they are those of a statement that has failed. */
  ghost predicate Noted(a: State, b: State) {
    && a.tx.flagged <= b.tx.flagged
    && if a.tx.flagged == b.tx.flagged then b.ci == a.ci && b.cj == a.cj
       else exists x :: x in b.tx.flagged && x !in a.tx.flagged && Recorded(b, x)
  }

  /** The visit carries the indices of its statement. */
  predicate Indexed(v: Visit) {
    v.Statement? ==>
      match v.u
      case Generic(i, j) => v.ci == i + 1 && v.cj == Some(j)
      case Multicast(_, i) => v.ci == i && v.cj == None
      case Insert(i, _) => v.ci == i + 1 && v.cj == None
  }

  lemma {:induction false} WalkNotes(s: State, o: Oracle, p: nat, vs: seq<Visit>)
    requires forall v :: v in vs ==> Indexed(v)
    ensures Noted(s, Walk(s, o, p, vs))
  {
    if vs == [] {
    } else {
      WalkNotes(s, o, p, vs[..|vs| - 1]);
      var s1, v := Walk(s, o, p, vs[..|vs| - 1]), vs[|vs| - 1];
      assert v in vs;
      if v.Statement? && v.u !in s1.tx.flagged && !o.ok(p, v.u) { assert Recorded(Walk(s, o, p, vs), v.u); }
    }
  }

  lemma {:induction false} GenericsIndexed(job: Job, i: nat, lo: nat, hi: nat)
    requires i < |job.batches|
    ensures forall v :: v in GenericVisits(job, i, lo, hi) ==> Indexed(v)
    decreases hi
  {
    if hi <= lo {
    } else {
      GenericsIndexed(job, i, lo, hi - 1);
    }
  }

  lemma {:induction false} TablesIndexed(i: nat, tables: set<Table>, order: seq<Table>)
    ensures forall v :: v in TableVisits(i, tables, order) ==> Indexed(v)
  {
    if order == [] {
    } else {
      TablesIndexed(i, tables, order[..|order| - 1]);
    }
  }

  lemma {:induction false} WritesIndexed(job: Job, n: nat)
    ensures forall v :: v in WriteVisits(job, n) ==> Indexed(v)
  {
    hide TableVisits;
    if n == 0 {
    } else {
      WritesIndexed(job, n - 1);
      if n - 1 < |job.batches| { TablesIndexed(n - 1, job.batches[n - 1].tables, TABLES); }
    }
  }

  lemma {:induction false} BatchesNote(job: Job, s: State, o: Oracle, p: nat, n: nat)
    ensures Noted(s, GenericBatches(job, s, o, p, n))
  {
    hide Walk, GenericVisits, Recorded;
    if n == 0 {
    } else {
      BatchesNote(job, s, o, p, n - 1);
      var s1 := GenericBatches(job, s, o, p, n - 1);
      if n - 1 < |job.batches| {
        var vs := GenericVisits(job, n - 1, s1.cj, LastJ(s1, job.batches[n - 1].generics));
        GenericsIndexed(job, n - 1, s1.cj, LastJ(s1, job.batches[n - 1].generics));
        WalkNotes(s1, o, p, vs);
        NotedThen(s, s1, Walk(s1, o, p, vs));
      } else {
        NotedThen(s, s1, s1.(fault := true));
      }
    }
  }

  lemma NotedThen(a: State, b: State, c: State)
    requires Noted(a, b) && Noted(b, c)
    ensures Noted(a, c)
  {
    if c.tx.flagged == b.tx.flagged && b.tx.flagged != a.tx.flagged {
      var x :| x in b.tx.flagged && x !in a.tx.flagged && Recorded(b, x);
      assert Recorded(c, x);
    }
  }

  lemma SectionNotes(job: Job, s: State, o: Oracle, p: nat, step: Step)
    requires step != Finish
    ensures Noted(s, RunSection(job, s, o, p, step))
  {
    hide Noted, Walk, WriteVisits, GenericBatches;
    var n := Last(s, step, job.QueueSize(step));
    match step
    case Generics => BatchesNote(job, s, o, p, n);
    case Writes =>
      WritesIndexed(job, n);
      WalkNotes(s, o, p, WriteVisits(job, n));
    case _ => WalkNotes(s, o, p, MulticastVisits(job, step, n));
  }

  /** After a pass the checkpoint's indices are those of a statement that has failed in it, or as before. */
  lemma {:induction false} PassNotes(job: Job, s: State, o: Oracle, p: nat, a: Step)
    requires a != Finish
    ensures Noted(s, PassFrom(job, s, o, p, a))
    decreases 6 - Rank(a)
  {
    hide RunSection, Noted;
    SectionNotes(job, s, o, p, a);
    var s1 := RunSection(job, s, o, p, a);
    if a != Writes && (s1.tx.hadError || s1.endpoint != Next(a)) {
      var s2 := if s1.tx.hadError then s1 else s1.(checkpoint := Next(a));
      PassNotes(job, s2, o, p, Next(a));
      MovedNoted(s1, s2);
      NotedThen(s, s1, s2);
      NotedThen(s, s2, PassFrom(job, s2, o, p, Next(a)));
    }
  }

  lemma MovedNoted(s: State, s': State)
    requires s' == s.(checkpoint := s'.checkpoint)
    ensures Noted(s, s')
  {
  }

  predicate Between(a: Step, u: Unit, b: Step) {
    Rank(a) <= Rank(Section(u)) < Rank(b)
  }

  ghost predicate QuietRange(job: Job, s: State, o: Oracle, p: nat, a: Step, b: Step) {
    forall u :: IsUnit(job, u) && Between(a, u, b) ==> u in s.tx.flagged || o.ok(p, u)
  }

  /** The gain in a section range: the visited, unflagged statements from a up to, not
      including, b, once each. */
  predicate Gained(job: Job, s: State, s': State, a: Step, b: Step, u: Unit) {
    Total(s', u) == Total(s, u) +
      if IsUnit(job, u) && Between(a, u, b) && (u.Generic? ==> s.cj <= u.j) && u !in s.tx.flagged then 1 else 0
  }

  predicate GrownTo(a: State, b: State) {
    b == a.(tx := Grow(a.tx, b.tx), checkpoint := b.checkpoint) && Fed(a, b)
  }

  /** The state in which a pass without a stop enters the section after a. */
  function Enter(job: Job, s: State, o: Oracle, p: nat, a: Step): State
    requires Rank(a) < 5
  {
    var s1 := RunSection(job, s, o, p, a);
    if s1.tx.hadError then s1 else s1.(checkpoint := Next(a))
  }

  /** The state in which an undisturbed pass arrives at section b. */
  function Reach(job: Job, s: State, o: Oracle, p: nat, a: Step, b: Step): State
    requires Rank(a) <= Rank(b) <= 5
    decreases 6 - Rank(a), job
  {
    if Rank(a) == Rank(b) then s else Reach(job, Enter(job, s, o, p, a), o, p, Next(a), b)
  }

  lemma SameRank(a: Step, b: Step)
    requires Rank(a) == Rank(b)
    ensures a == b
  {
  }

  lemma PassOne(job: Job, s: State, o: Oracle, p: nat, a: Step, u: Unit) returns (s': State)
    requires job.Fits() && Rank(a) < 5 && QuietStep(job, s, o, p, a)
    requires s.endpoint != a && (s.endpoint == Next(a) ==> s.tx.hadError)
    ensures s' == Enter(job, s, o, p, a) && GrownTo(s, s')
    ensures PassFrom(job, s, o, p, a) == PassFrom(job, s', o, p, Next(a))
    ensures Total(s', u) == Total(s, u) + if Visited(job, s.cj, a, u) && u !in s.tx.flagged then 1 else 0
    ensures s'.checkpoint == if s.tx.hadError then s.checkpoint else Next(a)
  {
    QuietSection(job, s, o, p, a, u);
    s' := Enter(job, s, o, p, a);
  }

  lemma Wider(a: Step, b: Step, u: Unit)
    requires Rank(a) < Rank(b)
    ensures Between(a, u, b) <==> Section(u) == a || Between(Next(a), u, b)
    ensures Section(u) == a ==> !Between(Next(a), u, b)
  {
    if Rank(Section(u)) == Rank(a) { SameRank(Section(u), a); }
  }

  /** No test stops a pass between sections a and b. */
  predicate Clear(s: State, a: Step, b: Step) {
    && (Rank(s.endpoint) < Rank(a) || Rank(s.endpoint) >= Rank(b))
    && (s.endpoint == b && a != b ==> s.tx.hadError)
  }

  lemma {:induction false} PassReaches(job: Job, s: State, o: Oracle, p: nat, a: Step, b: Step)
    requires job.Fits() && Rank(a) <= Rank(b) <= 5 && QuietRange(job, s, o, p, a, b) && Clear(s, a, b)
    ensures var s' := Reach(job, s, o, p, a, b);
      && PassFrom(job, s, o, p, a) == PassFrom(job, s', o, p, b)
      && GrownTo(s, s')
      && s'.checkpoint == if s.tx.hadError || a == b then s.checkpoint else b
    decreases 6 - Rank(a)
  {
    hide Total, Visited, QuietStep, PassFrom, RunSection, UnitSet;
    if Rank(a) < Rank(b) {
      if Rank(Next(a)) == Rank(b) { SameRank(Next(a), b); }
      var s1 := PassOne(job, s, o, p, a, Generic(0, 0));
      PassReaches(job, s1, o, p, Next(a), b);
    } else {
      SameRank(a, b);
    }
  }

  lemma GainsThen(job: Job, s: State, s1: State, s2: State, a: Step, b: Step, u: Unit)
    requires Rank(a) < Rank(b) && GrownTo(s, s1) && Gained(job, s1, s2, Next(a), b, u)
    requires Total(s1, u) == Total(s, u) + if Visited(job, s.cj, a, u) && u !in s.tx.flagged then 1 else 0
    ensures Gained(job, s, s2, a, b, u)
  {
    Wider(a, b, u);
  }

  lemma {:induction false} PassGains(job: Job, s: State, o: Oracle, p: nat, a: Step, b: Step, u: Unit)
    requires job.Fits() && Rank(a) <= Rank(b) <= 5 && QuietRange(job, s, o, p, a, b) && Clear(s, a, b)
    ensures Gained(job, s, Reach(job, s, o, p, a, b), a, b, u)
    decreases 6 - Rank(a)
  {
    hide PassFrom, RunSection;
    if Rank(a) < Rank(b) {
      if Rank(Next(a)) == Rank(b) { SameRank(Next(a), b); }
      var s1 := PassOne(job, s, o, p, a, u);
      PassGains(job, s1, o, p, Next(a), b, u);
      GainsThen(job, s, s1, Reach(job, s, o, p, a, b), a, b, u);
    }
  }

  /** Without failures and without a test that stops the pass, it reaches section b; the
      checkpoint follows unless an earlier error froze it. */
  lemma PassTo(job: Job, s: State, o: Oracle, p: nat, a: Step, b: Step, u: Unit)
    requires job.Fits() && Rank(a) <= Rank(b) <= 5 && QuietRange(job, s, o, p, a, b) && Clear(s, a, b)
    ensures var s' := Reach(job, s, o, p, a, b);
      && PassFrom(job, s, o, p, a) == PassFrom(job, s', o, p, b)
      && GrownTo(s, s') && Gained(job, s, s', a, b, u)
      && s'.checkpoint == if s.tx.hadError || a == b then s.checkpoint else b
  {
    hide PassFrom, RunSection;
    PassReaches(job, s, o, p, a, b);
    PassGains(job, s, o, p, a, b, u);
  }

  /** What follows a section without an error. */
  lemma Onward(job: Job, s: State, o: Oracle, p: nat, a: Step, s1: State)
    requires Rank(a) < 5 && s1 == RunSection(job, s, o, p, a) && !s1.tx.hadError
    ensures PassFrom(job, s, o, p, a) ==
            if s1.endpoint == Next(a) then s1 else PassFrom(job, s1.(checkpoint := Next(a)), o, p, Next(a))
  {
  }

  lemma GainsOne(job: Job, s: State, s1: State, a: Step, u: Unit)
    requires Rank(a) < 5
    requires Total(s1, u) == Total(s, u) + if Visited(job, s.cj, a, u) && u !in s.tx.flagged then 1 else 0
    ensures Gained(job, s, s1, a, Next(a), u)
  {
    if Rank(Section(u)) == Rank(a) { SameRank(Section(u), a); }
  }

  /** The test before the endpoint's section ends a pass that has seen no error. */
  lemma {:induction false} PassStops(job: Job, s: State, o: Oracle, p: nat, a: Step, u: Unit)
    requires job.Fits() && !s.tx.hadError && Rank(a) < Rank(s.endpoint) <= 5
    requires QuietRange(job, s, o, p, a, s.endpoint)
    ensures var s' := PassFrom(job, s, o, p, a);
      && GrownTo(s, s') && Gained(job, s, s', a, s.endpoint, u)
      && (s'.checkpoint == s.checkpoint || 1 <= Rank(s'.checkpoint) <= 5)
    decreases 6 - Rank(a)
  {
    hide PassFrom, RunSection, Gained, Visited;
    QuietSection(job, s, o, p, a, u);
    var s1 := RunSection(job, s, o, p, a);
    Onward(job, s, o, p, a, s1);
    if s1.endpoint == Next(a) {
      GainsOne(job, s, s1, a, u);
    } else {
      if Rank(s.endpoint) == Rank(Next(a)) { SameRank(s.endpoint, Next(a)); }
      PassStops(job, s1.(checkpoint := Next(a)), o, p, Next(a), u);
      GainsThen(job, s, s1.(checkpoint := Next(a)), PassFrom(job, s, o, p, a), a, s.endpoint, u);
    }
  }

  lemma LastSection(job: Job, s: State, o: Oracle, p: nat)
    ensures PassFrom(job, s, o, p, Writes) == RunSection(job, s, o, p, Writes)
  {
  }

  lemma GainsAtEnd(job: Job, s: State, s1: State, s2: State, a: Step, u: Unit)
    requires a != Finish && GrownTo(s, s1) && Gained(job, s, s1, a, Writes, u) && Grown(s1, s2)
    requires Total(s2, u) == Total(s1, u) + if Visited(job, s1.cj, Writes, u) && u !in s1.tx.flagged then 1 else 0
    ensures GrownTo(s, s2) && Gained(job, s, s2, a, Finish, u)
  {
    if Rank(Section(u)) == 5 { SameRank(Section(u), Writes); }
  }

  /** Without failures and without a test that stops it, a pass runs to the end. */
  lemma PassEnds(job: Job, s: State, o: Oracle, p: nat, a: Step, u: Unit)
    requires job.Fits() && a != Finish && QuietRange(job, s, o, p, a, Finish)
    requires Rank(s.endpoint) < Rank(a) || s.endpoint == Finish
    ensures var s' := PassFrom(job, s, o, p, a);
      && GrownTo(s, s') && Gained(job, s, s', a, Finish, u)
      && s'.checkpoint == if s.tx.hadError || a == Writes then s.checkpoint else Writes
  {
    hide PassFrom, RunSection, Gained, Total, Visited;
    PassTo(job, s, o, p, a, Writes, u);
    var s1 := Reach(job, s, o, p, a, Writes);
    LastSection(job, s1, o, p);
    QuietSection(job, s1, o, p, Writes, u);
    GainsAtEnd(job, s, s1, RunSection(job, s1, o, p, Writes), a, u);
  }
}
