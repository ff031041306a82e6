/** What one database job has to do: the statements it sends, and the order in which
    the sections of a pass send them. */
module Workload {

  /** The sections of a pass, in the order in which a pass visits them. */
  datatype Step = Generics | Logging | Monitoring | Rootplots | Plotlyplots | Writes | Finish

  function Rank(step: Step): nat {
    match step
    case Generics => 0
    case Logging => 1
    case Monitoring => 2
    case Rootplots => 3
    case Plotlyplots => 4
    case Writes => 5
    case Finish => 6
  }

  function Next(step: Step): (next: Step)
    requires step != Finish
    ensures Rank(next) == Rank(step) + 1
  {
    match step
    case Generics => Logging
    case Logging => Monitoring
    case Monitoring => Rootplots
    case Rootplots => Plotlyplots
    case Plotlyplots => Writes
    case Writes => Finish
  }

  predicate IsMulticast(step: Step) {
    step == Logging || step == Monitoring || step == Rootplots || step == Plotlyplots
  }

  /** The tables a write batch has one array for. */
  datatype Table = Alarm | DevConfig | BaseConfig | RunmodeConfig | Calibration | Rootplot | Plotlyplot

  /** The order in which the tables of one write batch are inserted. */
  const TABLES: seq<Table> := [Alarm, DevConfig, BaseConfig, RunmodeConfig, Calibration, Rootplot, Plotlyplot]

  lemma TablesComplete(t: Table)
    ensures t in TABLES
  {
    match t
    case Alarm => assert TABLES[0] == t;
    case DevConfig => assert TABLES[1] == t;
    case BaseConfig => assert TABLES[2] == t;
    case RunmodeConfig => assert TABLES[3] == t;
    case Calibration => assert TABLES[4] == t;
    case Rootplot => assert TABLES[5] == t;
    case Plotlyplot => assert TABLES[6] == t;
  }

  /** One statement: the smallest thing that can fail and be flagged. */
  datatype Unit =
    | Generic(i: nat, j: nat)          // j-th generic query of write batch i
    | Multicast(step: Step, i: nat)    // i-th buffer of a multicast queue
    | Insert(i: nat, table: Table)     // the array of one table of write batch i

  function Section(u: Unit): Step {
    match u
    case Generic(_, _) => Generics
    case Multicast(step, _) => step
    case Insert(_, _) => Writes
  }

  /** A write batch as the database job sees it: how many generic queries it holds, and
      which table arrays are present. */
  datatype Shape = Shape(generics: nat, tables: set<Table>)

  datatype Job = Job(batches: seq<Shape>, logs: nat, mons: nat, roots: nat, plots: nat) {
    /** The number of entries of the queue that a section iterates over. */
    function QueueSize(step: Step): nat {
      match step
      case Logging => logs
      case Monitoring => mons
      case Rootplots => roots
      case Plotlyplots => plots
      case _ => |batches|
    }

    /** Loop bounds are held in 16 bits; longer queues are outside the theorems. */
    predicate Fits() {
      |batches| < 0x1_0000 && logs < 0x1_0000 && mons < 0x1_0000 && roots < 0x1_0000 && plots < 0x1_0000
    }
  }

  predicate IsUnit(job: Job, u: Unit) {
    match u
    case Generic(i, j) => i < |job.batches| && j < job.batches[i].generics
    case Multicast(step, i) => IsMulticast(step) && i < job.QueueSize(step)
    case Insert(i, t) => i < |job.batches| && t in job.batches[i].tables
  }

  // ---- the units in execution order ----

  function GenericUnits(batches: seq<Shape>, n: nat): seq<Unit>
    requires n <= |batches|
  {
    if n == 0 then []
    else GenericUnits(batches, n - 1) + seq(batches[n - 1].generics, j requires 0 <= j => Generic(n - 1, j))
  }

  function MulticastUnits(step: Step, n: nat): seq<Unit> {
    seq(n, i requires 0 <= i => Multicast(step, i))
  }

  function TableUnits(i: nat, tables: set<Table>, order: seq<Table>): seq<Unit> {
    if order == [] then []
    else
      var t := order[|order| - 1];
      TableUnits(i, tables, order[..|order| - 1]) + if t in tables then [Insert(i, t)] else []
  }

  function InsertUnits(batches: seq<Shape>, n: nat): seq<Unit>
    requires n <= |batches|
  {
    if n == 0 then []
    else InsertUnits(batches, n - 1) + TableUnits(n - 1, batches[n - 1].tables, TABLES)
  }

  function SectionUnits(job: Job, step: Step): seq<Unit> {
    match step
    case Generics => GenericUnits(job.batches, |job.batches|)
    case Writes => InsertUnits(job.batches, |job.batches|)
    case Finish => []
    case _ => MulticastUnits(step, job.QueueSize(step))
  }

  function UnitsFrom(job: Job, step: Step): seq<Unit>
    decreases 6 - Rank(step), job
  {
    if step == Finish then [] else SectionUnits(job, step) + UnitsFrom(job, Next(step))
  }

  /** Every statement of the job, in the order in which an undisturbed pass sends them. */
  function UnitsOf(job: Job): seq<Unit> {
    UnitsFrom(job, Generics)
  }

  function UnitSet(job: Job): set<Unit> {
    set u | u in UnitsOf(job)
  }

  ghost predicate Distinct<T>(s: seq<T>) {
    forall a, b :: 0 <= a < b < |s| ==> s[a] != s[b]
  }

  lemma DistinctConcat<T>(a: seq<T>, b: seq<T>)
    requires Distinct(a) && Distinct(b) && forall x :: x in a ==> x !in b
    ensures Distinct(a + b)
  {
    forall p, q | 0 <= p < q < |a + b| ensures (a + b)[p] != (a + b)[q] {
      if p < |a| <= q { assert (a + b)[p] in a && (a + b)[q] in b; }
    }
  }

  lemma {:induction false} GenericUnitsExact(batches: seq<Shape>, n: nat)
    requires n <= |batches|
    ensures forall u :: u in GenericUnits(batches, n) <==> u.Generic? && u.i < n && u.j < batches[u.i].generics
    ensures Distinct(GenericUnits(batches, n))
  {
    if n == 0 {
    } else {
      GenericUnitsExact(batches, n - 1);
      var last := seq(batches[n - 1].generics, j requires 0 <= j => Generic(n - 1, j));
      forall u ensures u in last <==> u.Generic? && u.i == n - 1 && u.j < batches[n - 1].generics {
        if u.Generic? && u.i == n - 1 && u.j < batches[n - 1].generics { assert last[u.j] == u; }
      }
      DistinctConcat(GenericUnits(batches, n - 1), last);
    }
  }

  lemma {:induction false} TableUnitsExact(i: nat, tables: set<Table>, order: seq<Table>)
    requires Distinct(order)
    ensures forall u :: u in TableUnits(i, tables, order) <==>
              u.Insert? && u.i == i && u.table in tables && u.table in order
    ensures Distinct(TableUnits(i, tables, order))
  {
    if order == [] {
    } else {
      var init, t := order[..|order| - 1], order[|order| - 1];
      TableUnitsExact(i, tables, init);
      assert order == init + [t];
      assert t !in init;
      DistinctConcat(TableUnits(i, tables, init), if t in tables then [Insert(i, t)] else []);
    }
  }

  lemma {:induction false} InsertUnitsExact(batches: seq<Shape>, n: nat)
    requires n <= |batches|
    ensures forall u :: u in InsertUnits(batches, n) <==> u.Insert? && u.i < n && u.table in batches[u.i].tables
    ensures Distinct(InsertUnits(batches, n))
  {
    if n == 0 {
    } else {
      InsertUnitsExact(batches, n - 1);
      var tables := batches[n - 1].tables;
      TableUnitsExact(n - 1, tables, TABLES);
      forall t: Table ensures t in TABLES { TablesComplete(t); }
      DistinctConcat(InsertUnits(batches, n - 1), TableUnits(n - 1, tables, TABLES));
    }
  }

  lemma SectionUnitsExact(job: Job, step: Step)
    ensures forall u :: u in SectionUnits(job, step) <==> IsUnit(job, u) && Section(u) == step
    ensures Distinct(SectionUnits(job, step))
  {
    match step
    case Generics => GenericUnitsExact(job.batches, |job.batches|);
    case Writes => InsertUnitsExact(job.batches, |job.batches|);
    case Finish =>
    case _ =>
      var us := MulticastUnits(step, job.QueueSize(step));
      forall u | IsUnit(job, u) && Section(u) == step ensures u in us {
        assert us[u.i] == u;
      }
  }

  lemma {:induction false} UnitsFromExact(job: Job, step: Step)
    ensures forall u :: u in UnitsFrom(job, step) <==> IsUnit(job, u) && Rank(Section(u)) >= Rank(step)
    ensures Distinct(UnitsFrom(job, step))
    decreases 6 - Rank(step)
  {
    if step != Finish {
      SectionUnitsExact(job, step);
      UnitsFromExact(job, Next(step));
      forall u | IsUnit(job, u) ensures Rank(Section(u)) == Rank(step) ==> Section(u) == step { }
      DistinctConcat(SectionUnits(job, step), UnitsFrom(job, Next(step)));
    }
  }

  /** The flattened order lists every statement of the job exactly once and nothing else. */
  lemma UnitsExact(job: Job)
    ensures forall u :: u in UnitsOf(job) <==> IsUnit(job, u)
    ensures forall u :: u in UnitSet(job) <==> IsUnit(job, u)
    ensures Distinct(UnitsOf(job))
  {
    UnitsFromExact(job, Generics);
  }

  // ---- the order of the statements, spelled out ----

  /** Generic queries, logging, monitoring, root plots, plotly plots, inserts. */
  function SectionNumber(u: Unit): nat {
    match u
    case Generic(_, _) => 0
    case Multicast(step, _) =>
      if step == Logging then 1
      else if step == Monitoring then 2
      else if step == Rootplots then 3
      else if step == Plotlyplots then 4
      else 6
    case Insert(_, _) => 5
  }

  function TableNumber(t: Table): nat {
    if t == Alarm then 0
    else if t == DevConfig then 1
    else if t == BaseConfig then 2
    else if t == RunmodeConfig then 3
    else if t == Calibration then 4
    else if t == Rootplot then 5
    else 6
  }

  /** Section by section; batch by batch or buffer by buffer; query by query or table by table. */
  predicate Precedes(u: Unit, v: Unit) {
    || SectionNumber(u) < SectionNumber(v)
    || (SectionNumber(u) == SectionNumber(v) &&
         (u.i < v.i || (u.i == v.i &&
           ((u.Generic? && v.Generic? && u.j < v.j)
             || (u.Insert? && v.Insert? && TableNumber(u.table) < TableNumber(v.table))))))
  }

  ghost predicate Ordered(us: seq<Unit>) {
    forall a, b :: 0 <= a < b < |us| ==> Precedes(us[a], us[b])
  }

  lemma OrderedConcat(a: seq<Unit>, b: seq<Unit>)
    requires Ordered(a) && Ordered(b) && forall u, v :: u in a && v in b ==> Precedes(u, v)
    ensures Ordered(a + b)
  {
    forall p, q | 0 <= p < q < |a + b| ensures Precedes((a + b)[p], (a + b)[q]) {
      if p < |a| <= q { assert (a + b)[p] in a && (a + b)[q] in b; }
    }
  }

  lemma {:induction false} GenericsOrdered(batches: seq<Shape>, n: nat)
    requires n <= |batches|
    ensures Ordered(GenericUnits(batches, n))
  {
    if n == 0 {
    } else {
      GenericsOrdered(batches, n - 1);
      GenericUnitsExact(batches, n - 1);
      OrderedConcat(GenericUnits(batches, n - 1), seq(batches[n - 1].generics, j requires 0 <= j => Generic(n - 1, j)));
    }
  }

  ghost predicate TablesOrdered(order: seq<Table>) {
    forall a, b :: 0 <= a < b < |order| ==> TableNumber(order[a]) < TableNumber(order[b])
  }

  lemma {:induction false} TablesInOrder(i: nat, tables: set<Table>, order: seq<Table>)
    requires TablesOrdered(order)
    ensures Ordered(TableUnits(i, tables, order))
    ensures forall u :: u in TableUnits(i, tables, order) ==> u.Insert? && u.i == i && u.table in order
  {
    if order == [] {
    } else {
      TablesInOrder(i, tables, order[..|order| - 1]);
      var t := order[|order| - 1];
      OrderedConcat(TableUnits(i, tables, order[..|order| - 1]), if t in tables then [Insert(i, t)] else []);
    }
  }

  lemma {:induction false} InsertsOrdered(batches: seq<Shape>, n: nat)
    requires n <= |batches|
    ensures Ordered(InsertUnits(batches, n))
  {
    if n == 0 {
    } else {
      hide TableUnits, InsertUnits;
      InsertsOrdered(batches, n - 1);
      InsertUnitsExact(batches, n - 1);
      TablesInOrder(n - 1, batches[n - 1].tables, TABLES);
      OrderedConcat(InsertUnits(batches, n - 1), TableUnits(n - 1, batches[n - 1].tables, TABLES));
    }
  }

  lemma SectionOrdered(job: Job, step: Step)
    ensures Ordered(SectionUnits(job, step))
  {
    match step
    case Generics => GenericsOrdered(job.batches, |job.batches|);
    case Writes => InsertsOrdered(job.batches, |job.batches|);
    case _ =>
  }

  lemma SectionBefore(job: Job, u: Unit, v: Unit)
    requires IsUnit(job, u) && IsUnit(job, v) && Rank(Section(u)) < Rank(Section(v))
    ensures Precedes(u, v)
  {
  }

  lemma {:induction false} UnitsFromOrdered(job: Job, step: Step)
    ensures Ordered(UnitsFrom(job, step))
    decreases 6 - Rank(step)
  {
    if step == Finish {
    } else {
      SectionOrdered(job, step);
      UnitsFromOrdered(job, Next(step));
      SectionUnitsExact(job, step);
      UnitsFromExact(job, Next(step));
      forall u, v | u in SectionUnits(job, step) && v in UnitsFrom(job, Next(step)) ensures Precedes(u, v) {
        SectionBefore(job, u, v);
      }
      OrderedConcat(SectionUnits(job, step), UnitsFrom(job, Next(step)));
    }
  }

  /** The statements of a job and their order, spelled out. */
  lemma UnitsSpelled(job: Job)
    ensures Ordered(UnitsOf(job))
    ensures forall i: nat, j: nat :: Generic(i, j) in UnitsOf(job) <==> i < |job.batches| && j < job.batches[i].generics
    ensures forall i: nat, t :: Insert(i, t) in UnitsOf(job) <==> i < |job.batches| && t in job.batches[i].tables
    ensures forall i: nat :: Multicast(Logging, i) in UnitsOf(job) <==> i < job.logs
    ensures forall i: nat :: Multicast(Monitoring, i) in UnitsOf(job) <==> i < job.mons
    ensures forall i: nat :: Multicast(Rootplots, i) in UnitsOf(job) <==> i < job.roots
    ensures forall i: nat :: Multicast(Plotlyplots, i) in UnitsOf(job) <==> i < job.plots
  {
    hide UnitsOf;
    UnitsExact(job);
    OrderOf(job);
  }

  lemma OrderOf(job: Job)
    ensures Ordered(UnitsOf(job))
  {
    UnitsFromOrdered(job, Generics);
  }
}
