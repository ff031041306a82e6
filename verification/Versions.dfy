/** The triggers that number rows by name and prune plots that have outlived their lifetime.
    Insertions are taken as serialised; the triggers take a lock on the name. */
module Versions {

  datatype Row = Row(name: string, version: int, lifetime: int)

  /** One element of an inserted array: the caller gives no version. */
  datatype Insertion = Insertion(name: string, lifetime: int)

  type History = seq<Insertion>

  // ---- the trigger ----

  function Max(a: int, b: int): int {
    if a < b then b else a
  }

  /** One more than the highest version of the name, or the start value. */
  function NextVersion(rows: seq<Row>, name: string, start: int): int {
    if rows == [] then start
    else
      var r, before := rows[|rows| - 1], rows[..|rows| - 1];
      var next := NextVersion(before, name, start);
      if r.name != name then next
      else if exists x :: x in before && x.name == name then Max(next, r.version + 1)
      else r.version + 1
  }

  function Filter(rows: seq<Row>, keep: Row -> bool): seq<Row> {
    if rows == [] then []
    else
      var r, before := rows[|rows| - 1], Filter(rows[..|rows| - 1], keep);
      if keep(r) then before + [r] else before
  }

  class VersionedTable {
    var rows: seq<Row>
    const start: int
    const prunes: bool
    /** Everything ever inserted. */
    ghost var history: History

    ghost predicate Valid()
      reads this
    {
      rows == TableOf(history, start, prunes)
    }

    constructor (start: int, prunes: bool)
      ensures Valid() && this.start == start && this.prunes == prunes && history == []
    {
      this.start, this.prunes := start, prunes;
      rows, history := [], [];
    }

    /** The trigger and the insertion that fires it. */
    method Insert(ins: Insertion) returns (version: int)
      requires Valid()
      modifies this
      ensures Valid() && history == old(history) + [ins]
      ensures version == start + Count(old(history), ins.name)
    {
      NextAfter(history, start, prunes, ins.name);
      TableStep(history, start, prunes, ins);
      version := NextVersion(rows, ins.name, start);
      if prunes { rows := Filter(rows, Unexpired(ins.name, version)); }
      rows := rows + [Row(ins.name, version, ins.lifetime)];
      history := history + [ins];
    }

    /** An inserted array yields one version for each element, in order. */
    method InsertAll(batch: seq<Insertion>) returns (versions: seq<int>)
      requires Valid()
      modifies this
      ensures Valid() && history == old(history) + batch
      ensures versions == VersionsFor(old(history), start, batch)
    {
      versions := [];
      var k := 0;
      assert history + batch[..0] == history;
      while k < |batch|
        invariant 0 <= k <= |batch|
        invariant Valid() && history == old(history) + batch[..k]
        invariant versions == VersionsFor(old(history), start, batch[..k])
      {
        var v := Insert(batch[k]);
        versions := versions + [v];
        assert batch[..k + 1][..k] == batch[..k];
        k := k + 1;
      }
      assert batch[..k] == batch;
    }
  }

  /** What the deletion keeps. */
  function Unexpired(name: string, version: int): Row -> bool {
    (r: Row) => !(r.name == name && r.version + r.lifetime < version)
  }

  // ---- the full history ----

  /** How often a name has been inserted. */
  function Count(h: History, name: string): nat {
    if h == [] then 0 else Count(h[..|h| - 1], name) + if h[|h| - 1].name == name then 1 else 0
  }

  /** Every row ever inserted: the versions of a name count up from the start value. */
  function Full(h: History, start: int): seq<Row> {
    if h == [] then []
    else
      var before, ins := h[..|h| - 1], h[|h| - 1];
      Full(before, start) + [Row(ins.name, start + Count(before, ins.name), ins.lifetime)]
  }

  function Latest(h: History, start: int, name: string): int {
    start + Count(h, name) - 1
  }

  /** The latest row of a name, and rows whose lifetime reaches the latest version. */
  function Alive(h: History, start: int): Row -> bool {
    (r: Row) => r.version == Latest(h, start, r.name) || r.version + r.lifetime >= Latest(h, start, r.name)
  }

  /** The contents of a table after a history. */
  function TableOf(h: History, start: int, prunes: bool): seq<Row> {
    if prunes then Filter(Full(h, start), Alive(h, start)) else Full(h, start)
  }

  /** The versions that the elements of an array get. */
  function VersionsFor(h: History, start: int, batch: seq<Insertion>): seq<int> {
    if batch == [] then []
    else
      var before, ins := batch[..|batch| - 1], batch[|batch| - 1];
      VersionsFor(h, start, before) + [start + Count(h + before, ins.name)]
  }

  lemma {:induction false} CountConcat(a: History, b: History, name: string)
    ensures Count(a + b, name) == Count(a, name) + Count(b, name)
  {
    if b == [] {
      assert a + b == a;
    } else {
      assert (a + b)[..|a + b| - 1] == a + b[..|b| - 1];
      CountConcat(a, b[..|b| - 1], name);
    }
  }

  /** Whatever has been pruned, the version of an element continues the count of its name over all
      earlier arrays and the elements before it. */
  lemma {:induction false} VersionsForAt(h: History, start: int, batch: seq<Insertion>, k: nat)
    requires k < |batch|
    ensures |VersionsFor(h, start, batch)| == |batch|
    ensures VersionsFor(h, start, batch)[k] == start + Count(h, batch[k].name) + Count(batch[..k], batch[k].name)
  {
    var before := batch[..|batch| - 1];
    if before != [] { VersionsForAt(h, start, before, if k < |before| then k else 0); }
    if k < |before| {
      assert before[..k] == batch[..k];
    } else {
      CountConcat(h, before, batch[k].name);
    }
  }

  /** The rows of a name carry versions from start to the latest, each higher than those before it. */
  lemma {:induction false} FullVersions(h: History, start: int, name: string)
    ensures forall r :: r in Full(h, start) && r.name == name ==> start <= r.version <= Latest(h, start, name)
    ensures forall j, k :: 0 <= j < k < |Full(h, start)| && Full(h, start)[j].name == Full(h, start)[k].name == name ==>
              Full(h, start)[j].version < Full(h, start)[k].version
  {
    if h == [] {
    } else {
      FullVersions(h[..|h| - 1], start, name);
    }
  }

  /** No version is left out. */
  lemma {:induction false} VersionUsed(h: History, start: int, name: string, v: int) returns (r: Row)
    requires start <= v <= Latest(h, start, name)
    ensures r in Full(h, start) && r.name == name && r.version == v
  {
    var before := h[..|h| - 1];
    var last := Full(h, start)[|Full(h, start)| - 1];
    if v <= Latest(before, start, name) {
      r := VersionUsed(before, start, name, v);
    } else {
      r := last;
    }
  }

  // ---- the trigger's version is the next of the full history ----

  ghost predicate HasName(rows: seq<Row>, name: string) {
    exists r :: r in rows && r.name == name
  }

  /** next is one more than the highest version of the name, or the start value. */
  ghost predicate IsNext(rows: seq<Row>, name: string, start: int, next: int) {
    && (!HasName(rows, name) ==> next == start)
    && (forall r :: r in rows && r.name == name ==> r.version < next)
    && (HasName(rows, name) ==> exists r :: r in rows && r.name == name && r.version + 1 == next)
  }

  lemma IsNextSnoc(before: seq<Row>, last: Row, name: string, start: int, next: int)
    requires IsNext(before, name, start, next)
    ensures IsNext(before + [last], name, start,
                   if last.name != name then next
                   else if HasName(before, name) then Max(next, last.version + 1) else last.version + 1)
  {
    var rows := before + [last];
    assert forall r :: r in rows <==> r in before || r == last;
    if HasName(before, name) {
      var r :| r in before && r.name == name && r.version + 1 == next;
      assert r in rows;
    }
    assert last in rows;
  }

  lemma {:induction false} NextVersionExact(rows: seq<Row>, name: string, start: int)
    ensures IsNext(rows, name, start, NextVersion(rows, name, start))
  {
    hide IsNext;
    if rows == [] {
      NoneNext(name, start);
    } else {
      var before, last := rows[..|rows| - 1], rows[|rows| - 1];
      NextVersionExact(before, name, start);
      assert rows == before + [last];
      IsNextSnoc(before, last, name, start, NextVersion(before, name, start));
    }
  }

  lemma NoneNext(name: string, start: int)
    ensures IsNext([], name, start, start)
  {
  }

  lemma {:induction false} FilterExact(rows: seq<Row>, keep: Row -> bool)
    ensures forall r :: r in Filter(rows, keep) <==> r in rows && keep(r)
  {
    if rows == [] {
    } else {
      FilterExact(rows[..|rows| - 1], keep);
      assert rows == rows[..|rows| - 1] + [rows[|rows| - 1]];
    }
  }

  /** Pruning never hides the latest row, so the numbering goes on without a gap. */
  lemma NextAfter(h: History, start: int, prunes: bool, name: string)
    ensures NextVersion(TableOf(h, start, prunes), name, start) == start + Count(h, name)
  {
    FullVersions(h, start, name);
    FilterExact(Full(h, start), Alive(h, start));
    NextVersionExact(TableOf(h, start, prunes), name, start);
    if Count(h, name) > 0 {
      var r := VersionUsed(h, start, name, Latest(h, start, name));
      assert r in TableOf(h, start, prunes);
    } else {
      NoRows(h, start, name);
    }
  }

  lemma {:induction false} NoRows(h: History, start: int, name: string)
    requires Count(h, name) == 0
    ensures forall r :: r in Full(h, start) ==> r.name != name
  {
    if h == [] {
    } else {
      NoRows(h[..|h| - 1], start, name);
    }
  }

  // ---- pruning step by step is filtering the full history ----

  lemma {:induction false} PruneRows(h: History, start: int, ins: Insertion, rows: seq<Row>)
    requires forall r :: r in rows ==> r in Full(h, start)
    ensures Filter(rows, Alive(h + [ins], start)) ==
            Filter(Filter(rows, Alive(h, start)), Unexpired(ins.name, start + Count(h, ins.name)))
  {
    if rows == [] {
    } else {
      var before, last := rows[..|rows| - 1], rows[|rows| - 1];
      PruneRows(h, start, ins, before);
      AliveAfter(h, start, ins, last);
    }
  }

  lemma AliveAfter(h: History, start: int, ins: Insertion, r: Row)
    requires r in Full(h, start)
    ensures Alive(h + [ins], start)(r) <==> Alive(h, start)(r) && Unexpired(ins.name, start + Count(h, ins.name))(r)
  {
    FullVersions(h, start, r.name);
  }

  /** The trigger's deletion and insertion, step by step, yield the filtered full history. */
  lemma {:induction false} TableStep(h: History, start: int, prunes: bool, ins: Insertion)
    ensures var version := start + Count(h, ins.name);
      TableOf(h + [ins], start, prunes) ==
        (if prunes then Filter(TableOf(h, start, prunes), Unexpired(ins.name, version)) else TableOf(h, start, prunes))
          + [Row(ins.name, version, ins.lifetime)]
  {
    assert (h + [ins])[..|h|] == h;
    if prunes { PruneRows(h, start, ins, Full(h, start)); }
  }

  lemma {:induction false} FullAt(h: History, start: int, k: nat)
    requires k < |h|
    ensures |Full(h, start)| == |h|
    ensures Full(h, start)[k] == Row(h[k].name, start + Count(h[..k], h[k].name), h[k].lifetime)
  {
    var before := h[..|h| - 1];
    if before != [] { FullAt(before, start, if k < |before| then k else 0); }
    if k < |before| { assert before[..k] == h[..k]; }
  }

  /** The row of every insertion is still there if and only if no more than its own lifetime of insertions
      of the same name have followed it, or none has; without pruning all rows are. */
  lemma RowStays(h: History, start: int, prunes: bool, k: nat)
    requires k < |h|
    ensures var followers := Count(h, h[k].name) - Count(h[..k], h[k].name) - 1;
      Row(h[k].name, start + Count(h[..k], h[k].name), h[k].lifetime) in TableOf(h, start, prunes) <==>
        !prunes || followers == 0 || followers <= h[k].lifetime
  {
    FullAt(h, start, k);
    FilterExact(Full(h, start), Alive(h, start));
    assert Full(h, start)[k] in Full(h, start);
  }

  lemma {:induction false} FullLifetimes(h: History, start: int, lifetime: int)
    requires forall ins :: ins in h ==> ins.lifetime == lifetime
    ensures forall r :: r in Full(h, start) ==> r.lifetime == lifetime
  {
    if h == [] {
    } else {
      assert h[|h| - 1] in h;
      FullLifetimes(h[..|h| - 1], start, lifetime);
    }
  }

  /** With one lifetime for all, exactly the latest lifetime + 1 versions of a name are there. */
  lemma SteadyLifetime(h: History, start: int, r: Row)
    requires r.lifetime >= 0 && forall ins :: ins in h ==> ins.lifetime == r.lifetime
    ensures r in TableOf(h, start, true) <==>
            start <= r.version && Latest(h, start, r.name) - r.lifetime <= r.version <= Latest(h, start, r.name)
  {
    FilterExact(Full(h, start), Alive(h, start));
    FullVersions(h, start, r.name);
    FullLifetimes(h, start, r.lifetime);
    if start <= r.version <= Latest(h, start, r.name) {
      var x := VersionUsed(h, start, r.name, r.version);
      assert x == r;
    }
  }
}
