/** The alarm trigger: a report of an alarm that is still open counts on its row instead of adding
    one. Firings are taken as serialised; unlike the version triggers, this one takes no lock. */
module Alarms {

  datatype Pair = Pair(device: string, description: string)

  datatype Row = Row(pair: Pair, first: int, last: int, resolved: bool, counter: nat)

  /** A report, or an operator resolving the k-th row. */
  datatype Event = Report(pair: Pair, time: int) | Resolve(k: nat)

  predicate Open(r: Row, pair: Pair) {
    !r.resolved && r.pair == pair
  }

  /** The trigger's update: every open row of the pair counts the report. */
  function Touch(rows: seq<Row>, pair: Pair, time: int): (r: seq<Row>)
    ensures |r| == |rows| && forall k :: 0 <= k < |r| ==> r[k] == Counted(rows[k], pair, time)
  {
    if rows == [] then [] else Touch(rows[..|rows| - 1], pair, time) + [Counted(rows[|rows| - 1], pair, time)]
  }

  function Counted(r: Row, pair: Pair, time: int): Row {
    if Open(r, pair) then r.(counter := r.counter + 1, last := time) else r
  }

  function CountOpen(rows: seq<Row>, pair: Pair): nat {
    if rows == [] then 0 else CountOpen(rows[..|rows| - 1], pair) + if Open(rows[|rows| - 1], pair) then 1 else 0
  }

  function Apply(rows: seq<Row>, e: Event): seq<Row> {
    match e
    case Report(pair, time) =>
      if CountOpen(rows, pair) > 0 then Touch(rows, pair, time) else rows + [Row(pair, time, time, false, 1)]
    case Resolve(k) => if k < |rows| then rows[k := rows[k].(resolved := true)] else rows
  }

  function Run(events: seq<Event>): seq<Row> {
    if events == [] then [] else Apply(Run(events[..|events| - 1]), events[|events| - 1])
  }

  // ---- what the rows of a pair are to add up to ----

  function Total(rows: seq<Row>, pair: Pair): nat {
    if rows == [] then 0
    else Total(rows[..|rows| - 1], pair) + if rows[|rows| - 1].pair == pair then rows[|rows| - 1].counter else 0
  }

  function Reports(events: seq<Event>, pair: Pair): nat {
    if events == [] then 0
    else
      var e := events[|events| - 1];
      Reports(events[..|events| - 1], pair) + if e.Report? && e.pair == pair then 1 else 0
  }

  /** The time of the latest report of a pair that has been reported. */
  function LatestReport(events: seq<Event>, pair: Pair): int
    requires Reports(events, pair) > 0
  {
    var e := events[|events| - 1];
    if e.Report? && e.pair == pair then e.time else LatestReport(events[..|events| - 1], pair)
  }

  /** The time of the report that opened the row that is open now: the last one that found no row of its
      pair open. */
  function FirstReport(events: seq<Event>, pair: Pair): int
    requires Reports(events, pair) > 0 && CountOpen(Run(events), pair) > 0
  {
    var before, e := events[..|events| - 1], events[|events| - 1];
    if e.Report? && e.pair == pair && CountOpen(Run(before), pair) == 0 then e.time
    else if Reports(before, pair) > 0 && CountOpen(Run(before), pair) > 0 then FirstReport(before, pair)
    else 0
  }

  // ---- single updates ----

  lemma {:induction false} TouchExact(rows: seq<Row>, pair: Pair, time: int, other: Pair)
    ensures CountOpen(Touch(rows, pair, time), other) == CountOpen(rows, other)
    ensures Total(Touch(rows, pair, time), other) ==
            Total(rows, other) + if other == pair then CountOpen(rows, pair) else 0
  {
    if rows == [] {
    } else {
      TouchExact(rows[..|rows| - 1], pair, time, other);
    }
  }

  lemma {:induction false} ResolveExact(rows: seq<Row>, k: nat, pair: Pair)
    requires k < |rows|
    ensures var t := rows[k := rows[k].(resolved := true)];
      && Total(t, pair) == Total(rows, pair)
      && CountOpen(t, pair) == CountOpen(rows, pair) - if Open(rows[k], pair) then 1 else 0
  {
    var t, n := rows[k := rows[k].(resolved := true)], |rows| - 1;
    if k < n {
      ResolveExact(rows[..n], k, pair);
      assert t[..n] == rows[..n][k := rows[..n][k].(resolved := true)];
    } else {
      assert t[..n] == rows[..n];
    }
  }

  lemma {:induction false} OpenCounted(rows: seq<Row>, pair: Pair, k: nat)
    requires k < |rows| && Open(rows[k], pair)
    ensures CountOpen(rows, pair) > 0
  {
    if |rows| - 1 <= k {
    } else {
      OpenCounted(rows[..|rows| - 1], pair, k);
    }
  }

  // ---- whole runs ----

  /** One open row at most; the counters add up to the number of reports; the open row shows the
      time of the report that opened it and the time of the latest report. */
  ghost predicate Kept(rows: seq<Row>, events: seq<Event>, pair: Pair) {
    && CountOpen(rows, pair) <= 1
    && Total(rows, pair) == Reports(events, pair)
    && (forall k :: 0 <= k < |rows| && Open(rows[k], pair) ==>
          Reports(events, pair) > 0 && rows[k].last == LatestReport(events, pair))
  }

  ghost predicate FirstShown(rows: seq<Row>, events: seq<Event>, pair: Pair) {
    forall k :: 0 <= k < |rows| && Open(rows[k], pair) ==>
      Reports(events, pair) > 0 && CountOpen(Run(events), pair) > 0 && rows[k].first == FirstReport(events, pair)
  }

  lemma ApplyKeeps(rows: seq<Row>, events: seq<Event>, e: Event, pair: Pair)
    requires Kept(rows, events, pair)
    ensures Kept(Apply(rows, e), events + [e], pair)
  {
    assert (events + [e])[..|events|] == events;
    match e
    case Report(p, time) =>
      if CountOpen(rows, p) > 0 {
        TouchExact(rows, p, time, pair);
      } else {
        forall k | 0 <= k < |rows| && Open(rows[k], pair) ensures p != pair { OpenCounted(rows, pair, k); }
      }
    case Resolve(k) =>
      if k < |rows| { ResolveExact(rows, k, pair); }
  }

  /** Over any run of reports and resolutions. */
  lemma {:induction false} RunKeeps(events: seq<Event>, pair: Pair)
    ensures Kept(Run(events), events, pair)
  {
    if events == [] {
    } else {
      var before, e := events[..|events| - 1], events[|events| - 1];
      RunKeeps(before, pair);
      ApplyKeeps(Run(before), before, e, pair);
      assert before + [e] == events;
    }
  }

  /** What a step leaves of an open row's first time: it was there before, or the report has opened it. */
  lemma FirstAfter(rows: seq<Row>, e: Event, pair: Pair, k: nat)
    requires k < |Apply(rows, e)| && Open(Apply(rows, e)[k], pair)
    ensures if k < |rows| then Open(rows[k], pair) && Apply(rows, e)[k].first == rows[k].first
            else e.Report? && e.pair == pair && CountOpen(rows, pair) == 0 && Apply(rows, e)[k].first == e.time
    ensures k < |rows| ==> CountOpen(rows, pair) > 0
  {
    hide CountOpen;
    if k < |rows| { OpenCounted(rows, pair, k); }
  }

  /** An open row keeps the time of the report that opened it. */
  lemma {:induction false} RunShowsFirst(events: seq<Event>, pair: Pair)
    ensures FirstShown(Run(events), events, pair)
  {
    hide CountOpen, Apply;
    if events == [] {
    } else {
      var before, e := events[..|events| - 1], events[|events| - 1];
      RunShowsFirst(before, pair);
      RunKeeps(events, pair);
      var rows, rows' := Run(before), Run(events);
      forall k | 0 <= k < |rows'| && Open(rows'[k], pair)
        ensures Reports(events, pair) > 0 && CountOpen(rows', pair) > 0 && rows'[k].first == FirstReport(events, pair)
      {
        OpenCounted(rows', pair, k);
        FirstAfter(rows, e, pair, k);
      }
    }
  }

  lemma {:induction false} SomeOpen(rows: seq<Row>, pair: Pair) returns (k: nat)
    requires CountOpen(rows, pair) > 0
    ensures k < |rows| && Open(rows[k], pair)
  {
    if Open(rows[|rows| - 1], pair) { k := |rows| - 1; } else { k := SomeOpen(rows[..|rows| - 1], pair); }
  }

  /** After a report the pair has an open row that shows it: the one that was open, counted up, or a new
      one; and nothing else has changed. */
  lemma AfterReport(events: seq<Event>, pair: Pair, time: int) returns (k: nat)
    ensures var rows, rows' := Run(events), Run(events + [Report(pair, time)]);
      && k < |rows'| && Open(rows'[k], pair) && rows'[k].last == time
      && if k < |rows|
         then Open(rows[k], pair) && rows' == rows[k := rows[k].(counter := rows[k].counter + 1, last := time)]
         else rows' == rows + [Row(pair, time, time, false, 1)] && forall j :: 0 <= j < |rows| ==> !Open(rows[j], pair)
  {
    var rows, rows' := Run(events), Run(events + [Report(pair, time)]);
    assert (events + [Report(pair, time)])[..|events|] == events;
    RunKeeps(events, pair);
    if CountOpen(rows, pair) > 0 {
      k := SomeOpen(rows, pair);
      forall j | 0 <= j < |rows| && j != k ensures !Open(rows[j], pair) {
        if Open(rows[j], pair) { AtMostOneOpen(rows, pair, if j < k then j else k, if j < k then k else j); }
      }
    } else {
      k := |rows|;
      forall j | 0 <= j < |rows| ensures !Open(rows[j], pair) {
        if Open(rows[j], pair) { OpenCounted(rows, pair, j); }
      }
    }
  }

  /** Resolving a row marks that row and changes nothing else. */
  lemma AfterResolve(events: seq<Event>, k: nat)
    ensures var rows, rows' := Run(events), Run(events + [Resolve(k)]);
      && |rows'| == |rows|
      && forall j :: 0 <= j < |rows| ==> rows'[j] == if j == k then rows[j].(resolved := true) else rows[j]
  {
    assert (events + [Resolve(k)])[..|events|] == events;
  }

  lemma {:induction false} AtMostOneOpen(rows: seq<Row>, pair: Pair, j: nat, k: nat)
    requires j < k < |rows| && Open(rows[j], pair) && Open(rows[k], pair)
    ensures CountOpen(rows, pair) >= 2
  {
    if k < |rows| - 1 {
      AtMostOneOpen(rows[..|rows| - 1], pair, j, k);
    } else {
      OpenCounted(rows[..|rows| - 1], pair, j);
    }
  }

  class AlarmTable {
    var rows: seq<Row>
    ghost var events: seq<Event>

    ghost predicate Valid()
      reads this
    {
      rows == Run(events)
    }

    constructor ()
      ensures Valid() && events == []
    {
      rows, events := [], [];
    }

    /** The trigger before an insertion: rows of the pair that are open count the report; if there
        was none, the insertion goes ahead. */
    method Insert(pair: Pair, time: int)
      requires Valid()
      modifies this
      ensures Valid() && events == old(events) + [Report(pair, time)]
      ensures forall p, j, k :: 0 <= j < k < |rows| && Open(rows[j], p) ==> !Open(rows[k], p)
    {
      var found := false;
      var updated := [];
      var i := 0;
      while i < |rows|
        invariant 0 <= i <= |rows|
        invariant updated == Touch(rows[..i], pair, time)
        invariant found <==> CountOpen(rows[..i], pair) > 0
      {
        assert rows[..i + 1][..i] == rows[..i];
        var r := rows[i];
        if !r.resolved && r.pair == pair {
          r := r.(counter := r.counter + 1, last := time);
          found := true;
        }
        updated := updated + [r];
        i := i + 1;
      }
      assert rows[..i] == rows;
      rows := if found then updated else rows + [Row(pair, time, time, false, 1)];
      assert (events + [Report(pair, time)])[..|events|] == events;
      events := events + [Report(pair, time)];
      forall p, j, k | 0 <= j < k < |rows| && Open(rows[j], p) ensures !Open(rows[k], p) {
        RunKeeps(events, p);
        if Open(rows[k], p) { AtMostOneOpen(rows, p, j, k); }
      }
    }

    method ResolveRow(k: nat)
      requires Valid()
      modifies this
      ensures Valid() && events == old(events) + [Resolve(k)]
    {
      if k < |rows| { rows := rows[k := rows[k].(resolved := true)]; }
      assert (events + [Resolve(k)])[..|events|] == events;
      events := events + [Resolve(k)];
    }
  }
}
