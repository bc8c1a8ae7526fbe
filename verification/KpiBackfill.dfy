/** KPI rollups of analytics-svc: upserts into a table unique on (day, key, dims), the nightly pass
    over seven metrics, any of which may fail, and backfills over ranges of days. The data the metrics
    read is fixed. */
module KpiBackfill {
  import opened Basics

  // ---------- Data ----------

  datatype Cell = Cell(day: int, key: string, dims: string)

  datatype Value = Value(value: Option<real>, count: Option<int>)

  /** One row a metric produces for a day. */
  datatype Row = Row(key: string, dims: string, value: Value)

  type Table = map<Cell, Value>

  /** How a metric ends: after a failed statement Postgres refuses every further one of the
      transaction, which is then rolled back; any other exception leaves it as it is. */
  datatype Outcome = Fine | Raised | SqlFailed

  /** The rows a metric writes, in order, before it ends or fails. */
  datatype Metric = Metric(rows: seq<Row>, outcome: Outcome)

  /** What each metric does on each day. */
  type Source = (nat, int) -> Metric

  datatype Range = Range(from: int, to: int)

  const METRICS := 7

  // ---------- Specification ----------

  function Upsert(table: Table, day: int, row: Row): Table {
    table[Cell(day, row.key, row.dims) := row.value]
  }

  function UpsertAll(table: Table, day: int, rows: seq<Row>): Table {
    if rows == [] then table else Upsert(UpsertAll(table, day, rows[..|rows| - 1]), day, rows[|rows| - 1])
  }

  /** The first m metrics of a day. */
  function RollupMetrics(source: Source, table: Table, day: int, m: nat): Table {
    if m == 0 then table else UpsertAll(RollupMetrics(source, table, day, m - 1), day, source(m - 1, day).rows)
  }

  /** A statement of the first m metrics of a day fails. */
  predicate Poisoned(source: Source, day: int, m: nat) {
    exists k: nat :: k < m && source(k, day).outcome == SqlFailed
  }

  function RollupDay(source: Source, table: Table, day: int): Table {
    if Poisoned(source, day, METRICS) then table else RollupMetrics(source, table, day, METRICS)
  }

  /** The days of the range in turn, up to and including `to`. */
  function Backfill(source: Source, table: Table, range: Range): Table
    decreases range.to - range.from
  {
    if range.from > range.to then table
    else Backfill(source, RollupDay(source, table, range.from), Range(range.from + 1, range.to))
  }

  function Run(source: Source, table: Table, ranges: seq<Range>): Table {
    if ranges == [] then table
    else Backfill(source, Run(source, table, ranges[..|ranges| - 1]), ranges[|ranges| - 1])
  }

  predicate Covers(range: Range, day: int) {
    range.from <= day <= range.to
  }

  predicate Covered(ranges: seq<Range>, day: int) {
    exists i :: 0 <= i < |ranges| && Covers(ranges[i], day)
  }

  /** What the source alone says of a day. */
  function DayCells(source: Source, day: int): Table {
    RollupDay(source, map[], day)
  }

  // ---------- Rolling up overwrites ----------

  lemma {:induction false} UpsertAllOverwrites(table: Table, base: Table, day: int, rows: seq<Row>)
    ensures UpsertAll(table + base, day, rows) == table + UpsertAll(base, day, rows)
  {
    if rows != [] { UpsertAllOverwrites(table, base, day, rows[..|rows| - 1]); }
  }

  lemma {:induction false} MetricsOverwrite(source: Source, table: Table, day: int, m: nat)
    ensures RollupMetrics(source, table, day, m) == table + RollupMetrics(source, map[], day, m)
  {
    if m == 0 {
      assert table + map[] == table;
    } else {
      MetricsOverwrite(source, table, day, m - 1);
      UpsertAllOverwrites(table, RollupMetrics(source, map[], day, m - 1), day, source(m - 1, day).rows);
    }
  }

  lemma {:induction false} UpsertAllStaysInDay(table: Table, day: int, rows: seq<Row>, c: Cell)
    requires c in UpsertAll(table, day, rows)
    ensures c.day == day || c in table
  {
    if rows != [] && c in UpsertAll(table, day, rows[..|rows| - 1]) {
      UpsertAllStaysInDay(table, day, rows[..|rows| - 1], c);
    }
  }

  lemma {:induction false} CellsOfDay(source: Source, day: int, m: nat, c: Cell)
    requires c in RollupMetrics(source, map[], day, m)
    ensures c.day == day
  {
    if m > 0 {
      UpsertAllStaysInDay(RollupMetrics(source, map[], day, m - 1), day, source(m - 1, day).rows, c);
      if c in RollupMetrics(source, map[], day, m - 1) { CellsOfDay(source, day, m - 1, c); }
    }
  }

  function Lookup(table: Table, c: Cell): Option<Value> {
    if c in table then Some(table[c]) else None
  }

  /** A rolled-up day holds what the source says of it; every other cell is as before. */
  lemma {:induction false} RollupSetsItsDay(source: Source, table: Table, day: int, c: Cell)
    ensures Lookup(RollupDay(source, table, day), c) ==
            if c.day == day && c in DayCells(source, day) then Some(DayCells(source, day)[c]) else Lookup(table, c)
  {
    MetricsOverwrite(source, table, day, METRICS);
    if c in DayCells(source, day) { CellsOfDay(source, day, METRICS, c); }
  }

  function Find(rows: seq<Row>, c: Cell): Option<Value> {
    if rows == [] then None
    else
      var last := rows[|rows| - 1];
      if Cell(c.day, last.key, last.dims) == c then Some(last.value) else Find(rows[..|rows| - 1], c)
  }

  /** All rows the first m metrics of a day write. */
  function Written(source: Source, day: int, m: nat): seq<Row> {
    if m == 0 then [] else Written(source, day, m - 1) + source(m - 1, day).rows
  }

  lemma {:induction false} FindInConcat(a: seq<Row>, b: seq<Row>, c: Cell)
    ensures Find(a + b, c) == if Find(b, c).Some? then Find(b, c) else Find(a, c)
  {
    if b == [] {
      assert a + b == a;
    } else {
      assert (a + b)[..|a + b| - 1] == a + b[..|b| - 1];
      FindInConcat(a, b[..|b| - 1], c);
    }
  }

  lemma {:induction false} UpsertAllFinds(table: Table, day: int, rows: seq<Row>, c: Cell)
    requires c.day == day
    ensures Lookup(UpsertAll(table, day, rows), c) == if Find(rows, c).Some? then Find(rows, c) else Lookup(table, c)
  {
    if rows != [] { UpsertAllFinds(table, day, rows[..|rows| - 1], c); }
  }

  lemma {:induction false} MetricsFind(source: Source, day: int, m: nat, c: Cell)
    requires c.day == day
    ensures Lookup(RollupMetrics(source, map[], day, m), c) == Find(Written(source, day, m), c)
  {
    if m > 0 {
      MetricsFind(source, day, m - 1, c);
      UpsertAllFinds(RollupMetrics(source, map[], day, m - 1), day, source(m - 1, day).rows, c);
      FindInConcat(Written(source, day, m - 1), source(m - 1, day).rows, c);
    }
  }

  /** A day's cell holds the last row written to it, rows of metrics that raised included, unless a
      statement failed: then the day stores nothing, rows of the metrics before that one included. */
  lemma {:induction false} DayHoldsLastRows(source: Source, day: int, c: Cell)
    requires c.day == day
    ensures Lookup(DayCells(source, day), c) ==
            if exists k: nat :: k < 7 && source(k, day).outcome == SqlFailed then None
            else Find(Written(source, day, 7), c)
  {
    MetricsFind(source, day, METRICS, c);
  }

  lemma {:induction false} BackfillSetsItsDays(source: Source, table: Table, range: Range, c: Cell)
    ensures Lookup(Backfill(source, table, range), c) ==
            if range.from <= c.day <= range.to && c in DayCells(source, c.day)
            then Some(DayCells(source, c.day)[c]) else Lookup(table, c)
    decreases range.to - range.from
  {
    if range.from <= range.to {
      RollupSetsItsDay(source, table, range.from, c);
      BackfillSetsItsDays(source, RollupDay(source, table, range.from), Range(range.from + 1, range.to), c);
    }
  }

  lemma {:induction false} CoveredIff(ranges: seq<Range>, day: int)
    ensures Covered(ranges, day) <==> exists i :: 0 <= i < |ranges| && ranges[i].from <= day <= ranges[i].to
  {
    if i :| 0 <= i < |ranges| && ranges[i].from <= day <= ranges[i].to { assert Covers(ranges[i], day); }
  }

  /** After any sequence of backfills each cell holds what the source says if its day was covered,
      and otherwise what it held at the start. */
  lemma {:induction false} RunSetsCoveredDays(source: Source, table: Table, ranges: seq<Range>, c: Cell)
    ensures Lookup(Run(source, table, ranges), c) ==
            if && c in DayCells(source, c.day)
               && exists i :: 0 <= i < |ranges| && ranges[i].from <= c.day <= ranges[i].to
            then Some(DayCells(source, c.day)[c]) else Lookup(table, c)
  {
    if ranges != [] {
      var n := |ranges| - 1;
      RunSetsCoveredDays(source, table, ranges[..n], c);
      BackfillSetsItsDays(source, Run(source, table, ranges[..n]), ranges[n], c);
      assert Covered(ranges, c.day) <==> Covered(ranges[..n], c.day) || Covers(ranges[n], c.day) by {
        if i :| 0 <= i < n && Covers(ranges[..n][i], c.day) { assert Covers(ranges[i], c.day); }
        if i :| 0 <= i < |ranges| && Covers(ranges[i], c.day) { assert i < n ==> Covers(ranges[..n][i], c.day); }
      }
    }
  }

  /** Repeated, overlapping and reordered ranges do not matter: only the set of days covered does. */
  lemma {:induction false} BackfillDependsOnDaysOnly(source: Source, table: Table, a: seq<Range>, b: seq<Range>)
    requires forall day :: Covered(a, day) <==> Covered(b, day)
    ensures Run(source, table, a) == Run(source, table, b)
  {
    var x, y := Run(source, table, a), Run(source, table, b);
    forall c: Cell ensures Lookup(x, c) == Lookup(y, c) {
      RunSetsCoveredDays(source, table, a, c);
      RunSetsCoveredDays(source, table, b, c);
      CoveredIff(a, c.day);
      CoveredIff(b, c.day);
    }
    forall c | c in x ensures c in y && x[c] == y[c] { assert Lookup(x, c) == Lookup(y, c); }
    forall c | c in y ensures c in x { assert Lookup(x, c) == Lookup(y, c); }
  }

  // ---------- The tasks ----------

  /** The status of a day: a metric ended well if it did not fail and no statement had failed before. */
  ghost predicate Reports(source: Source, day: int, status: map<nat, bool>) {
    && (forall m: nat :: m in status <==> m < 7)
    && forall m :: m in status ==> (status[m] <==> source(m, day).outcome == Fine && !Poisoned(source, day, m))
  }

  class KpiRollups {
    const source: Source
    var table: Table    // as committed
    var session: Table  // as the open transaction sees it

    constructor (source: Source)
      ensures this.source == source && table == map[]
    {
      this.source := source;
      table, session := map[], map[];
    }

    method UpsertRow(day: int, row: Row)
      modifies this`session
      ensures session == Upsert(old(session), day, row)
    {
      session := session[Cell(day, row.key, row.dims) := row.value];
    }

    method RollupOneDay(day: int) returns (status: map<nat, bool>)
      modifies this
      ensures table == RollupDay(source, old(table), day)
      ensures Reports(source, day, status)
    {
      status := map[];
      session := table;
      var failed := false;  // a statement has failed
      for m := 0 to METRICS
        invariant table == old(table)
        invariant failed <==> Poisoned(source, day, m)
        invariant !failed ==> session == RollupMetrics(source, table, day, m)
        invariant forall k: nat :: k in status <==> k < m
        invariant forall k :: k in status ==>
          (status[k] <==> source(k, day).outcome == Fine && !Poisoned(source, day, k))
      {
        if !failed {
          var metric := source(m, day);
          ghost var before := session;
          for i := 0 to |metric.rows|
            invariant table == old(table) && session == UpsertAll(before, day, metric.rows[..i])
          {
            assert metric.rows[..i + 1][..i] == metric.rows[..i];
            UpsertRow(day, metric.rows[i]);
          }
          assert metric.rows[..|metric.rows|] == metric.rows;
          status := status[m := metric.outcome == Fine];
          failed := metric.outcome == SqlFailed;
        } else {
          status := status[m := false];
        }
      }
      if !failed {
        table := session;
      }
    }

    method BackfillRange(range: Range) returns (results: map<int, map<nat, bool>>)
      modifies this
      ensures table == Backfill(source, old(table), range)
      ensures forall day :: day in results <==> range.from <= day <= range.to
      ensures forall day :: day in results ==> Reports(source, day, results[day])
    {
      results := map[];
      var current := range.from;
      while current <= range.to
        invariant range.from <= current <= range.to + 1 || current == range.from > range.to
        invariant Backfill(source, old(table), range) == Backfill(source, table, Range(current, range.to))
        invariant forall day :: day in results <==> range.from <= day < current
        invariant forall day :: day in results ==> Reports(source, day, results[day])
        decreases range.to + 1 - current
      {
        var status := RollupOneDay(current);
        results := results[current := status];
        current := current + 1;
      }
    }
  }
}
