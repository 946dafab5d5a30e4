// Saving and pruning execution logs (execution_log_repository.py, execution_log_retention.py), with
// commits one after another and IDs from an increasing sequence, as the database assigns them.
module Retention {
  import opened Prelude

  const DAY: int := 86_400_000_000 // microseconds

  /** A row's ID and creation time; a row from before timestamps may have none. */
  datatype Row = Row(id: nat, created: Option<int>)

  datatype Limits = Limits(days: int, maxRows: int) {
    predicate Valid() { days >= 1 && maxRows >= 1 }
    function Cutoff(now: int): int { now - days * DAY }
  }

  predicate Ordered(rows: seq<Row>) { forall i, j :: 0 <= i < j < |rows| ==> rows[i].id < rows[j].id }

  /** The rows the DELETE leaves when the newest ID is `newest`. */
  predicate Kept(row: Row, cutoff: int, newest: nat, maxRows: int) {
    && (row.created.Some? ==> row.created.value >= cutoff)
    && row.id >= newest - maxRows + 1
  }

  function Filtered(rows: seq<Row>, cutoff: int, newest: nat, maxRows: int): (r: seq<Row>) {
    if rows == [] then []
    else (if Kept(rows[0], cutoff, newest, maxRows) then [rows[0]] else []) + Filtered(rows[1..], cutoff, newest, maxRows)
  }

  /** `prune_execution_logs` on rows in ID order. */
  function Pruned(rows: seq<Row>, cutoff: int, maxRows: int): seq<Row> {
    if rows == [] then [] else Filtered(rows, cutoff, rows[|rows| - 1].id, maxRows)
  }

  // ----- one pruning

  lemma {:induction false} FilteredMember(rows: seq<Row>, cutoff: int, newest: nat, maxRows: int, row: Row)
    ensures row in Filtered(rows, cutoff, newest, maxRows) <==> row in rows && Kept(row, cutoff, newest, maxRows)
  {
    if rows != [] {
      FilteredMember(rows[1..], cutoff, newest, maxRows, row);
      assert row in rows <==> row == rows[0] || row in rows[1..];
    }
  }

  lemma {:induction false} FilteredOrdered(rows: seq<Row>, cutoff: int, newest: nat, maxRows: int)
    requires Ordered(rows)
    ensures Ordered(Filtered(rows, cutoff, newest, maxRows))
  {
    if rows != [] {
      FilteredOrdered(rows[1..], cutoff, newest, maxRows);
      var rest := Filtered(rows[1..], cutoff, newest, maxRows);
      forall i | 0 <= i < |rest| ensures rows[0].id < rest[i].id {
        FilteredMember(rows[1..], cutoff, newest, maxRows, rest[i]);
      }
    }
  }

  lemma {:induction false} AllKept(rows: seq<Row>, cutoff: int, newest: nat, maxRows: int)
    requires forall row :: row in rows ==> Kept(row, cutoff, newest, maxRows)
    ensures Filtered(rows, cutoff, newest, maxRows) == rows
  {
    if rows != [] {
      AllKept(rows[1..], cutoff, newest, maxRows);
      assert rows == [rows[0]] + rows[1..];
    }
  }

  /** Exactly the rows that are neither too old nor outside the window of the newest IDs stay, in order. */
  lemma PrunedRows(rows: seq<Row>, cutoff: int, maxRows: int)
    requires Ordered(rows)
    ensures Ordered(Pruned(rows, cutoff, maxRows))
    ensures forall row :: row in Pruned(rows, cutoff, maxRows) <==>
              && row in rows
              && !(row.created.Some? && row.created.value < cutoff)
              && rows[|rows| - 1].id - row.id < maxRows
  {
    if rows != [] {
      var newest := rows[|rows| - 1].id;
      FilteredOrdered(rows, cutoff, newest, maxRows);
      forall row ensures row in Filtered(rows, cutoff, newest, maxRows) <==> row in rows && Kept(row, cutoff, newest, maxRows) {
        FilteredMember(rows, cutoff, newest, maxRows, row);
      }
    }
  }

  lemma {:induction false} IdsSpread(rows: seq<Row>, n: nat)
    requires Ordered(rows) && n < |rows|
    ensures rows[n].id >= rows[0].id + n
  {
    if n > 0 { IdsSpread(rows, n - 1); }
  }

  /** The window admits no more rows than its width. */
  lemma PrunedFits(rows: seq<Row>, cutoff: int, maxRows: int)
    requires Ordered(rows) && maxRows >= 1
    ensures |Pruned(rows, cutoff, maxRows)| <= maxRows
  {
    var p := Pruned(rows, cutoff, maxRows);
    PrunedRows(rows, cutoff, maxRows);
    if p != [] {
      IdsSpread(p, |p| - 1);
      assert p[0] in p && p[|p| - 1] in p;
      var last := rows[|rows| - 1];
      assert p[|p| - 1].id <= last.id by {
        var i :| 0 <= i < |rows| && rows[i] == p[|p| - 1];
      }
    }
  }

  /** Pruning again at the same time deletes nothing, even when the newest row itself was pruned. */
  lemma PruningTwiceIsOnce(rows: seq<Row>, cutoff: int, maxRows: int)
    requires Ordered(rows)
    ensures Pruned(Pruned(rows, cutoff, maxRows), cutoff, maxRows) == Pruned(rows, cutoff, maxRows)
  {
    var p := Pruned(rows, cutoff, maxRows);
    PrunedRows(rows, cutoff, maxRows);
    if p != [] {
      var newest := p[|p| - 1];
      assert newest in p;
      assert newest.id <= rows[|rows| - 1].id by {
        var i :| 0 <= i < |rows| && rows[i] == newest;
      }
      AllKept(p, cutoff, newest.id, maxRows);
    }
  }

  /** More than the retention days have passed since the row was created, in microseconds. */
  predicate TooOld(row: Row, now: int, days: int) {
    row.created.Some? && now - row.created.value > days * 24 * 60 * 60 * 1_000_000
  }

  /** The row just added survives its own pruning exactly when it is not already too old. */
  lemma JustSavedSurvivesIff(rows: seq<Row>, row: Row, now: int, limits: Limits)
    requires Ordered(rows + [row]) && limits.Valid()
    ensures row in Pruned(rows + [row], limits.Cutoff(now), limits.maxRows) <==> !TooOld(row, now, limits.days)
  {
    PrunedRows(rows + [row], limits.Cutoff(now), limits.maxRows);
    assert (rows + [row])[|rows|] == row;
  }

  /** A row without a timestamp leaves exactly when it falls out of the ID window. */
  lemma UntimedLeavesByWindow(rows: seq<Row>, row: Row, cutoff: int, maxRows: int)
    requires Ordered(rows) && row in rows && row.created.None?
    ensures row !in Pruned(rows, cutoff, maxRows) <==> row.id <= rows[|rows| - 1].id - maxRows
  {
    PrunedRows(rows, cutoff, maxRows);
  }

  // ----- transactions

  /** Where a transaction fails; a commit may also take effect although its answer is lost. */
  datatype Trouble = Smooth | NoSession | AtInsert | AtPrune | AtCommit | CommitLost

  datatype Outcome = Saved(id: nat) | Raised

  /** The table and the ID sequence, which a rollback does not set back. */
  datatype Table = Table(rows: seq<Row>, lastId: nat) {
    predicate Valid() { Ordered(rows) && forall i :: 0 <= i < |rows| ==> rows[i].id <= lastId }
  }

  class Repository {
    var rows: seq<Row>
    var lastId: nat

    constructor (table: Table)
      ensures Abstract() == table
    {
      rows, lastId := table.rows, table.lastId;
    }

    ghost function Abstract(): Table
      reads this
    {
      Table(rows, lastId)
    }

    method Save(created: Option<int>, now: int, limits: Limits, trouble: Trouble) returns (outcome: Outcome)
      modifies this
      ensures outcome.Saved? ==> Commits(old(Abstract()), Abstract(), created, now, limits) && outcome == Saved(lastId)
      ensures outcome.Raised? ==>
                || RollsBack(old(Abstract()), Abstract())
                || (trouble.CommitLost? && Commits(old(Abstract()), Abstract(), created, now, limits))
      ensures outcome.Saved? <==> trouble.Smooth? && limits.Valid()
    {
      if trouble.NoSession? { return Raised; }
      if !limits.Valid() || trouble.AtInsert? { return Raised; }
      lastId := lastId + 1;
      var pending := rows + [Row(lastId, created)];
      if trouble.AtPrune? { return Raised; }
      pending := Pruned(pending, limits.Cutoff(now), limits.maxRows);
      if trouble.AtCommit? { return Raised; }
      rows := pending;
      return if trouble.CommitLost? then Raised else Saved(lastId);
    }

    /** The pruning of its own at start-up; the number of deleted rows, or nothing when it failed. */
    method Prune(now: int, limits: Limits, trouble: Trouble) returns (deleted: Option<int>)
      modifies this`rows
      ensures || (limits.Valid() && rows == Pruned(old(rows), limits.Cutoff(now), limits.maxRows))
              || (deleted.None? && rows == old(rows))
      ensures deleted.Some? ==> deleted.value == |old(rows)| - |rows|
      ensures deleted.Some? <==> trouble.Smooth? && limits.Valid()
    {
      if !limits.Valid() || trouble in {NoSession, AtInsert, AtPrune} { return None; }
      var pending := Pruned(rows, limits.Cutoff(now), limits.maxRows);
      if trouble.AtCommit? { return None; }
      deleted := if trouble.CommitLost? then None else Some(|rows| - |pending|);
      rows := pending;
    }
  }

  predicate Commits(t: Table, t': Table, created: Option<int>, now: int, limits: Limits) {
    && limits.Valid() && t'.lastId == t.lastId + 1
    && t'.rows == Pruned(t.rows + [Row(t'.lastId, created)], limits.Cutoff(now), limits.maxRows)
  }

  predicate RollsBack(t: Table, t': Table) { t'.rows == t.rows && t.lastId <= t'.lastId }

  // ----- any run of transactions

  datatype Step = Save(created: Option<int>, now: int) | Prune(now: int) | Rollback

  predicate Takes(t: Table, t': Table, step: Step, limits: Limits) {
    match step
    case Save(created, now) => Commits(t, t', created, now, limits)
    case Prune(now) => t' == t.(rows := Pruned(t.rows, limits.Cutoff(now), limits.maxRows))
    case Rollback => RollsBack(t, t')
  }

  ghost predicate Run(tables: seq<Table>, steps: seq<Step>, limits: Limits) {
    && |tables| == |steps| + 1 && limits.Valid() && tables[0].Valid()
    && forall i :: 0 <= i < |steps| ==> Takes(tables[i], tables[i + 1], steps[i], limits)
  }

  lemma StepValid(t: Table, t': Table, step: Step, limits: Limits)
    requires t.Valid() && limits.Valid() && Takes(t, t', step, limits)
    ensures t'.Valid()
    ensures !step.Rollback? ==> |t'.rows| <= limits.maxRows
  {
    match step
    case Save(created, now) =>
      var more := t.rows + [Row(t'.lastId, created)];
      PrunedRows(more, limits.Cutoff(now), limits.maxRows);
      PrunedFits(more, limits.Cutoff(now), limits.maxRows);
      assert forall i :: 0 <= i < |t'.rows| ==> t'.rows[i] in more;
    case Prune(now) =>
      PrunedRows(t.rows, limits.Cutoff(now), limits.maxRows);
      PrunedFits(t.rows, limits.Cutoff(now), limits.maxRows);
      assert forall i :: 0 <= i < |t'.rows| ==> t'.rows[i] in t.rows;
    case Rollback =>
  }

  /** After every commit, and after any rollbacks that follow it, the table is within its limit. */
  lemma {:induction false} NeverMoreThanMaxRows(tables: seq<Table>, steps: seq<Step>, limits: Limits, n: nat)
    requires Run(tables, steps, limits) && n < |tables|
    ensures tables[n].Valid()
    ensures |tables[0].rows| <= limits.maxRows || (exists i :: 0 <= i < n && !steps[i].Rollback?) ==>
              |tables[n].rows| <= limits.maxRows
  {
    if n > 0 {
      NeverMoreThanMaxRows(tables, steps, limits, n - 1);
      StepValid(tables[n - 1], tables[n - 1 + 1], steps[n - 1], limits);
    }
  }

  /** One committed step took the row away, by age or by the ID window. */
  predicate Removes(t: Table, step: Step, limits: Limits, row: Row) {
    match step
    case Save(_, now) => TooOld(row, now, limits.days) || t.lastId + 1 - row.id >= limits.maxRows
    case Prune(now) =>
      TooOld(row, now, limits.days) || (t.rows != [] && t.rows[|t.rows| - 1].id - row.id >= limits.maxRows)
    case Rollback => false
  }

  /** A row once in the table stays until some step removes it by the rules, and never returns. */
  lemma {:induction false} RowStaysUntilRemoved(
    tables: seq<Table>, steps: seq<Step>, limits: Limits, row: Row, k: nat, n: nat)
    requires Run(tables, steps, limits) && k <= n < |tables| && row in tables[k].rows
    ensures row in tables[n].rows <==> forall i :: k <= i < n ==> !Removes(tables[i], steps[i], limits, row)
    ensures row.id <= tables[n].lastId
    decreases n
  {
    NeverMoreThanMaxRows(tables, steps, limits, n);
    if n > k {
      RowStaysUntilRemoved(tables, steps, limits, row, k, n - 1);
      NeverMoreThanMaxRows(tables, steps, limits, n - 1);
      StaysOneStep(tables[n - 1], tables[n - 1 + 1], steps[n - 1], limits, row);
    }
  }

  lemma StaysOneStep(t: Table, t': Table, step: Step, limits: Limits, row: Row)
    requires t.Valid() && limits.Valid() && Takes(t, t', step, limits) && row.id <= t.lastId
    ensures row.id <= t'.lastId
    ensures row in t'.rows <==> row in t.rows && !Removes(t, step, limits, row)
  {
    match step
    case Save(created, now) =>
      var added := Row(t'.lastId, created);
      PrunedRows(t.rows + [added], limits.Cutoff(now), limits.maxRows);
      assert (t.rows + [added])[|t.rows|] == added;
      assert row in t.rows + [added] <==> row in t.rows;
    case Prune(now) => PrunedRows(t.rows, limits.Cutoff(now), limits.maxRows);
    case Rollback =>
  }
}
