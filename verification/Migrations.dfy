// Versioned schema migration (database_migrations.py and its two revisions): every call runs in one
// transaction, whatever target it is given and wherever a statement fails.
module Migrations {
  import opened Prelude
  import Json

  /** Column names of execution_logs; a legacy table may have others. */
  datatype Column =
    | Id | ProblemId | Shellgei | Output | JudgeCode | CreatedAt
    | ExecutionStatus | Stdout | Stderr | ExitCode | TimedOut | Truncated | DurationMs | Verdict | JudgeReason
    | Other(name: string)

  datatype Revision = Legacy0001 | Structured0002 | Unknown(name: string)
  datatype Target = Base | Head | At(revision: Revision)

  datatype Value = Null | Text(s: string) | Number(n: int) | Flag(b: bool)
  type Row = map<Column, Value>
  /** `required` are the columns declared NOT NULL. */
  datatype Table = Table(columns: set<Column>, rows: map<nat, Row>, required: set<Column>) {
    ghost predicate WellFormed() {
      && required <= columns
      && forall id :: id in rows ==> rows[id].Keys == columns && Filled(rows[id], required)
    }
  }

  predicate Filled(r: Row, cs: set<Column>) { forall c :: c in cs ==> Cell(r, c) != Null }

  /** The dialect, and the revision table and execution_logs; either table may be missing. */
  datatype Db = Db(postgres: bool, revisions: Option<set<Revision>>, table: Option<Table>)

  datatype Attempt<+T> = Done(value: T) | Raised {
    predicate IsFailure() { Raised? }
    function PropagateFailure<U>(): Attempt<U>
      requires Raised?
    {
      Raised
    }
    function Extract(): T
      requires Done?
    {
      value
    }
  }

  const MIGRATIONS := [Legacy0001, Structured0002]
  const LEGACY := {Id, ProblemId, Shellgei, Output, JudgeCode, CreatedAt}
  const STRUCTURED_COLUMNS :=
    [ExecutionStatus, Stdout, Stderr, ExitCode, TimedOut, Truncated, DurationMs, Verdict, JudgeReason]
  const STRUCTURED := {ExecutionStatus, Stdout, Stderr, ExitCode, TimedOut, Truncated, DurationMs, Verdict, JudgeReason}
  const NOT_NULL_COLUMNS := [ExecutionStatus, Stdout, Stderr, TimedOut, Truncated, Verdict]
  const NOT_NULL := {ExecutionStatus, Stdout, Stderr, TimedOut, Truncated, Verdict}

  // ----- the statements

  function AddColumn(t: Table, c: Column): Table {
    t.(columns := t.columns + {c}, rows := map id | id in t.rows :: t.rows[id][c := Null])
  }

  function DropColumn(t: Table, c: Column): Table {
    Table(t.columns - {c}, map id | id in t.rows :: t.rows[id] - {c}, t.required - {c})
  }

  function AddColumns(t: Table, cs: seq<Column>): Table {
    if cs == [] then t else AddColumn(AddColumns(t, cs[..|cs| - 1]), cs[|cs| - 1])
  }

  function DropColumns(t: Table, cs: seq<Column>): Table
    decreases |cs|
  {
    if cs == [] then t else DropColumns(DropColumn(t, cs[|cs| - 1]), cs[..|cs| - 1])
  }

  function Cell(r: Row, c: Column): Value { if c in r then r[c] else Null }

  /** CAST(v AS VARCHAR). */
  function AsText(v: Value): Option<string> {
    match v
    case Null => None
    case Text(s) => Some(s)
    case Number(n) => Some(Json.PrintInt(n))
    case Flag(b) => Some(if b then "true" else "false")
  }

  function LegacyVerdict(judge: Value): string {
    var code := AsText(judge);
    if code == Some("1") then "accepted"
    else if code == Some("2") then "wrong_image"
    else if code == Some("3") then "wrong_answer"
    else if code == Some("4") then "legacy_failure"
    else "legacy_unknown"
  }

  /** The UPDATE of revision 0002: old output becomes stdout, nothing is guessed. */
  function Backfill(r: Row): Row {
    r[ExecutionStatus := Text("legacy_unknown")]
     [Stdout := if Cell(r, Output) == Null then Text("") else Cell(r, Output)]
     [Stderr := Text("")]
     [TimedOut := Flag(false)]
     [Truncated := Flag(false)]
     [Verdict := Text(LegacyVerdict(Cell(r, JudgeCode)))]
  }

  function BackfillAll(t: Table): Table {
    t.(rows := map id | id in t.rows :: Backfill(t.rows[id]))
  }

  /** ALTER COLUMN … SET NOT NULL; a cell that is NULL makes it raise. */
  function SetNotNull(t: Table, c: Column): Attempt<Table> {
    if forall id :: id in t.rows ==> Cell(t.rows[id], c) != Null then Done(t.(required := t.required + {c})) else Raised
  }

  /** Only PostgreSQL is told which columns are mandatory. */
  function Constrain(t: Table, postgres: bool): Table { if postgres then t.(required := t.required + NOT_NULL) else t }

  // ----- the revisions

  const NEW_TABLE := Table(LEGACY, map[], {Id})

  function Upgrade1(db: Db): Attempt<Db> {
    if db.table.Some? then Raised else Done(db.(table := Some(NEW_TABLE)))
  }

  function Downgrade1(db: Db): Attempt<Db> { Done(db.(table := None)) }

  function Upgrade2(db: Db): Attempt<Db> {
    if db.table.None? || db.table.value.columns * STRUCTURED != {} then Raised
    else Done(db.(table := Some(Constrain(BackfillAll(AddColumns(db.table.value, STRUCTURED_COLUMNS)), db.postgres))))
  }

  function Downgrade2(db: Db): Attempt<Db> {
    if db.table.None? || !(STRUCTURED <= db.table.value.columns) then Raised
    else Done(db.(table := Some(DropColumns(db.table.value, STRUCTURED_COLUMNS))))
  }

  // ----- migrate_database

  function Recorded(db: Db): set<Revision> { if db.revisions.Some? then db.revisions.value else {} }

  function Record(db: Db, revision: Revision): Db { db.(revisions := Some(Recorded(db) + {revision})) }
  function Unrecord(db: Db, revision: Revision): Db { db.(revisions := Some(Recorded(db) - {revision})) }

  /** `_stamp_unversioned_legacy_database` after the revision table exists. */
  function Stamp(db: Db): Attempt<Db> {
    if Recorded(db) != {} || db.table.None? then Done(db)
    else if !(LEGACY <= db.table.value.columns) || db.table.value.columns * STRUCTURED != {} then Raised
    else Done(Record(db, MIGRATIONS[0]))
  }

  /** `_applied_revisions`, as a count. */
  function Applied(db: Db): Attempt<nat> {
    if Recorded(db) == {} then Done(0)
    else if Recorded(db) == {MIGRATIONS[0]} then Done(1)
    else if Recorded(db) == {MIGRATIONS[0], MIGRATIONS[1]} then Done(2)
    else Raised
  }

  function TargetCount(target: Target): Attempt<nat> {
    match target
    case Base => Done(0)
    case Head => Done(2)
    case At(Legacy0001) => Done(1)
    case At(Structured0002) => Done(2)
    case At(Unknown(_)) => Raised
  }

  /** One revision's own statements. */
  function Revised(db: Db, up: bool, k: nat): Attempt<Db>
    requires k < 2
  {
    if up then (if k == 0 then Upgrade1(db) else Upgrade2(db)) else (if k == 0 then Downgrade1(db) else Downgrade2(db))
  }

  function Up(db: Db, from: nat, to: nat): Attempt<Db>
    requires from <= to <= 2
    decreases 2 - from as int
  {
    if from == to then Done(db)
    else
      var next :- Revised(db, true, from);
      Up(Record(next, MIGRATIONS[from]), from + 1, to)
  }

  function Down(db: Db, from: nat, to: nat): Attempt<Db>
    requires to <= from <= 2
    decreases from
  {
    if from == to then Done(db)
    else
      var below: nat := from - 1;
      var next :- Revised(db, false, below);
      Down(Unrecord(next, MIGRATIONS[below]), below, to)
  }

  /** The whole transaction when no statement fails; Raised means it rolls back. */
  function Migrate(db: Db, target: Target): Attempt<Db> {
    var stamped :- Stamp(db.(revisions := Some(Recorded(db))));
    var applied :- Applied(stamped);
    var desired :- TargetCount(target);
    if applied <= desired then Up(stamped, applied, desired) else Down(stamped, applied, desired)
  }

  /** No run needs more statements than this: the bookkeeping, and two revisions of at most 17 each. */
  const ENOUGH := 36

  ghost function First(i: nat): set<Column>
    requires i <= |NOT_NULL_COLUMNS|
  {
    set c | c in NOT_NULL_COLUMNS[..i]
  }

  lemma FirstNext(i: nat)
    requires i < |NOT_NULL_COLUMNS|
    ensures First(i + 1) == First(i) + {NOT_NULL_COLUMNS[i]} && NOT_NULL_COLUMNS[i] in NOT_NULL
  {
    assert NOT_NULL_COLUMNS[..i + 1] == NOT_NULL_COLUMNS[..i] + [NOT_NULL_COLUMNS[i]];
  }

  lemma FirstAll()
    ensures First(|NOT_NULL_COLUMNS|) == NOT_NULL
  {
    var cs := NOT_NULL_COLUMNS;
    assert cs[..|cs|] == cs;
    assert cs[0] in cs && cs[1] in cs && cs[2] in cs && cs[3] in cs && cs[4] in cs && cs[5] in cs;
  }

  /** The connection of one transaction; `countdown` is the number of statements until one fails. */
  class Connection {
    var db: Db
    var countdown: nat

    constructor (db: Db, countdown: nat)
      ensures this.db == db && this.countdown == countdown
    {
      this.db, this.countdown := db, countdown;
    }

    method Statement(next: Db) returns (ok: Attempt<()>)
      modifies this
      ensures ok.Done? <==> old(countdown) > 0
      ensures ok.Done? ==> db == next && countdown == old(countdown) - 1
    {
      if countdown == 0 { return Raised; }
      countdown := countdown - 1;
      db := next;
      return Done(());
    }

    /** A statement on the table that may itself be impossible. */
    method Alter(next: Attempt<Table>) returns (ok: Attempt<()>)
      modifies this
      ensures ok.Done? <==> old(countdown) > 0 && next.Done?
      ensures ok.Done? ==> db == old(db).(table := Some(next.value)) && countdown == old(countdown) - 1
    {
      if next.Raised? { return Raised; }
      ok := Statement(db.(table := Some(next.value)));
    }

    method RunUpgrade2() returns (ok: Attempt<()>)
      modifies this
      ensures ok.Done? ==> Upgrade2(old(db)) == Done(db)
      ensures old(countdown) >= 16 && Upgrade2(old(db)).Done? ==> ok.Done? && countdown >= old(countdown) - 16
    {
      if db.table.None? || db.table.value.columns * STRUCTURED != {} { return Raised; }
      var _ :- RunAddColumns();
      var _ :- Statement(db.(table := Some(BackfillAll(db.table.value))));
      if !db.postgres { return Done(()); }
      ok := RunSetNotNull();
    }

    method RunAddColumns() returns (ok: Attempt<()>)
      requires db.table.Some?
      modifies this
      ensures ok.Done? ==> db == old(db).(table := Some(AddColumns(old(db).table.value, STRUCTURED_COLUMNS)))
      ensures old(countdown) >= 9 ==> ok.Done? && countdown == old(countdown) - 9
    {
      ghost var before := db.table.value;
      var i := 0;
      while i < |STRUCTURED_COLUMNS|
        invariant countdown == old(countdown) - i
        invariant 0 <= i <= |STRUCTURED_COLUMNS|
        invariant db == old(db).(table := Some(AddColumns(before, STRUCTURED_COLUMNS[..i])))
      {
        assert STRUCTURED_COLUMNS[..i + 1][..i] == STRUCTURED_COLUMNS[..i];
        var _ :- Statement(db.(table := Some(AddColumn(db.table.value, STRUCTURED_COLUMNS[i]))));
        i := i + 1;
      }
      assert STRUCTURED_COLUMNS[..i] == STRUCTURED_COLUMNS;
      return Done(());
    }

    /** After the backfill no cell stands in the way of the six constraints. */
    method RunSetNotNull() returns (ok: Attempt<()>)
      requires db.table.Some? && forall id :: id in db.table.value.rows ==> Filled(db.table.value.rows[id], NOT_NULL)
      modifies this
      ensures ok.Done? ==> db == old(db).(table := Some(Constrain(old(db).table.value, true)))
      ensures old(countdown) >= 6 ==> ok.Done? && countdown == old(countdown) - 6
    {
      ghost var before := db.table.value;
      var i := 0;
      assert before.required + First(0) == before.required;
      while i < |NOT_NULL_COLUMNS|
        invariant 0 <= i <= |NOT_NULL_COLUMNS| && countdown == old(countdown) - i
        invariant db == old(db).(table := Some(before.(required := before.required + First(i))))
      {
        var c := NOT_NULL_COLUMNS[i];
        FirstNext(i);
        assert before.required + First(i) + {c} == before.required + First(i + 1);
        var _ :- Alter(SetNotNull(db.table.value, c));
        i := i + 1;
      }
      FirstAll();
      return Done(());
    }

    method RunDowngrade2() returns (ok: Attempt<()>)
      modifies this
      ensures ok.Done? ==> Downgrade2(old(db)) == Done(db)
      ensures old(countdown) >= 16 && Downgrade2(old(db)).Done? ==> ok.Done? && countdown >= old(countdown) - 16
    {
      if db.table.None? || !(STRUCTURED <= db.table.value.columns) { return Raised; }
      var i := |STRUCTURED_COLUMNS|;
      assert STRUCTURED_COLUMNS[..i] == STRUCTURED_COLUMNS;
      while i > 0
        invariant countdown == old(countdown) - (|STRUCTURED_COLUMNS| - i)
        invariant 0 <= i <= |STRUCTURED_COLUMNS| && db.table.Some? && db == old(db).(table := db.table)
        invariant DropColumns(old(db).table.value, STRUCTURED_COLUMNS) == DropColumns(db.table.value, STRUCTURED_COLUMNS[..i])
      {
        assert STRUCTURED_COLUMNS[..i][..i - 1] == STRUCTURED_COLUMNS[..i - 1];
        i := i - 1;
        var _ :- Statement(db.(table := Some(DropColumn(db.table.value, STRUCTURED_COLUMNS[i]))));
      }
      return Done(());
    }

    method RunMigration(up: bool, k: nat) returns (ok: Attempt<()>)
      requires k < 2
      modifies this
      ensures ok.Done? ==> Done(db) == Revised(old(db), up, k)
      ensures old(countdown) >= 16 && Revised(old(db), up, k).Done? ==> ok.Done? && countdown >= old(countdown) - 16
    {
      if k == 1 {
        if up { ok := RunUpgrade2(); } else { ok := RunDowngrade2(); }
      } else if up {
        if db.table.Some? { return Raised; }
        ok := Statement(db.(table := Some(NEW_TABLE)));
      } else {
        ok := Statement(db.(table := None));
      }
    }

    /** The body of the transaction: the loops over the missing or surplus migrations. */
    method Transaction(target: Target) returns (ok: Attempt<()>)
      modifies this
      ensures ok.Done? ==> Migrate(old(db), target) == Done(db)
      ensures old(countdown) >= ENOUGH && Migrate(old(db), target).Done? ==> ok.Done?
    {
      var _ :- Statement(db.(revisions := Some(Recorded(db))));
      var stamped :- Stamp(db);
      var _ :- Statement(stamped);
      var applied :- Applied(db);
      var desired :- TargetCount(target);
      var k := applied;
      while k < desired
        invariant old(countdown) >= ENOUGH ==> countdown >= 17 * (2 - (k - applied))
        invariant applied <= k && (applied <= desired ==> k <= desired <= 2 && Up(stamped, applied, desired) == Up(db, k, desired))
        invariant applied > desired ==> k == applied && db == stamped
      {
        var _ :- RunMigration(true, k);
        var _ :- Statement(Record(db, MIGRATIONS[k]));
        k := k + 1;
      }
      while k > desired
        invariant old(countdown) >= ENOUGH ==> k == desired || countdown >= 17 * (2 - (applied - k))
        invariant desired <= k <= 2 && (applied >= desired ==> Down(stamped, applied, desired) == Down(db, k, desired))
        invariant applied <= desired ==> k == desired && Up(stamped, applied, desired) == Done(db)
      {
        k := k - 1;
        var _ :- RunMigration(false, k);
        var _ :- Statement(Unrecord(db, MIGRATIONS[k]));
      }
      return Done(());
    }
  }

  class Engine {
    var db: Db

    /** Either the specified migration, or an exception with the database as it was; raising for no reason is excluded. */
    method MigrateDatabase(target: Target, countdown: nat) returns (ok: Attempt<nat>)
      modifies this
      ensures ok.Done? ==> Migrate(old(db), target) == Done(db) && Applied(db) == ok
      ensures ok.Raised? ==> db == old(db)
      ensures Managed(old(db)) && countdown >= ENOUGH ==> (ok.Done? <==> Wanted(target).Some?)
    {
      if Managed(db) {
        MigrateReachesTarget(db, target);
      }
      var connection := new Connection(db, countdown);
      var _ :- connection.Transaction(target);
      var applied :- Applied(connection.db);
      db := connection.db; // commit
      return Done(applied);
    }
  }

  // ----- what every sequence of calls keeps

  ghost predicate Matches(db: Db, count: nat) {
    && count <= 2
    && Applied(db) == Done(count)
    && Recorded(db) == (if count == 0 then {} else if count == 1 then {Legacy0001} else {Legacy0001, Structured0002})
    && (db.table.Some? <==> count > 0)
    && (count > 0 ==> db.table.value.WellFormed() && LEGACY <= db.table.value.columns)
    && (count == 1 ==> db.table.value.columns !! STRUCTURED)
    && (count == 2 ==> STRUCTURED <= db.table.value.columns && (db.postgres ==> NOT_NULL <= db.table.value.required))
  }

  /** A database from before versioning: no revision, and no table or the legacy one. */
  ghost predicate Unversioned(db: Db) {
    && Recorded(db) == {}
    && (db.table.Some? ==>
          && db.table.value.WellFormed()
          && LEGACY <= db.table.value.columns
          && db.table.value.columns !! STRUCTURED)
  }

  ghost predicate Managed(db: Db) {
    Unversioned(db) || exists count :: Matches(db, count)
  }

  /** Rows as revision 0001 shows them. */
  function LegacyRows(t: Table): map<nat, Row> { Without(t.rows, STRUCTURED) }

  function Without(rows: map<nat, Row>, hidden: set<Column>): map<nat, Row> { map id | id in rows :: rows[id] - hidden }

  /** Writing or dropping a cell does not show in a view that hides it. */
  lemma HiddenCell(r: Row, c: Column, v: Value, hidden: set<Column>)
    requires c in hidden
    ensures r[c := v] - hidden == r - hidden && r - {c} - hidden == r - hidden
  {
  }

  lemma AddedColumn(t: Table, c: Column, hidden: set<Column>)
    requires t.WellFormed() && c in hidden && c !in t.required
    ensures AddColumn(t, c).WellFormed() && Without(AddColumn(t, c).rows, hidden) == Without(t.rows, hidden)
  {
    forall id | id in t.rows ensures t.rows[id][c := Null] - hidden == t.rows[id] - hidden {
      HiddenCell(t.rows[id], c, Null, hidden);
    }
  }

  lemma DroppedColumn(t: Table, c: Column, hidden: set<Column>)
    requires t.WellFormed() && c in hidden
    ensures DropColumn(t, c).WellFormed() && Without(DropColumn(t, c).rows, hidden) == Without(t.rows, hidden)
  {
    forall id | id in t.rows ensures t.rows[id] - {c} - hidden == t.rows[id] - hidden {
      HiddenCell(t.rows[id], c, Null, hidden);
    }
  }

  lemma {:induction false} AddedColumns(t: Table, cs: seq<Column>)
    requires t.WellFormed() && t.required !! STRUCTURED && forall c :: c in cs ==> c in STRUCTURED
    ensures AddColumns(t, cs).required == t.required
    ensures AddColumns(t, cs).WellFormed() && LegacyRows(AddColumns(t, cs)) == LegacyRows(t)
    ensures AddColumns(t, cs).columns == t.columns + (set c | c in cs)
  {
    if cs != [] {
      var rest, last := cs[..|cs| - 1], cs[|cs| - 1];
      AddedColumns(t, rest);
      AddedColumn(AddColumns(t, rest), last, STRUCTURED);
      assert cs == rest + [last];
    }
  }

  lemma {:induction false} DroppedColumns(t: Table, cs: seq<Column>)
    requires t.WellFormed() && forall c :: c in cs ==> c in STRUCTURED
    ensures DropColumns(t, cs).WellFormed() && LegacyRows(DropColumns(t, cs)) == LegacyRows(t)
    ensures DropColumns(t, cs).columns == t.columns - (set c | c in cs)
    ensures DropColumns(t, cs).required == t.required - (set c | c in cs)
    decreases |cs|
  {
    if cs != [] {
      var rest, last := cs[..|cs| - 1], cs[|cs| - 1];
      DroppedColumn(t, last, STRUCTURED);
      DroppedColumns(DropColumn(t, last), rest);
      assert cs == rest + [last];
    }
  }

  lemma StructuredColumns()
    ensures (set c | c in STRUCTURED_COLUMNS) == STRUCTURED
    ensures forall c :: c in STRUCTURED_COLUMNS <==> c in STRUCTURED
  {
    var cs := STRUCTURED_COLUMNS;
    assert cs[0] in cs && cs[1] in cs && cs[2] in cs && cs[3] in cs && cs[4] in cs && cs[5] in cs && cs[6] in cs
        && cs[7] in cs && cs[8] in cs;
  }

  lemma BackfillCells(r: Row)
    requires STRUCTURED <= r.Keys
    ensures Backfill(r).Keys == r.Keys && Backfill(r) - STRUCTURED == r - STRUCTURED
  {
  }

  lemma BackfillFills(r: Row, required: set<Column>)
    requires Filled(r, required) && required !! STRUCTURED
    ensures Filled(Backfill(r), required + NOT_NULL)
  {
  }

  lemma Backfilled(t: Table)
    requires t.WellFormed() && STRUCTURED <= t.columns && t.required !! STRUCTURED
    ensures BackfillAll(t).WellFormed() && LegacyRows(BackfillAll(t)) == LegacyRows(t)
  {
    forall id | id in t.rows
      ensures Backfill(t.rows[id]).Keys == t.columns && Backfill(t.rows[id]) - STRUCTURED == t.rows[id] - STRUCTURED
      ensures Filled(Backfill(t.rows[id]), t.required)
    {
      BackfillCells(t.rows[id]);
      BackfillFills(t.rows[id], t.required);
    }
  }

  /** The constraints hold of every backfilled row. */
  lemma Constrained(t: Table, postgres: bool)
    requires t.WellFormed() && STRUCTURED <= t.columns && t.required !! STRUCTURED
    ensures Constrain(BackfillAll(t), postgres).WellFormed()
    ensures Constrain(BackfillAll(t), postgres).required == t.required + (if postgres then NOT_NULL else {})
  {
    Backfilled(t);
    forall id | id in t.rows ensures Filled(BackfillAll(t).rows[id], t.required + NOT_NULL) {
      BackfillFills(t.rows[id], t.required);
    }
  }

  /** A table without structured columns is its own legacy view. */
  lemma LegacyTable(t: Table)
    requires t.WellFormed() && t.columns !! STRUCTURED
    ensures LegacyRows(t) == t.rows
  {
    forall id | id in t.rows ensures t.rows[id] - STRUCTURED == t.rows[id] {
      assert t.rows[id].Keys == t.columns;
    }
  }

  lemma UpgradeKeepsLegacy(db: Db)
    requires db.table.Some? && db.table.value.WellFormed() && db.table.value.columns !! STRUCTURED
    ensures Upgrade2(db).Done? && Upgrade2(db).value.revisions == db.revisions
    ensures var t := Upgrade2(db).value.table.value;
            && t.WellFormed() && t.columns == db.table.value.columns + STRUCTURED && LegacyRows(t) == db.table.value.rows
            && t.required == db.table.value.required + (if db.postgres then NOT_NULL else {})
  {
    var t := db.table.value;
    StructuredColumns();
    AddedColumns(t, STRUCTURED_COLUMNS);
    Backfilled(AddColumns(t, STRUCTURED_COLUMNS));
    Constrained(AddColumns(t, STRUCTURED_COLUMNS), db.postgres);
    LegacyTable(t);
  }

  lemma DowngradeKeepsLegacy(db: Db)
    requires db.table.Some? && db.table.value.WellFormed() && STRUCTURED <= db.table.value.columns
    ensures Downgrade2(db).Done? && Downgrade2(db).value.revisions == db.revisions
    ensures var t := Downgrade2(db).value.table.value;
            && t.WellFormed() && t.columns == db.table.value.columns - STRUCTURED && t.rows == LegacyRows(db.table.value)
            && t.required == db.table.value.required - STRUCTURED
  {
    var t := db.table.value;
    StructuredColumns();
    DroppedColumns(t, STRUCTURED_COLUMNS);
    LegacyTable(DropColumns(t, STRUCTURED_COLUMNS));
  }

  // ----- what every call keeps, and when it succeeds

  /** How many revisions a known target asks for. */
  function Wanted(target: Target): Option<nat> {
    match target
    case Base => Some(0)
    case At(Legacy0001) => Some(1)
    case At(Structured0002) | Head => Some(2)
    case At(Unknown(_)) => None
  }

  function CountOf(target: Target): nat { match Wanted(target) case Some(n) => n case None => 0 }

  /** The accepted records are the prefixes of the migration list. */
  lemma AppliedMeans(db: Db)
    ensures Applied(db) == Done(1) <==> Recorded(db) == {Legacy0001}
    ensures Applied(db) == Done(2) <==> Recorded(db) == {Legacy0001, Structured0002}
  {
    assert Legacy0001 in {Legacy0001} && Structured0002 !in {Legacy0001};
    assert Structured0002 in {Legacy0001, Structured0002};
  }

  /** The revisions and the table a call leaves, from `count` applied revisions to `to`. */
  lemma UpMatches(db: Db, count: nat, to: nat)
    requires Matches(db, count) && count <= to <= 2
    ensures Up(db, count, to).Done? && Matches(Up(db, count, to).value, to)
    ensures count > 0 ==> LegacyRows(Up(db, count, to).value.table.value) == LegacyRows(db.table.value)
    ensures count > 0 ==> Up(db, count, to).value.table.value.columns - STRUCTURED == db.table.value.columns - STRUCTURED
    ensures count > 0 ==> Up(db, count, to).value.table.value.required - STRUCTURED == db.table.value.required - STRUCTURED
    decreases 2 - count as int
  {
    if count < to {
      if count == 0 {
        var next := Record(Upgrade1(db).value, Legacy0001);
        assert Matches(next, 1);
        UpMatches(next, 1, to);
      } else {
        UpgradeKeepsLegacy(db);
        LegacyTable(db.table.value);
        var next := Record(Upgrade2(db).value, Structured0002);
        assert LEGACY <= db.table.value.columns <= next.table.value.columns;
        AppliedMeans(db);
        AppliedMeans(next);
        assert Matches(next, 2);
      }
    }
  }

  lemma DownMatches(db: Db, count: nat, to: nat)
    requires Matches(db, count) && to <= count <= 2
    ensures Down(db, count, to).Done? && Matches(Down(db, count, to).value, to)
    ensures to > 0 ==> LegacyRows(Down(db, count, to).value.table.value) == LegacyRows(db.table.value)
    ensures to > 0 ==> Down(db, count, to).value.table.value.columns - STRUCTURED == db.table.value.columns - STRUCTURED
    ensures to > 0 ==> Down(db, count, to).value.table.value.required - STRUCTURED == db.table.value.required - STRUCTURED
    decreases count
  {
    if to < count {
      if count == 2 {
        DowngradeKeepsLegacy(db);
        var next := Unrecord(Downgrade2(db).value, Structured0002);
        LegacyTable(next.table.value);
        AppliedMeans(db);
        AppliedMeans(next);
        assert Recorded(next) == {Legacy0001};
        assert Matches(next, 1);
        DownMatches(next, 1, to);
      } else {
        assert Matches(Unrecord(Downgrade1(db).value, Legacy0001), 0);
      }
    }
  }

  /** How many revisions a managed database counts as: an unversioned legacy table counts as one. */
  function Level(db: Db): nat {
    match Applied(db)
    case Done(0) => if db.table.Some? then 1 else 0
    case Done(n) => n
    case Raised => 0
  }

  lemma Stamped(db: Db)
    requires Managed(db)
    ensures Stamp(db.(revisions := Some(Recorded(db)))).Done?
    ensures var s := Stamp(db.(revisions := Some(Recorded(db)))).value; Matches(s, Level(db)) && s.table == db.table
  {
  }

  /**
   * From any managed database, a call whose statements all work succeeds exactly when its target is
   * known; then the recorded revisions and the table's columns are those of the target, and unless
   * it went down to base every row keeps its legacy values.
   */
  lemma MigrateReachesTarget(db: Db, target: Target)
    requires Managed(db)
    ensures Migrate(db, target).Done? <==> Wanted(target).Some?
    ensures Migrate(db, target).Done? ==>
              && Matches(Migrate(db, target).value, CountOf(target)) && Managed(Migrate(db, target).value)
              && (db.table.Some? && CountOf(target) > 0 ==>
                    && LegacyRows(Migrate(db, target).value.table.value) == LegacyRows(db.table.value)
                    && Migrate(db, target).value.table.value.columns - STRUCTURED == db.table.value.columns - STRUCTURED
                    && Migrate(db, target).value.table.value.required - STRUCTURED == db.table.value.required - STRUCTURED)
  {
    Stamped(db);
    var s := Stamp(db.(revisions := Some(Recorded(db)))).value;
    if TargetCount(target).Done? {
      if Level(db) <= CountOf(target) {
        UpMatches(s, Level(db), CountOf(target));
      } else {
        DownMatches(s, Level(db), CountOf(target));
      }
    }
  }

  /** One call as the engine runs it: the specified migration, or nothing when a statement failed. */
  ghost predicate Called(db: Db, target: Target, db': Db) {
    db' == db || Migrate(db, target) == Done(db')
  }

  ghost predicate Calls(dbs: seq<Db>, targets: seq<Target>) {
    && |dbs| == |targets| + 1
    && forall i :: 0 <= i < |targets| ==> Called(dbs[i], targets[i], dbs[i + 1])
  }

  /** Any sequence of calls, with any failures, keeps the database managed; without base it keeps every legacy value. */
  lemma {:induction false} EverySequenceStaysManaged(dbs: seq<Db>, targets: seq<Target>, n: nat)
    requires Calls(dbs, targets) && n < |dbs| && Managed(dbs[0])
    ensures Managed(dbs[n])
    ensures dbs[0].table.Some? && Base !in targets ==>
              dbs[n].table.Some? && LegacyRows(dbs[n].table.value) == LegacyRows(dbs[0].table.value)
  {
    if n > 0 {
      EverySequenceStaysManaged(dbs, targets, n - 1);
      assert Called(dbs[n - 1], targets[n - 1], dbs[n - 1 + 1]);
      MigrateReachesTarget(dbs[n - 1], targets[n - 1]);
    }
  }

  /** Up to the structured revision and down again: the same columns and the same rows. */
  lemma UpThenDownRestores(db: Db)
    requires Managed(db) && Level(db) == 1
    ensures Migrate(db, Head).Done? && Migrate(Migrate(db, Head).value, At(Legacy0001)).Done?
    ensures Migrate(Migrate(db, Head).value, At(Legacy0001)).value.table == db.table
  {
    MigrateReachesTarget(db, Head);
    var up := Migrate(db, Head).value;
    MigrateReachesTarget(up, At(Legacy0001));
    var down := Migrate(up, At(Legacy0001)).value;
    LegacyTable(db.table.value);
    LegacyTable(down.table.value);
    assert db.table.value.columns == db.table.value.columns - STRUCTURED;
    assert down.table.value.columns == down.table.value.columns - STRUCTURED;
    assert db.table.value.required == db.table.value.required - STRUCTURED;
    assert down.table.value.required == down.table.value.required - STRUCTURED;
  }

  /** Migrating to the same target again changes nothing. */
  lemma MigrateIsIdempotent(db: Db, target: Target)
    requires Managed(db) && Migrate(db, target).Done?
    ensures Migrate(Migrate(db, target).value, target) == Migrate(db, target)
  {
    MigrateReachesTarget(db, target);
    var once := Migrate(db, target).value;
    RevisionTableExists(db, target);
    assert Some(Recorded(once)) == once.revisions;
    assert Stamp(once) == Done(once);
    assert Applied(once) == TargetCount(target);
  }

  lemma RevisionTableExists(db: Db, target: Target)
    requires Managed(db) && Migrate(db, target).Done?
    ensures Migrate(db, target).value.revisions.Some?
  {
    Stamped(db);
    var s := Stamp(db.(revisions := Some(Recorded(db)))).value;
    if Level(db) <= CountOf(target) {
      UpMatches(s, Level(db), CountOf(target));
      UpRecords(s, Level(db), CountOf(target));
    } else {
      DownMatches(s, Level(db), CountOf(target));
      DownRecords(s, Level(db), CountOf(target));
    }
  }

  lemma UpRecords(db: Db, from: nat, to: nat)
    requires from <= to <= 2 && db.revisions.Some? && Up(db, from, to).Done?
    ensures Up(db, from, to).value.revisions.Some?
    decreases 2 - from as int
  {
    if from < to {
      var next := if from == 0 then Upgrade1(db) else Upgrade2(db);
      UpRecords(Record(next.value, MIGRATIONS[from]), from + 1, to);
    }
  }

  lemma DownRecords(db: Db, from: nat, to: nat)
    requires to <= from <= 2 && db.revisions.Some? && Down(db, from, to).Done?
    ensures Down(db, from, to).value.revisions.Some?
    decreases from
  {
    if to < from {
      var next := if from == 1 then Downgrade1(db) else Downgrade2(db);
      DownRecords(Unrecord(next.value, MIGRATIONS[from - 1]), from - 1, to);
    }
  }

  /** The judge cell holds this code, as text or as a number. */
  predicate HasCode(judge: Value, text: string, number: int) { judge == Text(text) || judge == Number(number) }

  /** One backfilled row: the verdict from the judge code, stdout from the output, and nothing guessed. */
  ghost predicate BackfilledFrom(now: Row, was: Row)
    requires Output in was && JudgeCode in was
  {
    && STRUCTURED <= now.Keys
    && now[ExecutionStatus] == Text("legacy_unknown")
    && now[Stdout] == (if was[Output] == Null then Text("") else was[Output])
    && now[Stderr] == Text("")
    && now[TimedOut] == Flag(false) && now[Truncated] == Flag(false)
    && now[ExitCode] == Null && now[DurationMs] == Null && now[JudgeReason] == Null
    && (now[Verdict] == Text("accepted") <==> HasCode(was[JudgeCode], "1", 1))
    && (now[Verdict] == Text("wrong_image") <==> HasCode(was[JudgeCode], "2", 2))
    && (now[Verdict] == Text("wrong_answer") <==> HasCode(was[JudgeCode], "3", 3))
    && (now[Verdict] == Text("legacy_failure") <==> HasCode(was[JudgeCode], "4", 4))
    && (now[Verdict] == Text("legacy_unknown") <==>
          was[JudgeCode] !in {Text("1"), Text("2"), Text("3"), Text("4"), Number(1), Number(2), Number(3), Number(4)})
  }

  /** Only the number itself prints as a single digit. */
  lemma PrintsDigit(n: int, code: nat)
    requires code <= 9
    ensures Json.PrintInt(n) == [('0' as int + code) as char] <==> n == code
  {
    if n < 0 {
      assert Json.PrintInt(n)[0] == '-';
    } else if n >= 10 {
      assert |Json.Decimal(n / 10)| >= 1;
      assert |Json.PrintInt(n)| >= 2;
    } else {
      assert Json.PrintInt(n) == [('0' as int + n) as char];
      assert Json.PrintInt(n)[0] as int == '0' as int + n;
    }
  }

  lemma VerdictOfCode(judge: Value)
    ensures LegacyVerdict(judge) == "accepted" <==> HasCode(judge, "1", 1)
    ensures LegacyVerdict(judge) == "wrong_image" <==> HasCode(judge, "2", 2)
    ensures LegacyVerdict(judge) == "wrong_answer" <==> HasCode(judge, "3", 3)
    ensures LegacyVerdict(judge) == "legacy_failure" <==> HasCode(judge, "4", 4)
    ensures LegacyVerdict(judge) in {"accepted", "wrong_image", "wrong_answer", "legacy_failure", "legacy_unknown"}
  {
    if judge.Number? {
      PrintsDigit(judge.n, 1);
      PrintsDigit(judge.n, 2);
      PrintsDigit(judge.n, 3);
      PrintsDigit(judge.n, 4);
    }
  }

  lemma BackfilledRow(r: Row, was: Row)
    requires Output in was && JudgeCode in was && Cell(r, Output) == was[Output] && Cell(r, JudgeCode) == was[JudgeCode]
    requires STRUCTURED <= r.Keys && r[ExitCode] == r[DurationMs] == r[JudgeReason] == Null
    ensures BackfilledFrom(Backfill(r), was)
  {
    VerdictOfCode(was[JudgeCode]);
  }

  /** A cell of an added column is NULL. */
  lemma {:induction false} AddedCell(t: Table, cs: seq<Column>, id: nat, c: Column)
    requires id in t.rows && c in cs
    ensures id in AddColumns(t, cs).rows && c in AddColumns(t, cs).rows[id] && AddColumns(t, cs).rows[id][c] == Null
  {
    var rest, last := cs[..|cs| - 1], cs[|cs| - 1];
    assert cs == rest + [last];
    if c == last {
      RowStays(t, rest, id);
    } else {
      AddedCell(t, rest, id, c);
    }
  }

  lemma {:induction false} RowStays(t: Table, cs: seq<Column>, id: nat)
    requires id in t.rows
    ensures id in AddColumns(t, cs).rows
  {
    if cs != [] { RowStays(t, cs[..|cs| - 1], id); }
  }

  lemma AddedCells(t: Table, id: nat)
    requires id in t.rows
    ensures var a := AddColumns(t, STRUCTURED_COLUMNS);
            id in a.rows && forall c :: c in STRUCTURED ==> c in a.rows[id] && a.rows[id][c] == Null
  {
    StructuredColumns();
    RowStays(t, STRUCTURED_COLUMNS, id);
    forall c | c in STRUCTURED
      ensures c in AddColumns(t, STRUCTURED_COLUMNS).rows[id] && AddColumns(t, STRUCTURED_COLUMNS).rows[id][c] == Null
    {
      AddedCell(t, STRUCTURED_COLUMNS, id, c);
    }
  }

  /** Cells outside the structured columns agree when the legacy views do. */
  lemma LegacyCell(t: Table, u: Table, id: nat, c: Column)
    requires LegacyRows(t) == LegacyRows(u) && id in t.rows && c in t.rows[id] && c !in STRUCTURED
    ensures id in u.rows && c in u.rows[id] && u.rows[id][c] == t.rows[id][c]
  {
    assert id in LegacyRows(t) && id in LegacyRows(u);
    assert LegacyRows(t)[id] == t.rows[id] - STRUCTURED && LegacyRows(u)[id] == u.rows[id] - STRUCTURED;
    assert c in LegacyRows(t)[id] && c in LegacyRows(u)[id];
  }

  /** What the upgrade makes of one legacy row, said of the table itself. */
  lemma UpgradedRow(t: Table, id: nat)
    requires t.WellFormed() && Output in t.columns && JudgeCode in t.columns && id in t.rows && t.columns !! STRUCTURED
    ensures var a := BackfillAll(AddColumns(t, STRUCTURED_COLUMNS));
            id in a.rows && BackfilledFrom(a.rows[id], t.rows[id])
  {
    var a := AddColumns(t, STRUCTURED_COLUMNS);
    assert LegacyRows(a) == LegacyRows(t) by {
      StructuredColumns();
      AddedColumns(t, STRUCTURED_COLUMNS);
    }
    LegacyCell(t, a, id, Output);
    LegacyCell(t, a, id, JudgeCode);
    AddedCells(t, id);
    BackfilledRow(a.rows[id], t.rows[id]);
  }

  /** What a legacy row shows in its new columns. */
  lemma BackfillMeaning(db: Db, id: nat)
    requires Managed(db) && Level(db) == 1 && id in db.table.value.rows
    ensures Migrate(db, Head).Done? && id in Migrate(db, Head).value.table.value.rows
    ensures BackfilledFrom(Migrate(db, Head).value.table.value.rows[id], db.table.value.rows[id])
  {
    MigrateReachesTarget(db, Head);
    Stamped(db);
    var s := Stamp(db.(revisions := Some(Recorded(db)))).value;
    var next := Record(Upgrade2(s).value, Structured0002);
    assert Migrate(db, Head) == Up(s, 1, 2);
    assert Up(s, 1, 2) == Up(next, 2, 2);
    UpgradedRow(s.table.value, id);
  }
}
