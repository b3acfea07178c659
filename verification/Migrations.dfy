/** The startup migration: every file, in order, at every start. */
module Migrations {
  import opened Wrappers
  import FileOrder

  // ---- schema objects ---------------------------------------------------------

  datatype TableName = Applications | ContactMessages | NewsletterSubscribers

  datatype ColumnName =
    | Id | NameEnc | PhoneEnc | EmailEnc | DobEnc | AddressEnc | EducationEnc | PhotoUrl
    | Division | District | PhoneBidx | PhoneDobBidx | Batch | RollNo | AdmissionConfirmed | Status
    | CreatedAt | UpdatedAt | GpaEnc | PhotoEnc | Gender | PassingYear | ComputerSkill | OwnComputer
    | CanAttend | VerifyCode | Subject | MessageEnc | EmailBidx

  datatype IndexName =
    | UxPhoneBidx | IxPhoneDobBidx | IxCreatedAt | UxRollNo | IxContactCreatedAt | UxEmailBidx | UxVerifyCode

  datatype Value = Null | Text(text: string)

  /** A column with the constant that ADD COLUMN gives to existing rows; generated
      defaults only matter to later inserts. */
  datatype Column = Column(name: ColumnName, notNull: bool, default: Option<Value>)

  type Row = map<ColumnName, Value>

  datatype Table = Table(columns: seq<Column>, rows: seq<Row>)

  datatype Rule = Plain | Unique | UniqueWhereNotNull | UniqueWhereNotEmpty

  datatype Index = Index(table: TableName, column: ColumnName, rule: Rule)

  datatype Database = Database(pgcrypto: bool, tables: map<TableName, Table>, indexes: map<IndexName, Index>)

  const EMPTY := Database(false, map[], map[])

  // ---- statements -------------------------------------------------------------

  datatype Statement =
    | CreateExtension
    | CreateTable(table: TableName, columns: seq<Column>)
    | AddColumns(table: TableName, columns: seq<Column>)
    | CreateIndex(name: IndexName, index: Index)

  datatype DdlError = UndefinedTable | UndefinedColumn | NotNullViolation | UniqueViolation

  predicate HasColumn(t: Table, c: ColumnName) {
    exists k :: 0 <= k < |t.columns| && t.columns[k].name == c
  }

  /** A new cell of an existing row. */
  function Fill(c: Column): Value {
    match c.default case None => Null case Some(v) => v
  }

  function AddColumn(t: Table, c: Column): Result<Table, DdlError> {
    if HasColumn(t, c.name) then Ok(t)
    else if c.notNull && Fill(c) == Null && t.rows != [] then Err(NotNullViolation)
    else Ok(Table(t.columns + [c],
                  seq(|t.rows|, i requires 0 <= i < |t.rows| => t.rows[i][c.name := Fill(c)])))
  }

  function AddAll(t: Table, cs: seq<Column>): Result<Table, DdlError> {
    if cs == [] then Ok(t)
    else
      var u :- AddAll(t, cs[..|cs| - 1]);
      AddColumn(u, cs[|cs| - 1])
  }

  function Cell(row: Row, c: ColumnName): Value {
    if c in row then row[c] else Null
  }

  /** The row is in the unique index; NULLs never conflict. */
  predicate Covered(rule: Rule, v: Value) {
    v != Null && !rule.Plain? && (rule.UniqueWhereNotEmpty? ==> v != Text(""))
  }

  predicate Violates(t: Table, c: ColumnName, rule: Rule) {
    exists i, j :: 0 <= i < j < |t.rows| && Cell(t.rows[i], c) == Cell(t.rows[j], c) && Covered(rule, Cell(t.rows[i], c))
  }

  /** Each statement leaves alone what is already there. */
  function Execute(db: Database, st: Statement): Result<Database, DdlError> {
    match st
    case CreateExtension => Ok(db.(pgcrypto := true))
    case CreateTable(name, columns) =>
      if name in db.tables then Ok(db) else Ok(db.(tables := db.tables[name := Table(columns, [])]))
    case AddColumns(name, columns) =>
      if name !in db.tables then Err(UndefinedTable)
      else
        var t :- AddAll(db.tables[name], columns);
        Ok(db.(tables := db.tables[name := t]))
    case CreateIndex(name, ix) =>
      if name in db.indexes then Ok(db)
      else if ix.table !in db.tables then Err(UndefinedTable)
      else if !HasColumn(db.tables[ix.table], ix.column) then Err(UndefinedColumn)
      else if Violates(db.tables[ix.table], ix.column, ix.rule) then Err(UniqueViolation)
      else Ok(db.(indexes := db.indexes[name := ix]))
  }

  /** Statements one after another, up to the first failure. */
  function ExecuteAll(db: Database, sts: seq<Statement>): Result<Database, DdlError> {
    if sts == [] then Ok(db)
    else
      var mid :- ExecuteAll(db, sts[..|sts| - 1]);
      Execute(mid, sts[|sts| - 1])
  }

  lemma {:induction false} ExecuteConcat(db: Database, a: seq<Statement>, b: seq<Statement>)
    ensures ExecuteAll(db, a + b) ==
            match ExecuteAll(db, a)
            case Ok(mid) => ExecuteAll(mid, b)
            case Err(e) => Err(e)
  {
    hide Execute;
    if b == [] {
      assert a + b == a;
    } else {
      var k := |b| - 1;
      ExecuteConcat(db, a, b[..k]);
      assert (a + b)[..|a + b| - 1] == a + b[..k] && (a + b)[|a + b| - 1] == b[k];
    }
  }

  // ---- running a statement again ----------------------------------------------

  /** Everything that the statement would add is there. */
  predicate Present(db: Database, st: Statement) {
    match st
    case CreateExtension => db.pgcrypto
    case CreateTable(name, _) => name in db.tables
    case AddColumns(name, columns) =>
      name in db.tables && forall k :: 0 <= k < |columns| ==> HasColumn(db.tables[name], columns[k].name)
    case CreateIndex(name, _) => name in db.indexes
  }

  lemma {:induction false} AddAllKeeps(t: Table, cs: seq<Column>)
    requires AddAll(t, cs).Ok?
    ensures var u := AddAll(t, cs).value;
            && (forall c :: HasColumn(t, c) ==> HasColumn(u, c))
            && (forall k :: 0 <= k < |cs| ==> HasColumn(u, cs[k].name))
  {
    if cs == [] {
    } else {
      var k := |cs| - 1;
      AddAllKeeps(t, cs[..k]);
      AddColumnKeeps(AddAll(t, cs[..k]).value, cs[k]);
      assert forall j :: 0 <= j < k ==> cs[..k][j] == cs[j];
    }
  }

  lemma AddColumnKeeps(t: Table, c: Column)
    requires AddColumn(t, c).Ok?
    ensures var u := AddColumn(t, c).value;
            HasColumn(u, c.name) && forall d :: HasColumn(t, d) ==> HasColumn(u, d)
  {
    var u := AddColumn(t, c).value;
    if !HasColumn(t, c.name) {
      assert u.columns[|t.columns|] == c;
      forall d | HasColumn(t, d)
        ensures HasColumn(u, d)
      {
        var k :| 0 <= k < |t.columns| && t.columns[k].name == d;
        assert u.columns[k].name == d;
      }
    }
  }

  lemma {:induction false} AddAllPresent(t: Table, cs: seq<Column>)
    requires forall k :: 0 <= k < |cs| ==> HasColumn(t, cs[k].name)
    ensures AddAll(t, cs) == Ok(t)
  {
    if cs == [] {
    } else {
      AddAllPresent(t, cs[..|cs| - 1]);
    }
  }

  /** A statement whose objects are there does nothing and cannot fail. */
  lemma PresentIsNoop(db: Database, st: Statement)
    requires Present(db, st)
    ensures Execute(db, st) == Ok(db)
  {
    if st.AddColumns? {
      AddAllPresent(db.tables[st.table], st.columns);
      assert db.tables[st.table := db.tables[st.table]] == db.tables;
    }
  }

  lemma ExecuteMakesPresent(db: Database, st: Statement)
    requires Execute(db, st).Ok?
    ensures Present(Execute(db, st).value, st)
  {
    if st.AddColumns? {
      AddAllKeeps(db.tables[st.table], st.columns);
    }
  }

  lemma ExecuteKeepsPresent(db: Database, other: Statement, st: Statement)
    requires Execute(db, other).Ok? && Present(db, st)
    ensures Present(Execute(db, other).value, st)
  {
    if other.AddColumns? {
      AddAllKeeps(db.tables[other.table], other.columns);
    }
  }

  lemma {:induction false} AllPresent(db: Database, sts: seq<Statement>)
    requires ExecuteAll(db, sts).Ok?
    ensures forall k :: 0 <= k < |sts| ==> Present(ExecuteAll(db, sts).value, sts[k])
  {
    hide Execute, Present;
    if sts == [] {
    } else {
      var n := |sts| - 1;
      var mid := ExecuteAll(db, sts[..n]).value;
      AllPresent(db, sts[..n]);
      ExecuteMakesPresent(mid, sts[n]);
      forall k | 0 <= k < n
        ensures Present(ExecuteAll(db, sts).value, sts[k])
      {
        assert sts[..n][k] == sts[k];
        ExecuteKeepsPresent(mid, sts[n], sts[k]);
      }
    }
  }

  lemma {:induction false} AllPresentIsNoop(db: Database, sts: seq<Statement>)
    requires forall k :: 0 <= k < |sts| ==> Present(db, sts[k])
    ensures ExecuteAll(db, sts) == Ok(db)
  {
    hide Execute, Present;
    if sts == [] {
    } else {
      AllPresentIsNoop(db, sts[..|sts| - 1]);
      PresentIsNoop(db, sts[|sts| - 1]);
    }
  }

  /** A completed migration can be repeated at will. */
  lemma SecondRunIsNoop(db: Database, sts: seq<Statement>)
    requires ExecuteAll(db, sts).Ok?
    ensures ExecuteAll(ExecuteAll(db, sts).value, sts) == ExecuteAll(db, sts)
  {
    AllPresent(db, sts);
    AllPresentIsNoop(ExecuteAll(db, sts).value, sts);
  }

  /** A complete run after a run that stopped anywhere gives what an undisturbed run
      gives, success or failure. */
  lemma ResumeConverges(db: Database, sts: seq<Statement>, cut: nat)
    requires cut <= |sts| && ExecuteAll(db, sts[..cut]).Ok?
    ensures ExecuteAll(ExecuteAll(db, sts[..cut]).value, sts) == ExecuteAll(db, sts)
  {
    var done, rest := sts[..cut], sts[cut..];
    var mid := ExecuteAll(db, done).value;
    assert sts == done + rest;
    ExecuteConcat(db, done, rest);
    ExecuteConcat(mid, done, rest);
    SecondRunIsNoop(db, done);
  }

  /** Several starts, each stopped after some statements. */
  function Interrupted(db: Database, sts: seq<Statement>, cuts: seq<nat>): Result<Database, DdlError>
    requires forall k :: 0 <= k < |cuts| ==> cuts[k] <= |sts|
  {
    if cuts == [] then Ok(db)
    else
      var mid :- Interrupted(db, sts, cuts[..|cuts| - 1]);
      ExecuteAll(mid, sts[..cuts[|cuts| - 1]])
  }

  lemma ExecutePrefix(db: Database, sts: seq<Statement>, cut: nat)
    requires cut <= |sts| && ExecuteAll(db, sts).Ok?
    ensures ExecuteAll(db, sts[..cut]).Ok?
  {
    assert sts == sts[..cut] + sts[cut..];
    ExecuteConcat(db, sts[..cut], sts[cut..]);
  }

  /** Crash convergence: after any number of interrupted starts one complete start
      brings the database exactly where a single complete start would have. */
  lemma {:induction false} CrashConvergence(db: Database, sts: seq<Statement>, cuts: seq<nat>)
    requires forall k :: 0 <= k < |cuts| ==> cuts[k] <= |sts|
    requires ExecuteAll(db, sts).Ok?
    ensures Interrupted(db, sts, cuts).Ok?
    ensures ExecuteAll(Interrupted(db, sts, cuts).value, sts) == ExecuteAll(db, sts)
  {
    if cuts == [] {
    } else {
      var n := |cuts| - 1;
      CrashConvergence(db, sts, cuts[..n]);
      var mid := Interrupted(db, sts, cuts[..n]).value;
      ExecutePrefix(mid, sts, cuts[n]);
      ResumeConverges(mid, sts, cuts[n]);
    }
  }

  // ---- rows -------------------------------------------------------------------

  /** Every cell belongs to a column. */
  ghost predicate Shaped(db: Database) {
    forall n :: n in db.tables ==> TableShaped(db.tables[n])
  }

  ghost predicate TableShaped(t: Table) {
    forall i, c :: 0 <= i < |t.rows| && c in t.rows[i] ==> HasColumn(t, c)
  }

  /** The columns of `t` come first, and none of the others was there before. */
  ghost predicate Widened(t: Table, u: Table) {
    t.columns <= u.columns && forall k :: |t.columns| <= k < |u.columns| ==> !HasColumn(t, u.columns[k].name)
  }

  /** The old cells are untouched; every column that was added gave every row a cell
      with its default; and there are no other new cells. */
  ghost predicate RowsKept(t: Table, u: Table) {
    && |u.rows| == |t.rows|
    && (forall c :: HasColumn(t, c) ==> HasColumn(u, c))
    && (forall i, c :: 0 <= i < |t.rows| && c in t.rows[i] ==> c in u.rows[i] && u.rows[i][c] == t.rows[i][c])
    && (forall i, k :: 0 <= i < |t.rows| && 0 <= k < |u.columns| && !HasColumn(t, u.columns[k].name) ==>
          Filled(u.rows[i], u.columns[k]))
    && (forall i, c :: 0 <= i < |t.rows| && c in u.rows[i] && c !in t.rows[i] ==>
          HasColumn(u, c) && !HasColumn(t, c))
  }

  ghost predicate Filled(row: Row, c: Column) {
    c.name in row && row[c.name] == Fill(c)
  }

  ghost predicate Kept(db: Database, db': Database) {
    forall n :: n in db.tables ==> n in db'.tables && RowsKept(db.tables[n], db'.tables[n])
  }

  lemma RowsKeptTransitive(t: Table, u: Table, v: Table)
    requires RowsKept(t, u) && RowsKept(u, v) && Widened(t, u) && Widened(u, v)
    ensures RowsKept(t, v) && Widened(t, v)
  {
    forall k | |t.columns| <= k < |v.columns|
      ensures !HasColumn(t, v.columns[k].name)
    {
      if k < |u.columns| {
        assert v.columns[k] == u.columns[k];
      }
    }
    forall i, k | 0 <= i < |t.rows| && 0 <= k < |v.columns| && !HasColumn(t, v.columns[k].name)
      ensures Filled(v.rows[i], v.columns[k])
    {
      NewInBoth(t, u, v, i, k);
    }
  }

  /** A column is filled by the run that adds it and kept by the one after. */
  lemma NewInBoth(t: Table, u: Table, v: Table, i: nat, k: nat)
    requires RowsKept(t, u) && RowsKept(u, v) && Widened(t, u) && Widened(u, v)
    requires i < |t.rows| && k < |v.columns| && !HasColumn(t, v.columns[k].name)
    ensures Filled(v.rows[i], v.columns[k])
  {
    if k < |u.columns| {
      assert v.columns[k] == u.columns[k];
      assert Filled(u.rows[i], u.columns[k]);
    } else {
      assert !HasColumn(u, v.columns[k].name);
    }
  }

  lemma AddColumnRows(t: Table, c: Column)
    requires TableShaped(t) && AddColumn(t, c).Ok?
    ensures var u := AddColumn(t, c).value; TableShaped(u) && RowsKept(t, u) && Widened(t, u)
  {
    var u := AddColumn(t, c).value;
    AddColumnKeeps(t, c);
    if HasColumn(t, c.name) {
      SameRows(t);
    } else {
      assert u.columns[|t.columns|] == c;
      forall k | 0 <= k < |t.columns|
        ensures HasColumn(t, u.columns[k].name)
      {
        assert t.columns[k] == u.columns[k];
      }
    }
  }

  lemma {:induction false} AddAllRows(t: Table, cs: seq<Column>)
    requires TableShaped(t) && AddAll(t, cs).Ok?
    ensures var u := AddAll(t, cs).value; TableShaped(u) && RowsKept(t, u) && Widened(t, u)
  {
    hide AddColumn, RowsKept, TableShaped, Widened;
    if cs == [] {
      SameRows(t);
    } else {
      var k := |cs| - 1;
      var u := AddAll(t, cs[..k]).value;
      AddAllRows(t, cs[..k]);
      AddColumnRows(u, cs[k]);
      RowsKeptTransitive(t, u, AddAll(t, cs).value);
    }
  }

  lemma SameRows(t: Table)
    ensures RowsKept(t, t) && Widened(t, t)
  {
  }

  ghost predicate Columnwise(db: Database, db': Database) {
    forall n :: n in db.tables && n in db'.tables ==> Widened(db.tables[n], db'.tables[n])
  }

  lemma ExecuteRows(db: Database, st: Statement)
    requires Shaped(db) && Execute(db, st).Ok?
    ensures var db' := Execute(db, st).value; Shaped(db') && Kept(db, db') && Columnwise(db, db')
  {
    hide RowsKept, AddAll, Widened;
    forall n | n in db.tables {
      SameRows(db.tables[n]);
    }
    if st.AddColumns? {
      AddAllRows(db.tables[st.table], st.columns);
    }
  }

  /** No migration run, complete or not, alters or drops a stored cell, and every
      row gets the default of every column that was added. */
  lemma {:induction false} MigrationKeepsRows(db: Database, sts: seq<Statement>)
    requires Shaped(db) && ExecuteAll(db, sts).Ok?
    ensures var db' := ExecuteAll(db, sts).value; Shaped(db') && Kept(db, db') && Columnwise(db, db')
  {
    hide Execute, RowsKept, Shaped, Widened;
    if sts == [] {
      forall n | n in db.tables {
        SameRows(db.tables[n]);
      }
    } else {
      var k := |sts| - 1;
      var mid := ExecuteAll(db, sts[..k]).value;
      var end := ExecuteAll(db, sts).value;
      MigrationKeepsRows(db, sts[..k]);
      ExecuteRows(mid, sts[k]);
      forall n | n in db.tables
        ensures n in end.tables && RowsKept(db.tables[n], end.tables[n]) && Widened(db.tables[n], end.tables[n])
      {
        RowsKeptTransitive(db.tables[n], mid.tables[n], end.tables[n]);
      }
    }
  }

  // ---- files ------------------------------------------------------------------

  type Directory = map<string, seq<Statement>>

  function Flatten(dir: Directory, names: seq<string>): seq<Statement>
    requires forall n :: n in names ==> n in dir
  {
    if names == [] then []
    else
      assert forall n :: n in names[..|names| - 1] ==> n in names;
      Flatten(dir, names[..|names| - 1]) + dir[names[|names| - 1]]
  }

  lemma {:induction false} FlattenConcat(dir: Directory, a: seq<string>, b: seq<string>)
    requires forall n :: n in a + b ==> n in dir
    ensures forall n :: n in a || n in b ==> n in dir
    ensures Flatten(dir, a + b) == Flatten(dir, a) + Flatten(dir, b)
  {
    assert forall n :: n in a || n in b ==> n in a + b;
    if b == [] {
      assert a + b == a;
    } else {
      var k := |b| - 1;
      assert (a + b)[..|a + b| - 1] == a + b[..k] && (a + b)[|a + b| - 1] == b[k];
      FlattenConcat(dir, a, b[..k]);
    }
  }

  /** A start that stopped after some files, failed or crashed, leaves a database on
      which a complete start does what it would have done at first. */
  lemma RestartConverges(db: Database, dir: Directory, names: seq<string>, applied: nat, mid: Database)
    requires applied <= |names| && forall n :: n in names ==> n in dir
    requires ExecuteAll(db, Flatten(dir, names[..applied])) == Ok(mid)
    ensures ExecuteAll(mid, Flatten(dir, names)) == ExecuteAll(db, Flatten(dir, names))
  {
    var done, rest := names[..applied], names[applied..];
    assert names == done + rest;
    FlattenConcat(dir, done, rest);
    var all := Flatten(dir, names);
    assert all[..|Flatten(dir, done)|] == Flatten(dir, done);
    ResumeConverges(db, all, |Flatten(dir, done)|);
  }

  lemma SortedListing(dir: Directory, listing: seq<string>)
    requires forall n :: n in listing ==> n in dir
    ensures forall n :: n in FileOrder.Sort(listing) ==> n in dir
    ensures |FileOrder.Sort(listing)| == |listing|
  {
    var names := FileOrder.Sort(listing);
    FileOrder.SortSorts(listing);
    FileOrder.SameLength(names, listing);
    forall n | n in names
      ensures n in dir
    {
      assert n in multiset(listing);
    }
  }

  /** A file is one implicit transaction: it is applied whole or not at all. */
  class Server {
    var db: Database

    constructor (db: Database)
      ensures this.db == db
    {
      this.db := db;
    }

    method ApplyFile(sts: seq<Statement>) returns (ok: bool)
      modifies this
      ensures ok <==> ExecuteAll(old(db), sts).Ok?
      ensures db == if ok then ExecuteAll(old(db), sts).value else old(db)
    {
      var r := ExecuteAll(db, sts);
      ok := r.Ok?;
      if ok {
        db := r.value;
      }
    }

    /** Migrate: sort the listing, then apply file after file.  `crash` is the number
        of files after which the process dies, if it does. */
    method Migrate(dir: Directory, listing: seq<string>, crash: nat) returns (ok: bool, applied: nat)
      requires forall n :: n in listing ==> n in dir
      modifies this
      ensures var names := FileOrder.Sort(listing);
              && (forall n :: n in names ==> n in dir)
              && applied <= |names| && applied <= crash
              && ExecuteAll(old(db), Flatten(dir, names[..applied])) == Ok(db)
              && (ok <==> applied == |names| && listing != [])
              && (!ok && applied < crash && listing != [] ==> ExecuteAll(db, dir[names[applied]]).Err?)
    {
      hide Execute;
      var names := FileOrder.Sort(listing);
      SortedListing(dir, listing);
      applied := 0;
      if |listing| == 0 {
        return false, 0;
      }
      while applied < |names| && applied < crash
        invariant applied <= |names| && applied <= crash
        invariant ExecuteAll(old(db), Flatten(dir, names[..applied])) == Ok(db)
      {
        ghost var before := db;
        var done := ApplyFile(dir[names[applied]]);
        if !done {
          return false, applied;
        }
        ExecuteConcat(old(db), Flatten(dir, names[..applied]), dir[names[applied]]);
        assert names[..applied + 1][..applied] == names[..applied];
        applied := applied + 1;
      }
      ok := applied == |names|;
    }
  }
}
