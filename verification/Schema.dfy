/** The statements of the three migration files, and what they promise the store. */
module Schema {
  import opened Wrappers
  import opened Migrations
  import FileOrder

  const BLANK := Some(Text(""))

  /** A column without a constant default; ids and timestamps are generated. */
  function Required(name: ColumnName): Column { Column(name, true, None) }
  function Blank(name: ColumnName): Column { Column(name, true, BLANK) }

  const APPLICATION_COLUMNS := [
    Required(Id),
    Required(NameEnc), Required(PhoneEnc), Blank(EmailEnc), Blank(DobEnc), Blank(AddressEnc), Blank(EducationEnc),
    Blank(PhotoUrl), Required(Division), Required(District), Required(PhoneBidx), Blank(PhoneDobBidx), Blank(Batch),
    Column(RollNo, false, None), Column(AdmissionConfirmed, true, Some(Text("false"))),
    Column(Status, true, Some(Text("submitted"))), Required(CreatedAt), Required(UpdatedAt)]

  const CONTACT_COLUMNS := [
    Required(Id), Required(NameEnc), Blank(EmailEnc), Blank(PhoneEnc), Blank(Subject), Required(MessageEnc),
    Required(CreatedAt)]

  const SUBSCRIBER_COLUMNS := [Required(Id), Required(EmailEnc), Required(EmailBidx), Required(CreatedAt)]

  const INTAKE_COLUMNS := [
    Blank(GpaEnc), Blank(PhotoEnc), Blank(Gender), Blank(PassingYear), Blank(ComputerSkill), Blank(OwnComputer),
    Blank(CanAttend)]

  predicate IsIntake(c: ColumnName) {
    c in {GpaEnc, PhotoEnc, Gender, PassingYear, ComputerSkill, OwnComputer, CanAttend}
  }

  const PHONE_INDEX := Index(Applications, PhoneBidx, Unique)
  const LOOKUP_INDEX := Index(Applications, PhoneDobBidx, Plain)
  const ROLL_INDEX := Index(Applications, RollNo, UniqueWhereNotNull)
  const EMAIL_INDEX := Index(NewsletterSubscribers, EmailBidx, Unique)
  const CODE_INDEX := Index(Applications, VerifyCode, UniqueWhereNotEmpty)

  const APPLICATION_PART := [
    CreateExtension,
    CreateTable(Applications, APPLICATION_COLUMNS),
    CreateIndex(UxPhoneBidx, PHONE_INDEX),
    CreateIndex(IxPhoneDobBidx, LOOKUP_INDEX),
    CreateIndex(IxCreatedAt, Index(Applications, CreatedAt, Plain)),
    CreateIndex(UxRollNo, ROLL_INDEX)]

  const CONTACT_PART := [
    CreateTable(ContactMessages, CONTACT_COLUMNS),
    CreateIndex(IxContactCreatedAt, Index(ContactMessages, CreatedAt, Plain))]

  const SUBSCRIBER_PART := [
    CreateTable(NewsletterSubscribers, SUBSCRIBER_COLUMNS),
    CreateIndex(UxEmailBidx, EMAIL_INDEX)]

  /** 0001_init.sql */
  const INIT_FILE := APPLICATION_PART + CONTACT_PART + SUBSCRIBER_PART

  /** 0002_intake_fields.sql */
  const INTAKE_FILE := [AddColumns(Applications, INTAKE_COLUMNS)]

  /** 0003_verify_code.sql */
  const CODE_FILE := [
    AddColumns(Applications, [Blank(VerifyCode)]),
    CreateIndex(UxVerifyCode, CODE_INDEX)]

  // ---- installing on an empty database ----------------------------------------

  lemma Snoc(db: Database, sts: seq<Statement>, st: Statement)
    ensures ExecuteAll(db, sts + [st]) ==
            match ExecuteAll(db, sts)
            case Ok(mid) => Execute(mid, st)
            case Err(e) => Err(e)
  {
    hide Execute;
    assert (sts + [st])[..|sts|] == sts;
  }

  lemma NoRowsNoViolation(t: Table, c: ColumnName, rule: Rule)
    requires t.rows == []
    ensures !Violates(t, c, rule)
  {
  }

  /** Creating an index on an existing column of a table without rows succeeds. */
  lemma IndexEmpty(db: Database, sts: seq<Statement>, mid: Database, name: IndexName, ix: Index, k: nat)
    requires ExecuteAll(db, sts) == Ok(mid) && name !in mid.indexes
    requires ix.table in mid.tables && mid.tables[ix.table].rows == []
    requires k < |mid.tables[ix.table].columns| && mid.tables[ix.table].columns[k].name == ix.column
    ensures ExecuteAll(db, sts + [CreateIndex(name, ix)]) == Ok(mid.(indexes := mid.indexes[name := ix]))
  {
    Snoc(db, sts, CreateIndex(name, ix));
    NoRowsNoViolation(mid.tables[ix.table], ix.column, ix.rule);
    assert HasColumn(mid.tables[ix.table], ix.column);
  }

  lemma TableEmpty(db: Database, sts: seq<Statement>, mid: Database, name: TableName, columns: seq<Column>)
    requires ExecuteAll(db, sts) == Ok(mid) && name !in mid.tables
    ensures ExecuteAll(db, sts + [CreateTable(name, columns)]) == Ok(mid.(tables := mid.tables[name := Table(columns, [])]))
  {
    Snoc(db, sts, CreateTable(name, columns));
  }

  /** The schema that the first file leaves on an empty database. */
  const INSTALLED := Database(
    true,
    map[Applications := Table(APPLICATION_COLUMNS, []),
        ContactMessages := Table(CONTACT_COLUMNS, []),
        NewsletterSubscribers := Table(SUBSCRIBER_COLUMNS, [])],
    map[UxPhoneBidx := PHONE_INDEX,
        IxPhoneDobBidx := LOOKUP_INDEX,
        IxCreatedAt := Index(Applications, CreatedAt, Plain),
        UxRollNo := ROLL_INDEX,
        IxContactCreatedAt := Index(ContactMessages, CreatedAt, Plain),
        UxEmailBidx := EMAIL_INDEX])

  /** After the applications table and its indexes. */
  const APPLICATIONS_ONLY := Database(
    true,
    map[Applications := Table(APPLICATION_COLUMNS, [])],
    map[UxPhoneBidx := PHONE_INDEX,
        IxPhoneDobBidx := LOOKUP_INDEX,
        IxCreatedAt := Index(Applications, CreatedAt, Plain),
        UxRollNo := ROLL_INDEX])

  lemma InstallApplications()
    ensures ExecuteAll(EMPTY, APPLICATION_PART) == Ok(APPLICATIONS_ONLY)
  {
    hide ExecuteAll, Execute;
    var f := APPLICATION_PART;
    var d0 := EMPTY.(pgcrypto := true);
    FirstStatement();
    assert f[..1] == [CreateExtension];
    TableEmpty(EMPTY, f[..1], d0, Applications, APPLICATION_COLUMNS);
    assert f[..2] == f[..1] + [f[1]];
    var d1 := d0.(tables := map[Applications := Table(APPLICATION_COLUMNS, [])]);
    IndexEmpty(EMPTY, f[..2], d1, UxPhoneBidx, PHONE_INDEX, 10);
    assert f[..3] == f[..2] + [f[2]];
    var d2 := d1.(indexes := map[UxPhoneBidx := PHONE_INDEX]);
    IndexEmpty(EMPTY, f[..3], d2, IxPhoneDobBidx, LOOKUP_INDEX, 11);
    assert f[..4] == f[..3] + [f[3]];
    var d3 := d2.(indexes := d2.indexes[IxPhoneDobBidx := LOOKUP_INDEX]);
    IndexEmpty(EMPTY, f[..4], d3, IxCreatedAt, f[4].index, 16);
    assert f[..5] == f[..4] + [f[4]];
    var d4 := d3.(indexes := d3.indexes[IxCreatedAt := f[4].index]);
    IndexEmpty(EMPTY, f[..5], d4, UxRollNo, ROLL_INDEX, 13);
    assert f == f[..5] + [f[5]];
    assert d4.indexes[UxRollNo := ROLL_INDEX] == APPLICATIONS_ONLY.indexes;
  }

  lemma InstallFirstFile()
    ensures ExecuteAll(EMPTY, INIT_FILE) == Ok(INSTALLED)
  {
    hide ExecuteAll, Execute;
    InstallApplications();
    var a := APPLICATIONS_ONLY;
    IndexedTable(EMPTY, APPLICATION_PART, a, ContactMessages, CONTACT_COLUMNS, IxContactCreatedAt, CreatedAt, Plain, 6);
    var c := WithTable(a, ContactMessages, CONTACT_COLUMNS, IxContactCreatedAt, CreatedAt, Plain);
    IndexedTable(EMPTY, APPLICATION_PART + CONTACT_PART, c, NewsletterSubscribers, SUBSCRIBER_COLUMNS,
                 UxEmailBidx, EmailBidx, Unique, 2);
    var n := WithTable(c, NewsletterSubscribers, SUBSCRIBER_COLUMNS, UxEmailBidx, EmailBidx, Unique);
    assert n.tables == INSTALLED.tables;
    assert n.indexes == INSTALLED.indexes;
  }

  function WithTable(db: Database, name: TableName, columns: seq<Column>, ix: IndexName, c: ColumnName, rule: Rule)
    : Database
  {
    Database(db.pgcrypto, db.tables[name := Table(columns, [])], db.indexes[ix := Index(name, c, rule)])
  }

  /** A new table and one index on it. */
  lemma IndexedTable(db: Database, sts: seq<Statement>, mid: Database, name: TableName, columns: seq<Column>,
                     ix: IndexName, c: ColumnName, rule: Rule, k: nat)
    requires ExecuteAll(db, sts) == Ok(mid) && name !in mid.tables && ix !in mid.indexes
    requires k < |columns| && columns[k].name == c
    ensures ExecuteAll(db, sts + [CreateTable(name, columns), CreateIndex(ix, Index(name, c, rule))])
         == Ok(WithTable(mid, name, columns, ix, c, rule))
  {
    hide ExecuteAll, Execute;
    var create, index := CreateTable(name, columns), CreateIndex(ix, Index(name, c, rule));
    TableEmpty(db, sts, mid, name, columns);
    var next := mid.(tables := mid.tables[name := Table(columns, [])]);
    IndexEmpty(db, sts + [create], next, ix, Index(name, c, rule), k);
    assert sts + [create, index] == sts + [create] + [index];
  }

  lemma Nothing(db: Database)
    ensures ExecuteAll(db, []) == Ok(db)
  {
  }

  lemma FirstStatement()
    ensures ExecuteAll(EMPTY, [CreateExtension]) == Ok(EMPTY.(pgcrypto := true))
  {
    assert [CreateExtension] == [] + [CreateExtension];
    Snoc(EMPTY, [], CreateExtension);
    Nothing(EMPTY);
  }

  // ---- upgrading a live database ----------------------------------------------

  predicate Defaulted(cs: seq<Column>) {
    forall k :: 0 <= k < |cs| ==> Fill(cs[k]) != Null
  }

  /** Adding columns with defaults never fails, whatever the table holds. */
  lemma {:induction false} AddDefaulted(t: Table, cs: seq<Column>)
    requires Defaulted(cs)
    ensures AddAll(t, cs).Ok?
  {
    if cs == [] {
    } else {
      AddDefaulted(t, cs[..|cs| - 1]);
    }
  }

  lemma AddColumnOthers(t: Table, d: Column, c: ColumnName)
    requires AddColumn(t, d).Ok? && d.name != c
    ensures var u := AddColumn(t, d).value;
            && (HasColumn(u, c) <==> HasColumn(t, c)) && |u.rows| == |t.rows|
            && forall i :: 0 <= i < |t.rows| ==> Cell(u.rows[i], c) == Cell(t.rows[i], c)
  {
    HasColumnSnoc(t, AddColumn(t, d).value, d, c);
    hide HasColumn;
  }

  lemma HasColumnSnoc(t: Table, u: Table, d: Column, c: ColumnName)
    ensures u.columns == t.columns + [d] ==> (HasColumn(u, c) <==> HasColumn(t, c) || d.name == c)
  {
    if u.columns == t.columns + [d] {
      assert u.columns[|t.columns|] == d;
      assert forall k :: 0 <= k < |t.columns| ==> u.columns[k] == t.columns[k];
    }
  }

  lemma {:induction false} AddAllOthers(t: Table, cs: seq<Column>, c: ColumnName)
    requires AddAll(t, cs).Ok? && forall k :: 0 <= k < |cs| ==> cs[k].name != c
    ensures HasColumn(AddAll(t, cs).value, c) <==> HasColumn(t, c)
    ensures |AddAll(t, cs).value.rows| == |t.rows|
    ensures forall i :: 0 <= i < |t.rows| ==> Cell(AddAll(t, cs).value.rows[i], c) == Cell(t.rows[i], c)
  {
    hide AddColumn, HasColumn, Cell;
    if cs == [] {
    } else {
      var k := |cs| - 1;
      AddAllOthers(t, cs[..k], c);
      AddColumnOthers(AddAll(t, cs[..k]).value, cs[k], c);
    }
  }

  predicate DistinctNames(cs: seq<Column>) {
    forall j, k :: 0 <= j < k < |cs| ==> cs[j].name != cs[k].name
  }

  /** Every row holds the column's default. */
  ghost predicate AllFilled(t: Table, c: Column) {
    HasColumn(t, c.name) && forall i :: 0 <= i < |t.rows| ==> Filled(t.rows[i], c)
  }

  lemma AddColumnFills(t: Table, c: Column, d: Column)
    requires AddColumn(t, d).Ok? && d.name != c.name && AllFilled(t, c)
    ensures AllFilled(AddColumn(t, d).value, c)
  {
    AddColumnKeeps(t, d);
  }

  /** Columns that were not there before are filled in every row. */
  lemma {:induction false} AddAllFills(t: Table, cs: seq<Column>, k: nat)
    requires AddAll(t, cs).Ok? && DistinctNames(cs) && k < |cs| && !HasColumn(t, cs[k].name)
    ensures AllFilled(AddAll(t, cs).value, cs[k])
  {
    hide AllFilled;
    var last := |cs| - 1;
    var u := AddAll(t, cs[..last]).value;
    if k == last {
      AddAllOthers(t, cs[..last], cs[k].name);
      LastFills(u, cs[k]);
    } else {
      AddAllFills(t, cs[..last], k);
      AddColumnFills(u, cs[k], cs[last]);
    }
  }

  lemma LastFills(t: Table, c: Column)
    requires AddColumn(t, c).Ok? && !HasColumn(t, c.name)
    ensures AllFilled(AddColumn(t, c).value, c)
  {
    AddColumnKeeps(t, c);
  }

  ghost predicate CodesDistinct(db: Database)
    requires Applications in db.tables
  {
    !Violates(db.tables[Applications], VerifyCode, UniqueWhereNotEmpty)
  }

  lemma CodeColumn(t: Table)
    ensures AddAll(t, [Blank(VerifyCode)]).Ok?
    ensures var u := AddAll(t, [Blank(VerifyCode)]).value;
            && HasColumn(u, VerifyCode) && |u.rows| == |t.rows|
            && (HasColumn(t, VerifyCode) ==> u == t)
            && (!HasColumn(t, VerifyCode) ==> forall i :: 0 <= i < |u.rows| ==> Cell(u.rows[i], VerifyCode) == Text(""))
  {
    var cs := [Blank(VerifyCode)];
    assert cs[..0] == [];
    assert AddAll(t, cs) == AddColumn(t, cs[0]);
    AddColumnKeeps(t, cs[0]);
  }

  /** The code migration succeeds exactly when the table is there and the unique index
      either exists, or has nothing but fresh blanks or distinct codes to cover. */
  lemma CodeFileMeaning(db: Database)
    ensures ExecuteAll(db, CODE_FILE).Ok? <==>
            && Applications in db.tables
            && (UxVerifyCode in db.indexes || !HasColumn(db.tables[Applications], VerifyCode) || CodesDistinct(db))
    ensures ExecuteAll(db, CODE_FILE).Ok? ==>
            var end := ExecuteAll(db, CODE_FILE).value;
            && UxVerifyCode in end.indexes && Applications in end.tables
            && (UxVerifyCode !in db.indexes ==> end.indexes == db.indexes[UxVerifyCode := CODE_INDEX])
            && AddAll(db.tables[Applications], [Blank(VerifyCode)]) == Ok(end.tables[Applications])
  {
    var add, index := CODE_FILE[0], CODE_FILE[1];
    Nothing(db);
    assert [add] == [] + [add] && CODE_FILE == [add] + [index];
    Snoc(db, [], add);
    Snoc(db, [add], index);
    if Applications in db.tables {
      var t := db.tables[Applications];
      CodeColumn(t);
      var u := AddAll(t, [Blank(VerifyCode)]).value;
      if !HasColumn(t, VerifyCode) {
        assert !Violates(u, VerifyCode, UniqueWhereNotEmpty);
      }
    }
  }

  const ALL_FILES := INIT_FILE + INTAKE_FILE + CODE_FILE

  const INIT_NAME := "0001_init.sql"
  const INTAKE_NAME := "0002_intake_fields.sql"
  const CODE_NAME := "0003_verify_code.sql"

  const DIRECTORY: Directory := map[INIT_NAME := INIT_FILE, INTAKE_NAME := INTAKE_FILE, CODE_NAME := CODE_FILE]

  lemma EarlierName(head: string, c: char, d: char, a: string, b: string)
    requires c < d
    ensures FileOrder.AtMost(head + [c] + a, head + [d] + b)
    decreases head
  {
    var x, y := head + [c] + a, head + [d] + b;
    if head == "" {
      assert x[0] == c && y[0] == d;
    } else {
      EarlierName(head[1..], c, d, a, b);
      assert x[0] == y[0] && x[1..] == head[1..] + [c] + a && y[1..] == head[1..] + [d] + b;
    }
  }

  /** However the directory lists its files, they are applied in the order of their
      numbers: the schema results are about what Migrate runs. */
  lemma MigrateRunsAllFiles(listing: seq<string>)
    requires multiset(listing) == multiset{INIT_NAME, INTAKE_NAME, CODE_NAME}
    ensures FileOrder.Sort(listing) == [INIT_NAME, INTAKE_NAME, CODE_NAME]
    ensures (forall n :: n in FileOrder.Sort(listing) ==> n in DIRECTORY)
         && Flatten(DIRECTORY, FileOrder.Sort(listing)) == ALL_FILES
  {
    NamesSorted();
    FileOrder.SortSorts(listing);
    FileOrder.SortedUnique(FileOrder.Sort(listing), [INIT_NAME, INTAKE_NAME, CODE_NAME]);
    FlattenThree(DIRECTORY, INIT_NAME, INTAKE_NAME, CODE_NAME);
  }

  lemma NamesSorted()
    ensures FileOrder.Sorted([INIT_NAME, INTAKE_NAME, CODE_NAME])
  {
    hide FileOrder.AtMost;
    EarlierName("000", '1', '2', "_init.sql", "_intake_fields.sql");
    EarlierName("000", '1', '3', "_init.sql", "_verify_code.sql");
    EarlierName("000", '2', '3', "_intake_fields.sql", "_verify_code.sql");
    assert INIT_NAME == "000" + ['1'] + "_init.sql";
    assert INTAKE_NAME == "000" + ['2'] + "_intake_fields.sql";
    assert CODE_NAME == "000" + ['3'] + "_verify_code.sql";
  }

  lemma FlattenThree(dir: Directory, a: string, b: string, c: string)
    requires a in dir && b in dir && c in dir
    ensures forall n :: n in [a, b, c] ==> n in dir
    ensures Flatten(dir, [a, b, c]) == dir[a] + dir[b] + dir[c]
  {
    assert [a, b, c][..2] == [a, b] && [a, b][..1] == [a] && [a][..0] == [];
    assert Flatten(dir, [a]) == dir[a];
    assert Flatten(dir, [a, b]) == dir[a] + dir[b];
  }

  /** Starting on a database of the first release, whatever it holds, the migration
      succeeds, keeps every cell, and gives each application a blank code and a blank
      in each of the seven intake columns that the table lacked. */
  lemma UpgradeSucceeds(db: Database)
    requires Shaped(db) && forall k :: 0 <= k < |INIT_FILE| ==> Present(db, INIT_FILE[k])
    requires Applications in db.tables && !HasColumn(db.tables[Applications], VerifyCode) && UxVerifyCode !in db.indexes
    ensures ExecuteAll(db, ALL_FILES).Ok?
    ensures var end := ExecuteAll(db, ALL_FILES).value;
            && Kept(db, end)
            && end.indexes == db.indexes[UxVerifyCode := CODE_INDEX]
            && Applications in end.tables
            && (forall i :: 0 <= i < |end.tables[Applications].rows| ==>
                  Cell(end.tables[Applications].rows[i], VerifyCode) == Text(""))
            && (forall c :: IsIntake(c) && !HasColumn(db.tables[Applications], c) ==>
                  AllFilled(end.tables[Applications], Blank(c)))
  {
    hide Present, Shaped, Kept, AllFilled, HasColumn, ExecuteAll, AddAll, IsIntake, Cell;
    var mid := Stages(db);
    MigrationKeepsRows(db, ALL_FILES);
    CodeColumn(mid);
    forall c | IsIntake(c) && !HasColumn(db.tables[Applications], c)
      ensures AllFilled(ExecuteAll(db, ALL_FILES).value.tables[Applications], Blank(c))
    {
      NotCode(c);
      CodeColumnKeeps(mid, c);
    }
  }

  lemma NotCode(c: ColumnName)
    requires IsIntake(c)
    ensures c != VerifyCode
  {
  }

  /** The applications table after the intake file, and the code file on top of it. */
  lemma Stages(db: Database) returns (mid: Table)
    requires forall k :: 0 <= k < |INIT_FILE| ==> Present(db, INIT_FILE[k])
    requires Applications in db.tables && !HasColumn(db.tables[Applications], VerifyCode) && UxVerifyCode !in db.indexes
    ensures !HasColumn(mid, VerifyCode)
    ensures forall c :: IsIntake(c) && !HasColumn(db.tables[Applications], c) ==> AllFilled(mid, Blank(c))
    ensures ExecuteAll(db, ALL_FILES).Ok?
    ensures var end := ExecuteAll(db, ALL_FILES).value;
            && end.indexes == db.indexes[UxVerifyCode := CODE_INDEX]
            && Applications in end.tables && AddAll(mid, [Blank(VerifyCode)]) == Ok(end.tables[Applications])
  {
    hide Present, AllFilled, HasColumn, IsIntake, ExecuteAll, AddAll;
    AllPresentIsNoop(db, INIT_FILE);
    IntakeFile(db);
    var between := ExecuteAll(db, INTAKE_FILE).value;
    mid := between.tables[Applications];
    CodeFileMeaning(between);
    ExecuteConcat(db, INIT_FILE, INTAKE_FILE);
    ExecuteConcat(db, INIT_FILE + INTAKE_FILE, CODE_FILE);
  }

  lemma CodeColumnKeeps(t: Table, c: ColumnName)
    requires c != VerifyCode && AllFilled(t, Blank(c)) && AddAll(t, [Blank(VerifyCode)]).Ok?
    ensures AllFilled(AddAll(t, [Blank(VerifyCode)]).value, Blank(c))
  {
    hide AllFilled;
    var cs := [Blank(VerifyCode)];
    assert cs[..0] == [];
    AddColumnFills(t, Blank(c), cs[0]);
  }

  lemma IntakeFile(db: Database)
    requires Applications in db.tables
    ensures ExecuteAll(db, INTAKE_FILE).Ok?
    ensures var mid := ExecuteAll(db, INTAKE_FILE).value;
            && mid.indexes == db.indexes && Applications in mid.tables
            && (HasColumn(mid.tables[Applications], VerifyCode) <==> HasColumn(db.tables[Applications], VerifyCode))
            && (forall c :: IsIntake(c) && !HasColumn(db.tables[Applications], c) ==>
                  AllFilled(mid.tables[Applications], Blank(c)))
  {
    hide AllFilled, HasColumn;
    assert INTAKE_FILE == [AddColumns(Applications, INTAKE_COLUMNS)];
    DefaultedFile(db, INTAKE_COLUMNS, VerifyCode);
    forall c | IsIntake(c) && !HasColumn(db.tables[Applications], c)
      ensures AllFilled(ExecuteAll(db, INTAKE_FILE).value.tables[Applications], Blank(c))
    {
      var k := IntakeAt(c);
      AddAllFills(db.tables[Applications], INTAKE_COLUMNS, k);
    }
  }

  lemma IntakeAt(c: ColumnName) returns (k: nat)
    requires IsIntake(c)
    ensures k < |INTAKE_COLUMNS| && INTAKE_COLUMNS[k] == Blank(c) && DistinctNames(INTAKE_COLUMNS)
  {
    k := if c == GpaEnc then 0 else if c == PhotoEnc then 1 else if c == Gender then 2
         else if c == PassingYear then 3 else if c == ComputerSkill then 4 else if c == OwnComputer then 5 else 6;
  }

  lemma DefaultedFile(db: Database, cs: seq<Column>, c: ColumnName)
    requires Applications in db.tables && Defaulted(cs) && forall k :: 0 <= k < |cs| ==> cs[k].name != c
    ensures ExecuteAll(db, [AddColumns(Applications, cs)]).Ok?
    ensures var mid := ExecuteAll(db, [AddColumns(Applications, cs)]).value;
            && mid.indexes == db.indexes && Applications in mid.tables
            && AddAll(db.tables[Applications], cs) == Ok(mid.tables[Applications])
            && (HasColumn(mid.tables[Applications], c) <==> HasColumn(db.tables[Applications], c))
  {
    Nothing(db);
    assert [AddColumns(Applications, cs)] == [] + [AddColumns(Applications, cs)];
    Snoc(db, [], AddColumns(Applications, cs));
    AddDefaulted(db.tables[Applications], cs);
    AddAllOthers(db.tables[Applications], cs, c);
  }

  /** On an empty database the three files install every unique index that the store
      relies on, and no other rule on those columns. */
  lemma FreshInstall()
    ensures ExecuteAll(EMPTY, ALL_FILES).Ok?
    ensures var end := ExecuteAll(EMPTY, ALL_FILES).value;
            && end.indexes == INSTALLED.indexes[UxVerifyCode := CODE_INDEX]
            && UxPhoneBidx in end.indexes && end.indexes[UxPhoneBidx] == PHONE_INDEX
            && UxEmailBidx in end.indexes && end.indexes[UxEmailBidx] == EMAIL_INDEX
            && UxRollNo in end.indexes && end.indexes[UxRollNo] == ROLL_INDEX
            && (forall n :: n in end.indexes && end.indexes[n].column == PhoneDobBidx ==> end.indexes[n].rule == Plain)
  {
    hide ExecuteAll;
    InstallsAll();
    InstalledRules(ExecuteAll(EMPTY, ALL_FILES).value.indexes);
  }

  lemma InstalledRules(indexes: map<IndexName, Index>)
    requires indexes == INSTALLED.indexes[UxVerifyCode := CODE_INDEX]
    ensures UxPhoneBidx in indexes && indexes[UxPhoneBidx] == PHONE_INDEX
    ensures UxEmailBidx in indexes && indexes[UxEmailBidx] == EMAIL_INDEX
    ensures UxRollNo in indexes && indexes[UxRollNo] == ROLL_INDEX
    ensures forall n :: n in indexes && indexes[n].column == PhoneDobBidx ==> indexes[n].rule == Plain
  {
    forall n | n in indexes && indexes[n].column == PhoneDobBidx
      ensures indexes[n].rule == Plain
    {
      match n
      case UxPhoneBidx =>
      case IxPhoneDobBidx =>
      case IxCreatedAt =>
      case UxRollNo =>
      case IxContactCreatedAt =>
      case UxEmailBidx =>
      case UxVerifyCode =>
    }
  }

  lemma InstallsAll()
    ensures ExecuteAll(EMPTY, ALL_FILES).Ok?
    ensures ExecuteAll(EMPTY, ALL_FILES).value.indexes == INSTALLED.indexes[UxVerifyCode := CODE_INDEX]
    ensures Kept(INSTALLED, ExecuteAll(EMPTY, ALL_FILES).value)
  {
    hide ExecuteAll, Execute, Present, Shaped, HasColumn, Violates, Kept, AllFilled, IsIntake, Cell;
    InstallFirstFile();
    AllPresent(EMPTY, INIT_FILE);
    InstalledLacksCode();
    UpgradeSucceeds(INSTALLED);
    assert ALL_FILES == INIT_FILE + (INTAKE_FILE + CODE_FILE);
    ExecuteConcat(EMPTY, INIT_FILE, INTAKE_FILE + CODE_FILE);
    ExecuteConcat(INSTALLED, INIT_FILE, INTAKE_FILE + CODE_FILE);
    SecondRunIsNoop(EMPTY, INIT_FILE);
  }

  lemma InstalledLacksCode()
    ensures Shaped(INSTALLED) && Applications in INSTALLED.tables
    ensures !HasColumn(INSTALLED.tables[Applications], VerifyCode) && UxVerifyCode !in INSTALLED.indexes
  {
  }
}
