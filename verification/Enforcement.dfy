/** The store's rows as rows of a database, and the index rules that the migration
    installs, read on them: they are the store's constraints. */
module Enforcement {
  import opened Wrappers
  import opened Migrations
  import opened Schema
  import Tables

  // ---- the store's rows as database rows --------------------------------------

  /** The columns of the first release that the store reads. */
  predicate Original(c: ColumnName) {
    c in {Id, NameEnc, PhoneEnc, EmailEnc, DobEnc, AddressEnc, EducationEnc, Division, District, PhoneBidx,
          PhoneDobBidx, Batch, RollNo, AdmissionConfirmed, Status, CreatedAt}
  }

  predicate Modelled(c: ColumnName) {
    Original(c) || IsIntake(c) || c == VerifyCode
  }

  function RollCell(rollNo: Option<string>): Value {
    match rollNo case None => Null case Some(r) => Text(r)
  }

  function ApplicationCell(id: string, app: Tables.Application, c: ColumnName): Value {
    match c
    case Id => Text(id)
    case NameEnc => Text(app.cols.nameEnc)
    case PhoneEnc => Text(app.cols.phoneEnc)
    case EmailEnc => Text(app.cols.emailEnc)
    case DobEnc => Text(app.cols.dobEnc)
    case AddressEnc => Text(app.cols.addressEnc)
    case EducationEnc => Text(app.cols.educationEnc)
    case GpaEnc => Text(app.cols.gpaEnc)
    case PhotoEnc => Text(app.cols.photoEnc)
    case Gender => Text(app.cols.gender)
    case PassingYear => Text(app.cols.passingYear)
    case ComputerSkill => Text(app.cols.computerSkill)
    case OwnComputer => Text(app.cols.ownComputer)
    case CanAttend => Text(app.cols.canAttend)
    case Division => Text(app.cols.division)
    case District => Text(app.cols.district)
    case PhoneBidx => Text(app.cols.phoneBidx)
    case PhoneDobBidx => Text(app.cols.phoneDobBidx)
    case Batch => Text(app.cols.batch)
    case CreatedAt => Text(app.cols.createdOn)
    case RollNo => RollCell(app.rollNo)
    case AdmissionConfirmed => Text(if app.confirmed then "true" else "false")
    case Status => Text(app.status)
    case VerifyCode => Text(app.verifyCode)
    case _ => Null
  }

  ghost predicate Shows(row: Row, c: ColumnName, v: Value) {
    c in row && row[c] == v
  }

  ghost predicate ReadsOriginal(row: Row, id: string, app: Tables.Application) {
    forall c :: Original(c) ==> Shows(row, c, ApplicationCell(id, app, c))
  }

  ghost predicate ReadsWhole(row: Row, id: string, app: Tables.Application) {
    forall c :: Modelled(c) ==> Shows(row, c, ApplicationCell(id, app, c))
  }

  ghost predicate ReadsSubscriber(row: Row, id: string, sub: Tables.Subscriber) {
    && Shows(row, Id, Text(id)) && Shows(row, EmailEnc, Text(sub.emailEnc)) && Shows(row, EmailBidx, Text(sub.emailBidx))
  }

  /** The ids in some order, each once. */
  ghost predicate Lists(ids: seq<string>, keys: set<string>) {
    (forall k :: k in keys <==> k in ids) && forall i, j :: 0 <= i < j < |ids| ==> ids[i] != ids[j]
  }

  /** The two tables hold the store's rows, listed in this order: all their cells, or
      only those of the first release. */
  ghost predicate Reads(db: Database, t: Tables.Tables, apps: seq<string>, subs: seq<string>, whole: bool) {
    && Lists(apps, t.apps.Keys) && Lists(subs, t.subs.Keys)
    && Applications in db.tables && NewsletterSubscribers in db.tables
    && ReadsApplications(db.tables[Applications].rows, t.apps, apps, whole)
    && ReadsSubscribers(db.tables[NewsletterSubscribers].rows, t.subs, subs)
  }

  ghost predicate ReadsApplications(rows: seq<Row>, apps: map<string, Tables.Application>, ids: seq<string>,
                                    whole: bool)
  {
    && |rows| == |ids|
    && forall k :: 0 <= k < |ids| ==>
         && ids[k] in apps && ReadsOriginal(rows[k], ids[k], apps[ids[k]])
         && (whole ==> ReadsWhole(rows[k], ids[k], apps[ids[k]]))
  }

  ghost predicate ReadsSubscribers(rows: seq<Row>, subs: map<string, Tables.Subscriber>, ids: seq<string>) {
    && |rows| == |ids|
    && forall k :: 0 <= k < |ids| ==> ids[k] in subs && ReadsSubscriber(rows[k], ids[k], subs[ids[k]])
  }

  /** The rows of the index's table obey it. */
  ghost predicate Obeys(db: Database, ix: Index) {
    ix.table in db.tables ==> !Violates(db.tables[ix.table], ix.column, ix.rule)
  }

  // ---- every store is in some database ----------------------------------------

  function FullRow(id: string, app: Tables.Application): Row {
    map c: ColumnName | Modelled(c) :: ApplicationCell(id, app, c)
  }

  function SubscriberRow(id: string, sub: Tables.Subscriber): Row {
    map[Id := Text(id), EmailEnc := Text(sub.emailEnc), EmailBidx := Text(sub.emailBidx)]
  }

  lemma EveryStoreIsHeld(t: Tables.Tables, apps: seq<string>, subs: seq<string>)
    requires Lists(apps, t.apps.Keys) && Lists(subs, t.subs.Keys)
    ensures exists db :: Reads(db, t, apps, subs, true)
  {
    hide ApplicationCell;
    var rows := seq(|apps|, k requires 0 <= k < |apps| => FullRow(apps[k], t.apps[apps[k]]));
    var mails := seq(|subs|, k requires 0 <= k < |subs| => SubscriberRow(subs[k], t.subs[subs[k]]));
    var db := Database(true, map[Applications := Table([], rows), NewsletterSubscribers := Table([], mails)], map[]);
    assert Reads(db, t, apps, subs, true);
  }

  // ---- one index at a time ----------------------------------------------------

  lemma PlainObeyed(db: Database, ix: Index)
    requires ix.rule == Plain
    ensures Obeys(db, ix)
  {
  }

  /** No two listed rows conflict exactly when no two rows do. */
  lemma RuleMeaning(ids: seq<string>, keys: set<string>, cells: map<string, Value>, t: Table, c: ColumnName, rule: Rule)
    requires Lists(ids, keys) && cells.Keys == keys && |t.rows| == |ids|
    requires forall k :: 0 <= k < |ids| ==> Cell(t.rows[k], c) == cells[ids[k]]
    ensures !Violates(t, c, rule)
            <==> forall x, y :: x in keys && y in keys && cells[x] == cells[y] && Covered(rule, cells[x]) ==> x == y
  {
    hide Covered, Cell;
    var rows := t.rows;
    if !Violates(t, c, rule) {
      forall x, y | x in keys && y in keys && cells[x] == cells[y] && Covered(rule, cells[x])
        ensures x == y
      {
        var i :| 0 <= i < |ids| && ids[i] == x;
        var j :| 0 <= j < |ids| && ids[j] == y;
        assert Cell(rows[i], c) == Cell(rows[j], c) && Covered(rule, Cell(rows[i], c)) && Covered(rule, Cell(rows[j], c));
      }
    }
  }

  lemma CellsRead(rows: seq<Row>, apps: map<string, Tables.Application>, ids: seq<string>, whole: bool, c: ColumnName)
    requires ReadsApplications(rows, apps, ids, whole) && (Original(c) || (whole && Modelled(c)))
    ensures |rows| == |ids|
    ensures forall k :: 0 <= k < |ids| ==> ids[k] in apps && Cell(rows[k], c) == ApplicationCell(ids[k], apps[ids[k]], c)
  {
    hide ApplicationCell;
    forall k | 0 <= k < |ids|
      ensures ids[k] in apps && Cell(rows[k], c) == ApplicationCell(ids[k], apps[ids[k]], c)
    {
      assert Shows(rows[k], c, ApplicationCell(ids[k], apps[ids[k]], c));
    }
  }

  lemma PhoneRule(db: Database, t: Tables.Tables, apps: seq<string>, subs: seq<string>, whole: bool)
    requires Reads(db, t, apps, subs, whole)
    ensures Obeys(db, PHONE_INDEX) <==> Tables.UniquePhones(t)
  {
    hide Violates, Lists, Cell, ReadsApplications, ReadsSubscribers;
    var cells := map i | i in t.apps :: Text(t.apps[i].cols.phoneBidx);
    CellsRead(db.tables[Applications].rows, t.apps, apps, whole, PhoneBidx);
    RuleMeaning(apps, t.apps.Keys, cells, db.tables[Applications], PhoneBidx, Unique);
  }

  lemma RollRule(db: Database, t: Tables.Tables, apps: seq<string>, subs: seq<string>, whole: bool)
    requires Reads(db, t, apps, subs, whole)
    ensures Obeys(db, ROLL_INDEX) <==> Tables.UniqueRolls(t)
  {
    hide Violates, Lists, Cell, ReadsApplications, ReadsSubscribers;
    var cells := map i | i in t.apps :: RollCell(t.apps[i].rollNo);
    CellsRead(db.tables[Applications].rows, t.apps, apps, whole, RollNo);
    RuleMeaning(apps, t.apps.Keys, cells, db.tables[Applications], RollNo, UniqueWhereNotNull);
  }

  lemma CodeRule(db: Database, t: Tables.Tables, apps: seq<string>, subs: seq<string>)
    requires Reads(db, t, apps, subs, true)
    ensures Obeys(db, CODE_INDEX) <==> Tables.UniqueCodes(t)
  {
    hide Violates, Lists, Cell, ReadsApplications, ReadsSubscribers;
    var cells := map i | i in t.apps :: Text(t.apps[i].verifyCode);
    CellsRead(db.tables[Applications].rows, t.apps, apps, true, VerifyCode);
    RuleMeaning(apps, t.apps.Keys, cells, db.tables[Applications], VerifyCode, UniqueWhereNotEmpty);
  }

  lemma EmailRule(db: Database, t: Tables.Tables, apps: seq<string>, subs: seq<string>, whole: bool)
    requires Reads(db, t, apps, subs, whole)
    ensures Obeys(db, EMAIL_INDEX) <==> Tables.UniqueEmails(t)
  {
    hide Violates, Lists, ReadsApplications;
    var cells := map i | i in t.subs :: Text(t.subs[i].emailBidx);
    RuleMeaning(subs, t.subs.Keys, cells, db.tables[NewsletterSubscribers], EmailBidx, Unique);
  }

  // ---- all of them ------------------------------------------------------------

  /** A database that holds a store's rows, in whatever order, obeys all indexes of a
      fresh installation exactly when the store's constraints hold. */
  lemma IndexesAreConstraints(db: Database, t: Tables.Tables, apps: seq<string>, subs: seq<string>)
    requires Reads(db, t, apps, subs, true)
    ensures ExecuteAll(EMPTY, ALL_FILES).Ok?
    ensures var indexes := ExecuteAll(EMPTY, ALL_FILES).value.indexes;
            (forall n :: n in indexes ==> Obeys(db, indexes[n])) <==> Tables.Constraints(t)
  {
    hide ExecuteAll, Obeys, Reads, Tables.UniquePhones, Tables.UniqueRolls, Tables.UniqueCodes, Tables.UniqueEmails;
    FreshInstall();
    PhoneRule(db, t, apps, subs, true);
    RollRule(db, t, apps, subs, true);
    CodeRule(db, t, apps, subs);
    EmailRule(db, t, apps, subs, true);
    PlainObeyed(db, LOOKUP_INDEX);
    PlainObeyed(db, Index(Applications, CreatedAt, Plain));
    PlainObeyed(db, Index(ContactMessages, CreatedAt, Plain));
    var indexes := ExecuteAll(EMPTY, ALL_FILES).value.indexes;
    assert UxVerifyCode in indexes && indexes[UxVerifyCode] == CODE_INDEX;
    if forall n :: n in indexes ==> Obeys(db, indexes[n]) {
      assert Obeys(db, indexes[UxPhoneBidx]) && Obeys(db, indexes[UxRollNo]);
      assert Obeys(db, indexes[UxVerifyCode]) && Obeys(db, indexes[UxEmailBidx]);
    }
  }

  // ---- new rows ---------------------------------------------------------------

  /** The INSERT names neither roll number, confirmation nor status: the new row holds
      the defaults that the first file declares for them. */
  lemma NewRowHoldsDefaults(t: Tables.Tables, id: string, cols: Tables.Columns, k: nat)
    requires Tables.InsertApplication(t, id, cols).Ok?
    requires k < |APPLICATION_COLUMNS| && APPLICATION_COLUMNS[k].name in {RollNo, AdmissionConfirmed, Status}
    ensures var u := Tables.Apply(t, Tables.InsertApplication(t, id, cols).value);
            id in u.apps
            && ApplicationCell(id, u.apps[id], APPLICATION_COLUMNS[k].name) == Fill(APPLICATION_COLUMNS[k])
    ensures APPLICATION_COLUMNS[13].name == RollNo && APPLICATION_COLUMNS[14].name == AdmissionConfirmed
         && APPLICATION_COLUMNS[15].name == Status
  {
    hide Tables.PhoneTaken;
    assert k == 13 || k == 14 || k == 15;
  }

  /** Every column that the store reads or writes is in the installed table. */
  lemma ColumnsInstalled(c: ColumnName)
    requires Modelled(c)
    ensures ExecuteAll(EMPTY, ALL_FILES).Ok?
    ensures var end := ExecuteAll(EMPTY, ALL_FILES).value;
            Applications in end.tables && HasColumn(end.tables[Applications], c)
  {
    hide ExecuteAll, HasColumn, Present;
    InstallsAll();
    AllPresent(EMPTY, ALL_FILES);
    var end := ExecuteAll(EMPTY, ALL_FILES).value;
    InstalledTable(end);
    if Original(c) {
      InstalledOriginal(c);
    } else {
      hide Original;
      LaterColumn(end, c);
    }
  }

  lemma InstalledTable(end: Database)
    requires Kept(INSTALLED, end)
    ensures Applications in end.tables
    ensures forall c :: HasColumn(Table(APPLICATION_COLUMNS, []), c) ==> HasColumn(end.tables[Applications], c)
  {
    hide HasColumn;
    assert Applications in INSTALLED.tables && INSTALLED.tables[Applications] == Table(APPLICATION_COLUMNS, []);
  }

  lemma InstalledOriginal(c: ColumnName)
    requires Original(c)
    ensures HasColumn(Table(APPLICATION_COLUMNS, []), c)
  {
    var k := if c == Id then 0 else if c == NameEnc then 1 else if c == PhoneEnc then 2 else if c == EmailEnc then 3
             else if c == DobEnc then 4 else if c == AddressEnc then 5 else if c == EducationEnc then 6
             else if c == Division then 8 else if c == District then 9 else if c == PhoneBidx then 10
             else if c == PhoneDobBidx then 11 else if c == Batch then 12 else if c == RollNo then 13
             else if c == AdmissionConfirmed then 14 else if c == Status then 15 else 16;
    assert Table(APPLICATION_COLUMNS, []).columns[k].name == c;
  }

  lemma LaterColumn(end: Database, c: ColumnName)
    requires IsIntake(c) || c == VerifyCode
    requires forall k :: 0 <= k < |ALL_FILES| ==> Present(end, ALL_FILES[k])
    ensures Applications in end.tables && HasColumn(end.tables[Applications], c)
  {
    assert ALL_FILES[10] == AddColumns(Applications, INTAKE_COLUMNS);
    assert ALL_FILES[11] == AddColumns(Applications, [Blank(VerifyCode)]);
    assert Present(end, ALL_FILES[10]) && Present(end, ALL_FILES[11]);
    hide HasColumn;
    if c == VerifyCode {
      assert [Blank(VerifyCode)][0].name == c;
    } else {
      var k := IntakeAt(c);
      assert INTAKE_COLUMNS[k].name == c;
    }
  }
}
