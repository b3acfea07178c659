/** Where a run may start: besides the empty store, any database that an earlier
    release left behind, once the migration has blanked its new columns. */
module Upgrades {
  import opened Wrappers
  import opened Utf8
  import opened Crypto
  import opened Tables
  import opened Protocol
  import opened Safety
  import Dates
  import Geo
  import Enforcement
  import Migrations
  import Newsletter
  import Phone
  import Schema

  /** No request is under way and everything is replicated. */
  function AtRest(t: Tables, stored: map<string, Submission>, taken: seq<string>): System {
    System(t, t, [], map[], [], stored, taken)
  }

  // ---- rows -------------------------------------------------------------------

  /** The columns of the first release are the image of the submission. */
  ghost predicate FirstRelease(svc: Service, sub: Submission, cols: Columns) {
    var input, d := sub.input, sub.draw;
    && Admissible(svc, input)
    && Seal(svc, input.name, d.name) == Ok(cols.nameEnc)
    && Seal(svc, input.phone, d.phone) == Ok(cols.phoneEnc)
    && Seal(svc, input.email, d.email) == Ok(cols.emailEnc)
    && Seal(svc, input.dob, d.dob) == Ok(cols.dobEnc)
    && Seal(svc, input.address, d.address) == Ok(cols.addressEnc)
    && Seal(svc, input.education, d.education) == Ok(cols.educationEnc)
    && cols.division == input.division && cols.district == input.district
    && cols.phoneBidx == PhoneKey(svc, input.phone)
    && cols.phoneDobBidx == CardKey(svc, input.phone, input.dob)
    && cols.batch == d.batch && cols.createdOn == d.today
  }

  /** The defaults of the seven intake columns. */
  function WithBlanks(cols: Columns): Columns {
    cols.(gpaEnc := "", photoEnc := "", gender := "", passingYear := "", computerSkill := "", ownComputer := "",
          canAttend := "")
  }

  function Unanswered(sub: Submission): Submission {
    sub.(input := sub.input.(gpa := "", photoData := "", gender := "", passingYear := "", computerSkill := "",
                             ownComputer := "", canAttend := ""))
  }

  /** A row of the first release with the migration's blanks is the image of its
      submission with the intake questions unanswered: the blank texts decrypt to it. */
  lemma UpgradedRow(svc: Service, sub: Submission, cols: Columns)
    requires FirstRelease(svc, sub, cols)
    ensures ImageOf(svc, Unanswered(sub), WithBlanks(cols))
  {
    BlankSeals(svc, sub.draw.gpa);
    BlankSeals(svc, sub.draw.photo);
    hide Seal, PhoneKey, CardKey, Phone.BdPhone, Dates.DateStr, Geo.Listed;
  }

  lemma BlankSeals(svc: Service, nonce: Option<Nonce>)
    ensures Seal(svc, "", nonce) == Ok("")
  {
  }

  // ---- subscribers ------------------------------------------------------------

  ghost predicate OwnMails(svc: Service, subs: map<string, Subscriber>, mails: map<string, string>) {
    && subs.Keys == mails.Keys
    && forall i :: i in subs ==>
         subs[i].emailBidx == Hash(svc.cm, svc.blind, mails[i]) && Unseal(svc, subs[i].emailEnc) == Encode(mails[i])
  }

  ghost predicate DistinctIndexes(subs: map<string, Subscriber>) {
    forall i, j :: i in subs && j in subs && subs[i].emailBidx == subs[j].emailBidx ==> i == j
  }

  /** Any table of distinct subscribers is one that commits could have built. */
  lemma {:induction false} SubscribersTabulate(svc: Service, subs: map<string, Subscriber>, mails: map<string, string>)
      returns (taken: seq<string>)
    requires OwnMails(svc, subs, mails) && DistinctIndexes(subs)
    ensures Newsletter.Tabulates(svc, subs, Newsletter.FirstSpelling(svc, taken))
    decreases |subs|
  {
    hide Hash, Unseal, Encode, Newsletter.Tabulates, Newsletter.FirstSpelling;
    if subs == map[] {
      taken := [];
      NoneTabulate(svc);
    } else {
      var i :| i in subs;
      var others := subs - {i};
      assert others.Keys == subs.Keys - {i} && |others.Keys| == |others| && |subs.Keys| == |subs|;
      taken := SubscribersTabulate(svc, others, mails - {i});
      OneMore(svc, subs, others, i, mails[i], taken);
      taken := taken + [mails[i]];
    }
  }

  lemma NoneTabulate(svc: Service)
    ensures Newsletter.Tabulates(svc, map[], Newsletter.FirstSpelling(svc, []))
  {
  }

  lemma OneMore(svc: Service, subs: map<string, Subscriber>, others: map<string, Subscriber>, i: string, mail: string,
                taken: seq<string>)
    requires i in subs && others == subs - {i} && DistinctIndexes(subs)
    requires subs[i].emailBidx == Hash(svc.cm, svc.blind, mail) && Unseal(svc, subs[i].emailEnc) == Encode(mail)
    requires Newsletter.Tabulates(svc, others, Newsletter.FirstSpelling(svc, taken))
    ensures Newsletter.Tabulates(svc, subs, Newsletter.FirstSpelling(svc, taken + [mail]))
  {
    hide Hash, Unseal, Encode;
    var m := Newsletter.FirstSpelling(svc, taken);
    assert forall j :: j in others ==> others[j].emailBidx != subs[i].emailBidx;
    assert subs[i].emailBidx !in m;
    hide Newsletter.Tabulates;
    Newsletter.TabulatesInsert(svc, others, m, i, subs[i], mail);
    assert others[i := subs[i]] == subs;
    assert (taken + [mail])[..|taken|] == taken;
  }

  // ---- the start --------------------------------------------------------------

  /** The empty store is a start, and so is whatever a run from it reaches. */
  lemma EmptyStart(svc: Service, steps: seq<Step>)
    requires svc.Valid()
    ensures Inv(svc, INIT) && Newsletter.MailOk(svc, INIT)
    ensures Inv(svc, Run(svc, INIT, steps)) && Newsletter.MailOk(svc, Run(svc, INIT, steps))
  {
    hide Inv, Newsletter.MailOk, Run, Grows;
    InitOk(svc);
    Newsletter.EmptyMailOk(svc);
    RunOk(svc, INIT, steps);
    Newsletter.RunMailOk(svc, INIT, steps);
  }

  /** A database of an earlier release, migrated: its rows are images of accepted
      submissions and have no codes yet.  It satisfies the invariant, so everything
      that is proved of runs is proved of runs that start there. */
  lemma UpgradedStart(svc: Service, t: Tables, stored: map<string, Submission>, mails: map<string, string>)
    requires svc.Valid() && UniquePhones(t) && UniqueRolls(t) && UniqueEmails(t)
    requires Recorded(svc, stored, t.apps) && forall i :: i in t.apps ==> t.apps[i].verifyCode == ""
    requires OwnMails(svc, t.subs, mails)
    ensures exists taken :: Inv(svc, AtRest(t, stored, taken)) && Newsletter.MailOk(svc, AtRest(t, stored, taken))
  {
    hide Recorded, OwnMails, Newsletter.Tabulates, Newsletter.FirstSpelling, UniquePhones, UniqueRolls;
    assert DistinctIndexes(t.subs);
    var taken := SubscribersTabulate(svc, t.subs, mails);
    var s := AtRest(t, stored, taken);
    assert UniqueCodes(t);
    assert Inv(svc, s) && Newsletter.MailOk(svc, s);
  }

  // ---- a migrated database ----------------------------------------------------

  /** What the migration makes of an application of the first release. */
  function UpgradedApplication(app: Application): Application {
    app.(cols := WithBlanks(app.cols), verifyCode := "")
  }

  function UpgradedTables(t: Tables): Tables {
    Tables(map i | i in t.apps :: UpgradedApplication(t.apps[i]), t.subs)
  }

  function UpgradedRecord(stored: map<string, Submission>): map<string, Submission> {
    map i | i in stored :: Unanswered(stored[i])
  }

  /** A database of the first release: its files were applied, none of the later
      columns is there, and its unique indexes hold. */
  ghost predicate FirstDatabase(db: Migrations.Database) {
    && Migrations.Shaped(db)
    && (forall k :: 0 <= k < |Schema.INIT_FILE| ==> Migrations.Present(db, Schema.INIT_FILE[k]))
    && Migrations.Applications in db.tables && Migrations.UxVerifyCode !in db.indexes
    && (forall c :: Schema.IsIntake(c) || c == Migrations.VerifyCode ==>
          !Migrations.HasColumn(db.tables[Migrations.Applications], c))
    && Enforcement.Obeys(db, Schema.PHONE_INDEX) && Enforcement.Obeys(db, Schema.ROLL_INDEX)
    && Enforcement.Obeys(db, Schema.EMAIL_INDEX)
  }

  /** A migrated row shows the old cells and the blanks. */
  lemma UpgradedCells(row: Migrations.Row, row': Migrations.Row, id: string, app: Application)
    requires Enforcement.ReadsOriginal(row, id, app)
    requires forall c :: c in row ==> c in row' && row'[c] == row[c]
    requires forall c :: Schema.IsIntake(c) || c == Migrations.VerifyCode ==> c in row' && row'[c] == Migrations.Text("")
    ensures Enforcement.ReadsOriginal(row', id, UpgradedApplication(app))
    ensures Enforcement.ReadsWhole(row', id, UpgradedApplication(app))
  {
    forall c | Enforcement.Original(c)
      ensures Enforcement.Shows(row', c, Enforcement.ApplicationCell(id, UpgradedApplication(app), c))
    {
      assert Enforcement.Shows(row, c, Enforcement.ApplicationCell(id, app, c));
    }
  }

  lemma KeptRows(t: Migrations.Table, u: Migrations.Table)
    requires Migrations.RowsKept(t, u)
    ensures |u.rows| == |t.rows|
    ensures forall i, c :: 0 <= i < |t.rows| && c in t.rows[i] ==> c in u.rows[i] && u.rows[i][c] == t.rows[i][c]
  {
  }

  lemma SubscriberKept(row: Migrations.Row, row': Migrations.Row, id: string, sub: Subscriber)
    requires Enforcement.ReadsSubscriber(row, id, sub) && forall c :: c in row ==> c in row' && row'[c] == row[c]
    ensures Enforcement.ReadsSubscriber(row', id, sub)
  {
  }

  lemma BlankCells(u: Migrations.Table, k: nat)
    requires k < |u.rows|
    requires Migrations.Cell(u.rows[k], Migrations.VerifyCode) == Migrations.Text("")
    requires forall c :: Schema.IsIntake(c) ==> Schema.AllFilled(u, Schema.Blank(c))
    ensures forall c :: Schema.IsIntake(c) || c == Migrations.VerifyCode ==>
              c in u.rows[k] && u.rows[k][c] == Migrations.Text("")
  {
    forall c | Schema.IsIntake(c)
      ensures c in u.rows[k] && u.rows[k][c] == Migrations.Text("")
    {
      assert Schema.AllFilled(u, Schema.Blank(c)) && Migrations.Filled(u.rows[k], Schema.Blank(c));
    }
  }

  lemma ApplicationsRead(table: Migrations.Table, table': Migrations.Table, t: Tables, ids: seq<string>)
    requires Enforcement.ReadsApplications(table.rows, t.apps, ids, false) && Migrations.RowsKept(table, table')
    requires forall k :: 0 <= k < |table'.rows| ==>
               Migrations.Cell(table'.rows[k], Migrations.VerifyCode) == Migrations.Text("")
    requires forall c :: Schema.IsIntake(c) ==> Schema.AllFilled(table', Schema.Blank(c))
    ensures Enforcement.ReadsApplications(table'.rows, UpgradedTables(t).apps, ids, true)
  {
    hide Migrations.RowsKept, Migrations.Cell, Enforcement.ReadsOriginal, Enforcement.ReadsWhole, Schema.AllFilled;
    KeptRows(table, table');
    forall k | 0 <= k < |ids|
      ensures ids[k] in UpgradedTables(t).apps
      ensures Enforcement.ReadsOriginal(table'.rows[k], ids[k], UpgradedTables(t).apps[ids[k]])
      ensures Enforcement.ReadsWhole(table'.rows[k], ids[k], UpgradedTables(t).apps[ids[k]])
    {
      BlankCells(table', k);
      UpgradedCells(table.rows[k], table'.rows[k], ids[k], t.apps[ids[k]]);
    }
  }

  lemma SubscribersRead(table: Migrations.Table, table': Migrations.Table, subs: map<string, Subscriber>,
                        ids: seq<string>)
    requires Enforcement.ReadsSubscribers(table.rows, subs, ids) && Migrations.RowsKept(table, table')
    ensures Enforcement.ReadsSubscribers(table'.rows, subs, ids)
  {
    hide Migrations.RowsKept, Enforcement.ReadsSubscriber;
    KeptRows(table, table');
    forall k | 0 <= k < |ids|
      ensures Enforcement.ReadsSubscriber(table'.rows[k], ids[k], subs[ids[k]])
    {
      SubscriberKept(table.rows[k], table'.rows[k], ids[k], subs[ids[k]]);
    }
  }

  /** The migration turns a database that holds the first release's rows into one that
      holds the upgraded rows. */
  lemma MigratedReads(db: Migrations.Database, t: Tables, apps: seq<string>, subs: seq<string>)
    requires FirstDatabase(db) && Enforcement.Reads(db, t, apps, subs, false)
    ensures Migrations.ExecuteAll(db, Schema.ALL_FILES).Ok?
    ensures Enforcement.Reads(Migrations.ExecuteAll(db, Schema.ALL_FILES).value, UpgradedTables(t), apps, subs, true)
  {
    hide Migrations.Shaped, Migrations.Present, Migrations.HasColumn, Migrations.ExecuteAll, Migrations.RowsKept,
      Migrations.Cell, Enforcement.Obeys, Enforcement.ReadsApplications, Enforcement.ReadsSubscribers,
      Schema.AllFilled, Schema.IsIntake;
    Schema.UpgradeSucceeds(db);
    var end := Migrations.ExecuteAll(db, Schema.ALL_FILES).value;
    ApplicationsRead(db.tables[Migrations.Applications], end.tables[Migrations.Applications], t, apps);
    SubscribersRead(db.tables[Migrations.NewsletterSubscribers], end.tables[Migrations.NewsletterSubscribers],
                    t.subs, subs);
  }

  /** Whoever upgrades gets a service to which every result on runs applies: a database
      of the first release, holding images of accepted submissions and distinct
      subscribers, is migrated to one that holds tables with which the invariants
      start. */
  lemma UpgradedDatabase(svc: Service, db: Migrations.Database, t: Tables, apps: seq<string>, subs: seq<string>,
                         stored: map<string, Submission>, mails: map<string, string>)
    requires svc.Valid() && FirstDatabase(db) && Enforcement.Reads(db, t, apps, subs, false)
    requires stored.Keys == t.apps.Keys && forall i :: i in stored ==> FirstRelease(svc, stored[i], t.apps[i].cols)
    requires OwnMails(svc, t.subs, mails)
    ensures Migrations.ExecuteAll(db, Schema.ALL_FILES).Ok?
    ensures Enforcement.Reads(Migrations.ExecuteAll(db, Schema.ALL_FILES).value, UpgradedTables(t), apps, subs, true)
    ensures exists taken ::
              var s := AtRest(UpgradedTables(t), UpgradedRecord(stored), taken);
              Inv(svc, s) && Newsletter.MailOk(svc, s)
  {
    hide FirstRelease, ImageOf, OwnMails, Inv, Newsletter.MailOk, Enforcement.Reads, Enforcement.Obeys,
      Migrations.ExecuteAll, Migrations.Shaped, Migrations.Present, UniquePhones, UniqueRolls, UniqueEmails,
      Migrations.HasColumn;
    MigratedReads(db, t, apps, subs);
    Enforcement.PhoneRule(db, t, apps, subs, false);
    Enforcement.RollRule(db, t, apps, subs, false);
    Enforcement.EmailRule(db, t, apps, subs, false);
    UpgradedUnique(t);
    forall i | i in stored
      ensures ImageOf(svc, Unanswered(stored[i]), WithBlanks(t.apps[i].cols))
    {
      UpgradedRow(svc, stored[i], t.apps[i].cols);
    }
    UpgradedStart(svc, UpgradedTables(t), UpgradedRecord(stored), mails);
  }

  lemma UpgradedUnique(t: Tables)
    ensures UniquePhones(t) ==> UniquePhones(UpgradedTables(t))
    ensures UniqueRolls(t) ==> UniqueRolls(UpgradedTables(t))
    ensures UniqueEmails(t) ==> UniqueEmails(UpgradedTables(t))
  {
  }
}
