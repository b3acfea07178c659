/** The two tables behind the service, their unique indexes, and the SQL statements
    that are run against them.  A statement either fails on a unique index or
    yields the change that it commits; the change is also what is replicated. */
module Tables {
  import opened Wrappers

  /** The columns of `applications` that no statement ever updates. */
  datatype Columns = Columns(
    nameEnc: string, phoneEnc: string, emailEnc: string, dobEnc: string,
    addressEnc: string, educationEnc: string, gpaEnc: string, photoEnc: string,
    gender: string, passingYear: string, computerSkill: string, ownComputer: string, canAttend: string,
    division: string, district: string, phoneBidx: string, phoneDobBidx: string,
    batch: string, createdOn: string)

  datatype Application = Application(
    cols: Columns, rollNo: Option<string>, confirmed: bool, status: string, verifyCode: string)

  datatype Subscriber = Subscriber(emailEnc: string, emailBidx: string)

  /** Rows by primary key. */
  datatype Tables = Tables(apps: map<string, Application>, subs: map<string, Subscriber>)

  const EMPTY := Tables(map[], map[])

  // ---- the unique indexes -----------------------------------------------------

  ghost predicate UniquePhones(t: Tables) {
    forall i, j :: i in t.apps && j in t.apps && t.apps[i].cols.phoneBidx == t.apps[j].cols.phoneBidx ==> i == j
  }

  /** Partial: rows without a code are not in the index. */
  ghost predicate UniqueCodes(t: Tables) {
    forall i, j :: i in t.apps && j in t.apps && t.apps[i].verifyCode == t.apps[j].verifyCode != "" ==> i == j
  }

  /** Partial: rows without a roll number are not in the index. */
  ghost predicate UniqueRolls(t: Tables) {
    forall i, j :: i in t.apps && j in t.apps && t.apps[i].rollNo == t.apps[j].rollNo != None ==> i == j
  }

  ghost predicate UniqueEmails(t: Tables) {
    forall i, j :: i in t.subs && j in t.subs && t.subs[i].emailBidx == t.subs[j].emailBidx ==> i == j
  }

  ghost predicate Constraints(t: Tables) {
    UniquePhones(t) && UniqueCodes(t) && UniqueRolls(t) && UniqueEmails(t)
  }

  predicate PhoneTaken(t: Tables, phoneBidx: string) {
    exists i :: i in t.apps && t.apps[i].cols.phoneBidx == phoneBidx
  }

  predicate CodeTaken(t: Tables, id: string, code: string) {
    code != "" && exists i :: i in t.apps && i != id && t.apps[i].verifyCode == code
  }

  predicate RollTaken(t: Tables, id: string, rollNo: Option<string>) {
    rollNo.Some? && exists i :: i in t.apps && i != id && t.apps[i].rollNo == rollNo
  }

  predicate EmailTaken(t: Tables, emailBidx: string) {
    exists i :: i in t.subs && t.subs[i].emailBidx == emailBidx
  }

  // ---- changes ----------------------------------------------------------------

  datatype Change =
    | Nothing
    | AppInserted(id: string, row: Application)
    | CodeSet(id: string, code: string)
    | Edited(id: string, rollNo: Option<string>, confirmed: bool, status: string)
    | SubInserted(id: string, sub: Subscriber)

  function Apply(t: Tables, change: Change): Tables {
    match change
    case Nothing => t
    case AppInserted(id, row) => t.(apps := t.apps[id := row])
    case CodeSet(id, code) =>
      if id in t.apps then t.(apps := t.apps[id := t.apps[id].(verifyCode := code)]) else t
    case Edited(id, rollNo, confirmed, status) =>
      if id in t.apps then
        t.(apps := t.apps[id := t.apps[id].(rollNo := rollNo, confirmed := confirmed, status := status)])
      else t
    case SubInserted(id, sub) => t.(subs := t.subs[id := sub])
  }

  // ---- statements -------------------------------------------------------------

  /** SQLSTATE 23505 */
  datatype SqlError = UniqueViolation

  /** INSERT INTO applications ... RETURNING id, the generated id being given. */
  function InsertApplication(t: Tables, id: string, cols: Columns): Result<Change, SqlError> {
    if id in t.apps || PhoneTaken(t, cols.phoneBidx) then Err(UniqueViolation)
    else Ok(AppInserted(id, Application(cols, None, false, "submitted", "")))
  }

  /** UPDATE applications SET verify_code = code WHERE id = id [AND verify_code = ''] */
  function UpdateCode(t: Tables, id: string, code: string, onlyIfEmpty: bool): Result<Change, SqlError> {
    if id !in t.apps || (onlyIfEmpty && t.apps[id].verifyCode != "") then Ok(Nothing)
    else if CodeTaken(t, id, code) then Err(UniqueViolation)
    else Ok(CodeSet(id, code))
  }

  /** An administrator's edit of the lifecycle columns. */
  function EditApplication(t: Tables, id: string, rollNo: Option<string>, confirmed: bool, status: string)
    : Result<Change, SqlError>
  {
    if id !in t.apps then Ok(Nothing)
    else if RollTaken(t, id, rollNo) then Err(UniqueViolation)
    else Ok(Edited(id, rollNo, confirmed, status))
  }

  /** INSERT INTO newsletter_subscribers ... ON CONFLICT (email_bidx) DO NOTHING */
  function InsertSubscriber(t: Tables, id: string, sub: Subscriber): Result<Change, SqlError> {
    if EmailTaken(t, sub.emailBidx) then Ok(Nothing)
    else if id in t.subs then Err(UniqueViolation)
    else Ok(SubInserted(id, sub))
  }

  // ---- what a committed statement keeps ---------------------------------------

  /** Every row is still there, with the same fixed columns and any code it had. */
  ghost predicate Extends(t: Tables, u: Tables) {
    && (forall i :: i in t.apps ==>
          && i in u.apps
          && u.apps[i].cols == t.apps[i].cols
          && (t.apps[i].verifyCode != "" ==> u.apps[i].verifyCode == t.apps[i].verifyCode))
    && (forall i :: i in t.subs ==> i in u.subs && u.subs[i] == t.subs[i])
  }

  lemma ExtendsTransitive(t: Tables, u: Tables, v: Tables)
    requires Extends(t, u) && Extends(u, v)
    ensures Extends(t, v)
  {
  }

  /** At most the row `id` differs, and no row is lost. */
  ghost predicate OnlyAt(t: Tables, u: Tables, id: string) {
    && t.apps.Keys <= u.apps.Keys <= t.apps.Keys + {id}
    && u.subs == t.subs
    && forall i :: i in t.apps && i != id ==> u.apps[i] == t.apps[i]
  }

  lemma FreshPhone(t: Tables, u: Tables, id: string)
    requires OnlyAt(t, u, id) && UniquePhones(t) && id in u.apps
    requires (id in t.apps && u.apps[id].cols == t.apps[id].cols) || !PhoneTaken(t, u.apps[id].cols.phoneBidx)
    ensures UniquePhones(u)
  {
    forall i, j | i in u.apps && j in u.apps && u.apps[i].cols.phoneBidx == u.apps[j].cols.phoneBidx
      ensures i == j
    {
    }
  }

  lemma FreshCode(t: Tables, u: Tables, id: string)
    requires OnlyAt(t, u, id) && UniqueCodes(t) && id in u.apps
    requires (id in t.apps && u.apps[id].verifyCode == t.apps[id].verifyCode) || !CodeTaken(t, id, u.apps[id].verifyCode)
    ensures UniqueCodes(u)
  {
    forall i, j | i in u.apps && j in u.apps && u.apps[i].verifyCode == u.apps[j].verifyCode != ""
      ensures i == j
    {
    }
  }

  lemma FreshRoll(t: Tables, u: Tables, id: string)
    requires OnlyAt(t, u, id) && UniqueRolls(t) && id in u.apps
    requires (id in t.apps && u.apps[id].rollNo == t.apps[id].rollNo) || !RollTaken(t, id, u.apps[id].rollNo)
    ensures UniqueRolls(u)
  {
    forall i, j | i in u.apps && j in u.apps && u.apps[i].rollNo == u.apps[j].rollNo != None
      ensures i == j
    {
    }
  }

  /** A changed or new row keeps every index unique when each of its indexed values
      is its old one or free. */
  lemma RowKeeps(t: Tables, u: Tables, id: string)
    requires OnlyAt(t, u, id) && Constraints(t) && id in u.apps
    requires (id in t.apps && u.apps[id].cols == t.apps[id].cols) || !PhoneTaken(t, u.apps[id].cols.phoneBidx)
    requires (id in t.apps && u.apps[id].verifyCode == t.apps[id].verifyCode) || !CodeTaken(t, id, u.apps[id].verifyCode)
    requires (id in t.apps && u.apps[id].rollNo == t.apps[id].rollNo) || !RollTaken(t, id, u.apps[id].rollNo)
    ensures Constraints(u)
  {
    FreshPhone(t, u, id);
    FreshCode(t, u, id);
    FreshRoll(t, u, id);
  }

  lemma InsertApplicationKeeps(t: Tables, id: string, cols: Columns)
    requires Constraints(t) && InsertApplication(t, id, cols).Ok?
    ensures var u := Apply(t, InsertApplication(t, id, cols).value);
            && Constraints(u) && Extends(t, u)
            && u.apps.Keys == t.apps.Keys + {id} && id !in t.apps && u.apps[id].cols == cols
            && OnlyAt(t, u, id) && u.apps[id].verifyCode == ""
            && u.apps[id].rollNo == None && !u.apps[id].confirmed && u.apps[id].status == "submitted"
  {
    hide Constraints;
    var u := Apply(t, InsertApplication(t, id, cols).value);
    assert OnlyAt(t, u, id);
    RowKeeps(t, u, id);
  }

  /** One existing row replaced. */
  lemma Replaced(t: Tables, id: string, row: Application)
    requires id in t.apps && row.cols == t.apps[id].cols
    requires t.apps[id].verifyCode != "" ==> row.verifyCode == t.apps[id].verifyCode
    ensures var u := t.(apps := t.apps[id := row]);
            OnlyAt(t, u, id) && Extends(t, u) && u.apps.Keys == t.apps.Keys && u.apps[id] == row
  {
  }

  lemma Unchanged(t: Tables, id: string)
    ensures OnlyAt(t, t, id) && Extends(t, t)
  {
  }

  lemma UpdateCodeKeeps(t: Tables, id: string, code: string, onlyIfEmpty: bool)
    requires Constraints(t) && UpdateCode(t, id, code, onlyIfEmpty).Ok?
    requires id in t.apps && t.apps[id].verifyCode != "" ==> t.apps[id].verifyCode == code
    ensures var u := Apply(t, UpdateCode(t, id, code, onlyIfEmpty).value);
            && Constraints(u) && Extends(t, u) && u.apps.Keys == t.apps.Keys && OnlyAt(t, u, id)
            && (id in t.apps ==> u.apps[id].verifyCode == code || u.apps[id] == t.apps[id])
  {
    hide Constraints, CodeTaken, Extends, OnlyAt;
    var u := Apply(t, UpdateCode(t, id, code, onlyIfEmpty).value);
    if UpdateCode(t, id, code, onlyIfEmpty).value.Nothing? {
      Unchanged(t, id);
    } else {
      Replaced(t, id, t.apps[id].(verifyCode := code));
      RowKeeps(t, u, id);
    }
  }

  lemma EditApplicationKeeps(t: Tables, id: string, rollNo: Option<string>, confirmed: bool, status: string)
    requires Constraints(t) && EditApplication(t, id, rollNo, confirmed, status).Ok?
    ensures var u := Apply(t, EditApplication(t, id, rollNo, confirmed, status).value);
            && Constraints(u) && Extends(t, u) && u.apps.Keys == t.apps.Keys && OnlyAt(t, u, id)
            && (id in t.apps ==>
                  && u.apps[id].verifyCode == t.apps[id].verifyCode
                  && u.apps[id].rollNo == rollNo && u.apps[id].confirmed == confirmed && u.apps[id].status == status)
  {
    hide Constraints, RollTaken, Extends, OnlyAt;
    var u := Apply(t, EditApplication(t, id, rollNo, confirmed, status).value);
    if id !in t.apps {
      Unchanged(t, id);
    } else {
      Replaced(t, id, t.apps[id].(rollNo := rollNo, confirmed := confirmed, status := status));
      RowKeeps(t, u, id);
    }
  }

  lemma FreshEmail(t: Tables, u: Tables, id: string, sub: Subscriber)
    requires Constraints(t) && !EmailTaken(t, sub.emailBidx) && u == t.(subs := t.subs[id := sub])
    ensures Constraints(u)
  {
    assert UniquePhones(u) && UniqueCodes(u) && UniqueRolls(u);
    hide UniquePhones, UniqueCodes, UniqueRolls;
    forall i, j | i in u.subs && j in u.subs && u.subs[i].emailBidx == u.subs[j].emailBidx
      ensures i == j
    {
    }
  }

  lemma InsertSubscriberKeeps(t: Tables, id: string, sub: Subscriber)
    requires Constraints(t) && InsertSubscriber(t, id, sub).Ok?
    ensures var u := Apply(t, InsertSubscriber(t, id, sub).value);
            Constraints(u) && Extends(t, u) && u.apps == t.apps
  {
    hide Constraints, EmailTaken;
    if !EmailTaken(t, sub.emailBidx) {
      FreshEmail(t, Apply(t, SubInserted(id, sub)), id, sub);
    }
  }

  // ---- what a rejected statement would have done ------------------------------

  /** An INSERT under a fresh id is rejected exactly when the new row would break a
      unique index. */
  lemma RejectedInsert(t: Tables, id: string, cols: Columns)
    requires Constraints(t) && id !in t.apps
    ensures InsertApplication(t, id, cols).Err?
            <==> !Constraints(Apply(t, AppInserted(id, Application(cols, None, false, "submitted", ""))))
  {
    var u := Apply(t, AppInserted(id, Application(cols, None, false, "submitted", "")));
    if InsertApplication(t, id, cols).Ok? {
      InsertApplicationKeeps(t, id, cols);
    } else {
      hide Constraints;
      var i :| i in t.apps && t.apps[i].cols.phoneBidx == cols.phoneBidx;
      TwoRows(u, i, id);
    }
  }

  /** A code UPDATE that applies is rejected exactly when the new code would break a
      unique index. */
  lemma RejectedUpdate(t: Tables, id: string, code: string, onlyIfEmpty: bool)
    requires Constraints(t) && id in t.apps && !(onlyIfEmpty && t.apps[id].verifyCode != "")
    ensures UpdateCode(t, id, code, onlyIfEmpty).Err? <==> !Constraints(Apply(t, CodeSet(id, code)))
  {
    hide Constraints;
    var u := Apply(t, CodeSet(id, code));
    if CodeTaken(t, id, code) {
      var i :| i in t.apps && i != id && t.apps[i].verifyCode == code;
      TwoRows(u, i, id);
    } else {
      assert OnlyAt(t, u, id);
      RowKeeps(t, u, id);
    }
  }

  /** An edit is rejected exactly when the new roll number would break a unique index. */
  lemma RejectedEdit(t: Tables, id: string, rollNo: Option<string>, confirmed: bool, status: string)
    requires Constraints(t) && id in t.apps
    ensures EditApplication(t, id, rollNo, confirmed, status).Err?
            <==> !Constraints(Apply(t, Edited(id, rollNo, confirmed, status)))
  {
    hide Constraints;
    var u := Apply(t, Edited(id, rollNo, confirmed, status));
    if RollTaken(t, id, rollNo) {
      var i :| i in t.apps && i != id && t.apps[i].rollNo == rollNo;
      TwoRows(u, i, id);
    } else {
      assert OnlyAt(t, u, id);
      RowKeeps(t, u, id);
    }
  }

  lemma TwoRows(u: Tables, i: string, j: string)
    requires i in u.apps && j in u.apps && i != j
    requires || u.apps[i].cols.phoneBidx == u.apps[j].cols.phoneBidx
             || u.apps[i].verifyCode == u.apps[j].verifyCode != ""
             || u.apps[i].rollNo == u.apps[j].rollNo != None
    ensures !Constraints(u)
  {
  }
}
