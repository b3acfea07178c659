/** What every step of the protocol keeps, and what therefore holds over whole runs
    of any length, with any number of clients, any replica lag and any lost or
    unanswered statement. */
module Safety {
  import opened Wrappers
  import opened Utf8
  import opened Text
  import opened Crypto
  import opened Tables
  import opened Protocol
  import Geo

  // ---- the tables -------------------------------------------------------------

  /** The unique indexes hold and every code is the one of its own row. */
  ghost predicate Good(svc: Service, t: Tables)
    requires svc.Valid()
  {
    Constraints(t) && OwnCodes(svc, t)
  }

  ghost predicate OwnCodes(svc: Service, t: Tables)
    requires svc.Valid()
  {
    forall i :: i in t.apps ==> t.apps[i].verifyCode == "" || t.apps[i].verifyCode == CodeOf(svc, i)
  }

  /** Replaying the log from `t` passes through good tables only, never loses a row
      or a code, and ends at `p`. */
  ghost predicate Chain(svc: Service, t: Tables, wal: seq<Change>, p: Tables)
    requires svc.Valid()
    decreases |wal|
  {
    && Good(svc, t)
    && Extends(t, p)
    && (if wal == [] then t == p
        else Extends(t, Apply(t, wal[0])) && Chain(svc, Apply(t, wal[0]), wal[1..], p))
  }

  lemma {:induction false} ChainAppend(svc: Service, t: Tables, wal: seq<Change>, p: Tables, change: Change)
    requires svc.Valid() && Chain(svc, t, wal, p)
    requires Good(svc, Apply(p, change)) && Extends(p, Apply(p, change))
    ensures Chain(svc, t, wal + [change], Apply(p, change))
    decreases |wal|
  {
    var q := Apply(p, change);
    var longer := wal + [change];
    ExtendsTransitive(t, p, q);
    if wal == [] {
      assert longer[0] == change && longer[1..] == [];
      assert Extends(q, q);
    } else {
      assert longer[0] == wal[0] && longer[1..] == wal[1..] + [change];
      ChainAppend(svc, Apply(t, wal[0]), wal[1..], p, change);
    }
  }

  ghost predicate TablesOk(svc: Service, primary: Tables, replica: Tables, wal: seq<Change>)
    requires svc.Valid()
  {
    Good(svc, primary) && Chain(svc, replica, wal, primary)
  }

  /** A change that the primary may commit. */
  ghost predicate Safe(svc: Service, t: Tables, change: Change)
    requires svc.Valid()
  {
    Good(svc, Apply(t, change)) && Extends(t, Apply(t, change))
  }

  lemma CommitOk(svc: Service, s: System, change: Change)
    requires svc.Valid() && TablesOk(svc, s.primary, s.replica, s.wal) && Safe(svc, s.primary, change)
    ensures TablesOk(svc, Commit(s, change).primary, Commit(s, change).replica, Commit(s, change).wal)
    ensures Extends(s.primary, Commit(s, change).primary)
  {
    if !change.Nothing? {
      ChainAppend(svc, s.replica, s.wal, s.primary, change);
    }
  }

  lemma InsertSafe(svc: Service, t: Tables, id: string, cols: Columns)
    requires svc.Valid() && Good(svc, t) && InsertApplication(t, id, cols).Ok?
    ensures Safe(svc, t, InsertApplication(t, id, cols).value)
  {
    InsertApplicationKeeps(t, id, cols);
  }

  lemma UpdateCodeSafe(svc: Service, t: Tables, id: string, onlyIfEmpty: bool)
    requires svc.Valid() && Good(svc, t) && UpdateCode(t, id, CodeOf(svc, id), onlyIfEmpty).Ok?
    ensures Safe(svc, t, UpdateCode(t, id, CodeOf(svc, id), onlyIfEmpty).value)
    ensures Apply(t, UpdateCode(t, id, CodeOf(svc, id), onlyIfEmpty).value).apps.Keys == t.apps.Keys
  {
    UpdateCodeKeeps(t, id, CodeOf(svc, id), onlyIfEmpty);
  }

  lemma EditSafe(svc: Service, t: Tables, id: string, rollNo: Option<string>, confirmed: bool, status: string)
    requires svc.Valid() && Good(svc, t) && EditApplication(t, id, rollNo, confirmed, status).Ok?
    ensures Safe(svc, t, EditApplication(t, id, rollNo, confirmed, status).value)
    ensures Apply(t, EditApplication(t, id, rollNo, confirmed, status).value).apps.Keys == t.apps.Keys
  {
    EditApplicationKeeps(t, id, rollNo, confirmed, status);
  }

  lemma SubscriberSafe(svc: Service, t: Tables, id: string, sub: Subscriber)
    requires svc.Valid() && Good(svc, t) && InsertSubscriber(t, id, sub).Ok?
    ensures Safe(svc, t, InsertSubscriber(t, id, sub).value)
    ensures Apply(t, InsertSubscriber(t, id, sub).value).apps == t.apps
  {
    InsertSubscriberKeeps(t, id, sub);
  }

  // ---- the bookkeeping --------------------------------------------------------

  /** The input passes every check of the handler that the store relies on. */
  predicate Admissible(svc: Service, input: ApplicationInput) {
    AcceptedInput(input) && Geo.Listed(svc.cm, svc.divisions, input.division, input.district)
  }

  /** The row is the image of an accepted submission: what MakeColumns gives,
      column by column. */
  ghost predicate ImageOf(svc: Service, sub: Submission, cols: Columns) {
    var input, d := sub.input, sub.draw;
    && Admissible(svc, input)
    && Seal(svc, input.name, d.name) == Ok(cols.nameEnc)
    && Seal(svc, input.phone, d.phone) == Ok(cols.phoneEnc)
    && Seal(svc, input.email, d.email) == Ok(cols.emailEnc)
    && Seal(svc, input.dob, d.dob) == Ok(cols.dobEnc)
    && Seal(svc, input.address, d.address) == Ok(cols.addressEnc)
    && Seal(svc, input.education, d.education) == Ok(cols.educationEnc)
    && Seal(svc, input.gpa, d.gpa) == Ok(cols.gpaEnc)
    && Seal(svc, input.photoData, d.photo) == Ok(cols.photoEnc)
    && cols.gender == input.gender && cols.passingYear == input.passingYear
    && cols.computerSkill == input.computerSkill && cols.ownComputer == input.ownComputer
    && cols.canAttend == input.canAttend && cols.division == input.division && cols.district == input.district
    && cols.phoneBidx == PhoneKey(svc, input.phone)
    && cols.phoneDobBidx == CardKey(svc, input.phone, input.dob)
    && cols.batch == d.batch && cols.createdOn == d.today
  }

  lemma ImageMeaning(svc: Service, sub: Submission, cols: Columns)
    ensures ImageOf(svc, sub, cols) <==> Admissible(svc, sub.input) && MakeColumns(svc, sub.input, sub.draw) == Ok(cols)
  {
    hide Seal, PhoneKey, CardKey, Admissible;
  }

  ghost predicate Recorded(svc: Service, stored: map<string, Submission>, apps: map<string, Application>) {
    && stored.Keys == apps.Keys
    && forall i :: i in stored ==> ImageOf(svc, stored[i], apps[i].cols)
  }

  /** What a row says of the course of its application: its roll number, shown empty
      when it has none, whether it is confirmed, and its status. */
  ghost predicate Lifecycle(row: Application, rollNo: string, confirmed: bool, status: string) {
    && confirmed == row.confirmed && status == row.status
    && match row.rollNo
       case None => rollNo == ""
       case Some(r) => rollNo == r
  }

  /** The view shows the decrypted columns of its row. */
  ghost predicate Shows(svc: Service, view: AdmitCardView, cols: Columns) {
    && view.name == Unseal(svc, cols.nameEnc)
    && view.phone == Unseal(svc, cols.phoneEnc)
    && view.email == Unseal(svc, cols.emailEnc)
    && view.address == Unseal(svc, cols.addressEnc)
    && view.education == Unseal(svc, cols.educationEnc)
    && view.photo == Unseal(svc, cols.photoEnc)
    && view.division == cols.division && view.district == cols.district
    && view.batch == cols.batch && view.applicationDate == cols.createdOn
  }

  /** A card handed out (or about to be) belongs to a stored row that the lookup
      matches, and carries that row's own code. */
  ghost predicate CardOk(svc: Service, apps: map<string, Application>, l: AdmitCardLookup, view: AdmitCardView)
    requires svc.Valid()
  {
    && AcceptedLookup(l)
    && view.id in apps
    && view.verifyCode == CodeOf(svc, view.id)
    && apps[view.id].cols.phoneDobBidx == CardKey(svc, l.phone, l.dob)
    && Shows(svc, view, apps[view.id].cols)
  }

  ghost predicate StoredAs(stored: map<string, Submission>, id: string, input: ApplicationInput) {
    id in stored && stored[id].input == input
  }

  ghost predicate PendingOk(svc: Service, stored: map<string, Submission>, apps: map<string, Application>, p: Pending)
    requires svc.Valid()
  {
    match p
    case WritingCode(input, id) => StoredAs(stored, id, input)
    case Backfilling(l, view) => CardOk(svc, apps, l, view)
  }

  /** The query is the code of a row that holds it. */
  ghost predicate Resolves(svc: Service, apps: map<string, Application>, query: string, id: string)
    requires svc.Valid()
  {
    id in apps && apps[id].verifyCode == CodeOf(svc, id) == CleanQuery(svc.cm, Trim(query))
  }

  ghost predicate ReplyOk(svc: Service, stored: map<string, Submission>, apps: map<string, Application>, r: Reply)
    requires svc.Valid()
  {
    match r
    case Created(input, id) => StoredAs(stored, id, input)
    case Card(l, view) => CardOk(svc, apps, l, view)
    case Genuine(query, _) => exists id :: Resolves(svc, apps, query, id)
    case _ => true
  }

  ghost predicate ClientsOk(svc: Service, s: System)
    requires svc.Valid()
  {
    forall c :: c in s.clients ==> PendingOk(svc, s.stored, s.primary.apps, s.clients[c])
  }

  ghost predicate OutboxOk(svc: Service, s: System)
    requires svc.Valid()
  {
    forall k :: 0 <= k < |s.outbox| ==> ReplyOk(svc, s.stored, s.primary.apps, s.outbox[k])
  }

  ghost predicate Inv(svc: Service, s: System)
    requires svc.Valid()
  {
    && TablesOk(svc, s.primary, s.replica, s.wal)
    && Recorded(svc, s.stored, s.primary.apps)
    && ClientsOk(svc, s)
    && OutboxOk(svc, s)
  }

  /** Nothing that was ever stored, recorded or answered is taken back. */
  ghost predicate Grows(s: System, s': System) {
    && Extends(s.primary, s'.primary)
    && (forall i :: i in s.stored ==> i in s'.stored && s'.stored[i] == s.stored[i])
    && s.outbox <= s'.outbox
  }

  lemma ExtendsReflexive(t: Tables)
    ensures Extends(t, t)
  {
  }

  lemma GrowsReflexive(s: System)
    ensures Grows(s, s)
  {
  }

  lemma GrowsTransitive(s: System, t: System, u: System)
    requires Grows(s, t) && Grows(t, u)
    ensures Grows(s, u)
  {
    ExtendsTransitive(s.primary, t.primary, u.primary);
  }

  lemma CodeNotEmpty(svc: Service, id: string)
    requires svc.Valid()
    ensures CodeOf(svc, id) != ""
  {
    DocCodeShape(svc.cm, svc.sign, id);
  }

  lemma PendingStable(svc: Service, s: System, s': System, p: Pending)
    requires svc.Valid() && Grows(s, s') && PendingOk(svc, s.stored, s.primary.apps, p)
    ensures PendingOk(svc, s'.stored, s'.primary.apps, p)
  {
  }

  lemma ReplyStable(svc: Service, s: System, s': System, r: Reply)
    requires svc.Valid() && Grows(s, s') && ReplyOk(svc, s.stored, s.primary.apps, r)
    ensures ReplyOk(svc, s'.stored, s'.primary.apps, r)
  {
    if r.Genuine? {
      var id :| Resolves(svc, s.primary.apps, r.query, id);
      CodeNotEmpty(svc, id);
      assert Resolves(svc, s'.primary.apps, r.query, id);
    }
  }

  /** What a step that answers at most once has to establish. */
  lemma StepOk(svc: Service, s: System, s': System)
    requires svc.Valid() && Inv(svc, s)
    requires TablesOk(svc, s'.primary, s'.replica, s'.wal) && Recorded(svc, s'.stored, s'.primary.apps) && Grows(s, s')
    requires forall c :: c in s'.clients ==>
               || (c in s.clients && s'.clients[c] == s.clients[c])
               || PendingOk(svc, s'.stored, s'.primary.apps, s'.clients[c])
    requires || s'.outbox == s.outbox
             || (|s'.outbox| == |s.outbox| + 1 && ReplyOk(svc, s'.stored, s'.primary.apps, s'.outbox[|s.outbox|]))
    ensures Inv(svc, s')
  {
    hide TablesOk, Recorded, CardOk, CodeOf, ImageOf;
    forall c | c in s'.clients
      ensures PendingOk(svc, s'.stored, s'.primary.apps, s'.clients[c])
    {
      if c in s.clients && s'.clients[c] == s.clients[c] {
        PendingStable(svc, s, s', s.clients[c]);
      }
    }
    forall k | 0 <= k < |s'.outbox|
      ensures ReplyOk(svc, s'.stored, s'.primary.apps, s'.outbox[k])
    {
      if k < |s.outbox| {
        assert s'.outbox[k] == s.outbox[k];
        ReplyStable(svc, s, s', s.outbox[k]);
      }
    }
  }

  // ---- every step keeps the invariant -----------------------------------------

  lemma RecordedUpdate(svc: Service, s: System, s': System)
    requires Recorded(svc, s.stored, s.primary.apps) && Extends(s.primary, s'.primary)
    requires s'.primary.apps.Keys == s.primary.apps.Keys && s'.stored == s.stored
    ensures Recorded(svc, s'.stored, s'.primary.apps)
  {
    hide ImageOf;
  }

  lemma TellOk(svc: Service, s: System, r: Reply)
    requires svc.Valid() && Inv(svc, s) && ReplyOk(svc, s.stored, s.primary.apps, r)
    ensures Inv(svc, Tell(s, r)) && Grows(s, Tell(s, r))
  {
    hide TablesOk, Recorded, CardOk, CodeOf, ImageOf;
    var t := Tell(s, r);
    assert t.outbox[|s.outbox|] == r;
    ReplyStable(svc, s, t, r);
    StepOk(svc, s, t);
  }

  lemma SubmitOk(svc: Service, s: System, c: Client, req: Request<ApplicationInput>, draw: Draw, link: Link)
    requires svc.Valid() && Inv(svc, s)
    ensures var t := SubmitStep(svc, s, c, req, draw, link); Inv(svc, t) && Grows(s, t)
  {
    hide Inv, Grows, ImageOf;
    GrowsReflexive(s);
    var gate := SubmitGate(svc, req);
    if c in s.clients {
    } else if gate.Some? {
      TellOk(svc, s, Refused(gate.value));
    } else {
      InsertStepOk(svc, s, c, req.parsed.value, draw, link);
    }
  }

  lemma InsertStepOk(svc: Service, s: System, c: Client, input: ApplicationInput, draw: Draw, link: Link)
    requires svc.Valid() && Inv(svc, s) && c !in s.clients && Admissible(svc, input)
    ensures var t := InsertStep(svc, s, c, input, draw, link); Inv(svc, t) && Grows(s, t)
  {
    hide MakeColumns, Inv, Grows, InsertApplication, Admissible;
    var made := MakeColumns(svc, input, draw);
    if made.Err? || link == Lost {
      TellOk(svc, s, Failed);
    } else if InsertApplication(s.primary, draw.id, made.value).Err? {
      TellOk(svc, s, if link == Delivered then AlreadyApplied(input) else Failed);
    } else {
      ImageMeaning(svc, Submission(input, draw), made.value);
      InsertedOk(svc, s, input, draw, made.value);
      AfterInsert(svc, s, Inserted(s, input, draw, made.value), c, input, draw.id);
    }
  }

  /** The client goes on to write the code, or sees a failure. */
  lemma AfterInsert(svc: Service, s: System, t: System, c: Client, input: ApplicationInput, id: string)
    requires svc.Valid() && Inv(svc, t) && Grows(s, t) && StoredAs(t.stored, id, input)
    ensures Inv(svc, Tell(t, Failed)) && Grows(s, Tell(t, Failed))
    ensures var u := t.(clients := t.clients[c := WritingCode(input, id)]); Inv(svc, u) && Grows(s, u)
  {
    hide Inv, Grows;
    TellOk(svc, t, Failed);
    GrowsTransitive(s, t, Tell(t, Failed));
    WaitOk(svc, t, c, input, id);
    GrowsTransitive(s, t, t.(clients := t.clients[c := WritingCode(input, id)]));
  }

  /** The committed INSERT, before the client learns of it. */
  function Inserted(s: System, input: ApplicationInput, draw: Draw, cols: Columns): System
    requires InsertApplication(s.primary, draw.id, cols).Ok?
  {
    Commit(s, InsertApplication(s.primary, draw.id, cols).value).(stored := s.stored[draw.id := Submission(input, draw)])
  }

  lemma InsertedOk(svc: Service, s: System, input: ApplicationInput, draw: Draw, cols: Columns)
    requires svc.Valid() && Inv(svc, s) && ImageOf(svc, Submission(input, draw), cols)
    requires InsertApplication(s.primary, draw.id, cols).Ok?
    ensures var t := Inserted(s, input, draw, cols); Inv(svc, t) && Grows(s, t) && StoredAs(t.stored, draw.id, input)
  {
    hide ImageOf, Good, Chain, Safe, ClientsOk, OutboxOk, Recorded;
    InsertSafe(svc, s.primary, draw.id, cols);
    var change := InsertApplication(s.primary, draw.id, cols).value;
    CommitOk(svc, s, change);
    var t := Inserted(s, input, draw, cols);
    assert t.primary.apps == s.primary.apps[draw.id := change.row];
    assert draw.id !in s.primary.apps && change.row.cols == cols;
    InsertRecorded(svc, s, t, draw.id, Submission(input, draw), cols);
    StepOk(svc, s, t);
  }

  /** The client goes on to write the code. */
  lemma WaitOk(svc: Service, s: System, c: Client, input: ApplicationInput, id: string)
    requires svc.Valid() && Inv(svc, s) && StoredAs(s.stored, id, input)
    ensures var t := s.(clients := s.clients[c := WritingCode(input, id)]); Inv(svc, t) && Grows(s, t)
  {
    hide ImageOf, TablesOk, Recorded;
    StepOk(svc, s, s.(clients := s.clients[c := WritingCode(input, id)]));
  }

  lemma InsertRecorded(svc: Service, s: System, t: System, id: string, sub: Submission, cols: Columns)
    requires Recorded(svc, s.stored, s.primary.apps) && Extends(s.primary, t.primary)
    requires id !in s.primary.apps && t.primary.apps.Keys == s.primary.apps.Keys + {id}
    requires t.stored == s.stored[id := sub] && t.primary.apps[id].cols == cols && ImageOf(svc, sub, cols)
    ensures Recorded(svc, t.stored, t.primary.apps)
    ensures forall i :: i in s.stored ==> i in t.stored && t.stored[i] == s.stored[i]
  {
    hide ImageOf;
  }

  lemma CodeUpdateOk(svc: Service, s: System, id: string, onlyIfEmpty: bool, link: Link)
    requires svc.Valid() && Inv(svc, s)
    ensures var t := CodeUpdate(svc, s, id, onlyIfEmpty, link);
            && TablesOk(svc, t.primary, t.replica, t.wal) && Recorded(svc, t.stored, t.primary.apps) && Grows(s, t)
            && t.clients == s.clients && t.outbox == s.outbox && t.stored == s.stored
  {
    hide Good, Chain, CodeOf, ClientsOk, OutboxOk, Safe, UpdateCode, Apply, ImageOf, Recorded, Extends;
    var code := CodeOf(svc, id);
    ExtendsReflexive(s.primary);
    if link != Lost && UpdateCode(s.primary, id, code, onlyIfEmpty).Ok? {
      var change := UpdateCode(s.primary, id, code, onlyIfEmpty).value;
      UpdateCodeSafe(svc, s.primary, id, onlyIfEmpty);
      CommitOk(svc, s, change);
      RecordedUpdate(svc, s, Commit(s, change));
    }
  }

  /** The UPDATE is done and the waiting client is answered. */
  lemma AnswerOk(svc: Service, s: System, c: Client, id: string, onlyIfEmpty: bool, link: Link, r: Reply)
    requires svc.Valid() && Inv(svc, s) && ReplyOk(svc, s.stored, s.primary.apps, r)
    ensures var t := CodeUpdate(svc, s, id, onlyIfEmpty, link);
            var u := Tell(t.(clients := t.clients - {c}), r);
            Inv(svc, u) && Grows(s, u)
  {
    hide TablesOk, Recorded, CodeUpdate, CardOk, CodeOf, ClientsOk, OutboxOk, ImageOf;
    CodeUpdateOk(svc, s, id, onlyIfEmpty, link);
    var t := CodeUpdate(svc, s, id, onlyIfEmpty, link);
    var u := Tell(t.(clients := t.clients - {c}), r);
    assert u.outbox[|s.outbox|] == r;
    ReplyStable(svc, s, u, r);
    StepOk(svc, s, u);
  }

  lemma WriteCodeOk(svc: Service, s: System, c: Client, link: Link)
    requires svc.Valid() && Inv(svc, s)
    ensures var t := WriteCodeStep(svc, s, c, link); Inv(svc, t) && Grows(s, t)
  {
    hide TablesOk, Recorded, CodeUpdate, CardOk, CodeOf, OutboxOk, Grows, ImageOf;
    GrowsReflexive(s);
    if c in s.clients && s.clients[c].WritingCode? {
      var p := s.clients[c];
      assert PendingOk(svc, s.stored, s.primary.apps, p);
      AnswerOk(svc, s, c, p.id, false, link, Created(p.input, p.id));
    }
  }

  lemma BackfillOk(svc: Service, s: System, c: Client, link: Link)
    requires svc.Valid() && Inv(svc, s)
    ensures var t := BackfillStep(svc, s, c, link); Inv(svc, t) && Grows(s, t)
  {
    hide TablesOk, Recorded, CodeUpdate, CardOk, CodeOf, OutboxOk, Grows, ImageOf;
    GrowsReflexive(s);
    if c in s.clients && s.clients[c].Backfilling? {
      var p := s.clients[c];
      assert PendingOk(svc, s.stored, s.primary.apps, p);
      AnswerOk(svc, s, c, p.view.id, true, link, Card(p.lookup, p.view));
    }
  }

  /** Reads are served by good tables that the primary extends. */
  lemma PoolOk(svc: Service, s: System)
    requires svc.Valid() && TablesOk(svc, s.primary, s.replica, s.wal)
    ensures Good(svc, Pool(svc, s)) && Extends(Pool(svc, s), s.primary)
  {
  }

  lemma LookupOk(svc: Service, s: System, c: Client, ask: Request<AdmitCardLookup>, pick: string, link: Link)
    requires svc.Valid() && Inv(svc, s)
    ensures var t := LookupStep(svc, s, c, ask, pick, link); Inv(svc, t) && Grows(s, t)
  {
    hide Inv, Grows, ImageOf;
    GrowsReflexive(s);
    var gate := LookupGate(ask);
    if c in s.clients {
    } else if gate.Some? {
      TellOk(svc, s, Refused(gate.value));
    } else {
      FindOk(svc, s, c, ask.parsed.value, pick, link);
    }
  }

  /** A row that the query found gives a proper card, even from a stale pool. */
  lemma FoundCard(svc: Service, pool: Tables, primary: Tables, l: AdmitCardLookup, pick: string)
    requires svc.Valid() && Good(svc, pool) && Extends(pool, primary) && AcceptedLookup(l)
    requires pick in CardMatches(pool, CardKey(svc, l.phone, l.dob))
    ensures CardOk(svc, primary.apps, l, CardView(svc, pick, pool.apps[pick]))
  {
    hide Good, CodeOf, CardKey, AcceptedLookup, Unseal;
    if pool.apps[pick].verifyCode != "" {
      OwnCode(svc, pool, pick);
    }
  }

  lemma FindOk(svc: Service, s: System, c: Client, l: AdmitCardLookup, pick: string, link: Link)
    requires svc.Valid() && Inv(svc, s) && c !in s.clients && AcceptedLookup(l)
    ensures var t := FindStep(svc, s, c, l, pick, link); Inv(svc, t) && Grows(s, t)
  {
    hide Inv, Grows, Tell, Pool, CardKey, CardOk, CardView, AcceptedLookup;
    var pool := Pool(svc, s);
    var found := CardMatches(pool, CardKey(svc, l.phone, l.dob));
    GrowsReflexive(s);
    TellOk(svc, s, Failed);
    TellOk(svc, s, NoCard(l));
    if pick in found {
      var view := CardView(svc, pick, pool.apps[pick]);
      FoundOk(svc, s, l, pick);
      TellOk(svc, s, Card(l, view));
      AskOk(svc, s, c, l, view);
    }
  }

  lemma FoundOk(svc: Service, s: System, l: AdmitCardLookup, pick: string)
    requires svc.Valid() && Inv(svc, s) && AcceptedLookup(l)
    requires pick in CardMatches(Pool(svc, s), CardKey(svc, l.phone, l.dob))
    ensures CardOk(svc, s.primary.apps, l, CardView(svc, pick, Pool(svc, s).apps[pick]))
  {
    hide TablesOk, Good, Recorded, ClientsOk, OutboxOk, CardKey, CardOk, CardView, AcceptedLookup, Pool;
    PoolOk(svc, s);
    FoundCard(svc, Pool(svc, s), s.primary, l, pick);
  }

  /** The client goes on to the backfill. */
  lemma AskOk(svc: Service, s: System, c: Client, l: AdmitCardLookup, view: AdmitCardView)
    requires svc.Valid() && Inv(svc, s) && CardOk(svc, s.primary.apps, l, view)
    ensures var t := s.(clients := s.clients[c := Backfilling(l, view)]); Inv(svc, t) && Grows(s, t)
  {
    hide TablesOk, Recorded, CardOk, ClientsOk, OutboxOk;
    StepOk(svc, s, s.(clients := s.clients[c := Backfilling(l, view)]));
  }

  lemma OwnCode(svc: Service, t: Tables, id: string)
    requires svc.Valid() && Good(svc, t) && id in t.apps && t.apps[id].verifyCode != ""
    ensures t.apps[id].verifyCode == CodeOf(svc, id)
  {
    hide CodeOf;
  }

  /** A row that the code query found makes the answer right. */
  lemma HitOk(svc: Service, s: System, query: string, pick: string)
    requires svc.Valid() && Inv(svc, s) && CleanQuery(svc.cm, Trim(query)) != ""
    requires pick in CodeMatches(Pool(svc, s), CleanQuery(svc.cm, Trim(query)))
    ensures Resolves(svc, s.primary.apps, query, pick)
  {
    hide Trim, ImageOf, TablesOk, Recorded, ClientsOk, OutboxOk, Good, CleanQuery, CodeOf, Pool;
    PoolOk(svc, s);
    OwnCode(svc, Pool(svc, s), pick);
  }

  lemma VerifyOk(svc: Service, s: System, query: string, pick: string, link: Link)
    requires svc.Valid() && Inv(svc, s)
    ensures var t := VerifyStep(svc, s, query, pick, link); Inv(svc, t) && Grows(s, t)
  {
    hide Trim, Encode, Inv, Grows, Tell, CleanQuery, Pool, Resolves, DocumentView;
    var clean := CleanQuery(svc.cm, Trim(query));
    var pool := Pool(svc, s);
    GrowsReflexive(s);
    TellOk(svc, s, Refused(Malformed));
    TellOk(svc, s, NotGenuine(query));
    TellOk(svc, s, Failed);
    if pick in CodeMatches(pool, clean) && clean != "" {
      HitOk(svc, s, query, pick);
      TellOk(svc, s, Genuine(query, DocumentView(pool.apps[pick])));
    }
  }

  /** The committed subscription, before the client learns of it. */
  function Taken(s: System, id: string, sub: Subscriber, email: string): System
    requires InsertSubscriber(s.primary, id, sub).Ok?
  {
    Commit(s, InsertSubscriber(s.primary, id, sub).value).(taken := s.taken + [email])
  }

  lemma TakenOk(svc: Service, s: System, id: string, sub: Subscriber, email: string)
    requires svc.Valid() && Inv(svc, s) && InsertSubscriber(s.primary, id, sub).Ok?
    ensures var t := Taken(s, id, sub, email); Inv(svc, t) && Grows(s, t)
  {
    hide Good, Chain, Safe, InsertSubscriber, Apply, ClientsOk, OutboxOk, Recorded, ImageOf, Extends;
    var change := InsertSubscriber(s.primary, id, sub).value;
    var t := Taken(s, id, sub, email);
    SubscriberSafe(svc, s.primary, id, sub);
    CommitOk(svc, s, change);
    assert t.primary.apps == s.primary.apps;
    RecordedUpdate(svc, s, t);
    StepOk(svc, s, t);
  }

  lemma SubscribeOk(svc: Service, s: System, mail: Request<string>, id: string, nonce: Option<Nonce>, link: Link)
    requires svc.Valid() && Inv(svc, s)
    ensures var t := SubscribeStep(svc, s, mail, id, nonce, link); Inv(svc, t) && Grows(s, t)
  {
    hide Inv, Grows, Tell, Commit, InsertSubscriber, Hash, Seal;
    var gate := MailGate(mail);
    TellOk(svc, s, Failed);
    if gate.Some? {
      TellOk(svc, s, Refused(gate.value));
    } else if Seal(svc, mail.parsed.value, nonce).Ok? {
      var email := mail.parsed.value;
      var sub := Subscriber(Seal(svc, email, nonce).value, Hash(svc.cm, svc.blind, email));
      if InsertSubscriber(s.primary, id, sub).Ok? {
        var t := Taken(s, id, sub, email);
        TakenOk(svc, s, id, sub, email);
        TellOk(svc, t, Subscribed(email));
        TellOk(svc, t, Failed);
        GrowsTransitive(s, t, Tell(t, Subscribed(email)));
        GrowsTransitive(s, t, Tell(t, Failed));
      }
    }
  }

  lemma ReplicateOk(svc: Service, s: System)
    requires svc.Valid() && Inv(svc, s)
    ensures Inv(svc, ReplicateStep(s)) && Grows(s, ReplicateStep(s))
  {
    hide ImageOf, Good, Recorded, ClientsOk, OutboxOk;
    var t := ReplicateStep(s);
    assert Chain(svc, t.replica, t.wal, t.primary);
    StepOk(svc, s, t);
  }

  lemma AdminOk(svc: Service, s: System, id: string, rollNo: Option<string>, confirmed: bool, status: string)
    requires svc.Valid() && Inv(svc, s)
    ensures var t := AdminStep(s, id, rollNo, confirmed, status); Inv(svc, t) && Grows(s, t)
  {
    hide Good, Chain, Safe, EditApplication, Apply, ClientsOk, OutboxOk, Recorded, ImageOf, Extends;
    var done := EditApplication(s.primary, id, rollNo, confirmed, status);
    if done.Err? {
      ExtendsReflexive(s.primary);
    } else {
      EditSafe(svc, s.primary, id, rollNo, confirmed, status);
      CommitOk(svc, s, done.value);
      var t := Commit(s, done.value);
      RecordedUpdate(svc, s, t);
      StepOk(svc, s, t);
    }
  }

  lemma CrashOk(svc: Service, s: System, c: Client)
    requires svc.Valid() && Inv(svc, s)
    ensures var t := s.(clients := s.clients - {c}); Inv(svc, t) && Grows(s, t)
  {
    hide ImageOf;
    StepOk(svc, s, s.(clients := s.clients - {c}));
  }

  lemma NextOk(svc: Service, s: System, step: Step)
    requires svc.Valid() && Inv(svc, s)
    ensures Inv(svc, Next(svc, s, step)) && Grows(s, Next(svc, s, step))
  {
    hide Inv, Grows, ImageOf;
    match step
    case Submit(c, req, draw, link) => SubmitOk(svc, s, c, req, draw, link);
    case WriteCode(c, link) => WriteCodeOk(svc, s, c, link);
    case Lookup(c, ask, pick, link) => LookupOk(svc, s, c, ask, pick, link);
    case Backfill(c, link) => BackfillOk(svc, s, c, link);
    case Verify(query, pick, link) => VerifyOk(svc, s, query, pick, link);
    case Subscribe(mail, id, nonce, link) => SubscribeOk(svc, s, mail, id, nonce, link);
    case Replicate => ReplicateOk(svc, s);
    case Crash(c) => CrashOk(svc, s, c);
    case AdminEdit(id, rollNo, confirmed, status) => AdminOk(svc, s, id, rollNo, confirmed, status);
  }

  lemma InitOk(svc: Service)
    requires svc.Valid()
    ensures Inv(svc, INIT)
  {
  }

  /** Safety over whole runs: the invariant is never left, and nothing that was
      stored, recorded or answered is ever taken back. */
  lemma {:induction false} RunOk(svc: Service, s: System, steps: seq<Step>)
    requires svc.Valid() && Inv(svc, s)
    ensures Inv(svc, Run(svc, s, steps)) && Grows(s, Run(svc, s, steps))
  {
    hide Inv, Grows, ImageOf;
    GrowsReflexive(s);
    if steps == [] {
    } else {
      var k := |steps| - 1;
      var t := Run(svc, s, steps[..k]);
      RunOk(svc, s, steps[..k]);
      NextOk(svc, t, steps[k]);
      GrowsTransitive(s, t, Next(svc, t, steps[k]));
    }
  }
}
