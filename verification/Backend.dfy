/** The repository and the handlers as code: database calls one after another, with
    the rest of the world running at every point where a request waits.  Each method
    is proved to be a run of the protocol. */
module Backend {
  import opened Wrappers
  import opened Utf8
  import opened Text
  import opened Crypto
  import opened Tables
  import opened Protocol
  import Dates
  import Phone
  import Geo
  import opened Safety
  import Bookkeeping
  import Newsletter
  import VerifyCodes

  datatype RepoError = ErrDuplicate | ErrNotFound | ErrOther

  /** A database call that did not succeed, as the client sees it. */
  datatype CallError = Rejected | Unavailable

  // ---- runs of the protocol that the methods perform --------------------------

  /** The repository's part of a submission, up to the answer. */
  function CreateRun(svc: Service, s: System, c: Client, input: ApplicationInput, draw: Draw,
                     insert: Link, others: seq<Step>, update: Link): System
    requires svc.Valid()
  {
    var t := InsertStep(svc, s, c, input, draw, insert);
    if c in t.clients then Next(svc, Run(svc, t, others), WriteCode(c, update)) else t
  }

  function SubmitRun(svc: Service, s: System, c: Client, req: Request<ApplicationInput>, draw: Draw,
                     insert: Link, others: seq<Step>, update: Link): System
    requires svc.Valid()
  {
    var t := Next(svc, s, Submit(c, req, draw, insert));
    if c in t.clients then Next(svc, Run(svc, t, others), WriteCode(c, update)) else t
  }

  function CreateReply(input: ApplicationInput, r: Result<string, RepoError>): Reply {
    match r
    case Ok(id) => Created(input, id)
    case Err(e) => if e == ErrDuplicate then AlreadyApplied(input) else Failed
  }

  function FindRun(svc: Service, s: System, c: Client, l: AdmitCardLookup, pick: string, read: Link,
                   others: seq<Step>, update: Link): System
    requires svc.Valid()
  {
    var t := FindStep(svc, s, c, l, pick, read);
    if c in t.clients then Next(svc, Run(svc, t, others), Backfill(c, update)) else t
  }

  function LookupRun(svc: Service, s: System, c: Client, ask: Request<AdmitCardLookup>, pick: string, read: Link,
                     others: seq<Step>, update: Link): System
    requires svc.Valid()
  {
    var t := Next(svc, s, Lookup(c, ask, pick, read));
    if c in t.clients then Next(svc, Run(svc, t, others), Backfill(c, update)) else t
  }

  function FindReply(l: AdmitCardLookup, r: Result<AdmitCardView, RepoError>): Reply {
    match r
    case Ok(view) => Card(l, view)
    case Err(e) => if e == ErrNotFound then NoCard(l) else Failed
  }

  /** The second call of a submission, and of a lookup that backfills. */
  lemma SecondCall(svc: Service, s: System, c: Client, link: Link)
    requires svc.Valid() && c in s.clients
    ensures s.clients[c].WritingCode? ==>
              var p := s.clients[c];
              var t := CodeUpdate(svc, s, p.id, false, link);
              Next(svc, s, WriteCode(c, link)) == Tell(t.(clients := t.clients - {c}), Created(p.input, p.id))
    ensures s.clients[c].Backfilling? ==>
              var p := s.clients[c];
              var t := CodeUpdate(svc, s, p.view.id, true, link);
              Next(svc, s, Backfill(c, link)) == Tell(t.(clients := t.clients - {c}), Card(p.lookup, p.view))
  {
    hide CodeUpdate;
  }

  lemma VerifyNext(svc: Service, s: System, query: string, pick: string, link: Link)
    requires svc.Valid()
    ensures Next(svc, s, Verify(query, pick, link)) == VerifyStep(svc, s, query, pick, link)
  {
    hide VerifyStep;
  }

  lemma TwoCalls(svc: Service, s: System, first: Step, others: seq<Step>, last: Step)
    requires svc.Valid()
    ensures Run(svc, s, [first] + others + [last]) == Next(svc, Run(svc, Next(svc, s, first), others), last)
    ensures Run(svc, s, [first]) == Next(svc, s, first)
  {
    hide Next;
    assert [first][..0] == [];
    assert Run(svc, s, [first]) == Next(svc, s, first);
    RunConcat(svc, s, [first], others);
    assert ([first] + others + [last])[..|others| + 1] == [first] + others;
  }

  /** What a submission does is a run of the protocol, so whatever holds after every
      run holds after it. */
  lemma SubmitIsRun(svc: Service, s: System, c: Client, req: Request<ApplicationInput>, draw: Draw,
                    insert: Link, others: seq<Step>, update: Link)
    requires svc.Valid()
    ensures SubmitRun(svc, s, c, req, draw, insert, others, update)
         == Run(svc, s, if c in Next(svc, s, Submit(c, req, draw, insert)).clients
                        then [Submit(c, req, draw, insert)] + others + [WriteCode(c, update)]
                        else [Submit(c, req, draw, insert)])
  {
    hide Next;
    TwoCalls(svc, s, Submit(c, req, draw, insert), others, WriteCode(c, update));
  }

  lemma LookupIsRun(svc: Service, s: System, c: Client, ask: Request<AdmitCardLookup>, pick: string, read: Link,
                    others: seq<Step>, update: Link)
    requires svc.Valid()
    ensures LookupRun(svc, s, c, ask, pick, read, others, update)
         == Run(svc, s, if c in Next(svc, s, Lookup(c, ask, pick, read)).clients
                        then [Lookup(c, ask, pick, read)] + others + [Backfill(c, update)]
                        else [Lookup(c, ask, pick, read)])
  {
    hide Next;
    TwoCalls(svc, s, Lookup(c, ask, pick, read), others, Backfill(c, update));
  }

  /** A submission is refused at the gate or goes on to the repository. */
  lemma SubmitSplit(svc: Service, s: System, c: Client, req: Request<ApplicationInput>, draw: Draw,
                    insert: Link, others: seq<Step>, update: Link)
    requires svc.Valid() && c !in s.clients
    ensures SubmitRun(svc, s, c, req, draw, insert, others, update)
         == match SubmitGate(svc, req)
            case Some(why) => Tell(s, Refused(why))
            case None => CreateRun(svc, s, c, req.parsed.value, draw, insert, others, update)
    ensures forall input, r :: CreateReply(input, r).Created? ==>
              CreateReply(input, r).input == input && r.Ok? && CreateReply(input, r).id == r.value
  {
    hide SubmitGate, InsertStep, Run;
  }

  lemma LookupSplit(svc: Service, s: System, c: Client, ask: Request<AdmitCardLookup>, pick: string, read: Link,
                    others: seq<Step>, update: Link)
    requires svc.Valid() && c !in s.clients
    ensures LookupRun(svc, s, c, ask, pick, read, others, update)
         == match LookupGate(ask)
            case Some(why) => Tell(s, Refused(why))
            case None => FindRun(svc, s, c, ask.parsed.value, pick, read, others, update)
  {
    hide LookupGate, FindStep, Run;
  }

  lemma LastAnswer(svc: Service, s: System)
    requires svc.Valid() && Inv(svc, s) && s.outbox != []
    ensures ReplyOk(svc, s.stored, s.primary.apps, s.outbox[|s.outbox| - 1])
  {
    hide ReplyOk, TablesOk, Recorded, ClientsOk;
  }

  lemma SubmitKeeps(svc: Service, s: System, c: Client, req: Request<ApplicationInput>, draw: Draw,
                    insert: Link, others: seq<Step>, update: Link)
    requires svc.Valid()
    ensures Inv(svc, s) ==>
              var t := SubmitRun(svc, s, c, req, draw, insert, others, update);
              && Inv(svc, t) && Grows(s, t)
              && (t.outbox != [] ==> ReplyOk(svc, t.stored, t.primary.apps, t.outbox[|t.outbox| - 1]))
  {
    hide Inv, Grows, ReplyOk, Next, Run;
    SubmitIsRun(svc, s, c, req, draw, insert, others, update);
    if Inv(svc, s) {
      RunOk(svc, s, if c in Next(svc, s, Submit(c, req, draw, insert)).clients
                    then [Submit(c, req, draw, insert)] + others + [WriteCode(c, update)]
                    else [Submit(c, req, draw, insert)]);
      var t := SubmitRun(svc, s, c, req, draw, insert, others, update);
      if t.outbox != [] {
        LastAnswer(svc, t);
      }
    }
  }

  lemma LookupKeeps(svc: Service, s: System, c: Client, ask: Request<AdmitCardLookup>, pick: string, read: Link,
                    others: seq<Step>, update: Link)
    requires svc.Valid()
    ensures Inv(svc, s) ==>
              var t := LookupRun(svc, s, c, ask, pick, read, others, update);
              && Inv(svc, t) && Grows(s, t)
              && (t.outbox != [] ==> ReplyOk(svc, t.stored, t.primary.apps, t.outbox[|t.outbox| - 1]))
  {
    hide Inv, Grows, ReplyOk, Next, Run;
    LookupIsRun(svc, s, c, ask, pick, read, others, update);
    if Inv(svc, s) {
      RunOk(svc, s, if c in Next(svc, s, Lookup(c, ask, pick, read)).clients
                    then [Lookup(c, ask, pick, read)] + others + [Backfill(c, update)]
                    else [Lookup(c, ask, pick, read)]);
      var t := LookupRun(svc, s, c, ask, pick, read, others, update);
      if t.outbox != [] {
        LastAnswer(svc, t);
      }
    }
  }

  /** Every field that is not empty got its nonce. */
  ghost predicate Enough(input: ApplicationInput, d: Draw) {
    && (input.name == "" || d.name.Some?) && (input.phone == "" || d.phone.Some?)
    && (input.email == "" || d.email.Some?) && (input.dob == "" || d.dob.Some?)
    && (input.address == "" || d.address.Some?) && (input.education == "" || d.education.Some?)
    && (input.gpa == "" || d.gpa.Some?) && (input.photoData == "" || d.photo.Some?)
  }

  /** Each encrypted column decrypts to its own field, and the others show theirs. */
  ghost predicate Recoverable(svc: Service, input: ApplicationInput, cols: Columns) {
    && Unseal(svc, cols.nameEnc) == Encode(input.name) && Unseal(svc, cols.phoneEnc) == Encode(input.phone)
    && Unseal(svc, cols.emailEnc) == Encode(input.email) && Unseal(svc, cols.dobEnc) == Encode(input.dob)
    && Unseal(svc, cols.addressEnc) == Encode(input.address) && Unseal(svc, cols.educationEnc) == Encode(input.education)
    && Unseal(svc, cols.gpaEnc) == Encode(input.gpa) && Unseal(svc, cols.photoEnc) == Encode(input.photoData)
    && cols.gender == input.gender && cols.passingYear == input.passingYear
    && cols.computerSkill == input.computerSkill && cols.ownComputer == input.ownComputer
    && cols.canAttend == input.canAttend && cols.division == input.division && cols.district == input.district
  }

  lemma SealedFields(svc: Service, input: ApplicationInput, d: Draw)
    ensures MakeColumns(svc, input, d).Ok? <==> Enough(input, d)
    ensures svc.Valid() && MakeColumns(svc, input, d).Ok? ==> Recoverable(svc, input, MakeColumns(svc, input, d).value)
  {
    hide Seal, Unseal, PhoneKey, CardKey, Encode;
    SealsWhen(svc, input.name, d.name);
    SealsWhen(svc, input.phone, d.phone);
    SealsWhen(svc, input.email, d.email);
    SealsWhen(svc, input.dob, d.dob);
    SealsWhen(svc, input.address, d.address);
    SealsWhen(svc, input.education, d.education);
    SealsWhen(svc, input.gpa, d.gpa);
    SealsWhen(svc, input.photoData, d.photo);
    if svc.Valid() && MakeColumns(svc, input, d).Ok? {
      var cols := MakeColumns(svc, input, d).value;
      UnsealSeal(svc, input.name, d.name, cols.nameEnc);
      UnsealSeal(svc, input.phone, d.phone, cols.phoneEnc);
      UnsealSeal(svc, input.email, d.email, cols.emailEnc);
      UnsealSeal(svc, input.dob, d.dob, cols.dobEnc);
      UnsealSeal(svc, input.address, d.address, cols.addressEnc);
      UnsealSeal(svc, input.education, d.education, cols.educationEnc);
      UnsealSeal(svc, input.gpa, d.gpa, cols.gpaEnc);
      UnsealSeal(svc, input.photoData, d.photo, cols.photoEnc);
    }
  }

  /** A step that answers: the invariant is kept and the answer is right. */
  lemma AnswerKeeps(svc: Service, s: System, step: Step)
    requires svc.Valid()
    ensures Inv(svc, s) ==>
              var t := Next(svc, s, step);
              && Inv(svc, t) && Grows(s, t)
              && (t.outbox != [] ==> ReplyOk(svc, t.stored, t.primary.apps, t.outbox[|t.outbox| - 1]))
  {
    hide Inv, Grows, ReplyOk, Next;
    if Inv(svc, s) {
      NextOk(svc, s, step);
      if Next(svc, s, step).outbox != [] {
        LastAnswer(svc, Next(svc, s, step));
      }
    }
  }

  lemma MailKeeps(svc: Service, s: System, step: Step)
    requires svc.Valid() && step.Subscribe?
    ensures Newsletter.MailOk(svc, s) ==> Newsletter.MailOk(svc, Next(svc, s, step))
  {
    hide Newsletter.MailOk, Next;
    if Newsletter.MailOk(svc, s) {
      Newsletter.SubscribeMailOk(svc, s, step.mail, step.id, step.nonce, step.link);
      Newsletter.SubscribeNext(svc, s, step);
    }
  }

  /** The query may return this row: any match, when there is one. */
  ghost predicate MayPick(found: set<string>, pick: string) {
    found != {} ==> pick in found
  }

  /** The row holds this code, and this is what is told about it. */
  ghost predicate HitRow(t: Tables, code: string, id: string, view: VerifyView) {
    && id in t.apps && t.apps[id].verifyCode == code != ""
    && Lifecycle(t.apps[id], view.rollNo, view.confirmed, view.status)
    && view.batch == t.apps[id].cols.batch && view.issuedDate == t.apps[id].cols.createdOn
  }

  /** No row has this phone-and-birthday key. */
  ghost predicate NoneHas(t: Tables, key: string) {
    forall i :: i in t.apps ==> t.apps[i].cols.phoneDobBidx != key
  }

  lemma NoneHasMeaning(t: Tables, key: string)
    ensures NoneHas(t, key) <==> CardMatches(t, key) == {}
  {
    assert forall i :: i in t.apps && t.apps[i].cols.phoneDobBidx == key ==> i in CardMatches(t, key);
  }

  /** The card is about this row, and shows the course of its application, its places,
      batch and day. */
  ghost predicate ShowsRow(t: Tables, card: AdmitCardView, id: string) {
    && id in t.apps && card.id == id
    && Lifecycle(t.apps[id], card.rollNo, card.confirmed, card.status)
    && card.division == t.apps[id].cols.division && card.district == t.apps[id].cols.district
    && card.batch == t.apps[id].cols.batch && card.applicationDate == t.apps[id].cols.createdOn
  }

  /** A failed read is an error, a read without a match a miss, and any other gives the
      card of the picked row. */
  ghost predicate FoundRight(t: Tables, key: string, read: Link, pick: string, r: Result<AdmitCardView, RepoError>) {
    && r != Err(ErrDuplicate)
    && (r == Err(ErrOther) <==> read != Delivered)
    && (r == Err(ErrNotFound) <==> read == Delivered && NoneHas(t, key))
    && (r.Ok? ==> ShowsRow(t, r.value, pick))
  }

  lemma FoundMeaning(svc: Service, t: Tables, key: string, read: Link, pick: string)
    requires svc.Valid()
    ensures read != Delivered ==> FoundRight(t, key, read, pick, Err(ErrOther))
    ensures read == Delivered && CardMatches(t, key) == {} ==> FoundRight(t, key, read, pick, Err(ErrNotFound))
    ensures read == Delivered && CardMatches(t, key) != {} && pick in t.apps ==>
              FoundRight(t, key, read, pick, Ok(CardView(svc, pick, t.apps[pick])))
  {
    NoneHasMeaning(t, key);
    hide Unseal, CodeOf, NoneHas, CardMatches;
  }

  lemma OnlyHit(svc: Service, s: System, code: string, pick: string)
    requires svc.Valid() && TablesOk(svc, s.primary, s.replica, s.wal)
    ensures code != "" && pick in CodeMatches(Pool(svc, s), code) ==>
              CodeOf(svc, pick) == code && CodeMatches(Pool(svc, s), code) == {pick}
  {
    hide TablesOk, CodeOf;
    if code != "" && pick in CodeMatches(Pool(svc, s), code) {
      forall j | j in CodeMatches(Pool(svc, s), code)
        ensures j == pick && CodeOf(svc, j) == code
      {
        VerifyCodes.HitMeaning(svc, s, code, j, pick);
      }
    }
  }

  // ---- what the handlers answer -----------------------------------------------

  /** The answer that each HTTP status stands for. */
  lemma StatusMeaning(r: Reply)
    ensures HttpStatus(r) == 200 <==> r.Card? || r.Genuine? || r.NotGenuine?
    ensures HttpStatus(r) == 201 <==> r.Created? || r.Subscribed?
    ensures HttpStatus(r) == 400 <==> r == Refused(Malformed)
    ensures HttpStatus(r) == 403 <==> r == Refused(BotCheckFailed)
    ensures HttpStatus(r) == 404 <==> r.NoCard?
    ensures HttpStatus(r) == 409 <==> r.AlreadyApplied?
    ensures HttpStatus(r) == 422 <==> r == Refused(Invalid) || r == Refused(WrongDistrict)
    ensures HttpStatus(r) == 500 <==> r == Failed
  {
  }

  function RefusalOf(r: Reply): Option<Refusal> {
    if r.Refused? then Some(r.why) else None
  }

  /** A request is malformed exactly when its body does not parse, fails the bot check
      exactly when it parses and does not pass it, and is invalid exactly when some
      rule then refuses it. */
  ghost predicate Verdict<T>(req: Request<T>, rules: bool, why: Option<Refusal>) {
    && (why == Some(Malformed) <==> req.parsed.None?)
    && (why == Some(BotCheckFailed) <==> req.parsed.Some? && !req.human)
    && (why == Some(Invalid) <==> req.parsed.Some? && req.human && !rules)
  }

  ghost predicate SubmitVerdict(svc: Service, req: Request<ApplicationInput>, why: Option<Refusal>) {
    var rules := req.parsed.Some? && req.tagsOk && Phone.BdPhone(req.parsed.value.phone)
                 && Dates.DateStr(req.parsed.value.dob);
    && Verdict(req, rules, why)
    && (Geo.Barless(svc.divisions) ==>
          (why == Some(WrongDistrict)
           <==> req.parsed.Some? && req.human && rules
                && !Geo.Belongs(svc.cm, svc.divisions, req.parsed.value.division, req.parsed.value.district)))
  }

  ghost predicate LookupVerdict(ask: Request<AdmitCardLookup>, why: Option<Refusal>) {
    && Verdict(ask, ask.parsed.Some? && ask.tagsOk && Phone.BdPhone(ask.parsed.value.phone)
                    && Dates.DateStr(ask.parsed.value.dob), why)
    && why != Some(WrongDistrict)
  }

  /** A blank query is malformed; one of up to 64 bytes is asked for, and only then can
      the check fail; every other answer is a verdict. */
  ghost predicate CheckedRight(query: string, read: Link, reply: Reply) {
    && (reply == Refused(Malformed) <==> Trim(query) == "")
    && (reply == Failed <==> Trim(query) != "" && |Encode(Trim(query))| <= 64 && read != Delivered)
    && (reply != Refused(Malformed) && reply != Failed ==>
          (reply.Genuine? && reply.query == query) || reply == NotGenuine(query))
  }

  lemma VerifySays(svc: Service, s: System, query: string, pick: string, read: Link) returns (r: Reply)
    requires svc.Valid() && MayPick(CodeMatches(Pool(svc, s), CleanQuery(svc.cm, Trim(query))), pick)
    ensures VerifyStep(svc, s, query, pick, read) == Tell(s, r) && CheckedRight(query, read, r)
  {
    VerifyCodes.CleanNotBlank(svc.cm, query);
    hide Trim, Encode, CleanQuery, DocumentView, Pool, Tell;
    var code, pool := Trim(query), Pool(svc, s);
    if code == "" {
      r := Refused(Malformed);
    } else if |Encode(code)| > QUERY_LIMIT {
      r := NotGenuine(query);
    } else if read != Delivered {
      r := Failed;
    } else if CodeMatches(pool, CleanQuery(svc.cm, code)) == {} {
      r := NotGenuine(query);
    } else {
      r := Genuine(query, DocumentView(pool.apps[pick]));
    }
  }

  lemma CheckMeaning(svc: Service, s: System, query: string, pick: string, read: Link)
    requires svc.Valid() && MayPick(CodeMatches(Pool(svc, s), CleanQuery(svc.cm, Trim(query))), pick)
    ensures var t := Next(svc, s, Verify(query, pick, read));
            |t.outbox| == |s.outbox| + 1 && CheckedRight(query, read, t.outbox[|s.outbox|])
  {
    hide CheckedRight, VerifyStep, Next, MayPick, Trim, CleanQuery, CodeMatches, Pool;
    VerifyNext(svc, s, query, pick, read);
    var r := VerifySays(svc, s, query, pick, read);
    assert Tell(s, r).outbox[|s.outbox|] == r;
  }

  // ---- the service and its database -------------------------------------------

  class Server {
    const svc: Service
    const batch: string
    const index: Geo.PairIndex
    var primary: Tables
    var replica: Tables
    var wal: seq<Change>
    var clients: map<Client, Pending>
    var outbox: seq<Reply>
    ghost var stored: map<string, Submission>
    ghost var taken: seq<string>

    ghost predicate Valid()
      reads index
    {
      svc.Valid() && index.Holds(Geo.PairKeys(svc.cm, svc.divisions))
    }

    ghost function State(): System
      reads this
    {
      System(primary, replica, wal, clients, outbox, stored, taken)
    }

    constructor (svc: Service, batch: string)
      requires svc.Valid()
      ensures Valid() && fresh(index) && this.svc == svc && this.batch == batch && State() == INIT
    {
      this.svc, this.batch := svc, batch;
      index := new Geo.PairIndex();
      primary, replica, wal := EMPTY, EMPTY, [];
      clients, outbox, stored, taken := map[], [], map[], [];
      new;
      index.Build(svc.cm, svc.divisions);
    }

    // ---- the world between two calls --------------------------------------------

    /** Other requests, replication, crashes and edits, in any number and order. */
    method Others(steps: seq<Step>)
      requires Valid()
      modifies this
      ensures State() == Run(svc, old(State()), steps)
    {
      hide Run;
      var s := Run(svc, System(primary, replica, wal, clients, outbox, map[], []), steps);
      ghost var whole := Run(svc, State(), steps);
      Bookkeeping.RunUnread(svc, System(primary, replica, wal, clients, outbox, map[], []), State(), steps);
      primary, replica, wal := s.primary, s.replica, s.wal;
      clients, outbox := s.clients, s.outbox;
      stored, taken := whole.stored, whole.taken;
    }

    // ---- database calls -----------------------------------------------------------

    method ExecInsert(input: ApplicationInput, draw: Draw, cols: Columns, link: Link)
      returns (r: Result<string, CallError>)
      modifies this`primary, this`wal, this`stored
      ensures link == Lost ==> State() == old(State()) && r == Err(Unavailable)
      ensures link != Lost && InsertApplication(old(primary), draw.id, cols).Err? ==>
                State() == old(State()) && r == Err(if link == Delivered then Rejected else Unavailable)
      ensures link != Lost && InsertApplication(old(primary), draw.id, cols).Ok? ==>
                State() == Commit(old(State()), InsertApplication(old(primary), draw.id, cols).value)
                             .(stored := old(stored)[draw.id := Submission(input, draw)])
                && r == if link == Delivered then Ok(draw.id) else Err(Unavailable)
    {
      if link == Lost {
        return Err(Unavailable);
      }
      var done := InsertApplication(primary, draw.id, cols);
      if done.Err? {
        return Err(if link == Delivered then Rejected else Unavailable);
      }
      primary, wal := Apply(primary, done.value), wal + [done.value];
      stored := stored[draw.id := Submission(input, draw)];
      return if link == Delivered then Ok(draw.id) else Err(Unavailable);
    }

    /** The answer is not looked at. */
    method ExecUpdateCode(id: string, code: string, onlyIfEmpty: bool, link: Link)
      requires Valid() && code == CodeOf(svc, id)
      modifies this`primary, this`wal
      ensures State() == CodeUpdate(svc, old(State()), id, onlyIfEmpty, link)
    {
      if link != Lost {
        var done := UpdateCode(primary, id, code, onlyIfEmpty);
        if done.Ok? && !done.value.Nothing? {
          primary, wal := Apply(primary, done.value), wal + [done.value];
        }
      }
    }

    method ReadPool() returns (t: Tables)
      ensures t == Pool(svc, State())
    {
      t := if svc.replicated then replica else primary;
    }

    // ---- repository ---------------------------------------------------------------

    method EncryptAll(input: ApplicationInput, d: Draw, phoneBidx: string, cardBidx: string)
      returns (r: Result<Columns, CryptoError>)
      requires d.batch == batch
      requires phoneBidx == PhoneKey(svc, input.phone) && cardBidx == CardKey(svc, input.phone, input.dob)
      ensures r == MakeColumns(svc, input, d)
      ensures r.Ok? <==> Enough(input, d)
      ensures svc.Valid() && r.Ok? ==> Recoverable(svc, input, r.value)
    {
      hide Seal, PhoneKey, CardKey, Enough, Recoverable;
      SealedFields(svc, input, d);
      var nameEnc := Seal(svc, input.name, d.name);
      if nameEnc.Err? { return Err(nameEnc.error); }
      var phoneEnc := Seal(svc, input.phone, d.phone);
      if phoneEnc.Err? { return Err(phoneEnc.error); }
      var emailEnc := Seal(svc, input.email, d.email);
      if emailEnc.Err? { return Err(emailEnc.error); }
      var dobEnc := Seal(svc, input.dob, d.dob);
      if dobEnc.Err? { return Err(dobEnc.error); }
      var addrEnc := Seal(svc, input.address, d.address);
      if addrEnc.Err? { return Err(addrEnc.error); }
      var eduEnc := Seal(svc, input.education, d.education);
      if eduEnc.Err? { return Err(eduEnc.error); }
      var gpaEnc := Seal(svc, input.gpa, d.gpa);
      if gpaEnc.Err? { return Err(gpaEnc.error); }
      var photoEnc := Seal(svc, input.photoData, d.photo);
      if photoEnc.Err? { return Err(photoEnc.error); }
      return Ok(Columns(
        nameEnc.value, phoneEnc.value, emailEnc.value, dobEnc.value, addrEnc.value, eduEnc.value,
        gpaEnc.value, photoEnc.value, input.gender, input.passingYear, input.computerSkill,
        input.ownComputer, input.canAttend, input.division, input.district, phoneBidx, cardBidx,
        batch, d.today));
    }

    method CardBidx(phone: string, dob: string) returns (key: string)
      ensures key == CardKey(svc, phone, dob)
    {
      var day := Dates.ComputeNormalizeDate(dob);
      key := Hash(svc.cm, svc.blind, phone + "|" + day);
    }

    method CreateApplication(c: Client, input: ApplicationInput, draw: Draw,
                             insert: Link, others: seq<Step>, update: Link)
      returns (r: Result<string, RepoError>)
      requires Valid() && c !in clients && Spares(others, c) && draw.batch == batch
      modifies this
      ensures Tell(State(), CreateReply(input, r))
           == CreateRun(svc, old(State()), c, input, draw, insert, others, update)
      ensures c !in clients
      ensures r.Ok? ==> r.value == draw.id
    {
      hide MakeColumns, InsertApplication, CardKey, PhoneKey, CodeUpdate, Run, Next, DocCode, Enough, Recoverable;
      var cardBidx := CardBidx(input.phone, input.dob);
      var made := EncryptAll(input, draw, PhoneKey(svc, input.phone), cardBidx);
      if made.Err? {
        return Err(ErrOther);
      }
      var inserted := ExecInsert(input, draw, made.value, insert);
      if inserted.Err? {
        return Err(if inserted.error == Rejected then ErrDuplicate else ErrOther);
      }
      var id := inserted.value;
      clients := clients[c := WritingCode(input, id)];
      ghost var waiting := State();
      Others(others);
      OthersRun(svc, waiting, others, c);
      SecondCall(svc, State(), c, update);
      var code := ComputeDocCode(svc.sign, DOC_CODE_PREFIX, id);
      ExecUpdateCode(id, code, false, update);
      clients := clients - {c};
      return Ok(id);
    }

    method FindAdmitCard(c: Client, l: AdmitCardLookup, pick: string, read: Link, others: seq<Step>, update: Link)
      returns (r: Result<AdmitCardView, RepoError>)
      requires Valid() && c !in clients && Spares(others, c)
      requires MayPick(CardMatches(Pool(svc, State()), CardKey(svc, l.phone, l.dob)), pick)
      modifies this
      ensures Tell(State(), FindReply(l, r)) == FindRun(svc, old(State()), c, l, pick, read, others, update)
      ensures c !in clients
      ensures FoundRight(old(Pool(svc, State())), CardKey(svc, l.phone, l.dob), read, pick, r)
    {
      hide CardKey, CodeUpdate, Run, Unseal, Next, DocCode, FoundRight;
      FoundMeaning(svc, Pool(svc, State()), CardKey(svc, l.phone, l.dob), read, pick);
      var key := CardBidx(l.phone, l.dob);
      var pool := ReadPool();
      if read != Delivered {
        return Err(ErrOther);
      }
      if CardMatches(pool, key) == {} {
        return Err(ErrNotFound);
      }
      var row := pool.apps[pick];
      var verifyCode := row.verifyCode;
      if verifyCode == "" {
        verifyCode := ComputeDocCode(svc.sign, DOC_CODE_PREFIX, pick);
        clients := clients[c := Backfilling(l, CardView(svc, pick, row))];
        ghost var waiting := State();
        Others(others);
        OthersRun(svc, waiting, others, c);
        SecondCall(svc, State(), c, update);
        ExecUpdateCode(pick, verifyCode, true, update);
        clients := clients - {c};
      }
      var cols := row.cols;
      var view := AdmitCardView(
        pick, Unseal(svc, cols.nameEnc), Unseal(svc, cols.phoneEnc), Unseal(svc, cols.emailEnc),
        Unseal(svc, cols.addressEnc), Unseal(svc, cols.educationEnc), Unseal(svc, cols.photoEnc),
        cols.division, cols.district, cols.batch, OrEmpty(row.rollNo), row.confirmed, row.status,
        cols.createdOn, verifyCode);
      assert view == CardView(svc, pick, row);
      return Ok(view);
    }

    method FindByVerifyCode(query: string, pick: string, read: Link) returns (r: Result<VerifyView, RepoError>)
      requires MayPick(CodeMatches(Pool(svc, State()), CleanQuery(svc.cm, query)), pick)
      ensures var clean := CleanQuery(svc.cm, query);
              var found := CodeMatches(Pool(svc, State()), clean);
              r == if clean == "" then Err(ErrNotFound)
                   else if read != Delivered then Err(ErrOther)
                   else if found == {} then Err(ErrNotFound)
                   else Ok(DocumentView(Pool(svc, State()).apps[pick]))
      ensures r.Ok? ==> HitRow(Pool(svc, State()), CleanQuery(svc.cm, query), pick, r.value)
      ensures svc.Valid() && TablesOk(svc, primary, replica, wal) && r.Ok? ==>
                && CodeOf(svc, pick) == CleanQuery(svc.cm, query)
                && CodeMatches(Pool(svc, State()), CleanQuery(svc.cm, query)) == {pick}
    {
      hide Trim, CodeOf, TablesOk;
      if svc.Valid() && TablesOk(svc, primary, replica, wal) {
        OnlyHit(svc, State(), CleanQuery(svc.cm, query), pick);
      }
      var code := Trim(MapChars(svc.cm.upper, query));
      if code == "" {
        return Err(ErrNotFound);
      }
      var pool := ReadPool();
      if read != Delivered {
        return Err(ErrOther);
      }
      if CodeMatches(pool, code) == {} {
        return Err(ErrNotFound);
      }
      return Ok(DocumentView(pool.apps[pick]));
    }

    // ---- handlers -----------------------------------------------------------------

    method Answer(r: Reply)
      modifies this`outbox
      ensures State() == Tell(old(State()), r)
    {
      outbox := outbox + [r];
    }

    /** The handler's checks, in order, the last one on the index. */
    method CheckSubmission(req: Request<ApplicationInput>) returns (why: Option<Refusal>)
      requires Valid()
      ensures why == SubmitGate(svc, req) && (why.None? ==> req.parsed.Some?)
      ensures SubmitVerdict(svc, req, why)
    {
      hide Phone.BdPhone, Dates.DateStr, Geo.PairKeys, Geo.Barless, Geo.Belongs, Geo.Listed;
      if req.parsed.None? {
        return Some(Malformed);
      }
      if !req.human {
        return Some(BotCheckFailed);
      }
      var input := req.parsed.value;
      if !(req.tagsOk && AcceptedInput(input)) {
        return Some(Invalid);
      }
      var listed := index.IsValidPair(svc.cm, svc.divisions, input.division, input.district);
      return if listed then None else Some(WrongDistrict);
    }

    /** POST /v1/applications: a run of the protocol whose last step answers; a 201
        names the id under which this very input is stored. */
    method PostApplication(c: Client, req: Request<ApplicationInput>, draw: Draw,
                           insert: Link, others: seq<Step>, update: Link)
      returns (reply: Reply)
      requires Valid() && c !in clients && Spares(others, c) && draw.batch == batch
      modifies this
      ensures State() == SubmitRun(svc, old(State()), c, req, draw, insert, others, update)
      ensures outbox != [] && outbox[|outbox| - 1] == reply && c !in clients
      ensures SubmitVerdict(svc, req, RefusalOf(reply))
      ensures reply.Created? ==> req.parsed == Some(reply.input) && reply.id == draw.id
      ensures Inv(svc, old(State())) ==> Inv(svc, State()) && Grows(old(State()), State())
      ensures Inv(svc, old(State())) && reply.Created? ==> StoredAs(stored, reply.id, reply.input)
    {
      hide Inv, Grows, InsertStep, SubmitGate, Run, CreateRun, SubmitVerdict;
      ghost var before := State();
      SubmitKeeps(svc, before, c, req, draw, insert, others, update);
      SubmitSplit(svc, before, c, req, draw, insert, others, update);
      hide Next, SubmitRun;
      var why := CheckSubmission(req);
      if why.Some? {
        reply := Refused(why.value);
        Answer(reply);
        return;
      }
      var created := CreateApplication(c, req.parsed.value, draw, insert, others, update);
      reply := CreateReply(req.parsed.value, created);
      Answer(reply);
    }

    method CheckLookup(ask: Request<AdmitCardLookup>) returns (why: Option<Refusal>)
      ensures why == LookupGate(ask) && (why.None? ==> ask.parsed.Some?)
      ensures LookupVerdict(ask, why)
    {
      hide Phone.BdPhone, Dates.DateStr;
      if ask.parsed.None? {
        return Some(Malformed);
      }
      if !ask.human {
        return Some(BotCheckFailed);
      }
      if !(ask.tagsOk && AcceptedLookup(ask.parsed.value)) {
        return Some(Invalid);
      }
      return None;
    }

    method PostLookup(c: Client, ask: Request<AdmitCardLookup>, pick: string, read: Link, others: seq<Step>, update: Link)
      returns (reply: Reply)
      requires Valid() && c !in clients && Spares(others, c)
      requires ask.parsed.Some? ==>
                 MayPick(CardMatches(Pool(svc, State()), CardKey(svc, ask.parsed.value.phone, ask.parsed.value.dob)), pick)
      modifies this
      ensures State() == LookupRun(svc, old(State()), c, ask, pick, read, others, update)
      ensures outbox != [] && outbox[|outbox| - 1] == reply && c !in clients
      ensures Inv(svc, old(State())) ==> Inv(svc, State()) && Grows(old(State()), State())
      ensures Inv(svc, old(State())) && reply.Card? ==> CardOk(svc, primary.apps, reply.lookup, reply.card)
      ensures LookupVerdict(ask, RefusalOf(reply))
      ensures !reply.Refused? ==>
                && ask.parsed.Some?
                && (reply == Failed <==> read != Delivered)
                && (reply == NoCard(ask.parsed.value)
                    <==> read == Delivered
                         && NoneHas(old(Pool(svc, State())), CardKey(svc, ask.parsed.value.phone, ask.parsed.value.dob)))
                && (reply.Card? ==> ShowsRow(old(Pool(svc, State())), reply.card, pick))
    {
      hide Inv, Grows, CardOk, FindStep, LookupGate, Run, FindRun, CardKey, CardMatches, LookupVerdict, NoneHas, ShowsRow;
      ghost var before := State();
      LookupKeeps(svc, before, c, ask, pick, read, others, update);
      LookupSplit(svc, before, c, ask, pick, read, others, update);
      hide Next, LookupRun;
      var why := CheckLookup(ask);
      if why.Some? {
        reply := Refused(why.value);
        Answer(reply);
        return;
      }
      var found := FindAdmitCard(c, ask.parsed.value, pick, read, others, update);
      reply := FindReply(ask.parsed.value, found);
      Answer(reply);
    }

    method GetVerify(query: string, pick: string, read: Link) returns (reply: Reply)
      requires Valid()
      requires MayPick(CodeMatches(Pool(svc, State()), CleanQuery(svc.cm, Trim(query))), pick)
      modifies this`outbox
      ensures State() == Next(svc, old(State()), Verify(query, pick, read))
      ensures outbox != [] && outbox[|outbox| - 1] == reply
      ensures Inv(svc, old(State())) ==> Inv(svc, State()) && Grows(old(State()), State())
      ensures Inv(svc, old(State())) && reply.Genuine? ==>
                reply.query == query && exists id :: Resolves(svc, primary.apps, query, id)
      ensures CheckedRight(query, read, reply)
    {
      hide Inv, Grows, Resolves, Encode, CodeMatches, CleanQuery, CodeOf, TablesOk, HitRow, DocumentView, CheckedRight,
        Pool;
      AnswerKeeps(svc, State(), Verify(query, pick, read));
      CheckMeaning(svc, State(), query, pick, read);
      VerifyNext(svc, State(), query, pick, read);
      hide Next;
      var code := Trim(query);
      if code == "" {
        reply := Refused(Malformed);
      } else if |Encode(code)| > QUERY_LIMIT {
        reply := NotGenuine(query);
      } else {
        var found := FindByVerifyCode(code, pick, read);
        match found {
          case Ok(view) => reply := Genuine(query, view);
          case Err(e) => reply := if e == ErrNotFound then NotGenuine(query) else Failed;
        }
      }
      Answer(reply);
    }

    method PostNewsletter(mail: Request<string>, id: string, nonce: Option<Nonce>, link: Link) returns (reply: Reply)
      requires Valid()
      modifies this
      ensures State() == Next(svc, old(State()), Subscribe(mail, id, nonce, link))
      ensures outbox != [] && outbox[|outbox| - 1] == reply
      ensures Inv(svc, old(State())) ==> Inv(svc, State()) && Grows(old(State()), State())
      ensures Newsletter.MailOk(svc, old(State())) ==> Newsletter.MailOk(svc, State())
      ensures reply.Subscribed? ==> mail.parsed == Some(reply.email) && reply.email in taken
      ensures Verdict(mail, mail.tagsOk, RefusalOf(reply)) && reply != Refused(WrongDistrict)
    {
      hide Inv, Grows, Newsletter.MailOk, Seal, Hash, InsertSubscriber, Apply, Verdict, MailGate;
      AnswerKeeps(svc, State(), Subscribe(mail, id, nonce, link));
      MailKeeps(svc, State(), Subscribe(mail, id, nonce, link));
      Newsletter.SubscribeNext(svc, State(), Subscribe(mail, id, nonce, link));
      hide Next;
      var why := CheckMail(mail);
      if why.Some? {
        reply := Refused(why.value);
      } else {
        var email := mail.parsed.value;
        var subscribed := ExecSubscribe(email, id, nonce, link);
        reply := if subscribed then Subscribed(email) else Failed;
      }
      Answer(reply);
    }

    method CheckMail(mail: Request<string>) returns (why: Option<Refusal>)
      ensures why == MailGate(mail) && (why.None? ==> mail.parsed.Some?)
      ensures Verdict(mail, mail.tagsOk, why) && why != Some(WrongDistrict)
    {
      if mail.parsed.None? {
        return Some(Malformed);
      }
      if !mail.human {
        return Some(BotCheckFailed);
      }
      return if mail.tagsOk then None else Some(Invalid);
    }

    /** Repository.Subscribe: a repeated email is a success that stores nothing. */
    method ExecSubscribe(email: string, id: string, nonce: Option<Nonce>, link: Link) returns (ok: bool)
      modifies this`primary, this`wal, this`taken
      ensures match Seal(svc, email, nonce)
              case Err(_) => State() == old(State()) && !ok
              case Ok(enc) =>
                var done := InsertSubscriber(old(primary), id, Subscriber(enc, Hash(svc.cm, svc.blind, email)));
                if link == Lost || done.Err? then State() == old(State()) && !ok
                else
                  && State() == Commit(old(State()), done.value).(taken := old(taken) + [email])
                  && (ok <==> link == Delivered)
    {
      var enc := Seal(svc, email, nonce);
      if enc.Err? || link == Lost {
        return false;
      }
      var done := InsertSubscriber(primary, id, Subscriber(enc.value, Hash(svc.cm, svc.blind, email)));
      if done.Err? {
        return false;
      }
      if !done.value.Nothing? {
        primary, wal := Apply(primary, done.value), wal + [done.value];
      }
      taken := taken + [email];
      return link == Delivered;
    }
  }
}
