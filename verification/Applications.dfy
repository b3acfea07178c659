/** Submissions: what acknowledgement, conflict and refusal mean for the table. */
module Applications {
  import opened Wrappers
  import opened Utf8
  import opened Text
  import opened Crypto
  import opened Tables
  import opened Protocol
  import opened Safety
  import Phone
  import Dates
  import Geo

  // ---- rows and submissions ---------------------------------------------------

  /** A stored row and its submission, in any state of any run. */
  lemma StoredRow(svc: Service, s: System, id: string)
    requires svc.Valid() && Inv(svc, s) && (id in s.stored || id in s.primary.apps)
    ensures id in s.stored && id in s.primary.apps
    ensures ImageOf(svc, s.stored[id], s.primary.apps[id].cols)
    ensures AcceptedInput(s.stored[id].input)
    ensures s.primary.apps[id].cols.phoneBidx == PhoneKey(svc, s.stored[id].input.phone)
    ensures s.primary.apps[id].cols.phoneDobBidx == CardKey(svc, s.stored[id].input.phone, s.stored[id].input.dob)
  {
    hide TablesOk, ClientsOk, OutboxOk, MakeColumns, PhoneKey, CardKey;
  }

  /** All eight encrypted columns of every stored row, also those that no card shows,
      decrypt to the fields of its submission. */
  lemma FieldsRecoverable(svc: Service, s: System, id: string)
    requires svc.Valid() && Inv(svc, s) && id in s.stored
    ensures id in s.primary.apps
    ensures var input, cols := s.stored[id].input, s.primary.apps[id].cols;
            && Unseal(svc, cols.nameEnc) == Encode(input.name)
            && Unseal(svc, cols.phoneEnc) == Encode(input.phone)
            && Unseal(svc, cols.emailEnc) == Encode(input.email)
            && Unseal(svc, cols.dobEnc) == Encode(input.dob)
            && Unseal(svc, cols.addressEnc) == Encode(input.address)
            && Unseal(svc, cols.educationEnc) == Encode(input.education)
            && Unseal(svc, cols.gpaEnc) == Encode(input.gpa)
            && Unseal(svc, cols.photoEnc) == Encode(input.photoData)
            && cols.gender == input.gender && cols.passingYear == input.passingYear
            && cols.computerSkill == input.computerSkill && cols.ownComputer == input.ownComputer
            && cols.canAttend == input.canAttend && cols.division == input.division && cols.district == input.district
            && cols.batch == s.stored[id].draw.batch && cols.createdOn == s.stored[id].draw.today
  {
    hide TablesOk, ClientsOk, OutboxOk, PhoneKey, CardKey, Admissible, Seal, Unseal;
    var input, d, cols := s.stored[id].input, s.stored[id].draw, s.primary.apps[id].cols;
    assert ImageOf(svc, s.stored[id], cols);
    UnsealSeal(svc, input.name, d.name, cols.nameEnc);
    UnsealSeal(svc, input.phone, d.phone, cols.phoneEnc);
    UnsealSeal(svc, input.email, d.email, cols.emailEnc);
    UnsealSeal(svc, input.dob, d.dob, cols.dobEnc);
    UnsealSeal(svc, input.address, d.address, cols.addressEnc);
    UnsealSeal(svc, input.education, d.education, cols.educationEnc);
    UnsealSeal(svc, input.gpa, d.gpa, cols.gpaEnc);
    UnsealSeal(svc, input.photoData, d.photo, cols.photoEnc);
  }

  /** In every run each stored application names a division and one of that division's
      own districts, and an accepted phone and birthday. */
  lemma StoredIsAdmissible(svc: Service, start: System, steps: seq<Step>, id: string)
    requires svc.Valid() && Inv(svc, start) && Geo.Barless(svc.divisions) && id in Run(svc, start, steps).stored
    ensures var s := Run(svc, start, steps);
            var input := s.stored[id].input;
            && AcceptedInput(input)
            && Geo.Belongs(svc.cm, svc.divisions, input.division, input.district)
            && id in s.primary.apps
            && s.primary.apps[id].cols.division == input.division
            && s.primary.apps[id].cols.district == input.district
  {
    hide Run, Seal, PhoneKey, CardKey, AcceptedInput, TablesOk, ClientsOk, OutboxOk, Geo.Barless;
    var s := Run(svc, start, steps);
    RunOk(svc, start, steps);
    assert ImageOf(svc, s.stored[id], s.primary.apps[id].cols);
    var input := s.stored[id].input;
    Geo.IndexRefinesSearch(svc.cm, svc.divisions, input.division, input.district);
  }

  // ---- acknowledgement --------------------------------------------------------

  /** An id answered with 201 is stored, and stays stored with the same ciphertexts
      and index columns whatever happens afterwards. */
  lemma AcknowledgedIsStored(svc: Service, start: System, a: seq<Step>, b: seq<Step>, input: ApplicationInput, id: string)
    requires svc.Valid() && Inv(svc, start)
    requires Created(input, id) in Run(svc, start, a).outbox
    ensures var s, t := Run(svc, start, a), Run(svc, start, a + b);
            && StoredAs(s.stored, id, input) && StoredAs(t.stored, id, input)
            && id in s.primary.apps && id in t.primary.apps
            && t.primary.apps[id].cols == s.primary.apps[id].cols
            && t.stored[id] == s.stored[id]
            && MakeColumns(svc, input, s.stored[id].draw) == Ok(s.primary.apps[id].cols)
  {
    hide ImageOf, Next, Run;
    var s := Run(svc, start, a);
    RunOk(svc, start, a);
    AnswersKnown(svc, s, Created(input, id));
    RunOk(svc, s, b);
    RunConcat(svc, start, a, b);
    StoredRow(svc, s, id);
    StoredRow(svc, Run(svc, s, b), id);
    ImageMeaning(svc, s.stored[id], s.primary.apps[id].cols);
  }

  lemma AnswersKnown(svc: Service, s: System, r: Reply)
    requires svc.Valid() && Inv(svc, s) && r in s.outbox
    ensures ReplyOk(svc, s.stored, s.primary.apps, r)
  {
    hide ImageOf, ReplyOk, TablesOk, Recorded, ClientsOk;
  }

  /** The converse fails: when the connection breaks after the commit the applicant
      sees a 500, the row is there, and trying again gives a conflict. */
  lemma LostAnswer(svc: Service, s: System, c: Client, input: ApplicationInput, draw: Draw, again: Draw)
    requires svc.Valid() && Inv(svc, s) && AcceptedInput(input)
    requires MakeColumns(svc, input, draw).Ok? && MakeColumns(svc, input, again).Ok?
    requires InsertApplication(s.primary, draw.id, MakeColumns(svc, input, draw).value).Ok?
    ensures var t := InsertStep(svc, s, c, input, draw, AnswerLost);
            && t.outbox == s.outbox + [Failed]
            && StoredAs(t.stored, draw.id, input)
            && InsertStep(svc, t, c, input, again, Delivered) == Tell(t, AlreadyApplied(input))
  {
    hide ImageOf;
    var t := InsertStep(svc, s, c, input, draw, AnswerLost);
    SamePhoneKey(svc, input, draw, again);
    assert t.primary.apps[draw.id].cols == MakeColumns(svc, input, draw).value by {
      hide MakeColumns;
    }
    hide MakeColumns;
    assert PhoneTaken(t.primary, MakeColumns(svc, input, again).value.phoneBidx);
  }

  lemma SamePhoneKey(svc: Service, input: ApplicationInput, draw: Draw, again: Draw)
    requires MakeColumns(svc, input, draw).Ok? && MakeColumns(svc, input, again).Ok?
    ensures MakeColumns(svc, input, draw).value.phoneBidx == PhoneKey(svc, input.phone)
         == MakeColumns(svc, input, again).value.phoneBidx
  {
    hide Seal, PhoneKey, CardKey;
  }

  /** Both the encryptions and the INSERT succeed. */
  ghost predicate Insertable(svc: Service, s: System, input: ApplicationInput, draw: Draw) {
    && MakeColumns(svc, input, draw).Ok?
    && InsertApplication(s.primary, draw.id, MakeColumns(svc, input, draw).value).Ok?
  }

  /** What a 500 for a submission means: nothing was stored, exactly unless the INSERT
      succeeded and its answer was lost; then the application is stored. */
  lemma FailedSubmission(svc: Service, s: System, c: Client, input: ApplicationInput, draw: Draw, link: Link)
    requires InsertStep(svc, s, c, input, draw, link).outbox == s.outbox + [Failed]
    ensures var t := InsertStep(svc, s, c, input, draw, link);
            && (t == Tell(s, Failed) <==> !(link == AnswerLost && Insertable(svc, s, input, draw)))
            && (t != Tell(s, Failed) ==>
                  && draw.id !in s.primary.apps && t.primary.apps.Keys == s.primary.apps.Keys + {draw.id}
                  && StoredAs(t.stored, draw.id, input))
            && t.taken == s.taken
  {
    hide MakeColumns, PhoneTaken;
  }

  /** The step commits a new subscriber. */
  ghost predicate InsertsEmail(svc: Service, s: System, step: Step) {
    && step.Subscribe? && MailGate(step.mail).None? && step.link != Lost
    && Seal(svc, step.mail.parsed.value, step.nonce).Ok?
    && !EmailTaken(s.primary, Hash(svc.cm, svc.blind, step.mail.parsed.value)) && step.id !in s.primary.subs
  }

  /** The same for subscriptions: only the bookkeeping of repeated emails may grow. */
  lemma FailedSubscription(svc: Service, s: System, step: Step)
    requires svc.Valid() && step.Subscribe? && Next(svc, s, step).outbox == s.outbox + [Failed]
    ensures var t := Next(svc, s, step);
            && (t == Tell(s, Failed).(taken := t.taken) <==> !(step.link == AnswerLost && InsertsEmail(svc, s, step)))
            && (t.primary == s.primary <==> !(step.link == AnswerLost && InsertsEmail(svc, s, step)))
  {
    hide Hash, Seal, EmailTaken;
    assert Next(svc, s, step).outbox[|s.outbox|] == Failed;
    if step.link == AnswerLost && InsertsEmail(svc, s, step) {
      assert step.id in Next(svc, s, step).primary.subs;
    }
  }

  /** The step commits a new application. */
  ghost predicate InsertsRow(svc: Service, s: System, step: Step) {
    && step.Submit? && step.c !in s.clients && SubmitGate(svc, step.req).None? && step.link != Lost
    && MakeColumns(svc, step.req.parsed.value, step.draw).Ok?
    && InsertApplication(s.primary, step.draw.id, MakeColumns(svc, step.req.parsed.value, step.draw).value).Ok?
  }

  ghost function InsertCount(svc: Service, s: System, steps: seq<Step>): nat
    requires svc.Valid()
  {
    if steps == [] then 0
    else
      var k := |steps| - 1;
      InsertCount(svc, s, steps[..k]) + if InsertsRow(svc, Run(svc, s, steps[..k]), steps[k]) then 1 else 0
  }

  /** A 500 to any request, exactly: the tables and the log are as they were unless
      the step committed an INSERT whose answer was lost. */
  lemma FailureMeaning(svc: Service, s: System, step: Step)
    requires svc.Valid() && Next(svc, s, step).outbox == s.outbox + [Failed]
    ensures var t := Next(svc, s, step);
            t == Tell(s, Failed).(taken := t.taken)
            <==> !((InsertsRow(svc, s, step) || InsertsEmail(svc, s, step)) && step.link == AnswerLost)
  {
    hide Trim, Encode, Apply, MakeColumns, InsertApplication, InsertSubscriber, UpdateCode, EditApplication,
      CardView, CardMatches, CodeMatches, CleanQuery, Seal, AcceptedInput, LookupGate, CodeOf, CardKey,
      Hash, InsertStep, MailGate, EmailTaken;
    assert Next(svc, s, step).outbox[|s.outbox|] == Failed;
    match step
    case Submit(c, req, draw, link) =>
      FailedSubmission(svc, s, c, req.parsed.value, draw, link);
      assert InsertsRow(svc, s, step) <==> link != Lost && Insertable(svc, s, req.parsed.value, draw);
    case WriteCode(_, _) =>
    case Lookup(_, _, _, _) =>
    case Backfill(_, _) =>
    case Verify(_, _, _) =>
    case Subscribe(_, _, _, _) => FailedSubscription(svc, s, step);
    case Replicate =>
    case Crash(_) =>
    case AdminEdit(_, _, _, _) =>
  }

  lemma InsertCounts(svc: Service, s: System, c: Client, input: ApplicationInput, draw: Draw, link: Link)
    ensures var keys := InsertStep(svc, s, c, input, draw, link).primary.apps.Keys;
            if link != Lost && Insertable(svc, s, input, draw)
            then draw.id !in s.primary.apps && keys == s.primary.apps.Keys + {draw.id}
            else keys == s.primary.apps.Keys
  {
    hide MakeColumns, PhoneTaken;
  }

  lemma CodeUpdateCounts(svc: Service, s: System, id: string, onlyIfEmpty: bool, link: Link)
    requires svc.Valid()
    ensures CodeUpdate(svc, s, id, onlyIfEmpty, link).primary.apps.Keys == s.primary.apps.Keys
  {
    hide CodeOf, CodeTaken;
  }

  lemma SubscribeCounts(svc: Service, s: System, mail: Request<string>, id: string, nonce: Option<Nonce>, link: Link)
    ensures SubscribeStep(svc, s, mail, id, nonce, link).primary.apps == s.primary.apps
  {
    hide Seal, Hash, EmailTaken;
  }

  lemma ReadCounts(svc: Service, s: System, step: Step)
    requires svc.Valid() && (step.Lookup? || step.Verify?)
    ensures Next(svc, s, step).primary == s.primary
  {
    hide Trim, Encode, CleanQuery, CodeMatches, Pool, DocumentView, CardKey, CardMatches, CardView, CodeOf,
      AcceptedLookup;
    match step
    case Lookup(_, _, _, _) =>
    case Verify(_, _, _) =>
  }

  lemma StepCount(svc: Service, s: System, step: Step)
    requires svc.Valid()
    ensures InsertsRow(svc, s, step) ==>
              && step.draw.id !in s.primary.apps
              && Next(svc, s, step).primary.apps.Keys == s.primary.apps.Keys + {step.draw.id}
    ensures !InsertsRow(svc, s, step) ==> Next(svc, s, step).primary.apps.Keys == s.primary.apps.Keys
  {
    hide InsertStep, LookupStep, VerifyStep, SubscribeStep, CodeUpdate, RollTaken, AcceptedInput, MakeColumns,
      InsertApplication;
    match step
    case Submit(c, req, draw, link) =>
      if SubmitGate(svc, req).None? {
        InsertCounts(svc, s, c, req.parsed.value, draw, link);
      }
    case WriteCode(c, link) =>
      if c in s.clients && s.clients[c].WritingCode? {
        CodeUpdateCounts(svc, s, s.clients[c].id, false, link);
      }
    case Lookup(_, _, _, _) => ReadCounts(svc, s, step);
    case Backfill(c, link) =>
      if c in s.clients && s.clients[c].Backfilling? {
        CodeUpdateCounts(svc, s, s.clients[c].view.id, true, link);
      }
    case Verify(_, _, _) => ReadCounts(svc, s, step);
    case Subscribe(mail, id, nonce, link) => SubscribeCounts(svc, s, mail, id, nonce, link);
    case Replicate =>
    case Crash(_) =>
    case AdminEdit(_, _, _, _) =>
  }

  /** Conservation: a run has exactly as many applications as it committed INSERTs;
      none is merged, dropped or written twice. */
  lemma {:induction false} RowsAreInserts(svc: Service, s: System, steps: seq<Step>)
    requires svc.Valid()
    ensures |Run(svc, s, steps).primary.apps| == |s.primary.apps| + InsertCount(svc, s, steps)
  {
    hide Next, InsertsRow;
    if steps == [] {
    } else {
      var k := |steps| - 1;
      var t := Run(svc, s, steps[..k]);
      RowsAreInserts(svc, s, steps[..k]);
      StepCount(svc, t, steps[k]);
      var u := Next(svc, t, steps[k]);
      assert |u.primary.apps| == |u.primary.apps.Keys| && |t.primary.apps| == |t.primary.apps.Keys|;
    }
  }

  /** An INSERT is answered as a conflict exactly when the encryptions succeed, the phone
      key or the id is taken, and the answer arrives; a lost answer is a 500 even then. */
  lemma AlreadyAppliedWhen(svc: Service, s: System, c: Client, input: ApplicationInput, draw: Draw, link: Link)
    ensures InsertStep(svc, s, c, input, draw, link).outbox == s.outbox + [AlreadyApplied(input)]
            <==> && MakeColumns(svc, input, draw).Ok? && link == Delivered
                 && (draw.id in s.primary.apps || PhoneTaken(s.primary, PhoneKey(svc, input.phone)))
  {
    if MakeColumns(svc, input, draw).Ok? {
      SamePhoneKey(svc, input, draw, draw);
    }
    hide MakeColumns, PhoneTaken, PhoneKey;
    var t := InsertStep(svc, s, c, input, draw, link);
    assert (s.outbox + [AlreadyApplied(input)])[|s.outbox|] == AlreadyApplied(input);
    assert t.outbox == s.outbox + [Failed] ==> t.outbox[|s.outbox|] == Failed;
  }

  // ---- conflicts --------------------------------------------------------------

  /** Some stored application has the same normalised phone. */
  ghost predicate SamePhoneStored(svc: Service, s: System, phone: string) {
    exists i :: i in s.stored && Normalize(svc.cm, s.stored[i].input.phone) == Normalize(svc.cm, phone)
  }

  /** No stored phone collides with this one. */
  ghost predicate PhonesApart(svc: Service, s: System, phone: string) {
    forall i :: i in s.stored ==>
      Apart(svc.blind, Normalize(svc.cm, s.stored[i].input.phone), Normalize(svc.cm, phone))
  }

  /** The unique index reports a taken phone exactly when an application with the
      same normalised phone is stored. */
  lemma TakenMeaning(svc: Service, s: System, phone: string)
    requires svc.Valid() && Inv(svc, s)
    ensures SamePhoneStored(svc, s, phone) ==> PhoneTaken(s.primary, PhoneKey(svc, phone))
    ensures PhonesApart(svc, s, phone) && PhoneTaken(s.primary, PhoneKey(svc, phone)) ==> SamePhoneStored(svc, s, phone)
  {
    hide ImageOf, Inv, AcceptedInput, Normalize, Hash, Apart;
    if SamePhoneStored(svc, s, phone) {
      var i :| i in s.stored && Normalize(svc.cm, s.stored[i].input.phone) == Normalize(svc.cm, phone);
      StoredRow(svc, s, i);
      HashEqual(svc.cm, svc.blind, s.stored[i].input.phone, phone);
    }
    if PhonesApart(svc, s, phone) && PhoneTaken(s.primary, PhoneKey(svc, phone)) {
      var i :| i in s.primary.apps && s.primary.apps[i].cols.phoneBidx == PhoneKey(svc, phone);
      StoredRow(svc, s, i);
      HashEqual(svc.cm, svc.blind, s.stored[i].input.phone, phone);
    }
  }

  /** With a fresh id an answered INSERT gives 409 exactly when the same normalised
      phone is stored; the state is then unchanged.  Otherwise the row is stored. */
  lemma ConflictMeaning(svc: Service, s: System, c: Client, input: ApplicationInput, draw: Draw)
    requires svc.Valid() && Inv(svc, s)
    requires MakeColumns(svc, input, draw).Ok? && draw.id !in s.primary.apps
    requires PhonesApart(svc, s, input.phone)
    ensures var t := InsertStep(svc, s, c, input, draw, Delivered);
            && (SamePhoneStored(svc, s, input.phone) ==> t == Tell(s, AlreadyApplied(input)))
            && (!SamePhoneStored(svc, s, input.phone) ==>
                  && t.outbox == s.outbox && StoredAs(t.stored, draw.id, input)
                  && t.clients == s.clients[c := WritingCode(input, draw.id)])
  {
    hide ImageOf, Inv, PhonesApart, SamePhoneStored, PhoneTaken;
    TakenMeaning(svc, s, input.phone);
    SamePhoneKey(svc, input, draw, draw);
    hide MakeColumns, PhoneKey;
    assert InsertApplication(s.primary, draw.id, MakeColumns(svc, input, draw).value).Err?
           <==> PhoneTaken(s.primary, PhoneKey(svc, input.phone));
  }

  /** The step answered nothing, or answered something that is not of the 4xx classes,
      or did nothing but refuse. */
  ghost predicate OnlyRefuses(s: System, t: System) {
    || t.outbox == s.outbox
    || (|t.outbox| == |s.outbox| + 1 && !(400 <= HttpStatus(t.outbox[|s.outbox|]) < 500))
    || (exists r :: t == Tell(s, r))
  }

  lemma InsertRefuses(svc: Service, s: System, c: Client, input: ApplicationInput, draw: Draw, link: Link)
    ensures OnlyRefuses(s, InsertStep(svc, s, c, input, draw, link))
  {
    hide MakeColumns, InsertApplication, Apply;
    var t := InsertStep(svc, s, c, input, draw, link);
    assert t.outbox == s.outbox || t == Tell(s, AlreadyApplied(input)) || t.outbox == s.outbox + [Failed];
  }

  lemma FindRefuses(svc: Service, s: System, c: Client, l: AdmitCardLookup, pick: string, link: Link)
    requires svc.Valid()
    ensures OnlyRefuses(s, FindStep(svc, s, c, l, pick, link))
  {
    hide CardKey, CardMatches, CardView, Pool, CodeOf;
    var t := FindStep(svc, s, c, l, pick, link);
    assert t.outbox == s.outbox || t == Tell(s, t.outbox[|s.outbox|]);
  }

  lemma CodeUpdateAnswers(svc: Service, s: System, id: string, onlyIfEmpty: bool, link: Link)
    requires svc.Valid()
    ensures CodeUpdate(svc, s, id, onlyIfEmpty, link).outbox == s.outbox
  {
    hide CodeOf, UpdateCode, Apply;
  }

  lemma VerifyRefuses(svc: Service, s: System, query: string, pick: string, link: Link)
    ensures OnlyRefuses(s, VerifyStep(svc, s, query, pick, link))
  {
    hide Trim, Encode, CleanQuery, CodeMatches, Pool, DocumentView;
    var t := VerifyStep(svc, s, query, pick, link);
    assert t == s || t == Tell(s, t.outbox[|s.outbox|]);
  }

  lemma SubscribeRefuses(svc: Service, s: System, mail: Request<string>, id: string, nonce: Option<Nonce>, link: Link)
    ensures OnlyRefuses(s, SubscribeStep(svc, s, mail, id, nonce, link))
  {
    hide Seal, Hash, InsertSubscriber, Apply;
    var t := SubscribeStep(svc, s, mail, id, nonce, link);
    if MailGate(mail).Some? {
      assert t == Tell(s, Refused(MailGate(mail).value));
    }
  }

  lemma StepRefuses(svc: Service, s: System, step: Step)
    requires svc.Valid()
    ensures OnlyRefuses(s, Next(svc, s, step))
  {
    hide InsertStep, FindStep, VerifyStep, SubscribeStep, CodeUpdate, EditApplication, Apply, AcceptedInput,
      AcceptedLookup;
    match step
    case Submit(c, req, draw, link) =>
      if c !in s.clients && SubmitGate(svc, req).None? {
        InsertRefuses(svc, s, c, req.parsed.value, draw, link);
      } else if c !in s.clients {
        assert Next(svc, s, step) == Tell(s, Refused(SubmitGate(svc, req).value));
      }
    case WriteCode(c, link) =>
      if c in s.clients && s.clients[c].WritingCode? {
        CodeUpdateAnswers(svc, s, s.clients[c].id, false, link);
      }
    case Lookup(c, ask, pick, link) =>
      if c !in s.clients && LookupGate(ask).None? {
        FindRefuses(svc, s, c, ask.parsed.value, pick, link);
      } else if c !in s.clients {
        assert Next(svc, s, step) == Tell(s, Refused(LookupGate(ask).value));
      }
    case Backfill(c, link) =>
      if c in s.clients && s.clients[c].Backfilling? {
        CodeUpdateAnswers(svc, s, s.clients[c].view.id, true, link);
      }
    case Verify(query, pick, link) => VerifyRefuses(svc, s, query, pick, link);
    case Subscribe(mail, id, nonce, link) => SubscribeRefuses(svc, s, mail, id, nonce, link);
    case Replicate =>
    case Crash(_) =>
    case AdminEdit(_, _, _, _) =>
  }

  /** Every answer of the 4xx classes leaves the tables, the log and the other
      clients as they were: refusals, conflicts and misses only answer. */
  lemma RefusalChangesNothing(svc: Service, s: System, step: Step)
    requires svc.Valid()
    ensures var t := Next(svc, s, step);
            |t.outbox| > |s.outbox| && 400 <= HttpStatus(t.outbox[|s.outbox|]) < 500
            ==> t == Tell(s, t.outbox[|s.outbox|])
  {
    hide Next;
    StepRefuses(svc, s, step);
  }

  // ---- one application per phone ----------------------------------------------

  ghost predicate SameSpelling(p: string, q: string)
    requires Phone.BdPhone(p) && Phone.BdPhone(q)
  {
    Phone.National(p) == Phone.National(q) && (Phone.Domestic(p) <==> Phone.Domestic(q))
  }

  /** Two stored applications never share a national number and its prefix family;
      no assumption on collisions is needed. */
  lemma OnePerSpelling(svc: Service, s: System, i: string, j: string)
    requires svc.Valid() && Inv(svc, s) && i in s.stored && j in s.stored
    ensures Phone.BdPhone(s.stored[i].input.phone) && Phone.BdPhone(s.stored[j].input.phone)
    ensures SameSpelling(s.stored[i].input.phone, s.stored[j].input.phone) ==> i == j
  {
    hide ImageOf, Phone.BdPhone, Normalize, Hash;
    var p, q := s.stored[i].input.phone, s.stored[j].input.phone;
    StoredRow(svc, s, i);
    StoredRow(svc, s, j);
    Phone.SharedKey(svc.cm, p, q);
    HashEqual(svc.cm, svc.blind, p, q);
    assert UniquePhones(s.primary);
  }

  /** The stored applications for one national number. */
  ghost function ForNumber(s: System, n: string): set<string> {
    set i | i in s.stored && Phone.BdPhone(s.stored[i].input.phone) && Phone.National(s.stored[i].input.phone) == n
  }

  /** Any run holds at most two applications per national number: one typed with
      the trunk digit and one with the country code. */
  lemma AtMostTwoPerNumber(svc: Service, start: System, steps: seq<Step>, n: string)
    requires svc.Valid() && Inv(svc, start)
    ensures |ForNumber(Run(svc, start, steps), n)| <= 2
  {
    hide Inv, Run, ForNumber;
    RunOk(svc, start, steps);
    TwoPerNumber(svc, Run(svc, start, steps), n);
  }

  lemma TwoPerNumber(svc: Service, s: System, n: string)
    requires svc.Valid() && Inv(svc, s)
    ensures |ForNumber(s, n)| <= 2
  {
    hide Inv, Phone.BdPhone, Phone.Domestic, Phone.National;
    var all := ForNumber(s, n);
    var domestic := set i | i in all && Phone.Domestic(s.stored[i].input.phone);
    var abroad := all - domestic;
    forall i, j | i in domestic && j in domestic
      ensures i == j
    {
      OnePerSpelling(svc, s, i, j);
    }
    forall i, j | i in abroad && j in abroad
      ensures i == j
    {
      OnePerSpelling(svc, s, i, j);
    }
    AtMostOne(domestic);
    AtMostOne(abroad);
    assert all == domestic + abroad;
  }

  lemma AtMostOne<T>(s: set<T>)
    requires forall x, y :: x in s && y in s ==> x == y
    ensures |s| <= 1
  {
    if s != {} {
      var x :| x in s;
      assert s == {x};
    }
  }

  /** The schema's "one application per phone number" is not kept: while a number is
      stored, a second submission for it with a fresh id is stored too exactly when
      no stored one was typed with the same prefix family. */
  lemma SecondApplication(svc: Service, s: System, c: Client, input: ApplicationInput, draw: Draw)
    requires svc.Valid() && Inv(svc, s) && AcceptedInput(input)
    requires MakeColumns(svc, input, draw).Ok? && draw.id !in s.primary.apps
    requires PhonesApart(svc, s, input.phone)
    ensures forall i :: i in s.stored ==> Phone.BdPhone(s.stored[i].input.phone)
    ensures StoredAs(InsertStep(svc, s, c, input, draw, Delivered).stored, draw.id, input)
            <==> !exists i :: i in s.stored && SameSpelling(s.stored[i].input.phone, input.phone)
  {
    hide ImageOf, Phone.BdPhone, Normalize, Phone.National, Phone.Domestic, MakeColumns, PhonesApart,
      InsertStep;
    ConflictMeaning(svc, s, c, input, draw);
    forall i | i in s.stored
      ensures Phone.BdPhone(s.stored[i].input.phone)
      ensures Normalize(svc.cm, s.stored[i].input.phone) == Normalize(svc.cm, input.phone)
              <==> SameSpelling(s.stored[i].input.phone, input.phone)
    {
      StoredRow(svc, s, i);
      Phone.SharedKey(svc.cm, s.stored[i].input.phone, input.phone);
    }
    assert draw.id !in s.stored;
  }

  /** The two families exist for every number: `0...` and `+880...` are both accepted
      and normalise differently, so they are different keys unless these two texts
      collide. */
  lemma TwoSpellings(svc: Service, n: string)
    requires svc.Valid() && Phone.IsNational(n)
    ensures Phone.BdPhone("0" + n) && Phone.BdPhone("+880" + n)
    ensures Phone.National("0" + n) == Phone.National("+880" + n) == n
    ensures !SameSpelling("0" + n, "+880" + n)
    ensures Normalize(svc.cm, "0" + n) == "0" + n && Normalize(svc.cm, "+880" + n) == "880" + n
    ensures Apart(svc.blind, "0" + n, "880" + n) ==> PhoneKey(svc, "0" + n) != PhoneKey(svc, "+880" + n)
  {
    Phone.Spelled("0", n);
    Phone.Spelled("+880", n);
    hide Normalize, Phone.BdPhone, Phone.National, Phone.Domestic, Hash, Apart;
    Phone.NormalPhone(svc.cm, "0" + n);
    Phone.NormalPhone(svc.cm, "+880" + n);
    assert ("0" + n)[0] == '0' && ("880" + n)[0] == '8';
    HashEqual(svc.cm, svc.blind, "0" + n, "+880" + n);
  }

  /** Every random draw was delivered. */
  predicate Drawn(d: Draw) {
    && d.name.Some? && d.phone.Some? && d.email.Some? && d.dob.Some?
    && d.address.Some? && d.education.Some? && d.gpa.Some? && d.photo.Some?
  }

  lemma DrawnSuffices(svc: Service, input: ApplicationInput, d: Draw)
    requires Drawn(d)
    ensures MakeColumns(svc, input, d).Ok?
  {
  }

  /** A request that parsed and passed every rule outside the model. */
  function Plain(input: ApplicationInput): Request<ApplicationInput> {
    Request(Some(input), true, true)
  }

  /** An answered submission that is stored changes the bookkeeping by its own entry. */
  lemma StoredEntry(svc: Service, s: System, c: Client, input: ApplicationInput, draw: Draw)
    requires svc.Valid() && Inv(svc, s) && c !in s.clients && Admissible(svc, input)
    requires Drawn(draw) && draw.id !in s.stored && PhonesApart(svc, s, input.phone)
    requires forall i :: i in s.stored && Phone.BdPhone(s.stored[i].input.phone) ==>
               !SameSpelling(s.stored[i].input.phone, input.phone)
    ensures var t := Next(svc, s, Submit(c, Plain(input), draw, Delivered));
            && Inv(svc, t)
            && t.stored == s.stored[draw.id := Submission(input, draw)]
            && t.clients == s.clients[c := WritingCode(input, draw.id)]
  {
    hide ImageOf, Inv, AcceptedInput, Geo.Listed, PhonesApart, SameSpelling, MakeColumns, InsertApplication,
      Phone.BdPhone, Apply;
    if draw.id in s.primary.apps {
      StoredRow(svc, s, draw.id);
    }
    DrawnSuffices(svc, input, draw);
    NextOk(svc, s, Submit(c, Plain(input), draw, Delivered));
    SecondApplication(svc, s, c, input, draw);
  }

  /** The bound of two is attained: while no application for a number is stored, two
      submissions for it under fresh ids, one typed with `0` and one with `+880`, are
      both stored. */
  lemma BothStored(svc: Service, s: System, c: Client, d: Client, n: string, input: ApplicationInput,
                   first: Draw, second: Draw)
    requires svc.Valid() && Inv(svc, s) && c !in s.clients && d !in s.clients && c != d
    requires Phone.IsNational(n) && ForNumber(s, n) == {}
    requires Dates.DateStr(input.dob) && Geo.Listed(svc.cm, svc.divisions, input.division, input.district)
    requires Drawn(first) && Drawn(second) && first.id != second.id
    requires first.id !in s.stored && second.id !in s.stored
    requires PhonesApart(svc, s, "0" + n) && PhonesApart(svc, s, "+880" + n) && Apart(svc.blind, "0" + n, "880" + n)
    ensures var u := Run(svc, s, [Submit(c, Plain(input.(phone := "0" + n)), first, Delivered),
                                  Submit(d, Plain(input.(phone := "+880" + n)), second, Delivered)]);
            ForNumber(u, n) == {first.id, second.id} && |ForNumber(u, n)| == 2
  {
    hide ImageOf, Inv, Normalize, Hash, Apart, Geo.Listed, Dates.DateStr, Next, Run, Phone.BdPhone, Phone.National,
      Phone.Domestic, Drawn, Phone.IsNational;
    var a, b := input.(phone := "0" + n), input.(phone := "+880" + n);
    var one, two := Submit(c, Plain(a), first, Delivered), Submit(d, Plain(b), second, Delivered);
    TwoSpellings(svc, n);
    RunTwo(svc, s, one, two);
    NumberFree(svc, s, n, a.phone);
    NumberFree(svc, s, n, b.phone);
    StoredEntry(svc, s, c, a, first);
    var t := Next(svc, s, one);
    assert PhonesApart(svc, t, b.phone);
    StoredEntry(svc, t, d, b, second);
    var u := Next(svc, t, two);
    assert u.stored == s.stored[first.id := Submission(a, first)][second.id := Submission(b, second)];
    TwoMore(s, u, n, Submission(a, first), Submission(b, second));
  }

  lemma NumberFree(svc: Service, s: System, n: string, phone: string)
    requires ForNumber(s, n) == {} && Phone.BdPhone(phone) && Phone.National(phone) == n
    ensures forall i :: i in s.stored && Phone.BdPhone(s.stored[i].input.phone) ==>
              !SameSpelling(s.stored[i].input.phone, phone)
  {
    hide Phone.BdPhone, Phone.National, Phone.Domestic;
    forall i | i in s.stored && Phone.BdPhone(s.stored[i].input.phone)
      ensures !SameSpelling(s.stored[i].input.phone, phone)
    {
      assert i !in ForNumber(s, n);
    }
  }

  lemma TwoMore(s: System, u: System, n: string, one: Submission, two: Submission)
    requires ForNumber(s, n) == {} && one.draw.id != two.draw.id
    requires u.stored == s.stored[one.draw.id := one][two.draw.id := two]
    requires Phone.BdPhone(one.input.phone) && Phone.National(one.input.phone) == n
    requires Phone.BdPhone(two.input.phone) && Phone.National(two.input.phone) == n
    ensures ForNumber(u, n) == {one.draw.id, two.draw.id} && |ForNumber(u, n)| == 2
  {
    hide Phone.BdPhone, Phone.National, Phone.Domestic;
    forall i | i in ForNumber(u, n)
      ensures i == one.draw.id || i == two.draw.id
    {
      assert i == one.draw.id || i == two.draw.id || i in ForNumber(s, n);
    }
    assert ForNumber(u, n) == {one.draw.id, two.draw.id};
  }
}
