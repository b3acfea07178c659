/** What a run says about its answers: each was asked for by a request that passed the
    checks, and what it shows was so at some moment of the run. */
module History {
  import opened Wrappers
  import opened Utf8
  import opened Text
  import opened Crypto
  import opened Tables
  import opened Protocol
  import opened Safety
  import opened Replication
  import Applications

  // ---- one step ---------------------------------------------------------------

  /** The request passed the bot check and the validator's built-in rules, and its body
      was this. */
  ghost predicate Passed<T>(req: Request<T>, body: T) {
    req.parsed == Some(body) && req.human && req.tagsOk
  }

  /** The step's request is one that this answer may be given to. */
  ghost predicate Asks(step: Step, r: Reply) {
    match r
    case Created(input, id) => step.Submit? && Passed(step.req, input) && step.draw.id == id
    case AlreadyApplied(input) => step.Submit? && Passed(step.req, input)
    case Card(l, _) => step.Lookup? && Passed(step.ask, l)
    case NoCard(l) => step.Lookup? && Passed(step.ask, l)
    case Genuine(query, _) => step.Verify? && step.query == query
    case NotGenuine(query) => step.Verify? && step.query == query
    case Subscribed(email) => step.Subscribe? && Passed(step.mail, email)
    case Refused(_) => true
    case Failed => true
  }

  /** What the answer says is what these tables hold: a card shows the course of its
      application, and a document besides that its batch and day; a miss means that no
      row has the key, and a code of up to 64 bytes that is not genuine that no row
      shows it. */
  ghost predicate TrueOf(svc: Service, t: Tables, r: Reply) {
    match r
    case Card(_, view) =>
      view.id in t.apps && Lifecycle(t.apps[view.id], view.rollNo, view.confirmed, view.status)
    case NoCard(l) => forall i :: i in t.apps ==> t.apps[i].cols.phoneDobBidx != CardKey(svc, l.phone, l.dob)
    case Genuine(query, document) => exists id :: Documents(svc.cm, t, query, document, id)
    case NotGenuine(query) =>
      |Encode(Trim(query))| <= 64 && CleanQuery(svc.cm, Trim(query)) != "" ==>
        forall i :: i in t.apps ==> t.apps[i].verifyCode != CleanQuery(svc.cm, Trim(query))
    case _ => true
  }

  ghost predicate Documents(cm: CaseMap, t: Tables, query: string, document: VerifyView, id: string) {
    && id in t.apps && t.apps[id].verifyCode == CleanQuery(cm, Trim(query)) != ""
    && Lifecycle(t.apps[id], document.rollNo, document.confirmed, document.status)
    && document.batch == t.apps[id].cols.batch && document.issuedDate == t.apps[id].cols.createdOn
  }

  /** The answer that a waiting client will get. */
  function Coming(p: Pending): Reply {
    match p
    case WritingCode(input, id) => Created(input, id)
    case Backfilling(l, view) => Card(l, view)
  }

  ghost predicate Justified(svc: Service, s: System, step: Step, r: Reply) {
    Asks(step, r) && TrueOf(svc, Pool(svc, s), r)
  }

  /** Every new answer, given or coming, is justified by the step, or was coming. */
  ghost predicate Gives(svc: Service, s: System, step: Step, t: System) {
    && (forall c :: c in t.clients ==>
          || (c in s.clients && t.clients[c] == s.clients[c])
          || Justified(svc, s, step, Coming(t.clients[c])))
    && (|| t.outbox == s.outbox
        || (exists r :: t.outbox == s.outbox + [r] && (Justified(svc, s, step, r) || Came(s, r))))
  }

  ghost predicate Came(s: System, r: Reply) {
    exists c :: c in s.clients && r == Coming(s.clients[c])
  }

  lemma TellGives(svc: Service, s: System, step: Step, r: Reply)
    requires Justified(svc, s, step, r)
    ensures Gives(svc, s, step, Tell(s, r))
  {
    hide Justified;
    assert Tell(s, r).outbox == s.outbox + [r];
  }

  lemma SilentGives(svc: Service, s: System, step: Step, t: System)
    requires t.outbox == s.outbox && forall c :: c in t.clients ==> c in s.clients && t.clients[c] == s.clients[c]
    ensures Gives(svc, s, step, t)
  {
    hide Justified;
  }

  /** A client starts to wait. */
  lemma WaitGives(svc: Service, s: System, step: Step, t: System, c: Client, p: Pending)
    requires t.outbox == s.outbox && t.clients == s.clients[c := p] && Justified(svc, s, step, Coming(p))
    ensures Gives(svc, s, step, t)
  {
    hide Justified;
  }

  /** A waiting client is answered. */
  lemma CameGives(svc: Service, s: System, step: Step, t: System, c: Client)
    requires c in s.clients && t.outbox == s.outbox + [Coming(s.clients[c])] && t.clients == s.clients - {c}
    ensures Gives(svc, s, step, t)
  {
    hide Justified;
    assert Came(s, Coming(s.clients[c]));
  }

  lemma PlainJustified(svc: Service, s: System, step: Step, r: Reply)
    requires Asks(step, r) && (r.Created? || r.AlreadyApplied? || r.Subscribed? || r.Refused? || r.Failed?)
    ensures Justified(svc, s, step, r)
  {
  }

  lemma SubmitGives(svc: Service, s: System, step: Step)
    requires svc.Valid() && step.Submit?
    ensures Gives(svc, s, step, Next(svc, s, step))
  {
    hide Gives, MakeColumns, InsertApplication, AcceptedInput, Apply, Justified;
    var t := Next(svc, s, step);
    if step.c in s.clients {
      SilentGives(svc, s, step, t);
    } else if SubmitGate(svc, step.req).Some? {
      var r := Refused(SubmitGate(svc, step.req).value);
      PlainJustified(svc, s, step, r);
      TellGives(svc, s, step, r);
    } else {
      var input := step.req.parsed.value;
      PlainJustified(svc, s, step, Failed);
      PlainJustified(svc, s, step, AlreadyApplied(input));
      PlainJustified(svc, s, step, Created(input, step.draw.id));
      InsertGives(svc, s, step, input);
    }
  }

  lemma InsertGives(svc: Service, s: System, step: Step, input: ApplicationInput)
    requires svc.Valid() && step.Submit? && step.c !in s.clients
    requires Justified(svc, s, step, Failed) && Justified(svc, s, step, AlreadyApplied(input))
    requires Justified(svc, s, step, Created(input, step.draw.id))
    ensures Gives(svc, s, step, InsertStep(svc, s, step.c, input, step.draw, step.link))
  {
    hide Gives, MakeColumns, InsertApplication, Apply, Justified;
    var t := InsertStep(svc, s, step.c, input, step.draw, step.link);
    if t.outbox == s.outbox {
      WaitGives(svc, s, step, t, step.c, WritingCode(input, step.draw.id));
    } else {
      AnswerGives(svc, s, step, t, t.outbox[|s.outbox|]);
    }
  }

  lemma AnswerGives(svc: Service, s: System, step: Step, t: System, r: Reply)
    requires t.outbox == s.outbox + [r] && t.clients == s.clients && Justified(svc, s, step, r)
    ensures Gives(svc, s, step, t)
  {
    hide Justified;
  }

  lemma SecondGives(svc: Service, s: System, step: Step)
    requires svc.Valid() && (step.WriteCode? || step.Backfill?)
    ensures Gives(svc, s, step, Next(svc, s, step))
  {
    hide Gives, CodeUpdate;
    var t := Next(svc, s, step);
    if step.c !in s.clients {
      SilentGives(svc, s, step, t);
    } else if step.WriteCode? && s.clients[step.c].WritingCode? {
      UpdateFrame(svc, s, s.clients[step.c].id, false, step.link);
      CameGives(svc, s, step, t, step.c);
    } else if step.Backfill? && s.clients[step.c].Backfilling? {
      UpdateFrame(svc, s, s.clients[step.c].view.id, true, step.link);
      CameGives(svc, s, step, t, step.c);
    } else {
      SilentGives(svc, s, step, t);
    }
  }

  lemma UpdateFrame(svc: Service, s: System, id: string, onlyIfEmpty: bool, link: Link)
    requires svc.Valid()
    ensures var t := CodeUpdate(svc, s, id, onlyIfEmpty, link); t.outbox == s.outbox && t.clients == s.clients
  {
    hide CodeOf, UpdateCode, Apply;
  }

  lemma LookupGives(svc: Service, s: System, step: Step)
    requires svc.Valid() && step.Lookup?
    ensures Gives(svc, s, step, Next(svc, s, step))
  {
    hide Gives, FindStep, AcceptedLookup, Justified;
    var t := Next(svc, s, step);
    if step.c in s.clients {
      SilentGives(svc, s, step, t);
    } else if LookupGate(step.ask).Some? {
      var r := Refused(LookupGate(step.ask).value);
      PlainJustified(svc, s, step, r);
      TellGives(svc, s, step, r);
    } else {
      FindGives(svc, s, step, step.ask.parsed.value);
    }
  }

  lemma FindGives(svc: Service, s: System, step: Step, l: AdmitCardLookup)
    requires svc.Valid() && step.Lookup? && step.c !in s.clients && Passed(step.ask, l)
    ensures Gives(svc, s, step, FindStep(svc, s, step.c, l, step.pick, step.link))
  {
    hide Gives, CardKey, Justified, CardView, Pool, Tell;
    var pool, pick := Pool(svc, s), step.pick;
    PlainJustified(svc, s, step, Failed);
    TellGives(svc, s, step, Failed);
    SilentGives(svc, s, step, s);
    if CardMatches(pool, CardKey(svc, l.phone, l.dob)) == {} {
      MissJustified(svc, s, step, l);
      TellGives(svc, s, step, NoCard(l));
    }
    if pick in CardMatches(pool, CardKey(svc, l.phone, l.dob)) {
      var view := CardView(svc, pick, pool.apps[pick]);
      CardJustified(svc, s, step, l, pick);
      TellGives(svc, s, step, Card(l, view));
      WaitGives(svc, s, step, s.(clients := s.clients[step.c := Backfilling(l, view)]), step.c, Backfilling(l, view));
    }
  }

  lemma MissJustified(svc: Service, s: System, step: Step, l: AdmitCardLookup)
    requires step.Lookup? && Passed(step.ask, l) && CardMatches(Pool(svc, s), CardKey(svc, l.phone, l.dob)) == {}
    ensures Justified(svc, s, step, NoCard(l))
  {
    hide CardKey, Pool;
    assert forall i :: i in Pool(svc, s).apps ==> i !in CardMatches(Pool(svc, s), CardKey(svc, l.phone, l.dob));
  }

  lemma CardJustified(svc: Service, s: System, step: Step, l: AdmitCardLookup, id: string)
    requires svc.Valid() && step.Lookup? && Passed(step.ask, l) && id in Pool(svc, s).apps
    ensures Justified(svc, s, step, Card(l, CardView(svc, id, Pool(svc, s).apps[id])))
  {
    hide Unseal, CodeOf, Pool;
  }

  lemma VerifyGives(svc: Service, s: System, step: Step)
    requires svc.Valid() && step.Verify?
    ensures Gives(svc, s, step, Next(svc, s, step))
  {
    hide Gives, Trim, Encode, CleanQuery, Justified, DocumentView, Pool, Tell;
    var query, pick := step.query, step.pick;
    var pool, clean := Pool(svc, s), CleanQuery(svc.cm, Trim(query));
    PlainJustified(svc, s, step, Refused(Malformed));
    PlainJustified(svc, s, step, Failed);
    TellGives(svc, s, step, Refused(Malformed));
    TellGives(svc, s, step, Failed);
    if |Encode(Trim(query))| > QUERY_LIMIT || clean == "" || CodeMatches(pool, clean) == {} {
      UnknownJustified(svc, s, step);
      TellGives(svc, s, step, NotGenuine(query));
    }
    SilentGives(svc, s, step, s);
    if clean != "" && pick in CodeMatches(pool, clean) {
      DocumentJustified(svc, s, step, pick);
      TellGives(svc, s, step, Genuine(query, DocumentView(pool.apps[pick])));
    }
    assert Next(svc, s, step) == VerifyStep(svc, s, query, pick, step.link);
  }

  lemma UnknownJustified(svc: Service, s: System, step: Step)
    requires step.Verify?
    requires var clean := CleanQuery(svc.cm, Trim(step.query));
             |Encode(Trim(step.query))| > 64 || clean == "" || CodeMatches(Pool(svc, s), clean) == {}
    ensures Justified(svc, s, step, NotGenuine(step.query))
  {
    hide Trim, Encode, CleanQuery, Pool;
    var clean := CleanQuery(svc.cm, Trim(step.query));
    assert forall i :: i in Pool(svc, s).apps && Pool(svc, s).apps[i].verifyCode == clean ==>
                         i in CodeMatches(Pool(svc, s), clean);
  }

  lemma DocumentJustified(svc: Service, s: System, step: Step, id: string)
    requires step.Verify? && CleanQuery(svc.cm, Trim(step.query)) != ""
    requires id in CodeMatches(Pool(svc, s), CleanQuery(svc.cm, Trim(step.query)))
    ensures Justified(svc, s, step, Genuine(step.query, DocumentView(Pool(svc, s).apps[id])))
  {
    hide Trim, CleanQuery, Pool;
    assert Documents(svc.cm, Pool(svc, s), step.query, DocumentView(Pool(svc, s).apps[id]), id);
  }

  lemma SubscribeGives(svc: Service, s: System, step: Step)
    requires svc.Valid() && step.Subscribe?
    ensures Gives(svc, s, step, Next(svc, s, step))
  {
    hide Gives, Seal, Hash, InsertSubscriber, Apply, Justified;
    var t := Next(svc, s, step);
    var r := t.outbox[|s.outbox|];
    assert t.outbox == s.outbox + [r] && t.clients == s.clients;
    assert Asks(step, r) && (r.Subscribed? || r.Refused? || r.Failed?);
    PlainJustified(svc, s, step, r);
    AnswerGives(svc, s, step, t, r);
  }

  lemma OtherGives(svc: Service, s: System, step: Step)
    requires svc.Valid() && (step.Replicate? || step.Crash? || step.AdminEdit?)
    ensures Gives(svc, s, step, Next(svc, s, step))
  {
    hide Gives, EditApplication, Apply;
    SilentGives(svc, s, step, Next(svc, s, step));
  }

  lemma StepGives(svc: Service, s: System, step: Step)
    requires svc.Valid()
    ensures Gives(svc, s, step, Next(svc, s, step))
  {
    hide Gives, Next;
    match step
    case Submit(_, _, _, _) => SubmitGives(svc, s, step);
    case WriteCode(_, _) => SecondGives(svc, s, step);
    case Lookup(_, _, _, _) => LookupGives(svc, s, step);
    case Backfill(_, _) => SecondGives(svc, s, step);
    case Verify(_, _, _) => VerifyGives(svc, s, step);
    case Subscribe(_, _, _, _) => SubscribeGives(svc, s, step);
    case Replicate => OtherGives(svc, s, step);
    case Crash(_) => OtherGives(svc, s, step);
    case AdminEdit(_, _, _, _) => OtherGives(svc, s, step);
  }

  // ---- whole runs -------------------------------------------------------------

  /** Some step of the run asked for the answer. */
  ghost predicate EverAsked(steps: seq<Step>, r: Reply) {
    exists k :: 0 <= k < |steps| && Asks(steps[k], r)
  }

  /** The answer was true of the primary at some moment of the run. */
  ghost predicate OnceTrue(svc: Service, start: System, steps: seq<Step>, r: Reply)
    requires svc.Valid()
  {
    exists t :: Past(svc, start, steps, t) && TrueOf(svc, t, r)
  }

  ghost predicate Grounded(svc: Service, start: System, steps: seq<Step>, r: Reply)
    requires svc.Valid()
  {
    EverAsked(steps, r) && OnceTrue(svc, start, steps, r)
  }

  lemma GroundedLonger(svc: Service, start: System, steps: seq<Step>, r: Reply)
    requires svc.Valid() && steps != [] && Grounded(svc, start, steps[..|steps| - 1], r)
    ensures Grounded(svc, start, steps, r)
  {
    hide Past, TrueOf, Asks;
    var n := |steps| - 1;
    var k :| 0 <= k < n && Asks(steps[..n][k], r);
    assert Asks(steps[k], r);
    var t :| Past(svc, start, steps[..n], t) && TrueOf(svc, t, r);
    PastLonger(svc, start, steps, t);
  }

  lemma GroundedNow(svc: Service, start: System, steps: seq<Step>, r: Reply)
    requires svc.Valid() && steps != [] && start.wal == [] && start.replica == start.primary
    requires Justified(svc, Run(svc, start, steps[..|steps| - 1]), steps[|steps| - 1], r)
    ensures Grounded(svc, start, steps, r)
  {
    hide Past, TrueOf, Asks, Run;
    var n := |steps| - 1;
    assert Asks(steps[n], r);
    ReplicaIsPast(svc, start, steps[..n]);
    PastLonger(svc, start, steps, Pool(svc, Run(svc, start, steps[..n])));
  }

  ghost predicate AllGrounded(svc: Service, start: System, steps: seq<Step>)
    requires svc.Valid()
  {
    var u := Run(svc, start, steps);
    && (forall c :: c in u.clients ==> Grounded(svc, start, steps, Coming(u.clients[c])))
    && (forall r :: r in u.outbox ==> r in start.outbox || Grounded(svc, start, steps, r))
  }

  lemma {:induction false} RunGrounded(svc: Service, start: System, steps: seq<Step>)
    requires svc.Valid() && start.wal == [] && start.replica == start.primary && start.clients == map[]
    ensures AllGrounded(svc, start, steps)
  {
    hide Next, Grounded, Justified;
    if steps == [] {
    } else {
      var n := |steps| - 1;
      var s, u := Run(svc, start, steps[..n]), Run(svc, start, steps);
      RunGrounded(svc, start, steps[..n]);
      StepGives(svc, s, steps[n]);
      forall r | Grounded(svc, start, steps[..n], r)
        ensures Grounded(svc, start, steps, r)
      {
        GroundedLonger(svc, start, steps, r);
      }
      forall r | Justified(svc, s, steps[n], r)
        ensures Grounded(svc, start, steps, r)
      {
        GroundedNow(svc, start, steps, r);
      }
    }
  }

  /** In any run every answer was asked for: a 201, a conflict, a card, a miss or a
      subscription by a request of this very body that passed the bot check and the
      built-in rules, a verdict on a code by a check of that code.  And what a card or a
      document shows of its row was so on the primary at some moment of the run, as was the
      absence that a miss reports. */
  lemma EveryAnswerIsGrounded(svc: Service, start: System, steps: seq<Step>, r: Reply)
    requires svc.Valid() && start.wal == [] && start.replica == start.primary && start.clients == map[]
    requires r in Run(svc, start, steps).outbox && r !in start.outbox
    ensures EverAsked(steps, r) && OnceTrue(svc, start, steps, r)
  {
    hide EverAsked, OnceTrue, Run;
    RunGrounded(svc, start, steps);
  }

  // ---- applications that no one edits -----------------------------------------

  /** No step of the run edits this application. */
  ghost predicate NeverEdited(steps: seq<Step>, id: string) {
    forall k :: 0 <= k < |steps| ==> steps[k].AdminEdit? ==> steps[k].id != id
  }

  /** No roll number, not confirmed, submitted. */
  ghost predicate Untouched(t: Tables, id: string) {
    id in t.apps ==> t.apps[id].rollNo == None && !t.apps[id].confirmed && t.apps[id].status == "submitted"
  }

  lemma InsertUntouched(svc: Service, s: System, c: Client, input: ApplicationInput, draw: Draw, link: Link, id: string)
    requires Untouched(s.primary, id)
    ensures Untouched(InsertStep(svc, s, c, input, draw, link).primary, id)
  {
    hide MakeColumns, PhoneTaken;
  }

  lemma UpdateUntouched(svc: Service, s: System, target: string, onlyIfEmpty: bool, link: Link, id: string)
    requires svc.Valid() && Untouched(s.primary, id)
    ensures Untouched(CodeUpdate(svc, s, target, onlyIfEmpty, link).primary, id)
  {
    hide CodeOf, CodeTaken;
  }

  lemma SubscribeUntouched(svc: Service, s: System, step: Step, id: string)
    requires svc.Valid() && step.Subscribe? && Untouched(s.primary, id)
    ensures Untouched(Next(svc, s, step).primary, id)
  {
    hide SubscribeStep;
    Applications.SubscribeCounts(svc, s, step.mail, step.id, step.nonce, step.link);
  }

  lemma AdminUntouched(s: System, target: string, rollNo: Option<string>, confirmed: bool, status: string, id: string)
    requires target != id && Untouched(s.primary, id)
    ensures Untouched(AdminStep(s, target, rollNo, confirmed, status).primary, id)
  {
    hide RollTaken;
  }

  lemma StepUntouched(svc: Service, s: System, step: Step, id: string)
    requires svc.Valid() && Untouched(s.primary, id) && (step.AdminEdit? ==> step.id != id)
    ensures Untouched(Next(svc, s, step).primary, id)
  {
    hide InsertStep, CodeUpdate, AdminStep, LookupStep, VerifyStep, SubscribeStep, AcceptedInput, Untouched;
    match step
    case Submit(c, req, draw, link) =>
      if SubmitGate(svc, req).None? {
        InsertUntouched(svc, s, c, req.parsed.value, draw, link, id);
      }
    case WriteCode(c, link) =>
      if c in s.clients && s.clients[c].WritingCode? {
        UpdateUntouched(svc, s, s.clients[c].id, false, link, id);
      }
    case Lookup(_, _, _, _) => ReadSame(svc, s, step);
    case Backfill(c, link) =>
      if c in s.clients && s.clients[c].Backfilling? {
        UpdateUntouched(svc, s, s.clients[c].view.id, true, link, id);
      }
    case Verify(_, _, _) => ReadSame(svc, s, step);
    case Subscribe(_, _, _, _) => SubscribeUntouched(svc, s, step, id);
    case Replicate =>
    case Crash(_) =>
    case AdminEdit(target, rollNo, confirmed, status) => AdminUntouched(s, target, rollNo, confirmed, status, id);
  }

  lemma ReadSame(svc: Service, s: System, step: Step)
    requires svc.Valid() && (step.Lookup? || step.Verify?)
    ensures Next(svc, s, step).primary == s.primary
  {
    hide Trim, Encode, CleanQuery, CodeMatches, Pool, DocumentView, CardKey, CardMatches, CardView, AcceptedLookup;
    match step
    case Lookup(_, _, _, _) =>
    case Verify(_, _, _) =>
  }

  lemma {:induction false} PrimaryUntouched(svc: Service, start: System, steps: seq<Step>, id: string)
    requires svc.Valid() && Untouched(start.primary, id) && NeverEdited(steps, id)
    ensures Untouched(Run(svc, start, steps).primary, id)
  {
    hide Next, Untouched;
    if steps == [] {
    } else {
      var n := |steps| - 1;
      assert NeverEdited(steps[..n], id);
      PrimaryUntouched(svc, start, steps[..n], id);
      StepUntouched(svc, Run(svc, start, steps[..n]), steps[n], id);
    }
  }

  lemma PastUntouched(svc: Service, start: System, steps: seq<Step>, id: string, t: Tables)
    requires svc.Valid() && Untouched(start.primary, id) && NeverEdited(steps, id) && Past(svc, start, steps, t)
    ensures Untouched(t, id)
  {
    hide Run, Untouched;
    var k :| 0 <= k <= |steps| && Run(svc, start, steps[..k]).primary == t;
    assert NeverEdited(steps[..k], id);
    PrimaryUntouched(svc, start, steps[..k], id);
  }

  /** An application that the run stores and no one edits has no roll number, is not
      confirmed and has the status "submitted": on the primary, in what lookups and code
      checks see, and on every card that was ever answered for it. */
  lemma UneditedStaysSubmitted(svc: Service, start: System, steps: seq<Step>, id: string)
    requires svc.Valid() && start.wal == [] && start.replica == start.primary && start.clients == map[]
    requires id !in start.primary.apps && NeverEdited(steps, id)
    ensures var u := Run(svc, start, steps);
            && Untouched(u.primary, id) && Untouched(Pool(svc, u), id)
            && (forall l, view :: Card(l, view) in u.outbox && Card(l, view) !in start.outbox && view.id == id ==>
                  view.rollNo == "" && !view.confirmed && view.status == "submitted")
  {
    hide Run, NeverEdited, Past;
    var u := Run(svc, start, steps);
    PrimaryUntouched(svc, start, steps, id);
    ReplicaIsPast(svc, start, steps);
    PastUntouched(svc, start, steps, id, Pool(svc, u));
    forall l, view | Card(l, view) in u.outbox && Card(l, view) !in start.outbox && view.id == id
      ensures view.rollNo == "" && !view.confirmed && view.status == "submitted"
    {
      EveryAnswerIsGrounded(svc, start, steps, Card(l, view));
      var t :| Past(svc, start, steps, t) && TrueOf(svc, t, Card(l, view));
      PastUntouched(svc, start, steps, id, t);
    }
  }

  lemma GenuineNow(svc: Service, s: System, query: string, id: string)
    requires svc.Valid() && id in Pool(svc, s).apps && Trim(query) != "" && |Encode(Trim(query))| <= 64
    requires Pool(svc, s).apps[id].verifyCode == CleanQuery(svc.cm, Trim(query)) != ""
    ensures Next(svc, s, Verify(query, id, Delivered)) == Tell(s, Genuine(query, DocumentView(Pool(svc, s).apps[id])))
  {
    hide Trim, Encode, CleanQuery, Pool, DocumentView, Tell;
    assert id in CodeMatches(Pool(svc, s), CleanQuery(svc.cm, Trim(query)));
    assert Next(svc, s, Verify(query, id, Delivered)) == VerifyStep(svc, s, query, id, Delivered);
  }

  /** Its genuine answer says the same. */
  lemma UneditedDocument(svc: Service, start: System, steps: seq<Step>, id: string, query: string)
    requires svc.Valid() && start.wal == [] && start.replica == start.primary && start.clients == map[]
    requires id !in start.primary.apps && NeverEdited(steps, id)
    requires id in Pool(svc, Run(svc, start, steps)).apps && Trim(query) != "" && |Encode(Trim(query))| <= 64
    requires Pool(svc, Run(svc, start, steps)).apps[id].verifyCode == CleanQuery(svc.cm, Trim(query)) != ""
    ensures exists document ::
              && Next(svc, Run(svc, start, steps), Verify(query, id, Delivered))
                 == Tell(Run(svc, start, steps), Genuine(query, document))
              && document.rollNo == "" && !document.confirmed && document.status == "submitted"
  {
    hide Run, Past, NeverEdited, Trim, Encode, CleanQuery, Pool, Next, Tell;
    var u := Run(svc, start, steps);
    UneditedStaysSubmitted(svc, start, steps, id);
    GenuineNow(svc, u, query, id);
    var document := DocumentView(Pool(svc, u).apps[id]);
    assert Next(svc, u, Verify(query, id, Delivered)) == Tell(u, Genuine(query, document));
  }
}
