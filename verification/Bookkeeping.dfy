/** The two bookkeeping components of a state serve the theorems only: no step reads
    them, so a running service need not keep them. */
module Bookkeeping {
  import opened Wrappers
  import opened Utf8
  import opened Text
  import opened Crypto
  import opened Tables
  import opened Protocol

  /** Equal in everything that a service or its database keeps. */
  ghost predicate Alike(s: System, t: System) {
    && t.primary == s.primary && t.replica == s.replica && t.wal == s.wal
    && t.clients == s.clients && t.outbox == s.outbox
  }

  lemma TellUnread(s: System, t: System, r: Reply)
    requires Alike(s, t)
    ensures Alike(Tell(s, r), Tell(t, r))
  {
  }

  lemma InsertUnread(svc: Service, s: System, t: System, c: Client, input: ApplicationInput, draw: Draw, link: Link)
    requires Alike(s, t)
    ensures Alike(InsertStep(svc, s, c, input, draw, link), InsertStep(svc, t, c, input, draw, link))
  {
    hide MakeColumns, InsertApplication, Apply;
    if MakeColumns(svc, input, draw).Err? || link == Lost {
      TellUnread(s, t, Failed);
    } else {
      var cols := MakeColumns(svc, input, draw).value;
      assert InsertApplication(s.primary, draw.id, cols) == InsertApplication(t.primary, draw.id, cols);
    }
  }

  lemma CodeUpdateUnread(svc: Service, s: System, t: System, id: string, onlyIfEmpty: bool, link: Link)
    requires svc.Valid() && Alike(s, t)
    ensures Alike(CodeUpdate(svc, s, id, onlyIfEmpty, link), CodeUpdate(svc, t, id, onlyIfEmpty, link))
  {
    hide CodeOf, UpdateCode, Apply;
  }

  lemma VerifyUnread(svc: Service, s: System, t: System, query: string, pick: string, link: Link)
    requires Alike(s, t)
    ensures Alike(VerifyStep(svc, s, query, pick, link), VerifyStep(svc, t, query, pick, link))
  {
    var pool := Pool(svc, s);
    assert pool == Pool(svc, t);
    hide Trim, Encode, CleanQuery, DocumentView, Pool, Tell, Alike;
    TellUnread(s, t, Refused(Malformed));
    TellUnread(s, t, NotGenuine(query));
    TellUnread(s, t, Failed);
    if pick in CodeMatches(pool, CleanQuery(svc.cm, Trim(query))) {
      TellUnread(s, t, Genuine(query, DocumentView(pool.apps[pick])));
    }
  }

  lemma FindUnread(svc: Service, s: System, t: System, c: Client, l: AdmitCardLookup, pick: string, link: Link)
    requires svc.Valid() && Alike(s, t)
    ensures Alike(FindStep(svc, s, c, l, pick, link), FindStep(svc, t, c, l, pick, link))
  {
    var pool := Pool(svc, s);
    assert pool == Pool(svc, t);
    hide CodeOf, CardKey, CardView, Pool, Tell;
    TellUnread(s, t, NoCard(l));
    TellUnread(s, t, Failed);
    if pick in CardMatches(pool, CardKey(svc, l.phone, l.dob)) {
      TellUnread(s, t, Card(l, CardView(svc, pick, pool.apps[pick])));
    }
  }

  lemma SubscribeUnread(svc: Service, s: System, t: System, mail: Request<string>, id: string,
                        nonce: Option<Nonce>, link: Link)
    requires Alike(s, t)
    ensures Alike(SubscribeStep(svc, s, mail, id, nonce, link), SubscribeStep(svc, t, mail, id, nonce, link))
  {
    hide Seal, Hash, InsertSubscriber, Apply;
    if MailGate(mail).Some? {
      TellUnread(s, t, Refused(MailGate(mail).value));
    } else if Seal(svc, mail.parsed.value, nonce).Err? || link == Lost {
      TellUnread(s, t, Failed);
    } else {
      var email := mail.parsed.value;
      var sub := Subscriber(Seal(svc, email, nonce).value, Hash(svc.cm, svc.blind, email));
      assert InsertSubscriber(s.primary, id, sub) == InsertSubscriber(t.primary, id, sub);
    }
  }

  lemma AdminUnread(s: System, t: System, id: string, rollNo: Option<string>, confirmed: bool, status: string)
    requires Alike(s, t)
    ensures Alike(AdminStep(s, id, rollNo, confirmed, status), AdminStep(t, id, rollNo, confirmed, status))
  {
    hide EditApplication, Apply;
  }

  lemma StepUnread(svc: Service, s: System, t: System, step: Step)
    requires svc.Valid() && Alike(s, t)
    ensures Alike(Next(svc, s, step), Next(svc, t, step))
  {
    hide InsertStep, FindStep, VerifyStep, SubscribeStep, AdminStep, CodeUpdate, AcceptedInput, AcceptedLookup, Apply;
    match step
    case Submit(c, req, draw, link) =>
      if SubmitGate(svc, req).None? {
        InsertUnread(svc, s, t, c, req.parsed.value, draw, link);
      }
    case WriteCode(c, link) =>
      if c in s.clients && s.clients[c].WritingCode? {
        CodeUpdateUnread(svc, s, t, s.clients[c].id, false, link);
      }
    case Lookup(c, ask, pick, link) =>
      if LookupGate(ask).None? {
        FindUnread(svc, s, t, c, ask.parsed.value, pick, link);
      }
    case Backfill(c, link) =>
      if c in s.clients && s.clients[c].Backfilling? {
        CodeUpdateUnread(svc, s, t, s.clients[c].view.id, true, link);
      }
    case Verify(query, pick, link) => VerifyUnread(svc, s, t, query, pick, link);
    case Subscribe(mail, id, nonce, link) => SubscribeUnread(svc, s, t, mail, id, nonce, link);
    case Replicate =>
    case Crash(_) =>
    case AdminEdit(id, rollNo, confirmed, status) => AdminUnread(s, t, id, rollNo, confirmed, status);
  }

  /** Whatever the bookkeeping holds at the start, a run does the same to everything
      that a service keeps, and gives the same answers. */
  lemma {:induction false} RunUnread(svc: Service, s: System, t: System, steps: seq<Step>)
    requires svc.Valid() && Alike(s, t)
    ensures Alike(Run(svc, s, steps), Run(svc, t, steps))
  {
    hide Next;
    if steps == [] {
    } else {
      var k := |steps| - 1;
      RunUnread(svc, s, t, steps[..k]);
      StepUnread(svc, Run(svc, s, steps[..k]), Run(svc, t, steps[..k]), steps[k]);
    }
  }
}
