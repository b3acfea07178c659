/** Document codes: when a row gets its code, that the code is permanent, and what
    checking a code tells. */
module VerifyCodes {
  import opened Wrappers
  import opened Utf8
  import opened Text
  import opened Crypto
  import opened Tables
  import opened Protocol
  import opened Safety
  import opened Applications
  import AdmitCards
  import Replication
  import Uuids
  import Dates
  import Geo
  import Phone

  /** An application's code: DYD-AC- and the eight symbols for the MAC of AC, a bar and
      its id. */
  lemma CodeText(svc: Service, id: string, k: nat)
    requires svc.Valid() && k < 8
    ensures var digest := svc.sign(Encode("AC|" + id));
            && |CodeOf(svc, id)| == 15 && CodeOf(svc, id)[..7] == "DYD-AC-"
            && CodeOf(svc, id)[7 + k] == "0123456789ABCDEFGHJKMNPQRSTVWXYZ"[digest[k] % 32]
  {
    hide DocCode, Encode;
    DocCodeText(svc.sign, "AC", id, k);
    assert "AC" + "|" + id == "AC|" + id;
    assert "DYD-" + "AC" + "-" == "DYD-AC-";
  }

  // ---- codes on the primary ---------------------------------------------------

  /** A code once written is never changed, in any continuation of any run. */
  lemma CodeIsPermanent(svc: Service, start: System, a: seq<Step>, b: seq<Step>, id: string)
    requires svc.Valid() && Inv(svc, start)
    requires id in Run(svc, start, a).primary.apps && Run(svc, start, a).primary.apps[id].verifyCode != ""
    ensures var t := Run(svc, start, a + b);
            id in t.primary.apps
            && t.primary.apps[id].verifyCode == Run(svc, start, a).primary.apps[id].verifyCode == CodeOf(svc, id)
  {
    hide ImageOf, Run, Next, CodeOf, Recorded, ClientsOk, OutboxOk, Constraints;
    var s := Run(svc, start, a);
    RunOk(svc, start, a);
    RunConcat(svc, start, a, b);
    RunOk(svc, s, b);
    OwnCode(svc, s.primary, id);
  }

  /** Some other row already shows the code that this row would get. */
  ghost predicate CodeBlocked(svc: Service, t: Tables, id: string)
    requires svc.Valid()
  {
    exists j :: j in t.apps && j != id && CodeOf(svc, j) == CodeOf(svc, id) && t.apps[j].verifyCode != ""
  }

  /** After an UPDATE of any fate, guarded or not, the row carries its code exactly
      when it had it before, or the UPDATE reached the primary and no other row with
      an equal code came first. */
  lemma CodeLands(svc: Service, s: System, id: string, onlyIfEmpty: bool, link: Link)
    requires svc.Valid() && Good(svc, s.primary) && id in s.primary.apps
    ensures var t := CodeUpdate(svc, s, id, onlyIfEmpty, link);
            && id in t.primary.apps
            && (t.primary.apps[id].verifyCode == CodeOf(svc, id)
                <==> s.primary.apps[id].verifyCode != "" || (link != Lost && !CodeBlocked(svc, s.primary, id)))
            && (t.primary.apps[id].verifyCode == "" || t.primary.apps[id].verifyCode == CodeOf(svc, id))
  {
    hide CodeOf;
    CodeNotEmpty(svc, id);
    BlockedMeaning(svc, s.primary, id);
    hide Good, CodeBlocked, CodeTaken;
    if s.primary.apps[id].verifyCode != "" {
      OwnCode(svc, s.primary, id);
    }
  }

  lemma BlockedMeaning(svc: Service, t: Tables, id: string)
    requires svc.Valid() && Good(svc, t) && id in t.apps
    ensures CodeTaken(t, id, CodeOf(svc, id)) <==> CodeBlocked(svc, t, id)
    ensures t.apps[id].verifyCode != "" ==> !CodeBlocked(svc, t, id)
  {
    hide CodeOf;
    CodeNotEmpty(svc, id);
    assert UniqueCodes(t) && OwnCodes(svc, t);
    hide Good;
    if CodeTaken(t, id, CodeOf(svc, id)) {
      var j :| j in t.apps && j != id && t.apps[j].verifyCode == CodeOf(svc, id);
      assert CodeOf(svc, j) == CodeOf(svc, id);
    }
  }

  // ---- when a row has its code ------------------------------------------------

  /** The client is about to write the code of this row. */
  ghost predicate Writer(s: System, c: Client, id: string) {
    c in s.clients && match s.clients[c] case WritingCode(_, i) => i == id case Backfilling(_, view) => view.id == id
  }

  /** The step is an UPDATE of the row's code that reaches the primary, and no other
      row with an equal code came first. */
  ghost predicate WritesCode(svc: Service, s: System, step: Step, id: string)
    requires svc.Valid()
  {
    && !CodeBlocked(svc, s.primary, id)
    && match step
       case WriteCode(c, link) => link != Lost && Writer(s, c, id) && s.clients[c].WritingCode?
       case Backfill(c, link) => link != Lost && Writer(s, c, id) && s.clients[c].Backfilling?
       case _ => false
  }

  lemma UpdateElsewhere(svc: Service, s: System, id: string, onlyIfEmpty: bool, link: Link, other: string)
    requires svc.Valid() && other in s.primary.apps && other != id
    ensures var t := CodeUpdate(svc, s, id, onlyIfEmpty, link);
            other in t.primary.apps && t.primary.apps[other] == s.primary.apps[other]
  {
    hide CodeOf, CodeTaken;
  }

  /** An UPDATE on behalf of one row, seen from any row. */
  lemma UpdateSeen(svc: Service, s: System, target: string, onlyIfEmpty: bool, link: Link, id: string)
    requires svc.Valid() && Good(svc, s.primary) && id in s.primary.apps
    ensures var t := CodeUpdate(svc, s, target, onlyIfEmpty, link);
            && id in t.primary.apps
            && (t.primary.apps[id].verifyCode != ""
                <==> s.primary.apps[id].verifyCode != ""
                     || (target == id && link != Lost && !CodeBlocked(svc, s.primary, id)))
  {
    hide Good, CodeOf, CodeUpdate, CodeBlocked;
    if target == id {
      CodeLands(svc, s, id, onlyIfEmpty, link);
      CodeNotEmpty(svc, id);
    } else {
      UpdateElsewhere(svc, s, target, onlyIfEmpty, link, id);
    }
  }

  lemma InsertKeepsCode(svc: Service, s: System, c: Client, input: ApplicationInput, draw: Draw, link: Link, id: string)
    requires id in s.primary.apps
    ensures var t := InsertStep(svc, s, c, input, draw, link);
            id in t.primary.apps && t.primary.apps[id] == s.primary.apps[id]
  {
    hide MakeColumns, PhoneTaken;
  }

  lemma AdminKeepsCode(s: System, target: string, rollNo: Option<string>, confirmed: bool, status: string, id: string)
    requires id in s.primary.apps
    ensures var t := AdminStep(s, target, rollNo, confirmed, status);
            id in t.primary.apps && t.primary.apps[id].verifyCode == s.primary.apps[id].verifyCode
  {
    hide RollTaken;
  }

  /** One step: a blank code is written by such an UPDATE and by nothing else. */
  lemma StepCode(svc: Service, s: System, step: Step, id: string)
    requires svc.Valid() && Good(svc, s.primary) && id in s.primary.apps
    ensures var t := Next(svc, s, step);
            && id in t.primary.apps
            && (t.primary.apps[id].verifyCode != ""
                <==> s.primary.apps[id].verifyCode != "" || WritesCode(svc, s, step, id))
  {
    hide Good, CodeOf, CodeUpdate, CodeBlocked, InsertStep, SubscribeStep, AdminStep, LookupStep, VerifyStep,
      AcceptedInput;
    match step
    case Submit(c, req, draw, link) =>
      if SubmitGate(svc, req).None? {
        InsertKeepsCode(svc, s, c, req.parsed.value, draw, link, id);
      }
    case WriteCode(c, link) =>
      if c in s.clients && s.clients[c].WritingCode? {
        UpdateSeen(svc, s, s.clients[c].id, false, link, id);
      }
    case Lookup(_, _, _, _) => ReadCounts(svc, s, step);
    case Backfill(c, link) =>
      if c in s.clients && s.clients[c].Backfilling? {
        UpdateSeen(svc, s, s.clients[c].view.id, true, link, id);
      }
    case Verify(_, _, _) => ReadCounts(svc, s, step);
    case Subscribe(mail, subscriber, nonce, link) => SubscribeCounts(svc, s, mail, subscriber, nonce, link);
    case Replicate =>
    case Crash(_) =>
    case AdminEdit(target, rollNo, confirmed, status) => AdminKeepsCode(s, target, rollNo, confirmed, status, id);
  }

  /** Some step of the run wrote the row's code. */
  ghost predicate EverWritten(svc: Service, s: System, steps: seq<Step>, id: string)
    requires svc.Valid()
  {
    exists k :: 0 <= k < |steps| && WritesCode(svc, Run(svc, s, steps[..k]), steps[k], id)
  }

  lemma EverWrittenSnoc(svc: Service, s: System, steps: seq<Step>, id: string)
    requires svc.Valid() && steps != []
    ensures var n := |steps| - 1;
            EverWritten(svc, s, steps, id)
            <==> EverWritten(svc, s, steps[..n], id) || WritesCode(svc, Run(svc, s, steps[..n]), steps[n], id)
  {
    hide Run, WritesCode;
    var n := |steps| - 1;
    forall k | 0 <= k < n
      ensures steps[..n][..k] == steps[..k] && steps[..n][k] == steps[k]
    {
    }
    if EverWritten(svc, s, steps[..n], id) {
      var k :| 0 <= k < n && WritesCode(svc, Run(svc, s, steps[..n][..k]), steps[..n][k], id);
      assert WritesCode(svc, Run(svc, s, steps[..k]), steps[k], id);
    }
    if EverWritten(svc, s, steps, id) && !WritesCode(svc, Run(svc, s, steps[..n]), steps[n], id) {
      var k :| 0 <= k < |steps| && WritesCode(svc, Run(svc, s, steps[..k]), steps[k], id);
      assert WritesCode(svc, Run(svc, s, steps[..n][..k]), steps[..n][k], id);
    }
  }

  /** Over whole runs: a row has its code exactly when it had it at the start or some
      UPDATE for it reached the primary before any other row showed an equal code. */
  lemma {:induction false} HeldExactlyWhen(svc: Service, s: System, steps: seq<Step>, id: string)
    requires svc.Valid() && Inv(svc, s) && id in s.primary.apps
    ensures var u := Run(svc, s, steps);
            && id in u.primary.apps
            && (u.primary.apps[id].verifyCode != ""
                <==> s.primary.apps[id].verifyCode != "" || EverWritten(svc, s, steps, id))
  {
    hide Next, Inv, Good, Grows, WritesCode, EverWritten;
    if steps == [] {
      NeverWritten(svc, s, id);
    } else {
      var n := |steps| - 1;
      var r := Run(svc, s, steps[..n]);
      HeldExactlyWhen(svc, s, steps[..n], id);
      RunOk(svc, s, steps[..n]);
      GoodPrimary(svc, r);
      StepCode(svc, r, steps[n], id);
      EverWrittenSnoc(svc, s, steps, id);
    }
  }

  lemma NeverWritten(svc: Service, s: System, id: string)
    requires svc.Valid()
    ensures !EverWritten(svc, s, [], id)
  {
  }

  /** So, once the log is replayed, asking for a row's code finds exactly that row in
      just these runs. */
  lemma ResolvesExactlyWhen(svc: Service, s: System, steps: seq<Step>, replays: seq<Step>, id: string)
    requires svc.Valid() && Inv(svc, s) && id in s.primary.apps
    requires Replication.OnlyReplays(replays) && |replays| == |Run(svc, s, steps).wal|
    ensures var v := Run(svc, Run(svc, s, steps), replays);
            CodeMatches(Pool(svc, v), CodeOf(svc, id)) == {id}
            <==> s.primary.apps[id].verifyCode != "" || EverWritten(svc, s, steps, id)
  {
    hide Inv, Run, CodeOf, CodeMatches, EverWritten, TablesOk, Grows;
    var u := Run(svc, s, steps);
    HeldExactlyWhen(svc, s, steps, id);
    RunOk(svc, s, steps);
    RunOk(svc, u, replays);
    InvTables(svc, u);
    Replication.Settled(svc, u, replays);
    InvTables(svc, Run(svc, u, replays));
    ResolvesToItself(svc, Run(svc, u, replays), id);
  }

  lemma InvTables(svc: Service, s: System)
    requires svc.Valid() && Inv(svc, s)
    ensures TablesOk(svc, s.primary, s.replica, s.wal)
  {
    hide TablesOk, Recorded, ClientsOk, OutboxOk;
  }

  /** The code on a card: when the conversation of a lookup ends, the row that it
      showed has its code exactly when it had it by the time of the backfill, or the
      backfill reached the primary and no other row with an equal code came first. */
  lemma CardCodeHeld(svc: Service, s: System, c: Client, ask: Request<AdmitCardLookup>, id: string,
                     others: seq<Step>, link: Link)
    requires svc.Valid() && Inv(svc, s) && c !in s.clients && Spares(others, c) && LookupGate(ask).None?
    requires id in CardMatches(Pool(svc, s), CardKey(svc, ask.parsed.value.phone, ask.parsed.value.dob))
    ensures var r := AdmitCards.Meanwhile(svc, s, c, ask, id, others);
            var u := AdmitCards.Conversation(svc, s, c, ask, id, others, link);
            && id in r.primary.apps && id in u.primary.apps
            && (u.primary.apps[id].verifyCode == CodeOf(svc, id)
                <==> r.primary.apps[id].verifyCode != "" || (link != Lost && !CodeBlocked(svc, r.primary, id)))
  {
    hide Inv, Run, Next, Good, Grows, CodeOf, CardKey, CardView, AcceptedLookup, CodeBlocked, Extends;
    var t := Next(svc, s, Lookup(c, ask, id, Delivered));
    var r := AdmitCards.Meanwhile(svc, s, c, ask, id, others);
    AdmitCards.LookupFinds(svc, s, c, ask, id);
    VisibleIsStored(svc, s, id);
    NextOk(svc, s, Lookup(c, ask, id, Delivered));
    if c in t.clients {
      OthersRun(svc, t, others, c);
      RunOk(svc, t, others);
      RowStays(t, r, id);
      GoodPrimary(svc, r);
      BackfillLands(svc, r, c, ask.parsed.value, CardView(svc, id, Pool(svc, s).apps[id]), id, link);
    } else {
      GoodPrimary(svc, t);
      OwnCode(svc, t.primary, id);
    }
  }

  lemma VisibleIsStored(svc: Service, s: System, id: string)
    requires svc.Valid() && Inv(svc, s) && id in Pool(svc, s).apps
    ensures id in s.primary.apps
    ensures Pool(svc, s).apps[id].verifyCode != "" ==> s.primary.apps[id].verifyCode != ""
  {
    hide Good, Recorded, ClientsOk, OutboxOk, CodeOf;
    PoolOk(svc, s);
  }

  lemma RowStays(s: System, t: System, id: string)
    requires Grows(s, t) && id in s.primary.apps
    ensures id in t.primary.apps
  {
  }

  lemma BackfillLands(svc: Service, s: System, c: Client, l: AdmitCardLookup, view: AdmitCardView, id: string, link: Link)
    requires svc.Valid() && Good(svc, s.primary) && id in s.primary.apps
    requires c in s.clients && s.clients[c] == Backfilling(l, view) && view.id == id
    ensures var t := Next(svc, s, Backfill(c, link));
            && id in t.primary.apps
            && (t.primary.apps[id].verifyCode == CodeOf(svc, id)
                <==> s.primary.apps[id].verifyCode != "" || (link != Lost && !CodeBlocked(svc, s.primary, id)))
  {
    hide Good, CodeBlocked, CodeOf, CodeUpdate;
    CodeLands(svc, s, id, true, link);
    var t := Next(svc, s, Backfill(c, link));
    assert t.primary == CodeUpdate(svc, s, id, true, link).primary;
  }

  // ---- shared codes -----------------------------------------------------------

  /** Whatever the MAC, some two ids that the database can generate have the same
      code: forty bits of a digest cannot tell all of them apart. */
  lemma SharedCode(svc: Service) returns (i: string, j: string)
    requires svc.Valid()
    ensures Uuids.IsUuidV4(i) && Uuids.IsUuidV4(j) && i != j && CodeOf(svc, i) == CodeOf(svc, j)
  {
    hide CodeCount, DocCode, Uuids.Numbered, Uuids.IsUuidV4, Uuids.Power16;
    EnoughUuids();
    var ids := seq(CodeCount(CODE_SYMBOLS) + 1,
                   k requires 0 <= k < CodeCount(CODE_SYMBOLS) + 1 => Uuids.Numbered(k));
    CodesRunOut(svc.sign, DOC_CODE_PREFIX, ids);
    var k, m :| 0 <= k < m < |ids|
                && DocCode(svc.sign, DOC_CODE_PREFIX, ids[k]) == DocCode(svc.sign, DOC_CODE_PREFIX, ids[m]);
    i, j := ids[k], ids[m];
    Uuids.NumberedForm(k);
    Uuids.NumberedForm(m);
    if i == j {
      Uuids.NumberedInjective(k, m);
    }
  }

  lemma EnoughUuids()
    ensures CodeCount(CODE_SYMBOLS) < Uuids.Power16(12)
  {
    assert CodeCount(8) == 0x100_0000_0000;
    assert Uuids.Power16(12) == 0x1_0000_0000_0000;
  }

  /** A row whose code another row shows is blank, and stays blank in every run. */
  lemma BlockedForever(svc: Service, s: System, steps: seq<Step>, id: string)
    requires svc.Valid() && Inv(svc, s) && id in s.primary.apps && CodeBlocked(svc, s.primary, id)
    ensures var t := Run(svc, s, steps);
            id in t.primary.apps && t.primary.apps[id].verifyCode == "" && CodeBlocked(svc, t.primary, id)
  {
    hide CodeOf, Run, ImageOf, Recorded, ClientsOk, OutboxOk, Constraints;
    RunOk(svc, s, steps);
    var t := Run(svc, s, steps);
    var j :| j in s.primary.apps && j != id && CodeOf(svc, j) == CodeOf(svc, id) && s.primary.apps[j].verifyCode != "";
    assert j in t.primary.apps && t.primary.apps[j].verifyCode != "";
    BlockedMeaning(svc, t.primary, id);
  }

  /** A submission whose UPDATE reaches the primary directly gets its code, unless
      another row with an equal code came first. */
  lemma CodeAtOnce(svc: Service, s: System, c: Client, req: Request<ApplicationInput>, draw: Draw)
    requires svc.Valid() && Inv(svc, s) && c !in s.clients && !CodeBlocked(svc, s.primary, draw.id)
    requires SubmitGate(svc, req).None? && Insertable(svc, s, req.parsed.value, draw)
    ensures var t := AdmitCards.OwnCalls(svc, s, c, req, draw, [], Delivered);
            draw.id in t.primary.apps && t.primary.apps[draw.id].verifyCode == CodeOf(svc, draw.id)
  {
    hide Next, Run, AcceptedInput, Insertable, CodeOf, CodeBlocked, Inv, Good, ImageOf;
    var m := Next(svc, s, Submit(c, req, draw, Delivered));
    DirectCalls(svc, s, c, req, draw, Delivered);
    AdmitCards.SubmitWaits(svc, s, c, req, draw);
    SubmitRow(svc, s, c, req, draw);
    NextOk(svc, s, Submit(c, req, draw, Delivered));
    GoodPrimary(svc, m);
    NotBlocked(svc, s.primary, m.primary, draw.id);
    WriteLands(svc, m, c, req.parsed.value, draw.id, Delivered);
  }

  lemma DirectCalls(svc: Service, s: System, c: Client, req: Request<ApplicationInput>, draw: Draw, link: Link)
    requires svc.Valid()
    ensures AdmitCards.OwnCalls(svc, s, c, req, draw, [], link)
         == Next(svc, Next(svc, s, Submit(c, req, draw, Delivered)), WriteCode(c, link))
  {
    hide Next;
  }

  lemma NotBlocked(svc: Service, t: Tables, u: Tables, id: string)
    requires svc.Valid() && !CodeBlocked(svc, t, id) && id in u.apps && u.apps == t.apps[id := u.apps[id]]
    ensures !CodeBlocked(svc, u, id)
  {
    hide CodeOf;
    forall j | j in u.apps && j != id && CodeOf(svc, j) == CodeOf(svc, id)
      ensures u.apps[j].verifyCode == ""
    {
      assert u.apps[j] == t.apps[j];
    }
  }

  /** The waiting client's UPDATE, when it reaches the primary unblocked, leaves the
      row with its code. */
  lemma WriteLands(svc: Service, s: System, c: Client, input: ApplicationInput, id: string, link: Link)
    requires svc.Valid() && Good(svc, s.primary) && id in s.primary.apps && !CodeBlocked(svc, s.primary, id)
    requires c in s.clients && s.clients[c] == WritingCode(input, id) && link != Lost
    ensures var t := Next(svc, s, WriteCode(c, link));
            id in t.primary.apps && t.primary.apps[id].verifyCode == CodeOf(svc, id)
  {
    hide Good, CodeBlocked, CodeOf, CodeUpdate;
    CodeLands(svc, s, id, false, link);
    var t := Next(svc, s, WriteCode(c, link));
    assert t.primary == CodeUpdate(svc, s, id, false, link).primary;
  }

  lemma GoodPrimary(svc: Service, s: System)
    requires svc.Valid() && Inv(svc, s)
    ensures Good(svc, s.primary)
  {
    hide Good, Recorded, ClientsOk, OutboxOk;
  }

  lemma SubmitRow(svc: Service, s: System, c: Client, req: Request<ApplicationInput>, draw: Draw)
    requires svc.Valid() && c !in s.clients
    requires SubmitGate(svc, req).None? && Insertable(svc, s, req.parsed.value, draw)
    ensures var m := Next(svc, s, Submit(c, req, draw, Delivered));
            && draw.id in m.primary.apps && m.primary.apps[draw.id].verifyCode == ""
            && m.primary.apps == s.primary.apps[draw.id := m.primary.apps[draw.id]]
  {
    hide MakeColumns, AcceptedInput, PhoneTaken;
  }

  /** So a document's code need not ever resolve to it: when two submissions under
      ids with one code are taken one after the other, both are acknowledged, the
      first row gets the code, and the second stays blank whatever follows. */
  lemma SecondStaysBlank(svc: Service, s: System, c: Client, a: Request<ApplicationInput>, first: Draw,
                         b: Request<ApplicationInput>, second: Draw, later: seq<Step>)
    requires svc.Valid() && Inv(svc, s) && c !in s.clients
    requires SubmitGate(svc, a).None? && Insertable(svc, s, a.parsed.value, first)
    requires CodeOf(svc, first.id) == CodeOf(svc, second.id) && !CodeBlocked(svc, s.primary, first.id)
    requires SubmitGate(svc, b).None?
    requires Insertable(svc, AdmitCards.OwnCalls(svc, s, c, a, first, [], Delivered), b.parsed.value, second)
    ensures var t := AdmitCards.OwnCalls(svc, s, c, a, first, [], Delivered);
            var u := Run(svc, AdmitCards.OwnCalls(svc, t, c, b, second, [], Delivered), later);
            && Created(a.parsed.value, first.id) in u.outbox && Created(b.parsed.value, second.id) in u.outbox
            && first.id in u.primary.apps && u.primary.apps[first.id].verifyCode == CodeOf(svc, first.id)
            && second.id in u.primary.apps && u.primary.apps[second.id].verifyCode == ""
  {
    hide CodeOf, Run, Inv, AcceptedInput, Insertable, CodeBlocked, AdmitCards.OwnCalls, Grows;
    var t := AdmitCards.OwnCalls(svc, s, c, a, first, [], Delivered);
    AdmitCards.SubmissionIsStored(svc, s, c, a, first, [], Delivered);
    CodeAtOnce(svc, s, c, a, first);
    CodeNotEmpty(svc, first.id);
    assert first.id in t.primary.apps && second.id !in t.primary.apps by {
      InsertableFresh(svc, t, b.parsed.value, second);
    }
    AdmitCards.SubmissionIsStored(svc, t, c, b, second, [], Delivered);
    var v := AdmitCards.OwnCalls(svc, t, c, b, second, [], Delivered);
    var u := Run(svc, v, later);
    CodeStays(svc, t, v, first.id);
    BlockedBy(svc, v.primary, first.id, second.id);
    BlockedForever(svc, v, later, second.id);
    RunOk(svc, v, later);
    CodeStays(svc, v, u, first.id);
    AnswersGrow(t, v, Created(a.parsed.value, first.id));
    AnswersGrow(v, u, Created(a.parsed.value, first.id));
    AnswersGrow(v, u, Created(b.parsed.value, second.id));
  }

  /** Such ids exist whatever the keys are: any two admissible applications of
      different phones can be given generated ids under which, in every run, the
      second is acknowledged and never gets its code. */
  lemma SomeIdsCollide(svc: Service, c: Client, a: ApplicationInput, d: Draw, b: ApplicationInput, e: Draw)
      returns (first: Draw, second: Draw)
    requires svc.Valid() && Admissible(svc, a) && Admissible(svc, b) && Drawn(d) && Drawn(e)
    requires PhoneKey(svc, a.phone) != PhoneKey(svc, b.phone)
    ensures first == d.(id := first.id) && second == e.(id := second.id)
    ensures Uuids.IsUuidV4(first.id) && Uuids.IsUuidV4(second.id)
    ensures forall later ::
              var t := AdmitCards.OwnCalls(svc, INIT, c, Plain(a), first, [], Delivered);
              var u := Run(svc, AdmitCards.OwnCalls(svc, t, c, Plain(b), second, [], Delivered), later);
              && Created(b, second.id) in u.outbox
              && second.id in u.primary.apps && u.primary.apps[second.id].verifyCode == ""
  {
    hide CodeOf, Run, Inv, AcceptedInput, Geo.Listed, PhoneKey, Insertable, CodeBlocked, AdmitCards.OwnCalls,
      Uuids.IsUuidV4;
    var i, j := SharedCode(svc);
    first, second := d.(id := i), e.(id := j);
    InitOk(svc);
    FreeAtFirst(svc, c, a, first, b, second);
    forall later
      ensures var t := AdmitCards.OwnCalls(svc, INIT, c, Plain(a), first, [], Delivered);
              var u := Run(svc, AdmitCards.OwnCalls(svc, t, c, Plain(b), second, [], Delivered), later);
              && Created(b, second.id) in u.outbox
              && second.id in u.primary.apps && u.primary.apps[second.id].verifyCode == ""
    {
      SecondStaysBlank(svc, INIT, c, Plain(a), first, Plain(b), second, later);
    }
  }

  lemma FreeAtFirst(svc: Service, c: Client, a: ApplicationInput, first: Draw, b: ApplicationInput, second: Draw)
    requires svc.Valid() && Admissible(svc, a) && Admissible(svc, b) && Drawn(first) && Drawn(second)
    requires PhoneKey(svc, a.phone) != PhoneKey(svc, b.phone) && first.id != second.id
    ensures Insertable(svc, INIT, a, first) && !CodeBlocked(svc, INIT.primary, first.id)
    ensures Insertable(svc, AdmitCards.OwnCalls(svc, INIT, c, Plain(a), first, [], Delivered), b, second)
  {
    hide CodeOf, Next, Inv, AcceptedInput, Geo.Listed, PhoneKey, CardKey, Seal, CodeUpdate;
    DrawnSuffices(svc, a, first);
    DrawnSuffices(svc, b, second);
    SamePhoneKey(svc, a, first, first);
    SamePhoneKey(svc, b, second, second);
    DirectCalls(svc, INIT, c, Plain(a), first, Delivered);
    hide AdmitCards.OwnCalls, MakeColumns;
    InsertsOnly(svc, c, a, first);
  }

  lemma InsertsOnly(svc: Service, c: Client, a: ApplicationInput, first: Draw)
    requires svc.Valid() && Admissible(svc, a) && MakeColumns(svc, a, first).Ok?
    ensures var t := Next(svc, Next(svc, INIT, Submit(c, Plain(a), first, Delivered)), WriteCode(c, Delivered));
            forall i :: i in t.primary.apps ==>
              i == first.id && t.primary.apps[i].cols == MakeColumns(svc, a, first).value
  {
    hide CodeOf, AcceptedInput, Geo.Listed, MakeColumns;
  }

  lemma CodeStays(svc: Service, s: System, t: System, id: string)
    requires svc.Valid() && Grows(s, t)
    requires id in s.primary.apps && s.primary.apps[id].verifyCode == CodeOf(svc, id)
    ensures id in t.primary.apps && t.primary.apps[id].verifyCode == CodeOf(svc, id)
  {
    CodeNotEmpty(svc, id);
    hide CodeOf;
  }

  lemma AnswersGrow(s: System, t: System, r: Reply)
    requires Grows(s, t) && r in s.outbox
    ensures r in t.outbox
  {
    hide Extends;
  }

  lemma InsertableFresh(svc: Service, s: System, input: ApplicationInput, draw: Draw)
    requires Insertable(svc, s, input, draw)
    ensures draw.id !in s.primary.apps
  {
    hide MakeColumns, PhoneTaken;
  }

  lemma BlockedBy(svc: Service, t: Tables, i: string, j: string)
    requires svc.Valid() && i in t.apps && i != j && t.apps[i].verifyCode != "" && CodeOf(svc, i) == CodeOf(svc, j)
    ensures CodeBlocked(svc, t, j)
  {
  }

  // ---- checking a code --------------------------------------------------------

  /** The handler's length bound counts bytes of the trimmed query. */
  ghost predicate Bounded(query: string) {
    Trim(query) != "" && |Encode(Trim(query))| <= QUERY_LIMIT
  }

  /** Trimming commutes with upper-casing. */
  lemma UpperTrim(cm: CaseMap, query: string)
    requires cm.Valid()
    ensures CleanQuery(cm, Trim(query)) == MapChars(cm.upper, Trim(query)) == CleanQuery(cm, query)
  {
    hide Trim, MapChars, Tight, Blank, IsSpace, CleanQuery;
    var a, b := TrimSplit(query);
    UpperTight(cm, Trim(query));
    UpperPadded(cm, a, Trim(query), b);
    assert Blank("") by {
      EmptyBlank();
    }
    UpperPadded(cm, "", Trim(query), "");
    assert "" + Trim(query) + "" == Trim(query);
  }

  lemma CleanNotBlank(cm: CaseMap, query: string)
    requires cm.Valid()
    ensures CleanQuery(cm, Trim(query)) == "" <==> Trim(query) == ""
  {
    hide Trim, CleanQuery;
    UpperTrim(cm, query);
  }

  lemma EmptyBlank()
    ensures Blank("")
  {
  }

  lemma UpperTight(cm: CaseMap, t: string)
    requires cm.Valid() && Tight(t)
    ensures Tight(MapChars(cm.upper, t))
  {
  }

  /** Any query that upper-cases and trims to an issued code, in whatever letters
      and with whatever white space around it, gets past the length bound. */
  lemma VariantsPass(svc: Service, query: string, id: string)
    requires svc.Valid() && CleanQuery(svc.cm, query) == CodeOf(svc, id)
    ensures Bounded(query) && CleanQuery(svc.cm, Trim(query)) == CodeOf(svc, id)
  {
    UpperTrim(svc.cm, query);
    DocCodeShape(svc.cm, svc.sign, id);
  }

  /** Any white space around any casing of the code's letters is such a query. */
  lemma TypedVariants(svc: Service, a: string, typed: string, b: string, id: string)
    requires svc.Valid() && Blank(a) && Blank(b) && MapChars(svc.cm.upper, typed) == CodeOf(svc, id)
    ensures CleanQuery(svc.cm, a + typed + b) == CodeOf(svc, id)
  {
    DocCodeShape(svc.cm, svc.sign, id);
    UpperPadded(svc.cm, a, typed, b);
  }

  lemma UpperPadded(cm: CaseMap, a: string, typed: string, b: string)
    requires cm.Valid() && Blank(a) && Blank(b) && Tight(MapChars(cm.upper, typed))
    ensures CleanQuery(cm, a + typed + b) == MapChars(cm.upper, typed)
  {
    var x, up, y := MapChars(cm.upper, a), MapChars(cm.upper, typed), MapChars(cm.upper, b);
    assert Blank(x) && Blank(y);
    assert MapChars(cm.upper, a + typed + b) == x + up + y;
    TrimPadded(x, up, y);
  }

  /** A code query finds at most one row, and a row that it finds carries its own
      code, which is the query. */
  lemma HitMeaning(svc: Service, s: System, code: string, i: string, j: string)
    requires svc.Valid() && TablesOk(svc, s.primary, s.replica, s.wal) && code != ""
    requires i in CodeMatches(Pool(svc, s), code) && j in CodeMatches(Pool(svc, s), code)
    ensures i == j && CodeOf(svc, i) == code
  {
    hide CodeOf;
    PoolOk(svc, s);
    OwnCode(svc, Pool(svc, s), i);
    assert UniqueCodes(Pool(svc, s));
  }

  /** Asking for a visible row's code finds that row exactly when the row holds its
      code; when it does not, whatever is found is another row with an equal code. */
  lemma ResolvesToItself(svc: Service, s: System, id: string)
    requires svc.Valid() && TablesOk(svc, s.primary, s.replica, s.wal) && id in Pool(svc, s).apps
    ensures CodeMatches(Pool(svc, s), CodeOf(svc, id)) == {id} <==> Pool(svc, s).apps[id].verifyCode != ""
    ensures forall j :: j in CodeMatches(Pool(svc, s), CodeOf(svc, id)) ==> CodeOf(svc, j) == CodeOf(svc, id)
    ensures id in CodeMatches(Pool(svc, s), CodeOf(svc, id)) <==> Pool(svc, s).apps[id].verifyCode != ""
  {
    hide CodeOf;
    var pool := Pool(svc, s);
    var code := CodeOf(svc, id);
    CodeNotEmpty(svc, id);
    PoolOk(svc, s);
    if pool.apps[id].verifyCode != "" {
      OwnCode(svc, pool, id);
    }
    forall j | j in CodeMatches(pool, code)
      ensures CodeOf(svc, j) == code
      ensures id in CodeMatches(pool, code) ==> j == id
    {
      HitMeaning(svc, s, code, j, j);
      if id in CodeMatches(pool, code) {
        HitMeaning(svc, s, code, id, j);
      }
    }
    hide Good;
    assert id in CodeMatches(pool, code) ==> CodeMatches(pool, code) == {id};
  }

  /** When no two visible ids share a code, a hit can only be the row that issued it. */
  lemma DistinctCodesResolve(svc: Service, s: System, id: string, pick: string)
    requires svc.Valid() && TablesOk(svc, s.primary, s.replica, s.wal)
    requires pick in CodeMatches(Pool(svc, s), CodeOf(svc, id))
    requires pick != id ==> CodeOf(svc, pick) != CodeOf(svc, id)
    ensures pick == id
  {
    hide CodeOf;
    CodeNotEmpty(svc, id);
    HitMeaning(svc, s, CodeOf(svc, id), pick, pick);
  }

  /** The answer to any typed variant of a held code: genuine, with the row's current
      status, and nothing about the applicant. */
  lemma GenuineAnswer(svc: Service, s: System, query: string, id: string, pick: string)
    requires svc.Valid() && TablesOk(svc, s.primary, s.replica, s.wal)
    requires CleanQuery(svc.cm, query) == CodeOf(svc, id)
    requires id in Pool(svc, s).apps && Pool(svc, s).apps[id].verifyCode != ""
    ensures VerifyStep(svc, s, query, pick, Delivered)
         == if pick == id then Tell(s, Genuine(query, DocumentView(Pool(svc, s).apps[id]))) else s
  {
    hide TablesOk;
    VariantsPass(svc, query, id);
    ResolvesToItself(svc, s, id);
    CodeNotEmpty(svc, id);
    hide CodeOf, CleanQuery, CodeMatches;
  }

  /** End to end over runs: once the primary holds a row's code and as many commits
      have been replicated as were pending then, every typed variant of the code is
      answered as genuine with that row, from then on and whatever else happens. */
  lemma HeldCodeIsGenuine(svc: Service, s: System, steps: seq<Step>, id: string, query: string)
    requires svc.Valid() && Inv(svc, s) && id in s.primary.apps && s.primary.apps[id].verifyCode != ""
    requires Replication.Replays(steps) >= |s.wal| && CleanQuery(svc.cm, query) == CodeOf(svc, id)
    ensures var u := Run(svc, s, steps);
            && CodeMatches(Pool(svc, u), CodeOf(svc, id)) == {id}
            && Pool(svc, u).apps[id].cols == s.primary.apps[id].cols
            && Next(svc, u, Verify(query, id, Delivered))
               == Tell(u, Genuine(query, DocumentView(Pool(svc, u).apps[id])))
  {
    hide CodeOf, CleanQuery, Run, TablesOk, Recorded, ClientsOk, OutboxOk, VerifyStep, ImageOf;
    var u := Run(svc, s, steps);
    Replication.EventuallyVisible(svc, s, steps);
    RunOk(svc, s, steps);
    ResolvesToItself(svc, u, id);
    GenuineAnswer(svc, u, query, id, id);
  }

  /** In particular for a submission whose code UPDATE reached the primary unblocked:
      its card's code is genuine as soon as the UPDATE is replicated. */
  lemma AcknowledgedCodeIsGenuine(svc: Service, s: System, c: Client, link: Link, steps: seq<Step>, query: string)
    requires svc.Valid() && Inv(svc, s) && c in s.clients && s.clients[c].WritingCode? && link != Lost
    requires !CodeBlocked(svc, s.primary, s.clients[c].id)
    requires Replication.Replays(steps) >= |Next(svc, s, WriteCode(c, link)).wal|
    requires CleanQuery(svc.cm, query) == CodeOf(svc, s.clients[c].id)
    ensures var id, u := s.clients[c].id, Run(svc, Next(svc, s, WriteCode(c, link)), steps);
            && Created(s.clients[c].input, id) in u.outbox
            && CodeMatches(Pool(svc, u), CodeOf(svc, id)) == {id}
            && Next(svc, u, Verify(query, id, Delivered))
               == Tell(u, Genuine(query, DocumentView(Pool(svc, u).apps[id])))
  {
    hide CodeOf, CleanQuery, CodeBlocked, Run, Inv, Good, Next, Grows, ImageOf;
    var input, id := s.clients[c].input, s.clients[c].id;
    var t := Next(svc, s, WriteCode(c, link));
    WaitingIsStored(svc, s, c);
    GoodPrimary(svc, s);
    WriteLands(svc, s, c, input, id, link);
    CodeNotEmpty(svc, id);
    NextOk(svc, s, WriteCode(c, link));
    AdmitCards.WriteAnswers(svc, s, c, input, id, link);
    HeldCodeIsGenuine(svc, t, steps, id, query);
    RunOk(svc, t, steps);
    AnswersGrow(t, Run(svc, t, steps), Created(input, id));
  }

  /** The last answer is a card with this code. */
  ghost predicate EndsWithCode(s: System, code: string) {
    s.outbox != [] && s.outbox[|s.outbox| - 1].Card? && s.outbox[|s.outbox| - 1].card.verifyCode == code
  }

  /** When the backfill of a blank, unblocked row is lost, the card that was just
      answered shows a code that is not genuine, however it is typed. */
  lemma CardNotGenuine(svc: Service, s: System, c: Client, ask: Request<AdmitCardLookup>, id: string,
                       query: string, pick: string)
    requires svc.Valid() && Inv(svc, s) && c !in s.clients && LookupGate(ask).None?
    requires id in CardMatches(Pool(svc, s), CardKey(svc, ask.parsed.value.phone, ask.parsed.value.dob))
    requires Pool(svc, s).apps[id].verifyCode == "" && !CodeBlocked(svc, Pool(svc, s), id)
    requires CleanQuery(svc.cm, query) == CodeOf(svc, id)
    ensures var u := AdmitCards.Conversation(svc, s, c, ask, id, [], Lost);
            && EndsWithCode(u, CodeOf(svc, id))
            && Next(svc, u, Verify(query, pick, Delivered)) == Tell(u, NotGenuine(query))
  {
    hide CodeOf, CleanQuery, CardKey, Next, Run, AcceptedLookup, Inv, Unseal, VerifyStep, CodeBlocked;
    var u := AdmitCards.Conversation(svc, s, c, ask, id, [], Lost);
    AdmitCards.ConversationAnswers(svc, s, c, ask, id, [], Lost);
    LostBackfill(svc, s, c, ask, id);
    InvTables(svc, s);
    NobodyShows(svc, s, id);
    VariantsPass(svc, query, id);
    UnknownAnswer(svc, u, query, pick);
    VerifyIsStep(svc, u, query, pick);
  }

  lemma VerifyIsStep(svc: Service, s: System, query: string, pick: string)
    requires svc.Valid()
    ensures Next(svc, s, Verify(query, pick, Delivered)) == VerifyStep(svc, s, query, pick, Delivered)
  {
    hide VerifyStep;
  }

  lemma LostBackfill(svc: Service, s: System, c: Client, ask: Request<AdmitCardLookup>, id: string)
    requires svc.Valid() && c !in s.clients && LookupGate(ask).None?
    requires id in CardMatches(Pool(svc, s), CardKey(svc, ask.parsed.value.phone, ask.parsed.value.dob))
    requires Pool(svc, s).apps[id].verifyCode == ""
    ensures Pool(svc, AdmitCards.Conversation(svc, s, c, ask, id, [], Lost)) == Pool(svc, s)
    ensures AdmitCards.Conversation(svc, s, c, ask, id, [], Lost).primary == s.primary
  {
    AdmitCards.LookupFinds(svc, s, c, ask, id);
    var t := Next(svc, s, Lookup(c, ask, id, Delivered));
    hide CodeOf, CardKey, CardView, LookupStep;
    assert Run(svc, t, []) == t;
    BackfillLost(svc, t, c);
  }

  lemma BackfillLost(svc: Service, s: System, c: Client)
    requires svc.Valid()
    ensures var t := Next(svc, s, Backfill(c, Lost)); t.primary == s.primary && t.replica == s.replica
    ensures var t := Next(svc, s, WriteCode(c, Lost));
            t.primary == s.primary && t.replica == s.replica && t.wal == s.wal
  {
    hide CodeOf;
  }

  /** No visible row shows the code of a blank and unblocked one. */
  lemma NobodyShows(svc: Service, s: System, id: string)
    requires svc.Valid() && TablesOk(svc, s.primary, s.replica, s.wal)
    requires id in Pool(svc, s).apps && Pool(svc, s).apps[id].verifyCode == "" && !CodeBlocked(svc, Pool(svc, s), id)
    ensures forall i :: i in Pool(svc, s).apps ==> Pool(svc, s).apps[i].verifyCode != CodeOf(svc, id)
  {
    hide CodeOf, TablesOk, Good;
    PoolOk(svc, s);
    CodeNotEmpty(svc, id);
    forall i | i in Pool(svc, s).apps
      ensures Pool(svc, s).apps[i].verifyCode != CodeOf(svc, id)
    {
      if Pool(svc, s).apps[i].verifyCode != "" {
        OwnCode(svc, Pool(svc, s), i);
      }
    }
  }

  /** The run from the submission on: both UPDATEs are lost, everything is replicated,
      nothing collides, and still the applicant holds a card with a code that is
      answered as not genuine. */
  lemma BothUpdatesLost(svc: Service, s: System, c: Client, input: ApplicationInput, draw: Draw, replays: seq<Step>,
                        query: string, pick: string)
    requires svc.Valid() && Inv(svc, s) && c !in s.clients
    requires SubmitGate(svc, Plain(input)).None? && Insertable(svc, s, input, draw)
    requires !CodeBlocked(svc, s.primary, draw.id) && CleanQuery(svc.cm, query) == CodeOf(svc, draw.id)
    requires Replication.OnlyReplays(replays)
    requires |replays| == |AdmitCards.OwnCalls(svc, s, c, Plain(input), draw, [], Lost).wal|
    ensures var t := Run(svc, AdmitCards.OwnCalls(svc, s, c, Plain(input), draw, [], Lost), replays);
            var ask := Request(Some(AdmitCardLookup(input.phone, input.dob)), true, true);
            var u := AdmitCards.Conversation(svc, t, c, ask, draw.id, [], Lost);
            && Created(input, draw.id) in t.outbox
            && EndsWithCode(u, CodeOf(svc, draw.id))
            && Next(svc, u, Verify(query, pick, Delivered)) == Tell(u, NotGenuine(query))
  {
    hide CodeOf, CleanQuery, Next, Run, Inv, Insertable, CodeBlocked, AdmitCards.Conversation, AdmitCards.OwnCalls,
      CardKey, CardMatches, Pool, Phone.BdPhone, Dates.DateStr, Geo.Listed, Replication.OnlyReplays;
    var t := Run(svc, AdmitCards.OwnCalls(svc, s, c, Plain(input), draw, [], Lost), replays);
    var ask := Request(Some(AdmitCardLookup(input.phone, input.dob)), true, true);
    LostAndReplayed(svc, s, c, input, draw, replays);
    CardNotGenuine(svc, t, c, ask, draw.id, query, pick);
  }

  /** After the first loss and the replay the blank row is what the applicant's own
      phone and birthday find. */
  lemma LostAndReplayed(svc: Service, s: System, c: Client, input: ApplicationInput, draw: Draw, replays: seq<Step>)
    requires svc.Valid() && Inv(svc, s) && c !in s.clients && !CodeBlocked(svc, s.primary, draw.id)
    requires SubmitGate(svc, Plain(input)).None? && Insertable(svc, s, input, draw)
    requires Replication.OnlyReplays(replays)
    requires |replays| == |AdmitCards.OwnCalls(svc, s, c, Plain(input), draw, [], Lost).wal|
    ensures var t := Run(svc, AdmitCards.OwnCalls(svc, s, c, Plain(input), draw, [], Lost), replays);
            && Inv(svc, t) && c !in t.clients && Created(input, draw.id) in t.outbox
            && draw.id in CardMatches(Pool(svc, t), CardKey(svc, input.phone, input.dob))
            && draw.id in Pool(svc, t).apps && Pool(svc, t).apps[draw.id].verifyCode == ""
            && !CodeBlocked(svc, Pool(svc, t), draw.id)
  {
    hide CodeOf, Next, Run, Inv, Insertable, CodeBlocked, TablesOk, Geo.Listed, Grows, Phone.BdPhone, Dates.DateStr,
      AdmitCards.OwnCalls, ImageOf, CardKey, PhoneKey, Pool, Replication.OnlyReplays;
    var o := AdmitCards.OwnCalls(svc, s, c, Plain(input), draw, [], Lost);
    AdmitCards.SubmissionIsStored(svc, s, c, Plain(input), draw, [], Lost);
    BlankAfterLoss(svc, s, c, Plain(input), draw);
    InvTables(svc, o);
    Replication.Settled(svc, o, replays);
    Replication.ReplaysKeep(svc, o, replays);
    RunOk(svc, o, replays);
    StoredRow(svc, o, draw.id);
  }

  lemma BlankAfterLoss(svc: Service, s: System, c: Client, req: Request<ApplicationInput>, draw: Draw)
    requires svc.Valid() && Inv(svc, s) && c !in s.clients && !CodeBlocked(svc, s.primary, draw.id)
    requires SubmitGate(svc, req).None? && Insertable(svc, s, req.parsed.value, draw)
    ensures var t := AdmitCards.OwnCalls(svc, s, c, req, draw, [], Lost);
            && draw.id in t.primary.apps && t.primary.apps[draw.id].verifyCode == ""
            && !CodeBlocked(svc, t.primary, draw.id)
  {
    hide Next, AcceptedInput, Insertable, CodeOf, CodeBlocked, Inv, AdmitCards.OwnCalls;
    DirectCalls(svc, s, c, req, draw, Lost);
    SubmitRow(svc, s, c, req, draw);
    var m := Next(svc, s, Submit(c, req, draw, Delivered));
    NotBlocked(svc, s.primary, m.primary, draw.id);
    BackfillLost(svc, m, c);
  }

  lemma WaitingIsStored(svc: Service, s: System, c: Client)
    requires svc.Valid() && Inv(svc, s) && c in s.clients && s.clients[c].WritingCode?
    ensures s.clients[c].id in s.primary.apps
  {
    hide TablesOk, OutboxOk, ImageOf;
    assert PendingOk(svc, s.stored, s.primary.apps, s.clients[c]);
  }

  /** A code that no visible row holds is answered as not genuine, never as an error. */
  lemma UnknownAnswer(svc: Service, s: System, query: string, pick: string)
    requires svc.Valid() && Trim(query) != ""
    requires forall i :: i in Pool(svc, s).apps ==> Pool(svc, s).apps[i].verifyCode != CleanQuery(svc.cm, query)
    ensures VerifyStep(svc, s, query, pick, Delivered) == Tell(s, NotGenuine(query))
  {
    UpperTrim(svc.cm, query);
    hide CleanQuery;
    assert CodeMatches(Pool(svc, s), CleanQuery(svc.cm, query)) == {};
  }

  /** The row stores a submission and holds its own code, which is the query. */
  ghost predicate Issued(svc: Service, s: System, id: string, query: string)
    requires svc.Valid()
  {
    && id in s.stored && id in s.primary.apps
    && s.primary.apps[id].verifyCode == CodeOf(svc, id) == CleanQuery(svc.cm, query)
  }

  /** Every positive answer in any run was given for a code that a stored row holds. */
  lemma GenuineIsStored(svc: Service, start: System, steps: seq<Step>, query: string, document: VerifyView)
    requires svc.Valid() && Inv(svc, start) && Genuine(query, document) in Run(svc, start, steps).outbox
    ensures exists id :: Issued(svc, Run(svc, start, steps), id, query)
  {
    hide ImageOf, Run, TablesOk, ClientsOk, CodeOf, CleanQuery;
    var s := Run(svc, start, steps);
    RunOk(svc, start, steps);
    var k :| 0 <= k < |s.outbox| && s.outbox[k] == Genuine(query, document);
    assert ReplyOk(svc, s.stored, s.primary.apps, s.outbox[k]);
    var id :| Resolves(svc, s.primary.apps, query, id);
    UpperTrim(svc.cm, query);
    assert Issued(svc, s, id, query);
  }
}
