/** Admit cards: a lookup finds the one application it is meant to find and shows it
    exactly as submitted, under a code that never changes. */
module AdmitCards {
  import opened Wrappers
  import opened Utf8
  import opened Text
  import opened Crypto
  import opened Tables
  import opened Protocol
  import opened Safety
  import opened Applications
  import Base64
  import Replication
  import Phone
  import Dates
  import LookupKey

  // ---- which rows a lookup can find -------------------------------------------

  /** The lookup names the submission's phone and birthday, however it spells them. */
  ghost predicate Names(svc: Service, l: AdmitCardLookup, input: ApplicationInput) {
    && Normalize(svc.cm, l.phone) == Normalize(svc.cm, input.phone)
    && Dates.DateOf(l.dob) == Dates.DateOf(input.dob)
  }

  /** The lookup's key collides with no stored key. */
  ghost predicate LookupApart(svc: Service, s: System, l: AdmitCardLookup) {
    forall i :: i in s.stored ==>
      LookupKey.CardsApart(svc.cm, svc.blind, s.stored[i].input.phone, s.stored[i].input.dob, l.phone, l.dob)
  }

  lemma KeyMeaning(svc: Service, s: System, l: AdmitCardLookup, id: string)
    requires svc.Valid() && Inv(svc, s) && AcceptedLookup(l) && LookupApart(svc, s, l) && id in s.stored
    ensures id in s.primary.apps
    ensures s.primary.apps[id].cols.phoneDobBidx == CardKey(svc, l.phone, l.dob)
            <==> Names(svc, l, s.stored[id].input)
  {
    hide ImageOf, Inv, Phone.BdPhone, Dates.DateStr, Normalize, Dates.DateOf, LookupKey.CardsApart,
      LookupKey.CardIndex;
    StoredRow(svc, s, id);
    var input := s.stored[id].input;
    LookupKey.CardIndexMeaning(svc.cm, svc.blind, input.phone, input.dob, l.phone, l.dob);
  }

  /** The query matches exactly the replicated applications that the lookup names. */
  lemma MatchesMeaning(svc: Service, s: System, l: AdmitCardLookup, id: string)
    requires svc.Valid() && Inv(svc, s) && AcceptedLookup(l) && LookupApart(svc, s, l)
    ensures id in CardMatches(Pool(svc, s), CardKey(svc, l.phone, l.dob))
            <==> id in Pool(svc, s).apps && id in s.stored && Names(svc, l, s.stored[id].input)
  {
    hide ImageOf, Good, Names, LookupApart, AcceptedLookup, CardKey;
    PoolOk(svc, s);
    if id in Pool(svc, s).apps {
      StoredRow(svc, s, id);
      KeyMeaning(svc, s, l, id);
    }
  }

  /** Two stored applications that the same lookup names are the same: the index over
      phone and birthday is not unique, yet LIMIT 1 never has a choice. */
  lemma AtMostOneMatch(svc: Service, s: System, l: AdmitCardLookup, i: string, j: string)
    requires svc.Valid() && Inv(svc, s) && AcceptedLookup(l) && LookupApart(svc, s, l)
    requires i in CardMatches(Pool(svc, s), CardKey(svc, l.phone, l.dob))
    requires j in CardMatches(Pool(svc, s), CardKey(svc, l.phone, l.dob))
    ensures i == j
  {
    hide ImageOf, Inv, Normalize, Hash, LookupApart, AcceptedLookup, CardKey, Phone.BdPhone, Phone.National,
      Phone.Domestic;
    MatchesMeaning(svc, s, l, i);
    MatchesMeaning(svc, s, l, j);
    StoredRow(svc, s, i);
    StoredRow(svc, s, j);
    Phone.SharedKey(svc.cm, s.stored[i].input.phone, s.stored[j].input.phone);
    OnePerSpelling(svc, s, i, j);
  }

  // ---- what a card shows ------------------------------------------------------

  /** The view shows the submission, field by field. */
  ghost predicate Faithful(view: AdmitCardView, input: ApplicationInput) {
    && view.name == Encode(input.name)
    && view.phone == Encode(input.phone)
    && view.email == Encode(input.email)
    && view.address == Encode(input.address)
    && view.education == Encode(input.education)
    && view.photo == Encode(input.photoData)
    && view.division == input.division
    && view.district == input.district
  }

  lemma ShowsFaithfully(svc: Service, view: AdmitCardView, sub: Submission, cols: Columns)
    requires svc.Valid() && ImageOf(svc, sub, cols) && Shows(svc, view, cols)
    ensures Faithful(view, sub.input) && view.batch == sub.draw.batch && view.applicationDate == sub.draw.today
  {
    hide Unseal, Seal, PhoneKey, CardKey, Admissible;
    UnsealSeal(svc, sub.input.name, sub.draw.name, cols.nameEnc);
    UnsealSeal(svc, sub.input.phone, sub.draw.phone, cols.phoneEnc);
    UnsealSeal(svc, sub.input.email, sub.draw.email, cols.emailEnc);
    UnsealSeal(svc, sub.input.address, sub.draw.address, cols.addressEnc);
    UnsealSeal(svc, sub.input.education, sub.draw.education, cols.educationEnc);
    UnsealSeal(svc, sub.input.photoData, sub.draw.photo, cols.photoEnc);
  }

  /** Every card ever answered, in any run, belongs to a stored application, shows it
      as submitted and carries its own code; without collisions it is the application
      that the lookup names. */
  lemma AnsweredCard(svc: Service, start: System, steps: seq<Step>, l: AdmitCardLookup, view: AdmitCardView)
    requires svc.Valid() && Inv(svc, start) && Card(l, view) in Run(svc, start, steps).outbox
    ensures var s := Run(svc, start, steps);
            && view.id in s.stored
            && Faithful(view, s.stored[view.id].input)
            && view.batch == s.stored[view.id].draw.batch && view.applicationDate == s.stored[view.id].draw.today
            && view.verifyCode == CodeOf(svc, view.id)
            && (LookupApart(svc, s, l) ==> Names(svc, l, s.stored[view.id].input))
  {
    hide ImageOf, Run, Shows, Faithful, Names, CodeOf, CardKey, LookupApart, AcceptedLookup, Inv;
    var s := Run(svc, start, steps);
    RunOk(svc, start, steps);
    AnswersKnown(svc, s, Card(l, view));
    StoredRow(svc, s, view.id);
    ShowsFaithfully(svc, view, s.stored[view.id], s.primary.apps[view.id].cols);
    if LookupApart(svc, s, l) {
      KeyMeaning(svc, s, l, view.id);
    }
  }

  // ---- the round trip ---------------------------------------------------------

  /** The read of a lookup, and whatever others do before the backfill if the row
      showed no code. */
  function Meanwhile(svc: Service, s: System, c: Client, ask: Request<AdmitCardLookup>, pick: string,
                     others: seq<Step>): System
    requires svc.Valid()
  {
    var t := Next(svc, s, Lookup(c, ask, pick, Delivered));
    if c in t.clients then Run(svc, t, others) else t
  }

  /** The whole conversation of a lookup: the read, whatever others do meanwhile,
      and the backfill if the row showed no code. */
  function Conversation(svc: Service, s: System, c: Client, ask: Request<AdmitCardLookup>, pick: string,
                        others: seq<Step>, link: Link): System
    requires svc.Valid()
  {
    var t := Next(svc, s, Lookup(c, ask, pick, Delivered));
    if c in t.clients then Next(svc, Run(svc, t, others), Backfill(c, link)) else t
  }

  /** From a state in which the application is visible, every conversation that asks
      for it ends with its card, whatever happens to the backfill. */
  lemma LookupShows(svc: Service, s: System, c: Client, ask: Request<AdmitCardLookup>, id: string,
                    others: seq<Step>, link: Link)
    requires svc.Valid() && Inv(svc, s) && c !in s.clients && Spares(others, c)
    requires LookupGate(ask).None? && LookupApart(svc, s, ask.parsed.value)
    requires id in Pool(svc, s).apps && id in s.stored && Names(svc, ask.parsed.value, s.stored[id].input)
    ensures CardMatches(Pool(svc, s), CardKey(svc, ask.parsed.value.phone, ask.parsed.value.dob)) == {id}
    ensures var u := Conversation(svc, s, c, ask, id, others, link);
            && u.outbox != []
            && var last := u.outbox[|u.outbox| - 1];
            && last.Card? && last.lookup == ask.parsed.value && last.card.id == id
            && Faithful(last.card, s.stored[id].input)
            && last.card.verifyCode == CodeOf(svc, id)
            && Lifecycle(Pool(svc, s).apps[id], last.card.rollNo, last.card.confirmed, last.card.status)
            && last.card.batch == s.stored[id].draw.batch && last.card.applicationDate == s.stored[id].draw.today
            && c !in u.clients
  {
    hide ImageOf, Inv, Names, LookupApart, Faithful, CodeOf, CardKey, CardMatches, CardView, AcceptedLookup,
      Conversation, Spares;
    var l := ask.parsed.value;
    OnlyMatch(svc, s, l, id);
    VisibleCard(svc, s, l, id);
    ConversationAnswers(svc, s, c, ask, id, others, link);
  }

  /** The one application that the lookup names is the only match. */
  lemma OnlyMatch(svc: Service, s: System, l: AdmitCardLookup, id: string)
    requires svc.Valid() && Inv(svc, s) && AcceptedLookup(l) && LookupApart(svc, s, l)
    requires id in Pool(svc, s).apps && id in s.stored && Names(svc, l, s.stored[id].input)
    ensures CardMatches(Pool(svc, s), CardKey(svc, l.phone, l.dob)) == {id}
  {
    hide ImageOf, Inv, Names, LookupApart, CardKey, AcceptedLookup, CardMatches;
    MatchesMeaning(svc, s, l, id);
    var found := CardMatches(Pool(svc, s), CardKey(svc, l.phone, l.dob));
    forall j | j in found
      ensures j == id
    {
      AtMostOneMatch(svc, s, l, id, j);
    }
    assert found == {id};
  }

  /** A conversation about a matching row ends with the card of that row. */
  lemma ConversationAnswers(svc: Service, s: System, c: Client, ask: Request<AdmitCardLookup>, id: string,
                            others: seq<Step>, link: Link)
    requires svc.Valid() && c !in s.clients && Spares(others, c) && LookupGate(ask).None?
    requires id in CardMatches(Pool(svc, s), CardKey(svc, ask.parsed.value.phone, ask.parsed.value.dob))
    ensures var u := Conversation(svc, s, c, ask, id, others, link);
            && u.outbox != []
            && u.outbox[|u.outbox| - 1] == Card(ask.parsed.value, CardView(svc, id, Pool(svc, s).apps[id]))
            && u.outbox[|u.outbox| - 1].card.id == id
            && c !in u.clients
  {
    hide CodeOf, CardKey, CardView, AcceptedLookup, Run, Next, Pool;
    var l := ask.parsed.value;
    LookupFinds(svc, s, c, ask, id);
    var t := Next(svc, s, Lookup(c, ask, id, Delivered));
    if c in t.clients {
      OthersRun(svc, t, others, c);
      BackfillAnswers(svc, Run(svc, t, others), c, l, CardView(svc, id, Pool(svc, s).apps[id]), link);
    }
  }

  lemma LookupFinds(svc: Service, s: System, c: Client, ask: Request<AdmitCardLookup>, id: string)
    requires svc.Valid() && c !in s.clients && LookupGate(ask).None?
    requires id in CardMatches(Pool(svc, s), CardKey(svc, ask.parsed.value.phone, ask.parsed.value.dob))
    ensures var t := Next(svc, s, Lookup(c, ask, id, Delivered));
            var view := CardView(svc, id, Pool(svc, s).apps[id]);
            && (if c in t.clients then t.clients[c] == Backfilling(ask.parsed.value, view)
                else t.outbox == s.outbox + [Card(ask.parsed.value, view)])
            && view.id == id && (c in t.clients <==> Pool(svc, s).apps[id].verifyCode == "")
            && t.primary == s.primary && t.replica == s.replica && t.wal == s.wal
  {
    hide CodeOf, CardKey, Unseal, AcceptedLookup;
  }

  lemma BackfillAnswers(svc: Service, s: System, c: Client, l: AdmitCardLookup, view: AdmitCardView, link: Link)
    requires svc.Valid() && c in s.clients && s.clients[c] == Backfilling(l, view)
    ensures var t := Next(svc, s, Backfill(c, link));
            t.outbox == s.outbox + [Card(l, view)] && t.clients == s.clients - {c}
  {
    CodeUpdateFrame(svc, s, view.id, true, link);
    hide CodeUpdate;
  }

  lemma VisibleCard(svc: Service, s: System, l: AdmitCardLookup, id: string)
    requires svc.Valid() && Inv(svc, s) && AcceptedLookup(l)
    requires id in CardMatches(Pool(svc, s), CardKey(svc, l.phone, l.dob))
    ensures id in s.stored
    ensures var view := CardView(svc, id, Pool(svc, s).apps[id]);
            && view.id == id && Faithful(view, s.stored[id].input) && view.verifyCode == CodeOf(svc, id)
            && Lifecycle(Pool(svc, s).apps[id], view.rollNo, view.confirmed, view.status)
            && view.batch == s.stored[id].draw.batch && view.applicationDate == s.stored[id].draw.today
  {
    hide ImageOf, Good, Faithful, CodeOf, CardKey, Shows, AcceptedLookup, Extends, Unseal;
    var view := CardView(svc, id, Pool(svc, s).apps[id]);
    PoolOk(svc, s);
    FoundCard(svc, Pool(svc, s), s.primary, l, id);
    StoredRow(svc, s, id);
    ShowsFaithfully(svc, view, s.stored[id], s.primary.apps[id].cols);
  }

  /** End to end: once an acknowledged application has become visible to lookups, at
      any later moment of the run every accepted spelling of its phone and birthday
      brings back its card, exactly as submitted. */
  lemma AcknowledgedIsFound(svc: Service, start: System, a: seq<Step>, b: seq<Step>, input: ApplicationInput, id: string,
                            c: Client, ask: Request<AdmitCardLookup>, others: seq<Step>, link: Link)
    requires svc.Valid() && Inv(svc, start)
    requires Created(input, id) in Run(svc, start, a).outbox
    requires id in Pool(svc, Run(svc, start, a)).apps
    requires c !in Run(svc, start, a + b).clients && Spares(others, c)
    requires LookupGate(ask).None? && Names(svc, ask.parsed.value, input)
    requires LookupApart(svc, Run(svc, start, a + b), ask.parsed.value)
    ensures var s := Run(svc, start, a + b);
            && CardMatches(Pool(svc, s), CardKey(svc, ask.parsed.value.phone, ask.parsed.value.dob)) == {id}
            && var u := Conversation(svc, s, c, ask, id, others, link);
            && u.outbox != []
            && var last := u.outbox[|u.outbox| - 1];
            && last.Card? && last.card.id == id && Faithful(last.card, input)
            && last.card.verifyCode == CodeOf(svc, id)
            && id in Pool(svc, s).apps
            && Lifecycle(Pool(svc, s).apps[id], last.card.rollNo, last.card.confirmed, last.card.status)
  {
    hide ImageOf, Inv, Names, LookupApart, Faithful, CodeOf, CardKey, Run, Next, CardMatches, LookupGate,
      Conversation, Spares;
    AcknowledgedIsStored(svc, start, a, b, input, id);
    var s := Run(svc, start, a);
    RunOk(svc, start, a);
    RunConcat(svc, start, a, b);
    RunOk(svc, s, b);
    Replication.PoolGrows(svc, s, b);
    LookupShows(svc, Run(svc, s, b), c, ask, id, others, link);
  }

  /** A submission's own two calls with anything that others do in between. */
  function OwnCalls(svc: Service, s: System, c: Client, req: Request<ApplicationInput>, draw: Draw,
                    others: seq<Step>, update: Link): System
    requires svc.Valid()
  {
    Next(svc, Run(svc, Next(svc, s, Submit(c, req, draw, Delivered)), others), WriteCode(c, update))
  }

  lemma SubmitWaits(svc: Service, s: System, c: Client, req: Request<ApplicationInput>, draw: Draw)
    requires svc.Valid() && c !in s.clients
    requires SubmitGate(svc, req).None? && Insertable(svc, s, req.parsed.value, draw)
    ensures var first := Next(svc, s, Submit(c, req, draw, Delivered));
            && first.clients == s.clients[c := WritingCode(req.parsed.value, draw.id)]
            && first.outbox == s.outbox
  {
    hide MakeColumns, InsertApplication, AcceptedInput;
  }

  lemma WriteAnswers(svc: Service, s: System, c: Client, input: ApplicationInput, id: string, update: Link)
    requires svc.Valid() && c in s.clients && s.clients[c] == WritingCode(input, id)
    ensures var t := Next(svc, s, WriteCode(c, update));
            t.outbox == s.outbox + [Created(input, id)] && t.clients == s.clients - {c}
  {
    CodeUpdateFrame(svc, s, id, false, update);
    hide CodeUpdate;
  }

  lemma CodeUpdateFrame(svc: Service, s: System, id: string, onlyIfEmpty: bool, link: Link)
    requires svc.Valid()
    ensures var t := CodeUpdate(svc, s, id, onlyIfEmpty, link); t.outbox == s.outbox && t.clients == s.clients
  {
    hide CodeOf, UpdateCode, Apply;
  }

  /** A submission that passes, with a fresh id and a free phone, is acknowledged and
      stored by its own two calls, whatever happens in between and even if the code
      UPDATE is lost. */
  lemma SubmissionIsStored(svc: Service, s: System, c: Client, req: Request<ApplicationInput>, draw: Draw,
                           others: seq<Step>, update: Link)
    requires svc.Valid() && Inv(svc, s) && c !in s.clients && Spares(others, c)
    requires SubmitGate(svc, req).None? && Insertable(svc, s, req.parsed.value, draw)
    ensures var t := OwnCalls(svc, s, c, req, draw, others, update);
            && Inv(svc, t) && Grows(s, t) && c !in t.clients
            && t.outbox != [] && t.outbox[|t.outbox| - 1] == Created(req.parsed.value, draw.id)
            && StoredAs(t.stored, draw.id, req.parsed.value) && draw.id in t.primary.apps
  {
    hide Inv, MakeColumns, InsertApplication, AcceptedInput, Run, Grows, Next;
    var input := req.parsed.value;
    SubmitWaits(svc, s, c, req, draw);
    NextOk(svc, s, Submit(c, req, draw, Delivered));
    var first := Next(svc, s, Submit(c, req, draw, Delivered));
    OthersRun(svc, first, others, c);
    RunOk(svc, first, others);
    var second := Run(svc, first, others);
    WriteAnswers(svc, second, c, input, draw.id, update);
    NextOk(svc, second, WriteCode(c, update));
    var t := OwnCalls(svc, s, c, req, draw, others, update);
    GrowsTransitive(s, first, second);
    GrowsTransitive(s, second, t);
    AnswersKnown(svc, t, Created(input, draw.id));
    StoredRow(svc, t, draw.id);
  }

  /** Progress: whatever others do between its two calls and afterwards, such a
      submission is visible to lookups once as many commits have been replicated as
      were pending when it was acknowledged. */
  lemma SubmissionBecomesVisible(svc: Service, s: System, c: Client, req: Request<ApplicationInput>, draw: Draw,
                                 others: seq<Step>, update: Link, later: seq<Step>)
    requires svc.Valid() && Inv(svc, s) && c !in s.clients && Spares(others, c)
    requires SubmitGate(svc, req).None? && Insertable(svc, s, req.parsed.value, draw)
    requires Replication.Replays(later) >= |OwnCalls(svc, s, c, req, draw, others, update).wal|
    ensures var u := Run(svc, OwnCalls(svc, s, c, req, draw, others, update), later);
            && Created(req.parsed.value, draw.id) in u.outbox
            && StoredAs(u.stored, draw.id, req.parsed.value)
            && draw.id in Pool(svc, u).apps
  {
    hide Inv, Insertable, SubmitGate, Run, OwnCalls, Spares;
    var t := OwnCalls(svc, s, c, req, draw, others, update);
    SubmissionIsStored(svc, s, c, req, draw, others, update);
    RunOk(svc, t, later);
    Replication.EventuallyVisible(svc, t, later);
  }

  // ---- what lookups cannot see ------------------------------------------------

  /** An acknowledged application is visible at once exactly when there is no replica;
      with one, the same lookup is answered as a miss until replication. */
  lemma VisibleAtOnce(svc: Service, s: System, c: Client, req: Request<ApplicationInput>, draw: Draw, update: Link,
                      ask: Request<AdmitCardLookup>, pick: string)
    requires svc.Valid() && Inv(svc, s) && c !in s.clients
    requires SubmitGate(svc, req).None? && Insertable(svc, s, req.parsed.value, draw) && LookupGate(ask).None?
    ensures var t := OwnCalls(svc, s, c, req, draw, [], update);
            && (draw.id in Pool(svc, t).apps <==> !svc.replicated)
            && (svc.replicated && CardMatches(s.replica, CardKey(svc, ask.parsed.value.phone, ask.parsed.value.dob)) == {}
              ==>
                  Next(svc, t, Lookup(c, ask, pick, Delivered)) == Tell(t, NoCard(ask.parsed.value)))
  {
    hide Inv, Insertable, AcceptedInput, AcceptedLookup, Next, Run, OwnCalls, CardKey, CardMatches;
    var t := OwnCalls(svc, s, c, req, draw, [], update);
    SubmissionIsStored(svc, s, c, req, draw, [], update);
    OwnCallsReplica(svc, s, c, req, draw, update);
    FreshEverywhere(svc, s, req.parsed.value, draw);
    if svc.replicated && CardMatches(s.replica, CardKey(svc, ask.parsed.value.phone, ask.parsed.value.dob)) == {} {
      LookupMisses(svc, t, c, ask, pick);
    }
  }

  lemma OwnCallsReplica(svc: Service, s: System, c: Client, req: Request<ApplicationInput>, draw: Draw, update: Link)
    requires svc.Valid()
    ensures OwnCalls(svc, s, c, req, draw, [], update).replica == s.replica
  {
    hide Next;
    var first := Next(svc, s, Submit(c, req, draw, Delivered));
    assert Run(svc, first, []) == first;
    Replication.TableEffect(svc, s, Submit(c, req, draw, Delivered));
    Replication.TableEffect(svc, first, WriteCode(c, update));
  }

  lemma FreshEverywhere(svc: Service, s: System, input: ApplicationInput, draw: Draw)
    requires svc.Valid() && Inv(svc, s) && Insertable(svc, s, input, draw)
    ensures draw.id !in s.primary.apps && draw.id !in s.replica.apps
  {
    hide MakeColumns, PhoneTaken, Good, Recorded, ClientsOk, OutboxOk;
    assert Extends(s.replica, s.primary);
  }

  lemma LookupMisses(svc: Service, s: System, c: Client, ask: Request<AdmitCardLookup>, pick: string)
    requires svc.Valid() && c !in s.clients && LookupGate(ask).None?
    requires CardMatches(Pool(svc, s), CardKey(svc, ask.parsed.value.phone, ask.parsed.value.dob)) == {}
    ensures Next(svc, s, Lookup(c, ask, pick, Delivered)) == Tell(s, NoCard(ask.parsed.value))
  {
    hide CardKey, CardMatches, AcceptedLookup, CardView, Pool;
  }

  /** An answered read is a miss exactly when no visible application is the one that the
      lookup names; a read that is not answered is an error. */
  lemma MissMeaning(svc: Service, s: System, c: Client, ask: Request<AdmitCardLookup>, pick: string, read: Link)
    requires svc.Valid() && Inv(svc, s) && c !in s.clients && LookupGate(ask).None?
    requires LookupApart(svc, s, ask.parsed.value)
    ensures var t, l := Next(svc, s, Lookup(c, ask, pick, read)), ask.parsed.value;
            && (read != Delivered ==> t == Tell(s, Failed))
            && (read == Delivered ==>
                  (t == Tell(s, NoCard(l))
                   <==> forall id :: id in Pool(svc, s).apps && id in s.stored ==> !Names(svc, l, s.stored[id].input)))
  {
    hide Inv, CardKey, AcceptedLookup, LookupApart, Names;
    var l := ask.parsed.value;
    var found := CardMatches(Pool(svc, s), CardKey(svc, l.phone, l.dob));
    forall id
      ensures id in found <==> id in Pool(svc, s).apps && id in s.stored && Names(svc, l, s.stored[id].input)
    {
      MatchesMeaning(svc, s, l, id);
    }
    hide CardMatches;
    MissOrNot(svc, s, c, ask, pick, read);
  }

  lemma MissOrNot(svc: Service, s: System, c: Client, ask: Request<AdmitCardLookup>, pick: string, read: Link)
    requires svc.Valid() && c !in s.clients && LookupGate(ask).None?
    ensures var t, l := Next(svc, s, Lookup(c, ask, pick, read)), ask.parsed.value;
            && (read != Delivered ==> t == Tell(s, Failed))
            && (read == Delivered ==>
                  (t == Tell(s, NoCard(l)) <==> CardMatches(Pool(svc, s), CardKey(svc, l.phone, l.dob)) == {}))
  {
    hide CardKey, CardMatches, AcceptedLookup, CardView, Pool;
    var t := Next(svc, s, Lookup(c, ask, pick, read));
    assert Tell(s, NoCard(ask.parsed.value)).outbox[|s.outbox|] == NoCard(ask.parsed.value);
    assert |t.outbox| > |s.outbox| ==>
        t.outbox[|s.outbox|].NoCard? || t.outbox[|s.outbox|].Card? || t.outbox[|s.outbox|].Failed?;
  }

  /** A column that was damaged is shown as empty, never as an error: a text with a
      foreign character, or with too few bytes for a nonce. */
  lemma DamagedIsEmpty(svc: Service, enc: string)
    requires (exists c :: c in enc && !Base64.IsSymbol(c) && c !in {'=', '\r', '\n'})
          || (exists b: Bytes :: 0 < |b| < 12 && enc == Base64.Encode(b))
    ensures Unseal(svc, enc) == []
  {
    if c :| c in enc && !Base64.IsSymbol(c) && c !in {'=', '\r', '\n'} {
      DecryptForeign(svc.aead, enc, c);
    } else {
      var b: Bytes :| 0 < |b| < 12 && enc == Base64.Encode(b);
      DecryptBytes(svc.aead, b);
    }
  }
}
