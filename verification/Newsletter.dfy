/** The newsletter table is a map from index to the first spelling committed. */
module Newsletter {
  import opened Wrappers
  import opened Utf8
  import opened Text
  import opened Crypto
  import opened Tables
  import opened Protocol
  import opened Safety
  import Counting

  /** The first email committed for each index, in the order of commits. */
  function FirstSpelling(svc: Service, taken: seq<string>): map<string, string> {
    if taken == [] then map[]
    else
      var k := |taken| - 1;
      var m := FirstSpelling(svc, taken[..k]);
      var key := Hash(svc.cm, svc.blind, taken[k]);
      if key in m then m else m[key := taken[k]]
  }

  /** The table's rows are exactly the entries of a map, each under its index and
      decrypting to its entry. */
  ghost predicate Tabulates(svc: Service, subs: map<string, Subscriber>, m: map<string, string>) {
    && (forall i :: i in subs ==>
          subs[i].emailBidx in m && Unseal(svc, subs[i].emailEnc) == Encode(m[subs[i].emailBidx]))
    && (forall k :: k in m ==> exists i :: i in subs && subs[i].emailBidx == k)
  }

  ghost predicate MailOk(svc: Service, s: System) {
    && Tabulates(svc, s.primary.subs, FirstSpelling(svc, s.taken))
    && forall k :: 0 <= k < |s.outbox| && s.outbox[k].Subscribed? ==> s.outbox[k].email in s.taken
  }

  /** No subscriber was added, no email taken, and no subscription answered. */
  ghost predicate NoMail(s: System, t: System) {
    && t.primary.subs == s.primary.subs && t.taken == s.taken
    && (|| t.outbox == s.outbox
        || (|t.outbox| == |s.outbox| + 1 && t.outbox[..|s.outbox|] == s.outbox && !t.outbox[|s.outbox|].Subscribed?))
  }

  lemma InsertNoMail(svc: Service, s: System, c: Client, input: ApplicationInput, draw: Draw, link: Link)
    ensures NoMail(s, InsertStep(svc, s, c, input, draw, link))
  {
    hide MakeColumns, PhoneTaken;
  }

  lemma CodeUpdateNoMail(svc: Service, s: System, id: string, onlyIfEmpty: bool, link: Link)
    requires svc.Valid()
    ensures NoMail(s, CodeUpdate(svc, s, id, onlyIfEmpty, link))
    ensures CodeUpdate(svc, s, id, onlyIfEmpty, link).outbox == s.outbox
  {
    hide CodeOf, CodeTaken;
  }

  lemma FindNoMail(svc: Service, s: System, c: Client, l: AdmitCardLookup, pick: string, link: Link)
    requires svc.Valid()
    ensures NoMail(s, FindStep(svc, s, c, l, pick, link))
  {
    hide CardKey, CardMatches, CardView, Pool, CodeOf;
  }

  lemma VerifyNoMail(svc: Service, s: System, query: string, pick: string, link: Link)
    ensures NoMail(s, VerifyStep(svc, s, query, pick, link))
  {
    hide Trim, Encode, CleanQuery, CodeMatches, Pool, DocumentView;
  }

  lemma AdminNoMail(s: System, id: string, rollNo: Option<string>, confirmed: bool, status: string)
    ensures NoMail(s, AdminStep(s, id, rollNo, confirmed, status))
  {
    hide RollTaken;
  }

  lemma OtherSteps(svc: Service, s: System, step: Step)
    requires svc.Valid() && !step.Subscribe?
    ensures NoMail(s, Next(svc, s, step))
  {
    hide InsertStep, FindStep, VerifyStep, AdminStep, CodeUpdate, Apply, AcceptedInput, AcceptedLookup;
    match step
    case Submit(c, req, draw, link) =>
      if SubmitGate(svc, req).None? {
        InsertNoMail(svc, s, c, req.parsed.value, draw, link);
      }
    case WriteCode(c, link) =>
      if c in s.clients && s.clients[c].WritingCode? {
        CodeUpdateNoMail(svc, s, s.clients[c].id, false, link);
      }
    case Lookup(c, ask, pick, link) =>
      if LookupGate(ask).None? {
        FindNoMail(svc, s, c, ask.parsed.value, pick, link);
      }
    case Backfill(c, link) =>
      if c in s.clients && s.clients[c].Backfilling? {
        CodeUpdateNoMail(svc, s, s.clients[c].view.id, true, link);
      }
    case Verify(query, pick, link) => VerifyNoMail(svc, s, query, pick, link);
    case Replicate =>
    case Crash(_) =>
    case AdminEdit(id, rollNo, confirmed, status) => AdminNoMail(s, id, rollNo, confirmed, status);
  }

  /** One more completed INSERT ... ON CONFLICT DO NOTHING. */
  lemma TabulatesMore(svc: Service, t: Tables, taken: seq<string>, email: string, id: string,
                      nonce: Option<Nonce>, enc: string)
    requires svc.Valid() && Tabulates(svc, t.subs, FirstSpelling(svc, taken))
    requires Seal(svc, email, nonce) == Ok(enc)
    requires InsertSubscriber(t, id, Subscriber(enc, Hash(svc.cm, svc.blind, email))).Ok?
    ensures var u := Apply(t, InsertSubscriber(t, id, Subscriber(enc, Hash(svc.cm, svc.blind, email))).value);
            Tabulates(svc, u.subs, FirstSpelling(svc, taken + [email]))
  {
    hide Hash, Seal, Unseal, Tabulates;
    var key := Hash(svc.cm, svc.blind, email);
    var m := FirstSpelling(svc, taken);
    assert (taken + [email])[..|taken|] == taken;
    TabulatesKeys(svc, t, m, key);
    if !EmailTaken(t, key) {
      UnsealSeal(svc, email, nonce, enc);
      TabulatesInsert(svc, t.subs, m, id, Subscriber(enc, key), email);
    }
  }

  lemma TabulatesKeys(svc: Service, t: Tables, m: map<string, string>, key: string)
    requires Tabulates(svc, t.subs, m)
    ensures EmailTaken(t, key) <==> key in m
  {
    hide Unseal;
  }

  lemma TabulatesInsert(svc: Service, subs: map<string, Subscriber>, m: map<string, string>, id: string,
                        sub: Subscriber, email: string)
    requires Tabulates(svc, subs, m) && id !in subs && sub.emailBidx !in m
    requires Unseal(svc, sub.emailEnc) == Encode(email)
    ensures Tabulates(svc, subs[id := sub], m[sub.emailBidx := email])
  {
    hide Unseal, Encode;
    var subs', m' := subs[id := sub], m[sub.emailBidx := email];
    forall k | k in m'
      ensures exists i :: i in subs' && subs'[i].emailBidx == k
    {
      if k == sub.emailBidx {
        assert subs'[id].emailBidx == k;
      } else {
        var i :| i in subs && subs[i].emailBidx == k;
        assert subs'[i].emailBidx == k;
      }
    }
  }

  lemma SubscribeMailOk(svc: Service, s: System, mail: Request<string>, id: string, nonce: Option<Nonce>, link: Link)
    requires svc.Valid() && MailOk(svc, s)
    ensures MailOk(svc, SubscribeStep(svc, s, mail, id, nonce, link))
  {
    hide Hash, Seal, Tabulates, FirstSpelling;
    var t := SubscribeStep(svc, s, mail, id, nonce, link);
    if MailGate(mail).None? && Seal(svc, mail.parsed.value, nonce).Ok? && link != Lost {
      var email := mail.parsed.value;
      var enc := Seal(svc, email, nonce).value;
      var sub := Subscriber(enc, Hash(svc.cm, svc.blind, email));
      if InsertSubscriber(s.primary, id, sub).Ok? {
        TabulatesMore(svc, s.primary, s.taken, email, id, nonce, enc);
      }
    }
    assert forall e :: e in s.taken ==> e in t.taken;
  }

  lemma {:induction false} RunMailOk(svc: Service, start: System, steps: seq<Step>)
    requires svc.Valid() && MailOk(svc, start)
    ensures MailOk(svc, Run(svc, start, steps))
  {
    hide Next, FirstSpelling, Tabulates;
    if steps == [] {
    } else {
      var k := |steps| - 1;
      var s := Run(svc, start, steps[..k]);
      RunMailOk(svc, start, steps[..k]);
      match steps[k] {
        case Subscribe(mail, id, nonce, link) =>
          SubscribeMailOk(svc, s, mail, id, nonce, link);
          SubscribeNext(svc, s, steps[k]);
        case _ =>
          OtherSteps(svc, s, steps[k]);
      }
    }
  }

  lemma EmptyMailOk(svc: Service)
    ensures MailOk(svc, INIT)
  {
  }

  lemma SubscribeNext(svc: Service, s: System, step: Step)
    requires svc.Valid() && step.Subscribe?
    ensures Next(svc, s, step) == SubscribeStep(svc, s, step.mail, step.id, step.nonce, step.link)
  {
    hide SubscribeStep;
  }

  /** Under any interleaving with any other traffic the subscriber table is the map of
      first spellings: one row per index, and only those. */
  lemma TableIsFirstSpellings(svc: Service, start: System, steps: seq<Step>)
    requires svc.Valid() && Inv(svc, start) && MailOk(svc, start)
    ensures var s := Run(svc, start, steps);
            Tabulates(svc, s.primary.subs, FirstSpelling(svc, s.taken)) && UniqueEmails(s.primary)
  {
    hide ImageOf, Run, Tabulates, FirstSpelling, Recorded, ClientsOk, OutboxOk, UniqueEmails;
    RunMailOk(svc, start, steps);
    RunOk(svc, start, steps);
  }

  lemma {:induction false} FirstSpellingKeys(svc: Service, taken: seq<string>)
    ensures FirstSpelling(svc, taken).Keys == (set e | e in taken :: Hash(svc.cm, svc.blind, e))
    ensures forall k :: k in FirstSpelling(svc, taken) ==>
              FirstSpelling(svc, taken)[k] in taken && Hash(svc.cm, svc.blind, FirstSpelling(svc, taken)[k]) == k
  {
    hide Hash;
    if taken == [] {
    } else {
      var k := |taken| - 1;
      FirstSpellingKeys(svc, taken[..k]);
      assert taken == taken[..k] + [taken[k]];
      assert forall e :: e in taken <==> e in taken[..k] || e == taken[k];
      KeysSnoc(svc, taken[..k], taken[k]);
    }
  }

  lemma KeysSnoc(svc: Service, taken: seq<string>, email: string)
    ensures (set e | e in taken + [email] :: Hash(svc.cm, svc.blind, e))
         == (set e | e in taken :: Hash(svc.cm, svc.blind, e)) + {Hash(svc.cm, svc.blind, email)}
  {
    hide Hash;
    assert forall e :: e in taken + [email] <==> e in taken || e == email;
  }

  /** An acknowledged subscriber has a row, whose email is spelled alike up to the
      index: the first that was committed. */
  lemma SubscribedIsStored(svc: Service, start: System, steps: seq<Step>, email: string)
    requires svc.Valid() && MailOk(svc, start) && Subscribed(email) in Run(svc, start, steps).outbox
    ensures exists i :: Holds(svc, Run(svc, start, steps), i, email)
  {
    hide Run, Hash;
    var s := Run(svc, start, steps);
    RunMailOk(svc, start, steps);
    FirstSpellingKeys(svc, s.taken);
    hide FirstSpelling;
    var m := FirstSpelling(svc, s.taken);
    var key := Hash(svc.cm, svc.blind, email);
    assert email in s.taken;
    assert key in m;
    var i :| i in s.primary.subs && s.primary.subs[i].emailBidx == key;
    assert Holds(svc, s, i, email);
  }

  /** The row is under the email's index and decrypts to the first spelling that was
      committed for it. */
  ghost predicate Holds(svc: Service, s: System, i: string, email: string) {
    var key, m := Hash(svc.cm, svc.blind, email), FirstSpelling(svc, s.taken);
    && i in s.primary.subs && s.primary.subs[i].emailBidx == key
    && key in m && m[key] in s.taken && Hash(svc.cm, svc.blind, m[key]) == key
    && Unseal(svc, s.primary.subs[i].emailEnc) == Encode(m[key])
  }

  /** Subscribing again, in any spelling with the same index, changes no row. */
  lemma ResubscribeKeeps(svc: Service, s: System, mail: Request<string>, id: string, nonce: Option<Nonce>, link: Link)
    requires svc.Valid() && MailGate(mail).None?
    requires EmailTaken(s.primary, Hash(svc.cm, svc.blind, mail.parsed.value))
    ensures var t := SubscribeStep(svc, s, mail, id, nonce, link);
            && t.primary == s.primary && t.wal == s.wal
            && (link == Delivered && Seal(svc, mail.parsed.value, nonce).Ok? ==>
                  t.outbox == s.outbox + [Subscribed(mail.parsed.value)])
  {
    hide Hash, Seal;
  }

  /** Once an email was acknowledged, no later subscription of any spelling of it ever
      changes a row, in any run; answered, it is a success. */
  lemma SubscribedOnce(svc: Service, start: System, steps: seq<Step>, email: string, mail: Request<string>, id: string,
                       nonce: Option<Nonce>, link: Link)
    requires svc.Valid() && Inv(svc, start) && MailOk(svc, start) && Subscribed(email) in start.outbox
    requires MailGate(mail).None? && Normalize(svc.cm, mail.parsed.value) == Normalize(svc.cm, email)
    ensures var s := Run(svc, start, steps);
            var t := Next(svc, s, Subscribe(mail, id, nonce, link));
            && t.primary == s.primary && t.wal == s.wal
            && (link == Delivered && Seal(svc, mail.parsed.value, nonce).Ok? ==>
                  t.outbox == s.outbox + [Subscribed(mail.parsed.value)])
  {
    hide Run, Next, Inv, MailOk, Normalize, Hash, Seal, FirstSpelling, Unseal;
    var s := Run(svc, start, steps);
    StillAnswered(svc, start, steps, Subscribed(email));
    SubscribedIsStored(svc, start, steps, email);
    HashEqual(svc.cm, svc.blind, mail.parsed.value, email);
    var i :| Holds(svc, s, i, email);
    assert EmailTaken(s.primary, Hash(svc.cm, svc.blind, mail.parsed.value));
    ResubscribeKeeps(svc, s, mail, id, nonce, link);
    SubscribeNext(svc, s, Subscribe(mail, id, nonce, link));
  }

  lemma StillAnswered(svc: Service, s: System, steps: seq<Step>, r: Reply)
    requires svc.Valid() && Inv(svc, s) && r in s.outbox
    ensures r in Run(svc, s, steps).outbox
  {
    hide Inv, Run, Extends;
    RunOk(svc, s, steps);
  }

  /** The indexes that the rows carry. */
  ghost function Indexes(subs: map<string, Subscriber>): set<string> {
    set i | i in subs :: subs[i].emailBidx
  }

  lemma IndexesAreKeys(svc: Service, subs: map<string, Subscriber>, m: map<string, string>)
    requires Tabulates(svc, subs, m)
    ensures Indexes(subs) == m.Keys
  {
    hide Unseal;
    forall k | k in m
      ensures k in Indexes(subs)
    {
      var i :| i in subs && subs[i].emailBidx == k;
    }
  }

  lemma RowsAreIndexes(t: Tables)
    requires UniqueEmails(t)
    ensures |t.subs| == |Indexes(t.subs)|
  {
    var name := map i | i in t.subs :: t.subs[i].emailBidx;
    Counting.InjectiveSize(t.subs.Keys, name);
    assert Counting.Names(t.subs.Keys, name) == Indexes(t.subs);
    assert |t.subs.Keys| == |t.subs|;
  }

  /** Two runs that committed the same subscriptions, each as often but in any order
      and among any other traffic, end with the same set of indexes, and with equally
      many rows. */
  lemma OrderIrrelevant(svc: Service, start: System, xs: seq<Step>, ys: seq<Step>)
    requires svc.Valid() && Inv(svc, start) && MailOk(svc, start)
    requires multiset(Run(svc, start, xs).taken) == multiset(Run(svc, start, ys).taken)
    ensures var s, t := Run(svc, start, xs), Run(svc, start, ys);
            Indexes(s.primary.subs) == Indexes(t.primary.subs) && |s.primary.subs| == |t.primary.subs|
  {
    hide Inv, MailOk, Run, UniqueEmails, Tabulates, FirstSpelling, Indexes;
    var s, t := Run(svc, start, xs), Run(svc, start, ys);
    TableIsFirstSpellings(svc, start, xs);
    TableIsFirstSpellings(svc, start, ys);
    IndexesAreKeys(svc, s.primary.subs, FirstSpelling(svc, s.taken));
    IndexesAreKeys(svc, t.primary.subs, FirstSpelling(svc, t.taken));
    SameKeys(svc, s.taken, t.taken);
    RowsAreIndexes(s.primary);
    RowsAreIndexes(t.primary);
  }

  lemma SameKeys(svc: Service, xs: seq<string>, ys: seq<string>)
    requires multiset(xs) == multiset(ys)
    ensures FirstSpelling(svc, xs).Keys == FirstSpelling(svc, ys).Keys
  {
    hide Hash;
    FirstSpellingKeys(svc, xs);
    FirstSpellingKeys(svc, ys);
    hide FirstSpelling;
    forall e
      ensures e in xs <==> e in ys
    {
      assert e in multiset(xs) <==> e in multiset(ys);
    }
  }

  /** Collisions aside a run ends with exactly as many rows as the committed emails
      have normal forms. */
  lemma OneRowPerNormalForm(svc: Service, start: System, steps: seq<Step>)
    requires svc.Valid() && Inv(svc, start) && MailOk(svc, start)
    requires forall e, f :: e in Run(svc, start, steps).taken && f in Run(svc, start, steps).taken ==>
               Apart(svc.blind, Normalize(svc.cm, e), Normalize(svc.cm, f))
    ensures var s := Run(svc, start, steps);
            |s.primary.subs| == |set e | e in s.taken :: Normalize(svc.cm, e)|
  {
    hide Inv, MailOk, Run, UniqueEmails, Tabulates, FirstSpelling, Indexes, Normalize, Apart;
    var s := Run(svc, start, steps);
    TableIsFirstSpellings(svc, start, steps);
    IndexesAreKeys(svc, s.primary.subs, FirstSpelling(svc, s.taken));
    RowsAreIndexes(s.primary);
    FormsAreKeys(svc, s.taken);
    assert |FirstSpelling(svc, s.taken)| == |FirstSpelling(svc, s.taken).Keys|;
  }

  /** Collisions aside two emails share a row exactly when they normalise alike. */
  lemma FormsAreKeys(svc: Service, taken: seq<string>)
    requires forall e, f :: e in taken && f in taken ==> Apart(svc.blind, Normalize(svc.cm, e), Normalize(svc.cm, f))
    ensures |FirstSpelling(svc, taken)| == |set e | e in taken :: Normalize(svc.cm, e)|
  {
    FirstSpellingKeys(svc, taken);
    hide FirstSpelling;
    forall e, f | e in taken && f in taken
      ensures Hash(svc.cm, svc.blind, e) == Hash(svc.cm, svc.blind, f) <==> Normalize(svc.cm, e) == Normalize(svc.cm, f)
    {
      HashEqual(svc.cm, svc.blind, e, f);
    }
    hide Hash, Normalize;
    var byForm, byKey := (x: string) => Normalize(svc.cm, x), (x: string) => Hash(svc.cm, svc.blind, x);
    SameCount(taken, byForm, byKey);
    assert (set e | e in taken :: Normalize(svc.cm, e)) == Labels(taken, byForm);
    assert (set e | e in taken :: Hash(svc.cm, svc.blind, e)) == Labels(taken, byKey);
    assert |FirstSpelling(svc, taken)| == |FirstSpelling(svc, taken).Keys|;
  }

  ghost function Labels(xs: seq<string>, f: string -> string): set<string> {
    set x | x in xs :: f(x)
  }

  lemma LabelsSnoc(xs: seq<string>, f: string -> string)
    requires xs != []
    ensures var k := |xs| - 1;
            |Labels(xs, f)| == |Labels(xs[..k], f)| + if f(xs[k]) in Labels(xs[..k], f) then 0 else 1
  {
    var k := |xs| - 1;
    assert forall x :: x in xs <==> x in xs[..k] || x == xs[k];
    assert Labels(xs, f) == Labels(xs[..k], f) + {f(xs[k])};
  }

  /** Two labellings that distinguish the same items have equally many labels. */
  lemma {:induction false} SameCount(xs: seq<string>, f: string -> string, g: string -> string)
    requires forall x, y :: x in xs && y in xs ==> (f(x) == f(y) <==> g(x) == g(y))
    ensures |Labels(xs, f)| == |Labels(xs, g)|
  {
    if xs == [] {
    } else {
      var k := |xs| - 1;
      assert forall x :: x in xs[..k] ==> x in xs;
      SameCount(xs[..k], f, g);
      LabelsSnoc(xs, f);
      LabelsSnoc(xs, g);
      assert f(xs[k]) in Labels(xs[..k], f) <==> g(xs[k]) in Labels(xs[..k], g) by {
        hide Labels;
        LabelMember(xs[..k], f, xs[k]);
        LabelMember(xs[..k], g, xs[k]);
      }
    }
  }

  lemma LabelMember(xs: seq<string>, f: string -> string, y: string)
    ensures f(y) in Labels(xs, f) <==> exists x :: x in xs && f(x) == f(y)
  {
  }

  /** A subscription that passed the checks succeeds exactly when the email is empty or
      got its nonce, the answer arrives, and the email is known or the id is free. */
  lemma SubscribedWhen(svc: Service, s: System, mail: Request<string>, id: string, nonce: Option<Nonce>, link: Link)
    requires svc.Valid() && MailGate(mail).None?
    ensures var t, email := Next(svc, s, Subscribe(mail, id, nonce, link)), mail.parsed.value;
            t.outbox == s.outbox + [Subscribed(email)]
            <==> && (email == "" || nonce.Some?) && link == Delivered
                 && (EmailTaken(s.primary, Hash(svc.cm, svc.blind, email)) || id !in s.primary.subs)
  {
    hide Hash, EmailTaken, Encode;
    var email := mail.parsed.value;
    SealsWhen(svc, email, nonce);
    hide Seal;
    SubscribeNext(svc, s, Subscribe(mail, id, nonce, link));
    hide Next;
    var t := SubscribeStep(svc, s, mail, id, nonce, link);
    assert (s.outbox + [Subscribed(email)])[|s.outbox|] == Subscribed(email);
    assert t.outbox == s.outbox + [Failed] ==> t.outbox[|s.outbox|] == Failed;
  }

  // ---- emails that differ -----------------------------------------------------

  lemma SubscribeStores(svc: Service, s: System, email: string, id: string, nonce: Option<Nonce>)
    requires svc.Valid() && !EmailTaken(s.primary, Hash(svc.cm, svc.blind, email)) && id !in s.primary.subs
    requires Seal(svc, email, nonce).Ok?
    ensures var t := Next(svc, s, Subscribe(Request(Some(email), true, true), id, nonce, Delivered));
            && t.primary.subs == s.primary.subs[id := Subscriber(Seal(svc, email, nonce).value, Hash(svc.cm, svc.blind, email))]
            && t.outbox == s.outbox + [Subscribed(email)]
  {
    hide Hash, Seal, EmailTaken;
  }

  /** Two addresses without blanks and marks that differ in more than case are two
      subscribers, whatever other characters they share or differ in: unless the two
      texts collide, both are stored, each under its own row, and each row decrypts to
      its own address. */
  lemma BothSubscribed(
      svc: Service, s: System, e: string, i: string, m: Option<Nonce>, f: string, j: string, n: Option<Nonce>)
    requires svc.Valid() && Unmarked(e) && Unmarked(f)
    requires |e| != |f| || exists k :: 0 <= k < |e| && svc.cm.lower(e[k]) != svc.cm.lower(f[k])
    requires Apart(svc.blind, Normalize(svc.cm, e), Normalize(svc.cm, f))
    requires !EmailTaken(s.primary, Hash(svc.cm, svc.blind, e)) && !EmailTaken(s.primary, Hash(svc.cm, svc.blind, f))
    requires i !in s.primary.subs && j !in s.primary.subs && i != j && Seal(svc, e, m).Ok? && Seal(svc, f, n).Ok?
    ensures var u := Run(svc, s, [Subscribe(Request(Some(e), true, true), i, m, Delivered),
                                  Subscribe(Request(Some(f), true, true), j, n, Delivered)]);
            && u.primary.subs.Keys == s.primary.subs.Keys + {i, j}
            && Unseal(svc, u.primary.subs[i].emailEnc) == Encode(e)
            && Unseal(svc, u.primary.subs[j].emailEnc) == Encode(f)
            && u.outbox == s.outbox + [Subscribed(e), Subscribed(f)]
  {
    hide Hash, Seal, Unseal, Normalize, Apart, Next, Run, Encode;
    var one := Subscribe(Request(Some(e), true, true), i, m, Delivered);
    var two := Subscribe(Request(Some(f), true, true), j, n, Delivered);
    RunTwo(svc, s, one, two);
    UnmarkedDiffer(svc.cm, e, f);
    HashEqual(svc.cm, svc.blind, e, f);
    SubscribeStores(svc, s, e, i, m);
    var t := Next(svc, s, one);
    assert !EmailTaken(t.primary, Hash(svc.cm, svc.blind, f));
    SubscribeStores(svc, t, f, j, n);
    UnsealSeal(svc, e, m, Seal(svc, e, m).value);
    UnsealSeal(svc, f, n, Seal(svc, f, n).value);
  }
}
