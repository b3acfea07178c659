/** The application store as a stepped system: any number of clients whose requests
    interleave at every database call, a primary whose commits reach a replica later
    and in order, connections that fail before or after a commit, crashing clients,
    and an administrator who edits lifecycle columns. */
module Protocol {
  import opened Wrappers
  import opened Utf8
  import opened Text
  import opened Crypto
  import opened Tables
  import Phone
  import Dates
  import LookupKey
  import Geo

  // ---- requests and answers ---------------------------------------------------

  datatype ApplicationInput = ApplicationInput(
    name: string, gender: string, email: string, phone: string, dob: string, address: string,
    division: string, district: string, education: string, gpa: string, passingYear: string,
    computerSkill: string, ownComputer: string, canAttend: string, photoData: string)

  datatype AdmitCardLookup = AdmitCardLookup(phone: string, dob: string)

  /** The decrypted card.  Decrypted fields are byte strings, as they are in Go. */
  datatype AdmitCardView = AdmitCardView(
    id: string, name: Bytes, phone: Bytes, email: Bytes, address: Bytes, education: Bytes, photo: Bytes,
    division: string, district: string, batch: string, rollNo: string, confirmed: bool,
    status: string, applicationDate: string, verifyCode: string)

  datatype VerifyView = VerifyView(
    status: string, batch: string, confirmed: bool, issuedDate: string, rollNo: string)

  /** A request body as the handler sees it: whether it parsed, whether the bot check
      passed, and the verdict of the validator's built-in rules. */
  datatype Request<T> = Request(parsed: Option<T>, human: bool, tagsOk: bool)

  datatype Refusal = Malformed | BotCheckFailed | Invalid | WrongDistrict

  datatype Reply =
    | Created(input: ApplicationInput, id: string)
    | AlreadyApplied(input: ApplicationInput)
    | Card(lookup: AdmitCardLookup, card: AdmitCardView)
    | NoCard(lookup: AdmitCardLookup)
    | Genuine(query: string, document: VerifyView)
    | NotGenuine(query: string)
    | Subscribed(email: string)
    | Refused(why: Refusal)
    | Failed

  function HttpStatus(r: Reply): nat {
    match r
    case Created(_, _) => 201
    case AlreadyApplied(_) => 409
    case Card(_, _) => 200
    case NoCard(_) => 404
    case Genuine(_, _) => 200
    case NotGenuine(_) => 200
    case Subscribed(_) => 201
    case Refused(why) => (match why case Malformed => 400 case BotCheckFailed => 403 case _ => 422)
    case Failed => 500
  }

  // ---- the configured service -------------------------------------------------

  datatype Service = Service(
    cm: CaseMap, aead: Aead, blind: Mac, sign: Mac,
    divisions: seq<Geo.Division>, replicated: bool)
  {
    ghost predicate Valid() {
      cm.Valid() && aead.Valid() && ValidMac(blind) && ValidMac(sign)
    }
  }

  /** Case tables that only know ASCII. */
  function AsciiMap(): CaseMap {
    CaseMap(c => AsciiLower(c), c => AsciiUpper(c))
  }

  lemma AsciiMapValid()
    ensures AsciiMap().Valid() && LowerStable(AsciiMap())
  {
  }

  /** A cipher that appends a tag of zeros, and a MAC that ignores its message. */
  function TagCipher(): Aead {
    Aead((n: Bytes, p: Bytes) => p + seq(TAG_SIZE, _ => 0),
         (n: Bytes, c: Bytes) => if |c| < TAG_SIZE then None else Some(c[..|c| - TAG_SIZE]))
  }

  lemma TagCipherValid()
    ensures TagCipher().Valid()
  {
    var a := TagCipher();
    forall n: Bytes, p: Bytes | |n| == NONCE_SIZE
      ensures |a.seal(n, p)| == |p| + TAG_SIZE && a.open(n, a.seal(n, p)) == Some(p)
    {
      assert a.seal(n, p)[..|p|] == p;
    }
  }

  function ZeroMac(): Mac {
    (m: Bytes) => seq(DIGEST_SIZE, _ => 0)
  }

  lemma ZeroMacValid()
    ensures ValidMac(ZeroMac())
  {
  }

  /** The assumptions on the abstract functions can be met together, the one on
      lower-casing that NormalizeTwice makes included. */
  lemma ServiceExists()
    ensures exists svc: Service :: svc.Valid() && LowerStable(svc.cm)
  {
    hide LowerStable, ValidMac, AsciiMap, TagCipher, ZeroMac;
    AsciiMapValid();
    TagCipherValid();
    ZeroMacValid();
    var svc := Service(AsciiMap(), TagCipher(), ZeroMac(), ZeroMac(), [], true);
    assert svc.Valid() && LowerStable(svc.cm);
  }

  const DOC_CODE_PREFIX := "AC"

  /** The one code that an application can ever carry. */
  function CodeOf(svc: Service, id: string): string
    requires svc.Valid()
  {
    DocCode(svc.sign, DOC_CODE_PREFIX, id)
  }

  function PhoneKey(svc: Service, phone: string): string {
    LookupKey.PhoneIndex(svc.cm, svc.blind, phone)
  }

  function CardKey(svc: Service, phone: string, dob: string): string {
    LookupKey.CardIndex(svc.cm, svc.blind, phone, dob)
  }

  /** What one submission takes from outside: the generated id, a nonce for each
      encrypted field, the day that now() gives, and the batch that the process
      which serves it was started with. */
  datatype Draw = Draw(
    id: string, name: Option<Nonce>, phone: Option<Nonce>, email: Option<Nonce>, dob: Option<Nonce>,
    address: Option<Nonce>, education: Option<Nonce>, gpa: Option<Nonce>, photo: Option<Nonce>,
    today: string, batch: string)

  function Seal(svc: Service, text: string, nonce: Option<Nonce>): Result<string, CryptoError> {
    Encrypt(svc.aead, Encode(text), nonce)
  }

  /** The row that CreateApplication inserts, or the first failing encryption. */
  function MakeColumns(svc: Service, input: ApplicationInput, d: Draw): Result<Columns, CryptoError> {
    var nameEnc :- Seal(svc, input.name, d.name);
    var phoneEnc :- Seal(svc, input.phone, d.phone);
    var emailEnc :- Seal(svc, input.email, d.email);
    var dobEnc :- Seal(svc, input.dob, d.dob);
    var addressEnc :- Seal(svc, input.address, d.address);
    var educationEnc :- Seal(svc, input.education, d.education);
    var gpaEnc :- Seal(svc, input.gpa, d.gpa);
    var photoEnc :- Seal(svc, input.photoData, d.photo);
    Ok(Columns(
      nameEnc, phoneEnc, emailEnc, dobEnc, addressEnc, educationEnc, gpaEnc, photoEnc,
      input.gender, input.passingYear, input.computerSkill, input.ownComputer, input.canAttend,
      input.division, input.district, PhoneKey(svc, input.phone), CardKey(svc, input.phone, input.dob),
      d.batch, d.today))
  }

  /** A field that does not decrypt is shown as empty. */
  function Unseal(svc: Service, enc: string): Bytes {
    match Decrypt(svc.aead, enc)
    case Ok(p) => p
    case Err(_) => []
  }

  lemma UnsealSeal(svc: Service, text: string, nonce: Option<Nonce>, enc: string)
    requires svc.Valid() && Seal(svc, text, nonce) == Ok(enc)
    ensures Unseal(svc, enc) == Encode(text)
  {
    DecryptEncrypt(svc.aead, Encode(text), nonce);
  }

  lemma SealsWhen(svc: Service, text: string, nonce: Option<Nonce>)
    ensures Seal(svc, text, nonce).Ok? <==> text == "" || nonce.Some?
  {
    assert Encode(text) == [] <==> text == "";
  }

  function OrEmpty(rollNo: Option<string>): string {
    match rollNo case None => "" case Some(r) => r
  }

  function CardView(svc: Service, id: string, row: Application): AdmitCardView
    requires svc.Valid()
  {
    var c := row.cols;
    AdmitCardView(
      id, Unseal(svc, c.nameEnc), Unseal(svc, c.phoneEnc), Unseal(svc, c.emailEnc),
      Unseal(svc, c.addressEnc), Unseal(svc, c.educationEnc), Unseal(svc, c.photoEnc),
      c.division, c.district, c.batch, OrEmpty(row.rollNo), row.confirmed, row.status, c.createdOn,
      if row.verifyCode == "" then CodeOf(svc, id) else row.verifyCode)
  }

  // ---- states -----------------------------------------------------------------

  type Client = nat

  /** A client between its two database calls. */
  datatype Pending =
    | WritingCode(input: ApplicationInput, id: string)
    | Backfilling(lookup: AdmitCardLookup, view: AdmitCardView)

  /** `stored` and `taken` are bookkeeping for the statements of the theorems: the
      submission behind each committed row, and the emails whose INSERT completed. */
  datatype System = System(
    primary: Tables, replica: Tables, wal: seq<Change>, clients: map<Client, Pending>,
    outbox: seq<Reply>, stored: map<string, Submission>, taken: seq<string>)

  datatype Submission = Submission(input: ApplicationInput, draw: Draw)

  const INIT := System(EMPTY, EMPTY, [], map[], [], map[], [])

  /** Where lookups read; without a replica this is the primary itself. */
  function Pool(svc: Service, s: System): Tables {
    if svc.replicated then s.replica else s.primary
  }

  function Commit(s: System, change: Change): System {
    if change.Nothing? then s else s.(primary := Apply(s.primary, change), wal := s.wal + [change])
  }

  function Tell(s: System, r: Reply): System {
    s.(outbox := s.outbox + [r])
  }

  // ---- steps ------------------------------------------------------------------

  /** The fate of a statement: done and answered, never done, or done with the
      answer lost. */
  datatype Link = Delivered | Lost | AnswerLost

  datatype Step =
    | Submit(c: Client, req: Request<ApplicationInput>, draw: Draw, link: Link)
    | WriteCode(c: Client, link: Link)
    | Lookup(c: Client, ask: Request<AdmitCardLookup>, pick: string, link: Link)
    | Backfill(c: Client, link: Link)
    | Verify(query: string, pick: string, link: Link)
    | Subscribe(mail: Request<string>, id: string, nonce: Option<Nonce>, link: Link)
    | Replicate
    | Crash(c: Client)
    | AdminEdit(id: string, rollNo: Option<string>, confirmed: bool, status: string)

  predicate AcceptedInput(input: ApplicationInput) {
    Phone.BdPhone(input.phone) && Dates.DateStr(input.dob)
  }

  predicate AcceptedLookup(l: AdmitCardLookup) {
    Phone.BdPhone(l.phone) && Dates.DateStr(l.dob)
  }

  /** The checks of POST /v1/applications, in the handler's order. */
  function SubmitGate(svc: Service, req: Request<ApplicationInput>): Option<Refusal> {
    if req.parsed.None? then Some(Malformed)
    else if !req.human then Some(BotCheckFailed)
    else if !(req.tagsOk && AcceptedInput(req.parsed.value)) then Some(Invalid)
    else if !Geo.Listed(svc.cm, svc.divisions, req.parsed.value.division, req.parsed.value.district) then
      Some(WrongDistrict)
    else None
  }

  function LookupGate(ask: Request<AdmitCardLookup>): Option<Refusal> {
    if ask.parsed.None? then Some(Malformed)
    else if !ask.human then Some(BotCheckFailed)
    else if !(ask.tagsOk && AcceptedLookup(ask.parsed.value)) then Some(Invalid)
    else None
  }

  function MailGate(mail: Request<string>): Option<Refusal> {
    if mail.parsed.None? then Some(Malformed)
    else if !mail.human then Some(BotCheckFailed)
    else if !mail.tagsOk then Some(Invalid)
    else None
  }

  /** Up to and including the INSERT. */
  function SubmitStep(svc: Service, s: System, c: Client, req: Request<ApplicationInput>, draw: Draw, link: Link): System {
    var gate := SubmitGate(svc, req);
    if c in s.clients then s
    else if gate.Some? then Tell(s, Refused(gate.value))
    else InsertStep(svc, s, c, req.parsed.value, draw, link)
  }

  function InsertStep(svc: Service, s: System, c: Client, input: ApplicationInput, draw: Draw, link: Link): System {
    match MakeColumns(svc, input, draw)
    case Err(_) => Tell(s, Failed)
    case Ok(cols) =>
      if link == Lost then Tell(s, Failed)
      else match InsertApplication(s.primary, draw.id, cols)
        case Err(_) => Tell(s, if link == Delivered then AlreadyApplied(input) else Failed)
        case Ok(change) =>
          var t := Commit(s, change).(stored := s.stored[draw.id := Submission(input, draw)]);
          if link == Delivered then t.(clients := t.clients[c := WritingCode(input, draw.id)]) else Tell(t, Failed)
  }

  /** The code-writing UPDATE; every failure is swallowed. */
  function CodeUpdate(svc: Service, s: System, id: string, onlyIfEmpty: bool, link: Link): System
    requires svc.Valid()
  {
    if link == Lost then s
    else match UpdateCode(s.primary, id, CodeOf(svc, id), onlyIfEmpty)
      case Err(_) => s
      case Ok(change) => Commit(s, change)
  }

  function WriteCodeStep(svc: Service, s: System, c: Client, link: Link): System
    requires svc.Valid()
  {
    if c in s.clients && s.clients[c].WritingCode? then
      var p := s.clients[c];
      var t := CodeUpdate(svc, s, p.id, false, link);
      Tell(t.(clients := t.clients - {c}), Created(p.input, p.id))
    else s
  }

  /** The rows that the admit-card query can return. */
  function CardMatches(t: Tables, key: string): set<string> {
    set i | i in t.apps && t.apps[i].cols.phoneDobBidx == key
  }

  function LookupStep(svc: Service, s: System, c: Client, ask: Request<AdmitCardLookup>, pick: string, link: Link): System
    requires svc.Valid()
  {
    var gate := LookupGate(ask);
    if c in s.clients then s
    else if gate.Some? then Tell(s, Refused(gate.value))
    else FindStep(svc, s, c, ask.parsed.value, pick, link)
  }

  /** The read; LIMIT 1 may return any match. */
  function FindStep(svc: Service, s: System, c: Client, l: AdmitCardLookup, pick: string, link: Link): System
    requires svc.Valid()
  {
    var pool := Pool(svc, s);
    var found := CardMatches(pool, CardKey(svc, l.phone, l.dob));
    if link != Delivered then Tell(s, Failed)
    else if found == {} then Tell(s, NoCard(l))
    else if pick !in found then s
    else
      var view := CardView(svc, pick, pool.apps[pick]);
      if pool.apps[pick].verifyCode == "" then s.(clients := s.clients[c := Backfilling(l, view)])
      else Tell(s, Card(l, view))
  }

  function BackfillStep(svc: Service, s: System, c: Client, link: Link): System
    requires svc.Valid()
  {
    if c in s.clients && s.clients[c].Backfilling? then
      var p := s.clients[c];
      var t := CodeUpdate(svc, s, p.view.id, true, link);
      Tell(t.(clients := t.clients - {c}), Card(p.lookup, p.view))
    else s
  }

  const QUERY_LIMIT := 64

  /** What the repository compares stored codes with. */
  function CleanQuery(cm: CaseMap, query: string): string {
    Trim(MapChars(cm.upper, query))
  }

  function CodeMatches(t: Tables, code: string): set<string> {
    set i | i in t.apps && t.apps[i].verifyCode == code
  }

  function DocumentView(row: Application): VerifyView {
    VerifyView(row.status, row.cols.batch, row.confirmed, row.cols.createdOn, OrEmpty(row.rollNo))
  }

  /** GET /v1/verify */
  function VerifyStep(svc: Service, s: System, query: string, pick: string, link: Link): System {
    var code := Trim(query);
    if code == "" then Tell(s, Refused(Malformed))
    else if |Encode(code)| > QUERY_LIMIT then Tell(s, NotGenuine(query))
    else
      var clean := CleanQuery(svc.cm, code);
      var found := CodeMatches(Pool(svc, s), clean);
      if clean == "" then Tell(s, NotGenuine(query))
      else if link != Delivered then Tell(s, Failed)
      else if found == {} then Tell(s, NotGenuine(query))
      else if pick !in found then s
      else Tell(s, Genuine(query, DocumentView(Pool(svc, s).apps[pick])))
  }

  function SubscribeStep(svc: Service, s: System, mail: Request<string>, id: string, nonce: Option<Nonce>, link: Link)
    : System
  {
    var gate := MailGate(mail);
    if gate.Some? then Tell(s, Refused(gate.value))
    else
      var email := mail.parsed.value;
      match Seal(svc, email, nonce)
      case Err(_) => Tell(s, Failed)
      case Ok(enc) =>
        if link == Lost then Tell(s, Failed)
        else match InsertSubscriber(s.primary, id, Subscriber(enc, Hash(svc.cm, svc.blind, email)))
          case Err(_) => Tell(s, Failed)
          case Ok(change) =>
            Tell(Commit(s, change).(taken := s.taken + [email]),
                 if link == Delivered then Subscribed(email) else Failed)
  }

  function ReplicateStep(s: System): System {
    if s.wal == [] then s
    else s.(replica := Apply(s.replica, s.wal[0]), wal := s.wal[1..])
  }

  function AdminStep(s: System, id: string, rollNo: Option<string>, confirmed: bool, status: string): System {
    match EditApplication(s.primary, id, rollNo, confirmed, status)
    case Err(_) => s
    case Ok(change) => Commit(s, change)
  }

  /** One step; a step that the state does not enable changes nothing. */
  function Next(svc: Service, s: System, step: Step): System
    requires svc.Valid()
  {
    match step
    case Submit(c, req, draw, link) => SubmitStep(svc, s, c, req, draw, link)
    case WriteCode(c, link) => WriteCodeStep(svc, s, c, link)
    case Lookup(c, ask, pick, link) => LookupStep(svc, s, c, ask, pick, link)
    case Backfill(c, link) => BackfillStep(svc, s, c, link)
    case Verify(query, pick, link) => VerifyStep(svc, s, query, pick, link)
    case Subscribe(mail, id, nonce, link) => SubscribeStep(svc, s, mail, id, nonce, link)
    case Replicate => ReplicateStep(s)
    case Crash(c) => s.(clients := s.clients - {c})
    case AdminEdit(id, rollNo, confirmed, status) => AdminStep(s, id, rollNo, confirmed, status)
  }

  function Run(svc: Service, s: System, steps: seq<Step>): System
    requires svc.Valid()
  {
    if steps == [] then s
    else Next(svc, Run(svc, s, steps[..|steps| - 1]), steps[|steps| - 1])
  }

  lemma {:induction false} RunConcat(svc: Service, s: System, a: seq<Step>, b: seq<Step>)
    requires svc.Valid()
    ensures Run(svc, s, a + b) == Run(svc, Run(svc, s, a), b)
  {
    if b == [] {
      assert a + b == a;
    } else {
      var k := |b| - 1;
      RunConcat(svc, s, a, b[..k]);
      assert (a + b)[..|a + b| - 1] == a + b[..k] && (a + b)[|a + b| - 1] == b[k];
    }
  }

  lemma RunTwo(svc: Service, s: System, first: Step, second: Step)
    requires svc.Valid()
    ensures Run(svc, s, [first]) == Next(svc, s, first)
    ensures Run(svc, s, [first, second]) == Next(svc, Next(svc, s, first), second)
  {
    hide Next;
    assert [first][..0] == [];
    assert [first, second][..1] == [first];
  }

  // ---- steps of other clients --------------------------------------------------

  /** The client that a step moves, if any. */
  function Mover(step: Step): Option<Client> {
    match step
    case Submit(c, _, _, _) => Some(c)
    case WriteCode(c, _) => Some(c)
    case Lookup(c, _, _, _) => Some(c)
    case Backfill(c, _) => Some(c)
    case Crash(c) => Some(c)
    case _ => None
  }

  ghost predicate Spares(steps: seq<Step>, c: Client) {
    forall k :: 0 <= k < |steps| ==> Mover(steps[k]) != Some(c)
  }

  /** No step but its own changes what a client is waiting for. */
  lemma OthersStep(svc: Service, s: System, step: Step, c: Client)
    requires svc.Valid() && Mover(step) != Some(c)
    ensures c in Next(svc, s, step).clients <==> c in s.clients
    ensures c in s.clients ==> Next(svc, s, step).clients[c] == s.clients[c]
  {
    hide Trim, Encode, Apply, MakeColumns, InsertApplication, InsertSubscriber, UpdateCode, EditApplication,
      CardView, CardMatches, CodeMatches, CleanQuery, Seal, SubmitGate, LookupGate, MailGate, CodeOf, CardKey,
      Hash;
    match step
    case Submit(_, _, _, _) =>
    case WriteCode(_, _) =>
    case Lookup(_, _, _, _) =>
    case Backfill(_, _) =>
    case Verify(_, _, _) =>
    case Subscribe(_, _, _, _) =>
    case Replicate =>
    case Crash(_) =>
    case AdminEdit(_, _, _, _) =>
  }

  lemma {:induction false} OthersRun(svc: Service, s: System, steps: seq<Step>, c: Client)
    requires svc.Valid() && Spares(steps, c)
    ensures c in Run(svc, s, steps).clients <==> c in s.clients
    ensures c in s.clients ==> Run(svc, s, steps).clients[c] == s.clients[c]
  {
    hide Next;
    if steps == [] {
    } else {
      var k := |steps| - 1;
      OthersRun(svc, s, steps[..k], c);
      OthersStep(svc, Run(svc, s, steps[..k]), steps[k], c);
    }
  }
}
