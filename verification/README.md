# Verified model of the DYD admissions server

The server takes applications for a training course, stores the personal fields encrypted, finds an application
again by phone and date of birth through keyed fingerprints, and issues document codes that anyone can check.  This
project models that behaviour in Dafny and proves what it promises.

- **Text and encodings.**  `Utf8`, `Text`, `Base64` (RFC 4648, section 4), `Crypto` (field cipher framing, blind
  index, document codes), `Config` (key loading, comma lists), `Geo` (division/district index).
- **The lookup key.**  `Phone` (the `bdphone` pattern as a regular expression term), `Dates` (the three layouts,
  calendar, `normalizeDate`), `Calendar` (the accepted birthdays in characters and days), `LookupKey` (what the two
  fingerprint columns distinguish).
- **The store as a protocol.**  `Tables` (rows, unique indexes, SQL statements, replicated changes), `Protocol`
  (clients between two database calls, lost statements and lost answers, crashes, a lagging replica, administrator
  edits), `Safety` (the invariant of every step and every run), and the results built on it: `Replication`,
  `Applications`, `AdmitCards`, `VerifyCodes` (with `Uuids`, the form of generated ids), `Newsletter`, `History` (what a
  run says about its answers).  Runs start at any state of the invariant: the empty store, or a migrated database of an
  earlier release (`Upgrades`).
- **The code.**  `Backend` is the repository and the handlers as a class whose methods call the database step by step
  while arbitrary other steps happen at each waiting point; each handler is proved to be a run of `Protocol`.
  The model's record of submissions and committed emails is ghost there; `Bookkeeping` proves that no step reads it.
- **The startup migration.**  `FileOrder`, `Migrations` (add-if-absent statements, files as transactions, crashes) and
  `Schema` (the three files); `Enforcement` reads a database's rows as the store's and proves that
  the installed indexes are the store's constraints.

Assumptions are parameters with stated properties, never axioms.  AES-GCM is a pair of functions where opening undoes
sealing and the tag has 16 bytes; HMAC-SHA256 is a function to 32 bytes; the Unicode case tables are exact on ASCII and
neither make nor hide a bar, a white space or a blank, dash, bracket or plus sign; `Crypto.NormalizeTwice` alone also assumes that lower-casing twice is
lower-casing once.  `Protocol.ServiceExists` shows that all of these can be met together.  Absence of
fingerprint collisions is assumed only where a result needs it, and only for the texts at hand (`Apart`,
`PhonesApart`, `LookupApart`).

Four statements that one might expect are false of the code, and the exact conditions are proved instead:

- *One application per phone number.*  The same national number is stored twice when it is typed once with `0` and once
  with the country code: `Applications.TwoSpellings` gives the two spellings and `Applications.BothStored` the run.
  `Applications.SecondApplication` says exactly when a second application is stored, and
  `Applications.AtMostTwoPerNumber` that there is never a third.
- *An error means nothing was stored.*  `Applications.FailureMeaning`: exactly unless an INSERT was committed and its
  answer lost; `Applications.LostAnswer` shows what the applicant then sees.
- *A document's code always resolves to it.*  It can fail in two ways.  When the UPDATE of the submission and the backfill
  of a lookup are both lost, the applicant holds a card whose code is answered as not genuine
  (`VerifyCodes.BothUpdatesLost`).  And two generated ids can have one code whatever the keys are
  (`VerifyCodes.SharedCode`, `VerifyCodes.SomeIdsCollide`); then the later row stays blank for ever
  (`VerifyCodes.SecondStaysBlank`).  Exactly: in any run a row gets its code when and only when some UPDATE for it reaches
  the primary before another row shows an equal code (`VerifyCodes.HeldExactlyWhen`), and, the log replayed, its code
  resolves to it in just these runs (`VerifyCodes.ResolvesExactlyWhen`).  `VerifyCodes.CodeLands` is the condition for
  one UPDATE of any fate, `VerifyCodes.CardCodeHeld` for the code on a card just answered.
- *Normalising is idempotent.*  `Crypto.NotIdempotent` gives a family of counterexamples and `Crypto.NormalizeTwice` the
  exact condition; on accepted numbers it holds (`Phone.NormalStable`).

Where comments in the sources and the code disagree the model follows the code: the `bdphone` comment lists `00880...`,
which the pattern refuses (`Phone.DoubleZeroRefused`), and the document-code comment speaks of the first 40 bits, while
the code takes five bits of each of eight bytes (`Crypto.DocCodeEqual`).

## Model

| member | source | states |
|---|---|---|
| Safety.RunOk | internal/repository/repository.go:48-197 | From any state of the invariant and over every run, with any number of clients, lost statements and answers, crashes, edits and any lag: unique phones, rolls, codes and emails, codes only of their own rows, a log that replays through good states to the primary, each row the image of one accepted submission, each pending client and each answer ever given consistent with the table; and nothing stored, recorded or answered is ever taken back |
| Safety.NextOk | internal/repository/repository.go:99-167 | Each single step keeps all of that |
| Safety.ChainAppend | internal/database/database.go:16-20 | A commit on the primary extends a healthy replication chain to a healthy one |
| Upgrades.UpgradedDatabase | migrations/0003_verify_code.sql:12-21 | A database of the first release whose rows hold images of accepted submissions and distinct subscribers is migrated, and the rows of the migrated database are tables with which the invariants start, so every result on runs applies to the upgraded service |
| Upgrades.EmptyStart | migrations/0001_init.sql:15-82 | The empty store starts with the invariants, and every run from it stays within them |
| Upgrades.UpgradedRow | migrations/0002_intake_fields.sql:18-25 | A row of the first release with the seven blank defaults is the image of its submission with those questions unanswered |
| Replication.ReachableTables | migrations/0001_init.sql:50-60 | In every reachable state, on the primary and in what lookups see: distinct phone indexes, codes blank or the row's own, non-blank codes distinct, and the primary still holds everything lookups see |
| Replication.ReplicaIsPast | internal/database/database.go:38-48 | Starting caught up, lookups always see a content that the primary had at some moment of the run |
| Replication.LogIsHistory | internal/database/database.go:38-48 | Every prefix of the unreplicated log leads to a past content of the primary, the whole log to the present one |
| Replication.PoolGrows | internal/repository/repository.go:139-151 | Reads never go backwards: rows, fixed columns and codes once visible stay visible |
| Replication.LogDrains | internal/database/database.go:38-48 | Whatever is interleaved, each replication brings the replica exactly one commit closer to what the primary was at the start |
| Replication.CatchUp | internal/database/database.go:38-48 | After exactly as many replications as commits were pending, with anything interleaved, the replica is what the primary was |
| Replication.EventuallyVisible | internal/database/database.go:38-48 | Progress: in any run with at least as many replications as commits were pending, everything that the primary held is visible at the end |
| History.EveryAnswerIsGrounded | internal/handlers/handlers.go:43-202 | In any run every answer was asked for: each 201, conflict, card, miss and subscription by a request with this very body that passed the bot check and the built-in rules, a 201 under the id of that request; and the roll number, confirmation and status on a card or document, the batch and day on a document, and the absence behind a miss or a code that is not genuine, were so on the primary at some moment of the run |
| History.UneditedStaysSubmitted | internal/repository/repository.go:87-97 | An application that a run stores and no administrator edits has no roll number, is not confirmed and is `submitted`, on the primary, in what is visible, and on every card answered for it |
| History.UneditedDocument | internal/repository/repository.go:210-243 | Its genuine answer shows the same three values |
| Applications.AcknowledgedIsStored | internal/repository/repository.go:117-123 | An id answered with 201 is stored with exactly the ciphertexts and index columns of that input, now and in every continuation |
| Applications.FailureMeaning | internal/handlers/handlers.go:68-77 | A 500 to any request leaves tables, log and clients as they were exactly unless the step committed an INSERT whose answer was lost |
| Applications.FailedSubmission | internal/repository/repository.go:99-111 | A 500 for a submission: nothing happened but the answer exactly unless encryption and INSERT succeeded and the answer was lost, and then the application is stored |
| Applications.FailedSubscription | internal/repository/repository.go:283-291 | A 500 for a subscription leaves the table as it was exactly unless a new row was committed and the answer lost |
| Applications.LostAnswer | internal/repository/repository.go:105-111 | What the applicant then sees: a 500, with the row stored, and a conflict when trying again |
| Applications.TakenMeaning | internal/repository/repository.go:84-108 | The unique index reports a taken phone when, and collisions aside only when, an application with the same normalised phone is stored |
| Applications.ConflictMeaning | internal/handlers/handlers.go:68-84 | With a fresh id an answered INSERT gives 409 exactly when the same normalised phone is stored, and then changes nothing; otherwise the row is stored |
| Applications.AlreadyAppliedWhen | internal/repository/repository.go:105-111 | A conflict is answered exactly when the encryptions succeed, the phone key or the id is taken, and the database's answer arrives |
| Applications.RefusalChangesNothing | internal/handlers/handlers.go:45-74 | Every 4xx answer of every handler leaves tables, log and other clients as they were |
| Applications.RowsAreInserts | internal/repository/repository.go:87-104 | The number of applications is the number of committed INSERTs of the run |
| Applications.OnePerSpelling | migrations/0001_init.sql:48-51 | Two stored applications never share national number and prefix family; no assumption on collisions |
| Applications.AtMostTwoPerNumber | migrations/0001_init.sql:48-51 | Any run holds at most two applications per national number |
| Applications.SecondApplication | migrations/0001_init.sql:48-51 | A second application for a number is stored exactly when no stored one was typed with the same prefix family |
| Applications.TwoSpellings | internal/validate/validate.go:14-21 | For every national number both `0` and `+880` spellings are accepted and normalise differently, and the keys differ unless these two texts collide |
| Applications.BothStored | migrations/0001_init.sql:48-51 | The bound of two is attained: collisions aside, from any state without an application for the number one submission per spelling, under fresh ids, leaves exactly two |
| Applications.FieldsRecoverable | internal/repository/repository.go:51-82 | All eight encrypted columns of every stored row decrypt to the submitted fields, and the plain columns are the submitted ones |
| Applications.StoredIsAdmissible | internal/handlers/handlers.go:56-66 | In every run each stored application has an accepted phone and birthday and a district that belongs to its division by linear search |
| AdmitCards.AcknowledgedIsFound | internal/repository/repository.go:128-197 | End to end over whole runs: an acknowledged application that lookups can see is, at any later moment, the only match for every accepted spelling of its phone and birthday, and the conversation ends with its card exactly as submitted and with the row's current roll number, confirmation and status, whatever others do and whatever happens to the backfill |
| AdmitCards.LookupShows | internal/repository/repository.go:128-197 | The same from any state of the invariant, with the batch and day of the submission |
| AdmitCards.AtMostOneMatch | internal/repository/repository.go:131-139 | The phone-and-birthday index is not unique, yet no lookup ever has two matching rows |
| AdmitCards.MatchesMeaning | internal/repository/repository.go:129-139 | The query finds exactly the visible applications whose phone normalises alike and whose birthday is the same day |
| AdmitCards.AnsweredCard | internal/repository/repository.go:162-196 | Every card answered in any run shows a stored submission field by field with its batch and day, carries its own code, and is the application asked for |
| AdmitCards.ShowsFaithfully | internal/repository/repository.go:169-192 | Decrypting the columns of a submission gives back its fields |
| AdmitCards.SubmissionIsStored | internal/repository/repository.go:99-123 | A submission that passes, with a fresh id and a free phone, is acknowledged and stored by its own two calls, whatever others do in between and even when the code UPDATE is lost |
| AdmitCards.SubmissionBecomesVisible | internal/repository/repository.go:99-123 | Progress: whatever others do between its calls and afterwards, it is visible to lookups once as many commits are replicated as were pending when it was acknowledged |
| AdmitCards.VisibleAtOnce | internal/database/database.go:16-20 | An acknowledged application is visible at once exactly when there is no replica; with one, the lookup for it is a miss until replication |
| AdmitCards.MissMeaning | internal/repository/repository.go:139-157 | An answered read is a miss exactly when no visible application is the one named; a read without an answer is an error |
| AdmitCards.DamagedIsEmpty | internal/repository/repository.go:169-175 | A column with a foreign character, or with too few bytes for a nonce, is shown as empty |
| VerifyCodes.CodeIsPermanent | internal/repository/repository.go:113-122 | A written code is the row's own and is never changed by any continuation |
| VerifyCodes.CodeText | internal/repository/repository.go:43-46 | An application's code is `DYD-AC-` and the symbols of the low five bits of the first eight bytes of the MAC of `AC`, a bar and the id, in order |
| VerifyCodes.CodeLands | internal/repository/repository.go:117-167 | After an UPDATE of any fate, guarded or not, the row carries its code exactly when it had it before, or the UPDATE reached the primary and no other row with an equal code came first |
| VerifyCodes.HeldExactlyWhen | internal/repository/repository.go:113-167 | Over whole runs: a row has its code exactly when it had it at the start or some UPDATE for it reached the primary before another row showed an equal code; no other step gives or takes a code |
| VerifyCodes.ResolvesExactlyWhen | internal/repository/repository.go:204-226 | Once the log is replayed, asking for a row's code finds exactly that row in just these runs |
| VerifyCodes.CardCodeHeld | internal/repository/repository.go:159-167 | When a lookup's conversation ends, the row shown holds the code on the card exactly when it held it by the time of the backfill, or the backfill reached the primary and no equal code came first, whatever others did in between |
| VerifyCodes.CardNotGenuine | internal/repository/repository.go:159-167 | When the backfill of a blank, unblocked row is lost, the card just answered shows a code that is answered as not genuine in every variant |
| VerifyCodes.BothUpdatesLost | internal/repository/repository.go:117-167 | The run from the submission on: both UPDATEs lost, everything replicated, no equal code, and still the acknowledged applicant's card shows a code that is not genuine |
| VerifyCodes.SharedCode | migrations/0001_init.sql:19 | Whatever the MAC, some two different ids that `gen_random_uuid()` can generate have the same code |
| VerifyCodes.BlockedForever | migrations/0003_verify_code.sql:18-21 | A row whose code another row shows is blank and stays blank in every run |
| VerifyCodes.SecondStaysBlank | internal/repository/repository.go:117-123 | Two submissions under ids with one code: both are acknowledged, the first row holds the code, the second is blank whatever follows |
| VerifyCodes.SomeIdsCollide | internal/crypto/crypto.go:154-166 | Any two admissible applications of different phones can be given generated ids under which the second is acknowledged and never gets its code, in any run |
| VerifyCodes.ResolvesToItself | internal/repository/repository.go:204-226 | Asking for a visible row's code finds that row exactly when it holds its code; anything found has an equal code |
| VerifyCodes.HitMeaning | internal/repository/repository.go:210-226 | A code query finds at most one row, and its own code is the query |
| VerifyCodes.VariantsPass | internal/handlers/handlers.go:184-191 | Every query that upper-cases and trims to an issued code passes the byte bound and reaches the same comparison |
| VerifyCodes.TypedVariants | internal/repository/repository.go:205 | Any casing of the code with any white space around it is such a query |
| VerifyCodes.GenuineAnswer | internal/handlers/handlers.go:183-202 | Every such variant of a held code is answered as genuine with that row's status |
| VerifyCodes.HeldCodeIsGenuine | internal/repository/repository.go:204-243 | End to end over runs: once the primary holds a code and the commits pending then are replicated, every variant of it is answered as genuine with that row, from then on and whatever else happens |
| VerifyCodes.AcknowledgedCodeIsGenuine | internal/repository/repository.go:113-123 | In particular for a submission whose code UPDATE reached the primary with no equal code before it |
| VerifyCodes.GenuineIsStored | internal/repository/repository.go:204-243 | Every positive answer of any run was for a code that a stored submission's row holds as its own |
| Newsletter.TableIsFirstSpellings | internal/repository/repository.go:278-293 | Under any interleaving the subscriber table is the map from index to first committed spelling, one row each |
| Newsletter.SubscribedIsStored | internal/repository/repository.go:285-292 | An acknowledged email has a row under its index, and it decrypts to the first spelling that was committed for that index |
| Newsletter.SubscribedOnce | internal/repository/repository.go:276-292 | Once an email was acknowledged, no later subscription in any spelling that normalises alike changes a row, in any run; answered, it is a success |
| Newsletter.BothSubscribed | internal/crypto/crypto.go:114-118 | Collisions aside, two addresses without blanks and marks that differ in more than case are both stored, each decrypting to itself |
| Newsletter.SubscribedWhen | internal/repository/repository.go:278-293 | A subscription that passed the checks succeeds exactly when the email is empty or got its nonce, the answer arrives, and the email is known or the id is free |
| Newsletter.OrderIrrelevant | internal/repository/repository.go:283-289 | Two runs that committed the same subscriptions in any order, among any other traffic, end with the same set of indexes and equally many rows |
| Newsletter.OneRowPerNormalForm | migrations/0001_init.sql:81-82 | Collisions aside the subscriber table of a run has exactly as many rows as the committed emails have normal forms |
| Backend.Server.CreateApplication | internal/repository/repository.go:50-124 | The code, with interference between INSERT and UPDATE, is the protocol's submission |
| Backend.Server.FindAdmitCard | internal/repository/repository.go:128-197 | The code, with interference before the backfill, is the protocol's lookup; a failed read is an error, a read that matches no row a miss, and any other gives the picked row's own roll number, confirmation, status, places, batch and day |
| Backend.Server.FindByVerifyCode | internal/repository/repository.go:204-243 | A hit reports roll number, confirmation, status, batch and day of a row that holds the cleaned code; in a good state that row is the only one and the code is its own; a miss and an error are told apart as in the source |
| Backend.Server.ExecSubscribe | internal/repository/repository.go:278-293 | The conflict-ignoring INSERT and its error cases |
| Backend.Server.EncryptAll | internal/repository/repository.go:51-82 | Succeeds exactly when every non-empty field got its nonce; then each encrypted column decrypts to its own field, and the plain columns show theirs |
| Backend.Server.PostApplication | internal/handlers/handlers.go:43-85 | The handler answers each refusal exactly in these cases; it is a run of the protocol with others interleaved; from a good state it reaches a good state, and a 201 names an id under which exactly this input is stored |
| Backend.Server.CheckSubmission | internal/handlers/handlers.go:44-66 | Malformed exactly without a parsed body, refused by the bot check exactly when parsed and not human, invalid exactly when a built-in rule, `bdphone` or `datestr` then fails, and otherwise, on bar-free trees, a wrong district exactly when linear search does not find the pair |
| Backend.Server.PostLookup | internal/handlers/handlers.go:89-121 | The same for lookups: each refusal exactly in its case, a failure exactly for an unanswered read, a miss exactly without a matching row, and a card showing its row; from a good state every card answered belongs to a stored row with its own code |
| Backend.Server.GetVerify | internal/handlers/handlers.go:183-202 | A step of the protocol; from a good state it reaches a good one, and a genuine answer names a row that holds its own code, which is the query; malformed exactly for a blank query, failed exactly for an unanswered read of a query of at most 64 bytes |
| Backend.Server.PostNewsletter | internal/handlers/handlers.go:147-165 | A step of the protocol; each refusal exactly in its case; good states and the meaning of the subscriber table are kept, and a success means that this email was committed |
| Backend.StatusMeaning | internal/handlers/handlers.go:43-202 | Which answers each of the eight HTTP statuses stands for |
| Backend.SubmitIsRun | internal/handlers/handlers.go:43-85 | A submission is a sequence of protocol steps, so every run result applies after it |
| Backend.LookupIsRun | internal/handlers/handlers.go:89-121 | A lookup is a sequence of protocol steps |
| Bookkeeping.RunUnread | internal/repository/repository.go:48-293 | The recorded submissions and emails serve the statements only: runs from states that differ in nothing else do the same and answer the same |
| Tables.InsertApplicationKeeps | migrations/0001_init.sql:18-60 | A successful INSERT keeps every unique index and every row, and adds the given row with no roll number, not confirmed, submitted |
| Tables.UpdateCodeKeeps | migrations/0003_verify_code.sql:18-21 | A successful code UPDATE keeps every unique index and touches only the code of its row |
| Tables.EditApplicationKeeps | migrations/0001_init.sql:39-60 | An administrator's edit sets the three lifecycle columns to the given values and keeps every unique index, all fixed columns and all codes |
| Tables.RejectedInsert | migrations/0001_init.sql:50-51 | An INSERT under a fresh id is rejected exactly when the new row would break a unique index |
| Tables.RejectedUpdate | migrations/0003_verify_code.sql:20-21 | A code UPDATE that applies is rejected exactly when the code would break a unique index |
| Tables.RejectedEdit | migrations/0001_init.sql:59-60 | An edit is rejected exactly when the roll number would break a unique index |
| Enforcement.IndexesAreConstraints | migrations/0001_init.sql:48-82 | A database that holds a store's rows, in whatever order, obeys all indexes that the three files install exactly when the store's constraints hold |
| Enforcement.NewRowHoldsDefaults | migrations/0001_init.sql:40-42 | The lifecycle cells of a new row are the defaults that the first file declares for these columns |
| Enforcement.ColumnsInstalled | migrations/0001_init.sql:18-46 | Every column that the store reads or writes is in the installed table |
| LookupKey.Canonical | internal/repository/repository.go:85 | Two accepted pairs are hashed as the same text exactly when the phones normalise alike and the dates are the same day |
| LookupKey.Factor | internal/repository/repository.go:129 | The hashed text splits into the phone's digits, a bar and eight date digits |
| LookupKey.CardIndexMeaning | internal/crypto/crypto.go:105-110 | The stored fingerprint decides the same, collisions aside |
| Phone.BdPhoneShape | internal/validate/validate.go:21-37 | The pattern accepts a national number after `0`, `880` or `+880` with any spaces and dashes, and nothing else |
| Phone.BdPhoneText | internal/validate/validate.go:21-37 | The rule in characters: blanks and dashes deleted, `0`, `880` or `+880`, a 1, a digit from 3 to 9, and eight digits |
| Phone.DoubleZeroRefused | internal/validate/validate.go:16-21 | Nothing starting with `00` is accepted |
| Phone.NormalPhone | internal/crypto/crypto.go:114-118 | An accepted number normalises to exactly `01[3-9]` and eight digits or `8801[3-9]` and eight digits |
| Phone.SharedKey | internal/crypto/crypto.go:114-118 | Two accepted spellings share a key exactly when they agree without spaces, dashes and plus signs: same number, same family |
| Phone.NormalStable | internal/crypto/crypto.go:114-118 | On accepted numbers normalising twice is normalising once |
| Dates.ParseFormat | internal/repository/repository.go:299-303 | Each layout reads back every real date that it prints |
| Dates.FormatParse | internal/repository/repository.go:299-303 | What a layout accepts is a real Gregorian date and exactly that date's print |
| Dates.LayoutsDisjoint | internal/repository/repository.go:299 | No text is a date in two layouts |
| Dates.DateStrMeaning | internal/validate/validate.go:41-49 | A text is accepted exactly when it normalises to the ISO print of a real date |
| Dates.NormalizePrinted | internal/repository/repository.go:297-305 | Every layout and any outer white space lead to the one canonical text of a date |
| Dates.NormalizeDateIdempotent | internal/repository/repository.go:297-305 | Idempotent on every text, accepted or not |
| Dates.SameDay | internal/repository/repository.go:295-305 | Accepted texts normalise alike exactly when they denote the same day |
| Dates.ComputeNormalizeDate | internal/repository/repository.go:297-305 | The early-return loop computes the normal form |
| Calendar.DateTexts | internal/validate/validate.go:41-49 | `datestr` and `normalizeDate` in characters: apart from outer white space exactly `yyyy-mm-dd`, `dd-mm-yyyy` and `dd/mm/yyyy` of a day that exists are accepted; the first is stored as it is, the others with their parts turned round, any other text only trimmed |
| Calendar.LeapDay | internal/repository/repository.go:297-305 | 29 February is accepted exactly in the leap years of the Gregorian rule, and stored year first |
| Calendar.GregorianCycle | internal/validate/validate.go:41-49 | Any 400 consecutive years have 146097 accepted days |
| Crypto.DecryptEncrypt | internal/crypto/crypto.go:60-91 | Every byte string survives encryption and decryption with every nonce, and only the empty one is stored as empty |
| Crypto.EncryptLayout | internal/crypto/crypto.go:60-69 | The stored text is base64 of the nonce followed by ciphertext and tag |
| Crypto.DecryptBytes | internal/crypto/crypto.go:73-91 | Which bytes in a column are empty, too short, refused by the cipher, or opened |
| Crypto.DecryptForeign | internal/crypto/crypto.go:77-80 | A character outside base64 makes a column invalid |
| Crypto.HashEqual | internal/crypto/crypto.go:105-110 | Fingerprints agree when, and collisions aside only when, values normalise alike |
| Crypto.NormalizeMeaning | internal/crypto/crypto.go:114-118 | The normal form is the lower-cased, trimmed text with exactly blanks, dashes, brackets and plus signs deleted, the rest in order |
| Crypto.UnmarkedOnlyLowers | internal/crypto/crypto.go:114-118 | A text without these characters and outer white space only changes its case |
| Crypto.HashText | internal/crypto/crypto.go:105-110 | A fingerprint is 64 lower-case hexadecimal digits, two for each byte of the MAC of the normal form |
| Crypto.NormalizeTwice | internal/crypto/crypto.go:114-118 | Normalising twice equals once exactly when no kept white space hides behind deleted characters at an end |
| Crypto.NotIdempotent | internal/crypto/crypto.go:114-118 | Dashes, tabs and a word: two passes give different results |
| Crypto.DocCodeEqual | internal/crypto/crypto.go:154-166 | Two codes agree exactly when the first eight digest bytes agree in their low five bits |
| Crypto.DocCodeText | internal/crypto/crypto.go:154-166 | The code character by character, for every prefix, id and MAC |
| Crypto.CodesRunOut | internal/crypto/crypto.go:154-166 | Among more than 32 to the power of 8 ids, of any form, two have the same code |
| Crypto.DocCodeShape | internal/crypto/crypto.go:153-166 | Codes have fifteen characters and are fixed by upper-casing and trimming |
| Crypto.ComputeDocCode | internal/crypto/crypto.go:154-166 | The loop over the eight-byte array computes the code |
| Base64.RoundTrip | internal/crypto/crypto.go:69-77 | Decoding undoes padded encoding for every length |
| Base64.Canonical | internal/crypto/crypto.go:77 | An accepted text is the encoding of its bytes exactly when it has no line break and zero unused bits |
| Base64.QuantumBits | internal/crypto/crypto.go:69-77 | Four symbols carry three bytes as one 24-bit number |
| Base64.Alphabet | internal/crypto/crypto.go:69-77 | The 64 symbols in order |
| Base64.TestVectors | internal/crypto/crypto.go:69-77 | The seven test vectors of section 10 of RFC 4648 |
| Base64.LineBreaksSkipped | internal/crypto/crypto.go:77 | Carriage returns and line feeds make no difference |
| Base64.DecodeForeign | internal/crypto/crypto.go:77 | Any other character outside the alphabet makes a text invalid |
| Config.LoadsConfiguredKey | internal/config/config.go:156-174 | The base64 text of a 32-byte key is loaded as that key in every environment |
| Config.EncodedIsSet | internal/config/config.go:157-158 | No base64 text of a key is empty or taken for the placeholder |
| Config.KeyFits | internal/config/config.go:158-174 | Every key handed out has the cipher's length; in production exactly the 32-byte keys that the variable's text decodes to are handed out, none being taken for unset, and elsewhere the same for every text that is set |
| Config.UnsetKey | internal/config/config.go:157-166 | An unset or placeholder key is refused in production and elsewhere is the fixed text and the name, cut or zero-filled to 32 bytes |
| Config.SetKey | internal/config/config.go:167-174 | A key that is set is loaded exactly when its text is base64 of 32 bytes, and otherwise the error says what is wrong |
| Config.DevKeysEqual | internal/config/config.go:162-164 | Two names have one development key exactly when their first fourteen bytes, filled with zeros, agree |
| Config.ThreeDevKeys | internal/config/config.go:91-99 | The three development keys are different keys |
| Config.LoadKey | internal/config/config.go:156-174 | The code with its byte buffer computes the specified key or error |
| Config.SplitOfJoin | internal/middleware/middleware.go:142-151 | Every list of trimmed, non-empty, comma-free items survives printing and parsing |
| Config.SplitCSVStable | internal/config/config.go:176-188 | For every setting, parsing the printed list gives the same list |
| Config.SplitCSVItems | internal/config/config.go:182-186 | Only trimmed, non-empty, comma-free items come out |
| Config.SettingListed | internal/config/config.go:176-188 | Any items with any blanks around them and any blank pieces between them are read as exactly these items in order |
| Config.SplitCSVMember | internal/config/config.go:182-186 | What is listed is what some piece between commas trims to, and all of it that is not empty |
| Config.ListedOneByOne | internal/config/config.go:181-187 | The list of two settings joined by a comma is the list of the first followed by that of the second |
| Config.ComputeSplitCSV | internal/config/config.go:176-188 | The loop computes the specified list |
| Config.JoinOrigins | internal/middleware/middleware.go:142-151 | The loop joins with commas |
| Geo.IndexRefinesSearch | internal/data/geo.go:72-92 | Index lookup and linear search agree on all pairs of texts, for every tree whose labels hold no bar |
| Geo.PairMeaning | internal/data/geo.go:72-105 | A pair is accepted exactly when it names a division and one of its own districts, each by either label, in any letters that lower-case alike and with any outer white space |
| Geo.BarredLabelMisleads | internal/data/geo.go:80 | With a barred label they can disagree |
| Geo.PairIndex.Build | internal/data/geo.go:72-86 | The nested loops fill the map with exactly the tree's keys |
| Geo.PairIndex.IsValidPair | internal/data/geo.go:90-92 | The map answers as the search |
| Migrations.CrashConvergence | internal/database/migrate.go:25-55 | After any number of interrupted starts a complete one gives what a single complete start gives |
| Migrations.ResumeConverges | internal/database/migrate.go:41-52 | The same after one interruption, for success and for failure |
| Migrations.SecondRunIsNoop | internal/database/migrate.go:14-17 | A completed migration changes nothing when repeated |
| Migrations.MigrationKeepsRows | migrations/0002_intake_fields.sql:18-25 | No run alters or drops a stored cell, every row gets the default of every column that was added, and no other cell appears |
| Migrations.RestartConverges | internal/database/migrate.go:41-52 | The same for starts that stop between files |
| Migrations.Server.Migrate | internal/database/migrate.go:25-55 | The sorted loop over files, its failures and crashes, reaches exactly a prefix of the whole |
| Migrations.Server.ApplyFile | internal/database/migrate.go:46-50 | A file is applied whole or not at all |
| FileOrder.ListingIrrelevant | internal/database/migrate.go:26-33 | The order in which files are listed does not matter |
| Schema.MigrateRunsAllFiles | internal/database/migrate.go:26-40 | However the directory lists the three files, sorting and applying them runs the init, intake and code statements in this order |
| Schema.FreshInstall | migrations/0001_init.sql:15-82 | On an empty database the files succeed and install the unique indexes the store relies on, and only a plain one on phone and birthday |
| Schema.UpgradeSucceeds | migrations/0002_intake_fields.sql:18-25 | On any database of the first release the migration succeeds, keeps all cells, blanks all codes, and gives every row a blank in each of the seven intake columns that the table lacked |
| Schema.CodeFileMeaning | migrations/0003_verify_code.sql:15-21 | Exactly when the code migration succeeds |

## Left out

- The HTTP framework, route table, middleware stack, rate limiting, Redis, Turnstile calls, health probes and logging.
- AES, GCM, SHA-256 and HMAC themselves, and every claim about secrecy or forgery: they are parameters here.
- The validator's built-in rules (`required`, `email`, `oneof`, lengths) and `imgdata`: their verdict is a parameter of a request; only `bdphone` and `datestr` are modelled.
- `CreateContact`: encryptions followed by one INSERT, with nothing to prove beyond the cipher's round trip.
- The field-to-message map of `validate.Struct`, and `DistrictCount`: presentation without a law behind it.
- Deletion of rows: no statement of the service deletes, and the modelled administrator edits lifecycle columns only.
- `Signer.Sign` and `Signer.Verify`: not called by any handler.
- Strings that are not valid UTF-8: request texts are sequences of Unicode characters, as the JSON decoder delivers them; decrypted fields are byte strings.
- The contents of the 64-district table: the index is proved for every tree.
- The time zone of timestamps: the formatted day of `created_at` is one text column.
- Isolation inside the database: each SQL statement is one atomic step, as a single-statement transaction under a unique index is.
- Changes of rows between two interrupted migrations: the convergence results are about a database that only the migration changes.
