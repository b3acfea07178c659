/** What lookups can see: the replica is always a past content of the primary, and
    never goes backwards. */
module Replication {
  import opened Wrappers
  import Utf8
  import Text
  import Crypto
  import opened Tables
  import opened Protocol
  import opened Safety

  // ---- replication ------------------------------------------------------------

  function Replay(t: Tables, wal: seq<Change>): Tables {
    if wal == [] then t else Apply(Replay(t, wal[..|wal| - 1]), wal[|wal| - 1])
  }

  lemma {:induction false} ReplayFirst(t: Tables, wal: seq<Change>)
    requires wal != []
    ensures Replay(t, wal) == Replay(Apply(t, wal[0]), wal[1..])
  {
    var k := |wal| - 1;
    if k == 0 {
      assert wal[..0] == [] && wal[1..] == [];
    } else {
      ReplayFirst(t, wal[..k]);
      assert wal[..k][1..] == wal[1..][..k - 1] && wal[1..][k - 1] == wal[k];
    }
  }

  ghost predicate SameTables(s: System, t: System) {
    t.primary == s.primary && t.replica == s.replica && t.wal == s.wal
  }

  /** What a step does to the tables: nothing, one commit on the primary, or the
      replay of the oldest unreplicated commit. */
  ghost predicate Effect(s: System, t: System, change: Change) {
    || SameTables(s, t)
    || (t.primary == Apply(s.primary, change) && t.replica == s.replica && t.wal == s.wal + [change])
    || (t.primary == s.primary && s.wal != [] && t.replica == Apply(s.replica, s.wal[0]) && t.wal == s.wal[1..])
  }

  /** The change that a step committed, if any. */
  ghost function Added(s: System, t: System): Change {
    if |t.wal| > |s.wal| then t.wal[|s.wal|] else Nothing
  }

  /** The step committed at most one change and replayed none. */
  ghost predicate Writes(s: System, t: System) {
    SameTables(s, t) || SameTables(Commit(s, Added(s, t)), t)
  }

  lemma CommitWrites(s: System, change: Change, t: System)
    requires SameTables(Commit(s, change), t)
    ensures Writes(s, t)
  {
    hide Apply;
  }

  lemma SubmitWrites(svc: Service, s: System, c: Client, req: Request<ApplicationInput>, draw: Draw, link: Link)
    ensures Writes(s, SubmitStep(svc, s, c, req, draw, link))
  {
    hide AcceptedInput, MakeColumns, InsertApplication, Commit, Writes, Added, Apply;
    var t := SubmitStep(svc, s, c, req, draw, link);
    if SameTables(s, t) {
      assert Writes(s, t) by {
        SameWrites(s, t);
      }
    } else {
      CommitWrites(s, InsertApplication(s.primary, draw.id, MakeColumns(svc, req.parsed.value, draw).value).value, t);
    }
  }

  lemma SameWrites(s: System, t: System)
    requires SameTables(s, t)
    ensures Writes(s, t)
  {
  }

  lemma CodeUpdateWrites(svc: Service, s: System, id: string, onlyIfEmpty: bool, link: Link, t: System)
    requires svc.Valid() && SameTables(CodeUpdate(svc, s, id, onlyIfEmpty, link), t)
    ensures Writes(s, t)
  {
    hide CodeOf, UpdateCode, Commit, Writes, Added, Apply;
    var done := UpdateCode(s.primary, id, CodeOf(svc, id), onlyIfEmpty);
    if link == Lost || done.Err? {
      SameWrites(s, t);
    } else {
      CommitWrites(s, done.value, t);
    }
  }

  lemma SubscribeWrites(svc: Service, s: System, mail: Request<string>, id: string, nonce: Option<Crypto.Nonce>,
                        link: Link)
    ensures Writes(s, SubscribeStep(svc, s, mail, id, nonce, link))
  {
    hide Seal, Crypto.Hash, InsertSubscriber, Commit, Writes, Added, Apply;
    var t := SubscribeStep(svc, s, mail, id, nonce, link);
    if SameTables(s, t) {
      SameWrites(s, t);
    } else {
      var email := mail.parsed.value;
      var sub := Subscriber(Seal(svc, email, nonce).value, Crypto.Hash(svc.cm, svc.blind, email));
      CommitWrites(s, InsertSubscriber(s.primary, id, sub).value, t);
    }
  }

  lemma AdminWrites(s: System, id: string, rollNo: Option<string>, confirmed: bool, status: string)
    ensures Writes(s, AdminStep(s, id, rollNo, confirmed, status))
  {
    hide EditApplication, Commit, Writes, Added, Apply;
    var done := EditApplication(s.primary, id, rollNo, confirmed, status);
    if done.Err? {
      SameWrites(s, s);
    } else {
      CommitWrites(s, done.value, AdminStep(s, id, rollNo, confirmed, status));
    }
  }

  lemma ClientWrites(svc: Service, s: System, c: Client, link: Link)
    requires svc.Valid()
    ensures Writes(s, WriteCodeStep(svc, s, c, link)) && Writes(s, BackfillStep(svc, s, c, link))
  {
    hide CodeUpdate, Writes;
    SameWrites(s, s);
    if c in s.clients && s.clients[c].WritingCode? {
      CodeUpdateWrites(svc, s, s.clients[c].id, false, link, WriteCodeStep(svc, s, c, link));
    }
    if c in s.clients && s.clients[c].Backfilling? {
      CodeUpdateWrites(svc, s, s.clients[c].view.id, true, link, BackfillStep(svc, s, c, link));
    }
  }

  lemma ReadWrites(svc: Service, s: System, step: Step)
    requires svc.Valid() && (step.Lookup? || step.Verify? || step.Crash?)
    ensures Writes(s, Next(svc, s, step))
  {
    hide Writes, LookupGate, CardMatches, CardKey, CardView, Pool, Text.Trim, Utf8.Encode, CleanQuery, CodeMatches;
    match step
    case Lookup(_, _, _, _) => SameWrites(s, Next(svc, s, step));
    case Verify(_, _, _) => SameWrites(s, Next(svc, s, step));
    case Crash(_) => SameWrites(s, Next(svc, s, step));
  }

  /** Only replication replays; every other step commits at most one change. */
  lemma StepWrites(svc: Service, s: System, step: Step)
    requires svc.Valid() && !step.Replicate?
    ensures Writes(s, Next(svc, s, step))
  {
    hide Writes, SubmitStep, WriteCodeStep, LookupStep, BackfillStep, VerifyStep, SubscribeStep, AdminStep,
      SameTables;
    match step
    case Submit(c, req, draw, link) => SubmitWrites(svc, s, c, req, draw, link);
    case WriteCode(c, link) => ClientWrites(svc, s, c, link);
    case Backfill(c, link) => ClientWrites(svc, s, c, link);
    case Subscribe(mail, id, nonce, link) => SubscribeWrites(svc, s, mail, id, nonce, link);
    case AdminEdit(id, rollNo, confirmed, status) => AdminWrites(s, id, rollNo, confirmed, status);
    case Lookup(_, _, _, _) => ReadWrites(svc, s, step);
    case Verify(_, _, _) => ReadWrites(svc, s, step);
    case Crash(_) => ReadWrites(svc, s, step);
  }

  lemma TableEffect(svc: Service, s: System, step: Step)
    requires svc.Valid()
    ensures Effect(s, Next(svc, s, step), Added(s, Next(svc, s, step)))
    ensures !step.Replicate? ==> Next(svc, s, step).replica == s.replica && s.wal <= Next(svc, s, step).wal
  {
    hide Apply, SubmitStep, WriteCodeStep, LookupStep, BackfillStep, VerifyStep, SubscribeStep, AdminStep;
    if !step.Replicate? {
      StepWrites(svc, s, step);
    }
  }

  /** `t` was the primary's content at some moment of the run. */
  ghost predicate Past(svc: Service, s: System, steps: seq<Step>, t: Tables)
    requires svc.Valid()
  {
    exists k :: 0 <= k <= |steps| && Run(svc, s, steps[..k]).primary == t
  }

  lemma PastLonger(svc: Service, s: System, steps: seq<Step>, t: Tables)
    requires svc.Valid() && steps != [] && Past(svc, s, steps[..|steps| - 1], t)
    ensures Past(svc, s, steps, t)
  {
    var k :| 0 <= k <= |steps| - 1 && Run(svc, s, steps[..|steps| - 1][..k]).primary == t;
    assert steps[..|steps| - 1][..k] == steps[..k];
  }

  ghost predicate AllPast(svc: Service, s: System, steps: seq<Step>, t: Tables, wal: seq<Change>)
    requires svc.Valid()
  {
    forall j :: 0 <= j <= |wal| ==> Past(svc, s, steps, Replay(t, wal[..j]))
  }

  /** Replaying any part of the log gives a past content of the primary, and
      replaying all of it gives the present one. */
  lemma {:induction false} LogIsHistory(svc: Service, s: System, steps: seq<Step>)
    requires svc.Valid() && s.wal == [] && s.replica == s.primary
    ensures var u := Run(svc, s, steps);
            AllPast(svc, s, steps, u.replica, u.wal) && Replay(u.replica, u.wal) == u.primary
  {
    hide Next, Apply;
    var u := Run(svc, s, steps);
    if steps == [] {
      assert steps[..0] == [];
    } else {
      var before := steps[..|steps| - 1];
      var r := Run(svc, s, before);
      LogIsHistory(svc, s, before);
      TableEffect(svc, r, steps[|steps| - 1]);
      var change := Added(r, u);
      forall j | 0 <= j <= |u.wal|
        ensures Past(svc, s, steps, Replay(u.replica, u.wal[..j]))
      {
        LogPoint(svc, s, steps, r, u, change, j);
      }
      assert u.wal[..|u.wal|] == u.wal;
      if u.wal == r.wal + [change] {
        assert u.wal[..|r.wal|] == r.wal;
      } else if r.wal != [] && u.wal == r.wal[1..] {
        ReplayFirst(r.replica, r.wal);
      }
    }
  }

  lemma LogPoint(svc: Service, s: System, steps: seq<Step>, r: System, u: System, change: Change, j: nat)
    requires svc.Valid() && steps != [] && u == Run(svc, s, steps) && j <= |u.wal|
    requires AllPast(svc, s, steps[..|steps| - 1], r.replica, r.wal) && Replay(r.replica, r.wal) == r.primary
    requires Effect(r, u, change)
    ensures Past(svc, s, steps, Replay(u.replica, u.wal[..j]))
  {
    hide Next, Apply;
    var before := steps[..|steps| - 1];
    if u.replica == r.replica && u.wal == r.wal {
      PastLonger(svc, s, steps, Replay(r.replica, r.wal[..j]));
    } else if u.replica == r.replica && u.wal == r.wal + [change] {
      if j < |u.wal| {
        assert u.wal[..j] == r.wal[..j];
        PastLonger(svc, s, steps, Replay(r.replica, r.wal[..j]));
      } else {
        assert u.wal[..j][..j - 1] == r.wal;
        assert steps[..|steps|] == steps;
      }
    } else {
      ReplayFirst(r.replica, r.wal[..j + 1]);
      assert r.wal[..j + 1][1..] == u.wal[..j];
      PastLonger(svc, s, steps, Replay(r.replica, r.wal[..j + 1]));
    }
  }

  /** At every moment lookups see a state that the primary once had. */
  lemma ReplicaIsPast(svc: Service, start: System, steps: seq<Step>)
    requires svc.Valid() && start.wal == [] && start.replica == start.primary
    ensures Past(svc, start, steps, Pool(svc, Run(svc, start, steps)))
  {
    hide Next, Apply;
    LogIsHistory(svc, start, steps);
    var u := Run(svc, start, steps);
    assert u.wal[..0] == [];
    assert Past(svc, start, steps, Replay(u.replica, u.wal[..0]));
    assert steps[..|steps|] == steps;
  }

  /** In every reachable state the phone index is unique, every code is blank or its
      row's own, non-blank codes are distinct, and all this also holds of what
      lookups see, which the primary still contains. */
  lemma ReachableTables(svc: Service, start: System, steps: seq<Step>)
    requires svc.Valid() && Inv(svc, start)
    ensures var s := Run(svc, start, steps);
            && UniquePhones(s.primary) && UniqueCodes(s.primary) && OwnCodes(svc, s.primary)
            && UniquePhones(Pool(svc, s)) && UniqueCodes(Pool(svc, s)) && OwnCodes(svc, Pool(svc, s))
            && Extends(Pool(svc, s), s.primary)
  {
    hide ImageOf, Run, UniquePhones, UniqueCodes, OwnCodes, Recorded, ClientsOk, OutboxOk;
    RunOk(svc, start, steps);
    PoolOk(svc, Run(svc, start, steps));
  }

  /** Reads never go backwards: what a lookup could see it can see ever after. */
  lemma {:induction false} PoolGrows(svc: Service, s: System, steps: seq<Step>)
    requires svc.Valid() && Inv(svc, s)
    ensures Extends(Pool(svc, s), Pool(svc, Run(svc, s, steps)))
  {
    hide ImageOf, Next, Good, Recorded, ClientsOk, OutboxOk, Extends;
    if steps == [] {
      ExtendsReflexive(Pool(svc, s));
    } else {
      var before := steps[..|steps| - 1];
      var r, u := Run(svc, s, before), Run(svc, s, steps);
      PoolGrows(svc, s, before);
      RunOk(svc, s, before);
      NextOk(svc, r, steps[|steps| - 1]);
      TableEffect(svc, r, steps[|steps| - 1]);
      PoolStep(svc, r, u);
      ExtendsTransitive(Pool(svc, s), Pool(svc, r), Pool(svc, u));
    }
  }

  lemma PoolStep(svc: Service, r: System, u: System)
    requires svc.Valid() && TablesOk(svc, r.primary, r.replica, r.wal) && Extends(r.primary, u.primary)
    requires u.replica == r.replica || (r.wal != [] && u.replica == Apply(r.replica, r.wal[0]))
    ensures Extends(Pool(svc, r), Pool(svc, u))
  {
    hide Good, Apply;
    ExtendsReflexive(r.replica);
  }

  // ---- progress ---------------------------------------------------------------

  /** The number of steps that replicate. */
  function Replays(steps: seq<Step>): nat {
    if steps == [] then 0
    else Replays(steps[..|steps| - 1]) + if steps[|steps| - 1].Replicate? then 1 else 0
  }

  lemma {:induction false} ChainReplay(svc: Service, t: Tables, wal: seq<Change>, p: Tables)
    requires svc.Valid() && Chain(svc, t, wal, p)
    ensures Replay(t, wal) == p
    decreases |wal|
  {
    hide Good, Extends, Apply;
    if wal == [] {
    } else {
      ReplayFirst(t, wal);
      ChainReplay(svc, Apply(t, wal[0]), wal[1..], p);
    }
  }

  /** The log drains in order: whatever happens in between, each replication brings
      the replica one commit closer to what the primary was at the start, and after
      as many as were pending it is exactly that. */
  lemma {:induction false} LogDrains(svc: Service, s: System, steps: seq<Step>)
    requires svc.Valid() && Replay(s.replica, s.wal) == s.primary && Replays(steps) <= |s.wal|
    ensures var u, left := Run(svc, s, steps), |s.wal| - Replays(steps);
            left <= |u.wal| && Replay(u.replica, u.wal[..left]) == s.primary
  {
    hide Next, Apply;
    if steps == [] {
      assert s.wal[..|s.wal|] == s.wal;
    } else {
      var before, step := steps[..|steps| - 1], steps[|steps| - 1];
      var r, u := Run(svc, s, before), Run(svc, s, steps);
      LogDrains(svc, s, before);
      TableEffect(svc, r, step);
      var left := |s.wal| - Replays(before);
      if step.Replicate? {
        ReplicateNext(svc, r);
        ReplayFirst(r.replica, r.wal[..left]);
        assert r.wal[..left][1..] == u.wal[..left - 1];
      } else {
        assert u.wal[..left] == r.wal[..left];
      }
    }
  }

  lemma ReplicateNext(svc: Service, s: System)
    requires svc.Valid() && s.wal != []
    ensures var t := Next(svc, s, Replicate); t.replica == Apply(s.replica, s.wal[0]) && t.wal == s.wal[1..]
  {
    hide Apply;
  }

  /** As many replications as commits were pending, anything else interleaved, and
      the replica is what the primary was. */
  lemma CatchUp(svc: Service, s: System, steps: seq<Step>)
    requires svc.Valid() && TablesOk(svc, s.primary, s.replica, s.wal) && Replays(steps) == |s.wal|
    ensures Run(svc, s, steps).replica == s.primary
  {
    hide Good, Run, Apply;
    ChainReplay(svc, s.replica, s.wal, s.primary);
    LogDrains(svc, s, steps);
    var u := Run(svc, s, steps);
    assert u.wal[..0] == [];
  }

  lemma {:induction false} CutAt(steps: seq<Step>, n: nat) returns (k: nat)
    requires n <= Replays(steps)
    ensures k <= |steps| && Replays(steps[..k]) == n
  {
    if n == Replays(steps) {
      k := |steps|;
      assert steps[..k] == steps;
    } else {
      k := CutAt(steps[..|steps| - 1], n);
      assert steps[..|steps| - 1][..k] == steps[..k];
    }
  }

  /** Progress: in any run with at least as many replications as commits were pending,
      and anything else interleaved, everything that the primary held is visible at
      the end: every row with its fixed columns and any code it had. */
  lemma EventuallyVisible(svc: Service, s: System, steps: seq<Step>)
    requires svc.Valid() && Inv(svc, s) && Replays(steps) >= |s.wal|
    ensures Extends(s.primary, Pool(svc, Run(svc, s, steps)))
  {
    hide ImageOf, Run, Recorded, ClientsOk, OutboxOk, Extends, Chain, Good;
    var k := CutAt(steps, |s.wal|);
    var a, b := steps[..k], steps[k..];
    assert steps == a + b;
    RunConcat(svc, s, a, b);
    RunOk(svc, s, a);
    CatchUp(svc, s, a);
    var r := Run(svc, s, a);
    ExtendsReflexive(s.primary);
    PoolGrows(svc, r, b);
    ExtendsTransitive(s.primary, Pool(svc, r), Pool(svc, Run(svc, r, b)));
  }

  ghost predicate OnlyReplays(steps: seq<Step>) {
    forall k :: 0 <= k < |steps| ==> steps[k] == Replicate
  }

  lemma {:induction false} ReplaysKeep(svc: Service, s: System, steps: seq<Step>)
    requires svc.Valid() && OnlyReplays(steps)
    ensures Replays(steps) == |steps|
    ensures var u := Run(svc, s, steps);
            u.primary == s.primary && u.clients == s.clients && u.outbox == s.outbox && u.stored == s.stored
  {
    hide Apply;
    if steps == [] {
    } else {
      ReplaysKeep(svc, s, steps[..|steps| - 1]);
    }
  }

  /** Replaying exactly the pending log, lookups see what the primary holds. */
  lemma Settled(svc: Service, s: System, replays: seq<Step>)
    requires svc.Valid() && TablesOk(svc, s.primary, s.replica, s.wal)
    requires OnlyReplays(replays) && |replays| == |s.wal|
    ensures Pool(svc, Run(svc, s, replays)) == s.primary
  {
    hide TablesOk, Run;
    ReplaysKeep(svc, s, replays);
    CatchUp(svc, s, replays);
  }
}
