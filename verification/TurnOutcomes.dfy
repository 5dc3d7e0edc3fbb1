/** How each request of the turn protocol comes to its end: what a failed turn gives back, what a
    completed key answers, and how long a key stays closed whose request went away. */
module TurnOutcomes {
  import opened Options
  import opened IdempotencyTable
  import opened TurnProtocol
  import opened TurnSafety
  import opened TurnTheorems
  import opened TurnScenario
  import opened TurnRetry

  // ----- Steps of one request -----

  lemma TwoSteps(c: Config, s: State, a: Action, b: Action)
    requires Enabled(s, a) && Enabled(Apply(c, s, a), b)
    ensures IsRun(c, s, [a, b], Apply(c, Apply(c, s, a), b))
  {
    assert [a, b][1..] == [b] && [b][1..] == [];
    assert IsRun(c, Apply(c, s, a), [b], Apply(c, Apply(c, s, a), b));
  }

  lemma SingleStep(c: Config, s: State, a: Action)
    requires Enabled(s, a)
    ensures IsRun(c, s, [a], Apply(c, s, a))
  {
    assert [a][1..] == [];
  }

  /** The request id moves on to pc, and nothing else changes. */
  function MovedTo(s: State, id: nat, pc: Pc): State
    requires id in s.procs
  {
    s.(procs := s.procs[id := s.procs[id].(pc := pc)])
  }

  lemma MovedAgain(s: State, id: nat, pc: Pc, pc': Pc)
    requires id in s.procs
    ensures MovedTo(MovedTo(s, id, pc), id, pc') == MovedTo(s, id, pc')
  {
    AtAgain(s, id, s.procs[id].(pc := pc), s.procs[id].(pc := pc'));
  }

  // ----- A failed turn gives everything back -----

  /** The step by which a request fails with nothing done: the lock is refused, the preparation
      fails or is broken off before a stream begins, the session is not the user's or has ended, the
      LLM fails before it said anything, or the turn cannot be persisted before it was delivered. */
  predicate TurnFails(c: Config, s: State, a: Action) {
    Enabled(s, a) &&
    match a
    case AcquireLock(id) => !Claimable(s.rows, LockKey(s.procs[id].req), s.now - 120)
    case Prepare(id, fails) => fails || !OpenFor(c, s, s.procs[id].req.user, s.procs[id].req.session)
    case LlmFails(_) => true
    case PersistFails(id) => !(s.procs[id].req.streaming && s.procs[id].pc.ok)
    case Disconnect(id) => s.procs[id].req.streaming && s.procs[id].pc.Preparing?
    case _ => false
  }

  /** The rows request r gives back when it fails: its key, if it has one, and its lock, if it had it. */
  function GivenBack(r: Request, lock: bool): set<Key> {
    (if r.key.Some? then {ClientKey(r)} else {}) + (if lock then {LockKey(r)} else {})
  }

  lemma FailingPc(c: Config, s: State, a: Action)
    requires TurnFails(c, s, a)
    ensures Apply(c, s, a) ==
              MovedTo(s, a.id, Settle(Failing(!a.AcquireLock?, s.procs[a.id].req.key.Some?)))
  {
  }

  lemma ReleaseKeyLast(c: Config, s: State, id: nat)
    requires id in s.procs && s.procs[id].pc == Failing(false, true) && s.procs[id].req.key.Some?
    ensures Enabled(s, ReleaseKey(id, false))
    ensures Apply(c, s, ReleaseKey(id, false)) ==
              MovedTo(s.(rows := s.rows - {ClientKey(s.procs[id].req)}), id, Done(None))
  {
  }

  lemma ReleaseLockFirst(c: Config, s: State, id: nat, key: bool)
    requires id in s.procs && s.procs[id].pc == Failing(true, key)
    ensures Enabled(s, ReleaseLock(id, false))
    ensures Apply(c, s, ReleaseLock(id, false)) ==
              MovedTo(s.(rows := s.rows - {LockKey(s.procs[id].req)}), id, Settle(Failing(false, key)))
  {
  }

  /** The clean-up of a failed request, from Failing to Done. */
  lemma CleanUp(c: Config, s: State, id: nat, lock: bool) returns (own: seq<Action>, s': State)
    requires id in s.procs && s.procs[id].pc == Settle(Failing(lock, s.procs[id].req.key.Some?))
    ensures IsRun(c, s, own, s') && OnlyReleases(own, id)
    ensures s' == MovedTo(s.(rows := s.rows - GivenBack(s.procs[id].req, lock)), id, Done(None))
  {
    var r := s.procs[id].req;
    if lock && r.key.Some? {
      ReleaseLockFirst(c, s, id, true);
      var s1 := Apply(c, s, ReleaseLock(id, false));
      ReleaseKeyLast(c, s1, id);
      own, s' := [ReleaseLock(id, false), ReleaseKey(id, false)], Apply(c, s1, ReleaseKey(id, false));
      TwoSteps(c, s, own[0], own[1]);
      MovedAgain(s.(rows := s.rows - {LockKey(r)} - {ClientKey(r)}), id, Failing(false, true), Done(None));
      assert s.rows - {LockKey(r)} - {ClientKey(r)} == s.rows - GivenBack(r, lock);
    } else if lock {
      ReleaseLockFirst(c, s, id, false);
      own, s' := [ReleaseLock(id, false)], Apply(c, s, ReleaseLock(id, false));
      SingleStep(c, s, own[0]);
    } else if r.key.Some? {
      ReleaseKeyLast(c, s, id);
      own, s' := [ReleaseKey(id, false)], Apply(c, s, ReleaseKey(id, false));
      SingleStep(c, s, own[0]);
    } else {
      own, s' := [], s;
      assert s.rows - GivenBack(r, lock) == s.rows;
      assert s.procs[id := s.procs[id].(pc := Done(None))] == s.procs;
    }
  }

  predicate OnlyReleases(own: seq<Action>, id: nat) {
    forall i :: 0 <= i < |own| ==> own[i] == ReleaseLock(id, false) || own[i] == ReleaseKey(id, false)
  }

  /** No poison key: however a turn fails, its request can end at once by releasing what it holds. It
      is not answered, its key and its lock are gone from the table, and nothing else in the whole
      state has changed since before the failing step, the clock included. */
  lemma FailedTurnGivesBack(c: Config, s: State, a: Action) returns (own: seq<Action>, s': State)
    requires TurnFails(c, s, a)
    ensures IsRun(c, s, [a] + own, s') && OnlyReleases(own, a.id)
    ensures var r := s.procs[a.id].req;
            s' == MovedTo(s.(rows := s.rows - GivenBack(r, !a.AcquireLock?)), a.id, Done(None))
  {
    var s1, r := Apply(c, s, a), s.procs[a.id].req;
    var lock, key := !a.AcquireLock?, r.key.Some?;
    FailingPc(c, s, a);
    own, s' := CleanUp(c, s1, a.id, lock);
    SingleStep(c, s, a);
    RunConcat(c, s, [a], s1, own, s');
    MovedAgain(s.(rows := s.rows - GivenBack(r, lock)), a.id, Settle(Failing(lock, key)), Done(None));
  }

  /** The same request can be made again at once: after a failed turn a retry under the same key, or
      without one, is served without any time passing. */
  lemma FailedTurnRetries(c: Config, s: State, a: Action, again: nat, reply: string)
    returns (s': State, s2: State)
    requires TurnFails(c, s, a) && !a.AcquireLock? && again !in s.procs
    requires OpenFor(c, s, s.procs[a.id].req.user, s.procs[a.id].req.session)
    ensures s'.procs == s.procs[a.id := s.procs[a.id].(pc := Done(None))] && s'.now == s.now
    ensures s'.committed == s.committed && s'.history == s.history && s'.transcripts == s.transcripts
    ensures Reaches(c, s, s2) && Served(s', s2, again, s.procs[a.id].req, reply, false)
  {
    var r := s.procs[a.id].req;
    var own;
    own, s' := FailedTurnGivesBack(c, s, a);
    assert Unpurged([a] + own);
    s2 := UnopposedTurn(c, s, s', again, r, reply, false);
    UnpurgedReaches(c, s, s2, LockKey(r));
  }

  // ----- What a request under a key with a row is told -----

  lemma LookUpAnswers(c: Config, s: State, id: nat, y: string)
    requires Enabled(s, LookUp(id)) && s.procs[id].req.key.Some?
    requires Response(s, ClientKey(s.procs[id].req)) == Some(y)
    ensures Apply(c, s, LookUp(id)) == MovedTo(s, id, Done(Some(y)))
  {
  }

  lemma ClaimRefused(c: Config, s: State, id: nat)
    requires Enabled(s, ClaimKey(id)) && !Claimable(s.rows, ClientKey(s.procs[id].req), s.now - 120)
    ensures Apply(c, s, ClaimKey(id)) == MovedTo(s, id, Rereading)
  {
  }

  lemma RereadAnswers(c: Config, s: State, id: nat)
    requires Enabled(s, Reread(id))
    ensures Apply(c, s, Reread(id)) == MovedTo(s, id, Done(Response(s, ClientKey(s.procs[id].req))))
  {
  }

  /** Claiming a key whose row is completed, or pending and not stale: the request is told what the
      row holds, which is nothing when the work is still running, and changes nothing. */
  lemma TakenKeyIsTold(c: Config, s: State, id: nat) returns (s': State)
    requires Enabled(s, ClaimKey(id)) && !Claimable(s.rows, ClientKey(s.procs[id].req), s.now - 120)
    ensures IsRun(c, s, [ClaimKey(id), Reread(id)], s')
    ensures s' == MovedTo(s, id, Done(Response(s, ClientKey(s.procs[id].req))))
  {
    ClaimRefused(c, s, id);
    var s1 := Apply(c, s, ClaimKey(id));
    RereadAnswers(c, s1, id);
    s' := Apply(c, s1, Reread(id));
    TwoSteps(c, s, ClaimKey(id), Reread(id));
    MovedAgain(s, id, Rereading, s'.procs[id].pc);
  }

  /** Replay: in every state, a new request under a key whose row holds a response is answered with
      it by its first step, without a lock, without the LLM and without any other change; and so is
      one that looked the key up before it was completed. */
  lemma CompletedKeyIsReplayed(c: Config, s: State, id: nat, r: Request, y: string) returns (s': State)
    requires r.key.Some? && Response(s, ClientKey(r)) == Some(y)
    ensures id !in s.procs ==>
              && IsRun(c, s, [Arrive(id, r), LookUp(id)], s')
              && s' == s.(procs := s.procs[id := Proc(r, Done(Some(y)), 0, 0)])
    ensures id in s.procs && s.procs[id].req == r && s.procs[id].pc.Claiming? ==>
              IsRun(c, s, [ClaimKey(id), Reread(id)], s') && s' == MovedTo(s, id, Done(Some(y)))
  {
    if id !in s.procs {
      var s1 := Apply(c, s, Arrive(id, r));
      LookUpAnswers(c, s1, id, y);
      s' := Apply(c, s1, LookUp(id));
      TwoSteps(c, s, Arrive(id, r), LookUp(id));
      AtAgain(s, id, Proc(r, Arrived, 0, 0), Proc(r, Done(Some(y)), 0, 0));
    } else if s.procs[id].req == r && s.procs[id].pc.Claiming? {
      s' := TakenKeyIsTold(c, s, id);
    } else {
      s' := s;
    }
  }

  // ----- A stream that breaks off -----

  lemma PartialReply(c: Config, s: State, id: nat, partial: string) returns (s': State)
    requires Enabled(s, LlmReplies(id, partial, false))
    ensures Reaches(c, s, s') && s' == At(s, id, s.procs[id].(pc := Persisting(s.procs[id].pc.base, partial, false)))
  {
    OneStep(c, s, LlmReplies(id, partial, false));
    s' := Apply(c, s, LlmReplies(id, partial, false));
  }

  lemma PartialPersist(c: Config, s: State, s1: State, id: nat, p: Proc, partial: string) returns (s': State)
    requires p.pc.Thinking? && p.req.session !in s.ended
    requires s1 == At(s, id, p.(pc := Persisting(p.pc.base, partial, false)))
    ensures Reaches(c, s1, s') && s'.rows == s.rows && s'.now == s.now
    ensures s' == At(PersistTx(c, s, p.req, p.pc.base, partial, false), id,
                     p.(pc := Finishing(partial, false, true, p.req.key.Some?)))
  {
    OneStep(c, s1, Persist(id, false));
    s' := Apply(c, s1, Persist(id, false));
    var s2 := PersistTx(c, s, p.req, p.pc.base, partial, false);
    assert PersistTx(c, s1, p.req, p.pc.base, partial, false) == At(s2, id, s1.procs[id]);
    AtAgain(s2, id, s1.procs[id], p.(pc := Finishing(partial, false, true, p.req.key.Some?)));
  }

  lemma PartialSteps(c: Config, s: State, id: nat, partial: string) returns (s': State)
    requires Enabled(s, LlmReplies(id, partial, false)) && s.procs[id].req.session !in s.ended
    ensures Reaches(c, s, s') && s'.rows == s.rows && s'.now == s.now
    ensures var p := s.procs[id];
            s' == At(PersistTx(c, s, p.req, p.pc.base, partial, false), id,
                     p.(pc := Finishing(partial, false, true, p.req.key.Some?)))
  {
    var s1 := PartialReply(c, s, id, partial);
    s' := PartialPersist(c, s, s1, id, s.procs[id], partial);
    Onward(c, s, s1, s');
  }

  lemma KeyThenLock(c: Config, s: State, id: nat, partial: string) returns (s': State)
    requires id in s.procs && s.procs[id].req.key.Some? && s.procs[id].pc == Finishing(partial, false, true, true)
    ensures Reaches(c, s, s') && s'.now == s.now && s'.history == s.history && s'.committed == s.committed
    ensures s'.rows == AfterComplete(s.rows, ClientKey(s.procs[id].req), partial) - {LockKey(s.procs[id].req)}
    ensures s'.procs == s.procs[id := s.procs[id].(pc := Done(None))]
  {
    var s1 := Apply(c, s, CompleteKey(id, false));
    assert s1.procs == s.procs[id := s.procs[id].(pc := Finishing(partial, false, true, false))];
    s' := Apply(c, s1, ReleaseLock(id, false));
    OneStep(c, s, CompleteKey(id, false));
    OneStep(c, s1, ReleaseLock(id, false));
    Onward(c, s, s1, s');
    assert s1.procs[id := s.procs[id].(pc := Done(None))] == s.procs[id := s.procs[id].(pc := Done(None))];
  }

  lemma PartialStored(c: Config, s: State, id: nat, partial: string) returns (s': State)
    requires Enabled(s, LlmReplies(id, partial, false))
    requires s.procs[id].req.key.Some? && s.procs[id].req.session !in s.ended
    ensures Reaches(c, s, s') && s'.now == s.now && s'.rows == s.rows
    ensures s'.procs == s.procs[id := s.procs[id].(pc := Finishing(partial, false, true, true))]
    ensures var r := s.procs[id].req;
            && History(s', r.session) == History(s, r.session) + [Message(User, r.text), Message(Assistant, partial)]
            && Committed(s', ClientKey(r)) == Committed(s, ClientKey(r)) + [partial]
  {
    var p := s.procs[id];
    s' := PartialSteps(c, s, id, partial);
    PartialCommit(c, s, p.req, p.pc.base, partial);
  }

  lemma PartialKept(s: State, s1: State, s': State, id: nat, r: Request, k: Key, partial: string)
    requires id in s.procs && s1.procs == s.procs[id := s.procs[id].(pc := Finishing(partial, false, true, true))]
    requires s'.procs == s1.procs[id := s1.procs[id].(pc := Done(None))]
    requires s'.history == s1.history && s'.committed == s1.committed
    requires k.Client? && k in s1.rows && s'.rows == AfterComplete(s1.rows, k, partial) - {LockKey(r)}
    ensures s'.procs == s.procs[id := s.procs[id].(pc := Done(None))]
    ensures History(s', r.session) == History(s1, r.session) && Committed(s', k) == Committed(s1, k)
    ensures LockKey(r) !in s'.rows && Response(s', k) == Some(partial)
  {
  }

  lemma PartialTurn(c: Config, s: State, id: nat, r: Request, k: Key, partial: string) returns (s': State)
    requires Inv(c, s) && Enabled(s, LlmReplies(id, partial, false)) && r == s.procs[id].req
    requires r.key.Some? && r.session !in s.ended && k == ClientKey(r)
    ensures Reaches(c, s, s') && s'.now == s.now && s'.procs == s.procs[id := s.procs[id].(pc := Done(None))]
    ensures History(s', r.session) == History(s, r.session) + [Message(User, r.text), Message(Assistant, partial)]
    ensures Committed(s', k) == Committed(s, k) + [partial]
    ensures LockKey(r) !in s'.rows && Response(s', k) == Some(partial)
  {
    assert k in s.rows by { assert ProcOk(c, s, id, s.procs[id]); }
    var s1 := PartialStored(c, s, id, partial);
    s' := KeyThenLock(c, s1, id, partial);
    Onward(c, s, s1, s');
    PartialKept(s, s1, s', id, r, k, partial);
  }

  lemma PartialCommit(c: Config, s: State, r: Request, base: seq<Message>, partial: string)
    requires r.key.Some? && r.session !in s.ended
    ensures var s1 := PersistTx(c, s, r, base, partial, false);
            && History(s1, r.session) == History(s, r.session) + [Message(User, r.text), Message(Assistant, partial)]
            && Committed(s1, ClientKey(r)) == Committed(s, ClientKey(r)) + [partial]
            && s1.rows == s.rows && s1.procs == s.procs
  {
  }

  /** A stream that breaks off after some sentences: what was heard is stored as the turn, the request
      ends without an answer, and every later request under its key is told the partial reply. */
  lemma BrokenStreamIsReplayed(c: Config, s: State, id: nat, partial: string, again: nat)
    returns (s': State, s2: State)
    requires Reachable(c, s) && Enabled(s, LlmReplies(id, partial, false)) && again !in s.procs
    requires s.procs[id].req.key.Some? && s.procs[id].req.session !in s.ended
    ensures var r := s.procs[id].req;
            && Reaches(c, s, s') && s'.now == s.now
            && s'.procs == s.procs[id := s.procs[id].(pc := Done(None))]
            && History(s', r.session) == History(s, r.session) + [Message(User, r.text), Message(Assistant, partial)]
            && Committed(s', ClientKey(r)) == Committed(s, ClientKey(r)) + [partial]
            && LockKey(r) !in s'.rows
            && Reaches(c, s', s2) && again in s2.procs && s2.procs[again].pc == Done(Some(partial))
  {
    var r := s.procs[id].req;
    ReachableInv(c, s);
    s' := PartialTurn(c, s, id, r, ClientKey(r), partial);
    s2 := CompletedKeyIsReplayed(c, s', again, r, partial);
    assert IsRun(c, s', [Arrive(again, r), LookUp(again)], s2);
  }

  // ----- A key whose request went away -----

  /** The key k was claimed at the instant t by a request that is gone, and has no response. */
  ghost predicate Orphaned(s: State, k: Key, t: int) {
    && k in s.rows && s.rows[k] == Row(None, t)
    && forall id :: id in s.procs && UnderKey(s.procs[id].req, k) ==> !HoldsKey(s.procs[id].pc)
  }

  lemma OrphanedRow(s: State, a: Action, k: Key, t: int)
    requires Enabled(s, a) && k.Client? && Orphaned(s, k, t) && s.now <= t + 120
    ensures k in RowsAfter(s, a) && RowsAfter(s, a)[k] == s.rows[k]
  {
    assert a.CompleteKey? || a.ReleaseKey? ==> !UnderKey(s.procs[a.id].req, k);
  }

  /** Nobody comes to hold a key that cannot be claimed. */
  lemma NextHoldsKey(c: Config, s: State, a: Action, k: Key)
    requires Enabled(s, a) && ByRequest(a) && UnderKey(s.procs[a.id].req, k)
    requires !HoldsKey(s.procs[a.id].pc) && !Claimable(s.rows, k, s.now - 120)
    ensures !HoldsKey(Settle(NextPc(c, s, a)))
  {
  }

  lemma OrphanedHolds(c: Config, s: State, a: Action, k: Key, t: int, id: nat)
    requires Enabled(s, a) && k.Client? && Orphaned(s, k, t) && s.now <= t + 120
    requires id in Apply(c, s, a).procs && UnderKey(Apply(c, s, a).procs[id].req, k)
    ensures !HoldsKey(Apply(c, s, a).procs[id].pc)
  {
    if ByRequest(a) {
      StepProcs(c, s, a);
      if id == a.id { NextHoldsKey(c, s, a, k); }
    }
  }

  lemma OrphanedStep(c: Config, s: State, a: Action, k: Key, t: int)
    requires Enabled(s, a) && k.Client? && Orphaned(s, k, t) && s.now <= t + 120
    ensures Orphaned(Apply(c, s, a), k, t) && Committed(Apply(c, s, a), k) == Committed(s, k)
  {
    OrphanedRow(s, a, k, t);
    var s' := StepRows(c, s, a);
    StepCommits(c, s, a, k);
    forall id | id in s'.procs && UnderKey(s'.procs[id].req, k) ensures !HoldsKey(s'.procs[id].pc) {
      OrphanedHolds(c, s, a, k, t, id);
    }
  }

  /** Where a request can stand that came under an orphaned key: waiting, refused or dead. */
  predicate Refusable(pc: Pc) {
    pc.Arrived? || pc.Claiming? || pc.Rereading? || pc.Crashed? || pc == Done(None)
  }

  ghost predicate AllRefused(s: State, k: Key, known: set<nat>) {
    forall id :: id in s.procs && id !in known && UnderKey(s.procs[id].req, k) ==> Refusable(s.procs[id].pc)
  }

  lemma RefusedNext(c: Config, s: State, a: Action, k: Key)
    requires Enabled(s, a) && ByRequest(a) && UnderKey(s.procs[a.id].req, k) && Refusable(s.procs[a.id].pc)
    requires Response(s, k).None? && !Claimable(s.rows, k, s.now - 120)
    ensures Refusable(Settle(NextPc(c, s, a)))
  {
  }

  lemma RefusedMove(s: State, s': State, id: nat, k: Key, known: set<nat>)
    requires AllRefused(s, k, known) && id in s.procs && s'.procs.Keys == s.procs.Keys
    requires forall i :: i in s.procs && i != id ==> s'.procs[i] == s.procs[i]
    requires s'.procs[id].req == s.procs[id].req
    requires id !in known && UnderKey(s.procs[id].req, k) ==> Refusable(s'.procs[id].pc)
    ensures AllRefused(s', k, known)
  {
  }

  lemma RefusedOther(c: Config, s: State, a: Action, k: Key, known: set<nat>)
    requires Enabled(s, a) && !ByRequest(a) && AllRefused(s, k, known)
    ensures AllRefused(Apply(c, s, a), k, known)
  {
  }

  lemma RefusedStep(c: Config, s: State, a: Action, k: Key, known: set<nat>)
    requires Enabled(s, a) && AllRefused(s, k, known)
    requires Response(s, k).None? && !Claimable(s.rows, k, s.now - 120)
    ensures AllRefused(Apply(c, s, a), k, known)
  {
    if ByRequest(a) {
      StepProcs(c, s, a);
      if a.id !in known && UnderKey(s.procs[a.id].req, k) { RefusedNext(c, s, a, k); }
      RefusedMove(s, Apply(c, s, a), a.id, k, known);
    } else {
      RefusedOther(c, s, a, k, known);
    }
  }

  lemma {:induction false} OrphanedRun(
      c: Config, s: State, actions: seq<Action>, s': State, k: Key, t: int, known: set<nat>)
    requires IsRun(c, s, actions, s') && k.Client? && Orphaned(s, k, t) && AllRefused(s, k, known)
    requires s'.now <= t + 120
    ensures Orphaned(s', k, t) && Committed(s', k) == Committed(s, k) && AllRefused(s', k, known)
    decreases |actions|
  {
    if actions == [] {
    } else {
      ClockRuns(c, s, actions, s');
      OrphanedStep(c, s, actions[0], k, t);
      RefusedStep(c, s, actions[0], k, known);
      OrphanedRun(c, Apply(c, s, actions[0]), actions[1..], s', k, t, known);
    }
  }

  /** The step after which a request no longer holds its key, although the row is still pending: the
      client went away from a turn in progress, a delivered stream could not be stored, or the request
      crashed. */
  predicate LeavesKey(s: State, a: Action) {
    Enabled(s, a) &&
    match a
    case Disconnect(id) => s.procs[id].req.key.Some? && !(s.procs[id].req.streaming && s.procs[id].pc.Preparing?)
    case PersistFails(id) => s.procs[id].req.key.Some? && s.procs[id].req.streaming && s.procs[id].pc.ok
    case Crash(id) => s.procs[id].req.key.Some? && HoldsKey(s.procs[id].pc)
    case _ => false
  }

  lemma LeavingHolds(c: Config, s: State, a: Action, id: nat)
    requires Inv(c, s) && LeavesKey(s, a) && id in s.procs && UnderKey(s.procs[id].req, ClientKey(s.procs[a.id].req))
    ensures id != a.id ==> !HoldsKey(s.procs[id].pc)
    ensures !HoldsKey(Settle(NextPc(c, s, a)))
  {
    assert ProcOk(c, s, a.id, s.procs[a.id]);
    assert ProcOk(c, s, id, s.procs[id]);
  }

  lemma LeavingRow(c: Config, s: State, a: Action)
    requires Inv(c, s) && LeavesKey(s, a)
    ensures var k := ClientKey(s.procs[a.id].req); k in s.rows && s.rows[k] == Row(None, s.procs[a.id].keyAt)
    ensures RowsAfter(s, a) == s.rows && Committed(Apply(c, s, a), ClientKey(s.procs[a.id].req)) ==
              Committed(s, ClientKey(s.procs[a.id].req))
  {
    assert ProcOk(c, s, a.id, s.procs[a.id]);
    StepCommits(c, s, a, ClientKey(s.procs[a.id].req));
  }

  lemma LeavingOrphans(c: Config, s: State, a: Action)
    requires Inv(c, s) && LeavesKey(s, a)
    ensures var s1, k := Apply(c, s, a), ClientKey(s.procs[a.id].req);
            Orphaned(s1, k, s.procs[a.id].keyAt) && s1.now == s.now && Committed(s1, k) == Committed(s, k)
  {
    var k := ClientKey(s.procs[a.id].req);
    LeavingRow(c, s, a);
    StepProcs(c, s, a);
    var s1 := StepRows(c, s, a);
    forall id | id in s1.procs && UnderKey(s1.procs[id].req, k) ensures !HoldsKey(s1.procs[id].pc) {
      LeavingHolds(c, s, a, id);
    }
  }

  lemma OrphanedUntil(c: Config, s: State, a: Action, actions: seq<Action>, s': State, k: Key)
    requires Reachable(c, s) && LeavesKey(s, a) && k == ClientKey(s.procs[a.id].req)
    requires IsRun(c, Apply(c, s, a), actions, s') && s'.now <= s.procs[a.id].keyAt + 120
    ensures Committed(s', k) == Committed(s, k) && Response(s', k).None? && AllRefused(s', k, s.procs.Keys)
  {
    ReachableInv(c, s);
    LeavingOrphans(c, s, a);
    StepProcs(c, s, a);
    OrphanedRun(c, Apply(c, s, a), actions, s', k, s.procs[a.id].keyAt, s.procs.Keys);
  }

  lemma StillReachable(c: Config, s: State, a: Action, actions: seq<Action>, s': State)
    requires Reachable(c, s) && Enabled(s, a) && IsRun(c, Apply(c, s, a), actions, s')
    ensures Reachable(c, s')
  {
    OneStep(c, s, a);
    Onward(c, Initial, s, Apply(c, s, a));
    Onward(c, Initial, Apply(c, s, a), s');
  }

  /** A key whose request went away stays closed for 120 s from its claim, and no longer: until then no
      run commits anything under it or answers a later request, and when the time is over a retry can
      be answered, if the user has a session open then. */
  lemma OrphanedKeyWaits(c: Config, s: State, a: Action, actions: seq<Action>, s': State, r: Request, reply: string)
    returns (s2: State, again: nat)
    requires Reachable(c, s) && LeavesKey(s, a)
    requires IsRun(c, Apply(c, s, a), actions, s') && s'.now <= s.procs[a.id].keyAt + 120
    requires r.key.Some? && ClientKey(r) == ClientKey(s.procs[a.id].req) && OpenFor(c, s', r.user, r.session)
    ensures Committed(s', ClientKey(r)) == Committed(s, ClientKey(r)) && Response(s', ClientKey(r)).None?
    ensures forall id, x :: !AnsweredLate(s, s', ClientKey(r), id, x)
    ensures Reaches(c, s', s2) && AnsweredLate(s', s2, ClientKey(r), again, reply)
    ensures Committed(s2, ClientKey(r)) == Committed(s, ClientKey(r)) + [reply]
  {
    OrphanedUntil(c, s, a, actions, s', ClientKey(r));
    StillReachable(c, s, a, actions, s');
    s2, again := RetryCommits(c, s', r, reply, false);
    UnpurgedReaches(c, s', s2, ClientKey(r));
  }
}
