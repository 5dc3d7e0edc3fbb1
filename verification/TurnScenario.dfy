/** A run of the turn protocol that can always happen: an unopposed request commits its turn. */
module TurnScenario {
  import opened Options
  import opened IdempotencyTable
  import opened TurnProtocol

  lemma {:induction false} RunSnoc(c: Config, s: State, actions: seq<Action>, s1: State, a: Action)
    requires IsRun(c, s, actions, s1) && Enabled(s1, a)
    ensures IsRun(c, s, actions + [a], Apply(c, s1, a))
    decreases |actions|
  {
    if actions == [] {
      assert actions + [a] == [a] && [a][1..] == [];
    } else {
      assert (actions + [a])[1..] == actions[1..] + [a];
      RunSnoc(c, Apply(c, s, actions[0]), actions[1..], s1, a);
    }
  }

  lemma Reach(c: Config, o: State, s: State, a: Action) returns (s': State)
    requires ReachesUnpurged(c, o, s) && Enabled(s, a) && !a.Purge?
    ensures s' == Apply(c, s, a) && ReachesUnpurged(c, o, s')
  {
    var actions :| IsRun(c, o, actions, s) && Unpurged(actions);
    RunSnoc(c, o, actions, s, a);
    assert Unpurged(actions + [a]);
    s' := Apply(c, s, a);
  }

  /** Nothing stands in the way of request r under a new number. */
  predicate Free(c: Config, s: State, id: nat, r: Request) {
    && id !in s.procs
    && (r.key.Some? ==> Claimable(s.rows, ClientKey(r), StaleBefore(s.now)))
    && Claimable(s.rows, LockKey(r), StaleBefore(s.now))
    && r.session in c.owner && c.owner[r.session] == r.user && r.session !in s.ended
  }

  function At(s: State, id: nat, p: Proc): State { s.(procs := s.procs[id := p]) }

  lemma AtAgain(s: State, id: nat, p: Proc, p': Proc)
    ensures At(At(s, id, p), id, p') == At(s, id, p')
  {
    assert s.procs[id := p][id := p'] == s.procs[id := p'];
  }

  lemma ArriveAndLookUp(c: Config, o: State, s: State, id: nat, r: Request)
    requires ReachesUnpurged(c, o, s) && id !in s.procs && r.key.Some? && Response(s, ClientKey(r)).None?
    ensures ReachesUnpurged(c, o, At(s, id, Proc(r, Claiming, 0, 0)))
  {
    var s1 := Reach(c, o, s, Arrive(id, r));
    var s2 := Reach(c, o, s1, LookUp(id));
    AtAgain(s, id, Proc(r, Arrived, 0, 0), Proc(r, Claiming, 0, 0));
  }

  lemma WinKey(c: Config, o: State, s: State, id: nat, r: Request)
    requires ReachesUnpurged(c, o, At(s, id, Proc(r, Claiming, 0, 0))) && r.key.Some?
    requires Claimable(s.rows, ClientKey(r), StaleBefore(s.now))
    ensures ReachesUnpurged(c, o, At(ClaimRow(s, ClientKey(r), id), id, Proc(r, Locking, s.now, 0)))
  {
    var s1 := Reach(c, o, At(s, id, Proc(r, Claiming, 0, 0)), ClaimKey(id));
    AtAgain(s, id, Proc(r, Claiming, 0, 0), Proc(r, Locking, s.now, 0));
    assert s1.procs == s.procs[id := Proc(r, Locking, s.now, 0)];
  }

  /** The state in which r, past the key, is about to ask for the lock. */
  function Entered(s: State, id: nat, r: Request): State {
    if r.key.Some? then ClaimRow(s, ClientKey(r), id) else s
  }

  function KeyAt(s: State, r: Request): int { if r.key.Some? then s.now else 0 }

  lemma Enter(c: Config, o: State, s: State, id: nat, r: Request)
    requires ReachesUnpurged(c, o, s) && id !in s.procs
    requires r.key.Some? ==> Claimable(s.rows, ClientKey(r), StaleBefore(s.now))
    ensures ReachesUnpurged(c, o, At(Entered(s, id, r), id, Proc(r, Locking, KeyAt(s, r), 0)))
  {
    if r.key.Some? {
      ArriveAndLookUp(c, o, s, id, r);
      WinKey(c, o, s, id, r);
    } else {
      var s1 := Reach(c, o, s, Arrive(id, r));
    }
  }

  lemma WinLock(c: Config, o: State, s: State, id: nat, r: Request, keyAt: int)
    requires ReachesUnpurged(c, o, At(s, id, Proc(r, Locking, keyAt, 0)))
    requires Claimable(s.rows, LockKey(r), StaleBefore(s.now))
    ensures ReachesUnpurged(c, o, At(ClaimRow(s, LockKey(r), id), id, Proc(r, Preparing, keyAt, s.now)))
  {
    var s1 := Reach(c, o, At(s, id, Proc(r, Locking, keyAt, 0)), AcquireLock(id));
    assert s1.procs == s.procs[id := Proc(r, Preparing, keyAt, s.now)];
  }

  lemma PrepareAndReply(c: Config, o: State, s: State, id: nat, r: Request, keyAt: int, lockAt: int, reply: string)
    requires ReachesUnpurged(c, o, At(s, id, Proc(r, Preparing, keyAt, lockAt)))
    requires r.session in c.owner && c.owner[r.session] == r.user && r.session !in s.ended
    ensures ReachesUnpurged(c, o, At(s, id, Proc(r, Persisting(Transcript(s, r.session), reply, true), keyAt, lockAt)))
  {
    var base := Transcript(s, r.session);
    var s1 := Reach(c, o, At(s, id, Proc(r, Preparing, keyAt, lockAt)), Prepare(id, false));
    assert s1 == At(s, id, Proc(r, Thinking(base, PromptWindow(c, base, r.text)), keyAt, lockAt)) by {
      AtAgain(s, id, Proc(r, Preparing, keyAt, lockAt), s1.procs[id]);
    }
    var s2 := Reach(c, o, s1, LlmReplies(id, reply, true));
    AtAgain(s, id, s1.procs[id], s2.procs[id]);
  }

  lemma CommitPair(c: Config, o: State, s: State, id: nat, r: Request, keyAt: int, lockAt: int, reply: string)
    requires ReachesUnpurged(c, o, At(s, id, Proc(r, Persisting(Transcript(s, r.session), reply, true), keyAt, lockAt)))
    requires r.session !in s.ended
    ensures ReachesUnpurged(c, o, At(PersistTx(c, s, r, Transcript(s, r.session), reply, false), id,
                                     Proc(r, Finishing(reply, true, true, r.key.Some?), keyAt, lockAt)))
  {
    var base := Transcript(s, r.session);
    var p := Proc(r, Persisting(base, reply, true), keyAt, lockAt);
    var s1 := Reach(c, o, At(s, id, p), Persist(id, false));
    var s2 := PersistTx(c, s, r, base, reply, false);
    assert PersistTx(c, At(s, id, p), r, base, reply, false) == At(s2, id, p);
    AtAgain(s2, id, p, Proc(r, Finishing(reply, true, true, r.key.Some?), keyAt, lockAt));
  }

  /** The reply is out; the key, if any, is completed, or the write that should do it fails. */
  function KeyFinished(s: State, r: Request, reply: string, fails: bool): State {
    if r.key.None? then s
    else if fails then Uncompleted(s, r)
    else s.(rows := AfterComplete(s.rows, ClientKey(r), reply))
  }

  /** Whether the reply is sent: /turn does not send it when completing its key fails. */
  predicate Answers(r: Request, fails: bool) { r.key.Some? && fails ==> r.streaming }

  lemma FinishKey(
      c: Config, o: State, s: State, id: nat, r: Request, keyAt: int, lockAt: int, reply: string, fails: bool)
    requires ReachesUnpurged(c, o, At(s, id, Proc(r, Finishing(reply, true, true, r.key.Some?), keyAt, lockAt)))
    ensures ReachesUnpurged(c, o, At(KeyFinished(s, r, reply, fails), id,
                                     Proc(r, Finishing(reply, Answers(r, fails), true, false), keyAt, lockAt)))
  {
    if r.key.Some? {
      var p := Proc(r, Finishing(reply, true, true, true), keyAt, lockAt);
      var p' := Proc(r, Finishing(reply, Answers(r, fails), true, false), keyAt, lockAt);
      var s1 := Reach(c, o, At(s, id, p), CompleteKey(id, fails));
      AtAgain(KeyFinished(s, r, reply, fails), id, p, p');
    }
  }

  function Answer(reply: string, ok: bool): Option<string> { if ok then Some(reply) else None }

  lemma FinishLock(c: Config, o: State, s: State, id: nat, r: Request, keyAt: int, lockAt: int, reply: string, ok: bool)
    requires ReachesUnpurged(c, o, At(s, id, Proc(r, Finishing(reply, ok, true, false), keyAt, lockAt)))
    ensures ReachesUnpurged(c, o, At(s.(rows := s.rows - {LockKey(r)}), id,
                                     Proc(r, Done(Answer(reply, ok)), keyAt, lockAt)))
  {
    var p := Proc(r, Finishing(reply, ok, true, false), keyAt, lockAt);
    var s1 := Reach(c, o, At(s, id, p), ReleaseLock(id, false));
    AtAgain(s.(rows := s.rows - {LockKey(r)}), id, p, Proc(r, Done(Answer(reply, ok)), keyAt, lockAt));
  }

  /** The state once request r has been served without interference. */
  function AfterTurn(c: Config, s: State, id: nat, r: Request, reply: string, fails: bool): State {
    var s1 := ClaimRow(Entered(s, id, r), LockKey(r), id);
    var s2 := PersistTx(c, s1, r, Transcript(s1, r.session), reply, false);
    var s3 := KeyFinished(s2, r, reply, fails);
    At(s3.(rows := s3.rows - {LockKey(r)}), id, Proc(r, Done(Answer(reply, Answers(r, fails))), KeyAt(s, r), s.now))
  }

  lemma AfterTurnReached(c: Config, o: State, s: State, id: nat, r: Request, reply: string, fails: bool)
    requires ReachesUnpurged(c, o, s) && Free(c, s, id, r)
    ensures ReachesUnpurged(c, o, AfterTurn(c, s, id, r, reply, fails))
  {
    var s1, keyAt := Entered(s, id, r), KeyAt(s, r);
    Enter(c, o, s, id, r);
    WinLock(c, o, s1, id, r, keyAt);
    var s2 := ClaimRow(s1, LockKey(r), id);
    PrepareAndReply(c, o, s2, id, r, keyAt, s.now, reply);
    CommitPair(c, o, s2, id, r, keyAt, s.now, reply);
    var s3 := PersistTx(c, s2, r, Transcript(s2, r.session), reply, false);
    FinishKey(c, o, s3, id, r, keyAt, s.now, reply, fails);
    FinishLock(c, o, KeyFinished(s3, r, reply, fails), id, r, keyAt, s.now, reply, Answers(r, fails));
  }

  /** s' is s after request id has committed its own turn and nothing else, been answered and freed
      its lock; its key, if any, is completed, unless that write failed. */
  predicate Served(s: State, s': State, id: nat, r: Request, reply: string, fails: bool) {
    && (r.key.Some? ==> ServedKey(s, s', ClientKey(r), reply, fails))
    && (r.key.None? ==> s'.committed == s.committed && s'.uncompleted == s.uncompleted)
    && History(s', r.session) == History(s, r.session) + [Message(User, r.text), Message(Assistant, reply)]
    && LockKey(r) !in s'.rows
    && s'.procs == s.procs[id := Proc(r, Done(Answer(reply, Answers(r, fails))), KeyAt(s, r), s.now)]
    && s'.now == s.now && s'.ended == s.ended
  }

  predicate ServedKey(s: State, s': State, k: Key, reply: string, fails: bool) {
    && Committed(s', k) == Committed(s, k) + [reply]
    && Response(s', k) == (if fails then None else Some(reply))
    && s'.uncompleted == (if fails then s.uncompleted + {k} else s.uncompleted)
  }

  lemma AfterTurnKey(c: Config, s: State, id: nat, r: Request, reply: string, fails: bool)
    requires Free(c, s, id, r) && r.key.Some?
    ensures ServedKey(s, AfterTurn(c, s, id, r, reply, fails), ClientKey(r), reply, fails)
  {
  }

  lemma AfterTurnServed(c: Config, s: State, id: nat, r: Request, reply: string, fails: bool)
    requires Free(c, s, id, r)
    ensures Served(s, AfterTurn(c, s, id, r, reply, fails), id, r, reply, fails)
  {
    if r.key.Some? { AfterTurnKey(c, s, id, r, reply, fails); }
  }

  /** No request is refused without a reason: one that finds its key, if it has one, and its lock
      free and its session open can run to its answer, whatever happened since the state o. */
  lemma UnopposedTurn(c: Config, o: State, s: State, id: nat, r: Request, reply: string, fails: bool)
    returns (s': State)
    requires ReachesUnpurged(c, o, s) && Free(c, s, id, r)
    ensures ReachesUnpurged(c, o, s') && Served(s, s', id, r, reply, fails)
  {
    AfterTurnReached(c, o, s, id, r, reply, fails);
    AfterTurnServed(c, s, id, r, reply, fails);
    s' := AfterTurn(c, s, id, r, reply, fails);
  }
}
