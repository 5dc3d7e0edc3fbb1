/** What a key with a response promises, and what one without allows: the exact conditions for
    one effect and one answer per idempotency key. */
module TurnRetry {
  import opened Options
  import opened IdempotencyTable
  import opened TurnProtocol
  import opened TurnSafety
  import opened TurnTheorems
  import opened TurnScenario

  // ----- Runs that leave the row of a key alone -----

  /** No purge of the run removes the row of k. */
  ghost predicate Spares(c: Config, s: State, actions: seq<Action>, k: Key)
    decreases |actions|
  {
    actions != [] && Enabled(s, actions[0]) ==>
      && (actions[0].Purge? && k in s.rows ==> !Purged(s.rows[k], s.now))
      && Spares(c, Apply(c, s, actions[0]), actions[1..], k)
  }

  /** Some run that spares k leads from s to s'. */
  ghost predicate ReachesSparing(c: Config, s: State, s': State, k: Key) {
    exists actions :: IsRun(c, s, actions, s') && Spares(c, s, actions, k)
  }

  lemma {:induction false} UnpurgedSpares(c: Config, s: State, actions: seq<Action>, k: Key)
    requires Unpurged(actions)
    ensures Spares(c, s, actions, k)
    decreases |actions|
  {
    if actions == [] {
    } else if Enabled(s, actions[0]) {
      UnpurgedSpares(c, Apply(c, s, actions[0]), actions[1..], k);
    }
  }

  lemma UnpurgedReaches(c: Config, s: State, s': State, k: Key)
    requires ReachesUnpurged(c, s, s')
    ensures Reaches(c, s, s') && ReachesSparing(c, s, s', k)
  {
    var actions :| IsRun(c, s, actions, s') && Unpurged(actions);
    UnpurgedSpares(c, s, actions, k);
  }

  lemma Stay(c: Config, s: State)
    ensures Reaches(c, s, s) && ReachesUnpurged(c, s, s)
  {
    var none: seq<Action> := [];
    assert IsRun(c, s, none, s) && Unpurged(none);
  }

  lemma {:induction false} RunConcat(
      c: Config, s: State, first: seq<Action>, s1: State, second: seq<Action>, s2: State)
    requires IsRun(c, s, first, s1) && IsRun(c, s1, second, s2)
    ensures IsRun(c, s, first + second, s2)
    decreases |first|
  {
    if first == [] {
      assert first + second == second;
    } else {
      assert (first + second)[1..] == first[1..] + second;
      RunConcat(c, Apply(c, s, first[0]), first[1..], s1, second, s2);
    }
  }

  lemma Onward(c: Config, s: State, s1: State, s2: State)
    requires Reaches(c, s, s1) && Reaches(c, s1, s2)
    ensures Reaches(c, s, s2)
  {
    var first :| IsRun(c, s, first, s1);
    var second :| IsRun(c, s1, second, s2);
    RunConcat(c, s, first, s1, second, s2);
  }

  lemma OneStep(c: Config, s: State, a: Action)
    requires Enabled(s, a)
    ensures Reaches(c, s, Apply(c, s, a))
  {
    assert [a][1..] == [];
    assert IsRun(c, s, [a], Apply(c, s, a));
  }

  // ----- A key with a response is sealed -----

  /** Who holds a key has not completed it yet. */
  lemma SealedIsUnheld(c: Config, s: State, k: Key, id: nat)
    requires Inv(c, s) && k.Client? && Response(s, k).Some? && id in s.procs
    ensures s.procs[id].req.key.Some? && HoldsKey(s.procs[id].pc) ==> ClientKey(s.procs[id].req) != k
  {
    assert ProcOk(c, s, id, s.procs[id]);
  }

  lemma SealedRow(s: State, a: Action, k: Key)
    requires Enabled(s, a) && k.Client? && Response(s, k).Some?
    requires a.CompleteKey? || a.ReleaseKey? ==> ClientKey(s.procs[a.id].req) != k
    requires a.Purge? ==> !Purged(s.rows[k], s.now)
    ensures k in RowsAfter(s, a) && RowsAfter(s, a)[k] == s.rows[k]
  {
  }

  /** Only persisting under a key commits under it. */
  lemma StepCommits(c: Config, s: State, a: Action, k: Key)
    requires Enabled(s, a)
    requires a.Persist? ==> s.procs[a.id].req.key.None? || ClientKey(s.procs[a.id].req) != k
    ensures Committed(Apply(c, s, a), k) == Committed(s, k)
  {
  }

  /** The row of k and what was committed under it are the same in s and s'. */
  predicate SameKey(s: State, s': State, k: Key) {
    k in s.rows && k in s'.rows && s'.rows[k] == s.rows[k] && Committed(s', k) == Committed(s, k)
  }

  lemma SealedStep(c: Config, s: State, a: Action, k: Key)
    requires Inv(c, s) && Enabled(s, a) && k.Client? && Response(s, k).Some?
    requires a.Purge? ==> !Purged(s.rows[k], s.now)
    ensures SameKey(s, Apply(c, s, a), k)
  {
    if a.Persist? || a.CompleteKey? || a.ReleaseKey? { SealedIsUnheld(c, s, k, a.id); }
    SealedRow(s, a, k);
    StepCommits(c, s, a, k);
    var s' := StepRows(c, s, a);
  }

  lemma {:induction false} SealedRun(c: Config, s: State, actions: seq<Action>, s': State, k: Key)
    requires Inv(c, s) && IsRun(c, s, actions, s') && Spares(c, s, actions, k)
    requires k.Client? && Response(s, k).Some?
    ensures SameKey(s, s', k)
    decreases |actions|
  {
    if actions == [] {
    } else {
      SealedStep(c, s, actions[0], k);
      EveryStep(c, s, actions[0]);
      SealedRun(c, Apply(c, s, actions[0]), actions[1..], s', k);
    }
  }

  lemma {:induction false} SparedForADay(c: Config, s: State, actions: seq<Action>, s': State, k: Key)
    requires Inv(c, s) && IsRun(c, s, actions, s') && k.Client? && Response(s, k).Some?
    requires s'.now <= s.rows[k].createdAt + KEY_TTL_SECONDS
    ensures s.now <= s'.now && Spares(c, s, actions, k)
    decreases |actions|
  {
    if actions == [] {
    } else {
      var s1 := StepRows(c, s, actions[0]);
      ClockRuns(c, s1, actions[1..], s');
      SealedStep(c, s, actions[0], k);
      EveryStep(c, s, actions[0]);
      SparedForADay(c, s1, actions[1..], s', k);
    }
  }

  lemma {:induction false} ClockRuns(c: Config, s: State, actions: seq<Action>, s': State)
    requires IsRun(c, s, actions, s')
    ensures s.now <= s'.now
    decreases |actions|
  {
    if actions == [] {
    } else {
      var s1 := StepRows(c, s, actions[0]);
      ClockRuns(c, s1, actions[1..], s');
    }
  }

  /** A completed key is safe for a day: until 24 hours after its claim no run changes its response
      or commits under it again, purges or not. */
  lemma CompletedKeyHoldsForADay(c: Config, s: State, actions: seq<Action>, s': State, k: Key)
    requires Reachable(c, s) && IsRun(c, s, actions, s') && k.Client? && Response(s, k).Some?
    requires s'.now <= s.rows[k].createdAt + 24 * 3600
    ensures Response(s', k) == Response(s, k) && Committed(s', k) == Committed(s, k)
  {
    ReachableInv(c, s);
    SparedForADay(c, s, actions, s', k);
    SealedRun(c, s, actions, s', k);
  }

  // ----- A key without one can be committed under once more -----

  lemma {:induction false} FreshId(ids: set<nat>) returns (id: nat)
    ensures id !in ids && forall i :: i in ids ==> i < id
    decreases |ids|
  {
    if ids == {} {
      id := 0;
    } else {
      var one :| one in ids;
      var other := FreshId(ids - {one});
      id := if one < other then other else one + 1;
      assert forall i :: i in ids ==> i == one || i in ids - {one};
    }
  }

  /** The requests `live` crash, one after another. */
  lemma {:induction false} CrashAll(c: Config, o: State, s: State, live: set<nat>) returns (s': State)
    requires ReachesUnpurged(c, o, s) && live <= s.procs.Keys
    ensures ReachesUnpurged(c, o, s') && s'.procs.Keys == s.procs.Keys
    ensures forall id :: id in live ==> s'.procs[id].pc.Crashed? || s'.procs[id].pc.Done?
    ensures forall id :: id in s.procs && id !in live ==> s'.procs[id] == s.procs[id]
    ensures s'.now == s.now && s'.rows == s.rows && s'.ended == s.ended && s'.committed == s.committed
    decreases |live|
  {
    if live == {} {
      s' := s;
    } else {
      var id :| id in live;
      s' := CrashAll(c, o, s, live - {id});
      if !s'.procs[id].pc.Done? { s' := Reach(c, o, s', Crash(id)); }
    }
  }

  /** Every request dies, and time passes. */
  lemma QuietLater(c: Config, s: State, dt: nat) returns (s': State)
    ensures ReachesUnpurged(c, s, s') && s'.procs.Keys == s.procs.Keys && s'.now == s.now + dt
    ensures s'.rows == s.rows && s'.ended == s.ended && s'.committed == s.committed
  {
    Stay(c, s);
    var s1 := CrashAll(c, s, s, s.procs.Keys);
    s' := Reach(c, s, s1, Tick(dt));
  }

  predicate OpenFor(c: Config, s: State, user: int, session: int) {
    session in c.owner && c.owner[session] == user && session !in s.ended
  }

  /** Request id, which was not there in s, has been answered x in s' under the key k. */
  predicate AnsweredLate(s: State, s': State, k: Key, id: nat, x: string) {
    id !in s.procs && id in s'.procs && UnderKey(s'.procs[id].req, k) && s'.procs[id].pc == Done(Some(x))
  }

  predicate UnderKey(r: Request, k: Key) { r.key.Some? && ClientKey(r) == k }

  lemma RetryCommits(c: Config, s: State, r: Request, reply: string, fails: bool) returns (s': State, id: nat)
    requires Reachable(c, s) && r.key.Some? && Response(s, ClientKey(r)).None? && OpenFor(c, s, r.user, r.session)
    ensures ReachesUnpurged(c, s, s') && Committed(s', ClientKey(r)) == Committed(s, ClientKey(r)) + [reply]
    ensures Response(s', ClientKey(r)) == (if fails then None else Some(reply)) && s'.ended == s.ended
    ensures Answers(r, fails) ==> AnsweredLate(s, s', ClientKey(r), id, reply)
  {
    ReachableInv(c, s);
    ReachableDated(c, s);
    var s1 := QuietLater(c, s, STALE_CLAIM_SECONDS + 1);
    id := FreshId(s1.procs.Keys);
    s' := UnopposedTurn(c, s, s1, id, r, reply, fails);
  }

  function AnyRequest(k: Key, session: int): Request
    requires k.Client?
  {
    Request(k.user, session, Some(k.key), false, "")
  }

  /** The exact condition for effect-once, on the database alone: while the key's user has a session
      open, a further commit under the key can happen in runs that do not purge its row if and only
      if the row holds no response. */
  lemma CommitsAgainIffNoResponse(c: Config, s: State, k: Key, session: int)
    requires Reachable(c, s) && k.Client? && OpenFor(c, s, k.user, session)
    ensures (exists s' :: ReachesSparing(c, s, s', k) && |Committed(s', k)| > |Committed(s, k)|) <==>
              Response(s, k).None?
  {
    if Response(s, k).None? {
      var s', id := RetryCommits(c, s, AnyRequest(k, session), "", false);
      UnpurgedReaches(c, s, s', k);
    } else {
      ReachableInv(c, s);
      forall s' | ReachesSparing(c, s, s', k) ensures Committed(s', k) == Committed(s, k) {
        var actions :| IsRun(c, s, actions, s') && Spares(c, s, actions, k);
        SealedRun(c, s, actions, s', k);
      }
    }
  }

  /** A day later, and after a purge, the row of k is gone. */
  lemma PurgedLater(c: Config, s: State, k: Key) returns (s': State)
    requires Reachable(c, s)
    ensures Reachable(c, s') && Reaches(c, s, s') && k !in s'.rows && s'.now == s.now + 24 * 3600 + 1
    ensures s'.ended == s.ended && s'.committed == s.committed
  {
    ReachableDated(c, s);
    var s1 := QuietLater(c, s, KEY_TTL_SECONDS + 1);
    UnpurgedReaches(c, s, s1, k);
    OneStep(c, s1, Purge);
    s' := Apply(c, s1, Purge);
    Onward(c, s, s1, s');
    Onward(c, Initial, s, s');
  }

  /** With the purge in the run there is no effect-once for good: from every reachable state, whatever
      the key's row holds, the key can commit once more while its user has a session open. */
  lemma PurgedKeyCommitsAgain(c: Config, s: State, r: Request, reply: string) returns (s': State)
    requires Reachable(c, s) && r.key.Some? && OpenFor(c, s, r.user, r.session)
    ensures Reaches(c, s, s') && Committed(s', ClientKey(r)) == Committed(s, ClientKey(r)) + [reply]
  {
    var s1 := PurgedLater(c, s, ClientKey(r));
    var id;
    s', id := RetryCommits(c, s1, r, reply, false);
    UnpurgedReaches(c, s1, s', ClientKey(r));
    Onward(c, s, s1, s');
  }

  /** Why effect-once sets apart keys whose completion failed: whenever a request with a key and an
      open session commits and the completing write fails, a retry of it can commit again. */
  lemma FailedCompletionCommitsTwice(c: Config, s: State, r: Request, first: string, second: string)
    returns (s': State)
    requires Reachable(c, s) && r.key.Some? && Response(s, ClientKey(r)).None? && OpenFor(c, s, r.user, r.session)
    ensures Reaches(c, s, s') && Committed(s', ClientKey(r)) == Committed(s, ClientKey(r)) + [first, second]
  {
    var k := ClientKey(r);
    var s1, i := RetryCommits(c, s, r, first, true);
    UnpurgedReaches(c, s, s1, k);
    Onward(c, Initial, s, s1);
    var j;
    s', j := RetryCommits(c, s1, r, second, false);
    UnpurgedReaches(c, s1, s', k);
    Onward(c, s, s1, s');
  }

  // ----- Answers -----

  /** Where a request can stand that came under a key whose row already held y. */
  predicate Replaying(pc: Pc, y: string) {
    pc.Arrived? || pc.Claiming? || pc.Rereading? || pc.Crashed? || (pc.Done? && pc.answer == Some(y))
  }

  /** Every request under k but those in `known` only ever replays y. */
  predicate AllReplay(s: State, k: Key, known: set<nat>, y: string) {
    forall id :: id in s.procs && id !in known && UnderKey(s.procs[id].req, k) ==> Replaying(s.procs[id].pc, y)
  }

  lemma ReplayNext(c: Config, s: State, a: Action, k: Key, y: string)
    requires Enabled(s, a) && ByRequest(a) && UnderKey(s.procs[a.id].req, k)
    requires Replaying(s.procs[a.id].pc, y) && Response(s, k) == Some(y)
    ensures Replaying(Settle(NextPc(c, s, a)), y)
  {
  }

  /** One request moves on, and all others stay where they are. */
  lemma ReplayMove(s: State, s': State, id: nat, k: Key, known: set<nat>, y: string)
    requires AllReplay(s, k, known, y) && id in s.procs && s'.procs.Keys == s.procs.Keys
    requires forall i :: i in s.procs && i != id ==> s'.procs[i] == s.procs[i]
    requires s'.procs[id].req == s.procs[id].req
    requires id !in known && UnderKey(s.procs[id].req, k) ==> Replaying(s'.procs[id].pc, y)
    ensures AllReplay(s', k, known, y)
  {
  }

  lemma ReplayOther(c: Config, s: State, a: Action, k: Key, known: set<nat>, y: string)
    requires Enabled(s, a) && !ByRequest(a) && AllReplay(s, k, known, y)
    ensures AllReplay(Apply(c, s, a), k, known, y)
  {
  }

  lemma ReplayStep(c: Config, s: State, a: Action, k: Key, known: set<nat>, y: string)
    requires Enabled(s, a) && Response(s, k) == Some(y) && AllReplay(s, k, known, y)
    ensures AllReplay(Apply(c, s, a), k, known, y)
  {
    if ByRequest(a) {
      StepProcs(c, s, a);
      if a.id !in known && UnderKey(s.procs[a.id].req, k) { ReplayNext(c, s, a, k, y); }
      ReplayMove(s, Apply(c, s, a), a.id, k, known, y);
    } else {
      ReplayOther(c, s, a, k, known, y);
    }
  }

  lemma {:induction false} ReplayRun(
      c: Config, s: State, actions: seq<Action>, s': State, k: Key, known: set<nat>, y: string)
    requires Inv(c, s) && IsRun(c, s, actions, s') && Spares(c, s, actions, k) && k.Client?
    requires Response(s, k) == Some(y) && AllReplay(s, k, known, y)
    ensures AllReplay(s', k, known, y)
    decreases |actions|
  {
    if actions == [] {
    } else {
      SealedStep(c, s, actions[0], k);
      EveryStep(c, s, actions[0]);
      ReplayStep(c, s, actions[0], k, known, y);
      ReplayRun(c, Apply(c, s, actions[0]), actions[1..], s', k, known, y);
    }
  }

  /** The exact condition for one answer per key: while the key's user has a session open, and in
      runs that do not purge its row, a later request can be answered x, which is not what the row
      holds, if and only if the row holds no response. */
  lemma AnsweredAnewIffNoResponse(c: Config, s: State, k: Key, session: int, x: string)
    requires Reachable(c, s) && k.Client? && OpenFor(c, s, k.user, session) && Response(s, k) != Some(x)
    ensures (exists s', id :: ReachesSparing(c, s, s', k) && AnsweredLate(s, s', k, id, x)) <==> Response(s, k).None?
  {
    if Response(s, k).None? {
      var s', id := RetryCommits(c, s, AnyRequest(k, session), x, false);
      UnpurgedReaches(c, s, s', k);
    } else {
      ReachableInv(c, s);
      forall s', id | ReachesSparing(c, s, s', k) ensures !AnsweredLate(s, s', k, id, x) {
        var actions :| IsRun(c, s, actions, s') && Spares(c, s, actions, k);
        ReplayRun(c, s, actions, s', k, s.procs.Keys, Response(s, k).value);
      }
    }
  }

  lemma PersistFailing(c: Config, s: State, id: nat) returns (s': State)
    requires Inv(c, s) && Enabled(s, PersistFails(id))
    requires s.procs[id].req.streaming && s.procs[id].pc.ok && s.procs[id].req.key.Some?
    ensures Reaches(c, s, s') && s'.rows == s.rows && s'.ended == s.ended
    ensures id in s'.procs && s'.procs[id].req == s.procs[id].req
    ensures s'.procs[id].pc == Abandoning(Some(s.procs[id].pc.reply))
  {
    OneStep(c, s, PersistFails(id));
    s' := Apply(c, s, PersistFails(id));
  }

  lemma LockReleasing(c: Config, s: State, id: nat) returns (s': State)
    requires Enabled(s, ReleaseLock(id, false)) && s.procs[id].pc.Abandoning?
    ensures Reaches(c, s, s') && s'.rows == s.rows - {LockKey(s.procs[id].req)} && s'.ended == s.ended
    ensures id in s'.procs && s'.procs[id].req == s.procs[id].req && s'.procs[id].pc == Done(s.procs[id].pc.answer)
  {
    OneStep(c, s, ReleaseLock(id, false));
    s' := Apply(c, s, ReleaseLock(id, false));
  }

  lemma UnsavedSteps(c: Config, s: State, id: nat) returns (s': State)
    requires Inv(c, s) && Enabled(s, PersistFails(id))
    requires s.procs[id].req.streaming && s.procs[id].pc.ok && s.procs[id].req.key.Some?
    ensures Reaches(c, s, s') && id in s'.procs && s'.procs[id].req == s.procs[id].req
    ensures s'.procs[id].pc == Done(Some(s.procs[id].pc.reply))
    ensures Response(s', ClientKey(s.procs[id].req)).None? && s'.ended == s.ended
  {
    assert ProcOk(c, s, id, s.procs[id]);
    var s1 := PersistFailing(c, s, id);
    s' := LockReleasing(c, s1, id);
    Onward(c, s, s1, s');
  }

  /** Why one answer per key sets apart replies that could not be saved: when persisting a delivered
      stream fails, its request is answered with the reply, and a later request under the same key
      can be answered with anything else. */
  lemma UnsavedReplyIsAnsweredAnew(c: Config, s: State, id: nat, x: string) returns (s': State, later: nat)
    requires Reachable(c, s) && Enabled(s, PersistFails(id))
    requires s.procs[id].req.streaming && s.procs[id].pc.ok && s.procs[id].req.key.Some?
    requires OpenFor(c, s, s.procs[id].req.user, s.procs[id].req.session)
    ensures Reaches(c, s, s') && id in s'.procs && later in s'.procs && later != id
    ensures s'.procs[id].pc == Done(Some(s.procs[id].pc.reply)) && s'.procs[later].pc == Done(Some(x))
    ensures s'.procs[later].req.key.Some? && ClientKey(s'.procs[later].req) == ClientKey(s.procs[id].req)
  {
    ReachableInv(c, s);
    var k := ClientKey(s.procs[id].req);
    var s1 := UnsavedSteps(c, s, id);
    Onward(c, Initial, s, s1);
    s', later := RetryCommits(c, s1, AnyRequest(k, s.procs[id].req.session), x, false);
    UnpurgedReaches(c, s1, s', k);
    Onward(c, s, s1, s');
    DoneStays(c, s1, s', id);
  }

  /** The turn of an ended session is lost for good: when the session ended while the reply was being
      made, the request can be answered and its key completed although nothing was stored, and for a
      day no retry under the key stores the turn either. */
  lemma EndedTurnIsLost(c: Config, s: State, id: nat) returns (s': State)
    requires Reachable(c, s) && Enabled(s, Persist(id, false)) && s.procs[id].pc.ok
    requires s.procs[id].req.key.Some? && s.procs[id].req.session in s.ended
    ensures Reaches(c, s, s') && s'.transcripts == s.transcripts && s'.committed == s.committed
    ensures id in s'.procs && s'.procs[id].pc == Done(Some(s.procs[id].pc.reply))
    ensures var k := ClientKey(s.procs[id].req);
            forall actions, s2 :: IsRun(c, s', actions, s2) && s2.now <= s.procs[id].keyAt + 24 * 3600 ==>
              Response(s2, k) == Some(s.procs[id].pc.reply) && Committed(s2, k) == Committed(s, k)
  {
    var k := ClientKey(s.procs[id].req);
    ReachableInv(c, s);
    assert ProcOk(c, s, id, s.procs[id]);
    s' := EndedTurnRun(c, s, id);
    Onward(c, Initial, s, s');
    forall actions, s2 | IsRun(c, s', actions, s2) && s2.now <= s.procs[id].keyAt + 24 * 3600
      ensures Response(s2, k) == Some(s.procs[id].pc.reply) && Committed(s2, k) == Committed(s, k)
    {
      CompletedKeyHoldsForADay(c, s', actions, s2, k);
    }
  }

  lemma EndedTurnRun(c: Config, s: State, id: nat) returns (s': State)
    requires Enabled(s, Persist(id, false)) && s.procs[id].pc.ok
    requires s.procs[id].req.key.Some? && s.procs[id].req.session in s.ended
    requires Claimed(s, ClientKey(s.procs[id].req), id, s.procs[id].keyAt)
    ensures Reaches(c, s, s') && SameStore(s, s')
    ensures id in s'.procs && s'.procs[id].pc == Done(Some(s.procs[id].pc.reply))
    ensures var k := ClientKey(s.procs[id].req);
            k in s'.rows && s'.rows[k] == Row(Some(s.procs[id].pc.reply), s.procs[id].keyAt)
  {
    var s1 := PersistLost(c, s, id);
    var s2 := KeyCompleting(c, s1, id);
    s' := LockFreeing(c, s2, id);
    Onward(c, s, s1, s2);
    Onward(c, s, s2, s');
  }

  lemma PersistLost(c: Config, s: State, id: nat) returns (s': State)
    requires Enabled(s, Persist(id, false)) && s.procs[id].pc.ok
    requires s.procs[id].req.key.Some? && s.procs[id].req.session in s.ended
    ensures Reaches(c, s, s') && SameStore(s, s') && s'.rows == s.rows
    ensures id in s'.procs && s'.procs[id].req == s.procs[id].req
    ensures s'.procs[id].pc == Finishing(s.procs[id].pc.reply, true, true, true)
  {
    OneStep(c, s, Persist(id, false));
    s' := Apply(c, s, Persist(id, false));
  }

  predicate SameStore(s: State, s': State) { s'.transcripts == s.transcripts && s'.committed == s.committed }

  lemma KeyCompleting(c: Config, s: State, id: nat) returns (s': State)
    requires Enabled(s, CompleteKey(id, false)) && s.procs[id].pc.ok && s.procs[id].pc.lock
    ensures Reaches(c, s, s') && SameStore(s, s')
    ensures s'.rows == AfterComplete(s.rows, ClientKey(s.procs[id].req), s.procs[id].pc.reply)
    ensures id in s'.procs && s'.procs[id].req == s.procs[id].req
    ensures s'.procs[id].pc == Finishing(s.procs[id].pc.reply, true, true, false)
  {
    OneStep(c, s, CompleteKey(id, false));
    s' := Apply(c, s, CompleteKey(id, false));
  }

  lemma LockFreeing(c: Config, s: State, id: nat) returns (s': State)
    requires id in s.procs && s.procs[id].pc.Finishing? && s.procs[id].pc.ok && s.procs[id].pc.lock
    requires !s.procs[id].pc.key
    ensures Reaches(c, s, s') && SameStore(s, s') && s'.rows == s.rows - {LockKey(s.procs[id].req)}
    ensures id in s'.procs && s'.procs[id].pc == Done(Some(s.procs[id].pc.reply))
  {
    OneStep(c, s, ReleaseLock(id, false));
    s' := Apply(c, s, ReleaseLock(id, false));
  }

  /** An answer given is given. */
  lemma DoneStays(c: Config, s: State, s': State, id: nat)
    requires Reaches(c, s, s') && id in s.procs && s.procs[id].pc.Done?
    ensures id in s'.procs && s'.procs[id] == s.procs[id]
  {
    var actions :| IsRun(c, s, actions, s');
    DoneRun(c, s, actions, s', id);
  }

  lemma {:induction false} DoneRun(c: Config, s: State, actions: seq<Action>, s': State, id: nat)
    requires IsRun(c, s, actions, s') && id in s.procs && s.procs[id].pc.Done?
    ensures id in s'.procs && s'.procs[id] == s.procs[id]
    decreases |actions|
  {
    if actions == [] {
    } else {
      if ByRequest(actions[0]) { StepProcs(c, s, actions[0]); }
      DoneRun(c, Apply(c, s, actions[0]), actions[1..], s', id);
    }
  }
}
