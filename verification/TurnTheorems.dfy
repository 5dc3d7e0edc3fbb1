/** Safety of whole runs of the turn protocol. */
module TurnTheorems {
  import opened Options
  import opened IdempotencyTable
  import opened TurnProtocol
  import opened TurnSafety

  lemma {:induction false} RunKeepsInv(c: Config, s: State, actions: seq<Action>, s': State)
    requires Inv(c, s) && IsRun(c, s, actions, s')
    ensures Inv(c, s')
    decreases |actions|
  {
    if actions == [] {
    } else {
      EveryStep(c, s, actions[0]);
      RunKeepsInv(c, Apply(c, s, actions[0]), actions[1..], s');
    }
  }

  /** The invariant holds in every state any interleaving can reach. */
  lemma ReachableInv(c: Config, s: State)
    requires Reachable(c, s)
    ensures Inv(c, s)
  {
    var actions :| IsRun(c, Initial, actions, s);
    assert Inv(c, Initial);
    RunKeepsInv(c, Initial, actions, s);
  }

  // ----- The turn lock -----

  /** Mutual exclusion: no two requests hold one session's turn lock. */
  lemma OneHolderPerLock(c: Config, s: State, i: nat, j: nat)
    requires Reachable(c, s) && i in s.procs && j in s.procs
    requires HoldsLock(s.procs[i].pc) && HoldsLock(s.procs[j].pc)
    requires LockKey(s.procs[i].req) == LockKey(s.procs[j].req)
    ensures i == j
  {
    ReachableInv(c, s);
    assert ProcOk(c, s, i, s.procs[i]) && ProcOk(c, s, j, s.procs[j]);
  }

  /** Although release and complete never look at the owner, a request only ever deletes or
      completes the row it claimed itself. */
  lemma OnlyHoldersTouchRows(c: Config, s: State, id: nat, fails: bool)
    requires Reachable(c, s) && id in s.procs
    ensures Enabled(s, ReleaseLock(id, fails)) ==> Claimed(s, LockKey(s.procs[id].req), id, s.procs[id].lockAt)
    ensures Enabled(s, ReleaseKey(id, fails)) || Enabled(s, CompleteKey(id, fails)) ==>
              Claimed(s, ClientKey(s.procs[id].req), id, s.procs[id].keyAt)
  {
    ReachableInv(c, s);
    assert ProcOk(c, s, id, s.procs[id]);
  }

  function Claim(s: State, k: Key): Rows {
    if Claimable(s.rows, k, StaleBefore(s.now)) then s.rows[k := Row(None, s.now)] else s.rows
  }

  /** The key table after one step. */
  function RowsAfter(s: State, a: Action): Rows
    requires Enabled(s, a)
  {
    match a
    case Purge => AfterPurge(s.rows, s.now)
    case ClaimKey(id) => Claim(s, ClientKey(s.procs[id].req))
    case AcquireLock(id) => Claim(s, LockKey(s.procs[id].req))
    case CompleteKey(id, fails) =>
      if fails then s.rows else AfterComplete(s.rows, ClientKey(s.procs[id].req), s.procs[id].pc.reply)
    case ReleaseLock(id, fails) => if fails then s.rows else s.rows - {LockKey(s.procs[id].req)}
    case ReleaseKey(id, fails) => if fails then s.rows else s.rows - {ClientKey(s.procs[id].req)}
    case _ => s.rows
  }

  lemma ClaimKeyRows(c: Config, s: State, id: nat)
    requires Enabled(s, ClaimKey(id))
    ensures Effect(c, s, ClaimKey(id)).rows == RowsAfter(s, ClaimKey(id))
  {
  }

  lemma AcquireLockRows(c: Config, s: State, id: nat)
    requires Enabled(s, AcquireLock(id))
    ensures Effect(c, s, AcquireLock(id)).rows == RowsAfter(s, AcquireLock(id))
  {
  }

  lemma CompleteKeyRows(c: Config, s: State, id: nat, fails: bool)
    requires Enabled(s, CompleteKey(id, fails))
    ensures Effect(c, s, CompleteKey(id, fails)).rows == RowsAfter(s, CompleteKey(id, fails))
  {
  }

  lemma ReleaseLockRows(c: Config, s: State, id: nat, fails: bool)
    requires Enabled(s, ReleaseLock(id, fails))
    ensures Effect(c, s, ReleaseLock(id, fails)).rows == RowsAfter(s, ReleaseLock(id, fails))
  {
  }

  lemma ReleaseKeyRows(c: Config, s: State, id: nat, fails: bool)
    requires Enabled(s, ReleaseKey(id, fails))
    ensures Effect(c, s, ReleaseKey(id, fails)).rows == RowsAfter(s, ReleaseKey(id, fails))
  {
  }

  predicate ChangesRows(a: Action) {
    a.Purge? || a.ClaimKey? || a.AcquireLock? || a.CompleteKey? || a.ReleaseLock? || a.ReleaseKey?
  }

  lemma OtherRows(c: Config, s: State, a: Action)
    requires Enabled(s, a) && !ChangesRows(a)
    ensures Effect(c, s, a).rows == s.rows
  {
  }

  lemma EffectRows(c: Config, s: State, a: Action)
    requires Enabled(s, a)
    ensures Effect(c, s, a).rows == RowsAfter(s, a)
  {
    match a
    case ClaimKey(id) => ClaimKeyRows(c, s, id);
    case AcquireLock(id) => AcquireLockRows(c, s, id);
    case CompleteKey(id, fails) => CompleteKeyRows(c, s, id, fails);
    case ReleaseLock(id, fails) => ReleaseLockRows(c, s, id, fails);
    case ReleaseKey(id, fails) => ReleaseKeyRows(c, s, id, fails);
    case Purge =>
    case _ => OtherRows(c, s, a);
  }

  lemma EffectProcs(c: Config, s: State, a: Action)
    requires Enabled(s, a) && ByRequest(a)
    ensures var procs := Effect(c, s, a).procs;
            && procs.Keys == s.procs.Keys && procs[a.id].req == s.procs[a.id].req
            && forall id :: id in s.procs && id != a.id ==> procs[id] == s.procs[id]
  {
    if !a.ClaimKey? && !a.AcquireLock? { OtherProcs(c, s, a); }
  }

  /** Only a claim notes anything in the request itself: its instant. */
  lemma OtherProcs(c: Config, s: State, a: Action)
    requires Enabled(s, a) && !a.ClaimKey? && !a.AcquireLock?
    ensures Effect(c, s, a).procs == s.procs
  {
  }

  lemma GotoProcs(s: State, id: nat, pc: Pc)
    requires id in s.procs
    ensures Goto(s, id, pc).procs == s.procs[id := s.procs[id].(pc := Settle(pc))]
  {
  }

  lemma ApplyIsGoto(c: Config, s: State, a: Action)
    requires Enabled(s, a) && ByRequest(a)
    ensures Apply(c, s, a) == Goto(Effect(c, s, a), a.id, NextPc(c, s, a))
  {
  }

  lemma StepProcs(c: Config, s: State, a: Action)
    requires Enabled(s, a) && ByRequest(a)
    ensures var s' := Apply(c, s, a);
            && s'.procs.Keys == s.procs.Keys && s'.procs[a.id].req == s.procs[a.id].req
            && s'.procs[a.id].pc == Settle(NextPc(c, s, a))
            && forall id :: id in s.procs && id != a.id ==> s'.procs[id] == s.procs[id]
  {
    EffectProcs(c, s, a);
    ApplyIsGoto(c, s, a);
    GotoProcs(Effect(c, s, a), a.id, NextPc(c, s, a));
  }

  /** Moving on, a request changes nothing but itself. */
  lemma StepEffect(c: Config, s: State, a: Action)
    requires Enabled(s, a)
    ensures Apply(c, s, a).rows == Effect(c, s, a).rows && Apply(c, s, a).committed == Effect(c, s, a).committed
    ensures Apply(c, s, a).now == if a.Tick? then s.now + a.dt else s.now
  {
    if ByRequest(a) { ApplyIsGoto(c, s, a); }
  }

  lemma StepRows(c: Config, s: State, a: Action) returns (s': State)
    requires Enabled(s, a)
    ensures s' == Apply(c, s, a) && s'.rows == RowsAfter(s, a) && s'.now == if a.Tick? then s.now + a.dt else s.now
  {
    StepEffect(c, s, a);
    EffectRows(c, s, a);
    s' := Apply(c, s, a);
  }

  /** A claim dates from the past. */
  predicate Dated(s: State) { AllDated(s.rows, s.now) }

  predicate AllDated(rows: Rows, now: int) {
    forall k :: k in rows ==> rows[k].createdAt <= now
  }

  lemma DatedRows(s: State, a: Action)
    requires Dated(s) && Enabled(s, a)
    ensures AllDated(RowsAfter(s, a), s.now)
  {
  }

  lemma DatedStep(c: Config, s: State, a: Action)
    requires Dated(s) && Enabled(s, a)
    ensures Dated(Apply(c, s, a))
  {
    DatedRows(s, a);
    var s' := StepRows(c, s, a);
  }

  lemma {:induction false} DatedRun(c: Config, s: State, actions: seq<Action>, s': State)
    requires Dated(s) && IsRun(c, s, actions, s')
    ensures Dated(s')
    decreases |actions|
  {
    if actions == [] {
    } else {
      DatedStep(c, s, actions[0]);
      DatedRun(c, Apply(c, s, actions[0]), actions[1..], s');
    }
  }

  lemma ReachableDated(c: Config, s: State)
    requires Reachable(c, s)
    ensures Dated(s)
  {
    var actions :| IsRun(c, Initial, actions, s);
    DatedRun(c, Initial, actions, s);
  }

  predicate HeldBy(s: State, k: Key, id: nat) {
    id in s.procs && HoldsLock(s.procs[id].pc) && LockKey(s.procs[id].req) == k
  }

  /** Nobody holds the lock k, and what is left of it dates from `since` at the latest. */
  ghost predicate Abandoned(s: State, k: Key, since: int) {
    && (forall id :: !HeldBy(s, k, id))
    && (k in s.rows ==> s.rows[k].createdAt <= since)
  }

  /** A request asks for the lock k and gets it. */
  predicate Gets(s: State, a: Action, k: Key) {
    && a.AcquireLock? && a.id in s.procs && LockKey(s.procs[a.id].req) == k
    && Claimable(s.rows, k, StaleBefore(s.now))
  }

  lemma AbandonedRow(s: State, a: Action, k: Key, since: int)
    requires Enabled(s, a) && k.TurnLock? && Abandoned(s, k, since) && !Gets(s, a, k)
    ensures k in RowsAfter(s, a) ==> k in s.rows && RowsAfter(s, a)[k] == s.rows[k]
  {
    assert a.ReleaseLock? ==> !HeldBy(s, k, a.id);
  }

  lemma AbandonedStep(c: Config, s: State, a: Action, k: Key, since: int)
    requires Enabled(s, a) && k.TurnLock? && Abandoned(s, k, since) && !Gets(s, a, k)
    ensures Abandoned(Apply(c, s, a), k, since)
  {
    AbandonedRow(s, a, k, since);
    var s' := StepRows(c, s, a);
    forall id ensures !HeldBy(Apply(c, s, a), k, id) {
      if HeldBy(Apply(c, s, a), k, id) { StepHolds(c, s, a, k, id); }
    }
  }

  /** A lock is held only by who held it before or has just got it. */
  lemma StepHolds(c: Config, s: State, a: Action, k: Key, id: nat)
    requires Enabled(s, a) && HeldBy(Apply(c, s, a), k, id)
    ensures HeldBy(s, k, id) || Gets(s, a, k)
  {
    if ByRequest(a) {
      StepProcs(c, s, a);
      if id == a.id { NextHolds(c, s, a); }
    }
  }

  lemma NextHolds(c: Config, s: State, a: Action)
    requires Enabled(s, a) && ByRequest(a) && HoldsLock(Settle(NextPc(c, s, a)))
    ensures HoldsLock(s.procs[a.id].pc) || Gets(s, a, LockKey(s.procs[a.id].req))
  {
  }

  /** No request gets the lock k; those that ask for it are refused. */
  ghost predicate NobodyGets(c: Config, s: State, actions: seq<Action>, k: Key)
    decreases |actions|
  {
    actions != [] && Enabled(s, actions[0]) ==>
      !Gets(s, actions[0], k) && NobodyGets(c, Apply(c, s, actions[0]), actions[1..], k)
  }

  lemma {:induction false} AbandonedRun(c: Config, s: State, actions: seq<Action>, s': State, k: Key, since: int)
    requires IsRun(c, s, actions, s') && k.TurnLock? && Abandoned(s, k, since) && NobodyGets(c, s, actions, k)
    ensures Abandoned(s', k, since)
    decreases |actions|
  {
    if actions == [] {
    } else {
      AbandonedStep(c, s, actions[0], k, since);
      AbandonedRun(c, Apply(c, s, actions[0]), actions[1..], s', k, since);
    }
  }

  lemma AcquireAbandoned(c: Config, s: State, id: nat, since: int)
    requires Inv(c, s) && Enabled(s, AcquireLock(id)) && Abandoned(s, LockKey(s.procs[id].req), since)
    requires s.now - since > STALE_CLAIM_SECONDS
    ensures HeldBy(Apply(c, s, AcquireLock(id)), LockKey(s.procs[id].req), id)
  {
    assert Claimable(s.rows, LockKey(s.procs[id].req), StaleBefore(s.now));
  }

  /** Self-healing: when nobody alive holds a lock, nobody has got it since and more than the stale
      window has passed, whoever asks for it gets it, no matter how many were refused in the
      meantime and what all the others do. */
  lemma LockSelfHeals(c: Config, s: State, actions: seq<Action>, s': State, id: nat)
    requires Reachable(c, s) && IsRun(c, s, actions, s') && Enabled(s', AcquireLock(id))
    requires forall holder :: !HeldBy(s, LockKey(s'.procs[id].req), holder)
    requires NobodyGets(c, s, actions, LockKey(s'.procs[id].req)) && s'.now - s.now > 120
    ensures HeldBy(Apply(c, s', AcquireLock(id)), LockKey(s'.procs[id].req), id)
  {
    var k := LockKey(s'.procs[id].req);
    ReachableDated(c, s);
    ReachableInv(c, s);
    RunKeepsInv(c, s, actions, s');
    AbandonedRun(c, s, actions, s', k, s.now);
    AcquireAbandoned(c, s', id, s.now);
  }

  // ----- No lost turn -----

  /** The stored transcript is the last maxTranscript messages of everything ever committed. */
  lemma NoLostTurn(c: Config, s: State, session: int)
    requires Reachable(c, s)
    ensures Transcript(s, session) == Last(c.maxTranscript, History(s, session))
  {
    ReachableInv(c, s);
    assert TranscriptOk(c, s, session);
  }

  /** The tighter of two limits, where 0 is no limit. */
  function Tighter(h: nat, m: nat): nat {
    if h == 0 || (0 < m < h) then m else h
  }

  lemma LastNested(h: nat, m: nat, xs: seq<Message>)
    ensures Last(h, Last(m, xs)) == Last(Tighter(h, m), xs)
  {
  }

  /** The LLM is shown the last committed messages, as many as both limits allow, and then the
      new text; with 0 < maxHistory <= maxTranscript, as many as maxHistory. */
  lemma PromptIsRecentHistory(c: Config, s: State, id: nat)
    requires Reachable(c, s) && id in s.procs && s.procs[id].pc.Thinking?
    ensures s.procs[id].pc.window ==
              Last(Tighter(c.maxHistory, c.maxTranscript), History(s, s.procs[id].req.session)) +
              [Message(User, s.procs[id].req.text)]
  {
    ReachableInv(c, s);
    var p := s.procs[id];
    assert ProcOk(c, s, id, p);
    assert TranscriptOk(c, s, p.req.session);
    LastNested(c.maxHistory, c.maxTranscript, History(s, p.req.session));
  }

  lemma PersistExtendsHistory(
      c: Config, s: State, r: Request, base: seq<Message>, reply: string, meterFails: bool, session: int)
    ensures History(s, session) <= History(PersistTx(c, s, r, base, reply, meterFails), session)
  {
  }

  lemma StepExtendsHistory(c: Config, s: State, a: Action, session: int)
    requires Enabled(s, a)
    ensures History(s, session) <= History(Apply(c, s, a), session)
  {
    if a.Persist? {
      var p := s.procs[a.id];
      PersistExtendsHistory(c, s, p.req, p.pc.base, p.pc.reply, a.meterFails, session);
    }
  }

  /** No later action ever overwrites a committed message. */
  lemma {:induction false} RunExtendsHistory(c: Config, s: State, actions: seq<Action>, s': State, session: int)
    requires IsRun(c, s, actions, s')
    ensures History(s, session) <= History(s', session)
    decreases |actions|
  {
    if actions == [] {
    } else {
      StepExtendsHistory(c, s, actions[0], session);
      RunExtendsHistory(c, Apply(c, s, actions[0]), actions[1..], s', session);
    }
  }

  lemma RunGrowsTranscript(c: Config, s: State, actions: seq<Action>, s': State, session: int)
    returns (added: seq<Message>)
    requires Inv(c, s) && IsRun(c, s, actions, s')
    ensures History(s', session) == History(s, session) + added
    ensures Transcript(s', session) == Last(c.maxTranscript, Transcript(s, session) + added)
  {
    RunKeepsInv(c, s, actions, s');
    RunExtendsHistory(c, s, actions, s', session);
    added := History(s', session)[|History(s, session)|..];
    assert TranscriptOk(c, s, session) && TranscriptOk(c, s', session);
    assert History(s', session) == History(s, session) + added;
    LastOfLast(c.maxTranscript, History(s, session), added);
  }

  /** Durability: a turn persisted while its session is open, or whose metering failed, follows the
      transcript it was based on in every later state; all that ever happens to it is that the
      messages committed since are appended and the oldest are trimmed. */
  lemma PersistedTurnStays(c: Config, s: State, id: nat, meterFails: bool, actions: seq<Action>, s': State)
    returns (added: seq<Message>)
    requires Reachable(c, s) && Enabled(s, Persist(id, meterFails))
    requires s.procs[id].req.session !in s.ended || meterFails
    requires IsRun(c, Apply(c, s, Persist(id, meterFails)), actions, s')
    ensures var r := s.procs[id].req;
            var pair := [Message(User, r.text), Message(Assistant, s.procs[id].pc.reply)];
            && History(s', r.session) == History(s, r.session) + pair + added
            && Transcript(s', r.session) == Last(c.maxTranscript, Transcript(s, r.session) + pair + added)
  {
    var r, s1 := s.procs[id].req, Apply(c, s, Persist(id, meterFails));
    ReachableInv(c, s);
    assert ProcOk(c, s, id, s.procs[id]);
    EveryStep(c, s, Persist(id, meterFails));
    added := RunGrowsTranscript(c, s1, actions, s', r.session);
    var pair := [Message(User, r.text), Message(Assistant, s.procs[id].pc.reply)];
    PersistedTranscript(c, s, id, meterFails);
    LastOfLast(c.maxTranscript, Transcript(s, r.session) + pair, added);
  }

  lemma PersistedTranscript(c: Config, s: State, id: nat, meterFails: bool)
    requires Enabled(s, Persist(id, meterFails)) && s.procs[id].pc.base == Transcript(s, s.procs[id].req.session)
    requires s.procs[id].req.session !in s.ended || meterFails
    ensures var r := s.procs[id].req;
            Transcript(Apply(c, s, Persist(id, meterFails)), r.session) ==
              NewTurns(c, Transcript(s, r.session), r.text, s.procs[id].pc.reply)
    ensures var r := s.procs[id].req;
            History(Apply(c, s, Persist(id, meterFails)), r.session) ==
              History(s, r.session) + [Message(User, r.text), Message(Assistant, s.procs[id].pc.reply)]
  {
  }

  // ----- At most one effect per key -----

  /** As long as its completion did not fail and it was not purged with its response, one key
      commits at most one turn. */
  lemma AtMostOneEffect(c: Config, s: State, k: Key)
    requires Reachable(c, s) && k.Client? && Remembered(s, k)
    ensures |Committed(s, k)| <= 1
  {
    ReachableInv(c, s);
    assert OnceOk(s, k);
  }

  /** Unless moreover a reply was delivered but not saved, every answer given under the key is the
      same, and it is the committed reply. */
  lemma SameAnswer(c: Config, s: State, k: Key, i: nat, j: nat)
    requires Reachable(c, s) && k.Client? && Remembered(s, k) && k !in s.unsaved
    requires i in s.procs && s.procs[i].req.key.Some? && ClientKey(s.procs[i].req) == k
    requires j in s.procs && s.procs[j].req.key.Some? && ClientKey(s.procs[j].req) == k
    ensures var a, b := s.procs[i].pc, s.procs[j].pc;
            a.Done? && b.Done? && a.answer.Some? && b.answer.Some? ==> a.answer == b.answer
    ensures var a := s.procs[i].pc;
            a.Done? && a.answer.Some? && Committed(s, k) != [] ==> Committed(s, k) == [a.answer.value]
  {
    ReachableInv(c, s);
    assert OnceOk(s, k);
    assert ProcOk(c, s, i, s.procs[i]) && ProcOk(c, s, j, s.procs[j]);
    if Committed(s, k) != [] && s.procs[i].pc.Done? && s.procs[i].pc.answer.Some? {
      if k in s.holder && s.holder[k] in s.procs {
        assert ProcOk(c, s, s.holder[k], s.procs[s.holder[k]]);
      }
    }
  }
}
