/** What every run of the turn protocol keeps, and what follows: one holder per turn lock, no
    lost turn, and at most one effect per idempotency key. */
module TurnSafety {
  import opened Options
  import opened IdempotencyTable
  import opened TurnProtocol

  // ----- The invariant -----

  /** The row k is the claim of request id, made at the instant t and not yet stale. */
  predicate Claimed(s: State, k: Key, id: nat, t: int) {
    && k in s.rows && s.rows[k] == Row(None, t)
    && k in s.holder && s.holder[k] == id
    && s.now - t <= STALE_CLAIM_SECONDS
  }

  predicate LockOk(s: State, id: nat, p: Proc) {
    HoldsLock(p.pc) ==> Claimed(s, LockKey(p.req), id, p.lockAt)
  }

  predicate KeyOk(s: State, id: nat, p: Proc) {
    HoldsKey(p.pc) && p.req.key.Some? ==> Claimed(s, ClientKey(p.req), id, p.keyAt)
  }

  predicate Working(pc: Pc) { pc.Thinking? || pc.Persisting? }

  /** A request at work has the current transcript in hand. */
  predicate WorkOk(c: Config, s: State, p: Proc) {
    Working(p.pc) ==>
      && p.req.session in c.owner && c.owner[p.req.session] == p.req.user
      && p.pc.base == Transcript(s, p.req.session)
      && (p.pc.Thinking? ==> p.pc.window == PromptWindow(c, p.pc.base, p.req.text))
  }

  /** What has been answered under a key is what the key's row holds, unless a write failed. */
  predicate AnswerOk(s: State, p: Proc) {
    p.req.key.Some? && Remembered(s, ClientKey(p.req)) && ClientKey(p.req) !in s.unsaved ==>
      && (p.pc.Done? && p.pc.answer.Some? ==> Response(s, ClientKey(p.req)) == p.pc.answer)
      && (p.pc.Finishing? && !p.pc.key ==> Response(s, ClientKey(p.req)) == Some(p.pc.reply))
      && (p.pc.Abandoning? ==> p.pc.answer.None?)
  }

  predicate ProcOk(c: Config, s: State, id: nat, p: Proc) {
    LockOk(s, id, p) && KeyOk(s, id, p) && WorkOk(c, s, p) && AnswerOk(s, p)
  }

  /** Request id has committed y under k and is about to complete k. */
  predicate Completing(s: State, id: nat, k: Key, y: string) {
    && id in s.procs
    && var p := s.procs[id];
       p.req.key.Some? && ClientKey(p.req) == k && p.pc.Finishing? && p.pc.key && p.pc.reply == y
  }

  /** At most one commit under k, and its reply is in the row or about to be, unless the table has
      lost track of k. */
  predicate OnceOk(s: State, k: Key) {
    k.Client? && Remembered(s, k) && Committed(s, k) != [] ==>
      && |Committed(s, k)| == 1
      && k in s.rows
      && (|| s.rows[k].response == Some(Committed(s, k)[0])
          || (k in s.holder && Completing(s, s.holder[k], k, Committed(s, k)[0])))
  }

  predicate TranscriptOk(c: Config, s: State, session: int) {
    Transcript(s, session) == Last(c.maxTranscript, History(s, session))
  }

  ghost predicate Inv(c: Config, s: State) {
    && (forall id :: id in s.procs ==> ProcOk(c, s, id, s.procs[id]))
    && (forall session: int :: TranscriptOk(c, s, session))
    && (forall k :: k in s.rows && k.TurnLock? ==> s.rows[k].response.None?)
    && (forall k: Key :: OnceOk(s, k))
  }

  // ----- Steps, by what they change -----

  function With(s: State, id: nat, p: Proc): State { s.(procs := s.procs[id := p]) }

  lemma LocalOnce(s: State, id: nat, p: Proc, k: Key)
    requires OnceOk(s, k) && id in s.procs
    requires forall y :: Completing(s, id, k, y) && Remembered(s, k) ==> Completing(With(s, id, p), id, k, y)
    ensures OnceOk(With(s, id, p), k)
  {
  }

  lemma LocalOther(c: Config, s: State, id: nat, p: Proc, i: nat, other: Proc)
    requires ProcOk(c, s, i, other)
    ensures ProcOk(c, With(s, id, p), i, other)
  {
  }

  /** A step that changes one request and nothing in the database. */
  lemma LocalStep(c: Config, s: State, id: nat, p: Proc)
    requires Inv(c, s) && id in s.procs && p.req == s.procs[id].req
    requires ProcOk(c, s, id, p)
    requires forall k, y :: Completing(s, id, k, y) && Remembered(s, k) ==> Completing(With(s, id, p), id, k, y)
    ensures Inv(c, With(s, id, p))
  {
    var s' := With(s, id, p);
    forall i | i in s'.procs ensures ProcOk(c, s', i, s'.procs[i]) {
      if i == id { LocalOther(c, s, id, p, i, p); } else { LocalOther(c, s, id, p, i, s.procs[i]); }
    }
    forall k: Key ensures OnceOk(s', k) { LocalOnce(s, id, p, k); }
    forall session: int ensures TranscriptOk(c, s', session) {
      assert TranscriptOk(c, s, session);
    }
  }

  /** A request with nothing to complete goes on to pc. */
  lemma GotoStep(c: Config, s: State, id: nat, pc: Pc)
    requires Inv(c, s) && id in s.procs && !s.procs[id].pc.Finishing?
    requires ProcOk(c, s, id, s.procs[id].(pc := Settle(pc)))
    ensures Inv(c, Goto(s, id, pc))
  {
    LocalStep(c, s, id, s.procs[id].(pc := Settle(pc)));
  }

  /** Noting a failed write asks less of everyone. */
  lemma FaultStep(c: Config, s: State, s': State, r: Request)
    requires Inv(c, s) && (s' == Uncompleted(s, r) || s' == Unsaved(s, r))
    ensures Inv(c, s')
  {
    forall i | i in s'.procs ensures ProcOk(c, s', i, s'.procs[i]) {
      assert ProcOk(c, s, i, s.procs[i]);
    }
    forall k: Key ensures OnceOk(s', k) { assert OnceOk(s, k); }
    forall session: int ensures TranscriptOk(c, s', session) { assert TranscriptOk(c, s, session); }
  }

  ghost predicate SameElsewhere(s: State, s': State, k: Key) {
    && (forall k' :: k' != k ==> (k' in s'.rows <==> k' in s.rows) && (k' in s'.holder <==> k' in s.holder))
    && (forall k' :: k' != k && k' in s.rows ==> s'.rows[k'] == s.rows[k'])
    && (forall k' :: k' != k && k' in s.holder ==> s'.holder[k'] == s.holder[k'])
  }

  predicate SameMemory(s: State, s': State) {
    s'.uncompleted == s.uncompleted && s'.unsaved == s.unsaved && s'.forgotten == s.forgotten
  }

  ghost predicate SameOtherwise(s: State, s': State) {
    && s'.now == s.now && s'.transcripts == s.transcripts && s'.history == s.history
    && s'.committed == s.committed && SameMemory(s, s')
  }

  /** What another request relies on survives a change to a pending row k it did not claim. */
  lemma OtherKept(c: Config, s: State, s': State, k: Key, i: nat, p: Proc)
    requires ProcOk(c, s, i, p)
    requires SameElsewhere(s, s', k) && SameOtherwise(s, s')
    requires Response(s, k).None? && forall t :: !Claimed(s, k, i, t)
    ensures ProcOk(c, s', i, p)
  {
  }

  lemma OnceElsewhere(s: State, s': State, k: Key, id: nat, k': Key)
    requires OnceOk(s, k') && k' != k
    requires SameElsewhere(s, s', k) && SameOtherwise(s, s')
    requires id in s.procs && id in s'.procs && s'.procs == s.procs[id := s'.procs[id]]
    requires forall y :: Completing(s, id, k', y) ==> Completing(s', id, k', y)
    ensures OnceOk(s', k')
  {
  }

  /** A step of request id that changes the pending row k, which nobody else has claimed. */
  lemma RowStep(c: Config, s: State, s': State, k: Key, id: nat)
    requires Inv(c, s) && id in s.procs && id in s'.procs && s'.procs == s.procs[id := s'.procs[id]]
    requires SameElsewhere(s, s', k) && SameOtherwise(s, s')
    requires Response(s, k).None? && forall i, t :: i != id ==> !Claimed(s, k, i, t)
    requires ProcOk(c, s', id, s'.procs[id])
    requires OnceOk(s', k) && (k.TurnLock? ==> Response(s', k).None?)
    requires forall k', y :: k' != k && Completing(s, id, k', y) ==> Completing(s', id, k', y)
    ensures Inv(c, s')
  {
    forall i | i in s'.procs ensures ProcOk(c, s', i, s'.procs[i]) {
      if i != id {
        assert s'.procs[i] == s.procs[i];
        OtherKept(c, s, s', k, i, s.procs[i]);
      }
    }
    forall k': Key ensures OnceOk(s', k') {
      if k' != k { OnceElsewhere(s, s', k, id, k'); }
    }
    forall session: int ensures TranscriptOk(c, s', session) { assert TranscriptOk(c, s, session); }
  }

  /** A claimable row is nobody's, and nothing was committed under it. */
  lemma ClaimableIsFree(c: Config, s: State, k: Key)
    requires Inv(c, s) && Claimable(s.rows, k, StaleBefore(s.now))
    ensures Response(s, k).None? && forall i, t :: !Claimed(s, k, i, t)
    ensures k.Client? && Remembered(s, k) ==> Committed(s, k) == []
  {
    assert OnceOk(s, k);
    if k.Client? && Remembered(s, k) && Committed(s, k) != [] {
      var h := s.holder[k];
      assert ProcOk(c, s, h, s.procs[h]);
    }
  }

  lemma ClaimStep(c: Config, s: State, k: Key, id: nat, p: Proc)
    requires Inv(c, s) && Claimable(s.rows, k, StaleBefore(s.now))
    requires id in s.procs && !s.procs[id].pc.Finishing? && p.req == s.procs[id].req
    requires ProcOk(c, With(ClaimRow(s, k, id), id, p), id, p)
    ensures Inv(c, With(ClaimRow(s, k, id), id, p))
  {
    ClaimableIsFree(c, s, k);
    RowStep(c, s, With(ClaimRow(s, k, id), id, p), k, id);
  }

  lemma ReleaseStep(c: Config, s: State, k: Key, id: nat, t: int, p: Proc)
    requires Inv(c, s) && Claimed(s, k, id, t) && id in s.procs && p.req == s.procs[id].req
    requires ProcOk(c, With(s.(rows := s.rows - {k}), id, p), id, p)
    requires forall y :: !Completing(s, id, k, y)
    requires forall k', y :: k' != k && Completing(s, id, k', y) ==> Completing(With(s, id, p), id, k', y)
    ensures Inv(c, With(s.(rows := s.rows - {k}), id, p))
  {
    var s' := With(s.(rows := s.rows - {k}), id, p);
    assert OnceOk(s, k);
    RowStep(c, s, s', k, id);
  }

  lemma CompleteStep(c: Config, s: State, id: nat, p: Proc)
    requires Inv(c, s) && id in s.procs && p.req == s.procs[id].req && p.req.key.Some?
    requires s.procs[id].pc.Finishing? && s.procs[id].pc.key
    requires var s1 := s.(rows := AfterComplete(s.rows, ClientKey(p.req), s.procs[id].pc.reply));
             ProcOk(c, With(s1, id, p), id, p)
    ensures var s1 := s.(rows := AfterComplete(s.rows, ClientKey(p.req), s.procs[id].pc.reply));
            Inv(c, With(s1, id, p))
  {
    var k := ClientKey(p.req);
    assert ProcOk(c, s, id, s.procs[id]);
    assert OnceOk(s, k);
    RowStep(c, s, With(s.(rows := AfterComplete(s.rows, k, s.procs[id].pc.reply)), id, p), k, id);
  }

  /** Trimming before appending loses nothing that trimming after would keep. */
  lemma LastOfLast(n: nat, xs: seq<Message>, ys: seq<Message>)
    ensures Last(n, Last(n, xs) + ys) == Last(n, xs + ys)
  {
    if n > 0 && |xs| > n {
      var cut := xs[|xs| - n..];
      assert xs + ys == xs[..|xs| - n] + (cut + ys);
      assert (xs + ys)[|xs| + |ys| - n..] == (cut + ys)[|ys|..];
    }
  }

  /** Two requests at work on one session are one request. */
  lemma WorkIsExclusive(c: Config, s: State, i: nat, j: nat)
    requires Inv(c, s) && i in s.procs && j in s.procs
    requires Working(s.procs[i].pc) && Working(s.procs[j].pc) && s.procs[i].req.session == s.procs[j].req.session
    ensures i == j
  {
    assert ProcOk(c, s, i, s.procs[i]);
    assert ProcOk(c, s, j, s.procs[j]);
  }

  function Committing(c: Config, s: State, id: nat, meterFails: bool): State
    requires id in s.procs && s.procs[id].pc.Persisting?
  {
    var p := s.procs[id];
    var s1 := PersistTx(c, s, p.req, p.pc.base, p.pc.reply, meterFails);
    With(s1, id, p.(pc := Finishing(p.pc.reply, p.pc.ok, true, p.req.key.Some?)))
  }

  lemma KeptBySameRows(c: Config, s: State, s': State, i: nat, p: Proc)
    requires ProcOk(c, s, i, p)
    requires s'.now == s.now && s'.rows == s.rows && s'.holder == s.holder && SameMemory(s, s')
    requires Working(p.pc) ==> Transcript(s', p.req.session) == Transcript(s, p.req.session)
    ensures ProcOk(c, s', i, p)
  {
  }

  lemma PersistSelf(c: Config, s: State, id: nat, meterFails: bool)
    requires id in s.procs && s.procs[id].pc.Persisting? && ProcOk(c, s, id, s.procs[id])
    ensures ProcOk(c, Committing(c, s, id, meterFails), id, Committing(c, s, id, meterFails).procs[id])
  {
  }

  lemma PersistProcs(c: Config, s: State, id: nat, meterFails: bool, i: nat)
    requires Inv(c, s) && id in s.procs && s.procs[id].pc.Persisting? && i in s.procs
    ensures ProcOk(c, Committing(c, s, id, meterFails), i, Committing(c, s, id, meterFails).procs[i])
  {
    assert ProcOk(c, s, i, s.procs[i]);
    if i == id {
      PersistSelf(c, s, id, meterFails);
    } else {
      if Working(s.procs[i].pc) && s.procs[i].req.session == s.procs[id].req.session {
        WorkIsExclusive(c, s, i, id);
      }
      KeptBySameRows(c, s, Committing(c, s, id, meterFails), i, s.procs[i]);
    }
  }

  lemma PersistOnce(c: Config, s: State, id: nat, meterFails: bool, k: Key)
    requires Inv(c, s) && id in s.procs && s.procs[id].pc.Persisting?
    ensures OnceOk(Committing(c, s, id, meterFails), k)
  {
    assert ProcOk(c, s, id, s.procs[id]);
    assert OnceOk(s, k);
  }

  lemma PersistTranscript(c: Config, s: State, id: nat, meterFails: bool, session: int)
    requires Inv(c, s) && id in s.procs && s.procs[id].pc.Persisting?
    ensures TranscriptOk(c, Committing(c, s, id, meterFails), session)
  {
    var p := s.procs[id];
    assert ProcOk(c, s, id, p);
    assert TranscriptOk(c, s, session);
    LastOfLast(c.maxTranscript, History(s, p.req.session), [Message(User, p.req.text), Message(Assistant, p.pc.reply)]);
  }

  lemma PersistStep(c: Config, s: State, id: nat, meterFails: bool)
    requires Inv(c, s) && id in s.procs && s.procs[id].pc.Persisting?
    ensures Inv(c, Committing(c, s, id, meterFails))
  {
    var s' := Committing(c, s, id, meterFails);
    forall i | i in s'.procs ensures ProcOk(c, s', i, s'.procs[i]) { PersistProcs(c, s, id, meterFails, i); }
    forall k: Key ensures OnceOk(s', k) { PersistOnce(c, s, id, meterFails, k); }
    forall session: int ensures TranscriptOk(c, s', session) { PersistTranscript(c, s, id, meterFails, session); }
  }

  // ----- Every action keeps the invariant -----

  lemma TickStep(c: Config, s: State, dt: nat)
    requires Inv(c, s) && Enabled(s, Tick(dt))
    ensures Inv(c, s.(now := s.now + dt))
  {
    var s' := s.(now := s.now + dt);
    forall i | i in s'.procs ensures ProcOk(c, s', i, s'.procs[i]) { assert ProcOk(c, s, i, s.procs[i]); }
    forall k: Key ensures OnceOk(s', k) { assert OnceOk(s, k); }
    forall session: int ensures TranscriptOk(c, s', session) { assert TranscriptOk(c, s, session); }
  }

  lemma EndSessionStep(c: Config, s: State, session: int)
    requires Inv(c, s)
    ensures Inv(c, s.(ended := s.ended + {session}))
  {
    var s' := s.(ended := s.ended + {session});
    forall i | i in s'.procs ensures ProcOk(c, s', i, s'.procs[i]) { assert ProcOk(c, s, i, s.procs[i]); }
    forall k: Key ensures OnceOk(s', k) { assert OnceOk(s, k); }
    forall session: int ensures TranscriptOk(c, s', session) { assert TranscriptOk(c, s, session); }
  }

  /** A claim still held is younger than the stale window, and so is never purged. */
  lemma PurgeProc(c: Config, s: State, id: nat, p: Proc)
    requires ProcOk(c, s, id, p)
    ensures ProcOk(c, PurgeTx(s), id, p)
  {
  }

  lemma PurgeOnce(c: Config, s: State, k: Key)
    requires Inv(c, s)
    ensures OnceOk(PurgeTx(s), k)
  {
    assert OnceOk(s, k);
    if k in s.holder && s.holder[k] in s.procs { assert ProcOk(c, s, s.holder[k], s.procs[s.holder[k]]); }
  }

  lemma PurgeStep(c: Config, s: State)
    requires Inv(c, s)
    ensures Inv(c, PurgeTx(s))
  {
    var s' := PurgeTx(s);
    forall i | i in s'.procs ensures ProcOk(c, s', i, s'.procs[i]) { PurgeProc(c, s, i, s.procs[i]); }
    forall k: Key ensures OnceOk(s', k) { PurgeOnce(c, s, k); }
    forall session: int ensures TranscriptOk(c, s', session) { assert TranscriptOk(c, s, session); }
  }

  lemma ArriveStep(c: Config, s: State, id: nat, p: Proc)
    requires Inv(c, s) && id !in s.procs
    requires p.pc.Arrived? || (p.pc.Locking? && p.req.key.None?)
    ensures Inv(c, With(s, id, p))
  {
    var s' := With(s, id, p);
    forall i | i in s'.procs ensures ProcOk(c, s', i, s'.procs[i]) {
      if i != id { assert ProcOk(c, s, i, s.procs[i]); }
    }
    forall k: Key ensures OnceOk(s', k) { assert OnceOk(s, k); }
    forall session: int ensures TranscriptOk(c, s', session) { assert TranscriptOk(c, s, session); }
  }

  lemma LookUpStep(c: Config, s: State, id: nat)
    requires Inv(c, s) && Enabled(s, LookUp(id))
    ensures Inv(c, Apply(c, s, LookUp(id)))
  {
    var r := s.procs[id].req;
    assert ProcOk(c, s, id, s.procs[id]);
    GotoStep(c, s, id,
      if r.key.Some? && Response(s, ClientKey(r)).Some? then Done(Response(s, ClientKey(r))) else Claiming);
  }

  lemma RereadStep(c: Config, s: State, id: nat)
    requires Inv(c, s) && Enabled(s, Reread(id))
    ensures Inv(c, Apply(c, s, Reread(id)))
  {
    assert ProcOk(c, s, id, s.procs[id]);
    GotoStep(c, s, id, Done(Response(s, ClientKey(s.procs[id].req))));
  }

  lemma ClaimKeyStep(c: Config, s: State, id: nat)
    requires Inv(c, s) && Enabled(s, ClaimKey(id))
    ensures Inv(c, Apply(c, s, ClaimKey(id)))
  {
    if Claimable(s.rows, ClientKey(s.procs[id].req), StaleBefore(s.now)) {
      KeyWon(c, s, id);
    } else {
      GotoStep(c, s, id, Rereading);
    }
  }

  lemma KeyWonIs(c: Config, s: State, id: nat, p': Proc, k: Key)
    requires Enabled(s, ClaimKey(id)) && k == ClientKey(s.procs[id].req) && Claimable(s.rows, k, StaleBefore(s.now))
    requires p' == s.procs[id].(pc := Locking, keyAt := s.now)
    ensures Apply(c, s, ClaimKey(id)) == With(ClaimRow(s, k, id), id, p')
  {
    assert s.procs[id := s.procs[id].(keyAt := s.now)][id := p'] == s.procs[id := p'];
  }

  lemma KeyWon(c: Config, s: State, id: nat)
    requires Inv(c, s) && Enabled(s, ClaimKey(id)) && Claimable(s.rows, ClientKey(s.procs[id].req), StaleBefore(s.now))
    ensures Inv(c, Apply(c, s, ClaimKey(id)))
  {
    var p', k := s.procs[id].(pc := Locking, keyAt := s.now), ClientKey(s.procs[id].req);
    ClaimStep(c, s, k, id, p');
    KeyWonIs(c, s, id, p', k);
  }

  lemma AcquireLockStep(c: Config, s: State, id: nat)
    requires Inv(c, s) && Enabled(s, AcquireLock(id))
    ensures Inv(c, Apply(c, s, AcquireLock(id)))
  {
    assert ProcOk(c, s, id, s.procs[id]);
    if Claimable(s.rows, LockKey(s.procs[id].req), StaleBefore(s.now)) {
      LockWon(c, s, id);
    } else {
      GotoStep(c, s, id, Failing(false, s.procs[id].req.key.Some?));
    }
  }

  lemma LockWonIs(c: Config, s: State, id: nat, p': Proc, k: Key)
    requires Enabled(s, AcquireLock(id)) && k == LockKey(s.procs[id].req) && Claimable(s.rows, k, StaleBefore(s.now))
    requires p' == s.procs[id].(pc := Preparing, lockAt := s.now)
    ensures Apply(c, s, AcquireLock(id)) == With(ClaimRow(s, k, id), id, p')
  {
    assert s.procs[id := s.procs[id].(lockAt := s.now)][id := p'] == s.procs[id := p'];
  }

  lemma LockWon(c: Config, s: State, id: nat)
    requires Inv(c, s) && Enabled(s, AcquireLock(id)) && Claimable(s.rows, LockKey(s.procs[id].req), StaleBefore(s.now))
    ensures Inv(c, Apply(c, s, AcquireLock(id)))
  {
    var p', k := s.procs[id].(pc := Preparing, lockAt := s.now), LockKey(s.procs[id].req);
    assert ProcOk(c, s, id, s.procs[id]);
    ClaimStep(c, s, k, id, p');
    LockWonIs(c, s, id, p', k);
  }

  lemma PrepareStep(c: Config, s: State, id: nat, fails: bool)
    requires Inv(c, s) && Enabled(s, Prepare(id, fails))
    ensures Inv(c, Apply(c, s, Prepare(id, fails)))
  {
    var r := s.procs[id].req;
    var base := Transcript(s, r.session);
    assert ProcOk(c, s, id, s.procs[id]);
    if !fails && r.session in c.owner && c.owner[r.session] == r.user && r.session !in s.ended {
      GotoStep(c, s, id, Thinking(base, PromptWindow(c, base, r.text)));
    } else {
      GotoStep(c, s, id, Failing(true, r.key.Some?));
    }
  }

  lemma LlmSteps(c: Config, s: State, a: Action)
    requires Inv(c, s) && Enabled(s, a) && (a.LlmReplies? || a.LlmFails? || a.Disconnect?)
    ensures Inv(c, Apply(c, s, a))
  {
    var p := s.procs[a.id];
    assert ProcOk(c, s, a.id, p);
    match a
    case LlmReplies(id, reply, ok) => GotoStep(c, s, id, Persisting(p.pc.base, reply, ok));
    case LlmFails(id) => GotoStep(c, s, id, Failing(true, p.req.key.Some?));
    case Disconnect(id) =>
      GotoStep(c, s, id,
        if p.req.streaming && p.pc.Preparing? then Failing(true, p.req.key.Some?) else Abandoning(None));
  }

  lemma PersistFailsStep(c: Config, s: State, id: nat)
    requires Inv(c, s) && Enabled(s, PersistFails(id))
    ensures Inv(c, Apply(c, s, PersistFails(id)))
  {
    var p := s.procs[id];
    if p.req.streaming && p.pc.ok {
      var s1 := Unsaved(s, p.req);
      FaultStep(c, s, s1, p.req);
      assert ProcOk(c, s1, id, s1.procs[id]);
      LocalStep(c, s1, id, p.(pc := Abandoning(Some(p.pc.reply))));
    } else {
      assert ProcOk(c, s, id, p);
      LocalStep(c, s, id, p.(pc := Failing(true, p.req.key.Some?)));
    }
  }

  lemma CrashStep(c: Config, s: State, id: nat)
    requires Inv(c, s) && Enabled(s, Crash(id))
    ensures Inv(c, Apply(c, s, Crash(id)))
  {
    var p := s.procs[id];
    if p.pc.Finishing? && p.pc.key {
      FaultStep(c, s, Uncompleted(s, p.req), p.req);
      LocalStep(c, Uncompleted(s, p.req), id, p.(pc := Crashed));
    } else {
      LocalStep(c, s, id, p.(pc := Crashed));
    }
  }

  lemma CompleteKeyStep(c: Config, s: State, id: nat, fails: bool)
    requires Inv(c, s) && Enabled(s, CompleteKey(id, fails))
    ensures Inv(c, Apply(c, s, CompleteKey(id, fails)))
  {
    var p := s.procs[id];
    var p' := p.(pc := Settle(Completed(p.pc, fails, p.req.streaming)));
    assert ProcOk(c, s, id, p);
    if fails {
      FaultStep(c, s, Uncompleted(s, p.req), p.req);
      LocalStep(c, Uncompleted(s, p.req), id, p');
    } else {
      CompleteStep(c, s, id, p');
    }
  }

  lemma ReleaseLockStep(c: Config, s: State, id: nat, fails: bool)
    requires Inv(c, s) && Enabled(s, ReleaseLock(id, fails))
    ensures Inv(c, Apply(c, s, ReleaseLock(id, fails)))
  {
    var p := s.procs[id];
    var p' := p.(pc := Settle(LockDone(p.pc)));
    assert ProcOk(c, s, id, p);
    if fails {
      LocalStep(c, s, id, p');
    } else {
      ReleaseStep(c, s, LockKey(p.req), id, p.lockAt, p');
    }
  }

  lemma ReleaseKeyStep(c: Config, s: State, id: nat, fails: bool)
    requires Inv(c, s) && Enabled(s, ReleaseKey(id, fails))
    ensures Inv(c, Apply(c, s, ReleaseKey(id, fails)))
  {
    var p := s.procs[id];
    var p' := p.(pc := Settle(KeyDone(p.pc)));
    assert ProcOk(c, s, id, p);
    if fails {
      LocalStep(c, s, id, p');
    } else {
      ReleaseStep(c, s, ClientKey(p.req), id, p.keyAt, p');
    }
  }

  /** The steps of a request up to the reply of the LLM. */
  lemma FirstSteps(c: Config, s: State, a: Action)
    requires Inv(c, s) && Enabled(s, a)
    requires || a.LookUp? || a.ClaimKey? || a.Reread? || a.AcquireLock?
             || a.Prepare? || a.LlmReplies? || a.LlmFails? || a.Disconnect?
    ensures Inv(c, Apply(c, s, a))
  {
    match a
    case LookUp(id) => LookUpStep(c, s, id);
    case ClaimKey(id) => ClaimKeyStep(c, s, id);
    case Reread(id) => RereadStep(c, s, id);
    case AcquireLock(id) => AcquireLockStep(c, s, id);
    case Prepare(id, fails) => PrepareStep(c, s, id, fails);
    case _ => LlmSteps(c, s, a);
  }

  /** The steps of a request that persist, complete and release. */
  lemma LastSteps(c: Config, s: State, a: Action)
    requires Inv(c, s) && Enabled(s, a)
    requires a.Persist? || a.PersistFails? || a.CompleteKey? || a.ReleaseLock? || a.ReleaseKey? || a.Crash?
    ensures Inv(c, Apply(c, s, a))
  {
    match a
    case Persist(id, meterFails) => PersistStep(c, s, id, meterFails);
    case PersistFails(id) => PersistFailsStep(c, s, id);
    case CompleteKey(id, fails) => CompleteKeyStep(c, s, id, fails);
    case ReleaseLock(id, fails) => ReleaseLockStep(c, s, id, fails);
    case ReleaseKey(id, fails) => ReleaseKeyStep(c, s, id, fails);
    case Crash(id) => CrashStep(c, s, id);
  }

  /** The clock, new requests, /end and the purge. */
  lemma OutsideSteps(c: Config, s: State, a: Action)
    requires Inv(c, s) && Enabled(s, a) && !ByRequest(a)
    ensures Inv(c, Apply(c, s, a))
  {
    match a
    case Tick(dt) => TickStep(c, s, dt);
    case Arrive(id, req) => ArriveStep(c, s, id, Proc(req, if req.key.Some? then Arrived else Locking, 0, 0));
    case EndSession(session) => EndSessionStep(c, s, session);
    case Purge => PurgeStep(c, s);
  }

  /** Every action, by any request at any moment, keeps the invariant. */
  lemma EveryStep(c: Config, s: State, a: Action)
    requires Inv(c, s) && Enabled(s, a)
    ensures Inv(c, Apply(c, s, a))
  {
    if !ByRequest(a) {
      OutsideSteps(c, s, a);
    } else if a.Persist? || a.PersistFails? || a.CompleteKey? || a.ReleaseLock? || a.ReleaseKey? || a.Crash? {
      LastSteps(c, s, a);
    } else {
      FirstSteps(c, s, a);
    }
  }
}
