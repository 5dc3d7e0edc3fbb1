/** Runs of the refresh-token transactions: rotation, reuse detection and purging over time
    (section 10.4 of RFC 6749). */
module RefreshRotation {
  import opened Options
  import opened RefreshTokens

  datatype Action =
    | Tick(dt: nat)
    | Register(user: int, next: Hash)
    | Login(user: int, next: Hash)
    | Refresh(h: Hash, next: Hash, createFails: bool)
    | Logout(h: Hash)
    | NewPassword(user: int)
    | SetActive(user: int, active: bool)
    | Purge

  /** The database, then what the proofs remember: every hash ever issued, the rotation chain
      it belongs to (one per login), and the tokens exchanged so far, in order. */
  datatype State = State(db: Db, now: int, chain: map<Hash, nat>, chains: nat, exchanged: seq<Hash>)

  /** Generated tokens are never repeated. */
  predicate Enabled(s: State, a: Action) {
    match a
    case Register(_, next) => next !in s.chain
    case Login(_, next) => next !in s.chain
    case Refresh(_, next, _) => next !in s.chain
    case _ => true
  }

  function Apply(cfg: Config, s: State, a: Action): State
    requires Enabled(s, a)
  {
    match a
    case Tick(dt) => s.(now := s.now + dt)
    case Register(user, next) =>
      s.(db := RegisterTx(cfg, s.db, user, next, s.now), chain := s.chain[next := s.chains], chains := s.chains + 1)
    case Login(user, next) =>
      s.(db := LoginTx(cfg, s.db, user, next, s.now), chain := s.chain[next := s.chains], chains := s.chains + 1)
    case Refresh(h, next, createFails) =>
      var (db, outcome) := RefreshTx(cfg, s.db, h, next, s.now, createFails);
      if outcome.Rotated? then
        var chain := if h in s.chain then s.chain[h] else s.chains;
        s.(db := db, chain := s.chain[next := chain], exchanged := s.exchanged + [h])
      else s.(db := db)
    case Logout(h) => s.(db := LogoutTx(s.db, h, s.now))
    case NewPassword(user) => s.(db := PasswordTx(s.db, user, s.now))
    case SetActive(user, active) => s.(db := SetActiveTx(s.db, user, active, s.now))
    case Purge => s.(db := PurgeTx(s.db, s.now))
  }

  ghost predicate IsRun(cfg: Config, s: State, actions: seq<Action>, s': State)
    decreases |actions|
  {
    if actions == [] then s == s'
    else Enabled(s, actions[0]) && IsRun(cfg, Apply(cfg, s, actions[0]), actions[1..], s')
  }

  const Initial := State(Db(map[], map[]), 0, map[], 0, [])

  ghost predicate Reachable(cfg: Config, s: State) {
    exists actions :: IsRun(cfg, Initial, actions, s)
  }

  // ----- The invariant -----

  predicate Unrevoked(s: State, h: Hash) { h in s.db.tokens && s.db.tokens[h].revokedAt.None? }

  /** Issued, and never to be accepted again: gone or revoked. */
  predicate Dead(s: State, h: Hash) { h in s.chain && !Unrevoked(s, h) }

  ghost predicate Inv(s: State) {
    && (forall h :: h in s.db.tokens ==> h in s.chain)
    && (forall h :: h in s.chain ==> s.chain[h] < s.chains)
    && (forall h, h' :: Unrevoked(s, h) && Unrevoked(s, h') && s.chain[h] == s.chain[h'] ==> h == h')
    && (forall i :: 0 <= i < |s.exchanged| ==> Dead(s, s.exchanged[i]))
    && (forall i, j :: 0 <= i < j < |s.exchanged| ==> s.exchanged[i] != s.exchanged[j])
    && (forall h :: Unrevoked(s, h) ==> CanHold(s.db, s.db.tokens[h].user))
  }

  /** No action revives a dead token, and revoked_at is written once. */
  lemma StepKeepsDead(cfg: Config, s: State, a: Action, h: Hash)
    requires Inv(s) && Enabled(s, a) && h in s.chain
    ensures var s' := Apply(cfg, s, a);
            && h in s'.chain && s'.chain[h] == s.chain[h]
            && (Dead(s, h) ==> Dead(s', h))
            && (h in s'.db.tokens ==> h in s.db.tokens && s'.db.tokens[h].user == s.db.tokens[h].user)
            && (h in s'.db.tokens && s.db.tokens[h].revokedAt.Some? ==>
                  s'.db.tokens[h].revokedAt == s.db.tokens[h].revokedAt)
  {
  }

  /** A transaction that issues no token: what is unrevoked afterwards was so before. */
  lemma NothingIssued(s: State, s': State)
    requires Inv(s) && s'.chain == s.chain && s'.chains == s.chains && s'.exchanged == s.exchanged
    requires forall h :: h in s'.db.tokens ==> h in s.db.tokens && s'.db.tokens[h].user == s.db.tokens[h].user
    requires forall h :: Unrevoked(s', h) ==> Unrevoked(s, h) && CanHold(s'.db, s'.db.tokens[h].user)
    ensures Inv(s')
  {
    forall i | 0 <= i < |s'.exchanged| ensures Dead(s', s'.exchanged[i]) { assert Dead(s, s.exchanged[i]); }
  }

  lemma RevokeAllStep(s: State, user: int)
    requires Inv(s)
    ensures Inv(s.(db := RevokeAll(s.db, user, s.now)))
  {
    NothingIssued(s, s.(db := RevokeAll(s.db, user, s.now)));
  }

  lemma LogoutStep(s: State, h: Hash)
    requires Inv(s)
    ensures Inv(s.(db := LogoutTx(s.db, h, s.now)))
  {
    NothingIssued(s, s.(db := LogoutTx(s.db, h, s.now)));
  }

  lemma SetActiveStep(s: State, user: int, active: bool)
    requires Inv(s)
    ensures Inv(s.(db := SetActiveTx(s.db, user, active, s.now)))
  {
    NothingIssued(s, s.(db := SetActiveTx(s.db, user, active, s.now)));
  }

  lemma PurgeStep(s: State)
    requires Inv(s)
    ensures Inv(s.(db := PurgeTx(s.db, s.now)))
  {
    NothingIssued(s, s.(db := PurgeTx(s.db, s.now)));
  }

  /** The token `next` is issued to user, as the only unrevoked one of its chain. */
  ghost predicate Issued(s: State, s': State, next: Hash, chain: nat, user: int, expiresAt: int) {
    && next !in s.chain && chain < s'.chains && s.chains <= s'.chains
    && s'.chain == s.chain[next := chain]
    && s'.db.tokens == s.db.tokens[next := Token(user, expiresAt, None)]
    && CanHold(s'.db, user)
    && forall h :: Unrevoked(s, h) ==> h in s.chain && s.chain[h] != chain && CanHold(s'.db, s.db.tokens[h].user)
  }

  lemma IssueStep(s: State, s': State, next: Hash, chain: nat, user: int, expiresAt: int)
    requires Inv(s) && Issued(s, s', next, chain, user, expiresAt) && s'.exchanged == s.exchanged
    ensures Inv(s')
  {
    assert forall h :: h != next ==> (Unrevoked(s', h) <==> Unrevoked(s, h));
    forall i | 0 <= i < |s'.exchanged| ensures Dead(s', s'.exchanged[i]) { assert Dead(s, s.exchanged[i]); }
  }

  /** A hash taken for a login that fails is never stored. */
  lemma UnusedHash(s: State, next: Hash)
    requires Inv(s) && next !in s.chain
    ensures Inv(s.(chain := s.chain[next := s.chains], chains := s.chains + 1))
  {
    var s' := s.(chain := s.chain[next := s.chains], chains := s.chains + 1);
    forall i | 0 <= i < |s'.exchanged| ensures Dead(s', s'.exchanged[i]) { assert Dead(s, s.exchanged[i]); }
  }

  lemma LoginStep(cfg: Config, s: State, user: int, next: Hash)
    requires Inv(s) && next !in s.chain
    ensures Inv(Apply(cfg, s, Login(user, next)))
  {
    var s' := Apply(cfg, s, Login(user, next));
    if CanHold(s.db, user) {
      IssueStep(s, s', next, s.chains, user, s.now + cfg.ttl);
    } else {
      UnusedHash(s, next);
    }
  }

  lemma RegisterStep(cfg: Config, s: State, user: int, next: Hash)
    requires Inv(s) && next !in s.chain
    ensures Inv(Apply(cfg, s, Register(user, next)))
  {
    var s' := Apply(cfg, s, Register(user, next));
    if user in s.db.users {
      UnusedHash(s, next);
    } else {
      IssueStep(s, s', next, s.chains, user, s.now + cfg.ttl);
    }
  }

  lemma ExchangeStep(s: State, h: Hash)
    requires Inv(s) && h in s.chain && !Unrevoked(s, h) && h !in s.exchanged
    ensures Inv(s.(exchanged := s.exchanged + [h]))
  {
    var s' := s.(exchanged := s.exchanged + [h]);
    forall i | 0 <= i < |s'.exchanged| ensures Dead(s', s'.exchanged[i]) {
      if i < |s.exchanged| { assert Dead(s, s.exchanged[i]); }
    }
  }

  /** A rotation revokes the old token, notes the exchange and issues the successor. */
  lemma RotateStep(cfg: Config, s: State, h: Hash, next: Hash)
    requires Inv(s) && next !in s.chain && RefreshTx(cfg, s.db, h, next, s.now, false).1.Rotated?
    ensures Inv(Apply(cfg, s, Refresh(h, next, false)))
  {
    var t := s.db.tokens[h];
    assert forall i :: 0 <= i < |s.exchanged| ==> Dead(s, s.exchanged[i]);
    LogoutStep(s, h);
    var s1 := s.(db := LogoutTx(s.db, h, s.now));
    ExchangeStep(s1, h);
    var s2 := s1.(exchanged := s.exchanged + [h]);
    IssueStep(s2, Apply(cfg, s, Refresh(h, next, false)), next, s.chain[h], t.user, s.now + cfg.ttl);
  }

  lemma RefreshStep(cfg: Config, s: State, h: Hash, next: Hash, createFails: bool)
    requires Inv(s) && next !in s.chain
    ensures Inv(Apply(cfg, s, Refresh(h, next, createFails)))
  {
    if RefreshTx(cfg, s.db, h, next, s.now, createFails).1.Rotated? {
      RotateStep(cfg, s, h, next);
    } else if h in s.db.tokens {
      RevokeAllStep(s, s.db.tokens[h].user);
    }
  }

  lemma EveryStep(cfg: Config, s: State, a: Action)
    requires Inv(s) && Enabled(s, a)
    ensures Inv(Apply(cfg, s, a))
  {
    match a
    case Tick(dt) => NothingIssued(s, s.(now := s.now + dt));
    case Register(user, next) => RegisterStep(cfg, s, user, next);
    case Login(user, next) => LoginStep(cfg, s, user, next);
    case Refresh(h, next, createFails) => RefreshStep(cfg, s, h, next, createFails);
    case Logout(h) => LogoutStep(s, h);
    case NewPassword(user) => RevokeAllStep(s, user);
    case SetActive(user, active) => SetActiveStep(s, user, active);
    case Purge => PurgeStep(s);
  }

  lemma {:induction false} RunKeepsInv(cfg: Config, s: State, actions: seq<Action>, s': State)
    requires Inv(s) && IsRun(cfg, s, actions, s')
    ensures Inv(s')
    decreases |actions|
  {
    if actions == [] {
    } else {
      EveryStep(cfg, s, actions[0]);
      RunKeepsInv(cfg, Apply(cfg, s, actions[0]), actions[1..], s');
    }
  }

  lemma ReachableInv(cfg: Config, s: State)
    requires Reachable(cfg, s)
    ensures Inv(s)
  {
    var actions :| IsRun(cfg, Initial, actions, s);
    RunKeepsInv(cfg, Initial, actions, s);
  }

  // ----- Rotation -----

  /** Each token is exchanged at most once, each rotation chain has at most one unrevoked token,
      and a deactivated account has none. */
  lemma RotationIsExclusive(cfg: Config, s: State)
    requires Reachable(cfg, s)
    ensures forall i, j :: 0 <= i < j < |s.exchanged| ==> s.exchanged[i] != s.exchanged[j]
    ensures forall h, h' :: Unrevoked(s, h) && Unrevoked(s, h') ==>
              h in s.chain && h' in s.chain && (s.chain[h] == s.chain[h'] ==> h == h')
    ensures forall h :: Unrevoked(s, h) ==> CanHold(s.db, s.db.tokens[h].user)
  {
    ReachableInv(cfg, s);
  }

  /** A refresh succeeds exactly on an unrevoked, unexpired token of an active account; the
      presented token is then dead and its successor takes its place in the chain. */
  lemma RefreshSucceedsExactly(cfg: Config, s: State, h: Hash, next: Hash)
    requires Reachable(cfg, s) && Enabled(s, Refresh(h, next, false))
    ensures var s' := Apply(cfg, s, Refresh(h, next, false));
            && (Unrevoked(s', next) <==> Unrevoked(s, h) && s.db.tokens[h].expiresAt > s.now)
            && (Unrevoked(s', next) ==>
                  Dead(s', h) && s'.chain[next] == s.chain[h] && s'.db.tokens[next].user == s.db.tokens[h].user)
  {
    ReachableInv(cfg, s);
  }

  // ----- Reuse detection -----

  /** revoked_at is write-once over whole runs, and a dead token stays dead. */
  lemma {:induction false} DeadForever(cfg: Config, s: State, actions: seq<Action>, s': State, h: Hash)
    requires Inv(s) && IsRun(cfg, s, actions, s') && h in s.chain
    ensures h in s'.chain && (Dead(s, h) ==> Dead(s', h))
    ensures h in s'.db.tokens ==> h in s.db.tokens && s'.db.tokens[h].user == s.db.tokens[h].user
    ensures h in s'.db.tokens && s.db.tokens[h].revokedAt.Some? ==>
              s'.db.tokens[h].revokedAt == s.db.tokens[h].revokedAt
    decreases |actions|
  {
    if actions == [] {
    } else {
      StepKeepsDead(cfg, s, actions[0], h);
      EveryStep(cfg, s, actions[0]);
      DeadForever(cfg, Apply(cfg, s, actions[0]), actions[1..], s', h);
    }
  }

  /** The token was revoked longer ago than the grace period. */
  predicate Reused(cfg: Config, s: State, h: Hash) {
    h in s.db.tokens && s.db.tokens[h].revokedAt.Some? && s.now - s.db.tokens[h].revokedAt.value > cfg.grace
  }

  /** All the ways an unrevoked token h of the given user can come to its end. */
  predicate Kills(cfg: Config, s: State, a: Action, h: Hash, user: int, expiresAt: int) {
    match a
    case Refresh(presented, _, createFails) =>
      || (presented == h && expiresAt > s.now && !createFails)
      || (Reused(cfg, s, presented) && s.db.tokens[presented].user == user)
    case Logout(presented) => presented == h
    case NewPassword(u) => u == user
    case SetActive(u, active) => u == user && !active
    case Purge => expiresAt < s.now
    case _ => false
  }

  /** A token dies by its own rotation or logout, by the reuse of any token of its user, by a new
      password or a deactivation of its user, or by purging once expired, and by nothing else:
      no one else's actions ever log a user out. */
  lemma KilledExactlyBy(cfg: Config, s: State, a: Action, h: Hash)
    requires Inv(s) && Enabled(s, a) && Unrevoked(s, h)
    ensures Unrevoked(Apply(cfg, s, a), h) <==> !Kills(cfg, s, a, h, s.db.tokens[h].user, s.db.tokens[h].expiresAt)
    ensures Unrevoked(Apply(cfg, s, a), h) ==> Apply(cfg, s, a).db.tokens[h] == s.db.tokens[h]
  {
    assert CanHold(s.db, s.db.tokens[h].user);
  }

  /** No action of the run kills the token h. */
  ghost predicate NothingKills(cfg: Config, s: State, actions: seq<Action>, h: Hash)
    decreases |actions|
  {
    actions != [] && Enabled(s, actions[0]) && Unrevoked(s, h) ==>
      && !Kills(cfg, s, actions[0], h, s.db.tokens[h].user, s.db.tokens[h].expiresAt)
      && NothingKills(cfg, Apply(cfg, s, actions[0]), actions[1..], h)
  }

  /** Over whole runs: an unrevoked token is still there, unchanged, if and only if nothing on the
      list has killed it. */
  lemma {:induction false} SurvivesIffNotKilled(cfg: Config, s: State, actions: seq<Action>, s': State, h: Hash)
    requires Inv(s) && IsRun(cfg, s, actions, s') && Unrevoked(s, h)
    ensures Unrevoked(s', h) <==> NothingKills(cfg, s, actions, h)
    ensures Unrevoked(s', h) ==> s'.db.tokens[h] == s.db.tokens[h]
    decreases |actions|
  {
    if actions == [] {
    } else {
      var s1 := Apply(cfg, s, actions[0]);
      KilledExactlyBy(cfg, s, actions[0], h);
      EveryStep(cfg, s, actions[0]);
      if Unrevoked(s1, h) {
        SurvivesIffNotKilled(cfg, s1, actions[1..], s', h);
      } else {
        StepKeepsDead(cfg, s, actions[0], h);
        DeadForever(cfg, s1, actions[1..], s', h);
      }
    }
  }

  lemma ReuseRevokesAll(cfg: Config, s: State, h: Hash, next: Hash, createFails: bool, h': Hash)
    requires Inv(s) && Enabled(s, Refresh(h, next, createFails)) && h' in s.chain
    requires Reused(cfg, s, h)
    requires h' in s.db.tokens ==> s.db.tokens[h'].user == s.db.tokens[h].user
    ensures Dead(Apply(cfg, s, Refresh(h, next, createFails)), h')
  {
  }

  /** Theft containment: presenting a revoked token past the grace period kills every token its
      user holds, although the request itself fails and rolls back, and none of them is ever
      accepted again, whatever follows. */
  lemma ReuseIsFinal(
      cfg: Config, s: State, h: Hash, next: Hash, createFails: bool, actions: seq<Action>, s': State, h': Hash)
    requires Reachable(cfg, s) && Enabled(s, Refresh(h, next, createFails))
    requires Reused(cfg, s, h)
    requires h' in s.db.tokens && s.db.tokens[h'].user == s.db.tokens[h].user
    requires IsRun(cfg, Apply(cfg, s, Refresh(h, next, createFails)), actions, s')
    ensures RefreshTx(cfg, s.db, h, next, s.now, createFails).1 == InvalidToken
    ensures Dead(s', h')
    ensures forall next', now', fails :: !RefreshTx(cfg, s'.db, h', next', now', fails).1.Rotated?
  {
    ReachableInv(cfg, s);
    var s1 := Apply(cfg, s, Refresh(h, next, createFails));
    ReuseRevokesAll(cfg, s, h, next, createFails, h');
    EveryStep(cfg, s, Refresh(h, next, createFails));
    DeadForever(cfg, s1, actions, s', h');
  }

  /** The token h was exchanged for next at some instant in the past. */
  lemma RotationLeaves(cfg: Config, s: State, h: Hash, next: Hash)
    requires Inv(s) && Enabled(s, Refresh(h, next, false)) && Unrevoked(s, h) && s.db.tokens[h].expiresAt > s.now
    ensures var s1 := Apply(cfg, s, Refresh(h, next, false));
            && s1.now == s.now && h in s1.chain && next in s1.chain && Unrevoked(s1, next)
            && s1.db.tokens[next].expiresAt == s.now + cfg.ttl
            && h in s1.db.tokens && s1.db.tokens[h].revokedAt == Some(s.now)
  {
    assert CanHold(s.db, s.db.tokens[h].user);
  }

  /** A benign retry: whatever happens after a rotation, presenting the old token again within the
      grace period is refused and changes nothing; and the new token goes on working until it
      expires, unless something on the list kills it. */
  lemma GraceRetryIsHarmless(
      cfg: Config, s: State, h: Hash, next: Hash, actions: seq<Action>, s': State, retry: Hash, createFails: bool)
    requires Reachable(cfg, s) && Enabled(s, Refresh(h, next, false))
    requires Unrevoked(s, h) && s.db.tokens[h].expiresAt > s.now
    requires IsRun(cfg, Apply(cfg, s, Refresh(h, next, false)), actions, s')
    ensures s'.now - s.now <= cfg.grace ==>
              RefreshTx(cfg, s'.db, h, retry, s'.now, createFails) == (s'.db, InvalidToken)
    ensures RefreshTx(cfg, s'.db, next, retry, s'.now, false).1.Rotated? <==>
              s'.now < s.now + cfg.ttl && NothingKills(cfg, Apply(cfg, s, Refresh(h, next, false)), actions, next)
  {
    var s1 := Apply(cfg, s, Refresh(h, next, false));
    ReachableInv(cfg, s);
    RotationLeaves(cfg, s, h, next);
    EveryStep(cfg, s, Refresh(h, next, false));
    RunKeepsInv(cfg, s1, actions, s');
    DeadForever(cfg, s1, actions, s', h);
    DeadForever(cfg, s1, actions, s', next);
    SurvivesIffNotKilled(cfg, s1, actions, s', next);
  }

  /** Purging removes exactly the tokens that have expired, so reuse of a rotated token is detected
      for as long as the token would have lived; and it makes no refresh succeed or fail. */
  lemma PurgeIsSafe(cfg: Config, db: Db, now: int, h: Hash, next: Hash, later: int, fails: bool)
    requires now <= later
    ensures h in PurgeTx(db, now).tokens <==> h in db.tokens && db.tokens[h].expiresAt >= now
    ensures h in PurgeTx(db, now).tokens ==> PurgeTx(db, now).tokens[h] == db.tokens[h]
    ensures RefreshTx(cfg, PurgeTx(db, now), h, next, later, fails).1.Rotated? <==>
              RefreshTx(cfg, db, h, next, later, fails).1.Rotated?
  {
  }

  // ----- Accounts -----

  /** Whether an account can hold tokens after one step: registration and set_active decide it, and
      nothing else touches it. */
  lemma AccountStep(cfg: Config, s: State, a: Action, user: int)
    requires Enabled(s, a)
    ensures CanHold(Apply(cfg, s, a).db, user) <==>
              match a
              case Register(u, _) => CanHold(s.db, user) || (u == user && user !in s.db.users)
              case SetActive(u, active) => if u == user && user in s.db.users then active else CanHold(s.db, user)
              case _ => CanHold(s.db, user)
    ensures user in Apply(cfg, s, a).db.users <==> user in s.db.users || (a.Register? && a.user == user)
  {
  }

  /** The last word on the account `user` in a run: Some(b) when it was set to b, or registered. */
  function LastWord(actions: seq<Action>, user: int, known: bool): Option<bool> {
    if actions == [] then None
    else
      var a := actions[0];
      var later := LastWord(actions[1..], user, known || (a.Register? && a.user == user));
      if later.Some? then later
      else if a.SetActive? && a.user == user && known then Some(a.active)
      else if a.Register? && a.user == user && !known then Some(true)
      else None
  }

  /** Over whole runs an account can hold tokens exactly when the last word on it said so: a
      deactivated one can again as soon as it is reactivated, and stays so. */
  lemma {:induction false} ActiveByLastWord(cfg: Config, s: State, actions: seq<Action>, s': State, user: int)
    requires IsRun(cfg, s, actions, s')
    ensures var word := LastWord(actions, user, user in s.db.users);
            CanHold(s'.db, user) <==> if word.Some? then word.value else CanHold(s.db, user)
    decreases |actions|
  {
    if actions == [] {
    } else {
      AccountStep(cfg, s, actions[0], user);
      ActiveByLastWord(cfg, Apply(cfg, s, actions[0]), actions[1..], s', user);
    }
  }

  /** A login leaves a live token exactly when the account is active, and a registration exactly when
      the account is new; the token is the user's and lives for the configured time. */
  lemma LiveTokenIff(cfg: Config, s: State, user: int, next: Hash)
    requires Reachable(cfg, s) && next !in s.chain
    ensures var s' := Apply(cfg, s, Login(user, next));
            && (Unrevoked(s', next) <==> CanHold(s.db, user))
            && (Unrevoked(s', next) ==> s'.db.tokens[next] == Token(user, s.now + cfg.ttl, None))
    ensures var s' := Apply(cfg, s, Register(user, next));
            && (Unrevoked(s', next) <==> user !in s.db.users)
            && (Unrevoked(s', next) ==> s'.db.tokens[next] == Token(user, s.now + cfg.ttl, None) && CanHold(s'.db, user))
  {
    ReachableInv(cfg, s);
  }

  lemma {:induction false} RunSnoc(cfg: Config, s: State, actions: seq<Action>, s1: State, a: Action)
    requires IsRun(cfg, s, actions, s1) && Enabled(s1, a)
    ensures IsRun(cfg, s, actions + [a], Apply(cfg, s1, a))
    decreases |actions|
  {
    if actions == [] {
      assert actions + [a] == [a] && [a][1..] == [];
    } else {
      assert (actions + [a])[1..] == actions[1..] + [a];
      RunSnoc(cfg, Apply(cfg, s, actions[0]), actions[1..], s1, a);
    }
  }

  lemma ReachableNext(cfg: Config, s: State, a: Action)
    requires Reachable(cfg, s) && Enabled(s, a)
    ensures Reachable(cfg, Apply(cfg, s, a))
  {
    var actions :| IsRun(cfg, Initial, actions, s);
    RunSnoc(cfg, Initial, actions, s, a);
  }

  /** Reactivation works: from any reachable state a known user who is set active can log in, and
      whatever happens then the token serves until it expires unless something on the list
      kills it. */
  lemma ReactivatedCanLogIn(
      cfg: Config, s: State, user: int, next: Hash, actions: seq<Action>, s': State, later: Hash)
    requires Reachable(cfg, s) && user in s.db.users && next !in s.chain
    requires var s1 := Apply(cfg, s, SetActive(user, true));
             Enabled(s1, Login(user, next)) && IsRun(cfg, Apply(cfg, s1, Login(user, next)), actions, s')
    requires Enabled(s', Refresh(next, later, false))
    ensures var s2 := Apply(cfg, Apply(cfg, s, SetActive(user, true)), Login(user, next));
            && CanHold(s2.db, user)
            && Unrevoked(s2, next) && s2.db.tokens[next] == Token(user, s.now + cfg.ttl, None)
            && (Unrevoked(Apply(cfg, s', Refresh(next, later, false)), later) <==>
                  s'.now < s.now + cfg.ttl && NothingKills(cfg, s2, actions, next))
  {
    var s1 := Apply(cfg, s, SetActive(user, true));
    ReachableNext(cfg, s, SetActive(user, true));
    AccountStep(cfg, s, SetActive(user, true), user);
    LiveTokenIff(cfg, s1, user, next);
    AccountStep(cfg, s1, Login(user, next), user);
    ReachableNext(cfg, s1, Login(user, next));
    var s2 := Apply(cfg, s1, Login(user, next));
    ReachableInv(cfg, s2);
    SurvivesIffNotKilled(cfg, s2, actions, s', next);
    RunKeepsInv(cfg, s2, actions, s');
    if !Unrevoked(s', next) { DeadForever(cfg, s2, actions, s', next); }
  }
}
