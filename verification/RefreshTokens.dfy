/** Rotating refresh tokens: the transactions of backend/app/features/auth/service.py over the
    token table of backend/app/features/auth/repository.py, one at a time. */
module RefreshTokens {
  import opened Options

  /** The hash under which a token is stored. */
  type Hash = int

  datatype Token = Token(user: int, expiresAt: int, revokedAt: Option<int>)

  /** Token rows, and for each known user whether the account is active. */
  datatype Db = Db(tokens: map<Hash, Token>, users: map<int, bool>)

  datatype Config = Config(ttl: nat, grace: nat)

  datatype Outcome = Rotated(next: Hash) | InvalidToken | ExpiredToken | Failed

  predicate CanHold(db: Db, user: int) { user in db.users && db.users[user] }

  function Revoked(t: Token, now: int): Token {
    if t.revokedAt.None? then t.(revokedAt := Some(now)) else t
  }

  /** UPDATE ... SET revoked_at WHERE user_id = user AND revoked_at IS NULL. */
  function RevokeAll(db: Db, user: int, now: int): Db {
    db.(tokens := map h | h in db.tokens ::
                    if db.tokens[h].user == user then Revoked(db.tokens[h], now) else db.tokens[h])
  }

  function IssueTx(cfg: Config, db: Db, user: int, next: Hash, now: int): Db {
    db.(tokens := db.tokens[next := Token(user, now + cfg.ttl, None)])
  }

  /** What a refresh leaves committed, and its outcome. Presenting a token revoked longer ago
      than the grace period revokes everything of its user. */
  function RefreshTx(cfg: Config, db: Db, h: Hash, next: Hash, now: int, createFails: bool): (Db, Outcome) {
    if h !in db.tokens then (db, InvalidToken)
    else
      var t := db.tokens[h];
      if t.revokedAt.Some? then
        (if now - t.revokedAt.value > cfg.grace then RevokeAll(db, t.user, now) else db, InvalidToken)
      else if t.expiresAt <= now then (db, ExpiredToken)
      else if !CanHold(db, t.user) then (db, InvalidToken)
      else if createFails then (db, Failed)
      else (IssueTx(cfg, db.(tokens := db.tokens[h := Revoked(t, now)]), t.user, next, now), Rotated(next))
  }

  function LogoutTx(db: Db, h: Hash, now: int): Db {
    if h in db.tokens then db.(tokens := db.tokens[h := Revoked(db.tokens[h], now)]) else db
  }

  function LoginTx(cfg: Config, db: Db, user: int, next: Hash, now: int): Db {
    if CanHold(db, user) then IssueTx(cfg, db, user, next, now) else db
  }

  function RegisterTx(cfg: Config, db: Db, user: int, next: Hash, now: int): Db {
    if user in db.users then db else IssueTx(cfg, db.(users := db.users[user := true]), user, next, now)
  }

  /** change_password and reset_password, as far as tokens go. */
  function PasswordTx(db: Db, user: int, now: int): Db { RevokeAll(db, user, now) }

  function SetActiveTx(db: Db, user: int, active: bool, now: int): Db {
    if user !in db.users then db
    else
      var db1 := db.(users := db.users[user := active]);
      if active then db1 else RevokeAll(db1, user, now)
  }

  function PurgeTx(db: Db, now: int): Db {
    db.(tokens := map h | h in db.tokens && db.tokens[h].expiresAt >= now :: db.tokens[h])
  }

  /** AuthService and its database session: writes are staged, commit publishes them, and an
      exception rolls back whatever is still staged. */
  class AuthService {
    const cfg: Config
    var committed: Db
    var staged: Db

    ghost predicate Clean()
      reads this
    {
      staged == committed
    }

    constructor (cfg: Config, db: Db)
      ensures Clean() && this.cfg == cfg && committed == db
    {
      this.cfg, committed, staged := cfg, db, db;
    }

    method Commit()
      modifies this
      ensures Clean() && committed == old(staged)
    {
      committed := staged;
    }

    method Rollback()
      modifies this
      ensures Clean() && committed == old(committed)
    {
      staged := committed;
    }

    method Revoke(h: Hash, now: int)
      requires h in staged.tokens
      modifies `staged
      ensures staged == old(staged).(tokens := old(staged.tokens)[h := old(staged.tokens)[h].(revokedAt := Some(now))])
    {
      staged := staged.(tokens := staged.tokens[h := staged.tokens[h].(revokedAt := Some(now))]);
    }

    method RevokeAllForUser(user: int, now: int, commit: bool)
      modifies this
      ensures staged == RevokeAll(old(staged), user, now)
      ensures committed == if commit then staged else old(committed)
    {
      staged := RevokeAll(staged, user, now);
      if commit {
        Commit();
      }
    }

    /** refresh: lock, check, rotate; every failure ends in a rollback, which cannot undo the
        revocation already committed on reuse. */
    method Refresh(h: Hash, next: Hash, now: int, createFails: bool) returns (outcome: Outcome)
      requires Clean()
      modifies this
      ensures Clean() && (committed, outcome) == RefreshTx(cfg, old(committed), h, next, now, createFails)
    {
      if h !in staged.tokens {
        Rollback();
        return InvalidToken;
      }
      var record := staged.tokens[h];
      if record.revokedAt.Some? {
        if now - record.revokedAt.value > cfg.grace {
          RevokeAllForUser(record.user, now, true);
        }
        Rollback();
        return InvalidToken;
      }
      if record.expiresAt <= now {
        Rollback();
        return ExpiredToken;
      }
      if !CanHold(staged, record.user) {
        Rollback();
        return InvalidToken;
      }
      Revoke(h, now);
      if createFails {
        Rollback();
        return Failed;
      }
      staged := staged.(tokens := staged.tokens[next := Token(record.user, now + cfg.ttl, None)]);
      Commit();
      return Rotated(next);
    }

    method Logout(h: Hash, now: int)
      requires Clean()
      modifies this
      ensures Clean() && committed == LogoutTx(old(committed), h, now)
    {
      if h in staged.tokens {
        if staged.tokens[h].revokedAt.None? {
          Revoke(h, now);
          Commit();
        }
        assert committed.tokens == LogoutTx(old(committed), h, now).tokens;
      }
    }

    /** register: the user and the first token are one transaction; when the token cannot be
        stored, no orphan account is left behind. */
    method Register(user: int, next: Hash, now: int, createFails: bool)
      requires Clean()
      modifies this
      ensures Clean()
      ensures committed == if createFails then old(committed) else RegisterTx(cfg, old(committed), user, next, now)
    {
      if user in staged.users {
        return;
      }
      staged := staged.(users := staged.users[user := true]);
      if createFails {
        Rollback();
        return;
      }
      staged := staged.(tokens := staged.tokens[next := Token(user, now + cfg.ttl, None)]);
      Commit();
    }

    method Login(user: int, next: Hash, now: int)
      requires Clean()
      modifies this
      ensures Clean() && committed == LoginTx(cfg, old(committed), user, next, now)
    {
      if !CanHold(staged, user) {
        return;
      }
      staged := staged.(tokens := staged.tokens[next := Token(user, now + cfg.ttl, None)]);
      Commit();
    }

    /** set_active: deactivation and revocation are one transaction. */
    method SetActive(user: int, active: bool, now: int)
      requires Clean()
      modifies this
      ensures Clean() && committed == SetActiveTx(old(committed), user, active, now)
    {
      if user !in staged.users {
        return;
      }
      staged := staged.(users := staged.users[user := active]);
      if !active {
        RevokeAllForUser(user, now, false);
      }
      Commit();
    }
  }
}
