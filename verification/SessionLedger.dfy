/** Session metering and the daily quota: the locked transactions of
    backend/app/features/sessions/service.py, with sessions/activity.py and core/quota.py.

    Instants are reals in minutes; a day is 1440 of them. */
module SessionLedger {
  import opened Options
  import opened Streaks

  // ----- Pure helpers -----

  /** Minutes between mark and now, never negative. */
  function ElapsedMinutes(mark: real, now: real): (m: real)
    ensures m >= 0.0 && m >= now - mark && (m == 0.0 || m == now - mark)
  {
    if now > mark then now - mark else 0.0
  }

  function CappedMinutes(mark: real, now: real, cap: real): (m: real)
    requires cap >= 0.0
    ensures 0.0 <= m <= cap && m <= ElapsedMinutes(mark, now)
    ensures m == cap || m == ElapsedMinutes(mark, now)
    ensures m > 0.0 ==> now > mark
  {
    var m := ElapsedMinutes(mark, now);
    if m < cap then m else cap
  }

  predicate IsStale(lastActivity: real, now: real, timeout: real) {
    ElapsedMinutes(lastActivity, now) > timeout
  }

  /** The UTC calendar day of an instant. */
  function Day(t: real): int { (t / 1440.0).Floor }

  lemma DayHasInstant(t: real)
    ensures Day(t) as real * 1440.0 <= t < (Day(t) + 1) as real * 1440.0
  {
  }

  const MAX_PRACTICE_SKEW := 48.0 * 60.0

  /** A client instant counts only within [now - 48 h, now]; anything else becomes now. */
  function ClampPracticedAt(raw: Option<real>, now: real): (t: real)
    ensures now - 2880.0 <= t <= now
    ensures raw.Some? && now - 2880.0 <= raw.value <= now ==> t == raw.value
    ensures raw == Some(t) || t == now
  {
    if raw.None? || raw.value > now || now - raw.value > MAX_PRACTICE_SKEW then now else raw.value
  }

  // ----- Rows -----

  datatype User = User(free: bool, quotaDate: Option<int>, minutesUsedToday: real, streak: StreakState)

  datatype Session = Session(startedAt: real, lastActivityAt: real, endedAt: Option<real>, duration: real)

  /** One call of record_usage: the stretch it was computed from and the minutes billed. */
  datatype Charge = Charge(session: nat, from: real, to: real, minutes: real)

  /** One user's rows. `charges`, `openings` (each session's first last_activity_at) and
      `activeDays` are what the proofs remember. */
  datatype Db = Db(
    user: User, sessions: seq<Session>, charges: seq<Charge>, openings: seq<real>, activeDays: seq<int>)

  datatype Config = Config(freeDaily: real, timeout: real, cap: real)

  predicate OutOfQuota(cfg: Config, user: User, today: int) {
    user.free && cfg.freeDaily - (if user.quotaDate == Some(today) then user.minutesUsedToday else 0.0) <= 0.0
  }

  function RecordUsage(user: User, minutes: real, today: int): User {
    if user.quotaDate == Some(today) then user.(minutesUsedToday := user.minutesUsedToday + minutes)
    else user.(quotaDate := Some(today), minutesUsedToday := minutes)
  }

  // ----- Transactions -----

  /** Session sid becomes s; minutes, when positive, are billed for the stretch (from, to). */
  function Meter(db: Db, sid: nat, s: Session, from: real, to: real, minutes: real): Db
    requires sid < |db.sessions|
  {
    var db1 := db.(sessions := db.sessions[sid := s]);
    if minutes > 0.0 then
      db1.(user := RecordUsage(db.user, minutes, Day(to)), charges := db.charges + [Charge(sid, from, to, minutes)])
    else db1
  }

  /** _close_session. */
  function CloseTx(cfg: Config, db: Db, sid: nat, now: real): Db
    requires cfg.cap >= 0.0 && sid < |db.sessions|
  {
    var s := db.sessions[sid];
    var residual := CappedMinutes(s.lastActivityAt, now, cfg.cap);
    Meter(db, sid, s.(endedAt := Some(now), duration := s.duration + residual), s.lastActivityAt, now, residual)
  }

  /** The locked section of record_turn_activity; mark is last_activity_at as read before. */
  function TurnTx(cfg: Config, db: Db, sid: nat, mark: real, now: real): Db
    requires cfg.cap >= 0.0 && sid < |db.sessions|
  {
    var s := db.sessions[sid];
    if s.endedAt.Some? then db
    else
      var minutes := CappedMinutes(mark, now, cfg.cap);
      var db1 := Meter(db, sid, s.(lastActivityAt := now, duration := s.duration + minutes), mark, now, minutes);
      db1.(user := db1.user.(streak := RegisterActiveDay(db.user.streak, Day(now))),
           activeDays := db.activeDays + [Day(now)])
  }

  datatype StartResult = Started | QuotaExhausted | ActiveSessionExists | MissionNotFound

  /** The instants one start call reads off the clock, in order. */
  datatype StartTimes = StartTimes(quotaCheck: real, reap: real, started: real, active: real)

  /** get_active_for_user: the first session without an end, looking from `from`. */
  function FirstActive(db: Db, from: nat): (r: Option<nat>)
    ensures r.Some? ==> from <= r.value < |db.sessions| && db.sessions[r.value].endedAt.None?
    ensures r.None? ==> forall i :: from <= i < |db.sessions| ==> db.sessions[i].endedAt.Some?
    decreases |db.sessions| - from
  {
    if from >= |db.sessions| then None
    else if db.sessions[from].endedAt.None? then Some(from)
    else FirstActive(db, from + 1)
  }

  function OpenTx(db: Db, t: StartTimes): Db {
    db.(sessions := db.sessions + [Session(t.started, t.active, None, 0.0)], openings := db.openings + [t.active])
  }

  /** What a start call leaves committed, and its outcome. */
  function StartTx(cfg: Config, db: Db, t: StartTimes, missionOk: bool): (Db, StartResult)
    requires cfg.cap >= 0.0
  {
    var active := FirstActive(db, 0);
    if OutOfQuota(cfg, db.user, Day(t.quotaCheck)) then (db, QuotaExhausted)
    else if active.None? then
      if missionOk then (OpenTx(db, t), Started) else (db, MissionNotFound)
    else if !IsStale(db.sessions[active.value].lastActivityAt, t.reap, cfg.timeout) then (db, ActiveSessionExists)
    else
      var reaped := CloseTx(cfg, db, active.value, t.reap);
      if OutOfQuota(cfg, reaped.user, Day(t.reap)) then (reaped, QuotaExhausted)
      else if missionOk then (OpenTx(reaped, t), Started)
      else (db, MissionNotFound)
  }

  // ----- The service, with its database session -----

  /** SessionService over one user's rows. Writes go to `staged`; commit publishes them and an
      exception rolls them back. */
  class SessionService {
    const cfg: Config
    var committed: Db
    var staged: Db

    ghost predicate Clean()
      reads this
    {
      staged == committed && cfg.cap >= 0.0
    }

    constructor (cfg: Config, db: Db)
      requires cfg.cap >= 0.0
      ensures Clean() && this.cfg == cfg && committed == db
    {
      this.cfg, committed, staged := cfg, db, db;
    }

    method Commit()
      modifies this
      ensures committed == old(staged) && staged == old(staged)
    {
      committed := staged;
    }

    method Rollback()
      modifies this
      ensures staged == old(committed) && committed == old(committed)
    {
      staged := committed;
    }

    method Bill(sid: nat, from: real, to: real, minutes: real)
      modifies `staged
      ensures staged == old(staged).(user := RecordUsage(old(staged.user), minutes, Day(to)),
                                     charges := old(staged.charges) + [Charge(sid, from, to, minutes)])
    {
      var user := staged.user;
      if user.quotaDate != Some(Day(to)) {
        user := user.(quotaDate := Some(Day(to)), minutesUsedToday := 0.0);
      }
      user := user.(minutesUsedToday := user.minutesUsedToday + minutes);
      staged := staged.(user := user, charges := staged.charges + [Charge(sid, from, to, minutes)]);
    }

    method CloseSession(sid: nat, now: real)
      requires cfg.cap >= 0.0 && sid < |staged.sessions|
      modifies `staged
      ensures staged == CloseTx(cfg, old(staged), sid, now)
    {
      var s := staged.sessions[sid];
      var residual := CappedMinutes(s.lastActivityAt, now, cfg.cap);
      s := s.(endedAt := Some(now), duration := s.duration + residual);
      staged := staged.(sessions := staged.sessions[sid := s]);
      if residual > 0.0 {
        Bill(sid, s.lastActivityAt, now, residual);
      }
    }

    /** The section of record_turn_activity under the user's row lock. */
    method RecordTurn(sid: nat, mark: real, now: real)
      requires Clean() && sid < |committed.sessions|
      modifies this
      ensures Clean() && committed == TurnTx(cfg, old(committed), sid, mark, now)
    {
      var s := staged.sessions[sid];
      if s.endedAt.Some? {
        return;
      }
      var minutes := CappedMinutes(mark, now, cfg.cap);
      s := s.(lastActivityAt := now);
      if minutes > 0.0 {
        s := s.(duration := s.duration + minutes);
      }
      staged := staged.(sessions := staged.sessions[sid := s]);
      if minutes > 0.0 {
        Bill(sid, mark, now, minutes);
      }
      staged := staged.(user := staged.user.(streak := RegisterActiveDay(staged.user.streak, Day(now))),
                        activeDays := staged.activeDays + [Day(now)]);
      Commit();
    }

    /** The section of end under the user's row lock. */
    method End(sid: nat, now: real)
      requires Clean() && sid < |committed.sessions|
      modifies this
      ensures Clean()
      ensures committed == if old(committed).sessions[sid].endedAt.Some? then old(committed)
                           else CloseTx(cfg, old(committed), sid, now)
    {
      if staged.sessions[sid].endedAt.Some? {
        return;
      }
      CloseSession(sid, now);
      Commit();
    }

    /** start: checks, lazy reap, second quota check, mission check, insert. */
    method Start(t: StartTimes, missionOk: bool) returns (result: StartResult)
      requires Clean()
      modifies this
      ensures Clean()
      ensures (committed, result) == StartTx(cfg, old(committed), t, missionOk)
    {
      if OutOfQuota(cfg, staged.user, Day(t.quotaCheck)) {
        return QuotaExhausted;
      }
      var active := FirstActive(staged, 0);
      if active.Some? {
        if !IsStale(staged.sessions[active.value].lastActivityAt, t.reap, cfg.timeout) {
          return ActiveSessionExists;
        }
        CloseSession(active.value, t.reap);
        if OutOfQuota(cfg, staged.user, Day(t.reap)) {
          Commit();
          return QuotaExhausted;
        }
      }
      if !missionOk {
        Rollback();
        return MissionNotFound;
      }
      staged := staged.(sessions := staged.sessions + [Session(t.started, t.active, None, 0.0)],
                        openings := staged.openings + [t.active]);
      Commit();
      return Started;
    }
  }
}
