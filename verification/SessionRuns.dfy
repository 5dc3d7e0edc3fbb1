/** Every interleaving of metered turns, /end calls and starts of one user, and what all of them
    keep. A turn and an /end first read the session without a lock, and act on it later under the
    user's row lock; such reads may also fall between the instants that a start, which holds the
    lock, takes. A session has at most one turn in flight (the turn lock). The instant a turn
    carries may lie anywhere in the past: a client may send in what was practised offline. */
module SessionRuns {
  import opened Options
  import opened Streaks
  import opened SessionLedger

  datatype TurnRead = TurnRead(mark: real, now: real)
  datatype EndRead = EndRead(session: nat, now: real)

  datatype State = State(db: Db, clock: real, turns: map<nat, TurnRead>, ends: seq<EndRead>)

  datatype Action =
    | Tick(dt: real)
    | ReadTurn(session: nat, now: real)
    | CommitTurn(session: nat)
    | DropTurn(session: nat)
    | ReadEnd(session: nat)
    | CommitEnd(index: nat)
    | Start(times: StartTimes, missionOk: bool)

  predicate Live(s: State, sid: nat) { sid < |s.db.sessions| && s.db.sessions[sid].endedAt.None? }

  predicate Enabled(s: State, a: Action) {
    match a
    case Tick(dt) => dt >= 0.0
    case ReadTurn(sid, now) =>
      Live(s, sid) && sid !in s.turns && now <= s.clock
    case CommitTurn(sid) => sid in s.turns && sid < |s.db.sessions|
    case DropTurn(sid) => sid in s.turns
    case ReadEnd(sid) => Live(s, sid)
    case CommitEnd(i) => i < |s.ends| && s.ends[i].session < |s.db.sessions|
    case Start(t, _) => s.clock <= t.reap && t.quotaCheck <= t.reap <= t.started <= t.active
  }

  function EndTx(cfg: Config, db: Db, e: EndRead): Db
    requires cfg.cap >= 0.0 && e.session < |db.sessions|
  {
    if db.sessions[e.session].endedAt.Some? then db else CloseTx(cfg, db, e.session, e.now)
  }

  function Apply(cfg: Config, s: State, a: Action): State
    requires cfg.cap >= 0.0 && Enabled(s, a)
  {
    match a
    case Tick(dt) => s.(clock := s.clock + dt)
    case ReadTurn(sid, now) => s.(turns := s.turns[sid := TurnRead(s.db.sessions[sid].lastActivityAt, now)])
    case CommitTurn(sid) =>
      s.(db := TurnTx(cfg, s.db, sid, s.turns[sid].mark, s.turns[sid].now), turns := s.turns - {sid})
    case DropTurn(sid) => s.(turns := s.turns - {sid})
    case ReadEnd(sid) => s.(ends := s.ends + [EndRead(sid, s.clock)])
    case CommitEnd(i) => s.(db := EndTx(cfg, s.db, s.ends[i]))
    case Start(t, missionOk) => s.(db := StartTx(cfg, s.db, t, missionOk).0, clock := t.active)
  }

  ghost predicate IsRun(cfg: Config, s: State, actions: seq<Action>, s': State)
    requires cfg.cap >= 0.0
    decreases |actions|
  {
    if actions == [] then s == s'
    else Enabled(s, actions[0]) && IsRun(cfg, Apply(cfg, s, actions[0]), actions[1..], s')
  }

  predicate IsInitial(s: State) {
    && s.db.sessions == [] && s.db.charges == [] && s.db.openings == [] && s.db.activeDays == []
    && s.db.user.quotaDate == None && s.db.user.streak == NoStreak
    && s.turns == map[] && s.ends == []
  }

  ghost predicate Reachable(cfg: Config, s: State)
    requires cfg.cap >= 0.0
  {
    exists s0, actions :: IsInitial(s0) && IsRun(cfg, s0, actions, s)
  }

  // ----- Sums over the charges -----

  function TotalFor(charges: seq<Charge>, sid: nat): real {
    if charges == [] then 0.0
    else
      var c := charges[|charges| - 1];
      TotalFor(charges[..|charges| - 1], sid) + if c.session == sid then c.minutes else 0.0
  }

  function TotalOn(charges: seq<Charge>, day: int): real {
    if charges == [] then 0.0
    else
      var c := charges[|charges| - 1];
      TotalOn(charges[..|charges| - 1], day) + if Day(c.to) == day then c.minutes else 0.0
  }

  /** The minutes of the latest charges in a row that fall on one day. */
  function TailOnDay(charges: seq<Charge>): real {
    if charges == [] then 0.0
    else
      var n := |charges| - 1;
      charges[n].minutes +
      if n > 0 && Day(charges[n - 1].to) == Day(charges[n].to) then TailOnDay(charges[..n]) else 0.0
  }

  predicate SameDayAsLast(charges: seq<Charge>, c: Charge) {
    charges != [] && Day(charges[|charges| - 1].to) == Day(c.to)
  }

  lemma TotalsSnoc(charges: seq<Charge>, c: Charge, sid: nat, day: int)
    ensures TotalFor(charges + [c], sid) == TotalFor(charges, sid) + if c.session == sid then c.minutes else 0.0
    ensures TotalOn(charges + [c], day) == TotalOn(charges, day) + if Day(c.to) == day then c.minutes else 0.0
    ensures TailOnDay(charges + [c]) == c.minutes + if SameDayAsLast(charges, c) then TailOnDay(charges) else 0.0
  {
    assert (charges + [c])[..|charges|] == charges;
  }

  // ----- The invariant of all runs -----

  /** Only the last session can be open. */
  predicate SessionsOk(db: Db, clock: real) {
    && (forall i :: 0 <= i < |db.sessions| - 1 ==> db.sessions[i].endedAt.Some?)
    && (forall i :: 0 <= i < |db.sessions| ==>
          db.sessions[i].startedAt <= clock && db.sessions[i].lastActivityAt <= clock)
    && forall i, j :: 0 <= i < j < |db.sessions| ==> db.sessions[i].startedAt <= db.sessions[j].startedAt
  }

  predicate ChargeOk(db: Db, clock: real, c: Charge) {
    c.session < |db.sessions| && 0.0 < c.minutes <= c.to - c.from && c.to <= clock
  }

  /** The charges of one session come before those of the next, and before the next begins. */
  predicate ChargesOk(db: Db, clock: real) {
    && (forall i :: 0 <= i < |db.charges| ==> ChargeOk(db, clock, db.charges[i]))
    && (forall i, j :: 0 <= i < j < |db.charges| ==> db.charges[i].session <= db.charges[j].session)
    && forall i, k :: 0 <= i < |db.charges| && db.charges[i].session < k < |db.sessions| ==>
         db.charges[i].to <= db.sessions[k].startedAt
  }

  /** Each session's duration is what was charged for it. */
  predicate DurationsOk(db: Db) {
    forall sid :: 0 <= sid < |db.sessions| ==> db.sessions[sid].duration == TotalFor(db.charges, sid)
  }

  /** The user's counter holds the latest charges in a row on its day. */
  predicate CounterOk(db: Db) {
    match db.user.quotaDate
    case None => db.charges == []
    case Some(d) =>
      db.charges != [] && d == Day(db.charges[|db.charges| - 1].to) && db.user.minutesUsedToday == TailOnDay(db.charges)
  }

  predicate DbOk(db: Db, clock: real) {
    && SessionsOk(db, clock) && ChargesOk(db, clock) && DurationsOk(db) && CounterOk(db)
    && db.user.streak == StreakAfter(db.activeDays)
  }

  predicate TurnOk(s: State, sid: nat, t: TurnRead) {
    t.now <= s.clock && (Live(s, sid) ==> t.mark == s.db.sessions[sid].lastActivityAt)
  }

  predicate Inv(s: State) {
    && DbOk(s.db, s.clock)
    && (forall sid :: sid in s.turns ==> sid < |s.db.sessions| && TurnOk(s, sid, s.turns[sid]))
    && (forall i :: 0 <= i < |s.ends| ==> s.ends[i].session < |s.db.sessions| && s.ends[i].now <= s.clock)
  }

  // ----- One metering step -----

  /** The open session becomes s', and the stretch (from, to) is billed when minutes is positive. */
  predicate MeterStep(db: Db, clock: real, s': Session, from: real, to: real, minutes: real) {
    && db.sessions != []
    && var s := db.sessions[|db.sessions| - 1];
       && s.endedAt.None?
       && s'.startedAt == s.startedAt && s'.lastActivityAt <= clock
       && s'.duration == s.duration + minutes
       && 0.0 <= minutes && (minutes > 0.0 ==> minutes <= to - from && to <= clock)
  }

  function Metered(db: Db, s': Session, from: real, to: real, minutes: real): Db
    requires db.sessions != []
  {
    Meter(db, |db.sessions| - 1, s', from, to, minutes)
  }

  lemma MeterSessions(db: Db, clock: real, s': Session, from: real, to: real, minutes: real)
    requires SessionsOk(db, clock) && MeterStep(db, clock, s', from, to, minutes)
    ensures SessionsOk(Metered(db, s', from, to, minutes), clock)
  {
  }

  lemma MeterCharges(db: Db, clock: real, s': Session, from: real, to: real, minutes: real)
    requires ChargesOk(db, clock) && MeterStep(db, clock, s', from, to, minutes)
    ensures ChargesOk(Metered(db, s', from, to, minutes), clock)
  {
    var db' := Metered(db, s', from, to, minutes);
    forall i | 0 <= i < |db'.charges| ensures ChargeOk(db', clock, db'.charges[i]) {
      if i < |db.charges| { assert ChargeOk(db, clock, db.charges[i]); }
    }
    forall i, j | 0 <= i < j < |db'.charges| ensures db'.charges[i].session <= db'.charges[j].session {
      assert ChargeOk(db, clock, db.charges[i]);
    }
  }

  lemma MeterDurations(db: Db, clock: real, s': Session, from: real, to: real, minutes: real)
    requires DurationsOk(db) && MeterStep(db, clock, s', from, to, minutes)
    ensures DurationsOk(Metered(db, s', from, to, minutes))
  {
    var db', last := Metered(db, s', from, to, minutes), |db.sessions| - 1;
    forall sid | 0 <= sid < |db'.sessions| ensures db'.sessions[sid].duration == TotalFor(db'.charges, sid) {
      TotalsSnoc(db.charges, Charge(last, from, to, minutes), sid, 0);
    }
  }

  lemma MeterCounter(db: Db, clock: real, s': Session, from: real, to: real, minutes: real)
    requires CounterOk(db) && MeterStep(db, clock, s', from, to, minutes)
    ensures CounterOk(Metered(db, s', from, to, minutes))
  {
    TotalsSnoc(db.charges, Charge(|db.sessions| - 1, from, to, minutes), 0, 0);
  }

  lemma MeterKeeps(db: Db, clock: real, s': Session, from: real, to: real, minutes: real)
    requires DbOk(db, clock) && MeterStep(db, clock, s', from, to, minutes)
    ensures DbOk(Metered(db, s', from, to, minutes), clock)
  {
    MeterSessions(db, clock, s', from, to, minutes);
    MeterCharges(db, clock, s', from, to, minutes);
    MeterDurations(db, clock, s', from, to, minutes);
    MeterCounter(db, clock, s', from, to, minutes);
  }

  // ----- The transactions keep the invariant -----

  lemma OnlyLastLive(db: Db, clock: real, sid: nat)
    requires SessionsOk(db, clock) && sid < |db.sessions| && db.sessions[sid].endedAt.None?
    ensures sid == |db.sessions| - 1
  {
  }

  lemma ClockKeeps(db: Db, clock: real, later: real)
    requires DbOk(db, clock) && clock <= later
    ensures DbOk(db, later)
  {
    forall i | 0 <= i < |db.charges| ensures ChargeOk(db, later, db.charges[i]) {
      assert ChargeOk(db, clock, db.charges[i]);
    }
  }

  function Closed(cfg: Config, s: Session, now: real): Session
    requires cfg.cap >= 0.0
  {
    s.(endedAt := Some(now), duration := s.duration + CappedMinutes(s.lastActivityAt, now, cfg.cap))
  }

  lemma CloseIsMeter(cfg: Config, db: Db, sid: nat, now: real)
    requires cfg.cap >= 0.0 && sid < |db.sessions|
    ensures var s := db.sessions[sid];
            CloseTx(cfg, db, sid, now) ==
              Meter(db, sid, Closed(cfg, s, now), s.lastActivityAt, now, CappedMinutes(s.lastActivityAt, now, cfg.cap))
  {
  }

  lemma CloseKeeps(cfg: Config, db: Db, clock: real, sid: nat, now: real)
    requires cfg.cap >= 0.0 && DbOk(db, clock) && now <= clock
    requires sid < |db.sessions| && db.sessions[sid].endedAt.None?
    ensures DbOk(CloseTx(cfg, db, sid, now), clock)
  {
    OnlyLastLive(db, clock, sid);
    var s := db.sessions[sid];
    var s', minutes := Closed(cfg, s, now), CappedMinutes(s.lastActivityAt, now, cfg.cap);
    CloseIsMeter(cfg, db, sid, now);
    assert MeterStep(db, clock, s', s.lastActivityAt, now, minutes);
    MeterKeeps(db, clock, s', s.lastActivityAt, now, minutes);
  }

  lemma CloseEndsAll(cfg: Config, db: Db, clock: real, sid: nat, now: real)
    requires cfg.cap >= 0.0 && SessionsOk(db, clock) && sid < |db.sessions| && db.sessions[sid].endedAt.None?
    ensures CloseTx(cfg, db, sid, now).sessions == db.sessions[sid := Closed(cfg, db.sessions[sid], now)]
    ensures AllEnded(CloseTx(cfg, db, sid, now))
  {
    OnlyLastLive(db, clock, sid);
  }

  function Practised(db: Db, day: int): Db {
    db.(user := db.user.(streak := RegisterActiveDay(db.user.streak, day)), activeDays := db.activeDays + [day])
  }

  /** The ledgers do not look at the streak. */
  lemma PractisedKeeps(db: Db, clock: real, day: int)
    requires DbOk(db, clock)
    ensures DbOk(Practised(db, day), clock)
  {
    var days := db.activeDays + [day];
    assert days[..|db.activeDays|] == db.activeDays;
    forall i | 0 <= i < |db.charges| ensures ChargeOk(Practised(db, day), clock, db.charges[i]) {
      assert ChargeOk(db, clock, db.charges[i]);
    }
  }

  function Advanced(cfg: Config, s: Session, mark: real, now: real): Session
    requires cfg.cap >= 0.0
  {
    s.(lastActivityAt := now, duration := s.duration + CappedMinutes(mark, now, cfg.cap))
  }

  lemma TurnIsMeter(cfg: Config, db: Db, sid: nat, mark: real, now: real)
    requires cfg.cap >= 0.0 && sid < |db.sessions| && db.sessions[sid].endedAt.None?
    ensures var minutes := CappedMinutes(mark, now, cfg.cap);
            TurnTx(cfg, db, sid, mark, now) ==
              Practised(Meter(db, sid, Advanced(cfg, db.sessions[sid], mark, now), mark, now, minutes), Day(now))
  {
  }

  lemma TurnKeeps(cfg: Config, db: Db, clock: real, sid: nat, mark: real, now: real)
    requires cfg.cap >= 0.0 && DbOk(db, clock) && sid < |db.sessions| && db.sessions[sid].endedAt.None? && now <= clock
    ensures DbOk(TurnTx(cfg, db, sid, mark, now), clock)
  {
    OnlyLastLive(db, clock, sid);
    TurnIsMeter(cfg, db, sid, mark, now);
    var s', minutes := Advanced(cfg, db.sessions[sid], mark, now), CappedMinutes(mark, now, cfg.cap);
    MeterKeeps(db, clock, s', mark, now, minutes);
    PractisedKeeps(Metered(db, s', mark, now, minutes), clock, Day(now));
  }

  lemma {:induction false} TotalForNew(charges: seq<Charge>, sid: nat)
    requires forall i :: 0 <= i < |charges| ==> charges[i].session < sid
    ensures TotalFor(charges, sid) == 0.0
  {
    if charges == [] {
    } else {
      TotalForNew(charges[..|charges| - 1], sid);
    }
  }

  predicate AllEnded(db: Db) { forall i :: 0 <= i < |db.sessions| ==> db.sessions[i].endedAt.Some? }

  lemma OpenCharges(db: Db, clock: real, t: StartTimes)
    requires ChargesOk(db, clock) && DurationsOk(db) && clock <= t.started <= t.active
    ensures ChargesOk(OpenTx(db, t), t.active) && DurationsOk(OpenTx(db, t))
  {
    var db' := OpenTx(db, t);
    forall i | 0 <= i < |db'.charges|
      ensures ChargeOk(db', t.active, db'.charges[i]) && db'.charges[i].to <= t.started
    {
      assert ChargeOk(db, clock, db.charges[i]);
    }
    forall i | 0 <= i < |db.charges| ensures db.charges[i].session < |db.sessions| {
      assert ChargeOk(db, clock, db.charges[i]);
    }
    TotalForNew(db.charges, |db.sessions|);
  }

  lemma OpenKeeps(db: Db, clock: real, t: StartTimes)
    requires DbOk(db, clock) && AllEnded(db) && clock <= t.started <= t.active
    ensures DbOk(OpenTx(db, t), t.active)
  {
    OpenCharges(db, clock, t);
  }

  /** All that a start can leave behind. */
  lemma StartCases(cfg: Config, db: Db, t: StartTimes, missionOk: bool)
    requires cfg.cap >= 0.0
    ensures var db', active := StartTx(cfg, db, t, missionOk).0, FirstActive(db, 0);
            || db' == db
            || (active.None? && db' == OpenTx(db, t))
            || (active.Some? && db' == CloseTx(cfg, db, active.value, t.reap))
            || (active.Some? && db' == OpenTx(CloseTx(cfg, db, active.value, t.reap), t))
  {
  }

  lemma StartKeeps(cfg: Config, db: Db, clock: real, t: StartTimes, missionOk: bool)
    requires cfg.cap >= 0.0 && DbOk(db, clock)
    requires clock <= t.reap <= t.started <= t.active
    ensures DbOk(StartTx(cfg, db, t, missionOk).0, t.active)
  {
    StartCases(cfg, db, t, missionOk);
    ClockKeeps(db, clock, t.active);
    var active := FirstActive(db, 0);
    if active.None? {
      OpenKeeps(db, clock, t);
    } else {
      ClockKeeps(db, clock, t.reap);
      CloseKeeps(cfg, db, t.reap, active.value, t.reap);
      CloseEndsAll(cfg, db, t.reap, active.value, t.reap);
      var reaped := CloseTx(cfg, db, active.value, t.reap);
      ClockKeeps(reaped, t.reap, t.active);
      OpenKeeps(reaped, t.reap, t);
    }
  }

  // ----- Every action keeps the invariant -----

  /** Reads in flight survive when sessions only gain an end, or a new one is added. */
  lemma ReadsKept(s: State, s': State)
    requires Inv(s) && DbOk(s'.db, s'.clock) && s.clock <= s'.clock && s'.ends == s.ends
    requires |s.db.sessions| <= |s'.db.sessions|
    requires forall sid :: sid in s'.turns ==> sid in s.turns && s'.turns[sid] == s.turns[sid]
    requires forall sid :: sid in s'.turns && Live(s', sid) ==> s'.db.sessions[sid] == s.db.sessions[sid]
    ensures Inv(s')
  {
    forall sid | sid in s'.turns ensures sid < |s'.db.sessions| && TurnOk(s', sid, s'.turns[sid]) {
      assert TurnOk(s, sid, s.turns[sid]);
    }
  }

  lemma CommitTurnStep(cfg: Config, s: State, sid: nat)
    requires cfg.cap >= 0.0 && Inv(s) && Enabled(s, CommitTurn(sid))
    ensures Inv(Apply(cfg, s, CommitTurn(sid)))
  {
    var t := s.turns[sid];
    assert TurnOk(s, sid, t);
    if Live(s, sid) { TurnKeeps(cfg, s.db, s.clock, sid, t.mark, t.now); }
    TurnSessions(cfg, s.db, sid, t.mark, t.now);
    TurnReadsKept(s, TurnTx(cfg, s.db, sid, t.mark, t.now), sid);
  }

  lemma TurnSessions(cfg: Config, db: Db, sid: nat, mark: real, now: real)
    requires cfg.cap >= 0.0 && sid < |db.sessions|
    ensures var db' := TurnTx(cfg, db, sid, mark, now);
            && |db'.sessions| == |db.sessions|
            && forall i :: 0 <= i < |db.sessions| && i != sid ==> db'.sessions[i] == db.sessions[i]
  {
  }

  /** A turn that has been metered is no longer in flight, and no other session has changed. */
  lemma TurnReadsKept(s: State, db': Db, sid: nat)
    requires Inv(s) && DbOk(db', s.clock) && |db'.sessions| == |s.db.sessions|
    requires forall i :: 0 <= i < |s.db.sessions| && i != sid ==> db'.sessions[i] == s.db.sessions[i]
    ensures Inv(s.(db := db', turns := s.turns - {sid}))
  {
    ReadsKept(s, s.(db := db', turns := s.turns - {sid}));
  }

  lemma CommitEndStep(cfg: Config, s: State, i: nat)
    requires cfg.cap >= 0.0 && Inv(s) && Enabled(s, CommitEnd(i))
    ensures Inv(Apply(cfg, s, CommitEnd(i)))
  {
    var e := s.ends[i];
    if Live(s, e.session) {
      CloseKeeps(cfg, s.db, s.clock, e.session, e.now);
      CloseEndsAll(cfg, s.db, s.clock, e.session, e.now);
    }
    ReadsKept(s, Apply(cfg, s, CommitEnd(i)));
  }

  lemma StartSessions(cfg: Config, db: Db, t: StartTimes, missionOk: bool, i: nat)
    requires cfg.cap >= 0.0 && i < |db.sessions|
    ensures var db' := StartTx(cfg, db, t, missionOk).0;
            |db.sessions| <= |db'.sessions| && (db'.sessions[i].endedAt.None? ==> db'.sessions[i] == db.sessions[i])
  {
  }

  lemma StartStep(cfg: Config, s: State, t: StartTimes, missionOk: bool)
    requires cfg.cap >= 0.0 && Inv(s) && Enabled(s, Start(t, missionOk))
    ensures Inv(Apply(cfg, s, Start(t, missionOk)))
  {
    StartKeeps(cfg, s.db, s.clock, t, missionOk);
    var s' := Apply(cfg, s, Start(t, missionOk));
    assert |s.db.sessions| <= |s'.db.sessions|;
    forall sid | sid in s'.turns && Live(s', sid) ensures s'.db.sessions[sid] == s.db.sessions[sid] {
      StartSessions(cfg, s.db, t, missionOk, sid);
    }
    ReadsKept(s, s');
  }

  lemma ReadSteps(cfg: Config, s: State, a: Action)
    requires cfg.cap >= 0.0 && Inv(s) && Enabled(s, a) && (a.ReadTurn? || a.DropTurn? || a.ReadEnd?)
    ensures Inv(Apply(cfg, s, a))
  {
    var s' := Apply(cfg, s, a);
    forall sid | sid in s'.turns ensures sid < |s'.db.sessions| && TurnOk(s', sid, s'.turns[sid]) {
      if sid in s.turns { assert TurnOk(s, sid, s.turns[sid]); }
    }
  }

  lemma EveryStep(cfg: Config, s: State, a: Action)
    requires cfg.cap >= 0.0 && Inv(s) && Enabled(s, a)
    ensures Inv(Apply(cfg, s, a))
  {
    match a
    case Tick(dt) =>
      ClockKeeps(s.db, s.clock, s.clock + dt);
      ReadsKept(s, Apply(cfg, s, a));
    case CommitTurn(sid) => CommitTurnStep(cfg, s, sid);
    case CommitEnd(i) => CommitEndStep(cfg, s, i);
    case Start(t, missionOk) => StartStep(cfg, s, t, missionOk);
    case _ => ReadSteps(cfg, s, a);
  }

  lemma {:induction false} RunKeepsInv(cfg: Config, s: State, actions: seq<Action>, s': State)
    requires cfg.cap >= 0.0 && Inv(s) && IsRun(cfg, s, actions, s')
    ensures Inv(s')
    decreases |actions|
  {
    if actions == [] {
    } else {
      EveryStep(cfg, s, actions[0]);
      RunKeepsInv(cfg, Apply(cfg, s, actions[0]), actions[1..], s');
    }
  }

  lemma ReachableInv(cfg: Config, s: State)
    requires cfg.cap >= 0.0 && Reachable(cfg, s)
    ensures Inv(s)
  {
    var s0, actions :| IsInitial(s0) && IsRun(cfg, s0, actions, s);
    RunKeepsInv(cfg, s0, actions, s);
  }
}
