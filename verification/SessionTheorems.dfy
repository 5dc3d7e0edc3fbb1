/** Sessions, billing, quota and streak over whole runs: first what holds of every run, then what
    holds exactly when turn instants behave. */
module SessionTheorems {
  import opened Options
  import opened Streaks
  import opened SessionLedger
  import opened SessionRuns
  import opened SessionBilling
  import opened SessionQuota
  import opened SessionOrder

  // ----- Every run, backdated turns included -----

  /** At most one un-ended session, in every state of every run. */
  lemma OneActiveSession(cfg: Config, s: State, i: nat, j: nat)
    requires cfg.cap >= 0.0 && Reachable(cfg, s) && Live(s, i) && Live(s, j)
    ensures i == j
  {
    ReachableInv(cfg, s);
  }

  /** The two ledgers agree in every run: each session's duration is exactly what was charged to
      the user for it, and the user's counter is the latest charges in a row on its day. */
  lemma LedgersAgree(cfg: Config, s: State)
    requires cfg.cap >= 0.0 && Reachable(cfg, s)
    ensures forall sid :: 0 <= sid < |s.db.sessions| ==> s.db.sessions[sid].duration == TotalFor(s.db.charges, sid)
    ensures forall i :: 0 <= i < |s.db.charges| ==>
              s.db.charges[i].session < |s.db.sessions| && 0.0 < s.db.charges[i].minutes
    ensures s.db.charges != [] ==>
              && s.db.user.quotaDate == Some(Day(s.db.charges[|s.db.charges| - 1].to))
              && s.db.user.minutesUsedToday == TailOnDay(s.db.charges)
  {
    ReachableInv(cfg, s);
    forall i | 0 <= i < |s.db.charges|
      ensures s.db.charges[i].session < |s.db.sessions| && 0.0 < s.db.charges[i].minutes
    {
      assert ChargeOk(s.db, s.clock, s.db.charges[i]);
    }
  }

  /** sid is open and has been idle for longer than the timeout. */
  predicate Reaps(cfg: Config, s: State, sid: nat, t: StartTimes) {
    Live(s, sid) && t.reap - s.db.sessions[sid].lastActivityAt > cfg.timeout
  }

  /** Atomic start: the call commits nothing, only the reap of an idle session, or the new
      session on top of a possible reap; a session is open afterwards in the last case only. */
  lemma StartIsAtomic(cfg: Config, s: State, t: StartTimes, missionOk: bool)
    requires cfg.cap >= 0.0 && Reachable(cfg, s) && Enabled(s, Start(t, missionOk))
    ensures var (db', result) := StartTx(cfg, s.db, t, missionOk);
            match result
            case Started =>
              && |db'.sessions| == |s.db.sessions| + 1
              && db'.sessions[|s.db.sessions|] == Session(t.started, t.active, None, 0.0)
              && (forall i :: 0 <= i < |s.db.sessions| ==> db'.sessions[i].endedAt.Some?)
              && (|| db' == OpenTx(s.db, t)
                  || exists sid :: Reaps(cfg, s, sid, t) && db' == OpenTx(CloseTx(cfg, s.db, sid, t.reap), t))
            case QuotaExhausted =>
              || db' == s.db
              || exists sid :: Reaps(cfg, s, sid, t) && AllEnded(db') && db' == CloseTx(cfg, s.db, sid, t.reap)
            case _ => db' == s.db
  {
    ReachableInv(cfg, s);
    var active := FirstActive(s.db, 0);
    if active.Some? {
      CloseEndsAll(cfg, s.db, s.clock, active.value, t.reap);
      var (db', result) := StartTx(cfg, s.db, t, missionOk);
      assert result.Started? ==> Reaps(cfg, s, active.value, t);
    }
  }

  lemma EndedStep(cfg: Config, s: State, a: Action, sid: nat)
    requires cfg.cap >= 0.0 && Enabled(s, a) && sid < |s.db.sessions| && s.db.sessions[sid].endedAt.Some?
    ensures sid < |Apply(cfg, s, a).db.sessions| && Apply(cfg, s, a).db.sessions[sid] == s.db.sessions[sid]
  {
    match a
    case CommitTurn(other) => TurnSessions(cfg, s.db, other, s.turns[other].mark, s.turns[other].now);
    case Start(t, missionOk) => StartCases(cfg, s.db, t, missionOk);
    case _ =>
  }

  lemma {:induction false} EndedRun(cfg: Config, s: State, actions: seq<Action>, s': State, sid: nat)
    requires cfg.cap >= 0.0 && IsRun(cfg, s, actions, s') && sid < |s.db.sessions| && s.db.sessions[sid].endedAt.Some?
    ensures sid < |s'.db.sessions| && s'.db.sessions[sid] == s.db.sessions[sid]
    decreases |actions|
  {
    if actions == [] {
    } else {
      EndedStep(cfg, s, actions[0], sid);
      EndedRun(cfg, Apply(cfg, s, actions[0]), actions[1..], s', sid);
    }
  }

  /** An /end is final: its session is ended from then on, billed up to the instant of the /end or
      ended earlier, and whatever follows, turns in flight included, its row never changes and
      nothing more is charged for it. */
  lemma EndIsFinal(cfg: Config, s: State, i: nat, actions: seq<Action>, s': State)
    requires cfg.cap >= 0.0 && Reachable(cfg, s) && Enabled(s, CommitEnd(i))
    requires IsRun(cfg, Apply(cfg, s, CommitEnd(i)), actions, s')
    ensures var sid, now := s.ends[i].session, s.ends[i].now;
            var was := s.db.sessions[sid];
            var rest := CappedMinutes(was.lastActivityAt, now, cfg.cap);
            && sid < |s'.db.sessions| && s'.db.sessions[sid].endedAt.Some?
            && s'.db.sessions[sid] == (if was.endedAt.Some? then was
                                       else was.(endedAt := Some(now), duration := was.duration + rest))
            && TotalFor(s'.db.charges, sid) == s'.db.sessions[sid].duration
  {
    var s1, sid := Apply(cfg, s, CommitEnd(i)), s.ends[i].session;
    ReachableInv(cfg, s);
    EveryStep(cfg, s, CommitEnd(i));
    RunKeepsInv(cfg, s1, actions, s');
    if Live(s, sid) { CloseEndsAll(cfg, s.db, s.clock, sid, s.ends[i].now); }
    EndedRun(cfg, s1, actions, s', sid);
  }

  // ----- What a start answers -----

  /** The minutes charged for `today`, as far as the counter has kept them: those of the latest
      charges in a row, when these fall on `today`. */
  function Counted(charges: seq<Charge>, today: int): real {
    if charges != [] && Day(charges[|charges| - 1].to) == today then TailOnDay(charges) else 0.0
  }

  /** The daily quota is spent: only free users have one. */
  predicate Spent(cfg: Config, user: User, minutes: real) {
    user.free && minutes >= cfg.freeDaily
  }

  lemma OutOfQuotaIsSpent(cfg: Config, db: Db, today: int)
    requires CounterOk(db)
    ensures OutOfQuota(cfg, db.user, today) <==> Spent(cfg, db.user, Counted(db.charges, today))
  {
  }

  /** What closing session sid at `now` adds to what is counted for that day. */
  function AfterReap(cfg: Config, db: Db, sid: nat, now: real): real
    requires cfg.cap >= 0.0 && sid < |db.sessions|
  {
    Counted(db.charges, Day(now)) + CappedMinutes(db.sessions[sid].lastActivityAt, now, cfg.cap)
  }

  lemma CountedAfterClose(cfg: Config, db: Db, sid: nat, now: real)
    requires cfg.cap >= 0.0 && sid < |db.sessions|
    ensures Counted(CloseTx(cfg, db, sid, now).charges, Day(now)) == AfterReap(cfg, db, sid, now)
  {
    var mark := db.sessions[sid].lastActivityAt;
    TotalsSnoc(db.charges, Charge(sid, mark, now, CappedMinutes(mark, now, cfg.cap)), sid, 0);
  }

  lemma ReapCounts(cfg: Config, db: Db, clock: real, sid: nat, now: real)
    requires cfg.cap >= 0.0 && DbOk(db, clock) && now <= clock
    requires sid < |db.sessions| && db.sessions[sid].endedAt.None?
    ensures OutOfQuota(cfg, CloseTx(cfg, db, sid, now).user, Day(now)) <==>
              Spent(cfg, db.user, AfterReap(cfg, db, sid, now))
  {
    var closed := CloseTx(cfg, db, sid, now);
    CloseKeeps(cfg, db, clock, sid, now);
    OutOfQuotaIsSpent(cfg, closed, Day(now));
    CountedAfterClose(cfg, db, sid, now);
    assert closed.user.free == db.user.free;
  }

  /** The open session, if any, and what stands between it and a new one. */
  ghost predicate InTheWay(cfg: Config, s: State, t: StartTimes) {
    exists sid :: Live(s, sid) && !Reaps(cfg, s, sid, t)
  }

  ghost predicate ReapSpends(cfg: Config, s: State, t: StartTimes)
    requires cfg.cap >= 0.0
  {
    exists sid :: Live(s, sid) && Spent(cfg, s.db.user, AfterReap(cfg, s.db, sid, t.reap))
  }

  lemma IdleIsStale(cfg: Config, s: State, sid: nat, t: StartTimes)
    requires Inv(s) && Live(s, sid) && s.clock <= t.reap
    ensures Reaps(cfg, s, sid, t) <==> IsStale(s.db.sessions[sid].lastActivityAt, t.reap, cfg.timeout)
  {
  }

  /** What every start answers, from the charges alone: the quota is spent; or a session is open
      that has not idled past the timeout; or closing the idle one spends the quota; or the mission
      is not the user's; else a session starts. */
  lemma StartAnswersExactly(cfg: Config, s: State, t: StartTimes, missionOk: bool)
    requires cfg.cap >= 0.0 && Reachable(cfg, s) && Enabled(s, Start(t, missionOk))
    ensures StartTx(cfg, s.db, t, missionOk).1 ==
              if Spent(cfg, s.db.user, Counted(s.db.charges, Day(t.quotaCheck))) then QuotaExhausted
              else if InTheWay(cfg, s, t) then ActiveSessionExists
              else if ReapSpends(cfg, s, t) then QuotaExhausted
              else if missionOk then Started
              else MissionNotFound
    ensures StartTx(cfg, s.db, t, missionOk) == (s.db, QuotaExhausted) <==>
              Spent(cfg, s.db.user, Counted(s.db.charges, Day(t.quotaCheck)))
  {
    ReachableInv(cfg, s);
    OutOfQuotaIsSpent(cfg, s.db, Day(t.quotaCheck));
    var active := FirstActive(s.db, 0);
    if active.Some? {
      assert Live(s, active.value);
      assert forall sid :: Live(s, sid) ==> sid == active.value;
      ClockKeeps(s.db, s.clock, t.reap);
      IdleIsStale(cfg, s, active.value, t);
      ReapCounts(cfg, s.db, t.reap, active.value, t.reap);
      CloseEndsAll(cfg, s.db, s.clock, active.value, t.reap);
    } else {
      assert forall sid :: !Live(s, sid);
    }
  }

  /** A user with a paid tier is never refused for the quota. */
  lemma PaidIsNeverExhausted(cfg: Config, s: State, t: StartTimes, missionOk: bool)
    requires cfg.cap >= 0.0 && Reachable(cfg, s) && Enabled(s, Start(t, missionOk)) && !s.db.user.free
    ensures !StartTx(cfg, s.db, t, missionOk).1.QuotaExhausted?
  {
    StartAnswersExactly(cfg, s, t, missionOk);
  }

  /** When a start succeeds: the quota is not spent, the mission is the user's own, and no
      session is open, or the open one has idled past the timeout and billing its rest leaves
      some quota. An abandoned session therefore never locks its user out. */
  lemma StartSucceedsExactly(cfg: Config, s: State, t: StartTimes, missionOk: bool)
    requires cfg.cap >= 0.0 && Reachable(cfg, s) && Enabled(s, Start(t, missionOk))
    ensures StartTx(cfg, s.db, t, missionOk).1.Started? <==>
              && missionOk
              && !Spent(cfg, s.db.user, Counted(s.db.charges, Day(t.quotaCheck)))
              && forall sid :: Live(s, sid) ==>
                   Reaps(cfg, s, sid, t) && !Spent(cfg, s.db.user, AfterReap(cfg, s.db, sid, t.reap))
  {
    StartAnswersExactly(cfg, s, t, missionOk);
  }

  // ----- Billing, and when it is exact -----

  lemma InitialState(cfg: Config, s: State)
    requires IsInitial(s)
    ensures Inv(s) && Ready(s.db) && Accounted(cfg, s.db) && DaysInOrder(s.db)
  {
  }

  /** The exact condition for billing: in every state of a run, now and when the open session is
      closed, no time is charged twice, none from outside a session and none beyond what elapsed,
      if and only if every metered turn carried an instant not before the end of its session's
      last charge, or not before its start when it had none. */
  lemma BilledOnceIffInBounds(cfg: Config, s0: State, actions: seq<Action>, s: State)
    requires cfg.cap > 0.0 && IsInitial(s0) && IsRun(cfg, s0, actions, s)
    ensures AlwaysSettles(cfg, s0, actions) <==> AllInBounds(cfg, s0, actions)
  {
    InitialState(cfg, s0);
    RunSettlesIffInBounds(cfg, s0, actions, s);
  }

  /** No double billing in such runs, spelled out. */
  lemma NoDoubleBilling(cfg: Config, s0: State, actions: seq<Action>, s: State)
    requires cfg.cap >= 0.0 && IsInitial(s0) && IsRun(cfg, s0, actions, s) && AllInBounds(cfg, s0, actions)
    ensures Disjoint(s.db.charges)
    ensures forall i :: 0 <= i < |s.db.charges| ==>
              var c := s.db.charges[i];
              && c.session < |s.db.sessions|
              && s.db.sessions[c.session].startedAt <= c.from
              && 0.0 < c.minutes <= c.to - c.from && c.to <= s.clock
    ensures forall sid :: 0 <= sid < |s.db.sessions| ==>
              && s.db.sessions[sid].duration == TotalFor(s.db.charges, sid)
              && s.db.sessions[sid].duration <= s.clock - s.db.sessions[sid].startedAt
  {
    InitialState(cfg, s0);
    RunReady(cfg, s0, actions, s);
    SoundIffApart(s.db, s.clock);
    assert forall i :: 0 <= i < |s.db.charges| ==> Inside(s.db, s.db.charges[i]);
  }

  function TotalDuration(sessions: seq<Session>): real {
    if sessions == [] then 0.0 else TotalDuration(sessions[..|sessions| - 1]) + sessions[|sessions| - 1].duration
  }

  lemma {:induction false} DurationsFit(sessions: seq<Session>, upto: seq<real>)
    requires sessions != [] && |upto| == |sessions|
    requires forall i :: 0 <= i < |sessions| ==> sessions[i].duration <= upto[i] - sessions[i].startedAt
    requires forall i, j :: 0 <= i < j < |sessions| ==> upto[i] <= sessions[j].startedAt
    ensures TotalDuration(sessions) <= upto[|sessions| - 1] - sessions[0].startedAt
  {
    var n := |sessions| - 1;
    if n == 0 {
      assert sessions[..0] == [];
    } else {
      DurationsFit(sessions[..n], upto[..n]);
      assert upto[n - 1] <= sessions[n].startedAt;
    }
  }

  /** Over all of a user's sessions together, no more is billed than the time since the first. */
  lemma TotalBilledIsElapsed(cfg: Config, s0: State, actions: seq<Action>, s: State)
    requires cfg.cap >= 0.0 && IsInitial(s0) && IsRun(cfg, s0, actions, s) && AllInBounds(cfg, s0, actions)
    requires s.db.sessions != []
    ensures TotalDuration(s.db.sessions) <= s.clock - s.db.sessions[0].startedAt
  {
    InitialState(cfg, s0);
    RunReady(cfg, s0, actions, s);
    var upto := seq(|s.db.sessions|, sid requires 0 <= sid < |s.db.sessions| => BilledUpTo(s.db, sid));
    forall i | 0 <= i < |s.db.sessions|
      ensures s.db.sessions[i].duration <= upto[i] - s.db.sessions[i].startedAt && upto[i] <= s.clock
      ensures forall j :: i < j < |s.db.sessions| ==> upto[i] <= s.db.sessions[j].startedAt
    {
      BilledWithin(s.db, s.clock, i);
    }
    DurationsFit(s.db.sessions, upto);
  }

  // ----- The quota, and when it is exact -----

  /** The user's counter is the sum of its day's charges, across sessions and midnights, whenever
      no charge came back to a day left before; billing in bounds ensures that. */
  lemma QuotaIsDaySum(cfg: Config, s: State, today: int)
    requires cfg.cap >= 0.0 && Reachable(cfg, s) && s.db.user.quotaDate == Some(today)
    ensures DaysKept(s.db.charges) ==> s.db.user.minutesUsedToday == TotalOn(s.db.charges, today)
    ensures Disjoint(s.db.charges) ==> DaysKept(s.db.charges)
  {
    ReachableInv(cfg, s);
    forall i | 0 <= i < |s.db.charges|
      ensures 0.0 < s.db.charges[i].minutes <= s.db.charges[i].to - s.db.charges[i].from
    {
      assert ChargeOk(s.db, s.clock, s.db.charges[i]);
    }
    if DaysKept(s.db.charges) {
      KeptIsDaySum(s.db.charges, |s.db.charges|);
      assert s.db.charges[..|s.db.charges|] == s.db.charges;
    }
    if Disjoint(s.db.charges) { DisjointKeepsDays(s.db.charges); }
  }

  lemma {:induction false} RunSnoc(cfg: Config, s: State, actions: seq<Action>, s1: State, a: Action)
    requires cfg.cap >= 0.0 && IsRun(cfg, s, actions, s1) && Enabled(s1, a)
    ensures IsRun(cfg, s, actions + [a], Apply(cfg, s1, a))
    decreases |actions|
  {
    if actions == [] {
      assert actions + [a] == [a] && [a][1..] == [];
    } else {
      assert (actions + [a])[1..] == actions[1..] + [a];
      RunSnoc(cfg, Apply(cfg, s, actions[0]), actions[1..], s1, a);
    }
  }

  /** A turn read and metered at once. */
  lemma TakeTurn(cfg: Config, s: State, sid: nat, now: real) returns (s': State)
    requires cfg.cap >= 0.0 && Reachable(cfg, s) && Live(s, sid) && sid !in s.turns && now <= s.clock
    ensures Reachable(cfg, s') && s' == s.(db := TurnTx(cfg, s.db, sid, s.db.sessions[sid].lastActivityAt, now))
  {
    var s0, actions :| IsInitial(s0) && IsRun(cfg, s0, actions, s);
    var read, commit := ReadTurn(sid, now), CommitTurn(sid);
    var s1 := Apply(cfg, s, read);
    RunSnoc(cfg, s0, actions, s, read);
    RunSnoc(cfg, s0, actions + [read], s1, commit);
    s' := Apply(cfg, s1, commit);
    assert s.turns[sid := s1.turns[sid]] - {sid} == s.turns;
  }

  /** What backdating does to the quota: a user whose quota for today is spent, and who is refused
      for it whenever he starts today, gets it back by two turns with instants of another day, which
      the clamp accepts, although the minutes charged for today are as many as before. */
  lemma BackdatingRestoresQuota(cfg: Config, s: State, sid: nat, a: real, b: real, today: int) returns (s': State)
    requires cfg.cap > 0.0 && cfg.freeDaily > 0.0 && Reachable(cfg, s) && Live(s, sid) && sid !in s.turns
    requires Spent(cfg, s.db.user, Counted(s.db.charges, today)) && Day(b) != today
    requires s.clock - 2880.0 <= a < b <= s.clock && a <= s.db.sessions[sid].lastActivityAt
    ensures ClampPracticedAt(Some(a), s.clock) == a && ClampPracticedAt(Some(b), s.clock) == b
    ensures Reachable(cfg, s') && s'.clock == s.clock
    ensures TotalOn(s'.db.charges, today) == TotalOn(s.db.charges, today) >= cfg.freeDaily
    ensures forall t, ok :: Enabled(s, Start(t, ok)) && Day(t.quotaCheck) == today ==>
              StartTx(cfg, s.db, t, ok) == (s.db, QuotaExhausted) &&
              StartTx(cfg, s'.db, t, ok) != (s'.db, QuotaExhausted)
  {
    var s1 := TakeTurn(cfg, s, sid, a);
    TurnCharges(cfg, s.db, sid, a, today);
    s' := TakeTurn(cfg, s1, sid, b);
    TurnCharges(cfg, s1.db, sid, b, today);
    ReachableInv(cfg, s);
    TailWithinDay(s.db.charges, today);
    forall t, ok | Enabled(s, Start(t, ok)) && Day(t.quotaCheck) == today
      ensures StartTx(cfg, s.db, t, ok) == (s.db, QuotaExhausted)
      ensures StartTx(cfg, s'.db, t, ok) != (s'.db, QuotaExhausted)
    {
      StartAnswersExactly(cfg, s, t, ok);
      StartAnswersExactly(cfg, s', t, ok);
    }
  }

  lemma TurnCharges(cfg: Config, db: Db, sid: nat, now: real, today: int)
    requires cfg.cap > 0.0 && sid < |db.sessions| && db.sessions[sid].endedAt.None?
    requires Day(now) != today || now <= db.sessions[sid].lastActivityAt
    ensures var mark, db' := db.sessions[sid].lastActivityAt, TurnTx(cfg, db, sid, db.sessions[sid].lastActivityAt, now);
            && TotalOn(db'.charges, today) == TotalOn(db.charges, today)
            && db'.charges == if mark < now then db.charges + [Charge(sid, mark, now, CappedMinutes(mark, now, cfg.cap))]
                              else db.charges
  {
    var mark := db.sessions[sid].lastActivityAt;
    TotalsSnoc(db.charges, Charge(sid, mark, now, CappedMinutes(mark, now, cfg.cap)), sid, today);
  }

  lemma {:induction false} TailWithinDay(charges: seq<Charge>, today: int)
    requires forall i :: 0 <= i < |charges| ==> charges[i].minutes > 0.0
    ensures Counted(charges, today) <= TotalOn(charges, today)
  {
    var n := |charges| - 1;
    if charges == [] {
    } else {
      TotalOnZero(charges[..n], today);
      TailWithinDay(charges[..n], today);
    }
  }

  // ----- Starting by the day's sum -----

  /** When no charge came back to a day left before, what is counted for a day is its sum exactly if
      the counter stands on that day or the day has no charges. */
  lemma CountedIsDaySum(charges: seq<Charge>, today: int)
    requires DaysKept(charges) && forall i :: 0 <= i < |charges| ==> charges[i].minutes > 0.0
    ensures Counted(charges, today) == TotalOn(charges, today) <==>
              || (charges != [] && Day(charges[|charges| - 1].to) == today)
              || forall i :: 0 <= i < |charges| ==> Day(charges[i].to) != today
  {
    KeptIsDaySum(charges, |charges|);
    assert charges[..|charges|] == charges;
    TotalOnZero(charges, today);
  }

  lemma LatestDaySum(charges: seq<Charge>, today: int)
    requires Disjoint(charges) && forall i :: 0 <= i < |charges| ==> Day(charges[i].to) <= today
    requires forall i :: 0 <= i < |charges| ==> 0.0 < charges[i].minutes <= charges[i].to - charges[i].from
    ensures Counted(charges, today) == TotalOn(charges, today)
  {
    DisjointKeepsDays(charges);
    CountedIsDaySum(charges, today);
    var n := |charges| - 1;
    forall i | 0 <= i <= n ensures Day(charges[i].to) <= Day(charges[n].to) {
      if i < n { DayMonotone(charges[i].to, charges[n].to); }
    }
  }

  /** Over billing without double charges, a start is refused at the first check exactly when the
      user is free and the minutes charged for the day reach the quota; and one that has to close an
      idle session first is refused exactly when the rest it bills for that session makes them. */
  lemma StartGoesByDaySum(cfg: Config, s: State, t: StartTimes, missionOk: bool)
    requires cfg.cap >= 0.0 && Reachable(cfg, s) && Enabled(s, Start(t, missionOk)) && Disjoint(s.db.charges)
    requires forall i :: 0 <= i < |s.db.charges| ==> Day(s.db.charges[i].to) <= Day(t.quotaCheck)
    ensures StartTx(cfg, s.db, t, missionOk) == (s.db, QuotaExhausted) <==>
              s.db.user.free && TotalOn(s.db.charges, Day(t.quotaCheck)) >= cfg.freeDaily
    ensures StartTx(cfg, s.db, t, missionOk) != (s.db, QuotaExhausted) ==>
              forall sid: nat :: Reaps(cfg, s, sid, t) ==>
                var rest := CappedMinutes(s.db.sessions[sid].lastActivityAt, t.reap, cfg.cap);
                StartTx(cfg, s.db, t, missionOk).1.QuotaExhausted? <==>
                  s.db.user.free && TotalOn(s.db.charges, Day(t.reap)) + rest >= cfg.freeDaily
  {
    ReachableInv(cfg, s);
    forall i | 0 <= i < |s.db.charges|
      ensures 0.0 < s.db.charges[i].minutes <= s.db.charges[i].to - s.db.charges[i].from
      ensures Day(s.db.charges[i].to) <= Day(t.reap)
    {
      assert ChargeOk(s.db, s.clock, s.db.charges[i]);
      DayMonotone(s.db.charges[i].to, t.reap);
    }
    LatestDaySum(s.db.charges, Day(t.quotaCheck));
    LatestDaySum(s.db.charges, Day(t.reap));
    StartAnswersExactly(cfg, s, t, missionOk);
    forall sid: nat, i: nat | Reaps(cfg, s, sid, t) && Live(s, i) ensures i == sid {
      OneActiveSession(cfg, s, i, sid);
    }
  }

  // ----- What backdating does to billing -----

  lemma BilledBeforeNow(db: Db, clock: real, sid: nat)
    requires DbOk(db, clock) && sid < |db.sessions|
    ensures BilledUpTo(db, sid) <= clock
  {
    var i := LastToIs(db.charges, sid, db.sessions[sid].startedAt);
    assert i >= 0 ==> ChargeOk(db, clock, db.charges[i]);
  }

  /** A turn billed from `mark`, before where its session has been billed up to, is not sound. */
  lemma TurnBillsAgain(cfg: Config, db: Db, sid: nat, mark: real, now: real, clock: real)
    requires cfg.cap > 0.0 && sid < |db.sessions| && db.sessions[sid].endedAt.None?
    requires mark < BilledUpTo(db, sid) && mark < now
    ensures !Sound(TurnTx(cfg, db, sid, mark, now), clock)
  {
    var db', n := TurnTx(cfg, db, sid, mark, now), |db.charges|;
    var i := LastToIs(db.charges, sid, db.sessions[sid].startedAt);
    assert db'.charges[n] == Charge(sid, mark, now, CappedMinutes(mark, now, cfg.cap));
    assert i >= 0 ==> db'.charges[i] == db.charges[i];
  }

  /** The inputs that break billing: from any state with an open session, a turn with an instant the
      clamp accepts but before what was billed, and then a turn now, leave time charged twice or
      charged from before the session. */
  lemma BackdatingBillsTwice(cfg: Config, s: State, sid: nat, a: real) returns (s': State)
    requires cfg.cap > 0.0 && Reachable(cfg, s) && Live(s, sid) && sid !in s.turns
    requires s.clock - 2880.0 <= a < BilledUpTo(s.db, sid) && a <= s.db.sessions[sid].lastActivityAt
    ensures ClampPracticedAt(Some(a), s.clock) == a
    ensures Reachable(cfg, s') && s'.clock == s.clock && !Sound(s'.db, s'.clock)
  {
    ReachableInv(cfg, s);
    BilledBeforeNow(s.db, s.clock, sid);
    var s1 := TakeTurn(cfg, s, sid, a);
    TurnBillsAgain(cfg, s1.db, sid, a, s.clock, s.clock);
    s' := TakeTurn(cfg, s1, sid, s.clock);
  }

  /** The input that loses time: a turn with an instant the clamp accepts but before the session's
      last activity leaves time that the billed stretches no longer add up to. */
  lemma BackdatingLosesTime(cfg: Config, s: State, sid: nat, a: real) returns (s': State)
    requires cfg.cap > 0.0 && Reachable(cfg, s) && Live(s, sid) && sid !in s.turns && Accounted(cfg, s.db)
    requires s.clock - 2880.0 <= a < s.db.sessions[sid].lastActivityAt
    ensures ClampPracticedAt(Some(a), s.clock) == a
    ensures Reachable(cfg, s') && s'.clock == s.clock && !Accounted(cfg, s'.db)
  {
    ReachableInv(cfg, s);
    TurnAccounts(cfg, s.db, sid, a);
    s' := TakeTurn(cfg, s, sid, a);
  }

  // ----- The streak and the active time -----

  /** The stored streak is right about the days with a metered turn whenever these came in order:
      by the lemma ExactIffInOrder, no less will do. */
  lemma StreakInRuns(cfg: Config, s: State)
    requires cfg.cap >= 0.0 && Reachable(cfg, s)
    ensures s.db.user.streak == StreakAfter(s.db.activeDays)
    ensures NonDecreasing(s.db.activeDays) ==> Exact(s.db.activeDays)
  {
    ReachableInv(cfg, s);
    if NonDecreasing(s.db.activeDays) { OrderedIsExact(s.db.activeDays); }
  }

  /** The inputs that break the streak: a turn with an instant of a day before one already active,
      which the clamp accepts. */
  lemma BackdatingBreaksStreak(cfg: Config, s: State, sid: nat, a: real, i: nat) returns (s': State)
    requires cfg.cap >= 0.0 && Reachable(cfg, s) && Live(s, sid) && sid !in s.turns
    requires s.clock - 2880.0 <= a <= s.clock && i < |s.db.activeDays| && Day(a) < s.db.activeDays[i]
    ensures ClampPracticedAt(Some(a), s.clock) == a
    ensures Reachable(cfg, s') && s'.db.activeDays == s.db.activeDays + [Day(a)] && !Exact(s'.db.activeDays)
  {
    s' := TakeTurn(cfg, s, sid, a);
    if Exact(s'.db.activeDays) { ExactEndsLatest(s'.db.activeDays, i); }
  }

  /** The exact condition for completeness: in every state of a run the billed stretches cover all
      of each session's time since its opening, each at its length up to the cap, if and only if
      no metered turn carried an instant before its session's last activity. */
  lemma AllTimeBilledIffInOrder(cfg: Config, s0: State, actions: seq<Action>, s: State)
    requires cfg.cap > 0.0 && IsInitial(s0) && IsRun(cfg, s0, actions, s)
    ensures AlwaysAccounted(cfg, s0, actions) <==> AllInOrder(cfg, s0, actions)
  {
    InitialState(cfg, s0);
    RunAccountedIffInOrder(cfg, s0, actions, s);
  }

  /** Turns in order make everything exact at once: billing is in bounds, the counter is the day's
      sum, the streak is right, and a session without a pause longer than the cap is billed for
      exactly the time from its opening to its last activity or end. */
  lemma InOrderIsExact(cfg: Config, s0: State, actions: seq<Action>, s: State)
    requires cfg.cap > 0.0 && IsInitial(s0) && IsRun(cfg, s0, actions, s) && AllInOrder(cfg, s0, actions)
    ensures AllInBounds(cfg, s0, actions) && Sound(s.db, s.clock)
    ensures DaysKept(s.db.charges) && NonDecreasing(s.db.activeDays) && Exact(s.db.activeDays)
    ensures forall sid :: 0 <= sid < |s.db.sessions| && NoLongPause(cfg, s.db, sid) ==>
              sid < |s.db.openings| && s.db.sessions[sid].duration == Upto(s.db.sessions[sid]) - s.db.openings[sid]
  {
    InitialState(cfg, s0);
    OrderedRun(cfg, s0, actions, s);
    SoundIffApart(s.db, s.clock);
    DisjointKeepsDays(s.db.charges);
    OrderedIsExact(s.db.activeDays);
    forall sid | 0 <= sid < |s.db.sessions| && NoLongPause(cfg, s.db, sid)
      ensures sid < |s.db.openings| && s.db.sessions[sid].duration == Upto(s.db.sessions[sid]) - s.db.openings[sid]
    {
      BilledInFull(cfg, s.db, sid);
    }
  }

  predicate NoLongPause(cfg: Config, db: Db, sid: nat) {
    forall i :: 0 <= i < |db.charges| && db.charges[i].session == sid ==>
      db.charges[i].to - db.charges[i].from <= cfg.cap
  }

  lemma BilledInFull(cfg: Config, db: Db, sid: nat)
    requires Accounted(cfg, db) && DurationsOk(db) && sid < |db.sessions| && NoLongPause(cfg, db, sid)
    ensures sid < |db.openings| && db.sessions[sid].duration == Upto(db.sessions[sid]) - db.openings[sid]
  {
    assert Covers(db, sid, Upto(db.sessions[sid]));
    assert forall i :: 0 <= i < |db.charges| ==> Fair(cfg, db.charges[i]);
    FullStretches(db.charges, sid);
  }
}
