/** Runs whose turns come in order: no session is set back to before its last activity. Exactly
    then no minute goes missing, and the other conditions on turn instants follow. */
module SessionOrder {
  import opened Options
  import opened Streaks
  import opened SessionLedger
  import opened SessionRuns
  import opened SessionBilling
  import opened SessionQuota

  /** A turn that will be metered carries an instant not before its session's last activity. */
  predicate InOrder(s: State, a: Action) {
    a.CommitTurn? && a.session in s.turns && Live(s, a.session) ==>
      s.db.sessions[a.session].lastActivityAt <= s.turns[a.session].now
  }

  ghost predicate AllInOrder(cfg: Config, s: State, actions: seq<Action>)
    requires cfg.cap >= 0.0
    decreases |actions|
  {
    actions != [] && Enabled(s, actions[0]) ==>
      InOrder(s, actions[0]) && AllInOrder(cfg, Apply(cfg, s, actions[0]), actions[1..])
  }

  // ----- All active time is billed -----

  /** The time that the charges of one session stretch over. */
  function SpanFor(charges: seq<Charge>, sid: nat): real {
    if charges == [] then 0.0
    else
      var c := charges[|charges| - 1];
      SpanFor(charges[..|charges| - 1], sid) + if c.session == sid then c.to - c.from else 0.0
  }

  lemma SpanSnoc(charges: seq<Charge>, c: Charge, sid: nat)
    ensures SpanFor(charges + [c], sid) == SpanFor(charges, sid) + if c.session == sid then c.to - c.from else 0.0
  {
    assert (charges + [c])[..|charges|] == charges;
  }

  /** A stretch is billed in full, or up to the cap when it is longer. */
  predicate Fair(cfg: Config, c: Charge) {
    c.minutes == if c.to - c.from <= cfg.cap then c.to - c.from else cfg.cap
  }

  /** The last instant a session knows of: its last activity or its end. */
  function Upto(s: Session): real {
    if s.endedAt.Some? && s.endedAt.value > s.lastActivityAt then s.endedAt.value else s.lastActivityAt
  }

  /** The stretches of session sid cover its time from the opening up to `upto`. */
  predicate Covers(db: Db, sid: nat, upto: real) {
    sid < |db.openings| && SpanFor(db.charges, sid) == upto - db.openings[sid]
  }

  /** Of every session all the time from its opening on is billed, stretch by stretch. */
  predicate Accounted(cfg: Config, db: Db) {
    && |db.openings| == |db.sessions|
    && (forall i :: 0 <= i < |db.charges| ==> Fair(cfg, db.charges[i]))
    && forall sid :: 0 <= sid < |db.sessions| ==> Covers(db, sid, Upto(db.sessions[sid]))
  }

  /** Metering session sid up to `now` accounts for it exactly when s' stands at the later of its
      last activity and now. */
  lemma MeterAccounts(cfg: Config, db: Db, sid: nat, s': Session, now: real)
    requires cfg.cap > 0.0 && Accounted(cfg, db) && sid < |db.sessions| && db.sessions[sid].endedAt.None?
    ensures var mark := db.sessions[sid].lastActivityAt;
            Accounted(cfg, Meter(db, sid, s', mark, now, CappedMinutes(mark, now, cfg.cap))) <==>
              Upto(s') == if now > mark then now else mark
  {
    var mark := db.sessions[sid].lastActivityAt;
    var minutes := CappedMinutes(mark, now, cfg.cap);
    var db' := Meter(db, sid, s', mark, now, minutes);
    var reached := if now > mark then now else mark;
    forall i | 0 <= i < |db'.sessions| ensures Covers(db', i, if i == sid then reached else Upto(db'.sessions[i])) {
      assert Covers(db, i, Upto(db.sessions[i]));
      SpanSnoc(db.charges, Charge(sid, mark, now, minutes), i);
    }
    assert db'.sessions[sid] == s';
    assert Covers(db', sid, Upto(s')) <==> Upto(s') == reached;
  }

  lemma PractisedAccounts(cfg: Config, db: Db, day: int)
    ensures Accounted(cfg, Practised(db, day)) <==> Accounted(cfg, db)
  {
    var db' := Practised(db, day);
    assert forall i :: 0 <= i < |db.sessions| ==>
        (Covers(db', i, Upto(db'.sessions[i])) <==> Covers(db, i, Upto(db.sessions[i])));
  }

  lemma TurnAccounts(cfg: Config, db: Db, sid: nat, now: real)
    requires cfg.cap > 0.0 && Accounted(cfg, db) && sid < |db.sessions| && db.sessions[sid].endedAt.None?
    ensures Accounted(cfg, TurnTx(cfg, db, sid, db.sessions[sid].lastActivityAt, now)) <==>
              db.sessions[sid].lastActivityAt <= now
  {
    var mark := db.sessions[sid].lastActivityAt;
    var s' := Advanced(cfg, db.sessions[sid], mark, now);
    MeterAccounts(cfg, db, sid, s', now);
    TurnIsMeter(cfg, db, sid, mark, now);
    PractisedAccounts(cfg, Meter(db, sid, s', mark, now, CappedMinutes(mark, now, cfg.cap)), Day(now));
  }

  lemma CloseAccounts(cfg: Config, db: Db, sid: nat, now: real)
    requires cfg.cap > 0.0 && Accounted(cfg, db) && sid < |db.sessions| && db.sessions[sid].endedAt.None?
    ensures Accounted(cfg, CloseTx(cfg, db, sid, now))
  {
    MeterAccounts(cfg, db, sid, Closed(cfg, db.sessions[sid], now), now);
    CloseIsMeter(cfg, db, sid, now);
  }

  lemma {:induction false} SpanForNew(charges: seq<Charge>, sid: nat)
    requires forall i :: 0 <= i < |charges| ==> charges[i].session < sid
    ensures SpanFor(charges, sid) == 0.0
  {
    if charges == [] {
    } else {
      SpanForNew(charges[..|charges| - 1], sid);
    }
  }

  lemma OpenAccounts(cfg: Config, db: Db, t: StartTimes)
    requires Accounted(cfg, db) && forall i :: 0 <= i < |db.charges| ==> db.charges[i].session < |db.sessions|
    ensures Accounted(cfg, OpenTx(db, t))
  {
    SpanForNew(db.charges, |db.sessions|);
    var db' := OpenTx(db, t);
    forall i | 0 <= i < |db'.sessions| ensures Covers(db', i, Upto(db'.sessions[i])) {
      if i < |db.sessions| { assert Covers(db, i, Upto(db.sessions[i])); }
    }
  }

  lemma StartAccounts(cfg: Config, db: Db, t: StartTimes, missionOk: bool)
    requires cfg.cap > 0.0 && Accounted(cfg, db)
    requires forall i :: 0 <= i < |db.charges| ==> db.charges[i].session < |db.sessions|
    ensures Accounted(cfg, StartTx(cfg, db, t, missionOk).0)
  {
    var active := FirstActive(db, 0);
    if active.None? {
      OpenAccounts(cfg, db, t);
    } else {
      CloseAccounts(cfg, db, active.value, t.reap);
      OpenAccounts(cfg, CloseTx(cfg, db, active.value, t.reap), t);
    }
  }

  /** One step keeps all time accounted for if and only if it is in order. */
  lemma StepAccounts(cfg: Config, s: State, a: Action)
    requires cfg.cap > 0.0 && Inv(s) && Accounted(cfg, s.db) && Enabled(s, a)
    ensures Accounted(cfg, Apply(cfg, s, a).db) <==> InOrder(s, a)
  {
    match a
    case CommitTurn(sid) =>
      assert TurnOk(s, sid, s.turns[sid]);
      if Live(s, sid) { TurnAccounts(cfg, s.db, sid, s.turns[sid].now); }
    case CommitEnd(i) =>
      if Live(s, s.ends[i].session) { CloseAccounts(cfg, s.db, s.ends[i].session, s.ends[i].now); }
    case Start(t, missionOk) =>
      forall i | 0 <= i < |s.db.charges| ensures s.db.charges[i].session < |s.db.sessions| {
        assert ChargeOk(s.db, s.clock, s.db.charges[i]);
      }
      StartAccounts(cfg, s.db, t, missionOk);
    case _ =>
  }

  ghost predicate AlwaysAccounted(cfg: Config, s: State, actions: seq<Action>)
    requires cfg.cap >= 0.0
    decreases |actions|
  {
    && Accounted(cfg, s.db)
    && (actions != [] && Enabled(s, actions[0]) ==> AlwaysAccounted(cfg, Apply(cfg, s, actions[0]), actions[1..]))
  }

  lemma {:induction false} RunAccountedIffInOrder(cfg: Config, s: State, actions: seq<Action>, s': State)
    requires cfg.cap > 0.0 && Inv(s) && Accounted(cfg, s.db) && IsRun(cfg, s, actions, s')
    ensures AlwaysAccounted(cfg, s, actions) <==> AllInOrder(cfg, s, actions)
    decreases |actions|
  {
    if actions == [] {
    } else {
      EveryStep(cfg, s, actions[0]);
      StepAccounts(cfg, s, actions[0]);
      if InOrder(s, actions[0]) { RunAccountedIffInOrder(cfg, Apply(cfg, s, actions[0]), actions[1..], s'); }
    }
  }

  lemma {:induction false} FullStretches(charges: seq<Charge>, sid: nat)
    requires forall i :: 0 <= i < |charges| && charges[i].session == sid ==>
               charges[i].minutes == charges[i].to - charges[i].from
    ensures TotalFor(charges, sid) == SpanFor(charges, sid)
  {
    if charges == [] {
    } else {
      FullStretches(charges[..|charges| - 1], sid);
    }
  }

  // ----- Active days come in order -----

  /** The days with a turn came in order, and none is after the last activity. */
  predicate DaysInOrder(db: Db) {
    && NonDecreasing(db.activeDays)
    && (db.activeDays != [] ==>
          db.sessions != [] && db.activeDays[|db.activeDays| - 1] <= Day(db.sessions[|db.sessions| - 1].lastActivityAt))
  }

  lemma TurnDays(cfg: Config, db: Db, clock: real, sid: nat, mark: real, now: real)
    requires cfg.cap >= 0.0 && SessionsOk(db, clock) && DaysInOrder(db) && sid < |db.sessions|
    requires db.sessions[sid].endedAt.None? && db.sessions[sid].lastActivityAt <= now
    ensures DaysInOrder(TurnTx(cfg, db, sid, mark, now))
  {
    OnlyLastLive(db, clock, sid);
    DayMonotone(db.sessions[sid].lastActivityAt, now);
    var days := db.activeDays + [Day(now)];
    forall i, j | 0 <= i < j < |days| ensures days[i] <= days[j] {
      if j == |db.activeDays| { assert db.activeDays[i] <= db.activeDays[|db.activeDays| - 1]; }
    }
  }

  lemma StartDays(cfg: Config, db: Db, clock: real, t: StartTimes, missionOk: bool)
    requires cfg.cap >= 0.0 && SessionsOk(db, clock) && DaysInOrder(db) && clock <= t.active
    ensures DaysInOrder(StartTx(cfg, db, t, missionOk).0)
  {
    if db.sessions != [] { DayMonotone(db.sessions[|db.sessions| - 1].lastActivityAt, t.active); }
  }

  lemma StepDays(cfg: Config, s: State, a: Action)
    requires cfg.cap >= 0.0 && Inv(s) && DaysInOrder(s.db) && Enabled(s, a) && InOrder(s, a)
    ensures DaysInOrder(Apply(cfg, s, a).db)
  {
    match a
    case CommitTurn(sid) =>
      if Live(s, sid) { TurnDays(cfg, s.db, s.clock, sid, s.turns[sid].mark, s.turns[sid].now); }
    case Start(t, missionOk) => StartDays(cfg, s.db, s.clock, t, missionOk);
    case _ =>
  }

  // ----- In order is more than in bounds -----

  lemma StepInBounds(s: State, a: Action)
    requires Ready(s.db) && InOrder(s, a)
    ensures InBounds(s, a)
  {
  }

  /** A run in order satisfies every condition on turn instants there is. */
  lemma {:induction false} OrderedRun(cfg: Config, s: State, actions: seq<Action>, s': State)
    requires cfg.cap > 0.0 && Inv(s) && Ready(s.db) && Accounted(cfg, s.db) && DaysInOrder(s.db)
    requires IsRun(cfg, s, actions, s') && AllInOrder(cfg, s, actions)
    ensures AllInBounds(cfg, s, actions)
    ensures Inv(s') && Ready(s'.db) && Accounted(cfg, s'.db) && DaysInOrder(s'.db)
    decreases |actions|
  {
    if actions == [] {
    } else {
      EveryStep(cfg, s, actions[0]);
      StepInBounds(s, actions[0]);
      StepReady(cfg, s, actions[0]);
      StepAccounts(cfg, s, actions[0]);
      StepDays(cfg, s, actions[0]);
      OrderedRun(cfg, Apply(cfg, s, actions[0]), actions[1..], s');
    }
  }
}
