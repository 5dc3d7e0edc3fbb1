/** Exact billing: when a run charges no time twice and nothing from outside a session, and the
    condition on turn instants that decides it. */
module SessionBilling {
  import opened Options
  import opened SessionLedger
  import opened SessionRuns

  /** The billed stretches lie one after another: none is billed twice. */
  predicate Disjoint(charges: seq<Charge>) {
    forall i, j :: 0 <= i < j < |charges| ==> charges[i].to <= charges[j].from
  }

  predicate Inside(db: Db, c: Charge) {
    c.session < |db.sessions| && db.sessions[c.session].startedAt <= c.from
  }

  /** What exact billing means: disjoint stretches inside their sessions, none charged at more
      than its length, and each session's duration what was charged to the user for it and at most
      the time since it began. */
  predicate Sound(db: Db, clock: real) {
    && Disjoint(db.charges)
    && (forall i :: 0 <= i < |db.charges| ==>
          var c := db.charges[i]; Inside(db, c) && 0.0 < c.minutes <= c.to - c.from && c.to <= clock)
    && forall sid :: 0 <= sid < |db.sessions| ==>
         var s := db.sessions[sid]; s.duration == TotalFor(db.charges, sid) && s.duration <= clock - s.startedAt
  }

  /** The end of the last charge of session sid, or `start` when it has none. */
  function LastTo(charges: seq<Charge>, sid: nat, start: real): real {
    if charges == [] then start
    else
      var c := charges[|charges| - 1];
      if c.session == sid then c.to else LastTo(charges[..|charges| - 1], sid, start)
  }

  /** Up to where session sid has been billed. */
  function BilledUpTo(db: Db, sid: nat): real
    requires sid < |db.sessions|
  {
    LastTo(db.charges, sid, db.sessions[sid].startedAt)
  }

  lemma {:induction false} LastToIs(charges: seq<Charge>, sid: nat, start: real) returns (i: int)
    ensures -1 <= i < |charges|
    ensures LastTo(charges, sid, start) == if i < 0 then start else charges[i].to
    ensures i >= 0 ==> charges[i].session == sid
    ensures forall j :: i < j < |charges| ==> charges[j].session != sid
  {
    var n := |charges| - 1;
    if charges == [] {
      i := -1;
    } else if charges[n].session == sid {
      i := n;
    } else {
      i := LastToIs(charges[..n], sid, start);
    }
  }

  lemma LastToSnoc(charges: seq<Charge>, c: Charge, sid: nat, start: real)
    ensures LastTo(charges + [c], sid, start) == if c.session == sid then c.to else LastTo(charges, sid, start)
  {
    assert (charges + [c])[..|charges|] == charges;
  }

  // ----- Sound, without the sums -----

  predicate Apart(db: Db) {
    Disjoint(db.charges) && forall i :: 0 <= i < |db.charges| ==> Inside(db, db.charges[i])
  }

  /** Disjoint stretches after `start` add up to no more than the time they span. */
  lemma {:induction false} TotalWithin(charges: seq<Charge>, sid: nat, start: real)
    requires Disjoint(charges)
    requires forall i :: 0 <= i < |charges| ==> 0.0 < charges[i].minutes <= charges[i].to - charges[i].from
    requires forall i :: 0 <= i < |charges| && charges[i].session == sid ==> start <= charges[i].from
    ensures TotalFor(charges, sid) <= LastTo(charges, sid, start) - start
  {
    var n := |charges| - 1;
    if charges == [] {
    } else {
      TotalWithin(charges[..n], sid, start);
      var i := LastToIs(charges[..n], sid, start);
    }
  }

  lemma BilledWithin(db: Db, clock: real, sid: nat)
    requires DbOk(db, clock) && Apart(db) && sid < |db.sessions|
    ensures db.sessions[sid].duration <= BilledUpTo(db, sid) - db.sessions[sid].startedAt
    ensures BilledUpTo(db, sid) <= clock
    ensures forall k :: sid < k < |db.sessions| ==> BilledUpTo(db, sid) <= db.sessions[k].startedAt
  {
    forall i | 0 <= i < |db.charges|
      ensures 0.0 < db.charges[i].minutes <= db.charges[i].to - db.charges[i].from && db.charges[i].to <= clock
      ensures Inside(db, db.charges[i])
    {
      assert ChargeOk(db, clock, db.charges[i]);
    }
    TotalWithin(db.charges, sid, db.sessions[sid].startedAt);
    var i := LastToIs(db.charges, sid, db.sessions[sid].startedAt);
  }

  lemma SoundIffApart(db: Db, clock: real)
    requires DbOk(db, clock)
    ensures Sound(db, clock) <==> Apart(db)
  {
    if Apart(db) {
      forall i | 0 <= i < |db.charges|
        ensures var c := db.charges[i]; Inside(db, c) && 0.0 < c.minutes <= c.to - c.from && c.to <= clock
      {
        assert ChargeOk(db, clock, db.charges[i]);
      }
      forall sid | 0 <= sid < |db.sessions| ensures db.sessions[sid].duration <= clock - db.sessions[sid].startedAt {
        BilledWithin(db, clock, sid);
      }
    }
  }

  /** Everything charged so far ends by where the last session has been billed up to. */
  lemma AllBilledBy(db: Db, clock: real, i: nat)
    requires DbOk(db, clock) && Apart(db) && db.sessions != [] && i < |db.charges|
    ensures db.charges[i].to <= BilledUpTo(db, |db.sessions| - 1)
  {
    var last := |db.sessions| - 1;
    var j := LastToIs(db.charges, last, db.sessions[last].startedAt);
    assert ChargeOk(db, clock, db.charges[i]);
    if j >= 0 {
      assert ChargeOk(db, clock, db.charges[j]) && Inside(db, db.charges[j]);
    }
  }

  lemma StartBilledBy(db: Db, clock: real)
    requires DbOk(db, clock) && Apart(db) && db.sessions != []
    ensures db.sessions[|db.sessions| - 1].startedAt <= BilledUpTo(db, |db.sessions| - 1)
  {
    var last := |db.sessions| - 1;
    var j := LastToIs(db.charges, last, db.sessions[last].startedAt);
    assert j >= 0 ==> ChargeOk(db, clock, db.charges[j]) && Inside(db, db.charges[j]);
  }

  // ----- Ready for whatever comes next -----

  /** Billing is sound and stays so when the open session is billed from its last activity on. */
  predicate Ready(db: Db) {
    && Apart(db)
    && forall sid :: 0 <= sid < |db.sessions| && db.sessions[sid].endedAt.None? ==>
         BilledUpTo(db, sid) <= db.sessions[sid].lastActivityAt
  }

  /** Sound now, and also once the open session is closed, whenever that will be. */
  ghost predicate Settles(cfg: Config, s: State)
    requires cfg.cap >= 0.0
  {
    && Sound(s.db, s.clock)
    && forall sid, later :: Live(s, sid) && s.clock <= later ==> Sound(CloseTx(cfg, s.db, sid, later), later)
  }

  /** Metering the open session from `from` on, which is not before where it was billed up to. */
  lemma MeterApart(db: Db, clock: real, s': Session, from: real, to: real, minutes: real)
    requires DbOk(db, clock) && Apart(db) && MeterStep(db, clock, s', from, to, minutes)
    requires BilledUpTo(db, |db.sessions| - 1) <= from
    ensures Apart(Metered(db, s', from, to, minutes))
    ensures BilledUpTo(Metered(db, s', from, to, minutes), |db.sessions| - 1) ==
              if minutes > 0.0 then to else BilledUpTo(db, |db.sessions| - 1)
  {
    var db', last := Metered(db, s', from, to, minutes), |db.sessions| - 1;
    LastToSnoc(db.charges, Charge(last, from, to, minutes), last, db.sessions[last].startedAt);
    StartBilledBy(db, clock);
    forall i | 0 <= i < |db.charges| ensures Inside(db', db.charges[i]) && db.charges[i].to <= from {
      assert Inside(db, db.charges[i]);
      AllBilledBy(db, clock, i);
    }
  }

  lemma CloseApart(cfg: Config, db: Db, clock: real, sid: nat, now: real)
    requires cfg.cap >= 0.0 && DbOk(db, clock) && Ready(db) && now <= clock
    requires sid < |db.sessions| && db.sessions[sid].endedAt.None?
    ensures Apart(CloseTx(cfg, db, sid, now)) && AllEnded(CloseTx(cfg, db, sid, now))
  {
    OnlyLastLive(db, clock, sid);
    CloseIsMeter(cfg, db, sid, now);
    CloseEndsAll(cfg, db, clock, sid, now);
    var s := db.sessions[sid];
    MeterApart(db, clock, Closed(cfg, s, now), s.lastActivityAt, now, CappedMinutes(s.lastActivityAt, now, cfg.cap));
  }

  lemma ReadySettles(cfg: Config, s: State)
    requires cfg.cap >= 0.0 && Inv(s) && Ready(s.db)
    ensures Settles(cfg, s)
  {
    SoundIffApart(s.db, s.clock);
    forall sid, later | Live(s, sid) && s.clock <= later ensures Sound(CloseTx(cfg, s.db, sid, later), later) {
      ClockKeeps(s.db, s.clock, later);
      CloseApart(cfg, s.db, later, sid, later);
      CloseKeeps(cfg, s.db, later, sid, later);
      SoundIffApart(CloseTx(cfg, s.db, sid, later), later);
    }
  }

  lemma SoundCloseIsReady(cfg: Config, db: Db, sid: nat, later: real)
    requires cfg.cap > 0.0 && sid < |db.sessions| && later > db.sessions[sid].lastActivityAt
    requires Sound(CloseTx(cfg, db, sid, later), later)
    ensures BilledUpTo(db, sid) <= db.sessions[sid].lastActivityAt
  {
    var s, db' := db.sessions[sid], CloseTx(cfg, db, sid, later);
    var n := |db.charges|;
    assert db'.charges[n].from == s.lastActivityAt && Inside(db', db'.charges[n]);
    var i := LastToIs(db.charges, sid, s.startedAt);
    assert i >= 0 ==> db'.charges[i] == db.charges[i];
  }

  lemma SettlesIsReady(cfg: Config, s: State)
    requires cfg.cap > 0.0 && Inv(s) && Settles(cfg, s)
    ensures Ready(s.db)
  {
    SoundIffApart(s.db, s.clock);
    forall sid | 0 <= sid < |s.db.sessions| && s.db.sessions[sid].endedAt.None?
      ensures BilledUpTo(s.db, sid) <= s.db.sessions[sid].lastActivityAt
    {
      assert Live(s, sid);
      SoundCloseIsReady(cfg, s.db, sid, s.clock + 1.0);
    }
  }

  // ----- The condition on turns -----

  /** A turn that will be metered carries an instant not before where its session has been billed
      up to: the end of its last charge, or its start when it has none. */
  predicate InBounds(s: State, a: Action) {
    a.CommitTurn? && a.session in s.turns && Live(s, a.session) ==>
      BilledUpTo(s.db, a.session) <= s.turns[a.session].now
  }

  lemma PractisedReady(db: Db, day: int)
    ensures Ready(Practised(db, day)) <==> Ready(db)
  {
    var db' := Practised(db, day);
    assert forall i :: 0 <= i < |db.charges| ==> (Inside(db', db'.charges[i]) <==> Inside(db, db.charges[i]));
    assert forall sid :: 0 <= sid < |db.sessions| ==> BilledUpTo(db', sid) == BilledUpTo(db, sid);
  }

  lemma TurnReady(cfg: Config, db: Db, clock: real, sid: nat, now: real)
    requires cfg.cap >= 0.0 && DbOk(db, clock) && Ready(db) && now <= clock
    requires sid < |db.sessions| && db.sessions[sid].endedAt.None?
    ensures Ready(TurnTx(cfg, db, sid, db.sessions[sid].lastActivityAt, now)) <==> BilledUpTo(db, sid) <= now
  {
    OnlyLastLive(db, clock, sid);
    var mark := db.sessions[sid].lastActivityAt;
    var s', minutes := Advanced(cfg, db.sessions[sid], mark, now), CappedMinutes(mark, now, cfg.cap);
    TurnIsMeter(cfg, db, sid, mark, now);
    MeterApart(db, clock, s', mark, now, minutes);
    PractisedReady(Metered(db, s', mark, now, minutes), Day(now));
  }

  lemma OpenReady(db: Db, clock: real, t: StartTimes)
    requires DbOk(db, clock) && Apart(db) && AllEnded(db) && t.started <= t.active
    ensures Ready(OpenTx(db, t))
  {
    var db', n := OpenTx(db, t), |db.sessions|;
    forall i | 0 <= i < |db.charges| ensures Inside(db', db'.charges[i]) && db'.charges[i].session < n {
      assert Inside(db, db.charges[i]);
    }
    var k := LastToIs(db'.charges, n, t.started);
  }

  lemma ReapReady(cfg: Config, db: Db, clock: real, sid: nat, t: StartTimes)
    requires cfg.cap >= 0.0 && DbOk(db, clock) && Ready(db) && clock <= t.reap && t.started <= t.active
    requires sid < |db.sessions| && db.sessions[sid].endedAt.None?
    ensures Ready(CloseTx(cfg, db, sid, t.reap)) && Ready(OpenTx(CloseTx(cfg, db, sid, t.reap), t))
  {
    ClockKeeps(db, clock, t.reap);
    CloseApart(cfg, db, t.reap, sid, t.reap);
    CloseKeeps(cfg, db, t.reap, sid, t.reap);
    OpenReady(CloseTx(cfg, db, sid, t.reap), t.reap, t);
  }

  lemma StartReady(cfg: Config, db: Db, clock: real, t: StartTimes, missionOk: bool)
    requires cfg.cap >= 0.0 && DbOk(db, clock) && Ready(db) && clock <= t.reap <= t.started <= t.active
    ensures Ready(StartTx(cfg, db, t, missionOk).0)
  {
    StartCases(cfg, db, t, missionOk);
    var active := FirstActive(db, 0);
    if active.None? {
      OpenReady(db, clock, t);
    } else {
      ReapReady(cfg, db, clock, active.value, t);
    }
  }

  /** One step keeps exact billing if and only if the turn it meters, if any, is in bounds. */
  lemma StepReady(cfg: Config, s: State, a: Action)
    requires cfg.cap >= 0.0 && Inv(s) && Ready(s.db) && Enabled(s, a)
    ensures Ready(Apply(cfg, s, a).db) <==> InBounds(s, a)
  {
    match a
    case CommitTurn(sid) =>
      assert TurnOk(s, sid, s.turns[sid]);
      if Live(s, sid) { TurnReady(cfg, s.db, s.clock, sid, s.turns[sid].now); }
    case CommitEnd(i) =>
      if Live(s, s.ends[i].session) { CloseApart(cfg, s.db, s.clock, s.ends[i].session, s.ends[i].now); }
    case Start(t, missionOk) => StartReady(cfg, s.db, s.clock, t, missionOk);
    case _ =>
  }

  /** Every state of the run settles. */
  ghost predicate AlwaysSettles(cfg: Config, s: State, actions: seq<Action>)
    requires cfg.cap >= 0.0
    decreases |actions|
  {
    && Settles(cfg, s)
    && (actions != [] && Enabled(s, actions[0]) ==> AlwaysSettles(cfg, Apply(cfg, s, actions[0]), actions[1..]))
  }

  ghost predicate AllInBounds(cfg: Config, s: State, actions: seq<Action>)
    requires cfg.cap >= 0.0
    decreases |actions|
  {
    actions != [] && Enabled(s, actions[0]) ==>
      InBounds(s, actions[0]) && AllInBounds(cfg, Apply(cfg, s, actions[0]), actions[1..])
  }

  lemma {:induction false} RunSettlesIffInBounds(cfg: Config, s: State, actions: seq<Action>, s': State)
    requires cfg.cap > 0.0 && Inv(s) && Ready(s.db) && IsRun(cfg, s, actions, s')
    ensures AlwaysSettles(cfg, s, actions) <==> AllInBounds(cfg, s, actions)
    decreases |actions|
  {
    ReadySettles(cfg, s);
    if actions == [] {
    } else {
      var s1 := Apply(cfg, s, actions[0]);
      EveryStep(cfg, s, actions[0]);
      StepReady(cfg, s, actions[0]);
      if InBounds(s, actions[0]) {
        RunSettlesIffInBounds(cfg, s1, actions[1..], s');
      } else if Settles(cfg, s1) {
        SettlesIsReady(cfg, s1);
      }
    }
  }

  lemma {:induction false} RunReady(cfg: Config, s: State, actions: seq<Action>, s': State)
    requires cfg.cap >= 0.0 && Inv(s) && Ready(s.db) && IsRun(cfg, s, actions, s') && AllInBounds(cfg, s, actions)
    ensures Inv(s') && Ready(s'.db)
    decreases |actions|
  {
    if actions == [] {
    } else {
      EveryStep(cfg, s, actions[0]);
      StepReady(cfg, s, actions[0]);
      RunReady(cfg, Apply(cfg, s, actions[0]), actions[1..], s');
    }
  }
}
