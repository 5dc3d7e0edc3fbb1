/** Spaced repetition of error types: the ladder of backend/app/features/review/scheduler.py and
    record_session of backend/app/features/review/service.py. Instants are in seconds. */
module ReviewLadder {
  import opened Options
  import opened Whitespace

  const DAY := 86400

  /** INTERVAL_DAYS = (1, 3, 7). */
  function Interval(stage: int): int {
    if stage <= 0 then DAY else if stage == 1 then 3 * DAY else 7 * DAY
  }

  const MASTERY_STREAK := 3

  datatype Status = Due | Mastered

  datatype ReviewState = ReviewState(
    stage: int, cleanStreak: int, status: Status, nextReviewAt: Option<int>, latestCorrection: string)

  const NewState := ReviewState(0, 0, Due, None, "")

  function OnErrorSeen(state: ReviewState, correction: string, now: int): ReviewState {
    ReviewState(0, 0, Due, Some(now + Interval(0)), if correction != "" then correction else state.latestCorrection)
  }

  function OnErrorAbsent(state: ReviewState, now: int): ReviewState {
    if state.status.Mastered? then state
    else if state.nextReviewAt.Some? && now < state.nextReviewAt.value then state
    else
      var cleanStreak := state.cleanStreak + 1;
      if cleanStreak >= MASTERY_STREAK then
        state.(cleanStreak := cleanStreak, status := Mastered, nextReviewAt := None)
      else
        var nextStage := if state.stage + 1 < 2 then state.stage + 1 else 2;
        state.(stage := nextStage, cleanStreak := cleanStreak, status := Due,
               nextReviewAt := Some(now + Interval(nextStage)))
  }

  // ----- One session -----

  datatype ErrorType = ErrorType(name: string) {
    /** Only whitespace: such a type is skipped. */
    predicate Blank() { AllSpace(name) }
  }

  type Schedule = map<ErrorType, ReviewState>

  /** The errors of one session, type -> correction, and when it was recorded. */
  datatype Session = Session(errors: map<ErrorType, string>, now: int)

  /** _to_state: an untracked type starts from the defaults. */
  function ToState(item: Option<ReviewState>): ReviewState {
    if item.Some? then item.value else NewState
  }

  /** What one session makes of the item of one type: a tracked or seen type advances, any other
      and a blank one stays as it is. */
  function ItemAfter(item: Option<ReviewState>, s: Session, k: ErrorType): Option<ReviewState> {
    if k.Blank() then item
    else if k in s.errors then Some(OnErrorSeen(ToState(item), s.errors[k], s.now))
    else if item.Some? then Some(OnErrorAbsent(item.value, s.now))
    else None
  }

  function Entry(schedule: Schedule, k: ErrorType): Option<ReviewState> {
    if k in schedule then Some(schedule[k]) else None
  }

  function EntryAfter(schedule: Schedule, s: Session, k: ErrorType): Option<ReviewState> {
    ItemAfter(Entry(schedule, k), s, k)
  }

  function Recorded(schedule: Schedule, s: Session): Schedule {
    map k | k in schedule.Keys + s.errors.Keys && EntryAfter(schedule, s, k).Some? :: EntryAfter(schedule, s, k).value
  }

  lemma RecordedEntry(schedule: Schedule, s: Session, k: ErrorType)
    ensures Entry(Recorded(schedule, s), k) == EntryAfter(schedule, s, k)
  {
  }

  lemma SameEntries(a: Schedule, b: Schedule)
    requires forall k: ErrorType :: Entry(a, k) == Entry(b, k)
    ensures a == b
  {
    forall k ensures k in a <==> k in b { assert Entry(a, k) == Entry(b, k); }
    forall k | k in a ensures a[k] == b[k] { assert Entry(a, k) == Entry(b, k); }
  }

  /** What has been staged while the types in todo are still to come. */
  ghost predicate Staged(stored: Schedule, schedule: Schedule, s: Session, todo: set<ErrorType>) {
    forall k: ErrorType :: Entry(stored, k) == if k in todo then Entry(schedule, k) else EntryAfter(schedule, s, k)
  }

  lemma StageOne(stored: Schedule, schedule: Schedule, s: Session, todo: set<ErrorType>, k: ErrorType)
    requires Staged(stored, schedule, s, todo) && k in todo && (k in schedule || k in s.errors)
    ensures k.Blank() ==> Staged(stored, schedule, s, todo - {k})
    ensures !k.Blank() ==>
              && EntryAfter(schedule, s, k).Some?
              && Staged(stored[k := EntryAfter(schedule, s, k).value], schedule, s, todo - {k})
  {
    assert Entry(stored, k) == Entry(schedule, k);
    var stored' := if k.Blank() then stored else stored[k := EntryAfter(schedule, s, k).value];
    forall k': ErrorType
      ensures Entry(stored', k') == if k' in todo - {k} then Entry(schedule, k') else EntryAfter(schedule, s, k')
    {
      if k' != k { assert Entry(stored', k') == Entry(stored, k'); }
    }
  }

  lemma StagedAll(stored: Schedule, schedule: Schedule, s: Session)
    requires Staged(stored, schedule, s, {})
    ensures stored == Recorded(schedule, s)
  {
    forall k: ErrorType ensures Entry(stored, k) == Entry(Recorded(schedule, s), k) { RecordedEntry(schedule, s, k); }
    SameEntries(stored, Recorded(schedule, s));
  }

  /** The loop body for one type: its new state is staged. */
  method Upsert(stored: Schedule, schedule: Schedule, s: Session, errorType: ErrorType) returns (more: Schedule)
    requires !errorType.Blank() && (errorType in schedule || errorType in s.errors)
    ensures EntryAfter(schedule, s, errorType).Some?
    ensures more == stored[errorType := EntryAfter(schedule, s, errorType).value]
  {
    var state := ToState(Entry(schedule, errorType));
    if errorType in s.errors {
      state := OnErrorSeen(state, s.errors[errorType], s.now);
    } else {
      state := OnErrorAbsent(state, s.now);
    }
    more := stored[errorType := state];
  }

  function NonBlank(types: set<ErrorType>): set<ErrorType> {
    set k | k in types && !k.Blank()
  }

  lemma NonBlankWithout(types: set<ErrorType>, k: ErrorType)
    requires k in types
    ensures |NonBlank(types - {k})| == |NonBlank(types)| - if k.Blank() then 0 else 1
  {
    assert NonBlank(types - {k}) == NonBlank(types) - {k};
  }

  /** How many upserts one session takes. */
  function Upserts(schedule: Schedule, s: Session): nat {
    |NonBlank(schedule.Keys + s.errors.Keys)|
  }

  /** record_session: the types come in any order, each upsert is staged, and a failure of an
      upsert, or of the commit that follows the last one, rolls all of them back. failsAt is the
      number of upserts done when the next write fails. */
  method RecordSession(schedule: Schedule, s: Session, failsAt: Option<nat>) returns (stored: Schedule, ok: bool)
    ensures ok ==> stored == Recorded(schedule, s)
    ensures !ok ==> stored == schedule
    ensures ok <==> failsAt.None? || failsAt.value > Upserts(schedule, s)
  {
    var todo := schedule.Keys + s.errors.Keys;
    stored := schedule;
    var upserts: nat := 0;
    while todo != {}
      invariant todo <= schedule.Keys + s.errors.Keys
      invariant Staged(stored, schedule, s, todo)
      invariant upserts + |NonBlank(todo)| == Upserts(schedule, s)
      invariant failsAt.Some? ==> upserts <= failsAt.value
      decreases |todo|
    {
      var errorType :| errorType in todo;
      StageOne(stored, schedule, s, todo, errorType);
      NonBlankWithout(todo, errorType);
      todo := todo - {errorType};
      if errorType.Blank() {
        continue;
      }
      if failsAt == Some(upserts) {
        return schedule, false;
      }
      stored := Upsert(stored, schedule, s, errorType);
      upserts := upserts + 1;
    }
    if failsAt == Some(upserts) {
      return schedule, false;
    }
    StagedAll(stored, schedule, s);
    ok := true;
  }

  // ----- Runs -----

  function ScheduleAfter(sessions: seq<Session>): Schedule {
    if sessions == [] then map[]
    else Recorded(ScheduleAfter(sessions[..|sessions| - 1]), sessions[|sessions| - 1])
  }

  /** The session from which rung j is counted: the sighting, or the clean session before. */
  function RungFrom(seen: nat, cleans: seq<nat>, j: nat): nat
    requires j <= |cleans|
  {
    if j == 0 then seen else cleans[j - 1]
  }

  /** When rung j falls due, in days after the session it is counted from. */
  function DueAt(sessions: seq<Session>, seen: nat, cleans: seq<nat>, j: nat): int
    requires j <= |cleans| && RungFrom(seen, cleans, j) < |sessions|
  {
    sessions[RungFrom(seen, cleans, j)].now + (if j == 0 then 86400 else if j == 1 then 3 * 86400 else 7 * 86400)
  }

  /** Rung j is taken in the first session at or after the instant it falls due, or is still
      waited for at the end when there is none. */
  predicate TakenFirst(sessions: seq<Session>, seen: nat, cleans: seq<nat>, j: nat)
    requires j <= |cleans| && RungFrom(seen, cleans, j) < |sessions|
  {
    var end := if j < |cleans| then cleans[j] else |sessions|;
    && (j < |cleans| ==>
          RungFrom(seen, cleans, j) < end < |sessions| && DueAt(sessions, seen, cleans, j) <= sessions[end].now)
    && end <= |sessions|
    && forall i :: RungFrom(seen, cleans, j) < i < end ==> sessions[i].now < DueAt(sessions, seen, cleans, j)
  }

  /** The history of a type in terms of sessions alone: last seen in session `seen`, and clean
      since; the sessions `cleans` are those in which it was due, one for each rung taken. */
  ghost predicate Ladder(sessions: seq<Session>, k: ErrorType, seen: nat, cleans: seq<nat>) {
    && seen < |sessions| && k in sessions[seen].errors
    && (forall i :: seen < i < |sessions| ==> k !in sessions[i].errors)
    && |cleans| <= MASTERY_STREAK
    && (forall j :: 0 <= j < |cleans| ==> cleans[j] < |sessions|)
    && forall j :: 0 <= j <= |cleans| && j < MASTERY_STREAK ==> TakenFirst(sessions, seen, cleans, j)
  }

  /** The stored state says exactly how far the ladder was climbed. */
  ghost predicate Climbed(sessions: seq<Session>, k: ErrorType, st: ReviewState, seen: nat, cleans: seq<nat>) {
    && Ladder(sessions, k, seen, cleans)
    && st.cleanStreak == |cleans|
    && (st.status.Mastered? <==> |cleans| == MASTERY_STREAK)
    && (st.status.Due? ==> st.stage == |cleans| && st.nextReviewAt == Some(DueAt(sessions, seen, cleans, |cleans|)))
  }

  lemma ClimbSeen(sessions: seq<Session>, s: Session, k: ErrorType, st: ReviewState)
    requires k in s.errors
    ensures Climbed(sessions + [s], k, OnErrorSeen(st, s.errors[k], s.now), |sessions|, [])
  {
    assert TakenFirst(sessions + [s], |sessions|, [], 0);
  }

  /** One more session, whose instant is before the rung now waited for. */
  lemma ClimbWaits(sessions: seq<Session>, s: Session, k: ErrorType, st: ReviewState, seen: nat, cleans: seq<nat>)
    requires k !in s.errors && Climbed(sessions, k, st, seen, cleans)
    requires st.status.Mastered? || s.now < st.nextReviewAt.value
    ensures Climbed(sessions + [s], k, st, seen, cleans)
  {
    forall j | 0 <= j <= |cleans| && j < MASTERY_STREAK ensures TakenFirst(sessions + [s], seen, cleans, j) {
      assert TakenFirst(sessions, seen, cleans, j);
    }
  }

  lemma ClimbRung(sessions: seq<Session>, s: Session, k: ErrorType, st: ReviewState, seen: nat, cleans: seq<nat>)
    requires k !in s.errors && Climbed(sessions, k, st, seen, cleans)
    requires st.status.Due? && s.now >= st.nextReviewAt.value
    ensures Climbed(sessions + [s], k, OnErrorAbsent(st, s.now), seen, cleans + [|sessions|])
  {
    var more := cleans + [|sessions|];
    forall j | 0 <= j <= |more| && j < MASTERY_STREAK ensures TakenFirst(sessions + [s], seen, more, j) {
      if j <= |cleans| { assert TakenFirst(sessions, seen, cleans, j); }
    }
  }

  lemma ClimbAbsent(sessions: seq<Session>, s: Session, k: ErrorType, st: ReviewState, seen: nat, cleans: seq<nat>)
    returns (cleans': seq<nat>)
    requires k !in s.errors && Climbed(sessions, k, st, seen, cleans)
    ensures Climbed(sessions + [s], k, OnErrorAbsent(st, s.now), seen, cleans')
  {
    if st.status.Mastered? || s.now < st.nextReviewAt.value {
      ClimbWaits(sessions, s, k, st, seen, cleans);
      cleans' := cleans;
    } else {
      ClimbRung(sessions, s, k, st, seen, cleans);
      cleans' := cleans + [|sessions|];
    }
  }

  /** Refinement: the stored state of every tracked type is its ladder. */
  lemma {:induction false} HowItClimbed(sessions: seq<Session>, k: ErrorType) returns (seen: nat, cleans: seq<nat>)
    requires k in ScheduleAfter(sessions)
    ensures !k.Blank() && Climbed(sessions, k, ScheduleAfter(sessions)[k], seen, cleans)
  {
    var n := |sessions| - 1;
    var front, s := sessions[..n], sessions[n];
    var before := ScheduleAfter(front);
    assert sessions == front + [s];
    RecordedEntry(before, s, k);
    if k in before {
      seen, cleans := HowItClimbed(front, k);
      if k in s.errors {
        ClimbSeen(front, s, k, before[k]);
        seen, cleans := n, [];
      } else {
        cleans := ClimbAbsent(front, s, k, before[k], seen, cleans);
      }
    } else {
      ClimbSeen(front, s, k, NewState);
      seen, cleans := n, [];
    }
  }

  /** Every non-blank type that was ever seen is tracked. */
  lemma {:induction false} SeenIsTracked(sessions: seq<Session>, k: ErrorType, i: nat)
    requires i < |sessions| && k in sessions[i].errors && !k.Blank()
    ensures k in ScheduleAfter(sessions)
    decreases |sessions|
  {
    var n := |sessions| - 1;
    RecordedEntry(ScheduleAfter(sessions[..n]), sessions[n], k);
    if i == n {
    } else {
      SeenIsTracked(sessions[..n], k, i);
    }
  }

  /** A type is tracked exactly when some session saw it and it is not all whitespace. */
  lemma TrackedIffSeen(sessions: seq<Session>, k: ErrorType)
    ensures k in ScheduleAfter(sessions) <==>
              && (exists i :: 0 <= i < |sessions| && k in sessions[i].errors)
              && exists j :: 0 <= j < |k.name| && !IsSpace(k.name[j])
  {
    if k in ScheduleAfter(sessions) {
      var seen, cleans := HowItClimbed(sessions, k);
      assert k in sessions[seen].errors;
    }
    forall i | 0 <= i < |sessions| && k in sessions[i].errors && !k.Blank() ensures k in ScheduleAfter(sessions) {
      SeenIsTracked(sessions, k, i);
    }
  }

  /** Two ladders of one type agree rung by rung: the sessions leave no choice. */
  lemma SameRung(sessions: seq<Session>, seen: nat, a: seq<nat>, b: seq<nat>, j: nat)
    requires j < |a| && j <= |b| && RungFrom(seen, a, j) == RungFrom(seen, b, j) < |sessions|
    requires TakenFirst(sessions, seen, a, j) && TakenFirst(sessions, seen, b, j)
    ensures j < |b| && a[j] == b[j]
  {
    var taken := sessions[a[j]];
    var other := if j < |b| then sessions[b[j]] else taken;
  }

  lemma {:induction false} LadderPrefix(
      sessions: seq<Session>, k: ErrorType, seen: nat, a: seq<nat>, b: seq<nat>, n: nat)
    requires Ladder(sessions, k, seen, a) && Ladder(sessions, k, seen, b) && n <= |a|
    ensures n <= |b| && a[..n] == b[..n]
    decreases n
  {
    if n == 0 {
    } else {
      LadderPrefix(sessions, k, seen, a, b, n - 1);
      var j := n - 1;
      assert j > 0 ==> a[..j][j - 1] == b[..j][j - 1];
      assert TakenFirst(sessions, seen, a, j) && TakenFirst(sessions, seen, b, j);
      SameRung(sessions, seen, a, b, j);
      assert a[..n] == a[..j] + [a[j]] && b[..n] == b[..j] + [b[j]];
    }
  }

  /** The ladder of a type is determined by the sessions. */
  lemma LadderUnique(sessions: seq<Session>, k: ErrorType, seen: nat, a: seq<nat>, seen': nat, b: seq<nat>)
    requires Ladder(sessions, k, seen, a) && Ladder(sessions, k, seen', b)
    ensures seen == seen' && a == b
  {
    LadderPrefix(sessions, k, seen, a, b, |a|);
    LadderPrefix(sessions, k, seen, b, a, |b|);
  }

  /** An item is mastered exactly when its type was seen and its ladder since has three rungs:
      three clean sessions in which it was due. */
  lemma MasteredIffThreeDueCleans(sessions: seq<Session>, k: ErrorType)
    ensures k in ScheduleAfter(sessions) && ScheduleAfter(sessions)[k].status.Mastered? <==>
              !k.Blank() && exists seen, cleans :: Ladder(sessions, k, seen, cleans) && |cleans| == MASTERY_STREAK
  {
    if k in ScheduleAfter(sessions) {
      var seen, cleans := HowItClimbed(sessions, k);
      forall seen', cleans' | Ladder(sessions, k, seen', cleans') ensures cleans' == cleans {
        LadderUnique(sessions, k, seen, cleans, seen', cleans');
      }
    } else {
      forall seen, cleans | Ladder(sessions, k, seen, cleans) ensures k.Blank() {
        if !k.Blank() { SeenIsTracked(sessions, k, seen); }
      }
    }
  }

  /** Safety: whatever the sessions were, an item is mastered only after three clean sessions
      in which it was due, the first at least 1 day after it was last seen, the second 3 days
      after the first and the third 7 days after the second: 11 days after in all. */
  lemma MasteryIsEarned(sessions: seq<Session>, k: ErrorType) returns (seen: nat, cleans: seq<nat>)
    requires k in ScheduleAfter(sessions) && ScheduleAfter(sessions)[k].status.Mastered?
    ensures |cleans| == 3 && seen < cleans[0] < cleans[1] < cleans[2] < |sessions|
    ensures k in sessions[seen].errors && forall i :: seen < i < |sessions| ==> k !in sessions[i].errors
    ensures sessions[cleans[0]].now >= sessions[seen].now + 1 * 86400
    ensures sessions[cleans[1]].now >= sessions[cleans[0]].now + 3 * 86400
    ensures sessions[cleans[2]].now >= sessions[cleans[1]].now + 7 * 86400
    ensures sessions[cleans[2]].now >= sessions[seen].now + 11 * 86400
  {
    seen, cleans := HowItClimbed(sessions, k);
    assert TakenFirst(sessions, seen, cleans, 0);
    assert TakenFirst(sessions, seen, cleans, 1);
    assert TakenFirst(sessions, seen, cleans, 2);
  }

  /** Every clean session in `cleans` is the first one at or after 1, 3 or 7 days from the session
      before it: none that was due is passed over. */
  predicate OnTime(sessions: seq<Session>, seen: nat, cleans: seq<nat>, end: nat)
    requires end <= |sessions| && (forall j :: 0 <= j < |cleans| ==> cleans[j] < |sessions|) && seen < |sessions|
  {
    && (forall i {:trigger sessions[i]} :: seen < i < (if |cleans| > 0 then cleans[0] else end) ==>
          sessions[i].now < sessions[seen].now + 1 * 86400)
    && (|cleans| > 0 ==>
          forall i {:trigger sessions[i]} :: cleans[0] < i < (if |cleans| > 1 then cleans[1] else end) ==>
            sessions[i].now < sessions[cleans[0]].now + 3 * 86400)
    && (|cleans| > 1 ==>
          forall i {:trigger sessions[i]} :: cleans[1] < i < (if |cleans| > 2 then cleans[2] else end) ==>
            sessions[i].now < sessions[cleans[1]].now + 7 * 86400)
  }

  lemma LadderIsOnTime(sessions: seq<Session>, k: ErrorType, seen: nat, cleans: seq<nat>)
    requires Ladder(sessions, k, seen, cleans)
    ensures OnTime(sessions, seen, cleans, |sessions|)
    ensures forall j :: 0 <= j < |cleans| ==> seen < cleans[j] < |sessions|
  {
    if |cleans| > 0 { assert TakenFirst(sessions, seen, cleans, 0); }
    if |cleans| > 1 { assert TakenFirst(sessions, seen, cleans, 1); }
    if |cleans| > 2 { assert TakenFirst(sessions, seen, cleans, 2); }
    if |cleans| < 3 { assert TakenFirst(sessions, seen, cleans, |cleans|); }
  }

  /** The other half: no rung is late. Each is taken by the first clean session at or after 1, 3 and
      7 days, and an item still due waits for 1, 3 or 7 days from its last rung, no more. */
  lemma NoRungIsLate(sessions: seq<Session>, k: ErrorType) returns (seen: nat, cleans: seq<nat>)
    requires k in ScheduleAfter(sessions)
    ensures |cleans| <= 3 && seen < |sessions| && forall j :: 0 <= j < |cleans| ==> seen < cleans[j] < |sessions|
    ensures k in sessions[seen].errors && forall i :: seen < i < |sessions| ==> k !in sessions[i].errors
    ensures OnTime(sessions, seen, cleans, |sessions|)
    ensures var st := ScheduleAfter(sessions)[k];
            && (st.status.Mastered? <==> |cleans| == 3)
            && (st.status.Due? ==>
                  st.nextReviewAt == Some(if |cleans| == 0 then sessions[seen].now + 1 * 86400
                                          else if |cleans| == 1 then sessions[cleans[0]].now + 3 * 86400
                                          else sessions[cleans[1]].now + 7 * 86400))
  {
    seen, cleans := HowItClimbed(sessions, k);
    LadderIsOnTime(sessions, k, seen, cleans);
  }

  lemma LadderOnTime(
      before: seq<Session>, s0: Session, s1: Session, s2: Session, s3: Session, k: ErrorType)
    requires k in s0.errors && k !in s1.errors && k !in s2.errors && k !in s3.errors
    requires s1.now == s0.now + 1 * 86400 && s2.now == s0.now + 4 * 86400 && s3.now == s0.now + 11 * 86400
    ensures var n := |before|; Ladder(before + [s0, s1, s2, s3], k, n, [n + 1, n + 2, n + 3])
  {
    var sessions, n := before + [s0, s1, s2, s3], |before|;
    var cleans := [n + 1, n + 2, n + 3];
    assert TakenFirst(sessions, n, cleans, 0);
    assert TakenFirst(sessions, n, cleans, 1);
    assert TakenFirst(sessions, n, cleans, 2);
  }

  /** Mastery on the earliest dates: whatever came before, an error last seen in one session, and then
      clean in sessions exactly 1, 4 and 11 days later, is mastered. */
  lemma OnTimeIsMastered(
      before: seq<Session>, s0: Session, s1: Session, s2: Session, s3: Session, k: ErrorType)
    requires !k.Blank() && k in s0.errors && k !in s1.errors && k !in s2.errors && k !in s3.errors
    requires s1.now == s0.now + 1 * 86400 && s2.now == s0.now + 4 * 86400 && s3.now == s0.now + 11 * 86400
    ensures var schedule := ScheduleAfter(before + [s0, s1, s2, s3]);
            k in schedule && schedule[k].status.Mastered?
  {
    var n := |before|;
    LadderOnTime(before, s0, s1, s2, s3, k);
    assert |[n + 1, n + 2, n + 3]| == MASTERY_STREAK;
    MasteredIffThreeDueCleans(before + [s0, s1, s2, s3], k);
  }

  // ----- Corrections -----

  /** The correction shown for a type: the last one given that is not empty. */
  function LatestCorrection(sessions: seq<Session>, k: ErrorType): string {
    if sessions == [] then ""
    else
      var s := sessions[|sessions| - 1];
      if k in s.errors && s.errors[k] != "" then s.errors[k] else LatestCorrection(sessions[..|sessions| - 1], k)
  }

  lemma {:induction false} LatestOfUnseen(sessions: seq<Session>, k: ErrorType)
    requires forall i :: 0 <= i < |sessions| ==> k !in sessions[i].errors
    ensures LatestCorrection(sessions, k) == ""
  {
    if sessions == [] {
    } else {
      LatestOfUnseen(sessions[..|sessions| - 1], k);
    }
  }

  /** Climbing, waiting, being mastered and being seen again without a correction all keep the
      correction; only a newer one replaces it. */
  lemma {:induction false} CorrectionIsLatest(sessions: seq<Session>, k: ErrorType)
    requires k in ScheduleAfter(sessions)
    ensures ScheduleAfter(sessions)[k].latestCorrection == LatestCorrection(sessions, k)
  {
    var n := |sessions| - 1;
    var front, s := sessions[..n], sessions[n];
    var before := ScheduleAfter(front);
    RecordedEntry(before, s, k);
    var seen, cleans := HowItClimbed(sessions, k);
    if k in before {
      CorrectionIsLatest(front, k);
    } else {
      forall i | 0 <= i < n ensures k !in front[i].errors {
        if k in front[i].errors { SeenIsTracked(front, k, i); }
      }
      LatestOfUnseen(front, k);
    }
  }

  // ----- Two sessions at one instant -----

  /** The two sessions agree on the correction of k, or at most one of them has one. */
  predicate Agree(a: Session, b: Session, k: ErrorType) {
    k in a.errors && k in b.errors ==> a.errors[k] == "" || b.errors[k] == "" || a.errors[k] == b.errors[k]
  }

  function WithoutCorrection(e: Option<ReviewState>): Option<ReviewState> {
    if e.Some? then Some(e.value.(latestCorrection := "")) else None
  }

  lemma ItemsCommute(item: Option<ReviewState>, a: Session, b: Session, k: ErrorType)
    requires a.now == b.now
    ensures var ab, ba := ItemAfter(ItemAfter(item, a, k), b, k), ItemAfter(ItemAfter(item, b, k), a, k);
            && WithoutCorrection(ab) == WithoutCorrection(ba)
            && (ab == ba <==> k.Blank() || Agree(a, b, k))
  {
  }

  /** Confluence, type by type: recorded at the same instant, the order of two sessions shows
      in nothing but the correction text, and there exactly when both saw the type and brought
      different corrections. */
  lemma OrderShowsOnlyInCorrections(schedule: Schedule, a: Session, b: Session, k: ErrorType)
    requires a.now == b.now
    ensures var ab, ba := Entry(Recorded(Recorded(schedule, a), b), k), Entry(Recorded(Recorded(schedule, b), a), k);
            && WithoutCorrection(ab) == WithoutCorrection(ba)
            && (ab == ba <==> k.Blank() || Agree(a, b, k))
  {
    ItemsCommute(Entry(schedule, k), a, b, k);
    RecordedEntry(schedule, a, k);
    RecordedEntry(schedule, b, k);
    RecordedEntry(Recorded(schedule, a), b, k);
    RecordedEntry(Recorded(schedule, b), a, k);
  }

  /** The two schedules are equal exactly when no non-blank type was given two corrections. */
  lemma SameInstantConfluence(schedule: Schedule, a: Session, b: Session)
    requires a.now == b.now
    ensures Recorded(Recorded(schedule, a), b) == Recorded(Recorded(schedule, b), a) <==>
              forall k: ErrorType :: k.Blank() || Agree(a, b, k)
  {
    var ab, ba := Recorded(Recorded(schedule, a), b), Recorded(Recorded(schedule, b), a);
    forall k: ErrorType ensures Entry(ab, k) == Entry(ba, k) <==> k.Blank() || Agree(a, b, k) {
      OrderShowsOnlyInCorrections(schedule, a, b, k);
    }
    if forall k: ErrorType :: k.Blank() || Agree(a, b, k) { SameEntries(ab, ba); }
  }
}
