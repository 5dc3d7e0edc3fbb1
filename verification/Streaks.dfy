/** The streak transition of backend/app/features/streaks/logic.py against the days themselves. */
module Streaks {
  import opened Options

  datatype StreakState = StreakState(current: nat, longest: nat, lastActive: Option<int>)

  const NoStreak := StreakState(0, 0, None)

  function Max(a: nat, b: nat): nat { if a >= b then a else b }

  function RegisterActiveDay(state: StreakState, today: int): StreakState {
    if state.lastActive == Some(today) then state
    else
      var current := if state.lastActive == Some(today - 1) then state.current + 1 else 1;
      StreakState(current, Max(state.longest, current), Some(today))
  }

  function CurrentStreakFor(state: StreakState, today: int): nat {
    if state.lastActive == Some(today) || state.lastActive == Some(today - 1) then state.current else 0
  }

  function StreakAfter(days: seq<int>): StreakState {
    if days == [] then NoStreak
    else RegisterActiveDay(StreakAfter(days[..|days| - 1]), days[|days| - 1])
  }

  // ----- Reference: runs of consecutive days in the set of active days -----

  function ActiveDays(days: seq<int>): set<int> { set d | d in days }

  /** The n days up to and including d are all active. */
  predicate Block(active: set<int>, d: int, n: nat) {
    forall k :: d - n < k <= d ==> k in active
  }

  /** n is the length of the longest block of active days ending at d (0 when d is not active). */
  predicate IsStreak(active: set<int>, d: int, n: nat) {
    Block(active, d, n) && d - n !in active
  }

  /** No block anywhere in the history is longer than n. */
  ghost predicate Bounds(active: set<int>, n: nat) {
    forall d, m: nat :: Block(active, d, m) ==> m <= n
  }

  ghost predicate IsLongest(active: set<int>, n: nat) {
    (exists d :: Block(active, d, n)) && Bounds(active, n)
  }

  predicate NonDecreasing(days: seq<int>) {
    forall i, j :: 0 <= i < j < |days| ==> days[i] <= days[j]
  }

  /** A run bounds every block that ends where it ends. */
  lemma RunBoundsBlock(active: set<int>, d: int, n: nat, m: nat)
    requires IsStreak(active, d, n) && Block(active, d, m)
    ensures m <= n
  {
    assert m > n ==> d - n in active;
  }

  lemma NewDayBounds(active: set<int>, today: int, longest: nat, current: nat)
    requires Bounds(active, longest) && forall k :: k in active ==> k <= today
    requires IsStreak(active + {today}, today, current)
    ensures Bounds(active + {today}, Max(longest, current))
  {
    var after := active + {today};
    forall d, m: nat | Block(after, d, m) ensures m <= Max(longest, current) {
      if m > 0 {
        assert d in after;
        if d == today {
          RunBoundsBlock(after, today, current, m);
        } else {
          forall k | d - m < k <= d ensures k in active { assert k in after; }
          assert Block(active, d, m);
        }
      }
    }
  }

  lemma NewDayRun(active: set<int>, last: int, n: nat, today: int)
    requires IsStreak(active, last, n) && last <= today && forall k :: k in active ==> k <= last
    ensures today == last + 1 ==> IsStreak(active + {today}, today, n + 1)
    ensures today > last + 1 ==> IsStreak(active + {today}, today, 1)
  {
  }

  /** st describes the set of active days, of which `last` is the latest. */
  ghost predicate Describes(st: StreakState, active: set<int>, last: int) {
    && st.lastActive == Some(last)
    && st.current > 0
    && IsStreak(active, last, st.current)
    && IsLongest(active, st.longest)
  }

  lemma FirstDay(today: int)
    ensures Describes(RegisterActiveDay(NoStreak, today), {today}, today)
  {
    var active := {today};
    assert Block(active, today, 1);
    forall d, m: nat | Block(active, d, m) ensures m <= 1 {
      assert m > 1 ==> d in active && d - 1 in active;
    }
  }

  lemma LastDayIsLatest(days: seq<int>)
    requires NonDecreasing(days) && days != []
    ensures forall k :: k in ActiveDays(days) ==> k <= days[|days| - 1]
  {
    forall k | k in days ensures k <= days[|days| - 1] {
      var i :| 0 <= i < |days| && days[i] == k;
    }
  }

  lemma ExtendStreak(active: set<int>, was: StreakState, last: int, today: int)
    requires Describes(was, active, last) && last <= today && forall k :: k in active ==> k <= last
    ensures Describes(RegisterActiveDay(was, today), active + {today}, today)
  {
    var st := RegisterActiveDay(was, today);
    assert last in active;
    if today == last {
      assert active + {today} == active;
    } else {
      NewDayRun(active, last, was.current, today);
      NewDayBounds(active, today, was.longest, st.current);
      var d :| Block(active, d, was.longest);
      assert Block(active + {today}, d, was.longest) && Block(active + {today}, today, st.current);
    }
  }

  lemma ActiveSnoc(front: seq<int>, today: int)
    ensures ActiveDays(front + [today]) == ActiveDays(front) + {today}
  {
  }

  /** Refinement: for every non-decreasing history, the stored current streak is the run that
      ends on the last active day, and the stored longest streak is the longest run of all. */
  lemma {:induction false} StreakIsRun(days: seq<int>)
    requires NonDecreasing(days) && days != []
    ensures Describes(StreakAfter(days), ActiveDays(days), days[|days| - 1])
  {
    var n := |days| - 1;
    var front, today := days[..n], days[n];
    ActiveSnoc(front, today);
    assert days == front + [today];
    if n == 0 {
      FirstDay(today);
      assert ActiveDays(days) == {today};
    } else {
      var was := StreakAfter(front);
      assert StreakAfter(days) == RegisterActiveDay(was, today);
      StreakIsRun(front);
      LastDayIsLatest(front);
      ExtendStreak(ActiveDays(front), was, front[n - 1], today);
    }
  }

  /** Display: on any day from the last active one on, the streak shown is the run that reaches
      that day, or the day before when that day itself is not active yet, and else 0. */
  lemma DisplayedStreakIsRun(days: seq<int>, today: int)
    requires NonDecreasing(days) && (days != [] ==> days[|days| - 1] <= today)
    ensures var day := if today in days then today else today - 1;
            IsStreak(ActiveDays(days), day, CurrentStreakFor(StreakAfter(days), today))
  {
    if days != [] {
      StreakIsRun(days);
      LastDayIsLatest(days);
    }
  }

  ghost predicate IsLatest(days: seq<int>, last: int) {
    last in days && forall d :: d in days ==> d <= last
  }

  /** The stored state is right about the history: it has the latest active day, the run that
      ends there and the longest run of all. */
  ghost predicate Exact(days: seq<int>) {
    days != [] ==> exists last :: IsLatest(days, last) && Describes(StreakAfter(days), ActiveDays(days), last)
  }

  lemma OrderedIsExact(days: seq<int>)
    requires NonDecreasing(days)
    ensures Exact(days)
  {
    if days != [] {
      StreakIsRun(days);
      LastDayIsLatest(days);
      assert IsLatest(days, days[|days| - 1]);
    }
  }

  lemma ExactEndsLatest(days: seq<int>, i: nat)
    requires Exact(days) && i < |days|
    ensures days[i] <= days[|days| - 1]
  {
    var last :| IsLatest(days, last) && Describes(StreakAfter(days), ActiveDays(days), last);
    assert StreakAfter(days).lastActive == Some(days[|days| - 1]);
    assert days[i] in days;
  }

  /** The exact condition: the stored streaks are right after every one of the days registered if
      and only if no day was registered after a later one. */
  lemma ExactIffInOrder(days: seq<int>)
    ensures (forall n :: 0 <= n <= |days| ==> Exact(days[..n])) <==> NonDecreasing(days)
  {
    if NonDecreasing(days) {
      forall n | 0 <= n <= |days| ensures Exact(days[..n]) { OrderedIsExact(days[..n]); }
    }
    if forall n :: 0 <= n <= |days| ==> Exact(days[..n]) {
      forall i, j | 0 <= i < j < |days| ensures days[i] <= days[j] {
        assert Exact(days[..j + 1]);
        ExactEndsLatest(days[..j + 1], i);
      }
    }
  }
}
