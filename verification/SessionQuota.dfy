/** The daily counter of backend/app/core/quota.py against the sum of the day's charges. */
module SessionQuota {
  import opened Options
  import opened SessionLedger
  import opened SessionRuns
  import opened SessionBilling

  /** The day of a charge is the one being counted, or no earlier charge fell on it. */
  predicate KeepsDay(charges: seq<Charge>, c: Charge) {
    || (charges != [] && Day(charges[|charges| - 1].to) == Day(c.to))
    || forall i :: 0 <= i < |charges| ==> Day(charges[i].to) != Day(c.to)
  }

  predicate DaysKept(charges: seq<Charge>) {
    forall k :: 0 <= k < |charges| ==> KeepsDay(charges[..k], charges[k])
  }

  /** The counter is the sum of all charges on its day. */
  predicate DaySum(charges: seq<Charge>) {
    charges != [] ==> TailOnDay(charges) == TotalOn(charges, Day(charges[|charges| - 1].to))
  }

  lemma {:induction false} TotalOnZero(charges: seq<Charge>, d: int)
    requires forall i :: 0 <= i < |charges| ==> charges[i].minutes > 0.0
    ensures TotalOn(charges, d) >= 0.0
    ensures TotalOn(charges, d) == 0.0 <==> forall i :: 0 <= i < |charges| ==> Day(charges[i].to) != d
  {
    var n := |charges| - 1;
    if charges == [] {
    } else {
      TotalOnZero(charges[..n], d);
      assert forall i :: 0 <= i < n ==> charges[..n][i] == charges[i];
    }
  }

  lemma ChargeKeepsDaySum(charges: seq<Charge>, c: Charge)
    requires DaySum(charges) && forall i :: 0 <= i < |charges| ==> charges[i].minutes > 0.0
    ensures DaySum(charges + [c]) <==> KeepsDay(charges, c)
  {
    TotalsSnoc(charges, c, 0, Day(c.to));
    TotalOnZero(charges, Day(c.to));
  }

  lemma NextPrefix(charges: seq<Charge>, k: nat)
    requires k < |charges| && DaySum(charges[..k]) && forall i :: 0 <= i < |charges| ==> charges[i].minutes > 0.0
    ensures DaySum(charges[..k + 1]) <==> KeepsDay(charges[..k], charges[k])
  {
    assert charges[..k + 1] == charges[..k] + [charges[k]];
    ChargeKeepsDaySum(charges[..k], charges[k]);
  }

  lemma {:induction false} KeptIsDaySum(charges: seq<Charge>, n: nat)
    requires n <= |charges| && DaysKept(charges) && forall i :: 0 <= i < |charges| ==> charges[i].minutes > 0.0
    ensures DaySum(charges[..n])
  {
    if n == 0 {
    } else {
      KeptIsDaySum(charges, n - 1);
      NextPrefix(charges, n - 1);
    }
  }

  /** The exact condition for the quota: after every charge the counter is the sum of its day's
      charges if and only if no charge falls on a day that was left for another one. */
  lemma DaySumIffDaysKept(charges: seq<Charge>)
    requires forall i :: 0 <= i < |charges| ==> charges[i].minutes > 0.0
    ensures (forall n :: 0 <= n <= |charges| ==> DaySum(charges[..n])) <==> DaysKept(charges)
  {
    if DaysKept(charges) {
      forall n | 0 <= n <= |charges| ensures DaySum(charges[..n]) { KeptIsDaySum(charges, n); }
    }
    if forall n :: 0 <= n <= |charges| ==> DaySum(charges[..n]) {
      forall k | 0 <= k < |charges| ensures KeepsDay(charges[..k], charges[k]) {
        assert DaySum(charges[..k]) && DaySum(charges[..k + 1]);
        NextPrefix(charges, k);
      }
    }
  }

  /** Disjoint stretches come day by day. */
  lemma DisjointKeepsDays(charges: seq<Charge>)
    requires Disjoint(charges)
    requires forall i :: 0 <= i < |charges| ==> 0.0 < charges[i].minutes <= charges[i].to - charges[i].from
    ensures DaysKept(charges)
  {
    forall k | 0 <= k < |charges| ensures KeepsDay(charges[..k], charges[k]) {
      if k > 0 && Day(charges[k - 1].to) != Day(charges[k].to) {
        DayMonotone(charges[k - 1].to, charges[k].to);
        forall i | 0 <= i < k ensures Day(charges[i].to) != Day(charges[k].to) {
          DayMonotone(charges[i].to, charges[k - 1].to);
        }
      }
    }
  }

  lemma DayMonotone(a: real, b: real)
    requires a <= b
    ensures Day(a) <= Day(b)
  {
  }
}
