/** CTC forced alignment: the Viterbi trellis, the backtrack and the spans of
    pronunciation-service/src/pronunciation/ml/gop.py.

    Log-probabilities are reals; Python's float("-inf"), which the trellis uses for
    "no path", is the separate value NegInf. */
module CtcAlignment {

  datatype Score = NegInf | Fin(v: real)

  /** Python's `a > b` on floats that may be -inf. */
  predicate Gt(a: Score, b: Score) {
    a.Fin? && (b.NegInf? || a.v > b.v)
  }

  /** Python's `a >= b` on floats that may be -inf. */
  predicate Ge(a: Score, b: Score) {
    b.NegInf? || (a.Fin? && a.v >= b.v)
  }

  /** A list index as Python reads it: -1 is the last element. */
  function PyIndex(i: int, len: nat): (k: int)
    ensures -1 <= i < len && len > 0 ==> 0 <= k < len
  {
    if i < 0 then i + len else i
  }

  /** One call of forced_align: the emission matrix, the target labels, the blank. */
  datatype Problem = Problem(logProbs: seq<seq<real>>, targets: seq<nat>, blank: nat) {

    /** Every label the trellis looks up is a column of every row. */
    predicate Valid() {
      && targets != []
      && |logProbs| > 0
      && forall f :: 0 <= f < |logProbs| ==>
           blank < |logProbs[f]| && forall i :: 0 <= i < |targets| ==> targets[i] < |logProbs[f]|
    }

    function N(): nat { |targets| }

    function Frames(): nat { |logProbs| }

    function SLen(): nat { 2 * |targets| + 1 }

    /** The extended sequence blank, t0, blank, t1, ..., blank. */
    function Ext(s: nat): nat
      requires s < SLen()
    {
      if s % 2 == 0 then blank else targets[s / 2]
    }

    function Emit(f: nat, s: nat): real
      requires Valid() && f < Frames() && s < SLen()
    {
      logProbs[f][Ext(s)]
    }

    /** The third move of the trellis: over a blank, between two distinct labels. */
    predicate CanSkip(s: nat)
      requires s < SLen()
    {
      s >= 2 && Ext(s) != blank && Ext(s) != Ext(s - 2)
    }

    // ----- Reference: paths through the trellis -----

    predicate Move(a: int, b: int) {
      && 0 <= a < SLen()
      && 0 <= b < SLen()
      && (b == a || b == a + 1 || (b == a + 2 && CanSkip(b)))
    }

    predicate InRange(path: seq<int>) {
      forall k :: 0 <= k < |path| ==> 0 <= path[k] < SLen()
    }

    predicate Admissible(path: seq<int>) {
      && path != []
      && path[0] <= 1
      && InRange(path)
      && forall k :: 0 < k < |path| ==> Move(path[k - 1], path[k])
    }

    predicate EndsAt(path: seq<int>, f: nat, s: int) {
      Admissible(path) && |path| == f + 1 && path[f] == s
    }

    /** A path over all frames that ends on the last label or the trailing blank. */
    predicate Complete(path: seq<int>) {
      Admissible(path) && |path| == Frames() && path[|path| - 1] >= SLen() - 2
    }

    function PathScore(path: seq<int>): real
      requires Valid() && |path| <= Frames() && InRange(path)
    {
      if path == [] then 0.0
      else PathScore(path[..|path| - 1]) + Emit(|path| - 1, path[|path| - 1])
    }

    function Labels(path: seq<int>): (labels: seq<nat>)
      requires InRange(path)
      ensures |labels| == |path|
      ensures forall k :: 0 <= k < |path| ==> labels[k] == Ext(path[k])
    {
      seq(|path|, k requires 0 <= k < |path| => Ext(path[k]))
    }

    // ----- The trellis, row by row -----

    /** The three candidate predecessors in the order the inner loop tries them. */
    function Choose(row: seq<Score>, s: nat): (Score, int)
      requires |row| == SLen() && s < SLen()
    {
      var c0 := if Gt(row[s], NegInf) then (row[s], s as int) else (NegInf, -1);
      var c1 := if s >= 1 && Gt(row[s - 1], c0.0) then (row[s - 1], s - 1) else c0;
      if CanSkip(s) && Gt(row[s - 2], c1.0) then (row[s - 2], s - 2) else c1
    }

    function InitialCell(s: nat): Score
      requires Valid() && s < SLen()
    {
      if s <= 1 then Fin(Emit(0, s)) else NegInf
    }

    function Cell(row: seq<Score>, f: nat, s: nat): Score
      requires Valid() && |row| == SLen() && f < Frames() && s < SLen()
    {
      var (prev, from) := Choose(row, s);
      if from != -1 && prev.Fin? then Fin(prev.v + Emit(f, s)) else NegInf
    }

    function FirstRow(): (row: seq<Score>)
      requires Valid()
      ensures |row| == SLen()
      ensures forall s :: 0 <= s < SLen() ==> row[s] == InitialCell(s)
    {
      seq(SLen(), s requires 0 <= s < SLen() => InitialCell(s))
    }

    function NextRow(prev: seq<Score>, f: nat): (row: seq<Score>)
      requires Valid() && |prev| == SLen() && f < Frames()
      ensures |row| == SLen()
      ensures forall s :: 0 <= s < SLen() ==> row[s] == Cell(prev, f, s)
    {
      seq(SLen(), s requires 0 <= s < SLen() => Cell(prev, f, s))
    }

    /** Row f of the trellis follows from row f - 1. */
    predicate RowFilled(dp: seq<seq<Score>>, f: nat)
      requires Valid() && f < |dp| <= Frames()
    {
      if f == 0 then dp[0] == FirstRow()
      else |dp[f - 1]| == SLen() && dp[f] == NextRow(dp[f - 1], f)
    }

    /** The matrix dp once the trellis loops are done. */
    predicate Filled(dp: seq<seq<Score>>) {
      && Valid()
      && |dp| == Frames()
      && (forall f :: 0 <= f < Frames() ==> |dp[f]| == SLen())
      && forall f :: 0 <= f < Frames() ==> RowFilled(dp, f)
    }

    /** back[f][s]: the chosen predecessor, -1 in the first row and in unreached cells. */
    function Back(dp: seq<seq<Score>>, f: nat, s: nat): (b: int)
      requires Filled(dp) && f < Frames() && s < SLen()
      ensures -1 <= b < SLen()
    {
      if f == 0 then -1 else Choose(dp[f - 1], s).1
    }

    function EndState(dp: seq<seq<Score>>): (s: nat)
      requires Filled(dp)
      ensures SLen() - 2 <= s < SLen()
    {
      if Ge(dp[Frames() - 1][SLen() - 1], dp[Frames() - 1][SLen() - 2]) then SLen() - 1 else SLen() - 2
    }

    /** The backtrack loop down from frame f at state s, negative states included. */
    function Trace(dp: seq<seq<Score>>, f: nat, s: int): (path: seq<int>)
      requires Filled(dp) && f < Frames() && -1 <= s < SLen()
      ensures |path| == f + 1
    {
      if f == 0 then [s]
      else Trace(dp, f - 1, Back(dp, f, PyIndex(s, SLen()))) + [s]
    }

    /** The array `path` once the backtrack loop is done. */
    function AlignedPath(dp: seq<seq<Score>>): (path: seq<int>)
      requires Filled(dp)
      ensures |path| == Frames()
    {
      Trace(dp, Frames() - 1, EndState(dp))
    }

    // ----- Feasibility by counting frames -----

    /** Labels among the first m that need a blank of their own before them. */
    function Blocked(m: nat): nat
      requires m <= N()
    {
      if m <= 1 then 0
      else Blocked(m - 1) + if CanSkip(2 * m - 1) then 0 else 1
    }

    /** Fewest frames with which a path can stand on state s. */
    function Need(s: nat): nat
      requires s < SLen()
    {
      if s == 0 then 1
      else if s % 2 == 1 then (s + 1) / 2 + Blocked((s + 1) / 2)
      else s / 2 + Blocked(s / 2) + 1
    }

    predicate Feasible() {
      Frames() >= N() + Blocked(N())
    }
  }

  // ----- Trellis cells are optimal -----

  lemma CellAt(p: Problem, dp: seq<seq<Score>>, f: nat, s: nat)
    requires p.Filled(dp) && f < p.Frames() && s < p.SLen()
    ensures dp[f][s] == if f == 0 then p.InitialCell(s) else p.Cell(dp[f - 1], f, s)
  {
    assert p.RowFilled(dp, f);
  }

  /** Any reached predecessor bounds the cell from below. */
  lemma CellAbove(p: Problem, row: seq<Score>, f: nat, a: int, s: int)
    requires p.Valid() && |row| == p.SLen() && f < p.Frames() && p.Move(a, s) && row[a].Fin?
    ensures p.Cell(row, f, s).Fin? && row[a].v + p.Emit(f, s) <= p.Cell(row, f, s).v
  {
  }

  /** A reached cell takes its score from the predecessor it records. */
  lemma CellFrom(p: Problem, row: seq<Score>, f: nat, s: nat)
    requires p.Valid() && |row| == p.SLen() && f < p.Frames() && s < p.SLen()
    ensures p.Cell(row, f, s).NegInf? <==> p.Choose(row, s).1 == -1
    ensures p.Cell(row, f, s).Fin? ==>
              var b := p.Choose(row, s).1;
              p.Move(b, s) && row[b].Fin? && p.Cell(row, f, s).v == row[b].v + p.Emit(f, s)
  {
  }

  lemma CellReached(p: Problem, row: seq<Score>, f: nat, s: nat)
    requires p.Valid() && |row| == p.SLen() && f < p.Frames() && s < p.SLen()
    ensures p.Cell(row, f, s).Fin? <==>
              row[s].Fin? || (s >= 1 && row[s - 1].Fin?) || (p.CanSkip(s) && row[s - 2].Fin?)
  {
  }

  lemma AdmissibleSnoc(p: Problem, path: seq<int>, s: int)
    requires p.Admissible(path) && p.Move(path[|path| - 1], s)
    ensures p.Admissible(path + [s])
  {
  }

  lemma AdmissiblePrefix(p: Problem, path: seq<int>, m: nat)
    requires p.Admissible(path) && 0 < m <= |path|
    ensures p.Admissible(path[..m])
  {
  }

  lemma ScoreSnoc(p: Problem, path: seq<int>, s: int)
    requires p.Valid() && |path| < p.Frames() && p.InRange(path) && 0 <= s < p.SLen()
    ensures p.InRange(path + [s])
    ensures p.PathScore(path + [s]) == p.PathScore(path) + p.Emit(|path|, s)
  {
    assert (path + [s])[..|path|] == path;
  }

  /** No admissible path scores more than the cell it ends on. */
  lemma {:induction false} PathBelowCell(p: Problem, dp: seq<seq<Score>>, path: seq<int>)
    requires p.Filled(dp) && p.Admissible(path) && |path| <= p.Frames()
    ensures var c := dp[|path| - 1][path[|path| - 1]]; c.Fin? && p.PathScore(path) <= c.v
  {
    var f := |path| - 1;
    var s := path[f];
    assert path == path[..f] + [s];
    ScoreSnoc(p, path[..f], s);
    CellAt(p, dp, f, s);
    if f == 0 {
    } else {
      AdmissiblePrefix(p, path, f);
      PathBelowCell(p, dp, path[..f]);
      CellAbove(p, dp[f - 1], f, path[f - 1], s);
    }
  }

  /** Following `back` from a reached cell retraces a path that earns the cell's score. */
  lemma {:induction false} TraceEarnsCell(p: Problem, dp: seq<seq<Score>>, f: nat, s: nat)
    requires p.Filled(dp) && f < p.Frames() && s < p.SLen() && dp[f][s].Fin?
    ensures p.EndsAt(p.Trace(dp, f, s), f, s)
    ensures p.PathScore(p.Trace(dp, f, s)) == dp[f][s].v
  {
    CellAt(p, dp, f, s);
    if f == 0 {
      assert p.Trace(dp, 0, s) == [] + [s];
      ScoreSnoc(p, [], s);
    } else {
      CellFrom(p, dp[f - 1], f, s);
      var b := p.Back(dp, f, s);
      TraceEarnsCell(p, dp, f - 1, b);
      AdmissibleSnoc(p, p.Trace(dp, f - 1, b), s);
      ScoreSnoc(p, p.Trace(dp, f - 1, b), s);
    }
  }

  /** Every cell dp[f][s] is the greatest score of an admissible path over frames 0..f that
      ends at s, and is -inf exactly when there is none. */
  lemma CellIsOptimal(p: Problem, dp: seq<seq<Score>>, f: nat, s: nat)
    requires p.Filled(dp) && f < p.Frames() && s < p.SLen()
    ensures dp[f][s].NegInf? <==> !exists path :: p.EndsAt(path, f, s)
    ensures dp[f][s].Fin? ==>
              && (exists path :: p.EndsAt(path, f, s) && p.PathScore(path) == dp[f][s].v)
              && forall path :: p.EndsAt(path, f, s) ==> p.PathScore(path) <= dp[f][s].v
  {
    forall path | p.EndsAt(path, f, s)
      ensures dp[f][s].Fin? && p.PathScore(path) <= dp[f][s].v
    {
      PathBelowCell(p, dp, path);
    }
    if dp[f][s].Fin? {
      TraceEarnsCell(p, dp, f, s);
    }
  }

  // ----- Feasibility -----

  lemma NeedStep(p: Problem, s: nat)
    requires p.Valid() && 1 < s < p.SLen()
    ensures p.CanSkip(s) ==> p.Need(s) == p.Need(s - 2) + 1 <= p.Need(s - 1) + 1
    ensures !p.CanSkip(s) ==> p.Need(s) == p.Need(s - 1) + 1
    ensures p.Need(s) > 1
  {
    if s % 2 == 1 {
      var m := (s + 1) / 2;
      assert s == 2 * m - 1 && (s - 1) / 2 == m - 1 && (s - 2 + 1) / 2 == m - 1;
    } else {
      assert (s - 1 + 1) / 2 == s / 2;
    }
  }

  lemma NeedWithin(p: Problem, s: nat, m: nat)
    requires p.Valid() && s < p.SLen() && m > 0
    ensures p.Need(s) <= m + 1 <==>
              p.Need(s) <= m || (s >= 1 && p.Need(s - 1) <= m) || (p.CanSkip(s) && p.Need(s - 2) <= m)
  {
    if s > 1 { NeedStep(p, s); }
  }

  /** A cell is reached exactly when the frames so far cover what its state needs. */
  lemma {:induction false} ReachedIffEnoughFrames(p: Problem, dp: seq<seq<Score>>, f: nat, s: nat)
    requires p.Filled(dp) && f < p.Frames() && s < p.SLen()
    ensures dp[f][s].Fin? <==> p.Need(s) <= f + 1
  {
    CellAt(p, dp, f, s);
    if f == 0 {
      if s > 1 { NeedStep(p, s); }
    } else {
      CellReached(p, dp[f - 1], f, s);
      NeedWithin(p, s, f);
      forall s' | 0 <= s' <= s ensures dp[f - 1][s'].Fin? <==> p.Need(s') <= f {
        ReachedIffEnoughFrames(p, dp, f - 1, s');
      }
    }
  }

  lemma FinalCells(p: Problem, dp: seq<seq<Score>>, f: nat)
    requires p.Filled(dp) && f < p.Frames()
    ensures dp[f][p.SLen() - 2].Fin? <==> f + 1 >= p.N() + p.Blocked(p.N())
    ensures dp[f][p.SLen() - 1].Fin? <==> f + 1 > p.N() + p.Blocked(p.N())
  {
    assert (p.SLen() - 1) / 2 == p.N() && (p.SLen() - 2) % 2 == 1;
    ReachedIffEnoughFrames(p, dp, f, p.SLen() - 2);
    ReachedIffEnoughFrames(p, dp, f, p.SLen() - 1);
  }

  // ----- The aligned path -----

  /** The best there is: a complete path that no complete path beats. */
  ghost predicate BestPath(p: Problem, path: seq<int>)
    requires p.Valid()
  {
    p.Complete(path) && forall other :: p.Complete(other) ==> p.PathScore(other) <= p.PathScore(path)
  }

  lemma CompleteBelowEnd(p: Problem, dp: seq<seq<Score>>, path: seq<int>)
    requires p.Filled(dp) && p.Complete(path)
    ensures var c := dp[p.Frames() - 1][p.EndState(dp)]; c.Fin? && p.PathScore(path) <= c.v
  {
    PathBelowCell(p, dp, path);
  }

  /** Viterbi optimality: with enough frames the backtracked path is a complete admissible
      path, and no complete admissible path scores higher. */
  lemma AlignedPathIsOptimal(p: Problem, dp: seq<seq<Score>>)
    requires p.Filled(dp) && p.Feasible()
    ensures BestPath(p, p.AlignedPath(dp))
  {
    var last := p.Frames() - 1;
    FinalCells(p, dp, last);
    TraceEarnsCell(p, dp, last, p.EndState(dp));
    forall path | p.Complete(path) ensures p.PathScore(path) <= p.PathScore(p.AlignedPath(dp)) {
      CompleteBelowEnd(p, dp, path);
    }
  }

  // ----- Which of the best paths -----

  /** Of all best paths the one that is furthest along in every frame: it reaches each label first. */
  ghost predicate FurthestBest(p: Problem, path: seq<int>)
    requires p.Valid()
  {
    && BestPath(p, path)
    && forall other, f :: BestPath(p, other) && 0 <= f < p.Frames() ==> other[f] <= path[f]
  }

  /** Between predecessors of equal score the trellis chooses the furthest. */
  lemma ChoosesFurthest(p: Problem, row: seq<Score>, s: nat, a: int)
    requires p.Valid() && |row| == p.SLen() && p.Move(a, s) && row[a].Fin?
    ensures var b := p.Choose(row, s).1;
            p.Move(b, s) && row[b].Fin? && row[b].v >= row[a].v && (row[b].v == row[a].v ==> a <= b)
  {
  }

  /** Steps that come from the best predecessors never cross: from a state further along the chosen
      predecessor is at least as far as any best predecessor of a state less far. */
  lemma NoCrossing(p: Problem, row: seq<Score>, f: nat, a: int, s': int, s: int)
    requires p.Valid() && |row| == p.SLen() && f < p.Frames() && s' <= s < p.SLen()
    requires p.Move(a, s') && row[a].Fin? && p.Cell(row, f, s') == Fin(row[a].v + p.Emit(f, s'))
    requires p.Cell(row, f, s).Fin?
    ensures a <= p.Choose(row, s).1
  {
    var b := p.Choose(row, s).1;
    CellFrom(p, row, f, s);
    if s' == s {
      ChoosesFurthest(p, row, s, a);
    } else if b < a {
      assert b == s - 2 && a == s' == s - 1;
      CellAbove(p, row, f, b, s');
      ChoosesFurthest(p, row, s, a);
    }
  }

  /** A path that earns its cell's score earns it in every frame. */
  lemma EarnedBefore(p: Problem, dp: seq<seq<Score>>, path: seq<int>, f: nat)
    requires p.Filled(dp) && p.Admissible(path) && 0 < f == |path| - 1 < p.Frames()
    requires dp[f][path[f]] == Fin(p.PathScore(path))
    ensures p.Admissible(path[..f]) && dp[f - 1][path[f - 1]] == Fin(p.PathScore(path[..f]))
    ensures p.Move(path[f - 1], path[f])
    ensures p.Cell(dp[f - 1], f, path[f]) == Fin(p.PathScore(path[..f]) + p.Emit(f, path[f]))
  {
    assert path == path[..f] + [path[f]];
    AdmissiblePrefix(p, path, f);
    ScoreSnoc(p, path[..f], path[f]);
    PathBelowCell(p, dp, path[..f]);
    CellAt(p, dp, f, path[f]);
    CellAbove(p, dp[f - 1], f, path[f - 1], path[f]);
  }

  lemma {:induction false} TraceIsFurthest(p: Problem, dp: seq<seq<Score>>, f: nat, s: nat, path: seq<int>)
    requires p.Filled(dp) && f < p.Frames() && s < p.SLen() && dp[f][s].Fin?
    requires p.Admissible(path) && |path| == f + 1 && path[f] <= s && dp[f][path[f]] == Fin(p.PathScore(path))
    ensures forall k :: 0 <= k <= f ==> path[k] <= p.Trace(dp, f, s)[k]
  {
    if f == 0 {
    } else {
      EarnedBefore(p, dp, path, f);
      CellAt(p, dp, f, s);
      NoCrossing(p, dp[f - 1], f, path[f - 1], path[f], s);
      CellFrom(p, dp[f - 1], f, s);
      var b := p.Back(dp, f, s);
      TraceIsFurthest(p, dp, f - 1, b, path[..f]);
      forall k | 0 <= k <= f ensures path[k] <= p.Trace(dp, f, s)[k] {
        if k < f { assert path[..f][k] == path[k]; }
      }
    }
  }

  /** A best path earns the score of the cell it ends on, which is not beyond the chosen end. */
  lemma EarnsEnd(p: Problem, dp: seq<seq<Score>>, path: seq<int>)
    requires p.Filled(dp) && p.Feasible() && BestPath(p, path)
    ensures var last := p.Frames() - 1;
            dp[last][path[last]] == Fin(p.PathScore(path)) && path[last] <= p.EndState(dp)
  {
    AlignedPathIsOptimal(p, dp);
    FinalCells(p, dp, p.Frames() - 1);
    TraceEarnsCell(p, dp, p.Frames() - 1, p.EndState(dp));
    PathBelowCell(p, dp, path);
    assert p.PathScore(path) == p.PathScore(p.AlignedPath(dp));
  }

  /** The tie-breaking of the program, in one line: with enough frames the backtracked path is the
      furthest along of all best paths. It is therefore determined by the emissions alone. */
  lemma AlignedPathIsFurthest(p: Problem, dp: seq<seq<Score>>)
    requires p.Filled(dp) && p.Feasible()
    ensures FurthestBest(p, p.AlignedPath(dp))
  {
    var last, end := p.Frames() - 1, p.EndState(dp);
    AlignedPathIsOptimal(p, dp);
    FinalCells(p, dp, last);
    TraceEarnsCell(p, dp, last, end);
    forall other, f | BestPath(p, other) && 0 <= f < p.Frames() ensures other[f] <= p.AlignedPath(dp)[f] {
      EarnsEnd(p, dp, other);
      TraceIsFurthest(p, dp, last, end, other);
    }
  }

  /** There is one such path at most. */
  lemma FurthestIsUnique(p: Problem, a: seq<int>, b: seq<int>)
    requires p.Valid() && FurthestBest(p, a) && FurthestBest(p, b)
    ensures a == b
  {
    forall f | 0 <= f < p.Frames() ensures a[f] == b[f] { assert a[f] <= b[f] && b[f] <= a[f]; }
  }

  lemma TrailingBlankUnreached(p: Problem, dp: seq<seq<Score>>, f: nat)
    requires p.Filled(dp) && !p.Feasible() && f < p.Frames()
    ensures p.Back(dp, f, p.SLen() - 1) == -1
  {
    FinalCells(p, dp, f);
    if f > 0 {
      CellAt(p, dp, f, p.SLen() - 1);
      CellFrom(p, dp[f - 1], f, p.SLen() - 1);
    }
  }

  /** From -1, Python's negative index reads the last column and stays at -1. */
  lemma {:induction false} TraceFromMinusOne(p: Problem, dp: seq<seq<Score>>, f: nat)
    requires p.Filled(dp) && !p.Feasible() && f < p.Frames()
    ensures forall k :: 0 <= k <= f ==> p.Trace(dp, f, -1)[k] == -1
  {
    TrailingBlankUnreached(p, dp, f);
    if f == 0 {
    } else {
      TraceFromMinusOne(p, dp, f - 1);
    }
  }

  /** With too few frames the backtrack runs off the trellis: it stands on the trailing blank
      in the last frame and on -1 in every other one, so it never meets a label. */
  lemma InfeasiblePath(p: Problem, dp: seq<seq<Score>>)
    requires p.Filled(dp) && !p.Feasible()
    ensures forall f :: 0 <= f < p.Frames() ==>
              p.AlignedPath(dp)[f] == if f == p.Frames() - 1 then p.SLen() - 1 else -1
  {
    var last := p.Frames() - 1;
    FinalCells(p, dp, last);
    TrailingBlankUnreached(p, dp, last);
    if last > 0 {
      TraceFromMinusOne(p, dp, last - 1);
      assert p.AlignedPath(dp) == p.Trace(dp, last - 1, -1) + [p.SLen() - 1];
    }
  }
}
