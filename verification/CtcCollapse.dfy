/** What an alignment means in CTC terms. A labelling gives one label to each frame; the
    collapse map merges repeats and then drops blanks. The complete paths of the trellis are
    exactly the labellings that collapse to the targets, so the trellis of
    pronunciation-service/src/pronunciation/ml/gop.py searches all of them and nothing else. */
module CtcCollapse {
  import opened CtcAlignment

  function MergeRepeats(labels: seq<nat>): seq<nat> {
    if |labels| <= 1 then labels
    else
      var front := labels[..|labels| - 1];
      var x := labels[|labels| - 1];
      if front[|front| - 1] == x then MergeRepeats(front) else MergeRepeats(front) + [x]
  }

  function DropBlanks(labels: seq<nat>, blank: nat): seq<nat> {
    if labels == [] then []
    else
      var front := DropBlanks(labels[..|labels| - 1], blank);
      var x := labels[|labels| - 1];
      if x == blank then front else front + [x]
  }

  function Collapse(labels: seq<nat>, blank: nat): seq<nat> {
    DropBlanks(MergeRepeats(labels), blank)
  }

  lemma CollapseSnoc(labels: seq<nat>, x: nat, blank: nat)
    ensures Collapse(labels + [x], blank) ==
              if (labels != [] && labels[|labels| - 1] == x) || x == blank
              then Collapse(labels, blank)
              else Collapse(labels, blank) + [x]
  {
    assert (labels + [x])[..|labels|] == labels;
    if labels == [] {
      assert labels + [x] == [x];
      assert [x][..0] == [];
    } else if labels[|labels| - 1] != x {
      var m := MergeRepeats(labels);
      assert (m + [x])[..|m|] == m;
    }
  }

  // ----- Every complete path collapses to the targets -----

  lemma LabelsSnoc(p: Problem, path: seq<int>, s: int)
    requires p.InRange(path) && 0 <= s < p.SLen()
    ensures p.InRange(path + [s])
    ensures p.Labels(path + [s]) == p.Labels(path) + [p.Ext(s)]
  {
  }

  lemma ExtOfState(p: Problem, m: nat)
    requires m <= p.N()
    ensures p.Ext(2 * m) == p.blank
    ensures m > 0 ==> p.Ext(2 * m - 1) == p.targets[m - 1]
  {
  }

  /** A move appends to the collapse exactly the label it passes onto. */
  lemma MoveAppends(p: Problem, a: int, s: int)
    requires p.Move(a, s) && p.blank !in p.targets
    ensures p.targets[..(s + 1) / 2] ==
              if p.Ext(s) == p.Ext(a) || p.Ext(s) == p.blank
              then p.targets[..(a + 1) / 2]
              else p.targets[..(a + 1) / 2] + [p.Ext(s)]
  {
    if s % 2 == 1 {
      assert p.Ext(s) in p.targets;
      if s != a {
        assert (a + 1) / 2 == s / 2;
        assert p.targets[..s / 2] + [p.targets[s / 2]] == p.targets[..(s + 1) / 2];
      }
    }
  }

  function Spelled(p: Problem, s: int): seq<nat>
    requires 0 <= s < p.SLen()
  {
    p.targets[..(s + 1) / 2]
  }

  lemma FirstLabelCollapse(p: Problem, s: int)
    requires p.Valid() && 0 <= s <= 1 && p.blank !in p.targets
    ensures Collapse([p.Ext(s)], p.blank) == Spelled(p, s)
  {
    CollapseSnoc([], p.Ext(s), p.blank);
    assert [] + [p.Ext(s)] == [p.Ext(s)];
    if s == 1 { assert p.targets[..1] == [p.targets[0]] && p.targets[0] in p.targets; }
  }

  lemma NextLabelCollapse(p: Problem, labels: seq<nat>, a: int, s: int)
    requires p.Move(a, s) && p.blank !in p.targets
    requires labels != [] && labels[|labels| - 1] == p.Ext(a) && Collapse(labels, p.blank) == Spelled(p, a)
    ensures Collapse(labels + [p.Ext(s)], p.blank) == Spelled(p, s)
  {
    CollapseSnoc(labels, p.Ext(s), p.blank);
    MoveAppends(p, a, s);
  }

  lemma {:induction false} PathCollapse(p: Problem, path: seq<int>)
    requires p.Valid() && p.Admissible(path) && p.blank !in p.targets
    ensures Collapse(p.Labels(path), p.blank) == Spelled(p, path[|path| - 1])
  {
    var f := |path| - 1;
    if f == 0 {
      assert p.Labels(path) == [p.Ext(path[0])];
      FirstLabelCollapse(p, path[0]);
    } else {
      AdmissiblePrefix(p, path, f);
      PathCollapse(p, path[..f]);
      LabelsSnoc(p, path[..f], path[f]);
      assert path == path[..f] + [path[f]];
      NextLabelCollapse(p, p.Labels(path[..f]), path[f - 1], path[f]);
    }
  }

  /** CTC soundness: a complete path spells the targets, whatever the emissions. */
  lemma CompletePathCollapses(p: Problem, path: seq<int>)
    requires p.Valid() && p.Complete(path) && p.blank !in p.targets
    ensures Collapse(p.Labels(path), p.blank) == p.targets
  {
    PathCollapse(p, path);
    assert p.targets[..p.N()] == p.targets;
  }

  // ----- Every labelling that collapses to the targets is a complete path -----

  lemma CollapsePrefix(labels: seq<nat>, x: nat, blank: nat)
    ensures Collapse(labels, blank) <= Collapse(labels + [x], blank)
  {
    CollapseSnoc(labels, x, blank);
  }

  /** The state on which a labelling that spelled m targets stands after its last label. */
  function StateAfter(last: nat, m: nat, blank: nat): int {
    if last == blank then 2 * m else 2 * m - 1
  }

  /** One more label is one legal move: y after m targets, then x. */
  lemma LabelMove(p: Problem, y: nat, m: nat, x: nat)
    requires m <= p.N() && p.blank !in p.targets
    requires y != p.blank ==> m > 0 && p.targets[m - 1] == y
    requires x != y && x != p.blank ==> m < p.N() && p.targets[m] == x
    ensures var m' := if x == y || x == p.blank then m else m + 1;
            p.Move(StateAfter(y, m, p.blank), StateAfter(x, m', p.blank)) && p.Ext(StateAfter(x, m', p.blank)) == x
  {
    ExtOfState(p, m);
    if m < p.N() { ExtOfState(p, m + 1); }
  }

  /** path is the trellis path of labels. */
  predicate Follows(p: Problem, labels: seq<nat>, path: seq<int>) {
    && labels != []
    && p.Admissible(path)
    && p.Labels(path) == labels
    && path[|path| - 1] == StateAfter(labels[|labels| - 1], |Collapse(labels, p.blank)|, p.blank)
  }

  lemma FirstLabelFollows(p: Problem, x: nat) returns (path: seq<int>)
    requires p.Valid() && p.blank !in p.targets && Collapse([x], p.blank) <= p.targets
    ensures Follows(p, [x], path)
  {
    assert [] + [x] == [x];
    CollapseSnoc([], x, p.blank);
    path := [StateAfter(x, |Collapse([x], p.blank)|, p.blank)];
  }

  lemma NextLabelFollows(p: Problem, front: seq<nat>, shorter: seq<int>, x: nat) returns (path: seq<int>)
    requires p.Valid() && p.blank !in p.targets && Follows(p, front, shorter)
    requires Collapse(front, p.blank) <= p.targets && Collapse(front + [x], p.blank) <= p.targets
    ensures Follows(p, front + [x], path)
  {
    var y, m := front[|front| - 1], |Collapse(front, p.blank)|;
    assert p.Ext(shorter[|shorter| - 1]) == y;
    if y != p.blank { ExtOfState(p, m); }
    CollapseSnoc(front, x, p.blank);
    LabelMove(p, y, m, x);
    var s := StateAfter(x, |Collapse(front + [x], p.blank)|, p.blank);
    AdmissibleSnoc(p, shorter, s);
    LabelsSnoc(p, shorter, s);
    path := shorter + [s];
  }

  /** Every labelling that spells a prefix of the targets follows a trellis path. */
  lemma {:induction false} LabellingIsPath(p: Problem, labels: seq<nat>) returns (path: seq<int>)
    requires p.Valid() && p.blank !in p.targets && labels != []
    requires Collapse(labels, p.blank) <= p.targets
    ensures Follows(p, labels, path)
  {
    var f := |labels| - 1;
    var front, x := labels[..f], labels[f];
    assert labels == front + [x];
    if f == 0 {
      path := FirstLabelFollows(p, x);
    } else {
      CollapsePrefix(front, x, p.blank);
      var shorter := LabellingIsPath(p, front);
      path := NextLabelFollows(p, front, shorter, x);
    }
  }

  // ----- The alignment among all labellings -----

  ghost predicate Spells(p: Problem, labels: seq<nat>) {
    |labels| == p.Frames() && Collapse(labels, p.blank) == p.targets
  }

  predicate Fits(p: Problem, labels: seq<nat>) {
    |labels| <= p.Frames() && forall k :: 0 <= k < |labels| ==> labels[k] < |p.logProbs[k]|
  }

  /** Log-probability of a labelling: the sum of its emissions. */
  function LabelScore(p: Problem, labels: seq<nat>): real
    requires Fits(p, labels)
  {
    if labels == [] then 0.0
    else LabelScore(p, labels[..|labels| - 1]) + p.logProbs[|labels| - 1][labels[|labels| - 1]]
  }

  lemma {:induction false} ScoreOfLabels(p: Problem, path: seq<int>)
    requires p.Valid() && |path| <= p.Frames() && p.InRange(path)
    ensures Fits(p, p.Labels(path)) && LabelScore(p, p.Labels(path)) == p.PathScore(path)
  {
    if path == [] {
    } else {
      var front := path[..|path| - 1];
      ScoreOfLabels(p, front);
      assert p.Labels(path)[..|path| - 1] == p.Labels(front);
    }
  }

  /** The trellis covers every labelling that spells the targets. */
  lemma LabellingIsComplete(p: Problem, labels: seq<nat>) returns (path: seq<int>)
    requires p.Valid() && p.blank !in p.targets && Spells(p, labels)
    ensures p.Complete(path) && p.Labels(path) == labels
  {
    path := LabellingIsPath(p, labels);
  }

  /** A best path is the likeliest way at all to say the targets in these frames: among all
      labellings of the frames, of any labels whatever, that collapse to the targets, its own
      has the greatest log-probability. */
  lemma BestPathIsMostLikely(p: Problem, best: seq<int>)
    requires p.Valid() && BestPath(p, best) && p.blank !in p.targets
    ensures Spells(p, p.Labels(best)) && Fits(p, p.Labels(best))
    ensures forall labels :: Spells(p, labels) ==>
              Fits(p, labels) && LabelScore(p, labels) <= LabelScore(p, p.Labels(best))
  {
    CompletePathCollapses(p, best);
    ScoreOfLabels(p, best);
    forall labels | Spells(p, labels)
      ensures Fits(p, labels) && LabelScore(p, labels) <= LabelScore(p, p.Labels(best))
    {
      var path := LabellingIsComplete(p, labels);
      ScoreOfLabels(p, path);
    }
  }

  function AdjacentRepeats(targets: seq<nat>): nat {
    if |targets| <= 1 then 0
    else
      var m := |targets|;
      AdjacentRepeats(targets[..m - 1]) + if targets[m - 1] == targets[m - 2] then 1 else 0
  }

  lemma {:induction false} BlockedCountsRepeats(p: Problem, m: nat)
    requires m <= p.N() && p.blank !in p.targets
    ensures p.Blocked(m) == AdjacentRepeats(p.targets[..m])
  {
    if m <= 1 {
    } else {
      BlockedCountsRepeats(p, m - 1);
      assert p.targets[..m][..m - 1] == p.targets[..m - 1];
      ExtOfState(p, m);
      ExtOfState(p, m - 1);
      assert p.targets[m - 1] in p.targets;
    }
  }

  /** Targets after the first that repeat their neighbour or are the blank itself: each of them costs
      a frame on the blank before it. */
  function Gaps(targets: seq<nat>, blank: nat): nat {
    if |targets| <= 1 then 0
    else
      var m := |targets|;
      Gaps(targets[..m - 1], blank) + if targets[m - 1] == targets[m - 2] || targets[m - 1] == blank then 1 else 0
  }

  lemma {:induction false} BlockedCountsGaps(p: Problem, m: nat)
    requires m <= p.N()
    ensures p.Blocked(m) == Gaps(p.targets[..m], p.blank)
  {
    if m <= 1 {
    } else {
      BlockedCountsGaps(p, m - 1);
      assert p.targets[..m][..m - 1] == p.targets[..m - 1];
      ExtOfState(p, m);
      ExtOfState(p, m - 1);
    }
  }

  /** Feasibility for every list of targets, blanks among them included: a complete path exists exactly
      when there is a frame for each target and one for each gap. */
  lemma FeasibleByCount(p: Problem)
    requires p.Valid()
    ensures p.Feasible() <==> p.Frames() >= p.N() + Gaps(p.targets, p.blank)
    ensures p.Feasible() <==> exists path :: p.Complete(path)
  {
    BlockedCountsGaps(p, p.N());
    assert p.targets[..p.N()] == p.targets;
    var dp := TrellisExists(p);
    if p.Feasible() { AlignedPathIsOptimal(p, dp); }
    forall path | p.Complete(path) ensures p.Feasible() {
      PathBelowCell(p, dp, path);
      FinalCells(p, dp, p.Frames() - 1);
    }
  }

  lemma TrellisExists(p: Problem) returns (dp: seq<seq<Score>>)
    requires p.Valid()
    ensures p.Filled(dp)
  {
    dp := [p.FirstRow()];
    while |dp| < p.Frames()
      invariant 0 < |dp| <= p.Frames()
      invariant forall f :: 0 <= f < |dp| ==> |dp[f]| == p.SLen()
      invariant forall f :: 0 <= f < |dp| ==> p.RowFilled(dp, f)
    {
      var next := dp + [p.NextRow(dp[|dp| - 1], |dp|)];
      assert forall f :: 0 <= f < |dp| ==> p.RowFilled(dp, f) ==> p.RowFilled(next, f);
      dp := next;
    }
  }

  lemma SpellableIsFeasible(p: Problem, dp: seq<seq<Score>>, labels: seq<nat>)
    requires p.Filled(dp) && p.blank !in p.targets && Spells(p, labels)
    ensures p.Feasible()
  {
    var path := LabellingIsComplete(p, labels);
    PathBelowCell(p, dp, path);
    FinalCells(p, dp, p.Frames() - 1);
  }

  /** The targets can be said in the frames exactly when there is a frame for each target and
      one more for each pair of equal neighbours. */
  lemma FeasibleIffSpellable(p: Problem)
    requires p.Valid() && p.blank !in p.targets
    ensures p.Feasible() <==> exists labels :: Spells(p, labels)
    ensures p.Feasible() <==> p.Frames() >= p.N() + AdjacentRepeats(p.targets)
  {
    BlockedCountsRepeats(p, p.N());
    assert p.targets[..p.N()] == p.targets;
    var dp := TrellisExists(p);
    if p.Feasible() {
      AlignedPathIsOptimal(p, dp);
      BestPathIsMostLikely(p, p.AlignedPath(dp));
    }
    forall labels | Spells(p, labels) ensures p.Feasible() {
      SpellableIsFeasible(p, dp, labels);
    }
  }
}
