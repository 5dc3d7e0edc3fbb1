/** The imperative forced_align of pronunciation-service/src/pronunciation/ml/gop.py: the
    trellis filled in place, the backtrack, and one frame span per target. */
module CtcForcedAlign {
  import opened CtcAlignment

  type Span = (int, int)

  // ----- Spans of a path -----

  /** span covers exactly the frames on which the path stands at pos, or is the empty span
      (frames, frames - 1) when there are none. */
  ghost predicate SpanOf(path: seq<int>, pos: int, span: Span) {
    if exists f :: 0 <= f < |path| && path[f] == pos then
      && 0 <= span.0 <= span.1 < |path|
      && path[span.0] == pos
      && path[span.1] == pos
      && forall f :: 0 <= f < |path| && path[f] == pos ==> span.0 <= f <= span.1
    else
      span == (|path|, |path| - 1)
  }

  /** Non-empty spans in order, without overlap, each the exact set of frames of its label. */
  ghost predicate ExactSpans(p: Problem, path: seq<int>, spans: seq<Span>) {
    && |spans| == p.N()
    && (forall i :: 0 <= i < p.N() ==> 0 <= spans[i].0 <= spans[i].1 < |path|)
    && (forall i, f :: 0 <= i < p.N() && 0 <= f < |path| ==>
          (path[f] == 2 * i + 1 <==> spans[i].0 <= f <= spans[i].1))
    && forall i, j :: 0 <= i < j < p.N() ==> spans[i].1 < spans[j].0
  }

  lemma {:induction false} PathMonotone(p: Problem, path: seq<int>, f: nat, g: nat)
    requires p.Admissible(path) && f <= g < |path|
    ensures path[f] <= path[g]
    decreases g
  {
    if f == g {
    } else {
      PathMonotone(p, path, f, g - 1);
      assert p.Move(path[g - 1], path[g]);
    }
  }

  /** No label is jumped over: a skip leads from a label to the next label. */
  lemma {:induction false} LabelVisited(p: Problem, path: seq<int>, i: nat) returns (f: nat)
    requires p.Admissible(path) && 2 * i + 1 <= path[|path| - 1]
    ensures f < |path| && path[f] == 2 * i + 1
    decreases |path|
  {
    var last := |path| - 1;
    if path[last] == 2 * i + 1 {
      f := last;
    } else {
      assert last > 0;
      assert p.Move(path[last - 1], path[last]);
      AdmissiblePrefix(p, path, last);
      f := LabelVisited(p, path[..last], i);
    }
  }

  /** On a complete path the collected spans are the exact ones. */
  lemma CompleteSpans(p: Problem, path: seq<int>, spans: seq<Span>)
    requires p.Complete(path) && |spans| == p.N()
    requires forall i :: 0 <= i < p.N() ==> SpanOf(path, 2 * i + 1, spans[i])
    ensures ExactSpans(p, path, spans)
  {
    forall i | 0 <= i < p.N()
      ensures 0 <= spans[i].0 <= spans[i].1 < |path|
      ensures path[spans[i].0] == 2 * i + 1 == path[spans[i].1]
    {
      var f := LabelVisited(p, path, i);
    }
    forall i, f | 0 <= i < p.N() && 0 <= f < |path|
      ensures path[f] == 2 * i + 1 <==> spans[i].0 <= f <= spans[i].1
    {
      if spans[i].0 <= f <= spans[i].1 {
        PathMonotone(p, path, spans[i].0, f);
        PathMonotone(p, path, f, spans[i].1);
      }
    }
    forall i, j | 0 <= i < j < p.N() ensures spans[i].1 < spans[j].0 {
      if spans[j].0 <= spans[i].1 { PathMonotone(p, path, spans[j].0, spans[i].1); }
    }
  }

  lemma SameSpan(p: Problem, path: seq<int>, spansA: seq<Span>, spansB: seq<Span>, i: nat)
    requires ExactSpans(p, path, spansA) && ExactSpans(p, path, spansB) && i < p.N()
    ensures spansA[i] == spansB[i]
  {
    assert path[spansA[i].0] == 2 * i + 1 && path[spansA[i].1] == 2 * i + 1;
    assert path[spansB[i].0] == 2 * i + 1 && path[spansB[i].1] == 2 * i + 1;
  }

  /** The frames of the labels of one path leave no choice of spans. */
  lemma SpansAreDetermined(p: Problem, a: seq<int>, spansA: seq<Span>, b: seq<int>, spansB: seq<Span>)
    requires p.Valid() && FurthestBest(p, a) && ExactSpans(p, a, spansA)
    requires FurthestBest(p, b) && ExactSpans(p, b, spansB)
    ensures spansA == spansB
  {
    FurthestIsUnique(p, a, b);
    forall i | 0 <= i < p.N() ensures spansA[i] == spansB[i] { SameSpan(p, a, spansA, spansB, i); }
  }

  // ----- The loops -----

  method ExtendedSequence(targets: seq<nat>, blank: nat) returns (ext: seq<nat>)
    ensures |ext| == 2 * |targets| + 1
    ensures forall s :: 0 <= s < |ext| ==> ext[s] == if s % 2 == 0 then blank else targets[s / 2]
  {
    ext := [blank];
    for i := 0 to |targets|
      invariant |ext| == 2 * i + 1
      invariant forall s :: 0 <= s < |ext| ==> ext[s] == if s % 2 == 0 then blank else targets[s / 2]
    {
      ext := ext + [targets[i], blank];
    }
  }

  /** One cell: try stay, advance, skip, each only when strictly better. */
  method BestPredecessor(p: Problem, ext: seq<nat>, dp: array2<Score>, f: nat, s: nat, ghost row: seq<Score>)
    returns (best: Score, from: int)
    requires |ext| == p.SLen() && forall t :: 0 <= t < |ext| ==> ext[t] == p.Ext(t)
    requires 0 < f < dp.Length0 && s < dp.Length1 == p.SLen() == |row|
    requires forall t :: 0 <= t < |row| ==> dp[f - 1, t] == row[t]
    ensures (best, from) == p.Choose(row, s)
  {
    best, from := NegInf, -1;
    if Gt(dp[f - 1, s], best) {
      best, from := dp[f - 1, s], s;
    }
    if s >= 1 && Gt(dp[f - 1, s - 1], best) {
      best, from := dp[f - 1, s - 1], s - 1;
    }
    if s >= 2 && ext[s] != p.blank && ext[s] != ext[s - 2] && Gt(dp[f - 1, s - 2], best) {
      best, from := dp[f - 1, s - 2], s - 2;
    }
  }

  method FillRow(p: Problem, ext: seq<nat>, dp: array2<Score>, back: array2<int>, f: nat, ghost row: seq<Score>)
    requires p.Valid()
    requires |ext| == p.SLen() && forall t :: 0 <= t < |ext| ==> ext[t] == p.Ext(t)
    requires dp.Length0 == back.Length0 == p.Frames() && dp.Length1 == back.Length1 == p.SLen() == |row|
    requires 0 < f < p.Frames()
    requires forall t :: 0 <= t < |row| ==> dp[f - 1, t] == row[t]
    requires forall t :: 0 <= t < |row| ==> dp[f, t] == NegInf && back[f, t] == -1
    modifies dp, back
    ensures forall t :: 0 <= t < |row| ==> dp[f, t] == p.Cell(row, f, t) && back[f, t] == p.Choose(row, t).1
    ensures forall g, t :: 0 <= g < p.Frames() && g != f && 0 <= t < |row| ==>
              dp[g, t] == old(dp[g, t]) && back[g, t] == old(back[g, t])
  {
    for s := 0 to p.SLen()
      invariant forall t :: 0 <= t < s ==> dp[f, t] == p.Cell(row, f, t) && back[f, t] == p.Choose(row, t).1
      invariant forall t :: s <= t < |row| ==> dp[f, t] == NegInf && back[f, t] == -1
      invariant forall g, t :: 0 <= g < p.Frames() && g != f && 0 <= t < |row| ==>
                  dp[g, t] == old(dp[g, t]) && back[g, t] == old(back[g, t])
    {
      var best, from := BestPredecessor(p, ext, dp, f, s, row);
      if from != -1 {
        dp[f, s] := Fin(best.v + p.logProbs[f][ext[s]]);
        back[f, s] := from;
      }
    }
  }

  predicate Matches(p: Problem, dp: array2<Score>, back: array2<int>, rows: seq<seq<Score>>, f: nat)
    requires p.Valid() && f < |rows| <= p.Frames() && forall g :: 0 <= g < |rows| ==> |rows[g]| == p.SLen()
    requires dp.Length0 == back.Length0 == p.Frames() && dp.Length1 == back.Length1 == p.SLen()
    reads dp, back
  {
    forall t :: 0 <= t < p.SLen() ==>
      dp[f, t] == rows[f][t] && back[f, t] == if f == 0 then -1 else p.Choose(rows[f - 1], t).1
  }

  /** The matrices before the main loop: -inf and -1 everywhere but for the two entry states. */
  method NewTrellis(p: Problem, ext: seq<nat>) returns (dp: array2<Score>, back: array2<int>)
    requires p.Valid()
    requires |ext| == p.SLen() && forall t :: 0 <= t < |ext| ==> ext[t] == p.Ext(t)
    ensures fresh(dp) && fresh(back)
    ensures dp.Length0 == back.Length0 == p.Frames() && dp.Length1 == back.Length1 == p.SLen()
    ensures forall t :: 0 <= t < p.SLen() ==> dp[0, t] == p.InitialCell(t) && back[0, t] == -1
    ensures forall g, t :: 1 <= g < p.Frames() && 0 <= t < p.SLen() ==> dp[g, t] == NegInf && back[g, t] == -1
  {
    dp := new Score[p.Frames(), p.SLen()]((_, _) => NegInf);
    back := new int[p.Frames(), p.SLen()]((_, _) => -1);
    dp[0, 0] := Fin(p.logProbs[0][ext[0]]);
    dp[0, 1] := Fin(p.logProbs[0][ext[1]]);
  }

  lemma RowsExtended(p: Problem, rows: seq<seq<Score>>, f: nat)
    requires p.Valid() && 0 < f == |rows| < p.Frames() && forall g :: 0 <= g < f ==> |rows[g]| == p.SLen()
    requires forall g :: 0 <= g < f ==> p.RowFilled(rows, g)
    ensures var next := rows + [p.NextRow(rows[f - 1], f)]; forall g :: 0 <= g <= f ==> p.RowFilled(next, g)
  {
    var next := rows + [p.NextRow(rows[f - 1], f)];
    forall g | 0 <= g <= f ensures p.RowFilled(next, g) {
      if g < f { assert p.RowFilled(rows, g); }
    }
  }

  /** The two trellis loops; `rows` is the matrix dp as a value. */
  method FillTrellis(p: Problem, ext: seq<nat>)
    returns (dp: array2<Score>, back: array2<int>, ghost rows: seq<seq<Score>>)
    requires p.Valid()
    requires |ext| == p.SLen() && forall t :: 0 <= t < |ext| ==> ext[t] == p.Ext(t)
    ensures dp.Length0 == back.Length0 == p.Frames() && dp.Length1 == back.Length1 == p.SLen()
    ensures p.Filled(rows)
    ensures forall f :: 0 <= f < p.Frames() ==> Matches(p, dp, back, rows, f)
  {
    dp, back := NewTrellis(p, ext);
    rows := [p.FirstRow()];
    for f := 1 to p.Frames()
      invariant fresh(dp) && fresh(back)
      invariant |rows| == f
      invariant forall g :: 0 <= g < f ==> |rows[g]| == p.SLen()
      invariant forall g :: 0 <= g < f ==> p.RowFilled(rows, g)
      invariant forall g :: 0 <= g < f ==> Matches(p, dp, back, rows, g)
      invariant forall g, t :: f <= g < p.Frames() && 0 <= t < p.SLen() ==> dp[g, t] == NegInf && back[g, t] == -1
    {
      assert Matches(p, dp, back, rows, f - 1);
      label before:
      FillRow(p, ext, dp, back, f, rows[f - 1]);
      RowsExtended(p, rows, f);
      ghost var next := rows + [p.NextRow(rows[f - 1], f)];
      forall g | 0 <= g < f ensures Matches(p, dp, back, next, g) {
        assert old@before(Matches(p, dp, back, rows, g));
      }
      rows := next;
    }
  }

  /** A backtracked path, frame by frame: each state is what `back` holds at the next one. */
  lemma {:induction false} TraceLinks(p: Problem, rows: seq<seq<Score>>, f: nat, s: int) returns (path: seq<int>)
    requires p.Filled(rows) && f < p.Frames() && -1 <= s < p.SLen()
    ensures path == p.Trace(rows, f, s) && |path| == f + 1 && path[f] == s
    ensures forall k :: 0 <= k <= f ==> -1 <= path[k] < p.SLen()
    ensures forall k :: 0 < k <= f ==> path[k - 1] == p.Back(rows, k, PyIndex(path[k], p.SLen()))
  {
    if f == 0 {
      path := [s];
    } else {
      var shorter := TraceLinks(p, rows, f - 1, p.Back(rows, f, PyIndex(s, p.SLen())));
      path := shorter + [s];
    }
  }

  /** The backtrack loop, from the state `end` in the last frame. */
  method FollowBack(back: array2<int>, end: int, ghost whole: seq<int>) returns (path: array<int>)
    requires 0 < |whole| == back.Length0 && 0 < back.Length1 && whole[|whole| - 1] == end
    requires forall k :: 0 <= k < |whole| ==> -1 <= whole[k] < back.Length1
    requires forall k :: 0 < k < |whole| ==> whole[k - 1] == back[k, PyIndex(whole[k], back.Length1)]
    ensures path[..] == whole
  {
    var frames, s := back.Length0, end;
    path := new int[frames](_ => 0);
    var f := frames - 1;
    while f >= 0
      invariant -1 <= f < frames
      invariant forall k :: f < k < frames ==> path[k] == whole[k]
      invariant f >= 0 ==> s == whole[f]
    {
      path[f] := s;
      s := back[f, PyIndex(s, back.Length1)];
      f := f - 1;
    }
  }

  method Backtrack(p: Problem, dp: array2<Score>, back: array2<int>, ghost rows: seq<seq<Score>>)
    returns (path: array<int>)
    requires p.Filled(rows)
    requires dp.Length0 == back.Length0 == p.Frames() && dp.Length1 == back.Length1 == p.SLen()
    requires forall f :: 0 <= f < p.Frames() ==> Matches(p, dp, back, rows, f)
    ensures path[..] == p.AlignedPath(rows)
  {
    var frames, sLen := p.Frames(), p.SLen();
    assert Matches(p, dp, back, rows, frames - 1);
    var end := if Ge(dp[frames - 1, sLen - 1], dp[frames - 1, sLen - 2]) then sLen - 1 else sLen - 2;
    ghost var whole := TraceLinks(p, rows, frames - 1, end);
    forall k | 0 < k < frames ensures whole[k - 1] == back[k, PyIndex(whole[k], sLen)] {
      assert Matches(p, dp, back, rows, k);
    }
    path := FollowBack(back, end, whole);
  }

  /** The frames on which the path stands at pos, in order. */
  method FramesAt(path: seq<int>, pos: int) returns (onPos: seq<int>)
    ensures forall k :: 0 <= k < |onPos| ==> 0 <= onPos[k] < |path| && path[onPos[k]] == pos
    ensures forall j, k :: 0 <= j < k < |onPos| ==> onPos[j] < onPos[k]
    ensures forall f :: 0 <= f < |path| && path[f] == pos ==> f in onPos
  {
    onPos := [];
    for f := 0 to |path|
      invariant forall k :: 0 <= k < |onPos| ==> 0 <= onPos[k] < f && path[onPos[k]] == pos
      invariant forall j, k :: 0 <= j < k < |onPos| ==> onPos[j] < onPos[k]
      invariant forall g :: 0 <= g < f && path[g] == pos ==> g in onPos
    {
      if path[f] == pos {
        onPos := onPos + [f];
      }
    }
  }

  method CollectSpans(path: seq<int>, n: nat) returns (spans: seq<Span>)
    ensures |spans| == n
    ensures forall i :: 0 <= i < n ==> SpanOf(path, 2 * i + 1, spans[i])
  {
    spans := [];
    for i := 0 to n
      invariant |spans| == i
      invariant forall k :: 0 <= k < i ==> SpanOf(path, 2 * k + 1, spans[k])
    {
      var onPos := FramesAt(path, 2 * i + 1);
      if onPos != [] {
        spans := spans + [(onPos[0], onPos[|onPos| - 1])];
      } else {
        spans := spans + [(|path|, |path| - 1)];
      }
    }
  }

  /** One span per target. With at least as many frames as targets, the spans are those of the best
      alignment that is furthest along when the targets fit, and all empty when they do not; with fewer frames
      than targets, frame i goes to target i and the rest are empty. */
  method ForcedAlign(logProbs: seq<seq<real>>, targets: seq<nat>, blank: nat) returns (spans: seq<Span>)
    requires |logProbs| >= |targets| > 0 ==> Problem(logProbs, targets, blank).Valid()
    ensures |spans| == |targets|
    ensures |logProbs| < |targets| ==>
              forall i :: 0 <= i < |targets| ==>
                spans[i] == if i < |logProbs| then (i, i) else (|logProbs|, |logProbs| - 1)
    ensures var p := Problem(logProbs, targets, blank);
            |logProbs| >= |targets| > 0 && p.Feasible() ==>
              exists path :: FurthestBest(p, path) && ExactSpans(p, path, spans)
    ensures |logProbs| >= |targets| > 0 && !Problem(logProbs, targets, blank).Feasible() ==>
              forall i :: 0 <= i < |targets| ==> spans[i] == (|logProbs|, |logProbs| - 1)
  {
    var frames, n := |logProbs|, |targets|;
    if n == 0 {
      return [];
    }
    if frames < n {
      spans := seq(frames, i => (i, i)) + seq(n - frames, _ => (frames, frames - 1));
      return;
    }
    var p := Problem(logProbs, targets, blank);
    var ext := ExtendedSequence(targets, blank);
    var dp, back, rows := FillTrellis(p, ext);
    var path := Backtrack(p, dp, back, rows);
    spans := CollectSpans(path[..], n);
    if p.Feasible() {
      AlignedPathIsFurthest(p, rows);
      CompleteSpans(p, path[..], spans);
    } else {
      InfeasiblePath(p, rows);
    }
  }
}
