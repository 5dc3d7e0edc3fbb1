/** Cutting a text into pieces from the left, by any rule that says where the first piece ends. */
module Chunking {
  import opened Options

  type Cutter = string -> Option<nat>

  ghost predicate Progress(cut: Cutter) {
    forall s: string :: cut(s).Some? ==> 0 < cut(s).value <= |s|
  }

  /** A first piece, once found, stays whatever text follows. */
  ghost predicate Stable(cut: Cutter) {
    forall s: string, more: string :: cut(s).Some? ==> cut(s + more) == cut(s)
  }

  /** The pieces cut off s. */
  ghost function Pieces(cut: Cutter, s: string): seq<string>
    requires Progress(cut)
    decreases |s|
  {
    if cut(s).None? then [] else [s[..cut(s).value]] + Pieces(cut, s[cut(s).value..])
  }

  /** What is left of s after its pieces. */
  ghost function Rest(cut: Cutter, s: string): string
    requires Progress(cut)
    decreases |s|
  {
    if cut(s).None? then s else Rest(cut, s[cut(s).value..])
  }

  lemma PiecesStep(cut: Cutter, s: string, e: nat)
    requires Progress(cut) && cut(s) == Some(e)
    ensures e <= |s| && Pieces(cut, s) == [s[..e]] + Pieces(cut, s[e..]) && Rest(cut, s) == Rest(cut, s[e..])
  {
  }

  lemma Prepend(a: string, b: seq<string>, c: seq<string>)
    ensures [a] + (b + c) == ([a] + b) + c
  {
  }

  /** Cutting in two goes is cutting at once: later text never changes an earlier piece. */
  lemma {:induction false} PiecesInTwoGoes(cut: Cutter, s: string, more: string)
    requires Progress(cut) && Stable(cut)
    ensures Pieces(cut, s + more) == Pieces(cut, s) + Pieces(cut, Rest(cut, s) + more)
    ensures Rest(cut, s + more) == Rest(cut, Rest(cut, s) + more)
    decreases |s|
  {
    if cut(s).None? {
    } else {
      var e := cut(s).value;
      PiecesStep(cut, s, e);
      PiecesStep(cut, s + more, e);
      assert (s + more)[..e] == s[..e];
      assert (s + more)[e..] == s[e..] + more;
      PiecesInTwoGoes(cut, s[e..], more);
      Prepend(s[..e], Pieces(cut, s[e..]), Pieces(cut, Rest(cut, s) + more));
    }
  }

  // ----- Where the cuts are -----

  /** The cut before piece i: cuts[i - 1], or where the cutting started. */
  function CutBefore(from: nat, cuts: seq<nat>, i: nat): nat
    requires i <= |cuts|
  {
    if i == 0 then from else cuts[i - 1]
  }

  ghost predicate CutHere(cut: Cutter, text: string, start: nat, end: nat, piece: string) {
    start <= end <= |text| && cut(text[start..]) == Some(end - start) && piece == text[start..end]
  }

  /** The pieces run from cut to cut, and nothing can be cut off the rest. */
  ghost predicate CutUp(cut: Cutter, text: string, from: nat, cuts: seq<nat>, pieces: seq<string>, rest: string) {
    && |pieces| == |cuts|
    && (forall i {:trigger pieces[i]} :: 0 <= i < |cuts| ==>
          CutHere(cut, text, CutBefore(from, cuts, i), cuts[i], pieces[i]))
    && var last := CutBefore(from, cuts, |cuts|);
       last <= |text| && rest == text[last..] && cut(rest).None?
  }

  lemma CutBeforeMore(from: nat, e: nat, later: seq<nat>, i: nat)
    requires i <= |later|
    ensures CutBefore(from, [e] + later, i + 1) == CutBefore(e, later, i)
  {
  }

  lemma CutUpMore(
      cut: Cutter, text: string, from: nat, e: nat, later: seq<nat>, piece: string, pieces: seq<string>, rest: string)
    requires CutHere(cut, text, from, e, piece) && CutUp(cut, text, e, later, pieces, rest)
    ensures CutUp(cut, text, from, [e] + later, [piece] + pieces, rest)
  {
    var cuts, all := [e] + later, [piece] + pieces;
    forall i | 0 <= i < |cuts| ensures CutHere(cut, text, CutBefore(from, cuts, i), cuts[i], all[i]) {
      if i > 0 {
        CutBeforeMore(from, e, later, i - 1);
        assert CutHere(cut, text, CutBefore(e, later, i - 1), later[i - 1], pieces[i - 1]);
      }
    }
    CutBeforeMore(from, e, later, |later|);
  }

  lemma PieceBefore(
      cut: Cutter, text: string, from: nat, s: string, e: nat, later: seq<nat>, others: seq<string>, rest: string)
    returns (cuts: seq<nat>, pieces: seq<string>)
    requires from + e <= |text| && s == text[from..] && cut(s) == Some(e)
    requires CutUp(cut, text, from + e, later, others, rest)
    ensures pieces == [s[..e]] + others && CutUp(cut, text, from, cuts, pieces, rest)
  {
    cuts, pieces := [from + e] + later, [s[..e]] + others;
    CutUpMore(cut, text, from, from + e, later, s[..e], others, rest);
  }

  lemma LastPieceAt(cut: Cutter, text: string, from: nat, s: string)
    requires Progress(cut) && from <= |text| && s == text[from..] && cut(s).None?
    ensures CutUp(cut, text, from, [], [], s) && Pieces(cut, s) == [] && Rest(cut, s) == s
  {
  }

  /** The pieces of s, which is the text from `from` on, with their places in the text. */
  lemma {:induction false} PiecesAt(cut: Cutter, text: string, from: nat, s: string)
    returns (cuts: seq<nat>, pieces: seq<string>, rest: string)
    requires Progress(cut) && from <= |text| && s == text[from..]
    ensures pieces == Pieces(cut, s) && rest == Rest(cut, s)
    ensures CutUp(cut, text, from, cuts, pieces, rest)
    decreases |s|
  {
    if cut(s).None? {
      LastPieceAt(cut, text, from, s);
      cuts, pieces, rest := [], [], s;
    } else {
      var e := cut(s).value;
      PiecesStep(cut, s, e);
      var later, others;
      later, others, rest := PiecesAt(cut, text, from + e, s[e..]);
      cuts, pieces := PieceBefore(cut, text, from, s, e, later, others, rest);
    }
  }
}
