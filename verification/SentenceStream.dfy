/** stream_complete of backend/app/core/llm/providers/deepseek.py: the loops over deltas and
    buffer, proved against splitting the whole text in one piece. */
module SentenceStream {
  import opened Options
  import opened Chunking
  import opened Whitespace
  import opened SentenceSplitter
  import opened Abbreviations

  // ----- Where sentences end -----

  predicate AtRunStart(buffer: string, m: Match)
    requires m.start < |buffer|
  {
    m.start == 0 || buffer[m.start - 1] !in {'.', '!', '?'}
  }

  /** A sentence ends at e: a whole run of terminators and its closers end there, whitespace
      follows, and it is not a lone period after an abbreviation. */
  ghost predicate Boundary(buffer: string, e: nat) {
    exists m :: IsMatch(buffer, m) && AtRunStart(buffer, m) && m.end == e && !LonePeriod(buffer, m)
  }

  predicate SearchPoint(buffer: string, from: nat) {
    from == 0 || (from < |buffer| && IsSpace(buffer[from]))
  }

  lemma FoundAtRunStart(buffer: string, from: nat)
    requires SearchPoint(buffer, from) && Search(buffer, from).Some?
    ensures AtRunStart(buffer, Search(buffer, from).value)
  {
    var m := Search(buffer, from).value;
    SearchIsLeftmost(buffer, from);
    if !AtRunStart(buffer, m) {
      assert m.start > from;
      assert IsMatch(buffer, m.(start := m.start - 1));
    }
  }

  /** Matches at run starts do not overlap. */
  lemma LaterMatch(buffer: string, m: Match, m': Match)
    requires IsMatch(buffer, m) && IsMatch(buffer, m') && AtRunStart(buffer, m') && m.start < m'.start
    ensures m.end < m'.start
  {
    var c, d := buffer[m'.start], buffer[m'.start - 1];
  }

  lemma {:induction false} NextCutMeaning(buffer: string, from: nat)
    requires SearchPoint(buffer, from)
    ensures NextCut(buffer, from).Some? ==> Boundary(buffer, NextCut(buffer, from).value)
    ensures forall m :: IsMatch(buffer, m) && AtRunStart(buffer, m) && from <= m.start && !LonePeriod(buffer, m) ==>
              NextCut(buffer, from).Some? && NextCut(buffer, from).value <= m.end
    decreases |buffer| - from
  {
    var found := Search(buffer, from);
    SearchIsLeftmost(buffer, from);
    if found.Some? {
      var m := found.value;
      FoundAtRunStart(buffer, from);
      AbbreviatedIsLone(buffer, m);
      if IsAbbreviated(buffer, m) { NextCutMeaning(buffer, m.end); }
      forall m' | IsMatch(buffer, m') && AtRunStart(buffer, m') && from <= m'.start && !LonePeriod(buffer, m')
        ensures NextCut(buffer, from).Some? && NextCut(buffer, from).value <= m'.end
      {
        if m.start < m'.start { LaterMatch(buffer, m, m'); } else { MatchUnique(buffer, m, m'); }
      }
    }
  }

  /** The splitter cuts at e exactly when e is the first sentence end in the buffer. */
  lemma CutsAtFirstBoundary(buffer: string, e: nat)
    ensures FirstCut(buffer) == Some(e) <==> Boundary(buffer, e) && forall e' :: 0 <= e' < e ==> !Boundary(buffer, e')
    ensures FirstCut(buffer).None? <==> forall e': nat :: !Boundary(buffer, e')
  {
    NextCutMeaning(buffer, 0);
  }

  // ----- Reference: the sentences of a whole text -----

  /** What is yielded for one stripped candidate: nothing when it is empty. */
  function Emit(piece: string): seq<string> {
    if Strip(piece) == [] then [] else [Strip(piece)]
  }

  function EmitAll(pieces: seq<string>): seq<string> {
    if pieces == [] then [] else Emit(pieces[0]) + EmitAll(pieces[1..])
  }

  /** The sentences that leave while the stream is still open. */
  ghost function Early(text: string): seq<string> {
    FirstCutLawful();
    EmitAll(Pieces(FirstCut, text))
  }

  ghost function Left(text: string): string {
    FirstCutLawful();
    Rest(FirstCut, text)
  }

  /** Splitting the whole text in one piece. */
  ghost function Batch(text: string): seq<string> {
    Early(text) + Emit(Left(text))
  }

  lemma {:induction false} EmitAllConcat(a: seq<string>, b: seq<string>)
    ensures EmitAll(a + b) == EmitAll(a) + EmitAll(b)
  {
    if a == [] {
      assert a + b == b;
    } else {
      assert (a + b)[1..] == a[1..] + b;
      EmitAllConcat(a[1..], b);
    }
  }

  lemma EarlyInTwoGoes(text: string, more: string)
    ensures Early(text + more) == Early(text) + Early(Left(text) + more)
    ensures Left(text + more) == Left(Left(text) + more)
  {
    FirstCutLawful();
    PiecesInTwoGoes(FirstCut, text, more);
    EmitAllConcat(Pieces(FirstCut, text), Pieces(FirstCut, Rest(FirstCut, text) + more));
  }

  lemma EarlyStep(text: string, e: nat)
    requires FirstCut(text) == Some(e)
    ensures Early(text) == Emit(text[..e]) + Early(text[e..]) && Left(text) == Left(text[e..])
  {
    FirstCutLawful();
    assert Pieces(FirstCut, text)[1..] == Pieces(FirstCut, text[e..]);
  }

  lemma AppendYield(a: seq<string>, b: seq<string>, c: seq<string>)
    ensures a + (b + c) == (a + b) + c
  {
  }

  lemma EarlyStop(text: string)
    requires FirstCut(text).None?
    ensures Early(text) == [] && Left(text) == text
  {
  }

  /** What a stream has yielded so far stands, however it goes on. */
  lemma EarlyIsPrefix(text: string, more: string)
    ensures Early(text) <= Batch(text + more)
  {
    EarlyInTwoGoes(text, more);
  }

  // ----- Nothing is lost between the sentences -----

  /** gaps[0] + ss[0] + gaps[1] + ss[1] + ... + gaps[|ss|]. */
  function Weave(gaps: seq<string>, ss: seq<string>): string
    requires |gaps| == |ss| + 1
  {
    if ss == [] then gaps[0] else gaps[0] + ss[0] + Weave(gaps[1..], ss[1..])
  }

  ghost predicate Spaces(gaps: seq<string>) {
    forall i :: 0 <= i < |gaps| ==> AllSpace(gaps[i])
  }

  lemma PieceEndsNonSpace(text: string, e: nat)
    requires FirstCut(text) == Some(e)
    ensures 0 < e < |text| && !IsSpace(text[e - 1]) && IsSpace(text[e])
  {
    NextCutMeaning(text, 0);
    var m :| IsMatch(text, m) && m.end == e;
    assert IsTerminator(text[e - 1]) || IsCloser(text[e - 1]);
  }

  lemma LastSentence(text: string) returns (gaps: seq<string>)
    ensures |gaps| == |Emit(text)| + 1 && Spaces(gaps) && Weave(gaps, Emit(text)) == text
    ensures text != [] && IsSpace(text[0]) ==> gaps[0] != []
  {
    var i, j := StripParts(text);
    if Strip(text) == [] {
      gaps := [text];
    } else {
      gaps := [text[..i], text[j..]];
      assert gaps[1..] == [text[j..]] && [Strip(text)][1..] == [];
      assert text == text[..i] + text[i..j] + text[j..];
    }
  }

  /** Conservation: the text is its sentences in order with nothing but whitespace before,
      after and between them, and with some whitespace between any two. */
  lemma {:induction false} SentencesConserve(text: string) returns (gaps: seq<string>)
    ensures |gaps| == |Batch(text)| + 1 && Spaces(gaps) && Weave(gaps, Batch(text)) == text
    ensures forall i :: 0 < i < |Batch(text)| ==> gaps[i] != []
    ensures text != [] && IsSpace(text[0]) ==> gaps[0] != []
    decreases |text|
  {
    var cut := FirstCut(text);
    if cut.None? {
      EarlyStop(text);
      gaps := LastSentence(text);
    } else {
      var e := cut.value;
      PieceEndsNonSpace(text, e);
      BatchStep(text, e);
      var rest := SentencesConserve(text[e..]);
      gaps := PutBefore(text, e, Batch(text[e..]), rest);
    }
  }

  lemma BatchStep(text: string, e: nat)
    requires FirstCut(text) == Some(e)
    ensures Batch(text) == [Strip(text[..e])] + Batch(text[e..])
  {
    PieceEndsNonSpace(text, e);
    var i, j := StripParts(text[..e]);
    assert Emit(text[..e]) == [Strip(text[..e])] by { assert text[..e][e - 1] == text[e - 1]; }
    EarlyStep(text, e);
    AppendYield([Strip(text[..e])], Early(text[e..]), Emit(Left(text[e..])));
  }

  lemma PutBefore(text: string, e: nat, later: seq<string>, rest: seq<string>) returns (gaps: seq<string>)
    requires 0 < e < |text| && !IsSpace(text[e - 1])
    requires |rest| == |later| + 1 && Spaces(rest) && Weave(rest, later) == text[e..]
    ensures |gaps| == |later| + 2 && Spaces(gaps) && Weave(gaps, [Strip(text[..e])] + later) == text
    ensures gaps[1..] == rest
    ensures IsSpace(text[0]) ==> gaps[0] != []
  {
    var head := text[..e];
    var i, j := StripParts(head);
    gaps := [text[..i]] + rest;
    assert ([Strip(head)] + later)[1..] == later;
    assert text == text[..i] + text[i..e] + text[e..];
  }

  // ----- Every sentence end is cut, and nothing else is -----

  ghost predicate FirstBoundary(text: string, e: nat) {
    0 < e < |text| && Boundary(text, e) && forall e' :: 0 <= e' < e ==> !Boundary(text, e')
  }

  lemma FirstBoundaryIsCut(text: string, e: nat)
    ensures FirstBoundary(text, e) <==> FirstCut(text) == Some(e)
    ensures FirstCut(text).None? <==> forall e': nat :: !Boundary(text, e')
  {
    CutsAtFirstBoundary(text, e);
  }

  /** The two equations that determine the batch splitter: a text with a sentence end is cut at
      the first one, and its rest is split in turn; a text without is one sentence, or none. */
  lemma BatchCutsEveryBoundary(text: string, e: nat)
    ensures FirstBoundary(text, e) ==> Batch(text) == [Strip(text[..e])] + Batch(text[e..])
    ensures (forall e': nat :: !Boundary(text, e')) ==> Batch(text) == Emit(text)
  {
    FirstBoundaryIsCut(text, e);
    if FirstCut(text) == Some(e) { BatchStep(text, e); }
    if FirstCut(text).None? { EarlyStop(text); }
  }

  /** text[start..end] is a sentence: `end` is the first sentence end after `start`. */
  ghost predicate IsSentence(text: string, start: nat, end: nat, sentence: string) {
    start <= end <= |text| && FirstBoundary(text[start..], end - start) && sentence == Strip(text[start..end])
  }

  lemma CutIsSentence(text: string, start: nat, end: nat)
    requires start <= end <= |text| && FirstCut(text[start..]) == Some(end - start)
    ensures IsSentence(text, start, end, Strip(text[start..end])) && Strip(text[start..end]) != []
  {
    var rest := text[start..];
    FirstBoundaryIsCut(rest, end - start);
    PieceEndsNonSpace(rest, end - start);
    var i, j := StripParts(text[start..end]);
    assert text[start..end][end - start - 1] == rest[end - start - 1];
  }

  lemma {:induction false} EmitAllStrips(pieces: seq<string>, i: nat)
    requires i < |pieces| && forall k :: 0 <= k < |pieces| ==> Strip(pieces[k]) != []
    ensures |EmitAll(pieces)| == |pieces| && EmitAll(pieces)[i] == Strip(pieces[i])
    decreases |pieces|
  {
    if |pieces| == 1 {
    } else {
      EmitAllStrips(pieces[1..], if i > 0 then i - 1 else 0);
    }
  }

  /** The cuts of a whole text: every sentence but the last runs from one cut to the next, which
      is the first sentence end after it; after the last cut there is no sentence end, and the
      last sentence is what is left, unless that is only whitespace. */
  lemma SentencesEndAtBoundaries(text: string) returns (cuts: seq<nat>)
    ensures |cuts| <= |Batch(text)|
    ensures forall i {:trigger Batch(text)[i]} :: 0 <= i < |cuts| ==>
              IsSentence(text, CutBefore(0, cuts, i), cuts[i], Batch(text)[i])
    ensures var last := CutBefore(0, cuts, |cuts|);
            && last <= |text|
            && (forall e: nat :: !Boundary(text[last..], e))
            && Batch(text)[|cuts|..] == Emit(text[last..])
  {
    FirstCutLawful();
    assert text[0..] == text;
    var pieces, rest;
    cuts, pieces, rest := PiecesAt(FirstCut, text, 0, text);
    EarlyPieces(text, cuts, pieces, rest);
    FirstBoundaryIsCut(rest, 0);
  }

  lemma EarlyPieces(text: string, cuts: seq<nat>, pieces: seq<string>, rest: string)
    requires CutUp(FirstCut, text, 0, cuts, pieces, rest)
    ensures |EmitAll(pieces)| == |cuts|
    ensures forall i {:trigger EmitAll(pieces)[i]} :: 0 <= i < |cuts| ==>
              IsSentence(text, CutBefore(0, cuts, i), cuts[i], EmitAll(pieces)[i])
  {
    forall i | 0 <= i < |cuts|
      ensures IsSentence(text, CutBefore(0, cuts, i), cuts[i], Strip(pieces[i])) && Strip(pieces[i]) != []
    {
      assert CutHere(FirstCut, text, CutBefore(0, cuts, i), cuts[i], pieces[i]);
      CutIsSentence(text, CutBefore(0, cuts, i), cuts[i]);
    }
    forall i | 0 <= i < |cuts| ensures |EmitAll(pieces)| == |cuts| && EmitAll(pieces)[i] == Strip(pieces[i]) {
      EmitAllStrips(pieces, i);
    }
  }

  // ----- Abbreviations in a stream -----

  /** A period after a word and before whitespace ends a sentence exactly when the word is not an
      abbreviation, whatever the letters' case and whatever precedes and follows. */
  lemma PeriodEndsIff(before: string, word: string, after: string)
    requires word != [] && word[0] != '.' && word[|word| - 1] != '.'
    requires forall k :: 0 <= k < |word| ==> LetterOrDot(word[k])
    requires before != [] ==> !LetterOrDot(before[|before| - 1])
    requires after != [] && IsSpace(after[0])
    ensures Boundary(before + word + "." + after, |before| + |word| + 1) <==> !Abbreviation(word)
  {
    var text, p := before + word + "." + after, |before| + |word|;
    var m := Match(p, p + 1, p + 1);
    assert text[p] == '.' && text[p + 1] == after[0] && text[p - 1] == word[|word| - 1];
    assert text[..p] == before + word;
    WordBefore(before, word);
    assert IsMatch(text, m) && AtRunStart(text, m);
    assert !IsTerminator(text[p - 1]) && !IsCloser(text[p - 1]);
    forall m' | IsMatch(text, m') && AtRunStart(text, m') && m'.end == p + 1 ensures m' == m {
      if m'.start == p { MatchUnique(text, m, m'); }
    }
  }

  /** An abbreviation never breaks a sentence: when its period is the only terminator that whitespace
      follows, closers aside, a text comes out of the stream in one piece. */
  lemma AbbreviationKeepsSentence(before: string, word: string, after: string)
    requires word != [] && word[0] != '.' && word[|word| - 1] != '.' && Abbreviation(word)
    requires forall k :: 0 <= k < |word| ==> LetterOrDot(word[k])
    requires before != [] ==> !LetterOrDot(before[|before| - 1])
    requires after != [] && IsSpace(after[0])
    requires var text := before + word + "." + after;
             forall m :: IsMatch(text, m) && AtRunStart(text, m) ==> m.start == |before| + |word|
    ensures Batch(before + word + "." + after) == Emit(before + word + "." + after)
  {
    var text, p := before + word + "." + after, |before| + |word|;
    PeriodEndsIff(before, word, after);
    var lone := Match(p, p + 1, p + 1);
    assert text[p] == '.' && text[p + 1] == after[0];
    assert IsMatch(text, lone);
    forall e: nat ensures !Boundary(text, e) {
      forall m | IsMatch(text, m) && AtRunStart(text, m) ensures m.end == p + 1 {
        MatchUnique(text, m, lone);
      }
    }
    BatchCutsEveryBoundary(text, 0);
  }

  // ----- The loops -----

  /** The search_from part of the inner loop: skip lone periods after abbreviations. */
  method FindCut(buffer: string) returns (cut: Option<nat>)
    ensures cut == FirstCut(buffer)
  {
    var searchFrom: nat := 0;
    while true
      invariant NextCut(buffer, searchFrom) == FirstCut(buffer)
      decreases |buffer| - searchFrom
    {
      var found := Search(buffer, searchFrom);
      if found.None? {
        return None;
      }
      var m := found.value;
      if !IsAbbreviated(buffer, m) {
        return Some(m.end);
      }
      searchFrom := m.end;
    }
  }

  /** The inner loop: yield every complete sentence in the buffer. */
  method DrainBuffer(initial: string) returns (yielded: seq<string>, buffer: string)
    ensures yielded == Early(initial)
    ensures buffer == Left(initial)
  {
    buffer, yielded := initial, [];
    ghost var later, left := Early(initial), Left(initial);
    while true
      invariant Early(initial) == yielded + later
      invariant later == Early(buffer) && left == Left(initial) == Left(buffer)
      decreases |buffer|
    {
      var cut := FindCut(buffer);
      if cut.None? {
        EarlyStop(buffer);
        return;
      }
      var end := cut.value;
      EarlyStep(buffer, end);
      later := Early(buffer[end..]);
      AppendYield(yielded, Emit(buffer[..end]), later);
      yielded := YieldUnlessEmpty(yielded, buffer[..end]);
      buffer := buffer[end..];
    }
  }

  method YieldUnlessEmpty(before: seq<string>, piece: string) returns (yielded: seq<string>)
    ensures yielded == before + Emit(piece)
  {
    yielded := before;
    var sentence := Strip(piece);
    if sentence != [] {
      yielded := yielded + [sentence];
    }
  }

  function TextOf(deltas: seq<Option<string>>): string {
    if deltas == [] then ""
    else
      var last := deltas[|deltas| - 1];
      TextOf(deltas[..|deltas| - 1]) + if last.Some? then last.value else ""
  }

  /** A stream of deltas (None and "" carry no text) that ends normally, or breaks off after
      them. However the text was cut, a stream that ends yields exactly the sentences of the
      whole text; a broken one has yielded those that were already complete. */
  method StreamComplete(deltas: seq<Option<string>>, breaks: bool) returns (yielded: seq<string>, failed: bool)
    ensures failed == breaks
    ensures !failed ==> yielded == Batch(TextOf(deltas))
    ensures failed ==> yielded == Early(TextOf(deltas))
  {
    var buffer := "";
    yielded := [];
    EarlyStop("");
    for i := 0 to |deltas|
      invariant yielded == Early(TextOf(deltas[..i]))
      invariant buffer == Left(TextOf(deltas[..i]))
    {
      assert deltas[..i + 1][..i] == deltas[..i];
      var delta := deltas[i];
      if delta.None? || delta.value == "" {
        assert TextOf(deltas[..i + 1]) == TextOf(deltas[..i]);
        continue;
      }
      EarlyInTwoGoes(TextOf(deltas[..i]), delta.value);
      var more;
      more, buffer := DrainBuffer(buffer + delta.value);
      yielded := yielded + more;
    }
    assert deltas[..|deltas|] == deltas;
    if breaks {
      return yielded, true;
    }
    yielded := YieldUnlessEmpty(yielded, buffer);
    failed := false;
  }
}
