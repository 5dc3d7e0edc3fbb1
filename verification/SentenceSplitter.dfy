/** The streaming sentence splitter of backend/app/core/llm/providers/deepseek.py.

    Text arrives in deltas cut anywhere by the network; each complete sentence leaves as soon
    as it is recognised. The regular expressions are given by what they match. */
module SentenceSplitter {
  import opened Options
  import opened Chunking
  import opened Whitespace

  // ----- Characters -----

  predicate IsTerminator(c: char) { c == '.' || c == '!' || c == '?' }

  predicate IsCloser(c: char) { c == '"' || c == '\'' || c == ')' || c == ']' }

  predicate IsLetter(c: char) { 'a' <= c <= 'z' || 'A' <= c <= 'Z' }

  predicate IsWordChar(c: char) { IsLetter(c) || c == '.' }

  function SkipSpaces(s: string, i: nat): (k: nat)
    requires i <= |s|
    ensures i <= k <= |s| && forall j :: i <= j < k ==> IsSpace(s[j])
    ensures k < |s| ==> !IsSpace(s[k])
    decreases |s| - i
  {
    if i < |s| && IsSpace(s[i]) then SkipSpaces(s, i + 1) else i
  }

  function DropSpaces(s: string, i: nat, j: nat): (k: nat)
    requires i <= j <= |s|
    ensures i <= k <= j && forall l :: k <= l < j ==> IsSpace(s[l])
    ensures i < k ==> !IsSpace(s[k - 1])
  {
    if i < j && IsSpace(s[j - 1]) then DropSpaces(s, i, j - 1) else j
  }

  /** str.strip(): s without the whitespace at its two ends. */
  function Strip(s: string): string {
    var i := SkipSpaces(s, 0);
    s[i..DropSpaces(s, i, |s|)]
  }

  lemma StripParts(s: string) returns (i: nat, j: nat)
    ensures i <= j <= |s| && Strip(s) == s[i..j]
    ensures AllSpace(s[..i]) && AllSpace(s[j..])
    ensures i < j ==> !IsSpace(s[i]) && !IsSpace(s[j - 1])
    ensures Strip(s) == [] <==> AllSpace(s)
    ensures s != [] && !IsSpace(s[|s| - 1]) ==> j == |s|
  {
    i := SkipSpaces(s, 0);
    j := DropSpaces(s, i, |s|);
  }

  // ----- Abbreviations -----

  const ABBREVIATIONS: set<string> :=
    {"mr", "mrs", "ms", "dr", "prof", "st", "sr", "jr", "vs", "etc", "e.g", "i.e", "a.m", "p.m", "u.s", "u.k"}

  /** Where `$` may match: at the end, or before a newline that ends the text. */
  function DollarEnd(text: string): (end: nat)
    ensures end <= |text|
  {
    if text != [] && text[|text| - 1] == '\n' then |text| - 1 else |text|
  }

  predicate IsTrailingWord(text: string, i: nat) {
    && i < DollarEnd(text)
    && IsLetter(text[i])
    && forall k :: i <= k < DollarEnd(text) ==> IsWordChar(text[k])
  }

  /** The leftmost match of ([A-Za-z][A-Za-z.]*)$ at or after i. */
  function TrailingWord(text: string, i: nat): (r: Option<nat>)
    ensures r.Some? ==> i <= r.value && IsTrailingWord(text, r.value)
    ensures forall k :: i <= k && IsTrailingWord(text, k) ==> r.Some? && r.value <= k
    decreases |text| - i
  {
    if i >= |text| then None
    else if IsTrailingWord(text, i) then Some(i)
    else TrailingWord(text, i + 1)
  }

  function Lower(s: string): (r: string)
    ensures |r| == |s|
  {
    seq(|s|, k requires 0 <= k < |s| => if 'A' <= s[k] <= 'Z' then s[k] - 'A' + 'a' else s[k])
  }

  /** str.strip("."). */
  function StripDots(s: string): (r: string)
    decreases |s|
  {
    if s != [] && s[0] == '.' then StripDots(s[1..])
    else if s != [] && s[|s| - 1] == '.' then StripDots(s[..|s| - 1])
    else s
  }

  predicate EndsWithAbbreviation(text: string) {
    var found := TrailingWord(text, 0);
    found.Some? &&
    var word := StripDots(Lower(text[found.value..DollarEnd(text)]));
    word != [] && (|word| == 1 || word in ABBREVIATIONS)
  }

  // ----- _SENTENCE_END -----

  /** [.!?]+["')\]]*(?=\s) matches s[start..end]; core is where its terminators end. */
  datatype Match = Match(start: nat, core: nat, end: nat)

  ghost predicate IsMatch(s: string, m: Match) {
    && m.start < m.core <= m.end < |s|
    && (forall k :: m.start <= k < m.core ==> s[k] in {'.', '!', '?'})
    && (forall k :: m.core <= k < m.end ==> s[k] in {'"', '\'', ')', ']'})
    && IsSpace(s[m.end])
  }

  /** At most one match starts at a place, so backtracking never has a choice. */
  lemma MatchUnique(s: string, m: Match, m': Match)
    requires IsMatch(s, m) && IsMatch(s, m') && m.start == m'.start
    ensures m == m'
  {
    var c, c', e, e' := s[m.core], s[m'.core], s[m.end], s[m'.end];
  }

  function SkipTerminators(s: string, i: nat): (k: nat)
    requires i <= |s|
    ensures i <= k <= |s| && forall j :: i <= j < k ==> IsTerminator(s[j])
    ensures k < |s| ==> !IsTerminator(s[k])
    decreases |s| - i
  {
    if i < |s| && IsTerminator(s[i]) then SkipTerminators(s, i + 1) else i
  }

  function SkipClosers(s: string, i: nat): (k: nat)
    requires i <= |s|
    ensures i <= k <= |s| && forall j :: i <= j < k ==> IsCloser(s[j])
    ensures k < |s| ==> !IsCloser(s[k])
    decreases |s| - i
  {
    if i < |s| && IsCloser(s[i]) then SkipClosers(s, i + 1) else i
  }

  lemma GreedyIsTheMatch(s: string, i: nat, m: Match)
    requires IsMatch(s, m) && m.start == i
    ensures m == Match(i, SkipTerminators(s, i), SkipClosers(s, SkipTerminators(s, i)))
  {
    var k := SkipTerminators(s, i);
    var j := SkipClosers(s, k);
    var c, e := s[m.core], s[m.end];
    assert k < |s| ==> !IsTerminator(s[k]);
    assert j < |s| ==> !IsCloser(s[j]);
  }

  /** Pattern.search(s, from). */
  function Search(s: string, from: nat): (r: Option<Match>)
    ensures r.Some? ==> from <= r.value.start < r.value.core <= r.value.end < |s|
    decreases |s| - from
  {
    if from >= |s| then None
    else
      var core := SkipTerminators(s, from);
      var end := SkipClosers(s, core);
      if from < core && end < |s| && IsSpace(s[end]) then Some(Match(from, core, end))
      else Search(s, from + 1)
  }

  /** The search finds the leftmost match, and one whenever there is one. */
  lemma {:induction false} SearchIsLeftmost(s: string, from: nat)
    ensures Search(s, from).Some? ==> IsMatch(s, Search(s, from).value)
    ensures forall m :: IsMatch(s, m) && from <= m.start ==>
              Search(s, from).Some? && Search(s, from).value.start <= m.start
    decreases |s| - from
  {
    if from >= |s| {
    } else {
      SearchIsLeftmost(s, from + 1);
      forall m | IsMatch(s, m) && m.start == from ensures Search(s, from).Some? && Search(s, from).value == m {
        GreedyIsTheMatch(s, from, m);
      }
    }
  }

  /** A lone period after an abbreviation or an initial: not a sentence end. */
  predicate IsAbbreviated(buffer: string, m: Match)
    requires m.start < m.core <= m.end <= |buffer|
  {
    buffer[m.start..m.core] == "." && EndsWithAbbreviation(buffer[..m.start])
  }

  // ----- Reference: splitting a whole text at once -----

  /** The end of the first sentence found when searching from `from`. */
  function NextCut(buffer: string, from: nat): (r: Option<nat>)
    ensures r.Some? ==> from < r.value < |buffer|
    decreases |buffer| - from
  {
    var found := Search(buffer, from);
    if found.None? then None
    else if IsAbbreviated(buffer, found.value) then NextCut(buffer, found.value.end)
    else Some(found.value.end)
  }

  function FirstCut(buffer: string): Option<nat> {
    NextCut(buffer, 0)
  }

  // ----- More text never changes a cut already found -----

  lemma MatchStable(s: string, more: string, m: Match)
    requires m.end < |s|
    ensures IsMatch(s, m) <==> IsMatch(s + more, m)
  {
    assert forall k :: 0 <= k < |s| ==> (s + more)[k] == s[k];
    assert IsMatch(s + more, m) ==> forall k :: m.start <= k < m.end ==> s[k] == (s + more)[k];
  }

  /** A match cannot run over the whitespace that ends another. */
  lemma MatchEndsAtSpace(s: string, m: Match, i: nat)
    requires IsMatch(s, m) && m.start <= i < |s| && IsSpace(s[i])
    ensures m.end <= i
  {
  }

  lemma SearchStable(s: string, more: string, from: nat)
    requires Search(s, from).Some?
    ensures Search(s + more, from) == Search(s, from)
  {
    var m := Search(s, from).value;
    SearchIsLeftmost(s, from);
    MatchStable(s, more, m);
    SearchIsLeftmost(s + more, from);
    var m' := Search(s + more, from).value;
    MatchEndsAtSpace(s + more, m', m.end);
    MatchStable(s, more, m');
    MatchUnique(s, m, m');
  }

  lemma {:induction false} CutStable(s: string, more: string, from: nat)
    requires NextCut(s, from).Some?
    ensures NextCut(s + more, from) == NextCut(s, from)
    decreases |s| - from
  {
    SearchStable(s, more, from);
    var m := Search(s, from).value;
    assert (s + more)[m.start..m.core] == s[m.start..m.core];
    assert (s + more)[..m.start] == s[..m.start];
    if !IsAbbreviated(s, m) {
    } else {
      CutStable(s, more, m.end);
    }
  }

  lemma FirstCutLawful()
    ensures Progress(FirstCut) && Stable(FirstCut)
  {
    forall s: string, more: string | FirstCut(s).Some? ensures FirstCut(s + more) == FirstCut(s) {
      CutStable(s, more, 0);
    }
  }
}
