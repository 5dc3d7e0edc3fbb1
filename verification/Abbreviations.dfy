/** What _ends_with_abbreviation of backend/app/core/llm/providers/deepseek.py decides, in terms of
    the characters of the text alone. */
module Abbreviations {
  import opened Options
  import opened SentenceSplitter

  /** The same letter in either case, or the same character. */
  predicate SameLetter(a: char, b: char) {
    || a == b
    || ('A' <= a <= 'Z' && a as int + 32 == b as int)
    || ('A' <= b <= 'Z' && b as int + 32 == a as int)
  }

  predicate SameWord(s: string, t: string) {
    |s| == |t| && forall k :: 0 <= k < |s| ==> SameLetter(s[k], t[k])
  }

  predicate LetterOrDot(c: char) { 'a' <= c <= 'z' || 'A' <= c <= 'Z' || c == '.' }

  /** The words after which a period does not end a sentence. */
  predicate Listed(w: string) {
    || w == "mr" || w == "mrs" || w == "ms" || w == "dr" || w == "prof" || w == "st" || w == "sr" || w == "jr"
    || w == "vs" || w == "etc" || w == "e.g" || w == "i.e" || w == "a.m" || w == "p.m" || w == "u.s" || w == "u.k"
  }

  /** A single letter or a listed word, in any mix of cases. */
  ghost predicate Abbreviation(word: string) {
    |word| == 1 || exists w :: Listed(w) && SameWord(word, w)
  }

  /** The text, a newline at its very end left aside, ends in a run of letters and dots, which is
      text[i..e] once the dots around it are cut off. */
  ghost predicate LastWord(text: string, i: nat, e: nat) {
    exists run: nat, end: nat :: WordIn(text, run, i, e, end)
  }

  ghost predicate WordIn(text: string, run: nat, i: nat, e: nat, end: nat) {
    && run <= i < e <= end <= |text| && TextEnd(text, end)
    && (forall k :: run <= k < end ==> LetterOrDot(text[k]))
    && (run > 0 ==> !LetterOrDot(text[run - 1]))
    && (forall k :: run <= k < i || e <= k < end ==> text[k] == '.')
    && text[i] != '.' && text[e - 1] != '.'
  }

  predicate TextEnd(text: string, end: nat) {
    || (end == |text| && (end > 0 ==> text[end - 1] != '\n'))
    || (end + 1 == |text| && text[end] == '\n')
  }

  ghost predicate AfterAbbreviation(text: string) {
    exists i: nat, e: nat :: i <= e <= |text| && LastWord(text, i, e) && Abbreviation(text[i..e])
  }

  // ----- The program's way of telling -----

  lemma {:induction false} StripDotsParts(s: string) returns (b: nat, e: nat)
    ensures b <= e <= |s| && StripDots(s) == s[b..e]
    ensures forall k :: 0 <= k < b || e <= k < |s| ==> s[k] == '.'
    ensures b < e ==> s[b] != '.' && s[e - 1] != '.'
    decreases |s|
  {
    if s != [] && s[0] == '.' {
      var b', e' := StripDotsParts(s[1..]);
      b, e := b' + 1, e' + 1;
      assert forall k :: 1 <= k < |s| ==> s[k] == s[1..][k - 1];
    } else if s != [] && s[|s| - 1] == '.' {
      b, e := StripDotsParts(s[..|s| - 1]);
    } else {
      b, e := 0, |s|;
    }
  }

  predicate NoCapitals(w: string) { forall k :: 0 <= k < |w| ==> !('A' <= w[k] <= 'Z') }

  lemma LowerIsSameWord(s: string, w: string)
    requires NoCapitals(w)
    ensures Lower(s) == w <==> SameWord(s, w)
  {
    if SameWord(s, w) {
      forall k | 0 <= k < |s| ensures Lower(s)[k] == w[k] { assert SameLetter(s[k], w[k]); }
    }
  }

  lemma ListedAreAll(w: string)
    ensures w in ABBREVIATIONS <==> Listed(w)
    ensures Listed(w) ==> NoCapitals(w)
  {
  }

  lemma LowerIsAbbreviation(word: string)
    requires word != []
    ensures |word| == 1 || Lower(word) in ABBREVIATIONS <==> Abbreviation(word)
  {
    ListedAreAll(Lower(word));
    if Lower(word) in ABBREVIATIONS { LowerIsSameWord(word, Lower(word)); }
    forall w | Listed(w) && SameWord(word, w) ensures Lower(word) in ABBREVIATIONS {
      ListedAreAll(w);
      LowerIsSameWord(word, w);
    }
  }

  /** The word that the program finds in text[i..end], for a word that starts there. */
  lemma WordFound(text: string, i: nat, end: nat) returns (e: nat)
    requires i < end <= |text| && IsLetter(text[i])
    ensures i < e <= end && text[e - 1] != '.' && (forall k :: e <= k < end ==> text[k] == '.')
    ensures StripDots(Lower(text[i..end])) == Lower(text[i..e])
  {
    var low := Lower(text[i..end]);
    var b, e' := StripDotsParts(low);
    assert low[0] != '.' && (forall k :: 0 <= k < |low| ==> (low[k] == '.' <==> text[i + k] == '.'));
    e := i + e';
    forall k | e <= k < end ensures text[k] == '.' { assert low[k - i] == '.'; }
    assert low[0..e'] == Lower(text[i..e]);
  }

  lemma FoundIsLast(text: string, i: nat, e: nat)
    requires TrailingWord(text, 0) == Some(i)
    requires i < e <= DollarEnd(text) && text[e - 1] != '.' && forall k :: e <= k < DollarEnd(text) ==> text[k] == '.'
    ensures LastWord(text, i, e)
  {
    var end := DollarEnd(text);
    var run := RunStart(text, i);
    forall k | run <= k < i ensures text[k] == '.' {
      if IsLetter(text[k]) { assert IsTrailingWord(text, k); }
    }
    assert WordIn(text, run, i, e, end);
  }

  lemma {:induction false} RunStart(text: string, i: nat) returns (run: nat)
    requires i <= |text|
    ensures run <= i && (forall k :: run <= k < i ==> IsWordChar(text[k]))
    ensures run > 0 ==> !IsWordChar(text[run - 1])
  {
    if i == 0 || !IsWordChar(text[i - 1]) {
      run := i;
    } else {
      run := RunStart(text, i - 1);
    }
  }

  lemma LastIsFound(text: string, i: nat, e: nat)
    requires LastWord(text, i, e)
    ensures TrailingWord(text, 0) == Some(i)
    ensures i < e <= DollarEnd(text) && text[e - 1] != '.' && forall k :: e <= k < DollarEnd(text) ==> text[k] == '.'
  {
    var end := DollarEnd(text);
    var run: nat, end': nat :| WordIn(text, run, i, e, end');
    assert !IsWordChar('\n');
    assert end' == end;
    assert IsTrailingWord(text, i);
    assert run > 0 ==> !IsWordChar(text[run - 1]);
    assert forall k: nat :: IsTrailingWord(text, k) ==> i <= k;
  }

  /** The program finds an abbreviation before a period exactly when the last word of the text before
      it, without the dots around it, is a single letter or a listed word in any mix of cases. */
  lemma AbbreviationMeaning(text: string)
    ensures EndsWithAbbreviation(text) <==> AfterAbbreviation(text)
  {
    var found := TrailingWord(text, 0);
    if found.Some? {
      var i := found.value;
      var e := WordFound(text, i, DollarEnd(text));
      FoundIsLast(text, i, e);
      LowerIsAbbreviation(text[i..e]);
      assert |Lower(text[i..e])| == e - i;
    }
    forall i: nat, e: nat | i <= e <= |text| && LastWord(text, i, e) && Abbreviation(text[i..e])
      ensures EndsWithAbbreviation(text) {
      LastIsFound(text, i, e);
      var e' := WordFound(text, i, DollarEnd(text));
      assert e' == e;
      LowerIsAbbreviation(text[i..e]);
    }
  }

  /** The match m is a lone period after an abbreviation. */
  ghost predicate LonePeriod(buffer: string, m: Match)
    requires m.start < m.core <= m.end <= |buffer|
  {
    m.core == m.start + 1 && buffer[m.start] == '.' && AfterAbbreviation(buffer[..m.start])
  }

  lemma AbbreviatedIsLone(buffer: string, m: Match)
    requires m.start < m.core <= m.end <= |buffer|
    ensures IsAbbreviated(buffer, m) <==> LonePeriod(buffer, m)
  {
    AbbreviationMeaning(buffer[..m.start]);
    assert |buffer[m.start..m.core]| == m.core - m.start && buffer[m.start..m.core][0] == buffer[m.start];
  }

  /** The text before a period ends in `word`, which starts with a letter, ends in one, and holds only
      letters and dots. */
  lemma WordBefore(before: string, word: string)
    requires word != [] && word[0] != '.' && word[|word| - 1] != '.'
    requires forall k :: 0 <= k < |word| ==> LetterOrDot(word[k])
    requires before != [] ==> !LetterOrDot(before[|before| - 1])
    ensures AfterAbbreviation(before + word) <==> Abbreviation(word)
  {
    var text, i, e := before + word, |before|, |before| + |word|;
    assert text[i..e] == word;
    assert WordIn(text, i, i, e, e);
    forall i': nat, e': nat | LastWord(text, i', e') ensures i' == i && e' == e {
      LastIsFound(text, i', e');
      LastIsFound(text, i, e);
    }
  }
}
