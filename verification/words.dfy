/**
 Word counting for the reading-time estimate.

 A word is a maximal run of characters that are not word boundaries. The
 reference count `WordCount` counts the positions where such a run starts;
 the methods below are the index-walking loops of the script (trim from the
 front, trim from the back, then count runs) and are proved to compute it.
 */
module Words {

  /** The four boundary characters: space, newline, carriage return, tab. */
  predicate AnsiWordBound(c: char) {
    c == ' ' || c == '\n' || c == '\r' || c == '\t'
  }

  /** `wordBound(text[k])`: reading outside the text yields `undefined`,
      which is not a boundary. */
  predicate BoundAt(text: string, k: int) {
    0 <= k < |text| && AnsiWordBound(text[k])
  }

  /** A word starts at `k` when `text[k]` is not a boundary and the
      character before it is absent or a boundary. */
  predicate IsWordStart(text: string, k: nat)
    requires k < |text|
  {
    !AnsiWordBound(text[k]) && (k == 0 || AnsiWordBound(text[k - 1]))
  }

  /** Number of word starts among the first `n` positions. */
  function StartsBelow(text: string, n: nat): nat
    requires n <= |text|
  {
    if n == 0 then 0
    else StartsBelow(text, n - 1) + (if IsWordStart(text, n - 1) then 1 else 0)
  }

  /** Number of maximal runs of non-boundary characters in `text`. */
  function WordCount(text: string): nat {
    StartsBelow(text, |text|)
  }

  /** A prefix made only of boundaries holds no word start. */
  lemma {:induction false} BoundaryPrefixHasNoStarts(text: string, n: nat)
    requires n <= |text|
    requires forall k :: 0 <= k < n ==> AnsiWordBound(text[k])
    ensures StartsBelow(text, n) == 0
  {
    if n > 0 {
      BoundaryPrefixHasNoStarts(text, n - 1);
    }
  }

  /** A stretch made only of boundaries adds no word start. */
  lemma {:induction false} BoundaryStretchAddsNoStarts(text: string, m: nat, n: nat)
    requires m <= n <= |text|
    requires forall k :: m <= k < n ==> AnsiWordBound(text[k])
    ensures StartsBelow(text, n) == StartsBelow(text, m)
  {
    if m < n {
      BoundaryStretchAddsNoStarts(text, m, n - 1);
    }
  }

  /** Empty or all-boundary text has no words. */
  lemma AllBoundaryTextHasNoWords(text: string)
    requires forall k :: 0 <= k < |text| ==> AnsiWordBound(text[k])
    ensures WordCount(text) == 0
  {
    BoundaryPrefixHasNoStarts(text, |text|);
  }

  /** A non-empty text without boundaries is exactly one word. */
  lemma {:induction false} UnbrokenTextIsOneWord(text: string)
    requires |text| > 0
    requires forall k :: 0 <= k < |text| ==> !AnsiWordBound(text[k])
    ensures WordCount(text) == 1
  {
    var n := |text|;
    while n > 1
      invariant 1 <= n <= |text|
      invariant StartsBelow(text, |text|) == StartsBelow(text, n)
      decreases n
    {
      assert !IsWordStart(text, n - 1);
      n := n - 1;
    }
  }

  /** The seam between `a` and `b` does not fall inside a word. */
  predicate SeamAtBoundary(a: string, b: string) {
    |a| == 0 || |b| == 0 || AnsiWordBound(a[|a| - 1]) || AnsiWordBound(b[0])
  }

  /** Appending text does not change the word starts already counted. */
  lemma {:induction false} StartsBelowPrefix(a: string, b: string, n: nat)
    requires n <= |a|
    ensures StartsBelow(a + b, n) == StartsBelow(a, n)
  {
    if n > 0 {
      StartsBelowPrefix(a, b, n - 1);
      assert IsWordStart(a + b, n - 1) == IsWordStart(a, n - 1);
    }
  }

  /** Past a seam at a boundary, the word starts of `a + b` are those of
      `a` followed by those of `b`. */
  lemma {:induction false} StartsBelowShift(a: string, b: string, n: nat)
    requires n <= |b|
    requires SeamAtBoundary(a, b)
    ensures StartsBelow(a + b, |a| + n) == StartsBelow(a, |a|) + StartsBelow(b, n)
  {
    if n == 0 {
      StartsBelowPrefix(a, b, |a|);
    } else {
      StartsBelowShift(a, b, n - 1);
      assert IsWordStart(a + b, |a| + n - 1) == IsWordStart(b, n - 1);
    }
  }

  /** Word counts add up across a seam that does not split a word. */
  lemma ConcatWordCount(a: string, b: string)
    requires SeamAtBoundary(a, b)
    ensures WordCount(a + b) == WordCount(a) + WordCount(b)
  {
    StartsBelowShift(a, b, |b|);
  }

  /** Two words joined by a space count as two. */
  lemma {:induction false} WordSpaceText(w: string, rest: string)
    requires |w| > 0
    requires forall k :: 0 <= k < |w| ==> !AnsiWordBound(w[k])
    ensures WordCount(w + " " + rest) == 1 + WordCount(rest)
  {
    UnbrokenTextIsOneWord(w);
    AllBoundaryTextHasNoWords(" ");
    ConcatWordCount(w, " ");
    ConcatWordCount(w + " ", rest);
  }

  /** "one two three four five" has five words. */
  lemma FiveWordExample()
    ensures WordCount("one two three four five") == 5
  {
    UnbrokenTextIsOneWord("five");
    WordSpaceText("four", "five");
    assert "four" + " " + "five" == "four five";
    WordSpaceText("three", "four five");
    assert "three" + " " + "four five" == "three four five";
    WordSpaceText("two", "three four five");
    assert "two" + " " + "three four five" == "two three four five";
    WordSpaceText("one", "two three four five");
    assert "one" + " " + "two three four five" == "one two three four five";
  }

  /** The leading trim loop: `while (wordBound(text[start])) start++`.
      It stops at the first non-boundary, or at the length of the text. */
  method TrimStart(text: string) returns (start: nat)
    ensures start <= |text|
    ensures forall k :: 0 <= k < start ==> AnsiWordBound(text[k])
    ensures start < |text| ==> !AnsiWordBound(text[start])
  {
    start := 0;
    while BoundAt(text, start)
      invariant start <= |text|
      invariant forall k :: 0 <= k < start ==> AnsiWordBound(text[k])
      decreases |text| - start
    {
      start := start + 1;
    }
  }

  /** The trailing trim loop: `while (wordBound(text[end])) end--`, from
      `text.length - 1`. It stops at the last non-boundary, or at -1. */
  method TrimEnd(text: string) returns (end: int)
    ensures -1 <= end < |text|
    ensures forall k :: end < k < |text| ==> AnsiWordBound(text[k])
    ensures end >= 0 ==> !AnsiWordBound(text[end])
  {
    end := |text| - 1;
    while BoundAt(text, end)
      invariant -1 <= end < |text|
      invariant forall k :: end < k < |text| ==> AnsiWordBound(text[k])
      decreases end + 1
    {
      end := end - 1;
    }
  }

  /** The counting loop over the trimmed range `[start, end]`: each outer
      iteration skips one word, counts it, then skips the boundaries after
      it. Returns the count and the final index. */
  method CountRuns(text: string, start: nat, end: int) returns (words: nat, i: int)
    requires start <= |text| && -1 <= end < |text|
    requires forall k :: 0 <= k < start ==> AnsiWordBound(text[k])
    requires start < |text| ==> !AnsiWordBound(text[start])
    requires forall k :: end < k < |text| ==> AnsiWordBound(text[k])
    requires end >= 0 ==> !AnsiWordBound(text[end])
    ensures words == WordCount(text)
    ensures start <= end ==> i == end + 1
    ensures end < start ==> i == start && words == 0
  {
    words := 0;
    i := start;
    BoundaryPrefixHasNoStarts(text, start);
    while i <= end
      invariant start <= i <= |text|
      invariant start <= end ==> i <= end + 1
      invariant words == StartsBelow(text, i)
      invariant i <= end ==> IsWordStart(text, i)
      decreases end + 1 - i
    {
      ghost var first := i;
      while i <= end && !BoundAt(text, i)
        invariant first <= i <= end + 1
        invariant i > first ==> !AnsiWordBound(text[i - 1])
        invariant StartsBelow(text, i) == words + (if i > first then 1 else 0)
        decreases end + 1 - i
      {
        i := i + 1;
      }
      words := words + 1;
      ghost var gap := i;
      while i <= end && BoundAt(text, i)
        invariant first < gap <= i <= end + 1
        invariant i > gap ==> AnsiWordBound(text[i - 1])
        invariant gap <= end ==> AnsiWordBound(text[gap])
        invariant StartsBelow(text, i) == words
        decreases end + 1 - i
      {
        i := i + 1;
      }
    }
    if start <= end {
      BoundaryStretchAddsNoStarts(text, end + 1, |text|);
    } else {
      AllBoundaryTextHasNoWords(text);
    }
  }

  /** Lines 49-68 of the script: trim both ends, then count the runs. */
  method CountWords(text: string) returns (words: nat)
    ensures words == WordCount(text)
    ensures words == 0 <==> forall k :: 0 <= k < |text| ==> AnsiWordBound(text[k])
  {
    var start := TrimStart(text);
    var end := TrimEnd(text);
    var i;
    words, i := CountRuns(text, start, end);
    if start <= end {
      assert IsWordStart(text, start);
      StartsPositive(text, start);
    }
  }

  /** A text with a word start anywhere has a positive word count. */
  lemma {:induction false} StartsPositive(text: string, k: nat)
    requires k < |text| && IsWordStart(text, k)
    ensures WordCount(text) > 0
  {
    var n := |text|;
    while n > k + 1
      invariant k + 1 <= n <= |text|
      invariant StartsBelow(text, n) <= StartsBelow(text, |text|)
      decreases n
    {
      n := n - 1;
    }
  }
}
