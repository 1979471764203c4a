/**
 The reading-time estimate: word count, minutes at a words-per-minute rate,
 and the same duration in milliseconds. Arithmetic is exact (`real`).
 */
module Reading {
  import opened Optional
  import Words

  /** Rate used when the option is absent or zero. */
  const DefaultWordsPerMinute: int := 200

  /** Rate the page passes in. */
  const ConfiguredWordsPerMinute: int := 250

  const MillisPerMinute: real := 60.0 * 1000.0

  datatype Estimate = Estimate(words: nat, minutes: real, time: real)

  /** `options.wordsPerMinute || 200`: an absent or zero rate falls back. */
  function WordsPerMinute(option: Option<int>): (wpm: int)
    ensures wpm != 0
    ensures option.Some? && option.value != 0 ==> wpm == option.value
    ensures option.None? || option.value == 0 ==> wpm == DefaultWordsPerMinute
  {
    match option
    case Some(v) => if v != 0 then v else DefaultWordsPerMinute
    case None => DefaultWordsPerMinute
  }

  /** Minutes and milliseconds for `words` words at the chosen rate. */
  function EstimateOf(words: nat, option: Option<int>): (e: Estimate)
    ensures e.words == words
    ensures e.minutes * WordsPerMinute(option) as real == words as real
    ensures e.time * WordsPerMinute(option) as real == words as real * MillisPerMinute
    ensures words == 0 ==> e.minutes == 0.0 && e.time == 0.0
  {
    var minutes := words as real / WordsPerMinute(option) as real;
    Estimate(words, minutes, minutes * MillisPerMinute)
  }

  /** `readingTime(text, options)`: counts the words with the scanning
      loops and derives minutes and milliseconds from the count. */
  method ReadingTime(text: string, option: Option<int>) returns (e: Estimate)
    ensures e.words == Words.WordCount(text)
    ensures e == EstimateOf(Words.WordCount(text), option)
    ensures e.time == e.minutes * MillisPerMinute
  {
    var words := Words.CountWords(text);
    var minutes := words as real / WordsPerMinute(option) as real;
    e := Estimate(words, minutes, minutes * MillisPerMinute);
  }

  /** `Math.round`: the nearest integer, halves rounded up. */
  function Round(x: real): (n: int)
    ensures n as real - 0.5 <= x < n as real + 0.5
  {
    (x + 0.5).Floor
  }

  /** The rounded minutes of an estimate never exceed the word count at a
      positive rate of at least one word per minute. */
  lemma RoundedMinutesBounded(words: nat, option: Option<int>)
    requires WordsPerMinute(option) >= 1
    ensures 0 <= Round(EstimateOf(words, option).minutes) <= words
  {
    var e := EstimateOf(words, option);
    var w := WordsPerMinute(option) as real;
    assert e.minutes * w == words as real;
  }

  /** Five words at 250 per minute: 0.02 minutes, 1200 ms, rounded to 0. */
  lemma FiveWordExample()
    ensures Words.WordCount("one two three four five") == 5
    ensures EstimateOf(5, Some(ConfiguredWordsPerMinute)).minutes == 0.02
    ensures EstimateOf(5, Some(ConfiguredWordsPerMinute)).time == 1200.0
    ensures Round(0.02) == 0
  {
    Words.FiveWordExample();
    var e := EstimateOf(5, Some(ConfiguredWordsPerMinute));
    assert e.minutes * 250.0 == 5.0;
  }
}
