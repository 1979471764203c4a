# Content engagement tracker — a Dafny model

`engagement.js` measures reader engagement on an article page. It estimates
how long the article takes to read and starts two timers, one at a quarter
and one at half of that time. It watches how far the reader has scrolled,
in two bands: 40–69% and 70% or more. An analytics event goes out for a
milestone once both its timer has fired and its scroll band has been
reached.

This project models the three pieces of logic in that script and proves
properties about them:

- `words.dfy` (module `Words`) covers word counting. A word is a maximal run
  of characters other than space, newline, carriage return and tab.
  `WordCount` is the reference definition: it counts the positions where
  such a run starts. The script's index-walking loops are modelled as the
  methods `TrimStart`, `TrimEnd`, `CountRuns` and `CountWords`. The trims
  are proved to stop at the first and last non-boundary characters, and
  `CountRuns` and `CountWords` are proved to compute `WordCount`. A read past either end of the text is
  `undefined` in the script, so it is never a boundary (`BoundAt`).
- `reading.dfy` (module `Reading`) covers the reading-time estimate. It has
  the words-per-minute fallback, `minutes = words / wpm` and
  `time = minutes * 60000`, all in exact `real` arithmetic. It also has
  `Math.round`.
- `decimal.dfy` (module `Decimal`) renders an integer in decimal, the way
  `toString` does. The event labels embed the rounded minutes this way. A
  parser for the rendered text is proved to be its inverse.
- `timers.dfy` (module `Timers`) covers the cancellable repeating timer from
  `makeGlobalTimer`. The timer holds an ordered callback list and a handle;
  the handle becomes `None` (JavaScript `null`) on cancel. A tick runs the
  callbacks in registration order, and only while the handle is set.
- `engagement.dfy` (module `Engagement`) covers the tracker record with its
  four flags and the scroll latch map. It also has the dispatcher
  `SendEvent`, the band logic of the scroll handler (`OnScroll`), and the
  flag-setting half of the two timer callbacks.
- `tracking.dfy` (module `Tracking`) covers the whole page: the tracker,
  both timers and the event log. The page is driven by any sequence of
  inputs `Scroll(percent)`, `MediumTick` and `FullTick`. The main result is
  `EventsMatchConditions`. After any interleaving of inputs, the medium
  event is in the log exactly once if some scroll reached the medium band
  and the medium timer ticked; otherwise it is not there at all. The full
  event behaves the same way, and nothing else is ever logged.

Inputs from the host are parameters:

- the article text;
- the scroll percentage of each scroll event;
- the interval handles returned by the host;
- the ticks, which are input events.

Analytics submissions become `Event` values appended to the log.

Three facts about the code are easy to get wrong:

- The labels embed `Math.round(minutes)` (engagement.js:185, 193). A
  five-word article at 250 words per minute is 0.02 minutes, which rounds
  to 0, so its label reads "… an estimated 0 min read". See
  `Tracking.FiveWordScenario`.
- The labels carry the fixed texts "40%", "25%", "70%" and "50%", not
  computed percentages.
- `readingTime`'s own fallback rate, for an absent or zero option, is 200
  (`Reading.WordsPerMinute`). The page passes its configured rate of 250
  (`WORDS_PER_MINUTE`).

## Model

| member | source | states |
|---|---|---|
| Words.AllBoundaryTextHasNoWords | engagement.js:49-68 | empty or all-boundary text has zero words |
| Words.UnbrokenTextIsOneWord | engagement.js:64-68 | under the reference count `WordCount` (the measure the counting loop is proved to compute), a non-empty text without boundary characters is exactly one word |
| Words.ConcatWordCount | engagement.js:64-68 | under the reference count `WordCount`, word counts add up when two texts are joined at a seam that does not split a word |
| Words.FiveWordExample | engagement.js:64-68 | "one two three four five" counts as five words |
| Words.TrimStart | engagement.js:61 | the front trim stops at the first non-boundary character, or at the text length if there is none; everything before it is a boundary |
| Words.TrimEnd | engagement.js:62 | the back trim starts at length − 1 and stops at the last non-boundary character, or at −1; everything after it is a boundary |
| Words.CountRuns | engagement.js:64-68 | the counting loop over the trimmed range returns the number of maximal non-boundary runs; its index ends at `end + 1`, or stays at `start` (with zero words) when the range is empty |
| Words.CountWords | engagement.js:34-68 | trimming then counting gives the reference word count; the count is zero exactly when every character is a boundary |
| Words.StartsPositive | engagement.js:64-68 | a text holding a word start has at least one word |
| Reading.WordsPerMinute | engagement.js:55-57 | the rate is never zero; a non-zero option is used as given, and an absent or zero option falls back to 200 |
| Reading.EstimateOf | engagement.js:70-71 | minutes times the rate gives back the word count; time times the rate gives the word count times 60000; zero words give zero minutes and zero time |
| Reading.ReadingTime | engagement.js:48-80 | the returned word count is the reference count of the text; minutes and time are derived from it at the chosen rate, and time is minutes times 60000 |
| Reading.Round | engagement.js:185 | `Math.round` returns the integer within half a unit of its argument, with halves rounded up |
| Reading.RoundedMinutesBounded | engagement.js:70-71 | at a rate of at least one word per minute, the rounded minutes lie between 0 and the word count |
| Reading.FiveWordExample | engagement.js:70-71 | five words at 250 per minute give 0.02 minutes and 1200 ms, which round to 0 |
| Decimal.IntToString | engagement.js:185 | the rendering is canonical: an optional minus sign, then digits with no leading zero, and never "-0"; the sign is present exactly for negative numbers |
| Decimal.CanonicalDigits | engagement.js:185 | digits without a leading zero are the shortest digits of their own value |
| Decimal.CanonicalIsRendering | engagement.js:185 | canonical integer text is the rendering of the integer it parses to, so each integer has exactly one canonical text |
| Decimal.NatRoundTrip | engagement.js:185 | parsing the digits of a natural number gives back that number |
| Decimal.IntRoundTrip | engagement.js:185 | parsing the rendering of an integer gives back that integer |
| Decimal.IntToStringInjective | engagement.js:185 | different integers render differently |
| Timers.Make | engagement.js:87-92 | a new timer is active, holds the host's handle and has no callbacks; a zero frequency becomes 1000, and any other frequency is kept |
| Timers.Register | engagement.js:105-107 | registering appends the callback after the existing ones; handle and frequency are unchanged |
| Timers.Cancel | engagement.js:108-113 | after cancel the timer is inactive and its callbacks are kept; cancelling an inactive timer changes nothing |
| Timers.CancelIdempotent | engagement.js:108-113 | cancelling twice is the same as cancelling once |
| Timers.RunAllAppend | engagement.js:92-98 | running a list of callbacks that is the concatenation of two lists runs the first list, then the second |
| Timers.TickSingle | engagement.js:92-98 | a tick of an active timer holding one callback runs exactly that callback on the state |
| Timers.TickAfterCancel | engagement.js:108-113 | a tick of a cancelled timer leaves the state unchanged |
| Timers.TickAfterRegister | engagement.js:92-107 | on an active timer, the callback registered last runs last, after all earlier ones |
| Engagement.Initial | engagement.js:21-28 | at load, all four flags are off and both latches exist, set to 0 |
| Engagement.Label | engagement.js:185 | a label is the fixed prefix, then the shortest decimal form of the rounded minutes, which parses back to them, then " min read" |
| Engagement.LabelDetermined | engagement.js:185 | any text carrying the rounded minutes in that shape is exactly prefix + `toString(minutes)` + " min read" |
| Engagement.MediumEvent | engagement.js:182-186 | the medium event has action "Medium engagement" and category "Content engagement"; its label is "40% of page scrolled and 25% of an estimated ", then the shortest decimal form of the rounded minutes, then " min read" |
| Engagement.FullEvent | engagement.js:190-194 | the full event has action "Full engagement" and category "Content engagement"; its label is "70% of page scrolled and 50% of an estimated ", then the shortest decimal form of the rounded minutes, then " min read"; it never equals a medium event |
| Engagement.EventsDistinguishable | engagement.js:182-194 | an event's label determines the rounded minutes; a medium event never equals a full event |
| Engagement.ZeroMinuteLabel | engagement.js:182-186 | with 0 rounded minutes the medium label reads "40% of page scrolled and 25% of an estimated 0 min read" |
| Engagement.SendEvent | engagement.js:180-197 | the medium event is emitted iff its time flag and first scroll flag are set, and the same holds for the full event with the second scroll flag; medium comes first when both go; only the time flag of a sent event is cleared; scroll flags and latches are untouched; afterwards no milestone has both conditions pending |
| Engagement.OnScroll | engagement.js:214-230 | below 40 nothing changes; a band whose latch has fired is a no-op; a medium-band scroll leaves `secondScroll` and the other latch alone, and on first entry sets its latch and `firstScroll` and leaves `mediumEngagement` off (sent or not yet fired); a scroll of 70 or more does the same for the full latch, `secondScroll` and `fullEngagement`, and leaves `firstScroll` alone; scroll flags and latches never go back; a settled tracker stays settled; on a settled tracker (every reachable one), the first entry into a band emits exactly the event it completes, and the other time flag is untouched |
| Engagement.MediumTimeReached | engagement.js:235-237 | the medium time flag ends up set exactly when the first scroll flag is not; the full time flag is cleared only if the full event was due; the scroll state is unchanged; the result is settled; on a settled tracker (every reachable one), the medium event is emitted iff the first scroll flag was set, and nothing else is |
| Engagement.FullTimeReached | engagement.js:241-243 | the full time flag ends up set exactly when the second scroll flag is not; the medium time flag is cleared only if the medium event was due; the scroll state is unchanged; the result is settled; on a settled tracker (every reachable one), the full event is emitted iff the second scroll flag was set, and nothing else is |
| Tracking.Init | engagement.js:232-245 | setup from a reading-time estimate gives an empty log, the initial tracker and the estimate's rounded minutes; it starts two active timers at a quarter and at half of the estimated time (1000 ms when that is 0), each holding its own callback |
| Tracking.Load | engagement.js:171-172 | the page for an article text uses the rounded minutes of its word count at 250 words per minute, which lie between 0 and the word count; the tracker is initial, the log empty and both timers active |
| Tracking.ScrollExpected | engagement.js:214-230 | on a tracker in the state its history determines, a scroll sets exactly the band flag and latch it newly reaches; it emits that band's event exactly when the band's timer has already fired |
| Tracking.StepInv | engagement.js:199-245 | each scroll or tick keeps the page state in agreement with the inputs seen so far, covering flags, latches, timer activity and log contents |
| Tracking.RunInv | engagement.js:199-245 | after any sequence of inputs, the page state agrees with those inputs and the rounded minutes are unchanged |
| Tracking.EventsMatchConditions | engagement.js:180-245 | after any interleaving of inputs, the medium event is logged exactly once if some scroll reached [40, 70) and the medium timer ticked, and never otherwise; the same holds for the full event with scrolls of 70 or more and the full timer; no other event is logged |
| Tracking.EachEventAtMostOnce | engagement.js:180-245 | whatever the inputs, each engagement event is logged at most once |
| Tracking.EventOnlyAfterBothFlags | engagement.js:235-245 | an event in the log implies that its scroll flag is set and that its timer has fired and been cancelled |
| Tracking.RunCallback | engagement.js:235-245 | a timer callback cancels its own timer, keeping its callbacks; the other timer and the rounded minutes are unchanged; the earlier log is kept as a prefix |
| Tracking.CallbacksExtendLog | engagement.js:92-98 | running any list of callbacks only appends to the log and keeps the rounded minutes |
| Tracking.Step | engagement.js:199-245 | a scroll or tick only appends to the log and keeps the rounded minutes; a scroll leaves both timers alone; a tick of a cancelled timer changes nothing |
| Tracking.RunExtendsLog | engagement.js:180-245 | the log after any prefix of the inputs is a prefix of the final log |
| Tracking.LogOrder | engagement.js:180-245 | if the medium milestone (band and tick) completes while the full one is still incomplete, and the full one completes later, the log is the medium event followed by the full event |
| Tracking.ScrollsThenTicksInOrder | engagement.js:214-245 | scrolling to 45%, then 75%, then the quarter-time tick and the half-time tick logs the medium event, then the full event |
| Tracking.RepeatedTickIsNoOp | engagement.js:235-239 | once the medium timer has ticked, a further tick changes nothing |
| Tracking.ScrollThenQuarterTick | engagement.js:214-239 | for any estimate, a scroll to 45% followed by the quarter-time tick logs exactly one medium event |
| Tracking.FiveWordScenario | engagement.js:172-239 | for "one two three four five", the rounded minutes are 0, and a scroll to 45% followed by the quarter-time tick logs one medium event whose label ends "0 min read" |

## Left out

- The DOM measurement helpers `getDocumentLength`, `getScrollTop` and `getViewportHeight` (engagement.js:120-151) are left out. They read the browser; the model takes the scroll percentage as an integer input.
- The pixel-to-percent computation with `toFixed(0)` and `parseInt` (engagement.js:201-212) is left out. It is floating-point rounding over DOM values. The unused `windowHeight` goes with it.
- The display string `Math.ceil(minutes.toFixed(2)) + ' min read'` (engagement.js:72-75) is left out. It is float-to-string formatting.
- `getTimeStamp` (engagement.js:156-160) is left out. It is never called.
- Building the article text from the DOM children (engagement.js:163-169) is left out, and the text is an input. That includes the `\s+` replacement, and the uninitialised `let text`, which puts "undefined" in front of the text.
- Each `utag.link` call is modelled as an `Event` appended to the log. The `utag.DB` debug logs and the writes to `b[...]`, including `b['reading_time']`, are left out; they do not affect what is sent.
- Real `setInterval`/`clearInterval` scheduling is left out. Ticks are abstract inputs, and a tick delivered to a cancelled timer does nothing.
- The model does not force the quarter-time tick before the half-time tick. In the browser the shorter interval (engagement.js:232) fires first, but the model accepts any interleaving, so a full tick may precede the medium tick. The log order is therefore stated by `Tracking.LogOrder` in terms of which milestone completes first, not by timer periods.
- The top-level `try/catch` and its error string (engagement.js:7, 246-249) are left out. They are a host-environment side effect.
- The `options.wordBound` override (engagement.js:59) is left out. The model always uses the fixed four-character boundary test.
- The implicit globals `wordBound` and `scrollBucket`, and the mutation of the caller's `options` object, are left out. They have no effect on the modelled results.
- JavaScript strings are sequences of UTF-16 code units. The model uses Dafny `char`, and only the four ASCII boundary characters matter.
- Reading.WordsPerMinute: takes the rate as an integer option. Fractional, negative-zero and `NaN` rates, which JavaScript numbers allow, are not modelled.
- Decimal.IntToString: does not model the exponent notation `toString` uses for magnitudes of 10^21 and above.
- Reading.Round: works on exact reals, so the double-precision error in `words / wpm` is not modelled.
