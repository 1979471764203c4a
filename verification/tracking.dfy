/**
 The whole page: the engagement tracker, the two one-shot timers and the
 log of analytics events, driven by an arbitrary interleaving of scroll
 events and timer ticks.

 The main result, `EventsMatchConditions`, says that after any sequence of
 inputs the log holds the medium event exactly once if a scroll into the
 medium band and a medium-timer tick both occurred, and not at all
 otherwise; the same for the full event; and nothing else.
 */
module Tracking {
  import opened Optional
  import Words
  import Reading
  import Timers
  import Decimal
  import opened Engagement

  /** The two callbacks the page registers, one per timer. */
  datatype Callback = MediumCallback | FullCallback

  /** What the host can deliver: a scroll at a percentage, or a tick of
      one of the two intervals. */
  datatype Input = Scroll(percent: int) | MediumTick | FullTick

  datatype Page = Page(
    tracker: Tracker,
    mediumTimer: Timers.Timer<Callback>,
    fullTimer: Timers.Timer<Callback>,
    minutes: int,              // Math.round of the estimated minutes
    log: seq<Event>)

  /** Page setup from a reading-time estimate: the rounded minutes, then a
      quarter-time timer and a half-time timer, each with its callback.
      The interval handles are the host's. */
  function Init(estimate: Reading.Estimate, mediumHandle: nat, fullHandle: nat): (p: Page)
    ensures p.tracker == Initial() && p.log == []
    ensures p.minutes == Reading.Round(estimate.minutes)
    ensures estimate.time != 0.0 ==>
      p.mediumTimer.freq == estimate.time / 4.0 && p.fullTimer.freq == estimate.time / 2.0
    ensures estimate.time == 0.0 ==>
      p.mediumTimer.freq == Timers.DefaultFrequency && p.fullTimer.freq == Timers.DefaultFrequency
    ensures p.mediumTimer.Active() && p.mediumTimer.callbacks == [MediumCallback]
    ensures p.fullTimer.Active() && p.fullTimer.callbacks == [FullCallback]
  {
    var medium := Timers.Register(Timers.Make(estimate.time / 4.0, mediumHandle), MediumCallback);
    var full := Timers.Register(Timers.Make(estimate.time / 2.0, fullHandle), FullCallback);
    Page(Initial(), medium, full, Reading.Round(estimate.minutes), [])
  }

  /** The page for an article text: its estimate at 250 words per minute. */
  function Load(text: string, mediumHandle: nat, fullHandle: nat): (p: Page)
    ensures p.tracker == Initial() && p.log == []
    ensures p.minutes == Reading.Round(Words.WordCount(text) as real / 250.0)
    ensures 0 <= p.minutes <= Words.WordCount(text)
    ensures p.mediumTimer.Active() && p.mediumTimer.callbacks == [MediumCallback]
    ensures p.fullTimer.Active() && p.fullTimer.callbacks == [FullCallback]
  {
    Reading.RoundedMinutesBounded(Words.WordCount(text), Some(Reading.ConfiguredWordsPerMinute));
    Init(Reading.EstimateOf(Words.WordCount(text), Some(Reading.ConfiguredWordsPerMinute)),
         mediumHandle, fullHandle)
  }

  /** A timer callback: set the time flag, dispatch, cancel its own timer. */
  function RunCallback(p: Page, cb: Callback): (r: Page)
    ensures p.log <= r.log && r.minutes == p.minutes
    ensures cb == MediumCallback ==>
      && !r.mediumTimer.Active() && r.mediumTimer.callbacks == p.mediumTimer.callbacks
      && r.fullTimer == p.fullTimer
    ensures cb == FullCallback ==>
      && !r.fullTimer.Active() && r.fullTimer.callbacks == p.fullTimer.callbacks
      && r.mediumTimer == p.mediumTimer
  {
    match cb
    case MediumCallback =>
      var d := MediumTimeReached(p.tracker, p.minutes);
      p.(tracker := d.tracker, log := p.log + d.emitted, mediumTimer := Timers.Cancel(p.mediumTimer))
    case FullCallback =>
      var d := FullTimeReached(p.tracker, p.minutes);
      p.(tracker := d.tracker, log := p.log + d.emitted, fullTimer := Timers.Cancel(p.fullTimer))
  }

  /** Running any list of callbacks only appends to the log and keeps the
      rounded minutes. */
  lemma {:induction false} CallbacksExtendLog(cbs: seq<Callback>, p: Page)
    ensures p.log <= Timers.RunAll(cbs, p, RunCallback).log
    ensures Timers.RunAll(cbs, p, RunCallback).minutes == p.minutes
  {
    if |cbs| > 0 {
      CallbacksExtendLog(cbs[..|cbs| - 1], p);
    }
  }

  /** One input delivered to the page: a scroll runs the scroll handler; a
      tick runs the callbacks of its interval. */
  function Step(p: Page, input: Input): (r: Page)
    ensures p.log <= r.log && r.minutes == p.minutes
    ensures input.Scroll? ==> r.mediumTimer == p.mediumTimer && r.fullTimer == p.fullTimer
    ensures input == MediumTick && !p.mediumTimer.Active() ==> r == p
    ensures input == FullTick && !p.fullTimer.Active() ==> r == p
  {
    match input
    case Scroll(percent) =>
      var d := OnScroll(p.tracker, percent, p.minutes);
      p.(tracker := d.tracker, log := p.log + d.emitted)
    case MediumTick =>
      CallbacksExtendLog(Timers.Fired(p.mediumTimer), p);
      Timers.Tick(p.mediumTimer, p, RunCallback)
    case FullTick =>
      CallbacksExtendLog(Timers.Fired(p.fullTimer), p);
      Timers.Tick(p.fullTimer, p, RunCallback)
  }

  /** The inputs delivered in order. */
  function Run(p: Page, inputs: seq<Input>): Page {
    if |inputs| == 0 then p
    else Step(Run(p, inputs[..|inputs| - 1]), inputs[|inputs| - 1])
  }

  /** Some scroll reached the medium band. */
  ghost predicate ReachedMediumBand(inputs: seq<Input>) {
    exists percent :: Scroll(percent) in inputs && InMediumBand(percent)
  }

  /** Some scroll reached the full band. */
  ghost predicate ReachedFullBand(inputs: seq<Input>) {
    exists percent :: Scroll(percent) in inputs && InFullBand(percent)
  }

  function Count(log: seq<Event>, e: Event): nat {
    multiset(log)[e]
  }

  /** Which of the four conditions the inputs so far have met. */
  datatype Seen = Seen(mediumBand: bool, fullBand: bool, mediumTick: bool, fullTick: bool)

  ghost function SeenOf(inputs: seq<Input>): Seen {
    Seen(ReachedMediumBand(inputs), ReachedFullBand(inputs), MediumTick in inputs, FullTick in inputs)
  }

  /** The conditions met once `input` is added. */
  function After(s: Seen, input: Input): Seen {
    match input
    case Scroll(percent) =>
      s.(mediumBand := s.mediumBand || InMediumBand(percent), fullBand := s.fullBand || InFullBand(percent))
    case MediumTick => s.(mediumTick := true)
    case FullTick => s.(fullTick := true)
  }

  lemma SeenAppend(inputs: seq<Input>, input: Input)
    ensures SeenOf(inputs + [input]) == After(SeenOf(inputs), input)
  {
    if ReachedMediumBand(inputs) {
      var percent :| Scroll(percent) in inputs && InMediumBand(percent);
      assert Scroll(percent) in inputs + [input];
    }
    if ReachedFullBand(inputs) {
      var percent :| Scroll(percent) in inputs && InFullBand(percent);
      assert Scroll(percent) in inputs + [input];
    }
    if input.Scroll? {
      assert Scroll(input.percent) in inputs + [input];
    }
  }

  /** The tracker a page holds once it has met the conditions `s`. */
  function Expected(s: Seen): Tracker {
    Tracker(
      s.mediumTick && !s.mediumBand,
      s.fullTick && !s.fullBand,
      s.mediumBand,
      s.fullBand,
      map[MediumMilestone := if s.mediumBand then 1 else 0, FullMilestone := if s.fullBand then 1 else 0])
  }

  /** The log contents, as a multiset, once the conditions `s` are met. */
  function ExpectedLog(s: Seen, minutes: int): multiset<Event> {
    (if s.mediumBand && s.mediumTick then multiset{MediumEvent(minutes)} else multiset{}) +
    (if s.fullBand && s.fullTick then multiset{FullEvent(minutes)} else multiset{})
  }

  /** The page state is the one the conditions `s` determine. */
  predicate Agrees(p: Page, s: Seen) {
    && p.mediumTimer.callbacks == [MediumCallback]
    && p.fullTimer.callbacks == [FullCallback]
    && p.mediumTimer.Active() == !s.mediumTick
    && p.fullTimer.Active() == !s.fullTick
    && p.tracker == Expected(s)
    && multiset(p.log) == ExpectedLog(s, p.minutes)
  }

  /** What the page state says about the inputs seen so far. */
  ghost predicate Inv(p: Page, inputs: seq<Input>) {
    Agrees(p, SeenOf(inputs))
  }

  lemma InitInv(estimate: Reading.Estimate, mediumHandle: nat, fullHandle: nat)
    ensures Inv(Init(estimate, mediumHandle, fullHandle), [])
  {
    assert SeenOf([]) == Seen(false, false, false, false);
  }

  /** A scroll on a tracker in its expected state sets what the band's
      first entry sets and emits the event it completes, if any. */
  lemma ScrollExpected(s: Seen, percent: int, minutes: int)
    ensures OnScroll(Expected(s), percent, minutes) ==
      Dispatch(Expected(After(s, Scroll(percent))),
        if InMediumBand(percent) && !s.mediumBand && s.mediumTick then [MediumEvent(minutes)]
        else if InFullBand(percent) && !s.fullBand && s.fullTick then [FullEvent(minutes)]
        else [])
  {
    if InMediumBand(percent) && !s.mediumBand {
      MediumBandExpected(s, percent, minutes);
    } else if InFullBand(percent) && !s.fullBand {
      FullBandExpected(s, percent, minutes);
    }
  }

  lemma MediumBandExpected(s: Seen, percent: int, minutes: int)
    requires InMediumBand(percent) && !s.mediumBand
    ensures OnScroll(Expected(s), percent, minutes) ==
      Dispatch(Expected(After(s, Scroll(percent))), if s.mediumTick then [MediumEvent(minutes)] else [])
  {
    var t := Expected(s);
    var t' := t.(scrollTracker := t.scrollTracker[MediumMilestone := 1], firstScroll := true);
    assert t'.scrollTracker == Expected(After(s, Scroll(percent))).scrollTracker;
    assert OnScroll(t, percent, minutes) == SendEvent(t', minutes);
  }

  lemma FullBandExpected(s: Seen, percent: int, minutes: int)
    requires InFullBand(percent) && !s.fullBand
    ensures OnScroll(Expected(s), percent, minutes) ==
      Dispatch(Expected(After(s, Scroll(percent))), if s.fullTick then [FullEvent(minutes)] else [])
  {
    var t := Expected(s);
    var t' := t.(scrollTracker := t.scrollTracker[FullMilestone := 1], secondScroll := true);
    assert t'.scrollTracker == Expected(After(s, Scroll(percent))).scrollTracker;
    assert OnScroll(t, percent, minutes) == SendEvent(t', minutes);
  }

  lemma ScrollInv(p: Page, s: Seen, percent: int)
    requires Agrees(p, s)
    ensures Agrees(Step(p, Scroll(percent)), After(s, Scroll(percent)))
  {
    ScrollExpected(s, percent, p.minutes);
    var emitted := OnScroll(p.tracker, percent, p.minutes).emitted;
    LogAfterScroll(p, s, percent, emitted);
  }

  /** The log part of `ScrollInv`, with the emitted events as given by
      `ScrollExpected`. */
  lemma LogAfterScroll(p: Page, s: Seen, percent: int, emitted: seq<Event>)
    requires multiset(p.log) == ExpectedLog(s, p.minutes)
    requires emitted ==
      if InMediumBand(percent) && !s.mediumBand && s.mediumTick then [MediumEvent(p.minutes)]
      else if InFullBand(percent) && !s.fullBand && s.fullTick then [FullEvent(p.minutes)]
      else []
    ensures multiset(p.log + emitted) == ExpectedLog(After(s, Scroll(percent)), p.minutes)
  {
  }

  lemma MediumTickInv(p: Page, s: Seen)
    requires Agrees(p, s)
    ensures Agrees(Step(p, MediumTick), After(s, MediumTick))
  {
    if p.mediumTimer.Active() {
      Timers.TickSingle(p.mediumTimer, p, RunCallback);
      var d := MediumTimeReached(p.tracker, p.minutes);
      assert d.tracker == Expected(After(s, MediumTick));
      assert multiset(p.log + d.emitted) == multiset(p.log) + multiset(d.emitted);
    }
  }

  lemma FullTickInv(p: Page, s: Seen)
    requires Agrees(p, s)
    ensures Agrees(Step(p, FullTick), After(s, FullTick))
  {
    if p.fullTimer.Active() {
      Timers.TickSingle(p.fullTimer, p, RunCallback);
      var d := FullTimeReached(p.tracker, p.minutes);
      assert d.tracker == Expected(After(s, FullTick));
      assert multiset(p.log + d.emitted) == multiset(p.log) + multiset(d.emitted);
    }
  }

  lemma StepInv(p: Page, inputs: seq<Input>, input: Input)
    requires Inv(p, inputs)
    ensures Inv(Step(p, input), inputs + [input])
    ensures Step(p, input).minutes == p.minutes
  {
    SeenAppend(inputs, input);
    var s := SeenOf(inputs);
    match input
    case Scroll(percent) => ScrollInv(p, s, percent);
    case MediumTick =>
      MediumTickInv(p, s);
      if p.mediumTimer.Active() {
        Timers.TickSingle(p.mediumTimer, p, RunCallback);
      }
    case FullTick =>
      FullTickInv(p, s);
      if p.fullTimer.Active() {
        Timers.TickSingle(p.fullTimer, p, RunCallback);
      }
  }

  lemma {:induction false} RunInv(estimate: Reading.Estimate, mediumHandle: nat, fullHandle: nat, inputs: seq<Input>)
    ensures Inv(Run(Init(estimate, mediumHandle, fullHandle), inputs), inputs)
    ensures Run(Init(estimate, mediumHandle, fullHandle), inputs).minutes == Init(estimate, mediumHandle, fullHandle).minutes
  {
    if |inputs| == 0 {
      InitInv(estimate, mediumHandle, fullHandle);
    } else {
      var prefix := inputs[..|inputs| - 1];
      RunInv(estimate, mediumHandle, fullHandle, prefix);
      StepInv(Run(Init(estimate, mediumHandle, fullHandle), prefix), prefix, inputs[|inputs| - 1]);
      assert prefix + [inputs[|inputs| - 1]] == inputs;
    }
  }

  /** After any interleaving of scrolls and ticks, each engagement event is
      in the log once if both its scroll band and its timer were reached,
      and not at all otherwise; no other event is logged. */
  lemma EventsMatchConditions(estimate: Reading.Estimate, mediumHandle: nat, fullHandle: nat, inputs: seq<Input>)
    ensures var p := Run(Init(estimate, mediumHandle, fullHandle), inputs);
      && Count(p.log, MediumEvent(p.minutes)) ==
           (if ReachedMediumBand(inputs) && MediumTick in inputs then 1 else 0)
      && Count(p.log, FullEvent(p.minutes)) ==
           (if ReachedFullBand(inputs) && FullTick in inputs then 1 else 0)
      && (forall e :: e in p.log ==> e == MediumEvent(p.minutes) || e == FullEvent(p.minutes))
  {
    RunInv(estimate, mediumHandle, fullHandle, inputs);
    var p := Run(Init(estimate, mediumHandle, fullHandle), inputs);
    EventsDistinguishable(p.minutes, p.minutes);
    forall e | e in p.log
      ensures e == MediumEvent(p.minutes) || e == FullEvent(p.minutes)
    {
      assert e in multiset(p.log);
    }
  }

  /** Each engagement event is logged at most once, whatever the inputs. */
  lemma EachEventAtMostOnce(estimate: Reading.Estimate, mediumHandle: nat, fullHandle: nat, inputs: seq<Input>)
    ensures var p := Run(Init(estimate, mediumHandle, fullHandle), inputs);
      Count(p.log, MediumEvent(p.minutes)) <= 1 && Count(p.log, FullEvent(p.minutes)) <= 1
  {
    EventsMatchConditions(estimate, mediumHandle, fullHandle, inputs);
  }

  /** An event in the log implies that its scroll flag is set and its timer
      has fired and been cancelled. */
  lemma EventOnlyAfterBothFlags(estimate: Reading.Estimate, mediumHandle: nat, fullHandle: nat, inputs: seq<Input>)
    ensures var p := Run(Init(estimate, mediumHandle, fullHandle), inputs);
      && (MediumEvent(p.minutes) in p.log ==> p.tracker.firstScroll && !p.mediumTimer.Active())
      && (FullEvent(p.minutes) in p.log ==> p.tracker.secondScroll && !p.fullTimer.Active())
  {
    RunInv(estimate, mediumHandle, fullHandle, inputs);
    var p := Run(Init(estimate, mediumHandle, fullHandle), inputs);
    EventsDistinguishable(p.minutes, p.minutes);
    if MediumEvent(p.minutes) in p.log {
      assert MediumEvent(p.minutes) in multiset(p.log);
    }
    if FullEvent(p.minutes) in p.log {
      assert FullEvent(p.minutes) in multiset(p.log);
    }
  }

  /** The log after a prefix of the inputs is a prefix of the final log. */
  lemma {:induction false} RunExtendsLog(estimate: Reading.Estimate, mediumHandle: nat, fullHandle: nat,
                                         inputs: seq<Input>, k: nat)
    requires k <= |inputs|
    ensures Run(Init(estimate, mediumHandle, fullHandle), inputs[..k]).log
         <= Run(Init(estimate, mediumHandle, fullHandle), inputs).log
  {
    if k < |inputs| {
      var prefix := inputs[..|inputs| - 1];
      assert prefix[..k] == inputs[..k];
      RunExtendsLog(estimate, mediumHandle, fullHandle, prefix, k);
    } else {
      assert inputs[..k] == inputs;
    }
  }

  /** The log order follows the order in which the milestones complete:
      if after the first `k` inputs the medium band and the medium tick
      have both occurred but the full milestone is still incomplete, and
      the full milestone completes later, the log is the medium event
      followed by the full event. */
  lemma LogOrder(estimate: Reading.Estimate, mediumHandle: nat, fullHandle: nat, inputs: seq<Input>, k: nat)
    requires k <= |inputs|
    requires ReachedMediumBand(inputs[..k]) && MediumTick in inputs[..k]
    requires !(ReachedFullBand(inputs[..k]) && FullTick in inputs[..k])
    requires ReachedFullBand(inputs) && FullTick in inputs
    ensures var p0 := Init(estimate, mediumHandle, fullHandle);
      Run(p0, inputs).log == [MediumEvent(p0.minutes), FullEvent(p0.minutes)]
  {
    var p0 := Init(estimate, mediumHandle, fullHandle);
    var m := p0.minutes;
    RunInv(estimate, mediumHandle, fullHandle, inputs[..k]);
    RunInv(estimate, mediumHandle, fullHandle, inputs);
    RunExtendsLog(estimate, mediumHandle, fullHandle, inputs, k);
    EventsDistinguishable(m, m);
    var a := Run(p0, inputs[..k]).log;
    var b := Run(p0, inputs).log;
    assert multiset(a) == multiset{MediumEvent(m)};
    assert multiset(b) == multiset{MediumEvent(m), FullEvent(m)};
    PrefixOrder(a, b, MediumEvent(m), FullEvent(m));
  }

  /** A log that held only `x` and was then extended to hold `x` and `y`
      is `[x, y]`. */
  lemma PrefixOrder(a: seq<Event>, b: seq<Event>, x: Event, y: Event)
    requires x != y && a <= b
    requires multiset(a) == multiset{x}
    requires multiset(b) == multiset{x, y}
    ensures b == [x, y]
  {
    assert |a| == 1 && a[0] in multiset(a);
    assert |b| == 2 && b[0] == a[0];
    assert b == [b[0], b[1]];
    assert multiset(b)[y] == 1;
  }

  /** Scrolling past 40%, then past 70%, with the quarter-time tick before
      the half-time tick, logs the medium event and then the full event. */
  lemma ScrollsThenTicksInOrder(estimate: Reading.Estimate, mediumHandle: nat, fullHandle: nat)
    ensures var p0 := Init(estimate, mediumHandle, fullHandle);
      Run(p0, [Scroll(45), Scroll(75), MediumTick, FullTick]).log == [MediumEvent(p0.minutes), FullEvent(p0.minutes)]
  {
    var inputs := [Scroll(45), Scroll(75), MediumTick, FullTick];
    assert inputs[..3] == [Scroll(45), Scroll(75), MediumTick];
    assert Scroll(45) in inputs[..3] && InMediumBand(45);
    assert Scroll(75) in inputs && InFullBand(75);
    assert FullTick !in inputs[..3];
    LogOrder(estimate, mediumHandle, fullHandle, inputs, 3);
  }

  /** A tick of a timer that has already fired changes nothing. */
  lemma RepeatedTickIsNoOp(estimate: Reading.Estimate, mediumHandle: nat, fullHandle: nat, inputs: seq<Input>)
    requires MediumTick in inputs
    ensures var p := Run(Init(estimate, mediumHandle, fullHandle), inputs);
      Step(p, MediumTick) == p
  {
    RunInv(estimate, mediumHandle, fullHandle, inputs);
    var p := Run(Init(estimate, mediumHandle, fullHandle), inputs);
    assert Timers.Fired(p.mediumTimer) == [];
  }

  /** For any article, a scroll to 45% followed by the quarter-time tick
      logs exactly one medium event. */
  lemma ScrollThenQuarterTick(estimate: Reading.Estimate, mediumHandle: nat, fullHandle: nat)
    ensures var p0 := Init(estimate, mediumHandle, fullHandle);
      Run(p0, [Scroll(45), MediumTick]).log == [MediumEvent(p0.minutes)]
  {
    var p0 := Init(estimate, mediumHandle, fullHandle);
    var inputs := [Scroll(45), MediumTick];
    assert inputs[..1] == [Scroll(45)];
    assert [Scroll(45)][..0] == [];
    var p1 := Step(p0, Scroll(45));
    assert Run(p0, [Scroll(45)]) == p1;
    assert p1.log == [] && p1.tracker.firstScroll;
    Timers.TickSingle(p1.mediumTimer, p1, RunCallback);
  }

  /** Five words at 250 per minute round to 0 minutes, so the medium event
      logged by a scroll to 45% and the quarter-time tick reads
      "0 min read". */
  lemma FiveWordScenario(text: string, mediumHandle: nat, fullHandle: nat)
    requires text == "one two three four five"
    ensures Load(text, mediumHandle, fullHandle).minutes == 0
    ensures Run(Load(text, mediumHandle, fullHandle), [Scroll(45), MediumTick]).log == [MediumEvent(0)]
    ensures MediumEvent(0).eventLabel == "40% of page scrolled and 25% of an estimated 0 min read"
  {
    Reading.FiveWordExample();
    var estimate := Reading.EstimateOf(5, Some(Reading.ConfiguredWordsPerMinute));
    assert Load(text, mediumHandle, fullHandle) == Init(estimate, mediumHandle, fullHandle);
    assert Init(estimate, mediumHandle, fullHandle).minutes == 0;
    ScrollThenQuarterTick(estimate, mediumHandle, fullHandle);
    ZeroMinuteLabel();
  }
}
