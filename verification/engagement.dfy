/**
 The engagement tracker: two time flags, two scroll flags and the scroll
 latch map, the dispatcher `sendEvent` and the scroll handler's band logic.
 Analytics calls become the list of events a step emits.
 */
module Engagement {
  import Decimal

  /** Scroll milestones, in percent of the page. */
  const MediumMilestone: int := 40
  const FullMilestone: int := 70

  const Category: string := "Content engagement"

  datatype Tracker = Tracker(
    mediumEngagement: bool,   // the medium-time timer has fired
    fullEngagement: bool,     // the full-time timer has fired
    firstScroll: bool,        // the medium scroll band has been reached
    secondScroll: bool,       // the full scroll band has been reached
    scrollTracker: map<int, int>)

  /** The state at page load: every flag off, both latches at 0. */
  function Initial(): (t: Tracker)
    ensures !t.mediumEngagement && !t.fullEngagement && !t.firstScroll && !t.secondScroll
    ensures Unlatched(t, MediumMilestone) && Unlatched(t, FullMilestone)
    ensures t.scrollTracker.Keys == {MediumMilestone, FullMilestone}
  {
    Tracker(false, false, false, false, map[MediumMilestone := 0, FullMilestone := 0])
  }

  /** `scrollTracker[m] === 0`: the latch for `m` exists and has not fired. */
  predicate Unlatched(t: Tracker, m: int) {
    m in t.scrollTracker && t.scrollTracker[m] == 0
  }

  /** The latch for `m` has fired. */
  predicate Latched(t: Tracker, m: int) {
    m in t.scrollTracker && t.scrollTracker[m] == 1
  }

  /** One analytics submission. */
  datatype Event = Event(eventAction: string, eventCategory: string, eventLabel: string)

  const MediumLabelPrefix: string := "40% of page scrolled and 25% of an estimated "
  const FullLabelPrefix: string := "70% of page scrolled and 50% of an estimated "
  const LabelSuffix: string := " min read"

  /** `text` is `prefix`, then an integer in its shortest form that parses
      back to `minutes`, then " min read". */
  predicate LabelCarries(text: string, prefix: string, minutes: int) {
    && |text| > |prefix| + |LabelSuffix|
    && text[..|prefix|] == prefix
    && text[|text| - |LabelSuffix|..] == LabelSuffix
    && Decimal.IsCanonicalInteger(text[|prefix|..|text| - |LabelSuffix|])
    && Decimal.ParseInt(text[|prefix|..|text| - |LabelSuffix|]) == minutes
  }

  /** The label for a milestone: the rounded minutes rendered with
      `toString` between the fixed prefix and " min read". */
  function Label(prefix: string, minutes: int): (text: string)
    ensures LabelCarries(text, prefix, minutes)
  {
    var digits := Decimal.IntToString(minutes);
    var text := prefix + digits + LabelSuffix;
    Decimal.IntRoundTrip(minutes);
    assert text[..|prefix|] == prefix;
    assert text[|prefix|..|text| - |LabelSuffix|] == digits;
    assert text[|text| - |LabelSuffix|..] == LabelSuffix;
    text
  }

  /** A label carrying `minutes` is exactly the one `Label` builds. */
  lemma LabelDetermined(text: string, prefix: string, minutes: int)
    requires LabelCarries(text, prefix, minutes)
    ensures text == prefix + Decimal.IntToString(minutes) + LabelSuffix
  {
    var middle := text[|prefix|..|text| - |LabelSuffix|];
    Decimal.CanonicalIsRendering(middle);
    assert text == text[..|prefix|] + middle + text[|text| - |LabelSuffix|..];
  }

  /** The medium engagement event; `minutes` is the rounded reading time. */
  function MediumEvent(minutes: int): (e: Event)
    ensures e.eventAction == "Medium engagement" && e.eventCategory == Category
    ensures LabelCarries(e.eventLabel, MediumLabelPrefix, minutes)
  {
    Event("Medium engagement", Category, Label(MediumLabelPrefix, minutes))
  }

  /** The full engagement event; `minutes` is the rounded reading time. */
  function FullEvent(minutes: int): (e: Event)
    ensures e.eventAction == "Full engagement" && e.eventCategory == Category
    ensures LabelCarries(e.eventLabel, FullLabelPrefix, minutes)
    ensures e != MediumEvent(minutes)
  {
    Event("Full engagement", Category, Label(FullLabelPrefix, minutes))
  }

  /** The label of each event determines the rounded minutes, and the two
      kinds of event never coincide. */
  lemma EventsDistinguishable(a: int, b: int)
    ensures MediumEvent(a) == MediumEvent(b) <==> a == b
    ensures FullEvent(a) == FullEvent(b) <==> a == b
    ensures MediumEvent(a) != FullEvent(b)
  {
    assert MediumEvent(a).eventAction[0] == 'M';
    assert FullEvent(b).eventAction[0] == 'F';
  }

  /** A reading time that rounds to 0 gives the label "… 0 min read". */
  lemma ZeroMinuteLabel()
    ensures MediumEvent(0).eventLabel == "40% of page scrolled and 25% of an estimated 0 min read"
  {
    assert Decimal.IntToString(0) == "0";
  }

  /** The tracker after a step and the events that step emitted, in order. */
  datatype Dispatch = Dispatch(tracker: Tracker, emitted: seq<Event>)

  /** Neither milestone has both of its conditions pending. */
  predicate Settled(t: Tracker) {
    !(t.mediumEngagement && t.firstScroll) && !(t.fullEngagement && t.secondScroll)
  }

  /** `sendEvent()`: emits each event whose time flag and scroll flag are
      both set, medium first, and clears that event's time flag only. */
  function SendEvent(t: Tracker, minutes: int): (d: Dispatch)
    ensures MediumEvent(minutes) in d.emitted <==> t.mediumEngagement && t.firstScroll
    ensures FullEvent(minutes) in d.emitted <==> t.fullEngagement && t.secondScroll
    ensures forall e :: e in d.emitted ==> e == MediumEvent(minutes) || e == FullEvent(minutes)
    ensures |d.emitted| == (if t.mediumEngagement && t.firstScroll then 1 else 0)
                         + (if t.fullEngagement && t.secondScroll then 1 else 0)
    ensures |d.emitted| == 2 ==> d.emitted == [MediumEvent(minutes), FullEvent(minutes)]
    ensures Settled(d.tracker)
    ensures d.tracker.mediumEngagement == (t.mediumEngagement && !t.firstScroll)
    ensures d.tracker.fullEngagement == (t.fullEngagement && !t.secondScroll)
    ensures d.tracker.firstScroll == t.firstScroll && d.tracker.secondScroll == t.secondScroll
    ensures d.tracker.scrollTracker == t.scrollTracker
    ensures Settled(t) ==> d == Dispatch(t, [])
  {
    EventsDistinguishable(minutes, minutes);
    var medium := t.mediumEngagement && t.firstScroll;
    var t1 := if medium then t.(mediumEngagement := false) else t;
    var out1 := if medium then [MediumEvent(minutes)] else [];
    var full := t1.fullEngagement && t1.secondScroll;
    var t2 := if full then t1.(fullEngagement := false) else t1;
    var out2 := if full then out1 + [FullEvent(minutes)] else out1;
    Dispatch(t2, out2)
  }

  /** The medium scroll band, `[40, 70)`. */
  predicate InMediumBand(percent: int) {
    MediumMilestone <= percent < FullMilestone
  }

  /** The full scroll band, `[70, ∞)`. */
  predicate InFullBand(percent: int) {
    percent >= FullMilestone
  }

  /** The body of `window.onscroll` after the percentage is known: the first
      entry into a band sets its latch and scroll flag, then dispatches. */
  function OnScroll(t: Tracker, percent: int, minutes: int): (d: Dispatch)
    // below 40 nothing happens
    ensures percent < MediumMilestone ==> d == Dispatch(t, [])
    // a band whose latch has fired is a no-op
    ensures InMediumBand(percent) && !Unlatched(t, MediumMilestone) ==> d == Dispatch(t, [])
    ensures InFullBand(percent) && !Unlatched(t, FullMilestone) ==> d == Dispatch(t, [])
    // the medium band touches only its latch and the first scroll flag
    ensures InMediumBand(percent) ==>
      && d.tracker.secondScroll == t.secondScroll
      && (Settled(t) ==> d.tracker.fullEngagement == t.fullEngagement)
      && (forall m :: m in t.scrollTracker && m != MediumMilestone ==>
            m in d.tracker.scrollTracker && d.tracker.scrollTracker[m] == t.scrollTracker[m])
      && (Unlatched(t, MediumMilestone) ==> d.tracker.firstScroll && Latched(d.tracker, MediumMilestone))
    // the full band touches only its latch and the second scroll flag
    ensures InFullBand(percent) ==>
      && d.tracker.firstScroll == t.firstScroll
      && (Settled(t) ==> d.tracker.mediumEngagement == t.mediumEngagement)
      && (forall m :: m in t.scrollTracker && m != FullMilestone ==>
            m in d.tracker.scrollTracker && d.tracker.scrollTracker[m] == t.scrollTracker[m])
      && (Unlatched(t, FullMilestone) ==> d.tracker.secondScroll && Latched(d.tracker, FullMilestone))
    // flags and latches never go back
    ensures t.firstScroll ==> d.tracker.firstScroll
    ensures t.secondScroll ==> d.tracker.secondScroll
    ensures forall m :: Latched(t, m) ==> Latched(d.tracker, m)
    ensures d.tracker.scrollTracker.Keys == t.scrollTracker.Keys
    // entering a band leaves its time flag off: sent, or not yet fired
    ensures InMediumBand(percent) && Unlatched(t, MediumMilestone) ==> !d.tracker.mediumEngagement
    ensures InFullBand(percent) && Unlatched(t, FullMilestone) ==> !d.tracker.fullEngagement
    ensures Settled(t) ==> Settled(d.tracker)
    // the scroll emits exactly what the newly set flag completes
    ensures InMediumBand(percent) && Unlatched(t, MediumMilestone) && Settled(t) ==>
      d.emitted == (if t.mediumEngagement then [MediumEvent(minutes)] else [])
    ensures InFullBand(percent) && Unlatched(t, FullMilestone) && Settled(t) ==>
      d.emitted == (if t.fullEngagement then [FullEvent(minutes)] else [])
  {
    if InMediumBand(percent) then
      if Unlatched(t, MediumMilestone) then
        SendEvent(t.(scrollTracker := t.scrollTracker[MediumMilestone := 1], firstScroll := true), minutes)
      else Dispatch(t, [])
    else if InFullBand(percent) then
      if Unlatched(t, FullMilestone) then
        SendEvent(t.(scrollTracker := t.scrollTracker[FullMilestone := 1], secondScroll := true), minutes)
      else Dispatch(t, [])
    else Dispatch(t, [])
  }

  /** The tracker part of a timer callback: set the time flag of the
      milestone, then dispatch. (Cancelling the timer is the caller's.) */
  function MediumTimeReached(t: Tracker, minutes: int): (d: Dispatch)
    ensures d.tracker.firstScroll == t.firstScroll && d.tracker.secondScroll == t.secondScroll
    ensures d.tracker.scrollTracker == t.scrollTracker
    ensures d.tracker.mediumEngagement == !t.firstScroll
    ensures d.tracker.fullEngagement == (t.fullEngagement && !t.secondScroll)
    ensures Settled(d.tracker)
    ensures Settled(t) ==> d.emitted == (if t.firstScroll then [MediumEvent(minutes)] else [])
  {
    SendEvent(t.(mediumEngagement := true), minutes)
  }

  function FullTimeReached(t: Tracker, minutes: int): (d: Dispatch)
    ensures d.tracker.firstScroll == t.firstScroll && d.tracker.secondScroll == t.secondScroll
    ensures d.tracker.scrollTracker == t.scrollTracker
    ensures d.tracker.fullEngagement == !t.secondScroll
    ensures d.tracker.mediumEngagement == (t.mediumEngagement && !t.firstScroll)
    ensures Settled(d.tracker)
    ensures Settled(t) ==> d.emitted == (if t.secondScroll then [FullEvent(minutes)] else [])
  {
    SendEvent(t.(fullEngagement := true), minutes)
  }
}
