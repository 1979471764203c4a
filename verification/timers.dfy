/**
 The cancellable repeating timer built by `makeGlobalTimer`.

 The host's interval scheduling is abstracted away: a tick is an input, and
 the interval handle is a parameter of `Make`. A timer holds its callbacks in
 registration order and its handle, which becomes `None` (JavaScript `null`)
 on cancel. A tick runs the callbacks, in order, only while the handle is set.
 */
module Timers {
  import opened Optional

  /** Interval used when the requested frequency is zero (`freq || 1000`). */
  const DefaultFrequency: real := 1000.0

  datatype Timer<C> = Timer(freq: real, callbacks: seq<C>, id: Option<nat>) {
    predicate Active() {
      id.Some?
    }
  }

  /** `makeGlobalTimer(freq)`: an active timer with no callbacks, whose
      interval handle is the one the host returned. */
  function Make<C>(freq: real, handle: nat): (t: Timer<C>)
    ensures t.Active() && t.id == Some(handle)
    ensures t.callbacks == []
    ensures freq != 0.0 ==> t.freq == freq
    ensures freq == 0.0 ==> t.freq == DefaultFrequency
  {
    Timer(if freq != 0.0 then freq else DefaultFrequency, [], Some(handle))
  }

  /** `registerCallback(cb)`: appends `cb`; nothing else changes. */
  function Register<C>(t: Timer<C>, cb: C): (r: Timer<C>)
    ensures |r.callbacks| == |t.callbacks| + 1
    ensures r.callbacks[..|t.callbacks|] == t.callbacks
    ensures r.callbacks[|t.callbacks|] == cb
    ensures r.id == t.id && r.freq == t.freq
  {
    t.(callbacks := t.callbacks + [cb])
  }

  /** `cancel()`: clears the handle if it is set; otherwise does nothing. */
  function Cancel<C>(t: Timer<C>): (r: Timer<C>)
    ensures !r.Active()
    ensures r.callbacks == t.callbacks && r.freq == t.freq
    ensures !t.Active() ==> r == t
  {
    if t.id.Some? then t.(id := None) else t
  }

  /** Cancelling twice is the same as cancelling once. */
  lemma CancelIdempotent<C>(t: Timer<C>)
    ensures Cancel(Cancel(t)) == Cancel(t)
  {
  }

  /** Runs `cbs` in order on the state `s`; `run(s, c)` is the effect of
      calling callback `c` in state `s`. */
  function RunAll<S, C>(cbs: seq<C>, s: S, run: (S, C) -> S): S {
    if |cbs| == 0 then s
    else run(RunAll(cbs[..|cbs| - 1], s, run), cbs[|cbs| - 1])
  }

  /** Running `a + b` runs all of `a`, then all of `b`. */
  lemma {:induction false} RunAllAppend<S, C>(a: seq<C>, b: seq<C>, s: S, run: (S, C) -> S)
    ensures RunAll(a + b, s, run) == RunAll(b, RunAll(a, s, run), run)
  {
    if |b| > 0 {
      var b' := b[..|b| - 1];
      assert (a + b)[..|a + b| - 1] == a + b';
      RunAllAppend(a, b', s, run);
    } else {
      assert a + b == a;
    }
  }

  /** The callbacks one tick runs: all of them while active, none after
      cancel. */
  function Fired<C>(t: Timer<C>): seq<C> {
    if t.Active() then t.callbacks else []
  }

  /** One tick of the interval. */
  function Tick<S, C>(t: Timer<C>, s: S, run: (S, C) -> S): S {
    RunAll(Fired(t), s, run)
  }

  /** A cancelled timer's tick leaves the state as it was. */
  lemma TickAfterCancel<S, C>(t: Timer<C>, s: S, run: (S, C) -> S)
    ensures Tick(Cancel(t), s, run) == s
  {
  }

  /** A tick of an active timer runs the earlier callbacks first and the
      last registered one last. */
  lemma TickAfterRegister<S, C>(t: Timer<C>, cb: C, s: S, run: (S, C) -> S)
    requires t.Active()
    ensures Tick(Register(t, cb), s, run) == run(Tick(t, s, run), cb)
  {
    RunAllAppend(t.callbacks, [cb], s, run);
  }

  /** A tick of an active timer with one callback runs exactly that one. */
  lemma TickSingle<S, C>(t: Timer<C>, s: S, run: (S, C) -> S)
    requires t.Active() && |t.callbacks| == 1
    ensures Tick(t, s, run) == run(s, t.callbacks[0])
  {
    var cbs := Fired(t);
    assert cbs[..0] == [];
    assert RunAll(cbs[..0], s, run) == s;
  }
}
