/** The stateful hooks of src/hooks.ts: the two frame-delta trackers that turn
    cumulative gesture readings into per-event deltas, the logical/animated
    value cell, and the restartable timer. Each hook is an object whose
    methods overwrite its fields, as the hook's refs are overwritten. */
module Hooks {

  import opened Types

  // ---------------------------------------------------------------------------
  // Specification of the pan tracker: the deltas it emits for a run of readings

  /** The reading the pan tracker compares the next one with. */
  function LatestReading(baseline: Vec, readings: seq<Vec>): Vec
  {
    if readings == [] then baseline else readings[|readings| - 1]
  }

  /** The deltas a pan tracker reset to `baseline` emits for `readings`:
      each reading minus the one before it (the first minus the baseline). */
  function PanFrames(baseline: Vec, readings: seq<Vec>): (frames: seq<Vec>)
    ensures |frames| == |readings|
  {
    if readings == [] then []
    else
      var before := readings[..|readings| - 1];
      PanFrames(baseline, before) + [readings[|readings| - 1].Minus(LatestReading(baseline, before))]
  }

  function SumFrames(frames: seq<Vec>): Vec
  {
    if frames == [] then Vec(0.0, 0.0)
    else SumFrames(frames[..|frames| - 1]).Plus(frames[|frames| - 1])
  }

  /** No double counting: the deltas since a reset add up to the latest
      reading minus the baseline. */
  lemma {:induction false} PanFramesTelescope(baseline: Vec, readings: seq<Vec>)
    ensures SumFrames(PanFrames(baseline, readings)) == LatestReading(baseline, readings).Minus(baseline)
  {
    if readings != [] {
      var before := readings[..|readings| - 1];
      var frames := PanFrames(baseline, readings);
      assert frames[..|frames| - 1] == PanFrames(baseline, before);
      PanFramesTelescope(baseline, before);
    }
  }

  // ---------------------------------------------------------------------------
  // Specification of the scale tracker: the ratios it emits for a run of readings

  function LatestScale(readings: seq<real>): real
  {
    if readings == [] then 1.0 else readings[|readings| - 1]
  }

  ghost predicate NonZero(readings: seq<real>)
  {
    forall k :: 0 <= k < |readings| ==> readings[k] != 0.0
  }

  /** The ratios a scale tracker reset to 1 emits for `readings`: each reading
      over the one before it (the first over 1). */
  function ScaleFrames(readings: seq<real>): (frames: seq<real>)
    requires NonZero(readings)
    ensures |frames| == |readings|
  {
    if readings == [] then []
    else
      var before := readings[..|readings| - 1];
      ScaleFrames(before) + [readings[|readings| - 1] / LatestScale(before)]
  }

  function ProductFrames(frames: seq<real>): real
  {
    if frames == [] then 1.0
    else ProductFrames(frames[..|frames| - 1]) * frames[|frames| - 1]
  }

  /** The ratios since a reset multiply up to the latest reading. */
  lemma {:induction false} ScaleFramesTelescope(readings: seq<real>)
    requires NonZero(readings)
    ensures ProductFrames(ScaleFrames(readings)) == LatestScale(readings)
  {
    if readings != [] {
      var before := readings[..|readings| - 1];
      var frames := ScaleFrames(readings);
      assert frames[..|frames| - 1] == ScaleFrames(before);
      ScaleFramesTelescope(before);
      var p := LatestScale(before);
      assert p != 0.0;
      calc {
        ProductFrames(frames);
        ProductFrames(ScaleFrames(before)) * (readings[|readings| - 1] / p);
        p * (readings[|readings| - 1] / p);
        readings[|readings| - 1];
      }
    }
  }

  // ---------------------------------------------------------------------------

  /** `useScaleFrame`: `update` returns the reading over the previous one and
      keeps the reading; `reset` puts the previous reading back to 1. */
  class ScaleFrame {
    var diffThisFrame: real
    var prevValue: real
    /** The readings since the last reset. */
    ghost var Readings: seq<real>

    ghost predicate Valid()
      reads this
    {
      NonZero(Readings) && prevValue == LatestScale(Readings)
    }

    constructor ()
      ensures Valid() && Readings == []
      ensures prevValue == 1.0 && diffThisFrame == 1.0
    {
      diffThisFrame, prevValue := 1.0, 1.0;
      Readings := [];
    }

    method Reset()
      modifies this
      ensures Valid() && Readings == []
      ensures prevValue == 1.0 && diffThisFrame == old(diffThisFrame)
    {
      prevValue := 1.0;
      Readings := [];
    }

    method Update(scale: real) returns (scaleFrame: real)
      requires Valid() && scale != 0.0
      modifies this
      ensures Valid() && Readings == old(Readings) + [scale]
      ensures scaleFrame * old(prevValue) == scale
      ensures scaleFrame == ScaleFrames(Readings)[|Readings| - 1]
      ensures prevValue == scale && diffThisFrame == scaleFrame
    {
      diffThisFrame := scale / prevValue;
      prevValue := scale;
      Readings := Readings + [scale];
      assert Readings[..|Readings| - 1] == old(Readings);
      scaleFrame := diffThisFrame;
    }
  }

  /** Missing or zero fields of a partial `{x, y}` read as 0 (`values?.x || 0`). */
  function OrZero(v: Option<real>): real
  {
    match v
    case Some(x) => x
    case None => 0.0
  }

  /** `usePanTranslationFrame`: `update` returns the reading minus the previous
      reading and keeps the reading; `reset` sets the previous reading. */
  class PanTranslationFrame {
    var diffThisFrame: Vec
    var prevValue: Vec
    /** The previous reading right after the last reset. */
    ghost var Baseline: Vec
    /** The readings since the last reset. */
    ghost var Readings: seq<Vec>

    ghost predicate Valid()
      reads this
    {
      prevValue == LatestReading(Baseline, Readings)
    }

    constructor (initialX: Option<real>, initialY: Option<real>)
      ensures Valid() && Readings == []
      ensures prevValue == Vec(OrZero(initialX), OrZero(initialY)) && Baseline == prevValue
      ensures diffThisFrame == Vec(0.0, 0.0)
    {
      diffThisFrame := Vec(0.0, 0.0);
      prevValue := Vec(OrZero(initialX), OrZero(initialY));
      Baseline := prevValue;
      Readings := [];
    }

    method Reset(x: Option<real>, y: Option<real>)
      modifies this
      ensures Valid() && Readings == []
      ensures prevValue == Vec(OrZero(x), OrZero(y)) && Baseline == prevValue
      ensures diffThisFrame == old(diffThisFrame)
    {
      prevValue := Vec(OrZero(x), OrZero(y));
      Baseline := prevValue;
      Readings := [];
    }

    method Update(translation: Vec) returns (frames: Vec)
      requires Valid()
      modifies this
      ensures Valid() && Readings == old(Readings) + [translation] && Baseline == old(Baseline)
      ensures frames == translation.Minus(old(prevValue))
      ensures frames == PanFrames(Baseline, Readings)[|Readings| - 1]
      ensures prevValue == translation && diffThisFrame == frames
    {
      diffThisFrame := translation.Minus(prevValue);
      prevValue := translation;
      Readings := Readings + [translation];
      assert Readings[..|Readings| - 1] == old(Readings);
      frames := diffThisFrame;
    }
  }

  /** `useSharedValue`: a logical value read by the geometry and an animated
      value shown on screen, each with its own setter. */
  class SharedValue {
    var value: real
    var animatedValue: real

    constructor (i: real)
      ensures value == i && animatedValue == i
    {
      value, animatedValue := i, i;
    }

    method SetAnimatedValue(n: real)
      modifies this
      ensures animatedValue == n && value == old(value)
    {
      animatedValue := n;
    }

    method SetValue(n: real)
      modifies this
      ensures value == n && animatedValue == old(animatedValue)
    {
      value := n;
    }
  }

  /** `useTimeout`: a timer that remembers the last function it was started
      with. The runtime's pending timeouts are `scheduled` (handle to
      callback); `nextHandle` is the handle the runtime gives out next. */
  class Timeout<T> {
    const delay: nat
    var timerId: Option<nat>
    var func: Option<T>
    var scheduled: map<nat, T>
    var nextHandle: nat

    ghost predicate Valid()
      reads this
    {
      (forall h :: h in scheduled ==> h < nextHandle)
      && (timerId.Some? ==> timerId.value < nextHandle)
    }

    constructor (delay: nat)
      ensures Valid() && this.delay == delay
      ensures timerId == None && func == None && scheduled == map[]
    {
      this.delay := delay;
      timerId, func := None, None;
      scheduled, nextHandle := map[], 0;
    }

    /** Whether the last timer started is still due to fire. */
    predicate Pending()
      reads this
    {
      timerId.Some? && timerId.value in scheduled
    }

    method StartTimer(fn: T)
      requires Valid()
      modifies this
      ensures Valid() && func == Some(fn) && Pending()
      ensures timerId.value !in old(scheduled)
      ensures old(timerId).Some? ==> timerId.value != old(timerId).value
      ensures scheduled == old(scheduled)[timerId.value := fn]
    {
      func := Some(fn);
      timerId := Some(nextHandle);
      scheduled := scheduled[nextHandle := fn];
      nextHandle := nextHandle + 1;
    }

    method ClearTimer()
      requires Valid()
      modifies this
      ensures Valid() && !Pending()
      ensures timerId == old(timerId) && func == old(func)
      ensures scheduled == if timerId.Some? then old(scheduled) - {timerId.value} else old(scheduled)
    {
      if timerId.Some? {
        scheduled := scheduled - {timerId.value};
      }
    }

    /** Cancels the pending timer, then starts it again with the function it
        was last started with, if there is one. */
    method ResetTimer()
      requires Valid()
      modifies this
      ensures Valid() && func == old(func)
      ensures old(timerId).Some? ==> old(timerId).value !in scheduled
      ensures Pending() <==> func.Some?
      ensures func.Some? ==> scheduled[timerId.value] == func.value
      ensures func.None? ==> timerId == old(timerId)
    {
      ClearTimer();
      if func.Some? {
        StartTimer(func.value);
      }
    }

    /** The runtime fires timer `handle`: a pending one hands back its callback
        and is no longer pending. */
    method Expire(handle: nat) returns (callback: Option<T>)
      requires Valid()
      modifies this
      ensures Valid() && timerId == old(timerId) && func == old(func)
      ensures callback == if handle in old(scheduled) then Some(old(scheduled)[handle]) else None
      ensures scheduled == old(scheduled) - {handle}
    {
      if handle in scheduled {
        callback := Some(scheduled[handle]);
      } else {
        callback := None;
      }
      scheduled := scheduled - {handle};
    }

    /** Unmounting, as written: the effect's body evaluates the arrow function
        `() => clearTimer()` and discards it, so no cleanup is registered and
        nothing happens to the timer. */
    method Unmount()
      modifies this
      ensures timerId == old(timerId) && func == old(func) && scheduled == old(scheduled)
    {
    }

    /** Unmounting as evidently intended: the effect returns the cleanup, which
        cancels the pending timer. */
    method UnmountWithCleanup()
      requires Valid()
      modifies this
      ensures Valid() && !Pending()
    {
      ClearTimer();
    }
  }
}

/** The cases of the hooks' tests, and the timer left pending at unmount. */
module HooksTests {

  import opened Types
  import opened Hooks

  /** A timer started and then unmounted is still due to fire. */
  method UnmountLeavesTimerPending() returns (pending: bool)
    ensures pending
  {
    var t := new Timeout<bool>(SettleDelay);
    t.StartTimer(true);
    t.Unmount();
    pending := t.Pending();
  }

  /** With the cleanup returned from the effect, unmounting cancels it. */
  method UnmountWithCleanupCancelsTimer() returns (pending: bool)
    ensures !pending
  {
    var t := new Timeout<bool>(SettleDelay);
    t.StartTimer(true);
    t.UnmountWithCleanup();
    pending := t.Pending();
  }

  /** The scale-tracker test: readings 1, 2, 4 give 1, 2, 2; after a reset a
      reading of 1 gives 1. */
  method ScaleFrameTestCase() returns (f1: real, f2: real, f3: real, f4: real)
    ensures f1 == 1.0 && f2 == 2.0 && f3 == 2.0 && f4 == 1.0
  {
    var tracker := new ScaleFrame();
    f1 := tracker.Update(1.0);
    f2 := tracker.Update(2.0);
    f3 := tracker.Update(4.0);
    tracker.Reset();
    f4 := tracker.Update(1.0);
  }

  /** The pan-tracker test: a tracker made at (0, 0) gives deltas of 1 on
      both axes for readings 1, 2 and 3, and again 1 for a reading of 1 after
      a reset to (0, 0). */
  method PanTranslationFrameTestCase() returns (d1: Vec, d2: Vec, d3: Vec, d4: Vec)
    ensures d1 == Vec(1.0, 1.0) && d2 == Vec(1.0, 1.0) && d3 == Vec(1.0, 1.0) && d4 == Vec(1.0, 1.0)
  {
    var tracker := new PanTranslationFrame(Some(0.0), Some(0.0));
    d1, d2, d3, d4 := PanTrackerSteps(tracker);
  }

  /** The test's readings and reset, for any tracker whose previous reading
      is (0, 0). */
  method PanTrackerSteps(tracker: PanTranslationFrame) returns (d1: Vec, d2: Vec, d3: Vec, d4: Vec)
    requires tracker.Valid() && tracker.prevValue == Vec(0.0, 0.0)
    modifies tracker
    ensures d1 == Vec(1.0, 1.0) && d2 == Vec(1.0, 1.0) && d3 == Vec(1.0, 1.0) && d4 == Vec(1.0, 1.0)
  {
    d1 := tracker.Update(Vec(1.0, 1.0));
    d2 := tracker.Update(Vec(2.0, 2.0));
    d3 := tracker.Update(Vec(3.0, 3.0));
    tracker.Reset(Some(0.0), Some(0.0));
    d4 := tracker.Update(Vec(1.0, 1.0));
  }

  /** The shared-value test: a cell made with 0 reads 0 on both sides, and
      after both setters with 1 reads 1 on both sides. */
  method SharedValueTestCase() returns (before: Vec, after: Vec)
    ensures before == Vec(0.0, 0.0) && after == Vec(1.0, 1.0)
  {
    var cell := new SharedValue(0.0);
    before := Vec(cell.value, cell.animatedValue);
    cell.SetValue(1.0);
    cell.SetAnimatedValue(1.0);
    after := Vec(cell.value, cell.animatedValue);
  }
}
