/**
 How many frames a rate needs in flight, and which rate a number of frames sustains. Rates and
 durations are exact reals here; the two directions are adjoint.
 */
module Sizing {
  import opened Basics

  type Rate = r: real | r > 0.0 witness 1.0

  type Duration = d: real | d >= 0.0 witness 0.0

  datatype TransferModel = TransferModel(objectRate: Rate, dataTtfb: Duration, urlLatency: Duration, framesPerObject: nat)

  datatype WindowSizing = WindowSizing(readyDataFrames: nat, urlPrefetchFrames: nat)

  datatype SizingError = ZeroCapacity | ZeroFramesPerObject | FrameCountOverflow

  function Ceil(x: real): (n: int)
    ensures x <= n as real < x + 1.0
  {
    if x.Floor as real == x then x.Floor else x.Floor + 1
  }

  /** An integer bounds the ceiling exactly if it bounds the number. */
  lemma CeilBound(x: real, c: int)
    ensures Ceil(x) <= c <==> x <= c as real
  {
    if x <= c as real { assert (Ceil(x) - 1) as real < c as real; }
  }

  function MaxReal(a: real, b: real): real {
    if a >= b then a else b
  }

  function MinRate(a: Rate, b: Rate): Rate {
    if a <= b then a else b
  }

  function Frames(value: real): Result<nat, SizingError>
    requires value >= 0.0
  {
    if Ceil(value) > U64_MAX then Err(FrameCountOverflow) else Ok(Ceil(value))
  }

  /** Time to fetch a whole object. */
  function ObjectTime(m: TransferModel): real {
    m.dataTtfb + m.framesPerObject as real / m.objectRate
  }

  /** What the window must hold: frames due before the first byte, or before a whole object is in. */
  function Needed(m: TransferModel, rate: Rate): real {
    MaxReal(MaxReal(rate * m.dataTtfb, rate * ObjectTime(m) - m.framesPerObject as real), 1.0)
  }

  function WindowFor(m: TransferModel, rate: Rate): Result<WindowSizing, SizingError> {
    if m.framesPerObject == 0 then Err(ZeroFramesPerObject)
    else
      var ready := Frames(Needed(m, rate));
      if ready.Err? then Err(ready.error)
      else
        Positive(rate, m.urlLatency);
        var prefetch := Frames(rate * m.urlLatency);
        if prefetch.Err? then Err(prefetch.error) else Ok(WindowSizing(ready.value, prefetch.value))
  }

  lemma Positive(a: real, b: real)
    requires a >= 0.0 && b >= 0.0
    ensures a * b >= 0.0
  {
  }

  lemma ObjectTimePositive(m: TransferModel)
    requires m.framesPerObject > 0
    ensures ObjectTime(m) > 0.0
  {
    assert m.framesPerObject as real / m.objectRate > 0.0;
  }

  lemma Quotient(a: real, b: real)
    requires a > 0.0 && b > 0.0
    ensures a / b > 0.0
  {
  }

  function MaxRateFor(m: TransferModel, capacity: nat): Result<Rate, SizingError> {
    if capacity == 0 then Err(ZeroCapacity)
    else if m.framesPerObject == 0 then Err(ZeroFramesPerObject)
    else
      ObjectTimePositive(m);
      Quotient((capacity + m.framesPerObject) as real, ObjectTime(m));
      var completion: Rate := (capacity + m.framesPerObject) as real / ObjectTime(m);
      if m.dataTtfb == 0.0 then Ok(completion)
      else
        Quotient(capacity as real, m.dataTtfb);
        Ok(MinRate(capacity as real / m.dataTtfb, completion))
  }

  /** Dividing by a positive number is undone by multiplying with it. */
  lemma QuotientBound(x: real, a: real, b: real)
    requires b > 0.0
    ensures x <= a / b <==> x * b <= a
  {
    var q := a / b;
    assert q * b == a;
    if x <= q { Scale(x, q, b); } else { StrictScale(q, x, b); }
  }

  lemma Scale(x: real, y: real, b: real)
    requires x <= y && b >= 0.0
    ensures x * b <= y * b
  {
  }

  lemma StrictScale(x: real, y: real, b: real)
    requires x < y && b > 0.0
    ensures x * b < y * b
  {
  }

  /** The need stays within `capacity` exactly if both of its bounds do. */
  lemma NeededWithin(m: TransferModel, rate: Rate, capacity: nat)
    requires capacity >= 1
    ensures Needed(m, rate) <= capacity as real
       <==> rate * m.dataTtfb <= capacity as real && rate * ObjectTime(m) <= (capacity + m.framesPerObject) as real
  {
  }

  /**
   Window and rate are adjoint. A rate's window fits `capacity` frames exactly if the rate is at
   most the rate those frames sustain, which is therefore the greatest such rate.
   */
  lemma WindowFitsIffRateBelow(m: TransferModel, rate: Rate, capacity: nat)
    requires m.framesPerObject > 0 && capacity >= 1
    ensures MaxRateFor(m, capacity).Ok?
    ensures Ceil(Needed(m, rate)) <= capacity <==> rate <= MaxRateFor(m, capacity).value
  {
    hide Needed, ObjectTime, Ceil;
    ObjectTimePositive(m);
    CeilBound(Needed(m, rate), capacity);
    NeededWithin(m, rate, capacity);
    QuotientBound(rate, (capacity + m.framesPerObject) as real, ObjectTime(m));
    if m.dataTtfb > 0.0 { QuotientBound(rate, capacity as real, m.dataTtfb); }
  }

  /** A faster rate never needs a smaller window; more frames never sustain a lower rate. */
  lemma SizingMonotone(m: TransferModel, slow: Rate, fast: Rate, few: nat, many: nat)
    requires m.framesPerObject > 0 && slow <= fast && 1 <= few <= many
    ensures Ceil(Needed(m, slow)) <= Ceil(Needed(m, fast))
    ensures MaxRateFor(m, few).Ok? && MaxRateFor(m, many).Ok? && MaxRateFor(m, few).value <= MaxRateFor(m, many).value
  {
    var window := Ceil(Needed(m, fast));
    assert window >= 1;
    WindowFitsIffRateBelow(m, fast, window);
    WindowFitsIffRateBelow(m, slow, window);
    WindowFitsIffRateBelow(m, fast, few);
    var rate := MaxRateFor(m, few).value;
    WindowFitsIffRateBelow(m, rate, few);
    WindowFitsIffRateBelow(m, rate, many);
  }

  /** `target_rate`: the requested rate as far as the granted frames sustain it. */
  function TargetRate(m: TransferModel, requested: Rate, granted: nat): Result<Rate, SizingError> {
    var most := MaxRateFor(m, granted);
    if most.Err? then Err(most.error) else Ok(MinRate(requested, most.value))
  }

  /** What a session aims for fits the frames it was granted, and is all it was asked for whenever that fits. */
  lemma TargetFits(m: TransferModel, requested: Rate, granted: nat)
    requires m.framesPerObject > 0 && granted >= 1
    ensures TargetRate(m, requested, granted).Ok?
    ensures Ceil(Needed(m, TargetRate(m, requested, granted).value)) <= granted
    ensures TargetRate(m, requested, granted).value == requested <==> Ceil(Needed(m, requested)) <= granted
  {
    WindowFitsIffRateBelow(m, requested, granted);
    WindowFitsIffRateBelow(m, TargetRate(m, requested, granted).value, granted);
  }

  /** Hence sizing the window of a target rate can only fail on the URL prefetch. */
  lemma TargetWindow(m: TransferModel, requested: Rate, granted: nat)
    requires m.framesPerObject > 0 && 1 <= granted <= U64_MAX
    ensures TargetRate(m, requested, granted).Ok?
    ensures var target := TargetRate(m, requested, granted).value;
            var window := WindowFor(m, target);
            && (window.Ok? <==> Ceil(target * m.urlLatency) <= U64_MAX)
            && (window.Ok? ==> 1 <= window.value.readyDataFrames <= granted)
  {
    hide TargetRate, Needed, MaxRateFor, Ceil;
    TargetFits(m, requested, granted);
    var target := TargetRate(m, requested, granted).value;
    NeededAtLeastOne(m, target);
    Positive(target, m.urlLatency);
  }

  lemma NeededAtLeastOne(m: TransferModel, rate: Rate)
    ensures Needed(m, rate) >= 1.0
  {
  }

  // ---- What a window is for ------------------------------------------------------------------------

  /** The object requested at time 0 is not complete before `t`. */
  predicate Arriving(m: TransferModel, t: real) {
    t >= 0.0 && m.objectRate * (t - m.dataTtfb) <= m.framesPerObject as real
  }

  /** What has arrived of it by then: nothing before the first byte, then frames at the object's rate. */
  function Arrived(m: TransferModel, t: real): real {
    MaxReal(m.objectRate * (t - m.dataTtfb), 0.0)
  }

  /** With `ready` frames at hand when the object is requested, a consumer at this rate has enough at `t`. */
  predicate Fed(m: TransferModel, rate: Rate, ready: nat, t: real) {
    rate * t <= ready as real + Arrived(m, t)
  }

  /** The consumer never runs dry until the object is complete. */
  ghost predicate Steady(m: TransferModel, rate: Rate, ready: nat) {
    forall t: real | Arriving(m, t) :: Fed(m, rate, ready, t)
  }

  /** Between the first byte and the last the balance is linear, so that its ends decide. */
  lemma FedBetween(m: TransferModel, rate: Rate, ready: nat, d: real)
    requires rate * m.dataTtfb <= ready as real && rate * ObjectTime(m) <= (ready + m.framesPerObject) as real
    requires d >= 0.0 && m.objectRate * d <= m.framesPerObject as real
    ensures rate * (m.dataTtfb + d) <= ready as real + m.objectRate * d
  {
    var whole := m.framesPerObject as real / m.objectRate;
    assert rate * (m.dataTtfb + d) == rate * m.dataTtfb + rate * d;
    assert rate * ObjectTime(m) == rate * m.dataTtfb + rate * whole;
    if rate <= m.objectRate {
      Scale(rate, m.objectRate, d);
    } else {
      QuotientBound(d, m.framesPerObject as real, m.objectRate);
      assert whole * m.objectRate == m.framesPerObject as real;
      Scale(d, whole, rate - m.objectRate);
    }
  }

  /**
   A window of so many frames is needed exactly if with fewer a consumer at that rate would run dry
   while an object is fetched.
   */
  lemma NeededIsSteady(m: TransferModel, rate: Rate, ready: nat)
    ensures Ceil(Needed(m, rate)) <= ready <==> ready >= 1 && Steady(m, rate, ready)
  {
    hide Ceil, ObjectTime;
    CeilBound(Needed(m, rate), ready);
    if ready >= 1 {
      hide Needed;
      NeededWithin(m, rate, ready);
      EndsDecide(m, rate, ready);
    }
  }

  lemma EndsDecide(m: TransferModel, rate: Rate, ready: nat)
    ensures Steady(m, rate, ready)
       <==> rate * m.dataTtfb <= ready as real && rate * ObjectTime(m) <= (ready + m.framesPerObject) as real
  {
    if rate * m.dataTtfb <= ready as real && rate * ObjectTime(m) <= (ready + m.framesPerObject) as real {
      forall t: real | Arriving(m, t) ensures Fed(m, rate, ready, t) {
        if t >= m.dataTtfb { FedBetween(m, rate, ready, t - m.dataTtfb); } else { Scale(t, m.dataTtfb, rate); }
      }
    }
    if Steady(m, rate, ready) {
      AtEnds(m);
      assert Fed(m, rate, ready, m.dataTtfb) && Fed(m, rate, ready, ObjectTime(m));
    }
  }

  lemma AtEnds(m: TransferModel)
    ensures Arriving(m, m.dataTtfb) && Arrived(m, m.dataTtfb) == 0.0
    ensures Arriving(m, ObjectTime(m)) && Arrived(m, ObjectTime(m)) == m.framesPerObject as real
  {
    var whole := m.framesPerObject as real / m.objectRate;
    assert whole * m.objectRate == m.framesPerObject as real && m.objectRate * (m.dataTtfb - m.dataTtfb) == 0.0;
    assert whole >= 0.0 by { if whole < 0.0 { StrictScale(whole, 0.0, m.objectRate); } }
  }

  /** So many prefetched frames last while a URL is fetched. */
  predicate Covers(m: TransferModel, rate: Rate, prefetch: nat) {
    rate * m.urlLatency <= prefetch as real
  }

  /**
   `window_for`: the least window with which the consumer never runs dry, and the least prefetch
   that covers the frames consumed while a URL is fetched. It fails exactly for objects without frames
   and for counts beyond the machine's.
   */
  lemma WindowIsLeast(m: TransferModel, rate: Rate)
    ensures var w := WindowFor(m, rate);
            && (w.Ok? ==>
                  && (forall n: nat :: w.value.readyDataFrames <= n <==> n >= 1 && Steady(m, rate, n))
                  && (forall n: nat :: w.value.urlPrefetchFrames <= n <==> Covers(m, rate, n)))
            && (w == Err(ZeroFramesPerObject) <==> m.framesPerObject == 0)
            && (w.Ok? <==> m.framesPerObject > 0 && Steady(m, rate, U64_MAX) && Covers(m, rate, U64_MAX))
  {
    hide Needed, Steady, Ceil;
    forall n: nat
      ensures Ceil(Needed(m, rate)) <= n <==> n >= 1 && Steady(m, rate, n)
      ensures Ceil(rate * m.urlLatency) <= n <==> Covers(m, rate, n)
    {
      NeededIsSteady(m, rate, n);
      CeilBound(rate * m.urlLatency, n);
    }
    NeededAtLeastOne(m, rate);
    Positive(rate, m.urlLatency);
  }
}
