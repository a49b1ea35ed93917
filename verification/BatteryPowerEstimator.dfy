/**
 The battery power window (BatteryPowerEstimator.cpp) and everything that its only owner,
 ProductionTelemetryController, does to it: EC samples, readings of the power source, and the reset
 of sampling. Powers are reals; a reading that is not finite is a separate value. Times are clock
 nanoseconds.
 */
module BatteryPowerEstimator {
  import opened Options

  const MINIMUM_SAMPLES := 10
  const MINIMUM_HISTORY := 9_000_000_000
  const ROLLING_WINDOW := 20_000_000_000

  datatype Power = Watts(w: real) | NotFinite

  datatype Sample = Sample(at: int, w: real)

  /** One EC sample: `power` is None when the EC gave no discharge power. */
  datatype Reading = Reading(onBattery: bool, power: Option<Power>, now: int)

  predicate Usable(power: Option<Power>) {
    power.Some? && power.value.Watts? && power.value.w > 0.0
  }

  /** The samples no older than the rolling window, seen from `now`. */
  function Recent(samples: seq<Sample>, now: int): seq<Sample> {
    if samples != [] && now - samples[0].at > ROLLING_WINDOW then Recent(samples[1..], now) else samples
  }

  function Observed(samples: seq<Sample>, r: Reading): seq<Sample> {
    if !r.onBattery then []
    else if !Usable(r.power) then samples
    else Recent(samples + [Sample(r.now, r.power.value.w)], r.now)
  }

  function Sum(samples: seq<Sample>): real {
    if samples == [] then 0.0 else Sum(samples[..|samples| - 1]) + samples[|samples| - 1].w
  }

  lemma Mean(total: real, n: nat, mean: real)
    requires n > 0 && mean == total / n as real
    ensures mean * n as real == total && (mean > 0.0 <==> total > 0.0)
  {
  }

  lemma {:induction false} SumConcat(a: seq<Sample>, b: seq<Sample>)
    ensures Sum(a + b) == Sum(a) + Sum(b)
    decreases |b|
  {
    if b == [] {
      assert a + b == a;
    } else {
      SumConcat(a, b[..|b| - 1]);
      assert (a + b)[..|a + b| - 1] == a + b[..|b| - 1];
    }
  }

  predicate IsReady(samples: seq<Sample>) {
    |samples| >= MINIMUM_SAMPLES && samples[|samples| - 1].at - samples[0].at >= MINIMUM_HISTORY
  }

  class Estimator {
    var samples: seq<Sample>

    constructor ()
      ensures samples == []
    {
      samples := [];
    }

    method Reset()
      modifies this
      ensures samples == []
    {
      samples := [];
    }

    method Observe(r: Reading)
      modifies this
      ensures samples == Observed(old(samples), r)
    {
      if !r.onBattery {
        Reset();
        return;
      }
      if !Usable(r.power) {
        return;
      }
      samples := samples + [Sample(r.now, r.power.value.w)];
      while samples != [] && r.now - samples[0].at > ROLLING_WINDOW
        invariant Recent(samples, r.now) == Recent(old(samples) + [Sample(r.now, r.power.value.w)], r.now)
        decreases |samples|
      {
        samples := samples[1..];
      }
    }

    /** The controller's rule: an absent reading on battery discards the history. */
    method SampleSystemEc(r: Reading)
      modifies this
      ensures samples == AfterReading(old(samples), r)
    {
      if r.onBattery && |samples| != 0 && r.power.None? {
        Reset();
      } else {
        Observe(r);
      }
    }

    /** There is an average exactly when ten samples span nine seconds, and it is their mean. */
    method AveragePowerW() returns (average: Option<real>)
      ensures average.Some? <==>
        |samples| >= 10 && samples[|samples| - 1].at - samples[0].at >= 9_000_000_000 && Sum(samples) > 0.0
      ensures average.Some? ==> average.value * |samples| as real == Sum(samples)
    {
      if !IsReady(samples) {
        return None;
      }
      var total := 0.0;
      for k := 0 to |samples|
        invariant total == Sum(samples[..k])
      {
        assert samples[..k + 1][..k] == samples[..k];
        total := total + samples[k].w;
      }
      assert samples[..|samples|] == samples;
      var mean := total / |samples| as real;
      Mean(total, |samples|, mean);
      average := if mean > 0.0 then Some(mean) else None;
    }
  }

  function AfterReading(samples: seq<Sample>, r: Reading): seq<Sample> {
    if r.onBattery && samples != [] && r.power.None? then [] else Observed(samples, r)
  }

  /** What the controller does: `source` is None when the power source could not be read, else whether it is the battery. */
  datatype Event = EcSample(power: Option<Power>, now: int) | PowerSource(source: Option<bool>) | SamplingReset

  /** The window, and the power source as last read. */
  datatype State = State(samples: seq<Sample>, source: Option<bool>)

  function After(s: State, e: Event): State {
    match e
    case EcSample(power, now) => s.(samples := AfterReading(s.samples, Reading(s.source == Some(true), power, now)))
    case PowerSource(None) => State([], None)
    case PowerSource(Some(onBattery)) => s.(source := Some(onBattery))
    case SamplingReset => State([], None)
  }

  class BatterySampling {
    const batteryEstimator: Estimator
    var latestPower: Option<bool>

    function Now(): State
      reads this, batteryEstimator
    {
      State(batteryEstimator.samples, latestPower)
    }

    constructor ()
      ensures Now() == State([], None) && fresh(batteryEstimator)
    {
      batteryEstimator := new Estimator();
      latestPower := None;
    }

    method SampleSystemEc(power: Option<Power>, now: int)
      modifies batteryEstimator
      ensures Now() == After(old(Now()), EcSample(power, now))
    {
      batteryEstimator.SampleSystemEc(Reading(latestPower == Some(true), power, now));
    }

    method SampleBattery(source: Option<bool>)
      modifies this, batteryEstimator
      ensures Now() == After(old(Now()), PowerSource(source))
    {
      latestPower := source;
      if source == None { batteryEstimator.Reset(); }
    }

    method ResetSamplingState()
      modifies this, batteryEstimator
      ensures Now() == After(old(Now()), SamplingReset)
    {
      latestPower := None;
      batteryEstimator.Reset();
    }
  }

  // ---------------------------------------------------------------- what the window means

  function AfterEvents(es: seq<Event>): State {
    if es == [] then State([], None) else After(AfterEvents(es[..|es| - 1]), es[|es| - 1])
  }

  /** The power source as last read since sampling was last reset. */
  function SourceOf(es: seq<Event>): Option<bool> {
    if es == [] then None else
      match es[|es| - 1]
      case EcSample(_, _) => SourceOf(es[..|es| - 1])
      case PowerSource(source) => source
      case SamplingReset => None
  }

  /** The last event ends the history: off battery or without a power at an EC sample, an unreadable source, or a reset. */
  predicate Ends(es: seq<Event>)
    requires es != []
  {
    match es[|es| - 1]
    case EcSample(power, _) => SourceOf(es) != Some(true) || power.None?
    case PowerSource(source) => source.None?
    case SamplingReset => true
  }

  /** The usable samples since the last event that ended the history, in order. */
  function SinceReset(es: seq<Event>): seq<Sample> {
    if es == [] || Ends(es) then [] else
      var e := es[|es| - 1];
      SinceReset(es[..|es| - 1])
        + if e.EcSample? && e.power.Some? && e.power.value.Watts? && e.power.value.w > 0.0
          then [Sample(e.now, e.power.value.w)] else []
  }

  /** Those of `s` that lie within 20 s of the newest one. */
  function WithinWindow(s: seq<Sample>): seq<Sample> {
    Near(s, if s == [] then 0 else s[|s| - 1].at)
  }

  function Near(s: seq<Sample>, newest: int): seq<Sample> {
    if s == [] then [] else
      Near(s[..|s| - 1], newest)
      + (if newest - s[|s| - 1].at <= 20_000_000_000 then [s[|s| - 1]] else [])
  }

  ghost predicate Ordered(s: seq<Sample>) {
    forall i, j :: 0 <= i <= j < |s| ==> s[i].at <= s[j].at
  }

  ghost predicate ClockOk(es: seq<Event>) {
    forall i, j :: 0 <= i <= j < |es| && es[i].EcSample? && es[j].EcSample? ==> es[i].now <= es[j].now
  }

  /** No EC sample is later than `t`. */
  ghost predicate Until(es: seq<Event>, t: int) {
    forall i :: 0 <= i < |es| && es[i].EcSample? ==> es[i].now <= t
  }

  /** On ordered samples dropping old ones from the front keeps exactly the near ones. */
  lemma {:induction false} RecentIsNear(s: seq<Sample>, now: int)
    requires Ordered(s)
    ensures Recent(s, now) == Near(s, now)
    decreases |s|
  {
    if s != [] {
      if now - s[0].at > ROLLING_WINDOW {
        RecentIsNear(s[1..], now);
        NearWithoutOldHead(s, now);
      } else {
        NearAll(s, now);
      }
    }
  }

  lemma {:induction false} NearWithoutOldHead(s: seq<Sample>, now: int)
    requires s != [] && now - s[0].at > ROLLING_WINDOW
    ensures Near(s, now) == Near(s[1..], now)
  {
    if |s| > 1 {
      var n := |s| - 1;
      NearWithoutOldHead(s[..n], now);
      assert s[..n][1..] == s[1..][..n - 1];
    }
  }

  lemma {:induction false} NearAll(s: seq<Sample>, now: int)
    requires forall i :: 0 <= i < |s| ==> now - s[i].at <= ROLLING_WINDOW
    ensures Near(s, now) == s
  {
    if s != [] { NearAll(s[..|s| - 1], now); }
  }

  lemma NearAppend(s: seq<Sample>, x: Sample, now: int)
    ensures Near(s + [x], now) == Near(s, now) + (if now - x.at <= ROLLING_WINDOW then [x] else [])
  {
    assert (s + [x])[..|s|] == s;
  }

  /** A later look at the window drops what an earlier look dropped. */
  lemma {:induction false} NearTwice(s: seq<Sample>, earlier: int, later: int)
    requires earlier <= later
    ensures Near(Near(s, earlier), later) == Near(s, later)
  {
    if s != [] {
      var n := |s| - 1;
      NearTwice(s[..n], earlier, later);
      NearAppend(Near(s[..n], earlier), s[n], later);
      assert earlier - s[n].at > ROLLING_WINDOW ==> Near(s, earlier) == Near(s[..n], earlier);
      assert later - s[n].at > ROLLING_WINDOW ==> Near(s, later) == Near(s[..n], later);
    }
  }

  lemma {:induction false} NearOrdered(s: seq<Sample>, now: int)
    requires Ordered(s)
    ensures Ordered(Near(s, now))
    ensures forall k :: 0 <= k < |Near(s, now)| ==> Near(s, now)[k] in s
  {
    if s != [] { NearOrdered(s[..|s| - 1], now); }
  }

  lemma {:induction false} SinceResetOrdered(es: seq<Event>)
    requires ClockOk(es)
    ensures Ordered(SinceReset(es))
    ensures forall k :: 0 <= k < |SinceReset(es)| ==> SinceReset(es)[k].w > 0.0
    ensures forall t, k :: Until(es, t) && 0 <= k < |SinceReset(es)| ==> SinceReset(es)[k].at <= t
  {
    if es != [] {
      var n := |es| - 1;
      SinceResetOrdered(es[..n]);
      assert forall t :: Until(es, t) ==> Until(es[..n], t);
      if es[n].EcSample? { assert Until(es[..n], es[n].now); }
    }
  }

  /** One more usable reading. */
  lemma WindowGrows(s: seq<Sample>, x: Sample)
    requires Ordered(s) && forall k :: 0 <= k < |s| ==> s[k].at <= x.at
    ensures Recent(WithinWindow(s) + [x], x.at) == WithinWindow(s + [x])
  {
    var newest := if s == [] then 0 else s[|s| - 1].at;
    var kept := Near(s, newest);
    NearOrdered(s, newest);
    assert Ordered(kept + [x]);
    RecentIsNear(kept + [x], x.at);
    NearAppend(kept, x, x.at);
    if s != [] { NearTwice(s, newest, x.at); }
    NearAppend(s, x, x.at);
  }

  lemma {:induction false} SourceIsLastRead(es: seq<Event>)
    ensures AfterEvents(es).source == SourceOf(es)
  {
    if es != [] { SourceIsLastRead(es[..|es| - 1]); }
  }

  /**
   Whatever happened, the estimator's samples are exactly the usable on-battery samples since the
   last event that ended the history that lie within 20 s of the newest of them.
   */
  lemma {:induction false} SamplesAreRecentHistory(es: seq<Event>)
    requires ClockOk(es)
    ensures AfterEvents(es).samples == WithinWindow(SinceReset(es))
    decreases |es|
  {
    if es != [] {
      var n := |es| - 1;
      var e, before := es[n], es[..n];
      SamplesAreRecentHistory(before);
      SourceIsLastRead(before);
      SinceResetOrdered(before);
      if !Ends(es) {
        if e.EcSample? && Usable(e.power) {
          assert Until(before, e.now);
          WindowGrows(SinceReset(before), Sample(e.now, e.power.value.w));
        } else {
          assert SinceReset(es) == SinceReset(before);
        }
      }
    }
  }

  lemma {:induction false} SumPositive(samples: seq<Sample>)
    requires samples != [] && forall k :: 0 <= k < |samples| ==> samples[k].w > 0.0
    ensures Sum(samples) > 0.0
  {
    if |samples| > 1 { SumPositive(samples[..|samples| - 1]); }
  }

  /** Whatever happened, ten samples that span nine seconds have a positive sum, so that there is an average. */
  lemma ReadyHasAverage(es: seq<Event>)
    requires ClockOk(es) && |AfterEvents(es).samples| >= 10
    requires var s := AfterEvents(es).samples; s[|s| - 1].at - s[0].at >= 9_000_000_000
    ensures Sum(AfterEvents(es).samples) > 0.0
  {
    var samples, s := AfterEvents(es).samples, SinceReset(es);
    SamplesAreRecentHistory(es);
    SinceResetOrdered(es);
    NearOrdered(s, if s == [] then 0 else s[|s| - 1].at);
    SumPositive(samples);
  }
}
