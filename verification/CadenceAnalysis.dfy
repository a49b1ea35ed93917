/**
 AnalyzeDiagD3dkmtCadence of DiagD3dkmtCadenceAnalysis.cpp: one pass over vertical-blank
 timestamps that counts them per one-second window, and the classification of the counts.
 Ticks are 64-bit machine integers, so every tick operation is proved not to wrap; the rates,
 whole numbers over one second, are reals.
 */
module CadenceAnalysis {
  import opened Options
  import opened MachineIntegers
  import opened Statistics

  const MAXIMUM_WINDOWS := 100000
  const MINIMUM_WINDOWS := 10

  datatype Double = Finite(value: real) | NotFinite

  datatype DataStatus = Available | Unavailable | InvalidFrequency | InvalidNominalRefresh | InvalidTimestamps | TooManyWindows
  datatype Class = NoCadence | Indeterminate | FixedLike | VariableLike

  datatype Window = Window(startSeconds: real, endSeconds: real, events: nat, hz: real)

  datatype Summary = Summary(
    minimum: real, maximum: real, average: real, median: real, nearNominalRatio: real, range: real,
    variance: real)

  datatype Analysis = Analysis(
    status: DataStatus, classification: Class, windows: seq<Window>, summary: Option<Summary>)

  // ---------------------------------------------------------------- counting by brute force

  ghost predicate Increasing(ts: seq<uint64>) {
    forall i, j :: 0 <= i < j < |ts| ==> ts[i] < ts[j]
  }

  /** How many timestamps lie at least `low` and less than `high` ticks after `origin`. */
  ghost function CountBetween(ts: seq<uint64>, origin: int, low: int, high: int): nat {
    if ts == [] then 0 else
      CountBetween(ts[..|ts| - 1], origin, low, high)
        + if low <= ts[|ts| - 1] as int - origin < high then 1 else 0
  }

  lemma CountNext(ts: seq<uint64>, i: nat, origin: int, low: int, high: int)
    requires i < |ts|
    ensures CountBetween(ts[..i + 1], origin, low, high)
      == CountBetween(ts[..i], origin, low, high) + if low <= ts[i] as int - origin < high then 1 else 0
  {
    assert ts[..i + 1][..i] == ts[..i];
  }

  /** Timestamps outside the interval do not count. */
  lemma {:induction false} CountNone(ts: seq<uint64>, origin: int, low: int, high: int)
    requires forall k :: 0 <= k < |ts| ==> !(low <= ts[k] as int - origin < high)
    ensures CountBetween(ts, origin, low, high) == 0
  {
    if ts != [] { CountNone(ts[..|ts| - 1], origin, low, high); }
  }

  lemma {:induction false} CountIgnoresTail(ts: seq<uint64>, i: nat, origin: int, low: int, high: int)
    requires i <= |ts|
    requires forall k :: i <= k < |ts| ==> !(low <= ts[k] as int - origin < high)
    ensures CountBetween(ts, origin, low, high) == CountBetween(ts[..i], origin, low, high)
    decreases |ts| - i
  {
    if i < |ts| {
      CountNext(ts, i, origin, low, high);
      CountIgnoresTail(ts, i + 1, origin, low, high);
    } else {
      assert ts[..i] == ts;
    }
  }

  lemma {:induction false} CountSplits(ts: seq<uint64>, origin: int, low: int, middle: int, high: int)
    requires low <= middle <= high
    ensures CountBetween(ts, origin, low, high)
      == CountBetween(ts, origin, low, middle) + CountBetween(ts, origin, middle, high)
  {
    if ts != [] { CountSplits(ts[..|ts| - 1], origin, low, middle, high); }
  }

  lemma {:induction false} CountAtMostLength(ts: seq<uint64>, origin: int, low: int, high: int)
    ensures CountBetween(ts, origin, low, high) <= |ts|
  {
    if ts != [] { CountAtMostLength(ts[..|ts| - 1], origin, low, high); }
  }

  /** The number of complete windows between the first and the last timestamp. */
  function WindowCount(ts: seq<uint64>, frequency: uint64): nat
    requires ts != [] && frequency > 0 && ts[0] <= ts[|ts| - 1]
  {
    ((ts[|ts| - 1] - ts[0]) / frequency) as nat
  }

  /** Window `i` holds the timestamps of second `i` after the first one. */
  ghost function EventsIn(ts: seq<uint64>, frequency: uint64, i: nat): nat
    requires ts != []
  {
    CountBetween(ts, ts[0] as int, i * frequency as int, i * frequency as int + frequency as int)
  }

  lemma Stretch(i: nat, w: nat, f: nat)
    requires i < w
    ensures i * f + f <= w * f
  {
    assert (i + 1) * f == i * f + f;
    assert (i + 1) * f <= w * f;
  }

  /** The end of any complete window is no later than the last timestamp. */
  lemma WindowEndsInRange(ts: seq<uint64>, frequency: uint64, i: nat)
    requires ts != [] && frequency > 0 && ts[0] <= ts[|ts| - 1] && i < WindowCount(ts, frequency)
    ensures i * frequency as int + frequency as int <= ts[|ts| - 1] as int - ts[0] as int
  {
    var w := WindowCount(ts, frequency);
    Stretch(i, w, frequency as nat);
    assert w * frequency as int <= ts[|ts| - 1] as int - ts[0] as int;
  }

  /**
   Advances one index over the timestamps. Every window receives exactly the timestamps a
   brute-force count gives it; the comparison with the window's start never fails, because the
   windows before have consumed everything earlier.
   */
  method CountWindows(ts: seq<uint64>, frequency: uint64) returns (counts: seq<nat>)
    requires |ts| >= 2 && Increasing(ts) && frequency > 0
    ensures |counts| == WindowCount(ts, frequency)
    ensures forall i :: 0 <= i < |counts| ==> counts[i] == EventsIn(ts, frequency, i)
  {
    var complete: uint64 := (ts[|ts| - 1] - ts[0]) / frequency;
    counts := [];
    var sampleIndex: nat := 0;
    var windowIndex: uint64 := 0;
    while windowIndex < complete
      invariant windowIndex <= complete && |counts| == windowIndex as int
      invariant forall i :: 0 <= i < |counts| ==> counts[i] == EventsIn(ts, frequency, i)
      invariant sampleIndex <= |ts|
      invariant forall k :: 0 <= k < sampleIndex ==> ts[k] as int - ts[0] as int < windowIndex as int * frequency as int
      invariant forall k :: sampleIndex <= k < |ts| ==> ts[k] as int - ts[0] as int >= windowIndex as int * frequency as int
    {
      WindowEndsInRange(ts, frequency, windowIndex as nat);
      var startTicks := windowIndex * frequency;
      var endTicks := startTicks + frequency;
      var events := CountWindow(ts, startTicks, endTicks, sampleIndex);
      sampleIndex := sampleIndex + events;
      counts := counts + [events];
      assert (windowIndex as int + 1) * frequency as int == endTicks as int;
      windowIndex := windowIndex + 1;
    }
  }

  /** The inner loop: how many timestamps from `sampleIndex` on come before `endTicks`. */
  method CountWindow(ts: seq<uint64>, startTicks: uint64, endTicks: uint64, sampleIndex: nat) returns (events: nat)
    requires ts != [] && Increasing(ts) && sampleIndex <= |ts|
    requires forall k :: 0 <= k < sampleIndex ==> ts[k] as int - ts[0] as int < startTicks as int
    requires forall k :: sampleIndex <= k < |ts| ==> ts[k] as int - ts[0] as int >= startTicks as int
    ensures events == CountBetween(ts, ts[0] as int, startTicks as int, endTicks as int)
    ensures sampleIndex + events <= |ts|
    ensures forall k :: sampleIndex <= k < sampleIndex + events ==> ts[k] as int - ts[0] as int < endTicks as int
    ensures forall k :: sampleIndex + events <= k < |ts| ==> ts[k] as int - ts[0] as int >= endTicks as int
  {
    ghost var origin, low, high := ts[0] as int, startTicks as int, endTicks as int;
    events := 0;
    var index := sampleIndex;
    CountNone(ts[..sampleIndex], origin, low, high);
    while index < |ts|
      invariant sampleIndex <= index <= |ts| && index == sampleIndex + events
      invariant events == CountBetween(ts[..index], origin, low, high)
      invariant forall k :: sampleIndex <= k < index ==> ts[k] as int - origin < high
    {
      var relativeTicks := ts[index] - ts[0];
      if relativeTicks >= endTicks { break; }
      CountNext(ts, index, origin, low, high);
      assert relativeTicks >= startTicks;
      if relativeTicks >= startTicks { events := events + 1; }
      index := index + 1;
    }
    assert forall k :: index <= k < |ts| ==> ts[k] >= ts[index];
    CountIgnoresTail(ts, index, origin, low, high);
  }

  function SumOf(counts: seq<nat>): nat {
    if counts == [] then 0 else SumOf(counts[..|counts| - 1]) + counts[|counts| - 1]
  }

  /** The first `n` windows together hold the timestamps of the first `n` seconds. */
  lemma {:induction false} WindowsPartition(ts: seq<uint64>, frequency: uint64, counts: seq<nat>)
    requires ts != []
    requires forall i :: 0 <= i < |counts| ==> counts[i] == EventsIn(ts, frequency, i)
    ensures SumOf(counts) == CountBetween(ts, ts[0] as int, 0, |counts| * frequency as int)
  {
    if counts == [] {
      CountNone(ts, ts[0] as int, 0, 0);
    } else {
      var n := |counts| - 1;
      WindowsPartition(ts, frequency, counts[..n]);
      assert n * frequency as int + frequency as int == |counts| * frequency as int;
      CountSplits(ts, ts[0] as int, 0, n * frequency as int, |counts| * frequency as int);
    }
  }

  /**
   Conservation: the windows hold every timestamp before the last complete second and none
   twice; the last timestamp is never in a window.
   */
  lemma WindowsConserve(ts: seq<uint64>, frequency: uint64, counts: seq<nat>)
    requires |ts| >= 2 && Increasing(ts) && frequency > 0
    requires |counts| == WindowCount(ts, frequency)
    requires forall i :: 0 <= i < |counts| ==> counts[i] == EventsIn(ts, frequency, i)
    ensures SumOf(counts) == CountBetween(ts, ts[0] as int, 0, |counts| * frequency as int)
    ensures SumOf(counts) <= |ts| - 1
  {
    WindowsPartition(ts, frequency, counts);
    WholeWindows((ts[|ts| - 1] - ts[0]) as nat, frequency as nat);
    LastNotCounted(ts, ts[0] as int, |counts| * frequency as int);
  }

  lemma WholeWindows(duration: nat, frequency: nat)
    requires frequency > 0
    ensures (duration / frequency) * frequency <= duration
  {
  }

  lemma LastNotCounted(ts: seq<uint64>, origin: int, high: int)
    requires ts != [] && high <= ts[|ts| - 1] as int - origin
    ensures CountBetween(ts, origin, 0, high) <= |ts| - 1
  {
    CountAtMostLength(ts[..|ts| - 1], origin, 0, high);
  }

  // ---------------------------------------------------------------- rates and their classes

  function Larger(x: real, y: real): real {
    if x < y then y else x
  }

  function Distance(x: real, y: real): real {
    if x < y then y - x else x - y
  }

  /** Undefined unless the nominal rate is finite and positive. */
  function NearNominalTolerance(nominal: Double): Double {
    if nominal.NotFinite? || nominal.value <= 0.0 then NotFinite
    else Finite(Larger(1.5, nominal.value * 0.015))
  }

  predicate IsNearNominal(rate: real, nominal: Double) {
    var tolerance := NearNominalTolerance(nominal);
    tolerance.Finite? && Distance(rate, nominal.value) <= tolerance.value
  }

  function NearNominalCount(rates: seq<real>, nominal: Double): nat {
    if rates == [] then 0 else
      NearNominalCount(rates[..|rates| - 1], nominal) + if IsNearNominal(rates[|rates| - 1], nominal) then 1 else 0
  }

  function RatesOf(windows: seq<Window>): (rates: seq<real>)
    ensures |rates| == |windows|
    ensures forall i :: 0 <= i < |windows| ==> rates[i] == windows[i].hz
  {
    if windows == [] then [] else RatesOf(windows[..|windows| - 1]) + [windows[|windows| - 1].hz]
  }

  /** The product of two reals, whose sign the factors give. */
  function Product(x: real, y: real): (r: real)
    ensures r > 0.0 <==> (x > 0.0 && y > 0.0) || (x < 0.0 && y < 0.0)
    ensures r == 0.0 <==> x == 0.0 || y == 0.0
  {
    x * y
  }

  /** The sum of the squared deviations from `center`. */
  function SquaredDeviations(rates: seq<real>, center: real): real {
    if rates == [] then 0.0 else
      var deviation := rates[|rates| - 1] - center;
      SquaredDeviations(rates[..|rates| - 1], center) + Product(deviation, deviation)
  }

  lemma {:induction false} DeviationsVanish(rates: seq<real>, center: real)
    ensures SquaredDeviations(rates, center) >= 0.0
    ensures SquaredDeviations(rates, center) == 0.0 <==> forall i :: 0 <= i < |rates| ==> rates[i] == center
  {
    if rates == [] {
    } else {
      var n := |rates| - 1;
      DeviationsVanish(rates[..n], center);
      assert forall i :: 0 <= i < n ==> rates[i] == rates[..n][i];
    }
  }

  lemma QuotientSign(x: real, n: real)
    requires x >= 0.0 && n > 0.0
    ensures x / n >= 0.0
    ensures x / n == 0.0 <==> x == 0.0
  {
    assert x / n * n == x;
  }

  /** The variance, of which the source reports the root, is zero exactly when all rates are the average. */
  lemma VarianceMeans(rates: seq<real>, nominal: Double)
    requires rates != []
    ensures Summarize(rates, nominal).variance >= 0.0
    ensures Summarize(rates, nominal).variance == 0.0 <==> forall i :: 0 <= i < |rates| ==> rates[i] == Mean(rates)
  {
    DeviationsVanish(rates, Mean(rates));
    QuotientSign(SquaredDeviations(rates, Mean(rates)), |rates| as real);
  }

  function Summarize(rates: seq<real>, nominal: Double): Summary
    requires rates != []
  {
    Summary(Minimum(rates), Maximum(rates), Mean(rates), Median(rates),
      NearNominalCount(rates, nominal) as real / |rates| as real, Maximum(rates) - Minimum(rates),
      SquaredDeviations(rates, Mean(rates)) / |rates| as real)
  }

  predicate IsFixedLike(s: Summary, nominal: real) {
    && s.nearNominalRatio >= 0.80
    && Distance(s.median, nominal) <= Larger(1.5, nominal * 0.015)
    && s.range <= Larger(5.0, nominal * 0.05)
  }

  predicate IsVariableLike(s: Summary, nominal: real) {
    s.nearNominalRatio <= 0.50 && s.range >= Larger(6.0, nominal * 0.05)
  }

  function Classify(s: Summary, windows: nat, nominal: real): Class {
    if windows < MINIMUM_WINDOWS then Indeterminate
    else if IsFixedLike(s, nominal) then FixedLike
    else if IsVariableLike(s, nominal) then VariableLike
    else Indeterminate
  }

  datatype Capture = Capture(available: bool, frequency: int64, timestamps: seq<uint64>)

  /** What is wrong with a capture, in the order in which it is tested. */
  ghost function StatusOf(c: Capture, nominal: Double): DataStatus {
    if !c.available then Unavailable
    else if c.frequency <= 0 then InvalidFrequency
    else if nominal.NotFinite? || nominal.value <= 0.0 then InvalidNominalRefresh
    else if !Increasing(c.timestamps) then InvalidTimestamps
    else if |c.timestamps| >= 2 && WindowCount(c.timestamps, c.frequency as uint64) > 100000 then TooManyWindows
    else Available
  }

  ghost predicate IsWindows(windows: seq<Window>, ts: seq<uint64>, frequency: uint64)
    requires |ts| >= 2 && Increasing(ts) && frequency > 0
  {
    && |windows| == WindowCount(ts, frequency)
    && forall i :: 0 <= i < |windows| ==>
      windows[i] == Window(i as real, i as real + 1.0, EventsIn(ts, frequency, i), EventsIn(ts, frequency, i) as real)
  }

  /** The status, and the windows of a capture that can be analysed. */
  ghost predicate HasWindows(r: Analysis, c: Capture, nominal: Double) {
    && r.status == StatusOf(c, nominal)
    && (r.status == Available && |c.timestamps| >= 2 ==> IsWindows(r.windows, c.timestamps, c.frequency as uint64))
    && (!(r.status == Available && |c.timestamps| >= 2) ==> r.windows == [])
  }

  /** What the analysis promises. */
  ghost predicate IsAnalysis(r: Analysis, c: Capture, nominal: Double) {
    && HasWindows(r, c, nominal)
    && r.summary == (if r.windows == [] then None else Some(Summarize(RatesOf(r.windows), nominal)))
    && r.classification == (
      if r.status == Unavailable then NoCadence
      else if r.windows == [] then Indeterminate
      else Classify(r.summary.value, |r.windows|, nominal.value))
  }

  method StrictlyIncreasing(ts: seq<uint64>) returns (ok: bool)
    ensures ok == Increasing(ts)
  {
    var i := 1;
    while i < |ts|
      invariant 1 <= i
      invariant forall j, k :: 0 <= j < k < i && k < |ts| ==> ts[j] < ts[k]
    {
      if ts[i] <= ts[i - 1] { return false; }
      i := i + 1;
    }
    return true;
  }

  method MakeWindows(counts: seq<nat>) returns (windows: seq<Window>)
    ensures |windows| == |counts|
    ensures forall i :: 0 <= i < |counts| ==> windows[i] == Window(i as real, i as real + 1.0, counts[i], counts[i] as real)
  {
    windows := [];
    for i := 0 to |counts|
      invariant |windows| == i
      invariant forall k :: 0 <= k < i ==> windows[k] == Window(k as real, k as real + 1.0, counts[k], counts[k] as real)
    {
      var startSeconds := i as real * 1.0;
      windows := windows + [Window(startSeconds, startSeconds + 1.0, counts[i], counts[i] as real / 1.0)];
    }
  }

  method CollectRates(windows: seq<Window>, nominal: Double) returns (rates: seq<real>, near: nat)
    ensures rates == RatesOf(windows) && near == NearNominalCount(rates, nominal)
  {
    rates, near := [], 0;
    for i := 0 to |windows|
      invariant rates == RatesOf(windows[..i]) && near == NearNominalCount(rates, nominal)
    {
      assert windows[..i + 1][..i] == windows[..i];
      assert (rates + [windows[i].hz])[..i] == rates;
      rates := rates + [windows[i].hz];
      if IsNearNominal(windows[i].hz, nominal) { near := near + 1; }
    }
    assert windows[..|windows|] == windows;
  }

  method SumSquaredDeviations(rates: seq<real>, center: real) returns (sum: real)
    ensures sum == SquaredDeviations(rates, center)
  {
    sum := 0.0;
    for i := 0 to |rates|
      invariant sum == SquaredDeviations(rates[..i], center)
    {
      assert rates[..i + 1][..i] == rates[..i];
      var deviation := rates[i] - center;
      sum := sum + deviation * deviation;
    }
    assert rates[..|rates|] == rates;
  }

  method SummarizeWindows(windows: seq<Window>, nominal: Double) returns (s: Summary)
    requires windows != []
    ensures s == Summarize(RatesOf(windows), nominal)
  {
    var rates, near := CollectRates(windows, nominal);
    var minimum, maximum := Minimum(rates), Maximum(rates);
    var average := Mean(rates);
    var squares := SumSquaredDeviations(rates, average);
    s := Summary(minimum, maximum, average, Median(rates), near as real / |rates| as real, maximum - minimum,
      squares / |rates| as real);
  }

  /** The part of the analysis that is reached with a usable capture of at least two timestamps. */
  method AnalyzeTimestamps(ts: seq<uint64>, frequency: uint64, nominal: Double) returns (r: Analysis)
    requires |ts| >= 2 && Increasing(ts) && frequency > 0 && nominal.Finite?
    ensures r.status == if WindowCount(ts, frequency) > MAXIMUM_WINDOWS then TooManyWindows else Available
    ensures r.status == Available ==> IsWindows(r.windows, ts, frequency)
    ensures r.status == TooManyWindows ==> r.windows == []
    ensures r.summary == if r.windows == [] then None else Some(Summarize(RatesOf(r.windows), nominal))
    ensures r.classification ==
      if r.windows == [] then Indeterminate else Classify(r.summary.value, |r.windows|, nominal.value)
  {
    r := Analysis(Available, Indeterminate, [], None);
    var complete := (ts[|ts| - 1] - ts[0]) / frequency;
    if complete > MAXIMUM_WINDOWS as uint64 { return r.(status := TooManyWindows); }
    var counts := CountWindows(ts, frequency);
    var windows := MakeWindows(counts);
    if windows == [] { return; }
    var summary := SummarizeWindows(windows, nominal);
    r := Analysis(Available, Classify(summary, |windows|, nominal.value), windows, Some(summary));
  }

  method AnalyzeCadence(c: Capture, nominal: Double) returns (r: Analysis)
    ensures IsAnalysis(r, c, nominal)
  {
    r := Analysis(Available, Indeterminate, [], None);
    if !c.available { return Analysis(Unavailable, NoCadence, [], None); }
    if c.frequency <= 0 { return r.(status := InvalidFrequency); }
    if nominal.NotFinite? || nominal.value <= 0.0 { return r.(status := InvalidNominalRefresh); }
    var increasing := StrictlyIncreasing(c.timestamps);
    if !increasing { return r.(status := InvalidTimestamps); }
    if |c.timestamps| < 2 { return; }

    r := AnalyzeTimestamps(c.timestamps, c.frequency as uint64, nominal);
  }

  // ---------------------------------------------------------------- what an analysis says

  /** Minimum, median, average and maximum are in order. */
  lemma SummaryOrdered(r: Analysis, c: Capture, nominal: Double)
    requires IsAnalysis(r, c, nominal) && r.summary.Some?
    ensures r.summary.value.minimum <= r.summary.value.median <= r.summary.value.maximum
    ensures r.summary.value.minimum <= r.summary.value.average <= r.summary.value.maximum
  {
    MedianBetween(RatesOf(r.windows));
    MeanBetweenExtremes(RatesOf(r.windows));
  }

  lemma {:induction false} AllNearCount(rates: seq<real>, nominal: Double)
    requires forall i :: 0 <= i < |rates| ==> IsNearNominal(rates[i], nominal)
    ensures NearNominalCount(rates, nominal) == |rates|
  {
    if rates != [] { AllNearCount(rates[..|rates| - 1], nominal); }
  }

  lemma SpreadAllowed(low: real, middle: real, high: real, nominal: real)
    requires nominal > 0.0 && low <= middle <= high
    requires Distance(low, nominal) <= Larger(1.5, nominal * 0.015)
    requires Distance(high, nominal) <= Larger(1.5, nominal * 0.015)
    ensures Distance(middle, nominal) <= Larger(1.5, nominal * 0.015)
    ensures high - low <= Larger(5.0, nominal * 0.05)
  {
  }

  lemma AllNearRates(rates: seq<real>, nominal: Double)
    requires rates != [] && forall i :: 0 <= i < |rates| ==> IsNearNominal(rates[i], nominal)
    ensures IsFixedLike(Summarize(rates, nominal), nominal.value)
  {
    var low, middle, high := Minimum(rates), Median(rates), Maximum(rates);
    NearRatio(rates, nominal);
    MedianBetween(rates);
    assert IsNearNominal(low, nominal) && IsNearNominal(high, nominal);
    SpreadAllowed(low, middle, high, nominal.value);
  }

  lemma NearRatio(rates: seq<real>, nominal: Double)
    requires rates != [] && forall i :: 0 <= i < |rates| ==> IsNearNominal(rates[i], nominal)
    ensures NearNominalCount(rates, nominal) as real / |rates| as real == 1.0
  {
    AllNearCount(rates, nominal);
    OwnQuotient(|rates| as real);
  }

  lemma OwnQuotient(x: real)
    requires x > 0.0
    ensures x / x == 1.0
  {
  }

  /**
   Ten windows that are all near the nominal rate are FixedLike, whatever the nominal rate: the
   spread of rates within the tolerance never exceeds the spread that FixedLike allows.
   */
  lemma AllNearIsFixedLike(r: Analysis, c: Capture, nominal: Double)
    requires IsAnalysis(r, c, nominal) && |r.windows| >= MINIMUM_WINDOWS
    requires forall i :: 0 <= i < |r.windows| ==> IsNearNominal(r.windows[i].hz, nominal)
    ensures r.classification == FixedLike
  {
    AllNearRates(RatesOf(r.windows), nominal);
  }

  // ---------------------------------------------------------------- classes in whole numbers

  /** The window's rate is within 1.5 Hz or 1.5 % of the nominal one. */
  predicate IsNear(w: Window, nominal: real) {
    || nominal - 1.5 <= w.events as real <= nominal + 1.5
    || 0.985 * nominal <= w.events as real <= 1.015 * nominal
  }

  function NearWindows(windows: seq<Window>, nominal: real): nat {
    if windows == [] then 0 else
      NearWindows(windows[..|windows| - 1], nominal) + if IsNear(windows[|windows| - 1], nominal) then 1 else 0
  }

  lemma NearMeans(w: Window, nominal: Double)
    requires nominal.Finite? && nominal.value > 0.0 && w.hz == w.events as real
    ensures IsNearNominal(w.hz, nominal) <==> IsNear(w, nominal.value)
  {
    assert 0.985 * nominal.value == nominal.value - nominal.value * 0.015;
    assert 1.015 * nominal.value == nominal.value + nominal.value * 0.015;
  }

  /** Each window counts its events over one second. */
  ghost predicate AreRates(windows: seq<Window>) {
    forall i :: 0 <= i < |windows| ==> windows[i].hz == windows[i].events as real
  }

  lemma {:induction false} NearCounts(windows: seq<Window>, nominal: Double)
    requires nominal.Finite? && nominal.value > 0.0 && AreRates(windows)
    ensures NearNominalCount(RatesOf(windows), nominal) == NearWindows(windows, nominal.value)
  {
    if windows != [] {
      var n := |windows| - 1;
      NearCounts(windows[..n], nominal);
      NearMeans(windows[n], nominal);
      assert RatesOf(windows)[..n] == RatesOf(windows[..n]);
    }
  }

  lemma RatioAtLeast(near: nat, n: nat)
    requires n > 0
    ensures near as real / n as real >= 0.80 <==> 5 * near >= 4 * n
    ensures near as real / n as real <= 0.50 <==> 2 * near <= n
  {
    Quotient(near as real, n as real);
    RatioCompare(near as real / n as real, near, n);
  }

  lemma Quotient(x: real, w: real)
    requires w > 0.0
    ensures x / w * w == x
  {
  }

  lemma RatioCompare(q: real, near: nat, n: nat)
    requires n > 0 && q * n as real == near as real
    ensures q >= 0.80 <==> 5 * near >= 4 * n
    ensures q <= 0.50 <==> 2 * near <= n
  {
    Scaled(q, 0.80, n as real, near as real);
    Scaled(q, 0.50, n as real, near as real);
  }

  lemma Scaled(q: real, share: real, w: real, part: real)
    requires w > 0.0 && q * w == part
    ensures q >= share <==> part >= share * w
    ensures q <= share <==> part <= share * w
  {
    var d := q - share;
    assert d * w == part - share * w;
    if d > 0.0 { PositiveProduct(d, w); }
    if d < 0.0 { PositiveProduct(-d, w); assert (-d) * w == -(d * w); }
  }

  lemma PositiveProduct(x: real, y: real)
    requires x > 0.0 && y > 0.0
    ensures x * y > 0.0
  {
  }

  /** Four fifths of the windows, and the median, are near nominal, and all lie close together. */
  ghost predicate LooksFixed(windows: seq<Window>, s: Summary, nominal: real) {
    && 5 * NearWindows(windows, nominal) >= 4 * |windows|
    && (nominal - 1.5 <= s.median <= nominal + 1.5 || 0.985 * nominal <= s.median <= 1.015 * nominal)
    && (s.maximum - s.minimum <= 5.0 || s.maximum - s.minimum <= nominal * 0.05)
  }

  /** At most half of the windows are near nominal, and they lie far apart. */
  ghost predicate LooksVariable(windows: seq<Window>, s: Summary, nominal: real) {
    && 2 * NearWindows(windows, nominal) <= |windows|
    && s.maximum - s.minimum >= 6.0 && s.maximum - s.minimum >= nominal * 0.05
  }

  lemma MedianNear(median: real, nominal: real)
    requires nominal > 0.0
    ensures Distance(median, nominal) <= Larger(1.5, nominal * 0.015) <==>
      nominal - 1.5 <= median <= nominal + 1.5 || 0.985 * nominal <= median <= 1.015 * nominal
  {
    assert 0.985 * nominal == nominal - nominal * 0.015;
    assert 1.015 * nominal == nominal + nominal * 0.015;
  }

  /** The summary's share of near windows, compared with the two limits. */
  lemma ShareMeans(windows: seq<Window>, nominal: Double)
    requires windows != [] && nominal.Finite? && nominal.value > 0.0 && AreRates(windows)
    ensures var share := Summarize(RatesOf(windows), nominal).nearNominalRatio;
      && (share >= 0.80 <==> 5 * NearWindows(windows, nominal.value) >= 4 * |windows|)
      && (share <= 0.50 <==> 2 * NearWindows(windows, nominal.value) <= |windows|)
  {
    NearCounts(windows, nominal);
    RatioAtLeast(NearWindows(windows, nominal.value), |windows|);
  }

  lemma LooksFixedMeans(windows: seq<Window>, s: Summary, nominal: real)
    requires nominal > 0.0 && s.range == s.maximum - s.minimum
    requires s.nearNominalRatio >= 0.80 <==> 5 * NearWindows(windows, nominal) >= 4 * |windows|
    ensures IsFixedLike(s, nominal) <==> LooksFixed(windows, s, nominal)
  {
    MedianNear(s.median, nominal);
  }

  ghost predicate LooksAlike(windows: seq<Window>, s: Summary, nominal: real) {
    && (IsFixedLike(s, nominal) <==> LooksFixed(windows, s, nominal))
    && (IsVariableLike(s, nominal) <==> LooksVariable(windows, s, nominal))
  }

  lemma LooksMean(windows: seq<Window>, nominal: Double)
    requires windows != [] && nominal.Finite? && nominal.value > 0.0 && AreRates(windows)
    ensures LooksAlike(windows, Summarize(RatesOf(windows), nominal), nominal.value)
  {
    ShareMeans(windows, nominal);
    LooksFixedMeans(windows, Summarize(RatesOf(windows), nominal), nominal.value);
  }

  lemma AnalysisLooks(r: Analysis, c: Capture, nominal: Double)
    requires IsAnalysis(r, c, nominal) && r.windows != []
    ensures LooksAlike(r.windows, r.summary.value, nominal.value)
  {
    LooksMean(r.windows, nominal);
  }

  lemma ClassFromLooks(windows: seq<Window>, s: Summary, nominal: real)
    requires LooksAlike(windows, s, nominal)
    ensures Classify(s, |windows|, nominal) != NoCadence
    ensures Classify(s, |windows|, nominal) == FixedLike <==> |windows| >= 10 && LooksFixed(windows, s, nominal)
    ensures Classify(s, |windows|, nominal) == VariableLike <==>
      |windows| >= 10 && !LooksFixed(windows, s, nominal) && LooksVariable(windows, s, nominal)
  {
  }

  /**
   When each class is given: NoCadence exactly without a capture; FixedLike with ten windows of which
   four fifths, and the median, are near nominal and that lie close together; VariableLike with ten
   windows of which at most half are near and that lie far apart; Indeterminate otherwise.
   */
  lemma CadenceClassMeans(r: Analysis, c: Capture, nominal: Double)
    requires IsAnalysis(r, c, nominal)
    ensures r.classification == NoCadence <==> !c.available
    ensures r.classification == FixedLike <==> |r.windows| >= 10 && LooksFixed(r.windows, r.summary.value, nominal.value)
    ensures r.classification == VariableLike <==>
      |r.windows| >= 10 && !LooksFixed(r.windows, r.summary.value, nominal.value) && LooksVariable(r.windows, r.summary.value, nominal.value)
  {
    if r.windows != [] {
      AnalysisLooks(r, c, nominal);
      ClassFromLooks(r.windows, r.summary.value, nominal.value);
    }
  }

  function EventsOf(windows: seq<Window>): seq<nat> {
    if windows == [] then [] else EventsOf(windows[..|windows| - 1]) + [windows[|windows| - 1].events]
  }

  lemma {:induction false} SumOfRates(windows: seq<Window>)
    requires AreRates(windows)
    ensures Sum(RatesOf(windows)) == SumOf(EventsOf(windows)) as real && |EventsOf(windows)| == |windows|
    ensures forall i :: 0 <= i < |windows| ==> EventsOf(windows)[i] == windows[i].events
  {
    if windows != [] {
      var n := |windows| - 1;
      SumOfRates(windows[..n]);
      assert RatesOf(windows)[..n] == RatesOf(windows[..n]);
      assert EventsOf(windows)[..n] == EventsOf(windows[..n]);
    }
  }

  lemma AverageOfRates(windows: seq<Window>)
    requires windows != [] && AreRates(windows)
    ensures Mean(RatesOf(windows)) == SumOf(EventsOf(windows)) as real / |windows| as real
  {
    SumOfRates(windows);
  }

  lemma ReportedAverage(r: Analysis, c: Capture, nominal: Double)
    requires IsAnalysis(r, c, nominal) && r.summary.Some?
    ensures r.windows != [] && r.summary.value.average == Mean(RatesOf(r.windows))
    ensures |c.timestamps| >= 2 && Increasing(c.timestamps) && c.frequency > 0
    ensures IsWindows(r.windows, c.timestamps, c.frequency as uint64)
  {
  }

  lemma EventsPartition(windows: seq<Window>, c: Capture)
    requires |c.timestamps| >= 2 && Increasing(c.timestamps) && c.frequency > 0
    requires IsWindows(windows, c.timestamps, c.frequency as uint64)
    ensures AreRates(windows)
    ensures SumOf(EventsOf(windows)) == CountBetween(c.timestamps, c.timestamps[0] as int, 0, |windows| * c.frequency as int)
  {
    SumOfRates(windows);
    WindowsPartition(c.timestamps, c.frequency as uint64, EventsOf(windows));
  }

  /** The average rate is the number of timestamps before the last complete second, divided by the windows. */
  lemma AverageMeans(r: Analysis, c: Capture, nominal: Double)
    requires IsAnalysis(r, c, nominal) && r.summary.Some?
    ensures |c.timestamps| >= 2 && r.windows != []
    ensures r.summary.value.average
      == CountBetween(c.timestamps, c.timestamps[0] as int, 0, |r.windows| * c.frequency as int) as real / |r.windows| as real
  {
    ReportedAverage(r, c, nominal);
    EventsPartition(r.windows, c);
    AverageOfRates(r.windows);
  }

  /** Twice the median is the sum of the two rates in the middle, the same one for an odd number of windows. */
  lemma MedianIs(r: Analysis, c: Capture, nominal: Double) returns (low: real, high: real)
    requires IsAnalysis(r, c, nominal) && r.summary.Some?
    ensures var rates := RatesOf(r.windows);
      && low in rates && high in rates && 2.0 * r.summary.value.median == low + high
      && 2 * CountAtMost(rates, low) >= |rates| && 2 * CountBelow(rates, low) < |rates|
      && 2 * CountAtMost(rates, high) > |rates| && 2 * CountBelow(rates, high) <= |rates|
      && (|rates| % 2 == 1 ==> low == high)
  {
    ReportedMedian(r, c, nominal);
    low, high := MedianMeans(RatesOf(r.windows));
  }

  lemma ReportedMedian(r: Analysis, c: Capture, nominal: Double)
    requires IsAnalysis(r, c, nominal) && r.summary.Some?
    ensures r.windows != [] && r.summary.value.median == Median(RatesOf(r.windows))
  {
  }

  /** The extremes are those of the windows. */
  lemma ExtremesMean(windows: seq<Window>, nominal: Double) returns (low: nat, high: nat)
    requires windows != []
    ensures low < |windows| && high < |windows|
    ensures var s := Summarize(RatesOf(windows), nominal);
      && windows[low].hz == s.minimum && windows[high].hz == s.maximum && s.range == s.maximum - s.minimum
      && forall i :: 0 <= i < |windows| ==> s.minimum <= windows[i].hz <= s.maximum
  {
    var rates := RatesOf(windows);
    low :| low < |rates| && rates[low] == Minimum(rates);
    high :| high < |rates| && rates[high] == Maximum(rates);
    assert forall i :: 0 <= i < |windows| ==> rates[i] == windows[i].hz;
  }
}
