/**
 Captured presentation frames, and what it means to count them: every tally of VrrAnalysis.cpp is
 the number of frames that meet a criterion, so none of them depends on the order of the capture.
 */
module VrrFrames {
  import opened Options
  import opened MachineIntegers
  import opened Permutation

  const MODE_UNKNOWN := 0
  const MODE_HARDWARE_INDEPENDENT_FLIP := 3
  const MODE_COMPOSED_INDEPENDENT_FLIP := 8
  const TYPE_INTEL_XEFG := 50
  const TYPE_AMD_AFMF := 100

  /** An optional double: absent, an infinity or a NaN, or a finite value. */
  datatype Measure = Missing | NotFinite | Finite(value: real)

  datatype Frame = Frame(
    processId: nat, swapchain: nat, presentMode: int, presentStart: Option<uint64>,
    dropped: Option<bool>, allowsTearing: Option<bool>,
    presentRuntime: Option<int>, frameType: Option<int>, syncInterval: Option<int>,
    betweenPresents: Measure, betweenDisplayChange: Measure, displayedTime: Measure,
    untilDisplayed: Measure, displayLatency: Measure, renderPresentLatency: Measure,
    flipDelay: Measure)

  predicate IsDisplayed(f: Frame) {
    && f.swapchain != 0
    && f.dropped != Some(true)
    && f.betweenDisplayChange.Finite?
    && f.betweenDisplayChange.value > 0.0
  }

  predicate IsIndependentFlip(mode: int) {
    mode == MODE_HARDWARE_INDEPENDENT_FLIP || mode == MODE_COMPOSED_INDEPENDENT_FLIP
  }

  /** The frame came onto the screen: on a swapchain, not reported as dropped, after a positive time. */
  predicate Showed(f: Frame) {
    && f.swapchain > 0
    && (f.dropped.Some? ==> !f.dropped.value)
    && match f.betweenDisplayChange
       case Finite(time) => 0.0 < time
       case _ => false
  }

  lemma DisplayedShowed(f: Frame)
    ensures IsDisplayed(f) <==> Showed(f)
  {
    assert f.dropped == Some(true) <==> f.dropped.Some? && f.dropped.value;
  }

  /** The attributes that the analysis breaks down by value. */
  datatype Attribute = PresentMode | PresentRuntime | FrameType | SyncInterval

  /** The value a frame is filed under, if any: an unknown present mode is not filed. */
  function ValueOf(a: Attribute, f: Frame): Option<int> {
    match a
    case PresentMode => if f.presentMode == MODE_UNKNOWN then None else Some(f.presentMode)
    case PresentRuntime => f.presentRuntime
    case FrameType => f.frameType
    case SyncInterval => f.syncInterval
  }

  datatype Metric =
    | BetweenPresents | BetweenDisplayChange | DisplayedTime | UntilDisplayed
    | DisplayLatency | RenderPresentLatency | FlipDelay

  function MeasureOf(m: Metric, f: Frame): Measure {
    match m
    case BetweenPresents => f.betweenPresents
    case BetweenDisplayChange => f.betweenDisplayChange
    case DisplayedTime => f.displayedTime
    case UntilDisplayed => f.untilDisplayed
    case DisplayLatency => f.displayLatency
    case RenderPresentLatency => f.renderPresentLatency
    case FlipDelay => f.flipDelay
  }

  /** Only finite values are kept, and of the display-change intervals only positive ones. */
  predicate Keeps(m: Metric, f: Frame) {
    MeasureOf(m, f).Finite? && (m == BetweenDisplayChange ==> MeasureOf(m, f).value > 0.0)
  }

  datatype Quality =
    | Any
    | DropReported
    | Dropped
    | ModeKnown
    | IndependentFlip
    | Generated
    | Tearing(value: Option<bool>)
    | Has(attribute: Attribute, key: int)
    | Paced(metric: Metric, interval: real)

  predicate HasQuality(q: Quality, f: Frame) {
    match q
    case Any => true
    case DropReported => f.dropped.Some?
    case Dropped => f.dropped == Some(true)
    case ModeKnown => f.presentMode != MODE_UNKNOWN
    case IndependentFlip => f.presentMode == 3 || f.presentMode == 8
    case Generated => f.frameType == Some(50) || f.frameType == Some(100)
    case Tearing(value) => f.allowsTearing == value
    case Has(a, key) => ValueOf(a, f) == Some(key)
    case Paced(m, v) => Keeps(m, f) && MeasureOf(m, f).value == v
  }

  /** Displayed frames of a process, on any swapchain or on one; or any frames of one swapchain. */
  datatype Criterion =
    | Displayed(process: nat)
    | DisplayedOn(process: nat, chain: nat)
    | On(process: nat, chain: nat, quality: Quality)

  predicate Meets(c: Criterion, f: Frame) {
    match c
    case Displayed(process) => f.processId == process && Showed(f)
    case DisplayedOn(process, chain) => f.processId == process && Showed(f) && f.swapchain == chain
    case On(process, chain, quality) => f.processId == process && f.swapchain == chain && HasQuality(quality, f)
  }

  function Count(frames: seq<Frame>, c: Criterion): nat {
    if frames == [] then 0
    else Count(frames[..|frames| - 1], c) + (if Meets(c, frames[|frames| - 1]) then 1 else 0)
  }

  lemma CountNext(frames: seq<Frame>, i: nat, c: Criterion)
    requires i < |frames|
    ensures Count(frames[..i + 1], c) == Count(frames[..i], c) + (if Meets(c, frames[i]) then 1 else 0)
  {
    assert frames[..i + 1][..i] == frames[..i];
  }

  lemma {:induction false} CountSplit(frames: seq<Frame>, k: nat, c: Criterion)
    requires k < |frames|
    ensures Count(frames, c) == Count(Without(frames, k), c) + (if Meets(c, frames[k]) then 1 else 0)
    decreases |frames|
  {
    var n := |frames| - 1;
    if k == n {
      assert Without(frames, k) == frames[..n];
    } else {
      CountSplit(frames[..n], k, c);
      assert Without(frames, k)[..n - 1] == Without(frames[..n], k);
    }
  }

  /** A tally does not depend on the order of the frames. */
  lemma {:induction false} CountOfPermutation(a: seq<Frame>, b: seq<Frame>, c: Criterion)
    requires multiset(a) == multiset(b)
    ensures Count(a, c) == Count(b, c)
    decreases |a|
  {
    LengthOfPermutation(a, b);
    if a != [] {
      var k := LastElement(a, b);
      CountSplit(b, k, c);
      CountOfPermutation(a[..|a| - 1], Without(b, k), c);
    }
  }

  /** Something is counted exactly when some frame meets the criterion. */
  lemma {:induction false} CountPositive(frames: seq<Frame>, c: Criterion)
    ensures Count(frames, c) > 0 <==> exists i :: 0 <= i < |frames| && Meets(c, frames[i])
  {
    if frames == [] {
    } else {
      var n := |frames| - 1;
      CountPositive(frames[..n], c);
      if Count(frames[..n], c) > 0 {
        var i :| 0 <= i < n && Meets(c, frames[..n][i]);
        assert Meets(c, frames[i]);
      } else {
        assert forall i :: 0 <= i < n ==> frames[i] == frames[..n][i];
      }
    }
  }

  /** A weaker criterion counts at least as many frames. */
  lemma {:induction false} CountWeaker(frames: seq<Frame>, c: Criterion, d: Criterion)
    requires forall f :: Meets(c, f) ==> Meets(d, f)
    ensures Count(frames, c) <= Count(frames, d)
  {
    if frames == [] {
    } else {
      CountWeaker(frames[..|frames| - 1], c, d);
    }
  }

  /** Two criteria that no frame meets together, both within a third. */
  lemma {:induction false} CountDisjoint(frames: seq<Frame>, c: Criterion, d: Criterion, all: Criterion)
    requires forall f :: !(Meets(c, f) && Meets(d, f))
    requires forall f :: Meets(c, f) || Meets(d, f) ==> Meets(all, f)
    ensures Count(frames, c) + Count(frames, d) <= Count(frames, all)
  {
    if frames == [] {
    } else {
      CountDisjoint(frames[..|frames| - 1], c, d, all);
    }
  }

  // ---------------------------------------------------------------- breakdowns by value

  /** The values under which frames of one swapchain are filed. */
  ghost function KeysOf(frames: seq<Frame>, process: nat, chain: nat, a: Attribute): set<int> {
    set i | 0 <= i < |frames| && Meets(On(process, chain, Any), frames[i]) && ValueOf(a, frames[i]).Some?
      :: ValueOf(a, frames[i]).value
  }

  /** How many frames of one swapchain have each value. */
  ghost function Breakdown(frames: seq<Frame>, process: nat, chain: nat, a: Attribute): map<int, nat> {
    map k | k in KeysOf(frames, process, chain, a) :: Count(frames, On(process, chain, Has(a, k)))
  }

  function Incremented<K>(m: map<K, nat>, k: K): map<K, nat> {
    m[k := (if k in m then m[k] else 0) + 1]
  }

  lemma KeysPositive(frames: seq<Frame>, process: nat, chain: nat, a: Attribute, k: int)
    ensures k in KeysOf(frames, process, chain, a) <==> Count(frames, On(process, chain, Has(a, k))) > 0
  {
    var c := On(process, chain, Has(a, k));
    CountPositive(frames, c);
    if k in KeysOf(frames, process, chain, a) {
      var i :| 0 <= i < |frames| && Meets(On(process, chain, Any), frames[i]) && ValueOf(a, frames[i]) == Some(k);
      assert Meets(c, frames[i]);
    }
    if Count(frames, c) > 0 {
      var i :| 0 <= i < |frames| && Meets(c, frames[i]);
      assert Meets(On(process, chain, Any), frames[i]) && ValueOf(a, frames[i]) == Some(k);
    }
  }

  /** Filing one more frame is incrementing its entry, which starts at zero. */
  lemma BreakdownNext(frames: seq<Frame>, i: nat, process: nat, chain: nat, a: Attribute)
    requires i < |frames|
    ensures Breakdown(frames[..i + 1], process, chain, a) ==
      if Meets(On(process, chain, Any), frames[i]) && ValueOf(a, frames[i]).Some?
      then Incremented(Breakdown(frames[..i], process, chain, a), ValueOf(a, frames[i]).value)
      else Breakdown(frames[..i], process, chain, a)
  {
    var before, after := Breakdown(frames[..i], process, chain, a), Breakdown(frames[..i + 1], process, chain, a);
    var filed := Meets(On(process, chain, Any), frames[i]) && ValueOf(a, frames[i]).Some?;
    var next := if filed then Incremented(before, ValueOf(a, frames[i]).value) else before;
    forall k: int
      ensures k in after <==> k in next
      ensures k in after ==> after[k] == next[k]
    {
      KeysPositive(frames[..i], process, chain, a, k);
      KeysPositive(frames[..i + 1], process, chain, a, k);
      CountNext(frames, i, On(process, chain, Has(a, k)));
    }
    assert after == next;
  }

  /** The breakdown by value does not depend on the order of the frames. */
  lemma BreakdownOfPermutation(a: seq<Frame>, b: seq<Frame>, process: nat, chain: nat, t: Attribute)
    requires multiset(a) == multiset(b)
    ensures Breakdown(a, process, chain, t) == Breakdown(b, process, chain, t)
  {
    var x, y := Breakdown(a, process, chain, t), Breakdown(b, process, chain, t);
    forall k: int
      ensures k in x <==> k in y
      ensures k in x ==> x[k] == y[k]
    {
      KeysPositive(a, process, chain, t, k);
      KeysPositive(b, process, chain, t, k);
      CountOfPermutation(a, b, On(process, chain, Has(t, k)));
    }
    assert x == y;
  }

  /** The sum of all entries. */
  ghost function Total<K>(m: map<K, nat>): nat {
    if m == map[] then 0 else
      var k :| k in m;
      m[k] + Total(m - {k})
  }

  lemma {:induction false} TotalWithout<K>(m: map<K, nat>, k: K)
    requires k in m
    ensures Total(m) == m[k] + Total(m - {k})
    decreases |m|
  {
    var j :| j in m && Total(m) == m[j] + Total(m - {j});
    if j != k {
      TotalWithout(m - {j}, k);
      TotalWithout(m - {k}, j);
      assert m - {j} - {k} == m - {k} - {j};
    }
  }

  lemma TotalIncremented<K>(m: map<K, nat>, k: K)
    ensures Total(Incremented(m, k)) == Total(m) + 1
  {
    var next := Incremented(m, k);
    TotalWithout(next, k);
    if k in m {
      TotalWithout(m, k);
      assert next - {k} == m - {k};
    } else {
      assert next - {k} == m;
    }
  }

  /** Conservation: the entries sum to the number of frames that have a value at all. */
  lemma {:induction false} BreakdownTotal(frames: seq<Frame>, process: nat, chain: nat)
    ensures Total(Breakdown(frames, process, chain, PresentMode)) == Count(frames, On(process, chain, ModeKnown))
  {
    if frames == [] {
      assert Breakdown(frames, process, chain, PresentMode) == map[];
    } else {
      var n := |frames| - 1;
      BreakdownTotal(frames[..n], process, chain);
      BreakdownNext(frames, n, process, chain, PresentMode);
      assert frames[..n + 1] == frames;
      if Meets(On(process, chain, ModeKnown), frames[n]) {
        TotalIncremented(Breakdown(frames[..n], process, chain, PresentMode), frames[n].presentMode);
      }
    }
  }

  // ---------------------------------------------------------------- pacing values

  function Values(frames: seq<Frame>, process: nat, chain: nat, m: Metric): seq<real> {
    if frames == [] then [] else
      var n := |frames| - 1;
      Values(frames[..n], process, chain, m) + Contribution(frames[n], process, chain, m)
  }

  function Contribution(f: Frame, process: nat, chain: nat, m: Metric): seq<real> {
    if Meets(On(process, chain, Any), f) && Keeps(m, f) then [MeasureOf(m, f).value] else []
  }

  lemma ValuesNext(frames: seq<Frame>, i: nat, process: nat, chain: nat, m: Metric)
    requires i < |frames|
    ensures Values(frames[..i + 1], process, chain, m)
      == Values(frames[..i], process, chain, m) + Contribution(frames[i], process, chain, m)
  {
    assert frames[..i + 1][..i] == frames[..i];
  }

  /** Each value is collected as often as there are frames to collect it from. */
  lemma {:induction false} ValuesCount(frames: seq<Frame>, process: nat, chain: nat, m: Metric, v: real)
    ensures multiset(Values(frames, process, chain, m))[v] == Count(frames, On(process, chain, Paced(m, v)))
  {
    if frames == [] {
    } else {
      var n := |frames| - 1;
      ValuesCount(frames[..n], process, chain, m, v);
      ContributionCount(frames[n], process, chain, m, v);
    }
  }

  lemma ContributionCount(f: Frame, process: nat, chain: nat, m: Metric, v: real)
    ensures multiset(Contribution(f, process, chain, m))[v] == if Meets(On(process, chain, Paced(m, v)), f) then 1 else 0
  {
  }

  /** The collected values are the same, in some order, for every order of the frames. */
  lemma ValuesOfPermutation(a: seq<Frame>, b: seq<Frame>, process: nat, chain: nat, m: Metric)
    requires multiset(a) == multiset(b)
    ensures multiset(Values(a, process, chain, m)) == multiset(Values(b, process, chain, m))
  {
    var x, y := multiset(Values(a, process, chain, m)), multiset(Values(b, process, chain, m));
    forall v: real ensures x[v] == y[v] {
      ValuesCount(a, process, chain, m, v);
      ValuesCount(b, process, chain, m, v);
      CountOfPermutation(a, b, On(process, chain, Paced(m, v)));
    }
  }

  /** Every kept display-change interval is positive, and every displayed frame contributes one. */
  lemma {:induction false} DisplayIntervalsPositive(frames: seq<Frame>, process: nat, chain: nat)
    ensures forall v :: v in Values(frames, process, chain, BetweenDisplayChange) ==> v > 0.0
    ensures |Values(frames, process, chain, BetweenDisplayChange)| >= Count(frames, DisplayedOn(process, chain))
  {
    if frames == [] {
    } else {
      DisplayIntervalsPositive(frames[..|frames| - 1], process, chain);
    }
  }
}
