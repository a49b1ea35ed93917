/**
 AnalyzeVrrPresentation of VrrAnalysis.cpp: choosing the dominant swapchain of the measured
 process and summarising its frames. The method is proved against a declarative meaning made of
 frame counts (VrrFrames), from which order-independence, conservation and the meaning of the
 dominant swapchain and of the classes follow. Doubles are reals.
 */
module VrrPresentation {
  import opened Options
  import opened Permutation
  import opened Statistics
  import opened VrrFrames

  const MINIMUM_MODE_SAMPLES := 60
  const DOMINANT_SHARE := 0.7

  datatype Class = Unknown | VrrSafe | Marginal | NotVrrSafe

  datatype Selection = Selection(
    usable: nat, dominant: Option<nat>, displayed: nat, share: real)

  datatype Counts = Counts(
    frames: nat, dropped: nat, dropReported: nat, modeKnown: nat, independentFlip: nat,
    tearing: nat, notTearing: nat, tearingUnknown: nat, generated: bool)

  datatype Breakdowns = Breakdowns(
    modes: map<int, nat>, runtimes: map<int, nat>, types: map<int, nat>, intervals: map<int, nat>)

  datatype Pacing = Pacing(
    betweenPresents: seq<real>, betweenDisplayChange: seq<real>, displayedTime: seq<real>,
    untilDisplayed: seq<real>, displayLatency: seq<real>, renderPresentLatency: seq<real>,
    flipDelay: seq<real>)

  datatype Percentiles = Percentiles(
    metric: Metric, samples: nat,
    p50: Option<real>, p95: Option<real>, p99: Option<real>, maximum: Option<real>)

  datatype Analysis = Analysis(
    selection: Selection, counts: Counts, breakdowns: Breakdowns,
    droppedPercentage: Option<real>, independentFlipPercentage: Option<real>,
    displayChangeRateHz: Option<real>, pacing: seq<Percentiles>, classification: Class)

  const NO_COUNTS := Counts(0, 0, 0, 0, 0, 0, 0, 0, false)
  const NO_BREAKDOWNS := Breakdowns(map[], map[], map[], map[])
  const NO_PACING := Pacing([], [], [], [], [], [], [])

  // ---------------------------------------------------------------- the dominant swapchain

  /** The entries are exactly the swapchains with displayed frames, with how many they have. */
  ghost predicate CountsChains(m: map<nat, nat>, frames: seq<Frame>, process: nat) {
    && (forall chain: nat :: chain in m <==> Count(frames, DisplayedOn(process, chain)) > 0)
    && (forall chain: nat :: chain in m ==> m[chain] == Count(frames, DisplayedOn(process, chain)))
  }

  method CountDisplayed(frames: seq<Frame>, process: nat) returns (bySwapchain: map<nat, nat>, usable: nat)
    ensures CountsChains(bySwapchain, frames, process)
    ensures usable == Count(frames, Displayed(process))
  {
    bySwapchain, usable := map[], 0;
    for i := 0 to |frames|
      invariant CountsChains(bySwapchain, frames[..i], process)
      invariant usable == Count(frames[..i], Displayed(process))
    {
      forall chain: nat { CountNext(frames, i, DisplayedOn(process, chain)); }
      CountNext(frames, i, Displayed(process));
      DisplayedShowed(frames[i]);
      if frames[i].processId == process && IsDisplayed(frames[i]) {
        bySwapchain := Incremented(bySwapchain, frames[i].swapchain);
        usable := usable + 1;
      }
    }
    assert frames[..|frames|] == frames;
  }

  lemma {:induction false} Least(s: set<nat>) returns (k: nat)
    requires s != {}
    ensures k in s && forall j :: j in s ==> k <= j
  {
    k :| k in s;
    if s != {k} {
      var rest := s - {k};
      var l := Least(rest);
      assert forall j :: j in s ==> j == k || j in rest;
      if l < k { k := l; }
    }
  }

  /** The entry with the greatest count among `keys`, and of several the one with the least key. */
  ghost predicate Leads(m: map<nat, nat>, keys: set<nat>, dominant: nat, samples: nat) {
    && dominant in keys && dominant in m && m[dominant] == samples
    && forall k :: k in keys && k in m ==> m[k] < samples || (m[k] == samples && dominant <= k)
  }

  lemma LeadsNext(m: map<nat, nat>, seen: set<nat>, next: nat, dominant: nat, samples: nat)
    requires Leads(m, seen, dominant, samples) && next in m && dominant < next
    requires forall k :: k in seen ==> k < next
    ensures m[next] > samples ==> Leads(m, seen + {next}, next, m[next])
    ensures m[next] <= samples ==> Leads(m, seen + {next}, dominant, samples)
  {
  }

  /** Scans the entries in ascending key order and keeps the first with the greatest count. */
  method MostDisplayed(bySwapchain: map<nat, nat>) returns (dominant: Option<nat>, samples: nat)
    ensures dominant == None ==> bySwapchain == map[] && samples == 0
    ensures dominant.Some? ==> Leads(bySwapchain, bySwapchain.Keys, dominant.value, samples)
  {
    dominant, samples := None, 0;
    var left := bySwapchain.Keys;
    ghost var seen: set<nat> := {};
    while left != {}
      invariant seen + left == bySwapchain.Keys
      invariant Precedes(seen, left)
      invariant dominant == None ==> seen == {} && samples == 0
      invariant dominant.Some? ==> Leads(bySwapchain, seen, dominant.value, samples)
      decreases left
    {
      ghost var least := Least(left);
      var next :| next in left && forall j :: j in left ==> next <= j;
      if dominant.Some? { LeadsNext(bySwapchain, seen, next, dominant.value, samples); }
      if dominant == None || bySwapchain[next] > samples {
        dominant, samples := Some(next), bySwapchain[next];
      }
      left := left - {next};
      seen := seen + {next};
    }
    assert seen == bySwapchain.Keys;
  }

  ghost predicate Precedes(seen: set<nat>, left: set<nat>) {
    forall k :: k in seen ==> forall j :: j in left ==> k < j
  }

  /** The most displayed swapchain, accepted when it has at least 70 % of the displayed frames. */
  ghost predicate IsSelection(s: Selection, frames: seq<Frame>, process: nat) {
    && s.usable == Count(frames, Displayed(process))
    && (s.usable == 0 ==> s == Selection(0, None, 0, 0.0))
    && (s.usable > 0 ==> exists chain: nat :: IsMostDisplayed(s, frames, process, chain))
  }

  ghost predicate IsMostDisplayed(s: Selection, frames: seq<Frame>, process: nat, chain: nat)
    requires s.usable > 0
  {
    var displayed := Count(frames, DisplayedOn(process, chain));
    && displayed > 0
    && (forall other: nat :: var n := Count(frames, DisplayedOn(process, other));
        n < displayed || (n == displayed && chain <= other))
    && s.share == displayed as real / s.usable as real
    && s.dominant == (if s.share < DOMINANT_SHARE then None else Some(chain))
    && s.displayed == (if s.share < DOMINANT_SHARE then 0 else displayed)
  }

  method SelectSwapchain(frames: seq<Frame>, process: nat) returns (s: Selection)
    ensures IsSelection(s, frames, process)
  {
    var bySwapchain, usable := CountDisplayed(frames, process);
    var dominant, samples := MostDisplayed(bySwapchain);
    SomeChainDisplayed(frames, process);
    if usable == 0 || dominant == None {
      s := Selection(usable, None, 0, 0.0);
    } else {
      var share := samples as real / usable as real;
      s := if share < DOMINANT_SHARE then Selection(usable, None, 0, share) else Selection(usable, dominant, samples, share);
      assert IsMostDisplayed(s, frames, process, dominant.value);
    }
  }

  /** Frames are displayed exactly when some swapchain displays frames. */
  lemma SomeChainDisplayed(frames: seq<Frame>, process: nat)
    ensures Count(frames, Displayed(process)) > 0
      <==> exists chain: nat :: Count(frames, DisplayedOn(process, chain)) > 0
  {
    CountPositive(frames, Displayed(process));
    if Count(frames, Displayed(process)) > 0 {
      var i :| 0 <= i < |frames| && Meets(Displayed(process), frames[i]);
      assert Meets(DisplayedOn(process, frames[i].swapchain), frames[i]);
      CountPositive(frames, DisplayedOn(process, frames[i].swapchain));
    }
    if chain: nat :| Count(frames, DisplayedOn(process, chain)) > 0 {
      CountWeaker(frames, DisplayedOn(process, chain), Displayed(process));
    }
  }

  /** What a selection says does not depend on the order of the frames. */
  lemma SelectionOfPermutation(a: seq<Frame>, b: seq<Frame>, process: nat, s: Selection, t: Selection)
    requires multiset(a) == multiset(b)
    requires IsSelection(s, a, process) && IsSelection(t, b, process)
    ensures s == t
  {
    CountOfPermutation(a, b, Displayed(process));
    if s.usable > 0 {
      var x: nat :| IsMostDisplayed(s, a, process, x);
      var y: nat :| IsMostDisplayed(t, b, process, y);
      CountOfPermutation(a, b, DisplayedOn(process, x));
      CountOfPermutation(a, b, DisplayedOn(process, y));
    }
  }

  lemma Sign(x: real, y: real)
    requires y > 0.0
    ensures x >= 0.0 <==> x * y >= 0.0
  {
  }

  lemma Share(displayed: nat, usable: nat)
    requires usable > 0
    ensures displayed as real / usable as real >= DOMINANT_SHARE <==> 10 * displayed >= 7 * usable
  {
    var u := usable as real;
    var q := displayed as real / u;
    Sign(q - DOMINANT_SHARE, u);
    assert (q - DOMINANT_SHARE) * u == displayed as real - DOMINANT_SHARE * u;
  }

  /**
   A swapchain is reported dominant exactly when it displayed at least 70 % of the process's
   displayed frames: neither the order of the table nor the tie-break has any part in it.
   */
  lemma DominantMeans(frames: seq<Frame>, process: nat, s: Selection, chain: nat)
    requires IsSelection(s, frames, process)
    ensures s.dominant == Some(chain) <==>
      s.usable > 0 && 10 * Count(frames, DisplayedOn(process, chain)) >= 7 * Count(frames, Displayed(process))
  {
    if s.usable > 0 {
      var best: nat :| IsMostDisplayed(s, frames, process, best);
      Share(Count(frames, DisplayedOn(process, best)), s.usable);
      if chain != best {
        CountDisjoint(frames, DisplayedOn(process, chain), DisplayedOn(process, best), Displayed(process));
      }
    }
  }

  /** The dominant swapchain displayed strictly more frames than any other, over twice as many. */
  lemma DominantIsUniqueMaximum(frames: seq<Frame>, process: nat, s: Selection, other: nat)
    requires IsSelection(s, frames, process) && s.dominant.Some? && other != s.dominant.value
    ensures s.displayed == Count(frames, DisplayedOn(process, s.dominant.value))
    ensures 7 * Count(frames, DisplayedOn(process, other)) <= 3 * s.displayed && s.displayed > 0
  {
    DominantMeans(frames, process, s, s.dominant.value);
    CountDisjoint(frames, DisplayedOn(process, other), DisplayedOn(process, s.dominant.value), Displayed(process));
  }

  // ---------------------------------------------------------------- tallies of its frames

  ghost function CountsOf(frames: seq<Frame>, process: nat, chain: nat): Counts {
    Counts(
      Count(frames, On(process, chain, Any)),
      Count(frames, On(process, chain, Dropped)),
      Count(frames, On(process, chain, DropReported)),
      Count(frames, On(process, chain, ModeKnown)),
      Count(frames, On(process, chain, IndependentFlip)),
      Count(frames, On(process, chain, Tearing(Some(true)))),
      Count(frames, On(process, chain, Tearing(Some(false)))),
      Count(frames, On(process, chain, Tearing(None))),
      Count(frames, On(process, chain, Generated)) > 0)
  }

  ghost function BreakdownsOf(frames: seq<Frame>, process: nat, chain: nat): Breakdowns {
    Breakdowns(
      Breakdown(frames, process, chain, PresentMode),
      Breakdown(frames, process, chain, PresentRuntime),
      Breakdown(frames, process, chain, FrameType),
      Breakdown(frames, process, chain, SyncInterval))
  }

  ghost function PacingOf(frames: seq<Frame>, process: nat, chain: nat): Pacing {
    Pacing(
      Values(frames, process, chain, BetweenPresents),
      Values(frames, process, chain, BetweenDisplayChange),
      Values(frames, process, chain, DisplayedTime),
      Values(frames, process, chain, UntilDisplayed),
      Values(frames, process, chain, DisplayLatency),
      Values(frames, process, chain, RenderPresentLatency),
      Values(frames, process, chain, FlipDelay))
  }

  /** Frame `i` is one of those the tallies are about. */
  predicate IsOn(frames: seq<Frame>, i: nat, process: nat, chain: nat) {
    i < |frames| && frames[i].processId == process && frames[i].swapchain == chain
  }

  lemma CountsNext(frames: seq<Frame>, i: nat, process: nat, chain: nat)
    requires i < |frames|
    ensures forall q: Quality :: (
      Count(frames[..i + 1], On(process, chain, q)) == Count(frames[..i], On(process, chain, q))
        + if IsOn(frames, i, process, chain) && HasQuality(q, frames[i]) then 1 else 0)
  {
    forall q: Quality { CountNext(frames, i, On(process, chain, q)); }
  }

  /** `n` grows by one for a frame with the quality. */
  ghost predicate Grows(n: nat, r: nat, q: Quality, f: Frame) {
    r == n + if HasQuality(q, f) then 1 else 0
  }

  method TallyTearing(c: Counts, f: Frame) returns (r: Counts)
    ensures r == c.(tearing := r.tearing, notTearing := r.notTearing, tearingUnknown := r.tearingUnknown)
    ensures Grows(c.tearing, r.tearing, Tearing(Some(true)), f)
    ensures Grows(c.notTearing, r.notTearing, Tearing(Some(false)), f)
    ensures Grows(c.tearingUnknown, r.tearingUnknown, Tearing(None), f)
  {
    if f.allowsTearing.Some? {
      if f.allowsTearing.value { r := c.(tearing := c.tearing + 1); }
      else { r := c.(notTearing := c.notTearing + 1); }
    } else {
      r := c.(tearingUnknown := c.tearingUnknown + 1);
    }
  }

  method TallyFlags(c: Counts, f: Frame) returns (r: Counts)
    ensures r.frames == c.frames + 1
    ensures Grows(c.dropped, r.dropped, Dropped, f) && Grows(c.dropReported, r.dropReported, DropReported, f)
    ensures Grows(c.modeKnown, r.modeKnown, ModeKnown, f)
    ensures Grows(c.independentFlip, r.independentFlip, IndependentFlip, f)
    ensures Grows(c.tearing, r.tearing, Tearing(Some(true)), f)
    ensures Grows(c.notTearing, r.notTearing, Tearing(Some(false)), f)
    ensures Grows(c.tearingUnknown, r.tearingUnknown, Tearing(None), f)
    ensures r.generated == (c.generated || HasQuality(Generated, f))
  {
    r := c.(frames := c.frames + 1);
    if f.dropped.Some? {
      r := r.(dropReported := r.dropReported + 1);
      if f.dropped.value { r := r.(dropped := r.dropped + 1); }
    }
    if f.presentMode != MODE_UNKNOWN {
      r := r.(modeKnown := r.modeKnown + 1);
      if IsIndependentFlip(f.presentMode) { r := r.(independentFlip := r.independentFlip + 1); }
    }
    if f.frameType.Some? {
      if f.frameType.value == TYPE_INTEL_XEFG || f.frameType.value == TYPE_AMD_AFMF { r := r.(generated := true); }
    }
    r := TallyTearing(r, f);
  }

  method AddCounts(c: Counts, f: Frame, ghost frames: seq<Frame>, ghost i: nat, ghost process: nat, ghost chain: nat)
    returns (r: Counts)
    requires IsOn(frames, i, process, chain) && f == frames[i] && c == CountsOf(frames[..i], process, chain)
    ensures r == CountsOf(frames[..i + 1], process, chain)
  {
    CountsNext(frames, i, process, chain);
    r := TallyFlags(c, f);
  }

  method AddBreakdowns(b: Breakdowns, f: Frame, ghost frames: seq<Frame>, ghost i: nat, ghost process: nat, ghost chain: nat)
    returns (r: Breakdowns)
    requires IsOn(frames, i, process, chain) && f == frames[i] && b == BreakdownsOf(frames[..i], process, chain)
    ensures r == BreakdownsOf(frames[..i + 1], process, chain)
  {
    BreakdownNext(frames, i, process, chain, PresentMode);
    BreakdownNext(frames, i, process, chain, PresentRuntime);
    BreakdownNext(frames, i, process, chain, FrameType);
    BreakdownNext(frames, i, process, chain, SyncInterval);
    r := b;
    if f.presentMode != MODE_UNKNOWN { r := r.(modes := Incremented(r.modes, f.presentMode)); }
    if f.presentRuntime.Some? { r := r.(runtimes := Incremented(r.runtimes, f.presentRuntime.value)); }
    if f.frameType.Some? { r := r.(types := Incremented(r.types, f.frameType.value)); }
    if f.syncInterval.Some? { r := r.(intervals := Incremented(r.intervals, f.syncInterval.value)); }
  }

  method AddFinite(measure: Measure, values: seq<real>) returns (r: seq<real>)
    ensures r == values + if measure.Finite? then [measure.value] else []
  {
    r := values;
    if measure.Finite? { r := r + [measure.value]; }
  }

  method AddPositiveFinite(measure: Measure, values: seq<real>) returns (r: seq<real>)
    ensures r == values + if measure.Finite? && measure.value > 0.0 then [measure.value] else []
  {
    r := values;
    if measure.Finite? && measure.value > 0.0 { r := r + [measure.value]; }
  }

  method AddPacing(p: Pacing, f: Frame, ghost frames: seq<Frame>, ghost i: nat, ghost process: nat, ghost chain: nat)
    returns (r: Pacing)
    requires IsOn(frames, i, process, chain) && f == frames[i] && p == PacingOf(frames[..i], process, chain)
    ensures r == PacingOf(frames[..i + 1], process, chain)
  {
    forall m: Metric { ValuesNext(frames, i, process, chain, m); }
    var betweenPresents := AddFinite(f.betweenPresents, p.betweenPresents);
    var betweenDisplayChange := AddPositiveFinite(f.betweenDisplayChange, p.betweenDisplayChange);
    var displayedTime := AddFinite(f.displayedTime, p.displayedTime);
    var untilDisplayed := AddFinite(f.untilDisplayed, p.untilDisplayed);
    var displayLatency := AddFinite(f.displayLatency, p.displayLatency);
    var renderPresentLatency := AddFinite(f.renderPresentLatency, p.renderPresentLatency);
    var flipDelay := AddFinite(f.flipDelay, p.flipDelay);
    r := Pacing(betweenPresents, betweenDisplayChange, displayedTime, untilDisplayed,
      displayLatency, renderPresentLatency, flipDelay);
  }

  /** A frame of another process or swapchain changes no tally. */
  lemma SkippedCounts(frames: seq<Frame>, i: nat, process: nat, chain: nat)
    requires i < |frames| && !IsOn(frames, i, process, chain)
    ensures CountsOf(frames[..i + 1], process, chain) == CountsOf(frames[..i], process, chain)
    ensures BreakdownsOf(frames[..i + 1], process, chain) == BreakdownsOf(frames[..i], process, chain)
  {
    CountsNext(frames, i, process, chain);
    forall a: Attribute { BreakdownNext(frames, i, process, chain, a); }
  }

  lemma SkippedPacing(frames: seq<Frame>, i: nat, process: nat, chain: nat)
    requires i < |frames| && !IsOn(frames, i, process, chain)
    ensures PacingOf(frames[..i + 1], process, chain) == PacingOf(frames[..i], process, chain)
  {
    forall m: Metric { ValuesNext(frames, i, process, chain, m); }
  }

  method TallyFrames(frames: seq<Frame>, process: nat, chain: nat)
    returns (counts: Counts, breakdowns: Breakdowns, pacing: Pacing)
    ensures counts == CountsOf(frames, process, chain)
    ensures breakdowns == BreakdownsOf(frames, process, chain)
    ensures pacing == PacingOf(frames, process, chain)
  {
    counts, breakdowns, pacing := NO_COUNTS, NO_BREAKDOWNS, NO_PACING;
    NothingTallied(process, chain);
    for i := 0 to |frames|
      invariant counts == CountsOf(frames[..i], process, chain)
      invariant breakdowns == BreakdownsOf(frames[..i], process, chain)
      invariant pacing == PacingOf(frames[..i], process, chain)
    {
      var frame := frames[i];
      if frame.processId != process || frame.swapchain != chain {
        SkippedCounts(frames, i, process, chain);
        SkippedPacing(frames, i, process, chain);
        continue;
      }
      counts := AddCounts(counts, frame, frames, i, process, chain);
      breakdowns := AddBreakdowns(breakdowns, frame, frames, i, process, chain);
      pacing := AddPacing(pacing, frame, frames, i, process, chain);
    }
    assert frames[..|frames|] == frames;
  }

  lemma NothingTallied(process: nat, chain: nat)
    ensures CountsOf([], process, chain) == NO_COUNTS && PacingOf([], process, chain) == NO_PACING
    ensures BreakdownsOf([], process, chain) == NO_BREAKDOWNS
  {
    assert forall a: Attribute :: Breakdown([], process, chain, a) == map[];
  }

  // ---------------------------------------------------------------- the report

  function Percentage(part: nat, whole: nat): Option<real> {
    if whole == 0 then None else Some(100.0 * part as real / whole as real)
  }

  function RateOf(intervals: seq<real>): Option<real> {
    var p50 := NearestRank(intervals, 50);
    if p50.Some? && p50.value > 0.0 then Some(1000.0 / p50.value) else None
  }

  function SummarizeMetric(metric: Metric, values: seq<real>): Percentiles {
    if values == [] then Percentiles(metric, 0, None, None, None, None) else
      Percentiles(metric, |values|, NearestRank(values, 50), NearestRank(values, 95), NearestRank(values, 99),
        Some(Maximum(values)))
  }

  function Summaries(p: Pacing): seq<Percentiles> {
    [ SummarizeMetric(BetweenPresents, p.betweenPresents),
      SummarizeMetric(BetweenDisplayChange, p.betweenDisplayChange),
      SummarizeMetric(DisplayedTime, p.displayedTime),
      SummarizeMetric(UntilDisplayed, p.untilDisplayed),
      SummarizeMetric(DisplayLatency, p.displayLatency),
      SummarizeMetric(RenderPresentLatency, p.renderPresentLatency),
      SummarizeMetric(FlipDelay, p.flipDelay) ]
  }

  function Classify(modeKnown: nat, percentage: Option<real>): Class {
    if modeKnown < MINIMUM_MODE_SAMPLES || percentage == None then Unknown
    else if percentage.value >= 90.0 then VrrSafe
    else if percentage.value >= 50.0 then Marginal
    else NotVrrSafe
  }

  function Report(s: Selection, c: Counts, b: Breakdowns, p: Pacing): Analysis {
    var flips := Percentage(c.independentFlip, c.modeKnown);
    Analysis(s, c, b, Percentage(c.dropped, c.dropReported), flips, RateOf(p.betweenDisplayChange),
      Summaries(p), Classify(c.modeKnown, flips))
  }

  function NothingDominant(s: Selection): Analysis {
    Analysis(s, NO_COUNTS, NO_BREAKDOWNS, None, None, None, [], Unknown)
  }

  ghost predicate IsAnalysis(r: Analysis, frames: seq<Frame>, process: nat) {
    && IsSelection(r.selection, frames, process)
    && r == match r.selection.dominant
            case None => NothingDominant(r.selection)
            case Some(chain) => Report(r.selection, CountsOf(frames, process, chain),
              BreakdownsOf(frames, process, chain), PacingOf(frames, process, chain))
  }

  method AnalyzeVrrPresentation(frames: seq<Frame>, process: nat) returns (r: Analysis)
    ensures IsAnalysis(r, frames, process)
  {
    var selection := SelectSwapchain(frames, process);
    if selection.dominant == None {
      r := NothingDominant(selection);
    } else {
      var chain := selection.dominant.value;
      var counts, breakdowns, pacing := TallyFrames(frames, process, chain);
      r := Report(selection, counts, breakdowns, pacing);
    }
  }

  // ---------------------------------------------------------------- what an analysis says

  lemma CountsOfPermutation(a: seq<Frame>, b: seq<Frame>, process: nat, chain: nat)
    requires multiset(a) == multiset(b)
    ensures CountsOf(a, process, chain) == CountsOf(b, process, chain)
    ensures BreakdownsOf(a, process, chain) == BreakdownsOf(b, process, chain)
  {
    forall q: Quality ensures Count(a, On(process, chain, q)) == Count(b, On(process, chain, q)) {
      CountOfPermutation(a, b, On(process, chain, q));
    }
    forall t: Attribute { BreakdownOfPermutation(a, b, process, chain, t); }
  }

  lemma SummaryOfPermutation(m: Metric, x: seq<real>, y: seq<real>)
    requires multiset(x) == multiset(y)
    ensures SummarizeMetric(m, x) == SummarizeMetric(m, y) && RateOf(x) == RateOf(y)
  {
    QuantileOfPermutation(x, y, 50);
    QuantileOfPermutation(x, y, 95);
    QuantileOfPermutation(x, y, 99);
    if x != [] { MaximumOfPermutation(x, y); }
  }

  lemma MetricOfPermutation(a: seq<Frame>, b: seq<Frame>, process: nat, chain: nat, m: Metric)
    requires multiset(a) == multiset(b)
    ensures SummarizeMetric(m, Values(a, process, chain, m)) == SummarizeMetric(m, Values(b, process, chain, m))
    ensures RateOf(Values(a, process, chain, m)) == RateOf(Values(b, process, chain, m))
  {
    ValuesOfPermutation(a, b, process, chain, m);
    SummaryOfPermutation(m, Values(a, process, chain, m), Values(b, process, chain, m));
  }

  lemma SummariesOfPermutation(a: seq<Frame>, b: seq<Frame>, process: nat, chain: nat)
    requires multiset(a) == multiset(b)
    ensures Summaries(PacingOf(a, process, chain)) == Summaries(PacingOf(b, process, chain))
    ensures RateOf(PacingOf(a, process, chain).betweenDisplayChange) == RateOf(PacingOf(b, process, chain).betweenDisplayChange)
  {
    MetricOfPermutation(a, b, process, chain, BetweenPresents);
    MetricOfPermutation(a, b, process, chain, BetweenDisplayChange);
    MetricOfPermutation(a, b, process, chain, DisplayedTime);
    MetricOfPermutation(a, b, process, chain, UntilDisplayed);
    MetricOfPermutation(a, b, process, chain, DisplayLatency);
    MetricOfPermutation(a, b, process, chain, RenderPresentLatency);
    MetricOfPermutation(a, b, process, chain, FlipDelay);
  }

  /** The analysis is the same for every order in which the frames were captured. */
  lemma AnalysisOfPermutation(a: seq<Frame>, b: seq<Frame>, process: nat, r: Analysis, t: Analysis)
    requires multiset(a) == multiset(b)
    requires IsAnalysis(r, a, process) && IsAnalysis(t, b, process)
    ensures r == t
  {
    SelectionOfPermutation(a, b, process, r.selection, t.selection);
    if r.selection.dominant.Some? {
      var chain := r.selection.dominant.value;
      CountsOfPermutation(a, b, process, chain);
      SummariesOfPermutation(a, b, process, chain);
    }
  }

  function Entry(m: map<int, nat>, k: int): nat {
    if k in m then m[k] else 0
  }

  lemma BreakdownEntry(frames: seq<Frame>, process: nat, chain: nat, a: Attribute, k: int)
    ensures Entry(Breakdown(frames, process, chain, a), k) == Count(frames, On(process, chain, Has(a, k)))
  {
    KeysPositive(frames, process, chain, a, k);
  }

  /** `c` splits into `d` and `e`. */
  lemma {:induction false} CountPartition(frames: seq<Frame>, c: Criterion, d: Criterion, e: Criterion)
    requires forall f :: !(Meets(d, f) && Meets(e, f))
    requires forall f :: Meets(c, f) <==> Meets(d, f) || Meets(e, f)
    ensures Count(frames, c) == Count(frames, d) + Count(frames, e)
  {
    if frames == [] {
    } else {
      CountPartition(frames[..|frames| - 1], c, d, e);
    }
  }

  lemma {:induction false} TearingPartition(frames: seq<Frame>, process: nat, chain: nat)
    ensures Count(frames, On(process, chain, Any)) == Count(frames, On(process, chain, Tearing(Some(true))))
      + Count(frames, On(process, chain, Tearing(Some(false)))) + Count(frames, On(process, chain, Tearing(None)))
  {
    if frames == [] {
    } else {
      TearingPartition(frames[..|frames| - 1], process, chain);
      var tearing := frames[|frames| - 1].allowsTearing;
      if tearing.Some? {
        if tearing.value { assert tearing == Some(true); } else { assert tearing == Some(false); }
      }
    }
  }

  lemma FlipPartition(frames: seq<Frame>, process: nat, chain: nat)
    ensures Count(frames, On(process, chain, IndependentFlip))
      == Count(frames, On(process, chain, Has(PresentMode, MODE_HARDWARE_INDEPENDENT_FLIP)))
        + Count(frames, On(process, chain, Has(PresentMode, MODE_COMPOSED_INDEPENDENT_FLIP)))
  {
    CountPartition(frames, On(process, chain, IndependentFlip),
      On(process, chain, Has(PresentMode, MODE_HARDWARE_INDEPENDENT_FLIP)),
      On(process, chain, Has(PresentMode, MODE_COMPOSED_INDEPENDENT_FLIP)));
  }

  lemma ModesConserve(frames: seq<Frame>, process: nat, chain: nat)
    ensures Total(BreakdownsOf(frames, process, chain).modes) == CountsOf(frames, process, chain).modeKnown
    ensures CountsOf(frames, process, chain).independentFlip
      == Entry(BreakdownsOf(frames, process, chain).modes, MODE_HARDWARE_INDEPENDENT_FLIP)
        + Entry(BreakdownsOf(frames, process, chain).modes, MODE_COMPOSED_INDEPENDENT_FLIP)
  {
    BreakdownTotal(frames, process, chain);
    FlipPartition(frames, process, chain);
    BreakdownEntry(frames, process, chain, PresentMode, MODE_HARDWARE_INDEPENDENT_FLIP);
    BreakdownEntry(frames, process, chain, PresentMode, MODE_COMPOSED_INDEPENDENT_FLIP);
  }

  lemma CountsConserve(frames: seq<Frame>, process: nat, chain: nat, c: Counts)
    requires c == CountsOf(frames, process, chain)
    ensures c.tearing + c.notTearing + c.tearingUnknown == c.frames
    ensures c.independentFlip <= c.modeKnown <= c.frames
    ensures c.dropped <= c.dropReported <= c.frames
  {
    TearingPartition(frames, process, chain);
    CountWeaker(frames, On(process, chain, IndependentFlip), On(process, chain, ModeKnown));
    CountWeaker(frames, On(process, chain, ModeKnown), On(process, chain, Any));
    CountWeaker(frames, On(process, chain, Dropped), On(process, chain, DropReported));
    CountWeaker(frames, On(process, chain, DropReported), On(process, chain, Any));
  }

  /** The displayed frames of the dominant swapchain are among its frames and among the displayed ones. */
  lemma DisplayedWithin(frames: seq<Frame>, process: nat, r: Analysis)
    requires IsAnalysis(r, frames, process)
    ensures r.selection.displayed <= r.counts.frames && r.selection.displayed <= r.selection.usable
  {
    if r.selection.dominant.Some? {
      var chain := r.selection.dominant.value;
      DisplayedIsCount(frames, process, r.selection);
      CountWeaker(frames, DisplayedOn(process, chain), On(process, chain, Any));
      CountWeaker(frames, DisplayedOn(process, chain), Displayed(process));
    }
  }

  /** The tallies of an analysis are consistent with one another. */
  lemma AnalysisConserves(frames: seq<Frame>, process: nat, r: Analysis)
    requires IsAnalysis(r, frames, process)
    ensures Total(r.breakdowns.modes) == r.counts.modeKnown
    ensures r.counts.tearing + r.counts.notTearing + r.counts.tearingUnknown == r.counts.frames
    ensures r.counts.independentFlip == Entry(r.breakdowns.modes, MODE_HARDWARE_INDEPENDENT_FLIP)
      + Entry(r.breakdowns.modes, MODE_COMPOSED_INDEPENDENT_FLIP)
    ensures r.counts.independentFlip <= r.counts.modeKnown <= r.counts.frames
    ensures r.counts.dropped <= r.counts.dropReported <= r.counts.frames
    ensures r.selection.displayed <= r.counts.frames && r.selection.displayed <= r.selection.usable
  {
    DisplayedWithin(frames, process, r);
    if r.selection.dominant.Some? {
      ModesConserve(frames, process, r.selection.dominant.value);
      CountsConserve(frames, process, r.selection.dominant.value, r.counts);
    }
  }

  lemma DisplayedIsCount(frames: seq<Frame>, process: nat, s: Selection)
    requires IsSelection(s, frames, process) && s.dominant.Some?
    ensures s.displayed == Count(frames, DisplayedOn(process, s.dominant.value)) > 0
  {
  }

  /** A dominant swapchain always yields a positive display-change rate. */
  lemma RatePositive(frames: seq<Frame>, process: nat, r: Analysis)
    requires IsAnalysis(r, frames, process)
    ensures r.selection.dominant.Some? <==> r.displayChangeRateHz.Some?
    ensures r.displayChangeRateHz.Some? ==> r.displayChangeRateHz.value > 0.0
  {
    if r.selection.dominant.Some? {
      var chain := r.selection.dominant.value;
      DisplayedIsCount(frames, process, r.selection);
      DisplayIntervalsPositive(frames, process, chain);
      RateOfPositive(Values(frames, process, chain, BetweenDisplayChange));
    }
  }

  lemma RateOfPositive(intervals: seq<real>)
    requires intervals != [] && forall v :: v in intervals ==> v > 0.0
    ensures RateOf(intervals).Some? && RateOf(intervals).value > 0.0
  {
    NearestRankCounts(intervals, 50);
    Reciprocal(NearestRank(intervals, 50).value);
  }

  lemma Reciprocal(x: real)
    requires x > 0.0
    ensures 1000.0 / x > 0.0
  {
    Sign(1000.0 / x, x);
    assert 1000.0 / x * x == 1000.0;
  }

  lemma Cancels(part: real, x: real)
    requires x > 0.0
    ensures part / x * x == part
  {
  }

  /** The rate is per thousand milliseconds of an interval; half of the intervals are at most as long, less than half shorter. */
  ghost predicate IsRate(rate: Option<real>, kept: seq<real>, interval: real) {
    && rate.Some? && rate.value * interval == 1000.0 && interval > 0.0 && interval in kept
    && 2 * CountAtMost(kept, interval) >= |kept| && 2 * CountBelow(kept, interval) < |kept|
  }

  lemma RateOfMeans(kept: seq<real>) returns (interval: real)
    requires kept != [] && forall v :: v in kept ==> v > 0.0
    ensures IsRate(RateOf(kept), kept, interval)
  {
    QuantileMeans(kept, 50);
    interval := NearestRank(kept, 50).value;
    Cancels(1000.0, interval);
  }

  lemma ReportedRate(frames: seq<Frame>, process: nat, r: Analysis, chain: nat)
    requires IsAnalysis(r, frames, process) && r.selection.dominant == Some(chain)
    ensures r.displayChangeRateHz == RateOf(Values(frames, process, chain, BetweenDisplayChange))
    ensures Values(frames, process, chain, BetweenDisplayChange) != []
  {
    DisplayedIsCount(frames, process, r.selection);
    DisplayIntervalsPositive(frames, process, chain);
  }

  /** The display-change rate is that of a median interval that the dominant swapchain kept. */
  lemma RateMeans(frames: seq<Frame>, process: nat, r: Analysis, chain: nat) returns (interval: real)
    requires IsAnalysis(r, frames, process) && r.selection.dominant == Some(chain)
    ensures IsRate(r.displayChangeRateHz, Values(frames, process, chain, BetweenDisplayChange), interval)
  {
    ReportedRate(frames, process, r, chain);
    DisplayIntervalsPositive(frames, process, chain);
    interval := RateOfMeans(Values(frames, process, chain, BetweenDisplayChange));
  }

  /** So many percent of the values are at most `x`, and less are below it. */
  ghost predicate IsPercentile(values: seq<real>, percent: nat, x: Option<real>) {
    if values == [] then x == None else
      && x.Some? && x.value in values
      && 100 * CountAtMost(values, x.value) >= percent * |values| && 100 * CountBelow(values, x.value) < percent * |values|
  }

  ghost predicate IsGreatest(values: seq<real>, x: Option<real>) {
    if values == [] then x == None else x.Some? && x.value in values && forall v :: v in values ==> v <= x.value
  }

  /** The report on one metric summarises exactly the values that the dominant swapchain kept. */
  ghost predicate Summarizes(p: Percentiles, m: Metric, values: seq<real>) {
    && p.metric == m && p.samples == |values|
    && IsPercentile(values, 50, p.p50) && IsPercentile(values, 95, p.p95) && IsPercentile(values, 99, p.p99)
    && IsGreatest(values, p.maximum)
  }

  lemma SummaryMeans(m: Metric, values: seq<real>)
    ensures Summarizes(SummarizeMetric(m, values), m, values)
  {
    if values != [] {
      QuantileMeans(values, 50);
      QuantileMeans(values, 95);
      QuantileMeans(values, 99);
      assert forall v :: v in values ==> exists k :: 0 <= k < |values| && values[k] == v;
    }
  }

  /** The metrics in the order in which they are reported, and what is collected for each. */
  function MetricAt(k: nat): Metric {
    match k
    case 0 => BetweenPresents
    case 1 => BetweenDisplayChange
    case 2 => DisplayedTime
    case 3 => UntilDisplayed
    case 4 => DisplayLatency
    case 5 => RenderPresentLatency
    case _ => FlipDelay
  }

  lemma SummaryAt(p: Pacing, k: nat, values: seq<real>)
    requires k < 7
    requires values == match k
      case 0 => p.betweenPresents
      case 1 => p.betweenDisplayChange
      case 2 => p.displayedTime
      case 3 => p.untilDisplayed
      case 4 => p.displayLatency
      case 5 => p.renderPresentLatency
      case _ => p.flipDelay
    ensures |Summaries(p)| == 7 && Summaries(p)[k] == SummarizeMetric(MetricAt(k), values)
  {
  }

  lemma ReportedPacing(frames: seq<Frame>, process: nat, r: Analysis, chain: nat)
    requires IsAnalysis(r, frames, process) && r.selection.dominant == Some(chain)
    ensures r.pacing == Summaries(PacingOf(frames, process, chain))
  {
  }

  /** The percentiles that are reported are those of the values that the dominant swapchain kept. */
  lemma PacingMeans(frames: seq<Frame>, process: nat, r: Analysis, chain: nat, k: nat)
    requires IsAnalysis(r, frames, process) && r.selection.dominant == Some(chain) && k < 7
    ensures |r.pacing| == 7 && Summarizes(r.pacing[k], MetricAt(k), Values(frames, process, chain, MetricAt(k)))
  {
    ReportedPacing(frames, process, r, chain);
    SummaryAt(PacingOf(frames, process, chain), k, Values(frames, process, chain, MetricAt(k)));
    SummaryMeans(MetricAt(k), Values(frames, process, chain, MetricAt(k)));
  }

  /** `x` percent of `whole` are `part`; nothing is said about nothing. */
  ghost predicate IsPercentage(x: Option<real>, part: nat, whole: nat) {
    if whole == 0 then x == None else x.Some? && x.value * whole as real == 100.0 * part as real
  }

  lemma PercentageMeans(part: nat, whole: nat)
    ensures IsPercentage(Percentage(part, whole), part, whole)
  {
    if whole > 0 { Cancels(100.0 * part as real, whole as real); }
  }

  lemma ReportedPercentages(frames: seq<Frame>, process: nat, r: Analysis, chain: nat)
    requires IsAnalysis(r, frames, process) && r.selection.dominant == Some(chain)
    ensures r.counts == CountsOf(frames, process, chain)
    ensures r.droppedPercentage == Percentage(r.counts.dropped, r.counts.dropReported)
    ensures r.independentFlipPercentage == Percentage(r.counts.independentFlip, r.counts.modeKnown)
  {
  }

  /** The percentages of an analysis are those of the counts of the dominant swapchain's frames. */
  lemma PercentagesMean(frames: seq<Frame>, process: nat, r: Analysis, chain: nat)
    requires IsAnalysis(r, frames, process) && r.selection.dominant == Some(chain)
    ensures IsPercentage(r.droppedPercentage, Count(frames, On(process, chain, Dropped)), Count(frames, On(process, chain, DropReported)))
    ensures IsPercentage(r.independentFlipPercentage,
      Count(frames, On(process, chain, IndependentFlip)), Count(frames, On(process, chain, ModeKnown)))
  {
    ReportedPercentages(frames, process, r, chain);
    PercentageMeans(r.counts.dropped, r.counts.dropReported);
    PercentageMeans(r.counts.independentFlip, r.counts.modeKnown);
  }

  /** Without a dominant swapchain nothing is reported of any. */
  lemma NothingReported(frames: seq<Frame>, process: nat, r: Analysis)
    requires IsAnalysis(r, frames, process) && r.selection.dominant == None
    ensures r.droppedPercentage == None && r.independentFlipPercentage == None && r.displayChangeRateHz == None
    ensures r.pacing == [] && r.classification == Unknown && r.counts.frames == 0 && r.counts.modeKnown == 0
  {
  }

  /** The percentiles of a metric are present exactly when it has samples, and are ordered. */
  lemma PercentilesOrdered(m: Metric, values: seq<real>, p: Percentiles)
    requires p == SummarizeMetric(m, values)
    ensures p.samples == |values|
    ensures p.p50.Some? <==> p.samples > 0
    ensures p.p50.Some? ==> p.p95.Some? && p.p99.Some? && p.maximum.Some?
    ensures p.p50.Some? ==> p.p50.value <= p.p95.value <= p.p99.value <= p.maximum.value
  {
    if values != [] {
      QuantilesOrdered(values, 50, 95);
      QuantilesOrdered(values, 95, 99);
    }
  }

  lemma PercentageAtLeast(part: nat, whole: nat, threshold: nat)
    requires whole > 0
    ensures Percentage(part, whole).value >= threshold as real <==> 100 * part >= threshold * whole
  {
    var w := whole as real;
    var q := 100.0 * part as real / w;
    Sign(q - threshold as real, w);
    assert (q - threshold as real) * w == 100.0 * part as real - threshold as real * w;
    assert threshold as real * w == (threshold * whole) as real;
  }

  lemma ClassifyMeans(modeKnown: nat, flips: nat)
    ensures var k := Classify(modeKnown, Percentage(flips, modeKnown));
      && (k == Unknown <==> modeKnown < MINIMUM_MODE_SAMPLES)
      && (k == VrrSafe <==> modeKnown >= MINIMUM_MODE_SAMPLES && 10 * flips >= 9 * modeKnown)
      && (k == NotVrrSafe <==> modeKnown >= MINIMUM_MODE_SAMPLES && 2 * flips < modeKnown)
  {
    if modeKnown > 0 {
      PercentageAtLeast(flips, modeKnown, 90);
      PercentageAtLeast(flips, modeKnown, 50);
    }
  }

  /**
   The class in whole numbers: at least 60 frames must report their mode; of those, nine tenths
   must be independent flips for VrrSafe and half of them for Marginal.
   */
  lemma ClassMeans(frames: seq<Frame>, process: nat, r: Analysis)
    requires IsAnalysis(r, frames, process)
    ensures r.classification == Unknown <==> r.counts.modeKnown < 60
    ensures r.classification == VrrSafe <==> r.counts.modeKnown >= 60 && 10 * r.counts.independentFlip >= 9 * r.counts.modeKnown
    ensures r.classification == NotVrrSafe <==> r.counts.modeKnown >= 60 && 2 * r.counts.independentFlip < r.counts.modeKnown
  {
    ClassifyMeans(r.counts.modeKnown, r.counts.independentFlip);
  }
}
