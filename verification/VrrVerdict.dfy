/**
 The verdict on one measurement: ClassifyDiagIgclState and AnalyzeVrrSession of VrrAnalysis.cpp.
 The method assigns status, confidence and reasons along its branches; it is proved against a
 table that says, for each status and for each reason by itself, when it is given.
 */
module VrrVerdict {
  import opened Options
  import opened MachineIntegers
  import opened CadenceAnalysis
  import P = VrrPresentation
  import opened VrrFrames

  // ---------------------------------------------------------------- driver state

  const PROFILE_OFF := 5

  datatype Mapping = Exact | AmbiguousMapping | UnknownMapping
  datatype Profile = Profile(profile: int, minimum: Double, maximum: Double)
  datatype DriverState = DriverState(mapping: Mapping, profile: Option<Profile>, supported: Option<bool>)
  datatype Igcl = Unknown | Ambiguous | Off | Enabled

  function ClassifyIgcl(s: DriverState): Igcl {
    if s.mapping == AmbiguousMapping then Ambiguous
    else if s.mapping != Exact || s.profile == None then Unknown
    else if s.profile.value.profile == PROFILE_OFF then Off
    else
      var minimum, maximum := s.profile.value.minimum, s.profile.value.maximum;
      if minimum.NotFinite? || maximum.NotFinite? || maximum.value < minimum.value then Unknown
      else if maximum.value - minimum.value <= 0.5 then Off
      else if s.supported != Some(true) then Unknown
      else Enabled
  }

  /** The range of the profile is given, and at most half a hertz wide. */
  predicate IsFixedRange(p: Profile) {
    p.minimum.Finite? && p.maximum.Finite? && p.minimum.value <= p.maximum.value <= p.minimum.value + 0.5
  }

  /**
   Each class, over all driver states: ambiguous exactly when the mapping is; off exactly for a mapped
   target whose profile is the one for off or has no range; enabled only with a real range; and
   unknown otherwise.
   */
  lemma IgclMeans(s: DriverState)
    ensures ClassifyIgcl(s) == Ambiguous <==> s.mapping == AmbiguousMapping
    ensures ClassifyIgcl(s) == Off <==>
      s.mapping == Exact && s.profile.Some? && (s.profile.value.profile == 5 || IsFixedRange(s.profile.value))
    ensures ClassifyIgcl(s) == Enabled <==>
      && s.mapping == Exact && s.profile.Some? && s.supported == Some(true)
      && s.profile.value.profile != 5
      && s.profile.value.minimum.Finite? && s.profile.value.maximum.Finite?
      && s.profile.value.maximum.value > s.profile.value.minimum.value + 0.5
  {
  }

  // ---------------------------------------------------------------- the verdict table

  datatype Status = Inconclusive | OffStatus | LikelyFixed | LikelyActive
  datatype Confidence = Low | Medium | High

  datatype Reason =
    | InsufficientEvidence | IdentityUnstable | DisplayPathUnavailable | IgclUnknown | IgclAmbiguous
    | NoDominantSwapchain | InsufficientPresentModeSamples | CadenceUnavailable
    | InsufficientCadenceWindows | EvidenceDisagreement | GameRateNearNominal
    | FrameGenerationConfidenceReduction

  datatype Evidence = Evidence(
    identityStable: bool, pathExact: bool, igcl: Igcl,
    cadence: Analysis, presentation: P.Analysis, nominal: Double)

  datatype Verdict = Verdict(status: Status, confidence: Confidence, reasons: seq<Reason>)

  predicate HasHighQualityEvidence(p: P.Analysis, c: Analysis) {
    && p.selection.dominant.Some?
    && p.selection.share >= P.DOMINANT_SHARE
    && p.classification != P.Unknown
    && p.counts.modeKnown >= P.MINIMUM_MODE_SAMPLES
    && |c.windows| >= MINIMUM_WINDOWS
  }

  /** The measurement was undisturbed. */
  ghost predicate Trusted(e: Evidence) {
    e.identityStable && e.pathExact
  }

  ghost predicate HighQuality(e: Evidence) {
    HasHighQualityEvidence(e.presentation, e.cadence)
  }

  /** The frames and the display can be compared, with variable refresh enabled. */
  ghost predicate Comparable(e: Evidence) {
    Trusted(e) && e.igcl == Enabled && HighQuality(e)
  }

  ghost predicate FlipsWith(e: Evidence, c: Class) {
    e.presentation.classification == P.VrrSafe && e.cadence.classification == c
  }

  ghost predicate RateKnown(e: Evidence) {
    e.presentation.displayChangeRateHz.Some? && e.nominal.Finite?
  }

  ghost predicate RateNearNominal(e: Evidence) {
    RateKnown(e) && e.presentation.displayChangeRateHz.value >= e.nominal.value * 0.90
  }

  ghost predicate RateBelowNominal(e: Evidence) {
    RateKnown(e) && e.presentation.displayChangeRateHz.value < e.nominal.value * 0.90
  }

  ghost predicate SaysOff(e: Evidence) {
    Trusted(e) && e.igcl == Off
  }

  ghost predicate SaysActive(e: Evidence) {
    Comparable(e) && FlipsWith(e, VariableLike)
  }

  ghost predicate SaysFixed(e: Evidence) {
    Comparable(e) && FlipsWith(e, FixedLike) && RateBelowNominal(e) && !e.presentation.counts.generated
  }

  /** When each status is given. */
  ghost predicate Given(s: Status, e: Evidence) {
    match s
    case OffStatus => SaysOff(e)
    case LikelyActive => SaysActive(e)
    case LikelyFixed => SaysFixed(e)
    case Inconclusive => !SaysOff(e) && !SaysActive(e) && !SaysFixed(e)
  }

  ghost function ConfidenceOf(s: Status, e: Evidence): Confidence {
    match s
    case OffStatus => if FlipsWith(e, FixedLike) && HighQuality(e) then High else Medium
    case LikelyActive => if e.presentation.counts.generated then Medium else High
    case LikelyFixed => Medium
    case Inconclusive => Low
  }

  /** When each reason is given. */
  ghost predicate Applies(r: Reason, e: Evidence) {
    match r
    case IdentityUnstable => !e.identityStable
    case DisplayPathUnavailable => !e.pathExact
    case IgclUnknown => e.igcl == Unknown
    case IgclAmbiguous => e.igcl == Ambiguous
    case NoDominantSwapchain => e.presentation.selection.dominant == None
    case InsufficientPresentModeSamples => e.presentation.counts.modeKnown < 60
    case CadenceUnavailable => e.cadence.classification == NoCadence
    case InsufficientCadenceWindows => e.cadence.classification != NoCadence && |e.cadence.windows| < 10
    case InsufficientEvidence =>
      || (Trusted(e) && e.igcl == Enabled && !HighQuality(e))
      || MissingRate(e)
    case EvidenceDisagreement => Comparable(e) && !FlipsWith(e, VariableLike) && !FlipsWith(e, FixedLike)
    case GameRateNearNominal => Comparable(e) && FlipsWith(e, FixedLike) && RateNearNominal(e)
    case FrameGenerationConfidenceReduction =>
      && Comparable(e) && e.presentation.counts.generated
      && (FlipsWith(e, VariableLike) || (FlipsWith(e, FixedLike) && RateBelowNominal(e)))
  }

  /** The branch for a fixed cadence whose game rate or nominal rate is missing. */
  ghost predicate MissingRate(e: Evidence) {
    Comparable(e) && FlipsWith(e, FixedLike) && !RateKnown(e)
  }

  /** The place of a reason among those collected; the branches add at most one more. */
  function Place(r: Reason): nat {
    match r
    case IdentityUnstable => 0
    case DisplayPathUnavailable => 1
    case IgclUnknown => 2
    case IgclAmbiguous => 3
    case NoDominantSwapchain => 4
    case InsufficientPresentModeSamples => 5
    case CadenceUnavailable => 6
    case InsufficientCadenceWindows => 7
    case _ => 8
  }

  /** Listed in order of place, so none twice. */
  ghost predicate InPlace(rs: seq<Reason>) {
    forall i, j :: 0 <= i < j < |rs| ==> Place(rs[i]) < Place(rs[j])
  }

  ghost predicate IsVerdict(v: Verdict, e: Evidence) {
    && Given(v.status, e)
    && v.confidence == ConfidenceOf(v.status, e)
    && InPlace(v.reasons)
    && forall r :: r in v.reasons <==> Applies(r, e)
  }

  /** All listed reasons have an earlier place. */
  ghost predicate Before(rs: seq<Reason>, place: nat) {
    forall r :: r in rs ==> Place(r) < place
  }

  /** Adds a reason unless it is already listed. */
  method AddReason(reasons: seq<Reason>, reason: Reason) returns (r: seq<Reason>)
    requires InPlace(reasons) && Before(reasons, Place(reason))
    ensures InPlace(r) && Before(r, Place(reason) + 1)
    ensures forall x :: x in r <==> x in reasons || x == reason
  {
    r := reasons;
    assert forall i :: 0 <= i < |reasons| ==> reasons[i] in reasons;
    if reason !in r { r := r + [reason]; }
  }

  /** The reasons that are collected before any branch decides. */
  predicate IsEarly(r: Reason) {
    Place(r) < 8
  }

  /** Of the reasons with a place before `n`, exactly those that apply are listed. */
  ghost predicate Collected(rs: seq<Reason>, e: Evidence, n: nat) {
    InPlace(rs) && forall r :: r in rs <==> Place(r) < n && Applies(r, e)
  }

  lemma EarlyPlacesDiffer(r: Reason, x: Reason)
    requires IsEarly(r) && Place(x) == Place(r)
    ensures x == r
  {
  }

  method Collect(condition: bool, reasons: seq<Reason>, reason: Reason, ghost e: Evidence) returns (rs: seq<Reason>)
    requires IsEarly(reason) && Collected(reasons, e, Place(reason)) && (condition <==> Applies(reason, e))
    ensures Collected(rs, e, Place(reason) + 1)
  {
    rs := reasons;
    if condition { rs := AddReason(rs, reason); }
    forall x | Place(x) == Place(reason) ensures x == reason { EarlyPlacesDiffer(reason, x); }
  }

  method EarlyReasons(processStable: bool, monitorStable: bool, pathExact: bool, igcl: Igcl,
      presentation: P.Analysis, cadence: Analysis, ghost e: Evidence)
    returns (reasons: seq<Reason>)
    requires e == Evidence(processStable && monitorStable, pathExact, igcl, cadence, presentation, e.nominal)
    ensures Collected(reasons, e, 8)
  {
    reasons := Collect(!processStable || !monitorStable, [], IdentityUnstable, e);
    reasons := Collect(!pathExact, reasons, DisplayPathUnavailable, e);
    reasons := Collect(igcl == Unknown, reasons, IgclUnknown, e);
    reasons := Collect(igcl == Ambiguous, reasons, IgclAmbiguous, e);
    reasons := Collect(presentation.selection.dominant == None, reasons, NoDominantSwapchain, e);
    reasons := Collect(presentation.counts.modeKnown < P.MINIMUM_MODE_SAMPLES, reasons, InsufficientPresentModeSamples, e);
    reasons := Collect(cadence.classification == NoCadence, reasons, CadenceUnavailable, e);
    reasons := Collect(cadence.classification != NoCadence && |cadence.windows| < MINIMUM_WINDOWS,
      reasons, InsufficientCadenceWindows, e);
  }

  /** The decision once the two analyses and the driver state are known. */
  method Decide(processStable: bool, monitorStable: bool, pathExact: bool, igcl: Igcl,
      presentation: P.Analysis, cadence: Analysis, nominal: Double)
    returns (v: Verdict)
    ensures IsVerdict(v, Evidence(processStable && monitorStable, pathExact, igcl, cadence, presentation, nominal))
  {
    ghost var e := Evidence(processStable && monitorStable, pathExact, igcl, cadence, presentation, nominal);
    var reasons := EarlyReasons(processStable, monitorStable, pathExact, igcl, presentation, cadence, e);
    if !processStable || !monitorStable || !pathExact {
      return Verdict(Inconclusive, Low, reasons);
    }
    if igcl == Off {
      var confidence := Medium;
      if presentation.classification == P.VrrSafe && cadence.classification == FixedLike
        && HasHighQualityEvidence(presentation, cadence)
      {
        confidence := High;
      }
      return Verdict(OffStatus, confidence, reasons);
    }
    if igcl != Enabled {
      return Verdict(Inconclusive, Low, reasons);
    }
    if !HasHighQualityEvidence(presentation, cadence) {
      reasons := AddReason(reasons, InsufficientEvidence);
      return Verdict(Inconclusive, Low, reasons);
    }
    v := Compare(presentation, cadence, nominal, reasons, e);
  }

  /** The decision on comparable evidence. */
  method Compare(presentation: P.Analysis, cadence: Analysis, nominal: Double, early: seq<Reason>, ghost e: Evidence)
    returns (v: Verdict)
    requires e == Evidence(true, true, Enabled, cadence, presentation, nominal) && HighQuality(e)
    requires Collected(early, e, 8)
    ensures IsVerdict(v, e)
  {
    var reasons := early;
    if presentation.classification == P.VrrSafe && cadence.classification == VariableLike {
      if presentation.counts.generated {
        reasons := AddReason(reasons, FrameGenerationConfidenceReduction);
      }
      return Verdict(LikelyActive, if presentation.counts.generated then Medium else High, reasons);
    }
    if presentation.classification == P.VrrSafe && cadence.classification == FixedLike {
      if presentation.displayChangeRateHz == None || nominal.NotFinite? {
        reasons := AddReason(reasons, InsufficientEvidence);
      } else if presentation.displayChangeRateHz.value >= nominal.value * 0.90 {
        reasons := AddReason(reasons, GameRateNearNominal);
      } else if !presentation.counts.generated {
        return Verdict(LikelyFixed, Medium, reasons);
      } else {
        reasons := AddReason(reasons, FrameGenerationConfidenceReduction);
      }
    } else {
      reasons := AddReason(reasons, EvidenceDisagreement);
    }
    v := Verdict(Inconclusive, Low, reasons);
  }

  /** The evidence a session rests on. */
  ghost predicate IsEvidence(e: Evidence, frames: seq<Frame>, process: nat, capture: Capture, nominal: Double, driver: DriverState) {
    && IsAnalysis(e.cadence, capture, nominal)
    && P.IsAnalysis(e.presentation, frames, process)
    && e.igcl == ClassifyIgcl(driver)
    && e.nominal == nominal
  }

  method AnalyzeVrrSession(frames: seq<Frame>, process: nat, capture: Capture, nominal: Double,
      driver: DriverState, processStable: bool, monitorStable: bool, pathExact: bool)
    returns (v: Verdict, e: Evidence)
    ensures IsEvidence(e, frames, process, capture, nominal, driver)
    ensures e.identityStable == (processStable && monitorStable) && e.pathExact == pathExact
    ensures IsVerdict(v, e)
  {
    var cadence := AnalyzeCadence(capture, nominal);
    var presentation := P.AnalyzeVrrPresentation(frames, process);
    var igcl := ClassifyIgcl(driver);
    v := Decide(processStable, monitorStable, pathExact, igcl, presentation, cadence, nominal);
    e := Evidence(processStable && monitorStable, pathExact, igcl, cadence, presentation, nominal);
  }

  // ---------------------------------------------------------------- what a verdict says

  lemma SufficientFrames(p: P.Analysis, frames: seq<Frame>, process: nat)
    requires P.IsAnalysis(p, frames, process)
    ensures p.selection.dominant.Some? ==> p.selection.share >= P.DOMINANT_SHARE
    ensures p.classification == P.Unknown <==> p.counts.modeKnown < 60
  {
    P.ClassMeans(frames, process, p);
  }

  /** The evidence suffices exactly with a dominant swapchain, 60 known modes and ten windows. */
  lemma HighQualityMeans(e: Evidence, frames: seq<Frame>, process: nat, capture: Capture, nominal: Double, driver: DriverState)
    requires IsEvidence(e, frames, process, capture, nominal, driver)
    ensures HighQuality(e) <==>
      e.presentation.selection.dominant.Some? && e.presentation.counts.modeKnown >= 60 && |e.cadence.windows| >= 10
  {
    SufficientFrames(e.presentation, frames, process);
  }

  /** The branch for a rate near nominal: with the median interval t in milliseconds, 1000 >= 0.9 * nominal * t. */
  lemma NearNominalMeans(e: Evidence, kept: seq<real>, interval: real)
    requires P.IsRate(e.presentation.displayChangeRateHz, kept, interval) && e.nominal.Finite?
    ensures RateNearNominal(e) <==> 10000.0 >= 9.0 * e.nominal.value * interval
    ensures RateBelowNominal(e) <==> !RateNearNominal(e)
  {
    RateTimes(e.presentation.displayChangeRateHz.value, e.nominal.value, interval);
  }

  lemma RateTimes(rate: real, nominal: real, interval: real)
    requires interval > 0.0 && rate * interval == 1000.0
    ensures rate >= nominal * 0.90 <==> 10000.0 >= 9.0 * nominal * interval
  {
    var d := rate - nominal * 0.90;
    assert d * interval == rate * interval - 0.90 * (nominal * interval);
    if d > 0.0 { PositiveProduct(d, interval); }
    if d < 0.0 { PositiveProduct(-d, interval); assert (-d) * interval == -(d * interval); }
  }

  /** The branch for a missing rate is never taken. */
  lemma MissingRateUnreachable(e: Evidence, frames: seq<Frame>, process: nat, capture: Capture, nominal: Double, driver: DriverState)
    requires IsEvidence(e, frames, process, capture, nominal, driver)
    ensures !MissingRate(e)
  {
    P.RatePositive(frames, process, e.presentation);
  }

  /** Confidence is low exactly for an inconclusive verdict, and such a verdict says why. */
  lemma InconclusiveIsExplained(v: Verdict, e: Evidence)
    requires IsVerdict(v, e)
    ensures v.status == Inconclusive <==> v.confidence == Low
    ensures v.status == Inconclusive ==> v.reasons != []
  {
    if v.status == Inconclusive {
      var why :=
        if !e.identityStable then IdentityUnstable
        else if !e.pathExact then DisplayPathUnavailable
        else if e.igcl == Unknown then IgclUnknown
        else if e.igcl == Ambiguous then IgclAmbiguous
        else if !HighQuality(e) || MissingRate(e) then InsufficientEvidence
        else if !FlipsWith(e, VariableLike) && !FlipsWith(e, FixedLike) then EvidenceDisagreement
        else if RateNearNominal(e) then GameRateNearNominal
        else FrameGenerationConfidenceReduction;
      assert Applies(why, e);
      assert why in v.reasons;
    }
  }

  /** A positive verdict rests on complete evidence and carries no doubt but frame generation. */
  lemma PositiveVerdictIsFounded(v: Verdict, e: Evidence)
    requires IsVerdict(v, e) && (v.status == LikelyActive || v.status == LikelyFixed)
    ensures e.identityStable && e.pathExact && e.igcl == Enabled
    ensures e.presentation.counts.modeKnown >= 60 && |e.cadence.windows| >= 10
    ensures forall r :: r in v.reasons ==> r == FrameGenerationConfidenceReduction
    ensures v.status == LikelyFixed ==> v.reasons == []
    ensures v.confidence == High ==> v.reasons == []
  {
    forall r | r in v.reasons
      ensures r == FrameGenerationConfidenceReduction && v.status == LikelyActive && e.presentation.counts.generated
    {
      assert Applies(r, e);
    }
    assert v.reasons != [] ==> v.reasons[0] in v.reasons;
  }

  lemma SafeInFrames(p: P.Analysis, frames: seq<Frame>, process: nat, chain: nat)
    requires P.IsAnalysis(p, frames, process) && p.selection.dominant == Some(chain)
    requires p.classification == P.VrrSafe
    ensures 10 * Count(frames, DisplayedOn(process, chain)) >= 7 * Count(frames, Displayed(process)) > 0
    ensures 10 * Count(frames, On(process, chain, IndependentFlip)) >= 9 * Count(frames, On(process, chain, ModeKnown)) >= 540
  {
    P.DominantMeans(frames, process, p.selection, chain);
    P.ClassMeans(frames, process, p);
    assert p.counts == P.CountsOf(frames, process, chain);
  }

  /** In frames: seven tenths of the displayed ones, and nine tenths of the flips, support LikelyActive. */
  lemma LikelyActiveInFrames(v: Verdict, e: Evidence, frames: seq<Frame>, process: nat, capture: Capture, nominal: Double, driver: DriverState)
    requires IsEvidence(e, frames, process, capture, nominal, driver) && IsVerdict(v, e)
    requires v.status == LikelyActive || v.status == LikelyFixed
    ensures exists chain: nat ::
      && 10 * Count(frames, DisplayedOn(process, chain)) >= 7 * Count(frames, Displayed(process)) > 0
      && 10 * Count(frames, On(process, chain, IndependentFlip)) >= 9 * Count(frames, On(process, chain, ModeKnown)) >= 540
  {
    SafeInFrames(e.presentation, frames, process, e.presentation.selection.dominant.value);
  }

  lemma SameWindows(a: seq<Window>, b: seq<Window>, c: Capture)
    requires |c.timestamps| >= 2 && Increasing(c.timestamps) && c.frequency > 0
    requires IsWindows(a, c.timestamps, c.frequency as uint64) && IsWindows(b, c.timestamps, c.frequency as uint64)
    ensures a == b
  {
    assert forall i :: 0 <= i < |a| ==> a[i] == b[i];
  }

  lemma WindowsDetermined(c: Capture, nominal: Double, r: Analysis, s: Analysis)
    requires HasWindows(r, c, nominal) && HasWindows(s, c, nominal)
    ensures r.status == s.status && r.windows == s.windows
  {
    if r.status == Available && |c.timestamps| >= 2 { SameWindows(r.windows, s.windows, c); }
  }

  /** The rest of an analysis follows from its windows. */
  lemma SameCadence(c: Capture, nominal: Double, r: Analysis, s: Analysis)
    requires IsAnalysis(r, c, nominal) && IsAnalysis(s, c, nominal)
    ensures r == s
  {
    WindowsDetermined(c, nominal, r, s);
    assert r.summary == s.summary;
    assert r.classification == s.classification;
  }

  lemma LeastFirst(a: seq<Reason>, b: seq<Reason>)
    requires InPlace(a) && InPlace(b) && a != [] && forall r :: r in a <==> r in b
    ensures b != [] && a[0] == b[0]
    ensures InPlace(a[1..]) && InPlace(b[1..]) && forall r :: r in a[1..] <==> r in b[1..]
  {
    assert a[0] in b;
    assert b[0] in a;
    assert a == [a[0]] + a[1..] && b == [b[0]] + b[1..];
    assert forall r :: r in a[1..] <==> r in a && r != a[0];
    assert forall r :: r in b[1..] <==> r in b && r != b[0];
  }

  /** Their order leaves no choice once it is known which reasons are listed. */
  lemma {:induction false} ReasonsDetermined(a: seq<Reason>, b: seq<Reason>)
    requires InPlace(a) && InPlace(b) && forall r :: r in a <==> r in b
    ensures a == b
    decreases |a|
  {
    if a == [] {
      assert forall i :: 0 <= i < |b| ==> b[i] in b;
    } else {
      LeastFirst(a, b);
      ReasonsDetermined(a[1..], b[1..]);
      assert a == [a[0]] + a[1..] && b == [b[0]] + b[1..];
    }
  }

  lemma SameEvidence(e: Evidence, d: Evidence, a: seq<Frame>, b: seq<Frame>,
      process: nat, capture: Capture, nominal: Double, driver: DriverState)
    requires IsEvidence(e, a, process, capture, nominal, driver) && IsEvidence(d, b, process, capture, nominal, driver)
    requires multiset(a) == multiset(b) && e.identityStable == d.identityStable && e.pathExact == d.pathExact
    ensures e == d
  {
    SameCadence(capture, nominal, e.cadence, d.cadence);
    P.AnalysisOfPermutation(a, b, process, e.presentation, d.presentation);
  }

  lemma StatusDetermined(s: Status, t: Status, e: Evidence)
    requires Given(s, e) && Given(t, e)
    ensures s == t
  {
  }

  lemma SameVerdict(v: Verdict, w: Verdict, e: Evidence)
    requires IsVerdict(v, e) && IsVerdict(w, e)
    ensures v == w
  {
    StatusDetermined(v.status, w.status, e);
    ReasonsDetermined(v.reasons, w.reasons);
  }

  /** The verdict does not depend on the order of the frames. */
  lemma VerdictOfPermutation(v: Verdict, w: Verdict, e: Evidence, d: Evidence, a: seq<Frame>, b: seq<Frame>,
      process: nat, capture: Capture, nominal: Double, driver: DriverState)
    requires IsEvidence(e, a, process, capture, nominal, driver) && IsEvidence(d, b, process, capture, nominal, driver)
    requires multiset(a) == multiset(b) && e.identityStable == d.identityStable && e.pathExact == d.pathExact
    requires IsVerdict(v, e) && IsVerdict(w, d)
    ensures v.status == w.status && v.confidence == w.confidence
    ensures v.reasons == w.reasons
  {
    SameEvidence(e, d, a, b, process, capture, nominal, driver);
    SameVerdict(v, w, e);
  }
}
