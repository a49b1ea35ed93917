/**
 The measurement epoch: its end in performance-counter ticks (VrrDiagnosticCommand.cpp) and
 trimming the captured evidence to it (TrimVrrMeasurementEvidence of VrrAnalysis.cpp).
 An epoch is the half-open interval from `start` to `end`.
 */
module MeasurementEpoch {
  import opened Options
  import opened MachineIntegers
  import opened VrrFrames
  import opened CadenceAnalysis

  const CAPTURE_SECONDS: uint64 := 15
  const MAXIMUM: uint64 := 0xFFFF_FFFF_FFFF_FFFF

  predicate Inside(t: uint64, start: uint64, end: uint64) {
    start <= t < end
  }

  predicate FrameInside(f: Frame, start: uint64, end: uint64) {
    f.presentStart.Some? && Inside(f.presentStart.value, start, end)
  }

  ghost function TimestampsInside(ts: seq<uint64>, start: uint64, end: uint64): seq<uint64> {
    if ts == [] then [] else
      var n := |ts| - 1;
      TimestampsInside(ts[..n], start, end) + if Inside(ts[n], start, end) then [ts[n]] else []
  }

  ghost function FramesInside(frames: seq<Frame>, start: uint64, end: uint64): seq<Frame> {
    if frames == [] then [] else
      var n := |frames| - 1;
      FramesInside(frames[..n], start, end) + if FrameInside(frames[n], start, end) then [frames[n]] else []
  }

  ghost function Undated(frames: seq<Frame>): nat {
    if frames == [] then 0 else
      Undated(frames[..|frames| - 1]) + if frames[|frames| - 1].presentStart == None then 1 else 0
  }

  datatype Evidence = Evidence(frames: seq<Frame>, timestamps: seq<uint64>, undated: nat)

  method TrimEvidence(frames: seq<Frame>, ts: seq<uint64>, start: uint64, end: uint64) returns (r: Evidence)
    ensures r.timestamps == TimestampsInside(ts, start, end)
    ensures r.frames == FramesInside(frames, start, end)
    ensures r.undated == if end <= start then 0 else Undated(frames)
  {
    if end <= start {
      EmptyEpoch(frames, ts, start, end);
      return Evidence([], [], 0);
    }
    var keptFrames, undated := TrimFrames(frames, start, end);
    var keptTimestamps := TrimTimestamps(ts, start, end);
    r := Evidence(keptFrames, keptTimestamps, undated);
  }

  method TrimFrames(frames: seq<Frame>, start: uint64, end: uint64) returns (kept: seq<Frame>, undated: nat)
    ensures kept == FramesInside(frames, start, end) && undated == Undated(frames)
  {
    kept, undated := [], 0;
    for i := 0 to |frames|
      invariant kept == FramesInside(frames[..i], start, end) && undated == Undated(frames[..i])
    {
      assert frames[..i + 1][..i] == frames[..i];
      if frames[i].presentStart == None {
        undated := undated + 1;
        continue;
      }
      if frames[i].presentStart.value >= start && frames[i].presentStart.value < end {
        kept := kept + [frames[i]];
      }
    }
    assert frames[..|frames|] == frames;
  }

  method TrimTimestamps(ts: seq<uint64>, start: uint64, end: uint64) returns (kept: seq<uint64>)
    ensures kept == TimestampsInside(ts, start, end)
  {
    kept := [];
    for i := 0 to |ts|
      invariant kept == TimestampsInside(ts[..i], start, end)
    {
      assert ts[..i + 1][..i] == ts[..i];
      if ts[i] >= start && ts[i] < end { kept := kept + [ts[i]]; }
    }
    assert ts[..|ts|] == ts;
  }

  lemma {:induction false} EmptyEpoch(frames: seq<Frame>, ts: seq<uint64>, start: uint64, end: uint64)
    requires end <= start
    ensures FramesInside(frames, start, end) == [] && TimestampsInside(ts, start, end) == []
    decreases |frames| + |ts|
  {
    if frames != [] { EmptyEpoch(frames[..|frames| - 1], ts, start, end); }
    if ts != [] { EmptyEpoch(frames, ts[..|ts| - 1], start, end); }
  }

  /** Trimming keeps exactly the timestamps of the epoch, in their order. */
  lemma {:induction false} TrimmedTimestamps(ts: seq<uint64>, start: uint64, end: uint64)
    requires Increasing(ts)
    ensures Increasing(TimestampsInside(ts, start, end))
    ensures forall t :: t in TimestampsInside(ts, start, end) <==> t in ts && start <= t < end
  {
    if ts == [] {
    } else {
      var n := |ts| - 1;
      TrimmedTimestamps(ts[..n], start, end);
      assert ts == ts[..n] + [ts[n]];
      var before, kept := TimestampsInside(ts[..n], start, end), TimestampsInside(ts, start, end);
      forall i, j | 0 <= i < j < |kept| ensures kept[i] < kept[j] {
        assert before[i] in before;
        if j < |before| { assert before[i] < before[j]; }
      }
    }
  }

  /** Trimming keeps each frame of the epoch as often as it was captured, and no other frame. */
  lemma {:induction false} TrimmedFrames(frames: seq<Frame>, start: uint64, end: uint64, f: Frame)
    ensures multiset(FramesInside(frames, start, end))[f] ==
      if f.presentStart.Some? && start <= f.presentStart.value < end then multiset(frames)[f] else 0
  {
    if frames == [] {
    } else {
      var n := |frames| - 1;
      TrimmedFrames(frames[..n], start, end, f);
      assert frames == frames[..n] + [frames[n]];
    }
  }

  lemma Product(x: nat, y: nat, f: nat)
    requires x <= y
    ensures x * f <= y * f
  {
  }

  lemma Quotient(x: nat, f: nat)
    requires f > 0
    ensures (x / f) * f <= x < (x / f) * f + f
  {
  }

  lemma QuotientMonotone(x: nat, y: nat, f: nat)
    requires f > 0 && x <= y
    ensures x / f <= y / f
  {
    var p, q := x / f, y / f;
    Quotient(x, f);
    Quotient(y, f);
    assert (q + 1) * f == q * f + f;
    if p > q { Product(q + 1, p, f); }
  }

  /** An epoch yields at most as many complete windows as fit strictly inside it. */
  lemma TrimmedWindows(ts: seq<uint64>, start: uint64, end: uint64, frequency: uint64)
    requires Increasing(ts) && frequency > 0 && TimestampsInside(ts, start, end) != []
    ensures start < end
    ensures Increasing(TimestampsInside(ts, start, end))
    ensures var kept := TimestampsInside(ts, start, end);
      kept[0] <= kept[|kept| - 1] && WindowCount(kept, frequency) <= (end - start - 1) as nat / frequency as nat
  {
    var kept := TimestampsInside(ts, start, end);
    TrimmedTimestamps(ts, start, end);
    assert kept[0] in kept && kept[|kept| - 1] in kept;
    QuotientMonotone((kept[|kept| - 1] - kept[0]) as nat, (end - start - 1) as nat, frequency as nat);
  }

  /** The end of an interrupted epoch: the tick read then, if it is later than the start, else the start. */
  method InterruptedEnd(start: uint64, counter: Option<uint64>) returns (end: uint64, counterUsable: bool)
    ensures counterUsable <==> counter.Some? && counter.value > start
    ensures end == if counterUsable then counter.value else start
  {
    if counter.Some? && counter.value > start { return counter.value, true; }
    return start, false;
  }

  /** Without a usable end an interrupted epoch leaves no evidence at all. */
  lemma UnusableEndLeavesNothing(frames: seq<Frame>, ts: seq<uint64>, start: uint64)
    ensures FramesInside(frames, start, start) == [] && TimestampsInside(ts, start, start) == []
  {
    EmptyEpoch(frames, ts, start, start);
  }

  /** The end of a completed epoch: the guard is exactly that fifteen seconds fit into 64 bits. */
  method EpochEnd(start: uint64, frequency: uint64) returns (end: uint64)
    ensures end as int == if start as int + frequency as int * 15 <= MAXIMUM as int then start as int + frequency as int * 15 else 0
  {
    end := 0;
    if frequency <= (MAXIMUM - start) / CAPTURE_SECONDS {
      end := start + frequency * CAPTURE_SECONDS;
    }
  }

  lemma WindowsOfAnalysis(c: Capture, nominal: Double, r: Analysis)
    requires IsAnalysis(r, c, nominal) && r.windows != [] && c.frequency > 0 && Increasing(c.timestamps)
    ensures |c.timestamps| >= 2 && |r.windows| == WindowCount(c.timestamps, c.frequency as uint64)
  {
  }

  lemma FifteenSeconds(f: nat)
    requires f > 0
    ensures (15 * f - 1) / f <= 14
  {
    var q := (15 * f - 1) / f;
    Quotient(15 * f - 1, f);
    if q >= 15 { Product(15, q, f); }
  }

  lemma FifteenSecondWindows(ts: seq<uint64>, start: uint64, end: uint64, frequency: uint64)
    requires Increasing(ts) && frequency > 0 && TimestampsInside(ts, start, end) != []
    requires end as int == start as int + frequency as int * 15
    ensures var kept := TimestampsInside(ts, start, end);
      kept[0] <= kept[|kept| - 1] && WindowCount(kept, frequency) <= 14
  {
    TrimmedWindows(ts, start, end, frequency);
    FifteenSeconds(frequency as nat);
    assert (end - start - 1) as nat == 15 * frequency as nat - 1;
  }

  /** A completed epoch has at most fourteen complete windows, whatever was captured. */
  lemma CompletedEpochWindows(ts: seq<uint64>, start: uint64, end: uint64, frequency: uint64, c: Capture, nominal: Double, r: Analysis)
    requires end as int == if start as int + frequency as int * 15 <= MAXIMUM as int then start as int + frequency as int * 15 else 0
    requires Increasing(ts) && frequency > 0 && c.frequency as int == frequency as int
    requires c.timestamps == TimestampsInside(ts, start, end) && IsAnalysis(r, c, nominal)
    ensures |r.windows| <= 14
  {
    if r.windows != [] {
      TrimmedTimestamps(ts, start, end);
      WindowsOfAnalysis(c, nominal, r);
      TrimmedWindows(ts, start, end, frequency);
      FifteenSecondWindows(ts, start, end, frequency);
    }
  }
}
