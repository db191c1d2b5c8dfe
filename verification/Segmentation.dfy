/** Gesture candidates: from the active instants of each wrist to the sorted list that goes
    into a bodyprint package. */
module Segmentation {
  import opened Basics
  import opened Numbers
  import opened Landmarks
  import opened Gestures

  datatype Sample = Sample(timestampUs: int, shoulder: Option<Point>, elbow: Option<Point>, wrist: Point)

  datatype Gesture = Gesture(id: string, side: Side, startUs: int, endUs: int, durationUs: int,
                             confidence: real, trajectory: seq<Sample>)

  /** The shortened digest of a gesture's content. */
  type Digest = (Side, int, int, seq<Sample>) -> string

  function GestureId(digest: Digest, side: Side, start: int, end: int, trajectory: seq<Sample>): string {
    "gesture-" + digest(side, start, end, trajectory)
  }

  /** `_arm_sample`. */
  function ArmSample(f: Frame, side: Side): Option<Sample> {
    var wrist := Wrist(side)(f);
    if wrist.None? then None
    else Some(Sample(f.timestampUs, Lookup(f.body, Named(side, "shoulder")), Lookup(f.body, Named(side, "elbow")), wrist.value))
  }

  /** The timestamps of the frames before `t`. */
  function StampsBefore(frames: seq<Frame>, t: int): seq<int> {
    if frames == [] then []
    else
      var last := frames[|frames| - 1].timestampUs;
      StampsBefore(frames[..|frames| - 1], t) + if last < t then [last] else []
  }

  /** A group starts at the frame before its first instant, or, were there none, at that
      instant. */
  function StartOf(frames: seq<Frame>, first: int): int {
    var prior := StampsBefore(frames, first);
    if prior != [] then prior[|prior| - 1] else first
  }

  /** The arm samples from `lo` to `hi`. */
  function Trajectory(frames: seq<Frame>, side: Side, lo: int, hi: int): seq<Sample> {
    if frames == [] then []
    else
      var f := frames[|frames| - 1];
      Trajectory(frames[..|frames| - 1], side, lo, hi)
      + if lo <= f.timestampUs <= hi && ArmSample(f, side).Some? then [ArmSample(f, side).value] else []
  }

  function WristConfidences(trajectory: seq<Sample>): seq<real> {
    seq(|trajectory|, i requires 0 <= i < |trajectory| => trajectory[i].wrist.confidence)
  }

  /** `_mean`. */
  function RoundedMean(xs: seq<real>): real {
    if xs == [] then 0.0 else Round6(Mean(xs))
  }

  function Candidate(c: Config, digest: Digest, frames: seq<Frame>, side: Side, group: seq<int>): Option<Gesture>
    requires group != []
  {
    var start, end := StartOf(frames, group[0]), group[|group| - 1];
    var trajectory := Trajectory(frames, side, start, end);
    if end - start < c.minDurationUs || |trajectory| < 2 then None
    else Some(Gesture(GestureId(digest, side, start, end, trajectory), side, start, end, end - start,
                      RoundedMean(WristConfidences(trajectory)), trajectory))
  }

  predicate NoEmpty(groups: seq<seq<int>>) {
    forall i | 0 <= i < |groups| :: groups[i] != []
  }

  function Candidates(c: Config, digest: Digest, frames: seq<Frame>, side: Side, groups: seq<seq<int>>): seq<Gesture>
    requires NoEmpty(groups)
  {
    if groups == [] then []
    else
      var last := Candidate(c, digest, frames, side, groups[|groups| - 1]);
      Candidates(c, digest, frames, side, groups[..|groups| - 1]) + if last.Some? then [last.value] else []
  }

  /** The groups of `times`, as a function. */
  function Groups(times: seq<int>, gap: int): (groups: seq<seq<int>>)
    ensures NoEmpty(groups)
    ensures groups == [] <==> times == []
  {
    if times == [] then []
    else
      var rest, t := Groups(times[..|times| - 1], gap), times[|times| - 1];
      if rest != [] && t - Last(rest[|rest| - 1]) <= gap then rest[..|rest| - 1] + [rest[|rest| - 1] + [t]]
      else rest + [[t]]
  }

  function Last(group: seq<int>): int
    requires group != []
  {
    group[|group| - 1]
  }

  lemma {:induction false} GroupsPartition(times: seq<int>, gap: int)
    ensures IsPartition(Groups(times, gap), times, gap)
  {
    if times != [] {
      var init, t := times[..|times| - 1], times[|times| - 1];
      GroupsPartition(init, gap);
      var rest := Groups(init, gap);
      assert times == init + [t];
      if rest == [] {
        OneGroup(t, gap);
        assert times == [t];
      } else {
        var current := rest[|rest| - 1];
        assert rest == rest[..|rest| - 1] + [current];
        if t - Last(current) <= gap {
          GrowLastGroup(rest[..|rest| - 1], current, init, gap, t);
        } else {
          OpenNewGroup(rest, init, gap, t);
        }
      }
    }
  }

  /** All the gestures of one wrist. */
  function SideGestures(sqrt: real -> real, c: Config, digest: Digest, frames: seq<Frame>, side: Side): seq<Gesture> {
    Candidates(c, digest, frames, side, Groups(Active(sqrt, c, frames, |frames|, side), c.maxGapUs))
  }

  /** One pass of the loop over the groups, with its two scans of the frames. */
  method SegmentGroup(c: Config, digest: Digest, frames: seq<Frame>, side: Side, group: seq<int>) returns (r: Option<Gesture>)
    requires group != []
    ensures r == Candidate(c, digest, frames, side, group)
  {
    hide ArmSample, GestureId, RoundedMean, WristConfidences;
    var end := group[|group| - 1];
    var prior: seq<int> := [];
    for i := 0 to |frames|
      invariant prior == StampsBefore(frames[..i], group[0])
    {
      assert frames[..i + 1][..i] == frames[..i];
      if frames[i].timestampUs < group[0] { prior := prior + [frames[i].timestampUs]; }
    }
    assert frames[..|frames|] == frames;
    var start := if prior != [] then prior[|prior| - 1] else group[0];
    if end - start < c.minDurationUs { return None; }
    var trajectory: seq<Sample> := [];
    for i := 0 to |frames|
      invariant trajectory == Trajectory(frames[..i], side, start, end)
    {
      assert frames[..i + 1][..i] == frames[..i];
      if start <= frames[i].timestampUs <= end {
        var sample := ArmSample(frames[i], side);
        if sample.Some? { trajectory := trajectory + [sample.value]; }
      }
    }
    if |trajectory| < 2 { return None; }
    return Some(Gesture(GestureId(digest, side, start, end, trajectory), side, start, end, end - start,
                        RoundedMean(WristConfidences(trajectory)), trajectory));
  }

  /** One pass of the loop over the sides. */
  method SegmentSide(sqrt: real -> real, c: Config, digest: Digest, frames: seq<Frame>, side: Side)
    returns (candidates: seq<Gesture>)
    ensures candidates == SideGestures(sqrt, c, digest, frames, side)
  {
    hide Speeds, ActiveTimes, IsPartition, Candidate, Groups;
    candidates := [];
    var speeds := SeriesSpeed(sqrt, Wrist(side), c.floor, frames);
    var times := ActiveTimes(speeds, c.threshold);
    if times == [] { return; }
    var groups := GroupByGap(times, c.maxGapUs);
    GroupsPartition(times, c.maxGapUs);
    PartitionIsUnique(groups, Groups(times, c.maxGapUs), times, c.maxGapUs);
    for i := 0 to |groups|
      invariant candidates == Candidates(c, digest, frames, side, groups[..i])
    {
      assert groups[..i + 1][..i] == groups[..i];
      var candidate := SegmentGroup(c, digest, frames, side, groups[i]);
      if candidate.Some? { candidates := candidates + [candidate.value]; }
    }
    assert groups[..|groups|] == groups;
  }

  // ----- where a gesture starts -----

  /** The frames before frame `k` are exactly the `k` before it. */
  lemma {:induction false} StampsBeforeFrame(frames: seq<Frame>, n: nat, k: nat)
    requires TimelineOk(frames) && k < |frames| && n <= |frames|
    ensures var stamps := StampsBefore(frames[..n], frames[k].timestampUs);
            && |stamps| == (if n <= k then n else k)
            && forall i | 0 <= i < |stamps| :: stamps[i] == frames[i].timestampUs
  {
    hide PointOk;
    if n > 0 {
      StampsBeforeFrame(frames, n - 1, k);
      assert frames[..n][..n - 1] == frames[..n - 1];
    }
  }

  lemma StartIsPrecedingFrame(frames: seq<Frame>, k: nat)
    requires TimelineOk(frames) && 0 < k < |frames|
    ensures StampsBefore(frames, frames[k].timestampUs) != []
    ensures StartOf(frames, frames[k].timestampUs) == frames[k - 1].timestampUs
  {
    StampsBeforeFrame(frames, |frames|, k);
    assert frames[..|frames|] == frames;
  }

  // ----- what a trajectory holds -----

  predicate InOrder(trajectory: seq<Sample>) {
    forall i, j | 0 <= i < j < |trajectory| :: trajectory[i].timestampUs < trajectory[j].timestampUs
  }

  predicate SampleOk(s: Sample) {
    PointOk(s.wrist) && (s.shoulder.Some? ==> PointOk(s.shoulder.value)) && (s.elbow.Some? ==> PointOk(s.elbow.value))
  }

  lemma ArmSampleOk(frames: seq<Frame>, k: nat, side: Side)
    requires TimelineOk(frames) && k < |frames| && ArmSample(frames[k], side).Some?
    ensures SampleOk(ArmSample(frames[k], side).value)
  {
    LookupOk(frames[k].body, Named(side, "wrist"));
    LookupOk(frames[k].body, Named(side, "shoulder"));
    LookupOk(frames[k].body, Named(side, "elbow"));
  }

  /** Frame `k` contributes to the trajectory. */
  predicate Contributes(frames: seq<Frame>, side: Side, lo: int, hi: int, k: nat)
    requires k < |frames|
  {
    lo <= frames[k].timestampUs <= hi && ArmSample(frames[k], side).Some?
  }

  /** The samples of exactly the contributing frames among the first `n`, in order. */
  ghost predicate HoldsSamples(frames: seq<Frame>, n: nat, side: Side, lo: int, hi: int, tr: seq<Sample>)
    requires n <= |frames|
  {
    && InOrder(tr) && (forall s | s in tr :: SampleOk(s))
    && (forall s | s in tr :: exists k | 0 <= k < n :: Contributes(frames, side, lo, hi, k) && s == ArmSample(frames[k], side).value)
    && (forall k | 0 <= k < n && Contributes(frames, side, lo, hi, k) :: ArmSample(frames[k], side).value in tr)
  }

  lemma AddSample(frames: seq<Frame>, n: nat, side: Side, lo: int, hi: int, tr: seq<Sample>)
    requires TimelineOk(frames) && n < |frames| && HoldsSamples(frames, n, side, lo, hi, tr)
    requires Contributes(frames, side, lo, hi, n)
    ensures HoldsSamples(frames, n + 1, side, lo, hi, tr + [ArmSample(frames[n], side).value])
  {
    hide PointOk, SampleOk, ArmSample;
    var s := ArmSample(frames[n], side).value;
    ArmSampleOk(frames, n, side);
    forall p | p in tr ensures p.timestampUs < s.timestampUs {
      var k :| 0 <= k < n && Contributes(frames, side, lo, hi, k) && p == ArmSample(frames[k], side).value;
      SampleStamp(frames[k], side);
      SampleStamp(frames[n], side);
    }
    assert forall i | 0 <= i < |tr| :: tr[i] in tr;
    assert s in tr + [s];
  }

  /** A trajectory holds the samples of exactly the frames within its bounds, in order. */
  lemma {:induction false} TrajectoryMeaning(frames: seq<Frame>, n: nat, side: Side, lo: int, hi: int)
    requires TimelineOk(frames) && n <= |frames|
    ensures HoldsSamples(frames, n, side, lo, hi, Trajectory(frames[..n], side, lo, hi))
  {
    hide PointOk, SampleOk, ArmSample;
    if n > 0 {
      TrajectoryMeaning(frames, n - 1, side, lo, hi);
      assert frames[..n][..n - 1] == frames[..n - 1];
      if Contributes(frames, side, lo, hi, n - 1) {
        AddSample(frames, n - 1, side, lo, hi, Trajectory(frames[..n - 1], side, lo, hi));
      }
    }
  }

  lemma SampleStamp(f: Frame, side: Side)
    requires ArmSample(f, side).Some?
    ensures ArmSample(f, side).value.timestampUs == f.timestampUs
    ensures Some(ArmSample(f, side).value.wrist) == Wrist(side)(f)
  {
  }

  /** Between two frames with a wrist, the trajectory runs from the first to the second. */
  lemma TrajectorySpans(frames: seq<Frame>, side: Side, a: nat, b: nat)
    requires TimelineOk(frames) && a < b < |frames|
    requires ArmSample(frames[a], side).Some? && ArmSample(frames[b], side).Some?
    ensures var tr := Trajectory(frames, side, frames[a].timestampUs, frames[b].timestampUs);
            && |tr| >= 2 && InOrder(tr) && (forall s | s in tr :: SampleOk(s))
            && tr[0] == ArmSample(frames[a], side).value && tr[|tr| - 1] == ArmSample(frames[b], side).value
  {
    hide SampleOk, ArmSample, PointOk, HoldsSamples;
    var lo, hi := frames[a].timestampUs, frames[b].timestampUs;
    TrajectoryMeaning(frames, |frames|, side, lo, hi);
    assert frames[..|frames|] == frames;
    EndsOfSamples(frames, side, a, b, Trajectory(frames, side, lo, hi));
  }

  /** Where both ends contribute, they are the first and the last sample. */
  lemma EndsOfSamples(frames: seq<Frame>, side: Side, a: nat, b: nat, tr: seq<Sample>)
    requires TimelineOk(frames) && a < b < |frames|
    requires ArmSample(frames[a], side).Some? && ArmSample(frames[b], side).Some?
    requires HoldsSamples(frames, |frames|, side, frames[a].timestampUs, frames[b].timestampUs, tr)
    ensures |tr| >= 2 && InOrder(tr) && (forall s | s in tr :: SampleOk(s))
    ensures tr[0] == ArmSample(frames[a], side).value && tr[|tr| - 1] == ArmSample(frames[b], side).value
  {
    hide SampleOk, ArmSample, PointOk;
    var lo, hi := frames[a].timestampUs, frames[b].timestampUs;
    SampleStamp(frames[a], side);
    SampleStamp(frames[b], side);
    var first, last := ArmSample(frames[a], side).value, ArmSample(frames[b], side).value;
    assert Contributes(frames, side, lo, hi, a) && Contributes(frames, side, lo, hi, b);
    assert first in tr && last in tr;
    StampsWithin(frames, side, lo, hi, tr);
    FirstAndLast(tr, first, last);
  }

  lemma StampsWithin(frames: seq<Frame>, side: Side, lo: int, hi: int, tr: seq<Sample>)
    requires HoldsSamples(frames, |frames|, side, lo, hi, tr)
    ensures forall s | s in tr :: lo <= s.timestampUs <= hi
  {
    hide SampleOk, ArmSample;
    forall s | s in tr ensures lo <= s.timestampUs <= hi {
      var k :| 0 <= k < |frames| && Contributes(frames, side, lo, hi, k) && s == ArmSample(frames[k], side).value;
      SampleStamp(frames[k], side);
    }
  }

  lemma FirstAndLast(tr: seq<Sample>, first: Sample, last: Sample)
    requires InOrder(tr) && first in tr && last in tr && first.timestampUs < last.timestampUs
    requires forall s | s in tr :: first.timestampUs <= s.timestampUs <= last.timestampUs
    ensures |tr| >= 2 && tr[0] == first && tr[|tr| - 1] == last
  {
    var i :| 0 <= i < |tr| && tr[i] == first;
    var j :| 0 <= j < |tr| && tr[j] == last;
    assert tr[0] in tr && tr[|tr| - 1] in tr;
  }
}
