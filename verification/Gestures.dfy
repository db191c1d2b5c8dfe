/** Wrist speeds, and the gestures cut out of a timeline of torso-normalized frames. */
module Gestures {
  import opened Basics
  import opened Numbers
  import opened Landmarks

  // ----- timelines -----

  predicate PointOk(p: Point) {
    IsUnit(p.confidence)
  }

  /** Timestamps start at zero or later and increase strictly; confidences lie in 0..1. */
  predicate TimelineOk(frames: seq<Frame>) {
    && (forall i | 0 <= i < |frames| :: frames[i].timestampUs >= 0)
    && (forall i, j | 0 <= i < j < |frames| :: frames[i].timestampUs < frames[j].timestampUs)
    && forall i, k | 0 <= i < |frames| && 0 <= k < |frames[i].body| :: PointOk(frames[i].body[k].1)
  }

  lemma LookupOk(points: Points, name: string)
    requires forall k | 0 <= k < |points| :: PointOk(points[k].1)
    ensures Lookup(points, name).Some? ==> PointOk(Lookup(points, name).value)
  {
  }

  /** What the tracking validator guarantees about raw frames. */
  predicate RawOk(raws: seq<RawFrame>) {
    && (forall i | 0 <= i < |raws| :: raws[i].timestampUs >= 0)
    && (forall i, j | 0 <= i < j < |raws| :: raws[i].timestampUs < raws[j].timestampUs)
    && forall i | 0 <= i < |raws| && raws[i].body.Some? ::
         forall k | 0 <= k < |raws[i].body.value| :: PointOk(raws[i].body.value[k].1)
  }

  lemma NormalizedPointsOk(points: Points, t: Torso)
    requires t.scale > 0.0 && forall k | 0 <= k < |points| :: PointOk(points[k].1)
    ensures forall k | 0 <= k < |NormalizePoints(points, t)| :: PointOk(NormalizePoints(points, t)[k].1)
  {
    hide Round6, Relative;
    forall k | 0 <= k < |points| ensures PointOk(NormalizePoints(points, t)[k].1) {
      assert PointOk(points[k].1);
      Round6KeepsBounds(points[k].1.confidence, 0);
      Round6KeepsBounds(points[k].1.confidence, 1000000);
    }
  }

  lemma TimelineSnoc(frames: seq<Frame>, last: Frame)
    requires TimelineOk(frames) && last.timestampUs >= 0
    requires forall f | f in frames :: f.timestampUs < last.timestampUs
    requires forall k | 0 <= k < |last.body| :: PointOk(last.body[k].1)
    ensures TimelineOk(frames + [last])
  {
    assert forall i | 0 <= i < |frames| :: frames[i] in frames;
  }

  /** The normalized frames of validated tracking are such a timeline, however many
      frames are dropped. */
  lemma {:induction false} NormalizedIsTimeline(sqrt: real -> real, raws: seq<RawFrame>)
    requires RawOk(raws)
    ensures TimelineOk(NormalizedAll(sqrt, raws))
    ensures forall f | f in NormalizedAll(sqrt, raws) :: exists i | 0 <= i < |raws| :: f.timestampUs == raws[i].timestampUs
  {
    hide NormalizePoints, Center, Scale, Round6, PointOk;
    if raws != [] {
      var n := |raws| - 1;
      var init, last := raws[..n], Normalized(sqrt, raws[n]);
      NormalizedIsTimeline(sqrt, init);
      var before, after := NormalizedAll(sqrt, init), NormalizedAll(sqrt, raws);
      forall f | f in before ensures f.timestampUs < raws[n].timestampUs {
        var i :| 0 <= i < n && f.timestampUs == init[i].timestampUs;
        assert raws[i] == init[i];
      }
      forall f | f in before ensures exists i | 0 <= i < |raws| :: f.timestampUs == raws[i].timestampUs {
        var i :| 0 <= i < n && f.timestampUs == init[i].timestampUs;
        assert raws[i] == init[i];
      }
      if last.Some? {
        NormalizedPointsOk(raws[n].body.value, TorsoFrame(sqrt, raws[n].body.value).value);
        assert last.value.timestampUs == raws[n].timestampUs;
        TimelineSnoc(before, last.value);
      }
    }
  }

  // ----- speeds -----

  datatype Speed = Speed(timestampUs: int, speed: real, confidence: real)

  /** How to find a tracked point in a frame. */
  type Selector = Frame -> Option<Point>

  predicate Tracked(point: Selector, floor: real, f: Frame) {
    point(f).Some? && point(f).value.confidence >= floor
  }

  function SpeedBetween(sqrt: real -> real, point: Selector, a: Frame, b: Frame): real
    requires point(a).Some? && point(b).Some? && a.timestampUs < b.timestampUs
  {
    Distance(sqrt, Position(point(b).value), Position(point(a).value)) / ((b.timestampUs - a.timestampUs) as real / 1000000.0)
  }

  /** A frame has a speed when it and the frame right before it are both tracked. */
  predicate HasSpeed(point: Selector, floor: real, frames: seq<Frame>, k: nat)
    requires k < |frames|
  {
    && k > 0 && Tracked(point, floor, frames[k - 1]) && Tracked(point, floor, frames[k])
    && frames[k - 1].timestampUs < frames[k].timestampUs
  }

  function SpeedAt(sqrt: real -> real, point: Selector, floor: real, frames: seq<Frame>, k: nat): Speed
    requires k < |frames| && HasSpeed(point, floor, frames, k)
  {
    Speed(frames[k].timestampUs, SpeedBetween(sqrt, point, frames[k - 1], frames[k]),
          Min(point(frames[k]).value.confidence, point(frames[k - 1]).value.confidence))
  }

  /** The speeds of the first `n` frames. */
  function Speeds(sqrt: real -> real, point: Selector, floor: real, frames: seq<Frame>, n: nat): seq<Speed>
    requires n <= |frames|
  {
    if n == 0 then []
    else
      Speeds(sqrt, point, floor, frames, n - 1)
      + if HasSpeed(point, floor, frames, n - 1) then [SpeedAt(sqrt, point, floor, frames, n - 1)] else []
  }

  /** `_series_speed`. */
  method SeriesSpeed(sqrt: real -> real, point: Selector, floor: real, frames: seq<Frame>) returns (result: seq<Speed>)
    ensures result == Speeds(sqrt, point, floor, frames, |frames|)
  {
    hide Distance;
    result := [];
    var previous: Option<(int, Vec, real)> := None;
    for i := 0 to |frames|
      invariant result == Speeds(sqrt, point, floor, frames, i)
      invariant previous == if i > 0 && Tracked(point, floor, frames[i - 1])
                            then Some((frames[i - 1].timestampUs, Position(point(frames[i - 1]).value),
                                       point(frames[i - 1]).value.confidence))
                            else None
    {
      var frame := frames[i];
      var p := point(frame);
      if p.None? || p.value.confidence < floor {
        previous := None;
      } else {
        if previous.Some? {
          var elapsed := (frame.timestampUs - previous.value.0) as real / 1000000.0;
          if elapsed > 0.0 {
            var speed := Distance(sqrt, Position(p.value), previous.value.1) / elapsed;
            result := result + [Speed(frame.timestampUs, speed, Min(p.value.confidence, previous.value.2))];
          }
        }
        previous := Some((frame.timestampUs, Position(p.value), p.value.confidence));
      }
    }
  }

  // ----- active instants -----

  datatype Side = Left | Right

  function Named(side: Side, joint: string): string {
    (if side.Left? then "left_" else "right_") + joint
  }

  function Wrist(side: Side): Selector {
    (f: Frame) => Lookup(f.body, Named(side, "wrist"))
  }

  datatype Config = Config(threshold: real, maxGapUs: int, minDurationUs: int, floor: real)

  function ActiveTimes(speeds: seq<Speed>, threshold: real): seq<int> {
    if speeds == [] then []
    else
      var last := speeds[|speeds| - 1];
      ActiveTimes(speeds[..|speeds| - 1], threshold) + if last.speed >= threshold then [last.timestampUs] else []
  }

  function Active(sqrt: real -> real, c: Config, frames: seq<Frame>, n: nat, side: Side): seq<int>
    requires n <= |frames|
  {
    ActiveTimes(Speeds(sqrt, Wrist(side), c.floor, frames, n), c.threshold)
  }

  predicate Ascending(times: seq<int>) {
    forall i, j | 0 <= i < j < |times| :: times[i] < times[j]
  }

  /** The instant is a frame whose wrist was tracked in it and in the frame before. */
  ghost predicate FollowsTracked(c: Config, frames: seq<Frame>, side: Side, t: int) {
    exists k | 0 < k < |frames| :: frames[k].timestampUs == t && HasSpeed(Wrist(side), c.floor, frames, k)
  }

  /** Active instants ascend, and each follows a tracked frame. */
  lemma {:induction false} ActiveMeaning(sqrt: real -> real, c: Config, frames: seq<Frame>, n: nat, side: Side)
    requires TimelineOk(frames) && n <= |frames|
    ensures var times := Active(sqrt, c, frames, n, side);
            && Ascending(times)
            && (forall i | 0 <= i < |times| :: FollowsTracked(c, frames, side, times[i]))
            && (n > 0 ==> forall i | 0 <= i < |times| :: times[i] <= frames[n - 1].timestampUs)
            && (n == 0 ==> times == [])
  {
    hide SpeedBetween, Tracked, PointOk;
    if n > 0 {
      ActiveMeaning(sqrt, c, frames, n - 1, side);
      var rest := Speeds(sqrt, Wrist(side), c.floor, frames, n - 1);
      if HasSpeed(Wrist(side), c.floor, frames, n - 1) {
        var last := SpeedAt(sqrt, Wrist(side), c.floor, frames, n - 1);
        assert (rest + [last])[..|rest|] == rest;
        assert FollowsTracked(c, frames, side, last.timestampUs);
      } else {
        assert rest + [] == rest;
      }
    }
  }

  // ----- groups -----

  predicate Connected(group: seq<int>, gap: int) {
    group != [] && forall i | 0 < i < |group| :: group[i] - group[i - 1] <= gap
  }

  /** No two neighbouring groups could be one. */
  predicate Separated(groups: seq<seq<int>>, gap: int) {
    forall i | 0 < i < |groups| && groups[i - 1] != [] && groups[i] != [] ::
      groups[i][0] - groups[i - 1][|groups[i - 1]| - 1] > gap
  }

  /** The groups cut `times` into runs without a gap, as long as possible. */
  predicate IsPartition(groups: seq<seq<int>>, times: seq<int>, gap: int) {
    && Flatten(groups) == times
    && (forall i | 0 <= i < |groups| :: Connected(groups[i], gap))
    && Separated(groups, gap)
  }

  lemma {:induction false} FlattenSnoc(groups: seq<seq<int>>, last: seq<int>)
    ensures Flatten(groups + [last]) == Flatten(groups) + last
  {
    if groups == [] {
      assert ([last])[1..] == [];
    } else {
      assert (groups + [last])[1..] == groups[1..] + [last];
      FlattenSnoc(groups[1..], last);
    }
  }

  lemma GrowLastGroup(before: seq<seq<int>>, current: seq<int>, times: seq<int>, gap: int, t: int)
    requires IsPartition(before + [current], times, gap) && current != []
    requires t - current[|current| - 1] <= gap
    ensures IsPartition(before + [current + [t]], times + [t], gap)
  {
    var groups, grown := before + [current], before + [current + [t]];
    FlattenSnoc(before, current);
    FlattenSnoc(before, current + [t]);
    assert Connected(groups[|before|], gap);
    forall i | 0 <= i < |grown| ensures Connected(grown[i], gap) {
      assert i < |before| ==> Connected(groups[i], gap);
    }
    forall i | 0 < i < |grown| ensures grown[i][0] - grown[i - 1][|grown[i - 1]| - 1] > gap {
      assert Connected(groups[i - 1], gap) && Connected(groups[i], gap);
      assert groups[i - 1] == grown[i - 1] && groups[i][0] == grown[i][0];
    }
  }

  lemma OpenNewGroup(groups: seq<seq<int>>, times: seq<int>, gap: int, t: int)
    requires IsPartition(groups, times, gap)
    requires groups != [] && groups[|groups| - 1] != []
    requires t - groups[|groups| - 1][|groups[|groups| - 1]| - 1] > gap
    ensures IsPartition(groups + [[t]], times + [t], gap)
  {
    FlattenSnoc(groups, [t]);
  }

  lemma OneGroup(t: int, gap: int)
    ensures IsPartition([[t]], [t], gap)
  {
    FlattenSnoc([], [t]);
    assert [] + [[t]] == [[t]];
  }

  /** The grouping loop. */
  method GroupByGap(times: seq<int>, gap: int) returns (groups: seq<seq<int>>)
    requires times != []
    ensures IsPartition(groups, times, gap)
  {
    hide Separated, Flatten;
    groups := [[times[0]]];
    OneGroup(times[0], gap);
    for i := 1 to |times|
      invariant groups != [] && IsPartition(groups, times[..i], gap)
    {
      var n, t := |groups| - 1, times[i];
      var current := groups[n];
      assert groups == groups[..n] + [current];
      assert Connected(current, gap);
      assert times[..i + 1] == times[..i] + [t];
      if t - current[|current| - 1] <= gap {
        GrowLastGroup(groups[..n], current, times[..i], gap, t);
        groups := groups[..n] + [current + [t]];
      } else {
        OpenNewGroup(groups, times[..i], gap, t);
        groups := groups + [[t]];
      }
    }
    assert times[..|times|] == times;
  }

  /** There is only one such partition. */
  lemma {:induction false} PartitionIsUnique(a: seq<seq<int>>, b: seq<seq<int>>, times: seq<int>, gap: int)
    requires IsPartition(a, times, gap) && IsPartition(b, times, gap)
    ensures a == b
    decreases |a|
  {
    if a == [] || b == [] {
      EmptyPartition(a, times, gap);
      EmptyPartition(b, times, gap);
    } else {
      AfterHead(a, times, gap);
      AfterHead(b, times, gap);
      InsideHead(a, times, gap);
      InsideHead(b, times, gap);
      assert |a[0]| == |b[0]|;
      assert a[0] == times[..|a[0]|] && b[0] == times[..|b[0]|];
      var rest := times[|a[0]|..];
      assert Flatten(a[1..]) == rest && Flatten(b[1..]) == rest;
      PartitionTail(a, times, gap);
      PartitionTail(b, times, gap);
      PartitionIsUnique(a[1..], b[1..], rest, gap);
      assert a == [a[0]] + a[1..] && b == [b[0]] + b[1..];
    }
  }

  lemma EmptyPartition(a: seq<seq<int>>, times: seq<int>, gap: int)
    requires IsPartition(a, times, gap)
    ensures a == [] <==> times == []
  {
    if a != [] { assert Connected(a[0], gap); }
  }

  lemma PartitionTail(a: seq<seq<int>>, times: seq<int>, gap: int)
    requires a != [] && IsPartition(a, times, gap)
    ensures IsPartition(a[1..], times[|a[0]|..], gap)
  {
    var rest := a[1..];
    forall i | 0 < i < |rest| ensures rest[i][0] - rest[i - 1][|rest[i - 1]| - 1] > gap {
      assert Connected(a[i], gap) && Connected(a[i + 1], gap);
      assert rest[i] == a[i + 1] && rest[i - 1] == a[i];
    }
  }

  lemma InsideHead(a: seq<seq<int>>, times: seq<int>, gap: int)
    requires a != [] && IsPartition(a, times, gap)
    ensures |a[0]| <= |times| && forall n | 0 < n < |a[0]| :: times[n] - times[n - 1] <= gap
  {
    assert Connected(a[0], gap);
    assert a[0] == times[..|a[0]|];
  }

  lemma AfterHead(a: seq<seq<int>>, times: seq<int>, gap: int)
    requires a != [] && IsPartition(a, times, gap)
    ensures 0 < |a[0]| <= |times|
    ensures |a[0]| < |times| ==> times[|a[0]|] - times[|a[0]| - 1] > gap
  {
    var n := |a[0]|;
    assert Connected(a[0], gap);
    if n < |times| {
      assert |Flatten(a[1..])| > 0;
      assert Connected(a[1], gap);
      assert a[1..][0] == a[1];
      assert Flatten(a[1..])[0] == a[1][0] == times[n];
      assert times[n - 1] == a[0][n - 1];
    }
  }
}
