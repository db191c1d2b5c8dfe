/** What a gesture list says about the recording, in frames, distances and times alone: one
    gesture for every burst of fast wrist movement that lasts long enough. */
module GestureMeaning {
  import opened Basics
  import opened Numbers
  import opened Landmarks
  import opened Gestures
  import opened Segmentation
  import opened GestureFacts

  // ----- fast movement -----

  function JointName(side: Side, joint: string): string {
    match side
    case Left => "left_" + joint
    case Right => "right_" + joint
  }

  /** The wrist is tracked in frame `k` and in the frame before it, and between them moved at
      the threshold speed or faster. `d` is the distance. */
  ghost predicate MovedFast(c: Config, frames: seq<Frame>, side: Side, k: nat, d: real)
    requires 0 < k < |frames|
  {
    var a, b := Lookup(frames[k - 1].body, JointName(side, "wrist")), Lookup(frames[k].body, JointName(side, "wrist"));
    && a.Some? && b.Some? && a.value.confidence >= c.floor && b.value.confidence >= c.floor
    && d >= 0.0
    && d * d == (b.value.x - a.value.x) * (b.value.x - a.value.x) + (b.value.y - a.value.y) * (b.value.y - a.value.y)
                + (b.value.z - a.value.z) * (b.value.z - a.value.z)
    && d * 1000000.0 >= c.threshold * (frames[k].timestampUs - frames[k - 1].timestampUs) as real
  }

  ghost predicate Fast(c: Config, frames: seq<Frame>, side: Side, k: nat)
    requires 0 < k < |frames|
  {
    exists d :: MovedFast(c, frames, side, k, d)
  }

  /** The stamps of the frames into which the wrist moved fast. */
  ghost function FastInstants(c: Config, frames: seq<Frame>, side: Side): set<int> {
    set k | 0 < k < |frames| && Fast(c, frames, side, k) :: frames[k].timestampUs
  }

  lemma SpeedThreshold(d: real, elapsedUs: int, threshold: real)
    requires elapsedUs > 0
    ensures d / (elapsedUs as real / 1000000.0) >= threshold <==> d * 1000000.0 >= threshold * elapsedUs as real
  {
    var e := elapsedUs as real / 1000000.0;
    assert e * 1000000.0 == elapsedUs as real;
    QuotientIs(threshold * e, e, threshold);
    QuotientOrder(threshold * e, d, e);
    assert threshold * e * 1000000.0 == threshold * elapsedUs as real;
  }

  lemma SquaresNotNegative(a: Vec, b: Vec)
    ensures SquaredDistance(a, b) >= 0.0
    ensures SquaredDistance(a, b) == (a.x - b.x) * (a.x - b.x) + (a.y - b.y) * (a.y - b.y) + (a.z - b.z) * (a.z - b.z)
  {
  }

  /** Frame `k` is among the fast ones exactly when it has a speed at or over the threshold. */
  lemma FastExactly(sqrt: real -> real, c: Config, frames: seq<Frame>, side: Side, k: nat)
    requires IsSqrt(sqrt) && TimelineOk(frames) && 0 < k < |frames|
    ensures Fast(c, frames, side, k) <==>
            HasSpeed(Wrist(side), c.floor, frames, k)
            && SpeedAt(sqrt, Wrist(side), c.floor, frames, k).speed >= c.threshold
  {
    hide PointOk, SquaredDistance, IsSqrt;
    if HasSpeed(Wrist(side), c.floor, frames, k) {
      var a, b := Position(Wrist(side)(frames[k - 1]).value), Position(Wrist(side)(frames[k]).value);
      SquaresNotNegative(b, a);
      DistanceRoot(sqrt, b, a);
      var d := Distance(sqrt, b, a);
      SpeedThreshold(d, frames[k].timestampUs - frames[k - 1].timestampUs, c.threshold);
      if d * 1000000.0 >= c.threshold * (frames[k].timestampUs - frames[k - 1].timestampUs) as real {
        assert MovedFast(c, frames, side, k, d);
      }
      forall e | MovedFast(c, frames, side, k, e) ensures e == d {
        RootsAgree(e, d);
      }
    }
  }

  lemma DistanceRoot(sqrt: real -> real, a: Vec, b: Vec)
    requires IsSqrt(sqrt)
    ensures Distance(sqrt, a, b) >= 0.0 && Distance(sqrt, a, b) * Distance(sqrt, a, b) == SquaredDistance(a, b)
  {
    SquaresNotNegative(a, b);
    hide SquaredDistance;
  }

  /** The active instants are exactly the stamps of the fast frames. */
  lemma {:induction false} ActiveExactly(sqrt: real -> real, c: Config, frames: seq<Frame>, n: nat, side: Side)
    requires IsSqrt(sqrt) && TimelineOk(frames) && n <= |frames|
    ensures forall t :: t in Active(sqrt, c, frames, n, side) <==>
                        exists k | 0 < k < n :: frames[k].timestampUs == t && Fast(c, frames, side, k)
  {
    hide PointOk, IsSqrt, SpeedAt, Fast, HasSpeed;
    if n > 0 {
      ActiveExactly(sqrt, c, frames, n - 1, side);
      ActiveSnoc(sqrt, c, frames, n, side);
      if n > 1 { FastExactly(sqrt, c, frames, side, n - 1); } else { FirstHasNoSpeed(c, frames, side); }
    }
  }

  lemma FirstHasNoSpeed(c: Config, frames: seq<Frame>, side: Side)
    requires frames != []
    ensures !HasSpeed(Wrist(side), c.floor, frames, 0)
  {
  }

  lemma ActiveSnoc(sqrt: real -> real, c: Config, frames: seq<Frame>, n: nat, side: Side)
    requires 0 < n <= |frames|
    ensures Active(sqrt, c, frames, n, side) == Active(sqrt, c, frames, n - 1, side) +
            if HasSpeed(Wrist(side), c.floor, frames, n - 1) && SpeedAt(sqrt, Wrist(side), c.floor, frames, n - 1).speed >= c.threshold
            then [frames[n - 1].timestampUs] else []
  {
    hide SpeedBetween, Tracked;
    var rest := Speeds(sqrt, Wrist(side), c.floor, frames, n - 1);
    if HasSpeed(Wrist(side), c.floor, frames, n - 1) {
      assert (rest + [SpeedAt(sqrt, Wrist(side), c.floor, frames, n - 1)])[..|rest|] == rest;
    } else {
      assert rest + [] == rest;
    }
  }

  // ----- bursts -----

  /** From `lo` to `hi` no pause between instants exceeds the gap, and no instant outside is
      within the gap of either end. */
  predicate IsBurst(instants: set<int>, gap: int, lo: int, hi: int) {
    && lo in instants && hi in instants && lo <= hi
    && (forall t | t in instants && lo <= t < hi :: exists u | u in instants :: t < u <= hi && u - t <= gap)
    && (forall t | t in instants && t < lo :: lo - t > gap)
    && forall t | t in instants && hi < t :: t - hi > gap
  }

  lemma {:induction false} InSomePiece(groups: seq<seq<int>>, t: int)
    ensures t in Flatten(groups) <==> exists i | 0 <= i < |groups| :: t in groups[i]
  {
    if groups != [] {
      InSomePiece(groups[1..], t);
      if t in Flatten(groups[1..]) {
        var i :| 0 <= i < |groups[1..]| && t in groups[1..][i];
        assert t in groups[i + 1];
      }
      forall i | 0 < i < |groups| && t in groups[i] ensures t in Flatten(groups[1..]) {
        assert groups[1..][i - 1] == groups[i];
      }
    }
  }

  /** The groups hold exactly the instants, each group ascending, one group after another. */
  ghost predicate Grouped(groups: seq<seq<int>>, instants: set<int>, gap: int) {
    && NoEmpty(groups)
    && (forall t :: t in instants <==> exists i | 0 <= i < |groups| :: t in groups[i])
    && (forall i | 0 <= i < |groups| :: Ascending(groups[i]) && Connected(groups[i], gap))
    && (forall i, j | 0 <= i < j < |groups| :: Last(groups[i]) < groups[j][0])
    && forall i | 0 < i < |groups| :: groups[i][0] - Last(groups[i - 1]) > gap
  }

  lemma GroupsAreGrouped(times: seq<int>, instants: set<int>, gap: int)
    requires Ascending(times) && forall t :: t in instants <==> t in times
    ensures Grouped(Groups(times, gap), instants, gap)
  {
    var groups := Groups(times, gap);
    GroupsPartition(times, gap);
    GroupsOrdered(groups, times);
    forall t ensures t in instants <==> exists i | 0 <= i < |groups| :: t in groups[i] {
      InSomePiece(groups, t);
    }
  }

  lemma MemberBetween(group: seq<int>, t: int)
    requires group != [] && Ascending(group) && t in group
    ensures group[0] <= t <= Last(group)
  {
  }

  lemma GroupIsBurst(groups: seq<seq<int>>, instants: set<int>, gap: int, i: nat)
    requires Grouped(groups, instants, gap) && i < |groups|
    ensures IsBurst(instants, gap, groups[i][0], Last(groups[i]))
  {
    hide Ascending, Connected;
    var group := groups[i];
    var lo, hi := group[0], Last(group);
    assert lo in group && hi in group;
    MemberBetween(group, lo);
    forall t | t in instants
      ensures t < lo ==> lo - t > gap
      ensures t > hi ==> t - hi > gap
      ensures lo <= t < hi ==> exists u | u in instants :: t < u <= hi && u - t <= gap
    {
      var j :| 0 <= j < |groups| && t in groups[j];
      MemberBetween(groups[j], t);
      if j < i {
        assert j < i - 1 ==> Last(groups[j]) < groups[i - 1][0];
        LastAfterFirst(groups, instants, gap, i - 1);
      } else if j > i {
        assert j > i + 1 ==> Last(groups[i + 1]) < groups[j][0];
        LastAfterFirst(groups, instants, gap, i + 1);
      } else if t < hi {
        var u := Successor(group, gap, t);
        MemberBetween(group, u);
        assert u in groups[i];
        assert u in instants;
      }
    }
  }

  lemma LastAfterFirst(groups: seq<seq<int>>, instants: set<int>, gap: int, i: nat)
    requires Grouped(groups, instants, gap) && i < |groups|
    ensures groups[i][0] <= Last(groups[i])
  {
    assert Ascending(groups[i]);
  }

  lemma Successor(group: seq<int>, gap: int, t: int) returns (u: int)
    requires Connected(group, gap) && Ascending(group) && t in group && t < Last(group)
    ensures u in group && t < u && u - t <= gap
  {
    var n :| 0 <= n < |group| && group[n] == t;
    u := group[n + 1];
  }

  /** Bursts and groups are the same. */
  lemma BurstIsGroup(groups: seq<seq<int>>, instants: set<int>, gap: int, lo: int, hi: int) returns (i: nat)
    requires Grouped(groups, instants, gap) && IsBurst(instants, gap, lo, hi)
    ensures i < |groups| && groups[i][0] == lo && Last(groups[i]) == hi
  {
    hide Grouped;
    i := GroupOf(groups, instants, gap, lo);
    GroupIsBurst(groups, instants, gap, i);
    SameBurst(instants, gap, lo, hi, groups[i][0], Last(groups[i]));
  }

  lemma GroupOf(groups: seq<seq<int>>, instants: set<int>, gap: int, t: int) returns (i: nat)
    requires Grouped(groups, instants, gap) && t in instants
    ensures i < |groups| && groups[i] != [] && groups[i][0] <= t <= Last(groups[i])
  {
    i :| i < |groups| && t in groups[i];
    assert Ascending(groups[i]);
    MemberBetween(groups[i], t);
  }

  lemma SameBurst(instants: set<int>, gap: int, lo: int, hi: int, first: int, last: int)
    requires IsBurst(instants, gap, lo, hi) && IsBurst(instants, gap, first, last) && first <= lo <= last
    ensures lo == first && hi == last
  {
    if first < lo { BurstHasNoInside(instants, gap, lo, first, last); }
  }

  /** Inside a burst some pause is bridged, so no other burst begins there. */
  lemma BurstHasNoInside(instants: set<int>, gap: int, lo: int, first: int, last: int)
    requires IsBurst(instants, gap, first, last) && first < lo <= last && lo in instants
    ensures exists t | t in instants :: t < lo && lo - t <= gap
  {
    var t := Latest(instants, first, lo);
    var u :| u in instants && t < u <= last && u - t <= gap;
    assert lo <= u;
  }

  /** The latest instant before `lo`. */
  lemma Latest(instants: set<int>, first: int, lo: int) returns (t: int)
    requires first in instants && first < lo
    ensures t in instants && first <= t < lo && forall u | u in instants :: u <= t || u >= lo
    decreases lo - first
  {
    if u :| u in instants && first < u < lo {
      t := Latest(instants, u, lo);
    } else {
      t := first;
    }
  }

  // ----- one gesture for every long burst -----

  /** The arm in one frame. */
  predicate SampleSays(f: Frame, side: Side, s: Sample) {
    && s.timestampUs == f.timestampUs
    && Lookup(f.body, JointName(side, "wrist")) == Some(s.wrist)
    && Lookup(f.body, JointName(side, "shoulder")) == s.shoulder
    && Lookup(f.body, JointName(side, "elbow")) == s.elbow
  }

  predicate Within(frames: seq<Frame>, side: Side, lo: int, hi: int, k: nat)
    requires k < |frames|
  {
    lo <= frames[k].timestampUs <= hi && Lookup(frames[k].body, JointName(side, "wrist")).Some?
  }

  /** In order, the arm in exactly the frames from `lo` to `hi` that have a wrist. */
  ghost predicate TrajectorySays(frames: seq<Frame>, side: Side, lo: int, hi: int, tr: seq<Sample>) {
    && InOrder(tr)
    && (forall s | s in tr :: exists k | 0 <= k < |frames| :: Within(frames, side, lo, hi, k) && SampleSays(frames[k], side, s))
    && forall k | 0 <= k < |frames| && Within(frames, side, lo, hi, k) :: exists s | s in tr :: SampleSays(frames[k], side, s)
  }

  function Certainties(tr: seq<Sample>): seq<real> {
    seq(|tr|, i requires 0 <= i < |tr| => tr[i].wrist.confidence)
  }

  /** The gesture of the burst from frame `k` to `hi`: it starts one frame earlier. */
  ghost predicate GestureSays(digest: Digest, frames: seq<Frame>, side: Side, k: nat, hi: int, g: Gesture)
    requires 0 < k < |frames|
  {
    var start := frames[k - 1].timestampUs;
    && g.side == side && g.startUs == start && g.endUs == hi && g.durationUs == hi - start
    && TrajectorySays(frames, side, start, hi, g.trajectory) && g.trajectory != []
    && g.confidence == Round6(Sum(Certainties(g.trajectory)) / |g.trajectory| as real)
    && g.id == "gesture-" + digest(side, start, hi, g.trajectory)
  }

  /** A burst from frame `k` to `hi` that, counted from the frame before, is long enough. */
  ghost predicate LongBurst(c: Config, frames: seq<Frame>, side: Side, k: nat, hi: int) {
    && 0 < k < |frames|
    && IsBurst(FastInstants(c, frames, side), c.maxGapUs, frames[k].timestampUs, hi)
    && hi - frames[k - 1].timestampUs >= c.minDurationUs
  }

  /** Each of the gestures is that of a long burst, and each long burst of the side has one. */
  ghost predicate OneForEachBurst(c: Config, digest: Digest, frames: seq<Frame>, side: Side, gs: seq<Gesture>) {
    && (forall g | g in gs && g.side == side ::
          exists k: nat, hi: int :: LongBurst(c, frames, side, k, hi) && GestureSays(digest, frames, side, k, hi, g))
    && forall k: nat, hi: int | LongBurst(c, frames, side, k, hi) ::
         exists g | g in gs :: GestureSays(digest, frames, side, k, hi, g)
  }

  lemma {:induction false} CandidateMembers(c: Config, digest: Digest, frames: seq<Frame>, side: Side, groups: seq<seq<int>>)
    requires NoEmpty(groups)
    ensures forall g :: g in Candidates(c, digest, frames, side, groups) <==>
                        exists i | 0 <= i < |groups| :: Candidate(c, digest, frames, side, groups[i]) == Some(g)
  {
    hide Candidate;
    if groups != [] {
      var n := |groups| - 1;
      CandidateMembers(c, digest, frames, side, groups[..n]);
      var rest := Candidates(c, digest, frames, side, groups[..n]);
      forall g ensures g in Candidates(c, digest, frames, side, groups) <==>
                       exists i | 0 <= i < |groups| :: Candidate(c, digest, frames, side, groups[i]) == Some(g)
      {
        if g in rest {
          var i :| 0 <= i < n && Candidate(c, digest, frames, side, groups[..n][i]) == Some(g);
          assert groups[i] == groups[..n][i];
        }
        forall i | 0 <= i < n && Candidate(c, digest, frames, side, groups[i]) == Some(g) ensures g in rest {
          assert groups[..n][i] == groups[i];
        }
      }
    }
  }

  lemma ArmSampleSays(f: Frame, side: Side)
    ensures ArmSample(f, side).Some? <==> Lookup(f.body, JointName(side, "wrist")).Some?
    ensures ArmSample(f, side).Some? ==> SampleSays(f, side, ArmSample(f, side).value)
  {
  }

  lemma HeldSamplesSay(frames: seq<Frame>, side: Side, lo: int, hi: int, tr: seq<Sample>)
    requires HoldsSamples(frames, |frames|, side, lo, hi, tr)
    ensures TrajectorySays(frames, side, lo, hi, tr)
  {
    hide ArmSample, SampleSays, SampleOk;
    forall k | 0 <= k < |frames|
      ensures Contributes(frames, side, lo, hi, k) <==> Within(frames, side, lo, hi, k)
      ensures Contributes(frames, side, lo, hi, k) ==> SampleSays(frames[k], side, ArmSample(frames[k], side).value)
    {
      ArmSampleSays(frames[k], side);
    }
  }

  /** The candidate of a group, in terms of the recording. */
  lemma CandidateSays(c: Config, digest: Digest, frames: seq<Frame>, side: Side, group: seq<int>, k: nat)
    requires TimelineOk(frames) && group != [] && Ascending(group) && 0 < k < |frames| && frames[k].timestampUs == group[0]
    requires FollowsTracked(c, frames, side, group[0]) && FollowsTracked(c, frames, side, Last(group))
    ensures var g := Candidate(c, digest, frames, side, group);
            && (g.Some? <==> Last(group) - frames[k - 1].timestampUs >= c.minDurationUs)
            && (g.Some? ==> GestureSays(digest, frames, side, k, Last(group), g.value))
  {
    hide PointOk, GestureOk, FollowsTracked, StampsBefore, Trajectory, HoldsSamples, TrajectorySays, Round6;
    CandidateIsGesture(c, digest, frames, side, group);
    StartIsPrecedingFrame(frames, k);
    var start, hi := frames[k - 1].timestampUs, Last(group);
    TrajectoryMeaning(frames, |frames|, side, start, hi);
    assert frames[..|frames|] == frames;
    var tr := Trajectory(frames, side, start, hi);
    HeldSamplesSay(frames, side, start, hi, tr);
    assert WristConfidences(tr) == Certainties(tr);
  }

  lemma ActiveGrouped(sqrt: real -> real, c: Config, frames: seq<Frame>, side: Side)
    requires IsSqrt(sqrt) && TimelineOk(frames)
    ensures var groups := Groups(Active(sqrt, c, frames, |frames|, side), c.maxGapUs);
            GroupsOk(c, frames, side, groups) && Grouped(groups, FastInstants(c, frames, side), c.maxGapUs)
  {
    hide PointOk, Fast, IsSqrt, Active, GroupsOk, Grouped, FollowsTracked;
    ActiveGroupsOk(sqrt, c, frames, side);
    ActiveExactly(sqrt, c, frames, |frames|, side);
    ActiveMeaning(sqrt, c, frames, |frames|, side);
    GroupsAreGrouped(Active(sqrt, c, frames, |frames|, side), FastInstants(c, frames, side), c.maxGapUs);
  }

  /** The gestures of one wrist are exactly one for each long burst of fast movement. */
  lemma SideGesturesExactly(sqrt: real -> real, c: Config, digest: Digest, frames: seq<Frame>, side: Side)
    requires IsSqrt(sqrt) && TimelineOk(frames)
    ensures OneForEachBurst(c, digest, frames, side, SideGestures(sqrt, c, digest, frames, side))
  {
    hide PointOk, IsSqrt, Active, Grouped, FollowsTracked, GestureSays, Candidate, IsBurst, Fast;
    var groups := Groups(Active(sqrt, c, frames, |frames|, side), c.maxGapUs);
    var gs, instants := SideGestures(sqrt, c, digest, frames, side), FastInstants(c, frames, side);
    ActiveGrouped(sqrt, c, frames, side);
    CandidateMembers(c, digest, frames, side, groups);
    forall g | g in gs
      ensures exists k: nat, hi: int :: LongBurst(c, frames, side, k, hi) && GestureSays(digest, frames, side, k, hi, g)
    {
      var i :| 0 <= i < |groups| && Candidate(c, digest, frames, side, groups[i]) == Some(g);
      GroupIsBurst(groups, instants, c.maxGapUs, i);
      var k := FrameOf(c, frames, side, groups[i][0]);
      CandidateSays(c, digest, frames, side, groups[i], k);
      assert LongBurst(c, frames, side, k, Last(groups[i]));
    }
    forall k: nat, hi: int | LongBurst(c, frames, side, k, hi)
      ensures exists g | g in gs :: GestureSays(digest, frames, side, k, hi, g)
    {
      var i := BurstIsGroup(groups, instants, c.maxGapUs, frames[k].timestampUs, hi);
      CandidateSays(c, digest, frames, side, groups[i], k);
      assert Candidate(c, digest, frames, side, groups[i]).value in gs;
    }
  }

  lemma FrameOf(c: Config, frames: seq<Frame>, side: Side, t: int) returns (k: nat)
    requires FollowsTracked(c, frames, side, t)
    ensures 0 < k < |frames| && frames[k].timestampUs == t
  {
    k :| 0 < k < |frames| && frames[k].timestampUs == t && HasSpeed(Wrist(side), c.floor, frames, k);
  }

  /** Every fast frame belongs to a burst. */
  lemma FastIsInBurst(sqrt: real -> real, c: Config, frames: seq<Frame>, side: Side, j: nat) returns (k: nat, hi: int)
    requires IsSqrt(sqrt) && TimelineOk(frames) && 0 < j < |frames| && Fast(c, frames, side, j)
    ensures 0 < k <= j && IsBurst(FastInstants(c, frames, side), c.maxGapUs, frames[k].timestampUs, hi)
    ensures frames[j].timestampUs <= hi
  {
    hide PointOk, IsSqrt, Active, Grouped, FollowsTracked, IsBurst, Fast;
    var groups := Groups(Active(sqrt, c, frames, |frames|, side), c.maxGapUs);
    ActiveGrouped(sqrt, c, frames, side);
    var i := GroupOf(groups, FastInstants(c, frames, side), c.maxGapUs, frames[j].timestampUs);
    GroupIsBurst(groups, FastInstants(c, frames, side), c.maxGapUs, i);
    k := FrameOf(c, frames, side, groups[i][0]);
    hi := Last(groups[i]);
  }

  /** No fast movement is lost: a fast frame lies in a gesture of its side, unless the burst
      it belongs to, counted from the frame before, is shorter than the minimum. */
  lemma FastIsCovered(sqrt: real -> real, c: Config, digest: Digest, frames: seq<Frame>, side: Side, gs: seq<Gesture>, j: nat)
    returns (k: nat, hi: int)
    requires IsSqrt(sqrt) && TimelineOk(frames) && 0 < j < |frames| && Fast(c, frames, side, j)
    requires OneForEachBurst(c, digest, frames, side, gs)
    ensures 0 < k <= j && frames[j].timestampUs <= hi
    ensures IsBurst(FastInstants(c, frames, side), c.maxGapUs, frames[k].timestampUs, hi)
    ensures hi - frames[k - 1].timestampUs < c.minDurationUs ||
            exists g | g in gs :: g.side == side && g.startUs < frames[j].timestampUs <= g.endUs
  {
    hide PointOk, IsSqrt, Fast, IsBurst, GestureSays, TimelineOk;
    k, hi := FastIsInBurst(sqrt, c, frames, side, j);
    if hi - frames[k - 1].timestampUs >= c.minDurationUs {
      assert LongBurst(c, frames, side, k, hi);
      var g :| g in gs && GestureSays(digest, frames, side, k, hi, g);
      SpanOfGesture(digest, frames, side, k, hi, g, j);
    }
  }

  lemma SpanOfGesture(digest: Digest, frames: seq<Frame>, side: Side, k: nat, hi: int, g: Gesture, j: nat)
    requires TimelineOk(frames) && 0 < k <= j < |frames| && GestureSays(digest, frames, side, k, hi, g)
    ensures g.side == side && g.startUs < frames[j].timestampUs && g.endUs == hi
  {
    hide PointOk, TrajectorySays;
  }
}
