/** What holds of every segmented gesture list: starts, spans, order, ids, the package
    validator's verdict, and independence of the camera. */
module GestureFacts {
  import opened Basics
  import opened Numbers
  import opened Landmarks
  import opened Gestures
  import opened Segmentation

  // ----- single gestures -----

  lemma {:induction false} GroupsOrdered(groups: seq<seq<int>>, times: seq<int>)
    requires NoEmpty(groups) && Flatten(groups) == times && Ascending(times)
    ensures forall i, t | 0 <= i < |groups| && t in groups[i] :: t in times
    ensures forall i | 0 <= i < |groups| :: Ascending(groups[i])
    ensures forall i, j | 0 <= i < j < |groups| :: Last(groups[i]) < groups[j][0]
  {
    if groups != [] {
      var head, tail, rest := groups[0], groups[1..], times[|groups[0]|..];
      assert head == times[..|head|] && Flatten(tail) == rest;
      assert forall i | 0 <= i < |rest| :: rest[i] == times[|head| + i];
      GroupsOrdered(tail, rest);
      forall j | 0 < j < |groups| ensures Last(head) < groups[j][0] {
        assert groups[j] == tail[j - 1] && tail[j - 1][0] in tail[j - 1];
        assert tail[j - 1][0] in rest;
      }
      assert forall i | 0 < i < |groups| :: groups[i] == tail[i - 1];
    }
  }

  /** Both ends of the gesture are frames whose wrist was tracked. */
  predicate Spans(c: Config, frames: seq<Frame>, g: Gesture, a: nat, b: nat)
    requires a < b < |frames|
  {
    && frames[a].timestampUs == g.startUs && frames[b].timestampUs == g.endUs
    && Tracked(Wrist(g.side), c.floor, frames[a]) && Tracked(Wrist(g.side), c.floor, frames[b])
  }

  ghost predicate GestureOk(c: Config, digest: Digest, frames: seq<Frame>, g: Gesture) {
    && (exists a, b | 0 <= a < b < |frames| :: Spans(c, frames, g, a, b))
    && g.startUs < g.endUs && g.durationUs == g.endUs - g.startUs >= c.minDurationUs
    && |g.trajectory| >= 2 && InOrder(g.trajectory) && (forall s | s in g.trajectory :: SampleOk(s))
    && g.trajectory[0].timestampUs == g.startUs && g.trajectory[|g.trajectory| - 1].timestampUs == g.endUs
    && IsUnit(g.confidence)
    && g.id == GestureId(digest, g.side, g.startUs, g.endUs, g.trajectory)
  }

  lemma {:induction false} SumOfUnits(xs: seq<real>)
    requires forall i | 0 <= i < |xs| :: IsUnit(xs[i])
    ensures 0.0 <= Sum(xs) <= |xs| as real
  {
    if xs != [] { SumOfUnits(xs[1..]); }
  }

  lemma MeanOfUnits(xs: seq<real>)
    requires forall i | 0 <= i < |xs| :: IsUnit(xs[i])
    ensures IsUnit(RoundedMean(xs))
  {
    if xs != [] {
      SumOfUnits(xs);
      var n := |xs| as real;
      QuotientSign(Sum(xs), n);
      QuotientOrder(Sum(xs), n, n);
      QuotientIs(n, n, 1.0);
      Round6KeepsBounds(Mean(xs), 0);
      Round6KeepsBounds(Mean(xs), 1000000);
    }
  }

  lemma TrackedIsSampled(point: Selector, c: Config, frames: seq<Frame>, k: nat, side: Side)
    requires k < |frames| && Tracked(Wrist(side), c.floor, frames[k])
    ensures ArmSample(frames[k], side).Some?
  {
  }

  /** Every group of active instants starts at the frame right before its first instant,
      whose wrist was tracked; the fallback start and the check for a short trajectory
      never apply, so only the minimum duration decides. */
  lemma CandidateIsGesture(c: Config, digest: Digest, frames: seq<Frame>, side: Side, group: seq<int>)
    requires TimelineOk(frames) && group != [] && Ascending(group)
    requires FollowsTracked(c, frames, side, group[0]) && FollowsTracked(c, frames, side, Last(group))
    ensures StampsBefore(frames, group[0]) != [] && StartOf(frames, group[0]) < group[0]
    ensures |Trajectory(frames, side, StartOf(frames, group[0]), Last(group))| >= 2
    ensures Candidate(c, digest, frames, side, group).Some? <==> Last(group) - StartOf(frames, group[0]) >= c.minDurationUs
    ensures Candidate(c, digest, frames, side, group).Some? ==>
              GestureOk(c, digest, frames, Candidate(c, digest, frames, side, group).value)
  {
    hide PointOk, SampleOk, ArmSample, RoundedMean, IsUnit, Wrist, StampsBefore, Trajectory;
    var k :| 0 < k < |frames| && frames[k].timestampUs == group[0] && HasSpeed(Wrist(side), c.floor, frames, k);
    var b :| 0 < b < |frames| && frames[b].timestampUs == Last(group) && HasSpeed(Wrist(side), c.floor, frames, b);
    var a := k - 1;
    StartIsPrecedingFrame(frames, k);
    assert a < b;
    TrackedIsSampled(Wrist(side), c, frames, a, side);
    TrackedIsSampled(Wrist(side), c, frames, b, side);
    TrajectorySpans(frames, side, a, b);
    SampleStamp(frames[a], side);
    SampleStamp(frames[b], side);
    var tr := Trajectory(frames, side, frames[a].timestampUs, frames[b].timestampUs);
    ConfidencesAreUnits(tr);
    if Candidate(c, digest, frames, side, group).Some? {
      assert Spans(c, frames, Candidate(c, digest, frames, side, group).value, a, b);
    }
  }

  lemma ConfidencesAreUnits(tr: seq<Sample>)
    requires forall s | s in tr :: SampleOk(s)
    ensures IsUnit(RoundedMean(WristConfidences(tr)))
  {
    assert forall i | 0 <= i < |tr| :: SampleOk(tr[i]);
    MeanOfUnits(WristConfidences(tr));
  }

  // ----- all gestures of one side -----

  /** Gestures follow each other without overlapping. */
  predicate Apart(gs: seq<Gesture>) {
    && (forall i | 0 <= i < |gs| :: gs[i].startUs < gs[i].endUs)
    && forall i, j | 0 <= i < j < |gs| :: gs[i].endUs <= gs[j].startUs
  }

  /** What is known about the groups. */
  ghost predicate GroupsOk(c: Config, frames: seq<Frame>, side: Side, groups: seq<seq<int>>) {
    && NoEmpty(groups)
    && (forall i | 0 <= i < |groups| ::
          Ascending(groups[i]) && FollowsTracked(c, frames, side, groups[i][0]) && FollowsTracked(c, frames, side, Last(groups[i])))
    && forall i, j | 0 <= i < j < |groups| :: Last(groups[i]) < groups[j][0]
  }

  /** A later group starts no earlier than an earlier instant. */
  lemma StartsAfter(c: Config, frames: seq<Frame>, side: Side, t: int, first: int)
    requires TimelineOk(frames) && t < first
    requires FollowsTracked(c, frames, side, t) && FollowsTracked(c, frames, side, first)
    ensures t <= StartOf(frames, first)
  {
    hide PointOk, HasSpeed, StartOf;
    var k :| 0 < k < |frames| && frames[k].timestampUs == first && HasSpeed(Wrist(side), c.floor, frames, k);
    var a :| 0 < a < |frames| && frames[a].timestampUs == t && HasSpeed(Wrist(side), c.floor, frames, a);
    StartIsPrecedingFrame(frames, k);
    assert a < k;
    assert a < k - 1 ==> frames[a].timestampUs < frames[k - 1].timestampUs;
  }

  lemma CandidateShape(c: Config, digest: Digest, frames: seq<Frame>, side: Side, group: seq<int>)
    requires group != [] && Candidate(c, digest, frames, side, group).Some?
    requires StartOf(frames, group[0]) < group[0] && Ascending(group)
    ensures var g := Candidate(c, digest, frames, side, group).value;
            g.side == side && g.startUs == StartOf(frames, group[0]) && g.endUs == Last(group) && g.startUs < g.endUs
  {
    assert |group| > 1 ==> group[0] < group[|group| - 1];
  }

  lemma ApartSnoc(gs: seq<Gesture>, last: Gesture)
    requires Apart(gs) && last.startUs < last.endUs && forall g | g in gs :: g.endUs <= last.startUs
    ensures Apart(gs + [last])
  {
    assert forall i | 0 <= i < |gs| :: gs[i] in gs;
  }

  /** The gestures of some groups: apart, of this side, and each ending with a group. */
  ghost predicate GesturesOf(c: Config, digest: Digest, frames: seq<Frame>, side: Side, groups: seq<seq<int>>, gs: seq<Gesture>)
    requires NoEmpty(groups)
  {
    && Apart(gs)
    && (forall g | g in gs :: g.side == side && GestureOk(c, digest, frames, g))
    && (forall g | g in gs :: exists i | 0 <= i < |groups| :: g.endUs == Last(groups[i]))
  }

  /** One more group adds a gesture that starts no earlier than all others end. */
  lemma GroupAdds(c: Config, digest: Digest, frames: seq<Frame>, side: Side, groups: seq<seq<int>>, gs: seq<Gesture>, group: seq<int>)
    requires TimelineOk(frames) && GroupsOk(c, frames, side, groups + [group]) && NoEmpty(groups) && group != []
    requires GesturesOf(c, digest, frames, side, groups, gs)
    ensures var last := Candidate(c, digest, frames, side, group);
            GesturesOf(c, digest, frames, side, groups + [group], gs + if last.Some? then [last.value] else [])
  {
    hide GestureOk, Candidate, FollowsTracked, PointOk, Apart;
    var all, n := groups + [group], |groups|;
    assert all[n] == group && forall i | 0 <= i < n :: all[i] == groups[i];
    CandidateIsGesture(c, digest, frames, side, group);
    var last := Candidate(c, digest, frames, side, group);
    forall g | g in gs ensures exists i | 0 <= i < |all| :: g.endUs == Last(all[i]) {
      var i :| 0 <= i < n && g.endUs == Last(groups[i]);
      assert all[i] == groups[i];
    }
    if last.Some? {
      CandidateShape(c, digest, frames, side, group);
      forall g | g in gs ensures g.endUs <= last.value.startUs {
        var i :| 0 <= i < n && g.endUs == Last(groups[i]);
        assert Last(all[i]) < all[n][0];
        StartsAfter(c, frames, side, Last(all[i]), group[0]);
      }
      ApartSnoc(gs, last.value);
    } else {
      assert gs + [] == gs;
    }
  }

  lemma {:induction false} CandidatesAreApart(c: Config, digest: Digest, frames: seq<Frame>, side: Side, groups: seq<seq<int>>)
    requires TimelineOk(frames) && GroupsOk(c, frames, side, groups)
    ensures GesturesOf(c, digest, frames, side, groups, Candidates(c, digest, frames, side, groups))
  {
    hide GestureOk, Candidate, FollowsTracked, PointOk;
    if groups != [] {
      var n := |groups| - 1;
      var init := groups[..n];
      assert groups == init + [groups[n]];
      GroupsOfPrefix(c, frames, side, init, groups[n]);
      hide GesturesOf, GroupsOk;
      CandidatesAreApart(c, digest, frames, side, init);
      GroupAdds(c, digest, frames, side, init, Candidates(c, digest, frames, side, init), groups[n]);
    }
  }

  lemma GroupsOfPrefix(c: Config, frames: seq<Frame>, side: Side, init: seq<seq<int>>, group: seq<int>)
    requires GroupsOk(c, frames, side, init + [group])
    ensures GroupsOk(c, frames, side, init) && NoEmpty(init)
  {
    hide FollowsTracked, Ascending;
    var all := init + [group];
    assert forall i | 0 <= i < |init| :: all[i] == init[i];
  }

  lemma ActiveGroupsOk(sqrt: real -> real, c: Config, frames: seq<Frame>, side: Side)
    requires TimelineOk(frames)
    ensures GroupsOk(c, frames, side, Groups(Active(sqrt, c, frames, |frames|, side), c.maxGapUs))
  {
    hide Active, FollowsTracked, PointOk, Separated, Connected;
    var times := Active(sqrt, c, frames, |frames|, side);
    var groups := Groups(times, c.maxGapUs);
    ActiveMeaning(sqrt, c, frames, |frames|, side);
    GroupsPartition(times, c.maxGapUs);
    GroupsOrdered(groups, times);
    forall i | 0 <= i < |groups|
      ensures FollowsTracked(c, frames, side, groups[i][0]) && FollowsTracked(c, frames, side, Last(groups[i]))
    {
      assert groups[i][0] in groups[i] && Last(groups[i]) in groups[i];
      assert groups[i][0] in times && Last(groups[i]) in times;
    }
  }

  /** Gestures of one wrist: each starts at the tracked frame before its first fast
      instant, and they never overlap. */
  lemma SideGesturesOk(sqrt: real -> real, c: Config, digest: Digest, frames: seq<Frame>, side: Side)
    requires TimelineOk(frames)
    ensures var gs := SideGestures(sqrt, c, digest, frames, side);
            Apart(gs) && forall g | g in gs :: g.side == side && GestureOk(c, digest, frames, g)
  {
    hide GestureOk, Apart, PointOk, Active, FollowsTracked;
    ActiveGroupsOk(sqrt, c, frames, side);
    CandidatesAreApart(c, digest, frames, side, Groups(Active(sqrt, c, frames, |frames|, side), c.maxGapUs));
  }

  function TotalDuration(gs: seq<Gesture>): int {
    if gs == [] then 0 else TotalDuration(gs[..|gs| - 1]) + gs[|gs| - 1].durationUs
  }

  lemma {:induction false} DurationsFit(gs: seq<Gesture>, lo: int, hi: int)
    requires Apart(gs) && lo <= hi
    requires forall i | 0 <= i < |gs| :: lo <= gs[i].startUs && gs[i].endUs <= hi && gs[i].durationUs == gs[i].endUs - gs[i].startUs
    ensures 0 <= TotalDuration(gs) <= hi - lo
  {
    if gs != [] {
      DurationsFit(gs[..|gs| - 1], lo, gs[|gs| - 1].startUs);
    }
  }

  lemma SpanWithin(c: Config, digest: Digest, frames: seq<Frame>, g: Gesture)
    requires TimelineOk(frames) && GestureOk(c, digest, frames, g)
    ensures frames != [] && frames[0].timestampUs <= g.startUs && g.endUs <= frames[|frames| - 1].timestampUs
    ensures 0 <= g.startUs
  {
    hide PointOk, InOrder, SampleOk;
    var a, b :| 0 <= a < b < |frames| && Spans(c, frames, g, a, b);
    assert a > 0 ==> frames[0].timestampUs < frames[a].timestampUs;
    assert b < |frames| - 1 ==> frames[b].timestampUs < frames[|frames| - 1].timestampUs;
  }

  /** Together the gestures of one wrist last no longer than the timeline. */
  lemma SideDurationsFit(sqrt: real -> real, c: Config, digest: Digest, frames: seq<Frame>, side: Side)
    requires TimelineOk(frames) && frames != []
    ensures TotalDuration(SideGestures(sqrt, c, digest, frames, side)) <= frames[|frames| - 1].timestampUs - frames[0].timestampUs
  {
    hide PointOk, SideGestures;
    var gs, lo, hi := SideGestures(sqrt, c, digest, frames, side), frames[0].timestampUs, frames[|frames| - 1].timestampUs;
    SideGesturesOk(sqrt, c, digest, frames, side);
    forall i | 0 <= i < |gs|
      ensures lo <= gs[i].startUs && gs[i].endUs <= hi && gs[i].durationUs == gs[i].endUs - gs[i].startUs
    {
      assert gs[i] in gs;
      SpanWithin(c, digest, frames, gs[i]);
    }
    DurationsFit(gs, lo, hi);
  }
}
