/** The sorted gesture list of a bodyprint package, the validator's gesture clauses, and
    why neither depends on where the camera stood. */
module GestureList {
  import opened Numbers
  import opened Landmarks
  import opened Gestures
  import opened Segmentation
  import opened GestureFacts
  import opened GestureMeaning

  // ----- sorting -----

  predicate TextLess(a: string, b: string) {
    if b == [] then false
    else if a == [] then true
    else a[0] < b[0] || (a[0] == b[0] && TextLess(a[1..], b[1..]))
  }

  /** The sort key: start, then side, then id. */
  predicate Before(a: Gesture, b: Gesture) {
    || a.startUs < b.startUs
    || (a.startUs == b.startUs && a.side.Left? && b.side.Right?)
    || (a.startUs == b.startUs && a.side == b.side && TextLess(a.id, b.id))
  }

  /** No two gestures agree on start and side, so the id never decides. */
  predicate KeysDiffer(gs: seq<Gesture>) {
    forall i, j | 0 <= i < j < |gs| :: gs[i].startUs != gs[j].startUs || gs[i].side != gs[j].side
  }

  predicate Sorted(gs: seq<Gesture>) {
    forall i, j | 0 <= i < j < |gs| :: Before(gs[i], gs[j])
  }

  /** Where the gesture goes in a sorted list. */
  method InsertionPoint(gs: seq<Gesture>, g: Gesture) returns (at: nat)
    requires forall i | 0 <= i < |gs| :: gs[i].startUs != g.startUs || gs[i].side != g.side
    requires Sorted(gs)
    ensures at <= |gs|
    ensures forall i | 0 <= i < at :: Before(gs[i], g)
    ensures forall i | at <= i < |gs| :: Before(g, gs[i])
  {
    hide TextLess;
    at := |gs|;
    while at > 0 && !Before(gs[at - 1], g)
      invariant at <= |gs|
      invariant forall i | at <= i < |gs| :: Before(g, gs[i])
    {
      at := at - 1;
    }
    if at > 0 {
      forall i | 0 <= i < at ensures Before(gs[i], g) {
        assert i < at - 1 ==> Before(gs[i], gs[at - 1]);
      }
    }
  }

  lemma InsertSorted(gs: seq<Gesture>, g: Gesture, at: nat)
    requires Sorted(gs) && at <= |gs|
    requires forall i | 0 <= i < at :: Before(gs[i], g)
    requires forall i | at <= i < |gs| :: Before(g, gs[i])
    ensures Sorted(gs[..at] + [g] + gs[at..])
    ensures forall x :: x in gs[..at] + [g] + gs[at..] <==> x in gs || x == g
  {
    hide Before;
    assert gs == gs[..at] + gs[at..];
  }

  /** `sorted` by the key. */
  method SortGestures(gs: seq<Gesture>) returns (r: seq<Gesture>)
    requires KeysDiffer(gs)
    ensures Sorted(r) && |r| == |gs|
    ensures forall g :: g in r <==> g in gs
  {
    hide Before;
    r := [];
    for i := 0 to |gs|
      invariant Sorted(r) && |r| == i
      invariant forall g :: g in r <==> g in gs[..i]
    {
      assert gs[..i + 1] == gs[..i] + [gs[i]];
      forall k | 0 <= k < |r| ensures r[k].startUs != gs[i].startUs || r[k].side != gs[i].side {
        assert r[k] in gs[..i];
      }
      var at := InsertionPoint(r, gs[i]);
      InsertSorted(r, gs[i], at);
      r := r[..at] + [gs[i]] + r[at..];
    }
    assert gs[..|gs|] == gs;
  }

  /** There is only one sorted list with given members. */
  lemma {:induction false} SortedIsUnique(a: seq<Gesture>, b: seq<Gesture>)
    requires Sorted(a) && Sorted(b) && KeysDiffer(a) && KeysDiffer(b)
    requires forall g :: g in a <==> g in b
    ensures a == b
    decreases |a|
  {
    hide TextLess;
    if a == [] || b == [] {
      SameMembersSameEmptiness(a, b);
    } else {
      SameHead(a, b);
      forall g ensures g in a[1..] <==> g in b[1..] {
        TailMembers(a, g);
        TailMembers(b, g);
      }
      SortedIsUnique(a[1..], b[1..]);
      assert a == [a[0]] + a[1..] && b == [b[0]] + b[1..];
    }
  }

  lemma SameMembersSameEmptiness(a: seq<Gesture>, b: seq<Gesture>)
    requires forall g :: g in a <==> g in b
    ensures a == [] <==> b == []
  {
    assert a != [] ==> a[0] in a;
    assert b != [] ==> b[0] in b;
  }

  lemma TailMembers(a: seq<Gesture>, g: Gesture)
    requires a != [] && KeysDiffer(a)
    ensures g in a[1..] <==> g in a && g != a[0]
  {
    assert a == [a[0]] + a[1..];
    if g in a[1..] {
      var i :| 0 <= i < |a[1..]| && a[1..][i] == g;
      assert a[i + 1] == g;
    }
  }

  lemma SameHead(a: seq<Gesture>, b: seq<Gesture>)
    requires a != [] && b != [] && Sorted(a) && Sorted(b)
    requires forall g :: g in a <==> g in b
    ensures a[0] == b[0]
  {
    hide TextLess;
    assert a[0] in b && b[0] in a;
    var i :| 0 <= i < |b| && b[i] == a[0];
    var j :| 0 <= j < |a| && a[j] == b[0];
    TextLessIsStrict(a[0].id, b[0].id);
    assert i == 0 || Before(b[0], a[0]);
    assert j == 0 || Before(a[0], b[0]);
  }

  lemma {:induction false} TextLessIsStrict(a: string, b: string)
    ensures !(TextLess(a, b) && TextLess(b, a))
  {
    if a != [] && b != [] { TextLessIsStrict(a[1..], b[1..]); }
  }

  // ----- the whole list -----

  ghost predicate AreGestures(sqrt: real -> real, c: Config, digest: Digest, frames: seq<Frame>, gs: seq<Gesture>) {
    && Sorted(gs) && KeysDiffer(gs)
    && forall g :: g in gs <==>
         g in SideGestures(sqrt, c, digest, frames, Left) || g in SideGestures(sqrt, c, digest, frames, Right)
  }

  lemma SideKeysDiffer(gs: seq<Gesture>)
    requires Apart(gs)
    ensures forall i, j | 0 <= i < j < |gs| :: gs[i].startUs < gs[j].startUs
  {
    forall i, j | 0 <= i < j < |gs| ensures gs[i].startUs < gs[j].startUs {
      assert gs[i].startUs < gs[i].endUs <= gs[j].startUs;
    }
  }

  lemma BothSidesDiffer(sqrt: real -> real, c: Config, digest: Digest, frames: seq<Frame>)
    requires TimelineOk(frames)
    ensures KeysDiffer(SideGestures(sqrt, c, digest, frames, Left) + SideGestures(sqrt, c, digest, frames, Right))
  {
    hide PointOk, SideGestures, GestureOk;
    var left, right := SideGestures(sqrt, c, digest, frames, Left), SideGestures(sqrt, c, digest, frames, Right);
    SideGesturesOk(sqrt, c, digest, frames, Left);
    SideGesturesOk(sqrt, c, digest, frames, Right);
    SideKeysDiffer(left);
    SideKeysDiffer(right);
    assert forall i | 0 <= i < |left| :: left[i] in left;
    assert forall i | 0 <= i < |right| :: right[i] in right;
  }

  lemma KeysOfMembers(all: seq<Gesture>, gs: seq<Gesture>)
    requires Sorted(gs) && KeysDiffer(all) && forall g :: g in gs <==> g in all
    ensures KeysDiffer(gs)
  {
    forall i, j | 0 <= i < j < |gs| ensures gs[i].startUs != gs[j].startUs || gs[i].side != gs[j].side {
      assert gs[i] in all && gs[j] in all;
      var a :| 0 <= a < |all| && all[a] == gs[i];
      var b :| 0 <= b < |all| && all[b] == gs[j];
      TextLessIsStrict(gs[i].id, gs[i].id);
      assert Before(gs[i], gs[j]);
      assert a != b;
    }
  }

  /** `_segment_gestures`. */
  method SegmentGestures(sqrt: real -> real, c: Config, digest: Digest, frames: seq<Frame>) returns (gestures: seq<Gesture>)
    requires TimelineOk(frames)
    ensures AreGestures(sqrt, c, digest, frames, gestures)
    ensures |gestures| == |SideGestures(sqrt, c, digest, frames, Left)| + |SideGestures(sqrt, c, digest, frames, Right)|
    ensures IsSqrt(sqrt) ==> OneForEachBurst(c, digest, frames, Left, gestures) && OneForEachBurst(c, digest, frames, Right, gestures)
  {
    hide SideGestures, Before, PointOk, OneForEachBurst, IsSqrt;
    var left := SegmentSide(sqrt, c, digest, frames, Left);
    var right := SegmentSide(sqrt, c, digest, frames, Right);
    BothSidesDiffer(sqrt, c, digest, frames);
    gestures := SortGestures(left + right);
    KeysOfMembers(left + right, gestures);
    if IsSqrt(sqrt) { ListTells(sqrt, c, digest, frames, gestures); }
  }

  /** The whole list is exactly one gesture for each long burst of either wrist. */
  lemma ListTells(sqrt: real -> real, c: Config, digest: Digest, frames: seq<Frame>, gs: seq<Gesture>)
    requires IsSqrt(sqrt) && TimelineOk(frames) && AreGestures(sqrt, c, digest, frames, gs)
    ensures OneForEachBurst(c, digest, frames, Left, gs) && OneForEachBurst(c, digest, frames, Right, gs)
  {
    hide PointOk, SideGestures, GestureOk, Sorted, KeysDiffer, Apart, IsSqrt, LongBurst, GestureSays;
    SideGesturesOk(sqrt, c, digest, frames, Left);
    SideGesturesOk(sqrt, c, digest, frames, Right);
    SideGesturesExactly(sqrt, c, digest, frames, Left);
    SideGesturesExactly(sqrt, c, digest, frames, Right);
  }

  lemma MemberOk(sqrt: real -> real, c: Config, digest: Digest, frames: seq<Frame>, gs: seq<Gesture>, i: nat)
    requires TimelineOk(frames) && AreGestures(sqrt, c, digest, frames, gs) && i < |gs|
    ensures GestureOk(c, digest, frames, gs[i]) && gs[i] in SideGestures(sqrt, c, digest, frames, gs[i].side)
  {
    hide PointOk, SideGestures, GestureOk, Sorted, KeysDiffer, Apart;
    SideGesturesOk(sqrt, c, digest, frames, Left);
    SideGesturesOk(sqrt, c, digest, frames, Right);
    assert gs[i] in gs;
  }

  /** In the list, gestures of one side never overlap: each ends before the next begins. */
  lemma SameSideFollows(sqrt: real -> real, c: Config, digest: Digest, frames: seq<Frame>, gs: seq<Gesture>, i: nat, j: nat)
    requires TimelineOk(frames) && AreGestures(sqrt, c, digest, frames, gs) && i < j < |gs| && gs[i].side == gs[j].side
    ensures gs[i].startUs < gs[i].endUs <= gs[j].startUs
  {
    hide PointOk, SideGestures, GestureOk, TextLess;
    MemberOk(sqrt, c, digest, frames, gs, i);
    MemberOk(sqrt, c, digest, frames, gs, j);
    SideGesturesOk(sqrt, c, digest, frames, gs[i].side);
    var side := SideGestures(sqrt, c, digest, frames, gs[i].side);
    var a :| 0 <= a < |side| && side[a] == gs[i];
    var b :| 0 <= b < |side| && side[b] == gs[j];
    assert Before(gs[i], gs[j]);
    SideKeysDiffer(side);
    assert a < b;
  }

  function DigestOf(digest: Digest, g: Gesture): string {
    digest(g.side, g.startUs, g.endUs, g.trajectory)
  }

  /** No two of the gestures have contents with one digest. */
  predicate DigestsDiffer(digest: Digest, gs: seq<Gesture>) {
    forall i, j | 0 <= i < j < |gs| :: DigestOf(digest, gs[i]) != DigestOf(digest, gs[j])
  }

  /** Two segmented gestures have different ids exactly when their digests differ. */
  lemma IdsDistinct(digest: Digest, c: Config, frames: seq<Frame>, a: Gesture, b: Gesture)
    requires GestureOk(c, digest, frames, a) && GestureOk(c, digest, frames, b)
    ensures a.id != b.id <==> DigestOf(digest, a) != DigestOf(digest, b)
  {
    var p, q := DigestOf(digest, a), DigestOf(digest, b);
    assert ("gesture-" + p)[8..] == p && ("gesture-" + q)[8..] == q;
  }

  /** No two different contents in the list share a digest. */
  predicate NoCollisionIn(digest: Digest, gs: seq<Gesture>) {
    forall i, j | 0 <= i < j < |gs| && DigestOf(digest, gs[i]) == DigestOf(digest, gs[j]) ::
      gs[i].side == gs[j].side && gs[i].startUs == gs[j].startUs
      && gs[i].endUs == gs[j].endUs && gs[i].trajectory == gs[j].trajectory
  }

  lemma KeyDiffer(sqrt: real -> real, c: Config, digest: Digest, frames: seq<Frame>, gs: seq<Gesture>, i: nat, j: nat)
    requires AreGestures(sqrt, c, digest, frames, gs) && i < j < |gs|
    ensures gs[i].startUs != gs[j].startUs || gs[i].side != gs[j].side
  {
  }

  /** In a segmented list contents always differ, so without a collision digests do. */
  lemma ContentsDiffer(sqrt: real -> real, c: Config, digest: Digest, frames: seq<Frame>, gs: seq<Gesture>)
    requires AreGestures(sqrt, c, digest, frames, gs)
    ensures NoCollisionIn(digest, gs) <==> DigestsDiffer(digest, gs)
  {
    hide SideGestures, Sorted, DigestOf;
    if NoCollisionIn(digest, gs) {
      forall i, j | 0 <= i < j < |gs| ensures DigestOf(digest, gs[i]) != DigestOf(digest, gs[j]) {
        KeyDiffer(sqrt, c, digest, frames, gs, i, j);
      }
    }
  }

  // ----- the validator -----

  predicate Near(p: Point) {
    -20.0 <= p.x <= 20.0 && -20.0 <= p.y <= 20.0 && -20.0 <= p.z <= 20.0
  }

  /** All coordinates are within 20 torso lengths. */
  predicate SampleNear(s: Sample) {
    Near(s.wrist) && (s.shoulder.Some? ==> Near(s.shoulder.value)) && (s.elbow.Some? ==> Near(s.elbow.value))
  }

  predicate TrajectoryOk(tr: seq<Sample>) {
    && |tr| >= 2 && tr[0].timestampUs >= 0 && InOrder(tr)
    && forall s | s in tr :: SampleNear(s) && SampleOk(s)
  }

  predicate ValidGesture(digest: Digest, g: Gesture) {
    && "gesture-" <= g.id
    && g.startUs >= 0 && g.endUs >= 0 && g.durationUs >= 0
    && g.endUs >= g.startUs && g.durationUs == g.endUs - g.startUs
    && IsUnit(g.confidence) && TrajectoryOk(g.trajectory)
    && g.id == GestureId(digest, g.side, g.startUs, g.endUs, g.trajectory)
  }

  predicate ValidList(digest: Digest, gs: seq<Gesture>) {
    && (forall i | 0 <= i < |gs| :: ValidGesture(digest, gs[i]))
    && forall i, j | 0 <= i < j < |gs| :: gs[i].id != gs[j].id
  }

  /** The loop over the samples of one gesture. */
  method CheckTrajectory(tr: seq<Sample>) returns (ok: bool)
    ensures ok <==> TrajectoryOk(tr)
  {
    hide SampleNear, SampleOk;
    if |tr| < 2 { return false; }
    var last := -1;
    for i := 0 to |tr|
      invariant last == if i == 0 then -1 else tr[i - 1].timestampUs
      invariant i > 0 ==> tr[0].timestampUs >= 0
      invariant forall k, l | 0 <= k < l < i :: tr[k].timestampUs < tr[l].timestampUs
      invariant forall k | 0 <= k < i :: SampleNear(tr[k]) && SampleOk(tr[k])
    {
      if tr[i].timestampUs <= last { return false; }
      last := tr[i].timestampUs;
      if !SampleNear(tr[i]) || !SampleOk(tr[i]) {
        assert tr[i] in tr;
        return false;
      }
    }
    return true;
  }

  /** The gesture clauses of `validate_bodyprint_package`. */
  method CheckGestures(digest: Digest, gs: seq<Gesture>) returns (ok: bool)
    ensures ok <==> ValidList(digest, gs)
  {
    hide TrajectoryOk, GestureId;
    var seen: set<string> := {};
    for i := 0 to |gs|
      invariant forall k | 0 <= k < i :: ValidGesture(digest, gs[k])
      invariant forall k, l | 0 <= k < l < i :: gs[k].id != gs[l].id
      invariant forall id :: id in seen <==> exists k | 0 <= k < i :: gs[k].id == id
    {
      var g := gs[i];
      if !("gesture-" <= g.id) { return false; }
      if g.id in seen { return false; }
      seen := seen + {g.id};
      if g.startUs < 0 || g.endUs < 0 || g.durationUs < 0 { return false; }
      if g.endUs < g.startUs || g.durationUs != g.endUs - g.startUs { return false; }
      if !IsUnit(g.confidence) { return false; }
      var fine := CheckTrajectory(g.trajectory);
      if !fine { return false; }
      if g.id != GestureId(digest, g.side, g.startUs, g.endUs, g.trajectory) { return false; }
    }
    return true;
  }

  /** The validator accepts a segmented list exactly when every coordinate in it is within
      20 torso lengths and no two of its gestures collide; nothing else can go wrong. */
  lemma SegmentedIsValidExactly(sqrt: real -> real, c: Config, digest: Digest, frames: seq<Frame>, gs: seq<Gesture>)
    requires TimelineOk(frames) && AreGestures(sqrt, c, digest, frames, gs)
    ensures ValidList(digest, gs) <==>
            NoCollisionIn(digest, gs) && forall i, s | 0 <= i < |gs| && s in gs[i].trajectory :: SampleNear(s)
  {
    hide PointOk, SideGestures, SampleNear, SampleOk, IsUnit, GestureOk, AreGestures, DigestOf, NoCollisionIn;
    forall i | 0 <= i < |gs|
      ensures ValidGesture(digest, gs[i]) <==> forall s | s in gs[i].trajectory :: SampleNear(s)
    {
      MemberOk(sqrt, c, digest, frames, gs, i);
      SpanWithin(c, digest, frames, gs[i]);
      GestureValidExactly(c, digest, frames, gs[i]);
    }
    forall i, j | 0 <= i < j < |gs|
      ensures gs[i].id != gs[j].id <==> DigestOf(digest, gs[i]) != DigestOf(digest, gs[j])
    {
      MemberOk(sqrt, c, digest, frames, gs, i);
      MemberOk(sqrt, c, digest, frames, gs, j);
      IdsDistinct(digest, c, frames, gs[i], gs[j]);
    }
    ContentsDiffer(sqrt, c, digest, frames, gs);
  }

  lemma GestureValidExactly(c: Config, digest: Digest, frames: seq<Frame>, g: Gesture)
    requires GestureOk(c, digest, frames, g) && g.startUs >= 0
    ensures ValidGesture(digest, g) <==> forall s | s in g.trajectory :: SampleNear(s)
  {
    hide SampleNear, SampleOk, IsUnit, Spans;
  }

  // ----- independence of the camera -----

  /** Frames that agree but for the recorded scale have the same wrist speeds. */
  lemma {:induction false} SpeedsIgnoreScale(sqrt: real -> real, side: Side, floor: real, a: seq<Frame>, b: seq<Frame>, n: nat)
    requires SameShape(a, b) && n <= |a|
    ensures Speeds(sqrt, Wrist(side), floor, a, n) == Speeds(sqrt, Wrist(side), floor, b, n)
  {
    hide Distance;
    if n > 0 { SpeedsIgnoreScale(sqrt, side, floor, a, b, n - 1); }
  }

  lemma {:induction false} TrajectoryIgnoresScale(side: Side, a: seq<Frame>, b: seq<Frame>, lo: int, hi: int)
    requires SameShape(a, b)
    ensures Trajectory(a, side, lo, hi) == Trajectory(b, side, lo, hi)
  {
    if a != [] { TrajectoryIgnoresScale(side, a[..|a| - 1], b[..|b| - 1], lo, hi); }
  }

  lemma {:induction false} StampsIgnoreScale(a: seq<Frame>, b: seq<Frame>, t: int)
    requires SameShape(a, b)
    ensures StampsBefore(a, t) == StampsBefore(b, t)
  {
    if a != [] { StampsIgnoreScale(a[..|a| - 1], b[..|b| - 1], t); }
  }

  lemma {:induction false} CandidatesIgnoreScale(c: Config, digest: Digest, a: seq<Frame>, b: seq<Frame>, side: Side, groups: seq<seq<int>>)
    requires SameShape(a, b) && NoEmpty(groups)
    ensures Candidates(c, digest, a, side, groups) == Candidates(c, digest, b, side, groups)
  {
    hide StampsBefore, Trajectory, RoundedMean, WristConfidences, GestureId, SameShape;
    if groups != [] {
      CandidatesIgnoreScale(c, digest, a, b, side, groups[..|groups| - 1]);
      var group := groups[|groups| - 1];
      StampsIgnoreScale(a, b, group[0]);
      TrajectoryIgnoresScale(side, a, b, StartOf(a, group[0]), Last(group));
    }
  }

  /** Moving and zooming every frame of a recording, each on its own, changes neither the
      wrist speeds nor the gestures, as long as the torso stays measurable the same way. */
  lemma GesturesIgnoreTheCamera(sqrt: real -> real, c: Config, digest: Digest, side: Side,
                                views: seq<View>, raws: seq<RawFrame>, moved: seq<RawFrame>)
    requires IsSqrt(sqrt) && |views| == |raws| == |moved|
    requires forall i | 0 <= i < |raws| ::
               views[i].s > 0.0 && Steady(sqrt, views[i], raws[i]) && moved[i] == MoveFrame(views[i], raws[i])
    ensures var a, b := NormalizedAll(sqrt, moved), NormalizedAll(sqrt, raws);
            && |a| == |b| && Speeds(sqrt, Wrist(side), c.floor, a, |a|) == Speeds(sqrt, Wrist(side), c.floor, b, |b|)
            && SideGestures(sqrt, c, digest, a, side) == SideGestures(sqrt, c, digest, b, side)
  {
    hide Steady, MoveFrame, Normalized, NormalizedAll, Speeds, Candidates, Groups, ActiveTimes, IsSqrt;
    var a, b := NormalizedAll(sqrt, moved), NormalizedAll(sqrt, raws);
    TimelineIsInvariant(sqrt, views, raws, moved);
    SpeedsIgnoreScale(sqrt, side, c.floor, a, b, |a|);
    CandidatesIgnoreScale(c, digest, a, b, side, Groups(Active(sqrt, c, a, |a|, side), c.maxGapUs));
  }
}
