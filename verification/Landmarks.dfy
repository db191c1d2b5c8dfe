/** Named landmarks, and the torso-centred, scale-normalized frame they are expressed in. */
module Landmarks {
  import opened Basics
  import opened Numbers

  datatype Point = Point(x: real, y: real, z: real, confidence: real)

  /** A point group in name order, as the tracker's dictionaries are built. */
  type Points = seq<(string, Point)>

  function Lookup(points: Points, name: string): Option<Point> {
    if points == [] then None
    else if points[0].0 == name then Some(points[0].1)
    else Lookup(points[1..], name)
  }

  datatype Vec = Vec(x: real, y: real, z: real)

  function Position(p: Point): Vec {
    Vec(p.x, p.y, p.z)
  }

  function Square(x: real): real {
    x * x
  }

  function SquaredDistance(a: Vec, b: Vec): real {
    Square(a.x - b.x) + Square(a.y - b.y) + Square(a.z - b.z)
  }

  function Distance(sqrt: real -> real, a: Vec, b: Vec): real {
    sqrt(SquaredDistance(a, b))
  }

  // ----- the torso frame -----

  const CUT: real := 0.000001

  function Halfway(a: Point, b: Point): Vec {
    Vec((a.x + b.x) / 2.0, (a.y + b.y) / 2.0, (a.z + b.z) / 2.0)
  }

  function Midpoint(body: Points, left: string, right: string): Option<Vec> {
    var a, b := Lookup(body, left), Lookup(body, right);
    if a.None? || b.None? then None else Some(Halfway(a.value, b.value))
  }

  datatype Axis = X | Y | Z

  function Coordinate(p: Point, axis: Axis): real {
    match axis
    case X => p.x
    case Y => p.y
    case Z => p.z
  }

  /** The landmarks' coordinates along one axis. */
  function Along(body: Points, axis: Axis): seq<real> {
    seq(|body|, i requires 0 <= i < |body| => Coordinate(body[i].1, axis))
  }

  function Sum(xs: seq<real>): real {
    if xs == [] then 0.0 else xs[0] + Sum(xs[1..])
  }

  function Mean(xs: seq<real>): real
    requires xs != []
  {
    Sum(xs) / |xs| as real
  }

  /** The hips' midpoint, or else the shoulders', or else the mean of all landmarks. */
  function Center(body: Points): Option<Vec> {
    var hip, shoulders := Midpoint(body, "left_hip", "right_hip"), Midpoint(body, "left_shoulder", "right_shoulder");
    if hip.Some? then hip
    else if shoulders.Some? then shoulders
    else if body == [] then None
    else Some(Vec(Mean(Along(body, X)), Mean(Along(body, Y)), Mean(Along(body, Z))))
  }

  function PairDistance(sqrt: real -> real, body: Points, left: string, right: string): real {
    var a, b := Lookup(body, left), Lookup(body, right);
    if a.None? || b.None? then 0.0 else Distance(sqrt, Position(a.value), Position(b.value))
  }

  /** The larger of the shoulder and hip widths; zero where neither is known. */
  function PairScale(sqrt: real -> real, body: Points): real {
    Max(Max(0.0, PairDistance(sqrt, body, "left_shoulder", "right_shoulder")),
        PairDistance(sqrt, body, "left_hip", "right_hip"))
  }

  function Largest(xs: seq<real>): real
    requires xs != []
  {
    if |xs| == 1 then xs[0] else Max(xs[0], Largest(xs[1..]))
  }

  function Smallest(xs: seq<real>): real
    requires xs != []
  {
    if |xs| == 1 then xs[0] else Min(xs[0], Smallest(xs[1..]))
  }

  function Width(xs: seq<real>): real
    requires xs != []
  {
    Largest(xs) - Smallest(xs)
  }

  /** The larger side of the landmarks' bounding box in the image plane. */
  function Span(body: Points): real {
    if body == [] then 0.0 else Max(Width(Along(body, X)), Width(Along(body, Y)))
  }

  /** The scale of a body: its pair distance, or its span where that is below the cut. */
  function Scale(sqrt: real -> real, body: Points): real {
    if PairScale(sqrt, body) > CUT then PairScale(sqrt, body) else Span(body)
  }

  datatype Torso = Torso(center: Vec, scale: real)

  /** `_torso_frame`. */
  function TorsoFrame(sqrt: real -> real, body: Points): Option<Torso> {
    if Center(body).None? || Scale(sqrt, body) <= CUT then None
    else Some(Torso(Center(body).value, Scale(sqrt, body)))
  }

  /** A coordinate relative to the torso, before rounding. */
  function Relative(p: Vec, t: Torso): Vec
    requires t.scale > 0.0
  {
    Vec((p.x - t.center.x) / t.scale, (p.y - t.center.y) / t.scale, (p.z - t.center.z) / t.scale)
  }

  function NormalizedPoint(p: Point, t: Torso): Point
    requires t.scale > 0.0
  {
    var v := Relative(Position(p), t);
    Point(Round6(v.x), Round6(v.y), Round6(v.z), Round6(p.confidence))
  }

  /** `_normalize_points`. */
  function NormalizePoints(points: Points, t: Torso): Points
    requires t.scale > 0.0
  {
    seq(|points|, i requires 0 <= i < |points| => (points[i].0, NormalizedPoint(points[i].1, t)))
  }

  // ----- what a torso frame says -----

  /** The centre lies halfway between the hips; without both hips, halfway between the
      shoulders; without those it is the mean of all landmarks. */
  lemma CenterMeaning(body: Points, c: Vec)
    requires Center(body) == Some(c)
    ensures var lh, rh := Lookup(body, "left_hip"), Lookup(body, "right_hip");
            var ls, rs := Lookup(body, "left_shoulder"), Lookup(body, "right_shoulder");
            if lh.Some? && rh.Some? then IsHalfway(c, lh.value, rh.value)
            else if ls.Some? && rs.Some? then IsHalfway(c, ls.value, rs.value)
            else && body != [] && c.x * |body| as real == Sum(Along(body, X)) && c.y * |body| as real == Sum(Along(body, Y))
                 && c.z * |body| as real == Sum(Along(body, Z))
  {
    hide Mean, Sum, Along, Lookup, Halfway, IsHalfway;
    forall a, b ensures IsHalfway(Halfway(a, b), a, b) { HalfwayMeaning(a, b); }
    MeanTimes(body, X);
    MeanTimes(body, Y);
    MeanTimes(body, Z);
  }

  lemma HalfwayMeaning(a: Point, b: Point)
    ensures IsHalfway(Halfway(a, b), a, b)
  {
  }

  lemma MeanTimes(body: Points, axis: Axis)
    ensures |Along(body, axis)| == |body|
    ensures body != [] ==> Mean(Along(body, axis)) * |body| as real == Sum(Along(body, axis))
  {
    hide Sum;
  }

  predicate IsHalfway(c: Vec, a: Point, b: Point) {
    2.0 * c.x == a.x + b.x && 2.0 * c.y == a.y + b.y && 2.0 * c.z == a.z + b.z
  }

  lemma {:induction false} ExtremesMeaning(xs: seq<real>)
    requires xs != []
    ensures Largest(xs) in xs && Smallest(xs) in xs && forall x | x in xs :: Smallest(xs) <= x <= Largest(xs)
  {
    if |xs| > 1 {
      ExtremesMeaning(xs[1..]);
      assert xs == [xs[0]] + xs[1..];
    }
  }

  /** The span is the largest difference of two landmarks along either image axis. */
  lemma SpanMeaning(body: Points)
    requires body != []
    ensures forall i, j | 0 <= i < |body| && 0 <= j < |body| ::
              body[i].1.x - body[j].1.x <= Span(body) && body[i].1.y - body[j].1.y <= Span(body)
    ensures exists i, j | 0 <= i < |body| && 0 <= j < |body| ::
              body[i].1.x - body[j].1.x == Span(body) || body[i].1.y - body[j].1.y == Span(body)
  {
    hide Largest, Smallest;
    var xs, ys := Along(body, X), Along(body, Y);
    ExtremesMeaning(xs);
    ExtremesMeaning(ys);
    forall i | 0 <= i < |body| ensures body[i].1.x in xs && body[i].1.y in ys {
      assert xs[i] == body[i].1.x && ys[i] == body[i].1.y;
    }
    var i :| 0 <= i < |xs| && xs[i] == Largest(xs);
    var j :| 0 <= j < |xs| && xs[j] == Smallest(xs);
    var k :| 0 <= k < |ys| && ys[k] == Largest(ys);
    var l :| 0 <= l < |ys| && ys[l] == Smallest(ys);
    assert body[i].1.x - body[j].1.x == Width(xs) && body[k].1.y - body[l].1.y == Width(ys);
  }

  /** The scale is the larger of the known shoulder and hip widths if that is over a
      millionth, otherwise the span; a torso needs one over a millionth. */
  lemma ScaleMeaning(sqrt: real -> real, body: Points)
    ensures var shoulders, hips := PairDistance(sqrt, body, "left_shoulder", "right_shoulder"),
                                   PairDistance(sqrt, body, "left_hip", "right_hip");
            var scale := Scale(sqrt, body);
            && (shoulders > 0.000001 || hips > 0.000001 ==>
                  scale >= shoulders && scale >= hips && (scale == shoulders || scale == hips))
            && (shoulders <= 0.000001 && hips <= 0.000001 ==> scale == Span(body))
            && (TorsoFrame(sqrt, body).Some? <==> body != [] && scale > 0.000001)
  {
    hide PairDistance, Span, Mean;
    KnownIsSome(body);
  }

  lemma KnownIsSome(body: Points)
    ensures Center(body).Some? <==> body != []
  {
  }

  /** A normalized coordinate is the distance from the centre in torso lengths, to within half
      a millionth. */
  lemma NormalizedMeaning(p: Point, t: Torso)
    requires t.scale > 0.0
    ensures var n := NormalizedPoint(p, t);
            && -0.0000005 * t.scale <= n.x * t.scale - (p.x - t.center.x) <= 0.0000005 * t.scale
            && -0.0000005 * t.scale <= n.y * t.scale - (p.y - t.center.y) <= 0.0000005 * t.scale
            && -0.0000005 * t.scale <= n.z * t.scale - (p.z - t.center.z) <= 0.0000005 * t.scale
            && -0.0000005 <= n.confidence - p.confidence <= 0.0000005
  {
    hide Round6;
    RoundedQuotient(p.x - t.center.x, t.scale);
    RoundedQuotient(p.y - t.center.y, t.scale);
    RoundedQuotient(p.z - t.center.z, t.scale);
    Round6IsNear(p.confidence);
  }

  lemma Round6IsNear(x: real)
    ensures -0.0000005 <= Round6(x) - x <= 0.0000005
  {
  }

  lemma RoundedQuotient(a: real, scale: real)
    requires scale > 0.0
    ensures -0.0000005 * scale <= Round6(a / scale) * scale - a <= 0.0000005 * scale
  {
    hide Round6;
    var q := a / scale;
    Round6IsNear(q);
    assert q * scale == a;
    var e := Round6(q) - q;
    ProductSign(e + 0.0000005, scale);
    ProductSign(0.0000005 - e, scale);
    assert Round6(q) * scale == q * scale + e * scale;
  }

  /** A tracked frame: the point groups that matter here. */
  datatype RawFrame = RawFrame(timestampUs: int, body: Option<Points>, face: Option<Points>)

  datatype Frame = Frame(timestampUs: int, scale: real, body: Points, face: Option<Points>)

  function Normalized(sqrt: real -> real, raw: RawFrame): Option<Frame> {
    if raw.body.None? || TorsoFrame(sqrt, raw.body.value).None? then None
    else
      var t := TorsoFrame(sqrt, raw.body.value).value;
      Some(Frame(raw.timestampUs, Round6(t.scale), NormalizePoints(raw.body.value, t),
                 if raw.face.None? then None else Some(NormalizePoints(raw.face.value, t))))
  }

  function NormalizedAll(sqrt: real -> real, raws: seq<RawFrame>): seq<Frame> {
    if raws == [] then []
    else
      var last := Normalized(sqrt, raws[|raws| - 1]);
      NormalizedAll(sqrt, raws[..|raws| - 1]) + if last.Some? then [last.value] else []
  }

  /** `_normalized_frames`. */
  method NormalizedFrames(sqrt: real -> real, raws: seq<RawFrame>) returns (frames: seq<Frame>)
    ensures frames == NormalizedAll(sqrt, raws)
  {
    frames := [];
    for i := 0 to |raws|
      invariant frames == NormalizedAll(sqrt, raws[..i])
    {
      assert raws[..i + 1][..i] == raws[..i];
      var raw := raws[i];
      if raw.body.Some? {
        var torso := TorsoFrame(sqrt, raw.body.value);
        if torso.Some? {
          var t := torso.value;
          var face := None;
          if raw.face.Some? { face := Some(NormalizePoints(raw.face.value, t)); }
          frames := frames + [Frame(raw.timestampUs, Round6(t.scale), NormalizePoints(raw.body.value, t), face)];
        }
      }
    }
    assert raws[..|raws|] == raws;
  }

  // ----- moving and zooming -----

  /** A change of viewpoint: zoom by `s`, then shift. */
  datatype View = View(s: real, dx: real, dy: real, dz: real)

  /** Zooming one coordinate. Proofs that only need the laws below hide the product. */
  function Zoom(s: real, x: real): real {
    s * x
  }

  function MovePoint(v: View, p: Point): Point {
    Point(Zoom(v.s, p.x) + v.dx, Zoom(v.s, p.y) + v.dy, Zoom(v.s, p.z) + v.dz, p.confidence)
  }

  function MoveVec(v: View, p: Vec): Vec {
    Vec(Zoom(v.s, p.x) + v.dx, Zoom(v.s, p.y) + v.dy, Zoom(v.s, p.z) + v.dz)
  }

  function Move(v: View, points: Points): Points {
    seq(|points|, i requires 0 <= i < |points| => (points[i].0, MovePoint(v, points[i].1)))
  }

  function MoveFrame(v: View, raw: RawFrame): RawFrame {
    RawFrame(raw.timestampUs, if raw.body.None? then None else Some(Move(v, raw.body.value)),
             if raw.face.None? then None else Some(Move(v, raw.face.value)))
  }

  lemma ZoomIsLinear(s: real, a: real, b: real)
    ensures Zoom(s, a + b) == Zoom(s, a) + Zoom(s, b) && Zoom(s, a - b) == Zoom(s, a) - Zoom(s, b)
    ensures Zoom(s, 0.0) == 0.0
  {
  }

  lemma ZoomKeepsOrder(s: real, a: real, b: real)
    requires s > 0.0
    ensures a <= b <==> Zoom(s, a) <= Zoom(s, b)
    ensures a == b <==> Zoom(s, a) == Zoom(s, b)
  {
    ProductOrder(s, a, b);
    ProductOrder(s, b, a);
  }

  lemma ZoomOfQuotient(s: real, a: real, n: real)
    requires n > 0.0
    ensures Zoom(s, a / n) == Zoom(s, a) / n
  {
    var q := a / n;
    assert q * n == a;
    assert (s * q) * n == s * (q * n);
    QuotientIs(s * a, n, s * q);
  }

  lemma ZoomCancels(s: real, a: real, b: real)
    requires s > 0.0 && b > 0.0 && Zoom(s, b) > 0.0
    ensures Zoom(s, a) / Zoom(s, b) == a / b
  {
    var q := a / b;
    assert q * b == a;
    assert q * (s * b) == s * (q * b);
    QuotientIs(s * a, s * b, q);
  }

  lemma ZoomSquares(s: real, a: real)
    ensures Square(Zoom(s, a)) == Zoom(Square(s), Square(a))
    ensures Square(a) >= 0.0
  {
  }

  lemma MoveTail(v: View, points: Points)
    requires points != []
    ensures Move(v, points)[1..] == Move(v, points[1..])
  {
  }

  lemma {:induction false} LookupMoves(v: View, points: Points, name: string)
    ensures Lookup(Move(v, points), name) ==
            if Lookup(points, name).None? then None else Some(MovePoint(v, Lookup(points, name).value))
  {
    hide Zoom;
    if points != [] {
      MoveTail(v, points);
      LookupMoves(v, points[1..], name);
    }
  }

  /** The image of one axis. */
  function MoveAxis(s: real, d: real, xs: seq<real>): seq<real> {
    seq(|xs|, i requires 0 <= i < |xs| => Zoom(s, xs[i]) + d)
  }

  function Shift(v: View, axis: Axis): real {
    match axis
    case X => v.dx
    case Y => v.dy
    case Z => v.dz
  }

  lemma AlongMoves(v: View, body: Points, axis: Axis)
    ensures Along(Move(v, body), axis) == MoveAxis(v.s, Shift(v, axis), Along(body, axis))
  {
    hide Zoom;
  }

  lemma HalfMoves(s: real, d: real, a: real, b: real)
    ensures ((Zoom(s, a) + d) + (Zoom(s, b) + d)) / 2.0 == Zoom(s, (a + b) / 2.0) + d
  {
    hide Zoom;
    var h := (a + b) / 2.0;
    ZoomIsLinear(s, a, b);
    ZoomIsLinear(s, h, h);
    assert h + h == a + b;
  }

  lemma HalfwayMoves(v: View, a: Point, b: Point)
    ensures Halfway(MovePoint(v, a), MovePoint(v, b)) == MoveVec(v, Halfway(a, b))
  {
    hide Zoom;
    HalfMoves(v.s, v.dx, a.x, b.x);
    HalfMoves(v.s, v.dy, a.y, b.y);
    HalfMoves(v.s, v.dz, a.z, b.z);
  }

  lemma MidpointMoves(v: View, body: Points, left: string, right: string)
    ensures Midpoint(Move(v, body), left, right) ==
            if Midpoint(body, left, right).None? then None else Some(MoveVec(v, Midpoint(body, left, right).value))
  {
    hide Zoom, Halfway;
    LookupMoves(v, body, left);
    LookupMoves(v, body, right);
    var a, b := Lookup(body, left), Lookup(body, right);
    if a.Some? && b.Some? { HalfwayMoves(v, a.value, b.value); }
  }

  lemma {:induction false} SumMoves(s: real, d: real, xs: seq<real>)
    ensures Sum(MoveAxis(s, d, xs)) == Zoom(s, Sum(xs)) + Zoom(d, |xs| as real)
  {
    hide Zoom;
    ZoomIsLinear(s, 0.0, 0.0);
    ZoomIsLinear(d, 0.0, 0.0);
    if xs != [] {
      assert MoveAxis(s, d, xs)[1..] == MoveAxis(s, d, xs[1..]);
      SumMoves(s, d, xs[1..]);
      ZoomIsLinear(s, xs[0], Sum(xs[1..]));
      ZoomIsLinear(d, 1.0, |xs[1..]| as real);
      ZoomByOne(d);
    }
  }

  lemma ZoomByOne(d: real)
    ensures Zoom(d, 1.0) == d
  {
  }

  lemma MeanMoves(s: real, d: real, xs: seq<real>)
    requires xs != []
    ensures Mean(MoveAxis(s, d, xs)) == Zoom(s, Mean(xs)) + d
  {
    hide Zoom;
    var n := |xs| as real;
    SumMoves(s, d, xs);
    ZoomOfQuotient(s, Sum(xs), n);
    SplitQuotient(Zoom(s, Sum(xs)), d, n);
  }

  lemma SplitQuotient(a: real, d: real, n: real)
    requires n > 0.0
    ensures (a + Zoom(d, n)) / n == a / n + d
  {
    assert (a / n + d) * n == a + d * n;
    QuotientIs(a + d * n, n, a / n + d);
  }

  lemma CenterMoves(v: View, body: Points)
    ensures Center(Move(v, body)) == if Center(body).None? then None else Some(MoveVec(v, Center(body).value))
  {
    hide Zoom, Mean, Midpoint;
    MidpointMoves(v, body, "left_hip", "right_hip");
    MidpointMoves(v, body, "left_shoulder", "right_shoulder");
    if body != [] {
      AlongMoves(v, body, X);
      AlongMoves(v, body, Y);
      AlongMoves(v, body, Z);
      MeanMoves(v.s, v.dx, Along(body, X));
      MeanMoves(v.s, v.dy, Along(body, Y));
      MeanMoves(v.s, v.dz, Along(body, Z));
    }
  }

  lemma DifferenceMoves(s: real, d: real, a: real, b: real)
    ensures (Zoom(s, a) + d) - (Zoom(s, b) + d) == Zoom(s, a - b)
  {
    hide Zoom;
    ZoomIsLinear(s, a, b);
  }

  lemma SquareMoves(s: real, d: real, a: real, b: real)
    ensures Square((Zoom(s, a) + d) - (Zoom(s, b) + d)) == Zoom(Square(s), Square(a - b))
    ensures Square(a - b) >= 0.0
  {
    hide Zoom, Square;
    DifferenceMoves(s, d, a, b);
    ZoomSquares(s, a - b);
  }

  lemma SquaredDistanceMoves(v: View, a: Vec, b: Vec)
    ensures SquaredDistance(MoveVec(v, a), MoveVec(v, b)) == Zoom(Square(v.s), SquaredDistance(a, b))
    ensures SquaredDistance(a, b) >= 0.0
  {
    hide Zoom, Square;
    SquareMoves(v.s, v.dx, a.x, b.x);
    SquareMoves(v.s, v.dy, a.y, b.y);
    SquareMoves(v.s, v.dz, a.z, b.z);
    ZoomOfThree(Square(v.s), Square(a.x - b.x), Square(a.y - b.y), Square(a.z - b.z));
  }

  lemma ZoomOfThree(s: real, x: real, y: real, z: real)
    ensures Zoom(s, x + y + z) == Zoom(s, x) + Zoom(s, y) + Zoom(s, z)
  {
    hide Zoom;
    ZoomIsLinear(s, x, y);
    ZoomIsLinear(s, x + y, z);
  }

  lemma RootMoves(sqrt: real -> real, s: real, x: real)
    requires IsSqrt(sqrt) && s > 0.0 && x >= 0.0
    ensures sqrt(Zoom(Square(s), x)) == Zoom(s, sqrt(x))
  {
    var y := Zoom(Square(s), x);
    assert y == s * s * x && s * s >= 0.0;
    SqrtScales(sqrt, s, x, y);
  }

  lemma DistanceMoves(sqrt: real -> real, v: View, a: Point, b: Point)
    requires IsSqrt(sqrt) && v.s > 0.0
    ensures Distance(sqrt, Position(MovePoint(v, a)), Position(MovePoint(v, b))) ==
            Zoom(v.s, Distance(sqrt, Position(a), Position(b)))
  {
    hide Zoom, Square, SquaredDistance;
    var p, q := Position(a), Position(b);
    SquaredDistanceMoves(v, p, q);
    RootMoves(sqrt, v.s, SquaredDistance(p, q));
    assert Position(MovePoint(v, a)) == MoveVec(v, p) && Position(MovePoint(v, b)) == MoveVec(v, q);
  }

  lemma PairDistanceMoves(sqrt: real -> real, v: View, body: Points, left: string, right: string)
    requires IsSqrt(sqrt) && v.s > 0.0
    ensures PairDistance(sqrt, Move(v, body), left, right) == Zoom(v.s, PairDistance(sqrt, body, left, right))
  {
    hide Zoom, Distance;
    LookupMoves(v, body, left);
    LookupMoves(v, body, right);
    ZoomIsLinear(v.s, 0.0, 0.0);
    var a, b := Lookup(body, left), Lookup(body, right);
    if a.Some? && b.Some? { DistanceMoves(sqrt, v, a.value, b.value); }
  }

  lemma PairScaleMoves(sqrt: real -> real, v: View, body: Points)
    requires IsSqrt(sqrt) && v.s > 0.0
    ensures PairScale(sqrt, Move(v, body)) == Zoom(v.s, PairScale(sqrt, body))
  {
    hide Zoom, PairDistance;
    PairDistanceMoves(sqrt, v, body, "left_shoulder", "right_shoulder");
    PairDistanceMoves(sqrt, v, body, "left_hip", "right_hip");
    var a, b := PairDistance(sqrt, body, "left_shoulder", "right_shoulder"), PairDistance(sqrt, body, "left_hip", "right_hip");
    ZoomIsLinear(v.s, 0.0, 0.0);
    ZoomKeepsOrder(v.s, 0.0, a);
    ZoomKeepsOrder(v.s, Max(0.0, a), b);
  }

  lemma {:induction false} LargestMoves(s: real, d: real, xs: seq<real>)
    requires s > 0.0 && xs != []
    ensures Largest(MoveAxis(s, d, xs)) == Zoom(s, Largest(xs)) + d
  {
    hide Zoom;
    if |xs| > 1 {
      assert MoveAxis(s, d, xs)[1..] == MoveAxis(s, d, xs[1..]);
      LargestMoves(s, d, xs[1..]);
      ZoomKeepsOrder(s, xs[0], Largest(xs[1..]));
    }
  }

  lemma {:induction false} SmallestMoves(s: real, d: real, xs: seq<real>)
    requires s > 0.0 && xs != []
    ensures Smallest(MoveAxis(s, d, xs)) == Zoom(s, Smallest(xs)) + d
  {
    hide Zoom;
    if |xs| > 1 {
      assert MoveAxis(s, d, xs)[1..] == MoveAxis(s, d, xs[1..]);
      SmallestMoves(s, d, xs[1..]);
      ZoomKeepsOrder(s, xs[0], Smallest(xs[1..]));
    }
  }

  lemma WidthMoves(s: real, d: real, xs: seq<real>)
    requires s > 0.0 && xs != []
    ensures Width(MoveAxis(s, d, xs)) == Zoom(s, Width(xs))
  {
    hide Zoom;
    LargestMoves(s, d, xs);
    SmallestMoves(s, d, xs);
    DifferenceMoves(s, d, Largest(xs), Smallest(xs));
  }

  lemma SpanMoves(v: View, body: Points)
    requires v.s > 0.0
    ensures Span(Move(v, body)) == Zoom(v.s, Span(body))
  {
    hide Zoom, Width;
    ZoomIsLinear(v.s, 0.0, 0.0);
    if body != [] {
      AlongMoves(v, body, X);
      AlongMoves(v, body, Y);
      WidthMoves(v.s, v.dx, Along(body, X));
      WidthMoves(v.s, v.dy, Along(body, Y));
      ZoomKeepsOrder(v.s, Width(Along(body, X)), Width(Along(body, Y)));
    }
  }

  /** The pair distance is on the same side of the cut before and after the move. */
  predicate SameSide(sqrt: real -> real, v: View, body: Points) {
    PairScale(sqrt, body) > CUT <==> PairScale(sqrt, Move(v, body)) > CUT
  }

  /** The scale follows the zoom exactly when the pair distance stays on its side of the
      cut, or span and pair distance agree anyway. */
  lemma ScaleMovesExactly(sqrt: real -> real, v: View, body: Points)
    requires IsSqrt(sqrt) && v.s > 0.0
    ensures Scale(sqrt, Move(v, body)) == Zoom(v.s, Scale(sqrt, body)) <==>
            SameSide(sqrt, v, body) || PairScale(sqrt, body) == Span(body)
  {
    hide Zoom, PairScale, Span;
    PairScaleMoves(sqrt, v, body);
    SpanMoves(v, body);
    ZoomKeepsOrder(v.s, PairScale(sqrt, body), Span(body));
  }

  /** The torso follows the view. */
  predicate Follows(v: View, t: Torso, u: Torso) {
    u.center == MoveVec(v, t.center) && u.scale == Zoom(v.s, t.scale)
  }

  lemma RelativeMoves(s: real, d: real, p: real, c: real, scale: real)
    requires s > 0.0 && scale > 0.0 && Zoom(s, scale) > 0.0
    ensures ((Zoom(s, p) + d) - (Zoom(s, c) + d)) / Zoom(s, scale) == (p - c) / scale
  {
    hide Zoom;
    DifferenceMoves(s, d, p, c);
    ZoomCancels(s, p - c, scale);
  }

  lemma RelativeFollows(v: View, t: Torso, u: Torso, p: Vec)
    requires v.s > 0.0 && t.scale > 0.0 && u.scale > 0.0 && Follows(v, t, u)
    ensures Relative(MoveVec(v, p), u) == Relative(p, t)
  {
    hide Zoom;
    RelativeMoves(v.s, v.dx, p.x, t.center.x, t.scale);
    RelativeMoves(v.s, v.dy, p.y, t.center.y, t.scale);
    RelativeMoves(v.s, v.dz, p.z, t.center.z, t.scale);
  }

  lemma OtherScaleDiffers(s: real, d: real, p: real, c: real, scale: real, other: real)
    requires s > 0.0 && scale > 0.0 && other > 0.0 && other != Zoom(s, scale) && p != c
    ensures ((Zoom(s, p) + d) - (Zoom(s, c) + d)) / other != (p - c) / scale
  {
    DifferenceMoves(s, d, p, c);
    QuotientsDiffer(p - c, Zoom(s, p - c), s, scale, other);
  }

  lemma QuotientsDiffer(a: real, b: real, s: real, scale: real, other: real)
    requires scale > 0.0 && other > 0.0 && b == Zoom(s, a) && other != Zoom(s, scale) && a != 0.0
    ensures b / other != a / scale
  {
    var q, r := a / scale, b / other;
    assert q * scale == a && r * other == b;
    SameQuotientSameScale(s, q, r, scale, other);
  }

  lemma SameQuotientSameScale(s: real, q: real, r: real, scale: real, other: real)
    requires q * scale != 0.0 && r * other == s * (q * scale)
    ensures q == r ==> other == s * scale
  {
    if q == r {
      assert q * (other - s * scale) == 0.0;
    }
  }

  lemma RelativeStrays(v: View, t: Torso, u: Torso, p: Vec)
    requires v.s > 0.0 && t.scale > 0.0 && u.scale > 0.0
    requires u.center == MoveVec(v, t.center) && u.scale != Zoom(v.s, t.scale) && p != t.center
    ensures Relative(MoveVec(v, p), u) != Relative(p, t)
  {
    hide Zoom;
    if p.x != t.center.x {
      OtherScaleDiffers(v.s, v.dx, p.x, t.center.x, t.scale, u.scale);
    } else if p.y != t.center.y {
      OtherScaleDiffers(v.s, v.dy, p.y, t.center.y, t.scale, u.scale);
    } else {
      OtherScaleDiffers(v.s, v.dz, p.z, t.center.z, t.scale, u.scale);
    }
  }

  lemma CenterIsOrigin(t: Torso)
    requires t.scale > 0.0
    ensures Relative(t.center, t) == Vec(0.0, 0.0, 0.0)
  {
    QuotientIs(0.0, t.scale, 0.0);
  }

  /** The torso frame follows the view, whichever centre and scale fallback applies. */
  lemma TorsoFollows(sqrt: real -> real, v: View, body: Points)
    requires IsSqrt(sqrt) && v.s > 0.0
    requires TorsoFrame(sqrt, body).Some? && TorsoFrame(sqrt, Move(v, body)).Some?
    ensures var t, u := TorsoFrame(sqrt, body).value, TorsoFrame(sqrt, Move(v, body)).value;
            && u.center == MoveVec(v, t.center)
            && (u.scale == Zoom(v.s, t.scale) <==> SameSide(sqrt, v, body) || PairScale(sqrt, body) == Span(body))
  {
    hide Zoom, Center, Scale, PairScale, Span;
    CenterMoves(v, body);
    ScaleMovesExactly(sqrt, v, body);
  }

  /** Moving and zooming every landmark of a frame leaves the torso-relative coordinates of
      any point off the centre as they were, exactly when the pair distance stays on its side
      of the cut (or equals the span anyway). The centre itself never changes. */
  lemma TorsoIsInvariant(sqrt: real -> real, v: View, body: Points, p: Vec)
    requires IsSqrt(sqrt) && v.s > 0.0
    requires TorsoFrame(sqrt, body).Some? && TorsoFrame(sqrt, Move(v, body)).Some?
    ensures Relative(MoveVec(v, p), TorsoFrame(sqrt, Move(v, body)).value) == Relative(p, TorsoFrame(sqrt, body).value)
            <==> SameSide(sqrt, v, body) || PairScale(sqrt, body) == Span(body) || p == TorsoFrame(sqrt, body).value.center
  {
    hide Zoom, Center, Scale, PairScale, Span, Relative;
    TorsoFollows(sqrt, v, body);
    var t, u := TorsoFrame(sqrt, body).value, TorsoFrame(sqrt, Move(v, body)).value;
    if u.scale == Zoom(v.s, t.scale) {
      RelativeFollows(v, t, u, p);
    } else if p != t.center {
      RelativeStrays(v, t, u, p);
    } else {
      CenterIsOrigin(t);
      CenterIsOrigin(u);
    }
  }

  // ----- a body whose coordinates do change -----

  /** Shoulders two millionths apart, and a nose one unit away. */
  const NARROW: Points := [
    ("left_shoulder", Point(0.0, 0.0, 0.0, 1.0)), ("right_shoulder", Point(0.000002, 0.0, 0.0, 1.0)),
    ("nose", Point(1.0, 0.0, 0.0, 1.0))]

  /** Zooming out to a quarter. */
  const QUARTER := View(0.25, 0.0, 0.0, 0.0)

  lemma RootOfSquare(sqrt: real -> real, x: real)
    requires IsSqrt(sqrt) && x >= 0.0
    ensures sqrt(x * x) == x
  {
    assert x * x >= 0.0;
    RootsAgree(sqrt(x * x), x);
  }

  lemma NarrowLookups()
    ensures Lookup(NARROW, "left_shoulder") == Some(NARROW[0].1) && Lookup(NARROW, "right_shoulder") == Some(NARROW[1].1)
    ensures Lookup(NARROW, "left_hip") == None && Lookup(NARROW, "right_hip") == None
  {
    assert NARROW[1..][0] == NARROW[1] && NARROW[1..][1..] == [NARROW[2]] && [NARROW[2]][1..] == [];
  }

  lemma NarrowPair(sqrt: real -> real)
    requires IsSqrt(sqrt)
    ensures PairScale(sqrt, NARROW) == 0.000002
  {
    NarrowLookups();
    RootOfSquare(sqrt, 0.000002);
  }

  lemma NarrowCenter()
    ensures Center(NARROW) == Some(Vec(0.000001, 0.0, 0.0))
  {
    NarrowLookups();
  }

  lemma NarrowSpan()
    ensures Span(NARROW) == 1.0
  {
    var xs, ys := Along(NARROW, X), Along(NARROW, Y);
    assert xs == [0.0, 0.000002, 1.0] && ys == [0.0, 0.0, 0.0];
    assert xs[1..] == [0.000002, 1.0] && xs[1..][1..] == [1.0];
    assert ys[1..] == [0.0, 0.0] && ys[1..][1..] == [0.0];
  }

  lemma QuarterSwitches(sqrt: real -> real, body: Points)
    requires IsSqrt(sqrt) && PairScale(sqrt, body) == 0.000002 && Span(body) == 1.0 && Center(body).Some?
    ensures var moved := Move(QUARTER, body);
            && TorsoFrame(sqrt, body) == Some(Torso(Center(body).value, 0.000002))
            && TorsoFrame(sqrt, moved).Some? && !SameSide(sqrt, QUARTER, body)
  {
    hide Span, PairScale, Center, Move;
    CenterMoves(QUARTER, body);
    PairScaleMoves(sqrt, QUARTER, body);
    SpanMoves(QUARTER, body);
  }

  /** Zoomed to a quarter, that body is measured by its span instead of its shoulders, and
      every point off the centre, the nose among them, gets other coordinates. */
  lemma NarrowBodyStrays(sqrt: real -> real, p: Vec)
    requires IsSqrt(sqrt)
    ensures var moved := Move(QUARTER, NARROW);
            && TorsoFrame(sqrt, NARROW).Some? && TorsoFrame(sqrt, moved).Some?
            && !SameSide(sqrt, QUARTER, NARROW) && PairScale(sqrt, NARROW) != Span(NARROW)
            && (p != Vec(0.000001, 0.0, 0.0) ==>
                  Relative(MoveVec(QUARTER, p), TorsoFrame(sqrt, moved).value) != Relative(p, TorsoFrame(sqrt, NARROW).value))
  {
    hide Span, PairScale, Relative, Center, Move, TorsoFrame, SameSide;
    NarrowPair(sqrt);
    NarrowSpan();
    NarrowCenter();
    QuarterSwitches(sqrt, NARROW);
    TorsoIsInvariant(sqrt, QUARTER, NARROW, p);
  }

  /** The frame is usable before and after the move, with the pair distance on one side. */
  predicate Steady(sqrt: real -> real, v: View, raw: RawFrame) {
    raw.body.Some? ==>
      && (SameSide(sqrt, v, raw.body.value) || PairScale(sqrt, raw.body.value) == Span(raw.body.value))
      && (Scale(sqrt, raw.body.value) > CUT <==> Scale(sqrt, Move(v, raw.body.value)) > CUT)
  }

  /** Equal but for the recorded scale. */
  predicate SameShape(a: seq<Frame>, b: seq<Frame>) {
    |a| == |b| && forall i | 0 <= i < |a| :: a[i] == b[i].(scale := a[i].scale)
  }

  lemma PointFollows(v: View, t: Torso, u: Torso, p: Point)
    requires v.s > 0.0 && t.scale > 0.0 && u.scale > 0.0 && Follows(v, t, u)
    ensures NormalizedPoint(MovePoint(v, p), u) == NormalizedPoint(p, t)
  {
    hide Zoom, Relative, Round6;
    assert Position(MovePoint(v, p)) == MoveVec(v, Position(p));
    RelativeFollows(v, t, u, Position(p));
  }

  lemma PointsFollow(v: View, t: Torso, u: Torso, points: Points)
    requires v.s > 0.0 && t.scale > 0.0 && u.scale > 0.0 && Follows(v, t, u)
    ensures NormalizePoints(Move(v, points), u) == NormalizePoints(points, t)
  {
    hide Zoom, NormalizedPoint;
    forall i | 0 <= i < |points|
      ensures NormalizedPoint(MovePoint(v, points[i].1), u) == NormalizedPoint(points[i].1, t)
    {
      PointFollows(v, t, u, points[i].1);
    }
  }

  lemma FrameIsInvariant(sqrt: real -> real, v: View, raw: RawFrame)
    requires IsSqrt(sqrt) && v.s > 0.0 && Steady(sqrt, v, raw)
    ensures var a, b := Normalized(sqrt, MoveFrame(v, raw)), Normalized(sqrt, raw);
            (a.None? <==> b.None?) && (a.Some? ==> a.value == b.value.(scale := a.value.scale))
  {
    hide Zoom, Center, Scale, PairScale, Span, NormalizePoints, Round6, Move;
    if raw.body.Some? {
      CenterMoves(v, raw.body.value);
      if TorsoFrame(sqrt, raw.body.value).Some? {
        TorsoFollows(sqrt, v, raw.body.value);
        var t, u := TorsoFrame(sqrt, raw.body.value).value, TorsoFrame(sqrt, Move(v, raw.body.value)).value;
        PointsFollow(v, t, u, raw.body.value);
        if raw.face.Some? { PointsFollow(v, t, u, raw.face.value); }
      }
    }
  }

  /** A timeline in which every frame is moved and zoomed on its own normalizes to the same
      frames, but for the recorded scale. */
  lemma {:induction false} TimelineIsInvariant(sqrt: real -> real, views: seq<View>, raws: seq<RawFrame>, moved: seq<RawFrame>)
    requires IsSqrt(sqrt) && |views| == |raws| == |moved|
    requires forall i | 0 <= i < |raws| ::
               views[i].s > 0.0 && Steady(sqrt, views[i], raws[i]) && moved[i] == MoveFrame(views[i], raws[i])
    ensures SameShape(NormalizedAll(sqrt, moved), NormalizedAll(sqrt, raws))
  {
    hide Zoom, Steady, Normalized, MoveFrame;
    if raws != [] {
      var n := |raws| - 1;
      TimelineIsInvariant(sqrt, views[..n], raws[..n], moved[..n]);
      FrameIsInvariant(sqrt, views[n], raws[n]);
    }
  }
}
