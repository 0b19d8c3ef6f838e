/**
 * The obstacle filter of the explorer: the ellipse-like polar range cutoff
 * (`_ellipse_like_range_filter`) and the exclusion of the turn columns and of
 * the car's own body (`not_in_columns_and_a_car` in `_get_nearby_points`).
 */
module ObstacleFilter {
  import opened Params
  import opened Geometry
  import opened Seqs

  /** One polar lidar return: angle in radians, distance in metres. */
  datatype RangeSample = RangeSample(angle: real, distance: real)

  /** A lidar return together with its vehicle-frame position, as the lidar driver converts it. */
  datatype Reading = Reading(sample: RangeSample, point: Point)

  /** Radius the lidar is asked for before the cutoff is applied. */
  const FetchRadius: real := CheckRadius + HalfCarWidth + FearDistance + FromLidarToCenter

  /** `d` is a whole number of turns. */
  predicate IsWholeTurns(d: real)
  {
    (d / TwoPi).Floor as real == d / TwoPi
  }

  /** Python's `angle % (2 * pi)`: the floored remainder, never negative. */
  function WrapAngle(angle: real): (r: real)
    ensures 0.0 <= r < TwoPi
    ensures IsWholeTurns(angle - r)
  {
    angle - ((angle / TwoPi).Floor as real) * TwoPi
  }

  /** The wrapped angle is the only one in [0, 2π) a whole number of turns away. */
  lemma WrapAngleUnique(angle: real, r: real)
    requires 0.0 <= r < TwoPi && IsWholeTurns(angle - r)
    ensures WrapAngle(angle) == r
  {
    var w := WrapAngle(angle);
    var n := ((angle - r) / TwoPi).Floor;
    var m := ((angle - w) / TwoPi).Floor;
    assert w - r == (n - m) as real * TwoPi;
    WholeTurnsAtLeastOne(n - m);
  }

  /** A non-zero whole number of turns is at least one turn long. */
  lemma WholeTurnsAtLeastOne(k: int)
    ensures k >= 1 ==> k as real * TwoPi >= TwoPi
    ensures k <= -1 ==> k as real * TwoPi <= -TwoPi
  {
    if k >= 1 {
      assert k as real * TwoPi == TwoPi + (k - 1) as real * TwoPi;
    } else if k <= -1 {
      assert k as real * TwoPi == -TwoPi + (k + 1) as real * TwoPi;
    }
  }

  /** The lidar-to-centre offset counts only for returns from the front half. */
  function LidarOffset(wrapped: real): real
  {
    if HalfPi <= wrapped <= 3.0 * HalfPi then 0.0 else FromLidarToCenter
  }

  /** The wrapped angle folded through the rear half and the left/right symmetry. */
  function FoldAngle(wrapped: real): (a: real)
    requires 0.0 <= wrapped < TwoPi
    ensures 0.0 <= a <= HalfPi
  {
    var a := if wrapped >= Pi then wrapped - Pi else wrapped;
    if a > HalfPi then Pi - a else a
  }

  /** The distance below which a return at `angle` is kept. */
  function RangeLimit(angle: real): (limit: real)
    ensures CheckRadius + FearDistance <= limit < FetchRadius
  {
    var wrapped := WrapAngle(angle);
    var a := FoldAngle(wrapped);
    var offset := LidarOffset(wrapped);
    assert offset * (HalfPi - a) <= FromLidarToCenter * (HalfPi - a) by {
      assert offset == 0.0 || offset == FromLidarToCenter;
    }
    CheckRadius + FearDistance + HalfCarWidth * a + offset * (HalfPi - a)
  }

  /** `_ellipse_like_range_filter`: the cutoff is strict. */
  predicate WithinEllipse(s: RangeSample)
  {
    s.distance < RangeLimit(s.angle)
  }

  /** The cutoff is stricter than the radius the lidar is asked for, so that radius never decides. */
  lemma FetchRadiusNeverDecides(s: RangeSample)
    ensures WithinEllipse(s) ==> s.distance < FetchRadius
    ensures s.distance < CheckRadius + FearDistance ==> WithinEllipse(s)
  {
  }

  /** A whole number of turns, counted by an integer. */
  lemma WholeTurnsOf(n: int, d: real)
    requires d == n as real * TwoPi
    ensures IsWholeTurns(d)
  {
    assert d / TwoPi == n as real;
  }

  /** Wrapping the mirror angle 2π − θ mirrors the wrapped angle, except at zero. */
  lemma WrapMirror(angle: real)
    ensures var w := WrapAngle(angle);
      WrapAngle(TwoPi - angle) == if w == 0.0 then 0.0 else TwoPi - w
  {
    var w := WrapAngle(angle);
    var m := ((angle - w) / TwoPi).Floor;
    assert angle - w == m as real * TwoPi;
    if w == 0.0 {
      WholeTurnsOf(1 - m, (TwoPi - angle) - 0.0);
      WrapAngleUnique(TwoPi - angle, 0.0);
    } else {
      WholeTurnsOf(-m, (TwoPi - angle) - (TwoPi - w));
      WrapAngleUnique(TwoPi - angle, TwoPi - w);
    }
  }

  /** Returns at θ and at 2π − θ (mirror images across the x axis) get the same verdict. */
  lemma RangeCutoffSymmetric(angle: real, distance: real)
    ensures WithinEllipse(RangeSample(angle, distance)) == WithinEllipse(RangeSample(TwoPi - angle, distance))
  {
    WrapMirror(angle);
    var w := WrapAngle(angle);
    var v := WrapAngle(TwoPi - angle);
    assert FoldAngle(v) == FoldAngle(w) && LidarOffset(v) == LidarOffset(w);
  }

  /** Angles a whole turn apart get the same verdict. */
  lemma RangeCutoffPeriodic(angle: real, distance: real)
    ensures WithinEllipse(RangeSample(angle + TwoPi, distance)) == WithinEllipse(RangeSample(angle, distance))
  {
    var w := WrapAngle(angle);
    var m := ((angle - w) / TwoPi).Floor;
    assert angle - w == m as real * TwoPi;
    WholeTurnsOf(m + 1, (angle + TwoPi) - w);
    WrapAngleUnique(angle + TwoPi, w);
  }

  /**
   * Within the front quarter the limit grows from straight ahead to side-on,
   * and within the rear quarter it shrinks from side-on to straight behind.
   */
  lemma RangeLimitWidestSideOn(a1: real, a2: real)
    requires 0.0 <= a1 <= a2 <= Pi
    ensures a2 <= HalfPi ==> RangeLimit(a1) <= RangeLimit(a2)
    ensures HalfPi <= a1 ==> RangeLimit(a1) >= RangeLimit(a2)
  {
    WrapAngleUnique(a1, a1);
    WrapAngleUnique(a2, a2);
  }

  /**
   * The lidar offset: a return from the front half reaches further than its
   * mirror image in the rear half, by the offset times its angle from side-on.
   */
  lemma FrontGainsLidarOffset(a: real)
    requires 0.0 <= a < HalfPi
    ensures RangeLimit(a) == RangeLimit(Pi - a) + FromLidarToCenter * (HalfPi - a)
  {
    WrapAngleUnique(a, a);
    WrapAngleUnique(Pi - a, Pi - a);
  }

  /** The returns kept by the range cutoff, in their original order. */
  function WithinRange(readings: seq<Reading>): (r: seq<Reading>)
    ensures |r| <= |readings|
    ensures IsSubsequence(r, readings)
    ensures forall rd :: rd in r <==> rd in readings && WithinEllipse(rd.sample)
  {
    var keep := (rd: Reading) => WithinEllipse(rd.sample);
    FilterKeepsOrder(readings, keep);
    Filter(readings, keep)
  }

  /** Points in the footprint shrunk by `InnerOffset` on every side, bounds included. */
  predicate InShrunkBody(body: Body, p: Point)
  {
    && body.x + InnerOffset <= p.x <= body.x + body.w - InnerOffset
    && body.y + InnerOffset <= p.y <= body.y + body.h - InnerOffset
  }

  /** Points beyond a column centre, within the column's width. */
  predicate InColumnBand(p: Point)
  {
    (p.y > LeftColumnCenter.y || p.y < RightColumnCenter.y) && -ColumnRadius < p.x < ColumnRadius
  }

  /** `not_in_columns_and_a_car`: the column test is chosen by the sign of y, then the body test. */
  predicate NotInColumnsAndCar(body: Body, p: Point)
  {
    var clearOfColumns :=
      if p.y > 0.0 then
        !InsideDisc(LeftColumnCenter, ColumnRadius, p)
        && !(p.y > LeftColumnCenter.y
             && LeftColumnCenter.x - ColumnRadius < p.x < LeftColumnCenter.x + ColumnRadius)
      else if p.y < 0.0 then
        !InsideDisc(RightColumnCenter, ColumnRadius, p)
        && !(p.y < RightColumnCenter.y
             && RightColumnCenter.x - ColumnRadius < p.x < RightColumnCenter.x + ColumnRadius)
      else
        true;
    clearOfColumns && !InShrunkBody(body, p)
  }

  /**
   * The exclusion in terms of the zones alone, whatever the sign of y: a point is
   * dropped exactly when it is in the shrunk body, in either column disc, or in a
   * column's band; points on the x axis only meet the body test.
   */
  lemma ExclusionZones(body: Body, p: Point)
    ensures NotInColumnsAndCar(body, p) <==>
      && !InShrunkBody(body, p)
      && !InsideDisc(LeftColumnCenter, ColumnRadius, p)
      && !InsideDisc(RightColumnCenter, ColumnRadius, p)
      && !InColumnBand(p)
    ensures p.y == 0.0 ==> (NotInColumnsAndCar(body, p) <==> !InShrunkBody(body, p))
  {
    ColumnsClearOfAxis();
    if InsideDisc(LeftColumnCenter, ColumnRadius, p) {
      InsideDiscBand(LeftColumnCenter, ColumnRadius, p);
    }
    if InsideDisc(RightColumnCenter, ColumnRadius, p) {
      InsideDiscBand(RightColumnCenter, ColumnRadius, p);
    }
  }

  /** The cartesian points kept by the column and body exclusion, in their original order. */
  function ExcludeColumnsAndCar(body: Body, pts: seq<Point>): (r: seq<Point>)
    ensures |r| <= |pts|
    ensures IsSubsequence(r, pts)
    ensures forall p :: p in r <==> p in pts && NotInColumnsAndCar(body, p)
  {
    var keep := (p: Point) => NotInColumnsAndCar(body, p);
    FilterKeepsOrder(pts, keep);
    Filter(pts, keep)
  }

  /** The cartesian positions of the readings, in order. */
  function Positions(readings: seq<Reading>): (pts: seq<Point>)
    ensures |pts| == |readings|
    ensures forall i :: 0 <= i < |readings| ==> pts[i] == readings[i].point
  {
    seq(|readings|, i requires 0 <= i < |readings| => readings[i].point)
  }

  /**
   * `_get_nearby_points`: the range cutoff on the polar returns, conversion to
   * cartesian, then the column and body exclusion.
   */
  function NearbyPoints(body: Body, readings: seq<Reading>): (pts: seq<Point>)
    ensures |pts| <= |readings|
    ensures forall p :: p in pts <==>
      NotInColumnsAndCar(body, p) && exists rd :: rd in readings && WithinEllipse(rd.sample) && rd.point == p
  {
    var inRange := WithinRange(readings);
    var cartesian := Positions(inRange);
    assert forall p :: p in cartesian <==> exists rd :: rd in inRange && rd.point == p by {
      forall p | p in cartesian ensures exists rd :: rd in inRange && rd.point == p {
        var i :| 0 <= i < |cartesian| && cartesian[i] == p;
        assert inRange[i] in inRange;
      }
      forall p | exists rd :: rd in inRange && rd.point == p ensures p in cartesian {
        var rd :| rd in inRange && rd.point == p;
        var i :| 0 <= i < |inRange| && inRange[i] == rd;
        assert cartesian[i] == p;
      }
    }
    ExcludeColumnsAndCar(body, cartesian)
  }
}
