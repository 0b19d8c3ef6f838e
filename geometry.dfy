/** Vehicle-frame geometry: x points forward, y to the left. */
module Geometry {
  import opened Params

  /** A cartesian obstacle point in the vehicle frame. */
  datatype Point = Point(x: real, y: real)

  /** The footprint rectangle of the car (`BODY_POSITION`), derived once from the lidar calibration. */
  datatype Body = Body(x: real, y: real, w: real, h: real)

  function DistSq(a: Point, b: Point): real
  {
    (a.x - b.x) * (a.x - b.x) + (a.y - b.y) * (a.y - b.y)
  }

  /** `distance(c, p) < r`. Every radius used is a positive constant, so squares are compared. */
  predicate InsideDisc(c: Point, r: real, p: Point)
  {
    DistSq(c, p) < r * r
  }

  // `_get_columns`: the discs swept by the body in a full turn to either side
  const LeftColumnCenter: Point := Point(0.0, TurnDiameter)
  const RightColumnCenter: Point := Point(0.0, -TurnDiameter)
  const ColumnRadius: real := TurnDiameter - HalfCarWidth - FearDistance

  /** The columns have positive radius and lie strictly on their own side of the x axis. */
  lemma ColumnsClearOfAxis()
    ensures 0.0 < ColumnRadius < TurnDiameter
    ensures LeftColumnCenter.y - ColumnRadius > 0.0 && RightColumnCenter.y + ColumnRadius < 0.0
  {
  }

  /** A point inside a disc is less than the radius away from its centre along y. */
  lemma InsideDiscBand(c: Point, r: real, p: Point)
    requires r > 0.0 && InsideDisc(c, r, p)
    ensures c.y - r < p.y < c.y + r
  {
    var dy := p.y - c.y;
    assert dy * dy <= DistSq(c, p);
  }
}
