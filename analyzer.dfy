/**
 * The feasibility analyser: for each of the ten sectors, whether the car can
 * move there and how much room it has (`_can_move_*`, `_filter_*`,
 * `_get_stop_distance`).
 */
module Analyzer {
  import opened Params
  import opened Geometry
  import opened Seqs
  import opened Sectors

  /** The `(possible, clearance)` pair a scan returns; the clearance is 0 when blocked. */
  datatype Feasibility = Feasibility(possible: bool, clearance: real)

  /** `_get_stop_distance`: the stopping distance grows linearly with speed above 0.5. */
  function StopDistanceAt(speed: real): (d: real)
    ensures d >= StopDistance
    ensures d == StopDistance <==> speed <= 0.5
  {
    if speed > 0.5 then StopDistance * speed / 0.5 else StopDistance
  }

  /** A faster car never gets a shorter stopping distance. */
  lemma StopDistanceMonotone(slow: real, fast: real)
    requires slow <= fast
    ensures StopDistanceAt(slow) <= StopDistanceAt(fast)
  {
  }

  // The scanning windows. Ahead of the car they start at its front edge, behind it at its rear edge.

  function FrontEdge(body: Body): real { body.x + body.w }
  function RearEdge(body: Body): real { body.x }

  /** The lateral band of the straight sectors: the body's width plus the fear margin on each side. */
  predicate InLateralBand(body: Body, p: Point)
  {
    body.y - FearDistance <= p.y <= body.y + body.h + FearDistance
  }

  /** Points ahead nearer than this block forward motion. */
  function AheadStop(body: Body, speed: real): real { FrontEdge(body) + StopDistanceAt(speed) }
  /** Points behind nearer than this block backward motion. */
  function BehindStop(body: Body, speed: real): real { RearEdge(body) - StopDistanceAt(speed) }

  /** Straight-forward window: just inside the front edge up to the check radius, within the band. */
  predicate InStraightAhead(body: Body, p: Point)
  {
    FrontEdge(body) - InnerOffset < p.x < FrontEdge(body) + CheckRadius && InLateralBand(body, p)
  }

  /** Straight-backward window: from the check radius behind up to just inside the rear edge, within the band. */
  predicate InStraightBehind(body: Body, p: Point)
  {
    RearEdge(body) - CheckRadius < p.x < RearEdge(body) + InnerOffset && InLateralBand(body, p)
  }

  /** Least x among `pts`, or `far` when none is smaller. */
  function MinX(pts: seq<Point>, far: real): (m: real)
    ensures m <= far
    ensures forall p :: p in pts ==> m <= p.x
    ensures m == far || exists p :: p in pts && p.x == m
  {
    if pts == [] then far
    else
      var m := MinX(pts[..|pts| - 1], far);
      var last := pts[|pts| - 1];
      assert pts == pts[..|pts| - 1] + [last];
      if m > last.x then last.x else m
  }

  /** Greatest x among `pts`, or `far` when none is greater. */
  function MaxX(pts: seq<Point>, far: real): (m: real)
    ensures m >= far
    ensures forall p :: p in pts ==> m >= p.x
    ensures m == far || exists p :: p in pts && p.x == m
  {
    if pts == [] then far
    else
      var m := MaxX(pts[..|pts| - 1], far);
      var last := pts[|pts| - 1];
      assert pts == pts[..|pts| - 1] + [last];
      if m < last.x then last.x else m
  }

  /**
   * Verdict of a forward scan over the relevant points `xs`: blocked by any point
   * nearer than `stop`; otherwise the clearance is the nearest x, or `far`.
   */
  function AheadVerdict(xs: seq<Point>, stop: real, far: real): Feasibility
  {
    if exists p :: p in xs && p.x < stop then Feasibility(false, 0.0)
    else Feasibility(true, MinX(xs, far))
  }

  /** What the forward verdict means for the relevant points `xs`. */
  lemma AheadVerdictMeaning(xs: seq<Point>, stop: real, far: real)
    ensures !AheadVerdict(xs, stop, far).possible <==> exists p :: p in xs && p.x < stop
    ensures !AheadVerdict(xs, stop, far).possible ==> AheadVerdict(xs, stop, far).clearance == 0.0
    ensures AheadVerdict(xs, stop, far).possible ==>
      var c := AheadVerdict(xs, stop, far).clearance;
      && c <= far
      && (forall p :: p in xs ==> c <= p.x)
      && (c == far || exists p :: p in xs && p.x == c)
  {
  }

  /**
   * Verdict of a backward scan over the relevant points `xs`: blocked by any point
   * beyond `stop`; otherwise the clearance is minus the nearest x, or minus `far`.
   */
  function BehindVerdict(xs: seq<Point>, stop: real, far: real): Feasibility
  {
    if exists p :: p in xs && p.x > stop then Feasibility(false, 0.0)
    else Feasibility(true, -MaxX(xs, far))
  }

  /** What the backward verdict means for the relevant points `xs`. */
  lemma BehindVerdictMeaning(xs: seq<Point>, stop: real, far: real)
    ensures !BehindVerdict(xs, stop, far).possible <==> exists p :: p in xs && p.x > stop
    ensures !BehindVerdict(xs, stop, far).possible ==> BehindVerdict(xs, stop, far).clearance == 0.0
    ensures BehindVerdict(xs, stop, far).possible ==>
      var c := -BehindVerdict(xs, stop, far).clearance;
      && c >= far
      && (forall p :: p in xs ==> c >= p.x)
      && (c == far || exists p :: p in xs && p.x == c)
  {
  }

  /**
   * The state of a forward scan after the points `xs`, taken in order: blocked at
   * the first point kept by `keep` that is nearer than `stop`, otherwise open with
   * the least x seen so far (starting from `far`).
   */
  function AheadScan(xs: seq<Point>, keep: Point -> bool, stop: real, far: real): (r: Feasibility)
    ensures !r.possible ==> r.clearance == 0.0
  {
    if xs == [] then Feasibility(true, far)
    else
      var r := AheadScan(xs[..|xs| - 1], keep, stop, far);
      var p := xs[|xs| - 1];
      if !r.possible || !keep(p) then r
      else if p.x < stop then Feasibility(false, 0.0)
      else if r.clearance > p.x then Feasibility(true, p.x)
      else r
  }

  /** The state of a backward scan after the points `xs`, as `AheadScan` with the directions swapped. */
  function BehindScan(xs: seq<Point>, keep: Point -> bool, stop: real, far: real): (r: Feasibility)
    ensures !r.possible ==> r.clearance == 0.0
  {
    if xs == [] then Feasibility(true, far)
    else
      var r := BehindScan(xs[..|xs| - 1], keep, stop, far);
      var p := xs[|xs| - 1];
      if !r.possible || !keep(p) then r
      else if p.x > stop then Feasibility(false, 0.0)
      else if r.clearance < p.x then Feasibility(true, p.x)
      else r
  }

  lemma AheadScanPrefix(xs: seq<Point>, i: nat, keep: Point -> bool, stop: real, far: real)
    requires i < |xs|
    ensures AheadScan(xs[..i + 1], keep, stop, far) ==
      var r := AheadScan(xs[..i], keep, stop, far);
      if !r.possible || !keep(xs[i]) then r
      else if xs[i].x < stop then Feasibility(false, 0.0)
      else if r.clearance > xs[i].x then Feasibility(true, xs[i].x)
      else r
  {
    assert xs[..i + 1][..i] == xs[..i];
  }

  lemma BehindScanPrefix(xs: seq<Point>, i: nat, keep: Point -> bool, stop: real, far: real)
    requires i < |xs|
    ensures BehindScan(xs[..i + 1], keep, stop, far) ==
      var r := BehindScan(xs[..i], keep, stop, far);
      if !r.possible || !keep(xs[i]) then r
      else if xs[i].x > stop then Feasibility(false, 0.0)
      else if r.clearance < xs[i].x then Feasibility(true, xs[i].x)
      else r
  {
    assert xs[..i + 1][..i] == xs[..i];
  }

  /** A forward verdict after one more relevant point. */
  lemma AheadVerdictSnoc(xs: seq<Point>, p: Point, stop: real, far: real)
    ensures AheadVerdict(xs + [p], stop, far) ==
      var v := AheadVerdict(xs, stop, far);
      if !v.possible || p.x < stop then Feasibility(false, 0.0)
      else if v.clearance > p.x then Feasibility(true, p.x)
      else v
  {
    assert (xs + [p])[..|xs|] == xs;
    assert forall q :: q in xs + [p] <==> q in xs || q == p;
  }

  /** A backward verdict after one more relevant point. */
  lemma BehindVerdictSnoc(xs: seq<Point>, p: Point, stop: real, far: real)
    ensures BehindVerdict(xs + [p], stop, far) ==
      var v := BehindVerdict(xs, stop, far);
      if !v.possible || p.x > stop then Feasibility(false, 0.0)
      else if -v.clearance < p.x then Feasibility(true, -p.x)
      else v
  {
    assert (xs + [p])[..|xs|] == xs;
    assert forall q :: q in xs + [p] <==> q in xs || q == p;
  }

  /** The scan in order reaches the order-free verdict: blocking and the nearest point are found alike. */
  lemma {:induction false} AheadScanIsVerdict(xs: seq<Point>, keep: Point -> bool, stop: real, far: real)
    ensures AheadScan(xs, keep, stop, far) == AheadVerdict(Filter(xs, keep), stop, far)
    decreases |xs|
  {
    if xs != [] {
      var init, p := xs[..|xs| - 1], xs[|xs| - 1];
      AheadScanIsVerdict(init, keep, stop, far);
      assert xs == init + [p];
      if keep(p) {
        assert Filter(xs, keep) == Filter(init, keep) + [p];
        AheadVerdictSnoc(Filter(init, keep), p, stop, far);
      } else {
        assert Filter(xs, keep) == Filter(init, keep);
      }
    }
  }

  /** The backward scan in order reaches the order-free verdict. */
  lemma {:induction false} BehindScanIsVerdict(xs: seq<Point>, keep: Point -> bool, stop: real, far: real)
    ensures BehindScan(xs, keep, stop, far) == var v := BehindVerdict(Filter(xs, keep), stop, far); Feasibility(v.possible, -v.clearance)
    decreases |xs|
  {
    if xs != [] {
      var init, p := xs[..|xs| - 1], xs[|xs| - 1];
      BehindScanIsVerdict(init, keep, stop, far);
      assert xs == init + [p];
      if keep(p) {
        assert Filter(xs, keep) == Filter(init, keep) + [p];
        BehindVerdictSnoc(Filter(init, keep), p, stop, far);
      } else {
        assert Filter(xs, keep) == Filter(init, keep);
      }
    }
  }

  /** Once a forward scan is blocked, the points after do not change that. */
  lemma {:induction false} AheadScanStaysBlocked(xs: seq<Point>, i: nat, keep: Point -> bool, stop: real, far: real)
    requires i <= |xs|
    requires !AheadScan(xs[..i], keep, stop, far).possible
    ensures AheadScan(xs, keep, stop, far) == Feasibility(false, 0.0)
    decreases |xs| - i
  {
    if i == |xs| {
      assert xs[..i] == xs;
    } else {
      AheadScanPrefix(xs, i, keep, stop, far);
      AheadScanStaysBlocked(xs, i + 1, keep, stop, far);
    }
  }

  /** Once a backward scan is blocked, the points after do not change that. */
  lemma {:induction false} BehindScanStaysBlocked(xs: seq<Point>, i: nat, keep: Point -> bool, stop: real, far: real)
    requires i <= |xs|
    requires !BehindScan(xs[..i], keep, stop, far).possible
    ensures BehindScan(xs, keep, stop, far) == Feasibility(false, 0.0)
    decreases |xs| - i
  {
    if i == |xs| {
      assert xs[..i] == xs;
    } else {
      BehindScanPrefix(xs, i, keep, stop, far);
      BehindScanStaysBlocked(xs, i + 1, keep, stop, far);
    }
  }

  /** A forward verdict depends only on which points are present, not on their order. */
  lemma AheadVerdictOnlyMembers(xs: seq<Point>, ys: seq<Point>, stop: real, far: real)
    requires forall p :: p in xs <==> p in ys
    ensures AheadVerdict(xs, stop, far) == AheadVerdict(ys, stop, far)
  {
    var a, b := AheadVerdict(xs, stop, far), AheadVerdict(ys, stop, far);
    if a.possible {
      assert a.clearance <= b.clearance;
      assert b.clearance <= a.clearance;
    }
  }

  /** A backward verdict depends only on which points are present, not on their order. */
  lemma BehindVerdictOnlyMembers(xs: seq<Point>, ys: seq<Point>, stop: real, far: real)
    requires forall p :: p in xs <==> p in ys
    ensures BehindVerdict(xs, stop, far) == BehindVerdict(ys, stop, far)
  {
    var a, b := BehindVerdict(xs, stop, far), BehindVerdict(ys, stop, far);
    if a.possible {
      assert a.clearance <= b.clearance;
      assert b.clearance <= a.clearance;
    }
  }

  function AheadWindow(body: Body): Point -> bool { (p: Point) => InStraightAhead(body, p) }
  function BehindWindow(body: Body): Point -> bool { (p: Point) => InStraightBehind(body, p) }

  /** The points the straight-forward scan looks at. */
  function StraightAheadPoints(body: Body, pts: seq<Point>): seq<Point>
  {
    Filter(pts, AheadWindow(body))
  }

  /** The points the straight-backward scan looks at. */
  function StraightBehindPoints(body: Body, pts: seq<Point>): seq<Point>
  {
    Filter(pts, BehindWindow(body))
  }

  /** `_can_move_straight_forward`, as a verdict on the whole point set. */
  function StraightForward(pts: seq<Point>, body: Body, speed: real): Feasibility
  {
    AheadVerdict(StraightAheadPoints(body, pts), AheadStop(body, speed), FrontEdge(body) + CheckRadius)
  }

  /** The straight-forward verdict in terms of the whole point set. */
  lemma StraightForwardMeaning(pts: seq<Point>, body: Body, speed: real)
    ensures var r := StraightForward(pts, body, speed);
      !r.possible <==> exists p :: p in pts && InStraightAhead(body, p) && p.x < AheadStop(body, speed)
    ensures var r := StraightForward(pts, body, speed);
      !r.possible ==> r.clearance == 0.0
    ensures var r := StraightForward(pts, body, speed);
      r.possible ==>
        && r.clearance <= FrontEdge(body) + CheckRadius
        && (forall p :: p in pts && InStraightAhead(body, p) ==> r.clearance <= p.x)
        && (r.clearance == FrontEdge(body) + CheckRadius
            || exists p :: p in pts && InStraightAhead(body, p) && p.x == r.clearance)
  {
    AheadVerdictMeaning(StraightAheadPoints(body, pts), AheadStop(body, speed), FrontEdge(body) + CheckRadius);
  }

  /** `_can_move_straight_backward`, as a verdict on the whole point set. */
  function StraightBackward(pts: seq<Point>, body: Body, speed: real): Feasibility
  {
    BehindVerdict(StraightBehindPoints(body, pts), BehindStop(body, speed), RearEdge(body) - CheckRadius)
  }

  /** The straight-backward verdict in terms of the whole point set. */
  lemma StraightBackwardMeaning(pts: seq<Point>, body: Body, speed: real)
    ensures var r := StraightBackward(pts, body, speed);
      !r.possible <==> exists p :: p in pts && InStraightBehind(body, p) && p.x > BehindStop(body, speed)
    ensures var r := StraightBackward(pts, body, speed);
      !r.possible ==> r.clearance == 0.0
    ensures var r := StraightBackward(pts, body, speed);
      r.possible ==>
        && -r.clearance >= RearEdge(body) - CheckRadius
        && (forall p :: p in pts && InStraightBehind(body, p) ==> -r.clearance >= p.x)
        && (-r.clearance == RearEdge(body) - CheckRadius
            || exists p :: p in pts && InStraightBehind(body, p) && p.x == -r.clearance)
  {
    BehindVerdictMeaning(StraightBehindPoints(body, pts), BehindStop(body, speed), RearEdge(body) - CheckRadius);
  }

  // The turn filters

  /** Outer radius of the full-turn corridor around a column centre. */
  const TurnOuterRadius: real := ColumnRadius + 2.0 * (HalfCarWidth + FearDistance)
  /** Pivots of the slight turns. */
  const BitLeftCenter: Point := Point(0.0, ABitCenterY)
  const BitRightCenter: Point := Point(0.0, -ABitCenterY)
  /** Radii of the slight-turn corridor around its pivot. */
  const BitOuterRadius: real := ABitCenterY + HalfCarWidth + FearDistance
  const BitInnerRadius: real := ABitCenterY - HalfCarWidth - FearDistance

  /** `inner < distance(c, p) < outer`, on squares: both radii are positive. */
  predicate InsideAnnulus(c: Point, inner: real, outer: real, p: Point)
  {
    inner * inner < DistSq(c, p) < outer * outer
  }

  /** The `on_a_curve` test of each turn filter. */
  predicate OnTurnPath(t: Turn, p: Point)
  {
    match t
    case RightTurn => InsideDisc(RightColumnCenter, TurnOuterRadius, p)
    case LeftTurn => InsideDisc(LeftColumnCenter, TurnOuterRadius, p)
    case BitRightTurn => InsideAnnulus(BitRightCenter, BitInnerRadius, BitOuterRadius, p)
    case BitLeftTurn => InsideAnnulus(BitLeftCenter, BitInnerRadius, BitOuterRadius, p)
  }

  /** `_filter_right_points`, `_filter_left_points`, `_filter_a_bit_right_points`, `_filter_a_bit_left_points`. */
  function TurnPoints(t: Turn, pts: seq<Point>): (r: seq<Point>)
    ensures IsSubsequence(r, pts)
    ensures forall p :: p in r <==> p in pts && OnTurnPath(t, p)
  {
    var keep := (p: Point) => OnTurnPath(t, p);
    FilterKeepsOrder(pts, keep);
    Filter(pts, keep)
  }

  /** The radii of the turn filters are positive, so comparing squares is comparing distances. */
  lemma TurnRadiiPositive()
    ensures 0.0 < BitInnerRadius < BitOuterRadius && 0.0 < TurnOuterRadius
  {
  }

  function Above(edge: real): Point -> bool { (p: Point) => edge < p.x }
  function Below(edge: real): Point -> bool { (p: Point) => p.x < edge }

  /** The points of `xs` with x above `edge`. */
  function Beyond(xs: seq<Point>, edge: real): seq<Point>
  {
    Filter(xs, Above(edge))
  }

  /** The points of `xs` with x below `edge`. */
  function Before(xs: seq<Point>, edge: real): seq<Point>
  {
    Filter(xs, Below(edge))
  }

  /** The verdict of `_can_move_some_forward` on points already filtered for a turn. */
  function SomeForward(nearby: seq<Point>, body: Body, speed: real): Feasibility
  {
    AheadVerdict(Beyond(nearby, FrontEdge(body) - InnerOffset), AheadStop(body, speed), FrontEdge(body) + CheckRadius)
  }

  /** The verdict of `_can_move_some_backward` on points already filtered for a turn. */
  function SomeBackward(nearby: seq<Point>, body: Body, speed: real): Feasibility
  {
    BehindVerdict(Before(nearby, RearEdge(body) + InnerOffset), BehindStop(body, speed), RearEdge(body) - CheckRadius)
  }

  /** `_can_move_right_forward` and its three siblings: `_can_move_some_forward` with the filter of turn `t`. */
  function TurnForward(t: Turn, pts: seq<Point>, body: Body, speed: real): Feasibility
  {
    SomeForward(TurnPoints(t, pts), body, speed)
  }

  /** The verdict of a forward turn in terms of the whole point set. */
  lemma TurnForwardMeaning(t: Turn, pts: seq<Point>, body: Body, speed: real)
    ensures var r := TurnForward(t, pts, body, speed);
      !r.possible <==>
        exists p :: p in pts && OnTurnPath(t, p) && FrontEdge(body) - InnerOffset < p.x < AheadStop(body, speed)
    ensures var r := TurnForward(t, pts, body, speed);
      !r.possible ==> r.clearance == 0.0
    ensures var r := TurnForward(t, pts, body, speed);
      r.possible ==>
        && r.clearance <= FrontEdge(body) + CheckRadius
        && (forall p :: p in pts && OnTurnPath(t, p) && FrontEdge(body) - InnerOffset < p.x ==> r.clearance <= p.x)
        && (r.clearance == FrontEdge(body) + CheckRadius
            || exists p :: p in pts && OnTurnPath(t, p) && FrontEdge(body) - InnerOffset < p.x && p.x == r.clearance)
  {
    AheadVerdictMeaning(Beyond(TurnPoints(t, pts), FrontEdge(body) - InnerOffset),
      AheadStop(body, speed), FrontEdge(body) + CheckRadius);
  }

  /** `_can_move_right_backward` and its three siblings: `_can_move_some_backward` with the filter of turn `t`. */
  function TurnBackward(t: Turn, pts: seq<Point>, body: Body, speed: real): Feasibility
  {
    SomeBackward(TurnPoints(t, pts), body, speed)
  }

  /** The verdict of a backward turn in terms of the whole point set. */
  lemma TurnBackwardMeaning(t: Turn, pts: seq<Point>, body: Body, speed: real)
    ensures var r := TurnBackward(t, pts, body, speed);
      !r.possible <==>
        exists p :: p in pts && OnTurnPath(t, p) && BehindStop(body, speed) < p.x < RearEdge(body) + InnerOffset
    ensures var r := TurnBackward(t, pts, body, speed);
      !r.possible ==> r.clearance == 0.0
    ensures var r := TurnBackward(t, pts, body, speed);
      r.possible ==>
        && -r.clearance >= RearEdge(body) - CheckRadius
        && (forall p :: p in pts && OnTurnPath(t, p) && p.x < RearEdge(body) + InnerOffset ==> -r.clearance >= p.x)
        && (-r.clearance == RearEdge(body) - CheckRadius
            || exists p :: p in pts && OnTurnPath(t, p) && p.x < RearEdge(body) + InnerOffset && p.x == -r.clearance)
  {
    BehindVerdictMeaning(Before(TurnPoints(t, pts), RearEdge(body) + InnerOffset),
      BehindStop(body, speed), RearEdge(body) - CheckRadius);
  }

  /** The verdict for one sector: the entry of the `can_move` table. */
  function SectorVerdict(s: Sector, pts: seq<Point>, body: Body, speed: real): Feasibility
  {
    match s
    case Sector(Straight, Forward) => StraightForward(pts, body, speed)
    case Sector(Straight, Backward) => StraightBackward(pts, body, speed)
    case Sector(Turning(t), Forward) => TurnForward(t, pts, body, speed)
    case Sector(Turning(t), Backward) => TurnBackward(t, pts, body, speed)
  }

  /** The verdict of every sector, as a function. */
  function Verdicts(pts: seq<Point>, body: Body, speed: real): Sector -> Feasibility
  {
    (s: Sector) => SectorVerdict(s, pts, body, speed)
  }

  /** The `can_move` table of `_get_next_move`: every sector mapped to its verdict. */
  function CanMove(pts: seq<Point>, body: Body, speed: real): (can: map<Sector, Feasibility>)
    ensures Complete(can)
    ensures forall s :: can[s] == SectorVerdict(s, pts, body, speed)
  {
    SectorTableComplete();
    map s | s in SectorTable :: Verdicts(pts, body, speed)(s)
  }

  /** The straight-forward verdict depends only on which points are present. */
  lemma StraightForwardOnlyMembers(pts: seq<Point>, qs: seq<Point>, body: Body, speed: real)
    requires forall p :: p in pts <==> p in qs
    ensures StraightForward(pts, body, speed) == StraightForward(qs, body, speed)
  {
    AheadVerdictOnlyMembers(StraightAheadPoints(body, pts), StraightAheadPoints(body, qs),
      AheadStop(body, speed), FrontEdge(body) + CheckRadius);
  }

  /** The straight-backward verdict depends only on which points are present. */
  lemma StraightBackwardOnlyMembers(pts: seq<Point>, qs: seq<Point>, body: Body, speed: real)
    requires forall p :: p in pts <==> p in qs
    ensures StraightBackward(pts, body, speed) == StraightBackward(qs, body, speed)
  {
    BehindVerdictOnlyMembers(StraightBehindPoints(body, pts), StraightBehindPoints(body, qs),
      BehindStop(body, speed), RearEdge(body) - CheckRadius);
  }

  /** A forward turn's verdict depends only on which points are present. */
  lemma TurnForwardOnlyMembers(t: Turn, pts: seq<Point>, qs: seq<Point>, body: Body, speed: real)
    requires forall p :: p in pts <==> p in qs
    ensures TurnForward(t, pts, body, speed) == TurnForward(t, qs, body, speed)
  {
    var tp, tq := TurnPoints(t, pts), TurnPoints(t, qs);
    assert forall p :: p in tp <==> p in tq;
    AheadVerdictOnlyMembers(Beyond(tp, FrontEdge(body) - InnerOffset), Beyond(tq, FrontEdge(body) - InnerOffset),
      AheadStop(body, speed), FrontEdge(body) + CheckRadius);
  }

  /** A backward turn's verdict depends only on which points are present. */
  lemma TurnBackwardOnlyMembers(t: Turn, pts: seq<Point>, qs: seq<Point>, body: Body, speed: real)
    requires forall p :: p in pts <==> p in qs
    ensures TurnBackward(t, pts, body, speed) == TurnBackward(t, qs, body, speed)
  {
    var tp, tq := TurnPoints(t, pts), TurnPoints(t, qs);
    assert forall p :: p in tp <==> p in tq;
    BehindVerdictOnlyMembers(Before(tp, RearEdge(body) + InnerOffset), Before(tq, RearEdge(body) + InnerOffset),
      BehindStop(body, speed), RearEdge(body) - CheckRadius);
  }

  /** One sector's verdict depends only on which points are present. */
  lemma SectorVerdictOnlyMembers(s: Sector, pts: seq<Point>, qs: seq<Point>, body: Body, speed: real)
    requires forall p :: p in pts <==> p in qs
    ensures SectorVerdict(s, pts, body, speed) == SectorVerdict(s, qs, body, speed)
  {
    match s
    case Sector(Straight, Forward) => StraightForwardOnlyMembers(pts, qs, body, speed);
    case Sector(Straight, Backward) => StraightBackwardOnlyMembers(pts, qs, body, speed);
    case Sector(Turning(t), Forward) => TurnForwardOnlyMembers(t, pts, qs, body, speed);
    case Sector(Turning(t), Backward) => TurnBackwardOnlyMembers(t, pts, qs, body, speed);
  }

  /** The verdicts and clearances do not depend on the order of the points. */
  lemma CanMoveIgnoresOrder(pts: seq<Point>, qs: seq<Point>, body: Body, speed: real)
    requires multiset(pts) == multiset(qs)
    ensures CanMove(pts, body, speed) == CanMove(qs, body, speed)
  {
    assert forall p :: p in pts <==> p in qs by {
      forall p ensures p in pts <==> p in qs {
        assert p in pts <==> p in multiset(pts);
        assert p in qs <==> p in multiset(qs);
      }
    }
    var a, b := CanMove(pts, body, speed), CanMove(qs, body, speed);
    forall s: Sector ensures a[s] == b[s] {
      SectorVerdictOnlyMembers(s, pts, qs, body, speed);
    }
    assert a.Keys == b.Keys;
  }

  /** With no obstacle points every sector is open, its clearance the far edge of its window. */
  lemma ClearFieldAllOpen(body: Body, speed: real, s: Sector)
    ensures CanMove([], body, speed)[s].possible
    ensures CanMove([], body, speed)[s].clearance ==
      if s.heading == Forward then FrontEdge(body) + CheckRadius else CheckRadius - RearEdge(body)
  {
  }

  // The scan loops

  /** The loop of `_can_move_straight_forward`, with its early return. */
  method ScanStraightForward(pts: seq<Point>, body: Body, speed: real) returns (r: Feasibility)
    ensures r == StraightForward(pts, body, speed)
  {
    var minY := body.y - FearDistance;
    var maxY := body.y + body.h + FearDistance;
    var minX := body.x + body.w;
    var maxX := minX + CheckRadius;
    var stopX := minX + StopDistanceAt(speed);
    minX := minX - InnerOffset;

    var nearest := maxX;
    for i := 0 to |pts|
      invariant AheadScan(pts[..i], AheadWindow(body), stopX, maxX) == Feasibility(true, nearest)
    {
      var p := pts[i];
      AheadScanPrefix(pts, i, AheadWindow(body), stopX, maxX);
      if minX < p.x < maxX && minY <= p.y <= maxY {
        if p.x < stopX {
          AheadScanStaysBlocked(pts, i + 1, AheadWindow(body), stopX, maxX);
          AheadScanIsVerdict(pts, AheadWindow(body), stopX, maxX);
          return Feasibility(false, 0.0);
        } else if nearest > p.x {
          nearest := p.x;
        }
      }
    }
    assert pts[..|pts|] == pts;
    AheadScanIsVerdict(pts, AheadWindow(body), stopX, maxX);
    return Feasibility(true, nearest);
  }

  /** The loop of `_can_move_straight_backward`, with its early return. */
  method ScanStraightBackward(pts: seq<Point>, body: Body, speed: real) returns (r: Feasibility)
    ensures r == StraightBackward(pts, body, speed)
  {
    var minY := body.y - FearDistance;
    var maxY := body.y + body.h + FearDistance;
    var maxX := body.x;
    var minX := maxX - CheckRadius;
    var stopX := maxX - StopDistanceAt(speed);
    maxX := maxX + InnerOffset;

    var nearest := minX;
    for i := 0 to |pts|
      invariant BehindScan(pts[..i], BehindWindow(body), stopX, minX) == Feasibility(true, nearest)
    {
      var p := pts[i];
      BehindScanPrefix(pts, i, BehindWindow(body), stopX, minX);
      if minX < p.x < maxX && minY <= p.y <= maxY {
        if p.x > stopX {
          BehindScanStaysBlocked(pts, i + 1, BehindWindow(body), stopX, minX);
          BehindScanIsVerdict(pts, BehindWindow(body), stopX, minX);
          return Feasibility(false, 0.0);
        } else if nearest < p.x {
          nearest := p.x;
        }
      }
    }
    assert pts[..|pts|] == pts;
    BehindScanIsVerdict(pts, BehindWindow(body), stopX, minX);
    return Feasibility(true, -nearest);
  }

  /** `_can_move_some_forward` for turn `t`: apply the turn's filter, then scan. */
  method ScanTurnForward(t: Turn, pts: seq<Point>, body: Body, speed: real) returns (r: Feasibility)
    ensures r == TurnForward(t, pts, body, speed)
  {
    r := ScanSomeForward(TurnPoints(t, pts), body, speed);
  }

  /** The loop of `_can_move_some_forward` over the filtered points, with its early return. */
  method ScanSomeForward(nearby: seq<Point>, body: Body, speed: real) returns (r: Feasibility)
    ensures r == SomeForward(nearby, body, speed)
  {
    var minX := body.x + body.w;
    var maxX := minX + CheckRadius;
    var stopX := minX + StopDistanceAt(speed);
    minX := minX - InnerOffset;

    var nearest := maxX;
    for i := 0 to |nearby|
      invariant AheadScan(nearby[..i], Above(minX), stopX, maxX) == Feasibility(true, nearest)
    {
      var p := nearby[i];
      AheadScanPrefix(nearby, i, Above(minX), stopX, maxX);
      if minX < p.x {
        if p.x < stopX {
          AheadScanStaysBlocked(nearby, i + 1, Above(minX), stopX, maxX);
          AheadScanIsVerdict(nearby, Above(minX), stopX, maxX);
          return Feasibility(false, 0.0);
        } else if nearest > p.x {
          nearest := p.x;
        }
      }
    }
    assert nearby[..|nearby|] == nearby;
    AheadScanIsVerdict(nearby, Above(minX), stopX, maxX);
    return Feasibility(true, nearest);
  }

  /** `_can_move_some_backward` for turn `t`: apply the turn's filter, then scan. */
  method ScanTurnBackward(t: Turn, pts: seq<Point>, body: Body, speed: real) returns (r: Feasibility)
    ensures r == TurnBackward(t, pts, body, speed)
  {
    r := ScanSomeBackward(TurnPoints(t, pts), body, speed);
  }

  /** The loop of `_can_move_some_backward` over the filtered points, with its early return. */
  method ScanSomeBackward(nearby: seq<Point>, body: Body, speed: real) returns (r: Feasibility)
    ensures r == SomeBackward(nearby, body, speed)
  {
    var maxX := body.x;
    var minX := maxX - CheckRadius;
    var stopX := maxX - StopDistanceAt(speed);
    maxX := maxX + InnerOffset;

    var nearest := minX;
    for i := 0 to |nearby|
      invariant BehindScan(nearby[..i], Below(maxX), stopX, minX) == Feasibility(true, nearest)
    {
      var p := nearby[i];
      BehindScanPrefix(nearby, i, Below(maxX), stopX, minX);
      if p.x < maxX {
        if p.x > stopX {
          BehindScanStaysBlocked(nearby, i + 1, Below(maxX), stopX, minX);
          BehindScanIsVerdict(nearby, Below(maxX), stopX, minX);
          return Feasibility(false, 0.0);
        } else if nearest < p.x {
          nearest := p.x;
        }
      }
    }
    assert nearby[..|nearby|] == nearby;
    BehindScanIsVerdict(nearby, Below(maxX), stopX, minX);
    return Feasibility(true, -nearest);
  }

  /** The scan of one sector, as the entry of the `can_move` table calls it. */
  method ScanSector(s: Sector, pts: seq<Point>, body: Body, speed: real) returns (r: Feasibility)
    ensures r == Verdicts(pts, body, speed)(s)
  {
    match s
    case Sector(Straight, Forward) => r := ScanStraightForward(pts, body, speed);
    case Sector(Straight, Backward) => r := ScanStraightBackward(pts, body, speed);
    case Sector(Turning(t), Forward) => r := ScanTurnForward(t, pts, body, speed);
    case Sector(Turning(t), Backward) => r := ScanTurnBackward(t, pts, body, speed);
  }

  /** The `can_move` table of `_get_next_move`: the ten scans, one per sector. */
  method ScanAll(pts: seq<Point>, body: Body, speed: real) returns (can: map<Sector, Feasibility>)
    ensures can == CanMove(pts, body, speed)
  {
    var straightForward := ScanSector(Sector(Straight, Forward), pts, body, speed);
    var rightForward := ScanSector(Sector(Turning(RightTurn), Forward), pts, body, speed);
    var leftForward := ScanSector(Sector(Turning(LeftTurn), Forward), pts, body, speed);
    var bitRightForward := ScanSector(Sector(Turning(BitRightTurn), Forward), pts, body, speed);
    var bitLeftForward := ScanSector(Sector(Turning(BitLeftTurn), Forward), pts, body, speed);
    var straightBackward := ScanSector(Sector(Straight, Backward), pts, body, speed);
    var rightBackward := ScanSector(Sector(Turning(RightTurn), Backward), pts, body, speed);
    var leftBackward := ScanSector(Sector(Turning(LeftTurn), Backward), pts, body, speed);
    var bitRightBackward := ScanSector(Sector(Turning(BitRightTurn), Backward), pts, body, speed);
    var bitLeftBackward := ScanSector(Sector(Turning(BitLeftTurn), Backward), pts, body, speed);
    can := map[
      Sector(Straight, Forward) := straightForward,
      Sector(Turning(RightTurn), Forward) := rightForward,
      Sector(Turning(LeftTurn), Forward) := leftForward,
      Sector(Turning(BitRightTurn), Forward) := bitRightForward,
      Sector(Turning(BitLeftTurn), Forward) := bitLeftForward,
      Sector(Straight, Backward) := straightBackward,
      Sector(Turning(RightTurn), Backward) := rightBackward,
      Sector(Turning(LeftTurn), Backward) := leftBackward,
      Sector(Turning(BitRightTurn), Backward) := bitRightBackward,
      Sector(Turning(BitLeftTurn), Backward) := bitLeftBackward
    ];
    TableEntries(Verdicts(pts, body, speed));
  }
}
