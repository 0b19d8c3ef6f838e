/** The ten movement sectors and the drive commands of the explorer. */
module Sectors {
  import opened Params

  /** The four turning filters, one per non-straight steering level. */
  datatype Turn = RightTurn | LeftTurn | BitRightTurn | BitLeftTurn

  /** Steering class of a sector. */
  datatype Steer = Straight | Turning(turn: Turn)

  /** Direction of travel of a sector (the second component of a `can_move` key). */
  datatype Heading = Forward | Backward

  /** A movement sector: one key `(steering, direction)` of the `can_move` table. */
  datatype Sector = Sector(steer: Steer, heading: Heading)

  /** The steering value of a sector key. */
  function SteeringOf(s: Steer): (v: real)
    ensures -1.0 <= v <= 1.0
    ensures v == 0.0 <==> s == Straight
  {
    match s
    case Straight => 0.0
    case Turning(RightTurn) => RightSteering
    case Turning(LeftTurn) => LeftSteering
    case Turning(BitRightTurn) => ABitRightSteering
    case Turning(BitLeftTurn) => ABitLeftSteering
  }

  /** The sectors in the order the `can_move` table lists them. */
  const SectorTable: seq<Sector> := [
    Sector(Straight, Forward),
    Sector(Turning(RightTurn), Forward),
    Sector(Turning(LeftTurn), Forward),
    Sector(Turning(BitRightTurn), Forward),
    Sector(Turning(BitLeftTurn), Forward),
    Sector(Straight, Backward),
    Sector(Turning(RightTurn), Backward),
    Sector(Turning(LeftTurn), Backward),
    Sector(Turning(BitRightTurn), Backward),
    Sector(Turning(BitLeftTurn), Backward)
  ]

  /** The ten sectors, one by one. */
  lemma SectorCases(s: Sector)
    ensures || s == Sector(Straight, Forward) || s == Sector(Straight, Backward)
            || s == Sector(Turning(RightTurn), Forward) || s == Sector(Turning(RightTurn), Backward)
            || s == Sector(Turning(LeftTurn), Forward) || s == Sector(Turning(LeftTurn), Backward)
            || s == Sector(Turning(BitRightTurn), Forward) || s == Sector(Turning(BitRightTurn), Backward)
            || s == Sector(Turning(BitLeftTurn), Forward) || s == Sector(Turning(BitLeftTurn), Backward)
  {
    match s
    case Sector(Straight, Forward) =>
    case Sector(Straight, Backward) =>
    case Sector(Turning(RightTurn), Forward) =>
    case Sector(Turning(RightTurn), Backward) =>
    case Sector(Turning(LeftTurn), Forward) =>
    case Sector(Turning(LeftTurn), Backward) =>
    case Sector(Turning(BitRightTurn), Forward) =>
    case Sector(Turning(BitRightTurn), Backward) =>
    case Sector(Turning(BitLeftTurn), Forward) =>
    case Sector(Turning(BitLeftTurn), Backward) =>
  }

  /** The table lists no sector twice. */
  lemma SectorTableDistinct()
    ensures forall i, j :: 0 <= i < j < |SectorTable| ==> SectorTable[i] != SectorTable[j]
  {
  }

  /** The table lists every sector. */
  lemma SectorTableComplete()
    ensures forall s: Sector :: s in SectorTable
  {
    forall s: Sector ensures s in SectorTable {
      match s
      case Sector(Straight, h) =>
        assert h == Forward ==> s == SectorTable[0];
        assert h == Backward ==> s == SectorTable[5];
      case Sector(Turning(t), Forward) =>
        assert s in SectorTable[1..5] by {
          match t
          case RightTurn => assert s == SectorTable[1];
          case LeftTurn => assert s == SectorTable[2];
          case BitRightTurn => assert s == SectorTable[3];
          case BitLeftTurn => assert s == SectorTable[4];
        }
      case Sector(Turning(t), Backward) =>
        assert s in SectorTable[6..] by {
          match t
          case RightTurn => assert s == SectorTable[6];
          case LeftTurn => assert s == SectorTable[7];
          case BitRightTurn => assert s == SectorTable[8];
          case BitLeftTurn => assert s == SectorTable[9];
        }
    }
  }

  /** A per-sector table that has an entry for every sector. */
  ghost predicate Complete<V>(m: map<Sector, V>)
  {
    forall s: Sector :: s in m
  }

  /** A per-sector table built entry by entry, in the order of `SectorTable`. */
  function Table<V>(v: Sector -> V): map<Sector, V>
  {
    map[
      Sector(Straight, Forward) := v(Sector(Straight, Forward)),
      Sector(Turning(RightTurn), Forward) := v(Sector(Turning(RightTurn), Forward)),
      Sector(Turning(LeftTurn), Forward) := v(Sector(Turning(LeftTurn), Forward)),
      Sector(Turning(BitRightTurn), Forward) := v(Sector(Turning(BitRightTurn), Forward)),
      Sector(Turning(BitLeftTurn), Forward) := v(Sector(Turning(BitLeftTurn), Forward)),
      Sector(Straight, Backward) := v(Sector(Straight, Backward)),
      Sector(Turning(RightTurn), Backward) := v(Sector(Turning(RightTurn), Backward)),
      Sector(Turning(LeftTurn), Backward) := v(Sector(Turning(LeftTurn), Backward)),
      Sector(Turning(BitRightTurn), Backward) := v(Sector(Turning(BitRightTurn), Backward)),
      Sector(Turning(BitLeftTurn), Backward) := v(Sector(Turning(BitLeftTurn), Backward))
    ]
  }

  /** Each sector has its own entry in the table. */
  lemma TableAt<V>(v: Sector -> V, s: Sector)
    ensures s in Table(v) && Table(v)[s] == v(s)
  {
    SectorCases(s);
  }

  /** Building the table entry by entry gives the table of all sectors. */
  lemma TableEntries<V>(v: Sector -> V)
    ensures Table(v) == map s | s in SectorTable :: v(s)
  {
    var m := map s | s in SectorTable :: v(s);
    SectorTableComplete();
    forall s: Sector ensures s in Table(v) && Table(v)[s] == m[s] {
      TableAt(v, s);
    }
    assert Table(v).Keys == m.Keys;
  }

  /** A steering/throttle pair sent to the actuators. */
  datatype Command = Command(steering: real, throttle: real)

  const Stop: Command := Command(0.0, 0.0)

  /** The steering levels the explorer ever commands. */
  predicate CanonicalSteering(v: real)
  {
    v == 0.0 || v == RightSteering || v == LeftSteering || v == ABitRightSteering || v == ABitLeftSteering
  }

  /** The throttle levels the explorer ever commands. */
  predicate CanonicalThrottle(v: real)
  {
    v == 0.0 || v == ForwardThrottle || v == BackwardThrottle || v == ForwardBrake || v == BackwardBrake
  }

  /** One of the fixed commands the explorer reuses. */
  predicate Canonical(c: Command)
  {
    CanonicalSteering(c.steering) && CanonicalThrottle(c.throttle)
  }
}
