/**
 * The direction selector of `_get_next_move`: the brake and stop gates, the
 * weight adjustment, the choice of the heaviest sector, the fallback by
 * clearance, and the substitution of a brake for a direct reversal.
 */
module Selector {
  import opened Params
  import opened Seqs
  import opened Sectors
  import opened Analyzer

  function Abs(v: real): real { if v < 0.0 then -v else v }

  /** The throttle that drives a sector's heading. */
  function ThrottleFor(h: Heading): real
  {
    if h == Forward then ForwardThrottle else BackwardThrottle
  }

  /** A sector's heading is the one the previous command was driving at full throttle. */
  predicate KeepsHeading(h: Heading, prevThrottle: real)
  {
    (h == Forward && prevThrottle == ForwardThrottle) || (h == Backward && prevThrottle == BackwardThrottle)
  }

  // Weight adjustment

  /**
   * The weight of one sector after the adjustment loop: zero when blocked, halved
   * when the clearance is under half a metre, then quadrupled when the sector
   * keeps the heading of the previous full-throttle command.
   */
  function AdjustedWeight(s: Sector, f: Feasibility, prevThrottle: real, w: real): real
  {
    if !f.possible then 0.0
    else
      var w1 := if Abs(f.clearance) < 0.5 then w / 2.0 else w;
      if KeepsHeading(s.heading, prevThrottle) then w1 * 4.0 else w1
  }

  /**
   * A sector keeps a positive weight exactly when it is open and its oracle weight
   * is positive; a blocked sector's weight is zero.
   */
  lemma AdjustedWeightPositive(s: Sector, f: Feasibility, prevThrottle: real, w: real)
    ensures AdjustedWeight(s, f, prevThrottle, w) > 0.0 <==> f.possible && w > 0.0
    ensures !f.possible ==> AdjustedWeight(s, f, prevThrottle, w) == 0.0
  {
  }

  /** An open sector with room that does not keep the heading keeps its oracle weight unchanged. */
  lemma AdjustedWeightPlain(s: Sector, f: Feasibility, prevThrottle: real, w: real)
    ensures f.possible && Abs(f.clearance) >= 0.5 && !KeepsHeading(s.heading, prevThrottle) ==>
      AdjustedWeight(s, f, prevThrottle, w) == w
  {
  }

  /** Of two open sectors with the same weight and clearance, the one keeping the heading gets four times as much. */
  lemma AdjustedWeightKeepsHeading(s: Sector, t: Sector, f: Feasibility, prevThrottle: real, w: real)
    requires f.possible
    requires KeepsHeading(s.heading, prevThrottle) && !KeepsHeading(t.heading, prevThrottle)
    ensures AdjustedWeight(s, f, prevThrottle, w) == 4.0 * AdjustedWeight(t, f, prevThrottle, w)
  {
  }

  /** An open sector with less than half a metre of room gets half the weight of a roomier one. */
  lemma AdjustedWeightCrowded(s: Sector, prevThrottle: real, w: real, near: real, far: real)
    requires Abs(near) < 0.5 <= Abs(far)
    ensures 2.0 * AdjustedWeight(s, Feasibility(true, near), prevThrottle, w) == AdjustedWeight(s, Feasibility(true, far), prevThrottle, w)
  {
  }

  /** The weight table after the adjustment loop. */
  function AdjustedWeights(can: map<Sector, Feasibility>, prevThrottle: real, weights: map<Sector, real>): (adj: map<Sector, real>)
    requires Complete(can) && Complete(weights)
    ensures Complete(adj)
  {
    SectorTableComplete();
    map s | s in SectorTable :: AdjustedWeight(s, can[s], prevThrottle, weights[s])
  }

  /** The adjustment loop over the `can_move` table, updating the weight table entry by entry. */
  method AdjustWeights(can: map<Sector, Feasibility>, prevThrottle: real, weights: map<Sector, real>) returns (adj: map<Sector, real>)
    requires Complete(can) && Complete(weights)
    ensures adj == AdjustedWeights(can, prevThrottle, weights)
  {
    SectorTableComplete();
    SectorTableDistinct();
    adj := weights;
    for i := 0 to |SectorTable|
      invariant adj.Keys == weights.Keys
      invariant forall k :: 0 <= k < i ==> adj[SectorTable[k]] == AdjustedWeight(SectorTable[k], can[SectorTable[k]], prevThrottle, weights[SectorTable[k]])
      invariant forall k :: i <= k < |SectorTable| ==> adj[SectorTable[k]] == weights[SectorTable[k]]
    {
      var s := SectorTable[i];
      var f := can[s];
      if !f.possible {
        adj := adj[s := 0.0];
        continue;
      }
      if Abs(f.clearance) < 0.5 {
        adj := adj[s := adj[s] / 2.0];
      }
      if KeepsHeading(s.heading, prevThrottle) {
        adj := adj[s := adj[s] * 4.0];
      }
    }
    forall s: Sector ensures adj[s] == AdjustedWeights(can, prevThrottle, weights)[s] {
      assert s in SectorTable;
      var k :| 0 <= k < |SectorTable| && SectorTable[k] == s;
    }
  }

  // Arg-max

  /** A sort key: compared on `primary` first, then on `secondary`. */
  datatype Rank = Rank(primary: real, secondary: real)

  predicate RankLess(a: Rank, b: Rank)
  {
    a.primary < b.primary || (a.primary == b.primary && a.secondary < b.secondary)
  }

  /**
   * `sorted(items, key=...)[-1]`: Python's sort is stable, so the item picked is
   * the last one among those with the greatest key.
   */
  function LastMax(ranks: seq<Rank>): (k: nat)
    requires |ranks| > 0
    ensures k < |ranks|
    ensures forall j :: 0 <= j < |ranks| ==> !RankLess(ranks[k], ranks[j])
    ensures forall j :: k < j < |ranks| ==> RankLess(ranks[j], ranks[k])
  {
    if |ranks| == 1 then 0
    else
      var init := ranks[..|ranks| - 1];
      var k := LastMax(init);
      assert forall j :: 0 <= j < |init| ==> init[j] == ranks[j];
      if RankLess(ranks[|ranks| - 1], ranks[k]) then k else |ranks| - 1
  }

  /** Only one position is both maximal and followed by strictly smaller keys. */
  lemma LastMaxUnique(ranks: seq<Rank>, k: nat)
    requires k < |ranks|
    requires forall j :: 0 <= j < |ranks| ==> !RankLess(ranks[k], ranks[j])
    requires forall j :: k < j < |ranks| ==> RankLess(ranks[j], ranks[k])
    ensures LastMax(ranks) == k
  {
  }

  /** The sectors of the table, in its order, whose adjusted weight is positive. */
  function Positive(adj: map<Sector, real>): (pool: seq<Sector>)
    requires Complete(adj)
    ensures forall s :: s in pool <==> adj[s] > 0.0
  {
    SectorTableComplete();
    Filter(SectorTable, (s: Sector) => s in adj && adj[s] > 0.0)
  }

  /** The positive sector with the greatest weight, the last in table order on a tie. */
  function Heaviest(adj: map<Sector, real>): (s: Sector)
    requires Complete(adj)
    requires Positive(adj) != []
    ensures adj[s] > 0.0
    ensures forall t :: adj[t] <= adj[s]
  {
    var pool := Positive(adj);
    var ranks := seq(|pool|, i requires 0 <= i < |pool| => Rank(adj[pool[i]], 0.0));
    var k := LastMax(ranks);
    assert forall t :: adj[t] > 0.0 ==> adj[t] <= adj[pool[k]] by {
      forall t | adj[t] > 0.0 ensures adj[t] <= adj[pool[k]] {
        var j :| 0 <= j < |pool| && pool[j] == t;
        assert !RankLess(ranks[k], ranks[j]);
      }
    }
    pool[k]
  }

  // Fallback

  /** The heading the fallback tries first: backward only after a full-throttle backward command. */
  function PreferredHeading(prevThrottle: real): (h: Heading)
    ensures h == Backward <==> prevThrottle == BackwardThrottle
  {
    if prevThrottle == BackwardThrottle then Backward else Forward
  }

  /** The open sectors, in table order. */
  function OpenSectors(can: map<Sector, Feasibility>): (pool: seq<Sector>)
    requires Complete(can)
    ensures forall s :: s in pool <==> can[s].possible
  {
    SectorTableComplete();
    Filter(SectorTable, (s: Sector) => s in can && can[s].possible)
  }

  /** The open sectors of heading `h`, in table order. */
  function OpenToward(can: map<Sector, Feasibility>, h: Heading): (pool: seq<Sector>)
    requires Complete(can)
    ensures forall s :: s in pool <==> can[s].possible && s.heading == h
  {
    SectorTableComplete();
    Filter(SectorTable, (s: Sector) => s in can && can[s].possible && s.heading == h)
  }

  /** The sectors the fallback chooses among: the open ones of the preferred heading, else all open ones. */
  function FallbackPool(can: map<Sector, Feasibility>, prevThrottle: real): seq<Sector>
    requires Complete(can)
  {
    var preferred := OpenToward(can, PreferredHeading(prevThrottle));
    if preferred != [] then preferred else OpenSectors(can)
  }

  /** The fallback's sort key: the most room, then the straightest steering. */
  function RoomRank(can: map<Sector, Feasibility>, s: Sector): Rank
    requires Complete(can)
  {
    Rank(can[s].clearance, -Abs(SteeringOf(s.steer)))
  }

  /** The fallback's pool is non-empty, holds only open sectors, and holds every open sector it may choose. */
  lemma FallbackPoolMembers(can: map<Sector, Feasibility>, prevThrottle: real)
    requires Complete(can)
    requires !AllBlocked(can)
    ensures FallbackPool(can, prevThrottle) != []
    ensures forall t :: t in FallbackPool(can, prevThrottle) ==> can[t].possible
    ensures var h := PreferredHeading(prevThrottle);
      if exists u :: can[u].possible && u.heading == h
      then forall t :: t in FallbackPool(can, prevThrottle) <==> can[t].possible && t.heading == h
      else forall t :: t in FallbackPool(can, prevThrottle) <==> can[t].possible
  {
    var h := PreferredHeading(prevThrottle);
    HeadIsMember(OpenToward(can, h));
    var u :| u in can && can[u].possible;
    assert u in OpenSectors(can);
  }

  /**
   * The member of `pool` with the most room and, on equal room, the straightest
   * steering (the last in pool order on a full tie).
   */
  function MostRoom(can: map<Sector, Feasibility>, pool: seq<Sector>): (s: Sector)
    requires Complete(can)
    requires pool != []
    ensures s in pool
    ensures forall t :: t in pool ==> !RankLess(RoomRank(can, s), RoomRank(can, t))
    ensures exists k ::
      && 0 <= k < |pool| && pool[k] == s
      && forall j :: k < j < |pool| ==> RankLess(RoomRank(can, pool[j]), RoomRank(can, s))
  {
    var ranks := seq(|pool|, i requires 0 <= i < |pool| => RoomRank(can, pool[i]));
    var k := LastMax(ranks);
    assert forall j :: 0 <= j < |pool| ==> ranks[j] == RoomRank(can, pool[j]);
    pool[k]
  }

  /** The fallback choice: the roomiest sector of the fallback's pool. */
  function Roomiest(can: map<Sector, Feasibility>, prevThrottle: real): (s: Sector)
    requires Complete(can)
    requires !AllBlocked(can)
    ensures s in FallbackPool(can, prevThrottle)
    ensures forall t :: t in FallbackPool(can, prevThrottle) ==> !RankLess(RoomRank(can, s), RoomRank(can, t))
    ensures var pool := FallbackPool(can, prevThrottle);
      exists k ::
        && 0 <= k < |pool| && pool[k] == s
        && forall j :: k < j < |pool| ==> RankLess(RoomRank(can, pool[j]), RoomRank(can, s))
  {
    FallbackPoolMembers(can, prevThrottle);
    MostRoom(can, FallbackPool(can, prevThrottle))
  }

  // The choice and the command

  /** The chosen sector: the heaviest positive one, or the fallback's when no weight is positive. */
  function ChooseSector(prevThrottle: real, can: map<Sector, Feasibility>, weights: map<Sector, real>): Sector
    requires Complete(can) && Complete(weights)
    requires !AllBlocked(can)
  {
    var adj := AdjustedWeights(can, prevThrottle, weights);
    if Positive(adj) != [] then Heaviest(adj) else Roomiest(can, prevThrottle)
  }

  /** The chosen sector is always one the scans found open. */
  lemma ChosenIsOpen(prevThrottle: real, can: map<Sector, Feasibility>, weights: map<Sector, real>)
    requires Complete(can) && Complete(weights)
    requires !AllBlocked(can)
    ensures can[ChooseSector(prevThrottle, can, weights)].possible
  {
    var adj := AdjustedWeights(can, prevThrottle, weights);
    if Positive(adj) != [] {
      var s := Heaviest(adj);
      AdjustedWeightPositive(s, can[s], prevThrottle, weights[s]);
    }
  }

  /** With some positive adjusted weight, the choice carries the greatest adjusted weight. */
  lemma ChosenIsHeaviest(prevThrottle: real, can: map<Sector, Feasibility>, weights: map<Sector, real>, t: Sector)
    requires Complete(can) && Complete(weights)
    requires !AllBlocked(can)
    requires can[t].possible && weights[t] > 0.0
    ensures var adj := AdjustedWeights(can, prevThrottle, weights);
      adj[t] <= adj[ChooseSector(prevThrottle, can, weights)]
  {
    var adj := AdjustedWeights(can, prevThrottle, weights);
    AdjustedWeightPositive(t, can[t], prevThrottle, weights[t]);
    assert t in Positive(adj);
  }

  /**
   * When no open sector has a positive grid weight (blocked ones may), the
   * fallback decides: the choice is open, of the preferred
   * heading whenever that heading has an open sector, and has the most room of
   * the open sectors of its heading, the straightest steering among those with as much.
   */
  lemma FallbackChoice(prevThrottle: real, can: map<Sector, Feasibility>, weights: map<Sector, real>, t: Sector)
    requires Complete(can) && Complete(weights)
    requires !AllBlocked(can)
    requires forall u :: can[u].possible ==> weights[u] <= 0.0
    ensures var s := ChooseSector(prevThrottle, can, weights);
      && can[s].possible
      && ((exists u :: can[u].possible && u.heading == PreferredHeading(prevThrottle)) ==> s.heading == PreferredHeading(prevThrottle))
      && (can[t].possible && t.heading == s.heading ==>
            && can[t].clearance <= can[s].clearance
            && (can[t].clearance == can[s].clearance ==> Abs(SteeringOf(s.steer)) <= Abs(SteeringOf(t.steer))))
  {
    var adj := AdjustedWeights(can, prevThrottle, weights);
    HeadIsMember(Positive(adj));
    forall u ensures adj[u] <= 0.0 {
      AdjustedWeightPositive(u, can[u], prevThrottle, weights[u]);
    }
    var s := Roomiest(can, prevThrottle);
    FallbackPoolMembers(can, prevThrottle);
    if can[t].possible && t.heading == s.heading {
      assert t in FallbackPool(can, prevThrottle);
    }
  }

  /**
   * The command for a chosen sector: its steering and the full throttle of its
   * heading, except that a reversal of the previous full-throttle command becomes a brake.
   */
  function SectorCommand(prevThrottle: real, s: Sector): (c: Command)
    ensures c.steering == SteeringOf(s.steer)
  {
    var throttle := ThrottleFor(s.heading);
    if prevThrottle == ForwardThrottle && throttle == BackwardThrottle then Command(SteeringOf(s.steer), ForwardBrake)
    else if prevThrottle == BackwardThrottle && throttle == ForwardThrottle then Command(SteeringOf(s.steer), BackwardBrake)
    else Command(SteeringOf(s.steer), throttle)
  }

  /** One of the two brake levels. */
  predicate IsBrakeThrottle(throttle: real)
  {
    throttle == ForwardBrake || throttle == BackwardBrake
  }

  /** `len(list(filter(...))) == 0` over the whole table: no sector is open. */
  predicate AllBlocked(can: map<Sector, Feasibility>)
    requires Complete(can)
  {
    forall s | s in can :: !can[s].possible
  }

  /** No sector of heading `h` is open. */
  predicate BlockedToward(can: map<Sector, Feasibility>, h: Heading)
    requires Complete(can)
  {
    forall s | s in can && s.heading == h :: !can[s].possible
  }

  /**
   * The part of `_get_next_move` after the scans: brake when the heading of the
   * previous full-throttle command is blocked, stop when everything is blocked,
   * otherwise drive toward the chosen sector.
   */
  function Select(prev: Command, can: map<Sector, Feasibility>, weights: map<Sector, real>): Command
    requires Complete(can) && Complete(weights)
  {
    if prev.throttle == ForwardThrottle && BlockedToward(can, Forward) then Command(prev.steering, ForwardBrake)
    else if prev.throttle == BackwardThrottle && BlockedToward(can, Backward) then Command(prev.steering, BackwardBrake)
    else if AllBlocked(can) then Stop
    else SectorCommand(prev.throttle, ChooseSector(prev.throttle, can, weights))
  }

  /** Driving at full throttle into a heading with no open sector brakes, keeping the previous steering. */
  lemma SelectBrakesWhenBlocked(prev: Command, can: map<Sector, Feasibility>, weights: map<Sector, real>)
    requires Complete(can) && Complete(weights)
    ensures prev.throttle == ForwardThrottle && BlockedToward(can, Forward) ==>
      Select(prev, can, weights) == Command(prev.steering, ForwardBrake)
    ensures prev.throttle == BackwardThrottle && BlockedToward(can, Backward) ==>
      Select(prev, can, weights) == Command(prev.steering, BackwardBrake)
  {
  }

  /**
   * When the heading of the previous full-throttle command is still open, a brake
   * is issued only in place of a reversal, toward an open sector of the other
   * heading and with that sector's steering.
   */
  lemma SelectBrakesOnlyToReverse(prev: Command, can: map<Sector, Feasibility>, weights: map<Sector, real>)
    requires Complete(can) && Complete(weights)
    requires (prev.throttle == ForwardThrottle && !BlockedToward(can, Forward))
      || (prev.throttle == BackwardThrottle && !BlockedToward(can, Backward))
    ensures var c := Select(prev, can, weights);
      IsBrakeThrottle(c.throttle) ==>
        exists s :: can[s].possible && ThrottleFor(s.heading) == -prev.throttle && SteeringOf(s.steer) == c.steering
  {
    var c := Select(prev, can, weights);
    var s := ChooseSector(prev.throttle, can, weights);
    assert c == SectorCommand(prev.throttle, s);
    ChosenIsOpen(prev.throttle, can, weights);
    SectorCommandThrottle(prev.throttle, s);
  }

  /** The throttle of a sector command, by the previous throttle. */
  lemma SectorCommandThrottle(prevThrottle: real, s: Sector)
    ensures var t := SectorCommand(prevThrottle, s).throttle;
      && (prevThrottle == ForwardThrottle ==> t == ForwardThrottle || t == ForwardBrake)
      && (prevThrottle == BackwardThrottle ==> t == BackwardThrottle || t == BackwardBrake)
      && (prevThrottle != ForwardThrottle && prevThrottle != BackwardThrottle ==> t == ThrottleFor(s.heading))
      && (IsBrakeThrottle(t) <==> ThrottleFor(s.heading) == -prevThrottle)
  {
  }

  /** The explorer stops exactly when every sector is blocked and it was not driving at full throttle. */
  lemma SelectStopsOnlyWhenBlocked(prev: Command, can: map<Sector, Feasibility>, weights: map<Sector, real>)
    requires Complete(can) && Complete(weights)
    ensures Select(prev, can, weights) == Stop <==>
      AllBlocked(can) && prev.throttle != ForwardThrottle && prev.throttle != BackwardThrottle
  {
  }

  /**
   * The throttle never flips between full forward and full backward in one
   * decision: after full forward comes full forward or the forward brake, after
   * full backward the backward throttle or brake, otherwise a full throttle or a stop.
   */
  lemma SelectThrottleTransitions(prev: Command, can: map<Sector, Feasibility>, weights: map<Sector, real>)
    requires Complete(can) && Complete(weights)
    ensures var t := Select(prev, can, weights).throttle;
      && (prev.throttle == ForwardThrottle ==> t == ForwardThrottle || t == ForwardBrake)
      && (prev.throttle == BackwardThrottle ==> t == BackwardThrottle || t == BackwardBrake)
      && (prev.throttle != ForwardThrottle && prev.throttle != BackwardThrottle ==>
            t == 0.0 || t == ForwardThrottle || t == BackwardThrottle)
  {
    if prev.throttle == ForwardThrottle && BlockedToward(can, Forward) {
    } else if prev.throttle == BackwardThrottle && BlockedToward(can, Backward) {
    } else if AllBlocked(can) {
    } else {
      SectorCommandThrottle(prev.throttle, ChooseSector(prev.throttle, can, weights));
    }
  }

  /** A full-throttle command drives into a sector that is open, with that sector's steering. */
  lemma SelectDrivesOpenSector(prev: Command, can: map<Sector, Feasibility>, weights: map<Sector, real>)
    requires Complete(can) && Complete(weights)
    ensures var c := Select(prev, can, weights);
      c.throttle == ForwardThrottle || c.throttle == BackwardThrottle ==>
        exists s :: can[s].possible && ThrottleFor(s.heading) == c.throttle && SteeringOf(s.steer) == c.steering
  {
    var c := Select(prev, can, weights);
    if c.throttle == ForwardThrottle || c.throttle == BackwardThrottle {
      var s := ChooseSector(prev.throttle, can, weights);
      ChosenIsOpen(prev.throttle, can, weights);
      assert can[s].possible && ThrottleFor(s.heading) == c.throttle && SteeringOf(s.steer) == c.steering;
    }
  }

  /** Every command the selector issues uses the fixed steering and throttle levels. */
  lemma SelectCanonical(prev: Command, can: map<Sector, Feasibility>, weights: map<Sector, real>)
    requires Complete(can) && Complete(weights)
    requires CanonicalSteering(prev.steering)
    ensures Canonical(Select(prev, can, weights))
  {
  }
}
