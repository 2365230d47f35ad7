/**
 * src/stats.py: the per-player movement update and the per-team
 * aggregation, together with the player record that the analysis loop
 * creates (src/main.py) and these functions update in place.
 */
module Stats {
  import opened Wrappers
  import opened Geometry
  import opened Settings

  /** One entry of `positions`: `(frame_idx, cx, cy)`. */
  datatype Sample = Sample(frame: int, pos: Point)

  /** The value of a player record at one moment. */
  datatype PlayerData = PlayerData(
    touches: nat,
    positions: seq<Sample>,
    distPixels: real,
    lastPos: Option<Point>,
    lastFrame: Option<int>,
    maxSpeedKmh: real,
    team: Option<nat>)

  /** A freshly created record: zero counters, no position, no team. */
  const NEW_PLAYER: PlayerData := PlayerData(0, [], 0.0, None, None, 0.0, None)

  /** The record invariant kept by every movement update. */
  ghost predicate Consistent(d: PlayerData)
  {
    && d.distPixels >= 0.0
    && d.maxSpeedKmh >= 0.0
    && (d.positions == [] <==> d.lastPos.None?)
    && (d.lastPos.None? <==> d.lastFrame.None?)
    && (d.positions != [] ==>
          d.lastPos == Some(d.positions[|d.positions| - 1].pos) &&
          d.lastFrame == Some(d.positions[|d.positions| - 1].frame))
  }

  /**
   * Whether the step from the previous sighting counts as continuous motion:
   * there is a previous sighting and it is less than `frame_skip * 5` frames
   * old. Otherwise the step is a "teleport" and accrues nothing.
   */
  predicate Continuous(d: PlayerData, frameIdx: int, cfg: Config)
  {
    d.lastPos.Some? && d.lastFrame.Some? && frameIdx - d.lastFrame.value < FrameSkip(cfg) * 5
  }

  /** The speed of a continuous step, in km/h (0 when no time passed). */
  function StepSpeed(d: PlayerData, center: Point, frameIdx: int, fps: real, cfg: Config, hypot: (real, real) -> real): real
    requires fps > 0.0
    requires d.lastPos.Some? && d.lastFrame.Some?
  {
    var dt := (frameIdx - d.lastFrame.value) as real / fps;
    SpeedKmh(PixelDistance(hypot, d.lastPos.value, center), dt, MovementPixelsToMeters(cfg))
  }

  /** `update_player_movement` on the value of a record. */
  function Moved(d: PlayerData, center: Point, frameIdx: int, fps: real, cfg: Config, hypot: (real, real) -> real): (r: PlayerData)
    requires fps > 0.0 && IsHypot(hypot)
    // the sighting is always recorded and becomes the last one
    ensures r.positions == d.positions + [Sample(frameIdx, center)]
    ensures r.lastPos == Some(center) && r.lastFrame == Some(frameIdx)
    // nothing else of the record changes
    ensures r.touches == d.touches && r.team == d.team
    // distance accrues only over a continuous step, by the distance travelled
    ensures Continuous(d, frameIdx, cfg) ==>
      r.distPixels == d.distPixels + PixelDistance(hypot, d.lastPos.value, center)
    ensures !Continuous(d, frameIdx, cfg) ==> r.distPixels == d.distPixels
    // the maximum speed only rises, and only to the speed of a timed continuous step
    ensures r.maxSpeedKmh >= d.maxSpeedKmh
    ensures r.maxSpeedKmh != d.maxSpeedKmh ==>
      Continuous(d, frameIdx, cfg) && frameIdx > d.lastFrame.value &&
      r.maxSpeedKmh == StepSpeed(d, center, frameIdx, fps, cfg, hypot) > d.maxSpeedKmh
    // and a timed continuous step always raises it to the step's speed when that is larger
    ensures Continuous(d, frameIdx, cfg) && frameIdx > d.lastFrame.value ==>
      r.maxSpeedKmh == (if StepSpeed(d, center, frameIdx, fps, cfg, hypot) > d.maxSpeedKmh
                        then StepSpeed(d, center, frameIdx, fps, cfg, hypot) else d.maxSpeedKmh)
    ensures Consistent(d) ==> Consistent(r)
  {
    var r0 := d.(positions := d.positions + [Sample(frameIdx, center)],
                 lastPos := Some(center), lastFrame := Some(frameIdx));
    if Continuous(d, frameIdx, cfg) then
      var dd := PixelDistance(hypot, d.lastPos.value, center);
      var dt := (frameIdx - d.lastFrame.value) as real / fps;
      var sp := StepSpeed(d, center, frameIdx, fps, cfg, hypot);
      r0.(distPixels := d.distPixels + dd,
          maxSpeedKmh := if dt > 0.0 && sp > d.maxSpeedKmh then sp else d.maxSpeedKmh)
    else
      r0
  }

  /** One sighting handed to the movement update: the frame and the box centre. */
  datatype Sighting = Sighting(frame: int, center: Point)

  /** Successive movement updates, oldest sighting first. */
  function MovedAll(d: PlayerData, obs: seq<Sighting>, fps: real, cfg: Config, hypot: (real, real) -> real): PlayerData
    requires fps > 0.0 && IsHypot(hypot)
    decreases |obs|
  {
    if obs == [] then d
    else
      var last := obs[|obs| - 1];
      Moved(MovedAll(d, obs[..|obs| - 1], fps, cfg, hypot), last.center, last.frame, fps, cfg, hypot)
  }

  function SamplesOf(obs: seq<Sighting>): seq<Sample>
  {
    seq(|obs|, i requires 0 <= i < |obs| => Sample(obs[i].frame, obs[i].center))
  }

  /**
   * Across any number of updates: every sighting is appended in order, the
   * distance and the maximum speed never decrease, touches and team are
   * untouched and the record invariant is kept.
   */
  lemma {:induction false} MovementAccumulates(d: PlayerData, obs: seq<Sighting>, fps: real, cfg: Config, hypot: (real, real) -> real)
    requires fps > 0.0 && IsHypot(hypot)
    ensures var r := MovedAll(d, obs, fps, cfg, hypot);
      && r.positions == d.positions + SamplesOf(obs)
      && r.distPixels >= d.distPixels
      && r.maxSpeedKmh >= d.maxSpeedKmh
      && r.touches == d.touches && r.team == d.team
      && (Consistent(d) ==> Consistent(r))
    decreases |obs|
  {
    if obs != [] {
      var prefix := obs[..|obs| - 1];
      MovementAccumulates(d, prefix, fps, cfg, hypot);
      assert SamplesOf(obs) == SamplesOf(prefix) + [Sample(obs[|obs| - 1].frame, obs[|obs| - 1].center)];
    }
  }

  /**
   * Reporting the same sighting twice in one frame records the position
   * twice but accrues no extra distance or speed: the second step has zero
   * length and zero duration.
   */
  lemma RepeatedSightingAddsNothing(d: PlayerData, center: Point, frameIdx: int, fps: real, cfg: Config, hypot: (real, real) -> real)
    requires fps > 0.0 && IsHypot(hypot)
    ensures var once := Moved(d, center, frameIdx, fps, cfg, hypot);
      var twice := Moved(once, center, frameIdx, fps, cfg, hypot);
      twice.distPixels == once.distPixels && twice.maxSpeedKmh == once.maxSpeedKmh &&
      twice.positions == once.positions + [Sample(frameIdx, center)]
  {
    DistanceZeroIffEqual(hypot, center, center);
  }

  /**
   * Teleport rejection: a sighting at least `frame_skip * 5` frames after the
   * previous one accrues no distance and no speed, yet still becomes the last
   * sighting.
   */
  lemma TeleportAccruesNothing(d: PlayerData, center: Point, frameIdx: int, fps: real, cfg: Config, hypot: (real, real) -> real)
    requires fps > 0.0 && IsHypot(hypot)
    requires d.lastFrame.Some? && frameIdx - d.lastFrame.value >= FrameSkip(cfg) * 5
    ensures var r := Moved(d, center, frameIdx, fps, cfg, hypot);
      r.distPixels == d.distPixels && r.maxSpeedKmh == d.maxSpeedKmh &&
      r.lastPos == Some(center) && r.lastFrame == Some(frameIdx)
  {
  }

  /** A player record, updated in place by the analysis loop. */
  class PlayerRecord {
    var touches: nat
    var positions: seq<Sample>
    var distPixels: real
    var lastPos: Option<Point>
    var lastFrame: Option<int>
    var maxSpeedKmh: real
    var team: Option<nat>

    /** The record created on a track's first sighting. */
    constructor ()
      ensures Data() == NEW_PLAYER
    {
      touches, positions, distPixels := 0, [], 0.0;
      lastPos, lastFrame, maxSpeedKmh, team := None, None, 0.0, None;
    }

    function Data(): PlayerData
      reads this
    {
      PlayerData(touches, positions, distPixels, lastPos, lastFrame, maxSpeedKmh, team)
    }

    /** `update_player_movement(player_data, player_obj, frame_idx, fps, cfg)`. */
    method UpdateMovement(center: Point, frameIdx: int, fps: real, cfg: Config, hypot: (real, real) -> real)
      requires fps > 0.0 && IsHypot(hypot)
      modifies this
      ensures Data() == Moved(old(Data()), center, frameIdx, fps, cfg, hypot)
    {
      ghost var before := Data();
      positions := positions + [Sample(frameIdx, center)];
      var frameSkip := FrameSkip(cfg);
      if lastPos.Some? && lastFrame.Some? {
        if frameIdx - lastFrame.value < frameSkip * 5 {
          var dd := PixelDistance(hypot, lastPos.value, center);
          distPixels := distPixels + dd;
          var dt := (frameIdx - lastFrame.value) as real / fps;
          if dt > 0.0 {
            var sp := SpeedKmh(dd, dt, MovementPixelsToMeters(cfg));
            assert sp == StepSpeed(before, center, frameIdx, fps, cfg, hypot);
            if sp > maxSpeedKmh {
              maxSpeedKmh := sp;
            }
          }
        }
      }
      lastPos := Some(center);
      lastFrame := Some(frameIdx);
    }
  }

  // ---------------------------------------------------------------------
  // Team aggregation
  // ---------------------------------------------------------------------

  /** One team's entry for a frame: `{'player_count', 'positions', 'compactness'}`. */
  datatype TeamStat = TeamStat(playerCount: nat, positions: seq<Point>, compactness: real)

  /** Sum of the distances from `p` to each point of `qs`. */
  function DistancesFrom(hypot: (real, real) -> real, p: Point, qs: seq<Point>): real
    decreases |qs|
  {
    if qs == [] then 0.0 else PixelDistance(hypot, p, qs[0]) + DistancesFrom(hypot, p, qs[1..])
  }

  /** Sum of the distances over all pairs `i < j`, the entries of `pdist`. */
  function PairwiseSum(hypot: (real, real) -> real, ps: seq<Point>): real
    decreases |ps|
  {
    if |ps| < 2 then 0.0 else DistancesFrom(hypot, ps[0], ps[1..]) + PairwiseSum(hypot, ps[1..])
  }

  /** The number of entries of `pdist` for `n` points. */
  function PairCount(n: nat): nat
  {
    n * (n - 1) / 2
  }

  lemma {:induction false} DistancesFromNonNegative(hypot: (real, real) -> real, p: Point, qs: seq<Point>)
    requires IsHypot(hypot)
    ensures DistancesFrom(hypot, p, qs) >= 0.0
    decreases |qs|
  {
    if qs != [] {
      DistanceNonNegative(hypot, p, qs[0]);
      DistancesFromNonNegative(hypot, p, qs[1..]);
    }
  }

  lemma {:induction false} PairwiseSumNonNegative(hypot: (real, real) -> real, ps: seq<Point>)
    requires IsHypot(hypot)
    ensures PairwiseSum(hypot, ps) >= 0.0
    decreases |ps|
  {
    if |ps| >= 2 {
      DistancesFromNonNegative(hypot, ps[0], ps[1..]);
      PairwiseSumNonNegative(hypot, ps[1..]);
    }
  }

  /** `calculate_team_compactness`: the mean pairwise distance, 0 below two points. */
  function Compactness(hypot: (real, real) -> real, ps: seq<Point>): real
  {
    if |ps| < 2 then 0.0 else PairwiseSum(hypot, ps) / (PairCount(|ps|) as real)
  }

  /**
   * Compactness is a mean over the `n(n-1)/2` pairs: zero below two points,
   * never negative, and for exactly two points their distance.
   */
  lemma CompactnessBounds(hypot: (real, real) -> real, ps: seq<Point>)
    requires IsHypot(hypot)
    ensures |ps| < 2 ==> Compactness(hypot, ps) == 0.0
    ensures Compactness(hypot, ps) >= 0.0
    ensures |ps| == 2 ==> Compactness(hypot, ps) == PixelDistance(hypot, ps[0], ps[1])
  {
    if |ps| >= 2 {
      PairwiseSumNonNegative(hypot, ps);
      assert PairCount(|ps|) > 0;
    }
    if |ps| == 2 {
      assert ps[1..][1..] == [];
      assert PairwiseSum(hypot, ps[1..]) == 0.0;
      assert DistancesFrom(hypot, ps[0], ps[1..]) == PixelDistance(hypot, ps[0], ps[1]);
      assert PairCount(2) == 1;
    }
  }

  /** Compactness converted from pixels to metres. */
  function MetricCompactness(hypot: (real, real) -> real, ps: seq<Point>, pixelsToMeters: real): real
  {
    Compactness(hypot, ps) * pixelsToMeters
  }

  /** The labels of `team_assignments` that are not None. */
  function TeamLabels(assign: map<int, Option<nat>>): set<nat>
  {
    set pid | pid in assign && assign[pid].Some? :: assign[pid].value
  }

  /** The last positions of the records on team `t` that have one, in record order. */
  function TeamPositions(recs: seq<PlayerData>, t: nat): seq<Point>
    decreases |recs|
  {
    if recs == [] then []
    else
      var d := recs[|recs| - 1];
      var rest := TeamPositions(recs[..|recs| - 1], t);
      if d.team == Some(t) && d.lastPos.Some? then rest + [d.lastPos.value] else rest
  }

  /** A team's position list holds exactly the last positions of its located members. */
  lemma {:induction false} TeamPositionsMembers(recs: seq<PlayerData>, t: nat, p: Point)
    ensures p in TeamPositions(recs, t) <==>
      exists i :: 0 <= i < |recs| && recs[i].team == Some(t) && recs[i].lastPos == Some(p)
    decreases |recs|
  {
    if recs != [] {
      var n := |recs| - 1;
      TeamPositionsMembers(recs[..n], t, p);
      if exists i :: 0 <= i < |recs| && recs[i].team == Some(t) && recs[i].lastPos == Some(p) {
        var i :| 0 <= i < |recs| && recs[i].team == Some(t) && recs[i].lastPos == Some(p);
        if i < n {
          assert recs[..n][i] == recs[i];
        }
      }
      if exists i :: 0 <= i < n && recs[..n][i].team == Some(t) && recs[..n][i].lastPos == Some(p) {
        var i :| 0 <= i < n && recs[..n][i].team == Some(t) && recs[..n][i].lastPos == Some(p);
        assert recs[i] == recs[..n][i];
      }
    }
  }

  /** The positions in `recs` of the records on team `t` that have a last position. */
  function LocatedMembers(recs: seq<PlayerData>, t: nat): set<int>
  {
    set i | 0 <= i < |recs| && recs[i].team == Some(t) && recs[i].lastPos.Some?
  }

  /** A team's position list has one entry per located member. */
  lemma {:induction false} TeamPositionsCount(recs: seq<PlayerData>, t: nat)
    ensures |TeamPositions(recs, t)| == |LocatedMembers(recs, t)|
    decreases |recs|
  {
    if recs == [] {
      assert LocatedMembers(recs, t) == {};
    } else {
      var n := |recs| - 1;
      TeamPositionsCount(recs[..n], t);
      var d := recs[n];
      if d.team == Some(t) && d.lastPos.Some? {
        assert LocatedMembers(recs, t) == LocatedMembers(recs[..n], t) + {n};
        assert n !in LocatedMembers(recs[..n], t);
      } else {
        assert LocatedMembers(recs, t) == LocatedMembers(recs[..n], t);
      }
    }
  }

  /** `calculate_team_stats` raises when a team needs scaling and `pixels_to_meters` is absent. */
  predicate ScalingMissing(recs: seq<PlayerData>, assign: map<int, Option<nat>>, pixelsToMeters: Option<real>)
  {
    pixelsToMeters.None? && exists t :: t in TeamLabels(assign) && |TeamPositions(recs, t)| > 1
  }

  /** One team's statistics. */
  function TeamStatFor(hypot: (real, real) -> real, recs: seq<PlayerData>, t: nat, pixelsToMeters: Option<real>): TeamStat
    requires pixelsToMeters.Some? || |TeamPositions(recs, t)| <= 1
  {
    var ps := TeamPositions(recs, t);
    TeamStat(|ps|, ps, if |ps| > 1 then MetricCompactness(hypot, ps, pixelsToMeters.value) else 0.0)
  }

  /** What `calculate_team_stats` returns, or None where it raises. */
  function TeamStatsOf(hypot: (real, real) -> real, recs: seq<PlayerData>, assign: map<int, Option<nat>>, pixelsToMeters: Option<real>)
    : Option<map<nat, TeamStat>>
  {
    if ScalingMissing(recs, assign, pixelsToMeters) then None
    else Some(map t | t in TeamLabels(assign) :: TeamStatFor(hypot, recs, t, pixelsToMeters))
  }

  /**
   * One team's entry: the last positions of its located members, as many as
   * there are such members, and a compactness that is zero unless more than
   * one member is located.
   */
  lemma TeamStatForMeaning(hypot: (real, real) -> real, recs: seq<PlayerData>, t: nat, pixelsToMeters: Option<real>)
    requires IsHypot(hypot)
    requires pixelsToMeters.Some? || |TeamPositions(recs, t)| <= 1
    ensures var st := TeamStatFor(hypot, recs, t, pixelsToMeters);
      && st.positions == TeamPositions(recs, t)
      && st.playerCount == |st.positions| == |LocatedMembers(recs, t)|
      && (forall p :: p in st.positions <==>
            exists i :: 0 <= i < |recs| && recs[i].team == Some(t) && recs[i].lastPos == Some(p))
      && (st.compactness != 0.0 ==> st.playerCount > 1)
      && (pixelsToMeters.Some? && pixelsToMeters.value >= 0.0 ==> st.compactness >= 0.0)
  {
    var ps := TeamPositions(recs, t);
    TeamPositionsCount(recs, t);
    CompactnessBounds(hypot, ps);
    forall p ensures p in ps <==>
      exists i :: 0 <= i < |recs| && recs[i].team == Some(t) && recs[i].lastPos == Some(p)
    {
      TeamPositionsMembers(recs, t, p);
    }
  }

  /**
   * The meaning of the per-team statistics: one entry per label, each
   * counting and locating the team's members that have a last position, and
   * a compactness that is zero unless more than one member is located.
   */
  lemma TeamStatsMeaning(hypot: (real, real) -> real, recs: seq<PlayerData>, assign: map<int, Option<nat>>, pixelsToMeters: Option<real>, t: nat)
    requires IsHypot(hypot)
    requires TeamStatsOf(hypot, recs, assign, pixelsToMeters).Some?
    ensures var stats := TeamStatsOf(hypot, recs, assign, pixelsToMeters).value;
      && (t in stats <==> exists pid :: pid in assign && assign[pid] == Some(t))
      && (t in stats ==>
            && stats[t].positions == TeamPositions(recs, t)
            && stats[t].playerCount == |stats[t].positions| == |LocatedMembers(recs, t)|
            && (forall p :: p in stats[t].positions <==>
                  exists i :: 0 <= i < |recs| && recs[i].team == Some(t) && recs[i].lastPos == Some(p))
            && (stats[t].compactness != 0.0 ==> stats[t].playerCount > 1)
            && (pixelsToMeters.Some? && pixelsToMeters.value >= 0.0 ==> stats[t].compactness >= 0.0))
  {
    var stats := TeamStatsOf(hypot, recs, assign, pixelsToMeters).value;
    if t in stats {
      assert stats[t] == TeamStatFor(hypot, recs, t, pixelsToMeters);
      TeamStatForMeaning(hypot, recs, t, pixelsToMeters);
    }
    if exists pid :: pid in assign && assign[pid] == Some(t) {
      var pid :| pid in assign && assign[pid] == Some(t);
      assert t in TeamLabels(assign);
    }
  }

  /** The statistics after the counting pass, before compactness is filled in. */
  function Gathered(recs: seq<PlayerData>, labels: set<nat>): map<nat, TeamStat>
  {
    map t | t in labels :: TeamStat(|TeamPositions(recs, t)|, TeamPositions(recs, t), 0.0)
  }

  /** The first two passes of `calculate_team_stats`: empty entries per label, then one pass over the records. */
  method GatherTeams(recs: seq<PlayerData>, labels: set<nat>) returns (stats: map<nat, TeamStat>)
    ensures stats == Gathered(recs, labels)
  {
    stats := map[];
    var todo := labels;
    while todo != {}
      invariant todo <= labels
      invariant stats.Keys == labels - todo
      invariant forall t :: t in stats ==> stats[t] == TeamStat(0, [], 0.0)
      decreases todo
    {
      var t :| t in todo;
      stats := stats[t := TeamStat(0, [], 0.0)];
      todo := todo - {t};
    }
    for i := 0 to |recs|
      invariant stats == Gathered(recs[..i], labels)
    {
      assert recs[..i + 1][..i] == recs[..i];
      var d := recs[i];
      if d.team.Some? && d.team.value in stats && d.lastPos.Some? {
        var s := stats[d.team.value];
        stats := stats[d.team.value := s.(playerCount := s.playerCount + 1, positions := s.positions + [d.lastPos.value])];
      }
    }
    assert recs[..|recs|] == recs;
  }

  /** The last pass of `calculate_team_stats`: compactness for every team with more than one located member. */
  method ScaleTeams(hypot: (real, real) -> real, recs: seq<PlayerData>, labels: set<nat>, pixelsToMeters: Option<real>)
    returns (stats: map<nat, TeamStat>, missing: bool)
    ensures missing <==> pixelsToMeters.None? && exists t :: t in labels && |TeamPositions(recs, t)| > 1
    ensures !missing ==> stats == map t | t in labels :: TeamStatFor(hypot, recs, t, pixelsToMeters)
  {
    stats := GatherTeams(recs, labels);
    var todo := labels;
    while todo != {}
      invariant todo <= labels
      invariant stats.Keys == labels
      invariant forall t :: t in labels - todo ==>
        (pixelsToMeters.Some? || |TeamPositions(recs, t)| <= 1) &&
        stats[t] == TeamStatFor(hypot, recs, t, pixelsToMeters)
      invariant forall t :: t in todo ==>
        stats[t] == TeamStat(|TeamPositions(recs, t)|, TeamPositions(recs, t), 0.0)
      decreases todo
    {
      var t :| t in todo;
      var s := stats[t];
      if s.playerCount > 1 {
        if pixelsToMeters.None? {
          assert t in labels && |TeamPositions(recs, t)| > 1;
          return stats, true;
        }
        stats := stats[t := s.(compactness := MetricCompactness(hypot, s.positions, pixelsToMeters.value))];
      }
      todo := todo - {t};
    }
    missing := false;
  }

  /** `calculate_team_stats(players, team_assignments, pixels_to_meters)`, over the records in dictionary order. */
  method CalculateTeamStats(hypot: (real, real) -> real, recs: seq<PlayerData>, assign: map<int, Option<nat>>, pixelsToMeters: Option<real>)
    returns (r: Option<map<nat, TeamStat>>)
    ensures r == TeamStatsOf(hypot, recs, assign, pixelsToMeters)
  {
    var stats, missing := ScaleTeams(hypot, recs, TeamLabels(assign), pixelsToMeters);
    if missing {
      return None;
    }
    r := Some(stats);
  }
}
