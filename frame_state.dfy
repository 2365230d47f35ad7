/**
 * src/main.py, `run_analysis` lines 130-196 and 218: the state the frame
 * loop keeps, and what one processed frame does to it, as values. The
 * analysis object in analysis.dfy is proved to follow these functions.
 *
 * One frame runs through these stages, in order:
 *  - sampling: only every `frame_skip`-th frame is processed;
 *  - new tracks get a fresh record;
 *  - before teams are known, box centres are collected per track;
 *  - teams are identified once, after `frame_skip * team_clustering_sample_frames` frames;
 *  - every known track's record is moved;
 *  - team statistics are appended to the history once teams are known;
 *  - the ball owner earns a touch, and its team the frame's possession time.
 * The event call at line 195 passes one argument too few and always raises;
 * the frame ends there, so nothing after possession accounting happens.
 */
module FrameState {
  import opened Wrappers
  import opened Geometry
  import opened Settings
  import opened Tracker
  import opened Stats

  /** A cluster label produced by two-cluster KMeans. */
  type ClusterIndex = i: nat | i < 2

  /** The fixed inputs of a run: configuration, frame rate, the distance function and the clustering. */
  datatype Params = Params(cfg: Config, fps: real, hypot: (real, real) -> real, kmeans: seq<Point> -> seq<ClusterIndex>)

  /** A positive frame rate, a Euclidean `hypot` and a clustering that labels every sample. */
  ghost predicate ValidParams(p: Params)
  {
    p.fps > 0.0 && IsHypot(p.hypot) && forall ps :: |p.kmeans(ps)| == |ps|
  }

  datatype State = State(
    players: map<int, PlayerData>,
    order: seq<int>,                          // insertion order of `players`
    initialPositions: map<int, seq<Point>>,
    initialOrder: seq<int>,                   // insertion order of `initialPositions`
    teamsIdentified: bool,
    teamAssignments: map<int, Option<nat>>,
    possession: map<nat, real>,               // `team_possession_seconds`
    teamStatsHistory: seq<map<nat, TeamStat>>,
    lastFrameIdx: int)

  /** The state before the first frame. */
  const START: State := State(map[], [], map[], [], false, map[], map[], [], 0)

  predicate NoDup(xs: seq<int>)
  {
    forall i, j :: 0 <= i < j < |xs| ==> xs[i] != xs[j]
  }

  // ---------------------------------------------------------------------
  // New tracks (lines 152-155)
  // ---------------------------------------------------------------------

  /** The truthy ids of `persons` not in `known`, each once, in order of first appearance. */
  function Appended(known: set<int>, persons: seq<Detection>): (a: seq<int>)
    ensures NoDup(a)
    ensures forall k :: 0 <= k < |a| ==> a[k] !in known && a[k] != 0
    decreases |persons|
  {
    if persons == [] then []
    else
      var rest := Appended(known, persons[..|persons| - 1]);
      var id := persons[|persons| - 1].id;
      if Truthy(id) && id.value !in known && id.value !in rest then rest + [id.value] else rest
  }

  /** An id is appended exactly when it is truthy, unknown, and some detection carries it. */
  lemma {:induction false} AppendedMembers(known: set<int>, persons: seq<Detection>, pid: int)
    ensures pid in Appended(known, persons) <==>
      pid != 0 && pid !in known && exists i :: 0 <= i < |persons| && persons[i].id == Some(pid)
    decreases |persons|
  {
    if persons != [] {
      var n := |persons| - 1;
      AppendedMembers(known, persons[..n], pid);
      if exists i :: 0 <= i < |persons| && persons[i].id == Some(pid) {
        var i :| 0 <= i < |persons| && persons[i].id == Some(pid);
        if i < n {
          assert persons[..n][i] == persons[i];
        }
      }
      if exists i :: 0 <= i < n && persons[..n][i].id == Some(pid) {
        var i :| 0 <= i < n && persons[..n][i].id == Some(pid);
        assert persons[i] == persons[..n][i];
      }
    }
  }

  /** The record map with a fresh record for each id of `ids`. */
  function WithNewRecords(players: map<int, PlayerData>, ids: seq<int>): map<int, PlayerData>
  {
    map pid | pid in players.Keys + (set k | k in ids) :: if pid in players then players[pid] else NEW_PLAYER
  }

  /** Lines 152-155: a fresh record for each new truthy id, in detection order. */
  function AddPlayers(s: State, persons: seq<Detection>): State
  {
    var ids := Appended(s.players.Keys, persons);
    s.(players := WithNewRecords(s.players, ids), order := s.order + ids)
  }

  // ---------------------------------------------------------------------
  // Position samples for team identification (lines 158-161)
  // ---------------------------------------------------------------------

  /** `initial_player_positions.setdefault(pid, []).append(box_center(p['box']))` for every truthy id. */
  function CollectSamples(s: State, persons: seq<Detection>): State
    decreases |persons|
  {
    if persons == [] then s
    else
      var t := CollectSamples(s, persons[..|persons| - 1]);
      var p := persons[|persons| - 1];
      if Truthy(p.id) then
        var pid := p.id.value;
        var c := BoxCenter(p.box);
        if pid in t.initialPositions then
          t.(initialPositions := t.initialPositions[pid := t.initialPositions[pid] + [c]])
        else
          t.(initialPositions := t.initialPositions[pid := [c]], initialOrder := t.initialOrder + [pid])
      else t
  }

  /** Collection adds the same ids, in the same order, as record creation does from the same known set. */
  lemma {:induction false} CollectSamplesKeys(s: State, persons: seq<Detection>)
    ensures var t := CollectSamples(s, persons);
      && t.initialOrder == s.initialOrder + Appended(s.initialPositions.Keys, persons)
      && t.initialPositions.Keys == s.initialPositions.Keys + (set k | k in Appended(s.initialPositions.Keys, persons))
    decreases |persons|
  {
    if persons != [] {
      var n := |persons| - 1;
      CollectSamplesKeys(s, persons[..n]);
      var t := CollectSamples(s, persons[..n]);
      var p := persons[n];
      if Truthy(p.id) && p.id.value !in t.initialPositions {
        AppendedMembers(s.initialPositions.Keys, persons[..n], p.id.value);
      }
      if Truthy(p.id) && p.id.value in t.initialPositions && p.id.value !in s.initialPositions {
        assert p.id.value in Appended(s.initialPositions.Keys, persons[..n]);
      }
    }
  }

  /** Collection touches only the samples, extends every existing list, and leaves no new list empty. */
  lemma {:induction false} CollectSamplesFrame(s: State, persons: seq<Detection>)
    ensures var t := CollectSamples(s, persons);
      && t == s.(initialPositions := t.initialPositions, initialOrder := t.initialOrder)
      && s.initialPositions.Keys <= t.initialPositions.Keys
      && (forall pid :: pid in s.initialPositions ==> s.initialPositions[pid] <= t.initialPositions[pid])
      && (forall pid :: pid in t.initialPositions ==> t.initialPositions[pid] != [] || (pid in s.initialPositions && s.initialPositions[pid] == []))
    decreases |persons|
  {
    if persons != [] {
      CollectSamplesFrame(s, persons[..|persons| - 1]);
    }
  }

  /** Both facts about collection together. */
  lemma CollectSamplesOrder(s: State, persons: seq<Detection>)
    ensures var t := CollectSamples(s, persons);
      && t.initialOrder == s.initialOrder + Appended(s.initialPositions.Keys, persons)
      && t.initialPositions.Keys == s.initialPositions.Keys + (set k | k in Appended(s.initialPositions.Keys, persons))
      && t == s.(initialPositions := t.initialPositions, initialOrder := t.initialOrder)
      && (forall pid :: pid in s.initialPositions ==> s.initialPositions[pid] <= t.initialPositions[pid])
      && (forall pid :: pid in t.initialPositions ==> t.initialPositions[pid] != [] || (pid in s.initialPositions && s.initialPositions[pid] == []))
  {
    CollectSamplesKeys(s, persons);
    CollectSamplesFrame(s, persons);
  }

  // ---------------------------------------------------------------------
  // Team identification (lines 13-26 and 163-170)
  // ---------------------------------------------------------------------

  function SumX(ps: seq<Point>): real
    decreases |ps|
  {
    if ps == [] then 0.0 else SumX(ps[..|ps| - 1]) + ps[|ps| - 1].x
  }

  function SumY(ps: seq<Point>): real
    decreases |ps|
  {
    if ps == [] then 0.0 else SumY(ps[..|ps| - 1]) + ps[|ps| - 1].y
  }

  /** `np.mean(pos, axis=0)`: the centroid of a track's samples. */
  function MeanPoint(ps: seq<Point>): Point
    requires ps != []
  {
    Point(SumX(ps) / (|ps| as real), SumY(ps) / (|ps| as real))
  }

  /** Every listed id has at least one sample. */
  predicate SamplesReady(initialPositions: map<int, seq<Point>>, ids: seq<int>)
  {
    forall k :: 0 <= k < |ids| ==> ids[k] in initialPositions && initialPositions[ids[k]] != []
  }

  /** The centroids handed to KMeans, in the order of `ids`. */
  function Means(initialPositions: map<int, seq<Point>>, ids: seq<int>): (ms: seq<Point>)
    requires SamplesReady(initialPositions, ids)
    ensures |ms| == |ids|
  {
    seq(|ids|, k requires 0 <= k < |ids| && SamplesReady(initialPositions, ids) => MeanPoint(initialPositions[ids[k]]))
  }

  /** Degenerate case (lines 14-17): the `i`-th player in dictionary order gets label `i`. */
  function LabelByIndex(players: map<int, PlayerData>, order: seq<int>): (r: map<int, PlayerData>)
    ensures r.Keys == players.Keys
    decreases |order|
  {
    if order == [] then players
    else
      var n := |order| - 1;
      var m := LabelByIndex(players, order[..n]);
      if order[n] in m then m[order[n] := m[order[n]].(team := Some(n))] else m
  }

  /** Clustering case (lines 23-25): the `i`-th sampled id, if it is a player, gets the `i`-th cluster label. */
  function LabelByCluster(players: map<int, PlayerData>, ids: seq<int>, labels: seq<ClusterIndex>): (r: map<int, PlayerData>)
    requires |labels| == |ids|
    ensures r.Keys == players.Keys
    decreases |ids|
  {
    if ids == [] then players
    else
      var n := |ids| - 1;
      var m := LabelByCluster(players, ids[..n], labels[..n]);
      if ids[n] in m then m[ids[n] := m[ids[n]].(team := Some(labels[n] as nat))] else m
  }

  /** `assign_teams_by_clustering(players, initial_player_positions)`. */
  function AssignTeams(s: State, p: Params): map<int, PlayerData>
    requires ValidParams(p)
    requires SamplesReady(s.initialPositions, s.initialOrder)
  {
    if |s.initialPositions| < 2 then LabelByIndex(s.players, s.order)
    else
      var ms := Means(s.initialPositions, s.initialOrder);
      LabelByCluster(s.players, s.initialOrder, p.kmeans(ms))
  }

  /** The team of every record, `{pid: pdata.get('team') for ...}`. */
  function TeamsOf(players: map<int, PlayerData>): map<int, Option<nat>>
  {
    map pid | pid in players :: players[pid].team
  }

  /** Lines 165-170: label the players, snapshot the labels, zero the possession of every label. */
  function Identify(s: State, p: Params): State
    requires ValidParams(p)
    requires SamplesReady(s.initialPositions, s.initialOrder)
  {
    var players := AssignTeams(s, p);
    var assign := TeamsOf(players);
    s.(players := players, teamAssignments := assign, teamsIdentified := true,
       possession := map t | t in TeamLabels(assign) :: 0.0)
  }

  // ---------------------------------------------------------------------
  // Movement (lines 174-178)
  // ---------------------------------------------------------------------

  /** `update_player_movement` for every detection whose truthy id has a record, in detection order. */
  function MoveAll(players: map<int, PlayerData>, persons: seq<Detection>, frameIdx: int, p: Params): (r: map<int, PlayerData>)
    requires ValidParams(p)
    ensures r.Keys == players.Keys
    decreases |persons|
  {
    if persons == [] then players
    else
      var m := MoveAll(players, persons[..|persons| - 1], frameIdx, p);
      var q := persons[|persons| - 1];
      if Truthy(q.id) && q.id.value in m then
        m[q.id.value := Moved(m[q.id.value], BoxCenter(q.box), frameIdx, p.fps, p.cfg, p.hypot)]
      else m
  }

  // ---------------------------------------------------------------------
  // Team statistics (lines 180-183)
  // ---------------------------------------------------------------------

  /** The records in dictionary order. */
  function Recs(players: map<int, PlayerData>, order: seq<int>): seq<PlayerData>
    decreases |order|
  {
    if order == [] then []
    else
      var rest := Recs(players, order[..|order| - 1]);
      var pid := order[|order| - 1];
      if pid in players then rest + [players[pid]] else rest
  }

  /** When every id of `order` has a record, the list holds exactly those records, position by position. */
  lemma {:induction false} RecsIndexed(players: map<int, PlayerData>, order: seq<int>)
    requires forall k :: 0 <= k < |order| ==> order[k] in players
    ensures |Recs(players, order)| == |order|
    ensures forall k :: 0 <= k < |order| ==> Recs(players, order)[k] == players[order[k]]
    decreases |order|
  {
    if order != [] {
      var n := |order| - 1;
      RecsIndexed(players, order[..n]);
    }
  }

  // ---------------------------------------------------------------------
  // Ball owner (lines 28-38 and 185-193)
  // ---------------------------------------------------------------------

  /** The distance from a person's box centre to the ball centre. */
  function DistToBall(hypot: (real, real) -> real, ballCenter: Point, q: Detection): real
  {
    PixelDistance(hypot, BoxCenter(q.box), ballCenter)
  }

  /** The index of the person `find_ball_owner` settles on: a later person replaces the current one only if strictly nearer. */
  function Nearest(hypot: (real, real) -> real, ballCenter: Point, persons: seq<Detection>): (i: nat)
    requires persons != []
    ensures i < |persons|
    decreases |persons|
  {
    if |persons| == 1 then 0
    else
      var n := |persons| - 1;
      var best := Nearest(hypot, ballCenter, persons[..n]);
      if DistToBall(hypot, ballCenter, persons[n]) < DistToBall(hypot, ballCenter, persons[best]) then n else best
  }

  /** The owner is a person at minimal distance from the ball, and the first such person. */
  lemma {:induction false} NearestIsFirstMinimum(hypot: (real, real) -> real, ballCenter: Point, persons: seq<Detection>)
    requires persons != []
    ensures var i := Nearest(hypot, ballCenter, persons);
      && (forall j :: 0 <= j < |persons| ==>
            DistToBall(hypot, ballCenter, persons[i]) <= DistToBall(hypot, ballCenter, persons[j]))
      && (forall j :: 0 <= j < i ==>
            DistToBall(hypot, ballCenter, persons[j]) > DistToBall(hypot, ballCenter, persons[i]))
    decreases |persons|
  {
    if |persons| > 1 {
      var n := |persons| - 1;
      NearestIsFirstMinimum(hypot, ballCenter, persons[..n]);
      var best := Nearest(hypot, ballCenter, persons[..n]);
      assert persons[..n][best] == persons[best];
      forall j | 0 <= j < n ensures persons[..n][j] == persons[j] { }
    }
  }

  /** `find_ball_owner(ball, persons)`. */
  function BallOwner(hypot: (real, real) -> real, ball: Option<Detection>, persons: seq<Detection>): (owner: Option<Detection>)
    ensures owner.None? <==> ball.None? || persons == []
    ensures owner.Some? ==> owner.value in persons
  {
    if ball.None? || persons == [] then None
    else Some(persons[Nearest(hypot, BoxCenter(ball.value.box), persons)])
  }

  /** Lines 185-187: the owner's track id, with the first ball as the ball. */
  function OwnerId(hypot: (real, real) -> real, persons: seq<Detection>, balls: seq<Detection>): Option<int>
  {
    var ball := if balls == [] then None else Some(balls[0]);
    match BallOwner(hypot, ball, persons)
    case None => None
    case Some(o) => o.id
  }

  /** Lines 189-193: the owner earns a touch and its team the frame's time, once teams are known. */
  function Credit(s: State, ownerId: Option<int>, p: Params): State
    requires p.fps > 0.0
  {
    if s.teamsIdentified && Truthy(ownerId) && ownerId.value in s.players then
      var d := s.players[ownerId.value];
      var s1 := s.(players := s.players[ownerId.value := d.(touches := d.touches + 1)]);
      if d.team.Some? && d.team.value in s.possession then
        s1.(possession := s.possession[d.team.value := s.possession[d.team.value] + FrameSkip(p.cfg) as real / p.fps])
      else s1
    else s
  }

  // ---------------------------------------------------------------------
  // One frame
  // ---------------------------------------------------------------------

  /**
   * Whether frame `frameIdx` gets past the sampling test at line 146. A zero
   * `frame_skip` never reaches the loop (line 124 divides by it first); the
   * test on it only keeps the predicate defined for every configuration.
   */
  predicate Processed(frameIdx: nat, cfg: Config)
  {
    FrameSkip(cfg) != 0 && frameIdx % FrameSkip(cfg) == 0
  }

  /** Lines 158-161: samples are collected only while teams are unknown. */
  function CollectStage(s: State, persons: seq<Detection>): (r: State)
    ensures SamplesReady(s.initialPositions, s.initialOrder) ==> SamplesReady(r.initialPositions, r.initialOrder)
  {
    if s.teamsIdentified then s
    else
      CollectSamplesReady(s, persons);
      CollectSamples(s, persons)
  }

  /** Lines 163-170: identification on the first processed frame past the sampling window. */
  function IdentifyIfDue(s: State, frameIdx: nat, p: Params): State
    requires ValidParams(p)
    requires SamplesReady(s.initialPositions, s.initialOrder)
  {
    if !s.teamsIdentified && frameIdx > FramesToSample(p.cfg) then Identify(s, p) else s
  }

  /** Lines 174-178: every detected player moves. */
  function MoveStage(s: State, persons: seq<Detection>, frameIdx: int, p: Params): State
    requires ValidParams(p)
  {
    s.(players := MoveAll(s.players, persons, frameIdx, p))
  }

  /** Lines 180-183: the statistics join the history once teams are known; None where they raise. */
  function RecordStats(s: State, p: Params): Option<State>
  {
    if !s.teamsIdentified then Some(s)
    else
      match TeamStatsOf(p.hypot, Recs(s.players, s.order), s.teamAssignments, p.cfg.pixelsToMeters)
      case None => None
      case Some(stats) => Some(s.(teamStatsHistory := s.teamStatsHistory + [stats]))
  }

  /** Lines 174-193: move, record statistics, credit the owner; the frame ends early if the statistics raise. */
  function Finish(s: State, frameIdx: nat, persons: seq<Detection>, balls: seq<Detection>, p: Params): State
    requires ValidParams(p)
  {
    var moved := MoveStage(s, persons, frameIdx, p);
    match RecordStats(moved, p)
    case None => moved
    case Some(h) => Credit(h, OwnerId(p.hypot, persons, balls), p)
  }

  /** The stages of a processed frame before movement, lines 147-170. */
  function Prepare(s: State, frameIdx: nat, persons: seq<Detection>, p: Params): State
    requires ValidParams(p)
    requires SamplesReady(s.initialPositions, s.initialOrder)
  {
    IdentifyIfDue(CollectStage(AddPlayers(s.(lastFrameIdx := frameIdx), persons), persons), frameIdx, p)
  }

  /** What the tracker reports for one video frame: the routed persons and balls. */
  datatype FrameInput = FrameInput(persons: seq<Detection>, balls: seq<Detection>)

  /** One iteration of the frame loop, lines 146-193. */
  function Step(s: State, frameIdx: nat, persons: seq<Detection>, balls: seq<Detection>, p: Params): State
    requires ValidParams(p)
    requires SamplesReady(s.initialPositions, s.initialOrder)
  {
    if !Processed(frameIdx, p.cfg) then s
    else Finish(Prepare(s, frameIdx, persons, p), frameIdx, persons, balls, p)
  }

  /** Collection keeps every listed id sampled. */
  lemma CollectSamplesReady(s: State, persons: seq<Detection>)
    ensures SamplesReady(s.initialPositions, s.initialOrder) ==>
      SamplesReady(CollectSamples(s, persons).initialPositions, CollectSamples(s, persons).initialOrder)
  {
    CollectSamplesOrder(s, persons);
    var t := CollectSamples(s, persons);
    var a := Appended(s.initialPositions.Keys, persons);
    if SamplesReady(s.initialPositions, s.initialOrder) {
      forall k | 0 <= k < |t.initialOrder|
        ensures t.initialOrder[k] in t.initialPositions && t.initialPositions[t.initialOrder[k]] != []
      {
        if k < |s.initialOrder| {
          assert t.initialOrder[k] == s.initialOrder[k];
        } else {
          assert t.initialOrder[k] == a[k - |s.initialOrder|];
        }
      }
    }
  }
}
