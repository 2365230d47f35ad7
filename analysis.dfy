/**
 * src/main.py: the frame loop of `run_analysis` as an object whose fields
 * are the loop's variables, together with `find_ball_owner`,
 * `assign_teams_by_clustering` and `filter_players`. Every operation is
 * proved to follow the value model in frame_state.dfy.
 */
module Analysis {
  import opened Wrappers
  import opened Geometry
  import opened Settings
  import opened Tracker
  import opened Stats
  import opened FrameState
  import opened FrameProperties

  /** `find_ball_owner(ball, persons)`: the first person nearest to the ball. */
  method FindBallOwner(hypot: (real, real) -> real, ball: Option<Detection>, persons: seq<Detection>)
    returns (owner: Option<Detection>)
    ensures owner == BallOwner(hypot, ball, persons)
  {
    owner := None;
    if ball.None? || persons == [] {
      return None;
    }
    var bc := BoxCenter(ball.value.box);
    var minDist: Option<real> := None;   // None stands for float('inf')
    for i := 0 to |persons|
      invariant i == 0 ==> owner.None? && minDist.None?
      invariant i > 0 ==>
        var b := Nearest(hypot, bc, persons[..i]);
        owner == Some(persons[b]) && minDist == Some(DistToBall(hypot, bc, persons[b]))
    {
      assert persons[..i + 1][..i] == persons[..i];
      var c := BoxCenter(persons[i].box);
      var d := PixelDistance(hypot, c, bc);
      if minDist.None? || d < minDist.value {
        minDist, owner := Some(d), Some(persons[i]);
      }
    }
    assert persons[..|persons|] == persons;
  }

  /** `filter_players(players, min_positions)`: the tracks with enough positions, as the same records. */
  function FilterPlayers(players: map<int, PlayerRecord>, minPositions: int): (kept: map<int, PlayerRecord>)
    reads players.Values
    ensures kept.Keys <= players.Keys
    ensures forall pid :: pid in players ==> (pid in kept <==> |players[pid].positions| >= minPositions)
    ensures forall pid :: pid in kept ==> kept[pid] == players[pid]
  {
    map pid | pid in players && |players[pid].positions| >= minPositions :: players[pid]
  }

  /** Filtering is idempotent, and a higher threshold keeps fewer tracks. */
  lemma FilterPlayersIdempotent(players: map<int, PlayerRecord>, lo: int, hi: int)
    requires lo <= hi
    ensures FilterPlayers(FilterPlayers(players, lo), lo) == FilterPlayers(players, lo)
    ensures FilterPlayers(players, hi).Keys <= FilterPlayers(players, lo).Keys
    ensures FilterPlayers(FilterPlayers(players, lo), hi) == FilterPlayers(players, hi)
  {
  }

  /** The value of every record of a map, read from the heap. */
  ghost function Values(records: map<int, PlayerRecord>): map<int, PlayerData>
    reads records.Values
  {
    map pid | pid in records :: records[pid].Data()
  }

  /** No two ids of the map share a record object. */
  ghost predicate Unshared(records: map<int, PlayerRecord>)
  {
    forall a, b :: a in records && b in records && a != b ==> records[a] != records[b]
  }

  /** A new id appended to the ids adds one fresh record value. */
  lemma WithNewRecordsStep(players: map<int, PlayerData>, ids: seq<int>, pid: int)
    requires pid !in players && pid !in ids
    ensures WithNewRecords(players, ids + [pid]) == WithNewRecords(players, ids)[pid := NEW_PLAYER]
  {
    assert (set k | k in ids + [pid]) == (set k | k in ids) + {pid};
  }

  /** The analysis state of one run: the variables of the frame loop. */
  class Analysis {
    const params: Params
    var players: map<int, PlayerRecord>
    var order: seq<int>
    var initialPositions: map<int, seq<Point>>
    var initialOrder: seq<int>
    var teamsIdentified: bool
    var teamAssignments: map<int, Option<nat>>
    var possession: map<nat, real>
    var teamStatsHistory: seq<map<nat, TeamStat>>
    var lastFrameIdx: int

    /** The current value of every record. */
    ghost function Snapshot(): map<int, PlayerData>
      reads this, players.Values
    {
      Values(players)
    }

    /** The state as a value. */
    ghost function Abs(): State
      reads this, players.Values
    {
      State(Snapshot(), order, initialPositions, initialOrder, teamsIdentified, teamAssignments,
            possession, teamStatsHistory, lastFrameIdx)
    }

    /** The loop variables other than the records and their order. */
    ghost function Others(): (map<int, seq<Point>>, seq<int>, bool, map<int, Option<nat>>, map<nat, real>, seq<map<nat, TeamStat>>, int)
      reads this
    {
      (initialPositions, initialOrder, teamsIdentified, teamAssignments, possession, teamStatsHistory, lastFrameIdx)
    }

    /** No two ids share a record object. */
    ghost predicate Distinct()
      reads this
    {
      Unshared(players)
    }

    ghost predicate Valid()
      reads this, players.Values
    {
      ValidParams(params) && Distinct() && Inv(Abs())
    }

    /**
     * Lines 116-117 and 130-143: the frame rate falls back to 25 when the
     * video reports none. The loop state is only reached with a non-zero
     * `frame_skip`: line 124 divides by it first (see `RunAnalysis`).
     */
    constructor (cfg: Config, reportedFps: real, hypot: (real, real) -> real, kmeans: seq<Point> -> seq<ClusterIndex>)
      requires FrameSkip(cfg) != 0
      requires reportedFps >= 0.0 && IsHypot(hypot) && forall ps :: |kmeans(ps)| == |ps|
      ensures params == Params(cfg, if reportedFps == 0.0 then 25.0 else reportedFps, hypot, kmeans)
      ensures Valid() && Abs() == START && players == map[]
    {
      params := Params(cfg, if reportedFps == 0.0 then 25.0 else reportedFps, hypot, kmeans);
      players, order := map[], [];
      initialPositions, initialOrder := map[], [];
      teamsIdentified, teamAssignments, possession := false, map[], map[];
      teamStatsHistory, lastFrameIdx := [], 0;
      new;
      assert Snapshot() == map[];
      StartInv();
    }

    /** `players[pid] = {...}`: a fresh record under a new id, appended to the dictionary order. */
    method AddPlayer(pid: int)
      requires Distinct() && pid !in players
      modifies this
      ensures Distinct()
      ensures pid in players && fresh(players[pid])
      ensures players.Keys == old(players.Keys) + {pid}
      ensures players.Values == old(players.Values) + {players[pid]}
      ensures forall q :: q in old(players) ==> players[q] == old(players[q])
      ensures Snapshot() == old(Snapshot())[pid := NEW_PLAYER]
      ensures order == old(order) + [pid]
      ensures Others() == old(Others())
    {
      ghost var before := Snapshot();
      var r := new PlayerRecord();
      players := players[pid := r];
      order := order + [pid];
      ghost var expected := before[pid := NEW_PLAYER];
      forall q | q in players ensures Snapshot()[q] == expected[q] {
      }
      assert Snapshot().Keys == expected.Keys;
    }

    /** Lines 152-155, on the records and the order: a fresh record for each new truthy id. */
    method AddTracks(persons: seq<Detection>)
      requires Distinct()
      modifies this
      ensures Distinct()
      ensures Snapshot() == WithNewRecords(old(Snapshot()), Appended(old(players.Keys), persons))
      ensures order == old(order) + Appended(old(players.Keys), persons)
      ensures forall pid :: pid in old(players) ==> pid in players && players[pid] == old(players[pid])
      ensures forall pid :: pid in players && pid !in old(players) ==> fresh(players[pid])
      ensures forall o :: o in players.Values ==> o in old(players.Values) || fresh(o)
      ensures Others() == old(Others())
    {
      ghost var known := players.Keys;
      ghost var before := Snapshot();
      for i := 0 to |persons|
        invariant Distinct()
        invariant order == old(order) + Appended(known, persons[..i])
        invariant players.Keys == known + (set k | k in Appended(known, persons[..i]))
        invariant Snapshot() == WithNewRecords(before, Appended(known, persons[..i]))
        invariant forall pid :: pid in old(players) ==> players[pid] == old(players[pid])
        invariant forall pid :: pid in players && pid !in old(players) ==> fresh(players[pid])
        invariant forall o :: o in players.Values ==> o in old(players.Values) || fresh(o)
        invariant Others() == old(Others())
      {
        assert persons[..i + 1][..i] == persons[..i];
        ghost var rest := Appended(known, persons[..i]);
        var pid := persons[i].id;
        if Truthy(pid) && pid.value !in players {
          AddPlayer(pid.value);
          WithNewRecordsStep(before, rest, pid.value);
        }
      }
      assert persons[..|persons|] == persons;
    }

    /** Lines 152-155. */
    method AddNewPlayers(persons: seq<Detection>)
      requires Distinct()
      modifies this
      ensures Distinct()
      ensures Abs() == AddPlayers(old(Abs()), persons)
      ensures forall pid :: pid in old(players) ==> pid in players && players[pid] == old(players[pid])
      ensures forall pid :: pid in players && pid !in old(players) ==> fresh(players[pid])
      ensures forall o :: o in players.Values ==> o in old(players.Values) || fresh(o)
    {
      ghost var s := Abs();
      assert s.players.Keys == players.Keys;
      AddTracks(persons);
    }

    /** Lines 159-161. */
    method CollectInitialPositions(persons: seq<Detection>)
      modifies this
      ensures Abs() == CollectSamples(old(Abs()), persons)
      ensures players == old(players)
    {
      ghost var s := Abs();
      for i := 0 to |persons|
        invariant initialPositions == CollectSamples(s, persons[..i]).initialPositions
        invariant initialOrder == CollectSamples(s, persons[..i]).initialOrder
        invariant players == old(players) && order == old(order)
        invariant teamsIdentified == old(teamsIdentified) && teamAssignments == old(teamAssignments)
        invariant possession == old(possession) && teamStatsHistory == old(teamStatsHistory)
        invariant lastFrameIdx == old(lastFrameIdx)
      {
        assert persons[..i + 1][..i] == persons[..i];
        var pid := persons[i].id;
        if Truthy(pid) {
          var c := BoxCenter(persons[i].box);
          if pid.value in initialPositions {
            initialPositions := initialPositions[pid.value := initialPositions[pid.value] + [c]];
          } else {
            initialPositions := initialPositions[pid.value := [c]];
            initialOrder := initialOrder + [pid.value];
          }
        }
      }
      assert persons[..|persons|] == persons;
      CollectSamplesOrder(s, persons);
    }

    /** `players[pid]['team'] = label`. */
    method SetTeam(pid: int, teamLabel: nat)
      requires Distinct() && pid in players
      modifies players[pid]
      ensures Snapshot() == old(Snapshot())[pid := old(Snapshot())[pid].(team := Some(teamLabel))]
    {
      ghost var before := Snapshot();
      players[pid].team := Some(teamLabel);
      ghost var expected := before[pid := before[pid].(team := Some(teamLabel))];
      forall q | q in players ensures Snapshot()[q] == expected[q] {
        if q != pid {
          assert players[q] != players[pid];
        }
      }
      assert Snapshot().Keys == expected.Keys;
    }

    /** Lines 14-17: the `i`-th player in dictionary order gets label `i`. */
    method LabelPlayersByIndex()
      requires Distinct()
      modifies players.Values
      ensures Snapshot() == LabelByIndex(old(Snapshot()), order)
    {
      ghost var before := Snapshot();
      for i := 0 to |order|
        invariant unchanged(this)
        invariant Snapshot() == LabelByIndex(before, order[..i])
      {
        assert order[..i + 1][..i] == order[..i];
        if order[i] in players {
          SetTeam(order[i], i);
        }
      }
      assert order[..|order|] == order;
    }

    /** Lines 23-25: each sampled id that is a player gets its cluster label. */
    method LabelPlayersByCluster(labels: seq<ClusterIndex>)
      requires Distinct() && |labels| == |initialOrder|
      modifies players.Values
      ensures Snapshot() == LabelByCluster(old(Snapshot()), initialOrder, labels)
    {
      ghost var before := Snapshot();
      for i := 0 to |initialOrder|
        invariant unchanged(this)
        invariant Snapshot() == LabelByCluster(before, initialOrder[..i], labels[..i])
      {
        assert initialOrder[..i + 1][..i] == initialOrder[..i];
        assert labels[..i + 1][..i] == labels[..i];
        if initialOrder[i] in players {
          SetTeam(initialOrder[i], labels[i]);
        }
      }
      assert initialOrder[..|initialOrder|] == initialOrder;
      assert labels[..|labels|] == labels;
    }

    /** `assign_teams_by_clustering(players, initial_player_positions)`, labelling the records in place. */
    method AssignTeamsByClustering()
      requires Distinct() && ValidParams(params) && SamplesReady(initialPositions, initialOrder)
      modifies players.Values
      ensures Abs() == old(Abs()).(players := AssignTeams(old(Abs()), params))
    {
      if |initialPositions| < 2 {
        LabelPlayersByIndex();
      } else {
        var means := Means(initialPositions, initialOrder);
        LabelPlayersByCluster(params.kmeans(means));
      }
    }

    /** Lines 165-170: label the players, snapshot the labels, zero the possession of each label. */
    method IdentifyTeams()
      requires Distinct() && ValidParams(params) && SamplesReady(initialPositions, initialOrder)
      modifies this, players.Values
      ensures Abs() == Identify(old(Abs()), params)
      ensures players == old(players)
    {
      AssignTeamsByClustering();
      var assign := Assignments();
      RecordIdentification(assign);
    }

    /** Lines 166-170 on the loop variables: keep the labels, zero each label's possession. */
    method RecordIdentification(assign: map<int, Option<nat>>)
      modifies this
      ensures players == old(players)
      ensures Abs() == old(Abs()).(teamAssignments := assign, teamsIdentified := true,
                                   possession := map t | t in TeamLabels(assign) :: 0.0)
    {
      teamAssignments := assign;
      possession := map t | t in TeamLabels(assign) :: 0.0;
      teamsIdentified := true;
    }

    /** `{pid: p['team'] for pid, p in players.items()}`. */
    method Assignments() returns (assign: map<int, Option<nat>>)
      ensures assign == TeamsOf(Snapshot())
    {
      assign := map pid | pid in players :: players[pid].team;
      forall pid | pid in players ensures assign[pid] == TeamsOf(Snapshot())[pid] {
        assert Snapshot()[pid] == players[pid].Data();
      }
      assert assign.Keys == TeamsOf(Snapshot()).Keys;
    }

    /** `update_player_movement(players[pid], p, frame_idx, fps, cfg)` on one record. */
    method MoveOne(pid: int, center: Point, frameIdx: int)
      requires Distinct() && ValidParams(params) && pid in players
      modifies players[pid]
      ensures Snapshot() == old(Snapshot())[pid := Moved(old(Snapshot())[pid], center, frameIdx, params.fps, params.cfg, params.hypot)]
    {
      ghost var before := Snapshot();
      players[pid].UpdateMovement(center, frameIdx, params.fps, params.cfg, params.hypot);
      ghost var expected := before[pid := Moved(before[pid], center, frameIdx, params.fps, params.cfg, params.hypot)];
      forall q | q in players ensures Snapshot()[q] == expected[q] {
        if q != pid {
          assert players[q] != players[pid];
        }
      }
      assert Snapshot().Keys == expected.Keys;
    }

    /** Lines 174-178. */
    method MovePlayers(frameIdx: int, persons: seq<Detection>)
      requires Distinct() && ValidParams(params)
      modifies players.Values
      ensures Snapshot() == MoveAll(old(Snapshot()), persons, frameIdx, params)
    {
      ghost var before := Snapshot();
      for i := 0 to |persons|
        invariant unchanged(this)
        invariant Snapshot() == MoveAll(before, persons[..i], frameIdx, params)
      {
        assert persons[..i + 1][..i] == persons[..i];
        var pid := persons[i].id;
        if Truthy(pid) && pid.value in players {
          MoveOne(pid.value, BoxCenter(persons[i].box), frameIdx);
        }
      }
      assert persons[..|persons|] == persons;
    }

    /** The records in dictionary order, as `calculate_team_stats` iterates them. */
    method Records() returns (recs: seq<PlayerData>)
      ensures recs == Recs(Snapshot(), order)
    {
      recs := [];
      for i := 0 to |order|
        invariant recs == Recs(Snapshot(), order[..i])
      {
        assert order[..i + 1][..i] == order[..i];
        if order[i] in players {
          recs := recs + [players[order[i]].Data()];
        }
      }
      assert order[..|order|] == order;
    }

    /** `players[pid]['touches'] += 1`. */
    method AddTouch(pid: int)
      requires Distinct() && pid in players
      modifies players[pid]
      ensures Snapshot() == old(Snapshot())[pid := old(Snapshot())[pid].(touches := old(Snapshot())[pid].touches + 1)]
    {
      ghost var before := Snapshot();
      players[pid].touches := players[pid].touches + 1;
      ghost var expected := before[pid := before[pid].(touches := before[pid].touches + 1)];
      forall q | q in players ensures Snapshot()[q] == expected[q] {
        if q != pid {
          assert players[q] != players[pid];
        }
      }
      assert Snapshot().Keys == expected.Keys;
    }

    /** Lines 189-193. */
    method CreditOwner(ownerId: Option<int>)
      requires Distinct() && ValidParams(params)
      modifies this, players.Values
      ensures Abs() == Credit(old(Abs()), ownerId, params)
      ensures players == old(players)
    {
      if teamsIdentified && Truthy(ownerId) && ownerId.value in players {
        ghost var s := Abs();
        ghost var d := s.players[ownerId.value];
        AddTouch(ownerId.value);
        assert Abs() == s.(players := s.players[ownerId.value := d.(touches := d.touches + 1)]);
        var team := players[ownerId.value].team;
        if team.Some? && team.value in possession {
          possession := possession[team.value := possession[team.value] + FrameSkip(params.cfg) as real / params.fps];
        }
      }
    }

    /** Lines 147-161: note the frame, add the new tracks, sample positions while teams are unknown. */
    method AddAndCollect(frameIdx: nat, persons: seq<Detection>)
      requires Distinct()
      modifies this
      ensures Distinct()
      ensures Abs() == CollectStage(AddPlayers(old(Abs()).(lastFrameIdx := frameIdx), persons), persons)
      ensures forall pid :: pid in old(players) ==> pid in players && players[pid] == old(players[pid])
      ensures forall pid :: pid in players && pid !in old(players) ==> fresh(players[pid])
      ensures forall o :: o in players.Values ==> o in old(players.Values) || fresh(o)
    {
      lastFrameIdx := frameIdx;
      ghost var s := Abs();
      AddNewPlayers(persons);
      assert Abs() == AddPlayers(s, persons);
      if !teamsIdentified {
        CollectInitialPositions(persons);
      }
    }

    /** Lines 147-170: the stages of a processed frame before movement. */
    method PrepareFrame(frameIdx: nat, persons: seq<Detection>)
      requires Distinct() && ValidParams(params) && SamplesReady(initialPositions, initialOrder)
      modifies this, players.Values
      ensures Distinct()
      ensures Abs() == Prepare(old(Abs()), frameIdx, persons, params)
      ensures forall pid :: pid in old(players) ==> pid in players && players[pid] == old(players[pid])
      ensures forall pid :: pid in players && pid !in old(players) ==> fresh(players[pid])
      ensures forall o :: o in players.Values ==> o in old(players.Values) || fresh(o)
    {
      AddAndCollect(frameIdx, persons);
      if !teamsIdentified && frameIdx > FramesToSample(params.cfg) {
        IdentifyTeams();
      }
    }

    /** Lines 180-183: append the team statistics once teams are known; false where they raise. */
    method RecordTeamStats() returns (completed: bool)
      requires Distinct()
      modifies this
      ensures players == old(players)
      ensures completed <==> RecordStats(old(Abs()), params).Some?
      ensures completed ==> Abs() == RecordStats(old(Abs()), params).value
      ensures !completed ==> Abs() == old(Abs())
    {
      completed := true;
      if teamsIdentified {
        var recs := Records();
        var stats := CalculateTeamStats(params.hypot, recs, teamAssignments, params.cfg.pixelsToMeters);
        if stats.None? {
          return false;
        }
        teamStatsHistory := teamStatsHistory + [stats.value];
      }
    }

    /** Lines 174-193: move, record statistics, credit the owner of the ball. */
    method FinishFrame(frameIdx: nat, persons: seq<Detection>, balls: seq<Detection>)
      requires Distinct() && ValidParams(params)
      modifies this, players.Values
      ensures Abs() == Finish(old(Abs()), frameIdx, persons, balls, params)
      ensures players == old(players)
    {
      MovePlayers(frameIdx, persons);
      var completed := RecordTeamStats();
      if !completed {
        return;   // `calculate_team_stats` raised: the frame ends here
      }
      var ball := if balls == [] then None else Some(balls[0]);
      var owner := FindBallOwner(params.hypot, ball, persons);
      var ownerId := if owner.Some? then owner.value.id else None;
      CreditOwner(ownerId);
    }

    /** One iteration of the frame loop, lines 146-193 (the event call at line 195 raises, ending the frame). */
    method ProcessFrame(frameIdx: nat, persons: seq<Detection>, balls: seq<Detection>)
      requires Valid()
      modifies this, players.Values
      ensures Valid()
      ensures Abs() == Step(old(Abs()), frameIdx, persons, balls, params)
      ensures forall pid :: pid in old(players) ==> pid in players && players[pid] == old(players[pid])
      ensures forall pid :: pid in players && pid !in old(players) ==> fresh(players[pid])
      ensures forall o :: o in players.Values ==> o in old(players.Values) || fresh(o)
    {
      ghost var s := Abs();
      StepPreservesInv(s, frameIdx, persons, balls, params);
      var frameSkip := FrameSkip(params.cfg);
      if frameSkip == 0 || frameIdx % frameSkip != 0 {
        return;
      }
      PrepareFrame(frameIdx, persons);
      ghost var prepared := players;
      FinishFrame(frameIdx, persons, balls);
      assert players == prepared;
      assert Abs() == Step(s, frameIdx, persons, balls, params);
    }

    /** Lines 144-196: every frame of the video in turn, frame `i` being `frames[i]`. */
    method ProcessFrames(frames: seq<FrameInput>)
      requires Valid() && Abs() == START
      modifies this, players.Values
      ensures Valid() && Abs() == RunFrames(frames, params)
    {
      for i := 0 to |frames|
        invariant Valid()
        invariant forall o :: o in players.Values ==> o in old(players.Values) || fresh(o)
        invariant Abs() == RunFrames(frames[..i], params)
      {
        RunFramesStep(frames, i, params);
        ProcessFrame(i, frames[i].persons, frames[i].balls);
      }
      assert frames[..|frames|] == frames;
    }

    /** Lines 218-223: the run's duration and the tracks that survive the filter. */
    method EndOfRun() returns (survivors: map<int, PlayerRecord>, totalDuration: real)
      requires Valid()
      ensures survivors == FilterPlayers(players, MinPlayerPositions(params.cfg))
      ensures totalDuration == lastFrameIdx as real / params.fps
    {
      totalDuration := lastFrameIdx as real / params.fps;
      survivors := FilterPlayers(players, MinPlayerPositions(params.cfg));
    }
  }

  /**
   * Lines 130-223 of `run_analysis`, once the video writer exists: the frame
   * loop over every frame of the video (frame `i` is `frames[i]`), then the
   * run's duration and the surviving tracks.
   */
  method AnalyseFrames(cfg: Config, reportedFps: real, hypot: (real, real) -> real,
                       kmeans: seq<Point> -> seq<ClusterIndex>, frames: seq<FrameInput>)
    returns (a: Analysis, survivors: map<int, PlayerRecord>, totalDuration: real)
    requires FrameSkip(cfg) != 0
    requires reportedFps >= 0.0 && IsHypot(hypot) && forall ps :: |kmeans(ps)| == |ps|
    ensures a.params == Params(cfg, if reportedFps == 0.0 then 25.0 else reportedFps, hypot, kmeans)
    ensures a.Valid() && a.Abs() == RunFrames(frames, a.params)
    ensures survivors == FilterPlayers(a.players, MinPlayerPositions(cfg))
    ensures totalDuration == a.lastFrameIdx as real / a.params.fps
  {
    a := new Analysis(cfg, reportedFps, hypot, kmeans);
    a.ProcessFrames(frames);
    survivors, totalDuration := a.EndOfRun();
  }

  /** How `run_analysis` ends: aborted before the loop, or with the final state, the survivors and the duration. */
  datatype RunOutcome =
    | Aborted
    | Completed(analysis: Analysis, survivors: map<int, PlayerRecord>, totalDuration: real)

  /**
   * `run_analysis` without the video and the export. A zero `frame_skip`
   * makes the video writer's frame rate at line 124 divide by zero before
   * the loop, and the whole run aborts; otherwise the run completes.
   */
  method RunAnalysis(cfg: Config, reportedFps: real, hypot: (real, real) -> real,
                     kmeans: seq<Point> -> seq<ClusterIndex>, frames: seq<FrameInput>)
    returns (r: RunOutcome)
    requires reportedFps >= 0.0 && IsHypot(hypot) && forall ps :: |kmeans(ps)| == |ps|
    ensures r.Aborted? <==> FrameSkip(cfg) == 0
    ensures r.Completed? ==>
      r.analysis.params == Params(cfg, if reportedFps == 0.0 then 25.0 else reportedFps, hypot, kmeans)
    ensures r.Completed? ==> r.analysis.Valid() && r.analysis.Abs() == RunFrames(frames, r.analysis.params)
    ensures r.Completed? ==> r.survivors == FilterPlayers(r.analysis.players, MinPlayerPositions(cfg))
    ensures r.Completed? ==> r.totalDuration == r.analysis.lastFrameIdx as real / r.analysis.params.fps
  {
    if FrameSkip(cfg) == 0 {
      return Aborted;
    }
    var a, survivors, totalDuration := AnalyseFrames(cfg, reportedFps, hypot, kmeans, frames);
    r := Completed(a, survivors, totalDuration);
  }
}
