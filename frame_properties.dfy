/**
 * What the frame loop of src/main.py keeps true from one frame to the next,
 * and what a single frame may change.
 */
module FrameProperties {
  import opened Wrappers
  import opened Geometry
  import opened Settings
  import opened Tracker
  import opened Stats
  import opened FrameState

  /** `players` is indexed by `order` without repetition; ids are truthy; records are consistent. */
  ghost predicate RecordsIndexed(s: State)
  {
    && (forall pid :: pid in s.players <==> pid in s.order)
    && NoDup(s.order)
    && (forall pid :: pid in s.players ==> pid != 0 && Consistent(s.players[pid]))
  }

  /** `initialPositions` is indexed by `initialOrder` without repetition, and every list is non-empty. */
  ghost predicate SamplesIndexed(s: State)
  {
    && (forall pid :: pid in s.initialPositions <==> pid in s.initialOrder)
    && NoDup(s.initialOrder)
    && SamplesReady(s.initialPositions, s.initialOrder)
  }

  /**
   * Before identification the samples follow the records exactly (same ids,
   * same insertion order) and nothing team-related exists yet.
   */
  ghost predicate BeforeTeams(s: State)
  {
    !s.teamsIdentified ==>
      && s.initialOrder == s.order
      && s.teamAssignments == map[] && s.possession == map[] && s.teamStatsHistory == []
      && forall pid :: pid in s.players ==> s.players[pid].team.None?
  }

  /**
   * After identification the possession map has one entry per label, the
   * snapshot covers only known players, and every record carries its
   * snapshot label (tracks first seen later have no team).
   */
  ghost predicate AfterTeams(s: State)
  {
    s.teamsIdentified ==>
      && s.possession.Keys == TeamLabels(s.teamAssignments)
      && s.teamAssignments.Keys <= s.players.Keys
      && forall pid :: pid in s.players ==>
           s.players[pid].team == (if pid in s.teamAssignments then s.teamAssignments[pid] else None)
  }

  ghost predicate Inv(s: State)
  {
    && RecordsIndexed(s)
    && SamplesIndexed(s)
    && BeforeTeams(s)
    && AfterTeams(s)
    && forall t :: t in s.possession ==> s.possession[t] >= 0.0
  }

  lemma StartInv()
    ensures Inv(START)
  {
  }

  // ---------------------------------------------------------------------
  // Record creation
  // ---------------------------------------------------------------------

  lemma AddPlayersFacts(s: State, persons: seq<Detection>)
    requires RecordsIndexed(s)
    ensures var t := AddPlayers(s, persons);
      && RecordsIndexed(t)
      && t.order == s.order + Appended(s.players.Keys, persons)
      && (forall pid :: pid in s.players ==> pid in t.players && t.players[pid] == s.players[pid])
      && (forall pid :: pid in t.players && pid !in s.players ==>
            t.players[pid] == NEW_PLAYER && pid in Appended(s.players.Keys, persons))
  {
    var ids := Appended(s.players.Keys, persons);
    var t := AddPlayers(s, persons);
    forall i, j | 0 <= i < j < |t.order| ensures t.order[i] != t.order[j] {
      if j >= |s.order| && i < |s.order| {
        assert t.order[i] == s.order[i];
        assert t.order[j] == ids[j - |s.order|];
      }
    }
  }

  /**
   * From the detector's boxes to the records: after a frame's person boxes
   * are routed and new tracks are added, an id has a record exactly when it
   * had one before, or it is non-zero and some person box carries it as a
   * convertible `id` attribute. A box without an id, with one `int()`
   * rejects, or with the id 0 never creates a record.
   */
  lemma RecordsFromPersonBoxes(s: State, names: map<int, string>, boxes: seq<RawBox>, pid: int)
    ensures pid in AddPlayers(s, Select(names, boxes, ToPersons)).players <==>
      pid in s.players ||
      (pid != 0 && exists i :: 0 <= i < |boxes| && RouteOf(names, boxes[i]) == ToPersons && boxes[i].id == IdValue(pid))
  {
    var persons := Select(names, boxes, ToPersons);
    AppendedMembers(s.players.Keys, persons, pid);
    RoutedIds(names, boxes, ToPersons, pid);
  }

  /** The ids in `order` whose record is on team `t` and has a last position. */
  ghost function LocatedPlayers(players: map<int, PlayerData>, order: seq<int>, t: nat): set<int>
  {
    set pid | pid in order && pid in players && players[pid].team == Some(t) && players[pid].lastPos.Some?
  }

  /** Appending a record adds its index to the located members exactly when it is located. */
  lemma LocatedMembersSnoc(rs: seq<PlayerData>, d: PlayerData, t: nat)
    ensures |LocatedMembers(rs + [d], t)| ==
      |LocatedMembers(rs, t)| + (if d.team == Some(t) && d.lastPos.Some? then 1 else 0)
  {
    var n := |rs|;
    if d.team == Some(t) && d.lastPos.Some? {
      assert LocatedMembers(rs + [d], t) == LocatedMembers(rs, t) + {n};
    } else {
      assert LocatedMembers(rs + [d], t) == LocatedMembers(rs, t);
    }
  }

  /** Appending a new id adds it to the located players exactly when its record is located. */
  lemma LocatedPlayersSnoc(players: map<int, PlayerData>, prefix: seq<int>, pid: int, t: nat)
    requires pid in players && pid !in prefix
    ensures |LocatedPlayers(players, prefix + [pid], t)| ==
      |LocatedPlayers(players, prefix, t)| +
      (if players[pid].team == Some(t) && players[pid].lastPos.Some? then 1 else 0)
  {
    if players[pid].team == Some(t) && players[pid].lastPos.Some? {
      assert LocatedPlayers(players, prefix + [pid], t) == LocatedPlayers(players, prefix, t) + {pid};
    } else {
      assert LocatedPlayers(players, prefix + [pid], t) == LocatedPlayers(players, prefix, t);
    }
  }

  /** Listing the records by a repetition-free order counts each located team member once. */
  lemma {:induction false} LocatedPlayersCount(players: map<int, PlayerData>, order: seq<int>, t: nat)
    requires NoDup(order) && forall k :: 0 <= k < |order| ==> order[k] in players
    ensures |LocatedMembers(Recs(players, order), t)| == |LocatedPlayers(players, order, t)|
    decreases |order|
  {
    if order == [] {
      assert LocatedMembers(Recs(players, order), t) == {};
      assert LocatedPlayers(players, order, t) == {};
    } else {
      var n := |order| - 1;
      var prefix := order[..n];
      assert NoDup(prefix);
      LocatedPlayersCount(players, prefix, t);
      var pid := order[n];
      assert Recs(players, order) == Recs(players, prefix) + [players[pid]];
      assert order == prefix + [pid];
      LocatedMembersSnoc(Recs(players, prefix), players[pid], t);
      LocatedPlayersSnoc(players, prefix, pid, t);
    }
  }

  /**
   * The records handed to `calculate_team_stats` are the players, each once:
   * as many as there are players, and as many located members of a team as
   * there are players on that team with a last position.
   */
  lemma RecordsAreThePlayers(s: State, t: nat)
    requires RecordsIndexed(s)
    ensures |Recs(s.players, s.order)| == |s.players|
    ensures |LocatedMembers(Recs(s.players, s.order), t)| ==
      |set pid | pid in s.players && s.players[pid].team == Some(t) && s.players[pid].lastPos.Some?|
  {
    forall k | 0 <= k < |s.order| ensures s.order[k] in s.players {
      assert s.order[k] in s.order;
    }
    RecsIndexed(s.players, s.order);
    CardOfIndexedSet(s.players.Keys, s.order);
    LocatedPlayersCount(s.players, s.order, t);
    assert LocatedPlayers(s.players, s.order, t) ==
      set pid | pid in s.players && s.players[pid].team == Some(t) && s.players[pid].lastPos.Some?;
  }

  /**
   * `player_count` in a frame's team statistics is the number of players on
   * that team that have a last position.
   */
  lemma TeamCountIsPlayerCount(s: State, hypot: (real, real) -> real, pixelsToMeters: Option<real>, t: nat)
    requires RecordsIndexed(s) && IsHypot(hypot)
    requires TeamStatsOf(hypot, Recs(s.players, s.order), s.teamAssignments, pixelsToMeters).Some?
    requires t in TeamStatsOf(hypot, Recs(s.players, s.order), s.teamAssignments, pixelsToMeters).value
    ensures TeamStatsOf(hypot, Recs(s.players, s.order), s.teamAssignments, pixelsToMeters).value[t].playerCount ==
      |set pid | pid in s.players && s.players[pid].team == Some(t) && s.players[pid].lastPos.Some?|
  {
    TeamStatsMeaning(hypot, Recs(s.players, s.order), s.teamAssignments, pixelsToMeters, t);
    RecordsAreThePlayers(s, t);
  }

  // ---------------------------------------------------------------------
  // Labelling
  // ---------------------------------------------------------------------

  /** Labelling by index changes only team fields and adds no record. */
  lemma {:induction false} LabelByIndexKeeps(players: map<int, PlayerData>, order: seq<int>)
    ensures var m := LabelByIndex(players, order);
      m.Keys == players.Keys && forall pid :: pid in m ==> m[pid] == players[pid].(team := m[pid].team)
    decreases |order|
  {
    if order != [] {
      LabelByIndexKeeps(players, order[..|order| - 1]);
    }
  }

  /** Labelling by index gives the `k`-th id of the order the label `k`; ids outside the order keep their team. */
  lemma {:induction false} LabelByIndexLabels(players: map<int, PlayerData>, order: seq<int>)
    requires NoDup(order)
    ensures var m := LabelByIndex(players, order);
      && (forall k :: 0 <= k < |order| && order[k] in players ==> m[order[k]].team == Some(k))
      && (forall pid :: pid in players && pid !in order ==> m[pid].team == players[pid].team)
    decreases |order|
  {
    LabelByIndexKeeps(players, order);
    if order != [] {
      var n := |order| - 1;
      LabelByIndexLabels(players, order[..n]);
      LabelByIndexKeeps(players, order[..n]);
      var m := LabelByIndex(players, order);
      forall k | 0 <= k < |order| && order[k] in players ensures m[order[k]].team == Some(k) {
        if k < n {
          assert order[..n][k] == order[k];
        }
      }
    }
  }

  /** In the degenerate case the labels of distinct players are distinct. */
  lemma DegenerateLabelsDistinct(players: map<int, PlayerData>, order: seq<int>, a: int, b: int)
    requires NoDup(order) && (forall pid :: pid in players <==> pid in order)
    requires a in players && b in players && a != b
    ensures var m := LabelByIndex(players, order);
      m[a].team.Some? && m[b].team.Some? && m[a].team != m[b].team
  {
    LabelByIndexLabels(players, order);
    LabelByIndexKeeps(players, order);
    var i :| 0 <= i < |order| && order[i] == a;
    var j :| 0 <= j < |order| && order[j] == b;
  }

  /** Labelling by cluster changes only team fields and adds no record. */
  lemma {:induction false} LabelByClusterKeeps(players: map<int, PlayerData>, ids: seq<int>, labels: seq<ClusterIndex>)
    requires |labels| == |ids|
    ensures var m := LabelByCluster(players, ids, labels);
      m.Keys == players.Keys && forall pid :: pid in m ==> m[pid] == players[pid].(team := m[pid].team)
    decreases |ids|
  {
    if ids != [] {
      LabelByClusterKeeps(players, ids[..|ids| - 1], labels[..|ids| - 1]);
    }
  }

  /**
   * Labelling by cluster only labels sampled ids that are players, and every
   * label it gives is 0 or 1; every sampled player gets one.
   */
  lemma {:induction false} LabelByClusterLabels(players: map<int, PlayerData>, ids: seq<int>, labels: seq<ClusterIndex>)
    requires |labels| == |ids|
    ensures var m := LabelByCluster(players, ids, labels);
      && (forall pid :: pid in players && pid !in ids ==> m[pid].team == players[pid].team)
      && (forall pid :: pid in players && pid in ids ==> m[pid].team.Some? && m[pid].team.value < 2)
    decreases |ids|
  {
    LabelByClusterKeeps(players, ids, labels);
    if ids != [] {
      var n := |ids| - 1;
      LabelByClusterLabels(players, ids[..n], labels[..n]);
      LabelByClusterKeeps(players, ids[..n], labels[..n]);
      var m := LabelByCluster(players, ids, labels);
      forall pid | pid in players && pid in ids ensures m[pid].team.Some? && m[pid].team.value < 2 {
        if pid != ids[n] {
          var k :| 0 <= k < |ids| && ids[k] == pid;
          assert ids[..n][k] == pid;
        }
      }
    }
  }

  lemma {:induction false} CardOfIndexedSet(keys: set<int>, xs: seq<int>)
    requires NoDup(xs) && forall k :: k in keys <==> k in xs
    ensures |keys| == |xs|
    decreases |xs|
  {
    if xs != [] {
      var n := |xs| - 1;
      var rest := keys - {xs[n]};
      forall k ensures k in rest <==> k in xs[..n] {
        if k in xs[..n] {
          var i :| 0 <= i < n && xs[..n][i] == k;
          assert xs[i] == k;
        }
      }
      CardOfIndexedSet(rest, xs[..n]);
      assert xs[n] in keys && xs[n] !in rest;
      assert keys == rest + {xs[n]};
      assert |rest + {xs[n]}| == |rest| + 1;
    } else {
      assert forall k :: k !in keys;
      assert keys == {};
    }
  }

  /**
   * Before identification there are as many sampled tracks as records, so
   * the degenerate branch (fewer than two sampled tracks) labels at most one
   * player.
   */
  lemma DegenerateCaseAtMostOnePlayer(s: State)
    requires Inv(s) && !s.teamsIdentified
    ensures |s.initialPositions| == |s.players|
    ensures |s.initialPositions| < 2 ==> |s.players| <= 1
  {
    CardOfIndexedSet(s.initialPositions.Keys, s.initialOrder);
    CardOfIndexedSet(s.players.Keys, s.order);
  }

  /**
   * Labelling keeps every record's counters and gives every player a label,
   * 0 or 1 in the clustering case.
   */
  lemma AssignTeamsFacts(s: State, p: Params)
    requires ValidParams(p) && Inv(s) && !s.teamsIdentified
    ensures var m := AssignTeams(s, p);
      && m.Keys == s.players.Keys
      && (forall pid :: pid in s.players ==> m[pid] == s.players[pid].(team := m[pid].team))
      && (forall pid :: pid in m ==> m[pid].team.Some?)
      && (|s.initialPositions| >= 2 ==> forall pid :: pid in m ==> m[pid].team.value < 2)
  {
    if |s.initialPositions| < 2 {
      LabelByIndexKeeps(s.players, s.order);
      LabelByIndexLabels(s.players, s.order);
      var m := LabelByIndex(s.players, s.order);
      forall pid | pid in m ensures m[pid].team.Some? {
        var k :| 0 <= k < |s.order| && s.order[k] == pid;
      }
    } else {
      var ms := Means(s.initialPositions, s.initialOrder);
      LabelByClusterKeeps(s.players, s.initialOrder, p.kmeans(ms));
      LabelByClusterLabels(s.players, s.initialOrder, p.kmeans(ms));
    }
  }

  /**
   * What identification does: every record keeps its counters; in the
   * clustering case every player gets label 0 or 1; the snapshot has one
   * entry per player and the possession map one zero entry per label.
   */
  lemma IdentifyFacts(s: State, p: Params)
    requires ValidParams(p) && Inv(s) && !s.teamsIdentified
    ensures var r := Identify(s, p);
      && r.players.Keys == s.players.Keys
      && (forall pid :: pid in s.players ==> r.players[pid] == s.players[pid].(team := r.players[pid].team))
      && (forall pid :: pid in r.players ==> r.players[pid].team.Some?)
      && (|s.initialPositions| >= 2 ==> forall pid :: pid in r.players ==> r.players[pid].team.value < 2)
      && r.teamAssignments.Keys == r.players.Keys
      && (forall pid :: pid in r.players ==> r.teamAssignments[pid] == r.players[pid].team)
      && r.possession.Keys == TeamLabels(r.teamAssignments)
      && (forall t :: t in r.possession ==> r.possession[t] == 0.0)
  {
    AssignTeamsFacts(s, p);
  }

  lemma IdentifyInv(s: State, p: Params)
    requires ValidParams(p) && Inv(s) && !s.teamsIdentified
    ensures Inv(Identify(s, p))
  {
    IdentifyFacts(s, p);
    var r := Identify(s, p);
    assert forall pid :: pid in r.players ==> Consistent(r.players[pid]) by {
      forall pid | pid in r.players ensures Consistent(r.players[pid]) {
        assert r.players[pid] == s.players[pid].(team := r.players[pid].team);
      }
    }
  }

  // ---------------------------------------------------------------------
  // Movement and ownership
  // ---------------------------------------------------------------------

  /**
   * Moving every detected player adds no record, keeps touches and teams,
   * keeps each record consistent, only extends positions, and never lowers
   * distance or maximum speed.
   */
  lemma {:induction false} MoveAllKeeps(players: map<int, PlayerData>, persons: seq<Detection>, frameIdx: int, p: Params)
    requires ValidParams(p)
    ensures var m := MoveAll(players, persons, frameIdx, p);
      && m.Keys == players.Keys
      && forall pid :: pid in players ==>
           && m[pid].team == players[pid].team
           && m[pid].touches == players[pid].touches
           && (Consistent(players[pid]) ==> Consistent(m[pid]))
           && players[pid].positions <= m[pid].positions
           && players[pid].distPixels <= m[pid].distPixels
           && players[pid].maxSpeedKmh <= m[pid].maxSpeedKmh
    decreases |persons|
  {
    if persons != [] {
      MoveAllKeeps(players, persons[..|persons| - 1], frameIdx, p);
    }
  }

  /**
   * Crediting changes exactly one touch counter, by one, and one possession
   * entry, by `frame_skip / fps`; both only once teams are known and the
   * owner is a truthy, known id, and the possession only if the owner's team
   * is a label.
   */
  lemma CreditMeaning(s: State, ownerId: Option<int>, p: Params, pid: int, t: nat)
    requires p.fps > 0.0
    ensures var r := Credit(s, ownerId, p);
      var credited := s.teamsIdentified && Truthy(ownerId) && ownerId.value in s.players;
      && r.players.Keys == s.players.Keys
      && r.possession.Keys == s.possession.Keys
      && r.teamsIdentified == s.teamsIdentified && r.teamAssignments == s.teamAssignments
      && r.teamStatsHistory == s.teamStatsHistory && r.order == s.order
      && (pid in s.players ==>
            r.players[pid] == s.players[pid].(touches := r.players[pid].touches) &&
            r.players[pid].touches == s.players[pid].touches + (if credited && ownerId.value == pid then 1 else 0))
      && (t in s.possession ==>
            r.possession[t] == s.possession[t] +
              (if credited && s.players[ownerId.value].team == Some(t) then FrameSkip(p.cfg) as real / p.fps else 0.0))
  {
  }

  lemma MoveInv(s: State, frameIdx: nat, persons: seq<Detection>, p: Params)
    requires ValidParams(p) && Inv(s)
    ensures Inv(s.(players := MoveAll(s.players, persons, frameIdx, p)))
  {
    MoveAllKeeps(s.players, persons, frameIdx, p);
  }

  lemma CreditInv(s: State, ownerId: Option<int>, p: Params)
    requires ValidParams(p) && Inv(s)
    ensures Inv(Credit(s, ownerId, p))
  {
    var r := Credit(s, ownerId, p);
    CreditMeaning(s, ownerId, p, 0, 0);
    CreditPlayerFacts(s, ownerId, p);
    CreditPossessionFacts(s, ownerId, p);
    assert r == s.(players := r.players, possession := r.possession);
    assert RecordsIndexed(r) by {
      forall pid | pid in r.players ensures pid != 0 && Consistent(r.players[pid]) {
        assert r.players[pid] == s.players[pid].(touches := r.players[pid].touches);
      }
    }
    assert AfterTeams(r);
  }

  /** Lines 180-183 change only the history, and only once teams are known. */
  lemma RecordStatsFacts(s: State, p: Params)
    requires Inv(s)
    ensures var r := RecordStats(s, p);
      && (!s.teamsIdentified ==> r == Some(s))
      && (r.Some? ==> r.value == s.(teamStatsHistory := r.value.teamStatsHistory) && Inv(r.value))
  {
  }

  /**
   * Movement and ownership keep the record set, the teams and the labels;
   * positions, distance and maximum speed only grow; a touch is earned at
   * most once per frame and only once teams are known; possession grows by
   * at most one frame's time per team.
   */
  lemma FinishFacts(s: State, frameIdx: nat, persons: seq<Detection>, balls: seq<Detection>, p: Params)
    requires ValidParams(p) && Inv(s)
    ensures var r := Finish(s, frameIdx, persons, balls, p);
      && Inv(r)
      && r.players.Keys == s.players.Keys
      && r.teamsIdentified == s.teamsIdentified
      && r.teamAssignments == s.teamAssignments
      && r.possession.Keys == s.possession.Keys
      && r.lastFrameIdx == s.lastFrameIdx
      && (forall pid :: pid in s.players ==>
            && r.players[pid].team == s.players[pid].team
            && s.players[pid].positions <= r.players[pid].positions
            && s.players[pid].distPixels <= r.players[pid].distPixels
            && s.players[pid].maxSpeedKmh <= r.players[pid].maxSpeedKmh
            && s.players[pid].touches <= r.players[pid].touches <= s.players[pid].touches + 1
            && (!s.teamsIdentified ==> r.players[pid].touches == s.players[pid].touches))
      && (forall t :: t in s.possession ==>
            s.possession[t] <= r.possession[t] <= s.possession[t] + FrameSkip(p.cfg) as real / p.fps)
  {
    MoveAllKeeps(s.players, persons, frameIdx, p);
    MoveInv(s, frameIdx, persons, p);
    var moved := MoveStage(s, persons, frameIdx, p);
    RecordStatsFacts(moved, p);
    match RecordStats(moved, p)
    case None =>
    case Some(h) =>
      CreditFacts(h, OwnerId(p.hypot, persons, balls), p);
  }

  /** Lines 189-193 on the records: only the owner's touch counter moves, by one. */
  lemma CreditPlayerFacts(s: State, ownerId: Option<int>, p: Params)
    requires p.fps > 0.0
    ensures var r := Credit(s, ownerId, p);
      forall pid :: pid in s.players ==>
        && r.players[pid] == s.players[pid].(touches := r.players[pid].touches)
        && s.players[pid].touches <= r.players[pid].touches <= s.players[pid].touches + 1
        && (!s.teamsIdentified ==> r.players[pid].touches == s.players[pid].touches)
  {
    var r := Credit(s, ownerId, p);
    forall pid | pid in s.players
      ensures r.players[pid] == s.players[pid].(touches := r.players[pid].touches)
      ensures s.players[pid].touches <= r.players[pid].touches <= s.players[pid].touches + 1
      ensures !s.teamsIdentified ==> r.players[pid].touches == s.players[pid].touches
    {
      CreditMeaning(s, ownerId, p, pid, 0);
    }
  }

  /** Lines 189-193 on possession: every team's time grows by at most one frame's time. */
  lemma CreditPossessionFacts(s: State, ownerId: Option<int>, p: Params)
    requires p.fps > 0.0
    ensures var r := Credit(s, ownerId, p);
      forall t :: t in s.possession ==>
        s.possession[t] <= r.possession[t] <= s.possession[t] + FrameSkip(p.cfg) as real / p.fps
  {
    var r := Credit(s, ownerId, p);
    forall t | t in s.possession
      ensures s.possession[t] <= r.possession[t] <= s.possession[t] + FrameSkip(p.cfg) as real / p.fps
    {
      CreditMeaning(s, ownerId, p, 0, t);
    }
  }

  /** Lines 189-193 as a whole: what crediting the owner may change. */
  lemma CreditFacts(s: State, ownerId: Option<int>, p: Params)
    requires ValidParams(p) && Inv(s)
    ensures var r := Credit(s, ownerId, p);
      && Inv(r)
      && r.players.Keys == s.players.Keys
      && r.teamsIdentified == s.teamsIdentified
      && r.teamAssignments == s.teamAssignments
      && r.possession.Keys == s.possession.Keys
      && r.lastFrameIdx == s.lastFrameIdx
      && (forall pid :: pid in s.players ==>
            && r.players[pid] == s.players[pid].(touches := r.players[pid].touches)
            && s.players[pid].touches <= r.players[pid].touches <= s.players[pid].touches + 1
            && (!s.teamsIdentified ==> r.players[pid].touches == s.players[pid].touches))
      && (forall t :: t in s.possession ==>
            s.possession[t] <= r.possession[t] <= s.possession[t] + FrameSkip(p.cfg) as real / p.fps)
  {
    CreditInv(s, ownerId, p);
    CreditMeaning(s, ownerId, p, 0, 0);
    CreditPlayerFacts(s, ownerId, p);
    CreditPossessionFacts(s, ownerId, p);
  }

  /** Before identification the sampled ids are exactly the record ids. */
  lemma SampleKeysAreRecordKeys(s: State)
    requires Inv(s) && !s.teamsIdentified
    ensures s.initialPositions.Keys == s.players.Keys
  {
    assert forall pid :: pid in s.initialPositions <==> pid in s.players;
  }

  /** While teams are unknown, adding tracks and sampling them keeps the invariant. */
  lemma AddAndSampleInv(s: State, persons: seq<Detection>)
    requires Inv(s) && !s.teamsIdentified
    ensures Inv(CollectSamples(AddPlayers(s, persons), persons))
  {
    var s1 := AddPlayers(s, persons);
    AddPlayersFacts(s, persons);
    var s2 := CollectSamples(s1, persons);
    CollectSamplesOrder(s1, persons);
    CollectSamplesReady(s1, persons);
    SampleKeysAreRecordKeys(s);
    assert s2.initialOrder == s2.order;
    forall pid | pid in s2.players ensures s2.players[pid].team.None? {
      if pid !in s.players {
        assert s2.players[pid] == NEW_PLAYER;
      }
    }
  }

  /** Once teams are known, tracks first seen later have no label and no team. */
  lemma AddAfterTeamsInv(s: State, persons: seq<Detection>)
    requires Inv(s) && s.teamsIdentified
    ensures Inv(AddPlayers(s, persons))
  {
    var s1 := AddPlayers(s, persons);
    AddPlayersFacts(s, persons);
    forall pid | pid in s1.players
      ensures s1.players[pid].team == (if pid in s1.teamAssignments then s1.teamAssignments[pid] else None)
    {
      if pid !in s.players {
        assert pid !in s1.teamAssignments;
      }
    }
  }

  /**
   * Lines 147-161: new tracks get a fresh record and, while teams are
   * unknown, a sample; existing records are untouched.
   */
  lemma AddAndSampleFacts(s: State, frameIdx: nat, persons: seq<Detection>)
    requires Inv(s)
    ensures var r := CollectStage(AddPlayers(s.(lastFrameIdx := frameIdx), persons), persons);
      && Inv(r)
      && r.lastFrameIdx == frameIdx
      && r.teamsIdentified == s.teamsIdentified && r.teamAssignments == s.teamAssignments
      && r.possession == s.possession && r.teamStatsHistory == s.teamStatsHistory
      && s.players.Keys <= r.players.Keys
      && (forall pid :: pid in s.players ==> r.players[pid] == s.players[pid])
      && (forall pid :: pid in r.players && pid !in s.players ==>
            r.players[pid] == NEW_PLAYER && pid != 0 &&
            exists i :: 0 <= i < |persons| && persons[i].id == Some(pid))
  {
    var s0 := s.(lastFrameIdx := frameIdx);
    var s1 := AddPlayers(s0, persons);
    AddPlayersFacts(s0, persons);
    forall pid | pid in s1.players && pid !in s.players
      ensures exists i :: 0 <= i < |persons| && persons[i].id == Some(pid)
    {
      AppendedMembers(s0.players.Keys, persons, pid);
    }
    if !s1.teamsIdentified {
      CollectSamplesFrame(s1, persons);
      AddAndSampleInv(s0, persons);
    } else {
      AddAfterTeamsInv(s0, persons);
    }
  }

  /** Lines 163-170: identification changes only teams, labels and possession, and only once. */
  lemma IdentifyIfDueFacts(s: State, frameIdx: nat, p: Params)
    requires ValidParams(p) && Inv(s)
    ensures var r := IdentifyIfDue(s, frameIdx, p);
      && Inv(r)
      && r.players.Keys == s.players.Keys
      && (forall pid :: pid in s.players ==> r.players[pid] == s.players[pid].(team := r.players[pid].team))
      && r.lastFrameIdx == s.lastFrameIdx && r.teamStatsHistory == s.teamStatsHistory
      && (s.teamsIdentified ==> r == s)
      && (!s.teamsIdentified ==> (r.teamsIdentified <==> frameIdx > FramesToSample(p.cfg)))
  {
    if !s.teamsIdentified && frameIdx > FramesToSample(p.cfg) {
      IdentifyFacts(s, p);
      IdentifyInv(s, p);
    }
  }

  /** Lines 147-170 together. */
  lemma PrepareFacts(s: State, frameIdx: nat, persons: seq<Detection>, p: Params)
    requires ValidParams(p) && Inv(s)
    ensures var r := Prepare(s, frameIdx, persons, p);
      && Inv(r)
      && r.lastFrameIdx == frameIdx
      && r.teamStatsHistory == s.teamStatsHistory
      && s.players.Keys <= r.players.Keys
      && (forall pid :: pid in s.players ==> r.players[pid] == s.players[pid].(team := r.players[pid].team))
      && (forall pid :: pid in r.players && pid !in s.players ==>
            r.players[pid] == NEW_PLAYER.(team := r.players[pid].team) && pid != 0 &&
            exists i :: 0 <= i < |persons| && persons[i].id == Some(pid))
      && (s.teamsIdentified ==>
            && r.teamsIdentified && r.teamAssignments == s.teamAssignments && r.possession == s.possession
            && forall pid :: pid in s.players ==> r.players[pid].team == s.players[pid].team)
      && (!s.teamsIdentified ==> (r.teamsIdentified <==> frameIdx > FramesToSample(p.cfg)))
  {
    AddAndSampleFacts(s, frameIdx, persons);
    var q := CollectStage(AddPlayers(s.(lastFrameIdx := frameIdx), persons), persons);
    IdentifyIfDueFacts(q, frameIdx, p);
  }

  // ---------------------------------------------------------------------
  // One frame
  // ---------------------------------------------------------------------

  /** The loop invariant of the frame loop: every frame preserves `Inv`. */
  lemma StepPreservesInv(s: State, frameIdx: nat, persons: seq<Detection>, balls: seq<Detection>, p: Params)
    requires ValidParams(p) && Inv(s)
    ensures Inv(Step(s, frameIdx, persons, balls, p))
  {
    if Processed(frameIdx, p.cfg) {
      PrepareFacts(s, frameIdx, persons, p);
      FinishFacts(Prepare(s, frameIdx, persons, p), frameIdx, persons, balls, p);
    }
  }

  /** Frames that fail the sampling test at line 146 change nothing, not even `last_frame_idx`. */
  lemma SkippedFrameChangesNothing(s: State, frameIdx: nat, persons: seq<Detection>, balls: seq<Detection>, p: Params)
    requires ValidParams(p) && Inv(s)
    requires !Processed(frameIdx, p.cfg)
    ensures Step(s, frameIdx, persons, balls, p) == s
  {
  }

  /**
   * Records are never reset or dropped: positions only grow, distance and
   * maximum speed never fall, and touches rise by at most one per frame
   * (not at all while teams are unknown). A new record belongs to a truthy
   * id detected in this frame and has at most one touch.
   */
  lemma RecordsNeverReset(s: State, frameIdx: nat, persons: seq<Detection>, balls: seq<Detection>, p: Params)
    requires ValidParams(p) && Inv(s)
    ensures var r := Step(s, frameIdx, persons, balls, p);
      && s.players.Keys <= r.players.Keys
      && (forall pid :: pid in s.players ==>
            && s.players[pid].positions <= r.players[pid].positions
            && s.players[pid].distPixels <= r.players[pid].distPixels
            && s.players[pid].maxSpeedKmh <= r.players[pid].maxSpeedKmh
            && s.players[pid].touches <= r.players[pid].touches <= s.players[pid].touches + 1
            && (!r.teamsIdentified ==> r.players[pid].touches == s.players[pid].touches))
      && (forall pid :: pid in r.players && pid !in s.players ==>
            pid != 0 && r.players[pid].touches <= 1 &&
            exists i :: 0 <= i < |persons| && persons[i].id == Some(pid))
  {
    if Processed(frameIdx, p.cfg) {
      PrepareFacts(s, frameIdx, persons, p);
      FinishFacts(Prepare(s, frameIdx, persons, p), frameIdx, persons, balls, p);
    }
  }

  /**
   * Team identification happens once: on the first processed frame past
   * `frame_skip * team_clustering_sample_frames`. After it, the labels, the
   * set of possession keys and every existing player's team stay fixed, and
   * possession only grows, by at most one frame's time per team.
   */
  lemma TeamsIdentifiedOnce(s: State, frameIdx: nat, persons: seq<Detection>, balls: seq<Detection>, p: Params)
    requires ValidParams(p) && Inv(s)
    ensures var r := Step(s, frameIdx, persons, balls, p);
      && (!s.teamsIdentified ==>
            (r.teamsIdentified <==> Processed(frameIdx, p.cfg) && frameIdx > FramesToSample(p.cfg)))
      && (s.teamsIdentified ==>
            && r.teamsIdentified
            && r.teamAssignments == s.teamAssignments
            && r.possession.Keys == s.possession.Keys
            && (forall pid :: pid in s.players ==> r.players[pid].team == s.players[pid].team)
            && (forall t :: t in s.possession ==>
                  s.possession[t] <= r.possession[t] <= s.possession[t] + FrameSkip(p.cfg) as real / p.fps))
      && (r.teamsIdentified ==> r.possession.Keys == TeamLabels(r.teamAssignments))
  {
    if Processed(frameIdx, p.cfg) {
      PrepareFacts(s, frameIdx, persons, p);
      FinishFacts(Prepare(s, frameIdx, persons, p), frameIdx, persons, balls, p);
    }
  }

  /** A processed frame becomes `last_frame_idx`; a skipped one leaves it. */
  lemma StepLastFrame(s: State, frameIdx: nat, persons: seq<Detection>, balls: seq<Detection>, p: Params)
    requires ValidParams(p) && Inv(s)
    ensures Step(s, frameIdx, persons, balls, p).lastFrameIdx ==
      if Processed(frameIdx, p.cfg) then frameIdx else s.lastFrameIdx
  {
    if Processed(frameIdx, p.cfg) {
      PrepareFacts(s, frameIdx, persons, p);
      FinishFacts(Prepare(s, frameIdx, persons, p), frameIdx, persons, balls, p);
    }
  }

  // ---------------------------------------------------------------------
  // A whole run (lines 130-196)
  // ---------------------------------------------------------------------

  /** The state after the frames of a video, frame `i` being `frames[i]`. */
  ghost function RunFrames(frames: seq<FrameInput>, p: Params): (r: State)
    requires ValidParams(p)
    ensures Inv(r)
    decreases |frames|
  {
    if frames == [] then
      StartInv();
      START
    else
      var n := |frames| - 1;
      var s := RunFrames(frames[..n], p);
      StepPreservesInv(s, n, frames[n].persons, frames[n].balls, p);
      Step(s, n, frames[n].persons, frames[n].balls, p)
  }

  /** One more frame is one more step. */
  lemma RunFramesStep(frames: seq<FrameInput>, i: nat, p: Params)
    requires ValidParams(p) && i < |frames|
    ensures RunFrames(frames[..i + 1], p) ==
      Step(RunFrames(frames[..i], p), i, frames[i].persons, frames[i].balls, p)
  {
    assert frames[..i + 1][..i] == frames[..i];
  }

  /**
   * Over a whole run: teams are identified exactly when some processed
   * frame lies past the sampling window, and `last_frame_idx` is the last
   * processed frame (0 when none was).
   */
  lemma {:induction false} RunFacts(frames: seq<FrameInput>, p: Params)
    requires ValidParams(p)
    ensures var r := RunFrames(frames, p);
      && (r.teamsIdentified <==> exists i :: 0 <= i < |frames| && Processed(i, p.cfg) && i > FramesToSample(p.cfg))
      && (forall i :: 0 <= i < |frames| && Processed(i, p.cfg) ==> i <= r.lastFrameIdx)
      && (r.lastFrameIdx == 0 || (0 < r.lastFrameIdx < |frames| && Processed(r.lastFrameIdx, p.cfg)))
    decreases |frames|
  {
    if frames != [] {
      var n := |frames| - 1;
      var f := frames[n];
      RunFacts(frames[..n], p);
      var s := RunFrames(frames[..n], p);
      TeamsIdentifiedOnce(s, n, f.persons, f.balls, p);
      StepLastFrame(s, n, f.persons, f.balls, p);
      if Processed(n, p.cfg) && n > FramesToSample(p.cfg) {
        assert 0 <= n < |frames| && Processed(n, p.cfg) && n > FramesToSample(p.cfg);
      }
    }
  }
}
