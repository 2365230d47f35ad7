/**
 * src/events.py: the event manager's same-team pass rule. An event is a
 * change of ball owner between two distinct players of the same team.
 */
module Events {
  import opened Wrappers
  import opened Settings
  import opened Tracker
  import opened Stats

  datatype EventKind = Pass

  /** `{'type', 'frame', 'from_player_id', 'to_player_id', 'team_id'}`. */
  datatype Event = Event(kind: EventKind, frame: int, fromPlayerId: int, toPlayerId: int, teamId: nat)

  /** The manager only stores the configuration; `update` never reads or changes it. */
  datatype EventManager = EventManager(cfg: Config)

  /**
   * The situation the rule recognises: both owners are truthy and differ,
   * both are known players, and they share a team that is not None.
   */
  predicate SameTeamChange(players: map<int, PlayerData>, lastOwner: Option<int>, currentOwner: Option<int>)
  {
    && Truthy(lastOwner) && Truthy(currentOwner) && lastOwner != currentOwner
    && lastOwner.value in players && currentOwner.value in players
    && players[lastOwner.value].team.Some?
    && players[lastOwner.value].team == players[currentOwner.value].team
  }

  /** `EventManager.update(frame_idx, players, ball, last_owner_pid, current_owner_pid)`. */
  function Update(m: EventManager, frameIdx: int, players: map<int, PlayerData>, ball: Option<Detection>,
                  lastOwner: Option<int>, currentOwner: Option<int>): (r: seq<Event>)
    ensures |r| <= 1
    ensures !Truthy(lastOwner) || !Truthy(currentOwner) || lastOwner == currentOwner ==> r == []
    ensures r != [] <==> SameTeamChange(players, lastOwner, currentOwner)
    ensures r != [] ==>
      r[0] == Event(Pass, frameIdx, lastOwner.value, currentOwner.value, players[lastOwner.value].team.value)
  {
    if Truthy(lastOwner) && Truthy(currentOwner) && lastOwner.value != currentOwner.value then
      var pFrom := if lastOwner.value in players then Some(players[lastOwner.value]) else None;
      var pTo := if currentOwner.value in players then Some(players[currentOwner.value]) else None;
      if pFrom.Some? && pTo.Some? && pFrom.value.team.Some? && pFrom.value.team == pTo.value.team then
        [Event(Pass, frameIdx, lastOwner.value, currentOwner.value, pFrom.value.team.value)]
      else
        []
    else
      []
  }

  /**
   * The rule is symmetric in the two owners: a pass from `a` to `b` is
   * recognised exactly when one from `b` to `a` would be, and both carry the
   * same team.
   */
  lemma UpdateSymmetric(m: EventManager, frameIdx: int, players: map<int, PlayerData>, ball: Option<Detection>,
                        a: Option<int>, b: Option<int>)
    ensures var ab := Update(m, frameIdx, players, ball, a, b);
      var ba := Update(m, frameIdx, players, ball, b, a);
      (ab != [] <==> ba != []) && (ab != [] ==> ab[0].teamId == ba[0].teamId)
  {
  }

  /** The ball and the configuration play no part in the decision. */
  lemma UpdateIgnoresBallAndConfig(m1: EventManager, m2: EventManager, frameIdx: int, players: map<int, PlayerData>,
                                   b1: Option<Detection>, b2: Option<Detection>, lastOwner: Option<int>, currentOwner: Option<int>)
    ensures Update(m1, frameIdx, players, b1, lastOwner, currentOwner) == Update(m2, frameIdx, players, b2, lastOwner, currentOwner)
  {
  }
}
