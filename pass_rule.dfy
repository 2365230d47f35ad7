/**
 * events.py: the threshold pass predicate. A pass is an owner change over a
 * short time and a short distance; here an owner id is absent only when it
 * is None, so the id 0 is an owner.
 */
module PassRule {
  import opened Wrappers
  import opened Geometry
  import opened Settings

  /** `detect_pass(prev_owner_id, curr_owner_id, prev_pos, curr_pos, dt, cfg)`. */
  function DetectPass(hypot: (real, real) -> real, prevOwner: Option<int>, currOwner: Option<int>,
                      prevPos: Point, currPos: Point, dt: real, cfg: Config): (r: bool)
    ensures prevOwner.None? || currOwner.None? ==> !r
    ensures prevOwner == currOwner ==> !r
    ensures r ==> dt <= PassTimeThreshold(cfg)
  {
    if prevOwner.None? || currOwner.None? then false
    else if prevOwner == currOwner then false
    else
      var pd := PixelDistance(hypot, prevPos, currPos) * PassPixelsToMeters(cfg);
      dt <= PassTimeThreshold(cfg) && pd <= PassDistanceThreshold(cfg)
  }

  /**
   * For two distinct owners the predicate holds exactly when both inclusive
   * bounds hold, with the scale 0.01, 3.0 s and 12.0 m where the keys are absent.
   */
  lemma DetectPassIff(hypot: (real, real) -> real, a: int, b: int, prevPos: Point, currPos: Point, dt: real, cfg: Config)
    requires a != b
    ensures DetectPass(hypot, Some(a), Some(b), prevPos, currPos, dt, cfg) <==>
      dt <= cfg.passTimeThresholdS.GetOr(3.0) &&
      PixelDistance(hypot, prevPos, currPos) * cfg.pixelsToMeters.GetOr(0.01) <= cfg.passDistanceThresholdM.GetOr(12.0)
  {
  }

  /** Swapping the two positions does not change the decision. */
  lemma DetectPassPositionSymmetric(hypot: (real, real) -> real, prevOwner: Option<int>, currOwner: Option<int>,
                                    prevPos: Point, currPos: Point, dt: real, cfg: Config)
    requires IsHypot(hypot)
    ensures DetectPass(hypot, prevOwner, currOwner, prevPos, currPos, dt, cfg) ==
            DetectPass(hypot, prevOwner, currOwner, currPos, prevPos, dt, cfg)
  {
    DistanceSymmetric(hypot, prevPos, currPos);
  }

  /** The id 0 is an owner here: a quick change from 0 to another player at the same spot is a pass. */
  lemma ZeroIsAnOwner(hypot: (real, real) -> real, b: int, p: Point, dt: real, cfg: Config)
    requires IsHypot(hypot)
    requires b != 0
    requires 0.0 <= dt <= PassTimeThreshold(cfg) && 0.0 <= PassDistanceThreshold(cfg)
    ensures DetectPass(hypot, Some(0), Some(b), p, p, dt, cfg)
  {
    DistanceZeroIffEqual(hypot, p, p);
  }
}
