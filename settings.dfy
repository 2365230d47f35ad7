/**
 * The flat configuration mapping read by the analysis (`cfg.get(key, default)`).
 * Every key is optional; each accessor below applies the default that the
 * code reading that key uses.
 */
module Settings {
  import opened Wrappers

  datatype Config = Config(
    frameSkip: Option<nat>,
    teamClusteringSampleFrames: Option<int>,
    pixelsToMeters: Option<real>,
    minPlayerPositions: Option<int>,
    passTimeThresholdS: Option<real>,
    passDistanceThresholdM: Option<real>)

  /** The defaults the command-line entry point passes (main.py, DEFAULT_CONFIG). */
  const DEFAULT_CONFIG: Config :=
    Config(Some(10), Some(20), Some(0.1), Some(15), None, None)

  /**
   * What the analysis reads from the command-line defaults: every tenth
   * frame, identification after 200 frames, 0.1 m per pixel for both
   * movement and passes, tracks kept from 15 positions on, and the pass
   * rule's own thresholds.
   */
  lemma DefaultConfigReadings()
    ensures FrameSkip(DEFAULT_CONFIG) == 10
    ensures FramesToSample(DEFAULT_CONFIG) == 200
    ensures MovementPixelsToMeters(DEFAULT_CONFIG) == 0.1 && PassPixelsToMeters(DEFAULT_CONFIG) == 0.1
    ensures MinPlayerPositions(DEFAULT_CONFIG) == 15
    ensures PassTimeThreshold(DEFAULT_CONFIG) == 3.0 && PassDistanceThreshold(DEFAULT_CONFIG) == 12.0
  {
  }

  /** `cfg.get('frame_skip', 1)`. */
  function FrameSkip(cfg: Config): nat {
    cfg.frameSkip.GetOr(1)
  }

  /** `frame_skip * cfg.get('team_clustering_sample_frames', 10)`. */
  function FramesToSample(cfg: Config): int {
    FrameSkip(cfg) * cfg.teamClusteringSampleFrames.GetOr(10)
  }

  /** `cfg.get('pixels_to_meters', 0.1)`, as the movement update reads it. */
  function MovementPixelsToMeters(cfg: Config): real {
    cfg.pixelsToMeters.GetOr(0.1)
  }

  /** `cfg.get('min_player_positions', 2)`, the end-of-run track filter threshold. */
  function MinPlayerPositions(cfg: Config): int {
    cfg.minPlayerPositions.GetOr(2)
  }

  /** `cfg.get('pixels_to_meters', 0.01)`, as the threshold pass rule reads it. */
  function PassPixelsToMeters(cfg: Config): real {
    cfg.pixelsToMeters.GetOr(0.01)
  }

  /** `cfg.get('pass_time_threshold_s', 3.0)`. */
  function PassTimeThreshold(cfg: Config): real {
    cfg.passTimeThresholdS.GetOr(3.0)
  }

  /** `cfg.get('pass_distance_threshold_m', 12.0)`. */
  function PassDistanceThreshold(cfg: Config): real {
    cfg.passDistanceThresholdM.GetOr(12.0)
  }
}
