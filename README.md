# Football analytics frame state, in Dafny

This project models the analysis core of `football_full_analyzer1`. That core is a
video pipeline: it tracks players and the ball frame by frame and derives per-player
and per-team statistics. The model covers the following parts.

- **Frame loop** (`run_analysis` in `src/main.py`). This is the object `Analysis.Analysis`. Its
  fields are the loop variables: the player records, the position samples for team
  identification, the team snapshot, per-team possession seconds, the team statistics
  history and the last processed frame. One frame runs through these steps:
  - frame-skip sampling;
  - lazy creation of player records;
  - sample collection;
  - the one-shot team identification, using KMeans or the degenerate index labelling;
  - movement updates;
  - team statistics;
  - nearest-player ball ownership;
  - touch and possession crediting.

  `ProcessFrame` is proved equal to a value-level `FrameState.Step`. The invariant
  `FrameProperties.Inv` is proved preserved by every frame. `RunAnalysis` drives the
  whole video through `ProcessFrames`, then computes the duration and the surviving
  tracks (`filter_players`).
- **Player records** (`src/stats.py`). `Stats.PlayerRecord` is updated in place by
  `update_player_movement`. That update is specified by `Stats.Moved`, which covers:
  - the appended sample;
  - distance accrual only over a continuous step, with teleports rejected;
  - a maximum speed that only rises.

  The module also holds the per-team statistics and compactness.
- **Pass rules**:
  - the event manager's same-team owner-change rule (`src/events.py`, module `Events`);
  - the top-level threshold predicate (`events.py`, module `PassRule`).
- **Geometry** (`src/utils.py` and its duplicate `utils.py`, module `Geometry`): box
  centre, pixel distance and speed conversion.
- **Detection routing** (`tracker.py`, module `Tracker`).
- **Jersey-number selection** after OCR (`ocr_numero.py`, module `JerseyOcr`).

Modelling choices:

- **Numbers.** Coordinates, times and distances are `real`.
- **`math.hypot`** is a parameter known only through `Geometry.IsHypot`: it is
  non-negative, and its square is the sum of squares. Symmetry and zero-on-equal-points
  are proved from that.
- **KMeans** is a parameter that returns one label in {0, 1} per sample.
- **Team labels.** Python stores labels as `str(i)`. They are modelled as natural
  numbers, because `str` is injective on them.
- **Track ids.** A track id is `Option<int>`. In the `src/` files an id counts as present
  only when it is truthy: `Tracker.Truthy`, so `0` counts as absent. The top-level
  `events.py` tests `is None`, so there `0` is an owner (`PassRule.ZeroIsAnOwner`).
- **The event call.** `src/main.py:195` calls `EventManager.update` with four arguments,
  but the method takes five. The call therefore always raises, and the catch-all at line
  212 swallows it. So every processed frame ends after possession accounting (line 193),
  and no event is ever recorded. The model of a frame stops there, and
  `Events.Update` is modelled on its own signature.
- **A zero `frame_skip`.** It makes the video writer's frame rate at line 124
  divide by zero. That happens before the loop and outside its `try`, so the whole
  run aborts: `Analysis.RunAnalysis` returns `Aborted`, and the loop state is only
  built with a non-zero `frame_skip`.
- **Frames that raise.** Other frames that raise are modelled as raising, not
  skipped:
  - When `pixels_to_meters` is absent from the configuration, `calculate_team_stats`
    raises at `src/stats.py:73` for any team with two or more located players. The
    frame then keeps its movement updates, but gets no history entry and no
    touch/possession credit (`FrameState.RecordStats` returns `None`).
- **Defaults.** The configuration is `Settings.Config`, with the `cfg.get` defaults
  applied per reader. `Settings.DEFAULT_CONFIG` holds the command-line defaults of
  `main.py:7-18`.

## Model

| member | source | states |
|---|---|---|
| Geometry.BoxCenter | src/utils.py:3-13 | the centre is the componentwise midpoint of the corners and lies between them |
| Geometry.DistanceNonNegative | src/utils.py:15-24 | `pixel_distance` is never negative |
| Geometry.DistanceSymmetric | src/utils.py:15-24 | `pixel_distance(p, q) == pixel_distance(q, p)` |
| Geometry.DistanceZeroIffEqual | src/utils.py:15-24 | the distance is 0 exactly when the two points are equal |
| Geometry.SpeedKmh | src/utils.py:26-40 | 0 when `dt_seconds <= 0`; non-negative for non-negative pixels and scale |
| Geometry.SpeedKmhIsMetersPerSecond | src/utils.py:38-40 | for `dt > 0`, speed times `dt` equals `pixels * pixels_to_meters * 3.6` |
| Geometry.SpeedKmhLinear | src/utils.py:38-40 | the speed scales linearly with the pixel distance |
| Tracker.RouteOfMeaning | tracker.py:23-36 | a readable box goes to the persons iff its class is in the name table as "person", and to the balls iff it is there under a ball name |
| Tracker.RoutedIds | tracker.py:24-36 | a routed detection carries id `pid` iff a box taking that route has a convertible `id` equal to `pid` |
| Tracker.IntToStringStart | tracker.py:23 | the fallback name `str(cls)` starts with a digit or a minus sign, so it is never a routed name |
| Tracker.ParseFrameResults | tracker.py:3-37 | a result without boxes gives two empty lists; otherwise persons and balls are the boxes of each route, in box order |
| Tracker.SelectAppend | tracker.py:10-36 | routing distributes over concatenation of box lists (order preserved) |
| Tracker.SelectOrigins | tracker.py:33-36 | every routed entry comes from a box of that route, at strictly increasing positions |
| Tracker.SelectComplete | tracker.py:33-36 | every box that takes a route appears in that route's list |
| Tracker.UnknownClassIsDropped | tracker.py:23-36 | a class missing from the name table is dropped |
| Tracker.UnparseableBoxesSkipped | tracker.py:11-22 | boxes that neither parsing route can read contribute nothing |
| Stats.Moved | src/stats.py:19-43 | sample appended and made the last sighting; touches and team unchanged; distance accrues iff the step is continuous (`frame_idx - last_frame < frame_skip*5`); max speed only rises, only to a strictly larger timed step speed, and a timed continuous step (`dt > 0`) always sets it to the larger of the old maximum and the step speed; record invariant kept |
| Stats.PlayerRecord.constructor | src/main.py:155 | a new record has zero counters, no positions, no last sighting and no team |
| Stats.PlayerRecord.UpdateMovement | src/stats.py:19-43 | the in-place update leaves the record equal to `Moved` of its old value |
| Stats.MovementAccumulates | src/stats.py:19-43 | over any sequence of updates: all samples appended in order, distance and max speed never fall, touches and team untouched |
| Stats.RepeatedSightingAddsNothing | src/stats.py:30-40 | a second sighting at the same frame and place accrues no distance or speed |
| Stats.TeleportAccruesNothing | src/stats.py:30-34 | a sighting `frame_skip*5` or more frames later accrues nothing but becomes the last sighting |
| Stats.PairwiseSumNonNegative | src/stats.py:14-17 | the sum of all `pdist` entries is non-negative |
| Stats.CompactnessBounds | src/stats.py:5-17 | compactness is 0 below two points, non-negative, and the distance itself for two points |
| Stats.TeamPositionsMembers | src/stats.py:62-67 | a team's positions are exactly the last positions of its located members |
| Stats.TeamPositionsCount | src/stats.py:62-67 | a team's position list has exactly one entry per member with a last position |
| Stats.TeamStatForMeaning | src/stats.py:62-73 | one team's entry: positions are the located members' last positions in record order, the count is the number of located members, compactness is 0 unless count > 1 and non-negative for a non-negative scale |
| Stats.TeamStatsMeaning | src/stats.py:45-75 | one entry per non-None label; positions are the located members' last positions in record order; the count is the number of located members; compactness is 0 unless count > 1, and non-negative for a non-negative scale |
| Stats.GatherTeams | src/stats.py:49-67 | the counting passes build the per-label entries of `Gathered` |
| Stats.ScaleTeams | src/stats.py:69-73 | raises (missing) iff the scale is absent and some team has more than one located member; otherwise sets every team's metric compactness |
| Stats.CalculateTeamStats | src/stats.py:45-75 | returns `TeamStatsOf` (None where the source raises) |
| Events.Update | src/events.py:14-46 | at most one event; none for falsy or equal owners; an event iff both are known players sharing a non-None team; the event's type, frame, ids and team |
| Events.UpdateSymmetric | src/events.py:32-37 | swapping the two owners keeps the decision and the team |
| Events.UpdateIgnoresBallAndConfig | src/events.py:14-46 | the ball and the manager's configuration do not affect the result |
| PassRule.DetectPass | events.py:4-11 | false for a None owner or equal owners; true only within the time threshold |
| PassRule.DetectPassIff | events.py:8-11 | for distinct owners: true iff both inclusive bounds hold, with defaults 0.01, 3.0 s and 12.0 m |
| PassRule.DetectPassPositionSymmetric | events.py:8 | swapping the two positions does not change the decision |
| PassRule.ZeroIsAnOwner | events.py:6 | the id 0 is an owner in this rule (`is None` test) |
| JerseyOcr.Digits | ocr_numero.py:26 | the filtered text is no longer than the input and all digits |
| JerseyOcr.DigitsAppend | ocr_numero.py:26 | the filter of a concatenation is the concatenation of the filters, so the digits keep their order |
| JerseyOcr.DigitsSingle | ocr_numero.py:26 | a single character is kept iff it is a digit |
| JerseyOcr.DigitsCounts | ocr_numero.py:26 | every digit occurrence is kept, and nothing else |
| JerseyOcr.DigitsOfDigits | ocr_numero.py:26 | a string of digits passes unchanged |
| JerseyOcr.DigitsIdempotent | ocr_numero.py:26 | filtering twice is filtering once |
| JerseyOcr.CandidatesMeaning | ocr_numero.py:24-28 | a candidate is exactly the digits of a reading that has at least one digit, with its probability |
| JerseyOcr.FirstMaximum | ocr_numero.py:29-31 | the chosen candidate has the highest probability and is the earliest such (stable sort) |
| JerseyOcr.NumberOfMeaning | ocr_numero.py:24-34 | None iff no reading has a digit; otherwise a non-empty digit string from a reading with maximal probability |
| JerseyOcr.SliceLength | ocr_numero.py:18 | a Python slice never holds more rows or columns than the frame |
| JerseyOcr.BandWithinBox | ocr_numero.py:12-17 | the crop band lies between the box's top and bottom rows |
| JerseyOcr.ReadNumber | ocr_numero.py:10-34 | None for an empty crop or a failing reader; otherwise the best-candidate number |
| FrameState.Appended | src/main.py:152-155 | the ids that get new records are distinct, truthy and previously unknown |
| FrameState.AppendedMembers | src/main.py:152-155 | an id gets a record iff it is truthy, unknown, and detected in the frame |
| FrameState.CollectSamplesKeys | src/main.py:158-161 | sampling adds the same new ids in the same order as record creation |
| FrameState.CollectSamplesFrame | src/main.py:158-161 | sampling only extends the sample lists and leaves no new list empty |
| FrameState.CollectSamplesReady | src/main.py:158-161 | every sampled id keeps at least one sample |
| FrameState.LabelByIndex | src/main.py:14-17 | labelling by index keeps the record ids |
| FrameState.LabelByCluster | src/main.py:23-25 | labelling by cluster keeps the record ids |
| FrameState.MoveAll | src/main.py:174-178 | moving the players keeps the record ids |
| FrameState.NearestIsFirstMinimum | src/main.py:32-38 | the chosen person's distance is minimal and every earlier person is strictly farther (strict `<`) |
| FrameState.BallOwner | src/main.py:28-38 | no owner iff the ball is absent or no person is detected; otherwise the owner is one of the persons |
| FrameState.CollectStage | src/main.py:158-161 | collection keeps every listed id sampled |
| FrameProperties.StartInv | src/main.py:130-143 | the initial state satisfies the loop invariant |
| FrameProperties.AddPlayersFacts | src/main.py:152-155 | existing records are untouched; new records are fresh and their ids are appended without repetition |
| FrameProperties.RecordsFromPersonBoxes | src/main.py:152-155 | after routing a frame's boxes and adding tracks, an id has a record iff it had one or it is non-zero and some person box carries it as a convertible `id`; absent, unconvertible or zero ids create nothing |
| FrameState.RecsIndexed | src/stats.py:62 | when every listed id has a record, the records in dictionary order are exactly those records, one per id |
| FrameProperties.LocatedPlayersCount | src/stats.py:62-67 | listing records by a repetition-free order counts each located member of a team once |
| FrameProperties.RecordsAreThePlayers | src/main.py:182 | the records passed to `calculate_team_stats` are the players, each once; a team's located members number as many as its players with a last position |
| FrameProperties.TeamCountIsPlayerCount | src/main.py:180-183 | in a frame's team statistics, `player_count` is the number of players on that team with a last position |
| FrameProperties.LabelByIndexKeeps | src/main.py:14-17 | labelling by index changes only team fields |
| FrameProperties.LabelByIndexLabels | src/main.py:14-17 | the `k`-th player in dictionary order gets label `k` |
| FrameProperties.DegenerateLabelsDistinct | src/main.py:14-17 | in the degenerate case the labels of distinct players are distinct |
| FrameProperties.LabelByClusterKeeps | src/main.py:23-25 | labelling by cluster changes only team fields |
| FrameProperties.LabelByClusterLabels | src/main.py:23-25 | only sampled ids that are players are labelled, each with 0 or 1 |
| FrameProperties.DegenerateCaseAtMostOnePlayer | src/main.py:14 | before identification there are as many sampled tracks as records, so the degenerate branch labels at most one player |
| FrameProperties.AssignTeamsFacts | src/main.py:13-26 | every player gets a label, and only the team field changes |
| FrameProperties.IdentifyFacts | src/main.py:163-170 | snapshot has one entry per player; possession has one zero entry per non-None label |
| FrameProperties.IdentifyInv | src/main.py:163-170 | identification keeps the invariant |
| FrameProperties.MoveAllKeeps | src/main.py:174-178 | movement adds no record, keeps touches and teams, only extends positions, never lowers distance or speed |
| FrameProperties.CreditMeaning | src/main.py:189-193 | exactly the owner's touches rise by one and its team's possession by `frame_skip/fps`, and only when teams are known and the owner is a truthy known id |
| FrameProperties.CreditFacts | src/main.py:189-193 | crediting keeps the invariant, touches rise by at most one, possession by at most one frame's time |
| FrameProperties.RecordStatsFacts | src/main.py:180-183 | statistics change only the history, and only once teams are known |
| FrameProperties.FinishFacts | src/main.py:174-193 | the second half of a frame keeps ids, teams and labels; accumulators only grow |
| FrameProperties.AddAndSampleFacts | src/main.py:147-161 | new tracks get fresh records (and samples while teams are unknown); existing records untouched |
| FrameProperties.IdentifyIfDueFacts | src/main.py:163-170 | identification happens only once, on the first processed frame past the window |
| FrameProperties.PrepareFacts | src/main.py:147-170 | the first half of a frame keeps the invariant and only relabels existing records |
| FrameProperties.StepPreservesInv | src/main.py:144-196 | every frame preserves the loop invariant |
| FrameProperties.SkippedFrameChangesNothing | src/main.py:146 | a frame with `frame_idx % frame_skip != 0` changes no state |
| FrameProperties.RecordsNeverReset | src/main.py:152-193 | records are never dropped or reset; positions, distance, speed only grow; touches rise by at most one per frame, not at all before teams; new records belong to detected truthy ids |
| FrameProperties.TeamsIdentifiedOnce | src/main.py:163-193 | identification fires exactly on the first processed frame past `frame_skip*sample_frames`; afterwards labels, possession keys and teams are fixed and possession only grows; possession keys are the non-None labels |
| FrameProperties.StepLastFrame | src/main.py:146-147 | a processed frame becomes `last_frame_idx`; a skipped one leaves it |
| FrameProperties.RunFrames | src/main.py:144-196 | the state after a whole video satisfies the invariant |
| FrameProperties.RunFramesStep | src/main.py:144 | each further frame of the video is one more step |
| FrameProperties.RunFacts | src/main.py:144-170 | over a run, teams are identified iff some processed frame lies past the window; `last_frame_idx` is the last processed frame |
| Analysis.FindBallOwner | src/main.py:28-38 | the running-minimum loop returns `BallOwner`: the first nearest person, None without ball or persons |
| Analysis.FilterPlayers | src/main.py:40-41 | keeps exactly the tracks with at least `min_positions` positions, as the same records, a subset of the keys |
| Analysis.FilterPlayersIdempotent | src/main.py:40-41 | filtering twice is filtering once; a higher threshold keeps fewer tracks |
| Settings.DefaultConfigReadings | main.py:7-18 | with the command-line defaults the analysis reads frame_skip 10, 200 sampling frames, 0.1 m per pixel, 15 minimum positions and the pass rule's 3.0 s / 12.0 m |
| Analysis.Analysis.constructor | src/main.py:117-143 | the frame rate falls back to 25 when the video reports 0; the state is the initial one and valid |
| Analysis.Analysis.AddPlayer | src/main.py:155 | one fresh record under a new id, appended to the order; nothing else changes |
| Analysis.Analysis.AddTracks | src/main.py:152-155 | records and order become `WithNewRecords`/`Appended` of the detections; old records are the same objects |
| Analysis.Analysis.AddNewPlayers | src/main.py:152-155 | the state becomes `AddPlayers` of the old state |
| Analysis.Analysis.CollectInitialPositions | src/main.py:158-161 | the state becomes `CollectSamples` of the old state |
| Analysis.Analysis.SetTeam | src/main.py:16 | only the given record's team changes |
| Analysis.Analysis.LabelPlayersByIndex | src/main.py:14-17 | records become `LabelByIndex` of their old values |
| Analysis.Analysis.LabelPlayersByCluster | src/main.py:23-25 | records become `LabelByCluster` of their old values |
| Analysis.Analysis.AssignTeamsByClustering | src/main.py:13-26 | records become `AssignTeams` of the old state |
| Analysis.Analysis.Assignments | src/main.py:166 | the snapshot maps every player to its current team |
| Analysis.Analysis.RecordIdentification | src/main.py:166-170 | stores the snapshot, one zero possession per label, and marks teams identified |
| Analysis.Analysis.IdentifyTeams | src/main.py:163-170 | the state becomes `Identify` of the old state |
| Analysis.Analysis.MoveOne | src/main.py:176-178 | only the given record moves, by `Moved` |
| Analysis.Analysis.MovePlayers | src/main.py:174-178 | records become `MoveAll` of their old values |
| Analysis.Analysis.Records | src/stats.py:62-63 | the records in dictionary order |
| Analysis.Analysis.AddTouch | src/main.py:190 | only the given record's touches rise by one |
| Analysis.Analysis.CreditOwner | src/main.py:189-193 | the state becomes `Credit` of the old state |
| Analysis.Analysis.AddAndCollect | src/main.py:147-161 | the state becomes `CollectStage(AddPlayers(...))` with the frame noted |
| Analysis.Analysis.PrepareFrame | src/main.py:147-170 | the state becomes `Prepare` of the old state |
| Analysis.Analysis.RecordTeamStats | src/main.py:180-183 | completes iff the statistics do not raise, appending them to the history |
| Analysis.Analysis.FinishFrame | src/main.py:174-193 | the state becomes `Finish` of the old state |
| Analysis.Analysis.ProcessFrame | src/main.py:146-193 | the state becomes `Step` of the old state and stays valid; existing records are never replaced |
| Analysis.Analysis.ProcessFrames | src/main.py:144-196 | after all frames the state is `RunFrames` of the video and valid |
| Analysis.Analysis.EndOfRun | src/main.py:218-223 | the duration is `last_frame_idx / fps`; survivors are `filter_players` with `min_player_positions` (default 2) |
| Analysis.AnalyseFrames | src/main.py:130-223 | the run's parameters are the given configuration, distance and clustering, with the frame rate falling back to 25 when the video reports 0 (line 117); the loop over all frames ends in the valid state `RunFrames` of the video under those parameters; duration and surviving tracks as at the end of the run |
| Analysis.RunAnalysis | src/main.py:124-223 | aborts iff `frame_skip` is 0 (line 124 divides by it before the loop); otherwise completes with the given configuration, distance and clustering and the frame rate of line 117 (25 when the video reports 0), final state `RunFrames` under them, duration `last_frame_idx / fps` and the surviving tracks |

## Left out

- Floating point: reals replace IEEE doubles. `round(..., 2)` at `src/stats.py:73` is not modelled (the compactness is exact). `int(...)` on a box coordinate (`ocr_numero.py:12, 16-17`) raises on an infinite or NaN float; the model's coordinates are reals, so `Trunc` always has a value.
- `math.hypot` and sklearn `KMeans` are foreign calls and are parameters: `hypot` is constrained by `IsHypot`; KMeans only by returning one label in {0, 1} per sample. `scipy.pdist` and `np.mean` are modelled: `Stats.PairwiseSum` sums `PixelDistance` over all pairs `i < j`, built on `hypot`, and the centroid is `FrameState.MeanPoint`.
- Video capture and writing, frame annotation and `draw_annotations` (`src/main.py:116-128, 198-211`), `export_results` (`src/main.py:43-108`), `src/visualization.py`, `src/tactical_analysis.py`, the detectors, the web application, the model download script, the `main.py` argument parsing and `load_config` (file I/O) are not part of this model.
- `EventManager.update` is never reached from the frame loop (see above). The loop variables `last_owner_pid`, `current_owner_pid` and `events` are therefore dead, and they are not state of `Analysis`.
- Tensor unwrapping in `tracker.py` is not modelled: a raw box carries the values one parsing route produced, or nothing.
- EasyOCR and the pixel contents of the crop are not modelled: the reader is an optional list of `(text, prob)` readings, None when it raises.
- JerseyOcr.IsDigit: only ASCII `0`-`9` count as digits; Python's `str.isdigit` also accepts other Unicode digits.
- JerseyOcr.FirstMaximum: the stable sort by descending probability is modelled by the element it puts first, not as a sorted list.
- Analysis.Analysis.constructor: requires a non-negative reported frame rate; a negative `CAP_PROP_FPS` is not modelled. It also requires a non-zero `frame_skip`, because line 124 aborts the run before the loop state exists; `Analysis.RunAnalysis` models that abort.
- Settings.FrameSkip: `frame_skip` is a natural number; a negative configured value is not modelled.
- The top-level `utils.py` (lines 5-18) repeats `box_center`, `pixel_distance` and `speed_kmh` with the same arithmetic; the `Geometry` members model both copies and cite only `src/utils.py`.
- The stats arguments of `calculate_team_stats` are the records in dictionary order as values; the dictionaries' other keys (`'center'` added to detections at line 177) are not modelled.
