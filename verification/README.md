# Taramandal: verified models

Taramandal flies drone light shows. These Dafny modules model the arithmetic and the state machines that
decide what flies, and prove what the code promises about them.

Check everything with `dafny verify dfyconfig.toml`.

## What is modelled

**Clearance over continuous time.** `AbortPath` and `AbortClearance` model the abort check of the drone
manager: a point moving along a vertical, lateral-then-vertical or free-fall path between a slowest and a
fastest progress, checked against neighbours at sample times with a pad. `AbortFlight` writes the flight itself
down, at any modelled speeds: a clear report holds at every real instant until the drone is down. `MinimumJerk`, `TransitionLeg`, `KdTree`, `LegSeparation` and `StartBridge` model
the start bridge: the closest-approach check behind the KD-tree is empty exactly when every pair of legs keeps
the limit at every instant, the leg respects its speed, and bridging only delays the show. `Geometry` and
`Vectors` hold interpolation, sampling and the norm facts both rest on.

**Compilers and codecs.** `Bytes`, `Layout`, `Mission`, `MissionContents`, `OnboardMission` and `MissionMeaning`
follow a show from its waypoints to mission bytes, back to waypoints, and to the target the onboard executor flies:
half a centimetre per axis from the show at every elapsed time. `ShowIdentity` proves what the show digest
determines. `Blackbox`, `BlackboxRecorder` and `BlackboxMeaning` prove that the delta-coded log decodes
to exactly the recorded ticks and events, from any prefix of its lines, and that a decoded tick is the telemetry
it was sampled from.

**Protocols and machines.** `SyncChecksum`, `BroadcastFrame`, `Broadcast` and `BroadcastRuns` model the
authenticated downlink over every lossy, reordering, duplicating channel. `FleetFsm`, `Lifecycle`,
`DroneManager` and `LifecycleRuns` model the lifecycle table, the telemetry monitor that drives it and the
launch bookkeeping. `PreflightPolicy`, `Preflight` and `PreflightRuns` model the pre-arm rules, profiles and
two-step confirmations. `FleetDrone`, `FleetBehaviour`, `FleetState` and `FleetRuns` model the simulated
fleet under any interleaving of commands and ticks.

**Validation and schedule.** `Safety`, `Report`, `Proximity`, `Altitude`, `Validate`, `ProximitySweep`,
`SampledShow` and `ShowValidation` model the limits, the show validator and the upload gates and prove that a
certified show clears the gates. `Tdma` proves that the uplink slots tile the epoch and when frames can never collide.

Objects whose methods update fields are classes (`BlackboxRecorder.Recorder`, `Broadcast.BroadcastManager`,
`Broadcast.BroadcastReceiver`, `FleetFsm.FleetStateMachine`, `DroneManager.LaunchMonitor`,
`Preflight.PreArmChecklistEngine`, `FleetState.Fleet`). Each method is tied to a step function on values, and
the run theorems are about those functions.

## How library calls and the outside world appear

Arithmetic is exact: `real` stands for floats. The square root is a parameter known only by its contract
(`Vectors.IsSqrt`). The KD-tree queries are methods with their contracts. CRC-32,
SHA-256 and HMAC are function parameters of which only the output length is used. Clock readings, tokens,
telemetry, wind, rotor response, link states and disk failures are inputs. That nobody without the key makes a
verifying frame (RFC 2104 HMAC, truncated as in section 5 of RFC 2104) is the hypothesis
`BroadcastRuns.Authentic`.

## Where the code and its documentation differ

- `record_tick` says it returns whether a row was written. An accepted, due tick of an empty fleet answers True
  without one, and one whose flush fails answers False with one: `BlackboxRecorder.ReturnMeansWritten` proves that
  these are the only exceptions, `BlackboxRecorder.ReturnMisleads` that both happen.
- `build_frame` says a restarted sender starts above anything its previous run sent. It does exactly when its
  clock reads above everything sent (`BroadcastRuns.RestartAboveSentExactly`), and is heard exactly when it reads
  above the last accepted counter (`BroadcastRuns.RestartHeardExactly`). `BroadcastRuns.SteppedClockDeafens` is the
  run in which a clock set back leaves the fleet deaf; an advancing clock is enough for any number of restarts
  (`BroadcastRuns.DeliversAcrossRestarts`).
- `report_subset` describes its input as time-ordered. For the sweep's violations that holds
  (`ShowValidation.SweepListsInTimeOrder`). The altitude scan goes drone by drone, so its violations, and the
  reports made of them, need not be (`Altitude.BreachesOutOfTimeOrder`). They are if each drone's breaches are in
  time order and no drone breaches later than one listed after it, and, unless a report is cut, only then
  (`Altitude.FoundInTimeOrder`, `Altitude.AltitudeReportInTimeOrder`).
- The show identity does not cover whether a show carries light data: a red channel of 0 and no red channel have
  one digest and different mission flags (`ShowIdentity.LedFlagNotInIdentity`). That flag is all it misses: with it
  the identity determines every mission file (`ShowIdentity.IdentityAndFlagDetermineFiles`).

## Model

| member | source | states |
|---|---|---|
| Geometry.BisectLeft | packages/tara-core/tara_core/geometry.py:55-60 | the left-biased search: everything just before the result is earlier, the result itself is not, for any list |
| Geometry.OnSegment | packages/tara-core/tara_core/geometry.py:48-80 | on increasing times, any segment containing an instant, its ends included, gives the interpolated position |
| Geometry.Lipschitz | packages/tara-core/tara_core/geometry.py:23-81 | a track whose segments keep a speed moves at most that speed times the elapsed time between any two instants, outside its span too |
| Geometry.SweepCovers | packages/tara-core/tara_core/geometry.py:193-205 | every instant of the sweep is within half an interval of a sample |
| Geometry.SweepReachesEnd | packages/tara-core/tara_core/geometry.py:193-205 | the last sample is at the end of the timeline or after it, by less than an interval |
| Geometry.ArcIsDifference | packages/tara-core/tara_core/geometry.py:65-69 | the arc leads from one heading to the other and lies above -180 and at most at 180 degrees |
| Geometry.ArcIsShortest | packages/tara-core/tara_core/geometry.py:65-69 | no other way between the two headings is shorter |
| AbortPath.PathLipschitz | packages/tara-gcs/tara_gcs/drone_manager.py:261-283 | arc length bounds distance along every abort path, around the corner included |
| AbortPath.DistanceToLegIsLeast | packages/tara-gcs/tara_gcs/drone_manager.py:218-221 | the clamped projection gives the least distance to any point of the stretch |
| AbortPath.StretchDistanceIsLeast | packages/tara-gcs/tara_gcs/drone_manager.py:284-320 | the distance used at a sample is at most the distance to every point the drone may occupy then |
| AbortPath.StretchDistanceAttained | packages/tara-gcs/tara_gcs/drone_manager.py:284-320 | and some point the drone may occupy is at exactly that distance |
| AbortPath.SlowestBeforeFastest | packages/tara-gcs/tara_gcs/drone_manager.py:196-215 | the slowest progress never exceeds the fastest, in all three modes |
| AbortPath.ProgressGrowth | packages/tara-gcs/tara_gcs/drone_manager.py:273-280 | within half a sample interval both progresses grow by at most the modelled abort speed times the time |
| AbortFlight.FlightOnPath | packages/tara-gcs/tara_gcs/drone_manager.py:146-158 | the position of a drone flying one modelled timing is the point of the path at the arc length it has covered |
| AbortFlight.ProgressInStretch | packages/tara-gcs/tara_gcs/drone_manager.py:196-215 | every modelled timing stays between the slowest and the fastest progress |
| AbortFlight.TimingFor | packages/tara-gcs/tara_gcs/drone_manager.py:196-215 | every arc length between the two is where some modelled timing is |
| AbortFlight.HorizonIsLanding | packages/tara-gcs/tara_gcs/drone_manager.py:189-193 | the horizon is the landing time of the slowest timing |
| AbortFlight.LandedExactly | packages/tara-gcs/tara_gcs/drone_manager.py:189-215 | a timing has covered the whole path exactly from its landing time on |
| AbortFlight.LandsInTime | packages/tara-gcs/tara_gcs/drone_manager.py:189-193 | no modelled timing lands after the horizon |
| AbortFlight.PointPassed | packages/tara-gcs/tara_gcs/drone_manager.py:189-215 | the slowest timing passes every point of the path up to the horizon |
| AbortFlight.PathEnds | packages/tara-gcs/tara_gcs/drone_manager.py:260-284 | the path ends on the ground, at the pad for RTL and below the start otherwise |
| AbortClearance.TopSpeedIsMaximum | packages/tara-gcs/tara_gcs/drone_manager.py:305-311 | the neighbour's top speed bounds the speed of every segment and is reached by one |
| AbortClearance.SamplesSuffice | packages/tara-gcs/tara_gcs/drone_manager.py:269-322 | no padded hit at any sample means at least the threshold at every real instant up to the landing of the slowest timing, for every progress between slowest and fastest |
| AbortClearance.HitIsNearPass | packages/tara-gcs/tara_gcs/drone_manager.py:318-329 | a hit is a point the drone may really occupy at that sample, nearer than the padded limit |
| AbortClearance.ClearFlight | packages/tara-gcs/tara_gcs/drone_manager.py:146-339 | no near point of the checked stretch means that the drone, flown at any modelled speeds, keeps the threshold from the neighbour until it is down |
| AbortClearance.WholePathClear | packages/tara-gcs/tara_gcs/drone_manager.py:189-339 | every point of the path, the landing place included, is checked at an instant at which the drone may be there |
| AbortClearance.NearPassIsFlown | packages/tara-gcs/tara_gcs/drone_manager.py:318-329 | a reported near pass is one some modelled timing flies, at that time and distance |
| AbortClearance.AbortClearance | packages/tara-gcs/tara_gcs/drone_manager.py:224-339 | clear exactly when no sample hits; clear means that a drone flown at any modelled speeds keeps the threshold from every neighbour until it is down; every neighbour with a hit is listed, every conflict is a real near pass, and conflicts are sorted by distance |
| MinimumJerk.MinJerkRise | packages/tara-gcs/tara_gcs/start_bridge.py:51-54 | the polynomial rises on [0,1], by at most 15/8 of the step |
| MinimumJerk.FlatEnds | packages/tara-gcs/tara_gcs/start_bridge.py:51-54 | the profile leaves its start no faster than a cube and ends as it starts: zero speed and acceleration at both ends |
| TransitionLeg.LegSpeed | packages/tara-gcs/tara_gcs/start_bridge.py:111-119 | with the computed number of steps no interval of any leg exceeds the peak speed |
| TransitionLeg.StepsLeast | packages/tara-gcs/tara_gcs/start_bridge.py:111-114 | no smaller number of at least ten steps keeps the peak speed |
| TransitionLeg.LegHeading | packages/tara-gcs/tara_gcs/start_bridge.py:133-139 | the leg's waypoints are 0.1 s apart and point along the first waypoint's heading |
| TransitionLeg.BridgeStartsWithLeg | packages/tara-gcs/tara_gcs/start_bridge.py:129-141 | up to the bridge time the bridged track is the sampled leg, from the hold to the first waypoint |
| TransitionLeg.BridgedIncreasing | packages/tara-gcs/tara_gcs/start_bridge.py:121-141 | the bridged track is time-ordered exactly when the show is and its first waypoint is later than -0.1 s, one sample before its start |
| TransitionLeg.BridgeOnlyDelays | packages/tara-gcs/tara_gcs/start_bridge.py:121-141 | position of the bridged track at the bridge time plus t is the show's position at t, the inserted waypoint included |
| KdTree.QueryPairs | packages/tara-gcs/tara_gcs/start_bridge.py:187 | the query contract: exactly the index pairs within the radius, each once |
| KdTree.QueryNearest | packages/tara-core/tara_core/proximity.py:67-69 | the query contract: every point's distance to its nearest other point |
| LegSeparation.ClosestIsClosest | packages/tara-gcs/tara_gcs/start_bridge.py:191-195 | the clamped quadratic minimiser gives the closest approach of an interval |
| LegSeparation.PrefilterSafe | packages/tara-gcs/tara_gcs/start_bridge.py:184-190 | a pair beyond limit plus reach cannot come below the limit in the interval |
| LegSeparation.ApartByIntervals | packages/tara-gcs/tara_gcs/start_bridge.py:153-206 | all intervals clear exactly when every pair keeps the limit at every real time of the leg |
| LegSeparation.LegSeparationErrors | packages/tara-gcs/tara_gcs/start_bridge.py:153-206 | no errors exactly when every pair of legs keeps the limit at every real time, although distant pairs are never examined; every error is an actual closest approach below the limit |
| LegSeparation.ReportedReally | packages/tara-gcs/tara_gcs/start_bridge.py:196-206 | a reported conflict is how far apart the two named drones are at that instant of the leg, and the least of its interval |
| StartBridge.SeparatedStart | packages/tara-gcs/tara_gcs/start_bridge.py:121-150 | separated legs make a bridged plan that keeps the limit through the whole transition |
| StartBridge.DelayedPlan | packages/tara-gcs/tara_gcs/start_bridge.py:121-141 | every drone of a bridged plan flies its own show, later by the bridge |
| StartBridge.GentleStart | packages/tara-gcs/tara_gcs/start_bridge.py:111-141 | every drone starts at its hold and keeps the peak speed up to the bridge time |
| StartBridge.FacesShow | packages/tara-gcs/tara_gcs/start_bridge.py:116-141 | every bridged drone points along its first waypoint's heading throughout its leg |
| StartBridge.LongestWithin | packages/tara-gcs/tara_gcs/start_bridge.py:104-109 | the longest leg is what every drone holds within of its first waypoint |
| StartBridge.BridgeNoLonger | packages/tara-gcs/tara_gcs/start_bridge.py:111-115 | the bridge is no longer than the longest leg needs at the peak speed, or a second |
| StartBridge.RefusalExplained | packages/tara-gcs/tara_gcs/start_bridge.py:143-206 | a refusal names two drones that the bridged plan would bring as near as reported at the reported instant |
| StartBridge.BuildStartBridge | packages/tara-gcs/tara_gcs/start_bridge.py:57-150 | refused exactly for unknown positions or legs below the limit at some instant; otherwise separated, gentle and only delaying; without delay exactly when every drone holds within the tolerance |
| Bytes.LeRoundTrip | packages/tara-core/tara_core/mission.py:75-76 | little-endian unsigned integers decode to themselves |
| Bytes.LeByte | packages/tara-core/tara_core/mission.py:14-34 | byte k of an encoded integer has weight 256^k |
| Bytes.Signed16RoundTrip | packages/tara-core/tara_core/mission.py:75-76 | two's-complement 16-bit integers decode to themselves |
| Layout.PadsAreEvenCentimetres | packages/tara-core/tara_core/layout.py:95-99 | every pad of the default 1000-drone grid lies at an even number of whole centimetres |
| Layout.PadsApart | packages/tara-core/tara_core/layout.py:86-99 | pads of any grid are at least the spacing apart along one axis |
| Layout.RowsInside | packages/tara-core/tara_core/layout.py:86-99 | no row reaches beyond the geofence radius, unless one pad alone would |
| Mission.EncodeRecords | packages/tara-core/tara_core/mission.py:125-157 | the loop's bytes are the packed quantised records, or its first error |
| MissionContents.QuantisesExactly | packages/tara-core/tara_core/mission.py:125-157 | records exist exactly when the file can carry every waypoint; otherwise the first it cannot carry, and its first failing check, decide the error |
| MissionContents.CompilesExactly | packages/tara-core/tara_core/mission.py:185-224 | a mission compiles exactly for a 16-byte show id, a drone id and count that fit and waypoints the file can carry; the order of the refusals |
| Mission.UnpackPack | packages/tara-core/tara_core/mission.py:146-156 | a record decodes to itself |
| Mission.PackAllInjective | packages/tara-core/tara_core/mission.py:146-157 | different record lists have different bytes |
| Mission.DecodeMission | packages/tara-core/tara_core/mission.py:246-276 | the decoding loop reads exactly the header's records, or fails as the checks say |
| Mission.DecodeCompile | packages/tara-core/tara_core/mission.py:185-276 | decoding a compiled mission gives back its header and exactly the dequantised records |
| MissionContents.FileKeepsShow | packages/tara-core/tara_core/mission.py:125-276 | a decoded file has every waypoint's time within half a millisecond, position within half a centimetre per axis of the pad's frame, heading within half a centidegree up to whole turns, its own red, green and blue when the show has light data and none otherwise, in time order, under a header with the drone, show, count, flag and duration |
| MissionContents.FileLayout | packages/tara-core/tara_core/mission.py:14-34 | every field of every accepted file is where the format documentation puts it |
| Mission.TruncationDetected | packages/tara-core/tara_core/mission.py:227-268 | every proper prefix of a compiled mission is refused |
| OnboardMission.SearchRight | packages/tara-sim/tara_sim/fleet_state.py:536 | the right-biased search contract, for any list |
| OnboardMission.SearchesAgree | packages/tara-sim/tara_sim/fleet_state.py:512-554 | on increasing times the onboard executor and the interpolation give one position at every elapsed time, waypoint instants included |
| OnboardMission.MotionAgrees | packages/tara-sim/tara_sim/fleet_state.py:512-554 | strictly inside a segment the two also give one velocity and one yaw |
| OnboardMission.HeadingAtWaypoint | packages/tara-sim/tara_sim/fleet_state.py:536-554 | at an inner waypoint both point along that waypoint's own heading |
| OnboardMission.HeadingsAgree | packages/tara-sim/tara_sim/fleet_state.py:541-554 | at every elapsed time the two headings are equal, at the first waypoint's instant up to whole turns |
| MissionMeaning.FlownAsCompiled | packages/tara-core/tara_core/mission.py:115-276 | for every track whose times stay distinct as milliseconds, the flown target is within 0.005 m per axis of the millisecond-rounded show |
| MissionMeaning.FlownAsPlanned | packages/tara-core/tara_core/mission.py:115-276 | for whole-millisecond times, compiling, decoding, loading and flying targets a point within 0.005 m per axis of the show at every elapsed time |
| ShowIdentity.ComputeShowId | packages/tara-core/tara_core/mission.py:160-182 | the incremental digest is the digest of the whole byte string, cut to 16 bytes, or the first error in id order |
| ShowIdentity.DigestLayout | packages/tara-core/tara_core/mission.py:174-181 | the digest input is the magic, the format version and then the slots in order of number |
| ShowIdentity.SlotLayout | packages/tara-core/tara_core/mission.py:177-180 | a slot's bytes are its number, its count and its records |
| ShowIdentity.OrderIndependent | packages/tara-core/tara_core/mission.py:175-181 | the digest input does not depend on the order of the show's dict |
| ShowIdentity.DigestInputInjective | packages/tara-core/tara_core/mission.py:160-182 | equal digest inputs mean equal quantised shows |
| ShowIdentity.RecordsOnPad | packages/tara-core/tara_core/mission.py:125-157 | compiling on a default pad only shifts the fleet-frame records by the pad |
| ShowIdentity.SameRecordsOnPad | packages/tara-core/tara_core/mission.py:209-224 | two tracks that quantise equally in the fleet frame give equal records, or the same refusal, on every default pad, and equal record bytes on one pad mean that they quantise equally |
| ShowIdentity.IdentityDeterminesMissions | packages/tara-core/tara_core/mission.py:160-224 | shows with equal digest input compile, slot by slot and on every default pad, to identical records or to the same refusal |
| ShowIdentity.SameFileExactly | packages/tara-core/tara_core/mission.py:185-224 | tracks with equal records compile together, and to the same file exactly when both or neither carry light data |
| ShowIdentity.IdentityAndFlagDetermineFiles | packages/tara-core/tara_core/mission.py:160-224 | equal digest inputs: for every slot and pad one file exists exactly when the other does, and they are equal exactly when the light flags are |
| ShowIdentity.LedFlagNotInIdentity | packages/tara-core/tara_core/mission.py:160-224 | every show without light data shares its digest input with the show of all-zero red channels, and their files differ whenever one compiles |
| ShowIdentity.TwoFilesOneIdentity | packages/tara-core/tara_core/mission.py:160-224 | one concrete show that has an identity and compiles both ways, to two files |
| ShowIdentity.MissionsDetermineIdentity | packages/tara-core/tara_core/mission.py:160-182 | shows that compile to identical missions, on whatever default pads, share an identity |
| Blackbox.Code | packages/tara-gcs/tara_gcs/blackbox.py:408-415 | names become codes of a table that only grows |
| Blackbox.CodedDecodes | packages/tara-gcs/tara_gcs/blackbox.py:408-415 | the codes name the original strings in the grown table |
| Blackbox.IterBlackbox | packages/tara-gcs/tara_gcs/blackbox.py:537-571 | the reading loop yields the decoding of its lines, with a truncation mark when the file is cut |
| Blackbox.PrefixDecodes | packages/tara-gcs/tara_gcs/blackbox.py:537-571 | any prefix of decodable lines decodes to the same prefix of records |
| BlackboxRecorder.Recorder.RecordTick | packages/tara-gcs/tara_gcs/blackbox.py:248-277 | the tick call moves the recorder by one step: dropped, rate-limited, empty, refused, failed or written |
| BlackboxRecorder.Recorder.Tick | packages/tara-gcs/tara_gcs/blackbox.py:449-480 | the line written and the new previous columns, ids and keyframe time |
| BlackboxRecorder.Recorder.RecordEvent | packages/tara-gcs/tara_gcs/blackbox.py:279-297 | the event call's step: refused, or a line with kind, times, context and the caller's fields |
| BlackboxMeaning.EventShows | packages/tara-gcs/tara_gcs/blackbox.py:279-297 | a logged event says when it was, of what kind, what the caller gave, and the context where the caller gave nothing |
| BlackboxRecorder.MergeFields | packages/tara-gcs/tara_gcs/blackbox.py:287-290 | the context, overwritten by the fields with their framing keys renamed |
| BlackboxRecorder.FieldsKeepFraming | packages/tara-gcs/tara_gcs/blackbox.py:288-290 | no caller's field ever lands on a framing key of the line |
| BlackboxRecorder.FieldFound | packages/tara-gcs/tara_gcs/blackbox.py:288-290 | the last field written to a key is found there with its value |
| BlackboxRecorder.Recorder.Flush | packages/tara-gcs/tara_gcs/blackbox.py:327-334 | a disk that fails on flush ends the recording |
| BlackboxRecorder.Recorder.Close | packages/tara-gcs/tara_gcs/blackbox.py:336-355 | closing is final, idempotent, and fails like a flush |
| BlackboxRecorder.OperationsKeepApart | packages/tara-gcs/tara_gcs/blackbox.py:248-355 | only closing closes a recorder, and ticks, events and flushes are counted apart |
| BlackboxRecorder.TickDecodes | packages/tara-gcs/tara_gcs/blackbox.py:417-480 | a written tick decodes to exactly its quantised columns, ids and strings, and keeps recorder and reader in step |
| BlackboxMeaning.SampleShows | packages/tara-gcs/tara_gcs/blackbox.py:100-125 | a snapshot shows every drone once in order of id, each number within half its last stored digit, the five flags bit by bit, its rate or that there is none, and its mode and fix names |
| BlackboxMeaning.SessionShows | packages/tara-gcs/tara_gcs/blackbox.py:248-571 | the file of any session decodes to one snapshot for each writing call, showing the fleet as it was in that call |
| BlackboxMeaning.RateLimited | packages/tara-gcs/tara_gcs/blackbox.py:262-277 | over any session no two rows are closer than half the sampling period |
| BlackboxMeaning.DueTickWritten | packages/tara-gcs/tara_gcs/blackbox.py:248-277 | a due call of a non-empty fleet on an open recorder writes its row and says so |
| BlackboxMeaning.DifferencesAreRecent | packages/tara-gcs/tara_gcs/blackbox.py:449-480 | differences are written only for unchanged drones and names within the keyframe interval, absolute rows carry everything |
| BlackboxRecorder.SessionDecodes | packages/tara-gcs/tara_gcs/blackbox.py:248-571 | over any session of ticks, events, flushes, failures and closes, decoding yields exactly the recorded ticks and the recorded events, every tick with every column |
| BlackboxRecorder.TruncatedSessionDecodes | packages/tara-gcs/tara_gcs/blackbox.py:516-571 | any line prefix of any session decodes to a prefix of the recorded ticks |
| BlackboxRecorder.ReturnMeansWritten | packages/tara-gcs/tara_gcs/blackbox.py:248-277 | the result means a written line, both ways, exactly unless the tick is an accepted, due one of an empty fleet, or an encodable one whose flush fails |
| BlackboxRecorder.ReturnMisleads | packages/tara-gcs/tara_gcs/blackbox.py:248-277 | both exceptions happen on a fresh recorder: True without a line, and False with one |
| SyncChecksum.FoldSeparates | packages/tara-gcs/tara_gcs/broadcast_manager.py:159-162 | no total folds like itself plus a power of two below 2^32, the dropped carry included |
| SyncChecksum.TotalIs | packages/tara-gcs/tara_gcs/broadcast_manager.py:150-160 | the total adds the timestamp's two halves, the state and the sequence id |
| SyncChecksum.FoldIsResidue | packages/tara-gcs/tara_gcs/broadcast_manager.py:150-162 | the checksum is the total modulo 65535, less at most one dropped carry |
| SyncChecksum.SingleBitDetected | packages/tara-gcs/tara_gcs/broadcast_manager.py:150-162 | any single-bit change of timestamp, state or sequence id changes the checksum |
| BroadcastFrame.RoundTrip | packages/tara-gcs/tara_gcs/broadcast_manager.py:165-234 | encoding succeeds exactly for a long enough key and fitting fields, and its payload decodes to the same fields with a verified tag |
| BroadcastFrame.WireLayout | packages/tara-gcs/tara_gcs/broadcast_manager.py:145-202 | each field of a built frame is at its offset, and its last eight bytes are the MAC of the domain and the first 24 |
| Broadcast.BroadcastManager.SetState | packages/tara-gcs/tara_gcs/broadcast_manager.py:275-277 | the six states are accepted, any other number changes nothing |
| Broadcast.BroadcastManager.BuildFrame | packages/tara-gcs/tara_gcs/broadcast_manager.py:283-298 | the counter becomes the larger of last plus one and now, even when packing then fails |
| Broadcast.BroadcastManager.Tick | packages/tara-gcs/tara_gcs/broadcast_manager.py:300-307 | one frame built and counted, as the sender step says |
| Broadcast.BroadcastReceiver.Receive | packages/tara-gcs/tara_gcs/broadcast_manager.py:339-360 | size, tag, skew and counter checked in this order, as the receiver step says |
| Broadcast.WrongTagRefused | packages/tara-gcs/tara_gcs/broadcast_manager.py:205-234 | a frame whose tag is not the MAC of its own first 24 bytes is answered BAD_TAG and changes nothing |
| Broadcast.TamperingRefused | packages/tara-gcs/tara_gcs/broadcast_manager.py:145-360 | an altered built frame with its old tag is answered BAD_TAG and changes nothing, unless the MAC gives both the same eight bytes |
| Broadcast.MicrosMeans | packages/tara-gcs/tara_gcs/broadcast_manager.py:283-298 | timestamps are whole microseconds with the fraction cut off |
| BroadcastRuns.AcceptedExactly | packages/tara-gcs/tara_gcs/broadcast_manager.py:339-360 | accepted exactly when size and MAC fit, the stamp is in skew and the counter is newer; otherwise the receiver is unchanged |
| BroadcastRuns.CountersIncrease | packages/tara-gcs/tara_gcs/broadcast_manager.py:283-298 | over every run, counters strictly increase between restarts under any clock |
| BroadcastRuns.SettersMean | packages/tara-gcs/tara_gcs/broadcast_manager.py:275-281 | setting state or sequence changes that field of the next frames and nothing else |
| BroadcastRuns.AcceptedOnce | packages/tara-gcs/tara_gcs/broadcast_manager.py:283-360 | over every run and channel, accepted counters strictly increase, no frame is accepted twice, and the remembered frame is one the sender built |
| BroadcastRuns.HeardExactly | packages/tara-gcs/tara_gcs/broadcast_manager.py:283-360 | an in-skew next frame is acted on exactly when its number is above the last accepted one |
| BroadcastRuns.DeliversWithoutRestart | packages/tara-gcs/tara_gcs/broadcast_manager.py:283-360 | without a restart the next frame heard in skew is always acted on |
| BroadcastRuns.CountersSurviveRestarts | packages/tara-gcs/tara_gcs/broadcast_manager.py:283-298 | with advancing clock readings counters equal timestamps and strictly increase across restarts |
| BroadcastRuns.DeliversAcrossRestarts | packages/tara-gcs/tara_gcs/broadcast_manager.py:283-360 | with an advancing clock the fleet hears the next frame after any number of restarts |
| BroadcastRuns.RestartHeardExactly | packages/tara-gcs/tara_gcs/broadcast_manager.py:286-293 | the first frame after a restart is heard exactly when the clock is past the last accepted counter |
| BroadcastRuns.RestartAboveSentExactly | packages/tara-gcs/tara_gcs/broadcast_manager.py:283-298 | in every run, the first counter after a restart is above everything sent exactly when the clock reading is |
| BroadcastRuns.SteppedClockDeafens | packages/tara-gcs/tara_gcs/broadcast_manager.py:283-360 | for any two readings with the later one smaller, a run of authentic frames reaches a sender whose next frame is ignored |
| BroadcastRuns.DeafForExample | packages/tara-gcs/tara_gcs/broadcast_manager.py:283-360 | a clock stepped from 2 s back to 1 s is such a run |
| FleetFsm.RulesAgreeWithTable | packages/tara-gcs/tara_gcs/fleet_fsm.py:89-177 | no command rule contradicts the table; exactly the emergency commands are legal everywhere |
| FleetFsm.CommandsArrive | packages/tara-gcs/tara_gcs/fleet_fsm.py:156-181 | the emergency commands take the fleet to their own state from every state, the flight commands to theirs from where they are allowed |
| FleetFsm.ApplyExplained | packages/tara-gcs/tara_gcs/fleet_fsm.py:271-346 | every command keeps the audit a legal path to the current state, numbered, with the history as its tail |
| FleetFsm.RunningTrace | packages/tara-gcs/tara_gcs/fleet_fsm.py:101-120 | a legal trace ending in RUNNING is, since its last PREARM, PREARM, ARMED, TAKEOFF, FORMATION_HOLD, (RUNNING, FORMATION_HOLD)*, RUNNING |
| FleetFsm.LaunchesFromGround | packages/tara-gcs/tara_gcs/fleet_fsm.py:101-120 | in every legal trace a launch starts on the ground, and an emergency or a completed show is left only for an emergency or for DISARMED |
| FleetFsm.FleetStateMachine.Check | packages/tara-gcs/tara_gcs/fleet_fsm.py:271-292 | legality of a command, its refusal audited |
| FleetFsm.FleetStateMachine.Apply | packages/tara-gcs/tara_gcs/fleet_fsm.py:294-304 | an allowed command moves to its target, a refused one only adds its audit entry |
| FleetFsm.FleetStateMachine.Transition | packages/tara-gcs/tara_gcs/fleet_fsm.py:306-333 | moves exactly along the table, with number, bounded history and audit |
| FleetFsm.FleetStateMachine.Advance | packages/tara-gcs/tara_gcs/fleet_fsm.py:335-346 | moves only from the expected state |
| Lifecycle.EntersFormationExactly | packages/tara-gcs/tara_gcs/drone_manager.py:3166-3220 | with a plan, TAKEOFF becomes FORMATION_HOLD exactly when the launch is done, no failure is named or found, and every planned drone is armed, in OFFBOARD and at altitude |
| Lifecycle.WholeFleetUpExactly | packages/tara-gcs/tara_gcs/drone_manager.py:3200-3210 | that condition, from the telemetry fields of each drone and each tracked climb |
| Lifecycle.ClimbFailsExactly | packages/tara-gcs/tara_gcs/drone_manager.py:1672-1698 | a climb fails exactly when its drone is disarmed, out of OFFBOARD, or short of its altitude past its deadline, in this order, and is otherwise remembered as reached or not |
| Lifecycle.ClimbBudget | packages/tara-gcs/tara_gcs/drone_manager.py:1600-1607 | a climb is given 15 s and one more for every metre |
| Lifecycle.LaunchPoll | packages/tara-gcs/tara_gcs/drone_manager.py:3188-3200 | PREARM and ARMED advance exactly with the first armed and the first climbing drone, PREARM falls back 2.5 s after a launch that armed nobody |
| Lifecycle.FlightPoll | packages/tara-gcs/tara_gcs/drone_manager.py:3177-3220 | a fleet with nothing armed is down, a launch without a plan is up when every armed drone is, nothing else moves on its own |
| Lifecycle.LaunchDecision | packages/tara-gcs/tara_gcs/main.py:774-804 | a launch the lifecycle forbids is only audited, one the gates refuse changes nothing, an accepted one is in progress in PREARM |
| Lifecycle.StartDecision | packages/tara-gcs/tara_gcs/main.py:1030-1069 | a show start is refused while a failure is named, only audited outside formation, without effect if the player does not start |
| Lifecycle.PlaybackDecision | packages/tara-gcs/tara_gcs/drone_manager.py:2953-2961 | a playback's end completes a running show, or after an error brings it back into formation |
| DroneManager.CheckedOneMore | packages/tara-gcs/tara_gcs/drone_manager.py:1672-1698 | climbs can be checked one at a time in any order |
| DroneManager.LaunchMonitor.RecordLaunchFailure | packages/tara-gcs/tara_gcs/drone_manager.py:1609-1618 | the first failure of a drone is named and its climb dropped; later ones change nothing |
| DroneManager.LaunchMonitor.CheckClimbs | packages/tara-gcs/tara_gcs/drone_manager.py:1672-1698 | the loop judges every tracked climb once |
| DroneManager.LaunchMonitor.EvaluateLifecycle | packages/tara-gcs/tara_gcs/drone_manager.py:3166-3220 | one poll makes the one transition the evaluation step says |
| DroneManager.LaunchMonitor.PlanLaunch | packages/tara-gcs/tara_gcs/drone_manager.py:1424 | the drones this launch sets out to fly |
| DroneManager.LaunchMonitor.EndLaunch | packages/tara-gcs/tara_gcs/drone_manager.py:1350-1356 | the launch task is over and its end is remembered |
| DroneManager.LaunchMonitor.RequestLaunch | packages/tara-gcs/tara_gcs/main.py:774-804 | refused by the lifecycle, then by the gates, otherwise the launch is in progress |
| DroneManager.LaunchMonitor.RequestShow | packages/tara-gcs/tara_gcs/main.py:1030-1069 | refused while a launch failure is named, then by the lifecycle, then by the player |
| LifecycleRuns.RunExplained | packages/tara-gcs/tara_gcs/fleet_fsm.py:294-346 | over every run of commands, launch events, telemetry and polls the audit explains the state |
| LifecycleRuns.RunningMeansLaunched | packages/tara-gcs/tara_gcs/fleet_fsm.py:101-120 | over every run, a running show has exactly the launch trace behind it |
| LifecycleRuns.GotUp | packages/tara-gcs/tara_gcs/drone_manager.py:3166-3220 | a fleet in formation or in its show got there by one poll at which the whole planned fleet was up, with nothing else since |
| LifecycleRuns.ShowStarted | packages/tara-gcs/tara_gcs/main.py:1030-1069 | every running show was started after that poll, from formation, with no failure named |
| LifecycleRuns.FailureBlocksShow | packages/tara-gcs/tara_gcs/drone_manager.py:1609-1618 | one recorded failure of a planned launch blocks formation and show over every run until the next launch begins |
| PreflightPolicy.OverridableAreBlocking | packages/tara-gcs/tara_gcs/preflight.py:169-177 | every overridable rule is a blocking one |
| PreflightPolicy.ReadyExactly | packages/tara-gcs/tara_gcs/preflight.py:578-592 | a drone is ready exactly when no blocking rule fails without an override |
| PreflightPolicy.PermittedExactly | packages/tara-gcs/tara_gcs/preflight.py:550-645 | when a launch is permitted, which drones it takes and which it excludes |
| PreflightPolicy.ProfilesOrdered | packages/tara-gcs/tara_gcs/preflight.py:187-244 | for any fleet without overrides, PRODUCTION permits only what FIELD_TEST permits, that only what SIMULATION permits, that only what ENGINEERING permits, with nested launch sets |
| PreflightPolicy.ProductionNeedsEverything | packages/tara-gcs/tara_gcs/preflight.py:238-243 | PRODUCTION permits exactly a latched, non-empty fleet with as many linked drones as expected whose every drone passes every rule, that is, is airworthy |
| PreflightPolicy.PassesExactly | packages/tara-gcs/tara_gcs/preflight.py:703-793 | passing every PRODUCTION rule is: linked, under 150 ms, 10 s without a dropped heartbeat, RTK fixed, 85 percent, every cell reported at 4.15 V within 30 mV, healthy, the very show on board, inside the geofence, 1.5 m from every other |
| PreflightPolicy.ReadyMeans | packages/tara-gcs/tara_gcs/preflight.py:187-236 | what SIMULATION, ENGINEERING and FIELD_TEST demand of a drone they launch, limit by limit |
| PreflightPolicy.UnlinkedFails | packages/tara-gcs/tara_gcs/preflight.py:703-793 | without a link every rule but the show comparison fails |
| PreflightPolicy.ReasonsExplain | packages/tara-gcs/tara_gcs/preflight.py:578-622 | a report gives every reason against the launch and no other: blocking fleet rules, drones' blocking rules by id, nobody ready |
| Preflight.PreArmChecklistEngine.Expire | packages/tara-gcs/tara_gcs/preflight.py:451-460 | confirmations lapse strictly after their deadline, nothing else changes |
| Preflight.PreArmChecklistEngine.Request | packages/tara-gcs/tara_gcs/preflight.py:462-472 | a request replaces an unconfirmed one of its kind |
| Preflight.PreArmChecklistEngine.Confirm | packages/tara-gcs/tara_gcs/preflight.py:474-491 | confirmed exactly by the pending token inside its window |
| Preflight.PreArmChecklistEngine.RequestOverride | packages/tara-gcs/tara_gcs/preflight.py:501-519 | refused without rules, without a reason, or for a rule the profile does not let override |
| Preflight.OverrideErrorExactly | packages/tara-gcs/tara_gcs/preflight.py:501-519 | an override may be requested exactly for a reason that is not blank and rules the profile lets override; the refusal names the others |
| Preflight.StripIs | packages/tara-gcs/tara_gcs/preflight.py:507-512 | stripping a reason takes off surrounding whitespace and nothing else |
| Preflight.PreArmChecklistEngine.Evaluate | packages/tara-gcs/tara_gcs/preflight.py:550-645 | the loop's report is the evaluation: launch sets, reasons in order, fleet gates and every drone's gates |
| PreflightPolicy.ReportExplains | packages/tara-gcs/tara_gcs/preflight.py:578-592 | a drone's line is ready exactly when no gate of it fails, and each gate's state says whether its rule is ignored, holds, warns, fails or is overridden |
| Preflight.PreArmChecklistEngine.AuthorizeLaunch | packages/tara-gcs/tara_gcs/preflight.py:656-678 | a permitted launch consumes both confirmations, a refused one neither |
| PreflightRuns.ActiveIsConfirmed | packages/tara-gcs/tara_gcs/preflight.py:462-523 | over every run, an active confirmation was requested, confirmed with its token in its window, and used by no launch since |
| PreflightRuns.ProductionNeverOverrides | packages/tara-gcs/tara_gcs/preflight.py:501-523 | over every PRODUCTION run no override is ever pending or active |
| PreflightRuns.ProductionLaunch | packages/tara-gcs/tara_gcs/preflight.py:656-678 | every PRODUCTION launch rests on an unused latch confirmed in time and held, a complete fleet, and every drone airworthy |
| PreflightRuns.OneLaunchPerConfirmation | packages/tara-gcs/tara_gcs/preflight.py:656-678 | over every run of every profile, a latch or override active at a launch was confirmed after every earlier launch |
| PreflightRuns.LatchPerProductionLaunch | packages/tara-gcs/tara_gcs/preflight.py:656-678 | between two PRODUCTION launches the latch was confirmed anew |
| PreflightRuns.OverriddenLaunch | packages/tara-gcs/tara_gcs/preflight.py:501-545 | rules overridden in a launch come from an unused confirmed override, with a reason, of rules the profile lets override |
| PreflightRuns.LatchedLaunch | packages/tara-gcs/tara_gcs/preflight.py:462-491 | the two steps in time suffice to launch a complete fleet of airworthy drones, and the launch uses the latch up |
| Report.KeepsTheSevere | packages/tara-core/tara_core/validate.py:27-46 | exactly min(n, cap) distinct violations in order, among them the cap // 2 most severe with ties to the earliest |
| Report.ThinnedEvenly | packages/tara-core/tara_core/validate.py:27-46 | the sampled half is every step-th of the rest, step being what fits |
| Report.WorstIsFirstMaximum | packages/tara-core/tara_core/validate.py:49-56 | the worst violation is a maximum, the earliest of equals |
| Report.ReportNeverHides | packages/tara-core/tara_core/validate.py:27-56 | a report is empty only when nothing was found, and from a cap of two on holds the worst |
| Proximity.ClosePairs | packages/tara-core/tara_core/proximity.py:18-51 | exactly the pairs strictly below the threshold, each once, closest first |
| Proximity.MinSeparation | packages/tara-core/tara_core/proximity.py:54-69 | the least distance between two points, none for fewer than two |
| Altitude.AltitudeExtremes | packages/tara-core/tara_core/validate.py:76-129 | the scan's loop finds every breach and the true extremes |
| Altitude.ShowExtremeIs | packages/tara-core/tara_core/validate.py:76-129 | the extremes are altitudes of waypoints and none is beyond them |
| Altitude.BreachesExactly | packages/tara-core/tara_core/validate.py:106-126 | no breach exactly when every waypoint lies between ground and ceiling |
| Altitude.WaypointsDecideAltitude | packages/tara-core/tara_core/validate.py:76-91 | sound waypoints bound the altitude at every real instant of any waypoint list; for ordered lists the check is exact |
| Altitude.AltitudeErrors | packages/tara-core/tara_core/validate.py:377-421 | the earliest breaches in time order, none left out that is earlier than one listed, empty exactly when there is none |
| Report.ReportInOrder | packages/tara-core/tara_core/validate.py:27-46 | what is found in order of a key is reported in that order for every cap, and when nothing is cut exactly then |
| Altitude.FoundInTimeOrder | packages/tara-core/tara_core/validate.py:76-129 | the scan finds breaches in time order exactly when each drone's are and no drone breaches later than one listed after it |
| Altitude.AltitudeReportInTimeOrder | packages/tara-core/tara_core/validate.py:27-129 | the altitude report of any show is then in time order, and when nothing is cut only then |
| Altitude.OrderedPathsDecide | packages/tara-core/tara_core/validate.py:76-129 | with time-ordered waypoints only the order of the drones matters |
| Altitude.BreachesOutOfTimeOrder | packages/tara-core/tara_core/validate.py:27-46 | a show with two drones whose altitude report lists a later breach first |
| Validate.ClosePairsDecide | packages/tara-core/tara_core/validate.py:65-73 | the pair search at a sample finds something exactly when two drones are below the threshold |
| Validate.LatestEndIsLatest | packages/tara-core/tara_core/show.py:243-249 | no track ends after the show, and some track ends with it |
| Validate.DurationIs | packages/tara-core/tara_core/show.py:243-249 | a show without waypoints lasts no time, another as long as its latest track |
| Validate.SweepCoversTracks | packages/tara-core/tara_core/validate.py:240 | every instant from 0 to the end of any track is within half an interval of a sample |
| SampledShow.SeparatedBetweenSamples | packages/tara-core/tara_core/validate.py:240-255 | drones that keep a speed are, at every instant from 0 on, at least the threshold apart less what the pair closes in half an interval |
| SampledShow.GentleExactly | packages/tara-core/tara_core/validate.py:258-311 | no motion violation exactly when every drone's steps between samples are short, change little and turn slowly, in positions and headings |
| Validate.MotionFoundExactly | packages/tara-core/tara_core/validate.py:258-311 | no motion violation exactly when every backward difference keeps its limit |
| Validate.MotionPeakIs | packages/tara-core/tara_core/validate.py:258-311 | the motion metrics are the largest values any drone has at any sample |
| Validate.YawAtStart | packages/tara-core/tara_core/validate.py:281 | a waypoint without a heading counts as heading 0 |
| Validate.MeasureSample | packages/tara-core/tara_core/validate.py:258-311 | the sweep's dict of previous states yields the backward differences of consecutive samples |
| Validate.MotionInTimeOrder | packages/tara-core/tara_core/validate.py:258-311 | motion violations are found in time order |
| ProximitySweep.ProximityFoundExactly | packages/tara-core/tara_core/validate.py:240-254 | no proximity violation exactly when no two drones are too close at any sample |
| ProximitySweep.ViolationSays | packages/tara-core/tara_core/validate.py:244-254 | a proximity violation names two drones, the smaller id first, when, how far apart, by how much too close and where they were |
| ProximitySweep.ProximityInTimeOrder | packages/tara-core/tara_core/validate.py:240-254 | proximity violations are found in time order |
| ProximitySweep.FoldSeparation | packages/tara-core/tara_core/validate.py:255 | the running minimum is the least distance of two drones over the samples so far |
| ShowValidation.ListSays | packages/tara-core/tara_core/validate.py:312-317 | each kind lists at most fifty violations and names the first of the most severe, which is among them |
| ShowValidation.ValidateShow | packages/tara-core/tara_core/validate.py:159-337 | PASSED exactly when the show is non-empty, separated, gentle and within altitude, although the lists are cut; PASSED drones that keep a speed stay apart between the samples too; each list is the truncated found list with its worst, proximity sample by sample and closest first; the metrics are the extremes over the samples |
| ShowValidation.SweepListsInTimeOrder | packages/tara-core/tara_core/validate.py:27-46 | the proximity and motion lists of every report are in time order, however many violations were cut |
| ShowValidation.LeastDecidesSeparated | packages/tara-core/tara_core/validate.py:159-337 | the drones are separated exactly when the unrounded least distance is not below the threshold or there is none |
| ShowValidation.CollisionErrors | packages/tara-core/tara_core/validate.py:340-374 | empty exactly when no sample of the whole show has a pair below the threshold, and then drones that keep a speed stay apart between the samples too; every error is such a pair |
| ShowValidation.CertifiedClearsGates | packages/tara-core/tara_core/validate.py:340-421 | a certified show clears the separation gate and the altitude gate, and its altitude is sound at every real instant |
| ShowValidation.CertifyThenUpload | packages/tara-core/tara_core/validate.py:159-421 | run one after the other, a PASSED report is followed by no gate error |
| FleetDrone.ClampWithin | packages/tara-sim/tara_sim/fleet_state.py:621-625 | a clamped vector is no longer than the cap |
| FleetDrone.TickSafe | packages/tara-sim/tara_sim/fleet_state.py:421-490 | one tick keeps a drone consistent and leaves it above ground, within the speed cap and not offboard on a stale setpoint, whatever the wind and the link do |
| FleetDrone.TickDefinedExactly | packages/tara-sim/tara_sim/fleet_state.py:421-554 | a consistent drone's tick raises exactly when it flies a mission without waypoints past its start and the link-loss failsafe does not end it first |
| FleetDrone.FailsafeExactly | packages/tara-sim/tara_sim/fleet_state.py:492-510 | the failsafe fires exactly for an armed offboard drone not on its way down whose link is down and whose last setpoint is older than the timeout, and then lands it |
| FleetBehaviour.SetpointTracked | packages/tara-sim/tara_sim/fleet_state.py:421-436 | a staged setpoint is tracked exactly once its latency has passed |
| FleetBehaviour.DecisionMovesNothing | packages/tara-sim/tara_sim/fleet_state.py:421-440 | the decisions of a tick move nothing |
| FleetBehaviour.HeadsHome | packages/tara-sim/tara_sim/fleet_state.py:556-572 | an RTL drone is sent to its pad, and begins to land exactly within 0.3 m of it |
| FleetBehaviour.Descends | packages/tara-sim/tara_sim/fleet_state.py:574-596 | a landing drone is sent straight down at its descent rate, and to the ground at rest within 15 cm of it |
| FleetBehaviour.ClampExactly | packages/tara-sim/tara_sim/fleet_state.py:621-625 | a vector over the cap is shortened to exactly the cap in its own direction, a shorter one is kept |
| FleetBehaviour.AtRestOnTarget | packages/tara-sim/tara_sim/fleet_state.py:442-447 | without wind nothing is commanded at the target |
| FleetBehaviour.PulledToTarget | packages/tara-sim/tara_sim/fleet_state.py:442-447 | without wind, at the target's velocity, the command pulls towards the target position |
| FleetBehaviour.DampedToTarget | packages/tara-sim/tara_sim/fleet_state.py:442-447 | at the target position the command pulls the velocity towards the target's |
| FleetBehaviour.FeedForward | packages/tara-sim/tara_sim/fleet_state.py:442-447 | on target, feed-forward and wind are what is commanded |
| FleetBehaviour.RotorLagCloses | packages/tara-sim/tara_sim/fleet_state.py:449-459 | the rotor filter closes its share of the gap to the command |
| FleetBehaviour.MovesAsCapped | packages/tara-sim/tara_sim/fleet_state.py:461-471 | a disarmed drone stays at rest, an armed one moves with its new velocity and no further than the cap allows |
| FleetBehaviour.GroundHolds | packages/tara-sim/tara_sim/fleet_state.py:467-471 | no drone is below ground; one that reaches it stops sinking and slides on |
| FleetBehaviour.TurnsToTarget | packages/tara-sim/tara_sim/fleet_state.py:473-474 | the heading turns the shorter way at 720 degrees a second at most and arrives when that is enough |
| FleetBehaviour.Drains | packages/tara-sim/tara_sim/fleet_state.py:476 | the charge of an armed drone falls by the drain, down to empty |
| FleetBehaviour.DisarmsWhenLanded | packages/tara-sim/tara_sim/fleet_state.py:487-490 | a tick disarms exactly a landing drone within 5 cm of the ground that has stopped falling |
| FleetState.Fleet.CommandSetpoint | packages/tara-sim/tara_sim/fleet_state.py:267-285 | stages the setpoint and ends landing and RTL, for one drone |
| FleetState.Fleet.CommandLand | packages/tara-sim/tara_sim/fleet_state.py:287-291 | landing, no RTL, no mission, for one drone |
| FleetState.Fleet.CommandRtl | packages/tara-sim/tara_sim/fleet_state.py:293-297 | RTL, no landing, no mission, for one drone |
| FleetState.Fleet.CommandArm | packages/tara-sim/tara_sim/fleet_state.py:299-300 | armed, for one drone |
| FleetState.Fleet.CommandOffboardStart | packages/tara-sim/tara_sim/fleet_state.py:309-313 | offboard with a fresh setpoint clock, ending the mission, for one drone |
| FleetState.Fleet.InjectBatteryFault | packages/tara-sim/tara_sim/fleet_state.py:342-350 | a percentage is set, anything else refused and nothing changed |
| FleetState.Fleet.InjectPositionDeviation | packages/tara-sim/tara_sim/fleet_state.py:352-361 | moves one drone and leaves its target |
| FleetState.Fleet.CancelMission | packages/tara-sim/tara_sim/fleet_state.py:394-401 | an active mission is replaced by holding the present position |
| FleetState.Fleet.CommandDisarm | packages/tara-sim/tara_sim/fleet_state.py:302-307 | clears every flight flag of one drone |
| FleetState.Fleet.CommandKill | packages/tara-sim/tara_sim/fleet_state.py:403-414 | disarmed, on the ground and at rest, for one drone |
| FleetState.Fleet.LoadShow | packages/tara-sim/tara_sim/fleet_state.py:364-379 | the arrays the executor flies, altitude up, with no mission running |
| FleetState.Fleet.StartMission | packages/tara-sim/tara_sim/fleet_state.py:381-392 | starts exactly when a mission is loaded and the drone is armed |
| FleetState.Fleet.ApplyOffboardLossFailsafe | packages/tara-sim/tara_sim/fleet_state.py:492-510 | both loops together are the per-drone failsafe |
| FleetState.Fleet.ApplyMission | packages/tara-sim/tara_sim/fleet_state.py:512-554 | every flying drone gets the executor's target |
| FleetState.Fleet.ApplyLandingAndRtl | packages/tara-sim/tara_sim/fleet_state.py:556-602 | arrival, descent and mode of every drone |
| FleetState.Fleet.Tick | packages/tara-sim/tara_sim/fleet_state.py:421-490 | the phases in order, for every drone |
| FleetRuns.CommandConsistent | packages/tara-sim/tara_sim/fleet_state.py:267-414 | every command keeps landing and RTL apart, an active mission armed and loaded, and the battery a percentage |
| FleetRuns.NoTickRaises | packages/tara-sim/tara_sim/fleet_state.py:267-554 | over every run whose loads all carry waypoints no tick raises |
| FleetRuns.RunsAreSafe | packages/tara-sim/tara_sim/fleet_state.py:267-510 | over every interleaving of commands and ticks up to a tick that raises, drones stay consistent, and after every tick are safe |
| FleetRuns.ShowNeedsNoLink | packages/tara-sim/tara_sim/fleet_state.py:512-554 | an onboard show tracks the show's own position from its start on, link up or down, and its tick never raises |
| FleetRuns.OffboardLossEndsShow | packages/tara-sim/tara_sim/fleet_state.py:492-510 | with offboard engaged, a lost link ends the show in a landing |
| Tdma.SlotsTile | packages/tara-gcs/tara_gcs/tdma_scheduler.py:131-196 | slots are pairwise disjoint, equally long, and together cover exactly the epoch |
| Tdma.FrameBits | packages/tara-gcs/tara_gcs/tdma_scheduler.py:212-214 | a frame of 240 bits takes that many bits of the radio's capacity |
| Tdma.OffsetInverse | packages/tara-gcs/tara_gcs/tdma_scheduler.py:198-210 | an offset is looked up as a drone exactly when that drone's slot contains it |
| Tdma.CollisionFreeExactly | packages/tara-gcs/tara_gcs/tdma_scheduler.py:172-224 | frames centred in their slots never collide, in any epoch and across the wrap, exactly when every clock error is at most half of what the slot leaves |
| Tdma.UtilizationDecides | packages/tara-gcs/tara_gcs/tdma_scheduler.py:212-224 | with perfect clocks the schedule is collision-free exactly when utilisation is at most one |

## Left out

- Floating-point rounding: every result is in exact arithmetic, TDMA boundaries, pad offsets and interpolation included.
- Waypoint lists with duplicate timestamps: the two searches and the held endpoints differ there; strict increase is assumed where positions are compared.
- Yaw in the end-to-end mission bound: quantised headings near a 180 degree difference may turn the other way.
- Float waypoint times that collide as milliseconds: MissionMeaning.FlownAsCompiled covers every track whose times stay distinct.
- The abort mode's name check and every message text: conflicts, refusals and reasons are data here.
- The trigger codec of mission.py, the status payload codec of the TDMA uplink and `altitude_layers`: round trips of fixed layouts that would only add easy members.
- CRC-32, SHA-256, HMAC, gzip (RFC 1952) and JSON text: contracts or records.
- Black-box numeric overflow, fsync scheduling and the gzip member layout; an encoding failure is taken to happen before the dictionaries grow.
- BlackboxRecorder.Recorder.RecordEvent: the context callback is taken to return no framing keys; the code does not rename those.
- A receiver that reboots forgets its last counter: the broadcast receiver here keeps it for the run.
- The audit trail of the pre-arm engine, the titles, detail texts and armed flags of its report, `confirmation_state` and the single-drone hover path.
- Pre-arm calls read the clock once; suffixes and case of GNSS fix names, and shows keyed by strings, are normalised before.
- Recovery tasks of failed launches (disarm or land), the per-drone steps of `_launch_one` and the playback loop: they appear only as events.
- DroneManager.LaunchMonitor.BeginLaunch: models the first bookkeeping lines of `launch_sequence`; its gate and batches are events.
- The simulator keeps one array of drone records here instead of one NumPy array per field, so aliasing between those arrays is not captured.
- Wind, rotor lag, noise and link loss are arbitrary inputs; GNSS fault injection, satellites and armable delay change nothing modelled.
- The show constructors that check waypoint keys, and the descriptive method block of a validation report.
- Motion between the validator's samples: the code measures it at samples only; separation in between is stated for drones that keep a speed.
- MAVSDK, FTP, asyncio scheduling, HTTP and WebSocket routes, process launching, web apps and rig scripts.
