# Verified models of APGenX

A Dafny model of the parts of APGenX that are most intricate, with proofs of
what they promise:

- `Influencers`, `Steps`, `Runs`, `Estimates`, `SampleTimes`, `Sampler`, `FreshRuns`,
  `SampleCache`: the adaptive ephemeris sampler. Two lists index the heavy bodies that
  disturb a light one; `propagate` takes error-controlled steps; the sampling loop
  splices nodes around maneuvers and its results are cached by spkez arguments. Any
  call of spkez may throw: what is recorded by then, and which of the lists is left
  torn, is part of the model. Every run is tied to a function of its inputs, and the
  safety, precision, order, completion and failure results are about that function.
- `Interpolation`: the cubic interpolation between two samples, its exact error,
  and the accelerations written at the ends of the intervals.
- `SpkezMemo`: the wrapper that remembers the last spkez call for each tuple.
- `ValueNodes`, `Prints`, `EditorRows`, `Quoting`: the editor's value trees, their
  printing under a character budget, what a print tells of its value, the rows that
  show values and are updated in place after an edit, and the quoting of strings.
- `Quaternions`: `qmult`, `vecrot`, `qposcosine` and `qnorm`.
- `XmlRpcValues`: conversion of values to XML-RPC and back.
- `ManeuverScanner`: the reader of maneuver and burn files.
- `ReportFiles`, `ArgumentStack`: the report-file table and the linked list of
  arguments that functions pop.
- `SelectionTree`: the tree in which resources are selected for an XML timeline.
- `RealFacts`, `Options`: facts about products and quotients of real numbers, and
  values that may be absent.

Objects that the source updates in place are classes here, whose methods are
proved against functions of their values; what the source promises is then
proved about those functions. Times are integer milliseconds, states and errors
are real numbers, and the ephemeris is an arbitrary partial function of arguments and
time: where it gives nothing, spkez throws. The exponential that decodes errors is
an arbitrary positive monotone function, and the fourth root and the distance are
given by their defining equations.

Where the code falls short of its comments, or of what one would expect, the
code is modelled and the exact condition is proved:

- Sample times need not increase: a maneuver less than a minute after a recorded
  step end, or a step end left out before a short step, puts a node before the
  last one (`SampleTimes.TimesIncreaseExactlyWhen`, `SampleTimes.TimesMayGoBack`).
  The assignment of the maneuver's end to the current time is overwritten before
  it is used, and of several maneuvers in one step only the first gets nodes.
- Rounding a step to the nearest millisecond may make it longer than the requested
  precision allows (`Steps.PrecisionIsMissedExactlyWhen`, and `Steps.StepMayBeLengthened`
  at an interval of 100.0006 s).
- A step that rounds to nothing makes the loop endless; the model reports that as the
  outcome NoProgress. `Runs.RunStallsExactlyWhen` says when this happens and
  `Runs.StallsAtOnce` gives an input. `Runs.RunCompletes` bounds the number of steps of
  runs whose tracked estimates stay good within the plan, as those of
  `Estimates.SlowEstimatesStayGood` do.
- A reset marks influencers as evaluated at the deluge date, 2000-001T00:00:00. A plan
  that starts then takes its first step from errors that were never computed
  (`Runs.FirstStepAtDeluge`, `FreshRuns.FreshKeysAreEstimatesExactlyWhen`); one that
  starts earlier fails an assertion (`FreshRuns.FreshRunAsserts`).
- The comments put the constant of the interpolation error at 0.0026; it is 1/384,
  which is larger (`Interpolation.DocumentedConstant`), and the estimate is computed
  with the former (`Estimates.ErrorOfMotion`).
- The memo cannot tell a cleared entry from a query at the default time
  (`SpkezMemo.AnswerAtDefaultTime`, `SpkezMemo.StaleAfterClear`), nor an entry that was
  never filled (`SpkezMemo.AnswerWithoutCall`, `SpkezMemo.UnsetAfterFailure`).
- When the computation of samples throws, its entry stays in the cache with the samples
  recorded by then, and later callers get that truncated list as a success
  (`SampleCache.Precomputer.Precompute`, `Sampler.ThrownKeepsNodes`, `Sampler.OneSampleKept`).
- A throw in the middle of an update leaves the influencer at hand out of the list by
  error (`Influencers.BodyState.UpdateInfluencers`), so the next computation for that
  light body fails an assertion (`SampleCache.TornLightAsserts`,
  `SampleCache.MissingEstimateTears`), and if it tracks eleven so does every later one
  (`SampleCache.AssertsForGood`).
- If the error at the look-ahead is larger, its state is remembered with the time of the
  evaluation (`Estimates.RemembersNowExactlyWhen`), so the next acceleration divides a
  change of velocity by the wrong time (`Estimates.AccelerationFromOtherTime`).
- A list of one empty text prints like the empty list (`Prints.EmptyTextIsLost`); texts
  that cannot be taken for part of a list can be told apart in prints
  (`Prints.PrintsAlikeExactlyWhen`).
- Typing into a cell that shows a list changes the cell but not the list
  (`EditorRows.Editor.UpdateTreeModel`, `EditorRows.TypedIntoEmptyList`).
- The scanner goes on keeping blanks at the start of a line unless the last field
  of the line before was blank (`ManeuverScanner.ScannerTrimsExactlyWhen`). That shows
  in the names of burns and nowhere else (`ManeuverScanner.ManeuversOfTrimmedExactlyWhen`,
  `ManeuverScanner.KeptBlank`).
- Closing the report file with the empty name closes a stream that may not exist
  (`ReportFiles.Reports.CloseReportFile`).

`dafny verify dfyconfig.toml` checks the whole project.

## Model

| member | source | states |
|---|---|---|
| Influencers.MaxKeyIsMax | extension-lib/udef/spiceIntfc.H:387-390 | the key that err_per_sec_4th reports belongs to a tracked influencer and no tracked influencer has a larger one |
| Influencers.UpdatedTwice | extension-lib/udef/geom_sys_util.C:444-452 | an influencer that was evaluated at this time already is passed over, so a second update at one time changes nothing |
| Influencers.UpdateSucceedsExactlyWhen | extension-lib/udef/geom_sys_util.C:429-493 | an update at T succeeds if and only if no influencer was evaluated after T and spkez gives every estimate that is needed |
| Influencers.UpdateThrowsExactlyWhen | extension-lib/udef/geom_sys_util.C:429-493 | it throws at the first influencer without an estimate, if none up to there was evaluated after T, which fails the assertion instead |
| Influencers.UpdatedAtOneTime | extension-lib/udef/geom_sys_util.C:429-493 | an update at T that succeeds computes key and state of every influencer that carries another time from the estimate for T and what it remembered, passes over those that carry T, and afterwards no influencer is ahead of a time exactly if that is T or later, or there are none |
| Influencers.SecondUpdateRemembers | extension-lib/udef/geom_sys_util.C:570-639 | after updates at two times key and state are the estimate for the second time from the first time and the state that was computed then |
| Influencers.DelugeIsPassedOver | extension-lib/udef/geom_sys_util.C:444-452 | influencers that were reset carry the deluge date, so an update at that date computes nothing and all keys stay zero |
| Influencers.BodyState.Insert | src/apgenlib/templates.H:912-926 | a node goes behind all nodes with the same or a smaller key, and the list stays sorted |
| Influencers.BodyState.Remove | src/apgenlib/templates.H:1299-1395 | a node is taken out and the list stays sorted; remove_node throws for a node that is not in the list unless the list is empty |
| Influencers.BodyState.Push | extension-lib/udef/spiceIntfc.H:353-359 | the operator << always extends the list by error, and the list by body only for a body it does not hold |
| Influencers.BodyState.Add | extension-lib/udef/spiceIntfc.H:353-359 | the two lists go on holding the same influencers, none twice, exactly if the added body is new |
| Influencers.BodyState.ErrPerSec4th | extension-lib/udef/spiceIntfc.H:387-390 | the key of the last node of the sorted list is the largest key, zero for no influencers |
| Influencers.BodyState.Reset | extension-lib/udef/spiceIntfc.H:369-379 | if the lists agree they still do, every key is zero and every evaluation time the deluge date; if an influencer is missing in the list by error the reset throws and it stays missing, unless it is the only one |
| Influencers.BodyState.UpdateInfluencers | extension-lib/udef/geom_sys_util.C:429-493 | the two lists agree afterwards if and only if the update succeeds; if an estimate throws, the list by error lacks that one influencer, those before it are evaluated and the others as they were |
| Steps.RoundsToNearest | src/apcore/templates/UTL_time.C:621-662 | the conversion of seconds to a duration rounds to the nearest millisecond |
| Steps.StepSizeGuarantee | extension-lib/udef/geom_sys_util.C:204-246 | a step stays within the plan; there is an interval at whose end the relative error, the fourth power of the time times error/R plus 4.05 times that of the time per period of a rotating frame, is theRelError, and at the end of the step it is within that exactly if the step was cut at the plan end, clamped to 3E+7 s, or not lengthened by rounding |
| Steps.PrecisionIsMissedExactlyWhen | extension-lib/udef/geom_sys_util.C:204-246 | the error at the end of a step is larger than theRelError if and only if the interval with that error is at most 3E+7 s, does not go beyond the end of the plan, and has a fraction of a millisecond of one half or more |
| Steps.StepMayBeLengthened | src/apcore/templates/UTL_time.C:621-662 | if the interval is 100.0006 s and the end of the plan is not near, the step takes 100.001 s and its error is larger than theRelError |
| Steps.StepReaches | extension-lib/udef/geom_sys_util.C:185-246 | an interval is converted to m milliseconds or more if and only if the bodies are apart and the error after m milliseconds less a half is within theRelError |
| Steps.ErrorCoversInfluencers | extension-lib/udef/geom_sys_util.C:152-172 | the error that sets the step is at least that of every influencer tracked for the light or the relative body |
| Steps.NoAssertionFires | extension-lib/udef/geom_sys_util.C:512 | on a whole run the assertion on evaluation times fails if and only if it does in the first update, however many steps follow |
| Steps.UpdatesEnd | extension-lib/udef/geom_sys_util.C:114-145 | both updates succeed if and only if every influencer can be evaluated; the light body is torn exactly at its first influencer without an estimate, the other body only once the light one is updated |
| Steps.AssertedAfterReset | extension-lib/udef/spiceIntfc.H:247-249 | after a reset the assertion on evaluation times fails in the first update exactly for a start before the deluge date |
| Steps.RunIsChained | extension-lib/udef/geom_subsys.C:984-1136 | every step of every run starts where the last one ended, evaluates the influencers as the last one left them (those that carry its start are passed over), moves forward, and ends where propagate puts it |
| Steps.RunCoversPlan | extension-lib/udef/geom_subsys.C:984-1136 | a run completes exactly if its last step ends at PlanEnd |
| Steps.RunKeepsPrecision | extension-lib/udef/geom_sys_util.C:114-247 | every step of every run has that precision, for the sum of the decoded largest keys of both bodies once they are updated at its start, the length of the position there, and the period of the frame |
| Steps.RunStepsReach | extension-lib/udef/geom_sys_util.C:114-247 | a step of a run takes m milliseconds or more if and only if these are within the plan and 3E+7 s, and the relative error half a millisecond earlier is within theRelError, so its length is determined |
| Runs.LaterKeysAreEstimates | extension-lib/udef/geom_sys_util.C:429-493 | from the second step on, key and state of every influencer of both bodies are the estimate for the start of the step, from the start of the step before and the state computed there, or from nothing if that was not after the deluge date |
| Runs.FirstKeysAreEstimates | extension-lib/udef/geom_sys_util.C:429-493 | after a reset those of the first step are estimates from nothing, if the start is not the deluge date |
| Runs.FirstStepAtDeluge | extension-lib/udef/geom_sys_util.C:444-452 | after a reset a run that starts at the deluge date takes its first step from zero keys: its length does not depend on any estimate |
| Runs.KeysAreEstimatesExactlyWhen | extension-lib/udef/geom_sys_util.C:429-493 | after a reset all keys of all steps are estimates for their starts if and only if the start is not the deluge date, or all first estimates for that date are zero |
| Runs.NoStepExactlyWhen | extension-lib/udef/geom_sys_util.C:185-246 | a step rounds to nothing if and only if the bodies are at one place or the error after half a millisecond is larger than theRelError |
| Runs.RunStallsExactlyWhen | extension-lib/udef/geom_subsys.C:984-1136 | the loop is endless if and only if the run comes to a place before PlanEnd from which propagate succeeds but the step rounds to nothing |
| Runs.RunThrowsExactlyWhen | extension-lib/udef/geom_subsys.C:984-1136 | a run throws and leaves the light body, or the other one, torn at some influencer if and only if it comes to a place where that is the first without an estimate; it throws and leaves both whole if and only if the updates succeed there and the state at the start or the end of the step is missing |
| Runs.StallsAtOnce | extension-lib/udef/geom_subsys.C:984-1136 | two bodies at one place at PlanStart make the loop endless from the start |
| Runs.RunCompletes | extension-lib/udef/geom_subsys.C:984-1136 | if estimates from good memories within the plan exist, are bounded and are good memories again, for the tracked pairs only, and the bodies are known and stay a distance apart that allows steps of m milliseconds, the loop ends at PlanEnd after at most one step more than steps of m milliseconds fit in |
| Steps.SameRun | extension-lib/udef/geom_sys_util.C:576-589 | states remembered from before a reset have no influence on the steps of a run |
| SampleTimes.FirstAndLast | extension-lib/udef/geom_subsys.C:957-1136 | the first recorded time is PlanStart and the last one within a minute of the end of the last step |
| SampleTimes.TimesIncreaseExactlyWhen | extension-lib/udef/geom_subsys.C:1040-1135 | the recorded times increase strictly exactly if every step's first node (its end, or a minute before the maneuver in it) is later than the last recorded time (the last step's end, or a minute after its maneuver if the end was skipped) |
| SampleTimes.TimesIncrease | extension-lib/udef/geom_subsys.C:1040-1135 | they do for maneuvers more than two minutes apart, steps longer than a minute, and recorded ends of steps more than a minute before the next maneuver |
| SampleTimes.TimesMayGoBack | extension-lib/udef/geom_subsys.C:1067-1107 | without these conditions they may not: a maneuver half a minute after PlanStart records a time before PlanStart |
| SampleTimes.PendingAreLater | extension-lib/udef/geom_subsys.C:966-981 | the maneuvers still pending after any number of steps are exactly those behind the last step |
| SampleTimes.FirstManeuverGetsNodes | extension-lib/udef/geom_subsys.C:1043-1131 | of several maneuvers in one step only the earliest gets the nodes a minute before and after it, and the end of the step is left out exactly if it is within two minutes of that maneuver |
| SampleTimes.QuietStep | extension-lib/udef/geom_subsys.C:1126-1133 | a step with no maneuver in it records its end and nothing else |
| SampleTimes.GapsAreBounded | extension-lib/udef/geom_subsys.C:1049-1135 | skipping an end of a step lengthens a gap by a minute at most, for steps of up to any limit of at least a minute |
| Sampler.NextManeuver | extension-lib/udef/geom_subsys.C:967-981 | both loops over the maneuvers stop at the first one after the given time |
| Sampler.RecordStep | extension-lib/udef/geom_subsys.C:1037-1133 | the nodes recorded for a step are those of SampleTimes with the ephemeris states at their times, up to the first one at which spkez throws; the assertion on the next maneuver fails exactly if that is not ahead of the step's start |
| Sampler.Propagate | extension-lib/udef/geom_sys_util.C:114-247 | both bodies are updated at the current time (they may be one object), and the returned time and state are the end of the step and the ephemeris there; it throws exactly where an update or one of its calls of spkez does, with the one body torn or both whole |
| Sampler.SampleRun | extension-lib/udef/geom_subsys.C:957-1147 | the loop ends as the run of Steps does, or throws at the first node whose state is missing, with exactly the nodes before that recorded; of its assertions only the one on evaluation times can fail, for every list of maneuvers |
| Sampler.SamplesAreSound | extension-lib/udef/geom_subsys.C:957-1147 | every recorded pair is a state of the ephemeris at its time, the first time is PlanStart, the last is within a minute of PlanEnd, and the times increase exactly under the condition of TimesIncreaseExactlyWhen |
| Sampler.ThrownKeepsNodes | extension-lib/udef/geom_subsys.C:957-1147 | what a run that throws has recorded are the nodes of its steps before the first one whose state is missing, all of them if propagate threw, none exactly if the first call of propagate failed |
| Sampler.OneSampleKept | extension-lib/udef/geom_subsys.C:1006-1034 | if the state is known at PlanStart but not at the end of the first step, one sample is kept |
| Sampler.EndsAscend | extension-lib/udef/geom_subsys.C:1135 | the ends of the steps of every run ascend |
| FreshRuns.FreshRunAsserts | extension-lib/udef/geom_sys_util.C:64-67 | after the resets an assertion fails exactly if PlanStart is before both PlanEnd and the deluge date |
| FreshRuns.RunAfterReset | extension-lib/udef/geom_subsys.C:903-906 | once both bodies are reset, what was computed for other arguments leaves no trace in outcome and samples |
| FreshRuns.FreshKeysAreEstimatesExactlyWhen | extension-lib/udef/geom_subsys.C:893-906 | on a run after the resets every step is sized from the estimates for its start if and only if PlanStart is not the deluge date, or the first estimates for that date are all zero |
| FreshRuns.FreshRunCompletes | extension-lib/udef/geom_subsys.C:893-1136 | such a run completes with all its samples if PlanStart is not before the deluge date, the estimates of the tracked pairs stay good, the bodies stay apart, and states are known within a minute of the plan |
| FreshRuns.ResetBoth | extension-lib/udef/geom_subsys.C:903-906 | both bodies are blank afterwards; the first reset that throws leaves its body torn and the other one as it is |
| Estimates.EstimateMissingExactlyWhen | extension-lib/udef/geom_sys_util.C:548-622 | an estimate throws if and only if the state now is missing, or the one at a look-ahead before PlanEnd |
| Estimates.RemembersNowExactlyWhen | extension-lib/udef/geom_sys_util.C:602-636 | the remembered state is that of previous_time if and only if the look-ahead is at or after PlanEnd, or its error is not larger, or the states are equal |
| Estimates.KeyIsOfLargerError | extension-lib/udef/geom_sys_util.C:609-644 | the key is the encoded error of the state that is remembered, which is that of now or of a look-ahead before PlanEnd, and neither has a larger error |
| Estimates.KeyIsLarger | extension-lib/udef/geom_sys_util.C:609-644 | with an encoding that keeps the order the key is the larger of the two encoded errors |
| Estimates.ErrorOfMotion | extension-lib/udef/geom_sys_util.C:516-594 | the error is 0.0026 times the two documented bounds on the fourth derivative together; with the exact constant 1/384 it would be larger by one part in 624 |
| Estimates.LooksAheadToError | extension-lib/udef/geom_sys_util.C:597-607 | the look-ahead is as far away as the present error takes to become theRelError in a frame that does not rotate, to the nearest millisecond |
| Estimates.AccelerationFromOtherTime | extension-lib/udef/geom_sys_util.C:568-590 | a velocity of time u remembered with time T makes the next acceleration wrong by the factor of the time spans since u and since T |
| Estimates.SlowEstimatesStayGood | extension-lib/udef/geom_sys_util.C:503-641 | estimates made from states of bounded velocity and bounded error satisfy what RunCompletes asks of them, look-ahead included |
| SampleCache.Precomputer.Compute | extension-lib/udef/geom_subsys.C:893-1147 | which of the exceptions and assertions ends the computation for some arguments, given which bodies are torn, the samples recorded by then, and which bodies are torn afterwards |
| SampleCache.Precomputer.Precompute | extension-lib/udef/geom_subsys.C:852-1147 | map and vector stay in one-to-one correspondence; a known argument tuple returns its entry as a success and changes nothing, also if that holds only what was recorded before a throw; a new one adds one entry with the samples of its computation, complete or not |
| SampleCache.Precomputer.SampleTwo | extension-lib/udef/geom_subsys.C:957-1147 | after the resets the loop gives the samples of a run on bodies that were never evaluated, and tears the bodies that its outcome says |
| SampleCache.AnswerFollowsRun | extension-lib/udef/geom_subsys.C:893-1147 | a completed computation records exactly the states of the ephemeris at the nodes of the run of two reset bodies with the period of the frame that is asked for, to the end of the plan |
| SampleCache.AnswerWhenTorn | extension-lib/udef/geom_subsys.C:893-906 | torn bodies never change the samples of other arguments, but may leave nothing of them |
| SampleCache.TornLightAsserts | extension-lib/udef/geom_sys_util.C:417-424 | every computation for a light body that is torn fails the assertion on the length of its list, if it tracks 1 or 11 influencers |
| SampleCache.AssertsForGood | extension-lib/udef/spiceIntfc.H:369-379 | if it tracks 11 influencers it stays torn through any later requests, so every computation for it as the light body fails that assertion from then on |
| SampleCache.HealedAsRelative | extension-lib/udef/spiceIntfc.H:369-379 | one that tracks a single influencer is whole again after a computation that resets it as the relative body, unless that tears it again |
| SampleCache.MissingEstimateTears | extension-lib/udef/geom_sys_util.C:444-491 | if the first estimate for the light body is missing at PlanStart, nothing is kept, and the next computation for that body fails the assertion |
| Interpolation.CallData.Interpolate | extension-lib/udef/spkez_interface.C:184-209 | each coordinate of position and velocity is the value of the interpolation formulas at the ends' states |
| Interpolation.FormulasAreTheInterpolant | extension-lib/udef/spkez_interface.C:198-208 | the position formula is a cubic and the velocity formula its derivative |
| Interpolation.MatchesEnds | extension-lib/udef/spkez_interface.C:198-208 | the cubic has the given positions and velocities at both ends |
| Interpolation.CubicIsReproduced | extension-lib/udef/spkez_interface.C:184-209 | a cubic motion is reproduced exactly |
| Interpolation.InterpolantIsUnique | extension-lib/udef/spkez_interface.C:198-208 | a cubic matches the positions and velocities at both ends if and only if it is the interpolant |
| Interpolation.IntervalsJoin | extension-lib/udef/spkez_interface.C:184-209 | position and velocity are continuous where two intervals meet |
| Interpolation.EndAccelerations | extension-lib/udef/geom_subsys.C:351-367 | a and next_a are the second derivatives of the interpolant at the ends, and differ from those of a quartic by twice its leading coefficient times the squared interval |
| Interpolation.QuarticError | extension-lib/udef/spkez_interface.C:184-209 | on a quartic with leading coefficient a the position error s after the start is a s^2 (dt-s)^2, and the velocity error its derivative |
| Interpolation.QuarticErrorBound | extension-lib/udef/geom_sys_util.C:522-533 | within the interval the error is at most the fourth derivative times dt^4 over 384, which the midpoint attains |
| Interpolation.DocumentedConstant | extension-lib/udef/geom_sys_util.C:528-530 | the constant 0.0026 of the comment, smaller than 1/384, bounds the error exactly where (s (dt-s))^2 is at most 0.0624 dt^4, so not at the midpoint |
| Interpolation.InterpolationError | extension-lib/udef/spkez_interface.C:184-209 | the same error in absolute times |
| SpkezMemo.StepKeepsTruth | extension-lib/udef/spkez_interface.C:1493-1592 | a query, clear_cache and spkez_control keep what is saved under any time but the default one equal to the ephemeris there |
| SpkezMemo.AnswersAreDirect | extension-lib/udef/spkez_interface.C:1493-1561 | after every history a query for a time other than the default one is answered as spkez would answer it, failures included; with the unsupported mode it fails unless it repeats the last call |
| SpkezMemo.AnswerAtDefaultTime | extension-lib/udef/spkez_interface.C:1474-1561 | after any history in which spkez was called with success, the answer at the default time is direct if and only if the memo was not cleared since the last such call, or that call gave the state of the default time |
| SpkezMemo.AnswerWithoutCall | extension-lib/udef/spkez_interface.C:1516-1539 | after a history without such a call, if and only if the arguments were never asked for, or the state of the default time is what an entry holds before any call |
| SpkezMemo.LastSaveIsKept | extension-lib/udef/spkez_interface.C:1474-1592 | an entry holds the state of the last successful call for its arguments, under its time, or under the default time if the memo was cleared since |
| SpkezMemo.LastControlDecides | extension-lib/udef/spkez_interface.C:484-526 | after any history the two switches are as the last spkez_control set them |
| SpkezMemo.StaleAfterClear | extension-lib/udef/spkez_interface.C:546-550 | a query at another time and a clear_cache make the default time return that other time's state |
| SpkezMemo.UnsetAfterFailure | extension-lib/udef/spkez_interface.C:1516-1539 | a failed first call makes the default time return an entry that was never set |
| SpkezMemo.CallData.CallSpkez | extension-lib/udef/spkez_interface.C:1564-1592 | time and result are saved exactly if spkez does not throw |
| SpkezMemo.Spkez.Query | extension-lib/udef/spkez_interface.C:1474-1561 | map, argument vector and call vector stay in one-to-one correspondence, and state and answer are those of the memo as a value |
| SpkezMemo.Spkez.ClearCache | extension-lib/udef/spkez_interface.C:539-550 | all times become the default one, all states stay |
| SpkezMemo.Spkez.SetSwitches | extension-lib/udef/spkez_interface.C:484-526 | the switches are set and the memo is cleared, unless error checking and repeat-only mode are both asked for |
| ValueNodes.CutIsFinal | src/APedit-2.4/gtk_interface.C:7-21 | once a print is cut it does not depend on what would have followed |
| ValueNodes.Node.Copy | src/APedit-2.4/gtk_interface.C:96-111 | a copy holds the same value and shares no node with the original |
| ValueNodes.ConcatenateWithin | src/APedit-2.4/gtk_interface.C:7-21 | a piece that fits is appended and paid for, otherwise as much of it as fits |
| ValueNodes.Node.TransferToStream | src/APedit-2.4/gtk_interface.C:44-94 | for every tree and budget M: exactly the first min(M, n) of the n characters of the unlimited print are appended, truncation is reported exactly if n exceeds M, and otherwise the budget has dropped by n |
| Prints.PrintIsJoined | src/APedit-2.4/gtk_interface.C:60-94 | a list prints as its items in brackets, with a comma and a blank between them, behind their quoted labels and an equal sign if it has labels |
| Prints.PrintReadsBack | src/APedit-2.4/gtk_interface.C:60-94 | if no item holds a comma, splitting the print between the brackets gives the items back in order |
| Prints.PrintsAlikeExactlyWhen | src/APedit-2.4/gtk_interface.C:7-94 | values whose texts are not empty and cannot be taken for part of a list print alike if and only if they hold the same texts and labels in the same lists, at every depth |
| Prints.EmptyTextIsLost | src/APedit-2.4/gtk_interface.C:60-94 | the list of one empty text prints like the empty list |
| Prints.RowsAlikeExactlyWhen | src/APedit-2.4/gtk_editwin.C:450-526 | so two rows of such lists that are not cut show the same if and only if the lists are the same |
| EditorRows.RebuildIsUnique | src/APedit-2.4/gtk_editwin.C:450-526 | the rows are determined by the values |
| EditorRows.RowsShow | src/APedit-2.4/gtk_editwin.C:450-526 | below the titles each row has the keyword of its value, and a string in full, or the print of a list if that is no longer than 128 characters, or else the first 128 and three dots |
| EditorRows.TitlesShow | src/APedit-2.4/gtk_editwin.C:1103-1240 | a title row has the name of its section and no value |
| EditorRows.EditChangesAncestorsOnly | src/APedit-2.4/gtk_editwin.C:1621-1738 | an edit changes the edited value and those that contain it, and no other |
| EditorRows.EditAt | src/APedit-2.4/gtk_editwin.C:1700-1703 | the edited string gets the new text; a list stays as it is |
| EditorRows.EditKeepsShape | src/APedit-2.4/gtk_editwin.C:1621-1738 | an edit neither adds nor removes rows, nor changes their keywords |
| EditorRows.ViewAfterEdit | src/APedit-2.4/gtk_editwin.C:1700-1703 | changing one shared node changes the whole tree's value as an edit at its position does |
| EditorRows.Editor.PrepareToShow | src/APedit-2.4/gtk_editwin.C:92-182 | the rows shown are a rebuild of a copy of the official values, each linked to its node in the copy |
| EditorRows.Editor.FillSection | src/APedit-2.4/gtk_editwin.C:1103-1240 | a section gets a title row with the rows of its values below |
| EditorRows.Editor.FillTreeModel | src/APedit-2.4/gtk_editwin.C:450-526 | a value adds its row and those of everything inside it, cut to 128 characters and marked for lists, and links each position to its node |
| EditorRows.Editor.UpdateTreeModel | src/APedit-2.4/gtk_editwin.C:1621-1738 | after an edit at any position a row is other than a rebuild from the new values shows if and only if it is the edited one and belongs to a list whose text differs from what was typed, or it was so before and is not above the edited one; rows that are not above it stay as they are |
| EditorRows.TypedIntoEmptyList | src/APedit-2.4/gtk_editwin.C:1692-1703 | text typed into the cell of an empty list is such a text |
| EditorRows.Shown | src/APedit-2.4/gtk_editwin.C:1713-1720 | a list is shown in full up to the limit, and cut and marked with three dots beyond it |
| Quoting.CountQuotes | src/APedit-2.4/gtk_interface.C:125-128 | the count of the first loop makes the allocation exact |
| Quoting.AddQuotes | src/APedit-2.4/gtk_interface.C:117-149 | the second loop fills the array exactly; the result is the quoted string up to its first NUL |
| Quoting.RemoveQuotes | src/APedit-2.4/gtk_interface.C:151-183 | the two-state scanner yields the decoded characters |
| Quoting.UnquotedBody | src/APedit-2.4/gtk_interface.C:117-183 | reading back the escaped characters gives the string, escaped newlines included |
| Quoting.PairsAreRead | src/APedit-2.4/gtk_interface.C:151-183 | behind a backslash an n is read as a line break, a t as a tab, a line break as nothing, and any other character as itself |
| Quoting.LinesAreKept | src/APedit-2.4/gtk_interface.C:130-147 | a quoted string has the line breaks of the string, each behind a backslash, an n and a backslash |
| Quoting.QuotingRoundTrip | src/APedit-2.4/gtk_interface.C:117-183 | remove_quotes_from undoes add_quotes_to up to the first NUL, hence gives the string back exactly if it holds none |
| Quoting.BareQuotesAreTheEnds | src/APedit-2.4/gtk_interface.C:130-147 | the unescaped quotation marks of a quoted string are its first and last characters and no other |
| Quaternions.MultiplyInto | extension-lib/udef/spice_interface.C:3407-3425 | qmult conjugates around the SPICE product; the result may overwrite a factor |
| Quaternions.QMultIsReversedProduct | extension-lib/udef/spice_interface.C:3407-3425 | which amounts to the product in the opposite order |
| Quaternions.NormIsMultiplicative | extension-lib/udef/spice_interface.C:3407-3425 | qmult multiplies squared norms |
| Quaternions.RotateInto | extension-lib/udef/spice_interface.C:3426-3438 | vecrot computes VecRot even if the result overwrites the vector |
| Quaternions.VecRotIsConjugation | extension-lib/udef/spice_interface.C:3426-3438 | for a unit quaternion vecrot is conjugation, conj(q) u q |
| Quaternions.RotationComposes | extension-lib/udef/spice_interface.C:3407-3438 | for unit quaternions qmult(A,B) turns every vector as B followed by A |
| Quaternions.RotationInverse | extension-lib/udef/spice_interface.C:3426-3438 | the conjugate undoes the rotation |
| Quaternions.RotationPreserves | extension-lib/udef/spice_interface.C:3426-3438 | vecrot by a unit quaternion keeps all dot products and cross products |
| Quaternions.LengthAfterVecRot | extension-lib/udef/spice_interface.C:3426-3438 | for any quaternion of squared norm N, \|R\|^2 = \|r\|^2 + 4 \|r x v\|^2 (N-1) |
| Quaternions.LengthIsKeptExactlyWhen | extension-lib/udef/spice_interface.C:3426-3438 | so lengths are kept exactly for unit quaternions, or vectors along the axis |
| Quaternions.PositiveCosineInto | extension-lib/udef/spice_interface.C:3439-3457 | qposcosine negates exactly the quaternions with a negative cosine |
| Quaternions.NegSameRotation | extension-lib/udef/spice_interface.C:3439-3457 | qposcosine changes no rotation |
| Quaternions.NormaliseInto | extension-lib/udef/spice_interface.C:3458-3481 | qnorm returns a unit quaternion with a non-negative cosine for every input, also in place |
| Quaternions.NormalisedIsUnit | extension-lib/udef/spice_interface.C:3458-3481 | the same of the function, the null quaternion included |
| Quaternions.NormalFormIsMultiple | extension-lib/udef/spice_interface.C:3458-3481 | a quaternion shorter than 1E-16 becomes the identity; any other is its length times its normal form, up to the sign of a negative cosine |
| Quaternions.NormalisedTwice | extension-lib/udef/spice_interface.C:3458-3481 | normalising again changes nothing |
| Quaternions.NormalisedIgnoresLength | extension-lib/udef/spice_interface.C:3458-3481 | positive multiples have one normal form, unless one counts as null |
| Quaternions.NormalFormOfNegative | extension-lib/udef/spice_interface.C:3439-3481 | the two quaternions of one rotation have one normal form, except for half turns |
| XmlRpcValues.TypedValToXml | src/apcore_server/xmlrpc_intfc.C:69-129 | the recursive conversion with its loops computes ToXml and throws where that is None |
| XmlRpcValues.XmlToTypedVal | src/apcore_server/xmlrpc_intfc.C:131-181 | the recursive conversion back computes FromXml for every sorted map |
| XmlRpcValues.GetAfterPut | src/apcore_server/xmlrpc_intfc.C:81-82 | assigning a member of the sorted map changes that key's value and no other |
| XmlRpcValues.LessExactlyWhen | src/apgenlib/XmlRpcValue.H:41 | the order of the map's keys: the first character that differs decides, the shorter string comes first |
| XmlRpcValues.AddNew | src/apgenlib/TypedValue.H:719-731 | adding a name that is not there appends a field |
| XmlRpcValues.ThrowsExactlyWhen | src/apcore_server/xmlrpc_intfc.C:84-96 | the conversion throws exactly for values with an empty array at some depth |
| XmlRpcValues.RoundTrip | src/apcore_server/xmlrpc_intfc.C:69-181 | there and back gives the erased value, whenever nothing throws |
| XmlRpcValues.TripFromXml | src/apcore_server/xmlrpc_intfc.C:69-181 | XML that is read and written again throws if and only if something in it is empty at some depth, and else is the same but for booleans, which become 1 or 0, dates, which become an array of their seconds and zero, and base64, which becomes invalid |
| XmlRpcValues.ErasedFieldsAre | src/apcore_server/xmlrpc_intfc.C:18-40 | the fields of an erased structure are sorted, and each name has the last value it was given |
| XmlRpcValues.ToXmlIsNormal | src/apcore_server/xmlrpc_intfc.C:69-129 | only normal XML is written: no booleans, dates, base64 or empty arrays, maps sorted |
| XmlRpcValues.XmlRoundTrip | src/apcore_server/xmlrpc_intfc.C:69-181 | reading XML and writing it again gives the same XML if and only if it is normal |
| XmlRpcValues.SecondTrip | src/apcore_server/xmlrpc_intfc.C:69-181 | an erased value is written as the same XML and erased to itself |
| ManeuverScanner.ReadField | extension-lib/udef/geom_subsys.C:570-673 | after any characters without separator the field read is trimmed at its end, and at its start if blanks are being omitted |
| ManeuverScanner.ScannerReads | extension-lib/udef/geom_subsys.C:571-673 | for every table of lines with commas, whatever follows, the scanner reads each line's fields trimmed, except that a line whose predecessor ends in a non-blank field keeps its leading blanks |
| ManeuverScanner.EveryText | extension-lib/udef/geom_subsys.C:571-673 | every text is such a table followed by an unfinished line or a first line without a comma |
| ManeuverScanner.ScannerTrimsExactlyWhen | extension-lib/udef/geom_subsys.C:570-673 | the result is splitting and trimming if and only if no line starts with a blank and something behind it after a line whose last field is not blank |
| ManeuverScanner.KeptBlank | extension-lib/udef/geom_subsys.C:570-673 | the burn of a file with the header Burn Name,Start,End and the line blank JOI,t,u has a name that starts with the blank |
| ManeuverScanner.ManeuversOfTrimmedExactlyWhen | extension-lib/udef/geom_subsys.C:570-673 | the maneuvers of a text are those of its split and trimmed fields if and only if these are not a burn table (a known header and three fields in each line), or no line keeps a blank |
| ManeuverScanner.NoBlankStarts | extension-lib/udef/geom_subsys.C:570-673 | in particular if no line but the first starts with a blank |
| ManeuverScanner.FileIsRead | extension-lib/udef/geom_subsys.C:604-657 | a file that is read has three fields in each line and a known header, and adds the nodes of all its lines in order of time |
| ManeuverScanner.NodesOfLines | extension-lib/udef/geom_subsys.C:610-654 | each line behind the header Maneuver Name has one node, with time and name in the second and third field, and each behind Burn Name two, with the times in these fields and the name in the first, in the order of the lines |
| ManeuverScanner.FileKeepsOrder | extension-lib/udef/geom_subsys.C:604-657 | nodes of one time stay in the order in which they were there or are read |
| ManeuverScanner.NotManeuversExactlyWhen | extension-lib/udef/geom_subsys.C:599-606 | reading throws for the kind of file if and only if the first line has three fields but neither header |
| ManeuverScanner.ManeuversComeFromRows | extension-lib/udef/geom_subsys.C:614-654 | each node stems from a line behind the header: time and name in the second and third field, or one of the two times of a burn behind its name, and every line has its nodes |
| ManeuverScanner.GetManeuverTimes | extension-lib/udef/geom_subsys.C:559-674 | the one pass gives the list, or the failure, that interpreting the scanner's rows gives |
| ArgumentStack.Slst.PushFront | src/apgenlib/APdata.H:97-102 | the new element stands before all others |
| ArgumentStack.Slst.PopFront | src/apgenlib/APdata.H:103-114 | the first element is taken off, and an empty list fails and stays |
| ArgumentStack.Slst.Size | src/apgenlib/APdata.H:115-117 | the length field is the number of linked nodes |
| ReportFiles.PieceIsText | extension-lib/udef/file_subsys.C:157-172 | a string argument is written as it is, the quotes of to_string being removed again, and any other as it is printed |
| ReportFiles.PiecesTogether | extension-lib/udef/file_subsys.C:157-196 | two calls write what one call with all arguments writes |
| ReportFiles.TakenAndFree | extension-lib/udef/file_subsys.C:44-45 | open names and free slots add up to the slots, since no name has two |
| ReportFiles.RoomExactlyWhen | extension-lib/udef/file_subsys.C:74-86 | there is a free slot exactly if fewer than 100 files are open |
| ReportFiles.Reports.OpenReportFile | extension-lib/udef/file_subsys.C:50-91 | opening fails exactly if the name is open, empty, or 100 files are open; otherwise the file starts empty |
| ReportFiles.Reports.CloseReportFile | extension-lib/udef/file_subsys.C:199-229 | closing removes the name and leaves the other files as they are, and does not fail; only for the empty name, if the first free slot never held a file, there is no stream to close |
| ReportFiles.Reports.WriteToReportFile | extension-lib/udef/file_subsys.C:93-196 | for a non-empty name writing succeeds exactly if that is open and there is something to write; it pops everything and appends the arguments from the back of the stack to its front |
| ReportFiles.Reports.CallWriteToReportFile | src/apcore/interpreter/gen-parsedExp.C:3740-3762 | with the arguments pushed in order, what is appended is in call order |
| SelectionTree.EveryLeafIsListed | src/APedit-2.4/gtk_xmlwin.C:302-329 | every leaf is visited with the labels on the way to it and its check mark |
| SelectionTree.OnlyLeavesAreListed | src/APedit-2.4/gtk_xmlwin.C:302-329 | nothing else is |
| SelectionTree.LeavesAreInOrder | src/APedit-2.4/gtk_xmlwin.C:320-327 | leaves are visited in the order of the rows, none twice |
| SelectionTree.CollectsCheckedLeaves | src/APedit-2.4/gtk_xmlwin.C:302-329 | what is collected are the labels of exactly the checked leaves, in that order |
| SelectionTree.ResourcesAreCheckedLeaves | src/APedit-2.4/gtk_xmlwin.C:341-353 | the window collects those at or below resource rows, labels from the resource on |
| SelectionTree.CollectIndices | src/APedit-2.4/gtk_xmlwin.C:302-329 | the recursion appends the quoted labels to the results and leaves the shared list of pieces as it was |
| SelectionTree.NotifyApgen | src/APedit-2.4/gtk_xmlwin.C:331-356 | the results are replaced by those of all resources, or by nothing if the partial switch is off |
| SelectionTree.Row.PropagateNewValue | src/APedit-2.4/gtk_xmlwin.C:270-285 | the row and everything below it take the value |
| SelectionTree.OnCellToggled | src/APedit-2.4/gtk_xmlwin.C:257-268 | seen from the top row, a toggle sets the row and everything below it to the opposite of the row's value, and nothing else |
| SelectionTree.AfterToggle | src/APedit-2.4/gtk_xmlwin.C:257-285 | after a toggle the leaves under the row have the new value, all others keep theirs, and leaves and labels are the same |

## Left out

- CSPICE: spkez, frame information and time strings are functions from outside; only the documented Hamilton product of qxq_c is modelled.
- CSPICE's failure flag: spkez_api throws for every call as long as failed_c() holds, which no code here resets; in the model a call throws or not by its arguments and time alone.
- Floating-point rounding: all arithmetic is over the reals; a sampling interval of infinite length is a quotient by zero only for two bodies at one place, which gives a zero interval.
- Numbers inside compute_abs_err_sec_4th: in `Estimates` the error, interval and encoding are arguments of the control flow, and the source's formulas for the first two are studied beside it; runs take any estimate that depends on the bodies, the time and the remembered state (None before the first evaluation).
- Choice of the light and the relative body by determine_geometry: an arbitrary function of target and observer that may throw for an unknown mass.
- Changes of the plan between requests: the cache is keyed by the spkez arguments alone, so the model fixes plan and maneuvers.
- SampleCache.Precomputer.Precompute: says nothing of the entries after a failed assertion or an endless loop, from which the program does not return.
- Report names beyond 1023 characters and embedded NULs, files that cannot be created, and two names for one file: not modelled.
- EditorRows.Editor.UpdateTreeModel: rows are addressed by positions that are shown, and children of a value never change while it is shown; section titles carry no value.
- ValueNodes.Node.TransferToStream: strings hold no NUL, at which the C functions underneath would stop; labels are quoted up to their first NUL.
- ManeuverScanner.GetManeuverTimes: a line with fewer than three fields makes the source index past the end of a vector; the model ends with OutOfRange there.
- Quaternions.NormaliseInto: the square root is an argument that squares to the sum of squares.
- XmlRpcValues.RoundTrip: strings and field names hold no NUL, and times of day are whole milliseconds after the epoch.
- SelectionTree.NotifyApgen: locking and the other entries of the window are not modelled.
- Descriptions and ranges of displayed values, GTK widgets and signals, output of adaptation files, debug output, and the wrappers that check argument types: no part of the results above depends on them.
- Modes of the spkez wrapper that its own messages call unsupported, beyond the failure they report.
- Event searches, horizon tables, duration formatting and name tables: independent of what is modelled, or easy.
