# trip-eld in Dafny

A verified model of trip-eld, a truck trip planner. Its Django backend does three things:
- takes a current, a pickup and a dropoff location and the hours already used in the 70-hour cycle;
- walks the route's steps, inserting the stops the US hours-of-service rules call for: the 30-minute break after 8 hours of driving, the 10-hour rest before 11 hours of driving, the 34-hour restart when the 70-hour cycle is full, a fuel stop every 1,000 miles, and one hour of on-duty service at the pickup and the dropoff;
- files the resulting timeline into per-day ELD (electronic logging device) logs.

Its React frontend does four things:
- collects the three places through a geocoding search box;
- normalises the response's coordinates for Leaflet;
- shows the route's stops with category filters;
- draws each day's log as a 24-hour bar chart.

Modules:

- `HosClock`: Python's `int()` truncation, the constants, the request-time snap to the next day, the midnight arithmetic and the speed-proportional predictions (`transformer.py`, pure helpers).
- `HosEvents`: timeline events, the stop list derived from them, and duration and distance sums.
- `HosPlan`: the planning rules of `Transformer.transform` and the `record_*` methods, as functions on the planner's state (`HosState`). `HosPlanLemmas` proves two things about them:
  - what they keep invariant: stamps are ordered and non-negative, and the stop list is the non-drive part of the timeline;
  - that they account for the time and the distance.
- `EldBuilder`: `add_event`, `add_total_counts` and `get_eld` as a fold over the timeline, with the proof that the day logs are chained midnight to midnight, are consistent, and hold exactly the timeline's time status by status. `DayRecord` is a log dict updated in place.
- `HosTransformer`: the `Transformer` class. Its fields are the counters. Its methods (`RecordDrive`, `ProcessStep`, `PlanRoute`, `GetEld`, `Transform`, ...) update them with loops, each proved equal to the functions above.
- `TripSerializer`: the request serializer. It covers the coordinate pair field, the cycle-hours check, the three-distinct-places check, the context it fills and the geocoding guard.
- `TimeFormat`, `JsNumbers`: `secondsToHourString`, `toHour` and the JavaScript number semantics the frontend relies on (`%`, `Math.round`, `Math.min`, `Math.max`, number to text).
- `EldTimeline`: the log sheet's bar geometry, colours, labels and header (`ELDLogSheets.tsx`).
- `RouteSummary`: Leaflet bounds from a GeoJSON bbox, `MapFitter`, and the stops modal's filters (`RouteAndSummary.tsx`).
- `LocationSearch`: the search box's state machine (`LocationSearchInput.tsx`). It gives the state after each handler, effect, timer and query answer, and proves invariants of every feasible session.
- `AppShell`: the page (`App.tsx`). It covers the form, the request, the lon/lat swap of the response, and which panel is shown.
- `FilterChip`, `UiHelpers`: the category chip and the progress bar.

Times are whole UTC seconds. A calendar date is `t / 86400`, which is Dafny's floor division, matching Python's `.date()` on a UTC datetime and `setUTCHours(0,0,0,0)` in JavaScript. Backend durations and distances are `real`. Python's `int()` is truncation toward zero (`HosClock.Trunc`).

## Model

| member | source | states |
|---|---|---|
| HosClock.NextMidnight | trip_eld_backend/core/transformer.py:50-58 | the next midnight is a multiple of 86400, strictly after `t`, at most a day later, on the following date |
| HosClock.SnapToNextDay | trip_eld_backend/core/transformer.py:177-198 | the time moves to the next midnight exactly when that is at most 30 minutes away (inclusive), otherwise it is unchanged |
| HosClock.SnapToNextDayIdempotent | trip_eld_backend/core/transformer.py:177-198 | snapping a snapped time changes nothing |
| HosClock.SnapToNextDayExamples | trip_eld_backend/core/transformer.py:177-198 | 23:45 and 23:30 snap to midnight, 23:00 stays, midnight stays |
| HosClock.SecondsUntilMidnight | trip_eld_backend/core/transformer.py:50-58 | between 1 and 86400 seconds; the time it leads to is a midnight on the next date, and one second earlier is still the same date |
| HosClock.CrossesDay | trip_eld_backend/core/transformer.py:43-47 | adding nothing, or less than the time to midnight, keeps the date; adding a day or more changes it |
| HosClock.CrossesDayIffReachesMidnight | trip_eld_backend/core/transformer.py:43-47 | for a forward move, the date changes exactly when the move reaches the seconds until midnight |
| HosClock.DayOfIs | trip_eld_backend/core/transformer.py:43-47 | a time lies on day k exactly when it is within that day's 86400 seconds |
| HosClock.PredictDistance | trip_eld_backend/core/transformer.py:31-35 | 0 for a zero-duration step; otherwise distance is proportional to time at the step's speed, and a part of the step gives a part of the distance |
| HosClock.PredictDuration | trip_eld_backend/core/transformer.py:37-41 | 0 for a zero-distance step; otherwise time is proportional to distance, and a part of the distance takes a part of the time |
| HosEvents.StopOf | trip_eld_backend/core/transformer.py:549-579 | a stop entry repeats its event; a service stop drops the step reference |
| HosEvents.StopsOf | trip_eld_backend/core/transformer.py:494-579 | the stops are never more than the events and never include a drive |
| HosEvents.StopsOfAppend | trip_eld_backend/core/transformer.py:494-579 | appending a non-drive event appends its stop; appending a drive appends nothing |
| HosEvents.DurationSumAppend | trip_eld_backend/core/transformer.py:472 | the duration sum distributes over concatenation |
| HosEvents.DrivenDistanceAppend | trip_eld_backend/core/transformer.py:524-547 | the driven distance distributes over concatenation |
| HosPlan.RouteFitsPrefix | trip_eld_backend/core/transformer.py:351-358 | the way-point condition on a route holds for every prefix of its segments |
| HosPlan.StepCoords | trip_eld_backend/core/transformer.py:394-411 | the step's geometry slice runs from its first to its last way point inclusive |
| HosPlan.AfterDrive | trip_eld_backend/core/transformer.py:524-547 | one drive event appended at the current stamp; the four driving and on-duty counters grow by the truncated duration; clock and distance grow; stops unchanged |
| HosPlan.AfterService | trip_eld_backend/core/transformer.py:549-579 | one-hour on-duty event also listed as a stop; on-duty and cycle counters grow by an hour; consecutive driving resets to 0; distance unchanged |
| HosPlan.AfterStop | trip_eld_backend/core/transformer.py:494-522 | the stop is logged in timeline and stops; a rest resets driving and on-duty counters (a 34-hour rest also the cycle); a break resets consecutive driving; a fuel stop resets consecutive driving and the distance and adds its time to the cycle |
| HosPlan.LimitFor | trip_eld_backend/core/transformer.py:373-399 | no limit exactly when none of the three checks fires; otherwise the cycle before the 11-hour rest before the 8-hour break, and the time left is at most the step |
| HosPlan.DrivePart | trip_eld_backend/core/transformer.py:394-411 | drives the given part and leaves the rest of the step's time and distance |
| HosPlan.LimitPhase | trip_eld_backend/core/transformer.py:386-433 | without a limit the step is left whole; with one, the remaining time is driven (when positive) and the governing stop recorded; the timeline and stops only grow |
| HosPlan.FuelPhase | trip_eld_backend/core/transformer.py:435-465 | below 1,000 miles nothing changes; otherwise the truck drives up to the 1,000th mile and fuels; the timeline and stops only grow |
| HosPlan.AfterStep | trip_eld_backend/core/transformer.py:355-469 | a step adds at least one event to the end of the timeline and only appends stops |
| HosPlan.AfterSteps | trip_eld_backend/core/transformer.py:354-469 | a segment's steps add at least one event each, keeping what was there |
| HosPlan.AfterSegments | trip_eld_backend/core/transformer.py:351-469 | the route's segments only extend the timeline and the stops |
| HosPlanLemmas.InitialInv | trip_eld_backend/core/transformer.py:240-258 | the fresh planner satisfies the state invariant |
| HosPlanLemmas.StampedAppend | trip_eld_backend/core/transformer.py:494-579 | an event stamped at the clock keeps stamps ordered and within the clock |
| HosPlanLemmas.AfterDriveKeepsInv | trip_eld_backend/core/transformer.py:524-547 | record_drive keeps the invariant |
| HosPlanLemmas.AfterServiceKeepsInv | trip_eld_backend/core/transformer.py:549-579 | record_service keeps the invariant |
| HosPlanLemmas.AfterStopKeepsInv | trip_eld_backend/core/transformer.py:494-522 | record_break_or_rest keeps the invariant |
| HosPlanLemmas.LimitPhaseKeepsInv | trip_eld_backend/core/transformer.py:386-433 | after the limit part, the time and distance left of the step are non-negative and the invariant holds |
| HosPlanLemmas.FuelPhaseKeepsInv | trip_eld_backend/core/transformer.py:435-465 | the fuel part keeps them non-negative and the invariant |
| HosPlanLemmas.AfterStepKeepsInv | trip_eld_backend/core/transformer.py:354-469 | one step of the inner loop keeps the invariant |
| HosPlanLemmas.AfterStepsKeepsInv | trip_eld_backend/core/transformer.py:354-469 | the inner loop keeps the invariant |
| HosPlanLemmas.AfterSegmentsKeepsInv | trip_eld_backend/core/transformer.py:351-469 | planning a whole route keeps the invariant |
| HosPlanLemmas.LimitPhaseStops | trip_eld_backend/core/transformer.py:386-433 | when a limit governs, the planner drives exactly up to it, then records that limit's stop with its duration and reason |
| HosPlanLemmas.FuelPhaseStops | trip_eld_backend/core/transformer.py:435-465 | once 1,000 miles would be passed, the planner drives the distance up to the 1,000th mile at the step's speed, then records a 30-minute fuel stop |
| HosPlanLemmas.ZeroDistanceStepIsService | trip_eld_backend/core/transformer.py:360-371 | a zero-distance step is a one-hour service stop at its end point, "Pickup Item" on the first segment and "Dropoff Item" after |
| HosPlanLemmas.AfterDriveAccounts | trip_eld_backend/core/transformer.py:524-547 | a drive adds its time to driving time and its distance to the driven distance |
| HosPlanLemmas.AfterStopAccounts | trip_eld_backend/core/transformer.py:494-522 | a stop adds nothing to driving time or distance |
| HosPlanLemmas.AfterServiceAccounts | trip_eld_backend/core/transformer.py:549-579 | a service adds nothing to driving time or distance |
| HosPlanLemmas.LimitPhaseAccounts | trip_eld_backend/core/transformer.py:386-433 | what the limit part drives plus what it leaves is the whole step |
| HosPlanLemmas.FuelPhaseAccounts | trip_eld_backend/core/transformer.py:435-465 | the fuel part keeps driven plus left equal to the whole step |
| HosPlanLemmas.AfterStepAccounts | trip_eld_backend/core/transformer.py:354-469 | however the stops split a step, its whole time and distance are driven (none for a zero-distance step) |
| HosPlanLemmas.AfterStepsAccounts | trip_eld_backend/core/transformer.py:354-469 | a segment's moving time and distance are driven |
| HosPlanLemmas.AfterSegmentsAccounts | trip_eld_backend/core/transformer.py:351-469 | the route's moving time and distance are driven |
| HosPlanLemmas.ItineraryIsClock | trip_eld_backend/core/transformer.py:471-490 | from a fresh planner, the final clock is the route's travel time plus the stop time, the quantity reported as the itinerary total |
| HosTransformer.Summarize | trip_eld_backend/core/transformer.py:471-490 | the original travel time is the truncation of the route's travel time; added stop time is the stops' sum; the total is the truncation of travel time plus stop time; the cycle used and remaining add up to 70 hours; the notes are the fixed planning note |
| HosTransformer.ItineraryCoversTravel | trip_eld_backend/core/transformer.py:471-490 | the reported travel time is never more than the itinerary total |
| HosTransformer.Transformer.constructor | trip_eld_backend/core/transformer.py:240-258 | snapped start time; empty timeline; counters 0; cycle at the hours used |
| HosTransformer.Transformer.RecordBreakOrRest | trip_eld_backend/core/transformer.py:494-522 | the new state is `AfterStop` of the old |
| HosTransformer.Transformer.RecordDrive | trip_eld_backend/core/transformer.py:524-547 | the new state is `AfterDrive` of the old |
| HosTransformer.Transformer.RecordService | trip_eld_backend/core/transformer.py:549-579 | the new state is `AfterService` of the old |
| HosTransformer.Transformer.DriveToLimit | trip_eld_backend/core/transformer.py:373-433 | the step variables and state after the limit checks are `LimitPhase` |
| HosTransformer.Transformer.DriveToFuelStop | trip_eld_backend/core/transformer.py:435-465 | the step variables and state after the fuel check are `FuelPhase` |
| HosTransformer.Transformer.ProcessStep | trip_eld_backend/core/transformer.py:354-469 | one iteration of the step loop is `AfterStep` |
| HosTransformer.Transformer.ProcessSegment | trip_eld_backend/core/transformer.py:354-469 | the step loop of a segment is `AfterSteps` |
| HosTransformer.Transformer.PlanRoute | trip_eld_backend/core/transformer.py:351-469 | the segment loop is `AfterSegments` |
| HosTransformer.Transformer.GetEld | trip_eld_backend/core/transformer.py:260-345 | the loop returns exactly the fold `GetEldSpec` of the timeline |
| HosTransformer.FileEvent | trip_eld_backend/core/transformer.py:274-343 | one iteration of the get_eld loop is `EldStep` |
| HosTransformer.Transformer.Transform | trip_eld_backend/core/transformer.py:350-492 | plans the route, then returns bbox, stops, timeline, the day logs of the timeline and the summary; the itinerary total equals the summary's |
| EldBuilder.StatusOf | trip_eld_backend/core/transformer.py:278-283 | breaks and rests are off duty, service and fuel on duty, drives driving, in both directions |
| EldBuilder.EmptyDay | trip_eld_backend/core/transformer.py:264-272 | a new log has no events and three zero totals |
| EldBuilder.StatusSumsPartition | trip_eld_backend/core/transformer.py:230-236 | the three per-status sums add up to the day's event time |
| EldBuilder.NewEvent | trip_eld_backend/core/transformer.py:201-227 | the remark is kept for off-duty and on-duty events only |
| EldBuilder.AddEvent | trip_eld_backend/core/transformer.py:201-227 | empty list: one new event; same status as the last: the last grows by the duration; else a new event is appended; the last event always has the new status |
| EldBuilder.AddEventAccounts | trip_eld_backend/core/transformer.py:201-227 | the day's time and its status's time grow by exactly the duration; neighbouring events never share a status |
| EldBuilder.AddTotalCounts | trip_eld_backend/core/transformer.py:230-236 | exactly the total of the event's status grows by the duration |
| EldBuilder.AddToDay | trip_eld_backend/core/transformer.py:334-343 | filing an event keeps a day's totals equal to its events' per-status sums |
| EldBuilder.DayRecord.AppendEvent | trip_eld_backend/core/transformer.py:201-227 | the in-place update leaves the list `AddEvent` computes |
| EldBuilder.DayRecord.CountTotals | trip_eld_backend/core/transformer.py:230-236 | the in-place update leaves the log `AddTotalCounts` computes |
| EldBuilder.DayRecord.File | trip_eld_backend/core/transformer.py:334-343 | both calls on one log keep it consistent |
| EldBuilder.NextDay | trip_eld_backend/core/transformer.py:295-306 | the log opened at a crossing starts at the next midnight and is consistent |
| EldBuilder.EldStep | trip_eld_backend/core/transformer.py:274-343 | an iteration adds at most one log, keeps earlier logs and their starts, and a new log starts at the next midnight |
| EldBuilder.EldRun | trip_eld_backend/core/transformer.py:264-343 | the fold always has a first log at the initial time |
| EldBuilder.GetEldSpec | trip_eld_backend/core/transformer.py:260-345 | no logs exactly for an empty timeline; the first log starts at the initial time |
| EldBuilder.DaysAppend | trip_eld_backend/core/transformer.py:260-345 | totals over the logs distribute over appending a log |
| EldBuilder.EldStepChained | trip_eld_backend/core/transformer.py:287-306 | an iteration keeps each log starting at the midnight after the previous log's start |
| EldBuilder.EldStepConsistent | trip_eld_backend/core/transformer.py:307-343 | an iteration keeps every log consistent |
| EldBuilder.AddToDayAccounts | trip_eld_backend/core/transformer.py:334-343 | filing into the last log adds the duration to its status over all logs |
| EldBuilder.SplitConserves | trip_eld_backend/core/transformer.py:307-331 | the two parts of a split event together add the whole duration to its status |
| EldBuilder.EldStepSplitLogs | trip_eld_backend/core/transformer.py:307-331 | an event running past midnight is filed up to midnight in the current log and the rest in a new log |
| EldBuilder.EldStepMoveLogs | trip_eld_backend/core/transformer.py:287-343 | an event reaching midnight but not past it moves whole to a new log |
| EldBuilder.EldStepStayLogs | trip_eld_backend/core/transformer.py:334-343 | an event within the day is filed in the current log |
| EldBuilder.EldStepConserves | trip_eld_backend/core/transformer.py:274-343 | each iteration adds the event's whole duration to its status's total and to the logged time |
| EldBuilder.EldRunShape | trip_eld_backend/core/transformer.py:274-343 | after any number of events the logs are chained and each is consistent |
| EldBuilder.EldRunConserves | trip_eld_backend/core/transformer.py:274-343 | after any number of events the logs hold exactly the timeline's time, status by status |
| EldBuilder.GetEldProperties | trip_eld_backend/core/transformer.py:260-345 | the logs start at the initial time and are chained; each is consistent; per status they sum to the timeline's time |
| EldBuilder.EldStepSplitsAtMidnight | trip_eld_backend/core/transformer.py:307-331 | a split files the part up to midnight at `cur_total` and the rest at offset 0 of a new log; `cur_total` becomes the rest |
| EldBuilder.EndingAtMidnightMovesWhole | trip_eld_backend/core/transformer.py:287-343 | an event ending exactly at midnight is not split: it moves whole, and the current log is unchanged |
| EldBuilder.LongRemainderStaysInOneLog | trip_eld_backend/core/transformer.py:307-331 | the remainder of a split is not split again, even when longer than a day |
| TimeFormat.ToHour | trip-eld-frontend/src/lib/utils.ts:16-18 | the whole hours: `h*3600 <= s < h*3600 + 3600` |
| TimeFormat.SplitHours | trip-eld-frontend/src/lib/utils.ts:5-7 | whole hours and the whole minutes of the remaining part of the hour |
| TimeFormat.SplitHoursOfParts | trip-eld-frontend/src/lib/utils.ts:5-7 | hours and minutes are recovered from any duration built from them |
| TimeFormat.JoinedParts | trip-eld-frontend/src/lib/utils.ts:9-13 | the joined parts: hours first, " and " between, a zero part omitted |
| TimeFormat.SecondsToHourString | trip-eld-frontend/src/lib/utils.ts:5-14 | never empty; opens with the hours part when there are hours, ends with the minutes part when there are minutes, "0 minutes" when there are neither |
| TimeFormat.SecondsToHourStringShape | trip-eld-frontend/src/lib/utils.ts:5-14 | zero parts are omitted, present parts are joined by " and " hours first, "0 minutes" when both are zero |
| TimeFormat.ZeroMinutesExactlyBelowOneMinute | trip-eld-frontend/src/lib/utils.ts:5-14 | for non-negative input the text is "0 minutes" exactly below 60 seconds |
| TimeFormat.UnitPluralUnlessOne | trip-eld-frontend/src/lib/utils.ts:10-11 | a unit is plural exactly when its count is not 1 |
| TimeFormat.OneHourOneMinuteExample | trip-eld-frontend/src/lib/utils.ts:5-14 | 3661 s gives "1 hr and 1 minute" |
| TimeFormat.TwoHoursExample | trip-eld-frontend/src/lib/utils.ts:5-14 | 7200 s gives "2 hrs" |
| TimeFormat.ZeroSecondsExample | trip-eld-frontend/src/lib/utils.ts:5-14 | 0 s gives "0 minutes" |
| HosClock.Trunc | trip_eld_backend/core/transformer.py:524-547 | `int()` of a float: the integer toward zero within 1 |
| HosClock.TruncMonotone | trip_eld_backend/core/transformer.py:471-490 | truncation is monotone on non-negative values |
| JsNumbers.Min | trip-eld-frontend/src/components/LocationSearchInput.tsx:125-127 | `Math.min`: at most both arguments and equal to one of them |
| JsNumbers.Max | trip-eld-frontend/src/components/LocationSearchInput.tsx:128-130 | `Math.max`: at least both arguments and equal to one of them |
| JsNumbers.MaxReal | trip-eld-frontend/src/components/ELDLogSheets.tsx:112-115 | `Math.max` on fractional numbers: at least both arguments and equal to one of them |
| JsNumbers.JsRem | trip-eld-frontend/src/components/ELDLogSheets.tsx:27-32 | JavaScript `%`: magnitude is the remainder of magnitudes, the sign is the dividend's |
| JsNumbers.JsRound | trip-eld-frontend/src/components/ui-helpers.tsx:17-18 | `Math.round`: within half of the argument, halves upward |
| JsNumbers.NatToString | trip-eld-frontend/src/components/ELDLogSheets.tsx:27-32 | decimal digits without leading zeros |
| JsNumbers.IntToString | trip-eld-frontend/src/components/ELDLogSheets.tsx:27-32 | template text of an integer: its digits, with "-" when negative |
| JsNumbers.ParseNatToString | trip-eld-frontend/src/components/ELDLogSheets.tsx:27-32 | the printed digits read back as the number |
| EldTimeline.HmsParts | trip-eld-frontend/src/components/ELDLogSheets.tsx:27-32 | hours, minutes below 60 and seconds below 60 that make up a non-negative duration |
| EldTimeline.HmsDecomposition | trip-eld-frontend/src/components/ELDLogSheets.tsx:27-32 | the three parts rebuild the duration |
| EldTimeline.HmsPartsOfParts | trip-eld-frontend/src/components/ELDLogSheets.tsx:27-32 | the parts are recovered from any duration built from them |
| EldTimeline.SecToHms | trip-eld-frontend/src/components/ELDLogSheets.tsx:27-32 | for a non-negative duration the text opens with its whole hours and "h ", and ends in "s" exactly when the seconds part is not 0 |
| EldTimeline.SecToHmsOmitsZeroSeconds | trip-eld-frontend/src/components/ELDLogSheets.tsx:27-32 | the seconds are printed exactly when not 0 |
| EldTimeline.OffsetFromMidnight | trip-eld-frontend/src/components/ELDLogSheets.tsx:106-110 | the offset is within a day and the start minus it is a UTC midnight |
| EldTimeline.LeftPct | trip-eld-frontend/src/components/ELDLogSheets.tsx:112-113 | never negative; the event's offset from midnight as a percentage of the day when that is positive |
| EldTimeline.WidthPct | trip-eld-frontend/src/components/ELDLogSheets.tsx:115 | at least 0.5; the share of a day for events of at least 432 s, 0.5 below |
| EldTimeline.FullDayIsFullWidth | trip-eld-frontend/src/components/ELDLogSheets.tsx:55 | a full day is exactly 100 percent wide |
| EldTimeline.ColorClass | trip-eld-frontend/src/components/ELDLogSheets.tsx:43-47 | red exactly for drive, green exactly for off duty, yellow exactly for on duty, grey for any other status |
| EldTimeline.RingClass | trip-eld-frontend/src/components/ELDLogSheets.tsx:49-53 | the matching darker ring for each of the three statuses, and no ring exactly for any other |
| EldTimeline.UnknownStatusFallsBack | trip-eld-frontend/src/components/ELDLogSheets.tsx:43-53 | an unknown status is grey without a ring |
| EldTimeline.ShowsLabel | trip-eld-frontend/src/components/ELDLogSheets.tsx:135-137 | a bar carries its label exactly when it spans more than 5184 of the day's 86400 seconds |
| EldTimeline.BarOf | trip-eld-frontend/src/components/ELDLogSheets.tsx:105-140 | the bar is never left of the day's start, at least 0.5 wide, sized and placed by the event's times, labelled exactly over 5184 s, coloured by its status |
| EldTimeline.LabelledExactlyWhenLonger | trip-eld-frontend/src/components/ELDLogSheets.tsx:135-137 | a bar is labelled exactly when its event lasts longer than 5184 s |
| EldTimeline.LayoutDay | trip-eld-frontend/src/components/ELDLogSheets.tsx:105-140 | one bar per event, in order, each at least 0.5 wide, positioned at its start |
| EldTimeline.DayTotalsText | trip-eld-frontend/src/components/ELDLogSheets.tsx:83-85 | each header field opens with the whole hours of the corresponding stored total |
| EldTimeline.TotalsNotRecomputed | trip-eld-frontend/src/components/ELDLogSheets.tsx:83-85 | the header shows the stored totals, not sums of the events |
| RouteSummary.LeafletBounds | trip-eld-frontend/src/components/RouteAndSummary.tsx:17-28 | a 6-value bbox drops its altitudes; the corners are (minLat, minLon) and (maxLat, maxLon) |
| RouteSummary.AltitudesIgnored | trip-eld-frontend/src/components/RouteAndSummary.tsx:17-28 | a 3D bbox gives the corners of its 2D form |
| RouteSummary.LeafletBoundsExample | trip-eld-frontend/src/components/RouteAndSummary.tsx:17-28 | a concrete 3D and 2D bbox give the same corners |
| RouteSummary.MapFitterEffect | trip-eld-frontend/src/components/RouteAndSummary.tsx:30-51 | no fit exactly for a missing or short bbox; a fit uses the Leaflet bounds with padding 20; a failing fit only logs |
| RouteSummary.ActiveFilterKeys | trip-eld-frontend/src/components/RouteAndSummary.tsx:68-72 | a category is listed exactly when its flag is set, each once |
| RouteSummary.NoActiveKeysIffNoFlag | trip-eld-frontend/src/components/RouteAndSummary.tsx:62-72 | no active key exactly when every flag is off |
| RouteSummary.KeepTypes | trip-eld-frontend/src/components/RouteAndSummary.tsx:83-86 | the kept stops are stops of a listed category |
| RouteSummary.KeepTypesIsOrderedSelection | trip-eld-frontend/src/components/RouteAndSummary.tsx:83-86 | the kept stops are exactly the listed-category stops, at increasing positions, in order |
| RouteSummary.VisibleStops | trip-eld-frontend/src/components/RouteAndSummary.tsx:76-88 | all stops when no flag is set, else exactly the stops of a set category |
| RouteSummary.StopsModal.constructor | trip-eld-frontend/src/components/RouteAndSummary.tsx:62-74 | no flag set; all stops shown |
| RouteSummary.StopsModal.HandleToggle | trip-eld-frontend/src/components/RouteAndSummary.tsx:90-95 | sets the one flag and keeps the other three |
| RouteSummary.StopsModal.RunFilterEffect | trip-eld-frontend/src/components/RouteAndSummary.tsx:76-88 | the shown stops become `VisibleStops` of the flags |
| FilterChip.HandleToggle | trip-eld-frontend/src/components/FilterChip.tsx:27-38 | one call when a callback is set, none otherwise, with the chip's value and the negated selection (unselected by default) |
| FilterChip.UnselectedChipTogglesOn | trip-eld-frontend/src/components/FilterChip.tsx:27-38 | a chip without `selected` reports true |
| FilterChip.OnKeyDown | trip-eld-frontend/src/components/FilterChip.tsx:40-45 | Space and Enter prevent the default and toggle; every other key does nothing |
| FilterChip.DisplayLabel | trip-eld-frontend/src/components/FilterChip.tsx:34 | the given label, else the value with its first letter upper-cased |
| FilterChip.DefaultLabels | trip-eld-frontend/src/components/FilterChip.tsx:34 | the four categories read "Break", "Rest", "Service", "Fuel" |
| UiHelpers.ProgressPct | trip-eld-frontend/src/components/ui-helpers.tsx:17-18 | at most 100; the rounded share of max (70 by default) below the cap; exactly 100 when that share rounds to 100 or more; 0 for 0 |
| UiHelpers.ProgressPctMonotone | trip-eld-frontend/src/components/ui-helpers.tsx:17-18 | the fill never shrinks as the value grows |
| UiHelpers.DefaultMaxIsSeventy | trip-eld-frontend/src/components/ui-helpers.tsx:17 | 35 fills half, 70 fills all |
| LocationSearch.FeatureLabel | trip-eld-frontend/src/components/LocationSearchInput.tsx:95-98 | never empty: the non-empty label, else the non-empty name, else "Selected place" |
| LocationSearch.ResultsEffect | trip-eld-frontend/src/components/LocationSearchInput.tsx:63-73 | nothing while suppressed; otherwise highlight -1 and open exactly when there are hits or the query is enabled |
| LocationSearch.Mount | trip-eld-frontend/src/components/LocationSearchInput.tsx:17-73 | first render: the debounced text is the text, no results, open exactly for a text of two or more characters |
| LocationSearch.InputChange | trip-eld-frontend/src/components/LocationSearchInput.tsx:85-92 | new text, suppression off; a held selection is withdrawn and reported null twice |
| LocationSearch.DebounceTick | trip-eld-frontend/src/components/LocationSearchInput.tsx:17-24 | the debounced text catches up; a new key drops the results and reruns the effect |
| LocationSearch.AnswerOf | trip-eld-frontend/src/components/LocationSearchInput.tsx:48-61 | a failed request (`null`) and an answer with hits are distinct from each other and from "no answer yet" |
| LocationSearch.Resolved | trip-eld-frontend/src/components/LocationSearchInput.tsx:48-73 | only the answer for the current enabled query changes the results; any change, a failure included, reruns the results effect |
| LocationSearch.Choose | trip-eld-frontend/src/components/LocationSearchInput.tsx:94-105 | the text becomes the hit's label, the hit is reported twice, the dropdown closes and further searches are suppressed |
| LocationSearch.Clear | trip-eld-frontend/src/components/LocationSearchInput.tsx:107-114 | empty text, selection withdrawn and reported null twice, closed, suppression off |
| LocationSearch.KeyDown | trip-eld-frontend/src/components/LocationSearchInput.tsx:116-139 | the case analysis of every key, open or closed, with the prevent-default flag |
| LocationSearch.Apply | trip-eld-frontend/src/components/LocationSearchInput.tsx:63-211 | one event: reports are only appended, none or two at a time; the debounced text moves only when the timer fires, to the typed text |
| LocationSearch.Run | trip-eld-frontend/src/components/LocationSearchInput.tsx:17-211 | a session: earlier reports stay as they were and an even number is added |
| LocationSearch.Paired | trip-eld-frontend/src/components/LocationSearchInput.tsx:85-114 | paired reports are even in number |
| LocationSearch.Valid | trip-eld-frontend/src/components/LocationSearchInput.tsx:63-211 | a valid box has a highlight of at least -1 and an even number of reports |
| LocationSearch.PairedAppend | trip-eld-frontend/src/components/LocationSearchInput.tsx:85-114 | a doubled report keeps reports in pairs |
| LocationSearch.ApplyKeepsValid | trip-eld-frontend/src/components/LocationSearchInput.tsx:63-211 | every possible event keeps the highlight at least -1 and the reports paired |
| LocationSearch.RunKeepsValid | trip-eld-frontend/src/components/LocationSearchInput.tsx:63-211 | every feasible sequence of events keeps that invariant |
| LocationSearch.SessionValid | trip-eld-frontend/src/components/LocationSearchInput.tsx:17-211 | every feasible session from the first render keeps that invariant |
| LocationSearch.SuppressedSearchLeavesDropdown | trip-eld-frontend/src/components/LocationSearchInput.tsx:63-73 | while suppressed, timer and answers never move the dropdown |
| LocationSearch.ChoiceDoesNotReopen | trip-eld-frontend/src/components/LocationSearchInput.tsx:94-105 | after a pick, the search for its caption leaves the dropdown closed |
| LocationSearch.TypingReenablesDropdown | trip-eld-frontend/src/components/LocationSearchInput.tsx:85-92 | typing after a pick lets the next answer with hits open the dropdown |
| LocationSearch.FailedAnswerReopens | trip-eld-frontend/src/components/LocationSearchInput.tsx:48-73 | after Escape, a failed answer for the current query reopens the dropdown with nothing highlighted |
| LocationSearch.HighlightCanOutliveHits | trip-eld-frontend/src/components/LocationSearchInput.tsx:63-124 | a pick, ArrowDown and the timer leave the dropdown open with highlight 0 and no hits: the highlight is not always a list index |
| LocationSearch.ArrowsStayInList | trip-eld-frontend/src/components/LocationSearchInput.tsx:125-130 | with hits, the arrows keep the highlight on a listed hit |
| LocationSearch.EnterCommitsHighlighted | trip-eld-frontend/src/components/LocationSearchInput.tsx:131-135 | Enter commits exactly when a listed hit is highlighted, and always prevents the default |
| LocationSearch.SearchInput.constructor | trip-eld-frontend/src/components/LocationSearchInput.tsx:31-73 | the state is `Mount` |
| LocationSearch.SearchInput.RunResultsEffect | trip-eld-frontend/src/components/LocationSearchInput.tsx:63-73 | the dropdown and highlight become `ResultsEffect` of the old state |
| LocationSearch.SearchInput.Report | trip-eld-frontend/src/App.tsx:85-90 | the reported selection is appended and the owner's coordinates become the hit's, or none for a withdrawal |
| LocationSearch.SearchInput.ResetByOwner | trip-eld-frontend/src/components/TripInputForm.tsx:78-85 | the form's Reset empties the text and clears the coordinates without any report |
| LocationSearch.SearchInput.HandleInputChange | trip-eld-frontend/src/components/LocationSearchInput.tsx:85-92 | the state is `InputChange` of the old |
| LocationSearch.SearchInput.DebounceFired | trip-eld-frontend/src/components/LocationSearchInput.tsx:17-24 | the state is `DebounceTick` of the old |
| LocationSearch.SearchInput.QueryAnswered | trip-eld-frontend/src/components/LocationSearchInput.tsx:48-73 | the state is `Resolved` of the old |
| LocationSearch.SearchInput.ChooseFeature | trip-eld-frontend/src/components/LocationSearchInput.tsx:94-105 | the state is `Choose` of the old |
| LocationSearch.SearchInput.ClearInput | trip-eld-frontend/src/components/LocationSearchInput.tsx:107-114 | the state is `Clear` of the old; the button exists only for non-empty text |
| LocationSearch.SearchInput.OnKeyDown | trip-eld-frontend/src/components/LocationSearchInput.tsx:116-139 | the state and prevent-default flag are `KeyDown` of the old |
| LocationSearch.SearchInput.CloseDropdown | trip-eld-frontend/src/components/LocationSearchInput.tsx:75-83 | the dropdown closes; nothing else changes |
| LocationSearch.SearchInput.MouseEnter | trip-eld-frontend/src/components/LocationSearchInput.tsx:209 | the hovered hit is highlighted |
| LocationSearch.SearchInput.MouseLeave | trip-eld-frontend/src/components/LocationSearchInput.tsx:210 | nothing is highlighted |
| AppShell.CompleteMeansEveryField | trip-eld-frontend/src/App.tsx:74-79 | a form is complete exactly when every location field is set |
| AppShell.SetLocation | trip-eld-frontend/src/App.tsx:85-90 | only the named location changes |
| AppShell.SetCycle | trip-eld-frontend/src/App.tsx:91-96 | the cycle hours take the value, 0 when missing; the locations stay |
| AppShell.Reverse | trip-eld-frontend/src/App.tsx:51-56 | the reversal of a coordinate array, element by element |
| AppShell.ReverseInvolution | trip-eld-frontend/src/App.tsx:51-56 | reversing twice gives back the array |
| AppShell.ReverseSwapsLonLat | trip-eld-frontend/src/App.tsx:51-56 | [lon, lat] becomes [lat, lon] |
| AppShell.Normalize | trip-eld-frontend/src/App.tsx:48-57 | every stop location and the three start coordinates are reversed; nothing else changes |
| AppShell.NormalizeInvolution | trip-eld-frontend/src/App.tsx:48-57 | normalising twice gives back the response |
| AppShell.NormalizedStopIsLatLng | trip-eld-frontend/src/App.tsx:49-53 | a stop at [lon, lat] is shown at [lat, lon] with its type kept |
| AppShell.Calculate | trip-eld-frontend/src/App.tsx:74-83 | the form is posted exactly when complete; otherwise only the error line is set |
| AppShell.CalculateKeepsRequestsComplete | trip-eld-frontend/src/App.tsx:74-83 | every posted form has all three locations |
| AppShell.Reset | trip-eld-frontend/src/App.tsx:64-72 | the form is emptied and the response dropped; nothing else changes |
| AppShell.Succeed | trip-eld-frontend/src/App.tsx:48-58 | the normalised response is kept and the request ends |
| AppShell.PanelOf | trip-eld-frontend/src/App.tsx:131-151 | a spinner exactly while pending; the report exactly when idle with a response; else the placeholder |
| AppShell.SuccessShowsReport | trip-eld-frontend/src/App.tsx:48-58 | after success the report of the normalised response is shown |
| AppShell.IncompleteFormChangesOnlyError | trip-eld-frontend/src/App.tsx:74-79 | an incomplete form neither posts nor changes the panel, and sets the error line |
| AppShell.FillingFormPosts | trip-eld-frontend/src/App.tsx:74-97 | choosing three places then calculating posts exactly those places |
| AppShell.App.constructor | trip-eld-frontend/src/App.tsx:13-23 | the initial page |
| AppShell.App.ResetForm | trip-eld-frontend/src/App.tsx:64-72 | the state is `Reset` of the old |
| AppShell.App.CalculateTrip | trip-eld-frontend/src/App.tsx:74-83 | the state is `Calculate` of the old |
| AppShell.App.HandleLocationChange | trip-eld-frontend/src/App.tsx:85-90 | the form is `SetLocation` of the old |
| AppShell.App.HandleCycleChange | trip-eld-frontend/src/App.tsx:91-96 | the form is `SetCycle` of the old |
| AppShell.App.OnSuccess | trip-eld-frontend/src/App.tsx:48-58 | the loop over the stops leaves the state `Succeed` of the old |
| AppShell.App.OnError | trip-eld-frontend/src/App.tsx:59-61 | only the pending flag clears |
| TripSerializer.Iterate | trip_eld_backend/core/serializers.py:13-16 | arrays, strings and objects are iterable, with their items, characters or keys |
| TripSerializer.ToInternalValue | trip_eld_backend/core/serializers.py:13-23 | accepted exactly when an array of two numbers (booleans included), converted in order; otherwise the tuple error |
| TripSerializer.ToRepresentation | trip_eld_backend/core/serializers.py:10-11 | the pair as it is |
| TripSerializer.PairRoundTrip | trip_eld_backend/core/serializers.py:10-23 | reading back a written pair gives the pair |
| TripSerializer.StringsRejected | trip_eld_backend/core/serializers.py:13-18 | no string is a coordinate pair, even one of two characters |
| TripSerializer.IntegersWidened | trip_eld_backend/core/serializers.py:13-23 | integers and booleans are accepted and converted to floats |
| TripSerializer.ValidateCurrentCycleUsed | trip_eld_backend/core/serializers.py:58-62 | refused exactly when negative; otherwise the hours in seconds |
| TripSerializer.CycleSecondsMonotone | trip_eld_backend/core/serializers.py:58-62 | more hours give more seconds |
| TripSerializer.ThreeValuesIffDistinct | trip_eld_backend/core/serializers.py:85-94 | three values in a set are three exactly when pairwise distinct |
| TripSerializer.StoreCoords | trip_eld_backend/core/serializers.py:127-128 | the three keys hold the three places; other keys keep their values |
| TripSerializer.GeocodeLocation | trip_eld_backend/core/serializers.py:42-56 | blank names (empty after `str.strip`, with Python's whitespace) refused first, a missing client next; success exactly with a hit of two coordinates; every other failure is reported for that name |
| TripSerializer.BlankNameNeverLooksUp | trip_eld_backend/core/serializers.py:43-44 | a blank name is refused whatever the client or service would do |
| TripSerializer.GeocodeExamples | trip_eld_backend/core/serializers.py:42-56 | a name of ASCII or Unicode whitespace (the information separators U+001C to U+001F included) is refused, no client refused, a 3D hit gives its first two coordinates |
| TripSerializer.TripPlannerSerializer.constructor | trip_eld_backend/core/serializers.py:32-40 | a client exists when one is given or can be created |
| TripSerializer.TripPlannerSerializer.Geocode | trip_eld_backend/core/serializers.py:42-56 | the loop over the name returns `GeocodeLocation` |
| TripSerializer.TripPlannerSerializer.Validate | trip_eld_backend/core/serializers.py:82-130 | passes exactly when the three places differ, storing them in the context; otherwise the error, with the context unchanged |

## Left out

- I/O: the HTTP request and response, the routing and geocoding services, React Query's fetching, caching and stale times, timers, and console logging. The routing response is a parameter of `Transformer`. A geocoding answer is a parameter of `Geocode`. A query's answer and a timer firing are events of `LocationSearch`.
- Directions response decoding: polyline decoding, `deepcopy` of the response, and the lookup of missing dictionary keys with defaults. The route, its steps and the decoded coordinates are given as values.
- `point_along_line`: shapely's interpolation is a function parameter of the geometry. Its result is not constrained.
- Floating point: distances, durations and the clock are exact reals. `round(x, 6)` of the stop coordinates, `OverflowError` and NaN are not modelled.
- Time: datetimes are UTC whole seconds. Sub-second time and time zones are not modelled.
- HosTransformer.Transformer.Transform: requires every step's `way_points` to name two points of the geometry. A malformed response that raises `IndexError` in the source is not modelled.
- EldBuilder.AddEvent: a remark that is absent and a remark that is `None` are both `None`.
- The unreachable branch of `add_total_counts` for an unknown type is not modelled: statuses are a closed datatype.
- `get_remaining_time` is not modelled: it is dead code.
- HosTransformer.Transformer.GetEld: the day logs are values, and each iteration replaces the last log. `EldBuilder.DayRecord` shows the in-place update of one log dict. Aliasing between the dicts in `hos_events` and `stops` is not modelled.
- Files outside the core: `views.py`, `tests.py`, `utils.py`, `TripInputForm.tsx` (other than the disabled Generate button, a precondition of `CalculateTrip`, and the Reset button, the `OwnerReset` event of `LocationSearch`), the fullscreen files, `toMiles`, `formatDateIso` and the tooltip text.
- UiHelpers.ProgressPct: requires a non-zero `max`. JavaScript's infinite or NaN share for `max = 0` is not modelled.
- EldTimeline.ColorClass: a status that names a property every JavaScript object inherits (`constructor`, `toString`, ...) reads that property instead of falling back to grey; such statuses are treated as unknown. The same holds for RingClass.
- TripSerializer.ValidateCurrentCycleUsed: its input is the integer the field has already parsed. The field pipeline of Django REST framework, and its `min_value`, are not modelled.
- TripSerializer.GeocodeLocation: the message text of a failure is not modelled. A failure carries the name and whether the service found nothing, and any exception in the lookup is a failure.
- AppShell.SetCycle: the form's cycle field actually stores the input's text. It is modelled as an integer.
- AppShell.App.OnError: the `error` of the mutation is never read, and is not modelled.
- Rendering: the loading spinner inside the search box (`isLoading`), the focus call in `clear`, the `body` overflow effect of the stops modal, and a change of the `directions` prop of an open modal are not modelled.
- LocationSearch.DebounceTick: React Query's cache is not modelled. A new query key always starts with no answer (`Pending`), even for a text searched before.
- LocationSearch.Valid: the highlight is only kept at least -1; it can point past the hits, and Enter then ignores it.
- LocationSearch: the owner (`TripInputForm`, then `App.handleChange`) that turns a reported selection into the `value` prop is folded into the component's state as `value`.
- The mouse-down listener on the document is the `Close` event. Whether the click was outside the box is left to the caller.
