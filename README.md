# TrakHound analytics REST metric engines, modelled in Dafny

TrakHound's analytics server answers REST requests about MTConnect
devices. It uses stored samples: timestamped values of data items such as
the program name, the execution mode, conditions and feed-rate override.
This project models the computing core of four of its modules:

* **OEE** (`mod-rest-oee`)
  * **Availability:** replays the "Status" rule over the samples of a
    window, instant by instant. Each step after an "Active" label counts
    as operating time. The window from the first replay instant to its end
    is the planned time.
  * **Performance:** cuts the feed-rate override samples into stretches
    of constant override. It intersects those stretches with the
    Availability intervals and scales operating time by override/100 to
    get the ideal time.
  * **The module:** splits the window into buckets of `increment` seconds
    and computes an OEE figure for each: Availability × Performance.
* **Programs** (`mod-rest-programs`), in its two versions:
  * `Module.cs` (class `Module`) runs a two-level state machine: an open
    program holding an open event. Label changes, the labels "Stopped"
    and "Completed", and program name changes drive it.
  * `Programs.cs` (class `Programs`) is a second compiled variant,
    exported the same way and under the same name "Programs"; which of
    the two answers a request depends on the order in which the modules
    are loaded. It adds a program to the output as soon as it creates
    it, and keeps changing it afterwards through shared references.
* **Alarms** (`mod-rest-alarms`): one alarm for each CONDITION sample that
  is not NORMAL.

## How the model is built

* Time is a whole number of seconds since `DateTime.MinValue`. The value
  `MinValue = 0` also means "unset", as the source's
  `> DateTime.MinValue` tests use it.
* Collaborators outside the core are parameters:
  * the events configuration file, `Event.Evaluate`, `DataFilter.IsMatch`,
    `double.TryParse` and `DateTime.UtcNow` are fields of `Common.Env`;
  * the database reads are `Common.Device`, whose `read` function returns
    the samples of a query.
* Exceptions are values: `Result.Err(NullReference)`. A request's outcome
  is a `Reply`:
  * `NotHandled`: the request is declined;
  * `Handled(written)`: `written` is what goes to the stream, `None` when
    nothing is written;
  * `Threw`: an exception escapes the module.
* Each imperative routine is a method with its loops. The method is proved
  equal to a function (a fold over the replay or the samples). The
  properties the source promises are then proved about that function.
* The shared pieces live in their own modules:
  * `Replay`: the snapshot replay that Availability and both trackers do
    alike;
  * `EventIds`: `GetEventIds` / `GetFilterIds`. These appear identically
    in `Availability.cs` and the programs `Module.cs`, and `EventIds`
    cites the `Availability.cs` copy.
* Behaviour that looks unintended is modelled as written. Lemmas state
  it:
  * the variant tracker adds two programs on its first valid response
    (`ProgramsVariant.FirstStepAddsTwo`);
  * the variant tracker can dereference a null program
    (`ProgramsVariant.StaleEventFault`, `ProgramsVariant.ObserveFault`);
  * Performance's overlap test skips an Active interval that strictly
    encloses the override stretch
    (`Performance.EnclosingContributesNothing`).

## Model

| member | source | states |
|---|---|---|
| Common.FindEvent | src/Modules/mod-rest-oee/Availability.cs:148-161 | A found rule is a configured event whose name matches the requested one, ignoring case; when none is found, no configured event matches. That the match is the first one is `Common.FindEventFirst`. |
| Common.FindEventFirst | src/Modules/mod-rest-oee/Availability.cs:148-161 | The rule found is the first match, as `List.Find` returns: no earlier configured event matches the name. |
| Replay.Latest | src/Modules/mod-rest-oee/Availability.cs:77 | The result is the timestamp of some sample and no sample is later. |
| Replay.SeedTime | src/Modules/mod-rest-oee/Availability.cs:75-77 | The seed instant is `from` when it is set, otherwise the latest sample instant. |
| Replay.AtOrBefore | src/Modules/mod-rest-oee/Availability.cs:82 | The seed snapshot is a filter: it never holds more samples than the history. |
| Replay.AtOrBeforeMembers | src/Modules/mod-rest-oee/Availability.cs:82 | The seed snapshot holds exactly the samples stamped at or before the seed. |
| Replay.At | src/Modules/mod-rest-oee/Availability.cs:99 | The batch of an instant is a filter: it never holds more samples than the history. |
| Replay.AtMembers | src/Modules/mod-rest-oee/Availability.cs:99 | The batch of an instant holds exactly the samples stamped at that instant. |
| Replay.FindIndex | src/Modules/mod-rest-oee/Availability.cs:101 | Returns the first index holding the id, or -1 exactly when no entry has it. |
| Replay.Apply | src/Modules/mod-rest-oee/Availability.cs:101-103 | Folding one sample in replaces the first entry with its id, or appends it when there is none; every other entry stays in place. |
| Replay.ApplyFind | src/Modules/mod-rest-oee/Availability.cs:101-103 | After folding a sample in, a lookup of its id finds it; lookups of other ids are unchanged. |
| Replay.ApplyAllFind | src/Modules/mod-rest-oee/Availability.cs:99-104 | After a batch, each id maps to the last sample of the batch with that id, or to what the snapshot held before. |
| Replay.UpdateSnapshot | src/Modules/mod-rest-oee/Availability.cs:99-104 | The `foreach` loop folds the instant's samples into the snapshot one after the other, in stored order. |
| Replay.Insert | src/Modules/mod-rest-oee/Availability.cs:91 | Inserting into an ascending list of distinct instants keeps it ascending and distinct, and adds exactly the new instant. |
| Replay.Times | src/Modules/mod-rest-oee/Availability.cs:91 | The replay instants are strictly increasing and are exactly the sample instants at or after the seed. |
| Replay.Evaluations | src/Modules/mod-rest-oee/Availability.cs:94-110 | The k-th response is the rule evaluated on the snapshot replayed up to and including the k-th instant. |
| Replay.ReplayedStep | src/Modules/mod-rest-oee/Availability.cs:99-104 | Replaying one more instant folds that instant's batch into the previous snapshot. |
| Replay.Labels | src/Modules/mod-rest-oee/Availability.cs:108-122 | Built one response at a time, as the loop reads them; proved equal to the closed form: the k-th label is the k-th response's value, or none where the rule returned null. |
| EventIds.First | src/Modules/mod-rest-oee/Availability.cs:173 | The position of an element's first occurrence: it holds the element and no earlier position does. |
| EventIds.FirstSnoc | src/Modules/mod-rest-oee/Availability.cs:173 | Appending does not move the first occurrence of an element already present. |
| EventIds.FirstLast | src/Modules/mod-rest-oee/Availability.cs:173 | A new element first occurs where it is appended. |
| EventIds.Dedup | src/Modules/mod-rest-oee/Availability.cs:173 | Keeps one copy of every element: no repeats, the same members, no longer than the input. The order of the copies is `EventIds.DedupOrder`. |
| EventIds.DedupOrder | src/Modules/mod-rest-oee/Availability.cs:171-174 | The copies kept are listed in the order of their first occurrence in the input. |
| EventIds.DedupSnoc | src/Modules/mod-rest-oee/Availability.cs:173 | Adding an element adds it at the end exactly when it is not yet present. |
| EventIds.NoDuplicatesDedup | src/Modules/mod-rest-oee/Availability.cs:188 | A list without repeats is left unchanged. |
| EventIds.MatchingIds | src/Modules/mod-rest-oee/Availability.cs:185-192 | Holds exactly the ids of the data items the filter matches. |
| EventIds.Concat | src/Modules/mod-rest-oee/Availability.cs:167-176 | Holds exactly the ids matched by some trigger filter of the rule. |
| EventIds.FilterIdsProperties | src/Modules/mod-rest-oee/Availability.cs:181-195 | The filter's ids: each exactly once, exactly the ids of the matching data items, ordered by first occurrence in `MatchingIds` (the matching items' ids in definition order). |
| EventIds.GetFilterIds | src/Modules/mod-rest-oee/Availability.cs:181-195 | The `foreach` loop computes the filter's ids (`FilterIds`, whose properties `FilterIdsProperties` states). |
| EventIds.AddMissing | src/Modules/mod-rest-oee/Availability.cs:171-174 | The inner loop adds the new ids not yet present, in order. |
| EventIds.EventIdsProperties | src/Modules/mod-rest-oee/Availability.cs:163-179 | The rule's ids: without repeats, exactly the ids some plain trigger filter matches, in the order first seen across the filters' id lists. |
| EventIds.GetEventIds | src/Modules/mod-rest-oee/Availability.cs:163-179 | The nested loops compute the rule's ids (`EventIdsOf`, whose properties `EventIdsProperties` states). |
| Availability.ChainedTotal | src/Modules/mod-rest-oee/Availability.cs:135 | Ordered intervals that do not overlap and lie inside [lo, hi] add up to a length between 0 and hi - lo. |
| Availability.FoldFlag | src/Modules/mod-rest-oee/Availability.cs:111-122 | `addPrevious` holds exactly when the last non-null label was "Active", and then `previousEvent` is "Active". |
| Availability.FoldNames | src/Modules/mod-rest-oee/Availability.cs:113-118 | Every recorded interval is named "Active". |
| Availability.FoldSum | src/Modules/mod-rest-oee/Availability.cs:116-118 | The operating time is always the summed length of the recorded intervals. |
| Availability.FoldChained | src/Modules/mod-rest-oee/Availability.cs:113-118 | The recorded intervals are replay steps in order, without overlap, inside [first instant, current instant]. |
| Availability.NullStepKeepsState | src/Modules/mod-rest-oee/Availability.cs:111 | An instant where the rule returns null records nothing and changes neither the flag nor the previous label. |
| Availability.ClosedProperties | src/Modules/mod-rest-oee/Availability.cs:126-135 | After the trailing interval is closed: every event is Active, the events are ordered, do not overlap and lie inside [t0, end], and the operating time is their sum, between 0 and the planned time. |
| Availability.Make | src/Modules/mod-rest-oee/Availability.cs:47-53 | Keeps both times; the internal event list is null exactly when the list is empty; the published list starts null. |
| Availability.Value | src/Modules/mod-rest-oee/Availability.cs:33-40 | With planned time, value × planned = operating; without it the value is 0; when 0 ≤ operating ≤ planned it lies in [0, 1]. |
| Availability.OutcomeProperties | src/Modules/mod-rest-oee/Availability.cs:126-140 | The result's events are Active intervals whose lengths sum to the operating time; with no events the operating time is 0; events are published exactly when details are asked for and there are some; when the window does not end before the last instant, the ratio lies in [0, 1]. |
| Availability.ReplayLoop | src/Modules/mod-rest-oee/Availability.cs:94-124 | The `for` loop computes the fold of the replay's labels. Its invariant: the snapshot is the replay so far. |
| Availability.Record | src/Modules/mod-rest-oee/Availability.cs:111-123 | One `response != null` block is one fold step. The clamp of the step's start to `from` never changes it. |
| Availability.Conclude | src/Modules/mod-rest-oee/Availability.cs:126-140 | The code after the loop closes the trailing Active interval at the window end and builds the result. |
| Availability.TimesFromOnward | src/Modules/mod-rest-oee/Availability.cs:75-91 | No replay instant precedes `from`, so the clamp to `from` at the start of each interval never fires. |
| Availability.Measure | src/Modules/mod-rest-oee/Availability.cs:94-140 | The replay loop and the code after it compute the outcome of the replay's labels over the window. |
| Availability.Get | src/Modules/mod-rest-oee/Availability.cs:55-146 | Returns exactly the value model: None without a rule, data items, ids, samples or replay instants; otherwise the replay's outcome. |
| Performance.OverrideIds | src/Modules/mod-rest-oee/Performance.cs:55-56 | Holds exactly the ids of the feed-rate override items (PATH_FEEDRATE_OVERRIDE, or PATH_FEEDRATE in PERCENT). |
| Performance.AtAppend | src/Modules/mod-rest-oee/Performance.cs:63 | The samples of one instant in a concatenation are those of each part, in order. |
| Performance.InsertByTimeMultiset | src/Modules/mod-rest-oee/Performance.cs:63 | Inserting a sample adds exactly that sample. |
| Performance.InsertByTimeSorted | src/Modules/mod-rest-oee/Performance.cs:63 | Inserting into a time-ordered list keeps it ordered. |
| Performance.AtSingleton | src/Modules/mod-rest-oee/Performance.cs:63 | A one-sample list contributes its sample to its own instant only. |
| Performance.InsertByTimeAt | src/Modules/mod-rest-oee/Performance.cs:63 | Insertion places the new sample after the earlier samples of its instant. |
| Performance.SortByTime | src/Modules/mod-rest-oee/Performance.cs:63 | `OrderBy(Timestamp)` returns a time-ordered permutation of the samples. |
| Performance.SortByTimeAt | src/Modules/mod-rest-oee/Performance.cs:63 | The sort is stable: the samples of each instant keep their relative order. |
| Performance.UnparsedSampleSkipped | src/Modules/mod-rest-oee/Performance.cs:73-74 | A sample whose text does not parse leaves the segmentation unchanged. |
| Performance.SegmentShape | src/Modules/mod-rest-oee/Performance.cs:69-88 | On ordered samples, emitted stretches have a non-negative override and follow one another without overlap. They run forward when no sample precedes `from`. |
| Performance.OverrideEventsShape | src/Modules/mod-rest-oee/Performance.cs:69-93 | There is at least one stretch. The last ends at the window end and carries the last parsed value. The stretches do not overlap, and all but the last have a non-negative override. |
| Performance.ClippedTotal | src/Modules/mod-rest-oee/Performance.cs:105-118 | A stretch's operating time is the summed length of the clipped Active intervals that pass the overlap test. |
| Performance.ClippedChained | src/Modules/mod-rest-oee/Performance.cs:107-116 | Clipping ordered, non-overlapping intervals to a stretch gives ordered, non-overlapping intervals inside it. |
| Performance.OperatingWithinBounds | src/Modules/mod-rest-oee/Performance.cs:103-118 | Over ordered, non-overlapping Active intervals, a stretch collects between 0 and its own length of operating time. |
| Performance.EnclosingContributesNothing | src/Modules/mod-rest-oee/Performance.cs:107 | As written, an Active interval that strictly encloses the stretch fails the overlap test and adds nothing. |
| Performance.EventOf | src/Modules/mod-rest-oee/Performance.cs:120-125 | The event keeps the stretch's override and bounds, and ideal × 100 = operating × override. |
| Performance.EventsOf | src/Modules/mod-rest-oee/Performance.cs:101-126 | One event per stretch, in stretch order. |
| Performance.TotalsBounded | src/Modules/mod-rest-oee/Performance.cs:122-123 | With overrides in [0, 100] and non-negative operating times: 0 ≤ total ideal ≤ total operating. |
| Performance.Make | src/Modules/mod-rest-oee/Performance.cs:42-48 | Keeps both totals; the internal event list is null exactly when the list is empty; the published list starts null. |
| Performance.Value | src/Modules/mod-rest-oee/Performance.cs:28-35 | With ideal time, value × operating = ideal, and the quotient is non-finite exactly when operating time is 0. Without ideal time the value is 0. When 0 ≤ ideal ≤ operating the value lies in [0, 1]. |
| Performance.OutcomeProperties | src/Modules/mod-rest-oee/Performance.cs:101-130 | With ordered, non-overlapping Active intervals and overrides in [0, 100]: one event per stretch, the totals are the events' sums, no stretch collects more than its own length, 0 ≤ ideal ≤ operating, and the value is finite and in [0, 1]. |
| Performance.SegmentLoop | src/Modules/mod-rest-oee/Performance.cs:65-88 | The segmentation `for` loop computes the segmentation of all samples. |
| Performance.Within | src/Modules/mod-rest-oee/Performance.cs:103-118 | The inner `foreach` computes the stretch's operating time. |
| Performance.IntersectOne | src/Modules/mod-rest-oee/Performance.cs:103-124 | One pass of the outer `foreach` builds the stretch's performance event: its operating time inside the Availability intervals, scaled by the override for the ideal time. |
| Performance.EventsOfSnoc | src/Modules/mod-rest-oee/Performance.cs:101-125 | One more override stretch adds exactly its own event, at the end of the list. |
| Performance.TotalsSnoc | src/Modules/mod-rest-oee/Performance.cs:121-122 | One more event adds its operating and ideal times to the two totals. |
| Performance.Intersect | src/Modules/mod-rest-oee/Performance.cs:97-126 | The outer `foreach` computes the event list and both totals, each the sum over the events. |
| Performance.Get | src/Modules/mod-rest-oee/Performance.cs:50-137 | Returns exactly the value model: None without override items or samples; a null-reference failure when the Availability list is null; otherwise the intersection's outcome. |
| Oee.Value | src/Modules/mod-rest-oee/Oee.cs:14-23 | With a Performance: Availability × Performance, finite exactly when the Performance value is. With only an Availability: its value. With neither: 0. |
| Oee.ValueBounded | src/Modules/mod-rest-oee/Oee.cs:14-23 | When both ratios lie in [0, 1], the OEE value is finite and lies in [0, 1]. |
| OeeModule.NextStop | src/Modules/mod-rest-oee/Module.cs:48-50 | A bucket's end is at most `to`. It differs from `to` only for a positive increment, and then it is `from + increment`, strictly between `from` and `to`. |
| OeeModule.Buckets | src/Modules/mod-rest-oee/Module.cs:56-90 | There is at least one bucket. The first starts at `from` and the last ends at `to`. |
| OeeModule.BucketsShape | src/Modules/mod-rest-oee/Module.cs:84-88 | Each bucket starts where the previous one ended. All but the last span exactly `increment`. All lie inside [from, to]. With increment ≤ 0 there is the single bucket [from, to]. |
| OeeModule.BucketCount | src/Modules/mod-rest-oee/Module.cs:84-90 | With a positive increment, the number of buckets is the ceiling of (to - from) / increment. |
| OeeModule.BucketOee | src/Modules/mod-rest-oee/Module.cs:58-80 | A bucket's figure covers exactly the bucket. Its Performance only appears next to an Availability. |
| OeeModule.Outcomes | src/Modules/mod-rest-oee/Module.cs:56-90 | One figure per bucket, in bucket order. |
| OeeModule.Collect | src/Modules/mod-rest-oee/Module.cs:82 | The list succeeds exactly when every figure does, and then it holds the figures in order. |
| OeeModule.CollectFirstErr | src/Modules/mod-rest-oee/Module.cs:75 | The first failing bucket decides the outcome, whatever follows it. |
| OeeModule.SpecProperties | src/Modules/mod-rest-oee/Module.cs:25-103 | A request is declined exactly when it is invalid. What a handled request writes: one figure per bucket, in order, the first from `from`, the last to the window end, each starting where the previous ended, each with Performance only next to Availability. |
| OeeModule.BucketsShift | src/Modules/mod-rest-oee/Module.cs:84-88 | After the bucket [from, next], the remaining buckets start at `next`. |
| OeeModule.CollectSnoc | src/Modules/mod-rest-oee/Module.cs:82 | One more figure is appended to a successful list; a failed list stays failed. |
| OeeModule.OutcomesSnoc | src/Modules/mod-rest-oee/Module.cs:82 | Appending a bucket appends its figure. |
| OeeModule.OutcomesAppend | src/Modules/mod-rest-oee/Module.cs:70-85 | The figures of two runs of buckets back to back are the figures of each run, back to back. |
| OeeModule.CollectErrAt | src/Modules/mod-rest-oee/Module.cs:75 | A failing figure after successful ones decides the outcome of the whole list, whatever follows. |
| OeeModule.GetBucket | src/Modules/mod-rest-oee/Module.cs:58-80 | One loop pass computes the bucket's figure: Availability first, Performance only when there is an Availability. |
| OeeModule.BucketLoop | src/Modules/mod-rest-oee/Module.cs:48-90 | The do/while loop computes the figures of all buckets in order and stops at the first failure. |
| OeeModule.GetResponse | src/Modules/mod-rest-oee/Module.cs:25-103 | Returns exactly the value model: declined when invalid; nothing written without agent, data items or components; otherwise the bucket figures, or the escaping failure. |
| ProgramData.FindItem | src/Modules/mod-rest-programs/Module.cs:57-61 | Returns a data item of the requested type; when none is found, no item has it. That it is the first one is `ProgramData.FindItemFirst`. |
| ProgramData.FindItemFirst | src/Modules/mod-rest-programs/Module.cs:57-61 | The item found is the first of its type, as `List.Find` returns: no earlier item has that type. |
| ProgramData.ReadingOf | src/Modules/mod-rest-programs/Module.cs:108-118 | The reads at one instant succeed exactly when the snapshot holds a sample of both the PROGRAM and the EXECUTION item. |
| ProgramData.Readings | src/Modules/mod-rest-programs/Module.cs:95-118 | Built one instant at a time, as the loop reads; proved equal to the closed form: the k-th reading is taken on the snapshot replayed up to and including the k-th instant. |
| ProgramData.Read | src/Modules/mod-rest-programs/Module.cs:108-118 | The reads compute the reading of the instant, failing on a missing sample. |
| ProgramsModule.CoreLater | src/Modules/mod-rest-programs/Module.cs:95-190 | The tracker invariant still holds at any later instant. |
| ProgramsModule.InterruptKeeps | src/Modules/mod-rest-programs/Module.cs:121-140 | The name-change block keeps the invariant. |
| ProgramsModule.OpenKeeps | src/Modules/mod-rest-programs/Module.cs:143-150 | The program-creation block keeps the invariant. |
| ProgramsModule.AdvanceKeeps | src/Modules/mod-rest-programs/Module.cs:153-185 | The label-change block restores the whole invariant. |
| ProgramsModule.ObserveKeeps | src/Modules/mod-rest-programs/Module.cs:119-189 | One loop pass keeps the invariant and moves it to the new instant: emitted programs are well shaped and ordered, and the open program and event are consistent. |
| ProgramsModule.RunKeeps | src/Modules/mod-rest-programs/Module.cs:94-190 | Over increasing instants, every state the loop reaches satisfies the invariant. |
| ProgramsModule.CloseResult | src/Modules/mod-rest-programs/Module.cs:192-204 | The close at the window end keeps the programs already emitted. With no open program it adds nothing. Otherwise it appends the open program last, stopped at the end, with its open event closed at the end and added; name, start and flag are unchanged. |
| ProgramsModule.CloseShaped | src/Modules/mod-rest-programs/Module.cs:192-204 | After the final close, every program's events are chained, none is labelled Stopped or Completed, and the last stops with the program. When the window end is not before the last instant, every program also runs forward. |
| ProgramsModule.ObserveOpening | src/Modules/mod-rest-programs/Module.cs:143-150 | A program only starts on a response with a valid name and a label that does not end a program, with that name, at that instant. With no program open, such a response always starts one. |
| ProgramsModule.ObserveClosing | src/Modules/mod-rest-programs/Module.cs:172-180 | "Stopped" or "Completed" under the same name closes and emits the open program, stopped at the instant, Completed exactly when the label is "Completed". |
| ProgramsModule.ObserveRename | src/Modules/mod-rest-programs/Module.cs:121-140 | A name change closes the open program at the instant. It is emitted, not completed, exactly when it had an open event. The previous label is forgotten. |
| ProgramsModule.ObserveEmits | src/Modules/mod-rest-programs/Module.cs:119-189 | A pass emits at most one program and keeps the earlier ones. It always records the program name. An emitted program is Completed only on a "Completed" response. A pass without a response changes nothing else. |
| ProgramsModule.ReadIds | src/Modules/mod-rest-programs/Module.cs:53-62 | The ids read are the rule's ids followed by the PROGRAM and EXECUTION item ids, when those items exist. |
| ProgramsModule.SpecProperties | src/Modules/mod-rest-programs/Module.cs:28-230 | A request is declined exactly when invalid. No exception escapes. What is written is a non-empty list of well-shaped programs. When no sample lies after the window end, every program also runs forward. |
| ProgramsModule.TrackedProperties | src/Modules/mod-rest-programs/Module.cs:88-214 | When tracking a non-empty history succeeds, every program it closes is well shaped, and runs forward when no sample lies after the window end. |
| ProgramsModule.RunNext | src/Modules/mod-rest-programs/Module.cs:95-190 | One more instant ends the loop at a failed read, or takes one state-machine step. |
| ProgramsModule.RunErrStays | src/Modules/mod-rest-programs/Module.cs:220-224 | A failed read ends the loop: every longer run has the same failure. |
| ProgramsModule.ObserveStep | src/Modules/mod-rest-programs/Module.cs:119-189 | The body of a pass computes one state-machine step. |
| ProgramsModule.TrackLoop | src/Modules/mod-rest-programs/Module.cs:95-190 | The timestamp loop computes the run over all instants, stopping at the first failed read. |
| ProgramsModule.Pass | src/Modules/mod-rest-programs/Module.cs:97-189 | One pass replays the instant into the snapshot, reads, and steps. |
| ProgramsModule.CloseOpen | src/Modules/mod-rest-programs/Module.cs:192-204 | The code after the loop closes the open event and program at the window end and emits the program. |
| ProgramsModule.GetResponse | src/Modules/mod-rest-programs/Module.cs:28-230 | Returns exactly the value model of the request. |
| ProgramsVariant.SetEventStop | src/Modules/mod-rest-programs/Programs.cs:131 | The referenced event gets the instant as its stop. Every other event, every other field of that event, and every program's name, start, stop, flag and event count stay as they were. |
| ProgramsVariant.SetStop | src/Modules/mod-rest-programs/Programs.cs:132 | Only the referenced program's stop changes. |
| ProgramsVariant.StartProgram | src/Modules/mod-rest-programs/Programs.cs:117-122 | A new program goes at the end of the output list at once and becomes the open one. References stay valid. |
| ProgramsVariant.Create | src/Modules/mod-rest-programs/Programs.cs:113-123 | The first creation block keeps the references valid. |
| ProgramsVariant.Rename | src/Modules/mod-rest-programs/Programs.cs:126-149 | When the name-change block succeeds, the references stay valid. |
| ProgramsVariant.Extend | src/Modules/mod-rest-programs/Programs.cs:152-176 | The open-program block keeps the references valid. |
| ProgramsVariant.Observe | src/Modules/mod-rest-programs/Programs.cs:109-177 | A successful pass keeps the references valid. |
| ProgramsVariant.Run | src/Modules/mod-rest-programs/Programs.cs:86-179 | Every state the loop reaches has valid references. |
| ProgramsVariant.AppendedTrans | src/Modules/mod-rest-programs/Programs.cs:120 | "Only appends programs of this name" composes. |
| ProgramsVariant.CreateAppends | src/Modules/mod-rest-programs/Programs.cs:113-123 | The first creation block appends at most one program, of the current name, starting now. |
| ProgramsVariant.RenameAppends | src/Modules/mod-rest-programs/Programs.cs:126-149 | The name-change block appends at most one program, of the current name, starting now. |
| ProgramsVariant.ExtendKeeps | src/Modules/mod-rest-programs/Programs.cs:152-176 | The open-program block adds no program and changes no program's name or start. |
| ProgramsVariant.ObserveAppends | src/Modules/mod-rest-programs/Programs.cs:109-177 | Programs are only added, at the end, at most two per pass, each with the current (valid) name and starting at the instant. Earlier programs keep their name and start. |
| ProgramsVariant.ObserveOpensEvent | src/Modules/mod-rest-programs/Programs.cs:161-171 | While a program is open, every response with a label that does not end a program opens a new event on it, even an unchanged label. That event becomes the open one. |
| ProgramsVariant.ExtendOpensEvent | src/Modules/mod-rest-programs/Programs.cs:161-171 | With a program open, a label that does not end it is appended as the program's last event, starting at the instant, and becomes the open event. |
| ProgramsVariant.ObserveKeepsOpen | src/Modules/mod-rest-programs/Programs.cs:152-176 | "Stopped"/"Completed" under the same name leave the program open. Its stop moves to the instant when an event was open. "Completed" sets its flag. |
| ProgramsVariant.ObserveRename | src/Modules/mod-rest-programs/Programs.cs:126-149 | A name change replaces the open program: by a new last one of that name, starting now, exactly when the name is valid and the label does not end a program; otherwise by none. |
| ProgramsVariant.ObserveFault | src/Modules/mod-rest-programs/Programs.cs:129-133 | A pass fails exactly when a response brings a new name while an event is still referenced, no program is open, and none can start. |
| ProgramsVariant.FirstStepAddsTwo | src/Modules/mod-rest-programs/Programs.cs:113-145 | The first valid response adds two programs of that name at that instant. The second is the open one; the first stays empty. |
| ProgramsVariant.StaleEventFault | src/Modules/mod-rest-programs/Programs.cs:126-146 | A run of three responses (a program, then UNAVAILABLE, then an empty name) ends in a null-reference failure. |
| ProgramsVariant.RunErrStays | src/Modules/mod-rest-programs/Programs.cs:195-199 | A failure ends the loop: every longer run has the same failure. |
| ProgramsVariant.SeedTime | src/Modules/mod-rest-programs/Programs.cs:61-64 | The seed is `from` when set, else `at` when set, else the latest sample instant. |
| ProgramsVariant.SpecProperties | src/Modules/mod-rest-programs/Programs.cs:28-205 | A request is declined exactly when invalid, and no exception escapes. With the device, data items, samples and rule present, a missing PROGRAM or EXECUTION item writes an empty list. With both items present, nothing is written exactly when the tracking run fails, and a successful run's program list is written unchanged, even when it is empty. |
| ProgramsVariant.RunNext | src/Modules/mod-rest-programs/Programs.cs:86-179 | One more instant ends the loop at a failure, or takes one step. |
| ProgramsVariant.ObserveStep | src/Modules/mod-rest-programs/Programs.cs:109-177 | The `response != null` block computes one step. |
| ProgramsVariant.CreateStep | src/Modules/mod-rest-programs/Programs.cs:113-123 | The first `if` adds a program at once, and makes it the open one, exactly when none is open, the name is valid and the label does not end a program. |
| ProgramsVariant.RenameStep | src/Modules/mod-rest-programs/Programs.cs:125-148 | On a name change the open event and program get their stop, failing when an event is open without a program; then a new program starts or none is open. |
| ProgramsVariant.ExtendStep | src/Modules/mod-rest-programs/Programs.cs:151-174 | With a program open, the open event and program get their stop; a label that does not end a program becomes a new open event, and "Completed" sets the flag. |
| ProgramsVariant.Pass | src/Modules/mod-rest-programs/Programs.cs:88-178 | One pass replays the instant into the snapshot, reads, and steps. |
| ProgramsVariant.TrackLoop | src/Modules/mod-rest-programs/Programs.cs:86-179 | The timestamp loop computes the run over all instants, stopping at the first failure. |
| ProgramsVariant.GetResponse | src/Modules/mod-rest-programs/Programs.cs:28-205 | Returns exactly the value model for one pass of the polling loop. |
| Alarms.ConditionIds | src/Modules/mod-rest-alarms/Module.cs:49 | Holds exactly the ids of the CONDITION data items. |
| Alarms.ConditionIdsSingle | src/Modules/mod-rest-alarms/Module.cs:49 | A single data item gives its id exactly when it is a CONDITION item. |
| Alarms.ConditionIdsAppend | src/Modules/mod-rest-alarms/Module.cs:49 | The ids keep definition order: the ids of two runs of items back to back are each run's ids, back to back. |
| Alarms.AlarmsOf | src/Modules/mod-rest-alarms/Module.cs:56-65 | There are never more alarms than samples. |
| Alarms.AlarmsOfMembers | src/Modules/mod-rest-alarms/Module.cs:59-64 | An alarm is present exactly when its sample is one of the input's and is not NORMAL. |
| Alarms.AlarmsOfSnoc | src/Modules/mod-rest-alarms/Module.cs:59-64 | One more sample adds its alarm at the end exactly when it is not NORMAL. |
| Alarms.AlarmsOfAppend | src/Modules/mod-rest-alarms/Module.cs:56-65 | The filter distributes over concatenation, so alarms keep their samples' order. |
| Alarms.AlarmsOfCount | src/Modules/mod-rest-alarms/Module.cs:56-65 | Every sample becomes an alarm exactly when none is NORMAL. |
| Alarms.AlarmsOfNone | src/Modules/mod-rest-alarms/Module.cs:56-67 | There is no alarm, and nothing is written, exactly when every sample is NORMAL. |
| Alarms.SpecProperties | src/Modules/mod-rest-alarms/Module.cs:28-94 | A request is declined exactly when invalid, and no exception escapes. What is written is the non-empty list of alarms of the CONDITION samples, each not NORMAL. All-NORMAL samples write nothing. |
| Alarms.CollectAlarms | src/Modules/mod-rest-alarms/Module.cs:56-65 | The `foreach` loop computes the alarm list. |
| Alarms.GetConditionIds | src/Modules/mod-rest-alarms/Module.cs:49 | The `foreach` loop computes `ConditionIds`: exactly the ids of the CONDITION items, in definition order (`ConditionIdsAppend`). |
| Alarms.GetResponse | src/Modules/mod-rest-alarms/Module.cs:28-94 | Returns exactly the value model for one pass of the polling loop. |

The methods above are each proved equal to a function that states the
same computation as a value. The functions that carry no contract of
their own, and so have no row, model these lines:

* `ProgramsModule` (`mod-rest-programs/Module.cs`):
  * `Interrupt`: the stop update and program-change block, lines 121-140.
  * `Open`: the program creation, lines 143-150.
  * `Advance`: the label-change block and `previousValue`, lines 153-184.
  * `Observe`: one `response != null` block plus `previousProgramName`, lines 119-189.
  * `Run`: the `for` loop over the instants, lines 95-190.
  * `Close`: the close at the window end, lines 192-204.
  * `Tracked`: the replay and the close, lines 69-204.
  * `Spec`: the whole handler, lines 28-230.
* `Availability` (`mod-rest-oee/Availability.cs`):
  * `Step`: one `response != null` block, lines 111-123.
  * `Fold`: the `for` loop's bookkeeping, lines 85-124.
  * `Closed`: the trailing close, lines 128-132.
  * `Outcome`: the result built after the loop, lines 126-140.
  * `Spec`: the whole `Get`, lines 55-146.
* `Performance` (`mod-rest-oee/Performance.cs`):
  * `Segment`: the override loop, lines 65-88.
  * `Overlaps`: the overlap test, line 107.
  * `Contribution`: one Availability interval's seconds, lines 107-118.
  * `Spec`: the whole `Get`, lines 50-137.
* Whole handlers as values:
  * `OeeModule.Spec`: `mod-rest-oee/Module.cs` lines 25-103.
  * `Alarms.Spec`: `mod-rest-alarms/Module.cs` lines 28-94.
  * `ProgramsVariant.Spec`: `mod-rest-programs/Programs.cs` lines 28-205.

## Left out

- Database access, JSON serialization, stream writes and logging. The database is a parameter (`Device`). What is written is the value in `Handled`.
- The polling loops of Alarms and of `Programs.cs` (`while (stream != null)` with `Thread.Sleep`): one pass is modelled. A later pass repeats it on fresh reads.
- `Math.Round(x, 3)` and `Math.Round(x, 5)`: durations are whole seconds, so the 3-place rounding of operating and planned times does nothing. The 3-place rounding of ideal time (`Performance.cs:45`) and the 5-place rounding of ratios are omitted; ratios and ideal times are exact reals.
- Performance.Make: keeps the ideal time unrounded, whereas `Performance.cs:45` rounds it to 3 places. The totals therefore differ from the source's by up to 0.0005 s, and a positive ideal time below 0.0005 s makes `Performance.Value` a positive ratio where the source's rounded ideal time of 0 gives 0.
- `double` arithmetic: times are unbounded integers and ratios are exact reals. A non-finite quotient (Performance with ideal time but no operating time) is `None` in `Performance.Value` and `Oee.Value`.
- `DateTime` overflow, sub-second precision and the `DateTimeKind` of timestamps.
- `DateTime.UtcNow` is `Env.now`, and `double.TryParse` is `Env.parse`.
- `Event.Evaluate` over `SampleInfo.Create(DataItemInfo.CreateList(...))`, and `DataFilter.IsMatch`. These are parameters (`Env.evaluate`, `Env.isMatch`); the rule engine is not part of this model.
- Sample text (`CDATA`) and rule response values are never null in the model: a sample's `cdata` and an evaluation's `value` are plain strings. Both trackers compare program names with C#'s null-aware `!=` (`Programs.cs:126`, `Module.cs:127`), so in the source a null name followed by an empty name is a name change. In the model, which has only "" to stand for the null, it is not. `ProgramsVariant.Rename` and `ProgramsModule.Interrupt` therefore miss that one change. For the names "O1000", null, "" under the label "Running", the source's variant tracker throws at `Programs.cs:132` and writes nothing, whereas the model writes the list. Where only `IsNullOrEmpty` looks at a name (`Programs.cs:113`, `Programs.cs:135`, `Module.cs:143`), null and "" agree.
- Lists the source checks only with `IsNullOrEmpty` are modelled as sequences: null and empty are the same. Two places would differ on a null list and are not modelled: the null component list that `components.FindAll` dereferences in the programs `Module.cs:77` and `Programs.cs:76`, and a null `Events` list of the rule.
- The `Program` and `ProgramEvent` classes are not part of this model. Events are taken to start empty and `Stop` to start at `DateTime.MinValue`.
- `String.ToLower` is modelled as ASCII lower-casing (`Common.Lower`), which covers the rule names the modules look up.
- The unused locals `previousTime`, `paths` and `dataItemInfos` are not modelled. Nor is `response.Timestamp` in `Programs.cs`, which is set to the instant and read back unchanged.
- Availability: `previousEvent` starts null in the source and "" in the model. It is only read while `addPrevious` holds, by which time it holds "Active".
- The commented-out tracker in the programs `Module.cs` (lines 232-452).
- RestServer dispatch and module ordering; `SendData` and `DeleteData`, which return false.
- `Programs.cs`: the references `program` and `programEvent` are indices into the output list (`ProgramsVariant.EventRef`). This captures the aliasing that matters: a program changed after it was added, and an event belonging to an older program. It does not model object identity beyond that.
- The `Alarm` constructor is not part of this model. An alarm is modelled as wrapping its sample.
- Performance.OutcomeProperties: bounded only when the Availability intervals are ordered and do not overlap, as `Availability.ClosedProperties` proves for the intervals Availability produces. Unordered inputs are not constrained.
