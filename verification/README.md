# mlxlink exporter: a verified model

The exporter runs a slow command once per device in the background, decodes its
JSON, and publishes immutable snapshot sets that Prometheus scrapes read without
a lock. This project models that path in Dafny, from the bytes a process writes
to the series a scrape emits, and proves properties of every run of it.

`dafny verify dfyconfig.toml` checks everything.

## How it is organised

| module | models |
|---|---|
| `Wrappers`, `Text`, `Ordering` | options and results; string trimming, splitting and number reading; sorting |
| `Model`, `Envelope` | the data types of model.go; a response whose JSON text has been read |
| `LaneReadings`, `FECHistogram`, `SerDes`, `EyeLanes`, `Decoder`, `VendorText` | decoder.go |
| `Runner` | runner.go: the bounded output buffer and how a finished process is judged |
| `Journal` | what the history of attempts says about each device: the reference every published set is compared with |
| `Attempts` | one attempt: the Eye, combined and baseline queries, and the PCIe query |
| `Sweeps`, `Runs` | one sweep; whole runs under any schedule of ticks |
| `SnapshotStore`, `Poller` | poller.go as heap objects: Go maps, snapshot sets, the atomic pointer, the poller's fields |
| `History`, `CallNumbers`, `Domains`, `NonInterference`, `Timing` | theorems over every run |
| `Metrics`, `Exports`, `Collector`, `PCIeEyeCollector` | collector.go and pcie_eye_collector.go |
| `EndToEnd` | theorems from process output to exported series |

The outside world is a `Host`: discovery results, runner results, clock readings
and the first look at the context that finds it cancelled, each indexed by how
often it has been asked for. Nothing is assumed about these tapes beyond what a
lemma requires, so a statement for every `Host` and every schedule of `Turn`s is
a statement about every run, every failure pattern and every shutdown timing.

The poller writes two ghost journals of what it did, each event where it happens:
a published set is recorded with the write to the store, and readiness by a
method that demands the success in the store first. `Poller.Poller.Valid` says
that its real fields (error counters, readiness, both stores) are what the
journals say, and `Poller.Poller.Run` is proved to end in exactly the state of
`Runs.RunAfter`; the theorems of `History`, `Domains`, `NonInterference` and
`EndToEnd` are about that state. A published set is an event of the journal, so
a statement about every published set covers a scrape at any moment of a sweep.

The vendor sections are decoded by methods that visit map keys in an arbitrary
order. Each is proved against a relation (`IsHistogram`, `IsTuning`,
`IsOpening`) that fixes exactly one answer, which makes the order irrelevant.

## Where the code and its comments differ

- docs/design.md, section 4, promises that whoever acts on readiness finds data
  to scrape. Readiness never goes away, the data does. Two runs show it:
  `Domains.ReadyWithNothingPublished` ends with an empty set (poller.go:285-289),
  and in `EndToEnd.ReadyWithNothingToScrape` the set holds only a device that has
  never succeeded. `EndToEnd.DataToScrape` gives the exact condition for every
  run, every loaded set and every time of scrape: some device's latest success is
  fresh and has something to export, and every discovery since has reported the
  device. `History.ShownExactly` is the same for one device and its last success,
  and `Domains.ReadyShowsDevices` says when the set has no devices at all.
- poller.go:353-355 rules out counting failures that shutdown causes. An Eye
  attempt whose fallback has completed is abandoned at the look in poller.go:387
  after the fallback has counted its errors. `Attempts.AbandonedEyeCanCount` is
  such a run, and `Attempts.AbandonedEyeCounts` says exactly when it happens and
  what is left.
- decoder.go:383-385 calls the vendor's bin ranges disjoint. The decoder does not
  compare ranges with each other. `FECHistogram.OverlappingRangesDecode` is a
  histogram with overlapping ranges, and `FECHistogram.DisjointExactly` says when
  a decoded histogram has none: exactly when the section's texts have none.
- runner.go:170-172 says the buffer records overproduction. An empty write to a
  full buffer sets the flag too, and `Runner.EmptyWriteRefusesCompleteOutput` is a
  complete output refused for it. `Runner.LimitedBuffer.Write` states exactly when
  the flag is set; os/exec never issues such a write.

## Model

| member | source | states |
|---|---|---|
| Poller.Poller.Run | internal/mlxlink/poller.go:184-205 | for any schedule the poller, its journals, its counters, its ticker and its stop flag end exactly where the run of the specification ends; readiness and every published set persist |
| Poller.Poller.Select | internal/mlxlink/poller.go:196-204 | one turn of the select loop, with the race between a done context and a ready tick left to the schedule |
| Runs.StopsExactly | internal/mlxlink/poller.go:184-199 | over every run the poller stops if and only if the context is done and wins the race, which it does alone when no tick is ready; stopping sweeps, calls and counts nothing, and a stopped poller stays stopped |
| Runs.SweepsExactly | internal/mlxlink/poller.go:196-235 | a poller that does not stop sweeps if and only if a tick is ready, once, for the oldest tick; an overlap is counted if and only if another tick fires before the drain and the context is then still live |
| Runs.SweepsAtStart | internal/mlxlink/poller.go:185-191 | the first sweep comes before any tick, unless the context is cancelled already |
| Poller.Poller.DrainTicks | internal/mlxlink/poller.go:223-235 | at most one tick is taken after a sweep, and it is counted unless the context is done |
| Poller.Poller.Sweep | internal/mlxlink/poller.go:240-266 | a failed discovery changes nothing; the PCIe phase follows only a completed network phase |
| Poller.Poller.SweepNetwork | internal/mlxlink/poller.go:278-315 | the whole new state of a network sweep, an empty discovery included, and whether it ran to completion |
| Poller.Poller.SweepPCIe | internal/mlxlink/poller.go:263-315 | the same for the PCIe phase, which touches no network field |
| Poller.Poller.PublishNetwork | internal/mlxlink/poller.go:305-308 | the device enters the working map and a copy of it becomes the loaded set, with readiness untouched |
| Poller.Poller.Announce | internal/mlxlink/poller.go:251-257 | readiness may be set only while the loaded set holds this very snapshot, without an error and with a last success |
| Poller.Poller.VisitNetwork | internal/mlxlink/poller.go:300-313 | one turn of the sweep's loop: collect, publish, then announce a success; abandoned, nothing is published |
| Poller.Poller.CollectDevice | internal/mlxlink/poller.go:356-366 | the snapshot is the attempt's outcome folded into the previous one; counters grow by what the attempt counted |
| Poller.Poller.CollectWithEye | internal/mlxlink/poller.go:368-409 | is the staged attempt of the specification, looks at the context, error counts and runner calls included |
| Poller.Poller.CollectCombined | internal/mlxlink/poller.go:411-446 | is the combined stage of the specification, whose successes keep everything but the Eye section |
| Poller.Poller.CollectBaseline | internal/mlxlink/poller.go:465-511 | is the baseline stage, counting the combined query it replaces only once its own result is known |
| Poller.Poller.CollectPCIeEye | internal/mlxlink/poller.go:317-351 | is the single PCIe query, counting PCIe errors only |
| Poller.Poller.RecordFailure | internal/mlxlink/poller.go:525-533 | keeps data and last success, sets the reason and counts it once under the target's labels |
| Poller.Poller.RecordSuccess | internal/mlxlink/poller.go:448-459 | the snapshot is what the history makes of a success whatever was recorded before, so nothing older survives |
| Poller.Poller.RecordPCIeEyeFailure | internal/mlxlink/poller.go:551-558 | the same as RecordFailure for the PCIe snapshot and its own counter |
| SnapshotStore.Store.PublishCopy | internal/mlxlink/poller.go:305-308 | publishing leaves every earlier set and its contents alone and stores a map no one else holds |
| SnapshotStore.Store.PublishedNeverChanges | internal/mlxlink/poller.go:73-78 | a set a reader loaded at any time has the same contents in every later state |
| SnapshotStore.SeedWorking | internal/mlxlink/poller.go:292-298 | the working map is a new one and starts with the loaded entries of exactly the targets just discovered |
| SnapshotStore.LookupIn | internal/mlxlink/poller.go:82-89 | a nil set and a nil map have no devices |
| History.EveryRunSound | internal/mlxlink/poller.go:240-315 | at every point of every run, each set ever published in either phase is the fold of the attempt history, and until shutdown the store itself is |
| History.UncancelledStore | internal/mlxlink/poller.go:240-315 | without shutdown the store always equals the fold of the history, device by device |
| Journal.EntryFields | internal/mlxlink/poller.go:356-366 | in that fold Data and LastSuccess are those of the latest success, Target, LastError and LastDuration those of the latest attempt, since the device last appeared |
| Journal.LastOfPublished | internal/mlxlink/poller.go:170-175 | what a reader loads is the last set published |
| Domains.StoreDomain | internal/mlxlink/poller.go:285-313 | without shutdown both stores hold exactly the devices of the last successful discovery |
| Domains.ReadyShowsDevices | internal/mlxlink/poller.go:177-180 | in every run a ready poller has a set; the set has no devices if and only if the discovery behind it had none, and that is the last discovery unless a shutdown cut its sweep short |
| Domains.ReadyWithNothingPublished | internal/mlxlink/poller.go:285-289 | a concrete run that is ready and publishes an empty set |
| History.ShownExactly | internal/mlxlink/poller.go:251-313 | in every run and both phases a published set holds a device with a last success if and only if an attempt on it had succeeded and every discovery since has reported it |
| EndToEnd.DataToScrape | internal/mlxlink/collector.go:187-229 | in every run a scrape of a published set exports some measurement if and only if some device's latest success is fresh, has something to export and is on a device every discovery since has reported |
| EndToEnd.ReadyWithNothingToScrape | internal/mlxlink/poller.go:251-257 | a concrete run that is ready, publishes a device and exports no measurement at any time |
| Journal.LatestSuccessExactly | internal/mlxlink/poller.go:292-298 | a device has a latest success in the history if and only if some success on it has been kept by every discovery since |
| Sweeps.MidSweepSets | internal/mlxlink/poller.go:268-275 | a set loaded during a sweep shows this sweep's result for visited devices, exactly the earlier entry for the others, and no device that was not discovered |
| Sweeps.NeverAGap | internal/mlxlink/poller.go:268-275 | a published device that is still discovered is never missing from a set of the sweep |
| Sweeps.VisitFaithful | internal/mlxlink/poller.go:300-314 | a sweep from any point keeps published sets faithful; it can leave the store out of step only when cancelled |
| Sweeps.SweepFaithful | internal/mlxlink/poller.go:278-315 | the same for a whole sweep from its discovery on, an empty discovery included |
| Sweeps.VisitInOrder | internal/mlxlink/poller.go:300-304 | devices are attempted in target order, all of them unless the sweep is cut short |
| Sweeps.EndStep | internal/mlxlink/poller.go:300-314 | visiting one device and then the rest ends where the recursive sweep ends |
| History.EveryRunGenuine | internal/mlxlink/poller.go:300-308 | every entry of both journals of every run is the result of one attempt |
| History.PublishedSource | internal/mlxlink/poller.go:448-459 | every published snapshot's data comes from a recorded successful attempt on that device, and its error field says whether the latest attempt succeeded |
| History.PublishedAuthority | internal/mlxlink/poller.go:442-445 | Eye data implies an Eye query, FEC or SerDes data implies no baseline query, and with Eye off there is no Eye data, whatever the responses held |
| History.PublishedSections | internal/mlxlink/poller.go:442-504 | in every run every published snapshot shows, section by section, what its latest success's query is trusted with of a response that decodes, and nothing before the first success |
| History.ReadinessSafe | internal/mlxlink/poller.go:251-257 | readiness is announced right after a set showing that device succeeded; later sets keep showing it while discovery reports it, and the store is never nil again |
| History.ReadyExactly | internal/mlxlink/poller.go:177-180 | in every run the poller is ready if and only if some attempt has succeeded |
| Journal.AnnouncedStays | internal/mlxlink/poller.go:251-257 | a device whose success was announced stays published with a last success while every discovery reports it |
| History.RunErrorsConserved | internal/mlxlink/poller.go:547-549 | over any run the error total is the calls of completed attempts minus successes, plus at most two counts left by an abandoned attempt, and none without Eye or without shutdown |
| History.RunPCIeErrorsConserved | internal/mlxlink/poller.go:560-562 | over any run the PCIe error total is the PCIe calls of completed attempts minus successes, and abandoned attempts leave nothing |
| Attempts.StagedCounts | internal/mlxlink/poller.go:381-397 | a completed attempt of k calls counts k-1 exit_error, and its last reason unless it succeeded, under its target's labels, and nothing else |
| Attempts.PCIeCounts | internal/mlxlink/poller.go:332-344 | a PCIe attempt makes one call and counts its one failure or nothing; abandoned, nothing |
| Attempts.AbandonedCountsNothing | internal/mlxlink/poller.go:411-435 | without an Eye stage an abandoned attempt counts nothing for any cancellation timing |
| Attempts.AbandonedEyeCounts | internal/mlxlink/poller.go:381-389 | an abandoned Eye attempt leaves counts if and only if its query exited, the combined query was not answered with decodable bytes, and the context was cancelled exactly at the look after the fallback's last; then exactly the fallback's one or two |
| Attempts.AbandonedEyeCanCount | internal/mlxlink/poller.go:387-389 | a concrete attempt that leaves a timeout counted |
| Attempts.StagedStops | internal/mlxlink/poller.go:377-379 | a cancelled context always abandons an attempt and only a cancelled context does |
| Attempts.StagedGrammar | internal/mlxlink/poller.go:381-386 | the calls are a prefix of the stages, extended exactly past an exit_error under a context that is still live |
| Attempts.StagedSource | internal/mlxlink/poller.go:400-408 | a success's data is the authoritative part of the decoded answer to the last call made |
| Attempts.CollectKeeps | internal/mlxlink/poller.go:408-504 | every success keeps link, counters and module of its response, all of it after an Eye query, all but Eye after a combined one, and no FEC, SerDes or Eye data after a baseline one |
| Attempts.StagedReports | internal/mlxlink/poller.go:424-441 | a completed attempt reports the answer to its last call: success exactly for bytes that decode, invalid_json for bytes that do not, else the error's own reason or unknown; a success is dated by the reading after that call |
| Attempts.PCIeReports | internal/mlxlink/poller.go:326-347 | the same for the PCIe query |
| Attempts.CompletesExactly | internal/mlxlink/poller.go:368-511 | an attempt completes if and only if the context is live at the last of its looks, which the runner's answers alone determine |
| Attempts.PCIeCompletesExactly | internal/mlxlink/poller.go:326-340 | the same for the PCIe query and its one or two looks |
| Attempts.ErrorsLabelled | internal/mlxlink/poller.go:547-562 | every count carries device, port and PCI address of its target, and device and PCI address alone in the PCIe counter |
| Timing.AttemptDuration | internal/mlxlink/runner.go:99-119 | when each of its calls takes at most the timeout plus the equal wait delay, an attempt makes at most three calls and records at most six timeouts, whatever pause follows it |
| Timing.PublishedDurations | internal/mlxlink/poller.go:374-376 | in every run whose calls keep that bound, every published network snapshot records at most six timeouts and every PCIe one at most two |
| Attempts.EyeIsStaged | internal/mlxlink/poller.go:368-409 | the three nested methods together are the staged fallback |
| History.SweepTrace | internal/mlxlink/poller.go:251-265 | a sweep's runner calls are the targets in order, a completed attempt going on past exactly the exit_errors, an abandoned one as its own looks allowed; then one PCIe call per target, exactly when enabled and after a complete network phase |
| History.UncancelledSweepTrace | internal/mlxlink/poller.go:251-265 | without shutdown every target is attempted, and queried once for its PCIe link when that is enabled |
| Attempts.StagedCompleted | internal/mlxlink/poller.go:381-426 | the calls of a completed attempt, and the looks it took, depend on the runner's answers alone |
| History.SweepCallBound | internal/mlxlink/poller.go:300-314 | at most four runner calls per device and sweep |
| Timing.SweepTimeBound | internal/mlxlink/runner.go:99-119 | when each call takes at most the timeout plus the equal wait delay, a sweep's attempts take at most eight timeouts per device |
| NonInterference.PCIeCannotInterfere | internal/mlxlink/poller.go:263-265 | two uncancelled runs with the same network answers publish the same network sets up to times, with the same readiness and counters, whatever the PCIe setting and outcomes |
| Runs.TickConservation | internal/mlxlink/poller.go:207-235 | ticks fired are tick-driven sweeps, counted overlaps, ticks taken in shutdown, coalesced and pending ones; overlaps never exceed sweeps; each sweep starts on a tick fired after the previous sweep ended |
| Runner.LimitedBuffer.Write | internal/mlxlink/runner.go:179-190 | the buffer holds the first limit bytes of all writes and the flag is set exactly when bytes were dropped or an empty write met a full buffer |
| Runner.Run | internal/mlxlink/runner.go:98-136 | a finished process is judged in the order cancelled, too large, clean exit, failure |
| Runner.AcceptedOutputIsComplete | internal/mlxlink/runner.go:123-135 | a run succeeds if and only if it ended cleanly, uncancelled and within the limit, and then returns the complete output |
| Runner.ReasonExactly | internal/mlxlink/runner.go:123-168 | when each reason results: shutdown carries none and comes first, then output beyond four mebibytes, then timeout, missing command, permission, non-zero exit and unknown, each if and only if none before it applies |
| Runner.EmptyWriteRefusesCompleteOutput | internal/mlxlink/runner.go:179-190 | a concrete complete output that is refused because an empty write followed it |
| Decoder.Decode | internal/mlxlink/decoder.go:162-176 | accepts a response if and only if its document has no status or a zero one and an output, and returns the one reading of its sections |
| Decoder.DecodePCIeEye | internal/mlxlink/decoder.go:180-186 | the same for a PCIe response |
| Decoder.AcceptedExactly | internal/mlxlink/decoder.go:188-212 | acceptance on the document, for both decoders; a non-zero status is reported as such whatever the shape of the result, each other refusal by its own cause |
| Decoder.SectionsByName | internal/mlxlink/decoder.go:168-185 | each part of the data is what the section of its vendor name holds |
| EndToEnd.SuccessesAccepted | internal/mlxlink/decoder.go:193-198 | in every run no success of either phase comes from a response with a non-zero status or without an output |
| VendorText.CountersRoundTrip | internal/mlxlink/decoder.go:582-593 | any section written for some counters, each padded, bounded, unavailable or missing on its own, decodes to exactly those |
| VendorText.ModuleRoundTrip | internal/mlxlink/decoder.go:595-626 | the same for the module diagnostics, in base units, with flags and states as truth values, and the inventory |
| VendorText.LinkRoundTrip | internal/mlxlink/decoder.go:571-580 | the same for the link attributes |
| VendorText.EyeRoundTrip | internal/mlxlink/decoder.go:214-227 | an Eye section written for some lanes and scores under the vendor's five field names decodes to exactly their listing, family by family |
| VendorText.PCIeEyeRoundTrip | internal/mlxlink/decoder.go:229-235 | the same for the PCIe Eye section and its two fields |
| VendorText.MissingSectionsIsolated | internal/mlxlink/decoder.go:157-160 | a missing section costs a response that section's data and nothing else |
| Decoder.DecodedIsWellFormed | internal/mlxlink/decoder.go:162-176 | no accepted response repeats a lane, bin or (lane, tap) pair in any family |
| FECHistogram.DecodeFECHistogram | internal/mlxlink/decoder.go:326-351 | for every key order returns the histogram the section holds, or nothing |
| FECHistogram.HistogramUnique | internal/mlxlink/decoder.go:326-401 | a section holds at most one histogram: exact header, every bin key readable and distinct, numbers 0..n-1 |
| FECHistogram.ConsecutiveFECBins | internal/mlxlink/decoder.go:386-401 | returns the bins in order if and only if their numbers are exactly 0..n-1 |
| FECHistogram.HistogramRoundTrip | internal/mlxlink/decoder.go:326-424 | every histogram with ordered bounds below 2^64 is recovered from any of its encodings, as single counts or ranges, with any padding and other keys |
| FECHistogram.RangeExactly | internal/mlxlink/decoder.go:403-424 | a range text is read if and only if it is "[N]" or "[low:high]" with low at most high and numbers below 2^64, padding allowed |
| FECHistogram.BinExactly | internal/mlxlink/decoder.go:358-381 | a bin is read if and only if its number, its range and its occurrences each are |
| FECHistogram.HistogramNeeds | internal/mlxlink/decoder.go:326-356 | a histogram is decoded only under the exact header and only if every bin key reads as one of its bins |
| FECHistogram.DisjointExactly | internal/mlxlink/decoder.go:383-424 | a decoded histogram's ranges are pairwise disjoint if and only if the section's range texts are |
| FECHistogram.OverlappingRangesDecode | internal/mlxlink/decoder.go:403-424 | a concrete histogram whose ranges overlap is decoded |
| SerDes.DecodeSerDesTX | internal/mlxlink/decoder.go:426-458 | for every order of both maps returns the tuning the section holds: the allowlisted cells of the fully readable rows, by lane and tap |
| SerDes.SerDesHeader | internal/mlxlink/decoder.go:462-476 | the trimmed parameter names, if there are any and none repeats |
| SerDes.SerDesLanes | internal/mlxlink/decoder.go:478-498 | for every key order succeeds if and only if every lane key is readable and distinct and its row fits |
| SerDes.SerDesKnownValues | internal/mlxlink/decoder.go:503-516 | all allowlisted values of a row, or none |
| SerDes.SerDesLane | internal/mlxlink/decoder.go:518-529 | for every order of a row's values, each tap's coefficient and the drive amplitude exactly once |
| SerDes.TuningUnique | internal/mlxlink/decoder.go:443-456 | a section has one such tuning, so no visiting order or sort changes it |
| SerDes.SameTaps | internal/mlxlink/decoder.go:500-516 | all surviving lanes carry the same taps |
| SerDes.DecodedColumns | internal/mlxlink/decoder.go:539-556 | a column is decoded if and only if it bears one of the six vendor names, and as the tap that name carries |
| SerDes.TapOrder | internal/mlxlink/decoder.go:443-452 | within a lane the taps come as main, post1, pre1, pre2, pre3 |
| SerDes.UsableExactly | internal/mlxlink/decoder.go:426-498 | a section is read exactly when its parameter list is not empty and repeats no trimmed name, and every key beginning with "Lane " goes on with a number no other key has and lists one value per name; any other section tells nothing |
| SerDes.TableRoundTrip | internal/mlxlink/decoder.go:426-529 | any section that prints a table of numbers and gaps under the vendor's column names, in any order among any other columns and with padding, decodes to the sorted listing of the lanes without a gap and nothing else |
| EyeLanes.DecodeEyeLaneValues | internal/mlxlink/decoder.go:237-269 | returns exactly the scores of the lanes readable in every family, or nothing when the grid is malformed |
| EyeLanes.OpeningUnique | internal/mlxlink/decoder.go:265-267 | sorting each family on its own leaves one possible result |
| EyeLanes.FamiliesAligned | internal/mlxlink/decoder.go:302-314 | all families share one strictly increasing lane list |
| EyeLanes.FamilyLanes | internal/mlxlink/decoder.go:302-314 | that list is the lanes readable in every family |
| EyeLanes.OrderIrrelevant | internal/mlxlink/decoder.go:237-269 | permuting the Lane list and its columns together changes nothing |
| EyeLanes.UniqueEyeLanes | internal/mlxlink/decoder.go:285-300 | the lane numbers are read if and only if all are readable and distinct |
| EyeLanes.EyeFamilies | internal/mlxlink/decoder.go:271-281 | every column is there with one value per lane, or nothing |
| EyeLanes.EyeLaneScores | internal/mlxlink/decoder.go:304-314 | a lane's scores in every family, or nothing |
| EyeLanes.UsableExactly | internal/mlxlink/decoder.go:237-300 | a section is read exactly when its lane list is not empty, holds numbers only and repeats none, and every field lists as many texts; otherwise no family is decoded |
| EyeLanes.ScoresRoundTrip | internal/mlxlink/decoder.go:237-314 | any section that prints scores for distinct lanes in any order, some of them unreadable, decodes to the sorted scores of the complete lanes and nothing else |
| LaneReadings.ReadableLanesExact | internal/mlxlink/decoder.go:681-694 | a lane has a sample if and only if its entry is readable, with its position as number and its value in base units |
| LaneReadings.LaneValues | internal/mlxlink/decoder.go:681-694 | computes those lanes |
| LaneReadings.LaneFlags | internal/mlxlink/decoder.go:713-727 | computes the flag lanes |
| LaneReadings.LaneStates | internal/mlxlink/decoder.go:734-752 | computes the state lanes |
| LaneReadings.ListFamiliesAllOrNothing | internal/mlxlink/decoder.go:708-752 | flag and state families are complete, lanes 0..n-1 with values 0 or 1, or empty |
| LaneReadings.CommaLaneValues | internal/mlxlink/decoder.go:756-762 | computes the lanes of a comma separated field |
| LaneReadings.SuffixExactly | internal/mlxlink/decoder.go:766-777 | a bracketed suffix is cut off exactly when the trimmed text ends in one, starting at the last opening bracket, with something before it |
| LaneReadings.CommaLaneRoundTrip | internal/mlxlink/decoder.go:756-777 | joining readings with commas and an optional range suffix and decoding yields exactly the readable ones at their positions |
| Text.PrintThenParse | internal/mlxlink/decoder.go:531-537 | a printed number below the bound is read back |
| Envelope.NumberedKeyExactly | internal/mlxlink/decoder.go:484-490 | a key carries a number exactly when it is the prefix and that number's decimal notation after any leading zeros, below 2^63 |
| Text.UintExactly | internal/mlxlink/decoder.go:531-537 | a text reads as a number exactly when it is that number's decimal notation after any leading zeros and the number is below the bound; a sign, a space or an empty text reads as nothing |
| Text.TrimExactly | internal/mlxlink/decoder.go:659 | trimming leaves the one text without spaces at its ends that blanks on both sides complete |
| Text.DecimalNotation | internal/mlxlink/collector.go:328-329 | numbers print in decimal, most significant digit first, and read with or without leading zeros |
| Text.DecimalInjective | internal/mlxlink/collector.go:326-331 | different numbers print as different label values |
| Collector.Collector.Collect | internal/mlxlink/collector.go:187-197 | emits every device of the loaded set once, in some order, and nothing when there is no set |
| Collector.CollectDevice | internal/mlxlink/collector.go:199-229 | emits exactly the device's self-monitoring samples, and its measurements unless stale |
| Exports.ExportsExactly | internal/mlxlink/collector.go:199-315 | a series is exported for a device if and only if its own field holds the value, under device, port and PCI address and the family's own labels, in seconds where it is a time, and for a measurement only while fresh |
| Collector.SendValue | internal/mlxlink/collector.go:319-324 | an unreadable value sends nothing, a readable one exactly its series |
| Collector.SendLanes | internal/mlxlink/collector.go:326-331 | one sample per lane |
| Collector.SendLanesWithLabel | internal/mlxlink/collector.go:333-339 | one sample per lane under the extra label |
| Collector.CollectLink | internal/mlxlink/collector.go:240-247 | one info sample unless every attribute is empty |
| Collector.CollectCounters | internal/mlxlink/collector.go:249-258 | each counter family carries its own field's samples |
| Collector.CollectModule | internal/mlxlink/collector.go:260-286 | each module family carries its own field's samples, and the inventory unless all of it is empty |
| Collector.CollectFECHistogram | internal/mlxlink/collector.go:288-298 | one sample per bin, labelled by number and bounds |
| Collector.CollectSerDesTX | internal/mlxlink/collector.go:300-307 | one sample per lane and tap, and one per drive amplitude |
| Collector.CollectEye | internal/mlxlink/collector.go:309-315 | figure-of-merit and grade samples labelled by stage and position |
| Collector.AnyNonEmpty | internal/mlxlink/collector.go:349-356 | true if and only if some value is not empty |
| PCIeEyeCollector.PCIeEyeCollector.Collect | internal/mlxlink/pcie_eye_collector.go:82-110 | the same for the PCIe set, without the port label |
| Exports.PCIeExportsExactly | internal/mlxlink/pcie_eye_collector.go:94-117 | the same for the PCIe families, under device and PCI address |
| Metrics.EmitMembers | internal/mlxlink/collector.go:319-339 | a metric is emitted if and only if it is one of its family's samples under the target's labels |
| Metrics.EmitDistinct | internal/mlxlink/collector.go:319-339 | distinct families with distinct samples never repeat a series |
| Metrics.PortScrapeDistinct | internal/mlxlink/collector.go:187-229 | a set keyed by device name with unambiguous data gives a scrape without a repeated series, for every iteration order |
| Metrics.PCIeScrapeDistinct | internal/mlxlink/pcie_eye_collector.go:82-117 | the same for the PCIe set |
| EndToEnd.NoDuplicateSeries | internal/mlxlink/collector.go:187-339 | for any responses, any run and any set published in it, no scrape emits a family twice with the same label values |
| EndToEnd.NoDuplicatePCIeSeries | internal/mlxlink/pcie_eye_collector.go:82-117 | the same for the PCIe collector |
| EndToEnd.Provenance | internal/mlxlink/collector.go:199-238 | every exported measurement is a sample of the authoritative part of the device's latest successful response, no older than staleAfter, decoded from the complete output of a process that ended cleanly, which was the run's call to this device with that query |
| EndToEnd.PCIeProvenance | internal/mlxlink/pcie_eye_collector.go:94-108 | the same for every exported PCIe score and the PCIe calls |
| CallNumbers.SuccessNamesItsCall | internal/mlxlink/poller.go:374-408 | in every run the call number a success carries is that of a call in the trace that asked its device with its query |
| EndToEnd.MeasurementSampled | internal/mlxlink/collector.go:231-238 | a measurement is exported if and only if the snapshot holds it and is fresh |
| EndToEnd.UpIffLatestSucceeded | internal/mlxlink/collector.go:202-206 | a published device is reported up if and only if its latest attempt succeeded |
| EndToEnd.RunAndScrape | internal/mlxlink/collector.go:187-197 | after any run the poller's two stores, scraped together by both collectors, give no series twice |

## Left out

- Process execution, pipes, signals, arguments and the environment: a runner call is a result plus a clock reading, and a process is its writes and how it ended (`Runner.Process`).
- Sysfs discovery: any error or any list of targets. The names of one list are taken to be distinct where a lemma requires `DistinctDiscovery`, because they are directory entries.
- JSON text and Go's field-name matching: decoding starts from a `Document`, and the step from bytes to a document is an arbitrary function, `Codec.parse`.
- Floating point: numbers are reals read by an arbitrary partial function, `Codec.float`; infinities, NaN and rounding do not occur. `Attempts`, `Runs` and `History` do not depend on it.
- VendorText.ModuleRoundTrip: requires, like CommaLaneRoundTrip, that no text with an opening bracket reads as a number.
- LaneReadings.CommaLaneRoundTrip: requires that no text with an opening bracket reads as a number, as strconv.ParseFloat guarantees, because the float reader is otherwise arbitrary.
- Go's zero time: LastSuccess is an option, so a clock that reads the zero instant is not modelled.
- Strings are sequences of characters; byte-level encoding and invalid UTF-8 are not modelled.
- Prometheus descriptors, names, help texts, value types and the registry: a family is a constructor of `Metrics.Family`, so that two families share a name is ruled out by construction.
- Logging, stderr and `logCause`: no effect on state. The look at the context in poller.go:243 only decides whether to log and is not one of the modelled looks.
- Flags, configuration, the HTTP server and main.go: one-branch wiring.
- Poller.Poller.SweepPCIe: sweepDevices takes its collector as a function value; the two phases are two methods here, both proved against the one generic specification in `Sweeps`.
- Poller.Poller.CollectWithEye: the call, clock, context and decode steps that the three collect methods repeat are shared by `AskNetwork` and `Conclude`.
- Poller.Poller.Run: the schedule is a finite list of turns, so a run is followed for any finite number of turns; the ticker is made before the first sweep rather than after it, without a tick fired in between.
- Collector.CollectModule: is written as two halves, in the order of the original.
- Timing.AttemptDuration: bounds the recorded duration by clock readings and does not model how the process is stopped.
- Concurrent readers are modelled by what they can load: the atomic pointer is read in one step, and everything reachable from it is proved never to change.
