# A verified model of CoreCycler's decisions

CoreCycler tunes per-core voltage offsets on AMD processors, and its worst enemy is its
own conclusions: blaming the wrong core, passing a core that failed, or writing an
offset to a core other than the one under test. This project models the parts of the
program that draw those conclusions and proves what they are worth.

| part | files |
|---|---|
| the attribution hunt: which cores to leave live next, after a crash that names none | `HuntModel`, `HuntState`, `HuntInvariant`, `HuntBound`, `HuntRuns`, `HuntTrail`, `HuntTiming`, `HuntOracle`, `HuntVerdict`, `HuntExact`, `HuntLone`, `HuntDescent`, `HuntPatience` |
| its persisted form and the check on it | `HuntValidate`, `HuntAdmitted`, `HuntJson`, `HuntDocument`, `Json`, `Decimals` |
| core addressing and offset writes over the SMU | `SmuCommands`, `SmuTopology`, `SmuDiscovery`, `SmuNumbering`, `SmuDriver` |
| supervised batches of stress lanes | `Supervision`, `Supervisor`, `Verdicts`, `HonestVerdicts`, `BlamelessLanes`, `LaneFaults`, `Thermal`, `Detector`, `WatchedBatch` |
| merging two history databases | `History`, `MergeSteps`, `Merge`, `HistoryDB` |
| CPU lists as text | `CpuList` |
| shared | `Wrappers`, `Bits`, `CoreSets` |

Where the program updates an object in place there is a class (`HuntState`,
`Supervisor`, `ThermalWatch`, `ErrorDetector`, `RyzenSMU`, `Hardware`, `HistoryDB`) whose
methods are proved equal to functions on the object's value or against a specification;
the theorems are about those functions. The outside world is input: an oracle on live
sets, a history of temperature readings, a growing kernel log, what each poll observes of
each lane, a slot array behind a mailbox that may reject, or do otherwise than it says.
Times and seconds are reals.

## Where the code and its documentation differ

- The hunt's documentation promises a culprit in log2(n) probes. Both halves of every
  split are probed, whatever the first answer, so a lone culprit costs exactly two probes
  per halving on its path, and one more for a lead that misses (`LoneCulpritCost`). The
  documented count, rounded up, is kept if and only if there is a single candidate, or the
  lead hits, or there are three candidates, no lead, and the culprit is the last of them
  (`DocumentedCountIff`); two loaded cores already take two probes for the one promised
  (`TwoCoresTakeTwoProbes`). Whatever the answers, `1 + (n - 1)(2m + 1)` is an upper bound
  (`EveryHuntEnds`); that it is reached is not claimed.
- A hunt over a single candidate convicts it without any probe, and a lead probe that
  reproduces ends the hunt with that core alone. `Verdict` and
  `IndependentCulpritsFoundExactly` say exactly what each costs.
- The check on persisted hunts is weaker than what runs keep: it admits states from which
  one more step leads to a state it refuses. Asking does so if and only if a split has
  nothing in flight or queued and only lone cores are pending (`AskKeepsValidIff`).
  Answering does so if and only if the mask is not the whole parent and the answer either
  makes a third guilty set while another is queued, or closes a split nothing of which
  failed when the retry counter is full (`AnswerKeepsValidIff`). Each way has a concrete
  state (`AskCanBreak`, `AnswerCanBreak`). No run under retry limits that a counter can
  hold reaches such a state (`ReachableStatesPersist`).
- The supervisor says that a lane without an earned verdict stays undecided when a batch
  stops early. A lane that exits with a failing result ends polling without raising the
  stop flag; other lanes still running are then stopped by the program and recorded as
  passed (`FailedExitInventsAPass`). The same follows from an attributed event or a
  containment fault when the batch does not stop on the first failure.
  `UnearnedPassNeedsSilentBreak` shows there is no other way, `CutShortLaneVerdict`
  that for a lane still running when polling ended, the stop flag and the elapsed time
  decide.
- Ids that run straight through all CCDs can look like a gap-preserving window and are
  then believed over a truthful fuse (`StraightNumberingMisleads`);
  with truthful registers the installed map is right if and only if every group believed
  on its numbering agrees with its own (`MapIsTrueIffFusesAgree`).
- The comment on merging speaks of children of a missing parent being skipped. Children
  of a missing session are; a result, event or telemetry row of a missing run aborts the
  merge, which then leaves nothing behind (`HistoryDB.MergeFrom`).

## Model

| member | source | states |
|---|---|---|
| HuntState.HuntState.NextLiveSet | src/corecycler/tuner/bisect.py:389-420 | asking, on the mutable hunt, changes exactly the fields that the function the theorems are about changes, and returns its mask; the loop over lone cores included |
| HuntState.HuntState.Record | src/corecycler/tuner/bisect.py:423-462 | folding an answer in, field by field, is the function the theorems are about, in every stage and on every branch |
| HuntState.HuntState.RecordWholeSet | src/corecycler/tuner/bisect.py:465-477 | the answer to a whole-set probe: convict all of it, or drop every pending set |
| HuntState.HuntState.Ask | src/corecycler/tuner/bisect.py:389-420 | from any reachable shape asking keeps the invariant, and gives a non-empty mask exactly when the hunt is not over |
| HuntState.HuntState.Answer | src/corecycler/tuner/bisect.py:423-462 | answering a mask in flight keeps the invariant |
| HuntInvariant.SplitFacts | src/corecycler/tuner/bisect.py:57-60 | the halves are disjoint, ordered, non-empty, smaller than the whole, and together are the whole |
| HuntInvariant.LeadFacts | src/corecycler/tuner/bisect.py:63-66 | a lead is one loaded live core, and only where there is more than one candidate |
| HuntInvariant.LeadIff | src/corecycler/tuner/bisect.py:63-66 | there is a lead exactly when one loaded core and only one is among several candidates, and it is that core |
| HuntInvariant.NextKeepsInv | src/corecycler/tuner/bisect.py:389-420 | the inductive invariant survives asking: in flight, queued and guilty sets are exactly the asked, unasked and guilty halves of the parent, or the whole parent |
| HuntInvariant.RecordKeepsInv | src/corecycler/tuner/bisect.py:423-477 | and survives every answer, truthful or not, under every retry limit |
| HuntInvariant.NextAsksUnlessOver | src/corecycler/tuner/bisect.py:389-420 | a mask is handed out exactly when the hunt is not over; it is not empty and is the one in flight |
| HuntBound.RecordSpendsOne | src/corecycler/tuner/bisect.py:423-477 | every answer, consistent or not, strictly lowers the potential of the search |
| HuntBound.NextKeepsPotential | src/corecycler/tuner/bisect.py:389-420 | asking never raises it |
| HuntValidate.InvIsValid | src/corecycler/tuner/bisect.py:273-371 | the inductive invariant and the caller's duties imply every clause of the persisted-state check |
| HuntAdmitted.AskKeepsValidIff | src/corecycler/tuner/bisect.py:273-420 | asking leads from an admitted state to an admitted state, exactly unless an unfinished split has nothing queued or in flight and only lone cores are pending |
| HuntAdmitted.AnswerKeepsValidIff | src/corecycler/tuner/bisect.py:273-477 | answering does so exactly unless a part of a split reproduces beside two guilty sets and a queued one, or its last part passes with nothing guilty and a full retry counter |
| HuntAdmitted.AskCanBreak | src/corecycler/tuner/bisect.py:339-371 | a concrete admitted state that asking turns into a refused one |
| HuntAdmitted.AnswerCanBreak | src/corecycler/tuner/bisect.py:339-371 | two concrete admitted states, one for each way an answer turns them into refused ones |
| HuntAdmitted.AdmittedIff | src/corecycler/tuner/bisect.py:273-371 | the check admits exactly the states whose lists are strict listings of candidates held apart, whose scalars are in bounds, and whose stage has the shape stated in terms of sets of cores |
| HuntValidate.LevelNeedsNoClamp | src/corecycler/tuner/bisect.py:416-417 | both clamps on the level are without effect for any group a hunt splits |
| HuntJson.RoundTrip | src/corecycler/tuner/bisect.py:180-270 | a state can be written exactly when it is valid, and reads back as itself |
| HuntJson.LoadedIsValid | src/corecycler/tuner/bisect.py:206-270 | whatever text is accepted gives a valid state that reads back from its own written form |
| HuntDocument.AcceptedIff | src/corecycler/tuner/bisect.py:180-270 | a document loads as a hunt exactly when the hunt is valid and the document spells it out field by field, at version 5: other names, versions, kinds of value or keys are rejected, and only a time may be stored as a whole number |
| HuntDocument.SavedIsSpelled | src/corecycler/tuner/bisect.py:180-204 | what is saved is spelled so |
| HuntJson.VectorRoundTrip | src/corecycler/tuner/bisect.py:128-144 | an offset vector survives its decimal string keys |
| HuntJson.ReadVector | src/corecycler/tuner/bisect.py:128-144 | the loop over the entries accepts exactly well-formed vectors, whatever the order of keys |
| Decimals.ParseIntOfDecimal | src/corecycler/tuner/bisect.py:128-144 | a core id is read back from its decimal text |
| Decimals.DecimalIsInjective | src/corecycler/tuner/bisect.py:128-144 | two core ids never share a key |
| Decimals.ParseIntIff | src/corecycler/engine/containment.py:217-231 | a text is read as an integer exactly when, between blanks, it is digits with single underscores between them after at most one sign; and then as the number they stand for |
| HuntRuns.BeginAccepts | src/corecycler/tuner/bisect.py:374-386 | a hunt opens exactly on non-empty, duplicate-free, in-range lists and a non-negative time |
| HuntRuns.BeginKeeps | src/corecycler/tuner/bisect.py:374-386 | an opened hunt keeps both lists, sorted, and the time, starts with the lead exactly where there is one, and has nothing else in it |
| HuntRuns.ReachableStatesPersist | src/corecycler/tuner/bisect.py:180-386 | whatever the answers, crashes and restarts, every state reached from an opened hunt is valid, can be written, and reads back unchanged |
| HuntRuns.EveryHuntEnds | src/corecycler/tuner/bisect.py:389-477 | no run over n candidates has more than 1 + (n - 1)(2m + 1) answers, even contradictory ones, under a retry limit that may move up to m |
| HuntRuns.HuntsNeverStall | src/corecycler/tuner/bisect.py:389-420 | along every run, a hunt that is not over has a mask to ask |
| HuntRuns.AskingTwiceIsAskingOnce | src/corecycler/tuner/bisect.py:390-398 | an unanswered mask is replayed, not skipped |
| HuntRuns.InterruptionsAreInvisible | src/corecycler/tuner/bisect.py:180-270 | with restarts, re-asking and the caller's bookkeeping anywhere in between, the masks answered and the search reached are those of the uninterrupted hunt with the same answers |
| HuntTrail.RunAdvances | src/corecycler/tuner/bisect.py:389-477 | along every run convictions only grow, the suspected set only shrinks, and a started hunt stays started |
| HuntTrail.MasksStayInside | src/corecycler/tuner/bisect.py:389-477 | no later probe carries a core already convicted or cleared |
| HuntTrail.StartedIffAsked | src/corecycler/tuner/bisect.py:168-178 | along every run a hunt has started exactly when a mask was asked for |
| HuntTrail.ExhaustedOnlyByCleanWholeSet | src/corecycler/tuner/bisect.py:465-477 | a hunt becomes exhausted by a clean whole-set probe with nothing convicted, and by nothing else |
| HuntTiming.ChildIsDeeper | src/corecycler/tuner/bisect.py:416-417 | a group within a half is split at a strictly deeper level, the larger half at the next one |
| HuntTiming.DeeperProbesRunLonger | src/corecycler/tuner/bisect.py:480-501 | going down the tree never shortens a probe |
| HuntTiming.ProbeIsLongEnough | src/corecycler/tuner/bisect.py:480-501 | after an early or untimed failure a probe is never shorter than the base; every probe lasts the scaled failure time to within a second |
| HuntTiming.LateFailuresIgnoreTheBase | src/corecycler/tuner/bisect.py:480-501 | past the onset the base makes no difference |
| HuntTiming.ProbeIsNoLonger | src/corecycler/tuner/bisect.py:480-501 | outside a split no probe is longer than the base, where it counts, and the scaled failure time ask for |
| HuntTiming.EachLevelMultiplies | src/corecycler/tuner/bisect.py:480-501 | one level deeper the time is multiplied, to within a second before and after |
| HuntTiming.LaunchesCoverBudget | src/corecycler/tuner/bisect.py:504-523 | launches fit the budget, cover it, and overshoot by less than one launch; after an early failure each outlasts the scaled failure time and the minimum, or has the whole budget, and otherwise there is one launch |
| HuntTiming.NoShorterLaunch | src/corecycler/tuner/bisect.py:504-523 | after an early failure no shorter launch would outlast the scaled failure time and the minimum |
| HuntVerdict.Verdict | src/corecycler/tuner/bisect.py:374-477 | for every monotone failure condition the hunt ends in a conviction exactly when the live set fails or is a single core; what it convicts fails, and is a union of failing sets neither of whose halves fails |
| HuntVerdict.EverySoloCulpritFound | src/corecycler/tuner/bisect.py:389-477 | every core that fails alone is convicted, exactly unless the lead probe ended the hunt with such a core left |
| HuntVerdict.IndependentCulpritsFoundExactly | src/corecycler/tuner/bisect.py:389-477 | where any one culprit suffices, the sorted list found holds culprits only, and all of them exactly unless the lead stopped at one of several |
| HuntVerdict.OneOfThreeIsFound | src/corecycler/tuner/bisect.py:374-477 | a concrete hunt: of three live cores, two loaded, the second one guilty is found and nothing else |
| HuntExact.FoundExactly | src/corecycler/tuner/bisect.py:374-477 | for any condition on live sets, monotone or not, what is convicted is the lead that hits, or else what the tree of halves convicts: the union over its failing halves, or the whole group where it fails and neither half does |
| HuntDescent.HuntIsDescent | src/corecycler/tuner/bisect.py:374-477 | under a fixed retry limit the worklist machine refines a recursive search of the split tree: for any answers, consistent or not, it asks the same masks in the same order, goes on exactly as long, and convicts the same cores |
| HuntDescent.RunsAreDescents | src/corecycler/tuner/bisect.py:180-477 | so does every run, with restarts, repeated questions and the caller's own steps in between |
| HuntPatience.WholeOnlyAfterRounds | src/corecycler/tuner/bisect.py:440-462 | along every run under a fixed limit m a group is asked whole only after max(m, 1) consecutive rounds in which both its halves were asked and nothing failed |
| HuntPatience.CleanHuntCount | src/corecycler/tuner/bisect.py:389-477 | a hunt over two cores or more without a lead, all of whose answers are clean, asks the halves in turn max(m, 1) times and then everything: 2 max(m, 1) + 1 masks, neither fewer nor more |
| HuntLone.LoneCulpritCost | src/corecycler/tuner/bisect.py:389-477 | a lone deterministic culprit is convicted in exactly two probes for each halving that still holds it, plus one for a lead that misses; a lead that hits is the only probe |
| HuntLone.HalvingsBounds | src/corecycler/tuner/bisect.py:57-60 | the halvings down to one core lie between the binary logarithm rounded down and rounded up |
| HuntLone.DocumentedCountIff | src/corecycler/tuner/bisect.py:10-13 | the logarithmic count is kept exactly for a single candidate, a lead that hits, or the last of three candidates without a lead |
| HuntLone.TwoCoresTakeTwoProbes | src/corecycler/tuner/bisect.py:389-477 | a concrete hunt over two loaded cores that takes two probes where the logarithm is one |
| HuntLone.LoneCulpritIsCheap | src/corecycler/tuner/bisect.py:389-477 | as a bound in the number of candidates alone: two probes per binary digit of n - 1, plus one for a lead |
| CoreSets.CheckDisjoint | src/corecycler/tuner/bisect.py:119-125 | the running union finds an overlap exactly when two of the sets share a core |
| SmuCommands.WordCarriesFields | src/corecycler/smu/commands.py:566-624 | CCD, slot and margin are read back from one command word, for every 16-bit margin, and the word fits 32 bits exactly for CCDs below 16 |
| SmuCommands.WordIsSum | src/corecycler/smu/commands.py:566-624 | the word is the CCD shifted by 28 bits, the slot by 20, and the margin modulo 65536, added up |
| SmuCommands.MarginRoundTrip | src/corecycler/smu/commands.py:627-641 | a margin survives two's complement exactly when it fits 16 bits |
| SmuCommands.EncodeDecode | src/corecycler/smu/commands.py:566-641 | decoding an encoded argument gives the margin back, exactly for 16-bit margins |
| SmuTopology.LiveFromMembers | src/corecycler/smu/driver.py:340-342 | a slot is live exactly when its fuse bit is clear |
| SmuDiscovery.LocatedIff | src/corecycler/smu/driver.py:237-254 | a CCD's slots are located exactly when its ids lie in one window of eight and are eight or leave a hole, or its fuse can be read and has as many clear bits as there are cores; the ids decide first |
| SmuDiscovery.FullWindowIsIdentity | src/corecycler/smu/driver.py:248-253 | eight ids of one window get slots 0 to 7 whatever the fuse address and registers are |
| SmuDiscovery.InstalledIsDiscovered | src/corecycler/smu/driver.py:158-235 | an installed map has every core in the CCD its L3 group or its id names, at its id modulo eight where the ids show the slots, and otherwise on the clear fuse bits in order of id |
| SmuTopology.InstalledMapIsAddressable | src/corecycler/smu/driver.py:222-235 | an installed map keeps the reported CCD, uses slots 0 to 7, orders cores within a CCD, and never sends two cores to one slot |
| SmuTopology.MapIsTrueIffFusesAgree | src/corecycler/smu/driver.py:222-254 | where every fuse register can be read and is truthful, the installed map is the firmware's assignment exactly when each group believed on its numbering has the live slots of its own register |
| SmuTopology.InstalledMapIsTrueIff | src/corecycler/smu/driver.py:222-254 | the same against the firmware's assignment itself, also where registers are unreadable: right exactly when no group is believed on a numbering that hides its slots |
| SmuNumbering.SchemesAreDiscovered | src/corecycler/smu/driver.py:158-254 | under gap-preserving numbering, and under numbering compacted within each CCD's window, every installed map is the firmware's own |
| SmuNumbering.StraightNumberingMisleads | src/corecycler/smu/driver.py:238-254 | a concrete numbering through two CCDs for which a wrong map is installed beside a truthful fuse |
| SmuDriver.GroupCores | src/corecycler/smu/driver.py:256-270 | the loop groups the cores by CCD in ascending order, and refuses exactly groups of more than eight |
| SmuDriver.MapGroups | src/corecycler/smu/driver.py:222-235 | a map results exactly when every CCD is located by its ids or its fuse, and then places each of its cores |
| SmuDriver.RyzenSMU.SetTopology | src/corecycler/smu/driver.py:158-235 | on a uniform generation there is afterwards either a map or the first obstacle found, and a map exactly when the layout is proven, no group too large, all cores online and every CCD located by its ids or its fuse; the map is the one these show, and the L3 groups are kept |
| SmuDriver.RyzenSMU.GetCoOffset | src/corecycler/smu/driver.py:483-503 | a read that goes through is the margin in the hardware cell at the mapped (CCD, slot) of the core, or at the one its L3 group and id name where there is no map; a core without an address is not read |
| SmuDriver.RyzenSMU.AddressIsPlace | src/corecycler/smu/driver.py:360-372 | what a core's reading means everywhere else: the cell of the slot discovery found for it |
| SmuDriver.WriteIsLocal | src/corecycler/smu/driver.py:483-569 | a write is read back exactly when it fits 16 bits, and changes no other address's reading |
| SmuDriver.RyzenSMU.SetCoOffset | src/corecycler/smu/driver.py:505-569 | success without dry run means the cell at the core's mapped (CCD, slot) holds the value, although a failed write may have happened and an accepted one may have stored another margin; no other cell changes, whatever the hardware answers; a refusal before the mailbox changes nothing |
| SmuDriver.RyzenSMU.GetAllCoOffsets | src/corecycler/smu/driver.py:629-640 | one entry for each known core, or for each number below the count given where none is known, in order; what is read is the core's own cell |
| SmuDriver.RyzenSMU.BackupCoOffsets | src/corecycler/smu/driver.py:397-403 | the backup holds one entry per known core, its reading or a gap; the dictionary returned holds exactly the cores that were read, each with its reading |
| SmuDriver.RyzenSMU.RestoreCoOffsets | src/corecycler/smu/driver.py:405-419 | every core not reported as failed reads its backed-up value, on hardware that may reject anything, even after writing it, and store anything at the address asked; cores outside the backup are untouched; it raises exactly on an out-of-range entry |
| SmuDriver.TuneThenRestore | src/corecycler/smu/driver.py:397-419 | backup, any sequence of writes, restore: on faithful hardware the report is success and every core reads what it did before |
| Thermal.ThermalWatch.Check | src/corecycler/engine/execution.py:126-151 | the answer equals a predicate on the whole history of readings: a hard reading, or one over the limit a full grace after the first since the last below it, with nothing cool enough since |
| Thermal.StreakIsFirstOver | src/corecycler/engine/execution.py:139-143 | the remembered start is the first reading over the limit since the last one below, missing readings notwithstanding |
| Thermal.TrippedStep | src/corecycler/engine/execution.py:126-151 | one more reading trips, clears, or changes nothing |
| Detector.ScanReportsEachKeyOnce | src/corecycler/engine/detector.py:136-156 | one pass reports each unseen key newer than the baseline once and remembers it |
| Detector.PollingIsOnePass | src/corecycler/engine/detector.py:127-156 | over a growing log, throttled and failing reads anywhere before a forced last one, the reports put together are those of one pass over the final log |
| Detector.ErrorDetector.Reset | src/corecycler/engine/detector.py:121-125 | a new window starts after the stamp of the log's last line, or at zero for an empty log, with nothing seen; an unreadable log or last line changes nothing |
| Detector.ErrorDetector.CheckMce | src/corecycler/engine/detector.py:127-156 | within five seconds of the last read nothing is read unless forced; a read leaves every fault newer than the baseline known, and reports each that was not known before once; an error changes nothing; and the loop is the poll the theorem is about |
| Supervisor.Supervisor.CpuToRun | src/corecycler/engine/execution.py:469-469 | each CPU is mapped to the last lane that lists it, among its siblings where they are known, and no other CPU is mapped |
| Supervisor.Supervisor.ApplyMceEvents | src/corecycler/engine/execution.py:459-493 | the loop over the events, reading one map made before any was applied, charges each as if the owner were looked up afresh |
| Supervisor.Supervisor.PollExits | src/corecycler/engine/execution.py:505-518 | lanes whose payload exited are closed in order, up to the first that failed |
| Supervisor.Supervisor.PollUntilDone | src/corecycler/engine/execution.py:409-436 | the polling loop, with its error-poll timer and every way out of it, is the recursion the theorems are about |
| Supervisor.Supervisor.Finish | src/corecycler/engine/execution.py:690-701 | stop all, sweep once more, settle what is open |
| Supervisor.Supervisor.Run | src/corecycler/engine/execution.py:326-366 | a whole batch; with disjoint CPUs no lane it leaves passed has an event on its CPUs |
| Verdicts.UnattributedEventStops | src/corecycler/engine/execution.py:471-492 | an event without a CPU fails the open lane with the lowest core id, no other, and stops the batch; with no open lane it changes nothing |
| Verdicts.AttributedEventFailsItsLane | src/corecycler/engine/execution.py:471-492 | an event that names a CPU fails the last lane answering for it with the machine check as its fault, and no other lane, unless that lane has failed |
| Verdicts.ForeignEventFailsNone | src/corecycler/engine/execution.py:471-492 | one that names the CPU of no lane changes nothing |
| Verdicts.OverheatingStops | src/corecycler/engine/execution.py:438-457 | an unsafe temperature fails the undecided lane with the lowest core id and stops the batch |
| Verdicts.EventsAreCharged | src/corecycler/engine/execution.py:459-493 | after a sweep every event read so far has failed the lane that answers for its CPU; an unreadable log has failed every lane and stopped the batch |
| Verdicts.PollingKeeps | src/corecycler/engine/execution.py:409-436 | through any number of polls no failure is undone, every event stays charged, passes stay earned, and the reason polling ended is true of the state |
| HonestVerdicts.EventsFailTheirLanes | src/corecycler/engine/execution.py:326-366 | when a run returns, every event it read, the forced last sweep included, has failed the lane that answers for its CPU |
| HonestVerdicts.PassedLaneIsClean | src/corecycler/engine/execution.py:690-701 | with disjoint CPUs, a passed lane had no event on any CPU it answers for |
| HonestVerdicts.FailureIsFinal | src/corecycler/engine/execution.py:409-436 | a failed lane stays failed through the rest of the polls and the closing |
| HonestVerdicts.PassedLaneReadsClean | src/corecycler/engine/execution.py:690-751 | in a finished batch every passed lane was launched and reads clean at the last look, also where an earlier poll had passed it |
| HonestVerdicts.UnearnedPassNeedsSilentBreak | src/corecycler/engine/execution.py:690-751 | a lane stopped before its time passes only beside a second lane and only if the stop flag was down when polling ended and at the closing: after a failing exit, or without stop-on-first-failure after an event or containment fault |
| HonestVerdicts.SingleLanePassIsEarned | src/corecycler/engine/execution.py:690-751 | a batch of one lane passes it only if the payload ended by itself or the full time elapsed |
| HonestVerdicts.RunningLaneVerdict | src/corecycler/engine/execution.py:690-751 | closing any batch: a quiet lane still running is left undecided where the stop flag is up before the duration is over, and otherwise passes with the time elapsed |
| HonestVerdicts.CutShortLaneVerdict | src/corecycler/engine/execution.py:690-751 | over a whole run: the verdict of a launched lane that polling left undecided and that closes quietly is none where the flag was up, from polling or at the closing, before the duration was over, and otherwise a pass |
| BlamelessLanes.BlamelessLaneNeverFails | src/corecycler/engine/execution.py:326-751 | a failed lane shows a cause: where no event, complaint, stall, containment fault, heat, refusal, bad payload, foreign kill or startup exit speaks against a lane, it ends undecided, if never launched or cut short, and otherwise passed |
| HonestVerdicts.FailedExitInventsAPass | src/corecycler/engine/execution.py:505-518 | a concrete batch, stopping on the first failure, in which a lane cut short after ten of six hundred seconds is recorded as passed |
| LaneFaults.ComplaintFailsItsLane | src/corecycler/engine/execution.py:495-503 | five seconds after the last look the first undecided lane the backend has an error of fails with it, and no other lane |
| LaneFaults.ComplaintsWaitTheirTurn | src/corecycler/engine/execution.py:409-427 | within those five seconds no backend error has any effect |
| LaneFaults.BreachFailsItsLane | src/corecycler/engine/execution.py:520-530 | the first running lane with a containment fault fails with it and ends polling, whether or not the batch stops on a failure |
| LaneFaults.StallFailsItsLane | src/corecycler/engine/execution.py:532-558 | the first running lane that stalls fails with it once five seconds have passed, and not before |
| LaneFaults.NothingAfterTheLastPoll | src/corecycler/engine/execution.py:409-436 | polling ends at the deadline, a stop, an unsafe temperature or an unreadable log: later observations have no effect |
| LaneFaults.PollingEndsWithTheLanes | src/corecycler/engine/execution.py:428-429 | and once no lane runs |
| LaneFaults.FirstFaultStays | src/corecycler/engine/execution.py:409-558 | while polling goes on, the first fault found is the one a lane keeps |
| LaneFaults.LastSweepNamesTheMachineCheck | src/corecycler/engine/execution.py:478-492 | in the last sweep a lane that an event is charged to ends with the machine check as its fault, also over a startup, stall, killed or timeout fault; any other fault stands |
| LaneFaults.ReportedFault | src/corecycler/engine/execution.py:690-707 | the fault reported is the one a lane failed of, unless stopping it failed or the last sweep blamed it |
| LaneFaults.EndingFaultFailsItsLane | src/corecycler/engine/execution.py:573-671 | a lane that cannot be stopped, or whose output cannot be read, ends failed |
| LaneFaults.LaunchStopsAtTheFirst | src/corecycler/engine/execution.py:343-361 | lanes are launched in order up to the first refusal, which fails that lane, or the first stop; nothing after it is touched |
| LaneFaults.NothingIsLeftRunning | src/corecycler/engine/execution.py:690-707 | however a batch ended, every lane it launched is stopped or failed |
| WatchedBatch.BatchObservesTheLog | src/corecycler/engine/execution.py:459-493 | a batch watched over a growing log has, when it returns, observed exactly the events of one pass over the final log, however often it looked |
| WatchedBatch.LoggedFaultFailsItsLane | src/corecycler/engine/execution.py:326-366 | with disjoint CPUs, every fault line of the final log newer than the baseline, naming a CPU a lane answers for, has failed that lane |
| MergeSteps.FindContext | src/corecycler/history/db.py:2098-2102 | finds a context of the key, or there is none |
| MergeSteps.MergeContexts | src/corecycler/history/db.py:2086-2103 | each source context becomes the one with its key, an old one untouched or a full copy; keys stay unique and the count is the number of new rows |
| MergeSteps.CopyParents | src/corecycler/history/db.py:2105-2126 | every run or session is copied once, in order, under fresh ids, its context renamed or dropped; the old rows are as they were |
| MergeSteps.CopyChildren | src/corecycler/history/db.py:2128-2146 | every child whose session was copied is inserted once with its references renamed; the copy fails exactly when a row that needs a run has lost it, never on uniqueness or a reference |
| MergeSteps.CopyJournal | src/corecycler/history/db.py:2148-2158 | journals of copied sessions come along under the new ids, collide with nothing, and nothing else changes |
| MergeSteps.JoinBanks | src/corecycler/history/db.py:2160-2175 | banked rows of known contexts are added to what was there, each once, and nothing else changes |
| Merge.MergedIsSound | src/corecycler/history/db.py:2066-2182 | references, unique contexts, unique states and id counters are sound afterwards, even when the source had dangling references |
| Merge.ParentsKeepTheirContext | src/corecycler/history/db.py:2105-2126 | a copied run or session is grouped under a context key exactly when the original was |
| Merge.ChildrenFollowTheirParents | src/corecycler/history/db.py:2128-2146 | from a source without dangling references every child arrives once, attached to the copies of its run and session |
| Merge.OldRowsStay | src/corecycler/history/db.py:2066-2182 | every old row of every table but the banks is there afterwards, unchanged |
| Merge.BanksArePutTogether | src/corecycler/history/db.py:2160-2175 | per context key, core, regime and offset, what is banked afterwards is what both databases had: seconds summed, the later stamp kept, a lone share as it was |
| Merge.BankedTimeAdds | src/corecycler/history/db.py:2160-2175 | in particular the seconds are the sum of both |
| HistoryDB.HistoryDB.MergeFrom | src/corecycler/history/db.py:2066-2182 | all or nothing: the merge fails exactly when a run-owned row has lost its run and then changes nothing; otherwise every table is the merged one, the counts are right, and the database is sound |
| CpuList.ParseCpuRanges | src/corecycler/engine/containment.py:217-231 | the loop returns the union of what the items mean, unreadable items adding nothing |
| CpuList.ListParsesToUnion | src/corecycler/engine/containment.py:217-231 | any list of numbers and ranges parses to exactly the CPUs it lists |
| CpuList.PrintParses | src/corecycler/engine/containment.py:75-76 | printing then parsing gives the set back, exactly for non-negative ids |
| CpuList.PrintIsAscending | src/corecycler/engine/containment.py:75-76 | the text is the distinct ids in ascending order, each in decimal, between commas |

## Left out

- The tuner engine, its planning and its use of the hunt: the caller's duties (arming,
  vector, workload, launch counter) are events with stated conditions.
- The check of a workload description is a parameter that accepts or refuses it.
- JSON text: a document is a tree of values, and an object's key is a known name or text.
- Floating-point rounding, not-a-number and infinity: times, budgets and temperatures are reals.
- `int()` is modelled for ASCII digits, sign, underscores and blanks, not for other Unicode digits or spaces.
- Processes, signals, scopes and files: what a poll or a stop observes of a lane is an
  input, among it containment faults and stalls, whose own bookkeeping is not part of this model.
- Failures to stop a duty-cycle driver, and a launch that fails after its process
  started: both only add a failed verdict.
- A teardown requested from another thread: the model has its stop flag, not a lane
  stopped by it in the middle of a poll.
- Supervisor.Supervisor.Run: the refusal when the supervisor is already running is absent,
  because a call returns before the next one begins.
- Lanes of a batch are values in a sequence that the supervisor replaces one by one; two
  references to one lane are not modelled.
- Status, thermal and stall callbacks, log messages, and the seconds recorded with a failure.
- Classification of log lines and of backend output: a line carries what the classifier
  makes of it, a payload what the backend makes of it.
- SmuDriver.RyzenSMU.SetCoOffset: without an installed map (generations that do not
  declare uniform CCDs) no other cell changes, but nothing is claimed about other cores,
  because two ids may then share a cell.
- SmuDriver.TuneThenRestore: needs every backed-up offset to be readable and in range;
  otherwise the restore raises or reports the core.
- Mailbox files and selection, setting all cores at once, power limits and tables of generations.
- SQL itself: tables are maps from ids to rows with the columns a merge looks at, a time
  stamp is its place in the order, and a transaction is a saved value put back on failure.
- Schema migration of the source file before a merge; the source is taken to satisfy the
  schema's own row constraints, not its references.
