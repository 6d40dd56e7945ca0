# WHDD: a model of the device copy, the read test and their displays

WHDD reads failing disks. Its copy procedure keeps a linked list of zones nobody has
tried to read yet, lets one of five strategies pick the next block, shrinks and splits
zones as reads succeed or fail, and writes one journal byte per sector so that a copy can
be stopped and resumed. This project models that engine, and beside it the read test's
accounting, the report ring between the working thread and the drawing thread, the
whole-space map that summarises the journal, and the zero-filling procedure.

The device is arbitrary: every read succeeds or fails as a free choice, and so does every
write to the destination. A run is the loop of `dc_procedure_perform_loop` over a finite
sequence of such choices; running out of them is the user's interrupt. Every theorem about
runs holds for all such sequences.

## How it is organised

| file | part of the program |
|---|---|
| `CopyTypes`, `ReadStrategies` | zones, journal bytes, the strategies as functions on the scheduler state |
| `ZoneList` | the same strategies as code over linked nodes, each method equal to its function |
| `ZoneCover`, `JournalParser` | zone lists against the journal; the parser and its exactness |
| `CopyRun`, `CopyHistory` | one block, the loop, and what whole runs do to every sector |
| `Choices` | what every strategy chooses, said in numbers and without the functions that compute it |
| `CopyBounds`, `CopyOrder` | split and length bounds, order of access, when a strategy stops jumping or gives up |
| `CopyResume` | what the forward strategies need of the journal to go on unchanged |
| `ResumeRoom` | two sessions onto a destination that keeps its size, or has grown |
| `ResumeReverse`, `ResumeStage` | the same for smart and skipfail, and for smart's stage 1; the exact condition for every strategy |
| `ResumeLimits` | concrete copies on which a stop shows |
| `CopyAlignment`, `CrashSafety` | 256-sector alignment over many sessions; crashes between single sector writes |
| `CopyProcedure` | the procedure over its files: open, chunked journal scan, one block, the loop |
| `VisThresholds`, `DefectList`, `ReadTest`, `ReadTestScan` | the read test |
| `ReportRing`, `SlidingWindow` | the ring as interleaved threads; the renderer's counters |
| `WholeSpace`, `WholeSpaceRuns` | the block map and its counters, and when they tell the truth over whole copies |
| `WriteZeros` | filling a device with zeros |

Methods on `class`es follow the C code and are proved equal to functions on values; the
lemmas are about those functions. `hide` statements only keep definitions out of proofs
that do not need them.

## Where code and documentation differ

- The help text (libdevcheck/copy.c:411) says smart reads forward from the middle of a
  split zone. The code reads backward from it: the left half comes first in the list and
  its end flag has just been cleared. The model follows the code (`CopyRun.SmartJumpLands`).
- After a failed POSIX read the read test seeks to the block that failed, not to the next
  one, so the file position lags behind the reported address from then on
  (`ReadTestScan.PositionIsReportedExactly`).
- A short write to the destination is reported as an error but journalled as read
  (`CrashSafety.ShortWriteExactly` says when that is harmless).
- The whole-space import takes the last block of the disk to have `capacity % block size`
  bytes, which is 0 for a disk of whole blocks (`WholeSpace.ImportCoversExactly`).
- The legend of the whole-space display shows read errors, but the map drawing knows only code 2:
  a failed single sector, imported as 3, is drawn as copied without errors
  (`WholeSpace.ImportShowsExactly`; `WholeSpaceRuns.SessionsSectorErrors` says on which disks).
- After a refused block the loop hands the previous report over once more, and the display counts
  it again (`WholeSpace.RunSummarised`, `WholeSpaceRuns.SkipfailMiscounted`).
- A negative first error address stands for "no error yet", while a scan may start at a negative
  address (`ReadTestScan.ErrorRange` says when the reported range is still right).
- Stopping loses the current zone, the reading direction, a begin flag next to a fresh split and
  smart's stage. `ResumeStage.ResumeExactly` says for every strategy when the resumed copy does
  what the stopped one would have done, for all later read errors: always in stage 0 of the
  forward strategies; for smart and skipfail unless the first read behind a split has just
  failed; in stage 1 of both smart strategies if no errors can bring the zones left to a jump.
- The size of the destination is measured at every opening (libdevcheck/copy.c:129-132), and a
  file that was empty counts as unlimited. A copy to a new file that is stopped and resumed
  therefore finds a limit where it stopped writing (`ResumeRoom.ResumeOnGrownExactly`,
  `ResumeRoom.GrownFileStops`), although the help text (libdevcheck/copy.c:403) offers a file as
  destination.

## What the model assumes

- Addresses and counters are unbounded integers. The C code uses 64-bit ones, capacities
  are below 2^54 sectors, and progress never exceeds the sectors or blocks of the disk.
- `skip_blocks` is at least 1 and `skip_blocks * 256` fits an `int`; the assertion at
  libdevcheck/copy_read_strategies.c:209 fails for 0. The capacity is a positive multiple
  of 512 and the copy starts at sector 0.
- Journal bytes are 0 to 3; other values fall through the switch at libdevcheck/copy.c:188.
- A read error is any nonzero block status; only whether a flag is zero matters to the
  strategies, so flags are booleans.
- The destination is modelled over the sectors of the source disk, with its size in whole
  sectors beside it. Writing beyond the size extends it; nobody else changes it between sessions.
  /dev/null, the default destination (libdevcheck/copy.c:29), always measures 0 and never becomes
  a limit; it is outside the theorems of `ResumeRoom`.
- Writes of one process reach the files in the order they are made; a crash stops the
  process between two sector writes.
- The ring's two threads interleave as if memory were sequentially consistent.

## Model

| member | source | states |
|---|---|---|
| ReadStrategies.FirstLive | libdevcheck/copy_read_strategies.c:53-71 | the search of both jumping strategies returns the first zone with something to do: all before it are stuck, it is not |
| ReadStrategies.LargestOf | libdevcheck/copy_read_strategies.c:31-40 | a longest zone, and the first of its length |
| ZoneList.ZoneNode.CutAt | libdevcheck/copy_read_strategies.c:105-115 | cutting a node leaves the old node the front with a clean end flag and links a new node holding the rest with a clean begin flag and the old end flag |
| ZoneList.Scheduler.AppendZone | libdevcheck/copy.c:40-51 | the node becomes the last of the list and the count follows |
| ZoneList.Scheduler.FindLargestZone | libdevcheck/copy_read_strategies.c:31-40 | the walk over the nodes finds the first longest zone |
| ZoneList.Scheduler.GiveTaskProceedingCurrentZone | libdevcheck/copy_read_strategies.c:42-51 | the block is at most 256 sectors at the border the reading direction points to |
| ZoneList.Scheduler.SmartSetFirstProcessableZoneCurrent | libdevcheck/copy_read_strategies.c:53-71 | makes the first zone with a good readable border current in the right direction, or changes nothing and says so |
| ZoneList.Scheduler.SplitEntry | libdevcheck/copy_read_strategies.c:104-115 | splitting a node splits the zone in the list and keeps links, distinctness and count |
| ZoneList.Scheduler.SmartWhenStuck | libdevcheck/copy_read_strategies.c:96-126 | with every border defective: jump into the largest zone if it is large enough and the list short enough, else stage 1; both asserts of the source hold |
| ZoneList.Scheduler.SmartGetTask | libdevcheck/copy_read_strategies.c:73-127 | never fails, and leaves list, current zone, direction and stage as the strategy function says; no assert fires |
| ZoneList.Scheduler.SkipfailTake | libdevcheck/copy_read_strategies.c:186-224 | a zone is taken exactly when it is not stuck, forward, backward or by a jump |
| ZoneList.Scheduler.SkipfailGetTask | libdevcheck/copy_read_strategies.c:173-228 | fails with nothing changed exactly when the strategy function finds nothing, otherwise produces its state and block |
| ZoneList.Scheduler.PlainGetTask | libdevcheck/copy_read_strategies.c:16-24 | the first 256 sectors of the first zone |
| ZoneList.Scheduler.GetTask | libdevcheck/copy.c:269-271 | the configured strategy's choice |
| ZoneList.Scheduler.UnlinkCurrent | libdevcheck/copy_read_strategies.c:154-168 | removes exactly the current node from the links |
| ZoneList.Scheduler.CommonUpdateZones | libdevcheck/copy_read_strategies.c:137-171 | cuts the block off the current zone at the right border, sets that border's flag, unlinks an emptied zone; no assert fires |
| ZoneList.Scheduler.UseResult | libdevcheck/copy_read_strategies.c:26-29 | the configured strategy's reaction; only plain aborts, on a failed block |
| ZoneList.Scheduler.SmartUpdateZones | libdevcheck/copy_read_strategies.c:129-135 | a failure drops the current zone, but not in stage 1 |
| ZoneList.Scheduler.SkipfailUpdateZones | libdevcheck/copy_read_strategies.c:230-237 | a failure drops the current zone |
| ZoneCover.TracksUnique | libdevcheck/copy.c:175-221 | a journal determines the borders of any non-touching list that covers exactly its unread bytes |
| ZoneCover.SplitCovers | libdevcheck/copy_read_strategies.c:105-115 | a split covers the same sectors |
| ZoneCover.ConsumeCovers | libdevcheck/copy_read_strategies.c:137-171 | taking the result in uncovers exactly the sectors of the block |
| ZoneCover.ConsumeGaps | libdevcheck/copy_read_strategies.c:137-171 | if zones touch only at the border being read, afterwards none touch |
| ZoneCover.ConsumeTracks | libdevcheck/copy.c:345-362 | a block's sectors were all unread, and after journal and list are updated the list is again exactly the unread runs |
| JournalParser.ParseExact | libdevcheck/copy.c:168-221 | for every journal: the zones are the maximal unread runs in order, a flag is set iff the byte beyond the border is an error, the progress total is the number of unread bytes |
| JournalParser.LiveIsParsed | libdevcheck/copy.c:168-221 | a list that tracks a journal has border by border the zones parsing it gives, and as many sectors |
| JournalParser.FreshIsBlankResume | libdevcheck/copy.c:136-140 | starting with the whole disk and resuming from a blank journal are the same |
| CopyRun.MidPointInside | libdevcheck/copy_read_strategies.c:111-113 | smart's aligned midpoint leaves at least 499745 sectors on both sides |
| CopyRun.SkipPointInside | libdevcheck/copy_read_strategies.c:207-209 | skipfail's left piece has between (skip_blocks-1)*256+1 and skip_blocks*256 sectors and the right one is not empty |
| CopyRun.SmartJumpLands | libdevcheck/copy_read_strategies.c:115-120 | after a split the second search always succeeds: smart reads the left half backward from the split, smart_noreverse the right half forward |
| CopyRun.SmartChooseNear | libdevcheck/copy_read_strategies.c:73-127 | smart always has a block while zones remain; the unread set and total are unchanged, and zones touch at most where the block is |
| CopyRun.SkipfailChooseNear | libdevcheck/copy_read_strategies.c:173-228 | the same for skipfail when it finds a block |
| Choices.SmartJumpsExactly | libdevcheck/copy_read_strategies.c:84-104 | smart cuts a zone iff it is before stage 1 without a current zone, no readable border is good, there are fewer than 1000 zones and one is longer than 1000000 sectors |
| Choices.SmartJumpPlace | libdevcheck/copy_read_strategies.c:98-120 | the cut is in the first of the longest zones, at a multiple of 256 that leaves the right half longer by 0 to 511 sectors; the next block is the 256 sectors before it, or behind it for smart_noreverse |
| Choices.SmartGoesOn | libdevcheck/copy_read_strategies.c:53-89 | otherwise smart keeps its zone, goes through from the front in stage 1, or takes the first zone with a good border, its begin first |
| Choices.SkipfailActs | libdevcheck/copy_read_strategies.c:184-224 | the first zone that is not hopeless is read from a good begin, else from a good end unless it is the last, else cut skip_blocks blocks on, at a multiple of 256 |
| Choices.PlainStopsExactly | libdevcheck/copy_read_strategies.c:26-29 | plain, and only plain, stops right after the first block that fails or is written short |
| CopyRun.ProcessOk | libdevcheck/copy.c:269-366 | one block of any strategy with any outcome: its sectors were unread, and the list equals the unread runs, progress equals the total and all invariants hold again |
| CopyRun.Step | libdevcheck/copy.c:258-371 | a completed call keeps every invariant and makes progress |
| CopyRun.Run | libdevcheck/procedure.c:110-130 | whichever way a run ends other than by a refused block, all invariants hold |
| CopyBounds.SmartHalvesWeigh | libdevcheck/copy_read_strategies.c:101-115 | two halves have together room for one split less than the whole |
| CopyBounds.SkipPiecesWeigh | libdevcheck/copy_read_strategies.c:198-211 | a skip puts its left piece out of reach of further splits |
| CopyBounds.SplitsBounded | libdevcheck/copy_read_strategies.c:101-115 | splits of any run: at most the sum over the starting zones of max(0, length/499745 - 1) for smart, and unread/((skip_blocks-1)*256+1) for skipfail |
| CopyBounds.BlocksBounded | libdevcheck/procedure.c:114-127 | blocks of any run: at most unread/256 + starting zones + splits |
| CopyBounds.RunTerminates | libdevcheck/procedure.c:114-127 | no pattern of errors keeps a run going beyond that bound |
| CopyBounds.BlocksOutright | libdevcheck/procedure.c:114-127 | the bound in numbers for each strategy: unread/256, the zones, and 0, the halvings, or unread/((skip_blocks-1)*256+1) jumps |
| CopyHistory.RunConsistent | libdevcheck/copy.c:269-366 | at the end of any run, even after a refused block, zones are sorted, disjoint and cover exactly the unread bytes, and their total is den - num |
| CopyHistory.RunLiveIsParsed | libdevcheck/copy.c:345-362 | after any number of completed blocks the live list is, border by border, the parsed journal |
| CopyHistory.EachSectorOnce | libdevcheck/copy.c:269-366 | a sector is read for once if the run took it out of the unread state, never otherwise, and earlier journal bytes stay |
| CopyHistory.RunEffect | libdevcheck/copy.c:332-361 | journal byte and destination content of every sector after any run, from the one block and outcome that covered it; all other sectors unchanged |
| CopyHistory.SmartReadsAll | libdevcheck/copy_read_strategies.c:73-135 | both smart strategies, for every error pattern: an uninterrupted run with room at the destination finishes with no zones and reads every unread sector exactly once |
| CopyHistory.RunInPieces | libdevcheck/procedure.c:110-130 | an interrupted run continued from its state is the uninterrupted run |
| CopyResume.StepSound | libdevcheck/copy_read_strategies.c:142-150 | any strategy: a set defect flag has an error byte just beyond its border, and a block that is not written short keeps it so |
| CopyResume.ShortWriteFlags | libdevcheck/copy.c:333-354 | after a short write the flags are still sound iff the block finished its zone |
| CopyResume.RunSound | libdevcheck/copy_read_strategies.c:142-150 | sound flags stay sound over runs without short writes |
| CopyResume.ReopenedRunSound | libdevcheck/copy.c:168-221 | in such runs from any journal every set flag has an error byte next to it |
| CopyResume.ChooseAims | libdevcheck/copy_read_strategies.c:80-120 | forward strategies read forward; unless plain or in stage 1, from the good begin of a zone before which all are stuck |
| CopyResume.StepResumable | libdevcheck/copy_read_strategies.c:137-171 | forward strategies, a block not written short: begin flags are set iff the byte before the zone is an error, and stay so |
| CopyResume.TwinsRun | libdevcheck/copy.c:168-221 | forward copies equal up to end flags and a forgotten current zone read the same blocks and leave the same behind, for all read errors (no short writes) |
| ResumeRoom.DestinationSize | libdevcheck/copy.c:276-334 | after any run the destination's size is the smallest not below the one before and beyond every sector written; the next opening measures exactly that |
| ResumeRoom.MeasuredRunExactly | libdevcheck/copy.c:272-273 | any strategy: measuring the destination again in mid-run goes unnoticed iff its size is unchanged or no later block ends beyond it |
| ResumeRoom.ResumeRefinesRun | libdevcheck/copy.c:168-221 | plain, skipfail_noreverse, and smart_noreverse stopped in stage 0: the two sessions read the uninterrupted run's blocks in its order and leave its journal and destination, iff the destination kept its size or the later blocks end within it |
| ResumeRoom.ResumeOnGrownExactly | libdevcheck/copy.c:129-132 | the same for all later read errors at once: iff the size is kept, or every zone that may still be read ends within what is written |
| ResumeRoom.SessionsAreOneRun | libdevcheck/copy.c:168-221 | any number of sessions of a forward strategy, on a destination that keeps its size and with no stop in stage 1: together they are one uninterrupted run |
| ResumeRoom.GrownNextBlock | libdevcheck/copy.c:269-273 | a new file: the resumed copy does the next block iff nothing is written yet or the block ends within what is written, and is refused otherwise |
| ResumeRoom.GrownFileStops | libdevcheck/copy.c:129-132 | a disk of two blocks copied to a new file with a stop in between: the second block is refused |
| ResumeReverse.ChooseRefound | libdevcheck/copy_read_strategies.c:80-120 | smart before stage 1 and skipfail: the current zone is the one a fresh search finds, read from the border it would choose; a split leaves its left piece current, with all zones before it stuck |
| ResumeReverse.StepExplained | libdevcheck/copy_read_strategies.c:137-171 | their flags are what the journal says after every block not written short, except one begin flag behind a split whose first read has just failed |
| ResumeReverse.UnblindRun | libdevcheck/copy.c:168-221 | but for that moment the resumed copy goes on as the running one, for all later outcomes, up to what a grown destination refuses |
| ResumeReverse.ReverseOnGrownExactly | libdevcheck/copy.c:129-132 | the same by the zones, for all later read errors at once: iff the size is kept, or every zone (skipfail: every one it is not stuck at) ends within what is written |
| ResumeReverse.BlindNext | libdevcheck/copy_read_strategies.c:198-222 | at that moment it picks another block, unless skipfail with skip_blocks 1 jumps onto the same one |
| ResumeReverse.ReverseResumeExactly | libdevcheck/copy.c:168-221 | smart in stage 0 and skipfail: resuming is invisible for all later read errors iff it is not that moment (destination at least as large as the disk) |
| ResumeStage.StageOneResume | libdevcheck/copy_read_strategies.c:84-125 | both smart strategies stopped in stage 1: the next block is the same iff the zones allow no jump |
| ResumeStage.StageLossExactly | libdevcheck/copy_read_strategies.c:84-125 | the whole resumed run is the same for all later read errors iff none can bring the zones to a jump: before one now, or once the good first zone fails or is read |
| ResumeStage.ReopenTraced | libdevcheck/copy.c:168-221 | whatever the journal, a copy just opened is a start the theorems below apply to |
| ResumeStage.ResumeExactly | libdevcheck/copy.c:168-221 | every strategy, any start, any stop, destination as large as the disk: two sessions amount to one run for all later read errors iff the journal tells all that was known |
| ResumeStage.ResumedNextBlock | libdevcheck/copy_read_strategies.c:80-125 | every strategy: exactly when the block after the stop is the same |
| ResumeStage.GivesUpAgain | libdevcheck/copy_read_strategies.c:184-227 | a skipfail copy that has come to a list it gives up at gives up again at once whenever it is resumed |
| ResumeLimits.SkipfailResumeDiffers | libdevcheck/copy_read_strategies.c:211-222 | a concrete disk on which a resumed skipfail reads another block |
| ResumeLimits.SmartResumeDiffers | libdevcheck/copy_read_strategies.c:115-120 | a concrete disk on which a resumed smart reads another block |
| ResumeLimits.StageLossDiffers | libdevcheck/copy_read_strategies.c:102-125 | a concrete journal from which smart_noreverse, stopped in stage 1, reads another block |
| CopyOrder.SkipfailNoReverseAscends | libdevcheck/copy_read_strategies.c:180-224 | skipfail_noreverse reads at strictly growing addresses over the whole run, from a fresh start or any journal |
| CopyOrder.SequentialSweeps | libdevcheck/copy_read_strategies.c:84-89 | plain, and smart from stage 1 on, read exactly the remaining zones front to back; stage 1 is never left |
| CopyOrder.SweepAscends | libdevcheck/copy_read_strategies.c:84-89 | that order is strictly ascending |
| CopyOrder.SmartSurrender | libdevcheck/copy_read_strategies.c:96-126 | smart enters stage 1 iff every zone is defective at its readable borders and the list has 1000 zones or all zones are at most 1000000 sectors |
| CopyOrder.SmartListBounded | libdevcheck/copy_read_strategies.c:102-104 | the list never grows beyond the larger of 1000 and its starting length |
| CopyOrder.SkipfailGivesUpExactly | libdevcheck/copy_read_strategies.c:184-227 | skipfail fails iff every zone is begin-defective, at most a skip long and, with reverse reading, end-defective or last |
| CopyOrder.SkipfailEndsStuck | libdevcheck/copy_read_strategies.c:184-227 | with room, a skipfail run never aborts and gives up only without a current zone before such a list |
| CopyOrder.SkipfailStopsExactly | libdevcheck/copy_read_strategies.c:173-227 | wherever such a run stands, it gives up at the next block iff there is no current zone and the list is such a one |
| CopyAlignment.TaskWhole | libdevcheck/copy_read_strategies.c:42-51 | every block is whole and 256-aligned, short only at the end of the disk |
| CopyAlignment.StepNeat | libdevcheck/copy_read_strategies.c:192-211 | zones, journal and direction stay so that the next block is aligned too |
| CopyAlignment.UniformParse | libdevcheck/copy.c:168-221 | a block-wise journal parses to aligned zones |
| CopyAlignment.SessionsStayAligned | libdevcheck/copy.c:168-221 | any number of sessions with any strategies, errors and stops: all blocks aligned, the journal constant on each block (smart: if the disk is whole blocks) |
| CopyAlignment.SmartAtUnalignedEnd | libdevcheck/copy_read_strategies.c:64-68 | after a failed first block smart's backward block is aligned iff the disk is whole blocks or at most two |
| CrashSafety.CrashSafe | libdevcheck/copy.c:332-361 | after any sequence of single sector writes, journal bytes and crashes with restarts, short destination writes apart: ReadOk sectors hold the source's content, never-read sectors their old content |
| CrashSafety.CrashSafeFromBlank | libdevcheck/copy.c:222-235 | the same for every sector of a copy begun with a new journal on any destination |
| CrashSafety.ActSane | libdevcheck/copy.c:274-362 | the same machine keeps zones and journal consistent, half-written blocks included |
| CrashSafety.BlockIsStep | libdevcheck/copy.c:332-366 | without a crash the single writes add up to one block of the run |
| CrashSafety.Restarts | libdevcheck/copy.c:168-221 | whatever it is in the middle of, the copy can crash and start again |
| CrashSafety.CrashInBlock | libdevcheck/copy.c:332-361 | a crash after any single write of a block: exactly so many sectors and journal bytes of it are there, and the next session has the zones of that journal and the measured size |
| CrashSafety.ShortWriteExactly | libdevcheck/copy.c:333-354 | a block keeps ReadOk bytes truthful iff its write was not short or the unwritten sectors already matched |
| CopyProcedure.JournalReader.Byte | libdevcheck/copy.c:181-187 | reading through the 1 MiB buffer gives the file's bytes, and fails iff a piece cannot be read |
| CopyProcedure.Procedure.TakeByte | libdevcheck/copy.c:188-214 | one byte of the scan |
| CopyProcedure.Procedure.ParseJournal | libdevcheck/copy.c:168-221 | the chunked scan equals parsing the whole file, for any length, or reports the read failure |
| CopyProcedure.Procedure.FillJournal | libdevcheck/copy.c:222-235 | a new journal is unread throughout |
| CopyProcedure.Procedure.Open | libdevcheck/copy.c:129-236 | fails iff an existing journal has the wrong size or cannot be read; otherwise starts fresh or resumed, with the destination measured and all invariants |
| CopyProcedure.Procedure.RecordBlock | libdevcheck/copy.c:345-361 | the journal byte of every sector of the block, on file only when a journal is kept |
| CopyProcedure.Procedure.WriteOut | libdevcheck/copy.c:313-342 | destination and report of a failed, copied or cut-short block |
| CopyProcedure.Procedure.Perform | libdevcheck/copy.c:258-371 | one call is one step of the model, refused calls leave the report as it was |
| CopyProcedure.Procedure.PerformLoop | libdevcheck/procedure.c:110-130 | the loop is the model's run; the callback is handed each block's report, and after a refused block the report before it once more |
| VisThresholds.GetVisThresholds | libdevcheck/utils.c:373-384 | the scaled limits |
| VisThresholds.LimitsOutright | libdevcheck/utils.c:378-383 | 3000, 10000, 50000, 150000 and 500000 microseconds at 256 sectors; in proportion, rounded down, at every other size |
| VisThresholds.LimitsAscend | libdevcheck/utils.c:373-384 | limits grow strictly for every block size |
| VisThresholds.TierExact | libdevcheck/read_test.c:290-295 | the search puts a time between the limits around its tier, and nowhere else |
| VisThresholds.TierIsARate | libdevcheck/utils.c:374-377 | scaling block size and time together keeps the tier |
| DefectList.DefectLog.DgIntervalUpdate | libdevcheck/read_test.c:82-116 | extend, flush or open an interval |
| DefectList.DefectListExact | libdevcheck/read_test.c:82-116 | the final list is an exact maximal run-length encoding: listed under a kind iff classified so, ascending, disjoint, touching neighbours differ, sector counts equal |
| DefectList.MaximalIsUnique | libdevcheck/read_test.c:77-81 | there is only one such encoding |
| ReadTest.Procedure.Open | libdevcheck/read_test.c:159-181 | refuses exactly the empty, overlong or sizeless scans, and sets up the others |
| ReadTest.Procedure.Classify | libdevcheck/read_test.c:273-283 | damaged wins, then severe, then slow |
| ReadTest.Procedure.Perform | libdevcheck/read_test.c:215-299 | one block's effect on every accumulator, the position and the report |
| ReadTestScan.ScanTiles | libdevcheck/read_test.c:220-268 | reports tile the range from its start; the end is reached exactly when the progress is complete |
| ReadTestScan.FullBlocks | libdevcheck/read_test.c:220-220 | only the block that ends the scan can be short |
| ReadTestScan.CountsAgree | libdevcheck/read_test.c:270-296 | blocks processed = errors + histogram sum, errors = sum over statuses |
| ReadTestScan.HistogramsExact | libdevcheck/read_test.c:270-296 | every time counter is the number of OK blocks between its limits, every error counter the number with its status; totals and total time are those of all blocks |
| ReadTestScan.ReportsOutright | libdevcheck/read_test.c:220-283 | the reports are the scanned blocks with what the device did, each filed by status and the two highest limits |
| ReadTestScan.ListMatchesHistogram | libdevcheck/read_test.c:393-415 | severe, slow and damaged sectors of the list are block size times the top tiers and the error count, up to one short last block |
| ReadTestScan.ErrorRange | libdevcheck/read_test.c:284-289 | the error range ends at the last end of the damaged intervals and begins at their first begin iff there is none, it is not negative, or one block is damaged; always for a scan from a valid address |
| ReadTestScan.PositionIsReportedExactly | libdevcheck/read_test.c:256-268 | the POSIX file position matches the reported address iff no read has failed yet; afterwards it lags by the size of the block that failed last |
| ReadTestScan.ScanLoop | libdevcheck/procedure.c:110-130 | the loop does exactly the blocks the range needs unless interrupted, and reports them |
| ReadTestScan.CountSectors | libdevcheck/read_test.c:393-415 | flush and per-kind sector counts of the defect report |
| ReadTestScan.TestAndCount | libdevcheck/read_test.c:393-415 | after any scan the list is the final one and each count is the sectors scanned and filed under its kind |
| ReportRing.ActKeeps | cui/sliding_window_renderer.c:63-110 | every step of either thread keeps the unreleased reports whole in their slots, while fills begin with at most 99998 outstanding |
| ReportRing.RingDelivers | cui/sliding_window_renderer.c:94-150 | every interleaving under that bound, also between hangup test and queue length: reports are used whole, once, in order, and all of them once the drawing thread has gone |
| ReportRing.BoundIsTight | cui/sliding_window_renderer.c:84-88 | while a report is in use, the next fill tears it iff 99999 are outstanding |
| ReportRing.NobodyWaits | cui/sliding_window_renderer.c:63-150 | neither thread waits for the other: the writer can always begin, finish or hang up, the drawing thread always has exactly one next action until it has gone |
| ReportRing.RoundDrains | cui/sliding_window_renderer.c:94-149 | one round uses exactly the reports published when its length was read; the thread goes iff the hangup was set at its test |
| ReportRing.SomeRunDelivers | cui/sliding_window_renderer.c:50-150 | for any reports some interleaving within the bound publishes them all and ends with the thread gone |
| SlidingWindow.Window.HandleReport | cui/sliding_window_renderer.c:364-368 | the report joins the end of the queue, and replaces whatever lies a whole ring before it |
| SlidingWindow.Window.RenderUpdateVis | cui/sliding_window_renderer.c:152-166 | one report's counter |
| SlidingWindow.Window.RenderQueued | cui/sliding_window_renderer.c:94-100 | counts everything queued, in order, and empties the queue |
| SlidingWindow.HistogramsAgree | cui/sliding_window_renderer.c:152-166 | the renderer's counters over a scan's reports are the read test's own accumulators, for every scan and block size |
| SlidingWindow.CountersExact | cui/sliding_window_renderer.c:152-166 | the renderer's counters after a scan, counted over what the device did |
| SlidingWindow.EndToEnd | cui/sliding_window_renderer.c:94-166 | the same through the ring, for every interleaving under the bound |
| SlidingWindow.EndToEndHappens | cui/sliding_window_renderer.c:94-166 | for every scan there is an interleaving to which that applies |
| WholeSpace.View.ImportJournal | cui/whole_space_renderer.c:308-333 | map and counters from the first byte of every block |
| WholeSpace.View.RenderCell | cui/whole_space_renderer.c:107-126 | a drawn cell shows an error iff one of its blocks does, and good iff all do |
| WholeSpace.View.UpdateBlocksInfo | cui/whole_space_renderer.c:169-190 | one report's cell and counters |
| WholeSpace.ImportExact | cui/whole_space_renderer.c:308-333 | sampling loses nothing on a block-wise journal, but a full last block is counted as empty |
| WholeSpace.ImportCoversExactly | cui/whole_space_renderer.c:318-320 | the imported counters add up to the disk iff its last block is short |
| WholeSpace.ImportShowsExactly | cui/whole_space_renderer.c:113-118 | the map imported from a block-wise journal is drawn true iff no byte of it says that a single sector failed |
| WholeSpace.GaveUpMiscounts | libdevcheck/procedure.c:114-121 | after a refused block the map is as it was and the latest block is counted twice, so the counters are wrong |
| WholeSpace.RunSummarised | cui/whole_space_renderer.c:169-190 | what the loop hands over (no short writes) keeps map and counters in step with the journal iff the run does not end with a refused block, or nothing was done and the first block already shows as read |
| WholeSpace.ImportThenRun | cui/whole_space_renderer.c:308-333 | from the import to the end of the resumed copy: every sector is drawn as journalled and the counters are the journal's (but for a full last block) iff the journal had no single-sector error and that condition holds |
| WholeSpaceRuns.SessionsSectorErrors | libdevcheck/copy.c:347-351 | however many sessions write a journal, a single-sector error is the last sector of a disk of 256 n + 1 sectors |
| WholeSpaceRuns.NoJournalThenRun | cui/whole_space_renderer.c:297-303 | without a journal the display is true at the end iff the copy does not end with a refused block |
| WholeSpaceRuns.ThroughTheRing | cui/whole_space_renderer.c:129-136 | the same as ImportThenRun with the reports going through the ring, for every interleaving under its bound |
| WholeSpaceRuns.ThroughTheRingHappens | cui/whole_space_renderer.c:129-136 | for every copy there is an interleaving to which that applies |
| WholeSpaceRuns.SkipfailMiscounted | libdevcheck/procedure.c:117-121 | a disk of 512 sectors on which skipfail gives up: 512 sectors with errors are counted where there are 256 |
| WholeSpaceRuns.LastSectorShownGood | cui/whole_space_renderer.c:113-118 | a disk of 257 sectors whose last one failed: shown as good after reopening |
| WriteZeros.Procedure.Perform | libdevcheck/posix_write_zeros.c:73-107 | one block, its report and the file position |
| WriteZeros.StaysInStep | libdevcheck/posix_write_zeros.c:79-97 | the write goes where the report says, and the position is again that of the next block, after whole, short and failed writes alike |
| WriteZeros.BlockZeroed | libdevcheck/posix_write_zeros.c:79-97 | a write of so many bytes zeroes the sectors of its block it covers whole and nothing else; a failed one nothing |
| WriteZeros.FillExact | libdevcheck/posix_write_zeros.c:73-107 | exactly as many blocks as needed, nothing outside the range touched, every whole write left zeros |
| WriteZeros.DeviceZeroed | libdevcheck/posix_write_zeros.c:73-107 | enough whole writes zero the device from the start to its end and leave the rest alone |

## Left out

- Opening and flushing devices, ioctls, readahead, clocks, signals, scheduling: replaced by free choices of outcome, time and interrupt.
- ATA and SCSI commands and sense decoding: a block is read or fails; an ioctl that itself fails, whose status the source overwrites (libdevcheck/copy.c:316-322), is not modelled.
- `lba_to_process` of the copy: the source never recomputes it on resume and never reads it; progress is `den - num`.
- Buffers and block content beyond equality of sectors.
- Memory running out: the defect list's `realloc` and the zones' `calloc` succeed.
- Speed, ETA and drawing; option parsing, report text, file names, menus, SMART, HPA and quick diagnosis.
- Per-status and per-time counters of the whole-space renderer, which it never displays, and the 1 MiB buffering of its import, which the copy's own scan already shows.
- `dc_get_vis_thresholds` for block sizes beyond 2^31-1 sectors, which its `int` parameter would truncate; the choices are 256, 1024 and 4096.
- A zero fill that starts beyond the end of the device, which the source does not check.
- ResumeRoom.ResumeRefinesRun: assumes the destination takes every block; after a short write the live flag and the journal disagree (`CopyResume.ShortWriteFlags`), so the resumed copy may choose differently.
- ResumeStage.ResumeExactly: assumes the same, and a destination as large as the disk, since what a growing one refuses is `ResumeRoom.MeasuredRunExactly`.
- ResumeReverse.ReverseResumeExactly: assumes the same two things.
- ResumeStage.StageLossExactly: assumes the same two things.
- ResumeStage.ResumedNextBlock: assumes whole writes before the stop, for the same reason.
- CopyResume.RunSound: assumes whole writes; `CopyResume.ShortWriteFlags` says what a short one breaks.
- CopyResume.TwinsRun: assumes whole writes.
- CrashSafety.CrashSafe: assumes whole writes; `CrashSafety.ShortWriteExactly` says what a short one breaks.
- WholeSpace.RunSummarised: assumes the same; a short write is displayed as an error and journalled as read.
- ReportRing.RingDelivers: the bound on outstanding reports is a condition on the run, because nothing in the source makes the working thread wait.
