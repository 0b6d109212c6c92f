# Captastic, verified

Captastic is a resident screenshot and recording daemon. This project models the parts of it where
something can go wrong between threads, between processes or between two lines of arithmetic, and
proves what they keep:

- **Recording** (`RecordingPipeline`, `ReviewProtocol`, `ReviewAnswers`, `RecordingHost`, `Raster`): the bounded
  drop-oldest queue between the pacing loop and the encoder; the protocol by which the review answer,
  a failed review request, the thread saving an edit and the process's exit reach for one draft; the
  buffers a frame passes through.
- **Capture worker** (`EngineHistory`, `CaptureWorker`): engine present or absent, recovery, waiting for a desktop,
  outage notices, the capture budget, over any number of rounds of its loop.
- **Log rotation** (`LogDisk`, `RotatingLog`): one writer whose operations may fail, or many that
  rotate each other's file.
- **Names and dates** (`Clock`, `TemplateRules`, `FilenameTemplate`, `NameOrder`, `OutputPath`).
- **Destinations** (`Destinations`, `FileOutput`, `WorkerLifetime`): the copy-on-write set, the file
  worker's accounting, the race between writing a worker off and its return.
- **Benchmark comparison** (`Samples`, `Compare`) and **shutdown** (`Shutdown`).

Code that changes things step by step is modelled as classes and methods with loops; what others may
do in between, and what may fail, is nondeterministic choice. A method under a lock or an atomic
operation is one step, so an invariant that every method of a class keeps holds in every interleaving.
Where several threads interleave inside one operation the model is a state machine over atomic steps
(`ReviewProtocol`, `WorkerLifetime`), and a run is any sequence of them.

Run `dafny verify dfyconfig.toml` in this directory.

## Where the code says something else than its comments

The model follows the code.

- A sanitized field can be 65 characters long, one over the stated limit: exactly when, `FieldOverruns`; for
  instance, `FieldOfOneTooMany`.
- The suffix that defuses a reserved device name is no help where a dot follows the device's name
  (exactly when, `DeviceNameSurvives`), and can take such a name past 120 characters (exactly when,
  `LongNames`). An accepted template and an application called `nul` show both: `NulNameIsADevice`.
- A `}` that no `{` opened is accepted before a later token: `StrayCloseBeforeAToken`.
- A recording whose frame cannot be converted returns without closing its queue, so its encoder waits for
  good: exactly when, `RecordInto`. The input is an HDR frame, refused only after the encoder was spawned
  (recording.rs:206-217 and 360-367), or one that the recorded area misses or cannot be cut from. A frame
  can be stamped past the end of the recording, exactly if it is past the limit, and only the last one:
  `Finish`.
- Exit is meant to lose no recording. The worker that owns the recordings goes through it twice, when it
  is stopped (selection.rs:818-822) and when it is dropped (selection.rs:886-890). A call that gives up on
  the recording does not look at the savers; the last call gives up only on a recording that came up
  after exit began (`LastCallGivesUpOnANewRecording`), and then a draft being encoded stays where it is
  (`LateRecordingLeavesSaversUnswept`). A saver that comes on the list after the first call took it is
  swept by the second (`SecondCallSweepsALateSaver`), one that comes on it after the second call never is
  (`LateSaverIsNeverSwept`). And exit does not wait for a saver that has taken its draft
  (`SweptSaverMayStillBeWriting`). What it does promise is `ExitLeavesNoSaverBehind`; exactly which drafts
  have their fate, after either call and however it ended, is `FateOfASaversDraft`.
- A review is promised to be answered exactly once, however it ends (desktop_ui.rs:157-160 of
  captastic-windows). Nothing in the host depends on less: should the desktop drop an answer uncalled after
  accepting its review, that draft and all that wait behind it are stranded for good (`StrandedForGood`,
  `DroppedAnswerStrandsItsDraft`), and in no other case is a draft without somebody to see to it
  (`DraftsAreMinded`).
- The outage notice is meant for the third consecutive failed rebuild. A capture's own retries are
  counted with them: exactly when the notice comes is `NoticeComesAt`, and that it does come at the
  second is `NoticeAtTheSecondFailedBuild`, and never before, `NoticeMeansTwoFailures`.
- The two-second ceiling on the recovery delay is never reached: `RecoveryDelayDoubles`.
- The ledger entry of a detach may come after the return it is for, and the live count reads as the
  largest machine word in between (`ReturnMayComeFirst`), and at no other time (`LiveCountIs`).
- A comparison whose samples include a zero has no spread on that side, and the verdict no longer
  separates the runs: `ZeroSampleHidesTheRange`.

## Model

| member | source | states |
|---|---|---|
| `Clock.CivilDate` | crates/captastic-app/src/clock.rs:29-47 | For every day number, negative ones included, the result is a valid date whose independently defined day number is the input |
| `Clock.CivilDateInvertsDayNumber` | crates/captastic-app/src/clock.rs:29-47 | The algorithm is the inverse of counting days from a date, both ways, and keeps order |
| `Clock.CivilDateOfTheNextDay` | crates/captastic-app/src/clock.rs:29-47 | Day d+1 is the calendar day after day d (month lengths of section 5.7, leap rule of Appendix C of RFC 3339) |
| `Clock.CivilDateOfEpoch` | crates/captastic-app/src/clock.rs:30 | Day zero is 1970-01-01 |
| `Clock.CivilDateDoesNotOverflow` | crates/captastic-app/src/clock.rs:31-45 | No intermediate value leaves 64-bit arithmetic for any day a 64-bit count of seconds can reach |
| `Clock.UtcParts` | crates/captastic-app/src/clock.rs:12-27 | Every field in range; the fields recompose to the input cut to milliseconds, until the seconds saturate |
| `Clock.UtcPartsOrders` | crates/captastic-app/src/clock.rs:12-27 | Field-by-field order is the order of the timestamps at millisecond grain, and equality likewise |
| `Clock.UtcPartsYear` | crates/captastic-app/src/clock.rs:12-27 | No timestamp is before 1970 |
| `TemplateRules.ValidateTemplate` | crates/captastic-config/src/filename_template.rs:23-73 | Accepts exactly the stated grammar over literals and known tokens; each refusal is the one its cause has |
| `TemplateRules.ScanBraces` | crates/captastic-config/src/filename_template.rs:36-71 | The loop gives the verdict of the scan of the whole text |
| `TemplateRules.GrammarIsTheScan` | crates/captastic-config/src/filename_template.rs:23-73 | A template is in the grammar exactly if the scan ends in a tail with some token found |
| `TemplateRules.ScanReads` | crates/captastic-config/src/filename_template.rs:36-58 | The pieces and the ending spell the text they were found in, and every piece before the stop is well formed |
| `TemplateRules.ScanFinds` | crates/captastic-config/src/filename_template.rs:36-58 | A well-formed spelling is exactly what the scan reads back |
| `TemplateRules.SpellingIsUnique` | crates/captastic-config/src/filename_template.rs:36-58 | A template is spelled in one way only |
| `TemplateRules.StrayCloseBeforeAToken` | crates/captastic-config/src/filename_template.rs:38-61 | An unopened `}` is accepted before a later token and refused after the last, for every literal and tail |
| `FilenameTemplate.SanitizeField` | crates/captastic-app/src/filename_template.rs:88-113 | The loop computes `Sanitized`: kept characters, one dash for each run between them, cut at the limit |
| `FilenameTemplate.FieldIsABeginning` | crates/captastic-app/src/filename_template.rs:88-113 | A field is a beginning of its value's uncut sanitization, at most one character over the limit, and whole if under it |
| `FilenameTemplate.FieldOverruns` | crates/captastic-app/src/filename_template.rs:98-110 | A field is longer than its limit exactly if some usable character with a separator before it comes when one place is left |
| `FilenameTemplate.FieldOfOneTooMany` | crates/captastic-app/src/filename_template.rs:98-110 | A value of usable characters up to the last place, a separator and one character more gives a field one over the limit |
| `FilenameTemplate.UncutFieldJoinsRuns` | crates/captastic-app/src/filename_template.rs:91-107 | Uncut, it is the runs of usable characters joined by single dashes |
| `FilenameTemplate.FieldIsClean` | crates/captastic-app/src/filename_template.rs:93-107 | No character of a field is a control character, white space, a dot, a brace or one of the nine that file names may not hold |
| `Text.ControlsAndSpaces` | crates/captastic-app/src/filename_template.rs:93-100 | Control characters and white space are those of the Unicode categories, by number |
| `FilenameTemplate.FinalizeStem` | crates/captastic-app/src/filename_template.rs:116-156 | The loops compute `FinalStem` |
| `FilenameTemplate.FinalStemIsSafe` | crates/captastic-app/src/filename_template.rs:116-156 | For any text: not empty, no two adjacent dashes, no dash or white space first, no dot, space or dash last, no unusable character the text lacked |
| `FilenameTemplate.TidyNameStays` | crates/captastic-app/src/filename_template.rs:116-156 | A name with nothing to tidy is left as it is, but for the suffix where it is reserved |
| `Text.LowercaseLetters` | crates/captastic-app/src/filename_template.rs:147-150 | Names are compared with capital letters made small and nothing else changed |
| `FilenameTemplate.DeviceNameSurvives` | crates/captastic-app/src/filename_template.rs:147-154 | The result's leading part is a device name exactly if the tidied text's is and the text has a dot |
| `FilenameTemplate.DottedDeviceName` | crates/captastic-app/src/filename_template.rs:147-154 | A tidy text of a device name, a dot and more gets the suffix, and its leading part is reserved all the same |
| `FilenameTemplate.LongNames` | crates/captastic-app/src/filename_template.rs:132-154 | The result is over 120 characters exactly if a reserved text of over 112 was suffixed, never by more than 8, and only with a dot |
| `FilenameTemplate.DeviceNameFromATemplate` | crates/captastic-app/src/filename_template.rs:51-156 | An accepted template with a dot after a field, and a device name for that field, give a name that is still the device, over the limit exactly if the text was over 112 |
| `FilenameTemplate.NulTemplateIsAccepted` | crates/captastic-config/src/filename_template.rs:23-73 | `{application}.` and any letters is an accepted template |
| `FilenameTemplate.NulNameIsADevice` | crates/captastic-app/src/filename_template.rs:51-156 | Under it an application called `nul` gives `nul.x-capture` for `x`, whose leading part is a reserved name of the program's own list, and 125 characters for 113 letters |
| `FilenameTemplate.Expand` | crates/captastic-app/src/filename_template.rs:51-85 | The name is the finalized expansion of the template |
| `FilenameTemplate.ExpandTokens` | crates/captastic-app/src/filename_template.rs:54-83 | The loop replaces every braced name by its sanitized value, and ends |
| `FilenameTemplate.ExpansionOfTemplate` | crates/captastic-app/src/filename_template.rs:54-84 | For an accepted template the expansion is the rendering of its parse; the unclosed-brace and unknown-token branches are not reached |
| `FilenameTemplate.MomentTokensMean` | crates/captastic-app/src/filename_template.rs:66-71 | The date and time tokens give the capture's moment, digit by digit |
| `FilenameTemplate.FieldTokensMean` | crates/captastic-app/src/filename_template.rs:72-77 | Every other token gives the field of its name, numbers in decimal, absent ones as nothing |
| `FilenameTemplate.ExpandedStemIsSafe` | crates/captastic-app/src/filename_template.rs:51-156 | Without separators in the template there are none in the name, whatever the fields hold |
| `FilenameTemplate.DotlessStemIsSafe` | crates/captastic-app/src/filename_template.rs:51-156 | Without a dot in the template the name is at most 120 characters and its leading part is no device name |
| `NameOrder.TimestampsSort` | crates/captastic-app/src/filename_template.rs:67-69 | The timestamp text of an earlier moment sorts before that of a later one |
| `NameOrder.FinalStemKeeps` | crates/captastic-app/src/filename_template.rs:116-156 | Tidying leaves a sturdy beginning in place |
| `NameOrder.NameBeginsWithTimestamp` | crates/captastic-app/src/filename_template.rs:51-156 | A name from a template that leads with the timestamp begins with it, whatever the fields |
| `NameOrder.NamesSortByTime` | crates/captastic-app/src/filename_template.rs:51-156 | Captures in different milliseconds up to the year 9999 sort by name as they were taken |
| `NameOrder.DefaultTemplateLeadsWithTimestamp` | crates/captastic-config/src/lib.rs:1064 | The default template is such a template |
| `OutputPath.PlainStemResolves` | crates/captastic-app/src/filename_template.rs:163-180 | A plain stem in a directory without a parent hop resolves to a child of that directory |
| `OutputPath.InsideIsNamedChild` | crates/captastic-app/src/filename_template.rs:163-174 | What passes the check is the directory with one more component |
| `OutputPath.SubdirectoryIsRefused` | crates/captastic-app/src/filename_template.rs:163-180 | A stem that leads into a directory or to the parent, by either separator, is refused |
| `OutputPath.DotStemResolves` | crates/captastic-app/src/filename_template.rs:163-180 | One that leads into the directory itself names a child of it |
| `OutputPath.RootedStemResolves` | crates/captastic-app/src/filename_template.rs:163-180 | A stem that starts at a root is accepted exactly if the directory is that root |
| `OutputPath.DriveStemResolves` | crates/captastic-app/src/filename_template.rs:163-180 | A stem that names a drive is accepted exactly if the directory is that drive's own |
| `OutputPath.FileNamesDiffer` | crates/captastic-app/src/file_output.rs:527-532 | The candidate names of different attempts are different |
| `OutputPath.NamesAreNumbered` | crates/captastic-app/src/file_output.rs:527-532 | The first name tried is the plain one, the second ends in 2, and so on |
| `OutputPath.PlainStemIsNeverRefused` | crates/captastic-app/src/file_output.rs:535-540 | No attempt of a plain stem is refused by the containment check |
| `OutputPath.ExpandedNameStaysInside` | crates/captastic-app/src/filename_template.rs:51-180 | From template to path: every attempt's file is a direct child of the output directory |
| `OutputPath.OutputDirectory.CreateNew` | crates/captastic-app/src/recording.rs:538-542 | Creates only where there is nothing, and the refusal is the existence check |
| `OutputPath.OutputDirectory.WriteWithoutClobbering` | crates/captastic-app/src/file_output.rs:521-553 | With others creating files in between, each outcome tells which names existed when tried: success at attempt k means the k earlier ones did and the k-th did not, exhaustion that all 100 did, failure that creating a free name failed; the file is new and no other changed |
| `OutputPath.OutputDirectory.WriteNew` | crates/captastic-app/src/recording.rs:1494-1514 | The same of each outcome for a recording, and a write that fails, which is then the one failure reported, leaves nothing of its own behind |
| `OutputPath.ExhaustionMeansAllTaken` | crates/captastic-app/src/file_output.rs:527-553 | Exhaustion is reported only of a directory that has come to hold all 100 names |
| `ReviewProtocol.EveryDraftIsInOnePlace` | crates/captastic-app/src/recording.rs:1161-1357 | In every reachable state each draft ever made is in exactly one place and has at most one fate |
| `ReviewProtocol.FatesAreFinal` | crates/captastic-app/src/recording.rs:1229-1393 | A fate once given stays, in order, for the rest of the run |
| `ReviewProtocol.ReviewsTakeTurns` | crates/captastic-app/src/recording.rs:1161-1284 | At most one review is open, `open` says exactly whether one is, drafts wait only behind one, and reviews come first in, first out |
| `ReviewProtocol.ExitLeavesNoSaverBehind` | crates/captastic-app/src/recording.rs:1444-1456 | Of a saver exit has dealt with, in either call, the draft has its fate or is being written by its own thread, and has its fate once that thread ends |
| `ReviewProtocol.FateOfASaversDraft` | crates/captastic-app/src/recording.rs:1244-1251 | At any time but while exit writes a draft itself, a draft given to any saver ever spawned has its fate exactly if it has left its cell and its thread is not writing it; it is in its cell only while exit has yet to deal with its saver or has not seen it |
| `ReviewProtocol.LateRecordingLeavesSaversUnswept` | crates/captastic-app/src/recording.rs:1437-1442 | A reachable end of exit's last call, both calls having given up on a recording, leaves a saver's draft without a fate |
| `ReviewProtocol.LastCallGivesUpOnANewRecording` | crates/captastic-app/src/recording.rs:1436-1442 | The last call gives up, and so passes the savers by, only if a recording came up after exit began |
| `ReviewProtocol.ExitIsEnteredTwice` | crates/captastic-app/src/selection.rs:818-890 | Exit goes through the recordings twice at most |
| `ReviewProtocol.SweptSaverMayStillBeWriting` | crates/captastic-app/src/recording.rs:1445-1455 | A reachable completed last call has a draft whose saver took it and has not written it |
| `ReviewProtocol.LateSaverIsNeverSwept` | crates/captastic-app/src/recording.rs:1445 | A reachable completed last call, the recording joined, that never saw a saver spawned before it and registered after |
| `ReviewProtocol.SecondCallSweepsALateSaver` | crates/captastic-app/src/selection.rs:818-890 | A saver registered between the calls is not seen by the first and swept by the second |
| `ReviewProtocol.StepKeepsLocations` | crates/captastic-app/src/recording.rs:1161-1457 | Every step moves a draft from one place to one place |
| `ReviewProtocol.StepKeepsOneReview` | crates/captastic-app/src/recording.rs:1161-1284 | Every step passes the one review on or closes it |
| `ReviewAnswers.FateIsAsAnswered` | crates/captastic-app/src/recording.rs:1236-1268 | In every run a draft is let go exactly if its review was answered so, saved edited exactly if an edit was answered and nothing came in between, and otherwise saved as recorded or reported unwritten |
| `ReviewAnswers.FatesAreAsWritten` | crates/captastic-app/src/recording.rs:1286-1393 | Drafts are said to be saved, or not to be, exactly as their writes went, in order; a failed edit is written once more, as recorded |
| `ReviewAnswers.ReviewedUnlessExiting` | crates/captastic-app/src/recording.rs:1095-1100 | Until exit begins no recording is dealt with before its turn to be reviewed, and none that ends afterwards is ever reviewed |
| `ReviewAnswers.NextReviewIsAsAnswered` | crates/captastic-app/src/recording.rs:1269-1284 | The draft that waited longest is reviewed next, or closed exactly if the review before it was closed or never opened |
| `ReviewAnswers.EveryThreadCanAct` | crates/captastic-app/src/recording.rs:1161-1393 | A thread that is not over can go on, whatever state the others are in |
| `ReviewAnswers.DraftsAreMinded` | crates/captastic-app/src/recording.rs:1181-1226 | Every draft without a fate is with a thread that can act, an answer to come, or exit, or waits behind one that is; but for one whose answer was dropped uncalled |
| `ReviewAnswers.StrandedForGood` | crates/captastic-app/src/recording.rs:1209-1213 | Such a draft stays where it is, whatever anybody does |
| `ReviewAnswers.DroppedAnswerStrandsItsDraft` | crates/captastic-app/src/recording.rs:1209-1213 | A reachable run in which one is |
| `RecordingHost.Host.QueueReview` | crates/captastic-app/src/recording.rs:1161-1179 | An open review makes the draft wait last; otherwise it is reviewed if the desktop accepts that, and kept as recorded if not |
| `RecordingHost.Host.OpenReview` | crates/captastic-app/src/recording.rs:1181-1226 | If the desktop accepts, the review opens and nothing else changes; if not, the draft and all behind it are kept as recorded in order |
| `RecordingHost.Host.ConcludeReview` | crates/captastic-app/src/recording.rs:1229-1284 | The answer decides the draft; a closing answer leaves no draft waiting and no review open, and after any other the next is reviewed if the desktop accepts; drafts kept are told of as their writes went; the mutual recursion ends on the waiting list |
| `RecordingHost.Host.Act` | crates/captastic-app/src/recording.rs:1236-1268 | An edit goes to its thread exactly if that comes up, a discard is let go, and every other draft is written as recorded and told of as that went |
| `RecordingPipeline.QueueCapacity` | crates/captastic-app/src/recording.rs:46-48 | The largest count within 128 MiB, between 2 and 90 |
| `RecordingPipeline.FrameQueue.WaitingBytes` | crates/captastic-app/src/recording.rs:38-48 | What waits in a queue, at any time, takes no more than 128 MiB or than two frames |
| `RecordingPipeline.FrameQueue.Push` | crates/captastic-app/src/recording.rs:590-602 | Adds at the end, dropping only the oldest and only when full; nothing after a failure |
| `RecordingPipeline.FrameQueue.Pop` | crates/captastic-app/src/recording.rs:624-639 | Hands out the oldest; says closed only when nothing waits |
| `RecordingPipeline.FrameQueue.Fail` | crates/captastic-app/src/recording.rs:611-615 | Clears what waits, and counts it apart from what was dropped |
| `RecordingPipeline.FrameQueue.QueuedFrames` | crates/captastic-app/src/recording.rs:439-449 | After the close everything waiting goes to the writer, in order, the newest frame accepted being the last, unless the writer refuses one, and then nothing more |
| `RecordingPipeline.FrameQueue.DeliveredInTime` | crates/captastic-app/src/recording.rs:590-639 | The encoder gets frames with nondecreasing times |
| `RecordingPipeline.WaitForNext` | crates/captastic-app/src/recording.rs:221-237 | Ends at the frame's time with no stop, limit or closed window there at the first, or with a reason to end that holds; no sleep is over 15 ms or goes past the frame's time |
| `RecordingPipeline.Reschedule` | crates/captastic-app/src/recording.rs:244-248 | The next frame is due one interval after this one was, or, where that is past, one interval from now |
| `RecordingPipeline.TurnsKeepTheBeat` | crates/captastic-app/src/recording.rs:219-248 | As long as no turn overruns a whole interval every turn is due on the beat, so a late wake-up delays none after it |
| `RecordingPipeline.Pace` | crates/captastic-app/src/recording.rs:215-270 | Turns are due on schedule, one capture each, no frame is early, only the last may be past the limit; the loop fails exactly if six captures in a row failed, ends unconverted exactly if the last capture did not convert, and what is in the queue is what the captures brought, in order |
| `RecordingPipeline.Finish` | crates/captastic-app/src/recording.rs:271-300 | A report exactly if the encoder wrote the file and its size was read, otherwise the error of what ended the encoder; a report's captured frames are those encoded plus those dropped, the newest was encoded, and a frame is stamped past the end exactly if past the limit |
| `RecordingPipeline.RecordInto` | crates/captastic-app/src/recording.rs:166-300 | Over every interleaving with the encoder each result comes exactly of what happened outside: not started of the first capture, its area or a refused thread; unconverted, with the queue left open, of a last capture that does not convert; source failed of six failed captures in a row; otherwise of what became of the encoder and its file; and a report is of every captured frame in order, with an end that happened |
| `RecordingPipeline.PacedFramesAreFew` | crates/captastic-app/src/recording.rs:242-248 | Frames stamped within a time are at most one an interval, plus one |
| `RecordingPipeline.OneMoreTry` | crates/captastic-app/src/recording.rs:250-267 | Counting failures since the last frame finds six in a row exactly when there are |
| `Raster.Trim` | crates/captastic-app/src/recording.rs:384-398 | Pixel (x, y) stays pixel (x, y); only the last row and column go |
| `Raster.SwapInPlace` | crates/captastic-app/src/recording.rs:375-379 | Exchanges the first and third channel of every pixel and nothing else |
| `Raster.SwapTwice` | crates/captastic-app/src/recording.rs:375-379 | The exchange undoes itself |
| `Raster.FramePixels` | crates/captastic-app/src/recording.rs:356-407 | At the area's size, or one less either way, a recording shows the captured pixels themselves; at any other size the resampled image of them |
| `Raster.FittedSize` | crates/captastic-app/src/recording.rs:325-329 | The fitted size is inside the canvas and not empty |
| `Raster.FittedKeepsProportions` | crates/captastic-app/src/recording.rs:325-329 | One side fills the canvas and the other keeps the proportions to half a pixel, or is one pixel |
| `Raster.Place` | crates/captastic-app/src/recording.rs:337-348 | Every pixel inside the centred rectangle is the fitted frame's, every other is opaque black, and all copies are in bounds |
| `Raster.FittedPixels` | crates/captastic-app/src/recording.rs:324-348 | Inside the centred rectangle the frame at the fitted size as `FramePixels` has it, outside opaque black, for all sizes |
| `EngineHistory.RecoveryDelayDoubles` | crates/captastic-app/src/daemon.rs:2418-2421 | 50 ms, doubling to 1600 ms at the sixth failure and never more |
| `EngineHistory.OnlyQuestionsWhileWaiting` | crates/captastic-app/src/daemon.rs:378-408 | After a build that failed for want of a desktop come only questions, each at least half a second after the last |
| `EngineHistory.QuestionsAreSpaced` | crates/captastic-app/src/daemon.rs:2277-2283 | The next question comes half a second after a locked session at the soonest, two seconds after displays that are off |
| `EngineHistory.NoBuildBeforeReady` | crates/captastic-app/src/daemon.rs:383-411 | No engine is built for a waiting worker until the question is answered Ready |
| `EngineHistory.TriesFollowABuild` | crates/captastic-app/src/daemon.rs:2450-2484 | Every try is made on an engine: the last build before it succeeded, and a lost engine is never tried again |
| `EngineHistory.CountIsAhead` | crates/captastic-app/src/daemon.rs:430-436 | The failures counted are the failed builds in a row and the rebuilds that succeeded, to no use, before a capture's last one failed |
| `EngineHistory.NoticeComesAt` | crates/captastic-app/src/daemon.rs:448-459 | A failed build raises the notice exactly if it failed for another reason than the desktop and is the third in a row, less by how far the count is ahead |
| `EngineHistory.SecondFailedBuild` | crates/captastic-app/src/daemon.rs:448-459 | With a capture's own rebuild failed and one of the loop's after it, the notice has come exactly if that capture had the engine rebuilt before |
| `EngineHistory.NoticeAtTheSecondFailedBuild` | crates/captastic-app/src/daemon.rs:448-459 | Histories with every back-off waited out in which the second or third of a capture's rebuilds fails, and the notice comes at the second failed build in a row |
| `EngineHistory.NoticeMeansTwoFailures` | crates/captastic-app/src/daemon.rs:430-459 | While the user has been told of an outage, at least two builds in a row have failed |
| `CaptureWorker.Worker.WaitForBackoff` | crates/captastic-app/src/daemon.rs:2386-2402 | Waits at least the delay, in sleeps of 10 ms at most that do not go past it, or gives up because a stop was asked for; at once if it was asked for before |
| `CaptureWorker.Worker.CaptureWithBackendRecovery` | crates/captastic-app/src/daemon.rs:2442-2485 | At most four tries and three rebuilds, counted exactly, each rebuild after its back-off; the engine is missing afterwards only if a stop was asked for or a rebuild failed, and then the error calls for recovery |
| `CaptureWorker.Worker.Attempt` | crates/captastic-app/src/daemon.rs:620-677 | With the caller's handling, the engine is there exactly if no recovery is under way |
| `CaptureWorker.Worker.RetryEngine` | crates/captastic-app/src/daemon.rs:378-461 | Adds to the engine's history one build, or, while waiting for a desktop, one question, and a build only if it was answered Ready; at most one notice, in turn, and the count of failures and whether an outage has been announced stay those of the history |
| `CaptureWorker.Worker.Rebuild` | crates/captastic-app/src/daemon.rs:410-440 | A build ends recovery or reschedules it with one more failure |
| `CaptureWorker.Worker.AskFirst` | crates/captastic-app/src/daemon.rs:386-408 | A question that is not answered Ready puts off the next by its interval and builds nothing |
| `CaptureWorker.Worker.OnTrigger` | crates/captastic-app/src/daemon.rs:527-778 | A press takes a number and a place in the budget unless that is spent, and is owned by the selection worker only if queued there |
| `CaptureWorker.Worker.OnRecordFrame` | crates/captastic-app/src/daemon.rs:489-526 | One try, no rebuild and no budget |
| `CaptureWorker.Worker.OnLiveSelection` | crates/captastic-app/src/daemon.rs:782-920 | The job goes back to its owner or ends here, and the count of those in flight with it |
| `CaptureWorker.Worker.NextCaptureId` | crates/captastic-app/src/daemon.rs:528-529 | Capture numbers strictly increase until the 64-bit counter saturates |
| `CaptureWorker.Worker.RetryIfDue` | crates/captastic-app/src/daemon.rs:378-461 | A retry that is due is made, and adds what `RetryEngine` adds; without one under way nothing happens |
| `CaptureWorker.Worker.Handle` | crates/captastic-app/src/daemon.rs:463-945 | One command: a press takes a number and a place in the budget unless a recording runs or that is spent, and exactly a capture that is made is handed on; a recording's frame is one try; a confirmed selection always goes back or ends; and all that was recorded only grows |
| `CaptureWorker.Worker.Round` | crates/captastic-app/src/daemon.rs:359-945 | Every round keeps the invariant and stops at its head for a stop exactly if one was asked for, and for the limit exactly if the budget is spent and no capture is in flight; any other round makes the retry that is due, then waits once and does what `Handle` says of the command that came |
| `CaptureWorker.Worker.Run` | crates/captastic-app/src/daemon.rs:325-945 | The same over any number of rounds from the start, each with its wait, so notices alternate and capture numbers ascend over the whole run |
| `LogDisk.MoveKeepsChain` | crates/captastic-app/src/logging.rs:212-229 | Moving a file up into an empty slot changes nothing for the reader of the log |
| `LogDisk.RemoveOldest` | crates/captastic-app/src/logging.rs:223-226 | Deleting the oldest archive takes the log's beginning and nothing else |
| `LogDisk.AppendExtendsChain` | crates/captastic-app/src/logging.rs:107-109 | A line written is the last line read |
| `LogDisk.SizeOfAPrefix` | crates/captastic-app/src/logging.rs:131-133 | A file that only grows is never shorter than it was |
| `RotatingLog.ShortfallIsOfAnotherFile` | crates/captastic-app/src/logging.rs:131-133 | A look that shows less than a writer's count is not of the file it holds, whatever others did in between |
| `RotatingLog.RotatingWriter.Vacate` | crates/captastic-app/src/logging.rs:223-226 | For a lone writer only the oldest archive is ever there to be deleted, and nothing but it goes from the log |
| `RotatingLog.RotatingWriter.RotateArchives` | crates/captastic-app/src/logging.rs:212-229 | With any step failing, the archives and the log are the end of all that was written, and what goes is nothing, or the oldest archive and nothing else; without failures every file has moved up by one name and no other |
| `RotatingLog.RotatingWriter.Rotate` | crates/captastic-app/src/logging.rs:188-210 | The same; without failures the log is empty afterwards; the shortcut is taken on seeing a shorter file, which is never the one being written, and then nothing is deleted |
| `RotatingLog.RotatingWriter.ReopenIfRotatedByAnotherProcess` | crates/captastic-app/src/logging.rs:126-155 | One look at the path: on no file there, or one shorter than this writer's count, and only then, the file held is given up and the one at the path opened, and it was another file |
| `RotatingLog.RotatingWriter.WriteLine` | crates/captastic-app/src/logging.rs:90-111 | A line loses at most the oldest archive; every 256th line looks and opens the log anew on a shortfall; without failures a line goes to the file there is exactly if that is empty or stays within the limit, and otherwise to a new one with every file moved up by one name |
| `RotatingLog.RotatingWriter.Open` | crates/captastic-app/src/logging.rs:62-89 | A log found at its limit or over is rotated before anything is written, and one under it is not |
| `RotatingLog.RotatingWriter.WriteLines` | crates/captastic-app/src/logging.rs:90-111 | Over any 256 lines or more, if every look shows no file or one shorter than the count at first, the log has been opened anew |
| `RotatingLog.AppendFits` | crates/captastic-app/src/logging.rs:99-109 | A file is within the limit or holds one oversized line |
| `Destinations.ChannelSink.Submit` | crates/captastic-app/src/output.rs:104-109 | Takes a job exactly if connected with room, and otherwise says which of the two it was; every job ever taken is with the worker or waits, in order |
| `Destinations.OutputDestinations.Insert` | crates/captastic-app/src/output.rs:153-158 | The set without that name, and the sink at its end; names stay unique |
| `Destinations.OutputDestinations.Remove` | crates/captastic-app/src/output.rs:161-169 | The set without that name, and whether it had it; names stay unique |
| `Destinations.WithoutKeepsUnique` | crates/captastic-app/src/output.rs:153-169 | Retaining other names keeps names unique |
| `Destinations.WithoutDropsOne` | crates/captastic-app/src/output.rs:155-165 | Removing a name takes that one sink and leaves the others in their order |
| `Destinations.OfferAll` | crates/captastic-app/src/daemon.rs:3143-3177 | Each sink is offered the job once and answers by the room it has then, though workers take jobs and the set changes meanwhile |
| `Destinations.Dispatch` | crates/captastic-app/src/daemon.rs:3106-3191 | Queued exactly if one took it, else the last refusal; with a trace that does not check out the round ends at the first refusal and fails; nothing is offered without a frame and its offset |
| `FileOutput.PushBounded` | crates/captastic-app/src/output_metrics.rs:96-101 | Keeps the last 1024 |
| `FileOutput.RecentOfOneMore` | crates/captastic-app/src/output_metrics.rs:96-101 | Bounding after each sample is bounding once at the end |
| `FileOutput.OutputMetrics.RecordWrite` | crates/captastic-app/src/output_metrics.rs:48-54 | Counts and sums are those of the whole run as far as 64 bits hold them; samples are those of its last 1024 writes |
| `FileOutput.OutputMetrics.IsEmpty` | crates/captastic-app/src/output_metrics.rs:73-75 | Empty exactly if nothing was written, failed or abandoned |
| `FileOutput.Work` | crates/captastic-app/src/file_output.rs:145-223 | Every job accepted by the end of the final drain was written or failed, in order, or, only where a stop was asked for, is counted as abandoned; the metrics are those of what each write came to |
| `FileOutput.Drain` | crates/captastic-app/src/file_output.rs:211-221 | Everything still queued is counted as abandoned and nothing else |
| `WorkerLifetime.Lifetime.Detach` | crates/captastic-app/src/file_output.rs:50-60 | Claims exactly a running worker |
| `WorkerLifetime.Lifetime.Finish` | crates/captastic-app/src/file_output.rs:64-66 | Says exactly whether the worker had been written off |
| `WorkerLifetime.OneWorkerAtATime` | crates/captastic-app/src/daemon.rs:1891-1958 | Over any switching off and on, no two file workers ever write at once |
| `WorkerLifetime.OneSideClaims` | crates/captastic-app/src/file_output.rs:42-70 | One side wins the cell; a detach is entered exactly if the worker returns it |
| `WorkerLifetime.LedgerSettles` | crates/captastic-core/src/detach.rs:117-137 | With all workers over nothing is live, and the total is the number of detaches |
| `WorkerLifetime.ReturnMayComeFirst` | crates/captastic-core/src/detach.rs:117-137 | A reachable state has the return in the ledger before its detach, and the live count wrapped |
| `WorkerLifetime.LiveCountIs` | crates/captastic-core/src/detach.rs:117-137 | The live count is wrapped exactly while a return is ahead of its detach, and otherwise the number of detaches entered and not returned |
| `WorkerLifetime.StepKeepsTotal` | crates/captastic-core/src/detach.rs:117-123 | Every step keeps the total equal to the detaches entered |
| `Samples.SortedIsUnique` | crates/captastic-app/src/compare.rs:279-286 | There is one sorted order of a set of samples |
| `Samples.OrderDoesNotMatter` | crates/captastic-app/src/compare.rs:279-303 | Smallest, largest and median do not depend on the samples' order |
| `Samples.Middle` | crates/captastic-app/src/compare.rs:279-286 | The median is one of the samples, between the smallest and the largest |
| `Samples.MiddleSplits` | crates/captastic-app/src/compare.rs:279-286 | At most half the samples are below the median and fewer than half above |
| `Compare.CheckSet` | crates/captastic-app/src/compare.rs:88-104 | Refuses a set exactly if two of its runs do not match, naming the first that does not |
| `Compare.ComparableMeansPrintedAlike` | crates/captastic-app/src/benchmark.rs:174-226 | No differences means the facts print alike, so comparability is an equivalence |
| `Compare.ComparableRunsMayDiffer` | crates/captastic-app/src/benchmark.rs:209-223 | It is not equality: an absent fact and one called unknown are not told apart |
| `Compare.DifferencesAreNamed` | crates/captastic-app/src/benchmark.rs:174-226 | Every fact that differs is named, with both sides |
| `Compare.NamedMeansDiffers` | crates/captastic-app/src/benchmark.rs:174-226 | Nothing is named that does not differ |
| `Compare.WhatIsCompared` | crates/captastic-app/src/benchmark.rs:174-226 | Two runs are comparable exactly if all these facts are alike: twelve of them, three of which are alike also where each is missing or called unknown |
| `Compare.FactsAreNamed` | crates/captastic-app/src/benchmark.rs:181-225 | Each fact is printed under its own name, a flag as true or false |
| `Compare.JoinTellsApart` | crates/captastic-app/src/benchmark.rs:200-209 | Lists of displays or adapters without commas print alike only if they are alike |
| `Compare.SpreadMeans` | crates/captastic-app/src/benchmark.rs:362-373 | The spread times the smallest sample is a hundred times the range; it is zero exactly if the samples agree or include a zero |
| `Compare.DeltaMeans` | crates/captastic-app/src/compare.rs:306-313 | The delta times the baseline is a hundred times the change, and positive exactly if slower |
| `Compare.VerdictMeans` | crates/captastic-app/src/compare.rs:319-342 | Without percentages: unmeasurable exactly if a median is zero, slower or faster exactly if the medians differ that way by more than the noise and by more, in proportion, than either side's range |
| `Compare.NoiseIsHeeded` | crates/captastic-app/src/compare.rs:332-334 | Five percent slower is a change at four percent of noise and none at ten |
| `Compare.SlowerSeparates` | crates/captastic-app/src/compare.rs:319-342 | Slower puts the candidate's median above every baseline sample if that side has no zero, and the baseline's median below every candidate sample exactly if that side has none |
| `Compare.FasterSeparates` | crates/captastic-app/src/compare.rs:319-342 | Faster does the reverse |
| `Compare.VerdictSeparatesRuns` | crates/captastic-app/src/compare.rs:319-342 | The same said run by run |
| `Compare.ZeroSampleHidesTheRange` | crates/captastic-app/src/compare.rs:319-342 | With a zero sample a slower verdict need not separate the runs |
| `Compare.NoiseOnlyQuiets` | crates/captastic-app/src/compare.rs:319-342 | Allowing more noise can only turn a slower or faster verdict into one within noise |
| `Compare.NoChangeAgainstItself` | crates/captastic-app/src/compare.rs:319-342 | A set against figures equal to its own is within noise, or unmeasurable if its median is zero |
| `Compare.SetAgainstItself` | crates/captastic-app/src/compare.rs:194-271 | A set compared with its own runs in any order is comparable and has no stage slower or faster |
| `Compare.CursorOutcomes` | crates/captastic-app/src/compare.rs:46-55 | Every outcome of any run, with its total |
| `Compare.Compare` | crates/captastic-app/src/compare.rs:194-271 | Answers with the table, or refuses bad noise, or refuses with every difference |
| `Compare.ComparisonIgnoresOrder` | crates/captastic-app/src/compare.rs:194-271 | Reordering the runs of either set changes no figure, verdict, total or refusal with its differences; only the record of facts may be another run's, printed alike |
| `Compare.ValuesOfReordered` | crates/captastic-app/src/compare.rs:288-299 | The figures gathered for a stage are the same in any order of runs |
| `Compare.SamplesAre` | crates/captastic-app/src/compare.rs:288-299 | The figures gathered for a stage are those of the field of that name, at the percentile asked for |
| `Compare.LineReports` | crates/captastic-app/src/compare.rs:213-262 | A stage measured on both sides has one line, with the medians of both sides' samples, their spreads, the deltas and the verdict on them; any other has none |
| `Shutdown.ReservedDeadline` | crates/captastic-app/src/worker_registry.rs:32-34 | Leaves the reserve of the budget if there is that much, otherwise is now |
| `Shutdown.GuaranteedDeadline` | crates/captastic-app/src/worker_registry.rs:40-42 | Never sooner than the shared deadline nor than the minimum from now |
| `Shutdown.WaitUntilFinished` | crates/captastic-app/src/worker_registry.rs:264-272 | Sleeps only before its deadline, one poll at a time, and gives up on a thread only at the deadline |
| `Shutdown.WorkerRegistry.BeginShutdown` | crates/captastic-app/src/worker_registry.rs:164-171 | The first request sets the deadline and asks everyone; later ones change nothing |
| `Shutdown.WorkerRegistry.SendCaptureShutdown` | crates/captastic-app/src/worker_registry.rs:201-213 | At most one command ever; retries exactly while the queue is full |
| `Shutdown.WorkerRegistry.DaemonLoop` | crates/captastic-app/src/daemon.rs:1332-1600 | Over any rounds and any requests to stop: each is passed on, the deadline is three seconds after the first, no wait begins after it, the loop ends for that or for the capture worker's report and for nothing else, and one stop command at most was sent, at once if the queue has room |
| `Shutdown.WorkerRegistry.Teardown` | crates/captastic-app/src/worker_registry.rs:221-256 | Every worker there is stopped once, in order, against the one deadline, which is that of the first request, or three seconds from now if there was none; if the hotkey listener's stop returned with 500 ms to spare, the stop after the capture worker's begins with that less one poll, however the capture worker behaves, and the capture worker is given up only when that is due |

## Left out

- Win32: screen capture, overlay, clipboard, tray and video writers are answers of any kind, or consumers that may fail.
- Real time: clocks only go forward; a sleep may be long by a stated slack; memory ordering is that of one step at a time.
- Floating point: percentages are exact reals, and the fitted size is rounded from exact fractions; a noise that is not finite is not modelled.
- Text output: log formats, JSON events, notices other than those of outage and recovery, colours, table printing.
- Panics: no thread ends by one but the encoder's.
- `LogDisk.Names`: archives with an index above `retained_files`, left by an earlier configuration, are neither read nor renamed here.
- `RotatingLog`: `exists` and `flush` are taken to be right; the rotation lock is left out, since others may interfere at every step anyway; sizes do not saturate.
- `RotatingLog.RotatingWriter.WriteLine`: for several processes only the soundness of the staleness check is proved, not which lines survive, because two rotations without the lock can lose an archive.
- `CaptureWorker.Worker`: the counts of attempts and of captures in flight are unbounded; 2^64 captures are not reached.
- `CaptureWorker.Honest`: the selection worker is assumed to report each capture it holds once; its own loss of a report when the channel is full is in selection.rs, which is not part of this model.
- `SourceWaitTally` and `repeat_region_rect` of daemon.rs: counters for a log line and one clamped rectangle.
- `RecordingPipeline.World.EncoderRuns`: the encoder runs between, not inside, the pacing loop's steps on the queue, each of which holds its lock.
- `Raster.Resampler`: resampling is any function that gives images of the size asked for; cropping is assumed to give an image of the area.
- `Raster.FramePixels`: a frame that is refused before its crop, an HDR one or one off the area, is a capture that does not convert in `RecordingPipeline`.
- `OutputPath.OutputDirectory.WriteNew`: removing its own reservation after a failed write is taken to succeed.
- `FileOutput.Work`: jobs a producer manages to queue after the final drain and before the channel closes are in no count, in the code as well.
- `Compare.CheckSet`: reading and parsing the files, and formatting displays and adapters into the facts compared.
- `stage_agreements`, `run_repeated` and the counters of `run_with_backend` in benchmark.rs: sums and lists read off their loops.
- `Destinations.Dispatch`: the fork of the trace each destination gets; whether traces check out is a parameter.
- `ReviewProtocol`: file names and contents of what is saved; a write either succeeds or is reported.
- `Shutdown.WorkerRegistry.Teardown`: what each worker's own stop does, which takes any time here; `teardown` sends a stop command of its own besides the counted one.
- Command line, start-up registration, environment fingerprint, history, budgets and the clipboard's retries.
