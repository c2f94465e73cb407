# Marine fish detection desktop app: verified model of the frame pipeline

The application (`app.py`) runs a YOLO detector over a video file, a live
camera or a list of images and shows the annotated frames in a Qt window.
This project models in Dafny the parts of `app.py` that are logic rather
than layout or library calls, and proves what they promise.

- **`VideoThread`** (module `VideoPipeline`). The class `VideoThread` keeps the
  thread's fields: `running`, `_pause`, `video_writer`, `current_frame`, plus
  counters for capture releases, writer releases and `finished` emissions. It
  also keeps the sequences of frames written and of `frame_processed` events
  emitted. `Run` follows `run` step by step with a `while` loop and is proved
  equal to the pure specification `RunSpec`/`VideoLoop`. Lemmas about that
  specification prove:
  - the run emits frames 0, 1, 2, … in order, with their index and frame count;
  - what is written equals what is emitted;
  - each loop exit happens for its stated reason;
  - pause, resume and stop behave as stated;
  - every exit path releases what it should.
- **`CameraThread`** (module `CameraPipeline`). The same structure for the live
  loop. It has no frame bound, and a frame rate that is not positive is
  replaced by 20. The writer is set up before the loop and is left `None` when
  setup raises. The detector call is not guarded, so an exception there ends
  `run` without releasing anything.
- **Output names** (module `Naming`). These are the four file names the
  application builds: `<input>_detected_<ts>.mp4`, `camera_recording_<ts>.mp4`,
  `<image>_result_<ts>.jpg` and `<video>_frame_<ts>.jpg`. The module also
  models the POSIX `os.path.basename`, `os.path.splitext` and `os.path.join`
  they are built with, and the decimal rendering of the timestamp.
- **Image navigation** (module `ImageNavigation`). The class
  `ImageDetectionPage` holds the list of selected files and the current index.
  It covers selection, the previous and next buttons, and the `i/n` counter
  with the file name shown for the current image.
- **Recording timer** (module `RecordingClock`). This is
  `update_recording_time`: whole seconds since recording started, split into
  minutes and seconds, then shown as `● 录制中... MM:SS`.

Shared datatypes live in `FramePipeline`, and the `Option` datatype in
`Wrappers`.

Environment inputs become parameters:
- What the capture returns is a finite sequence of frames, plus the properties
  it reports.
- YOLO inference followed by `plot()` is a total function that returns
  `None` where either call would raise.
- Whether a write raises is a predicate on the frame.
- Whether the file thread's `os.makedirs` succeeds is a flag (`dirOk`).
  Whether the `try` block of the camera's `initialize_video_writer` completes
  (making the directory, reading the frame size, opening the writer) is a flag
  (`setupOk`). `time.time()` is a number.
- What the GUI thread does between loop tests is a sequence of commands for
  the file thread and of stop requests for the camera thread, consumed one per
  test.

### Behaviour of the code worth noting

- Both threads create their writer before the loop, not on the first frame
  (`app.py:217-228`, `app.py:304-305`).
- The two loops treat a detector failure differently:
  - the file loop catches the exception and ends normally, with releases and
    `finished` (`app.py:241-258`);
  - the camera loop does not catch it, so `run` ends without releasing the
    capture or the writer (`app.py:312-313`).

  `CameraRunReleases` states the camera's behaviour as written.
- When `os.makedirs` raises in `VideoThread.run` (`app.py:219`), the exception
  leaves `run` before the loop: nothing is released and `finished` is never
  emitted. This is exit `DirFailed` in `RunReleasesOnEveryExit`.
- `CameraThread.stop` releases the writer, and the end of `run` releases it
  again (`app.py:323-324`, `app.py:353-354`). The model counts releases, and
  `CameraRunReleases` shows the count reaches two on a stopped run.
- A frame rate of 0 in the file loop makes `int(1000 / fps)` raise after the
  frame was emitted and counted (`app.py:253`). That exception is caught, so
  the loop ends after one frame (exit `PacingFailed`).

## Model

| member | source | states |
|---|---|---|
| Naming.Basename | app.py:222 | the base name has no separator, is a suffix of the path, and is preceded by a separator when shorter than the path |
| Naming.SplitExt | app.py:222 | `os.path.splitext` cuts the path into stem and tail, which concatenate back to the path; `SplitExtTail` and `SplitExtJoin` characterise the cut |
| Naming.SplitExtTail | app.py:222 | what splitext removes is either nothing or one extension (a dot followed by neither a dot nor a separator); when it removes an extension the stem keeps a name part that is not all dots; when it removes nothing, every dot of the last component is preceded only by dots, so leading dots stay in the stem |
| Naming.SplitExtJoin | app.py:222 | splitext of a name part followed by an extension gives back exactly that name part and that extension |
| Naming.Join | app.py:224 | an absolute second part replaces the first; otherwise the result is the first part, then one separator exactly when the first part is non-empty and does not already end with one, then the second part |
| Naming.BasenameJoin | app.py:662-664 | the base name of a directory joined with a bare file name is that file name, so the logged name is the saved name |
| Naming.Decimal | app.py:223-224 | the timestamp renders as a non-empty string of digits without a leading zero |
| Naming.DecimalRoundTrip | app.py:223-224 | reading the rendered digits back gives the timestamp |
| Naming.DecimalInjective | app.py:223-224 | different timestamps render differently |
| Naming.TaggedNameSplits | app.py:224 | `stem + tag + ts + ext` splits at `ext` back into `stem + tag + ts`, and has no separator when the stem has none |
| Naming.TaggedNameInjective | app.py:223-224 | two names built from the same stem, tag and extension agree only for equal timestamps |
| Naming.VideoRecordingName | app.py:222-224 | the name `VideoThread.run` gives its recording, built from the input's base name without its extension; its shape is stated by `VideoRecordingNameShape` and its uniqueness by `VideoRecordingNamesDistinct` |
| Naming.VideoRecordingNameShape | app.py:222-224 | the recorded-video name is the input's base name without its last extension, then `_detected_`, the timestamp and `.mp4`; it has no separator, splits at `.mp4`, and stays the last component of the joined output path |
| Naming.VideoRecordingNamesDistinct | app.py:222-224 | two recordings of the same input at different seconds get different names |
| Naming.CameraRecordingName | app.py:337-338 | the name `initialize_video_writer` gives the camera recording; its shape is stated by `CameraRecordingNameShape` |
| Naming.CameraRecordingNameShape | app.py:337-338 | the camera recording name is `camera_recording_`, the timestamp and `.mp4`; it has no separator and splits at `.mp4` |
| Naming.ImageResultName | app.py:661-662 | the name a saved image result gets; its shape is stated by `ImageResultNameShape` |
| Naming.ImageResultNameShape | app.py:661-664 | the saved result of a bare image name is its stem, `_result_`, the timestamp and `.jpg`; it has no separator, splits at `.jpg`, and the logged base name is the name itself |
| Naming.FrameSnapshotName | app.py:862-863 | the name a video snapshot gets; its shape is stated by `FrameSnapshotNameShape` |
| Naming.FrameSnapshotNameShape | app.py:862-865 | the snapshot of a bare video name is its stem, `_frame_`, the timestamp and `.jpg`; it has no separator, splits at `.jpg`, and the logged base name is the name itself |
| RecordingClock.Truncate | app.py:968 | `int(x)` is the integer nearest to `x` on the side of zero |
| RecordingClock.SplitElapsed | app.py:969-970 | `60 * minutes + seconds == elapsed` with `0 <= seconds < 60`, and minutes are non-negative for non-negative elapsed time |
| RecordingClock.TwoDigits | app.py:971 | `{:02d}` of a non-negative number is at least two digits that read back as the number, exactly two below 100 and with no leading zero from 100 up; a negative number is `-` followed by the unpadded digits of its magnitude, with no leading zero |
| RecordingClock.SecondsFieldWidth | app.py:970-971 | the seconds field is always exactly two digits worth less than 60 |
| RecordingClock.StatusText | app.py:969-971 | the status text for a whole number of elapsed seconds; `StatusTextRoundTrip` proves it reads back as that number, and `SecondsFieldWidth` bounds its seconds field |
| RecordingClock.StatusTextRoundTrip | app.py:968-971 | for any non-negative elapsed time the status text reads back as that number of seconds |
| RecordingClock.RecordingStatus | app.py:966-971 | what `update_recording_time` sets the label to, if anything; characterised by `RecordingStatusReadsBack` |
| RecordingClock.RecordingStatusReadsBack | app.py:966-971 | the text changes exactly when a recording start exists, and, when the clock has not gone back since the start, it reads back as the whole seconds elapsed, within one second below the true elapsed time |
| ImageNavigation.PreviousIndex | app.py:667-668 | where `previous_image` moves the index; `NavigationKeepsIndexValid`, `NavigationInverse` and `PreviousPressesStopAtFirst` characterise it |
| ImageNavigation.NextIndex | app.py:673-674 | where `next_image` moves the index; `NavigationKeepsIndexValid`, `NavigationInverse` and `NextPressesStopAtLast` characterise it |
| ImageNavigation.NavigationKeepsIndexValid | app.py:666-676 | previous and next keep the index in `[0, len - 1]` and move it in their direction only |
| ImageNavigation.NavigationInverse | app.py:666-676 | next then previous, and previous then next, return to the same index whenever the first step moved |
| ImageNavigation.NextPressesStopAtLast | app.py:672-676 | `k` presses of next land on `min(index + k, len - 1)` |
| ImageNavigation.PreviousPressesStopAtFirst | app.py:666-670 | `k` presses of previous land on `max(index - k, 0)` |
| ImageNavigation.CounterText | app.py:602 | the `index+1/len` counter; `CounterTextRoundTrip` proves it reads back as the one-based position and the count |
| ImageNavigation.CounterTextRoundTrip | app.py:602 | the counter text `index+1/len` reads back as the one-based position and the count |
| ImageNavigation.ImageDetectionPage.constructor | app.py:506-557 | a new page has no files, index 0, and navigation and detection disabled |
| ImageNavigation.ImageDetectionPage.SelectImages | app.py:576-585 | a non-empty selection replaces the list, resets the index to 0 and enables detection, and navigation only for more than one file; an empty selection changes nothing |
| ImageNavigation.ImageDetectionPage.PreviousImage | app.py:666-670 | the index moves back by one only when it is above 0, keeping the page valid |
| ImageNavigation.ImageDetectionPage.NextImage | app.py:672-676 | the index moves forward by one only when it is below `len - 1`, keeping the page valid |
| ImageNavigation.ImageDetectionPage.DisplayInfo | app.py:598-603 | with files there is a counter reading back as `(index + 1, len)` and the current file's base name; without files there is nothing |
| VideoPipeline.Perform | app.py:268-275 | the effect of one GUI call on the loop flags; `PerformChangesOnlyItsFlag` proves each call changes only its own flag, and `StopEndsLoop` and `ResumeUndoesPause` give the effect of stop and of pause then resume |
| VideoPipeline.FrameOutcome | app.py:241-258 | an iteration that ends normally advances the counter by one (and the frame rate is not 0); otherwise it fails with a detector, writer or pacing error |
| VideoPipeline.VideoLoop | app.py:232-258 | the `while` loop from a loop test, as a function of the GUI's commands; `VideoLoopEmitsInOrder`, `VideoLoopExits`, `StepFailureExtends`, `CleanRunCompletes`, `PauseThenResumeIsTransparent` and `StopWhilePausedEndsLoop` characterise it, and `VideoThread.Loop` is proved to end as it specifies |
| VideoPipeline.VideoLoopEmitsInOrder | app.py:232-258 | whatever the commands, the loop appends one event per counted frame, for frames `current`, `current + 1`, … in order, and writes exactly the emitted frames when recording |
| VideoPipeline.VideoLoopExits | app.py:232-258 | each exit explains itself: stopped with `running` false, completed at the frame count, short read past the last frame, detector or writer failure on the uncounted frame, pacing failure only for fps 0 and after one frame |
| VideoPipeline.StepFailureExtends | app.py:241-258 | an exception inside the try block ends the loop there, whatever commands are left; a detector or writer failure has emitted and written nothing more, and a pacing failure only the frame it had already emitted and written |
| VideoPipeline.CleanRunCompletes | app.py:232-258 | left alone, a running and unpaused loop over frames that all detect and write cleanly, at a non-zero rate, exits `Completed` with the counter at the frame count and the flags unchanged |
| VideoPipeline.PauseThenResumeIsTransparent | app.py:232-235 | pausing, idling any number of tests, then resuming gives the same outcome as never pausing: a paused test reads nothing and keeps the counter |
| VideoPipeline.StopWhilePausedEndsLoop | app.py:232-235 | a stop issued while paused ends the loop at the next test, with nothing emitted |
| VideoPipeline.PerformChangesOnlyItsFlag | app.py:268-275 | stop clears only `running`, pause sets only `_pause`, resume clears only it, and no call touches the counter, `current_frame`, the written frames or the events |
| VideoPipeline.StopEndsLoop | app.py:268-269 | after a stop, from any state, the loop ends at the next test of `while self.running` (`app.py:232`) with exit `Stopped` and nothing more read, written or emitted |
| VideoPipeline.ResumeUndoesPause | app.py:271-275 | pause sets only the pause flag and resume clears exactly it |
| VideoPipeline.Teardown | app.py:260-266 | the tail of `run` after the loop; `RunReleasesOnEveryExit` states what it releases and emits on each exit |
| VideoPipeline.RunSpec | app.py:203-266 | the whole of `run`; `RunReleasesOnEveryExit`, `RunExtendsThread`, `RunEmitsConsecutiveFrames`, `RunRecordsEmittedFrames`, `RunEmittedCountAtExit` and `CleanRunEmitsEveryFrame` characterise it, and `VideoThread.Run` is proved to end as it specifies |
| VideoPipeline.RunReleasesOnEveryExit | app.py:203-266 | an unopened capture emits `finished` once and changes nothing else; a makedirs failure changes nothing; every other exit releases the capture, releases the writer if it exists and emits `finished` once, except a loop still paused when the commands run out; past set-up with recording on the writer is the one named after the input, and with it off the writer field is untouched |
| VideoPipeline.RunExtendsThread | app.py:203-266 | past set-up the run's emitted events, written frames and exit are exactly those of its loop |
| VideoPipeline.RunEmitsConsecutiveFrames | app.py:232-251 | a run appends events for frames 0, 1, 2, … with their index and the frame count, never more than the frames read nor than `frame_count` |
| VideoPipeline.RunRecordsEmittedFrames | app.py:217-250 | with recording on, the file holds exactly the frames emitted, in order; with it off nothing is written |
| VideoPipeline.RunEmittedCountAtExit | app.py:232-258 | a completed run emitted `frame_count` frames, a short read all the frames the capture delivered, and a detector failure stopped at the first frame the detector rejects |
| VideoPipeline.CleanRunEmitsEveryFrame | app.py:203-266 | a run over a clean file that the GUI leaves alone completes, emits exactly `frame_count` events for frames 0, 1, … with their index and the frame count, releases the capture once and emits `finished` once |
| VideoPipeline.VideoThread.constructor | app.py:191-201 | a new thread is running, not paused, with no writer and nothing emitted |
| VideoPipeline.VideoThread.Stop | app.py:268-269 | clears `running` |
| VideoPipeline.VideoThread.Pause | app.py:271-272 | sets the pause flag |
| VideoPipeline.VideoThread.Resume | app.py:274-275 | clears the pause flag |
| VideoPipeline.VideoThread.Environment | app.py:268-275 | the GUI's stop, pause and resume calls before a test leave the flags as the command sequence specifies |
| VideoPipeline.VideoThread.TryBlock | app.py:241-258 | one pass of the try block changes the thread exactly as `FrameOutcome` specifies |
| VideoPipeline.VideoThread.Loop | app.py:232-258 | the `while` loop ends in the state and with the exit `VideoLoop` specifies |
| VideoPipeline.VideoThread.Session | app.py:232-258 | the GUI's commands followed by the loop end as `VideoLoop` specifies |
| VideoPipeline.VideoThread.Process | app.py:226-266 | writer set-up, loop and teardown end as the run specification's teardown of the loop |
| VideoPipeline.VideoThread.StartRecording | app.py:228 | the new writer is installed with an empty file |
| VideoPipeline.VideoThread.Release | app.py:260-266 | releases the capture, the writer when there is one, and emits `finished` once |
| VideoPipeline.VideoThread.Run | app.py:203-266 | `run` leaves the thread exactly as `RunSpec` specifies, which the lemmas above characterise |
| CameraPipeline.EffectiveFps | app.py:299-301 | the recorded frame rate is positive: the reported one when positive, 20 otherwise |
| CameraPipeline.Stopping | app.py:351-354 | what `stop()` does to the loop state; `CameraLoopStopReleases` proves the writer is released by it exactly once on a stopped loop |
| CameraPipeline.CameraLoop | app.py:307-319 | the `while` loop as a function of the GUI's stop requests; `CameraLoopEmitsInOrder`, `CameraLoopExits` and `StopAfterFrames` characterise it, and `CameraThread.Loop` is proved to end as it specifies |
| CameraPipeline.CameraLoopEmitsInOrder | app.py:307-319 | the loop emits the annotations of consecutive frames, one per successful read, keeps its writer, and writes exactly what it emits when it writes |
| CameraPipeline.CameraLoopExits | app.py:307-319 | each exit has its reason, and a stop releases the writer exactly once |
| CameraPipeline.CameraLoopExitReason | app.py:307-313 | the loop stops only with `running` false, fails a read only past the last frame, and crashes only on a frame the detector rejects or whose write raises |
| CameraPipeline.CameraLoopStopReleases | app.py:351-354 | the writer is released by `stop()` once, and only when the loop ends stopped from a running state with a writer |
| CameraPipeline.InitializeWriter | app.py:326-349 | `initialize_video_writer`: a new camera writer and start time when set-up completes, `None` otherwise; `CameraRunRecordsEmittedFrames` states the result inside a run |
| CameraPipeline.CameraFinish | app.py:307-324 | the thread after the loop, with the releases of the tail of `run` unless an exception escaped; `CameraRunReleases` counts those releases |
| CameraPipeline.CameraRunSpec | app.py:293-324 | the whole of `run`; `CameraRunExtendsThread`, `CameraRunEmitsAnnotatedFrames`, `CameraRunRecordsEmittedFrames` and `CameraRunReleases` characterise it, and `CameraThread.Run` is proved to end as it specifies |
| CameraPipeline.CameraRunExtendsThread | app.py:293-324 | a run's emitted frames, written frames and exit are exactly those of its loop |
| CameraPipeline.CameraRunEmitsAnnotatedFrames | app.py:293-319 | a run emits the annotations of frames 0, 1, 2, … in order, all delivered frames when a read ends it, and none when the camera did not open |
| CameraPipeline.CameraRunRecordsEmittedFrames | app.py:304-349 | when recording and set-up completes, the writer is the camera recording with its start time and the file holds exactly the emitted frames; when recording and set-up raises, the writer is `None` and nothing is written; when not recording, the writer field is untouched and nothing is written |
| CameraPipeline.CameraRunReleases | app.py:307-324 | a crash in the detector or writer releases nothing; any other exit releases the capture once; a failed read releases the writer once; a run stopped after it started running releases it twice, once in `stop()` and once at the end |
| CameraPipeline.StopAfterFrames | app.py:307-319 | with frames that detect and write cleanly, a stop requested after the `k`-th frame ends the loop stopped with exactly `k` frames read: the loop has no frame bound |
| CameraPipeline.CameraThread.constructor | app.py:282-291 | a new thread is running, with no writer, no recording start and nothing emitted |
| CameraPipeline.CameraThread.Stop | app.py:351-354 | clears `running` and releases the writer if there is one |
| CameraPipeline.CameraThread.InitializeVideoWriter | app.py:326-349 | the thread changes exactly as `InitializeWriter` specifies: a new writer and start time, or `None` when set-up raises |
| CameraPipeline.CameraThread.PollStop | app.py:351-354 | a stop request from the GUI before a test acts as `Poll` specifies |
| CameraPipeline.CameraThread.Loop | app.py:307-319 | the `while` loop ends in the state and with the exit `CameraLoop` specifies |
| CameraPipeline.CameraThread.Session | app.py:307-324 | the loop and the releases after it end as `CameraFinish` of the loop specifies |
| CameraPipeline.CameraThread.Release | app.py:321-324 | releases the capture, and the writer when there is one |
| CameraPipeline.CameraThread.Run | app.py:293-324 | `run` leaves the thread exactly as `CameraRunSpec` specifies, which the lemmas above characterise |

## Left out

- Thread interleaving: the GUI's `stop`, `pause` and `resume` calls take effect only at loop tests. Calls in the middle of an iteration, and Qt signal delivery, are not modelled.
- A paused file loop whose command sequence runs out ends with exit `StillPaused`. The real loop would keep sleeping until a command arrives.
- Frame pacing (`msleep` and the delay computed from fps) is not modelled, except that fps 0 raises (`app.py:253-254`).
- The frame rate is a real number, so `int(1000 / fps)` raises only for 0. With Python floats it also raises for a NaN rate (`ValueError`) and for a positive rate small enough that `1000 / fps` overflows to infinity (`OverflowError`); those two cases are not modelled.
- OpenCV, YOLO, `cv2.imwrite` and reading images are not modelled beyond the abstractions above. The camera's 1280x720 request (`app.py:295-296`) is taken to be reflected in the size it reports.
- The camera is a finite sequence of frames. The loop's lack of a bound is shown by `StopAfterFrames` for every length, not by an infinite stream.
- `CameraThread.stop`'s recording-duration print, every other `print` and log message, and the GUI's enabling of buttons other than navigation and detection are not modelled.
- `ImageDetectionPage.load_current_image` and `detect_images` are not modelled. They are called after navigation and read and detect an image through the GUI and the model.
- Paths follow POSIX `os.path` only. Windows path rules are not modelled.
- `time.time()` is a parameter. Timestamps from `int(time.time())` are non-negative integers, and the recording clock is a real number. `RecordingStatusReadsBack` promises a readable text only when the wall clock has not gone back since the start; `time.time()` is not monotonic, and a negative elapsed time gives a text such as `-1:59` that does not read back.
- Frame contents, codecs and the writer's file format are not modelled. A writer is its path, frame rate and size, and its contents are the sequence of frames given to it.
- `train_model.py` and the Qt pages, styles and dialogs are not modelled.
