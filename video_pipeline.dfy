/**
 * `VideoThread` in app.py: plays a video file through the detector, emitting
 * each annotated frame with its index and the frame count, optionally
 * writing it to a recording, under cooperative stop and pause flags.
 *
 * The GUI thread's calls to `stop`, `pause` and `resume` are modelled as a
 * sequence of commands; the environment performs the next one before every
 * test of the loop condition. The spec function `VideoLoop` is the loop, and
 * `RunSpec` the whole of `run`; the class's `Run` method is proved to do what
 * they say.
 */
module VideoPipeline {
  import opened Wrappers
  import opened FramePipeline
  import Naming

  /** What the GUI thread does between two loop tests. */
  datatype Command = Keep | Stop | Pause | Resume

  /** One `frame_processed` emission: the annotated frame, its index, the frame count. */
  datatype FrameEvent = FrameEvent(frame: Frame, index: int, total: int)

  /** How a call of `run` ends. */
  datatype Exit =
    | NotOpened      // the capture did not open: only `finished` is emitted
    | DirFailed      // `os.makedirs` raised: the exception leaves `run`, nothing is released
    | Stopped        // `running` was false at the loop test
    | Completed      // the counter reached the frame count
    | ShortRead      // `cap.read()` failed
    | DetectFailed   // detection or plotting raised inside the try block
    | WriteFailed    // writing the annotated frame raised inside the try block
    | PacingFailed   // `1000 / fps` raised (fps is 0) after the frame was emitted
    | StillPaused    // paused, and no command is left that could resume or stop it

  /** The inputs `run` cannot see into: detector, writer failures, the file system, the clock, the GUI. */
  datatype Env = Env(detect: Detector, writeFails: Frame -> bool, dirOk: bool, now: nat, commands: seq<Command>)

  /** What stays fixed during the loop. */
  datatype Setting = Setting(cap: Capture, detect: Detector, writeFails: Frame -> bool, conf: real, recording: bool)

  /** The state the loop changes: the two flags, the local counter, `self.current_frame`, the writer's frames, the emitted events. */
  datatype LoopState = LoopState(running: bool, paused: bool, current: nat, lastAnnotated: Option<Frame>,
                                 written: seq<Frame>, emitted: seq<FrameEvent>)

  /** The fields of a `VideoThread` and what it has done to the outside: written frames, events, releases. */
  datatype ThreadState = ThreadState(running: bool, paused: bool, currentFrame: Option<Frame>, videoWriter: Option<Writer>,
                                     written: seq<Frame>, emitted: seq<FrameEvent>,
                                     finishedEmits: nat, captureReleases: nat, writerReleases: nat)

  /** The constructor arguments of a `VideoThread`. */
  datatype VideoConfig = VideoConfig(videoPath: string, saveVideo: bool, confThreshold: real, outputDir: string)

  /** `stop` clears `running`, `pause` sets `_pause`, `resume` clears it. */
  function Perform(h: LoopState, c: Command): LoopState {
    match c
    case Keep => h
    case Stop => h.(running := false)
    case Pause => h.(paused := true)
    case Resume => h.(paused := false)
  }

  /** The state after the environment performs its next command, if one is left. */
  function Act(h: LoopState, cmds: seq<Command>): LoopState {
    if cmds == [] then h else Perform(h, cmds[0])
  }

  /** The commands left after the environment has acted. */
  function Later(cmds: seq<Command>): seq<Command> {
    if cmds == [] then [] else cmds[1..]
  }

  /** The try block's result: the new state, and the reason to leave the loop if it breaks. */
  datatype Step = Step(state: LoopState, failure: Option<Exit>)

  /** Where the loop stops and why. */
  datatype Outcome = Outcome(state: LoopState, exit: Exit)

  /** Where `run` leaves the thread and why. */
  datatype RunResult = RunResult(state: ThreadState, exit: Exit)

  /**
   * The try block of one iteration, for the frame `read` returned: detect and
   * plot, keep the result in `current_frame`, write it when recording, emit
   * it, count it, compute the pacing delay. Either the iteration completes
   * (no failure) or it breaks out of the loop for the given reason.
   */
  function FrameOutcome(s: Setting, h: LoopState): (r: Step)
    requires h.current < |s.cap.frames|
    ensures r.failure.None? ==> r.state.current == h.current + 1 && s.cap.fps != 0.0
    ensures r.failure.Some? ==> r.failure.value in {DetectFailed, WriteFailed, PacingFailed}
  {
    match s.detect(s.cap.frames[h.current], s.conf)
    case None => Step(h, Some(DetectFailed))
    case Some(annotated) =>
      if s.recording && s.writeFails(annotated) then Step(h.(lastAnnotated := Some(annotated)), Some(WriteFailed))
      else
        var h2 := h.(lastAnnotated := Some(annotated),
                     written := if s.recording then h.written + [annotated] else h.written,
                     emitted := h.emitted + [FrameEvent(annotated, h.current, s.cap.frameCount)],
                     current := h.current + 1);
        Step(h2, if s.cap.fps == 0.0 then Some(PacingFailed) else None)
  }

  /**
   * The loop of `run` from a loop test: `h` is the state at the test, `cmds`
   * the commands the environment has not yet performed.
   */
  function VideoLoop(s: Setting, h: LoopState, cmds: seq<Command>): Outcome
    decreases |cmds| + Remaining(s.cap.frameCount, h.current)
  {
    if !(h.running && h.current < s.cap.frameCount) then
      Outcome(h, if h.running then Completed else Stopped)
    else if h.paused then
      if cmds == [] then Outcome(h, StillPaused)
      else VideoLoop(s, Perform(h, cmds[0]), cmds[1..])
    else if h.current >= |s.cap.frames| then
      Outcome(h, ShortRead)
    else
      var step := FrameOutcome(s, h);
      if step.failure.Some? then Outcome(step.state, step.failure.value)
      else VideoLoop(s, Act(step.state, cmds), Later(cmds))
  }

  /** The writer `run` creates: `output_dir/<name>_detected_<ts>.mp4` at the capture's rate and size. */
  function RecordingWriter(cfg: VideoConfig, cap: Capture, now: nat): Writer {
    Writer(Naming.Join(cfg.outputDir, Naming.VideoRecordingName(cfg.videoPath, now)), cap.fps, cap.width, cap.height)
  }

  /** The loop's starting state: the thread's flags, counter 0, and a fresh writer's empty file when recording. */
  function LoopStart(cfg: VideoConfig, t: ThreadState): LoopState {
    LoopState(t.running, t.paused, 0, t.currentFrame, if cfg.saveVideo then [] else t.written, t.emitted)
  }

  function LoopSetting(cfg: VideoConfig, cap: Capture, env: Env): Setting {
    Setting(cap, env.detect, env.writeFails, cfg.confThreshold, cfg.saveVideo)
  }

  /** The writer the loop runs with: a new one when recording, otherwise whatever the thread held. */
  function LoopWriter(cfg: VideoConfig, t: ThreadState, cap: Capture, env: Env): Option<Writer> {
    if cfg.saveVideo then Some(RecordingWriter(cfg, cap, env.now)) else t.videoWriter
  }

  /**
   * After the loop: release the capture, release the writer if there is one,
   * emit `finished`. An endless pause never gets here.
   */
  function Teardown(t: ThreadState, writer: Option<Writer>, o: Outcome): RunResult {
    var r := o.state;
    var t' := ThreadState(r.running, r.paused, r.lastAnnotated, writer, r.written, r.emitted,
                          t.finishedEmits, t.captureReleases, t.writerReleases);
    if o.exit == StillPaused then RunResult(t', o.exit)
    else RunResult(t'.(finishedEmits := t.finishedEmits + 1,
                       captureReleases := t.captureReleases + 1,
                       writerReleases := t.writerReleases + (if writer.Some? then 1 else 0)), o.exit)
  }

  /** The loop of `run`, entered after the environment's first chance to act. */
  function LoopRun(cfg: VideoConfig, t: ThreadState, cap: Capture, env: Env): Outcome {
    VideoLoop(LoopSetting(cfg, cap, env), Act(LoopStart(cfg, t), env.commands), Later(env.commands))
  }

  /** The whole of `run`: open, set up the writer, loop, tear down. */
  function RunSpec(cfg: VideoConfig, t: ThreadState, cap: Capture, env: Env): RunResult {
    if !cap.isOpened then RunResult(t.(finishedEmits := t.finishedEmits + 1), NotOpened)
    else if cfg.saveVideo && !env.dirOk then RunResult(t, DirFailed)
    else Teardown(t, LoopWriter(cfg, t, cap, env), LoopRun(cfg, t, cap, env))
  }

  /** Past the two early returns, `run` is the loop followed by the teardown. */
  lemma RunSpecPastSetup(cfg: VideoConfig, t: ThreadState, cap: Capture, env: Env)
    requires cap.isOpened && (cfg.saveVideo ==> env.dirOk)
    ensures RunSpec(cfg, t, cap, env) == Teardown(t, LoopWriter(cfg, t, cap, env), LoopRun(cfg, t, cap, env))
  {
  }

  // ---- properties of the loop ----

  /** `ev` is the event for frame `i`: its annotation, with index `i` and the frame count. */
  ghost predicate IsEventFor(s: Setting, i: int, ev: FrameEvent) {
    && 0 <= i < |s.cap.frames|
    && s.detect(s.cap.frames[i], s.conf) == Some(ev.frame)
    && ev.index == i && ev.total == s.cap.frameCount
  }

  /** `evs` are the events for the frames `start`, `start + 1`, ... in order. */
  ghost predicate EventsFrom(s: Setting, start: int, evs: seq<FrameEvent>)
    decreases |evs|
  {
    evs == [] || (IsEventFor(s, start, evs[0]) && EventsFrom(s, start + 1, evs[1..]))
  }

  /** The frames the events carry, in order. */
  function FramesOf(evs: seq<FrameEvent>): (frames: seq<Frame>)
    ensures |frames| == |evs|
    decreases |evs|
  {
    if evs == [] then [] else [evs[0].frame] + FramesOf(evs[1..])
  }

  /**
   * From `h` to `r` the loop appended one event per counted frame, for the
   * frames `h.current`, `h.current + 1`, ... in order, never counting past the
   * frame count.
   */
  ghost predicate EmitsFrom(s: Setting, h: LoopState, r: LoopState) {
    && h.current <= r.current
    && (r.current > h.current ==> r.current <= s.cap.frameCount)
    && |h.emitted| <= |r.emitted|
    && var added := r.emitted[|h.emitted|..];
       && r.emitted == h.emitted + added
       && |added| == r.current - h.current
       && EventsFrom(s, h.current, added)
  }

  /** From `h` to `r` the loop wrote exactly the frames it emitted when recording, nothing otherwise. */
  ghost predicate WritesEmitted(s: Setting, h: LoopState, r: LoopState) {
    && |h.emitted| <= |r.emitted|
    && r.written == h.written + (if s.recording then FramesOf(r.emitted[|h.emitted|..]) else [])
  }

  /** The loop's progress from `h` to `r`: what it emitted and what it wrote. */
  ghost predicate Extends(s: Setting, h: LoopState, r: LoopState) {
    EmitsFrom(s, h, r) && WritesEmitted(s, h, r)
  }

  /** How each exit leaves the loop state. */
  ghost predicate ExitExplained(s: Setting, h: LoopState, o: Outcome) {
    var frames, r, e := s.cap.frames, o.state, o.exit;
    && e !in {NotOpened, DirFailed}
    && (e == Stopped ==> !r.running)
    && (e == Completed ==> r.running && r.current >= s.cap.frameCount)
    && (e == ShortRead ==> r.running && !r.paused && |frames| <= r.current < s.cap.frameCount)
    && (e == DetectFailed ==> r.current < |frames| && s.detect(frames[r.current], s.conf).None?)
    && (e == WriteFailed ==>
          && s.recording && r.current < |frames|
          && r.lastAnnotated == s.detect(frames[r.current], s.conf)
          && r.lastAnnotated.Some? && s.writeFails(r.lastAnnotated.value))
    && (e == PacingFailed ==> s.cap.fps == 0.0 && r.current == h.current + 1)
    && (e == StillPaused ==> r.running && r.paused && r.current < s.cap.frameCount)
    && (s.cap.fps == 0.0 ==> r.current <= h.current + 1)
  }

  /** One completed iteration followed by an extension is an extension. */
  lemma ExtendsStep(s: Setting, h: LoopState, h2: LoopState, r: LoopState)
    requires h.current < |s.cap.frames| && h.current < s.cap.frameCount
    requires s.detect(s.cap.frames[h.current], s.conf).Some?
    requires var a := s.detect(s.cap.frames[h.current], s.conf).value;
      && h2.current == h.current + 1
      && h2.emitted == h.emitted + [FrameEvent(a, h.current, s.cap.frameCount)]
      && h2.written == (if s.recording then h.written + [a] else h.written)
    requires Extends(s, h2, r)
    ensures Extends(s, h, r)
  {
    var a := s.detect(s.cap.frames[h.current], s.conf).value;
    var ev := FrameEvent(a, h.current, s.cap.frameCount);
    EmitsFromStep(s, h, h2, r, ev);
    WritesStep(s, h, h2, r, ev);
  }

  /** The emitting half of `ExtendsStep`. */
  lemma EmitsFromStep(s: Setting, h: LoopState, h2: LoopState, r: LoopState, ev: FrameEvent)
    requires h.current < s.cap.frameCount && IsEventFor(s, h.current, ev)
    requires h2.current == h.current + 1 && h2.emitted == h.emitted + [ev]
    requires EmitsFrom(s, h2, r)
    ensures EmitsFrom(s, h, r)
  {
    var rest := r.emitted[|h2.emitted|..];
    assert r.emitted == h.emitted + ([ev] + rest);
    AppendedAfter(h.emitted, [ev] + rest, r.emitted);
    EmitsStep(s, h.current, ev, rest);
  }

  /** The writing half of `ExtendsStep`. */
  lemma WritesStep(s: Setting, h: LoopState, h2: LoopState, r: LoopState, ev: FrameEvent)
    requires h2.emitted == h.emitted + [ev]
    requires h2.written == (if s.recording then h.written + [ev.frame] else h.written)
    requires EmitsFrom(s, h2, r) && WritesEmitted(s, h2, r)
    ensures WritesEmitted(s, h, r)
  {
    var rest := r.emitted[|h2.emitted|..];
    assert r.emitted == h.emitted + ([ev] + rest);
    AppendedAfter(h.emitted, [ev] + rest, r.emitted);
    var added := r.emitted[|h.emitted|..];
    if s.recording {
      assert added[0] == ev && added[1..] == rest;
      assert FramesOf(added) == [ev.frame] + FramesOf(rest);
      assert r.written == (h.written + [ev.frame]) + FramesOf(rest);
      assert r.written == h.written + FramesOf(added);
    } else {
      assert r.written == h.written;
    }
  }

  /** The event for the counted frame, followed by events from the next frame on, are events from the counted frame on. */
  lemma EmitsStep(s: Setting, start: int, ev: FrameEvent, rest: seq<FrameEvent>)
    requires IsEventFor(s, start, ev) && EventsFrom(s, start + 1, rest)
    ensures EventsFrom(s, start, [ev] + rest)
  {
    assert ([ev] + rest)[1..] == rest;
  }

  /**
   * Whatever the commands, the loop emits the frames from the counter on,
   * consecutively and in order, and writes exactly what it emits when
   * recording.
   */
  lemma {:induction false} VideoLoopEmitsInOrder(s: Setting, h: LoopState, cmds: seq<Command>)
    ensures Extends(s, h, VideoLoop(s, h, cmds).state)
    decreases |cmds| + Remaining(s.cap.frameCount, h.current), 1
  {
    if !(h.running && h.current < s.cap.frameCount) || (!h.paused && h.current >= |s.cap.frames|) {
      ExtendsNothing(s, h);
    } else if h.paused {
      PausedEmitsInOrder(s, h, cmds);
    } else if FrameOutcome(s, h).failure.None? {
      StepEmitsInOrder(s, h, cmds);
    } else {
      StepFailureExtends(s, h, cmds);
    }
  }

  /** A loop that stops where it is has extended by nothing. */
  lemma ExtendsNothing(s: Setting, h: LoopState)
    ensures Extends(s, h, h)
  {
    assert h.emitted[|h.emitted|..] == [];
  }

  /** A paused test consumes one command and goes on from the state it leaves. */
  lemma {:induction false} PausedEmitsInOrder(s: Setting, h: LoopState, cmds: seq<Command>)
    requires h.running && h.current < s.cap.frameCount && h.paused
    ensures Extends(s, h, VideoLoop(s, h, cmds).state)
    decreases |cmds| + Remaining(s.cap.frameCount, h.current), 0
  {
    if cmds == [] {
      ExtendsNothing(s, h);
    } else {
      VideoLoopEmitsInOrder(s, Perform(h, cmds[0]), cmds[1..]);
    }
  }

  /** A completed iteration emits its frame and goes on from the state it leaves. */
  lemma {:induction false} StepEmitsInOrder(s: Setting, h: LoopState, cmds: seq<Command>)
    requires h.running && h.current < s.cap.frameCount && !h.paused && h.current < |s.cap.frames|
    requires FrameOutcome(s, h).failure.None?
    ensures Extends(s, h, VideoLoop(s, h, cmds).state)
    decreases |cmds| + Remaining(s.cap.frameCount, h.current), 0
  {
    var step := FrameOutcome(s, h);
    var h' := Act(step.state, cmds);
    VideoLoopEmitsInOrder(s, h', Later(cmds));
    ExtendsStep(s, h, step.state, VideoLoop(s, h', Later(cmds)).state);
  }

  /**
   * A try block that breaks out ends the loop there, whatever commands are
   * left: it has emitted, counted and written at most the one frame whose
   * pacing raised.
   */
  lemma StepFailureExtends(s: Setting, h: LoopState, cmds: seq<Command>)
    requires h.running && h.current < s.cap.frameCount && !h.paused && h.current < |s.cap.frames|
    requires FrameOutcome(s, h).failure.Some?
    ensures VideoLoop(s, h, cmds) == Outcome(FrameOutcome(s, h).state, FrameOutcome(s, h).failure.value)
    ensures Extends(s, h, VideoLoop(s, h, cmds).state)
  {
    var r := FrameOutcome(s, h).state;
    if FrameOutcome(s, h).failure.value == PacingFailed {
      var ev := r.emitted[|h.emitted|];
      assert r.emitted == h.emitted + [ev];
      assert r.emitted[|h.emitted|..] == [ev];
      assert IsEventFor(s, h.current, ev);
      assert [ev][1..] == [];
      if s.recording {
        assert r.written == h.written + [ev.frame];
      }
    } else {
      assert r.emitted == h.emitted && r.written == h.written;
      assert r.emitted[|h.emitted|..] == [];
    }
  }

  /** Each exit of the loop happens for its stated reason. */
  lemma {:induction false} VideoLoopExits(s: Setting, h: LoopState, cmds: seq<Command>)
    ensures ExitExplained(s, h, VideoLoop(s, h, cmds))
    decreases |cmds| + Remaining(s.cap.frameCount, h.current)
  {
    if !(h.running && h.current < s.cap.frameCount) {
    } else if h.paused {
      if cmds != [] {
        var h' := Perform(h, cmds[0]);
        assert VideoLoop(s, h, cmds) == VideoLoop(s, h', cmds[1..]);
        VideoLoopExits(s, h', cmds[1..]);
      }
    } else if h.current < |s.cap.frames| {
      var step := FrameOutcome(s, h);
      if step.failure.None? {
        var h' := Act(step.state, cmds);
        assert VideoLoop(s, h, cmds) == VideoLoop(s, h', Later(cmds));
        VideoLoopExits(s, h', Later(cmds));
      }
    }
  }

  /** `Keep` repeated `k` times: `k` polls in which the GUI does nothing. */
  function Idle(k: nat): (r: seq<Command>)
    ensures |r| == k && forall i :: 0 <= i < k ==> r[i] == Keep
  {
    if k == 0 then [] else [Keep] + Idle(k - 1)
  }

  /**
   * Pause is transparent: a loop paused at a test and resumed after `k` idle
   * polls continues exactly as the unpaused loop would, so no frame is
   * skipped or repeated and the same frames are written and emitted.
   */
  lemma {:induction false} PauseThenResumeIsTransparent(s: Setting, h: LoopState, k: nat, rest: seq<Command>)
    requires h.running && h.current < s.cap.frameCount && !h.paused
    ensures VideoLoop(s, h.(paused := true), Idle(k) + [Resume] + rest) == VideoLoop(s, h, rest)
  {
    var cmds := Idle(k) + [Resume] + rest;
    if k == 0 {
      assert cmds[0] == Resume && cmds[1..] == rest;
    } else {
      assert cmds[0] == Keep && cmds[1..] == Idle(k - 1) + [Resume] + rest;
      PauseThenResumeIsTransparent(s, h, k - 1, rest);
    }
  }

  /**
   * A stop issued while paused ends the loop: after `k` idle polls and a
   * stop, the loop exits with no frame read, counted, written or emitted.
   */
  lemma {:induction false} StopWhilePausedEndsLoop(s: Setting, h: LoopState, k: nat, rest: seq<Command>)
    requires h.running && h.current < s.cap.frameCount && h.paused
    ensures VideoLoop(s, h, Idle(k) + [Stop] + rest) == Outcome(h.(running := false), Stopped)
  {
    var cmds := Idle(k) + [Stop] + rest;
    if k == 0 {
      assert cmds[0] == Stop && cmds[1..] == rest;
    } else {
      assert cmds[0] == Keep && cmds[1..] == Idle(k - 1) + [Stop] + rest;
      StopWhilePausedEndsLoop(s, h, k - 1, rest);
    }
  }

  /**
   * Each GUI call changes only its own flag: `stop` clears `running`, `pause`
   * sets `_pause`, `resume` clears it, and none of them touches the counter,
   * `current_frame`, the written frames or the emitted events.
   */
  lemma PerformChangesOnlyItsFlag(h: LoopState, c: Command)
    ensures Perform(h, c).(running := h.running, paused := h.paused) == h
    ensures Perform(h, c).running == (h.running && c != Stop)
    ensures Perform(h, c).paused == (c == Pause || (h.paused && c != Resume))
  {
  }

  /** A stop, whatever the state, ends the loop at the next test with nothing more read, written or emitted. */
  lemma StopEndsLoop(s: Setting, h: LoopState, cmds: seq<Command>)
    ensures VideoLoop(s, Perform(h, Stop), cmds) == Outcome(h.(running := false), Stopped)
  {
  }

  /** `resume` clears exactly the flag `pause` set: pausing then resuming restores the state. */
  lemma ResumeUndoesPause(h: LoopState)
    requires !h.paused
    ensures Perform(h, Pause).paused && Perform(h, Pause).running == h.running
    ensures Perform(Perform(h, Pause), Resume) == h
  {
  }

  /** The GUI does nothing at any of these polls. */
  ghost predicate AllKeep(cmds: seq<Command>) {
    forall i :: 0 <= i < |cmds| ==> cmds[i] == Keep
  }

  /**
   * Every frame from `from` up to the frame count is in the file, the
   * detector accepts it, and, when recording, the writer takes its annotation.
   */
  ghost predicate CleanFrom(s: Setting, from: int) {
    forall i :: from <= i < s.cap.frameCount ==> CleanAt(s, i)
  }

  /** Frame `i` is in the file, the detector accepts it, and, when recording, the writer takes its annotation. */
  ghost predicate CleanAt(s: Setting, i: int) {
    && 0 <= i < |s.cap.frames|
    && s.detect(s.cap.frames[i], s.conf).Some?
    && !(s.recording && s.writeFails(s.detect(s.cap.frames[i], s.conf).value))
  }

  /** A clean stretch from one frame is clean from the next frame on. */
  lemma CleanFromNext(s: Setting, from: int)
    requires CleanFrom(s, from)
    ensures CleanFrom(s, from + 1)
  {
  }

  /**
   * Left alone, the loop runs to the end of a clean file: from a running,
   * unpaused state, with a non-zero frame rate and every remaining frame
   * detecting and writing cleanly, polls at which the GUI does nothing lead
   * to `Completed` with the counter at the frame count (or where it already
   * was, past it), the flags unchanged.
   */
  lemma {:induction false} CleanRunCompletes(s: Setting, h: LoopState, cmds: seq<Command>)
    requires h.running && !h.paused && s.cap.fps != 0.0
    requires CleanFrom(s, h.current) && AllKeep(cmds)
    ensures var o := VideoLoop(s, h, cmds);
      && o.exit == Completed && o.state.running && !o.state.paused
      && o.state.current == (if h.current < s.cap.frameCount then s.cap.frameCount else h.current)
    decreases Remaining(s.cap.frameCount, h.current)
  {
    if h.current < s.cap.frameCount {
      var i := h.current;
      assert CleanAt(s, i);
      var step := FrameOutcome(s, h);
      assert step.failure.None? && step.state.current == i + 1;
      CleanFromNext(s, i);
      assert Act(step.state, cmds) == step.state;
      var rest := Later(cmds);
      assert AllKeep(rest) by {
        forall j | 0 <= j < |rest| ensures rest[j] == Keep {
          assert rest[j] == cmds[j + 1];
        }
      }
      assert VideoLoop(s, h, cmds) == VideoLoop(s, step.state, rest);
      CleanRunCompletes(s, step.state, rest);
    }
  }

  // ---- properties of a whole run ----

  /**
   * A capture that does not open yields `finished` once and nothing else; a
   * failing `os.makedirs` ends `run` with nothing released and no `finished`;
   * every other exit except an endless pause releases the capture once,
   * releases the writer once if there is one, and emits `finished` once. When
   * recording, the writer is the one named after the input and the clock.
   */
  lemma RunReleasesOnEveryExit(cfg: VideoConfig, t: ThreadState, cap: Capture, env: Env)
    ensures var res := RunSpec(cfg, t, cap, env);
      var t', e := res.state, res.exit;
      && (e == NotOpened <==> !cap.isOpened)
      && (e == NotOpened ==> t' == t.(finishedEmits := t.finishedEmits + 1))
      && (e == DirFailed <==> cap.isOpened && cfg.saveVideo && !env.dirOk)
      && (e == DirFailed ==> t' == t)
      && (e !in {NotOpened, DirFailed, StillPaused} ==>
            && t'.finishedEmits == t.finishedEmits + 1
            && t'.captureReleases == t.captureReleases + 1
            && t'.writerReleases == t.writerReleases + (if t'.videoWriter.Some? then 1 else 0))
      && (e == StillPaused ==>
            t'.finishedEmits == t.finishedEmits && t'.captureReleases == t.captureReleases && t'.paused)
      && (cfg.saveVideo && e !in {NotOpened, DirFailed} ==>
            t'.videoWriter == Some(RecordingWriter(cfg, cap, env.now)))
      && (!cfg.saveVideo ==> t'.videoWriter == t.videoWriter)
  {
    if cap.isOpened && !(cfg.saveVideo && !env.dirOk) {
      VideoLoopExits(LoopSetting(cfg, cap, env), Act(LoopStart(cfg, t), env.commands), Later(env.commands));
    }
  }

  /** The `i`-th of a run of events starting at frame `start` is the event for frame `start + i`. */
  lemma {:induction false} EventsFromAt(s: Setting, start: int, evs: seq<FrameEvent>, i: nat)
    requires EventsFrom(s, start, evs) && i < |evs|
    ensures IsEventFor(s, start + i, evs[i]) && FramesOf(evs)[i] == evs[i].frame
    decreases i
  {
    if i > 0 {
      EventsFromAt(s, start + 1, evs[1..], i - 1);
    }
  }

  /**
   * The part of a run that is its loop: the run keeps what the loop emitted
   * and wrote, starting from the thread's events and, when recording, from an
   * empty file.
   */
  lemma RunExtendsThread(cfg: VideoConfig, t: ThreadState, cap: Capture, env: Env)
    requires cap.isOpened && (cfg.saveVideo ==> env.dirOk)
    ensures var s, o := LoopSetting(cfg, cap, env), LoopRun(cfg, t, cap, env);
      && Extends(s, LoopStart(cfg, t), o.state)
      && ExitExplained(s, LoopStart(cfg, t), o)
      && RunSpec(cfg, t, cap, env).state.emitted == o.state.emitted
      && RunSpec(cfg, t, cap, env).state.written == o.state.written
      && RunSpec(cfg, t, cap, env).exit == o.exit
  {
    var s, h0 := LoopSetting(cfg, cap, env), Act(LoopStart(cfg, t), env.commands);
    assert h0.current == 0 && h0.emitted == t.emitted && h0.written == LoopStart(cfg, t).written;
    VideoLoopEmitsInOrder(s, h0, Later(env.commands));
    VideoLoopExits(s, h0, Later(env.commands));
  }

  /** Events that extend from frame 0 are the events for frames 0, 1, 2, ... */
  lemma EventsFromZero(s: Setting, evs: seq<FrameEvent>)
    requires EventsFrom(s, 0, evs)
    ensures |evs| <= |s.cap.frames|
    ensures forall i :: 0 <= i < |evs| ==> IsEventFor(s, i, evs[i]) && FramesOf(evs)[i] == evs[i].frame
  {
    forall i | 0 <= i < |evs|
      ensures IsEventFor(s, i, evs[i]) && FramesOf(evs)[i] == evs[i].frame
    {
      EventsFromAt(s, 0, evs, i);
    }
    if |evs| > 0 {
      assert IsEventFor(s, |evs| - 1, evs[|evs| - 1]);
    }
  }

  /**
   * A run emits frame indices 0, 1, 2, ... with no gap or repeat, each the
   * annotation of that frame of the file and carrying the frame count, after
   * the events the thread had already emitted; it emits no more than the
   * frame count and no more than the file holds.
   */
  lemma RunEmitsConsecutiveFrames(cfg: VideoConfig, t: ThreadState, cap: Capture, env: Env)
    requires cap.isOpened && (cfg.saveVideo ==> env.dirOk)
    ensures var t' := RunSpec(cfg, t, cap, env).state;
      && t.emitted <= t'.emitted
      && var added := t'.emitted[|t.emitted|..];
      && |added| <= |cap.frames|
      && (|added| > 0 ==> |added| <= cap.frameCount)
      && forall i :: 0 <= i < |added| ==>
           && added[i].index == i && added[i].total == cap.frameCount
           && env.detect(cap.frames[i], cfg.confThreshold) == Some(added[i].frame)
  {
    RunExtendsThread(cfg, t, cap, env);
    var r := LoopRun(cfg, t, cap, env).state;
    EventsFromZero(LoopSetting(cfg, cap, env), r.emitted[|t.emitted|..]);
  }

  /**
   * When recording, the run's file holds exactly the frames it emitted, in
   * order; otherwise the run writes nothing.
   */
  lemma RunRecordsEmittedFrames(cfg: VideoConfig, t: ThreadState, cap: Capture, env: Env)
    requires cap.isOpened && (cfg.saveVideo ==> env.dirOk)
    ensures var t' := RunSpec(cfg, t, cap, env).state;
      && |t.emitted| <= |t'.emitted|
      && var added := t'.emitted[|t.emitted|..];
      && (cfg.saveVideo ==> |t'.written| == |added| && forall i :: 0 <= i < |added| ==> t'.written[i] == added[i].frame)
      && (!cfg.saveVideo ==> t'.written == t.written)
  {
    RunExtendsThread(cfg, t, cap, env);
    var r := LoopRun(cfg, t, cap, env).state;
    var added := r.emitted[|t.emitted|..];
    EventsFromZero(LoopSetting(cfg, cap, env), added);
    if cfg.saveVideo {
      assert r.written == FramesOf(added);
    } else {
      assert r.written == t.written;
    }
  }

  /**
   * How many frames a run emitted, by exit: all of them when it ran to the
   * frame count, all the file held when a read came back empty, and up to
   * the frame the detector failed on when detection raised.
   */
  lemma RunEmittedCountAtExit(cfg: VideoConfig, t: ThreadState, cap: Capture, env: Env)
    requires cap.isOpened && (cfg.saveVideo ==> env.dirOk)
    ensures var res := RunSpec(cfg, t, cap, env);
      && |t.emitted| <= |res.state.emitted|
      && var n := |res.state.emitted| - |t.emitted|;
      && (res.exit == Completed ==> n == if cap.frameCount > 0 then cap.frameCount else 0)
      && (res.exit == ShortRead ==> n == |cap.frames|)
      && (res.exit == DetectFailed ==> n < |cap.frames| && env.detect(cap.frames[n], cfg.confThreshold).None?)
  {
    RunExtendsThread(cfg, t, cap, env);
    var r := LoopRun(cfg, t, cap, env).state;
    var added := r.emitted[|t.emitted|..];
    EventsFromZero(LoopSetting(cfg, cap, env), added);
    assert |r.emitted| - |t.emitted| == |added| == r.current;
    match LoopRun(cfg, t, cap, env).exit
    case Completed =>
      assert r.current >= cap.frameCount && (r.current > 0 ==> r.current <= cap.frameCount);
    case ShortRead =>
      assert |cap.frames| <= r.current;
    case _ =>
  }

  /**
   * A run over a clean file that the GUI leaves alone: the capture opens, set
   * up succeeds, the thread starts running and unpaused, the rate is not 0
   * and every frame up to the frame count detects and writes cleanly. Then the
   * run completes, emits one event for each frame 0, 1, ... up to the frame
   * count and no more, releases the capture once and emits `finished` once.
   */
  lemma CleanRunEmitsEveryFrame(cfg: VideoConfig, t: ThreadState, cap: Capture, env: Env)
    requires cap.isOpened && (cfg.saveVideo ==> env.dirOk)
    requires t.running && !t.paused && cap.fps != 0.0 && AllKeep(env.commands)
    requires CleanFrom(LoopSetting(cfg, cap, env), 0)
    ensures var res := RunSpec(cfg, t, cap, env);
      && res.exit == Completed
      && |t.emitted| <= |res.state.emitted|
      && var added := res.state.emitted[|t.emitted|..];
      && |added| == (if cap.frameCount > 0 then cap.frameCount else 0) && |added| <= |cap.frames|
      && (forall i :: 0 <= i < |added| ==>
            && added[i].index == i && added[i].total == cap.frameCount
            && env.detect(cap.frames[i], cfg.confThreshold) == Some(added[i].frame))
      && res.state.finishedEmits == t.finishedEmits + 1
      && res.state.captureReleases == t.captureReleases + 1
  {
    var s, h0 := LoopSetting(cfg, cap, env), LoopStart(cfg, t);
    var cmds := env.commands;
    assert Act(h0, cmds) == h0;
    var rest := Later(cmds);
    assert AllKeep(rest) by {
      forall j | 0 <= j < |rest| ensures rest[j] == Keep {
        assert rest[j] == cmds[j + 1];
      }
    }
    CleanRunCompletes(s, h0, rest);
    RunEmitsConsecutiveFrames(cfg, t, cap, env);
    RunEmittedCountAtExit(cfg, t, cap, env);
    RunReleasesOnEveryExit(cfg, t, cap, env);
  }

  // ---- the thread ----

  class VideoThread {
    const videoPath: string
    const saveVideo: bool
    const confThreshold: real
    const outputDir: string

    var running: bool
    /** `self._pause` */
    var paused: bool
    /** `self.current_frame`: the last annotated frame. */
    var currentFrame: Option<Frame>
    var videoWriter: Option<Writer>

    /** Frames the current writer has been given. */
    var written: seq<Frame>
    /** `frame_processed` emissions, in order. */
    var emitted: seq<FrameEvent>
    /** `finished` emissions. */
    var finishedEmits: nat
    var captureReleases: nat
    var writerReleases: nat

    function Config(): VideoConfig {
      VideoConfig(videoPath, saveVideo, confThreshold, outputDir)
    }

    function State(): ThreadState
      reads this
    {
      ThreadState(running, paused, currentFrame, videoWriter, written, emitted, finishedEmits, captureReleases, writerReleases)
    }

    /** The loop state at a test of the loop condition, with the local counter `current`. */
    function Head(current: nat): LoopState
      reads this
    {
      LoopState(running, paused, current, currentFrame, written, emitted)
    }

    constructor (videoPath: string, saveVideo: bool, confThreshold: real, outputDir: string)
      ensures Config() == VideoConfig(videoPath, saveVideo, confThreshold, outputDir)
      ensures State() == ThreadState(true, false, None, None, [], [], 0, 0, 0)
    {
      this.videoPath := videoPath;
      this.saveVideo := saveVideo;
      this.confThreshold := confThreshold;
      this.outputDir := outputDir;
      running := true;
      paused := false;
      currentFrame := None;
      videoWriter := None;
      written := [];
      emitted := [];
      finishedEmits := 0;
      captureReleases := 0;
      writerReleases := 0;
    }

    method Stop()
      modifies this`running
      ensures !running
    {
      running := false;
    }

    method Pause()
      modifies this`paused
      ensures paused
    {
      paused := true;
    }

    method Resume()
      modifies this`paused
      ensures !paused
    {
      paused := false;
    }

    /** The GUI thread performs its next command, if one is left. */
    method Environment(cmds: seq<Command>) returns (rest: seq<Command>)
      modifies this`running, this`paused
      ensures Head(0) == Act(old(Head(0)), cmds) && rest == Later(cmds)
    {
      if cmds == [] {
        return [];
      }
      match cmds[0] {
        case Keep =>
        case Stop => Stop();
        case Pause => Pause();
        case Resume => Resume();
      }
      rest := cmds[1..];
    }

    /** The try block of `run`'s loop, for the frame at the counter. */
    method TryBlock(s: Setting, current: nat) returns (current': nat, failure: Option<Exit>)
      requires s.recording == saveVideo && current < |s.cap.frames|
      requires saveVideo ==> videoWriter.Some?
      modifies this`currentFrame, this`written, this`emitted
      ensures Step(Head(current'), failure) == FrameOutcome(s, old(Head(current)))
    {
      current' := current;
      var frame := s.cap.frames[current];
      var result := s.detect(frame, s.conf);
      if result.None? {
        return current', Some(DetectFailed);
      }
      var annotated := result.value;
      currentFrame := Some(annotated);
      if saveVideo && videoWriter.Some? {
        if s.writeFails(annotated) {
          return current', Some(WriteFailed);
        }
        written := written + [annotated];
      }
      emitted := emitted + [FrameEvent(annotated, current, s.cap.frameCount)];
      current' := current + 1;
      // `delay = max(1, int(1000 / fps) - 10)`: for a real fps, raises only when it is 0
      failure := if s.cap.fps == 0.0 then Some(PacingFailed) else None;
    }

    /** The loop of `run`, from the first test of its condition. */
    method Loop(s: Setting, cmds0: seq<Command>) returns (current: nat, exit: Exit)
      requires s.recording == saveVideo && (saveVideo ==> videoWriter.Some?)
      modifies this`running, this`paused, this`currentFrame, this`written, this`emitted
      ensures Outcome(Head(current), exit) == VideoLoop(s, old(Head(0)), cmds0)
    {
      current := 0;
      var cmds := cmds0;
      exit := Completed;
      while true
        invariant VideoLoop(s, Head(current), cmds) == VideoLoop(s, old(Head(0)), cmds0)
        decreases |cmds| + Remaining(s.cap.frameCount, current)
      {
        if !(running && current < s.cap.frameCount) {
          exit := if running then Completed else Stopped;
          break;
        }
        if paused {
          if cmds == [] {
            exit := StillPaused;
            break;
          }
          cmds := Environment(cmds);
          continue;
        }
        if current >= |s.cap.frames| {
          exit := ShortRead;
          break;
        }
        var failure;
        current, failure := TryBlock(s, current);
        if failure.Some? {
          exit := failure.value;
          break;
        }
        cmds := Environment(cmds);
      }
    }

    /** `run`. */
    method Run(cap: Capture, env: Env) returns (exit: Exit)
      modifies this
      ensures RunResult(State(), exit) == RunSpec(Config(), old(State()), cap, env)
    {
      if !cap.isOpened {
        finishedEmits := finishedEmits + 1;
        return NotOpened;
      }
      if saveVideo && !env.dirOk {
        return DirFailed;
      }
      var writer := RecordingWriter(Config(), cap, env.now);
      RunSpecPastSetup(Config(), State(), cap, env);
      exit := Process(cap, env, writer);
    }

    /** `run` past its two early returns, with the writer it records into: set up, loop, tear down. */
    method Process(cap: Capture, env: Env, writer: Writer) returns (exit: Exit)
      modifies this
      ensures var w := if saveVideo then Some(writer) else old(videoWriter);
              RunResult(State(), exit) == Teardown(old(State()), w, LoopRun(Config(), old(State()), cap, env))
    {
      ghost var t := old(State());
      if saveVideo {
        StartRecording(writer);
      }
      assert Head(0) == LoopStart(Config(), t);
      var current;
      current, exit := Session(LoopSetting(Config(), cap, env), env.commands);
      if exit == StillPaused {
        return;
      }
      Release();
    }

    /** The GUI's first chance to act, then the loop. */
    method Session(s: Setting, cmds: seq<Command>) returns (current: nat, exit: Exit)
      requires s.recording == saveVideo && (saveVideo ==> videoWriter.Some?)
      modifies this`running, this`paused, this`currentFrame, this`written, this`emitted
      ensures Outcome(Head(current), exit) == VideoLoop(s, Act(old(Head(0)), cmds), Later(cmds))
    {
      var rest := Environment(cmds);
      current, exit := Loop(s, rest);
    }

    /** `cv2.VideoWriter(...)`: the new writer, with an empty file. */
    method StartRecording(writer: Writer)
      modifies this`videoWriter, this`written
      ensures videoWriter == Some(writer) && written == []
    {
      videoWriter := Some(writer);
      written := [];
    }

    /** The tail of `run` after the loop: release the capture, release the writer if there is one, emit `finished`. */
    method Release()
      modifies this`captureReleases, this`writerReleases, this`finishedEmits
      ensures captureReleases == old(captureReleases) + 1
      ensures writerReleases == old(writerReleases) + (if videoWriter.Some? then 1 else 0)
      ensures finishedEmits == old(finishedEmits) + 1
    {
      captureReleases := captureReleases + 1;
      if videoWriter.Some? {
        writerReleases := writerReleases + 1;
      }
      finishedEmits := finishedEmits + 1;
    }
  }
}
