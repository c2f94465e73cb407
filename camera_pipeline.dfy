/**
 * `CameraThread` of app.py: the live-camera counterpart of the file thread.
 * Its loop has no frame bound and ends only when `running` is cleared or a
 * read fails; a non-positive reported frame rate is replaced by a default;
 * the writer is set up before the loop and is left `None` when that fails;
 * and the detector call is not inside a `try`, so an exception there ends
 * `run` without releasing anything.
 */
module CameraPipeline {
  import opened Wrappers
  import opened FramePipeline
  import Naming

  /** The frame rate recorded when the camera reports none. */
  const DefaultFps: real := 20.0

  /** `fps = cap.get(CAP_PROP_FPS)`, replaced by the default when not positive. */
  function EffectiveFps(reported: real): (fps: real)
    ensures fps > 0.0
    ensures reported > 0.0 ==> fps == reported
    ensures reported <= 0.0 ==> fps == DefaultFps
  {
    if reported <= 0.0 then DefaultFps else reported
  }

  /** Why `run` ended: a failed read, a cleared `running`, or an exception escaping `run`. */
  datatype CameraExit = ReadFailed | Stopped | Crashed

  /**
   * What the outside world does during one `run`: the detector, whether a
   * `write` raises, whether the `try` block of `initialize_video_writer`
   * (making the directory, reading the size, opening the writer) completes
   * without raising, the clock read for the
   * file name (`int(time.time())`) and for the start of recording
   * (`time.time()`), and, before each test of `while self.running`, whether
   * the GUI thread calls `stop()`.
   */
  datatype CameraEnv = CameraEnv(
    detect: Detector,
    writeFails: Frame -> bool,
    setupOk: bool,
    now: nat,
    clock: real,
    stops: seq<bool>)

  /** The constructor's arguments that `run` uses. */
  datatype CameraConfig = CameraConfig(saveVideo: bool, confThreshold: real, outputDir: string)

  /** The thread's fields, with the frames given to the writer and the frames emitted. */
  datatype CameraState = CameraState(
    running: bool,
    videoWriter: Option<Writer>,
    recordingStartTime: Option<real>,
    written: seq<Frame>,
    emitted: seq<Frame>,
    captureReleases: nat,
    writerReleases: nat)

  /** What the loop reads but never changes. */
  datatype CameraSetting = CameraSetting(frames: seq<Frame>, detect: Detector, writeFails: Frame -> bool, conf: real, recording: bool)

  /**
   * The loop's state at a test of `while self.running`; `next` is the index of
   * the frame the next `read` returns.
   */
  datatype CameraLoopState = CameraLoopState(
    running: bool,
    writer: Option<Writer>,
    next: nat,
    written: seq<Frame>,
    emitted: seq<Frame>,
    writerReleases: nat)

  datatype CameraOutcome = CameraOutcome(state: CameraLoopState, exit: CameraExit)

  datatype CameraRunResult = CameraRunResult(state: CameraState, exit: CameraExit)

  /** `stop()`: clear `running` and release the writer if there is one. */
  function Stopping(h: CameraLoopState): CameraLoopState {
    h.(running := false, writerReleases := h.writerReleases + if h.writer.Some? then 1 else 0)
  }

  /** The GUI thread's chance to call `stop()` before a test. */
  function Poll(h: CameraLoopState, stops: seq<bool>): CameraLoopState {
    if stops != [] && stops[0] then Stopping(h) else h
  }

  /** The stop requests left after a poll. */
  function LaterStops(stops: seq<bool>): seq<bool> {
    if stops == [] then [] else stops[1..]
  }

  /** `self.save_video and self.video_writer is not None`: whether the loop writes. */
  predicate Writes(s: CameraSetting, h: CameraLoopState) {
    s.recording && h.writer.Some?
  }

  /**
   * The loop of `run`: read, detect and plot, write when recording with a
   * writer, emit, then let the GUI act. Nothing catches an exception from the
   * detector or the writer.
   */
  function CameraLoop(s: CameraSetting, h: CameraLoopState, stops: seq<bool>): CameraOutcome
    decreases Remaining(|s.frames|, h.next)
  {
    if !h.running then CameraOutcome(h, Stopped)
    else if h.next >= |s.frames| then CameraOutcome(h, ReadFailed)
    else
      match s.detect(s.frames[h.next], s.conf)
      case None => CameraOutcome(h, Crashed)
      case Some(annotated) =>
        if Writes(s, h) && s.writeFails(annotated) then CameraOutcome(h, Crashed)
        else
          var h' := h.(next := h.next + 1,
                       written := if Writes(s, h) then h.written + [annotated] else h.written,
                       emitted := h.emitted + [annotated]);
          CameraLoop(s, Poll(h', stops), LaterStops(stops))
  }

  /** The writer `initialize_video_writer` constructs. */
  function CameraWriter(cfg: CameraConfig, cap: Capture, now: nat): Writer {
    Writer(Naming.Join(cfg.outputDir, Naming.CameraRecordingName(now)), EffectiveFps(cap.fps), cap.width, cap.height)
  }

  /**
   * `initialize_video_writer`: when its `try` block completes, a new writer
   * with an empty file and the start of recording; when it raises, the
   * writer is `None` and nothing else changes.
   */
  function InitializeWriter(cfg: CameraConfig, t: CameraState, cap: Capture, env: CameraEnv): CameraState {
    if env.setupOk then
      t.(videoWriter := Some(CameraWriter(cfg, cap, env.now)), recordingStartTime := Some(env.clock), written := [])
    else t.(videoWriter := None)
  }

  /** The thread before its loop: the writer set up when recording. */
  function Setup(cfg: CameraConfig, t: CameraState, cap: Capture, env: CameraEnv): CameraState {
    if cfg.saveVideo then InitializeWriter(cfg, t, cap, env) else t
  }

  /** A capture that did not open fails its first read. */
  function CameraFrames(cap: Capture): seq<Frame> {
    if cap.isOpened then cap.frames else []
  }

  function CameraLoopSetting(cfg: CameraConfig, cap: Capture, env: CameraEnv): CameraSetting {
    CameraSetting(CameraFrames(cap), env.detect, env.writeFails, cfg.confThreshold, cfg.saveVideo)
  }

  function CameraLoopStart(t: CameraState): CameraLoopState {
    CameraLoopState(t.running, t.videoWriter, 0, t.written, t.emitted, t.writerReleases)
  }

  /** The loop of `run`, entered after the GUI's first chance to stop the thread. */
  function CameraLoopRun(cfg: CameraConfig, t: CameraState, cap: Capture, env: CameraEnv): CameraOutcome {
    var t1 := Setup(cfg, t, cap, env);
    CameraLoop(CameraLoopSetting(cfg, cap, env), Poll(CameraLoopStart(t1), env.stops), LaterStops(env.stops))
  }

  /**
   * The whole of `run`: set up, loop, then release the capture and the writer
   * if there is one, unless an exception escaped the loop.
   */
  function CameraRunSpec(cfg: CameraConfig, t: CameraState, cap: Capture, env: CameraEnv): CameraRunResult {
    CameraFinish(Setup(cfg, t, cap, env), CameraLoopRun(cfg, t, cap, env))
  }

  /**
   * The thread after its loop ended with `o`, from the state `t1` it entered
   * the loop in: what the loop changed, then the releases of the tail of
   * `run` unless an exception escaped the loop.
   */
  function CameraFinish(t1: CameraState, o: CameraOutcome): CameraRunResult {
    var t2 := t1.(running := o.state.running, written := o.state.written, emitted := o.state.emitted,
                  writerReleases := o.state.writerReleases);
    if o.exit == Crashed then CameraRunResult(t2, Crashed)
    else CameraRunResult(t2.(captureReleases := t2.captureReleases + 1,
                             writerReleases := t2.writerReleases + if t2.videoWriter.Some? then 1 else 0), o.exit)
  }

  // ---- properties of the loop ----

  /** `out` are the annotations of the frames `start`, `start + 1`, ... in order. */
  ghost predicate AnnotatedFrom(s: CameraSetting, start: int, out: seq<Frame>)
    decreases |out|
  {
    out == [] ||
    (0 <= start < |s.frames| && s.detect(s.frames[start], s.conf) == Some(out[0]) && AnnotatedFrom(s, start + 1, out[1..]))
  }

  /**
   * From `h` to `r` the loop kept its writer, emitted the annotations of the
   * frames from `h.next` on, one per read, and gave the writer exactly those
   * when it writes (nothing otherwise).
   */
  ghost predicate Extends(s: CameraSetting, h: CameraLoopState, r: CameraLoopState) {
    AnnotatesFrom(s, h, r) && WritesAnnotated(s, h, r)
  }

  /** From `h` to `r` the loop kept its writer and emitted the annotations of the frames from `h.next` on. */
  ghost predicate AnnotatesFrom(s: CameraSetting, h: CameraLoopState, r: CameraLoopState) {
    && h.next <= r.next
    && r.writer == h.writer
    && |h.emitted| <= |r.emitted|
    && var added := r.emitted[|h.emitted|..];
       && r.emitted == h.emitted + added
       && |added| == r.next - h.next
       && AnnotatedFrom(s, h.next, added)
  }

  /** From `h` to `r` the loop wrote exactly what it emitted when it writes, nothing otherwise. */
  ghost predicate WritesAnnotated(s: CameraSetting, h: CameraLoopState, r: CameraLoopState) {
    && |h.emitted| <= |r.emitted|
    && r.written == h.written + (if Writes(s, h) then r.emitted[|h.emitted|..] else [])
  }

  /** Why the loop ended, read off the state it ended in. */
  ghost predicate ExitReason(s: CameraSetting, o: CameraOutcome) {
    var r, e := o.state, o.exit;
    && (e == Stopped ==> !r.running)
    && (e == ReadFailed ==> r.running && |s.frames| <= r.next)
    && (e == Crashed ==>
          && r.running && r.next < |s.frames|
          && (s.detect(s.frames[r.next], s.conf).None? ||
              (Writes(s, r) && s.writeFails(s.detect(s.frames[r.next], s.conf).value))))
  }

  /** How often `stop()` released the writer between `h` and the loop's end. */
  ghost predicate StopReleases(h: CameraLoopState, o: CameraOutcome) {
    o.state.writerReleases
      == h.writerReleases + (if o.exit == Stopped && h.running && h.writer.Some? then 1 else 0)
  }

  /** How each exit leaves the loop, and how often `stop()` released the writer. */
  ghost predicate ExitExplained(s: CameraSetting, h: CameraLoopState, o: CameraOutcome) {
    ExitReason(s, o) && StopReleases(h, o)
  }

  /** A loop that ends where it is has extended by nothing. */
  lemma ExtendsNothing(s: CameraSetting, h: CameraLoopState)
    ensures Extends(s, h, h)
  {
    assert h.emitted[|h.emitted|..] == [];
  }

  /** One emitted frame followed by an extension is an extension. */
  lemma ExtendsStep(s: CameraSetting, h: CameraLoopState, h2: CameraLoopState, r: CameraLoopState)
    requires h.next < |s.frames| && s.detect(s.frames[h.next], s.conf).Some?
    requires var a := s.detect(s.frames[h.next], s.conf).value;
      && h2.next == h.next + 1 && h2.writer == h.writer
      && h2.emitted == h.emitted + [a]
      && h2.written == (if Writes(s, h) then h.written + [a] else h.written)
    requires Extends(s, h2, r)
    ensures Extends(s, h, r)
  {
    var a := s.detect(s.frames[h.next], s.conf).value;
    AnnotatesStep(s, h, h2, r, a);
    WritesAnnotatedStep(s, h, h2, r, a);
  }

  /** The emitting half of `ExtendsStep`. */
  lemma AnnotatesStep(s: CameraSetting, h: CameraLoopState, h2: CameraLoopState, r: CameraLoopState, a: Frame)
    requires h.next < |s.frames| && s.detect(s.frames[h.next], s.conf) == Some(a)
    requires h2.next == h.next + 1 && h2.writer == h.writer && h2.emitted == h.emitted + [a]
    requires AnnotatesFrom(s, h2, r)
    ensures AnnotatesFrom(s, h, r)
  {
    var rest := r.emitted[|h2.emitted|..];
    assert r.emitted == h.emitted + ([a] + rest);
    AppendedAfter(h.emitted, [a] + rest, r.emitted);
    assert ([a] + rest)[1..] == rest;
  }

  /** The writing half of `ExtendsStep`. */
  lemma WritesAnnotatedStep(s: CameraSetting, h: CameraLoopState, h2: CameraLoopState, r: CameraLoopState, a: Frame)
    requires h2.writer == h.writer && h2.emitted == h.emitted + [a]
    requires h2.written == (if Writes(s, h) then h.written + [a] else h.written)
    requires AnnotatesFrom(s, h2, r) && WritesAnnotated(s, h2, r)
    ensures WritesAnnotated(s, h, r)
  {
    var rest := r.emitted[|h2.emitted|..];
    assert r.emitted == h.emitted + ([a] + rest);
    AppendedAfter(h.emitted, [a] + rest, r.emitted);
  }

  /**
   * Whatever the GUI does, the loop emits the annotations of consecutive
   * frames, one per successful read, and writes exactly what it emits when
   * it writes.
   */
  lemma {:induction false} CameraLoopEmitsInOrder(s: CameraSetting, h: CameraLoopState, stops: seq<bool>)
    ensures Extends(s, h, CameraLoop(s, h, stops).state)
    decreases Remaining(|s.frames|, h.next)
  {
    if !h.running || h.next >= |s.frames| || s.detect(s.frames[h.next], s.conf).None? {
      ExtendsNothing(s, h);
    } else {
      var a := s.detect(s.frames[h.next], s.conf).value;
      if Writes(s, h) && s.writeFails(a) {
        ExtendsNothing(s, h);
      } else {
        var h2 := h.(next := h.next + 1,
                     written := if Writes(s, h) then h.written + [a] else h.written,
                     emitted := h.emitted + [a]);
        CameraLoopEmitsInOrder(s, Poll(h2, stops), LaterStops(stops));
        ExtendsStep(s, h, Poll(h2, stops), CameraLoop(s, Poll(h2, stops), LaterStops(stops)).state);
      }
    }
  }

  /** Each exit of the loop happens for its stated reason, and `stop()` releases the writer once. */
  lemma CameraLoopExits(s: CameraSetting, h: CameraLoopState, stops: seq<bool>)
    ensures ExitExplained(s, h, CameraLoop(s, h, stops))
  {
    CameraLoopExitReason(s, h, stops);
    CameraLoopStopReleases(s, h, stops);
  }

  /** The exit-reason half of `CameraLoopExits`. */
  lemma {:induction false} CameraLoopExitReason(s: CameraSetting, h: CameraLoopState, stops: seq<bool>)
    ensures ExitReason(s, CameraLoop(s, h, stops))
    decreases Remaining(|s.frames|, h.next)
  {
    if h.running && h.next < |s.frames| && s.detect(s.frames[h.next], s.conf).Some? {
      var a := s.detect(s.frames[h.next], s.conf).value;
      if !(Writes(s, h) && s.writeFails(a)) {
        var h2 := h.(next := h.next + 1,
                     written := if Writes(s, h) then h.written + [a] else h.written,
                     emitted := h.emitted + [a]);
        CameraLoopExitReason(s, Poll(h2, stops), LaterStops(stops));
      }
    }
  }

  /** The release-count half of `CameraLoopExits`. */
  lemma {:induction false} CameraLoopStopReleases(s: CameraSetting, h: CameraLoopState, stops: seq<bool>)
    ensures StopReleases(h, CameraLoop(s, h, stops))
    decreases Remaining(|s.frames|, h.next)
  {
    if h.running && h.next < |s.frames| && s.detect(s.frames[h.next], s.conf).Some? {
      var a := s.detect(s.frames[h.next], s.conf).value;
      if !(Writes(s, h) && s.writeFails(a)) {
        var h2 := h.(next := h.next + 1,
                     written := if Writes(s, h) then h.written + [a] else h.written,
                     emitted := h.emitted + [a]);
        CameraLoopStopReleases(s, Poll(h2, stops), LaterStops(stops));
      }
    }
  }

  /** Events that extend from frame 0 are the annotations of frames 0, 1, 2, ... */
  lemma {:induction false} AnnotatedFromAt(s: CameraSetting, start: int, out: seq<Frame>, i: nat)
    requires AnnotatedFrom(s, start, out) && i < |out|
    ensures 0 <= start + i < |s.frames| && s.detect(s.frames[start + i], s.conf) == Some(out[i])
    decreases i
  {
    if i > 0 {
      AnnotatedFromAt(s, start + 1, out[1..], i - 1);
    }
  }

  /** The annotations of a prefix of the frames, from frame 0. */
  lemma AnnotatedFromZero(s: CameraSetting, out: seq<Frame>)
    requires AnnotatedFrom(s, 0, out)
    ensures |out| <= |s.frames|
    ensures forall i :: 0 <= i < |out| ==> s.detect(s.frames[i], s.conf) == Some(out[i])
  {
    if |out| > 0 {
      AnnotatedFromAt(s, 0, out, |out| - 1);
    }
    forall i | 0 <= i < |out|
      ensures s.detect(s.frames[i], s.conf) == Some(out[i])
    {
      AnnotatedFromAt(s, 0, out, i);
    }
  }

  // ---- properties of a whole run ----

  /** The part of a run that is its loop. */
  lemma CameraRunExtendsThread(cfg: CameraConfig, t: CameraState, cap: Capture, env: CameraEnv)
    ensures var s, t1, o := CameraLoopSetting(cfg, cap, env), Setup(cfg, t, cap, env), CameraLoopRun(cfg, t, cap, env);
      && Extends(s, CameraLoopStart(t1), o.state)
      && ExitExplained(s, Poll(CameraLoopStart(t1), env.stops), o)
      && CameraRunSpec(cfg, t, cap, env).state.emitted == o.state.emitted
      && CameraRunSpec(cfg, t, cap, env).state.written == o.state.written
      && CameraRunSpec(cfg, t, cap, env).exit == o.exit
  {
    var s, h0 := CameraLoopSetting(cfg, cap, env), Poll(CameraLoopStart(Setup(cfg, t, cap, env)), env.stops);
    assert h0.next == 0 && h0.writer == Setup(cfg, t, cap, env).videoWriter;
    assert h0.emitted == Setup(cfg, t, cap, env).emitted && h0.written == Setup(cfg, t, cap, env).written;
    CameraLoopEmitsInOrder(s, h0, LaterStops(env.stops));
    CameraLoopExits(s, h0, LaterStops(env.stops));
  }

  /**
   * A camera run emits the annotations of the camera's frames 0, 1, 2, ...
   * in order, after what the thread had already emitted; when recording with
   * a writer set up, the file holds exactly those frames; a read that fails
   * ends the run after every frame the camera delivered, and a camera that
   * did not open yields none.
   */
  lemma CameraRunEmitsAnnotatedFrames(cfg: CameraConfig, t: CameraState, cap: Capture, env: CameraEnv)
    ensures var res := CameraRunSpec(cfg, t, cap, env);
      && t.emitted <= res.state.emitted
      && var added := res.state.emitted[|t.emitted|..];
      && |added| <= |CameraFrames(cap)|
      && (forall i :: 0 <= i < |added| ==> env.detect(cap.frames[i], cfg.confThreshold) == Some(added[i]))
      && (res.exit == ReadFailed ==> |added| == |CameraFrames(cap)|)
      && (!cap.isOpened ==> added == [])
  {
    CameraRunExtendsThread(cfg, t, cap, env);
    var s, r := CameraLoopSetting(cfg, cap, env), CameraLoopRun(cfg, t, cap, env).state;
    AnnotatedFromZero(s, r.emitted[|t.emitted|..]);
  }

  /**
   * Recording: when the writer is set up, every emitted frame was written
   * first, so the file holds exactly the emitted frames; when setting it up
   * fails, the writer is `None` and no frame is written; without recording
   * the writer field is untouched and nothing is written.
   */
  lemma CameraRunRecordsEmittedFrames(cfg: CameraConfig, t: CameraState, cap: Capture, env: CameraEnv)
    ensures var res := CameraRunSpec(cfg, t, cap, env);
      && |t.emitted| <= |res.state.emitted|
      && (cfg.saveVideo && env.setupOk ==>
            && res.state.videoWriter == Some(CameraWriter(cfg, cap, env.now))
            && res.state.recordingStartTime == Some(env.clock)
            && res.state.written == res.state.emitted[|t.emitted|..])
      && (cfg.saveVideo && !env.setupOk ==> res.state.videoWriter.None? && res.state.written == t.written)
      && (!cfg.saveVideo ==> res.state.videoWriter == t.videoWriter && res.state.written == t.written)
  {
    CameraRunExtendsThread(cfg, t, cap, env);
  }

  /**
   * Only a failed read or a stop releases anything: the capture once, and the
   * writer once at the end plus once more if `stop()` released it during the
   * loop; an exception from the detector or the writer escapes `run` and
   * releases neither.
   */
  lemma CameraRunReleases(cfg: CameraConfig, t: CameraState, cap: Capture, env: CameraEnv)
    ensures var res, t1 := CameraRunSpec(cfg, t, cap, env), Setup(cfg, t, cap, env);
      var w := if t1.videoWriter.Some? then 1 else 0;
      && res.state.videoWriter == t1.videoWriter
      && (res.exit == Crashed ==>
            res.state.captureReleases == t.captureReleases && res.state.writerReleases == t.writerReleases)
      && (res.exit != Crashed ==> res.state.captureReleases == t.captureReleases + 1)
      && (res.exit == ReadFailed ==> res.state.writerReleases == t.writerReleases + w)
      && (res.exit == Stopped && t.running ==> res.state.writerReleases == t.writerReleases + 2 * w)
  {
    var s, t1 := CameraLoopSetting(cfg, cap, env), Setup(cfg, t, cap, env);
    var h0 := Poll(CameraLoopStart(t1), env.stops);
    CameraLoopExits(s, h0, LaterStops(env.stops));
    CameraLoopEmitsInOrder(s, h0, LaterStops(env.stops));
  }

  /**
   * The camera loop has no frame bound: as long as the camera delivers frames
   * that detect and write cleanly it goes on, and a `stop()` requested after
   * the `k`-th frame ends it there, stopped, with exactly `k` frames read.
   */
  lemma {:induction false} StopAfterFrames(s: CameraSetting, h: CameraLoopState, k: nat, rest: seq<bool>)
    requires k >= 1 && h.running && h.next + k <= |s.frames|
    requires forall i :: h.next <= i < h.next + k ==>
      && s.detect(s.frames[i], s.conf).Some?
      && !(Writes(s, h) && s.writeFails(s.detect(s.frames[i], s.conf).value))
    ensures CameraLoop(s, h, Quiet(k - 1) + [true] + rest).exit == Stopped
    ensures CameraLoop(s, h, Quiet(k - 1) + [true] + rest).state.next == h.next + k
    decreases k
  {
    var a := s.detect(s.frames[h.next], s.conf).value;
    var h2 := h.(next := h.next + 1,
                 written := if Writes(s, h) then h.written + [a] else h.written,
                 emitted := h.emitted + [a]);
    var stops := Quiet(k - 1) + [true] + rest;
    if k == 1 {
      assert stops[0];
    } else {
      assert !stops[0] && stops[1..] == Quiet(k - 2) + [true] + rest;
      StopAfterFrames(s, h2, k - 1, rest);
    }
  }

  /** `k` polls in which the GUI does not call `stop()`. */
  function Quiet(k: nat): (r: seq<bool>)
    ensures |r| == k && forall i :: 0 <= i < k ==> !r[i]
  {
    if k == 0 then [] else [false] + Quiet(k - 1)
  }

  // ---- the thread ----

  class CameraThread {
    const saveVideo: bool
    const confThreshold: real
    const outputDir: string

    var running: bool
    var videoWriter: Option<Writer>
    var recordingStartTime: Option<real>

    /** Frames the current writer has been given. */
    var written: seq<Frame>
    /** `frame_processed` emissions, in order. */
    var emitted: seq<Frame>
    var captureReleases: nat
    var writerReleases: nat

    function Config(): CameraConfig {
      CameraConfig(saveVideo, confThreshold, outputDir)
    }

    function State(): CameraState
      reads this
    {
      CameraState(running, videoWriter, recordingStartTime, written, emitted, captureReleases, writerReleases)
    }

    /** The loop state at a test of `while self.running`, with the index of the next frame. */
    function Head(next: nat): CameraLoopState
      reads this
    {
      CameraLoopState(running, videoWriter, next, written, emitted, writerReleases)
    }

    constructor (saveVideo: bool, confThreshold: real, outputDir: string)
      ensures Config() == CameraConfig(saveVideo, confThreshold, outputDir)
      ensures State() == CameraState(true, None, None, [], [], 0, 0)
    {
      this.saveVideo := saveVideo;
      this.confThreshold := confThreshold;
      this.outputDir := outputDir;
      running := true;
      videoWriter := None;
      recordingStartTime := None;
      written := [];
      emitted := [];
      captureReleases := 0;
      writerReleases := 0;
    }

    /** `stop()`: clear `running` and release the writer if there is one. */
    method Stop()
      modifies this`running, this`writerReleases
      ensures !running
      ensures writerReleases == old(writerReleases) + if videoWriter.Some? then 1 else 0
    {
      running := false;
      if videoWriter.Some? {
        writerReleases := writerReleases + 1;
      }
    }

    /** `initialize_video_writer`. */
    method InitializeVideoWriter(cap: Capture, env: CameraEnv)
      modifies this`videoWriter, this`recordingStartTime, this`written
      ensures State() == InitializeWriter(Config(), old(State()), cap, env)
    {
      if !env.setupOk {
        videoWriter := None;
        return;
      }
      videoWriter := Some(CameraWriter(Config(), cap, env.now));
      recordingStartTime := Some(env.clock);
      written := [];
    }

    /** The GUI thread's chance to call `stop()` before a test. */
    method PollStop(stops: seq<bool>) returns (rest: seq<bool>)
      modifies this`running, this`writerReleases
      ensures Head(0) == Poll(old(Head(0)), stops) && rest == LaterStops(stops)
    {
      if stops != [] && stops[0] {
        Stop();
      }
      rest := LaterStops(stops);
    }

    /** The loop of `run`, from the first test of its condition. */
    method Loop(s: CameraSetting, stops0: seq<bool>) returns (next: nat, exit: CameraExit)
      requires s.recording == saveVideo
      modifies this`running, this`writerReleases, this`written, this`emitted
      ensures CameraOutcome(Head(next), exit) == CameraLoop(s, old(Head(0)), stops0)
    {
      next := 0;
      var stops := stops0;
      while true
        invariant CameraLoop(s, Head(next), stops) == CameraLoop(s, old(Head(0)), stops0)
        decreases Remaining(|s.frames|, next)
      {
        if !running {
          exit := Stopped;
          break;
        }
        if next >= |s.frames| {
          exit := ReadFailed;
          break;
        }
        var result := s.detect(s.frames[next], s.conf);
        if result.None? {
          exit := Crashed;
          break;
        }
        var annotated := result.value;
        if saveVideo && videoWriter.Some? {
          if s.writeFails(annotated) {
            exit := Crashed;
            break;
          }
          written := written + [annotated];
        }
        emitted := emitted + [annotated];
        next := next + 1;
        stops := PollStop(stops);
      }
    }

    /** `run`. */
    method Run(cap: Capture, env: CameraEnv) returns (exit: CameraExit)
      modifies this
      ensures CameraRunResult(State(), exit) == CameraRunSpec(Config(), old(State()), cap, env)
    {
      if saveVideo {
        InitializeVideoWriter(cap, env);
      }
      exit := Session(CameraLoopSetting(Config(), cap, env), env.stops);
    }

    /** `run` after its set-up: the GUI's first chance to stop, the loop, then the tail. */
    method Session(s: CameraSetting, stops0: seq<bool>) returns (exit: CameraExit)
      requires s.recording == saveVideo
      modifies this`running, this`writerReleases, this`written, this`emitted, this`captureReleases
      ensures CameraRunResult(State(), exit)
           == CameraFinish(old(State()), CameraLoop(s, Poll(CameraLoopStart(old(State())), stops0), LaterStops(stops0)))
    {
      var stops := PollStop(stops0);
      var next;
      next, exit := Loop(s, stops);
      if exit == Crashed {
        return;
      }
      Release();
    }

    /** The tail of `run`: release the capture, then the writer if there is one. */
    method Release()
      modifies this`captureReleases, this`writerReleases
      ensures captureReleases == old(captureReleases) + 1
      ensures writerReleases == old(writerReleases) + if videoWriter.Some? then 1 else 0
    {
      captureReleases := captureReleases + 1;
      if videoWriter.Some? {
        writerReleases := writerReleases + 1;
      }
    }
  }
}
