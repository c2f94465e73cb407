/**
 * What the two worker threads of app.py share: frames, the opened capture as
 * the model sees it, the video writer, and the detector. OpenCV and YOLO are
 * not modelled; a capture is the finite sequence of frames its reads return,
 * and the detector is an arbitrary total function that may fail.
 */
module FramePipeline {
  import opened Wrappers

  /** One decoded image. */
  datatype Frame = Frame(pixels: seq<int>)

  /**
   * An opened `cv2.VideoCapture`: whether `isOpened()` holds, the properties
   * it reports (`CAP_PROP_FPS`, `CAP_PROP_FRAME_COUNT` after `int(...)`, the
   * frame size), and the frames its successive `read()` calls return; the
   * read after the last of them fails.
   */
  datatype Capture = Capture(isOpened: bool, fps: real, frameCount: int, width: int, height: int, frames: seq<Frame>)

  /** A `cv2.VideoWriter` as constructed: output path, frame rate and frame size. */
  datatype Writer = Writer(path: string, fps: real, width: int, height: int)

  /**
   * `model(frame, conf=...)` followed by `results[0].plot()`: the annotated
   * frame, or None when either call raises.
   */
  type Detector = (Frame, real) -> Option<Frame>

  /** What follows a prefix is what was appended to it. */
  lemma AppendedAfter<T>(p: seq<T>, q: seq<T>, whole: seq<T>)
    requires whole == p + q
    ensures whole[|p|..] == q
  {
  }

  /** Iterations left before a counter reaches a bound (0 once it has). */
  function Remaining(bound: int, counter: int): nat {
    if counter < bound then bound - counter else 0
  }
}
