/** Sizing of the exported GIF: the length to export, capped at ten
    seconds, and the number of frames taken from it at ten per second. */
module Export {
  import opened Wrappers
  import opened Track

  /** The longest GIF the widget produces, in seconds. */
  const MaxSeconds: real := 10.0

  /** Frames taken per second of exported video. */
  const FramesPerSecond: real := 10.0

  /** The length to export: a falsy committed length (never committed, a
      NaN from a gesture without a window, or a zero-length window) falls
      back to the clip's duration; the result is then capped. */
  function ExportDuration(committed: Option<real>, clip: Duration): (d: real)
    ensures d <= MaxSeconds
    ensures Truthy(committed) && committed.value <= MaxSeconds ==> d == committed.value
    ensures !Truthy(committed) && clip <= MaxSeconds ==> d == clip
    ensures d == MaxSeconds || (Truthy(committed) && d == committed.value) || (!Truthy(committed) && d == clip)
    ensures !Truthy(committed) ==> 0.0 <= d
  {
    var length := if Truthy(committed) then committed.value else clip;
    if length > MaxSeconds then MaxSeconds else length
  }

  /** The frame count: the largest whole number of frames that fits in
      `d` seconds at ten frames per second. */
  function FrameCount(d: real): (n: int)
    ensures n as real <= d * FramesPerSecond < n as real + 1.0
    ensures d <= MaxSeconds ==> n <= 100
    ensures 0.0 <= d ==> 0 <= n
  {
    (d * FramesPerSecond).Floor
  }

  /** A committed 14 s window exports 10 s as 100 frames; a 3 s window
      exports 30 frames. */
  lemma ExportExamples(clip: Duration)
    ensures ExportDuration(Some(14.0), clip) == 10.0 && FrameCount(10.0) == 100
    ensures ExportDuration(Some(3.0), clip) == 3.0 && FrameCount(3.0) == 30
  {
  }

  /** A zero-length committed window exports the whole clip, capped. */
  lemma ZeroWindowExportsClip(clip: Duration)
    ensures ExportDuration(Some(0.0), clip) == if clip > MaxSeconds then MaxSeconds else clip
  {
  }

  /** Crossed handles commit a negative length, which is truthy and below
      the cap, so the frame count comes out negative. */
  lemma CrossedWindowNegativeFrames(clip: Duration)
    ensures FrameCount(ExportDuration(Some(-2.0), clip)) == -20
  {
  }
}
