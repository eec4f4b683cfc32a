/** The timeline widget: the drag gesture, the committed preview length,
    the loop scheduler and the conversion phase, driven by one event at a
    time on a clip of fixed duration. */
module Timeline {
  import opened Wrappers
  import opened Track
  import opened DragGesture
  import opened LoopScheduler
  import opened Export

  /** What the widget shows: the editor, the editor while the encoder runs
      (loading indicator on), or the finished GIF. */
  datatype Phase = Editing | Converting | Converted(image: string)

  /** The encoder's answer: an error, or the image it produced. */
  datatype EncoderResult = EncodeFailed | Encoded(image: string)

  /** `committed` is videoDuration: None while undefined or NaN. */
  datatype Widget = Widget(gesture: Gesture, committed: Option<real>, loop: Scheduler, phase: Phase)

  /** The inputs the widget reacts to. */
  datatype Event =
    | Touch(handle: Handle)
    | TouchMove(screenX: real)
    | TouchEnd
    | LoopTimeout(id: nat)
    | Convert
    | EncoderDone(result: EncoderResult)

  /** A conversion request: the widget after it, and the frame count handed
      to the encoder. */
  datatype Conversion = Conversion(widget: Widget, frames: int)

  const Initial: Widget := Widget(Idle, None, NoLoop, Editing)

  /** Margins on the track, window inside the clip, at most the one stored
      loop timeout live, and a committed length no longer than the clip in
      either direction. */
  predicate Valid(w: Widget, clip: Duration) {
    && w.gesture.Valid(clip)
    && w.loop.Valid()
    && (w.committed.Some? ==> 0.0 <= w.committed.value + clip && w.committed.value <= clip)
  }

  /** The length a gesture commits: end minus start, NaN without a window. */
  function CommittedLength(win: Option<Window>): (c: Option<real>)
    ensures c.Some? <==> win.Some?
    ensures c.Some? ==> win.value.start + c.value == win.value.end
  {
    match win
    case None => None
    case Some(v) => Some(v.end - v.start)
  }

  /** The gesture ends: the drag state is cleared, the loop is re-trimmed
      to the current window and its length becomes the committed one. */
  function EndGesture(w: Widget): (r: Widget)
    ensures r.gesture.drag.None? && !Truthy(r.gesture.origin)
    ensures r.gesture.from == w.gesture.from && r.gesture.till == w.gesture.till
    ensures r.gesture.window == w.gesture.window && r.phase == w.phase
    ensures w.gesture.window.Some? ==>
      var win := w.gesture.window.value;
      r.committed == Some(win.end - win.start)
    ensures w.gesture.window.None? ==> !Truthy(r.committed)
    ensures w.loop.Valid() ==>
      && r.loop.Valid()
      && r.loop.timers == map[w.loop.nextId := w.gesture.window]
      && |r.loop.timers| == 1
    ensures w.gesture.window.Some? ==>
      var win := w.gesture.window.value;
      && r.loop.handle.Some? && r.loop.handle.value in r.loop.timers
      && Delay(r.loop.timers[r.loop.handle.value]) == Some((win.end - win.start) * 1000.0)
  {
    Widget(Release(w.gesture), CommittedLength(w.gesture.window), Retrim(w.loop, w.gesture.window), w.phase)
  }

  /** The convert button: size the export, write the capped length back as
      the committed one, and switch the loading indicator on. */
  function StartConversion(w: Widget, clip: Duration): (r: Conversion)
    ensures r.frames <= 100
    ensures r.widget.committed.Some? && r.widget.committed.value <= MaxSeconds
    ensures r.frames as real <= r.widget.committed.value * FramesPerSecond < r.frames as real + 1.0
    ensures !Truthy(w.committed) ==> 0 <= r.frames
    ensures !Truthy(w.committed) && clip <= MaxSeconds ==> r.widget.committed == Some(clip)
    ensures Truthy(w.committed) && w.committed.value <= MaxSeconds ==> r.widget.committed == w.committed
    ensures r.widget.committed == Some(ExportDuration(w.committed, clip))
    ensures r.frames == FrameCount(ExportDuration(w.committed, clip))
    ensures r.widget.phase == Converting
    ensures r.widget.gesture == w.gesture && r.widget.loop == w.loop
  {
    var d := ExportDuration(w.committed, clip);
    Conversion(w.(committed := Some(d), phase := Converting), FrameCount(d))
  }

  /** The encoder answers: on an error nothing changes (the loading
      indicator stays on); on success the GIF is shown. */
  function FinishConversion(w: Widget, result: EncoderResult): (r: Widget)
    ensures result.EncodeFailed? ==> r == w
    ensures result.Encoded? ==> r.phase == Converted(result.image) && r.(phase := w.phase) == w
  {
    match result
    case EncodeFailed => w
    case Encoded(image) => w.(phase := Converted(image))
  }

  /** The widget after one event on a clip of duration `clip`. */
  function Step(w: Widget, e: Event, clip: Duration): Widget {
    match e
    case Touch(h) => w.(gesture := TouchStart(w.gesture, h))
    case TouchMove(x) => w.(gesture := Move(w.gesture, x, clip))
    case TouchEnd => EndGesture(w)
    case LoopTimeout(id) => w.(loop := Fire(w.loop, id).loop)
    case Convert => StartConversion(w, clip).widget
    case EncoderDone(result) => FinishConversion(w, result)
  }

  /** The widget after a sequence of events. */
  function Run(w: Widget, es: seq<Event>, clip: Duration): Widget
    decreases |es|
  {
    if |es| == 0 then w else Run(Step(w, es[0], clip), es[1..], clip)
  }

  lemma InitialValid(clip: Duration)
    ensures Valid(Initial, clip)
  {
  }

  /** Every event keeps the widget valid. */
  lemma StepValid(w: Widget, e: Event, clip: Duration)
    requires Valid(w, clip)
    ensures Valid(Step(w, e, clip), clip)
  {
  }

  /** Whatever events arrive, the handles stay on the track, the window
      inside the clip, and at most one loop timeout is live. */
  lemma {:induction false} RunValid(w: Widget, es: seq<Event>, clip: Duration)
    requires Valid(w, clip)
    ensures Valid(Run(w, es, clip), clip)
    ensures |Run(w, es, clip).loop.timers| <= 1
    decreases |es|
  {
    if |es| == 0 {
      AtMostOneTimer(w.loop);
    } else {
      StepValid(w, es[0], clip);
      RunValid(Step(w, es[0], clip), es[1..], clip);
    }
  }

  /** A move with no handle engaged changes nothing. */
  lemma StrayMoveIsNoOp(w: Widget, x: real, clip: Duration)
    requires w.gesture.drag.None?
    ensures Step(w, TouchMove(x), clip) == w
  {
  }

  /** Two commits in a row leave one live timeout, the second one; the
      first commit's timeout can no longer fire. */
  lemma TwoCommitsOneLoop(w: Widget)
    requires w.loop.Valid()
    ensures var once := EndGesture(w); var twice := EndGesture(once);
      && |twice.loop.timers| == 1
      && twice.loop.handle == Some(once.loop.nextId)
      && once.loop.handle.value !in twice.loop.timers
      && Fire(twice.loop, once.loop.handle.value) == Fired(twice.loop, None)
  {
  }

  /** A timeout left over from before a commit is ignored when it fires. */
  lemma StaleTimeoutIgnored(w: Widget, id: nat, clip: Duration)
    requires w.loop.Valid() && id < w.loop.nextId
    ensures Step(EndGesture(w), LoopTimeout(id), clip) == EndGesture(w)
  {
  }

  /** An encoder error leaves every part of the widget as it was. */
  lemma EncoderErrorKeepsState(w: Widget, clip: Duration)
    ensures Step(w, EncoderDone(EncodeFailed), clip) == w
  {
  }
}
