/** The position mapper: a fixed-width track measured in pixels, the clamp
    applied to handle offsets, the read-back of a handle's margin with its
    defaults, and the two ratio formulas between offsets and media time. */
module Track {
  import opened Wrappers

  /** Width of the track in pixels; a handle offset lives in [0, Width]. */
  const Width: real := 300.0

  /** A media duration in seconds, as reported by the player. */
  type Duration = d: real | 0.0 <= d

  /** The two draggable handles: the start (`from`) and the end (`till`). */
  datatype Handle = From | Till {

    function Other(): Handle {
      if this == From then Till else From
    }

    /** The offset a handle reads back as when its margin is unset or zero. */
    function Default(): real {
      if this == From then 0.0 else Width
    }
  }

  /** A trim window in seconds. Nothing orders `start` before `end`: the
      handles may cross. */
  datatype Window = Window(start: real, end: real) {

    predicate Within(d: real) {
      0.0 <= start <= d && 0.0 <= end <= d
    }
  }

  /** JavaScript truthiness of a parsed number: NaN (modelled as None) and
      zero are falsy, every other number is truthy. */
  predicate Truthy(v: Option<real>) {
    v.Some? && v.value != 0.0
  }

  /** A margin that was never written, or that was written by a clamp. */
  predicate OnTrack(margin: Option<real>) {
    margin.Some? ==> 0.0 <= margin.value <= Width
  }

  /** The two-step clamp of a new handle offset: first to the right edge,
      then to the left edge. */
  function Clamp(x: real): (r: real)
    ensures 0.0 <= r <= Width
    ensures 0.0 <= x <= Width ==> r == x
    ensures x > Width ==> r == Width
    ensures x < 0.0 ==> r == 0.0
  {
    var r := if x > Width then Width else x;
    if r < 0.0 then 0.0 else r
  }

  /** The offset a handle's margin reads back as: the parsed value when it is
      truthy, the handle's default otherwise. */
  function ReadOffset(h: Handle, margin: Option<real>): (r: real)
    ensures OnTrack(margin) ==> 0.0 <= r <= Width
    ensures Truthy(margin) ==> r == margin.value
    ensures !Truthy(margin) ==> r == h.Default()
    ensures h == From ==> r == if margin.Some? then margin.value else 0.0
    ensures h == Till && margin == Some(0.0) ==> r == Width
  {
    if Truthy(margin) then margin.value else h.Default()
  }

  /** Offset to time: the share of the track covered, times the duration. */
  function OffsetToTime(offset: real, d: Duration): (t: real)
    ensures 0.0 <= offset <= Width ==> 0.0 <= t <= d
    ensures offset == 0.0 ==> t == 0.0
    ensures offset == Width ==> t == d
  {
    var share := offset / Width;
    ShareOfDuration(share, d);
    share * d
  }

  /** A share in [0, 1] of a duration lies between 0 and that duration. */
  lemma ShareOfDuration(share: real, d: Duration)
    ensures 0.0 <= share <= 1.0 ==> 0.0 <= share * d <= d
  {
  }

  /** Time to offset for the live-position marker. With a zero duration the
      division yields NaN or an infinity, which the model reports as None. */
  function MarkerOffset(t: real, d: Duration): (p: Option<real>)
    ensures p.Some? <==> d > 0.0
    ensures p.Some? && 0.0 <= t <= d ==> 0.0 <= p.value <= Width
  {
    if d == 0.0 then None else Some(t / d * Width)
  }

  /** Scaling by a non-zero factor and dividing by it again cancel out, in
      either order. */
  lemma ScaleCancels(a: real, d: real)
    requires d != 0.0
    ensures a * d / d == a
    ensures a / d * d == a
  {
  }

  /** Mapping a time to the marker and back gives the time again. */
  lemma MarkerThenTime(t: real, d: Duration)
    requires d > 0.0
    ensures MarkerOffset(t, d).Some?
    ensures OffsetToTime(MarkerOffset(t, d).value, d) == t
  {
    var share := t / d;
    ScaleCancels(share, Width);
    ScaleCancels(t, d);
    assert OffsetToTime(share * Width, d) == share * Width / Width * d;
  }

  /** Mapping an offset to a time and back gives the offset again. */
  lemma TimeThenMarker(p: real, d: Duration)
    requires d > 0.0
    ensures MarkerOffset(OffsetToTime(p, d), d) == Some(p)
  {
    var share := p / Width;
    ScaleCancels(share, d);
    ScaleCancels(p, Width);
    assert OffsetToTime(p, d) == share * d;
    assert MarkerOffset(share * d, d) == Some(share * d / d * Width);
  }

  /** The marker sits at the left edge at time 0, mid-track at half the
      duration and at the right edge at the end. */
  lemma MarkerLandmarks(d: Duration)
    requires d > 0.0
    ensures MarkerOffset(0.0, d) == Some(0.0)
    ensures MarkerOffset(d / 2.0, d) == Some(Width / 2.0)
    ensures MarkerOffset(d, d) == Some(Width)
  {
    assert d / 2.0 / d == 0.5;
    assert d / d == 1.0;
  }

  /** A quarter and three quarters of the track on a 20 s clip map to 5 s
      and 15 s. */
  lemma QuarterWindowExample()
    ensures OffsetToTime(0.25 * Width, 20.0) == 5.0
    ensures OffsetToTime(0.75 * Width, 20.0) == 15.0
  {
  }
}
