/** The drag-gesture controller: which handle a touch engaged, the pointer
    position of the previous move, the inline margins of both handles, and
    the trim window derived from them on every move. */
module DragGesture {
  import opened Wrappers
  import opened Track

  /** `from` and `till` are the handles' inline margins as parseFloat reads
      them back (None while unset); `drag` is the engaged handle; `origin` is
      the screen X of the previous move; `window` is startTime/endTime,
      undefined until the first move made after an origin is recorded. */
  datatype Gesture = Gesture(
    from: Option<real>,
    till: Option<real>,
    drag: Option<Handle>,
    origin: Option<real>,
    window: Option<Window>)
  {

    function Margin(h: Handle): Option<real> {
      if h == From then from else till
    }

    function WithMargin(h: Handle, m: Option<real>): (g: Gesture)
      ensures g.Margin(h) == m && g.Margin(h.Other()) == Margin(h.Other())
      ensures g.drag == drag && g.origin == origin && g.window == window
    {
      if h == From then this.(from := m) else this.(till := m)
    }

    /** Both margins on the track and the window inside the clip. */
    predicate Valid(d: Duration) {
      && OnTrack(from)
      && OnTrack(till)
      && (window.Some? ==> window.value.Within(d))
    }
  }

  /** Nothing engaged, nothing written yet. */
  const Idle: Gesture := Gesture(None, None, None, None, None)

  /** A touch lands on handle `h`: it becomes the engaged handle. The pointer
      origin is left as it was. */
  function TouchStart(g: Gesture, h: Handle): (r: Gesture)
    ensures r.drag == Some(h)
    ensures r.from == g.from && r.till == g.till
    ensures r.origin == g.origin && r.window == g.window
  {
    g.(drag := Some(h))
  }

  /** The gesture ends: neither a handle nor an origin is held any more. */
  function Release(g: Gesture): (r: Gesture)
    ensures r.drag.None? && !Truthy(r.origin)
    ensures r.from == g.from && r.till == g.till && r.window == g.window
  {
    g.(drag := None, origin := None)
  }

  /** The trim window the two margins stand for on a clip of duration `d`:
      an unset or zero `till` reads as the full track, an unset `from` as
      the left edge. */
  function TrimWindow(from: Option<real>, till: Option<real>, d: Duration): (w: Window)
    ensures OnTrack(from) && OnTrack(till) ==> w.Within(d)
    ensures !Truthy(from) ==> w.start == 0.0
    ensures !Truthy(till) ==> w.end == d
    ensures Truthy(from) ==> w.start * Width == from.value * d
    ensures Truthy(till) ==> w.end * Width == till.value * d
  {
    Window(OffsetToTime(ReadOffset(From, from), d), OffsetToTime(ReadOffset(Till, till), d))
  }

  /** One pointer move to screen X `x` on a clip of duration `d`. With no
      handle engaged it does nothing. Without a truthy origin it only records
      `x` as the origin. Otherwise it displaces the engaged handle by the
      pointer's travel since the origin, clamps it to the track, writes it,
      and derives the window from both margins. */
  function Move(g: Gesture, x: real, d: Duration): (r: Gesture)
    ensures g.drag.None? ==> r == g
    ensures g.drag.Some? ==> r.drag == g.drag && r.origin == Some(x)
    ensures g.drag.Some? && !Truthy(g.origin) ==> r == g.(origin := Some(x))
    ensures g.drag.Some? ==> r.Margin(g.drag.value.Other()) == g.Margin(g.drag.value.Other())
    ensures g.drag.Some? && Truthy(g.origin) ==>
      && r.Margin(g.drag.value).Some?
      && 0.0 <= r.Margin(g.drag.value).value <= Width
      && r.window == Some(TrimWindow(r.from, r.till, d))
    ensures g.Valid(d) ==> r.Valid(d)
  {
    match g.drag
    case None => g
    case Some(h) =>
      if !Truthy(g.origin) then g.(origin := Some(x))
      else
        var travel := g.origin.value - x;
        var offset := Clamp(ReadOffset(h, g.Margin(h)) - travel);
        var moved := g.WithMargin(h, Some(offset));
        moved.(origin := Some(x), window := Some(TrimWindow(moved.from, moved.till, d)))
  }

  /** The engaged handle's new offset is its read-back offset plus the
      pointer's travel, clamped to the track. */
  lemma MoveDisplaces(g: Gesture, x: real, d: Duration)
    requires g.drag.Some? && Truthy(g.origin)
    ensures var h := g.drag.value;
      Move(g, x, d).Margin(h) == Some(Clamp(ReadOffset(h, g.Margin(h)) + (x - g.origin.value)))
  {
  }

  /** Dragging past the right edge pins the handle there; past the left
      edge pins it to 0. */
  lemma MovePinsAtEdges(g: Gesture, x: real, d: Duration)
    requires g.drag.Some? && Truthy(g.origin)
    ensures var h := g.drag.value; var want := ReadOffset(h, g.Margin(h)) + (x - g.origin.value);
      && (want >= Width ==> Move(g, x, d).Margin(h) == Some(Width))
      && (want <= 0.0 ==> Move(g, x, d).Margin(h) == Some(0.0))
  {
  }

  /** Quirk: the `till` handle dragged to the left edge has margin 0, which
      reads back as falsy, so the window ends at the full duration. */
  lemma TillAtLeftEdgeEndsAtDuration(g: Gesture, x: real, d: Duration)
    requires g.drag == Some(Till) && Truthy(g.origin)
    requires ReadOffset(Till, g.till) + (x - g.origin.value) <= 0.0
    ensures Move(g, x, d).till == Some(0.0)
    ensures Move(g, x, d).window.Some? && Move(g, x, d).window.value.end == d
  {
  }

  /** Quirk: a previous pointer at screen X 0 is falsy, so the next move
      only records its X and displaces nothing. */
  lemma OriginAtZeroOnlyRecords(g: Gesture, x: real, d: Duration)
    requires g.drag.Some? && g.origin == Some(0.0)
    ensures Move(g, x, d) == g.(origin := Some(x))
  {
  }

  /** The moves of one gesture, applied in order. */
  function Moves(g: Gesture, xs: seq<real>, d: Duration): Gesture
    decreases |xs|
  {
    if |xs| == 0 then g else Moves(Move(g, xs[0], d), xs[1..], d)
  }

  /** The handle follows the finger: from a truthy origin, while no
      intermediate offset reaches either edge and no pointer X is 0, a run
      of moves leaves the engaged handle at its read-back offset plus the
      total travel since the origin, whatever path the pointer took. */
  lemma {:induction false} MovesFollowPointer(g: Gesture, xs: seq<real>, d: Duration)
    requires g.drag.Some? && Truthy(g.origin) && |xs| > 0
    requires forall i :: 0 <= i < |xs| ==> xs[i] != 0.0
    requires forall i :: 0 <= i < |xs| ==>
      0.0 < ReadOffset(g.drag.value, g.Margin(g.drag.value)) + (xs[i] - g.origin.value) < Width
    ensures var h := g.drag.value; var r := Moves(g, xs, d);
      && r.Margin(h) == Some(ReadOffset(h, g.Margin(h)) + (xs[|xs| - 1] - g.origin.value))
      && r.Margin(h.Other()) == g.Margin(h.Other())
      && r.drag == g.drag
      && r.origin == Some(xs[|xs| - 1])
    decreases |xs|
  {
    var h := g.drag.value;
    var base := ReadOffset(h, g.Margin(h));
    var g1 := Move(g, xs[0], d);
    MoveDisplaces(g, xs[0], d);
    assert g1.Margin(h) == Some(base + (xs[0] - g.origin.value));
    if |xs| > 1 {
      var rest := xs[1..];
      assert ReadOffset(h, g1.Margin(h)) == base + (xs[0] - g.origin.value);
      forall i | 0 <= i < |rest|
        ensures 0.0 < ReadOffset(h, g1.Margin(h)) + (rest[i] - g1.origin.value) < Width
      {
        assert rest[i] == xs[i + 1];
      }
      MovesFollowPointer(g1, rest, d);
      assert rest[|rest| - 1] == xs[|xs| - 1];
    }
  }
}
