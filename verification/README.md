# VideoTimeline trim control — Dafny model

`VideoTimeline` is a browser widget that lets a user pick a sub-range of a
video. Two handles, `from` and `till`, are dragged along a 300-pixel track.
The widget turns their pixel offsets into a trim window (`startTime`,
`endTime`). When a drag ends it loops the preview over that window on a
timer. On request it sizes a GIF export of the committed length. This
project models that logic as immutable state and pure transitions over
`real`:

- `Track`: the position mapper. It holds the track width, the clamp of a
  handle offset, the read-back of a handle's margin with its defaults, the
  offset→time ratio and the time→offset ratio of the live-position marker.
- `DragGesture`: the drag controller (`timelineDrag`, the `touchstart`
  handlers and the drag-state part of `touchEndTimeline`).
- `LoopScheduler`: `trimVideo` / `playTrimVideo` as a state machine. The
  browser's live loop timeouts are a map from timeout id to window. The
  widget's stored id (`loopTrimVideo`) and the next id to hand out sit
  beside it. A `Fire` transition stands for a timeout elapsing.
- `Export`: the duration fallback and cap and the frame count of
  `videoToGif`.
- `Timeline`: the widget record (gesture, committed length `videoDuration`,
  scheduler, display phase), its events and `Run` over event sequences.

JavaScript truthiness is modelled explicitly. A margin read back by
`parseFloat` is `Option<real>`: `None` stands for NaN, an unset style.
`None` and `0` are falsy. So a `till` handle dragged to the left edge reads
back as the full track. Likewise a previous pointer X of exactly 0 counts as
"no origin", so the next move only records its X. `startTime`/`endTime` are
undefined until the first move made after an origin is recorded
(`Option<Window>`); such a move sets them even when the pointer has not
travelled. A gesture that ends before such a move commits an undefined (NaN) length.
It also arms a timeout for an undefined window. When that timeout fires, the
assignment of an undefined playback position raises. The model therefore
consumes it without seeking or re-arming.

The media player's duration is a parameter (`Duration`, a non-negative
`real`). So is the pointer's screen X. The encoder's answer is an
`EncoderResult`.

## Model

| member | source | states |
|---|---|---|
| Track.Clamp | video-timeline.js:119-121 | the new offset lies in [0, 300]; it is unchanged inside the track, 300 past the right edge and 0 past the left edge |
| Track.ReadOffset | video-timeline.js:114-129 | a read-back offset is the margin when truthy, otherwise (unset or 0) 0 for `from` and 300 for `till`; margins on the track read back on the track; `till` at 0 reads as 300 |
| Track.OffsetToTime | video-timeline.js:131-132 | an offset on the track maps to a time in [0, duration]; offset 0 maps to 0 and offset 300 to the full duration |
| Track.MarkerOffset | video-timeline.js:138-141 | the marker offset is defined exactly when the duration is positive, and a time in [0, duration] lands on the track |
| Track.MarkerThenTime | video-timeline.js:131-139 | mapping a time to a marker offset and back with the offset→time ratio returns the time |
| Track.TimeThenMarker | video-timeline.js:131-139 | mapping an offset to a time and back with the marker ratio returns the offset |
| Track.MarkerLandmarks | video-timeline.js:139 | the marker is at 0 at time 0, at 150 at half the duration and at 300 at the full duration |
| Track.QuarterWindowExample | video-timeline.js:131-132 | offsets 75 and 225 on a 20 s clip map to 5 s and 15 s |
| DragGesture.TouchStart | video-timeline.js:45-52 | a touch on a handle engages that handle and changes nothing else, not even the pointer origin |
| DragGesture.Release | video-timeline.js:65-67 | ending a gesture clears the engaged handle and the origin and keeps margins and window |
| DragGesture.TrimWindow | video-timeline.js:125-132 | the window derived from two on-track margins lies in [0, duration]; an unset `from` starts at 0; an unset or zero `till` ends at the duration; otherwise time/duration equals offset/300 |
| DragGesture.Move | video-timeline.js:110-136 | no engaged handle: no change at all; no truthy origin: only the origin is recorded; otherwise the origin becomes the pointer X, the engaged offset is on the track, the other handle's margin is not written, the window is re-derived, and validity is preserved |
| DragGesture.MoveDisplaces | video-timeline.js:113-123 | the engaged handle's new offset is clamp(read-back offset + pointer travel since the origin) |
| DragGesture.MovePinsAtEdges | video-timeline.js:119-121 | a displacement past the right edge pins the handle at 300, past the left edge at 0 |
| DragGesture.TillAtLeftEdgeEndsAtDuration | video-timeline.js:120-132 | `till` dragged to the left edge gets margin 0, and the window then ends at the full duration |
| DragGesture.OriginAtZeroOnlyRecords | video-timeline.js:112-134 | when the previous pointer X is 0, the next move displaces nothing and only records the new X |
| DragGesture.MovesFollowPointer | video-timeline.js:110-136 | with a handle engaged and a truthy (non-zero) origin, over any run of moves in which no pointer X is 0 and no intermediate offset reaches either edge, the handle ends at its starting read-back offset plus the pointer travel from the origin to the last X, whatever path the pointer took in between; the other handle's margin and which handle is engaged stay unchanged, and the origin is the last X |
| LoopScheduler.Delay | video-timeline.js:90 | the interval divided by 1000 is the window length; it is negative exactly when the handles crossed; undefined without a window |
| LoopScheduler.AtMostOneTimer | video-timeline.js:81-92 | while every live timeout is the stored one, at most one timeout is live |
| LoopScheduler.Cancel | video-timeline.js:81 | clearing the stored id removes that timeout and adds none; from a valid state nothing stays live |
| LoopScheduler.Arm | video-timeline.js:89-98 | arming adds exactly one timeout under a fresh id, stores that id, and keeps every existing timeout with its window |
| LoopScheduler.Retrim | video-timeline.js:78-87 | re-trimming cancels before arming: exactly one timeout is live afterwards, for the new window, and none of the old ones survives |
| LoopScheduler.Fire | video-timeline.js:92-98 | a timeout that is not live does nothing; a live one is consumed; for a defined window it seeks to the start and re-arms for the same window |
| LoopScheduler.FireRearmsSameLoop | video-timeline.js:92-98 | after a loop timeout fires, exactly one timeout is live, with the same window and interval |
| Export.ExportDuration | video-timeline.js:144-145 | the export length is at most 10 s; a truthy committed length up to 10 s is kept; a falsy one becomes the clip duration; otherwise 10 |
| Export.FrameCount | video-timeline.js:146 | the frame count is the floor of ten times the length: at most 100 for a length up to 10 s, never negative for a non-negative length |
| Export.ExportExamples | video-timeline.js:144-146 | a 14 s window exports 10 s as 100 frames; a 3 s window exports 30 frames |
| Export.ZeroWindowExportsClip | video-timeline.js:144 | a zero-length committed window exports the whole clip, capped |
| Export.CrossedWindowNegativeFrames | video-timeline.js:144-146 | a negative committed length (crossed handles) yields a negative frame count |
| Timeline.CommittedLength | video-timeline.js:71 | the committed length is defined exactly when a window is, and start plus length is the end |
| Timeline.EndGesture | video-timeline.js:65-72 | drag state cleared; committed length = end − start; exactly one live timeout, for the current window, with interval (end − start) · 1000 |
| Timeline.StartConversion | video-timeline.js:143-148 | the export length (falsy fallback to the clip, capped at 10 s) is written back as committed, in every case including when the cap applies; frames = floor(length · 10) ≤ 100; the loading phase starts; gesture and loop untouched |
| Timeline.FinishConversion | video-timeline.js:157-167 | an encoder error changes nothing; an image switches to the converted phase showing it and changes nothing else |
| Timeline.StepValid | video-timeline.js:45-167 | every event keeps margins on the track, the window inside the clip, the scheduler valid and the committed length bounded by the clip |
| Timeline.RunValid | video-timeline.js:45-167 | after any sequence of events from a valid widget, the widget is valid and at most one loop timeout is live |
| Timeline.InitialValid | video-timeline.js:24-29 | the freshly built widget is valid |
| Timeline.StrayMoveIsNoOp | video-timeline.js:111 | a move with no engaged handle leaves the whole widget unchanged |
| Timeline.TwoCommitsOneLoop | video-timeline.js:65-92 | after two commits in a row exactly one timeout is live, the second; the first one's id is dead and firing it does nothing |
| Timeline.StaleTimeoutIgnored | video-timeline.js:81-92 | a timeout id handed out before a commit does nothing when it fires after it |
| Timeline.EncoderErrorKeepsState | video-timeline.js:157-158 | an encoder error leaves every part of the widget unchanged |

## Left out

- DOM plumbing: element queries, CSS class toggling and listener registration (lines 3-13, 19-23, 28-29, 34-37, 43-61, 68-69, 79). These are UI wiring with no logic of their own.
- `showPreview` re-registers every listener on each upload; upload handling is outside the modelled core.
- Object-URL creation and revocation and the media reload with the `#t=start,end` fragment (lines 40-41, 75, 83-84). These are browser resource handling; the fragment syntax is that of the temporal dimension in section 4.2.1 of W3C Media Fragments URI 1.0.
- The 100 ms self-rescheduling poll of `showTimeline` (lines 101-108). Only the offset it computes (`Track.MarkerOffset`) is modelled.
- Wall-clock time. A timeout elapsing is the explicit `LoopTimeout` event. The browser's clamp of a negative or NaN delay to 0 is not modelled; `LoopScheduler.Delay` gives the value the widget computes.
- Playback control (`pause`, `play`) and the playback position's own advance. `Fire` reports only the position it seeks to.
- The `gifshot.createGIF` call, GIF encoding and `gifWidth`/`gifHeight` (lines 150-157). The encoder is an external library; only the frame count and the error/success branch are modelled.
- IEEE-754 rounding and the `"Npx"` string round trip. Offsets and times are `real`. A margin written as `${x}px` reads back as `x`; an unset style is `None`.
- NaN or infinite media durations are not modelled: every member taking a `Duration` (`Track.OffsetToTime`, `Track.MarkerOffset`, `DragGesture.TrimWindow`, `DragGesture.Move`, `Export.ExportDuration`, and the `Timeline` transitions) assumes a non-negative real, while `preview.duration` is NaN until metadata has loaded, for instance while the player reloads after a re-trim.
- Track.MarkerOffset: a zero duration yields `None` in place of the `NaNpx`/`Infinitypx` string the source writes.
- Multi-touch: only the first touch point's screen X is an input.
- Timeline.FinishConversion: the `is--loading` class is added before the encoder call and is never removed on an error. The model keeps the `Converting` phase on an error, as the source does.
