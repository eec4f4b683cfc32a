/** The loop-playback scheduler. The browser's pending loop timeouts are a
    map from timeout id to the window its callback was created for; the
    widget keeps the id of the last one it armed. Re-trimming cancels that
    id and arms a new timeout; a firing timeout seeks to the window's start
    and arms the next one for the same window. */
module LoopScheduler {
  import opened Wrappers
  import opened Track

  /** `timers` are the live timeouts, `handle` the id the widget stores
      (loopTrimVideo), `nextId` the id the next timeout will get. */
  datatype Scheduler = Scheduler(timers: map<nat, Option<Window>>, handle: Option<nat>, nextId: nat) {

    /** Every live timeout is the one the widget holds, and no id has been
        handed out twice. */
    predicate Valid() {
      && (forall id :: id in timers ==> handle == Some(id))
      && (forall id :: id in timers ==> id < nextId)
      && (handle.Some? ==> handle.value < nextId)
    }
  }

  /** No timeout armed yet. */
  const NoLoop: Scheduler := Scheduler(map[], None, 0)

  /** What a firing timeout did: the scheduler afterwards, and the position
      the player was sought to, if any. */
  datatype Fired = Fired(loop: Scheduler, seek: Option<real>)

  /** The timeout interval in milliseconds: the window's length times 1000.
      An undefined window gives NaN, modelled as None. */
  function Delay(w: Option<Window>): (ms: Option<real>)
    ensures ms.Some? <==> w.Some?
    ensures ms.Some? ==> ms.value / 1000.0 == w.value.end - w.value.start
    ensures ms.Some? ==> (ms.value < 0.0 <==> w.value.end < w.value.start)
  {
    match w
    case None => None
    case Some(win) => Some((win.end - win.start) * 1000.0)
  }

  /** A valid scheduler has at most one live timeout. */
  lemma AtMostOneTimer(s: Scheduler)
    requires s.Valid()
    ensures |s.timers| <= 1
  {
    if s.handle.None? {
      assert s.timers.Keys == {};
    } else {
      assert s.timers.Keys <= {s.handle.value};
      assert s.timers.Keys == {} || s.timers.Keys == {s.handle.value};
    }
    assert |s.timers| == |s.timers.Keys|;
  }

  /** Cancels the stored timeout (clearTimeout of the stored id). */
  function Cancel(s: Scheduler): (r: Scheduler)
    ensures s.handle.Some? ==> s.handle.value !in r.timers
    ensures r.timers.Keys <= s.timers.Keys
    ensures s.Valid() ==> r.timers == map[]
    ensures r.handle == s.handle && r.nextId == s.nextId
  {
    match s.handle
    case None => s
    case Some(id) => s.(timers := s.timers - {id})
  }

  /** Arms a fresh timeout for window `w` and stores its id. */
  function Arm(s: Scheduler, w: Option<Window>): (r: Scheduler)
    ensures s.nextId !in s.timers ==> |r.timers| == |s.timers| + 1
    ensures r.handle == Some(s.nextId) && s.nextId in r.timers && r.timers[s.nextId] == w
    ensures s.timers.Keys <= r.timers.Keys
    ensures forall id :: id in s.timers && id != s.nextId ==> r.timers[id] == s.timers[id]
    ensures r.nextId > s.nextId
  {
    Scheduler(s.timers[s.nextId := w], Some(s.nextId), s.nextId + 1)
  }

  /** Re-trims to window `w`: the old timeout is cancelled before the new
      one is armed, so exactly one timeout is live afterwards and it is
      the new one. */
  function Retrim(s: Scheduler, w: Option<Window>): (r: Scheduler)
    ensures s.Valid() ==> r.Valid()
    ensures s.Valid() ==> r.timers == map[s.nextId := w] && |r.timers| == 1
    ensures s.Valid() ==> forall id :: id in s.timers ==> id !in r.timers
    ensures r.handle == Some(s.nextId) && s.nextId in r.timers && Delay(r.timers[s.nextId]) == Delay(w)
  {
    Arm(Cancel(s), w)
  }

  /** Timeout `id` fires. A timeout that is not live (cancelled, or already
      fired) does nothing. A live one is consumed; for a defined window the
      callback seeks to its start and arms the next timeout for the same
      window. For an undefined window the seek to an undefined position
      raises, so nothing is sought and nothing is re-armed. */
  function Fire(s: Scheduler, id: nat): (r: Fired)
    ensures id !in s.timers ==> r == Fired(s, None)
    ensures s.Valid() ==> r.loop.Valid()
    ensures s.Valid() && id in s.timers ==> id !in r.loop.timers
    ensures id in s.timers && s.timers[id].Some? ==>
      && r.seek == Some(s.timers[id].value.start)
      && r.loop.handle == Some(s.nextId)
      && s.nextId in r.loop.timers
      && r.loop.timers[s.nextId] == s.timers[id]
    ensures id in s.timers && s.timers[id].None? ==> r.seek.None? && |r.loop.timers| < |s.timers|
  {
    if id !in s.timers then Fired(s, None)
    else
      var consumed := s.(timers := s.timers - {id});
      match s.timers[id]
      case None => Fired(consumed, None)
      case Some(win) => Fired(Arm(consumed, Some(win)), Some(win.start))
  }

  /** On a valid scheduler a firing loop keeps exactly one timeout live,
      for the same window and hence the same interval. */
  lemma FireRearmsSameLoop(s: Scheduler, id: nat)
    requires s.Valid() && id in s.timers && s.timers[id].Some?
    ensures Fire(s, id).loop.timers == map[s.nextId := s.timers[id]]
    ensures |Fire(s, id).loop.timers| == 1
    ensures Delay(Fire(s, id).loop.timers[s.nextId]) == Delay(s.timers[id])
  {
  }
}
