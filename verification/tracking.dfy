/**
 * The single-stroke tracker of the C input handlers (touchpad/src/main.c,
 * touchpad/src/main.cc, touchpad/main.c): one tracked touch id, or none
 * (`(ULONG)-1`); a touch-down while idle starts tracking and a new stroke, a
 * move of the tracked touch extends the last stroke, and its touch-up stops
 * tracking.
 */
module StrokeTracking {
  import opened CTypes
  import opened Point2DLists
  import opened Strokes
  import opened TouchEvents

  /** `(ULONG)-1`: no touch is tracked. */
  const NOT_TRACKING: u32 := ULONG_MAX

  /** The tracked id after one classified touch. */
  function NextTrackingId(trackingId: u32, touchId: u32, touchType: u32): u32
  {
    if trackingId == NOT_TRACKING then
      if touchType == EVENT_TYPE_TOUCH_DOWN then touchId else trackingId
    else if touchId == trackingId && touchType == EVENT_TYPE_TOUCH_UP then NOT_TRACKING
    else trackingId
  }

  /**
   * Only a down while idle and an up of the tracked touch change the tracked
   * id; moves, unchanged moves and touches of other ids leave it alone.
   */
  lemma NextTrackingIdCases(trackingId: u32, touchId: u32, touchType: u32)
    ensures var t := NextTrackingId(trackingId, touchId, touchType);
      && (trackingId == NOT_TRACKING && touchType == EVENT_TYPE_TOUCH_DOWN ==> t == touchId)
      && (trackingId == NOT_TRACKING && touchType != EVENT_TYPE_TOUCH_DOWN ==> t == NOT_TRACKING)
      && (trackingId != NOT_TRACKING && touchId != trackingId ==> t == trackingId)
      && (trackingId != NOT_TRACKING && touchType != EVENT_TYPE_TOUCH_UP ==> t == trackingId)
      && (trackingId != NOT_TRACKING && touchId == trackingId && touchType == EVENT_TYPE_TOUCH_UP ==> t == NOT_TRACKING)
  {
  }

  /** The tracker's part of the application state: the tracked id and the strokes drawn. */
  datatype Drawing = Drawing(trackingId: u32, strokes: seq<seq<Point2D>>)

  /** No touch tracked and no strokes. */
  const Idle := Drawing(NOT_TRACKING, [])

  /**
   * The tracking block for one classified touch at `pos`: the drawing after
   * it, or `None` when the handler ends the process ("the application state
   * is broken"): a tracked move with no stroke to extend, or, where
   * `checksLastStrokeSize` (touchpad/src/main.c), an extended stroke of
   * fewer than 2 points.
   */
  function Track(d: Drawing, touchId: u32, touchType: u32, pos: Point2D, checksLastStrokeSize: bool): Option<Drawing>
  {
    if d.trackingId == NOT_TRACKING then
      if touchType == EVENT_TYPE_TOUCH_DOWN then Some(Drawing(touchId, d.strokes + [[pos]])) else Some(d)
    else if touchId == d.trackingId then
      if touchType == EVENT_TYPE_TOUCH_MOVE then
        if d.strokes == [] then None
        else
          var last := d.strokes[|d.strokes| - 1] + [pos];
          if checksLastStrokeSize && |last| < 2 then None
          else Some(Drawing(d.trackingId, d.strokes[..|d.strokes| - 1] + [last]))
      else if touchType == EVENT_TYPE_TOUCH_UP then Some(Drawing(NOT_TRACKING, d.strokes))
      else Some(d)
    else Some(d)
  }

  /**
   * What one touch does to the drawing: the tracked id follows
   * `NextTrackingId`; a down while idle adds the stroke `[pos]`; a move of the
   * tracked touch appends `pos` to the last stroke; nothing else changes the
   * strokes. Strokes before the last are never touched.
   */
  lemma TrackCases(d: Drawing, touchId: u32, touchType: u32, pos: Point2D, checksLastStrokeSize: bool)
    ensures var r := Track(d, touchId, touchType, pos, checksLastStrokeSize);
      r.Some? ==>
        && r.value.trackingId == NextTrackingId(d.trackingId, touchId, touchType)
        && (d.trackingId == NOT_TRACKING && touchType == EVENT_TYPE_TOUCH_DOWN ==>
              r.value.strokes == d.strokes + [[pos]])
        && (d.trackingId != NOT_TRACKING && touchId == d.trackingId && touchType == EVENT_TYPE_TOUCH_MOVE ==>
              |r.value.strokes| == |d.strokes| &&
              r.value.strokes[..|d.strokes| - 1] == d.strokes[..|d.strokes| - 1] &&
              r.value.strokes[|d.strokes| - 1] == d.strokes[|d.strokes| - 1] + [pos])
        && (!(d.trackingId == NOT_TRACKING && touchType == EVENT_TYPE_TOUCH_DOWN) &&
            !(d.trackingId != NOT_TRACKING && touchId == d.trackingId && touchType == EVENT_TYPE_TOUCH_MOVE) ==>
              r.value.strokes == d.strokes)
    ensures Track(d, touchId, touchType, pos, checksLastStrokeSize).None? <==>
      d.trackingId != NOT_TRACKING && touchId == d.trackingId && touchType == EVENT_TYPE_TOUCH_MOVE &&
      (d.strokes == [] || (checksLastStrokeSize && d.strokes[|d.strokes| - 1] == []))
  {
    var r := Track(d, touchId, touchType, pos, checksLastStrokeSize);
    if r.Some? && d.trackingId != NOT_TRACKING && touchId == d.trackingId && touchType == EVENT_TYPE_TOUCH_MOVE {
      assert (d.strokes[..|d.strokes| - 1] + [d.strokes[|d.strokes| - 1] + [pos]])[..|d.strokes| - 1]
          == d.strokes[..|d.strokes| - 1];
    }
  }

  /** While a touch is tracked, there is a non-empty last stroke for it to extend. */
  ghost predicate Drawable(d: Drawing)
  {
    d.trackingId != NOT_TRACKING ==> |d.strokes| > 0 && |d.strokes[|d.strokes| - 1]| > 0
  }

  /**
   * From a drawable state no touch ends the process, whichever handler runs
   * it: the size check of touchpad/src/main.c never fires, and the drawing
   * stays drawable.
   */
  lemma TrackKeepsDrawable(d: Drawing, touchId: u32, touchType: u32, pos: Point2D)
    requires Drawable(d)
    ensures Track(d, touchId, touchType, pos, true) == Track(d, touchId, touchType, pos, false)
    ensures Track(d, touchId, touchType, pos, true).Some?
    ensures Drawable(Track(d, touchId, touchType, pos, true).value)
  {
  }

  /** One touch as the handlers see it: its id, its classified event and its position. */
  datatype TouchEvent = TouchEvent(touchId: u32, touchType: u32, pos: Point2D)

  /** The drawing after a run of touches; `None` once the process has ended. */
  function TrackAll(d: Drawing, events: seq<TouchEvent>, checksLastStrokeSize: bool): Option<Drawing>
  {
    if events == [] then Some(d)
    else
      match TrackAll(d, events[..|events| - 1], checksLastStrokeSize)
      case None => None
      case Some(e) =>
        var ev := events[|events| - 1];
        Track(e, ev.touchId, ev.touchType, ev.pos, checksLastStrokeSize)
  }

  /**
   * Starting idle, no run of touches ever ends the process, both handlers
   * reach the same drawing, and strokes are only ever added or extended:
   * earlier strokes stay as they were, apart from the one being drawn.
   */
  lemma {:induction false} TrackAllNeverBreaks(d: Drawing, events: seq<TouchEvent>)
    requires Drawable(d)
    ensures TrackAll(d, events, true) == TrackAll(d, events, false)
    ensures TrackAll(d, events, true).Some? && Drawable(TrackAll(d, events, true).value)
    ensures |d.strokes| <= |TrackAll(d, events, true).value.strokes|
    ensures d.strokes != [] ==>
      TrackAll(d, events, true).value.strokes[..|d.strokes| - 1] == d.strokes[..|d.strokes| - 1]
  {
    if events != [] {
      var prefix := events[..|events| - 1];
      TrackAllNeverBreaks(d, prefix);
      var e := TrackAll(d, prefix, true).value;
      var ev := events[|events| - 1];
      TrackKeepsDrawable(e, ev.touchId, ev.touchType, ev.pos);
      TrackCases(e, ev.touchId, ev.touchType, ev.pos, true);
      var r := TrackAll(d, events, true).value;
      if d.strokes != [] {
        var n := |d.strokes| - 1;
        assert e.strokes[..n] == d.strokes[..n];
        if r.strokes != e.strokes {
          if |r.strokes| == |e.strokes| {
            assert r.strokes[..|e.strokes| - 1] == e.strokes[..|e.strokes| - 1];
            assert r.strokes[..n] == r.strokes[..|e.strokes| - 1][..n];
            assert e.strokes[..n] == e.strokes[..|e.strokes| - 1][..n];
          } else {
            assert r.strokes[..n] == e.strokes[..n];
          }
        }
      }
    }
  }

  /** The idle state is drawable, so a fresh application never hits a broken state. */
  lemma IdleNeverBreaks(events: seq<TouchEvent>)
    ensures TrackAll(Idle, events, true).Some?
    ensures TrackAll(Idle, events, true) == TrackAll(Idle, events, false)
  {
    TrackAllNeverBreaks(Idle, events);
  }

  /**
   * The tracking block of the input handlers, run on the stroke list for one
   * classified touch: it returns the new tracked id and ends the process
   * exactly where `Track` says the state is broken.
   */
  method TrackTouch(strokes: StrokeList, trackingId: u32, touchId: u32, touchType: u32, pos: Point2D,
                    checksLastStrokeSize: bool)
    returns (status: Status, newTrackingId: u32)
    requires strokes.Valid()
    modifies strokes, strokes.Repr
    ensures var next := Track(Drawing(trackingId, old(strokes.Strokes)), touchId, touchType, pos, checksLastStrokeSize);
      && (status == Terminated <==> next.None?)
      && (next.Some? ==>
            status == Returned(0) && strokes.Valid() && fresh(strokes.Repr - old(strokes.Repr)) &&
            Drawing(newTrackingId, strokes.Strokes) == next.value)
  {
    newTrackingId := trackingId;
    if trackingId == NOT_TRACKING {
      if touchType == EVENT_TYPE_TOUCH_DOWN {
        newTrackingId := touchId;
        var _ := CreateNewStroke(pos, strokes);
      }
    } else if touchId == trackingId {
      if touchType == EVENT_TYPE_TOUCH_MOVE {
        if strokes.entries.Length == 0 || strokes.size == 0 {
          return Terminated, newTrackingId;
        }
        var _ := strokes.AppendToLast(pos);
        if checksLastStrokeSize {
          var stroke := strokes.entries[strokes.size - 1];
          if stroke.size < 2 {
            return Terminated, newTrackingId;
          }
        }
      } else if touchType == EVENT_TYPE_TOUCH_UP {
        newTrackingId := NOT_TRACKING;
      }
    }
    status := Returned(0);
  }
}
