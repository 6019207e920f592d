/**
 * `kankaku_touchevents_interpret_event_type` (touchpad/kankaku_touchevents.c):
 * the classification of touchpad/src/touchevents.c with two differences in
 * control flow. The scan over the list has no early return, so every entry
 * with the touch id is overwritten and the event comes from the last of them;
 * and the function returns right after the scan, so a touch id that is not in
 * a non-empty list is never added and `*eventType` is not written.
 */
module KankakuTouchEvents {
  import opened CTypes
  import opened TouchEvents

  /** The index of the last touch with id `id`, if any. */
  function LastIndexOf(s: seq<TouchData>, id: u32): (r: Option<nat>)
    ensures r.Some? ==> r.value < |s| && s[r.value].touchId == id
    ensures r.Some? ==> forall j :: r.value < j < |s| ==> s[j].touchId != id
    ensures r.None? ==> forall j :: 0 <= j < |s| ==> s[j].touchId != id
    decreases |s|
  {
    if s == [] then None
    else if s[|s| - 1].touchId == id then Some(|s| - 1)
    else LastIndexOf(s[..|s| - 1], id)
  }

  /** Every entry with the id of `cur` replaced by `cur`. */
  function OverwriteAll(s: seq<TouchData>, cur: TouchData): (r: seq<TouchData>)
    ensures |r| == |s|
    ensures forall j :: 0 <= j < |s| ==> r[j] == (if s[j].touchId == cur.touchId then cur else s[j])
  {
    seq(|s|, j requires 0 <= j < |s| => if s[j].touchId == cur.touchId then cur else s[j])
  }

  /**
   * What the call does to the list `prev` and to `*eventType`, which held
   * `eventTypeBefore`.
   */
  function InterpretKankaku(prev: seq<TouchData>, cur: TouchData, eventTypeBefore: u32): Interpretation
  {
    if prev == [] then
      Interpretation([cur], if cur.onSurface != 0 then EVENT_TYPE_TOUCH_DOWN else EVENT_TYPE_TOUCH_UP)
    else
      Interpretation(
        OverwriteAll(prev, cur),
        match LastIndexOf(prev, cur.touchId)
        case Some(i) => Classify(prev[i], cur)
        case None => eventTypeBefore)
  }

  /** On a list whose ids are distinct, a known id is handled as by `mInterpretRawTouchInput`. */
  lemma {:induction false} AgreesOnKnownDistinctIds(prev: seq<TouchData>, cur: TouchData, eventTypeBefore: u32)
    requires DistinctIds(prev)
    requires exists j :: 0 <= j < |prev| && prev[j].touchId == cur.touchId
    ensures InterpretKankaku(prev, cur, eventTypeBefore) == Interpret(prev, cur)
  {
    var f := FirstIndexOf(prev, cur.touchId);
    var l := LastIndexOf(prev, cur.touchId);
    assert f.Some? && l.Some?;
    assert f.value == l.value;
    var i := f.value;
    assert OverwriteAll(prev, cur) == prev[i := cur];
  }

  /** A non-empty list never changes length: the append after the early return is unreachable. */
  lemma SizeNeverGrows(prev: seq<TouchData>, cur: TouchData, eventTypeBefore: u32)
    ensures |InterpretKankaku(prev, cur, eventTypeBefore).touches| == if prev == [] then 1 else |prev|
  {
  }

  /**
   * The input that shows the unreachable append: with touch 1 recorded, touch
   * 2 coming down is not recorded and produces no event at all, where
   * `mInterpretRawTouchInput` records it and reports a move.
   */
  lemma NewTouchIsLost()
    ensures var t1 := TouchData(1, 10, 10, 1);
      var t2 := TouchData(2, 50, 50, 1);
      && InterpretKankaku([t1], t2, EVENT_TYPE_TOUCH_UP) == Interpretation([t1], EVENT_TYPE_TOUCH_UP)
      && Interpret([t1], t2) == Interpretation([t1, t2], EVENT_TYPE_TOUCH_MOVE)
  {
    var t1 := TouchData(1, 10, 10, 1);
    var t2 := TouchData(2, 50, 50, 1);
    assert OverwriteAll([t1], t2) == [t1];
  }

  /** The list after feeding `touches` one by one, starting from `prev`. */
  function ReplayKankaku(prev: seq<TouchData>, touches: seq<TouchData>, eventType: u32): seq<TouchData>
    decreases |touches|
  {
    if touches == [] then prev
    else
      var r := InterpretKankaku(prev, touches[0], eventType);
      ReplayKankaku(r.touches, touches[1..], r.eventType)
  }

  /** Starting from an empty list, the list never holds more than one touch, whatever the calls. */
  lemma {:induction false} ListStaysSingle(prev: seq<TouchData>, touches: seq<TouchData>, eventType: u32)
    requires |prev| <= 1
    ensures |ReplayKankaku(prev, touches, eventType)| <= 1
    decreases |touches|
  {
    if touches != [] {
      var r := InterpretKankaku(prev, touches[0], eventType);
      SizeNeverGrows(prev, touches[0], eventType);
      ListStaysSingle(r.touches, touches[1..], r.eventType);
    }
  }

  /**
   * `kankaku_touchevents_interpret_event_type`: a `NULL` `eventType` or list
   * ends the process; otherwise the list and `*eventType` become
   * `InterpretKankaku` of their previous values and the call returns 0.
   */
  method InterpretEventType(prevTouchesList: TouchDataList?, curTouch: TouchData, eventType: EventTypeCell?)
    returns (status: Status)
    requires prevTouchesList != null ==> prevTouchesList.Valid()
    modifies eventType, if prevTouchesList == null then {} else {prevTouchesList, prevTouchesList.entries}
    ensures eventType == null || prevTouchesList == null ==> status == Terminated
    ensures eventType != null && prevTouchesList != null ==>
      && status == Returned(0)
      && prevTouchesList.Valid()
      && prevTouchesList.Touches()
         == InterpretKankaku(old(prevTouchesList.Touches()), curTouch, old(eventType.value)).touches
      && eventType.value
         == InterpretKankaku(old(prevTouchesList.Touches()), curTouch, old(eventType.value)).eventType
  {
    if eventType == null {
      return Terminated;
    } else if prevTouchesList == null {
      return Terminated;
    }
    ghost var prev := prevTouchesList.Touches();
    ghost var before := eventType.value;
    if prevTouchesList.entries.Length == 0 || prevTouchesList.size == 0 {
      prevTouchesList.entries := new TouchData[1];
      prevTouchesList.size := 1;
      prevTouchesList.entries[0] := curTouch;
      if curTouch.onSurface != 0 {
        eventType.value := EVENT_TYPE_TOUCH_DOWN;
      } else {
        eventType.value := EVENT_TYPE_TOUCH_UP;
      }
    } else {
      for touchIdx := 0 to prevTouchesList.size
        invariant prevTouchesList.entries == old(prevTouchesList.entries)
        invariant prevTouchesList.Valid() && |prev| == prevTouchesList.size
        invariant prevTouchesList.entries[..touchIdx] == OverwriteAll(prev[..touchIdx], curTouch)
        invariant prevTouchesList.entries[touchIdx..] == prev[touchIdx..]
        invariant eventType.value == match LastIndexOf(prev[..touchIdx], curTouch.touchId)
          case Some(i) => Classify(prev[i], curTouch)
          case None => before
      {
        var prevTouch := prevTouchesList.entries[touchIdx];
        assert prevTouch == prev[touchIdx];
        assert prev[..touchIdx + 1][..touchIdx] == prev[..touchIdx];
        if prevTouch.touchId == curTouch.touchId {
          eventType.value := Classify(prevTouch, curTouch);
          prevTouchesList.entries[touchIdx] := curTouch;
        }
      }
      assert prev[..prevTouchesList.size] == prev;
    }
    return Returned(0);
  }
}
