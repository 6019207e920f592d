/**
 * Classification of raw touch samples into touch events (touchpad/src/touchevents.c):
 * each sample is compared with the previous sample of the same touch id,
 * kept in a list that the classification then updates.
 */
module TouchEvents {
  import opened CTypes

  const EVENT_TYPE_TOUCH_DOWN: u32 := 0
  const EVENT_TYPE_TOUCH_MOVE: u32 := 1
  const EVENT_TYPE_TOUCH_UP: u32 := 2
  const EVENT_TYPE_TOUCH_MOVE_UNCHANGED: u32 := 3

  /** `TOUCH_DATA`; `OnSurface` is a C truth value. */
  datatype TouchData = TouchData(touchId: u32, x: u32, y: u32, onSurface: int32)

  /** `TOUCH_DATA_LIST`; a `NULL` `Entries` is an empty array. */
  class TouchDataList {
    var entries: array<TouchData>
    var size: nat

    ghost predicate Valid()
      reads this
    {
      size == entries.Length
    }

    /** The recorded touches, in order. */
    function Touches(): seq<TouchData>
      reads this, entries
    {
      entries[..]
    }

    /** `(TOUCH_DATA_LIST){.Entries = NULL, .Size = 0}` */
    constructor Empty()
      ensures Valid() && Touches() == [] && fresh(entries)
    {
      entries := new TouchData[0];
      size := 0;
    }
  }

  /** The `unsigned int` that the `eventType` out-parameter points to. */
  class EventTypeCell {
    var value: u32

    constructor (initial: u32)
      ensures value == initial
    {
      value := initial;
    }
  }

  /** The event for a touch id already in the list, from its previous and current sample. */
  function Classify(prev: TouchData, cur: TouchData): u32
  {
    if prev.onSurface != 0 && cur.onSurface != 0 then
      if prev.x == cur.x && prev.y == cur.y then EVENT_TYPE_TOUCH_MOVE_UNCHANGED else EVENT_TYPE_TOUCH_MOVE
    else if prev.onSurface != 0 && cur.onSurface == 0 then
      EVENT_TYPE_TOUCH_UP
    else if prev.onSurface == 0 && cur.onSurface != 0 then
      EVENT_TYPE_TOUCH_DOWN
    else
      EVENT_TYPE_TOUCH_UP
  }

  /** The five cases of the classification, each in both directions. */
  lemma ClassifyCases(prev: TouchData, cur: TouchData)
    ensures Classify(prev, cur) == EVENT_TYPE_TOUCH_MOVE_UNCHANGED <==>
      prev.onSurface != 0 && cur.onSurface != 0 && prev.x == cur.x && prev.y == cur.y
    ensures Classify(prev, cur) == EVENT_TYPE_TOUCH_MOVE <==>
      prev.onSurface != 0 && cur.onSurface != 0 && (prev.x != cur.x || prev.y != cur.y)
    ensures Classify(prev, cur) == EVENT_TYPE_TOUCH_DOWN <==> prev.onSurface == 0 && cur.onSurface != 0
    ensures Classify(prev, cur) == EVENT_TYPE_TOUCH_UP <==> cur.onSurface == 0
  {
  }

  /** The index of the first touch with id `id`, if any. */
  function FirstIndexOf(s: seq<TouchData>, id: u32): (r: Option<nat>)
    ensures r.Some? ==> r.value < |s| && s[r.value].touchId == id
    ensures r.Some? ==> forall j :: 0 <= j < r.value ==> s[j].touchId != id
    ensures r.None? ==> forall j :: 0 <= j < |s| ==> s[j].touchId != id
    decreases |s|
  {
    if s == [] then None
    else if s[0].touchId == id then Some(0)
    else match FirstIndexOf(s[1..], id)
      case None => None
      case Some(k) => Some(k + 1)
  }

  /** The list and the event a call leaves behind. */
  datatype Interpretation = Interpretation(touches: seq<TouchData>, eventType: u32)

  /** What `mInterpretRawTouchInput` does to the list `prev` and to `*eventType`. */
  function Interpret(prev: seq<TouchData>, cur: TouchData): Interpretation
  {
    if prev == [] then
      Interpretation([cur], if cur.onSurface != 0 then EVENT_TYPE_TOUCH_DOWN else EVENT_TYPE_TOUCH_UP)
    else
      match FirstIndexOf(prev, cur.touchId)
      case Some(i) => Interpretation(prev[i := cur], Classify(prev[i], cur))
      case None =>
        Interpretation(prev + [cur], if cur.onSurface != 0 then EVENT_TYPE_TOUCH_MOVE else EVENT_TYPE_TOUCH_UP)
  }

  /** An empty list becomes the current touch alone; the event is down when it is on the surface, up otherwise. */
  lemma InterpretEmpty(cur: TouchData)
    ensures Interpret([], cur).touches == [cur]
    ensures Interpret([], cur).eventType == (if cur.onSurface != 0 then EVENT_TYPE_TOUCH_DOWN else EVENT_TYPE_TOUCH_UP)
  {
  }

  /**
   * A known id: only its first entry is replaced by the current touch, the
   * size and every other entry stay, and the event is classified from the
   * replaced entry.
   */
  lemma InterpretKnownId(prev: seq<TouchData>, cur: TouchData, i: nat)
    requires i < |prev| && prev[i].touchId == cur.touchId
    requires forall j :: 0 <= j < i ==> prev[j].touchId != cur.touchId
    ensures var r := Interpret(prev, cur);
      && |r.touches| == |prev|
      && r.touches[i] == cur
      && (forall j :: 0 <= j < |prev| && j != i ==> r.touches[j] == prev[j])
      && r.eventType == Classify(prev[i], cur)
  {
    var k := FirstIndexOf(prev, cur.touchId);
    assert k.Some? && k.value == i;
  }

  /**
   * An unknown id is appended after the recorded touches, which keep their
   * order; the event is a move (not a down) when the touch is on the surface.
   */
  lemma InterpretUnknownId(prev: seq<TouchData>, cur: TouchData)
    requires prev != []
    requires forall j :: 0 <= j < |prev| ==> prev[j].touchId != cur.touchId
    ensures var r := Interpret(prev, cur);
      && r.touches == prev + [cur]
      && r.eventType == (if cur.onSurface != 0 then EVENT_TYPE_TOUCH_MOVE else EVENT_TYPE_TOUCH_UP)
  {
  }

  /** No two recorded touches share a touch id. */
  ghost predicate DistinctIds(s: seq<TouchData>)
  {
    forall i, j :: 0 <= i < j < |s| ==> s[i].touchId != s[j].touchId
  }

  /** Touch ids stay pairwise distinct, because an id is appended only when no entry has it. */
  lemma InterpretKeepsIdsDistinct(prev: seq<TouchData>, cur: TouchData)
    requires DistinctIds(prev)
    ensures DistinctIds(Interpret(prev, cur).touches)
  {
    var r := Interpret(prev, cur).touches;
    if prev != [] {
      match FirstIndexOf(prev, cur.touchId)
      case Some(k) =>
        forall i, j | 0 <= i < j < |r|
          ensures r[i].touchId != r[j].touchId
        {
          if i == k {
            assert r[j] == prev[j];
          } else if j == k {
            assert r[i] == prev[i];
          } else {
            assert r[i] == prev[i] && r[j] == prev[j];
          }
        }
      case None =>
        forall i, j | 0 <= i < j < |r|
          ensures r[i].touchId != r[j].touchId
        {
          assert r[i] == prev[i];
        }
    }
  }

  /** After a call, the current touch is what the list holds for its id. */
  lemma InterpretRecordsTouch(prev: seq<TouchData>, cur: TouchData)
    requires DistinctIds(prev)
    ensures var r := Interpret(prev, cur).touches;
      FirstIndexOf(r, cur.touchId).Some? && r[FirstIndexOf(r, cur.touchId).value] == cur
  {
    var r := Interpret(prev, cur).touches;
    InterpretKeepsIdsDistinct(prev, cur);
    var k := if prev == [] then 0 else match FirstIndexOf(prev, cur.touchId)
      case Some(i) => i
      case None => |prev|;
    assert r[k] == cur;
    var f := FirstIndexOf(r, cur.touchId);
    assert f.Some? && f.value == k;
  }

  /**
   * `mInterpretRawTouchInput`: a `NULL` `eventType` or list ends the process;
   * otherwise the list and `*eventType` become `Interpret` of the previous
   * list and the call returns 0.
   */
  method InterpretRawTouchInput(prevTouchesList: TouchDataList?, curTouch: TouchData, eventType: EventTypeCell?)
    returns (status: Status)
    requires prevTouchesList != null ==> prevTouchesList.Valid()
    modifies eventType, if prevTouchesList == null then {} else {prevTouchesList, prevTouchesList.entries}
    ensures eventType == null || prevTouchesList == null ==> status == Terminated
    ensures eventType != null && prevTouchesList != null ==>
      && status == Returned(0)
      && prevTouchesList.Valid()
      && prevTouchesList.Touches() == Interpret(old(prevTouchesList.Touches()), curTouch).touches
      && eventType.value == Interpret(old(prevTouchesList.Touches()), curTouch).eventType
    ensures prevTouchesList != null ==>
      prevTouchesList.entries == old(prevTouchesList.entries) || fresh(prevTouchesList.entries)
  {
    if eventType == null {
      return Terminated;
    }
    if prevTouchesList == null {
      return Terminated;
    }
    ghost var prev := prevTouchesList.Touches();
    if prevTouchesList.entries.Length == 0 || prevTouchesList.size == 0 {
      prevTouchesList.entries := new TouchData[1];
      prevTouchesList.size := 1;
      prevTouchesList.entries[0] := curTouch;
      if curTouch.onSurface != 0 {
        eventType.value := EVENT_TYPE_TOUCH_DOWN;
      } else {
        eventType.value := EVENT_TYPE_TOUCH_UP;
      }
      return Returned(0);
    }
    for touchIdx := 0 to prevTouchesList.size
      invariant prevTouchesList.Touches() == prev
      invariant forall j :: 0 <= j < touchIdx ==> prev[j].touchId != curTouch.touchId
    {
      var prevTouch := prevTouchesList.entries[touchIdx];
      if prevTouch.touchId == curTouch.touchId {
        eventType.value := Classify(prevTouch, curTouch);
        prevTouchesList.entries[touchIdx] := curTouch;
        return Returned(0);
      }
    }
    // this touch id has not been recorded before
    var newTouchesListSize := prevTouchesList.size + 1;
    var tmpTouchesList := new TouchData[newTouchesListSize];
    for k := 0 to prevTouchesList.size
      modifies tmpTouchesList
      invariant tmpTouchesList[..k] == prev[..k]
    {
      tmpTouchesList[k] := prevTouchesList.entries[k];
    }
    tmpTouchesList[newTouchesListSize - 1] := curTouch;
    prevTouchesList.entries := tmpTouchesList;
    prevTouchesList.size := newTouchesListSize;
    if curTouch.onSurface != 0 {
      eventType.value := EVENT_TYPE_TOUCH_MOVE;
    } else {
      eventType.value := EVENT_TYPE_TOUCH_UP;
    }
    return Returned(0);
  }
}
