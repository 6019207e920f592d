/**
 * The file-level state of touchpad/src/main.cc: the registered devices, the
 * previous touches, the strokes and the tracked touch, with the touch part
 * of the input handler, and the choice of the window size in `wWinMain`.
 */
module DesktopApp {
  import opened CTypes
  import opened Point2DLists
  import opened Strokes
  import opened TouchEvents
  import opened HidRegistry
  import opened StrokeTracking

  /** The window size used when no link collection reports both X and Y. */
  const DEFAULT_WIDTH: int32 := 720
  const DEFAULT_HEIGHT: int32 := 480

  /** The index of the first link collection with both `HasX` and `HasY` set, if any. */
  function FirstWithXY(infos: seq<LinkCollectionInfo>): (r: Option<nat>)
    ensures r.None? <==> forall i :: 0 <= i < |infos| ==> infos[i].hasX == 0 || infos[i].hasY == 0
    ensures r.Some? ==>
      && r.value < |infos| && infos[r.value].hasX != 0 && infos[r.value].hasY != 0
      && forall i :: 0 <= i < r.value ==> infos[i].hasX == 0 || infos[i].hasY == 0
  {
    if infos == [] then None
    else if infos[0].hasX != 0 && infos[0].hasY != 0 then Some(0)
    else match FirstWithXY(infos[1..])
      case None => None
      case Some(i) => Some(i + 1)
  }

  /**
   * The window size for a device's link collections: the `right` and
   * `bottom` of the first one reporting X and Y, otherwise 720 x 480.
   */
  function WindowSize(infos: seq<LinkCollectionInfo>): (int32, int32)
  {
    match FirstWithXY(infos)
    case Some(i) => (infos[i].physicalRect.right, infos[i].physicalRect.bottom)
    case None => (DEFAULT_WIDTH, DEFAULT_HEIGHT)
  }

  /**
   * The window-size selection of `wWinMain`: with no device, or a first
   * device without link collections, it returns -1; otherwise it goes on
   * with the size `WindowSize` picks from the first device.
   */
  method SelectWindowSize(deviceInfoList: HidDeviceInfoList) returns (status: Status, nWidth: int32, nHeight: int32)
    requires deviceInfoList.Valid()
    requires deviceInfoList.size > 0 ==> deviceInfoList.entries[0].linkColInfoList.Valid()
    ensures deviceInfoList.size == 0 ==> status == Returned(-1)
    ensures deviceInfoList.size > 0 ==>
      var infos := deviceInfoList.entries[0].linkColInfoList.Infos();
      && (infos == [] ==> status == Returned(-1))
      && (infos != [] ==> status == Returned(0) && (nWidth, nHeight) == WindowSize(infos))
  {
    nWidth := DEFAULT_WIDTH;
    nHeight := DEFAULT_HEIGHT;
    if deviceInfoList.entries.Length == 0 || deviceInfoList.size == 0 {
      return Returned(-1), nWidth, nHeight;
    }
    var inputDevice := deviceInfoList.entries[0];
    var links := inputDevice.linkColInfoList;
    if links.entries.Length == 0 || links.size == 0 {
      return Returned(-1), nWidth, nHeight;
    }
    ghost var infos := links.Infos();
    var linkColIdx := 0;
    while linkColIdx < links.size
      invariant 0 <= linkColIdx <= links.size
      invariant forall i :: 0 <= i < linkColIdx ==> infos[i].hasX == 0 || infos[i].hasY == 0
      invariant (nWidth, nHeight) == (DEFAULT_WIDTH, DEFAULT_HEIGHT)
    {
      var linkCollectionInfo := links.entries[linkColIdx];
      if linkCollectionInfo.hasX != 0 && linkCollectionInfo.hasY != 0 {
        nWidth := linkCollectionInfo.physicalRect.right;
        nHeight := linkCollectionInfo.physicalRect.bottom;
        assert FirstWithXY(infos) == Some(linkColIdx);
        break;
      }
      linkColIdx := linkColIdx + 1;
    }
    status := Returned(0);
  }

  /**
   * Once some link collection reports X and Y, link collections registered
   * after it never change the window size.
   */
  lemma WindowSizeFirstWins(infos: seq<LinkCollectionInfo>, more: seq<LinkCollectionInfo>)
    requires FirstWithXY(infos).Some?
    ensures WindowSize(infos + more) == WindowSize(infos)
  {
    var i := FirstWithXY(infos).value;
    assert (infos + more)[i] == infos[i];
  }

  /** The globals `g_deviceInfoList`, `g_LastRawInputMessageTouches`, `g_Strokes` and `g_TrackingTouchID`. */
  class Globals {
    var deviceInfoList: HidDeviceInfoList
    var lastRawInputMessageTouches: TouchDataList
    var strokes: StrokeList
    var trackingTouchId: u32

    /** The lists are well formed and the stroke storage shares nothing with the rest. */
    ghost predicate Valid()
      reads this, lastRawInputMessageTouches, strokes, strokes.Repr
    {
      && lastRawInputMessageTouches.Valid() && strokes.Valid()
      && this !in strokes.Repr && lastRawInputMessageTouches !in strokes.Repr
      && lastRawInputMessageTouches.entries !in strokes.Repr
    }

    /** The tracker's view of the globals. */
    ghost function Tracker(): Drawing
      reads this, strokes
    {
      Drawing(trackingTouchId, strokes.Strokes)
    }

    /** The static initialisers: empty lists and no tracked touch. */
    constructor ()
      ensures Valid() && fresh(strokes.Repr)
      ensures deviceInfoList.Devices() == [] && lastRawInputMessageTouches.Touches() == []
      ensures Tracker() == Idle
    {
      deviceInfoList := new HidDeviceInfoList.Empty();
      lastRawInputMessageTouches := new TouchDataList.Empty();
      strokes := new StrokeList.Empty();
      trackingTouchId := NOT_TRACKING;
    }

    /**
     * The touch part of `mHandleInputMessage` for one parsed touch: the touch
     * is classified against the previous touches, which it updates, and the
     * tracker runs on the event; a tracked move with no stroke ends the
     * process. There is no drawing switch and no check of the stroke's size.
     */
    method HandleTouch(curTouch: TouchData) returns (status: Status)
      requires Valid()
      modifies this, lastRawInputMessageTouches, lastRawInputMessageTouches.entries, strokes, strokes.Repr
      ensures lastRawInputMessageTouches == old(lastRawInputMessageTouches) && strokes == old(strokes)
      ensures deviceInfoList == old(deviceInfoList)
      ensures var interpretation := Interpret(old(lastRawInputMessageTouches.Touches()), curTouch);
        var next := Track(old(Tracker()), curTouch.touchId, interpretation.eventType,
                          Point2D(curTouch.x, curTouch.y), false);
        && (status == Terminated <==> next.None?)
        && (next.Some? ==>
              status == Returned(0) && Valid() && fresh(strokes.Repr - old(strokes.Repr)) &&
              lastRawInputMessageTouches.Touches() == interpretation.touches && Tracker() == next.value)
    {
      var touchType := new EventTypeCell(0);
      // the call cannot fail here: both pointers are valid
      var _ := InterpretRawTouchInput(lastRawInputMessageTouches, curTouch, touchType);
      assert lastRawInputMessageTouches.entries !in strokes.Repr;
      status, trackingTouchId :=
        TrackTouch(strokes, trackingTouchId, curTouch.touchId, touchType.value, Point2D(curTouch.x, curTouch.y), false);
    }
  }
}
