/**
 * The application state of touchpad/main.c: the registered devices, the
 * previous touches, the tracked touch id and the capture switch. Here the
 * input handler only follows the tracked id; it draws nothing.
 */
module CaptureApp {
  import opened CTypes
  import opened TouchEvents
  import opened HidRegistry
  import opened StrokeTracking

  /** `ApplicationState`, reached through `g_app_state`. */
  class ApplicationState {
    var deviceInfoList: HidDeviceInfoList
    var previousTouches: TouchDataList
    var trackingTouchId: u32
    var isCapturingRawInput: int32

    /** The state `main` sets up: empty lists, no tracked touch, capture off. */
    constructor ()
      ensures deviceInfoList.Devices() == [] && previousTouches.Touches() == []
      ensures trackingTouchId == NOT_TRACKING && isCapturingRawInput == 0
    {
      deviceInfoList := new HidDeviceInfoList.Empty();
      previousTouches := new TouchDataList.Empty();
      trackingTouchId := NOT_TRACKING;
      isCapturingRawInput := 0;
    }

    /**
     * The tracking part of `mHandleInputMessage` for one touch whose event
     * the classifier has already produced: while capturing, the tracked id
     * follows `NextTrackingId`; otherwise nothing happens. No code in the
     * file ever sets the capture switch, so from the initial state the
     * handler changes nothing.
     */
    method HandleTouch(touchId: u32, touchType: u32)
      modifies this
      ensures deviceInfoList == old(deviceInfoList) && previousTouches == old(previousTouches)
      ensures isCapturingRawInput == old(isCapturingRawInput)
      ensures trackingTouchId ==
        if old(isCapturingRawInput) != 0 then NextTrackingId(old(trackingTouchId), touchId, touchType)
        else old(trackingTouchId)
    {
      if isCapturingRawInput != 0 {
        if trackingTouchId == NOT_TRACKING {
          if touchType == EVENT_TYPE_TOUCH_DOWN {
            trackingTouchId := touchId;
          }
        } else if touchId == trackingTouchId {
          if touchType == EVENT_TYPE_TOUCH_MOVE {
          } else if touchType == EVENT_TYPE_TOUCH_UP {
            trackingTouchId := NOT_TRACKING;
          }
        }
      }
    }
  }

  /** The tracked ids after a run of touches, while capturing. */
  function TrackIds(trackingId: u32, events: seq<TouchEvent>): u32
  {
    if events == [] then trackingId
    else
      var ev := events[|events| - 1];
      NextTrackingId(TrackIds(trackingId, events[..|events| - 1]), ev.touchId, ev.touchType)
  }

  /**
   * The tracked id here is the one the drawing handlers keep: over any run
   * of touches from the idle state, it equals the tracked id of
   * `TrackAll`.
   */
  lemma {:induction false} TrackIdsAgreeWithDrawing(events: seq<TouchEvent>)
    ensures TrackAll(Idle, events, true).Some?
    ensures TrackIds(NOT_TRACKING, events) == TrackAll(Idle, events, true).value.trackingId
  {
    IdleNeverBreaks(events);
    if events != [] {
      var prefix := events[..|events| - 1];
      TrackIdsAgreeWithDrawing(prefix);
      var e := TrackAll(Idle, prefix, true).value;
      var ev := events[|events| - 1];
      TrackCases(e, ev.touchId, ev.touchType, ev.pos, true);
    }
  }
}
