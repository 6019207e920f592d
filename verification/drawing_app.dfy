/**
 * The application state of touchpad/src/main.c (`ApplicationState`): the
 * registered devices, the previous touch of every contact, the strokes, the
 * tracked touch, the drawing switch and its key bindings, and the handlers
 * for classified touches and key releases.
 */
module DrawingApp {
  import opened CTypes
  import opened Point2DLists
  import opened Strokes
  import opened TouchEvents
  import opened HidRegistry
  import opened StrokeTracking

  /** `VK_ESCAPE` */
  const VK_ESCAPE: int32 := 0x1B
  /** `VK_F3` */
  const VK_F3: int32 := 0x72
  /** `VK_Q_KEY` */
  const VK_Q_KEY: int32 := 0x51
  /** `VK_C_KEY` */
  const VK_C_KEY: int32 := 0x43

  /** The four key bindings, in the order the key-up handler compares them. */
  datatype KeyBindings = KeyBindings(turnOff: int32, turnOn: int32, clearCanvas: int32, quit: int32)

  /** What a released key asks for. */
  datatype KeyAction = TurnOffDrawing | TurnOnDrawing | ClearCanvas | Quit | NoAction

  /** The first binding that `virtualKeyCode` matches decides the action. */
  function KeyActionFor(keys: KeyBindings, virtualKeyCode: int32): (a: KeyAction)
    ensures a == TurnOffDrawing <==> virtualKeyCode == keys.turnOff
    ensures a == TurnOnDrawing <==> virtualKeyCode != keys.turnOff && virtualKeyCode == keys.turnOn
    ensures a == ClearCanvas <==>
      virtualKeyCode != keys.turnOff && virtualKeyCode != keys.turnOn && virtualKeyCode == keys.clearCanvas
    ensures a == Quit <==>
      virtualKeyCode !in {keys.turnOff, keys.turnOn, keys.clearCanvas} && virtualKeyCode == keys.quit
  {
    if virtualKeyCode == keys.turnOff then TurnOffDrawing
    else if virtualKeyCode == keys.turnOn then TurnOnDrawing
    else if virtualKeyCode == keys.clearCanvas then ClearCanvas
    else if virtualKeyCode == keys.quit then Quit
    else NoAction
  }

  /** The scalar part of the state that the key-up handler changes. */
  datatype ControlState = ControlState(
    trackingTouchId: u32, isDrawing: int32,
    callBlockInputFlag: int32, callUnblockInputFlag: int32, quitPosted: bool)

  /**
   * The key-up handler on the scalar state: ESC stops drawing and asks for
   * input to be unblocked, F3 starts drawing and asks for input to be
   * blocked, C forgets the tracked touch, Q posts the quit message.
   */
  function KeyUp(c: ControlState, keys: KeyBindings, virtualKeyCode: int32): ControlState
  {
    match KeyActionFor(keys, virtualKeyCode)
    case TurnOffDrawing => c.(isDrawing := 0, callUnblockInputFlag := 1)
    case TurnOnDrawing => c.(isDrawing := 1, callBlockInputFlag := 1)
    case ClearCanvas => c.(trackingTouchId := NOT_TRACKING)
    case Quit => c.(quitPosted := true)
    case NoAction => c
  }

  /**
   * With the default bindings: F3 turns drawing on and ESC turns it off
   * again, each raising its flag; C leaves the tracker idle.
   */
  lemma DefaultKeys(c: ControlState)
    ensures var keys := KeyBindings(VK_ESCAPE, VK_F3, VK_C_KEY, VK_Q_KEY);
      && KeyUp(c, keys, VK_F3).isDrawing == 1 && KeyUp(c, keys, VK_F3).callBlockInputFlag == 1
      && KeyUp(KeyUp(c, keys, VK_F3), keys, VK_ESCAPE).isDrawing == 0
      && KeyUp(KeyUp(c, keys, VK_F3), keys, VK_ESCAPE).callUnblockInputFlag == 1
      && KeyUp(KeyUp(c, keys, VK_F3), keys, VK_ESCAPE).callBlockInputFlag == 1
      && KeyUp(c, keys, VK_C_KEY).trackingTouchId == NOT_TRACKING
      && KeyUp(c, keys, 0x41) == c
  {
  }

  /** `ApplicationState`, reached through `g_app_state`. */
  class ApplicationState {
    var deviceInfoList: HidDeviceInfoList
    var previousTouches: TouchDataList
    var strokes: StrokeList
    var trackingTouchId: u32
    var isDrawing: int32
    var turnOffDrawingKeyCode: int32
    var turnOnDrawingKeyCode: int32
    var quitApplicationKeyCode: int32
    var clearDrawingCanvasKeyCode: int32
    var callBlockInputFlag: int32
    var callUnblockInputFlag: int32
    /** Whether `PostQuitMessage(0)` has been called. */
    var quitPosted: bool

    /** The lists are well formed and the stroke storage shares nothing with the rest of the state. */
    ghost predicate Valid()
      reads this, previousTouches, strokes, strokes.Repr
    {
      && previousTouches.Valid() && strokes.Valid()
      && this !in strokes.Repr && previousTouches !in strokes.Repr && previousTouches.entries !in strokes.Repr
    }

    /** The tracker's view of the state. */
    ghost function Tracker(): Drawing
      reads this, strokes
    {
      Drawing(trackingTouchId, strokes.Strokes)
    }

    function Keys(): KeyBindings
      reads this
    {
      KeyBindings(turnOffDrawingKeyCode, turnOnDrawingKeyCode, clearDrawingCanvasKeyCode, quitApplicationKeyCode)
    }

    function Controls(): ControlState
      reads this
    {
      ControlState(trackingTouchId, isDrawing, callBlockInputFlag, callUnblockInputFlag, quitPosted)
    }

    /**
     * The state `main` sets up: empty lists, no tracked touch, drawing off,
     * ESC / F3 / Q / C as the bindings and both flags clear.
     */
    constructor ()
      ensures Valid() && fresh(strokes.Repr)
      ensures deviceInfoList.Devices() == [] && previousTouches.Touches() == []
      ensures Tracker() == Idle
      ensures isDrawing == 0 && callBlockInputFlag == 0 && callUnblockInputFlag == 0 && !quitPosted
      ensures Keys() == KeyBindings(VK_ESCAPE, VK_F3, VK_C_KEY, VK_Q_KEY)
    {
      deviceInfoList := new HidDeviceInfoList.Empty();
      previousTouches := new TouchDataList.Empty();
      strokes := new StrokeList.Empty();
      trackingTouchId := NOT_TRACKING;
      isDrawing := 0;
      turnOffDrawingKeyCode := VK_ESCAPE;
      turnOnDrawingKeyCode := VK_F3;
      quitApplicationKeyCode := VK_Q_KEY;
      clearDrawingCanvasKeyCode := VK_C_KEY;
      callBlockInputFlag := 0;
      callUnblockInputFlag := 0;
      quitPosted := false;
    }

    /**
     * The touch part of `mHandleInputMessage` for one parsed touch: nothing
     * happens unless drawing is on; otherwise the touch is classified
     * against the previous touches (which it updates) and the tracker runs
     * on the event, ending the process exactly where `Track` says the state
     * is broken.
     */
    method HandleTouch(curTouch: TouchData) returns (status: Status)
      requires Valid()
      modifies this, previousTouches, previousTouches.entries, strokes, strokes.Repr
      ensures previousTouches == old(previousTouches) && strokes == old(strokes)
      ensures deviceInfoList == old(deviceInfoList) && Keys() == old(Keys()) && isDrawing == old(isDrawing)
      ensures callBlockInputFlag == old(callBlockInputFlag) && callUnblockInputFlag == old(callUnblockInputFlag)
      ensures quitPosted == old(quitPosted)
      ensures old(isDrawing) == 0 ==>
        status == Returned(0) && Valid() && Tracker() == old(Tracker()) &&
        previousTouches.Touches() == old(previousTouches.Touches())
      ensures old(isDrawing) != 0 ==>
        var interpretation := Interpret(old(previousTouches.Touches()), curTouch);
        var next := Track(old(Tracker()), curTouch.touchId, interpretation.eventType,
                          Point2D(curTouch.x, curTouch.y), true);
        && (status == Terminated <==> next.None?)
        && (next.Some? ==>
              status == Returned(0) && Valid() && fresh(strokes.Repr - old(strokes.Repr)) &&
              previousTouches.Touches() == interpretation.touches && Tracker() == next.value)
    {
      if isDrawing == 0 {
        return Returned(0);
      }
      var touchType := new EventTypeCell(0);
      // the call cannot fail here: both pointers are valid
      var _ := InterpretRawTouchInput(previousTouches, curTouch, touchType);
      assert previousTouches.entries !in strokes.Repr;
      status, trackingTouchId :=
        TrackTouch(strokes, trackingTouchId, curTouch.touchId, touchType.value, Point2D(curTouch.x, curTouch.y), true);
    }

    /**
     * `mHandleKeyUpMessage`: the scalar state follows `KeyUp`; clearing the
     * canvas also empties the previous touches and the strokes, and no other
     * key touches the lists.
     */
    method HandleKeyUp(virtualKeyCode: int32)
      requires Valid()
      modifies this, previousTouches, strokes
      ensures Valid()
      ensures previousTouches == old(previousTouches) && strokes == old(strokes)
      ensures deviceInfoList == old(deviceInfoList) && Keys() == old(Keys())
      ensures Controls() == KeyUp(old(Controls()), old(Keys()), virtualKeyCode)
      ensures KeyActionFor(old(Keys()), virtualKeyCode) == ClearCanvas ==>
        previousTouches.Touches() == [] && strokes.Strokes == [] && Tracker() == Idle
      ensures KeyActionFor(old(Keys()), virtualKeyCode) != ClearCanvas ==>
        && previousTouches.entries == old(previousTouches.entries)
        && previousTouches.size == old(previousTouches.size)
        && strokes.Strokes == old(strokes.Strokes) && strokes.Repr == old(strokes.Repr)
    {
      if virtualKeyCode == turnOffDrawingKeyCode {
        isDrawing := 0;
        callUnblockInputFlag := 1;
      } else if virtualKeyCode == turnOnDrawingKeyCode {
        isDrawing := 1;
        callBlockInputFlag := 1;
      } else if virtualKeyCode == clearDrawingCanvasKeyCode {
        trackingTouchId := NOT_TRACKING;
        previousTouches.entries := new TouchData[0];
        previousTouches.size := 0;
        strokes.Clear();
      } else if virtualKeyCode == quitApplicationKeyCode {
        quitPosted := true;
      }
    }
  }

  /**
   * Whatever keys are pressed in between, touches handled by this state
   * never hit the broken-state exits: the tracker starts drawable, every
   * touch keeps it drawable, and clearing the canvas makes it idle.
   */
  lemma KeyUpKeepsDrawable(c: ControlState, keys: KeyBindings, virtualKeyCode: int32, strokes: seq<seq<Point2D>>)
    requires Drawable(Drawing(c.trackingTouchId, strokes))
    ensures KeyActionFor(keys, virtualKeyCode) == ClearCanvas ==>
      Drawable(Drawing(KeyUp(c, keys, virtualKeyCode).trackingTouchId, []))
    ensures KeyActionFor(keys, virtualKeyCode) != ClearCanvas ==>
      Drawable(Drawing(KeyUp(c, keys, virtualKeyCode).trackingTouchId, strokes))
  {
  }
}
