# windows-touchpad: the touch-input pipeline in Dafny

This project models the touch-input pipeline of windows-touchpad. There are six parts:

- **Wire codec and framing.** The pipe server (`kankaku_serialize_device_dimensions`) writes a 4-byte little-endian device-dimensions header. The Python pipe client (`pipeclient.py`) decodes that header. It then cuts the byte stream it reads from `\\.\pipe\kankaku` into 6-byte contact records, keeping the incomplete tail for the next read.
- **Touch-event classification.**
  - The Python client classifies each record against its `last_contacts` dict: down, move, up or broken.
  - The C handlers classify each raw touch against a `TOUCH_DATA_LIST` of previous touches. This happens in `mInterpretRawTouchInput` and in its variant `kankaku_touchevents_interpret_event_type`, and gives one of `EVENT_TYPE_TOUCH_DOWN`, `EVENT_TYPE_TOUCH_MOVE`, `EVENT_TYPE_TOUCH_UP` or `EVENT_TYPE_TOUCH_MOVE_UNCHANGED`.
- **Single-stroke tracker.**
  - The Python client follows one finger and collects its positions into strokes, dropping repeated positions.
  - The C input handlers keep a tracked touch id and a `StrokeList`.
  - `touchpad/src/main.c` adds a drawing switch and a key-up state machine.
- **Growable lists.** `Point2DList` and `StrokeList` grow by reallocation: a new array one longer, a copy loop, then the new element last.
- **Find-or-insert registries.** HID devices are looked up by name and link collections by `LinkColID`. A lookup returns the first match or appends a default entry.
- **Allocation accounting.** The byte counter of `kankaku_utils_malloc_or_die` / `kankaku_utils_free` has an overflow guard, a 1 GiB cap, and a free that refuses to release more than was allocated.

## How the modules map to the sources

- **CTypes:** fixed-width integer types, `Option`, and `Status`.
  - `Returned(code)` is a C return value.
  - `Terminated` is `exit(-1)`, or a C++ `throw;` with no handler.
- **Wire:** `touchpad/kankaku_serialization.c` and the byte decoding in `pipeclient.py`.
- **PipeClient:** `pipeclient.py`.
  - The pure session functions (`Translate`, `Replay`) are the specification.
  - The class `PipeClientThread` has the source's fields and methods and is proved against those functions.
- **Point2DLists:** `mInitializePoint2DList` / `mAppendPoint2DToList`. Four copies behave identically and are modelled once: `touchpad/src/point2d.c`, `touchpad/src/point2d.cc`, `touchpad/point2d.c`, and `touchpad/kankaku_point2d.c` (`kankaku_point2d_*`).
- **Strokes:** `StrokeList` and `mCreateNewStroke`.
  - `touchpad/stroke.c` is `CreateNewStroke`.
  - `touchpad/src/stroke.cc` is `CreateNewStrokeUninitialisedSlot`.
- **KankakuStroke:** `touchpad/kankaku_stroke.c`.
- **TouchEvents:** `touchpad/src/touchevents.c`.
- **KankakuTouchEvents:** `touchpad/kankaku_touchevents.c`.
- **HidRegistry:** the device and link-collection lookups.
  - Device lookups: `touchpad/src/utils.c`, `touchpad/src/utils.cc`, and `utils_find_input_device_index_by_name` of `touchpad/kankaku_utils.c`.
  - Link-collection lookups: `touchpad/src/utils.c` and `touchpad/src/utils.cc`.
  - All of these share a generic find-or-append core on key sequences.
- **KankakuUtils:** the link-collection lookup and the allocation counter of `touchpad/kankaku_utils.c`.
- **StrokeTracking:** the tracking block shared by the three C input handlers.
  - `Track` is the specification.
  - `TrackTouch` is the block run on the stroke list.
  - A flag selects the "last stroke has fewer than 2 points" exit, which only `touchpad/src/main.c` has.
- **DrawingApp:** `ApplicationState` of `touchpad/src/main.c` with its touch and key-up handlers.
- **DesktopApp:** the globals of `touchpad/src/main.cc`, its touch handler and the window-size selection in `wWinMain`.
- **CaptureApp:** `ApplicationState` of `touchpad/main.c`, where the handler only follows the tracked id.

## How the model follows the sources

**Representation**
- C list structs are classes holding an `array` and a `size`.
  - A `NULL` `Entries` is a zero-length array; the sources treat `NULL` and `Size == 0` alike.
  - `NULL` struct pointers are nullable parameters.
  - Each method states its new contents as a sequence.
- The pipe client's reads are given as a sequence of byte strings. A `pywintypes.error` ends that sequence.

**Where the code and its documentation disagree, the model follows the code**
- A first read shorter than 4 bytes is not waited on. The header is decoded from whatever bytes exist, and a missing byte reads as 0 (`Wire.ShortHeader`).
- A move or up is dropped when its position equals the last point of the current stroke, not the contact's previous sample. `last_contacts` is updated even for a dropped move.
- A down, a move and an up at the move's position therefore give a two-point stroke (`PipeClient.ScenarioSession`).
- For a touch id not yet recorded in a non-empty list, `mInterpretRawTouchInput` reports a move, not a down.

## Model

| member | source | states |
|---|---|---|
| Wire.SerializeDeviceDimensions | touchpad/kankaku_serialization.c:8-24 | returns 0 with a byte count of 4 and exactly 4 bytes; width = b0 + 256·b1 and height = b2 + 256·b3 |
| Wire.DecodeHeader | pipeclient.py:222-223 | for a first read of at least 4 bytes: width = b0 + 256·b1 and height = b2 + 256·b3, unsigned |
| Wire.HeaderRoundTrip | pipeclient.py:222-223 | decoding the serialised header gives back the width and height, for every pair of u16 values |
| Wire.HeaderBytesRoundTrip | touchpad/kankaku_serialization.c:15-18 | every 4-byte header is the serialisation of the dimensions it decodes to |
| Wire.HeaderExample | touchpad/kankaku_serialization.c:15-18 | 640 × 480 is sent as 80 02 E0 01, and those bytes decode back to 640 × 480 |
| Wire.ShortHeader | pipeclient.py:216-223 | a short first read is parsed anyway: 3 bytes give the height of the third byte alone, 1 byte gives (b0, 0), no bytes give 0 × 0 |
| Wire.DecodeRecord | pipeclient.py:248-260 | id = b0 and onSurface = b1 (raw); x = b2 + 256·b3 and y = b4 + 256·b5 |
| Wire.RecordRoundTrip | pipeclient.py:248-260 | decoding the 6-byte layout of any record gives the record back |
| Wire.RecordBytesRoundTrip | pipeclient.py:248-260 | every 6 bytes are the layout of the record they decode to |
| Wire.FramingCounts | pipeclient.py:247-265 | draining n bytes decodes ⌊n/6⌋ records and leaves the last n mod 6 bytes |
| Wire.RecordAt | pipeclient.py:247-265 | record k is decoded from bytes 6k to 6k+6 of the stream |
| Wire.FramingStreams | pipeclient.py:244-291 | framing a prefix, keeping its remainder and appending the next read gives exactly the records of the whole stream |
| Wire.FramingIgnoresSplit | pipeclient.py:244-291 | two splittings of the same bytes into two reads give the same records; any number of reads is covered by `PipeClient.PipeClientThread.Run` through `Wire.FramingStreams` |
| PipeClient.ClassifyCases | pipeclient.py:102-121 | present and on gives move; present and off gives up; absent and on gives down; absent and off gives broken (each both ways) |
| PipeClient.InitialConsistent | pipeclient.py:89-92 | the initial state (no tracked id, no contacts, no strokes) satisfies the session invariant |
| PipeClient.ExtendWellFormed | pipeclient.py:139-147 | appending a same-id point at a new position keeps a stroke well formed: starts with a down, then moves, at most one final up, no two adjacent equal positions |
| PipeClient.StrokesAfterExtend | pipeclient.py:160-168 | replacing the last stroke by a well-formed one keeps every stroke well formed |
| PipeClient.TranslateConsistent | pipeclient.py:97-180 | every translation keeps the invariant: the tracked id is a key of `last_contacts`, the current stroke is the last stroke and belongs to it, entries are on-surface down/move contacts, every stroke is well formed |
| PipeClient.TranslateKeepsSealedStrokes | pipeclient.py:123-128 | strokes before the current one never change; exactly one stroke is added, exactly when a down arrives while no finger is tracked |
| PipeClient.BrokenIsIgnored | pipeclient.py:119-121 | a record classified as broken leaves the whole session, `last_contacts` included, unchanged |
| PipeClient.OtherContactsDoNotDraw | pipeclient.py:139-168 | while a finger is tracked, records of any other id change neither the tracked id, the current stroke nor the strokes |
| PipeClient.LastContactsFollowRecords | pipeclient.py:102-118 | after a record, `last_contacts` holds it when it is on the surface and lacks its id otherwise; every other id keeps its presence and its value |
| PipeClient.Replay | pipeclient.py:246-265 | translating a run of records from a consistent session gives a consistent session |
| PipeClient.ReplayKeepsSealedStrokes | pipeclient.py:246-265 | over any run of records, strokes sealed at the start stay as they were, and the sealed count never decreases |
| PipeClient.ReplayConcat | pipeclient.py:246-291 | replaying two runs one after the other equals replaying them joined |
| PipeClient.ScenarioFraming | pipeclient.py:213-265 | the 22-byte scenario frames to a 640 × 480 header and three records of contact 1 |
| PipeClient.ScenarioSession | pipeclient.py:97-180 | down, move, then up at the move's position give one sealed two-point stroke and an empty contact table |
| PipeClient.LoneUpScenario | pipeclient.py:113-121 | an up for a never-seen contact is broken and leaves the initial session unchanged |
| PipeClient.PipeClientThread.constructor | pipeclient.py:89-92 | no tracked id, no last contacts, no current stroke, no strokes; the invariant holds |
| PipeClient.PipeClientThread.OnTouchDown | pipeclient.py:123-128 | only when idle: tracks the id, makes `[contact]` the current stroke and appends it to the strokes |
| PipeClient.PipeClientThread.OnTouchMove | pipeclient.py:139-147 | only for the tracked id: appends the contact to the current (= last) stroke unless its position repeats the stroke's last point |
| PipeClient.PipeClientThread.OnTouchUp | pipeclient.py:159-180 | only for the tracked id: stops tracking, appends the contact unless its position repeats, and clears the current stroke |
| PipeClient.PipeClientThread.TranslateAndTriggerEvents | pipeclient.py:97-121 | the fields become `Translate` of the old fields: the event is dispatched, then `last_contacts` is updated or the id deleted |
| PipeClient.PipeClientThread.DrainRecords | pipeclient.py:247-265 | the inner loop translates every whole record at the front in order and returns exactly the framing remainder; the invariant is kept |
| PipeClient.PipeClientThread.Run | pipeclient.py:182-295 | the header is decoded from the first read; the session ends as the replay of every whole record of the stream of reads, however the reads split it |
| Point2DLists.InitializePoint2DList | touchpad/src/point2d.c:4-25 | whatever the list held, it becomes exactly `[point]` and returns 0; a `NULL` list ends the process (identical copies: touchpad/src/point2d.cc:3-26, touchpad/point2d.c:10-31, touchpad/kankaku_point2d.c:11-32) |
| Point2DLists.AppendPoint2DToList | touchpad/src/point2d.c:27-66 | the list becomes its old points followed by `point` (an empty list becomes `[point]`), returns 0; a `NULL` list ends the process (identical copies: touchpad/src/point2d.cc:28-63, touchpad/point2d.c:33-72, touchpad/kankaku_point2d.c:34-73) |
| Point2DLists.TestAppendPoint2DToList | touchpad/src/point2d.c:68-273 | appending (2, 5) then (6, 3) to an empty list returns 0 twice and leaves exactly [(2, 5), (6, 3)] (also the C++ copy, touchpad/src/point2d.cc:65-167) |
| Strokes.StrokeList.Grow | touchpad/stroke.c:32-44 | the stroke array grows by one, every old stroke copied in order, with the given value in the new last slot |
| Strokes.CreateNewStroke | touchpad/stroke.c:9-50 | the strokes become the old ones followed by `[point]`, returning 0; a `NULL` collection ends the process |
| Strokes.CreateNewStrokeUninitialisedSlot | touchpad/src/stroke.cc:7-52 | as written: an empty collection becomes `[[point]]`, but after a non-empty one the new stroke is the leftover slot contents followed by `point` |
| Strokes.UninitialisedSlotExample | touchpad/src/stroke.cc:30-48 | with (7, 7) left in the reused memory, the second stroke comes out as [(7, 7), (1, 2)] |
| Strokes.ResetSlotExample | touchpad/stroke.c:45-46 | the same calls with the slot reset give the one-point stroke [(1, 2)] |
| Strokes.StrokeList.Clear | touchpad/src/main.c:706-723 | every stroke is released and the collection is empty |
| KankakuStroke.AddPoint | touchpad/kankaku_stroke.c:16-70 | `NULL` gives -1, or ends the process with `dieOnFailure`; creating on an empty collection gives `[[point]]`; otherwise `point` is appended to the last stroke and the count is unchanged; without the create flag an empty collection gives -1 and no change |
| KankakuStroke.CreateAndAppendNewStroke | touchpad/kankaku_stroke.c:72-116 | `NULL` returns -1 without ending the process; otherwise the strokes become the old ones followed by `[point]` |
| TouchEvents.ClassifyCases | touchpad/src/touchevents.c:53-77 | known id, both ways: on→on at the same X, Y is MOVE_UNCHANGED; on→on elsewhere is MOVE; off→on is DOWN; →off is UP |
| TouchEvents.FirstIndexOf | touchpad/src/touchevents.c:48-52 | the scan finds the first entry with the touch id, or reports that none has it |
| TouchEvents.InterpretEmpty | touchpad/src/touchevents.c:28-44 | an empty list becomes `[curTouch]`; the event is DOWN when on the surface, UP otherwise |
| TouchEvents.InterpretKnownId | touchpad/src/touchevents.c:48-83 | a known id: only its first entry is replaced, size and other entries stay, and the event is classified from the replaced entry |
| TouchEvents.InterpretUnknownId | touchpad/src/touchevents.c:90-111 | an unknown id is appended after the old entries, which keep their order; the event is MOVE when on the surface (not DOWN), UP otherwise |
| TouchEvents.InterpretKeepsIdsDistinct | touchpad/src/touchevents.c:48-99 | touch ids in the list stay pairwise distinct |
| TouchEvents.InterpretRecordsTouch | touchpad/src/touchevents.c:48-99 | after a call on a list with distinct ids, the list's entry for the touch id is the current touch |
| TouchEvents.InterpretRawTouchInput | touchpad/src/touchevents.c:7-114 | a `NULL` `eventType` or list ends the process; otherwise the list and `*eventType` become `Interpret` of the old list and the call returns 0 |
| KankakuTouchEvents.LastIndexOf | touchpad/kankaku_touchevents.c:53-86 | the scan without a break ends with the last entry that has the touch id, or with none |
| KankakuTouchEvents.OverwriteAll | touchpad/kankaku_touchevents.c:53-86 | every entry with the touch id is replaced by the current touch; the others and the length stay |
| KankakuTouchEvents.AgreesOnKnownDistinctIds | touchpad/kankaku_touchevents.c:53-86 | on a list of distinct ids holding the touch id, the result equals that of `mInterpretRawTouchInput` |
| KankakuTouchEvents.SizeNeverGrows | touchpad/kankaku_touchevents.c:35-90 | an empty list becomes one touch; a non-empty list never changes length |
| KankakuTouchEvents.NewTouchIsLost | touchpad/kankaku_touchevents.c:90-119 | with touch 1 recorded, touch 2 coming down is neither recorded nor reported, where `mInterpretRawTouchInput` records it and reports MOVE |
| KankakuTouchEvents.ListStaysSingle | touchpad/kankaku_touchevents.c:35-90 | from a list of at most one touch, any run of calls keeps it at most one touch |
| KankakuTouchEvents.InterpretEventType | touchpad/kankaku_touchevents.c:13-120 | a `NULL` `eventType` or list ends the process; otherwise the list and `*eventType` become `InterpretKankaku` of their old values and the call returns 0 |
| HidRegistry.FirstIndex | touchpad/src/utils.c:97-105 | none exactly when the key is absent; otherwise an in-range index holding the key with no earlier occurrence |
| HidRegistry.FindOrAppendFinds | touchpad/src/utils.c:155-156 | after a lookup, the index is below the size, holds the key, and is the first index that does |
| HidRegistry.FindOrAppendGrowth | touchpad/src/utils.c:108-153 | old keys stay in place; the list grows by one exactly when the key was absent, with the new key at the old size |
| HidRegistry.FindOrAppendIdempotent | touchpad/src/utils.c:187-199 | a second lookup of the same key returns the same index and grows nothing |
| HidRegistry.FindOrAppendKeepsDistinct | touchpad/src/utils.c:187-221 | a lookup keeps the keys pairwise distinct |
| HidRegistry.LookupsKeepDistinct | touchpad/src/utils.c:187-221 | a registry built only by lookups never holds a key twice |
| HidRegistry.NewLinkCollection | touchpad/src/utils.c:175-183 | a created link collection has the given id and all eight `Has*` flags 0 |
| HidRegistry.FindOrAddLinkIsLookup | touchpad/src/utils.c:161-224 | the ids follow find-or-append; the entries not created are kept; a created entry is the default one |
| HidRegistry.FindOrAddLinkIdempotent | touchpad/src/utils.cc:200-208 | repeating a link lookup with the same id neither grows the list nor changes the index or entries |
| HidRegistry.FindLinkCollectionInList | touchpad/src/utils.c:161-224 | returns 0 and the index of the first entry with the id; otherwise a default entry is appended at the old size; the array is replaced only when it grows (identical in touchpad/src/utils.cc:171-239) |
| HidRegistry.FindOrAddDevice | touchpad/src/utils.c:59-159 | names follow find-or-append; the old devices are unchanged; a created entry copies the name and data, has a new empty link list, and gets `USHORT_MAX` as contact-count collection when it is the first entry; the array is replaced only when it grows |
| HidRegistry.FindInputDeviceInListAsWritten | touchpad/src/utils.c:108-153 | as written: an entry appended to a non-empty list keeps whatever contact-count value the memory held |
| HidRegistry.FindInputDeviceInList | touchpad/src/utils.c:59-159 | as intended: the first match, or a new entry at the old size; every created entry has an empty link list and contact-count collection 0xFFFF; the array is replaced only when it grows (also touchpad/src/utils.cc:41-169 and `utils_find_input_device_index_by_name`, touchpad/kankaku_utils.c:60-160) |
| HidRegistry.UnsetContactCountExample | touchpad/src/utils.c:142-152 | after registering two touchpads with the code as written, the second entry's contact-count collection is the leftover 7, not 0xFFFF |
| HidRegistry.ContactCountExample | touchpad/src/utils.c:87 | the same two registrations with the intended lookup leave 0xFFFF in the second entry |
| KankakuUtils.NewKankakuLinkCollection | touchpad/kankaku_utils.c:168-181 | a created link collection has the given id and its four flags (`HasX`, `HasY`, `HasContactID`, `HasTipSwitch`) 0 |
| KankakuUtils.FindOrAddKankakuLinkIsLookup | touchpad/kankaku_utils.c:162-217 | the ids follow find-or-append; the entries not created are kept; a created entry is the default one |
| KankakuUtils.FindOrAddKankakuLinkIdempotent | touchpad/kankaku_utils.c:184-214 | a repeated id neither grows the list nor changes the index |
| KankakuUtils.FindKankakuLinkCollectionInList | touchpad/kankaku_utils.c:162-217 | returns 0 and the first index with the id, or appends a default entry at the old size; the array is replaced only when it grows |
| KankakuUtils.MallocAccountBounds | touchpad/kankaku_utils.c:236-249 | a returning allocation added exactly `size` and left the counter ≤ 1 GiB; from a counter ≤ 1 GiB, it returns exactly when the total stays ≤ 1 GiB and `malloc` succeeds |
| KankakuUtils.FreeAccountBounds | touchpad/kankaku_utils.c:264-276 | a free returns exactly when `size` ≤ the counter, and then subtracts `size`; the counter never underflows |
| KankakuUtils.MallocThenFree | touchpad/kankaku_utils.c:231-277 | freeing what was just allocated restores the counter |
| KankakuUtils.TraceWithinCap | touchpad/kankaku_utils.c:227-277 | from a counter ≤ 1 GiB, after any run of allocations and frees that has not ended the process, the counter is ≤ 1 GiB |
| KankakuUtils.MemoryAccounting.constructor | touchpad/kankaku_utils.c:229 | the counter starts at 0 |
| KankakuUtils.MemoryAccounting.MallocOrDie | touchpad/kankaku_utils.c:231-262 | ends the process on `size_t` overflow, past 1 GiB, or when `malloc` fails; otherwise the counter grows by `size` |
| KankakuUtils.MemoryAccounting.Free | touchpad/kankaku_utils.c:264-277 | ends the process when asked to release more than is counted; otherwise the counter shrinks by `size` |
| StrokeTracking.NextTrackingIdCases | touchpad/main.c:498-518 | idle plus DOWN tracks the id; idle plus anything else stays idle; the tracked id's UP resets to -1; moves and other ids change nothing |
| StrokeTracking.TrackCases | touchpad/src/main.c:516-572 | the tracked id follows `NextTrackingId`; idle plus DOWN appends `[pos]`; a tracked MOVE appends `pos` to the last stroke; every other event (an idle MOVE or UP, a DOWN while tracking, any event of another id) keeps the strokes; the process ends exactly on a tracked MOVE with no stroke, or (with the size check) an empty last stroke |
| StrokeTracking.TrackKeepsDrawable | touchpad/src/main.c:530-555 | from a state where a tracked touch has a non-empty last stroke, no touch ends the process, the size check never fires, and that state is kept |
| StrokeTracking.TrackAllNeverBreaks | touchpad/src/main.c:516-572 | from such a state, any run of touches never ends the process, both handler variants agree, and strokes only grow: earlier strokes are never changed |
| StrokeTracking.IdleNeverBreaks | touchpad/src/main.cc:449-476 | starting idle, no run of touches reaches the broken-state exit of either handler |
| StrokeTracking.TrackTouch | touchpad/src/main.c:516-572 | the tracking block on the stroke list: ends the process exactly where `Track` does; otherwise the tracked id and strokes are `Track`'s result; touchpad/src/main.cc:449-476 runs the same block without the stroke-size check |
| DrawingApp.KeyActionFor | touchpad/src/main.c:684-730 | the first binding matched, in the order turn-off, turn-on, clear, quit, decides the action (each both ways) |
| DrawingApp.DefaultKeys | touchpad/src/main.c:684-698 | with the default bindings F3 turns drawing on and sets the block flag, ESC then turns it off and sets the unblock flag, C stops tracking, other keys do nothing |
| DrawingApp.KeyUpKeepsDrawable | touchpad/src/main.c:696-723 | no key release can bring the tracker into a state from which a touch ends the process |
| DrawingApp.ApplicationState.constructor | touchpad/src/main.c:921-934 | empty lists, no tracked touch, drawing off, ESC / F3 / Q / C bindings, both flags 0 |
| DrawingApp.ApplicationState.HandleTouch | touchpad/src/main.c:313-572 | with drawing off nothing changes; otherwise the previous touches follow `Interpret` and the tracker follows `Track` with the stroke-size check, ending the process exactly where it does |
| DrawingApp.ApplicationState.HandleKeyUp | touchpad/src/main.c:675-731 | the scalar state follows `KeyUp`; C also empties the previous touches and the strokes; no other key touches the lists |
| DesktopApp.FirstWithXY | touchpad/src/main.cc:650-658 | the first link collection with both `HasX` and `HasY`, or none when no link collection has both |
| DesktopApp.SelectWindowSize | touchpad/src/main.cc:638-665 | no device, or a first device without link collections, gives -1; otherwise `right` × `bottom` of the first link collection with X and Y, else 720 × 480 |
| DesktopApp.WindowSizeFirstWins | touchpad/src/main.cc:650-658 | link collections after the first one with X and Y never change the window size |
| DesktopApp.Globals.constructor | touchpad/src/main.cc:31-42 | empty lists and no tracked touch |
| DesktopApp.Globals.HandleTouch | touchpad/src/main.cc:438-476 | the previous touches follow `Interpret` and the tracker follows `Track` without the size check; a tracked move with no stroke ends the process |
| CaptureApp.ApplicationState.constructor | touchpad/main.c:621-626 | empty lists, no tracked touch, capture off |
| CaptureApp.ApplicationState.HandleTouch | touchpad/main.c:295-519 | while capturing, the tracked id follows `NextTrackingId`; otherwise nothing changes (capture is never switched on, so the handler is inert) |
| CaptureApp.TrackIdsAgreeWithDrawing | touchpad/main.c:498-518 | over any run of touches from idle, the tracked id equals the one the drawing handlers keep |

## Left out

- Win32 and HID glue is not part of this model: device enumeration, `GetRawInputData` and the `HidP_*` parsing that produces each `TOUCH_DATA`, window creation, and input blocking. The handlers take the parsed touch or key code as input.
- Rendering is left out, because it is UI and floating-point drawing: GDI / Direct2D painting, `InvalidateRect`, and the cairo and Tk work in `pipeclient.py`.
- Concurrency in `pipeclient.py` is left out: `UpdateCanvasThread` and the clock lock. The pipe is a given sequence of reads.
- `PostQuitMessage` is modelled only as the `quitPosted` flag.
- touchpad/touchevents.c is not part of this model. `CaptureApp.ApplicationState.HandleTouch` takes the classified event as input and does not model how the previous touches are updated.
- Printing and timestamps are left out.
- In `touchpad/src/main.c`, the check of `mInterpretRawTouchInput`'s return value is not modelled. That call cannot fail once its pointers are valid.
- `malloc`, `free` and `memcpy` are modelled as fresh arrays and copies. Allocation failure (`mMalloc`, `utils_malloc`, a failing `new`) is not modelled in the lists and lookups. The kankaku lookups' calls into the allocation counter are not modelled either; `KankakuUtils.MemoryAccounting` covers the counter on its own.
- HidRegistry.FindLinkCollectionInList: requires the list not to hold `ULONG_MAX` entries already. `Size` is an `unsigned int`, and one more entry would wrap it.
- HidRegistry.FindInputDeviceInList: requires the same bound on the device list, for the same reason.
- HidRegistry.FindOrAddDevice: requires the same bound on the device list.
- KankakuUtils.FindKankakuLinkCollectionInList: requires the same bound on the link list.
- Point2DLists.AppendPoint2DToList: `size` is unbounded, so the wrap of the `unsigned int` `Size + 1` on a list of `ULONG_MAX` points is not modelled; such a list does not fit in memory.
- Strokes.StrokeList.Grow: the same; the `Size + 1` of a stroke collection holding `ULONG_MAX` strokes is not wrapped.
- TouchEvents.InterpretRawTouchInput: the same; appending to a list of `ULONG_MAX` previous touches does not wrap `Size + 1`.
- HidRegistry.NewLinkCollection: zero-fills `PhysicalRect`, which the lookups leave as `malloc` returned it.
- KankakuUtils.NewKankakuLinkCollection: zero-fills `PhysicalRect` for the same reason.
- HidRegistry.FindOrAddDevice: compares device names as whole strings (`_tcscmp`) and copies the whole name and preparsed data. The byte counts `cbName` / `cbPreparsedData` are stored but do not limit the copy.
- DrawingApp.ApplicationState.HandleTouch: the new stroke is created as in `touchpad/stroke.c`, with the new slot reset. `touchpad/src/` holds only the C++ `mCreateNewStroke` of `touchpad/src/stroke.cc`, which a C `touchpad/src/main.c` cannot link as written; the C definition with the same signature is the one taken.
- DrawingApp.DefaultKeys: the message loop of `wWinMain` (touchpad/src/main.c:870-905), which clears the block flag, or else the unblock flag, after each dispatched message (its `BlockInput` calls are commented out), is not modelled. The lemma's state after F3 then ESC, with both flags raised, is what `mHandleKeyUpMessage` alone leaves, not a state the running program holds.
- DesktopApp.Globals.HandleTouch: the new stroke is created as in `touchpad/stroke.c`. `touchpad/src/main.cc` is built with `touchpad/src/stroke.cc`, whose uninitialised slot is the first finding below.
- PipeClient.PipeClientThread.Run: the cairo surface sized from the header, and the canvas-update flag, are not modelled.
- The `update_canvas` flag of `on_touch_move` / `on_touch_up` is left out, because it is rendering.
- The freeing of the stroke lists in `mHandleKeyUpMessage` is modelled as emptying the collection, not as heap reasoning.

## Findings

| source | as written | input that shows it | evidently intended | confidence | as-written member | corrected member |
|---|---|---|---|---|---|---|
| touchpad/src/stroke.cc:44-48 | the new last element of the grown stroke array is never reset before `mAppendPoint2DToList` appends the point | one stroke already drawn, then a second `mCreateNewStroke((1, 2))` while the new slot's memory holds a one-point list (7, 7) | the slot is reset to `{NULL, 0}` first, as touchpad/stroke.c:45 does, so the new stroke is `[(1, 2)]` | not executed | Strokes.UninitialisedSlotExample | Strokes.ResetSlotExample |
| touchpad/src/utils.c:142-152 | a device appended to a non-empty list never gets `ContactCountLinkCollection` assigned (also touchpad/src/utils.cc and touchpad/kankaku_utils.c) | register "touchpad-1", then "touchpad-2" while the new entry's memory holds 7 | every new entry starts at `(USHORT)-1`, as the first-entry path at touchpad/src/utils.c:87 does and as touchpad/src/main.c:388 tests | not executed | HidRegistry.UnsetContactCountExample | HidRegistry.ContactCountExample |
| touchpad/kankaku_touchevents.c:90-119 | the function returns right after the scan, so the append of an unknown touch id is unreachable | list `[touch 1]`, then touch 2 on the surface | the unknown touch is appended and reported, as `mInterpretRawTouchInput` does (touchpad/src/touchevents.c:90-111) | not executed | KankakuTouchEvents.NewTouchIsLost | TouchEvents.InterpretRecordsTouch |
