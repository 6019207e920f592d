/**
 * The Python pipe client (pipeclient.py): it reads the contact stream from
 * the named pipe, turns each record into a down / move / up event against
 * the contacts it saw before, and follows one finger at a time, collecting
 * its positions into strokes.
 */
module PipeClient {
  import opened CTypes
  import opened Wire

  /** The `'type'` that `translate_and_trigger_events` tags a contact with. */
  datatype EventKind = Down | Move | Up | Broken

  /** A contact dict after translation: the decoded record and its `'type'`. */
  datatype Contact = Contact(sample: Sample, kind: EventKind)

  /** Python truthiness of the raw on-surface byte. */
  predicate OnSurface(s: Sample)
  {
    s.onSurface != 0
  }

  /** The position test used to drop repeated points from a stroke. */
  predicate SamePosition(a: Contact, b: Contact)
  {
    a.sample.x == b.sample.x && a.sample.y == b.sample.y
  }

  /**
   * The drawing state of `PipeClientThread`. In the source `current_stroke`
   * and the last element of `strokes` are one and the same list object; here
   * they are two values that every update keeps equal (see `Aligned`).
   */
  datatype Session = Session(
    trackingId: Option<byte>,
    lastContacts: map<byte, Contact>,
    currentStroke: Option<seq<Contact>>,
    strokes: seq<seq<Contact>>)

  /** The state set up by `PipeClientThread.__init__`. */
  const Initial: Session := Session(None, map[], None, [])

  /**
   * While a finger is tracked, `current_stroke` is a non-empty list and it is
   * the last stroke: the shape the move and up handlers rely on when they look
   * at `current_stroke[-1]` and append to it.
   */
  predicate Aligned(s: Session)
  {
    s.trackingId.Some? ==>
      && s.currentStroke.Some?
      && |s.currentStroke.value| > 0
      && |s.strokes| > 0
      && s.strokes[|s.strokes| - 1] == s.currentStroke.value
  }

  /**
   * A stroke as the client builds it: it starts with a down contact, every
   * later point belongs to the same contact id and is a move, except that
   * the last one may be the up, and no two consecutive points are at the same
   * position.
   */
  predicate WellFormedStroke(st: seq<Contact>)
  {
    && |st| > 0
    && st[0].kind == Down
    && (forall j :: 0 < j < |st| ==> st[j].sample.id == st[0].sample.id)
    && (forall j :: 0 < j < |st| ==> st[j].kind == Move || (st[j].kind == Up && j == |st| - 1))
    && (forall j :: 0 < j < |st| ==> !SamePosition(st[j - 1], st[j]))
  }

  /** The invariant every reachable session satisfies. */
  predicate Consistent(s: Session)
  {
    && Aligned(s)
    && (s.trackingId.Some? <==> s.currentStroke.Some?)
    && (s.trackingId.Some? ==>
          var stroke := s.currentStroke.value;
          && s.trackingId.value in s.lastContacts
          && stroke[0].sample.id == s.trackingId.value
          && (forall j :: 0 <= j < |stroke| ==> stroke[j].kind != Up)
          // the tracked finger's latest sample sits at the end of its stroke
          && SamePosition(s.lastContacts[s.trackingId.value], stroke[|stroke| - 1]))
    && (forall id :: id in s.lastContacts ==>
          && s.lastContacts[id].sample.id == id
          && OnSurface(s.lastContacts[id].sample)
          && s.lastContacts[id].kind in {Down, Move})
    && (forall i :: 0 <= i < |s.strokes| ==> WellFormedStroke(s.strokes[i]))
  }

  /** Appends `c` to the current stroke, which is also the last stroke. */
  function Extend(s: Session, c: Contact): (r: Session)
    requires s.currentStroke.Some? && |s.strokes| > 0
  {
    var stroke := s.currentStroke.value + [c];
    s.(currentStroke := Some(stroke), strokes := s.strokes[..|s.strokes| - 1] + [stroke])
  }

  /** `on_touch_down`: starts a stroke only when no finger is tracked. */
  function TouchDown(s: Session, c: Contact): Session
  {
    if s.trackingId.None? then
      s.(trackingId := Some(c.sample.id), currentStroke := Some([c]), strokes := s.strokes + [[c]])
    else
      s
  }

  /** `on_touch_move`: extends the stroke of the tracked finger unless the position repeats. */
  function TouchMove(s: Session, c: Contact): Session
    requires Aligned(s)
  {
    if s.trackingId.Some? && s.trackingId.value == c.sample.id then
      var stroke := s.currentStroke.value;
      if SamePosition(stroke[|stroke| - 1], c) then s else Extend(s, c)
    else
      s
  }

  /** `on_touch_up`: the tracked finger's last position is added unless it repeats, and tracking stops. */
  function TouchUp(s: Session, c: Contact): Session
    requires Aligned(s)
  {
    if s.trackingId.Some? && s.trackingId.value == c.sample.id then
      var stroke := s.currentStroke.value;
      var s1 := s.(trackingId := None);
      var s2 := if SamePosition(stroke[|stroke| - 1], c) then s1 else Extend(s1, c);
      s2.(currentStroke := None)
    else
      s
  }

  /** The event a record is translated to, from the contacts seen before it. */
  function Classify(lastContacts: map<byte, Contact>, x: Sample): EventKind
  {
    if x.id in lastContacts then
      if OnSurface(x) then Move else Up
    else
      if OnSurface(x) then Down else Broken
  }

  /** `translate_and_trigger_events` */
  function Translate(s: Session, x: Sample): Session
    requires Aligned(s)
  {
    var c := Contact(x, Classify(s.lastContacts, x));
    match c.kind
    case Move =>
      var t := TouchMove(s, c);
      t.(lastContacts := t.lastContacts[x.id := c])
    case Up =>
      var t := TouchUp(s, c);
      t.(lastContacts := t.lastContacts - {x.id})
    case Down =>
      var t := TouchDown(s, c);
      t.(lastContacts := t.lastContacts[x.id := c])
    case Broken =>
      s
  }

  /** The four events, each with both directions of its condition. */
  lemma ClassifyCases(lastContacts: map<byte, Contact>, x: Sample)
    ensures Classify(lastContacts, x) == Down <==> x.id !in lastContacts && OnSurface(x)
    ensures Classify(lastContacts, x) == Move <==> x.id in lastContacts && OnSurface(x)
    ensures Classify(lastContacts, x) == Up <==> x.id in lastContacts && !OnSurface(x)
    ensures Classify(lastContacts, x) == Broken <==> x.id !in lastContacts && !OnSurface(x)
  {
  }

  /** The client starts from a consistent session. */
  lemma InitialConsistent()
    ensures Consistent(Initial)
  {
  }

  /** A stroke that grows by a point of the same contact at a new position stays well formed. */
  lemma {:induction false} ExtendWellFormed(st: seq<Contact>, c: Contact)
    requires WellFormedStroke(st)
    requires forall j :: 0 < j < |st| ==> st[j].kind == Move
    requires c.kind in {Move, Up} && c.sample.id == st[0].sample.id
    requires !SamePosition(st[|st| - 1], c)
    ensures WellFormedStroke(st + [c])
  {
    var st' := st + [c];
    forall j | 0 < j < |st'|
      ensures st'[j].kind == Move || (st'[j].kind == Up && j == |st'| - 1)
      ensures !SamePosition(st'[j - 1], st'[j])
    {
      if j < |st| {
        assert st'[j] == st[j] && st'[j - 1] == st[j - 1];
      }
    }
  }

  /** Every translation keeps the session consistent. */
  lemma {:induction false} TranslateConsistent(s: Session, x: Sample)
    requires Consistent(s)
    ensures Consistent(Translate(s, x))
  {
    var c := Contact(x, Classify(s.lastContacts, x));
    var r := Translate(s, x);
    if c.kind == Move && s.trackingId == Some(x.id) {
      var stroke := s.currentStroke.value;
      if !SamePosition(stroke[|stroke| - 1], c) {
        ExtendWellFormed(stroke, c);
        StrokesAfterExtend(s.strokes, stroke + [c]);
      }
    } else if c.kind == Up && s.trackingId == Some(x.id) {
      var stroke := s.currentStroke.value;
      if !SamePosition(stroke[|stroke| - 1], c) {
        ExtendWellFormed(stroke, c);
        StrokesAfterExtend(s.strokes, stroke + [c]);
      }
    } else if c.kind == Down && s.trackingId.None? {
      assert r.strokes == s.strokes + [[c]];
      forall i | 0 <= i < |r.strokes|
        ensures WellFormedStroke(r.strokes[i])
      {
        if i < |s.strokes| {
          assert r.strokes[i] == s.strokes[i];
        }
      }
    }
  }

  /** Replacing the last stroke by a well-formed one keeps every stroke well formed. */
  lemma StrokesAfterExtend(strokes: seq<seq<Contact>>, last: seq<Contact>)
    requires |strokes| > 0
    requires forall i :: 0 <= i < |strokes| ==> WellFormedStroke(strokes[i])
    requires WellFormedStroke(last)
    ensures var r := strokes[..|strokes| - 1] + [last];
      forall i :: 0 <= i < |r| ==> WellFormedStroke(r[i])
  {
    var r := strokes[..|strokes| - 1] + [last];
    forall i | 0 <= i < |r|
      ensures WellFormedStroke(r[i])
    {
      if i < |strokes| - 1 {
        assert r[i] == strokes[i];
      }
    }
  }

  /** How many strokes a session holds that will never change again. */
  function Sealed(s: Session): nat
  {
    if s.trackingId.Some? && |s.strokes| > 0 then |s.strokes| - 1 else |s.strokes|
  }

  /**
   * Strokes only grow: a translation never touches a sealed stroke, and it
   * adds exactly one stroke when, and only when, a finger comes down while
   * none is tracked.
   */
  lemma TranslateKeepsSealedStrokes(s: Session, x: Sample)
    requires Consistent(s)
    ensures var r := Translate(s, x);
      && Sealed(s) <= Sealed(r) <= |r.strokes|
      && r.strokes[..Sealed(s)] == s.strokes[..Sealed(s)]
      && |r.strokes| == |s.strokes| + (if s.trackingId.None? && Classify(s.lastContacts, x) == Down then 1 else 0)
  {
    var r := Translate(s, x);
    if s.trackingId.Some? {
      assert r.strokes[..Sealed(s)] == s.strokes[..Sealed(s)];
    } else if Classify(s.lastContacts, x) == Down {
      assert r.strokes[..Sealed(s)] == s.strokes[..Sealed(s)];
    }
  }

  /** A record classified as broken changes nothing. */
  lemma BrokenIsIgnored(s: Session, x: Sample)
    requires Aligned(s)
    requires Classify(s.lastContacts, x) == Broken
    ensures Translate(s, x) == s
  {
  }

  /**
   * Records of any other contact never change the tracked finger, its stroke
   * or any other stroke; they only update the table of last contacts.
   */
  lemma OtherContactsDoNotDraw(s: Session, x: Sample)
    requires Consistent(s)
    requires s.trackingId.Some? && x.id != s.trackingId.value
    ensures var r := Translate(s, x);
      r.trackingId == s.trackingId && r.currentStroke == s.currentStroke && r.strokes == s.strokes
  {
  }

  /**
   * After a translation, the table of last contacts holds the record exactly
   * when it is on the surface, and forgets its id otherwise.
   */
  lemma LastContactsFollowRecords(s: Session, x: Sample)
    requires Aligned(s)
    ensures var r := Translate(s, x);
      && (OnSurface(x) ==> x.id in r.lastContacts && r.lastContacts[x.id].sample == x)
      && (!OnSurface(x) ==> x.id !in r.lastContacts)
      && (forall id :: id != x.id ==> (id in r.lastContacts <==> id in s.lastContacts))
      && (forall id :: id != x.id && id in s.lastContacts ==> r.lastContacts[id] == s.lastContacts[id])
  {
  }

  /** The session after translating the records `xs` in order. */
  function Replay(s: Session, xs: seq<Sample>): (r: Session)
    requires Consistent(s)
    ensures Consistent(r)
    decreases |xs|
  {
    if xs == [] then s
    else
      var p := Replay(s, xs[..|xs| - 1]);
      TranslateConsistent(p, xs[|xs| - 1]);
      Translate(p, xs[|xs| - 1])
  }

  /** Over any run of records, the strokes already sealed at the start stay as they were. */
  lemma {:induction false} ReplayKeepsSealedStrokes(s: Session, xs: seq<Sample>)
    requires Consistent(s)
    ensures Sealed(s) <= Sealed(Replay(s, xs)) <= |Replay(s, xs).strokes|
    ensures Replay(s, xs).strokes[..Sealed(s)] == s.strokes[..Sealed(s)]
    decreases |xs|
  {
    if xs != [] {
      var p := Replay(s, xs[..|xs| - 1]);
      ReplayKeepsSealedStrokes(s, xs[..|xs| - 1]);
      TranslateKeepsSealedStrokes(p, xs[|xs| - 1]);
      var r := Translate(p, xs[|xs| - 1]);
      assert r.strokes[..Sealed(s)] == r.strokes[..Sealed(p)][..Sealed(s)];
      assert p.strokes[..Sealed(s)] == p.strokes[..Sealed(p)][..Sealed(s)];
    }
  }

  /** The first sample of the end-to-end scenario: contact 1 comes down at (100, 100). */
  const ScenarioDown: Sample := Sample(1, 1, 100, 100)
  /** Contact 1 moves to (110, 100). */
  const ScenarioMove: Sample := Sample(1, 1, 110, 100)
  /** Contact 1 lifts at (110, 100). */
  const ScenarioUp: Sample := Sample(1, 0, 110, 100)

  /** The 22 bytes of the end-to-end scenario: a 640 x 480 header and three records of contact 1. */
  const ScenarioBytes: seq<byte> := [0x80, 0x02, 0xE0, 0x01,
                                     0x01, 0x01, 0x64, 0x00, 0x64, 0x00,
                                     0x01, 0x01, 0x6E, 0x00, 0x64, 0x00,
                                     0x01, 0x00, 0x6E, 0x00, 0x64, 0x00]

  /** A record laid out in front of more bytes is framed first, and framing goes on after it. */
  lemma RecordsAfterEncoded(x: Sample, rest: seq<byte>)
    ensures Records(EncodeRecord(x) + rest) == [x] + Records(rest)
  {
    var bs := EncodeRecord(x) + rest;
    assert bs[..RecordSize] == EncodeRecord(x) && bs[RecordSize..] == rest;
    RecordRoundTrip(x);
  }

  /** The scenario's header decodes to 640 x 480. */
  lemma ScenarioHeader()
    ensures DecodeHeader(ScenarioBytes) == DeviceDimensions(640, 480)
  {
  }

  /** The scenario's bytes after the header are the layouts of its three records. */
  lemma ScenarioBody()
    ensures Drop(ScenarioBytes, 4) == EncodeRecord(ScenarioDown) + (EncodeRecord(ScenarioMove) + (EncodeRecord(ScenarioUp) + []))
  {
  }

  /** The scenario's bytes frame to its header and its three records. */
  lemma ScenarioFraming()
    ensures DecodeHeader(ScenarioBytes) == DeviceDimensions(640, 480)
    ensures Records(Drop(ScenarioBytes, 4)) == [ScenarioDown, ScenarioMove, ScenarioUp]
  {
    ScenarioHeader();
    ScenarioBody();
    var up := EncodeRecord(ScenarioUp) + [];
    var tail := EncodeRecord(ScenarioMove) + up;
    RecordsAfterEncoded(ScenarioDown, tail);
    RecordsAfterEncoded(ScenarioMove, up);
    RecordsAfterEncoded(ScenarioUp, []);
  }

  /** The stroke contact 1 draws in the scenario: the down and the move. */
  const ScenarioStroke: seq<Contact> := [Contact(ScenarioDown, Down), Contact(ScenarioMove, Move)]

  /** The session after the scenario's down. */
  const ScenarioAfterDown: Session :=
    Session(Some(1), map[1 := Contact(ScenarioDown, Down)], Some([Contact(ScenarioDown, Down)]),
            [[Contact(ScenarioDown, Down)]])

  /** The session after the scenario's move. */
  const ScenarioAfterMove: Session :=
    Session(Some(1), map[1 := Contact(ScenarioMove, Move)], Some(ScenarioStroke), [ScenarioStroke])

  /** The down starts tracking contact 1 with a one-point stroke. */
  lemma ScenarioDownStep()
    ensures Translate(Initial, ScenarioDown) == ScenarioAfterDown
  {
  }

  /** The move, at a new position, extends the stroke. */
  lemma ScenarioMoveStep()
    ensures Translate(ScenarioAfterDown, ScenarioMove) == ScenarioAfterMove
  {
    assert [Contact(ScenarioDown, Down)] + [Contact(ScenarioMove, Move)] == ScenarioStroke;
    assert ScenarioAfterDown.strokes[..0] == [];
  }

  /** The up, at the move's position, seals the stroke without adding a point. */
  lemma ScenarioUpStep()
    ensures Translate(ScenarioAfterMove, ScenarioUp) == Session(None, map[], None, [ScenarioStroke])
  {
    assert ScenarioAfterMove.lastContacts - {1} == map[];
  }

  /**
   * Down, move and up of one finger give a single sealed stroke of two
   * points: the up is at the position of the move, so it is dropped as a
   * repeat.
   */
  lemma ScenarioSession()
    ensures Replay(Initial, [ScenarioDown, ScenarioMove, ScenarioUp])
         == Session(None, map[], None, [[Contact(ScenarioDown, Down), Contact(ScenarioMove, Move)]])
  {
    InitialConsistent();
    ScenarioDownStep();
    ScenarioMoveStep();
    ScenarioUpStep();
    ReplayStep(Initial, [], ScenarioDown);
    ReplayStep(Initial, [ScenarioDown], ScenarioMove);
    ReplayStep(Initial, [ScenarioDown, ScenarioMove], ScenarioUp);
    assert [] + [ScenarioDown] == [ScenarioDown];
    assert [ScenarioDown] + [ScenarioMove] == [ScenarioDown, ScenarioMove];
    assert [ScenarioDown, ScenarioMove] + [ScenarioUp] == [ScenarioDown, ScenarioMove, ScenarioUp];
  }

  /** An up for a contact that was never down is a broken record and leaves the session as it was. */
  lemma LoneUpScenario()
    ensures Records([0x02, 0x00, 0x0A, 0x00, 0x0A, 0x00]) == [Sample(2, 0, 10, 10)]
    ensures Replay(Initial, [Sample(2, 0, 10, 10)]) == Initial
  {
    var bs: seq<byte> := [0x02, 0x00, 0x0A, 0x00, 0x0A, 0x00];
    assert bs[..6] == bs && bs[6..] == [];
    assert [Sample(2, 0, 10, 10)][..0] == [];
  }

  /** The concatenation of `chunks`, in order. */
  function Concat(chunks: seq<seq<byte>>): seq<byte>
    decreases |chunks|
  {
    if chunks == [] then [] else Concat(chunks[..|chunks| - 1]) + chunks[|chunks| - 1]
  }

  /**
   * The bytes `run` frames into records when its reads return `responses`: the
   * first read without its 4-byte header, then every later read appended.
   */
  function Stream(responses: seq<seq<byte>>): seq<byte>
    requires responses != []
  {
    Drop(responses[0], 4) + Concat(responses[1..])
  }

  /** Translating one more record continues the replay. */
  lemma ReplayStep(s: Session, xs: seq<Sample>, x: Sample)
    requires Consistent(s)
    ensures Replay(s, xs + [x]) == Translate(Replay(s, xs), x)
  {
    assert (xs + [x])[..|xs|] == xs;
  }

  /** Replaying two runs of records one after the other is replaying them joined. */
  lemma {:induction false} ReplayConcat(s: Session, xs: seq<Sample>, ys: seq<Sample>)
    requires Consistent(s)
    ensures Replay(Replay(s, xs), ys) == Replay(s, xs + ys)
    decreases |ys|
  {
    if ys == [] {
      assert xs + ys == xs;
    } else {
      var y := ys[|ys| - 1];
      var ys' := ys[..|ys| - 1];
      ReplayConcat(s, xs, ys');
      assert (xs + ys)[..|xs + ys| - 1] == xs + ys';
    }
  }

  /** Cutting one more record off the front of the undecoded bytes. */
  lemma FramingStep(bs: seq<byte>, done: seq<Sample>, rest: seq<byte>)
    requires |rest| >= RecordSize
    requires Records(bs) == done + Records(rest)
    requires Remainder(bs) == Remainder(rest)
    ensures Records(bs) == (done + [DecodeRecord(rest[..RecordSize])]) + Records(rest[RecordSize..])
    ensures Remainder(bs) == Remainder(rest[RecordSize..])
  {
  }

  /** One more read appends its bytes to the stream. */
  lemma StreamStep(responses: seq<seq<byte>>, i: nat)
    requires 1 <= i < |responses|
    ensures Stream(responses[..i + 1]) == Stream(responses[..i]) + responses[i]
  {
    assert responses[..i + 1][1..] == responses[..i][1..] + [responses[i]];
  }

  /** The receiving thread's drawing state (`PipeClientThread`). */
  class PipeClientThread {
    var trackingId: Option<byte>
    var lastContacts: map<byte, Contact>
    var currentStroke: Option<seq<Contact>>
    var strokes: seq<seq<Contact>>

    /** The fields as one value. */
    function State(): Session
      reads this
    {
      Session(trackingId, lastContacts, currentStroke, strokes)
    }

    ghost predicate Valid()
      reads this
    {
      Consistent(State())
    }

    /** `__init__`: no finger tracked, no contacts seen, no strokes. */
    constructor ()
      ensures State() == Initial
      ensures Valid()
    {
      trackingId := None;
      lastContacts := map[];
      currentStroke := None;
      strokes := [];
    }

    /** `on_touch_down` */
    method OnTouchDown(c: Contact)
      modifies this
      ensures State() == TouchDown(old(State()), c)
    {
      if trackingId.None? {
        trackingId := Some(c.sample.id);
        currentStroke := Some([c]);
        strokes := strokes + [currentStroke.value];
      }
    }

    /** `on_touch_move` */
    method OnTouchMove(c: Contact)
      requires Aligned(State())
      modifies this
      ensures State() == TouchMove(old(State()), c)
    {
      if trackingId.Some? {
        if trackingId.value == c.sample.id {
          var lastContact := currentStroke.value[|currentStroke.value| - 1];
          if !SamePosition(lastContact, c) {
            // `current_stroke` is also the last element of `strokes`
            currentStroke := Some(currentStroke.value + [c]);
            strokes := strokes[..|strokes| - 1] + [currentStroke.value];
          }
        }
      }
    }

    /** `on_touch_up` */
    method OnTouchUp(c: Contact)
      requires Aligned(State())
      modifies this
      ensures State() == TouchUp(old(State()), c)
    {
      if trackingId.Some? {
        if trackingId.value == c.sample.id {
          trackingId := None;
          var lastContact := currentStroke.value[|currentStroke.value| - 1];
          if !SamePosition(lastContact, c) {
            currentStroke := Some(currentStroke.value + [c]);
            strokes := strokes[..|strokes| - 1] + [currentStroke.value];
          }
          currentStroke := None;
        }
      }
    }

    /** `translate_and_trigger_events` */
    method TranslateAndTriggerEvents(x: Sample)
      requires Aligned(State())
      modifies this
      ensures State() == Translate(old(State()), x)
    {
      if x.id in lastContacts {
        if OnSurface(x) {
          var c := Contact(x, Move);
          OnTouchMove(c);
          lastContacts := lastContacts[x.id := c];
        } else {
          var c := Contact(x, Up);
          OnTouchUp(c);
          lastContacts := lastContacts - {x.id};
        }
      } else {
        if OnSurface(x) {
          var c := Contact(x, Down);
          OnTouchDown(c);
          lastContacts := lastContacts[x.id := c];
        }
      }
    }

    /**
     * The inner `while len(remain_bs) >= 6` loop of `run`: translates every
     * whole record at the front of `remain`, in order, and keeps the tail.
     */
    method DrainRecords(remain: seq<byte>) returns (rest: seq<byte>)
      requires Valid()
      modifies this
      ensures Valid()
      ensures State() == Replay(old(State()), Records(remain))
      ensures rest == Remainder(remain)
    {
      ghost var s0 := State();
      ghost var done: seq<Sample> := [];
      rest := remain;
      while |rest| >= RecordSize
        invariant State() == Replay(s0, done)
        invariant Records(remain) == done + Records(rest)
        invariant Remainder(remain) == Remainder(rest)
        decreases |rest|
      {
        var x := DecodeRecord(rest[..RecordSize]);
        TranslateAndTriggerEvents(x);
        ReplayStep(s0, done, x);
        FramingStep(remain, done, rest);
        done := done + [x];
        rest := rest[RecordSize..];
      }
      assert Records(rest) == [];
      assert done + [] == done;
    }

    /**
     * `run`, given the data of the successful reads of the pipe in order; the
     * read that raises `pywintypes.error` ends the sequence. The header comes
     * from the first read, and the session ends as if every whole record of
     * `Stream` had been translated in order, however the bytes were split into
     * reads.
     */
    method Run(responses: seq<seq<byte>>) returns (dimensions: Option<DeviceDimensions>)
      requires Valid()
      modifies this
      ensures Valid()
      ensures responses == [] ==> dimensions == None && State() == old(State())
      ensures responses != [] ==>
        && dimensions == Some(DecodeHeader(responses[0]))
        && State() == Replay(old(State()), Records(Stream(responses)))
    {
      if responses == [] {
        return None;
      }
      var first := responses[0];
      dimensions := Some(DeviceDimensions(Field16(first, 0), Field16(first, 2)));
      var remain := Drop(first, 4);
      ghost var s0 := State();
      ghost var done: seq<Sample> := [];
      var i := 1;
      assert responses[..1][1..] == [];
      assert Stream(responses[..1]) == remain;
      while true
        invariant 1 <= i <= |responses|
        invariant Valid()
        invariant State() == Replay(s0, done)
        invariant Records(Stream(responses[..i])) == done + Records(remain)
        invariant Remainder(Stream(responses[..i])) == Remainder(remain)
        decreases |responses| - i
      {
        ghost var before := remain;
        remain := DrainRecords(remain);
        ReplayConcat(s0, done, Records(before));
        done := done + Records(before);
        if i == |responses| {
          break;
        }
        StreamStep(responses, i);
        FramingStreams(Stream(responses[..i]), responses[i]);
        remain := remain + responses[i];
        i := i + 1;
      }
      assert responses[..i] == responses;
    }
  }
}
