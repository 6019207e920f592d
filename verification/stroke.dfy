/**
 * The collection of strokes drawn so far (`StrokeList`): a heap array of
 * point lists, one per stroke, grown by reallocation like the point lists
 * themselves.
 */
module Strokes {
  import opened CTypes
  import opened Point2DLists

  /** `StrokeList`; a `NULL` `Entries` is an empty array. */
  class StrokeList {
    var entries: array<Point2DList>
    var size: nat
    /** The points of every stroke, in order. */
    ghost var Strokes: seq<seq<Point2D>>
    ghost var Repr: set<object>

    ghost predicate Valid()
      reads this, Repr
    {
      && this in Repr && entries in Repr
      && size == entries.Length == |Strokes|
      && (forall i :: 0 <= i < size ==> entries[i] in Repr && entries[i].entries in Repr)
      && (forall i :: 0 <= i < size ==> entries[i].Valid() && entries[i].Points() == Strokes[i])
      && (forall i, j :: 0 <= i < j < size ==> entries[i] != entries[j])
    }

    /** `(StrokeList){.Entries = NULL, .Size = 0}` */
    constructor Empty()
      ensures Valid() && Strokes == [] && fresh(Repr)
    {
      entries := new Point2DList[0];
      size := 0;
      Strokes := [];
      Repr := {this, entries};
    }

    /**
     * `Size = 1; Entries = malloc(sizeof(Point2DList))`, with `slot` as the
     * value the caller then stores in `Entries[0]`.
     */
    method AllocateSingle(slot: Point2DList)
      requires Valid() && slot.Valid() && slot !in Repr && slot.entries !in Repr
      modifies this
      ensures Valid() && fresh(Repr - old(Repr) - {slot, slot.entries})
      ensures Strokes == [slot.Points()]
    {
      size := 1;
      entries := new Point2DList[1](_ => slot);
      Strokes := [slot.Points()];
      Repr := {this, entries, slot, slot.entries};
    }

    /**
     * The reallocation shared by the stroke creators: a new array one longer,
     * the old strokes copied over by value, and `slot` as the value stored in
     * the new last element.
     */
    method Grow(slot: Point2DList)
      requires Valid() && slot.Valid() && slot !in Repr && slot.entries !in Repr
      modifies this
      ensures Valid() && fresh(Repr - old(Repr) - {slot, slot.entries})
      ensures Strokes == old(Strokes) + [slot.Points()]
    {
      var newStrokeArraySize := size + 1;
      var newStrokeArray := new Point2DList[newStrokeArraySize](_ => slot);
      for strokeIdx := 0 to size
        modifies newStrokeArray
        invariant newStrokeArray[..strokeIdx] == entries[..strokeIdx]
        invariant forall k :: strokeIdx <= k < newStrokeArraySize ==> newStrokeArray[k] == slot
      {
        newStrokeArray[strokeIdx] := entries[strokeIdx];
      }
      entries := newStrokeArray;
      size := newStrokeArraySize;
      Strokes := Strokes + [slot.Points()];
      Repr := Repr + {newStrokeArray, slot, slot.entries};
      assert forall i :: 0 <= i < size - 1 ==> entries[i] == old(entries[i]);
    }

    /** `mAppendPoint2DToList(point, &strokes->Entries[strokes->Size - 1])` */
    method AppendToLast(point: Point2D) returns (status: Status)
      requires Valid() && size > 0
      modifies Repr
      ensures Valid() && fresh(Repr - old(Repr))
      ensures status == Returned(0)
      ensures Strokes == old(Strokes)[..|old(Strokes)| - 1] + [old(Strokes)[|old(Strokes)| - 1] + [point]]
    {
      var last := entries[size - 1];
      status := AppendPoint2DToList(point, last);
      Strokes := Strokes[size - 1 := last.Points()];
      Repr := Repr + {last.entries};
    }

    /** `kankaku_point2d_initialize_list_with_a_single_element(point, &strokes->Entries[strokes->Size - 1])` */
    method InitializeLast(point: Point2D) returns (status: Status)
      requires Valid() && size > 0
      modifies Repr
      ensures Valid() && fresh(Repr - old(Repr))
      ensures status == Returned(0)
      ensures Strokes == old(Strokes)[..|old(Strokes)| - 1] + [[point]]
    {
      var last := entries[size - 1];
      status := InitializePoint2DList(point, last);
      Strokes := Strokes[size - 1 := last.Points()];
      Repr := Repr + {last.entries};
    }

    /** Every stroke is released: `Entries = NULL, Size = 0`. */
    method Clear()
      requires Valid()
      modifies this
      ensures Valid() && Strokes == [] && fresh(Repr - {this})
    {
      entries := new Point2DList[0];
      size := 0;
      Strokes := [];
      Repr := {this, entries};
    }
  }

  /**
   * The body shared by the stroke creators once `strokes` is known to be
   * non-`NULL`: an empty collection becomes a single stroke, otherwise the
   * array grows and the new last element, holding `newSlot`, gets `point`
   * appended.
   */
  method AppendNewStroke(point: Point2D, strokes: StrokeList, newSlot: seq<Point2D>) returns (status: Status)
    requires strokes.Valid()
    modifies strokes, strokes.Repr
    ensures strokes.Valid() && fresh(strokes.Repr - old(strokes.Repr))
    ensures status == Returned(0)
    ensures old(strokes.Strokes) == [] ==> strokes.Strokes == [[point]]
    ensures old(strokes.Strokes) != [] ==> strokes.Strokes == old(strokes.Strokes) + [newSlot + [point]]
  {
    if strokes.entries.Length == 0 || strokes.size == 0 {
      var slot := new Point2DList.Empty();
      strokes.AllocateSingle(slot);
      status := strokes.AppendToLast(point);
      assert [] + [point] == [point];
    } else {
      var slot := new Point2DList.Holding(newSlot);
      strokes.Grow(slot);
      status := strokes.AppendToLast(point);
    }
  }

  /**
   * `mCreateNewStroke` (touchpad/stroke.c): a new stroke holding only `point`
   * is added after the existing ones, which stay as they were. A `NULL`
   * collection ends the process.
   */
  method CreateNewStroke(point: Point2D, strokes: StrokeList?) returns (status: Status)
    requires strokes != null ==> strokes.Valid()
    modifies if strokes == null then {} else {strokes} + strokes.Repr
    ensures strokes == null ==> status == Terminated
    ensures strokes != null ==>
      && status == Returned(0)
      && strokes.Valid() && fresh(strokes.Repr - old(strokes.Repr))
      && strokes.Strokes == old(strokes.Strokes) + [[point]]
  {
    if strokes == null {
      return Terminated;
    }
    // the new last element is reset to `{NULL, 0}` before the append
    status := AppendNewStroke(point, strokes, []);
    assert [] + [point] == [point];
  }

  /**
   * `mCreateNewStroke` as written in src/stroke.cc: the new last element of
   * the grown array is never reset, so `point` is appended to whatever list
   * value that memory held (`leftover`). A `NULL` collection ends the process
   * (`throw;` outside any handler).
   */
  method CreateNewStrokeUninitialisedSlot(point: Point2D, strokes: StrokeList?, leftover: seq<Point2D>)
    returns (status: Status)
    requires strokes != null ==> strokes.Valid()
    modifies if strokes == null then {} else {strokes} + strokes.Repr
    ensures strokes == null ==> status == Terminated
    ensures strokes != null ==>
      && status == Returned(0)
      && strokes.Valid() && fresh(strokes.Repr - old(strokes.Repr))
      && strokes.Strokes == old(strokes.Strokes) + [if old(strokes.Strokes) == [] then [point] else leftover + [point]]
  {
    if strokes == null {
      return Terminated;
    }
    status := AppendNewStroke(point, strokes, leftover);
  }

  /**
   * The input that shows the src/stroke.cc discrepancy: with one stroke
   * already drawn and the point (7, 7) left in the reused memory, the new
   * stroke for (1, 2) comes out as two points instead of one.
   */
  method UninitialisedSlotExample() returns (lastStroke: seq<Point2D>)
    ensures lastStroke == [Point2D(7, 7), Point2D(1, 2)]
  {
    var strokes := new StrokeList.Empty();
    var _ := CreateNewStroke(Point2D(0, 0), strokes);
    var _ := CreateNewStrokeUninitialisedSlot(Point2D(1, 2), strokes, [Point2D(7, 7)]);
    lastStroke := strokes.entries[strokes.size - 1].entries[..];
  }

  /** The same call sequence with the reset of touchpad/stroke.c gives the one-point stroke. */
  method ResetSlotExample() returns (lastStroke: seq<Point2D>)
    ensures lastStroke == [Point2D(1, 2)]
  {
    var strokes := new StrokeList.Empty();
    var _ := CreateNewStroke(Point2D(0, 0), strokes);
    var _ := CreateNewStroke(Point2D(1, 2), strokes);
    lastStroke := strokes.entries[strokes.size - 1].entries[..];
  }
}
