/**
 * The stroke operations of kankaku_stroke.c: the same reallocation scheme as
 * touchpad/stroke.c, with failures reported through the return value and,
 * for `kankaku_stroke_add_point`, optionally by ending the process.
 */
module KankakuStroke {
  import opened CTypes
  import opened Point2DLists
  import opened Strokes

  /**
   * `kankaku_stroke_add_point`. With `isCreatingNewStroke` set, an empty
   * collection becomes the single stroke `[point]` and otherwise `point` is
   * appended to the last stroke; without it, `point` is appended to the last
   * stroke and an empty collection is a failure. Failures (also a `NULL`
   * collection) return -1, or end the process when `dieOnFailure` is set. A
   * stroke is added only to an empty collection.
   */
  method AddPoint(point: Point2D, strokes: StrokeList?, isCreatingNewStroke: int, dieOnFailure: int)
    returns (status: Status)
    requires strokes != null ==> strokes.Valid()
    modifies if strokes == null then {} else {strokes} + strokes.Repr
    ensures strokes == null ==> status == (if dieOnFailure != 0 then Terminated else Returned(-1))
    ensures strokes != null && old(strokes.Strokes) == [] ==>
      if isCreatingNewStroke != 0 then
        status == Returned(0) && strokes.Valid() && strokes.Strokes == [[point]]
      else
        status == (if dieOnFailure != 0 then Terminated else Returned(-1))
        && strokes.Valid() && strokes.Strokes == []
    ensures strokes != null && old(strokes.Strokes) != [] ==>
      var n := |old(strokes.Strokes)|;
      && status == Returned(0) && strokes.Valid()
      && strokes.Strokes == old(strokes.Strokes)[..n - 1] + [old(strokes.Strokes)[n - 1] + [point]]
    ensures strokes != null ==> fresh(strokes.Repr - old(strokes.Repr))
  {
    if strokes == null {
      status := Returned(-1);
      if dieOnFailure != 0 {
        status := Terminated;
      }
      return;
    }
    var isCollectionEmpty := strokes.entries.Length == 0 || strokes.size == 0;
    if isCreatingNewStroke != 0 {
      if isCollectionEmpty {
        var slot := new Point2DList.Empty();
        strokes.AllocateSingle(slot);
        status := strokes.InitializeLast(point);
      } else {
        status := strokes.AppendToLast(point);
      }
    } else {
      if isCollectionEmpty {
        status := Returned(-1);
        if dieOnFailure != 0 {
          status := Terminated;
        }
      } else {
        status := strokes.AppendToLast(point);
      }
    }
  }

  /**
   * `kankaku_stroke_create_and_append_a_new_stroke`: like `mCreateNewStroke`
   * of touchpad/stroke.c, but a `NULL` collection only returns -1.
   */
  method CreateAndAppendNewStroke(point: Point2D, strokes: StrokeList?) returns (status: Status)
    requires strokes != null ==> strokes.Valid()
    modifies if strokes == null then {} else {strokes} + strokes.Repr
    ensures strokes == null ==> status == Returned(-1)
    ensures strokes != null ==>
      && status == Returned(0)
      && strokes.Valid() && fresh(strokes.Repr - old(strokes.Repr))
      && strokes.Strokes == old(strokes.Strokes) + [[point]]
  {
    if strokes == null {
      return Returned(-1);
    }
    // the new last element is reset to `{NULL, 0}` before the append
    status := AppendNewStroke(point, strokes, []);
    assert [] + [point] == [point];
  }
}
