/**
 * Growable lists of 2-D points (`Point2DList`): a heap array of points and
 * its length. Each append allocates a new array one longer, copies the old
 * points over and puts the new point last.
 */
module Point2DLists {
  import opened CTypes

  /** `Point2D` */
  datatype Point2D = Point2D(x: u32, y: u32)

  /** `Point2DList`; a `NULL` `Entries` is an empty array. */
  class Point2DList {
    var entries: array<Point2D>
    var size: nat

    /** `Size` counts exactly the entries the array holds. */
    ghost predicate Valid()
      reads this
    {
      size == entries.Length
    }

    /** The points of the list, in order. */
    function Points(): seq<Point2D>
      reads this, entries
    {
      entries[..]
    }

    /** `(Point2DList){.Entries = NULL, .Size = 0}` */
    constructor Empty()
      ensures Valid() && Points() == [] && fresh(entries)
    {
      entries := new Point2D[0];
      size := 0;
    }

    /** A list value left over in memory that was never initialised. */
    constructor Holding(points: seq<Point2D>)
      ensures Valid() && Points() == points && fresh(entries)
    {
      entries := new Point2D[|points|](i requires 0 <= i < |points| => points[i]);
      size := |points|;
    }
  }

  /**
   * `mInitializePoint2DList` (and `kankaku_point2d_initialize_list_with_a_single_element`):
   * whatever the list held, it becomes the single `point`. A `NULL` list ends the process.
   */
  method InitializePoint2DList(point: Point2D, list: Point2DList?) returns (status: Status)
    modifies list
    ensures list == null ==> status == Terminated
    ensures list != null ==> status == Returned(0) && list.Valid() && fresh(list.entries)
    ensures list != null ==> list.Points() == [point]
  {
    if list == null {
      return Terminated;
    }
    list.size := 1;
    list.entries := new Point2D[1];
    list.entries[0] := point;
    status := Returned(0);
  }

  /**
   * `mAppendPoint2DToList` (and `kankaku_point2d_append_element`): the list
   * grows by one, keeps its points in place and ends with `point`; an empty
   * list is initialised with `point`. A `NULL` list ends the process.
   */
  method AppendPoint2DToList(point: Point2D, list: Point2DList?) returns (status: Status)
    requires list != null ==> list.Valid()
    modifies list
    ensures list == null ==> status == Terminated
    ensures list != null ==> status == Returned(0) && list.Valid() && fresh(list.entries)
    ensures list != null ==> list.Points() == old(list.Points()) + [point]
  {
    if list == null {
      return Terminated;
    }
    if list.entries.Length == 0 || list.size == 0 {
      assert list.Points() == [];
      status := InitializePoint2DList(point, list);
    } else {
      var newArraySize := list.size + 1;
      var newArray := new Point2D[newArraySize];
      for pIdx := 0 to list.size
        modifies newArray
        invariant newArray[..pIdx] == list.entries[..pIdx]
      {
        newArray[pIdx] := list.entries[pIdx];
      }
      newArray[list.size] := point;
      list.entries := newArray;
      list.size := newArraySize;
      status := Returned(0);
    }
  }

  /**
   * `test_mAppendPoint2DToList`: appending (2, 5) and then (6, 3) to an empty
   * list returns 0 both times and leaves exactly those two points, in order.
   */
  method TestAppendPoint2DToList() returns (first: Status, second: Status, points: seq<Point2D>)
    ensures first == Returned(0) && second == Returned(0)
    ensures points == [Point2D(2, 5), Point2D(6, 3)]
  {
    var p1 := Point2D(2, 5);
    var p2 := Point2D(6, 3);
    var pList := new Point2DList.Empty();
    first := AppendPoint2DToList(p1, pList);
    assert pList.size == 1 && pList.entries[0] == p1;
    second := AppendPoint2DToList(p2, pList);
    points := pList.entries[..];
  }
}
