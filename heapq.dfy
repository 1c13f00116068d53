/**
 * PyHeap: Python's `heapq.heappush` on the pathfinder's open set, whose entries are
 * `(f_score, waypoint)` tuples. Tuples compare element by element; two entries with equal
 * scores go on to compare their waypoints, and waypoints define no ordering, so that
 * comparison raises `TypeError`. Waypoint objects compare equal only to themselves, so
 * here a waypoint is its index.
 */
module PyHeap {
  import opened Waypoints
  import opened Routes
  import opened Layout

  /** An open-set entry `(f_score, waypoint)`. */
  datatype Item = Item(f: int, node: nat)

  /** The result of `a < b` on two entries: a boolean, or the `TypeError` it raises. */
  datatype Compared = Less(less: bool) | Incomparable

  /**
   * Tuple `<` on entries: the first differing element decides; equal scores with two
   * different waypoints reach the waypoint comparison, which raises.
   */
  function TupleLess(a: Item, b: Item): (r: Compared)
    ensures r.Incomparable? <==> a.f == b.f && a.node != b.node
    ensures r.Less? ==> (r.less <==> a.f < b.f)
  {
    if a.f != b.f then Less(a.f < b.f)
    else if a.node == b.node then Less(false)
    else Incomparable
  }

  /** The heap after a push, or the `TypeError` the push raised. */
  datatype Pushed = Pushed(heap: seq<Item>) | PushRaised

  /**
   * `heapq._siftdown(heap, 0, pos)`: moves `item`, which belongs at `pos`, up past every
   * parent it is less than.
   */
  function SiftDown(heap: seq<Item>, item: Item, pos: nat): (r: Pushed)
    requires pos < |heap|
    ensures r.Pushed? ==> |r.heap| == |heap|
    decreases pos
  {
    if pos == 0 then Pushed(heap[pos := item])
    else
      var parent := (pos - 1) / 2;
      match TupleLess(item, heap[parent])
      case Incomparable => PushRaised
      case Less(less) =>
        if less then SiftDown(heap[pos := heap[parent]], item, parent)
        else Pushed(heap[pos := item])
  }

  /** `heapq.heappush`: append the entry, then sift it towards the root. */
  function HeapPush(heap: seq<Item>, item: Item): (r: Pushed)
    ensures r.Pushed? ==> |r.heap| == |heap| + 1
  {
    SiftDown(heap + [item], item, |heap|)
  }

  /** Pushing onto an empty heap never compares anything. */
  lemma PushOntoEmpty(item: Item)
    ensures HeapPush([], item) == Pushed([item])
  {
  }

  /**
   * Pushing an entry whose score equals that of the entry at its first parent, for a
   * different waypoint, raises.
   */
  lemma TieWithParentRaises(heap: seq<Item>, item: Item)
    requires |heap| > 0
    requires heap[(|heap| - 1) / 2].f == item.f && heap[(|heap| - 1) / 2].node != item.node
    ensures HeapPush(heap, item) == PushRaised
  {
    assert (heap + [item])[(|heap| - 1) / 2] == heap[(|heap| - 1) / 2];
  }

  /** On a 3 by 3 grid the top-left corner's neighbours are 1, on its right, and 3, below it. */
  lemma CornerNeighbours()
    ensures GridNeighbours(3, 3, 0, 0) == [GridId(3, 1, 0), GridId(3, 0, 1)] == [1, 3]
    ensures GridId(3, 2, 2) == 8
  {
    assert Right(3, 3, 0, 0) == [1] && Down(3, 3, 0, 0) == [3];
    assert Left(3, 3, 0, 0) == [] && Up(3, 3, 0, 0) == [];
  }

  /**
   * Both neighbours of the corner are one step away and at Manhattan distance 3 from the
   * opposite corner, so both get the score 4.
   */
  lemma CornerScoresTie()
    ensures var start, right, down, goal := NewWaypoint(0, 0, 0), NewWaypoint(1, 1, 0), NewWaypoint(3, 0, 1), NewWaypoint(8, 2, 2);
            && 0 + SqDistance(start, right) + Heuristic(right, goal) == 4
            && 0 + SqDistance(start, down) + Heuristic(down, goal) == 4
  {
  }

  /**
   * The first expansion of a search on an empty 3 by 3 grid from the top-left corner to
   * the bottom-right one: the corner's neighbours 1 and 3 both get the score 4
   * (`CornerScoresTie`), so the first push succeeds and the second raises.
   */
  lemma FirstExpansionRaises()
    ensures GridNeighbours(3, 3, 0, 0) == [1, 3]
    ensures HeapPush([], Item(4, 1)) == Pushed([Item(4, 1)])
    ensures HeapPush([Item(4, 1)], Item(4, 3)) == PushRaised
  {
    CornerNeighbours();
    TieWithParentRaises([Item(4, 1)], Item(4, 3));
  }
}
