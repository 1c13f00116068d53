/**
 * Waypoints: the nodes of the warehouse navigation graph.
 * A waypoint refers to its neighbours, its pod and its stations by index
 * (waypoint ids, pod ids and station ids are positions in the instance's tables).
 */
module Waypoints {
  import opened Wrappers

  datatype Waypoint = Waypoint(
    id: nat,
    x: int,
    y: int,
    paths: seq<nat>,                // ids of the directly reachable waypoints, in insertion order
    pathDistances: map<nat, int>,   // neighbour id -> squared Euclidean distance
    pod: Option<nat>,
    inputStation: Option<nat>,
    outputStation: Option<nat>,
    podStorageLocation: bool)

  /** A freshly constructed waypoint: no connections, nothing placed on it. */
  function NewWaypoint(id: nat, x: int, y: int): (w: Waypoint)
    ensures w.id == id && w.x == x && w.y == y
    ensures w.paths == [] && w.pathDistances == map[]
    ensures !IsOccupied(w) && !w.podStorageLocation
  {
    Waypoint(id, x, y, [], map[], None, None, None, false)
  }

  /** No element occurs twice in `s`. */
  predicate NoDuplicates(s: seq<nat>)
  {
    forall i, j :: 0 <= i < j < |s| ==> s[i] != s[j]
  }

  /**
   * `get_distance` in squared form: the source returns the square root of this value.
   * On the unit grid the two coincide (both are 1 between neighbours).
   */
  function SqDistance(a: Waypoint, b: Waypoint): (d: int)
    ensures d >= 0
    ensures d == 0 <==> a.x == b.x && a.y == b.y
  {
    var dx := a.x - b.x;
    var dy := a.y - b.y;
    SquareZero(dx);
    SquareZero(dy);
    dx * dx + dy * dy
  }

  lemma SquareZero(n: int)
    ensures n * n >= 0
    ensures n * n == 0 <==> n == 0
  {
    if n < 0 {
      assert n * n == (-n) * (-n);
    }
  }

  lemma SqDistanceSymmetric(a: Waypoint, b: Waypoint)
    ensures SqDistance(a, b) == SqDistance(b, a)
  {
    assert (a.x - b.x) * (a.x - b.x) == (b.x - a.x) * (b.x - a.x);
    assert (a.y - b.y) * (a.y - b.y) == (b.y - a.y) * (b.y - a.y);
  }

  /**
   * `add_path`: append `other` to the neighbour list unless it is already there, and
   * record its distance. A second call with the same waypoint changes nothing.
   */
  function AddPath(w: Waypoint, other: Waypoint): (r: Waypoint)
    ensures other.id in r.paths
    ensures forall v :: v in r.paths <==> v in w.paths || v == other.id
    ensures |w.paths| <= |r.paths| <= |w.paths| + 1
    ensures r.paths[..|w.paths|] == w.paths
    ensures other.id in w.paths ==> r == w
    ensures other.id !in w.paths ==>
              r.paths[|w.paths|] == other.id &&
              other.id in r.pathDistances && r.pathDistances[other.id] == SqDistance(w, other) &&
              r.pathDistances.Keys == w.pathDistances.Keys + {other.id}
    ensures forall v :: v in w.pathDistances && v != other.id ==>
              v in r.pathDistances && r.pathDistances[v] == w.pathDistances[v]
    ensures r.(paths := w.paths, pathDistances := w.pathDistances) == w
  {
    if other.id !in w.paths then
      w.(paths := w.paths + [other.id],
         pathDistances := w.pathDistances[other.id := SqDistance(w, other)])
    else
      w
  }

  /** `is_accessible`: `other` is one of the directly reachable waypoints. */
  predicate IsAccessible(w: Waypoint, other: Waypoint)
  {
    other.id in w.paths
  }

  /** `is_occupied`: a pod or an input or output station is placed on the waypoint. */
  predicate IsOccupied(w: Waypoint)
  {
    w.pod.Some? || w.inputStation.Some? || w.outputStation.Some?
  }

  /** A sequence of `add_path` calls, applied left to right. */
  function AddPaths(w: Waypoint, others: seq<Waypoint>): (r: Waypoint)
    decreases |others|
  {
    if others == [] then w else AddPaths(AddPath(w, others[0]), others[1..])
  }

  /** `add_path` never lists a neighbour twice. */
  lemma AddPathKeepsNoDuplicates(w: Waypoint, other: Waypoint)
    requires NoDuplicates(w.paths)
    ensures NoDuplicates(AddPath(w, other).paths)
  {
    if other.id !in w.paths {
      assert AddPath(w, other).paths == w.paths + [other.id];
    }
  }

  /** A sequence of `add_path` calls lists each neighbour once: those already there and the added ones. */
  lemma {:induction false} AddPathsKeepsNoDuplicates(w: Waypoint, others: seq<Waypoint>)
    requires NoDuplicates(w.paths)
    ensures NoDuplicates(AddPaths(w, others).paths)
    ensures forall v :: v in AddPaths(w, others).paths <==>
              v in w.paths || exists k :: 0 <= k < |others| && others[k].id == v
    decreases |others|
  {
    if others != [] {
      var w1 := AddPath(w, others[0]);
      AddPathKeepsNoDuplicates(w, others[0]);
      AddPathsKeepsNoDuplicates(w1, others[1..]);
      forall v
        ensures v in AddPaths(w, others).paths <==>
                v in w.paths || exists k :: 0 <= k < |others| && others[k].id == v
      {
        if exists k :: 0 <= k < |others| && others[k].id == v {
          var k :| 0 <= k < |others| && others[k].id == v;
          if k > 0 {
            assert others[1..][k - 1].id == v;
          }
        }
        if exists k :: 0 <= k < |others[1..]| && others[1..][k].id == v {
          var k :| 0 <= k < |others[1..]| && others[1..][k].id == v;
          assert others[k + 1].id == v;
        }
      }
    }
  }

  lemma AddPathIdempotent(w: Waypoint, other: Waypoint)
    ensures AddPath(AddPath(w, other), other) == AddPath(w, other)
    ensures IsAccessible(AddPath(w, other), other)
  {
  }

  lemma AddPathAccessibility(w: Waypoint, other: Waypoint, v: Waypoint)
    ensures IsAccessible(AddPath(w, other), v) <==> IsAccessible(w, v) || v.id == other.id
  {
  }
}
