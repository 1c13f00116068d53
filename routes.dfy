/**
 * Routes: what the pathfinder may traverse, and the facts about walks and
 * scores that its correctness and termination rest on.
 */
module Routes {
  import opened Wrappers
  import opened Waypoints
  import opened Pods

  /**
   * What `find_path` relies on in the waypoint and pod tables: every edge leads to a
   * waypoint of the table, joins two different positions (so has positive length),
   * and every pod reference is an index of the pod table.
   */
  ghost predicate GraphReady(ws: seq<Waypoint>, pods: seq<Pod>)
  {
    && (forall v, u :: 0 <= v < |ws| && u in ws[v].paths ==> u < |ws|)
    && (forall v, u :: 0 <= v < |ws| && u in ws[v].paths && u != v ==> u < |ws| && SqDistance(ws[v], ws[u]) > 0)
    && (forall v :: 0 <= v < |ws| && ws[v].pod.Some? ==> ws[v].pod.value < |pods|)
  }

  /**
   * `is_blocked`: the goal is never blocked; any other waypoint is blocked exactly when it
   * holds a pod that is not in use.
   */
  predicate IsBlocked(ws: seq<Waypoint>, pods: seq<Pod>, w: nat, goal: nat)
    requires w < |ws| && (ws[w].pod.Some? ==> ws[w].pod.value < |pods|)
  {
    if w == goal then false else ws[w].pod.Some? && !pods[ws[w].pod.value].inUse
  }

  /** A blocked waypoint is occupied (by a pod) in the sense of `is_occupied`. */
  lemma BlockedIsOccupied(ws: seq<Waypoint>, pods: seq<Pod>, w: nat, goal: nat)
    requires w < |ws| && (ws[w].pod.Some? ==> ws[w].pod.value < |pods|)
    ensures IsBlocked(ws, pods, w, goal) ==> IsOccupied(ws[w]) && w != goal
  {
  }

  function Abs(n: int): (r: nat)
    ensures r == n || r == -n
  {
    if n < 0 then -n else n
  }

  /** `heuristic`: the Manhattan distance between two waypoints. */
  function Heuristic(a: Waypoint, b: Waypoint): (h: nat)
    ensures h == 0 <==> a.x == b.x && a.y == b.y
    ensures h >= Abs(a.x - b.x) && h >= Abs(a.y - b.y)
  {
    Abs(a.x - b.x) + Abs(a.y - b.y)
  }

  lemma HeuristicSymmetric(a: Waypoint, b: Waypoint)
    ensures Heuristic(a, b) == Heuristic(b, a)
  {
  }

  /**
   * Manhattan distance never exceeds the squared Euclidean distance between
   * integer points, so it never overestimates the cost of a single edge.
   */
  lemma HeuristicAtMostEdgeCost(a: Waypoint, b: Waypoint)
    ensures Heuristic(a, b) <= SqDistance(a, b)
  {
    AbsAtMostSquare(a.x - b.x);
    AbsAtMostSquare(a.y - b.y);
  }

  /** `|n| <= n * n` for every integer `n`. */
  lemma AbsAtMostSquare(n: int)
    ensures Abs(n) <= n * n
  {
    var m := Abs(n);
    assert m * m == n * n by {
      if n < 0 {
        assert m == -n;
        assert (-n) * (-n) == n * n;
      }
    }
    if m > 0 {
      assert m * m >= m * 1;
    }
  }

  /**
   * A route that `find_path(start, goal)` may return: it starts at `start`, ends at `goal`,
   * follows edges, and no waypoint after the start is blocked.
   */
  ghost predicate IsRoute(ws: seq<Waypoint>, pods: seq<Pod>, p: seq<nat>, start: nat, goal: nat)
    requires GraphReady(ws, pods)
  {
    && |p| > 0 && p[0] == start && p[|p| - 1] == goal
    && (forall i :: 0 <= i < |p| ==> p[i] < |ws|)
    && (forall i :: 0 <= i < |p| - 1 ==> p[i + 1] in ws[p[i]].paths)
    && (forall i :: 0 < i < |p| ==> !IsBlocked(ws, pods, p[i], goal))
  }

  /** No route leads from `start` to `goal`. */
  ghost predicate NoRoute(ws: seq<Waypoint>, pods: seq<Pod>, start: nat, goal: nat)
    requires GraphReady(ws, pods)
  {
    forall p :: !IsRoute(ws, pods, p, start, goal)
  }

  /** Every unblocked neighbour of `v` has a score. */
  ghost predicate Closed(ws: seq<Waypoint>, pods: seq<Pod>, goal: nat, g: map<nat, int>, v: nat)
    requires GraphReady(ws, pods) && v < |ws|
  {
    forall u :: u in ws[v].paths && u < |ws| && !IsBlocked(ws, pods, u, goal) ==> u in g
  }

  /**
   * If the scored waypoints include `start`, are closed under steps to unblocked
   * neighbours and exclude `goal`, no route leads from `start` to `goal`.
   */
  lemma {:induction false} NoRouteOutsideClosure(ws: seq<Waypoint>, pods: seq<Pod>, start: nat, goal: nat, g: map<nat, int>)
    requires GraphReady(ws, pods)
    requires start in g && goal !in g
    requires forall v :: v in g ==> v < |ws| && Closed(ws, pods, goal, g, v)
    ensures NoRoute(ws, pods, start, goal)
  {
    forall p | IsRoute(ws, pods, p, start, goal)
      ensures false
    {
      var i := 0;
      while i < |p| - 1
        invariant 0 <= i <= |p| - 1
        invariant p[i] in g
      {
        assert p[i + 1] in ws[p[i]].paths && !IsBlocked(ws, pods, p[i + 1], goal);
        i := i + 1;
      }
    }
  }

  // ---------------------------------------------------------------------------
  // Walks and their costs

  /** A non-empty sequence of waypoints of the table, each joined to the next by an edge. */
  ghost predicate IsWalk(ws: seq<Waypoint>, w: seq<nat>)
  {
    && |w| > 0
    && (forall i :: 0 <= i < |w| ==> w[i] < |ws|)
    && (forall i :: 0 <= i < |w| - 1 ==> w[i + 1] in ws[w[i]].paths)
  }

  /** The summed edge costs of a sequence of waypoints. */
  ghost function WalkCost(ws: seq<Waypoint>, w: seq<nat>): (c: int)
    requires forall i :: 0 <= i < |w| ==> w[i] < |ws|
    ensures c >= 0
    decreases |w|
  {
    if |w| <= 1 then 0
    else WalkCost(ws, w[..|w| - 1]) + SqDistance(ws[w[|w| - 2]], ws[w[|w| - 1]])
  }

  lemma WalkCostAppend(ws: seq<Waypoint>, w: seq<nat>, u: nat)
    requires |w| > 0 && u < |ws|
    requires forall i :: 0 <= i < |w| ==> w[i] < |ws|
    ensures WalkCost(ws, w + [u]) == WalkCost(ws, w) + SqDistance(ws[w[|w| - 1]], ws[u])
  {
    assert (w + [u])[..|w|] == w;
  }

  /** The cost of a prefix never exceeds the cost of the whole sequence. */
  lemma {:induction false} WalkCostPrefix(ws: seq<Waypoint>, w: seq<nat>, k: nat)
    requires forall i :: 0 <= i < |w| ==> w[i] < |ws|
    requires 0 < k <= |w|
    ensures WalkCost(ws, w[..k]) <= WalkCost(ws, w)
    decreases |w|
  {
    if k < |w| {
      var w' := w[..|w| - 1];
      assert w'[..k] == w[..k];
      WalkCostPrefix(ws, w', k);
    } else {
      assert w[..k] == w;
    }
  }

  /** The largest cost of an edge from `v` to one of `ns`. */
  ghost function MaxOut(ws: seq<Waypoint>, v: nat, ns: seq<nat>): (m: nat)
    requires v < |ws| && forall i :: 0 <= i < |ns| ==> ns[i] < |ws|
    ensures forall i :: 0 <= i < |ns| ==> SqDistance(ws[v], ws[ns[i]]) <= m
    decreases |ns|
  {
    if ns == [] then 0
    else
      var rest := MaxOut(ws, v, ns[1..]);
      assert forall i :: 1 <= i < |ns| ==> ns[i] == ns[1..][i - 1];
      var d := SqDistance(ws[v], ws[ns[0]]);
      if d > rest then d else rest
  }

  /** The largest edge cost leaving any of the waypoints `ws[i..]`. */
  ghost function MaxEdgeFrom(ws: seq<Waypoint>, pods: seq<Pod>, i: nat): (m: nat)
    requires GraphReady(ws, pods)
    ensures forall v, u :: i <= v < |ws| && u in ws[v].paths ==> SqDistance(ws[v], ws[u]) <= m
    decreases |ws| - i
  {
    if i >= |ws| then 0
    else
      assert forall j :: 0 <= j < |ws[i].paths| ==> ws[i].paths[j] in ws[i].paths;
      var here := MaxOut(ws, i, ws[i].paths);
      var rest := MaxEdgeFrom(ws, pods, i + 1);
      assert forall u :: u in ws[i].paths ==> SqDistance(ws[i], ws[u]) <= here by {
        forall u | u in ws[i].paths ensures SqDistance(ws[i], ws[u]) <= here {
          var j :| 0 <= j < |ws[i].paths| && ws[i].paths[j] == u;
        }
      }
      if here > rest then here else rest
  }

  /** An upper bound on the cost of any walk that visits no waypoint twice. */
  ghost function Top(ws: seq<Waypoint>, pods: seq<Pod>): nat
    requires GraphReady(ws, pods)
  {
    var m := MaxEdgeFrom(ws, pods, 0);
    MulNonNegative(|ws|, m);
    |ws| * m
  }

  lemma MulNonNegative(a: nat, b: nat)
    ensures a * b >= 0
  {
  }

  /** A sequence of distinct indices below `n` has at most `n` elements. */
  lemma {:induction false} DistinctBelow(w: seq<nat>, n: nat)
    requires NoDuplicates(w)
    requires forall i :: 0 <= i < |w| ==> w[i] < n
    ensures |w| <= n
    decreases n
  {
    if |w| > 0 {
      assert w[0] < n;
      // drop the largest value's occurrence and recurse with a smaller bound
      var m := n - 1;
      if exists i :: 0 <= i < |w| && w[i] == m {
        var k :| 0 <= k < |w| && w[k] == m;
        var w' := DropLargest(w, k, m);
        DistinctBelow(w', m);
      } else {
        DistinctBelow(w, m);
      }
    }
  }

  /** Removing the one occurrence of `m` from distinct values at most `m` leaves distinct values below `m`. */
  lemma DropLargest(w: seq<nat>, k: nat, m: nat) returns (w': seq<nat>)
    requires NoDuplicates(w) && k < |w| && w[k] == m
    requires forall i :: 0 <= i < |w| ==> w[i] <= m
    ensures |w'| == |w| - 1 && NoDuplicates(w')
    ensures forall i :: 0 <= i < |w'| ==> w'[i] < m
  {
    w' := w[..k] + w[k + 1..];
    assert forall i :: 0 <= i < |w'| ==> w'[i] == (if i < k then w[i] else w[i + 1]);
    forall i, j | 0 <= i < j < |w'| ensures w'[i] != w'[j] {
      var a := if i < k then i else i + 1;
      var b := if j < k then j else j + 1;
      assert w'[i] == w[a] && w'[j] == w[b] && a < b;
    }
    forall i | 0 <= i < |w'| ensures w'[i] < m {
      var a := if i < k then i else i + 1;
      assert w'[i] == w[a] && a != k;
    }
  }

  /** A walk visiting no waypoint twice costs at most `Top`. */
  lemma SimpleWalkBound(ws: seq<Waypoint>, pods: seq<Pod>, w: seq<nat>)
    requires GraphReady(ws, pods) && IsWalk(ws, w) && NoDuplicates(w)
    ensures WalkCost(ws, w) <= Top(ws, pods)
  {
    var m := MaxEdgeFrom(ws, pods, 0);
    var c := WalkCost(ws, w);
    assert c <= (|w| - 1) * m by {
      WalkCostAtMost(ws, w, m);
    }
    assert |w| - 1 <= |ws| by {
      DistinctBelow(w, |ws|);
    }
    assert c <= |ws| * m by {
      MulMonotone(c, |w| - 1, |ws|, m);
    }
    assert Top(ws, pods) == |ws| * m;
  }

  /** A bound of `a * m` is also a bound of `b * m` for `a <= b`. */
  lemma MulMonotone(c: int, a: int, b: int, m: nat)
    requires c <= a * m && a <= b
    ensures c <= b * m
  {
    assert b * m - a * m == (b - a) * m;
  }

  /** Every edge of the table leads to a waypoint of the table and costs at most `m`. */
  ghost predicate EdgesAtMost(ws: seq<Waypoint>, m: nat)
  {
    forall v, u :: 0 <= v < |ws| && u in ws[v].paths ==> u < |ws| && SqDistance(ws[v], ws[u]) <= m
  }

  /** A walk whose every edge costs at most `m` costs at most `m` per step. */
  lemma {:induction false} WalkCostAtMost(ws: seq<Waypoint>, w: seq<nat>, m: nat)
    requires IsWalk(ws, w) && EdgesAtMost(ws, m)
    ensures WalkCost(ws, w) <= (|w| - 1) * m
    decreases |w|
  {
    if |w| > 1 {
      var w' := w[..|w| - 1];
      var a, b := w[|w| - 2], w[|w| - 1];
      var c, c', d := WalkCost(ws, w), WalkCost(ws, w'), SqDistance(ws[a], ws[b]);
      assert c' <= (|w'| - 1) * m by {
        assert IsWalk(ws, w');
        WalkCostAtMost(ws, w', m);
      }
      assert d <= m by {
        assert b in ws[a].paths;
      }
      assert c == c' + d;
      StepBound(c, c', d, |w'| - 1, m);
    }
  }

  /** One more step of cost at most `m` adds at most `m` to a bound of `k * m`. */
  lemma StepBound(c: int, c': int, d: int, k: int, m: int)
    requires c' <= k * m && d <= m && c == c' + d
    ensures c <= (k + 1) * m
  {
    MulSucc(k, m);
  }

  lemma MulSucc(k: int, m: int)
    ensures (k + 1) * m == k * m + m
  {
  }

  // ---------------------------------------------------------------------------
  // The termination measure of the search

  /** The score of `v` for the measure: its g-score, or `top` while it has none. */
  ghost function Term(g: map<nat, int>, v: nat, top: nat): nat
  {
    if v in g then (if g[v] >= 0 then g[v] else 0) else top
  }

  /** The sum of `Term` over the waypoints `0 .. n-1`. */
  ghost function Potential(g: map<nat, int>, n: nat, top: nat): nat
  {
    if n == 0 then 0 else Potential(g, n - 1, top) + Term(g, n - 1, top)
  }

  /** Lowering the score of one waypoint lowers the measure. */
  lemma {:induction false} PotentialDrop(g: map<nat, int>, n: nat, top: nat, u: nat, t: int)
    requires u < n && 0 <= t < Term(g, u, top)
    ensures Potential(g[u := t], n, top) < Potential(g, n, top)
    decreases n
  {
    if u < n - 1 {
      PotentialDrop(g, n - 1, top, u, t);
      assert Term(g[u := t], n - 1, top) == Term(g, n - 1, top);
    } else {
      PotentialSame(g, n - 1, top, u, t);
    }
  }

  lemma {:induction false} PotentialSame(g: map<nat, int>, n: nat, top: nat, u: nat, t: int)
    requires n <= u
    ensures Potential(g[u := t], n, top) == Potential(g, n, top)
    decreases n
  {
    if n > 0 {
      PotentialSame(g, n - 1, top, u, t);
      assert Term(g[u := t], n - 1, top) == Term(g, n - 1, top);
    }
  }
}
