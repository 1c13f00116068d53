/**
 * The A* search of `AStar.find_path` and `reconstruct_path`, with the open set kept
 * as a list that is popped at its first entry of least priority.
 */
module Pathfinding {
  import opened Wrappers
  import opened Waypoints
  import opened Pods
  import opened Routes

  /** An entry of the open set: a priority and a waypoint. */
  datatype Entry = Entry(f: int, node: nat)

  /** The test `any(neighbor == wp for _, wp in open_set)`. */
  predicate InOpen(open: seq<Entry>, v: nat)
  {
    exists i :: 0 <= i < |open| && open[i].node == v
  }

  /**
   * The position of the entry the queue pops: the first entry whose priority is least.
   */
  function FirstLeast(open: seq<Entry>): (k: nat)
    requires |open| > 0
    ensures k < |open|
    ensures forall i :: 0 <= i < |open| ==> open[k].f <= open[i].f
    ensures forall i :: 0 <= i < k ==> open[k].f < open[i].f
  {
    if |open| == 1 then 0
    else
      var k := FirstLeast(open[..|open| - 1]);
      if open[|open| - 1].f < open[k].f then |open| - 1 else k
  }

  // ---------------------------------------------------------------------------
  // What holds of the search state between steps

  /**
   * `v` has a finite score. Stating "every scored waypoint but `start` has a predecessor"
   * over this predicate rather than over `v in g` keeps the solver from following
   * predecessor links without end.
   */
  ghost predicate HasScore(g: map<nat, int>, v: nat)
  {
    v in g
  }

  /**
   * The scores: `start` scores 0, scores are non-negative, every scored waypoint other than
   * `start` has a predecessor, and every predecessor link is an edge into an unblocked
   * waypoint from one of strictly lower score.
   */
  ghost predicate Scores(ws: seq<Waypoint>, pods: seq<Pod>, start: nat, goal: nat, g: map<nat, int>, cf: map<nat, nat>)
    requires GraphReady(ws, pods)
  {
    && start in g && g[start] == 0
    && (forall v :: v in g ==> v < |ws| && g[v] >= 0)
    && (forall v :: HasScore(g, v) ==> v == start || v in cf)
    && (forall v :: v in cf ==>
          && v in g && v != start && v < |ws| && cf[v] in g && cf[v] < |ws|
          && v in ws[cf[v]].paths && !IsBlocked(ws, pods, v, goal) && g[cf[v]] < g[v])
  }

  /**
   * A witness for the score of `v`: a walk to `v` through scored waypoints, visiting none
   * twice, whose cost is the score of `v` and whose every prefix costs at least the score
   * of the waypoint it ends at.
   */
  ghost predicate GoodWalk(ws: seq<Waypoint>, g: map<nat, int>, w: seq<nat>, v: nat)
  {
    && IsWalk(ws, w) && w[|w| - 1] == v && NoDuplicates(w)
    && v in g && WalkCost(ws, w) == g[v]
    && (forall i :: 0 <= i < |w| ==> PrefixScored(ws, g, w, i))
  }

  /** The walk up to position `i` costs at least the score of the waypoint it reaches. */
  ghost predicate PrefixScored(ws: seq<Waypoint>, g: map<nat, int>, w: seq<nat>, i: nat)
    requires i < |w| && forall j :: 0 <= j < |w| ==> w[j] < |ws|
  {
    w[i] in g && WalkCost(ws, w[..i + 1]) >= g[w[i]]
  }

  ghost predicate Walks(ws: seq<Waypoint>, g: map<nat, int>, walk: map<nat, seq<nat>>)
  {
    forall v :: HasScore(g, v) ==> v in walk && GoodWalk(ws, g, walk[v], v)
  }

  /**
   * The frontier: open entries are scored, a scored goal is open, and every scored waypoint
   * except `skip` (the one being expanded) is open or has all its unblocked neighbours scored.
   */
  ghost predicate Frontier(ws: seq<Waypoint>, pods: seq<Pod>, goal: nat, open: seq<Entry>, g: map<nat, int>, skip: Option<nat>)
    requires GraphReady(ws, pods)
  {
    && (forall i :: 0 <= i < |open| ==> open[i].node in g)
    && (goal in g ==> InOpen(open, goal))
    && (forall v :: v in g && v < |ws| && skip != Some(v) ==> InOpen(open, v) || Closed(ws, pods, goal, g, v))
  }

  ghost predicate SearchInv(ws: seq<Waypoint>, pods: seq<Pod>, start: nat, goal: nat,
                            open: seq<Entry>, g: map<nat, int>, cf: map<nat, nat>,
                            walk: map<nat, seq<nat>>, skip: Option<nat>)
    requires GraphReady(ws, pods)
  {
    Scores(ws, pods, start, goal, g, cf) && Walks(ws, g, walk) && Frontier(ws, pods, goal, open, g, skip)
  }

  lemma InitialState(ws: seq<Waypoint>, pods: seq<Pod>, start: nat, goal: nat)
    requires GraphReady(ws, pods) && start < |ws|
    ensures SearchInv(ws, pods, start, goal, [Entry(0, start)], map[start := 0], map[], map[start := [start]], None)
  {
    var w := [start];
    assert w[..1] == w;
    assert [Entry(0, start)][0].node == start;
    assert GoodWalk(ws, map[start := 0], w, start);
  }

  /** Removing the popped entry keeps the frontier, with the popped waypoint set aside. */
  lemma PopKeeps(ws: seq<Waypoint>, pods: seq<Pod>, start: nat, goal: nat,
                 open: seq<Entry>, g: map<nat, int>, cf: map<nat, nat>, walk: map<nat, seq<nat>>, k: nat)
    requires GraphReady(ws, pods)
    requires SearchInv(ws, pods, start, goal, open, g, cf, walk, None)
    requires k < |open| && open[k].node != goal
    ensures open[k].node in g
    ensures SearchInv(ws, pods, start, goal, open[..k] + open[k + 1..], g, cf, walk, Some(open[k].node))
  {
    var c := open[k].node;
    var open' := open[..k] + open[k + 1..];
    assert forall i :: 0 <= i < |open'| ==> open'[i] == open[if i < k then i else i + 1];
    forall v | InOpen(open, v) && v != c
      ensures InOpen(open', v)
    {
      var i :| 0 <= i < |open| && open[i].node == v;
      assert i != k;
      if i < k { assert open'[i].node == v; } else { assert open'[i - 1].node == v; }
    }
  }

  /** After all neighbours of `c` are dealt with, `c` is closed. */
  /** Each of the waypoints `ns` is blocked or scored. */
  ghost predicate Handled(ws: seq<Waypoint>, pods: seq<Pod>, goal: nat, g: map<nat, int>, ns: seq<nat>)
    requires GraphReady(ws, pods)
  {
    forall j :: 0 <= j < |ns| ==> ns[j] < |ws| && (IsBlocked(ws, pods, ns[j], goal) || ns[j] in g)
  }

  /** Handled waypoints stay handled as scores are added, and one more handled waypoint extends them. */
  lemma HandledExtends(ws: seq<Waypoint>, pods: seq<Pod>, goal: nat, g: map<nat, int>, g': map<nat, int>,
                       ns: seq<nat>, i: nat)
    requires GraphReady(ws, pods) && i < |ns| && Handled(ws, pods, goal, g, ns[..i]) && g.Keys <= g'.Keys
    requires ns[i] < |ws| && (IsBlocked(ws, pods, ns[i], goal) || ns[i] in g')
    ensures Handled(ws, pods, goal, g', ns[..i + 1])
  {
    assert forall j :: 0 <= j < i ==> ns[..i + 1][j] == ns[..i][j];
  }

  lemma ExpandedCloses(ws: seq<Waypoint>, pods: seq<Pod>, start: nat, goal: nat,
                       open: seq<Entry>, g: map<nat, int>, cf: map<nat, nat>, walk: map<nat, seq<nat>>, c: nat)
    requires GraphReady(ws, pods)
    requires SearchInv(ws, pods, start, goal, open, g, cf, walk, Some(c))
    requires c in g && c < |ws|
    requires Handled(ws, pods, goal, g, ws[c].paths)
    ensures SearchInv(ws, pods, start, goal, open, g, cf, walk, None)
  {
    assert Closed(ws, pods, goal, g, c) by {
      forall u | u in ws[c].paths && u < |ws| && !IsBlocked(ws, pods, u, goal)
        ensures u in g
      {
        var j :| 0 <= j < |ws[c].paths| && ws[c].paths[j] == u;
      }
    }
  }

  /** With nothing open, the goal is unreachable. */
  lemma ExhaustedMeansNoRoute(ws: seq<Waypoint>, pods: seq<Pod>, start: nat, goal: nat,
                              g: map<nat, int>, cf: map<nat, nat>, walk: map<nat, seq<nat>>)
    requires GraphReady(ws, pods)
    requires SearchInv(ws, pods, start, goal, [], g, cf, walk, None)
    ensures NoRoute(ws, pods, start, goal)
  {
    NoRouteOutsideClosure(ws, pods, start, goal, g);
  }

  /** A waypoint whose score exceeds `g[c]` does not occur on the witness walk to `c`. */
  lemma NotOnWalk(ws: seq<Waypoint>, g: map<nat, int>, wc: seq<nat>, c: nat, u: nat)
    requires GoodWalk(ws, g, wc, c)
    requires u !in g || g[c] < g[u]
    ensures forall i :: 0 <= i < |wc| ==> wc[i] != u
  {
    forall i | 0 <= i < |wc|
      ensures wc[i] != u
    {
      assert PrefixScored(ws, g, wc, i);
      WalkCostPrefix(ws, wc, i + 1);
      assert g[wc[i]] <= g[c];
    }
  }

  /** The walk to `c` extended by the edge to `u` is a witness for the lowered score `t` of `u`. */
  lemma ExtendedWalk(ws: seq<Waypoint>, g: map<nat, int>, wc: seq<nat>, c: nat, u: nat, t: int)
    requires GoodWalk(ws, g, wc, c)
    requires c < |ws| && u < |ws| && u in ws[c].paths
    requires t == g[c] + SqDistance(ws[c], ws[u]) && (u !in g || t < g[u])
    ensures GoodWalk(ws, g[u := t], wc + [u], u)
  {
    var g' := g[u := t];
    var w := wc + [u];
    NotOnWalk(ws, g, wc, c, u);
    WalkCostAppend(ws, wc, u);
    forall i | 0 <= i < |w|
      ensures PrefixScored(ws, g', w, i)
    {
      if i < |wc| {
        assert w[..i + 1] == wc[..i + 1];
        assert PrefixScored(ws, g, wc, i);
        assert w[i] == wc[i] && wc[i] != u;
      } else {
        assert w[..i + 1] == w;
      }
    }
    assert IsWalk(ws, w) by {
      forall i | 0 <= i < |w| - 1 ensures w[i + 1] in ws[w[i]].paths {
        if i < |wc| - 1 { assert w[i] == wc[i] && w[i + 1] == wc[i + 1]; }
      }
    }
    assert NoDuplicates(w);
  }

  /** Lowering one score keeps every other witness walk a witness. */
  lemma OtherWalksKept(ws: seq<Waypoint>, g: map<nat, int>, walk: map<nat, seq<nat>>, u: nat, t: int, w: seq<nat>)
    requires Walks(ws, g, walk)
    requires u !in g || t < g[u]
    requires GoodWalk(ws, g[u := t], w, u)
    ensures Walks(ws, g[u := t], walk[u := w])
  {
    var g' := g[u := t];
    forall v | HasScore(g', v)
      ensures v in walk[u := w] && GoodWalk(ws, g', walk[u := w][v], v)
    {
      if v != u {
        assert HasScore(g, v);
        var wv := walk[v];
        assert GoodWalk(ws, g, wv, v);
        forall i | 0 <= i < |wv|
          ensures PrefixScored(ws, g', wv, i)
        {
          assert PrefixScored(ws, g, wv, i);
        }
      }
    }
  }

  /** Lowering the score of `u` to the cost `t` of a witness walk lowers the measure. */
  lemma MeasureDrops(ws: seq<Waypoint>, pods: seq<Pod>, g: map<nat, int>, w: seq<nat>, u: nat, t: int)
    requires GraphReady(ws, pods) && u < |ws|
    requires GoodWalk(ws, g[u := t], w, u)
    requires u !in g || t < g[u]
    ensures Potential(g[u := t], |ws|, Top(ws, pods) + 1) < Potential(g, |ws|, Top(ws, pods) + 1)
  {
    SimpleWalkBound(ws, pods, w);
    PotentialDrop(g, |ws|, Top(ws, pods) + 1, u, t);
  }

  /** Lowering the score of the unblocked neighbour `u` of `c` through `c` keeps the scores consistent. */
  lemma RelaxScores(ws: seq<Waypoint>, pods: seq<Pod>, start: nat, goal: nat,
                    g: map<nat, int>, cf: map<nat, nat>, c: nat, u: nat, t: int)
    requires GraphReady(ws, pods) && Scores(ws, pods, start, goal, g, cf)
    requires c in g && c < |ws| && u in ws[c].paths && u < |ws| && !IsBlocked(ws, pods, u, goal)
    requires t == g[c] + SqDistance(ws[c], ws[u]) && (u !in g || t < g[u])
    ensures u != start && u != c
    ensures Scores(ws, pods, start, goal, g[u := t], cf[u := c])
  {
    var g' := g[u := t];
    var cf' := cf[u := c];
    assert SqDistance(ws[c], ws[c]) == 0;
    assert u != c;
    assert SqDistance(ws[c], ws[u]) > 0;
    assert g[start] == 0 && g[c] >= 0;
    assert u != start;
    forall v | v in cf'
      ensures && v in g' && v != start && v < |ws| && cf'[v] in g' && cf'[v] < |ws|
              && v in ws[cf'[v]].paths && !IsBlocked(ws, pods, v, goal) && g'[cf'[v]] < g'[v]
    {
      if v != u {
        assert v in cf;
        if cf[v] == u { assert g'[cf'[v]] == t < g[u]; }
      }
    }
    forall v | HasScore(g', v)
      ensures v == start || v in cf'
    {
      if v != u { assert HasScore(g, v); }
    }
  }

  /** Scoring `u` and making sure it is open keeps the frontier. */
  lemma RelaxFrontier(ws: seq<Waypoint>, pods: seq<Pod>, goal: nat,
                      open: seq<Entry>, g: map<nat, int>, c: nat, u: nat, t: int, open': seq<Entry>)
    requires GraphReady(ws, pods) && Frontier(ws, pods, goal, open, g, Some(c))
    requires open' == open || (exists f :: open' == open + [Entry(f, u)])
    requires !InOpen(open, u) ==> open' != open
    ensures Frontier(ws, pods, goal, open', g[u := t], Some(c))
  {
    var g' := g[u := t];
    assert InOpen(open', u) by {
      if InOpen(open, u) {
        var i :| 0 <= i < |open| && open[i].node == u;
        assert open'[i] == open[i];
      } else {
        var f :| open' == open + [Entry(f, u)];
        assert open'[|open|].node == u;
      }
    }
    forall v | InOpen(open, v)
      ensures InOpen(open', v)
    {
      var i :| 0 <= i < |open| && open[i].node == v;
      assert open'[i] == open[i];
    }
    forall v | v in g' && v < |ws| && Some(c) != Some(v)
      ensures InOpen(open', v) || Closed(ws, pods, goal, g', v)
    {
      if v != u && !InOpen(open, v) {
        assert Closed(ws, pods, goal, g, v);
      }
    }
    assert forall i :: 0 <= i < |open'| ==> open'[i].node in g' by {
      forall i | 0 <= i < |open'| ensures open'[i].node in g' {
        if i < |open| { assert open'[i] == open[i]; }
      }
    }
  }

  /**
   * Lowering the score of the unblocked neighbour `u` of `c` keeps every invariant,
   * whether or not `u` is pushed, and lowers the termination measure.
   */
  lemma RelaxKeeps(ws: seq<Waypoint>, pods: seq<Pod>, start: nat, goal: nat,
                   open: seq<Entry>, g: map<nat, int>, cf: map<nat, nat>, walk: map<nat, seq<nat>>,
                   c: nat, u: nat, t: int, open': seq<Entry>)
    requires GraphReady(ws, pods)
    requires SearchInv(ws, pods, start, goal, open, g, cf, walk, Some(c))
    requires c in g && c < |ws| && u in ws[c].paths && u < |ws| && !IsBlocked(ws, pods, u, goal)
    requires t == g[c] + SqDistance(ws[c], ws[u]) && (u !in g || t < g[u])
    requires open' == open || (exists f :: open' == open + [Entry(f, u)])
    requires !InOpen(open, u) ==> open' != open
    ensures SearchInv(ws, pods, start, goal, open', g[u := t], cf[u := c], walk[u := walk[c] + [u]], Some(c))
    ensures Potential(g[u := t], |ws|, Top(ws, pods) + 1) < Potential(g, |ws|, Top(ws, pods) + 1)
  {
    RelaxScores(ws, pods, start, goal, g, cf, c, u, t);
    assert HasScore(g, c);
    ExtendedWalk(ws, g, walk[c], c, u, t);
    OtherWalksKept(ws, g, walk, u, t, walk[c] + [u]);
    RelaxFrontier(ws, pods, goal, open, g, c, u, t, open');
    MeasureDrops(ws, pods, g, walk[c] + [u], u, t);
  }

  // ---------------------------------------------------------------------------
  // The search

  /** The elements of `s` in reverse order (`list.reverse`). */
  function Reversed(s: seq<nat>): (r: seq<nat>)
    ensures |r| == |s| && forall i :: 0 <= i < |s| ==> r[i] == s[|s| - 1 - i]
  {
    if s == [] then [] else Reversed(s[1..]) + [s[0]]
  }

  /**
   * The predecessor links of a search: scores are non-negative, every scored waypoint
   * other than `start` has a predecessor, and every link leads from a scored waypoint of
   * strictly lower score.
   */
  ghost predicate Links(start: nat, g: map<nat, int>, cf: map<nat, nat>)
  {
    && (forall v :: v in g ==> g[v] >= 0)
    && (forall v :: HasScore(g, v) ==> v == start || v in cf)
    && (forall v :: v in cf ==> v in g && v != start && cf[v] in g && g[cf[v]] < g[v])
  }

  /**
   * `reconstruct_path`: follows the predecessor links back from `current` to `start` and
   * returns the waypoints met, in the order from `start` to `current`, each one the
   * predecessor of the next.
   */
  method ReconstructPath(ghost start: nat, ghost g: map<nat, int>, cameFrom: map<nat, nat>, current: nat)
    returns (path: seq<nat>)
    requires Links(start, g, cameFrom) && current in g
    ensures |path| > 0 && path[0] == start && path[|path| - 1] == current
    ensures forall i :: 0 < i < |path| ==> path[i] in cameFrom && cameFrom[path[i]] == path[i - 1]
  {
    var cur := current;
    var back := [cur];
    while cur in cameFrom
      invariant |back| > 0 && back[0] == current && back[|back| - 1] == cur && cur in g
      invariant forall i :: 0 <= i < |back| - 1 ==> back[i] in cameFrom && back[i + 1] == cameFrom[back[i]]
      decreases g[cur]
    {
      cur := cameFrom[cur];
      back := back + [cur];
    }
    assert HasScore(g, cur);
    path := Reversed(back);
    forall i | 0 < i < |path|
      ensures path[i] in cameFrom && cameFrom[path[i]] == path[i - 1]
    {
      var j := |back| - 1 - i;
      assert path[i] == back[j] && path[i - 1] == back[j + 1];
    }
  }

  /** A chain of predecessor links from `start` to `goal` is a route. */
  lemma ChainIsRoute(ws: seq<Waypoint>, pods: seq<Pod>, start: nat, goal: nat,
                     g: map<nat, int>, cf: map<nat, nat>, path: seq<nat>)
    requires GraphReady(ws, pods) && Scores(ws, pods, start, goal, g, cf)
    requires |path| > 0 && path[0] == start && path[|path| - 1] == goal
    requires forall i :: 0 < i < |path| ==> path[i] in cf && cf[path[i]] == path[i - 1]
    ensures IsRoute(ws, pods, path, start, goal)
  {
    forall i | 0 <= i < |path| - 1
      ensures path[i + 1] in ws[path[i]].paths
    {
      assert path[i + 1] in cf;
    }
  }

  /**
   * The loop over the neighbours of `current` in `find_path`: every unblocked neighbour
   * whose score the step through `current` lowers gets that score and `current` as its
   * predecessor, and is pushed unless already open. Afterwards `current` is closed, and
   * either nothing changed or the termination measure is lower.
   */
  method ExpandNeighbours(ws: seq<Waypoint>, pods: seq<Pod>, ghost start: nat, goal: nat, current: nat,
                          open0: seq<Entry>, g0: map<nat, int>, cameFrom0: map<nat, nat>, ghost walk0: map<nat, seq<nat>>)
    returns (open: seq<Entry>, g: map<nat, int>, cameFrom: map<nat, nat>, ghost walk: map<nat, seq<nat>>)
    requires GraphReady(ws, pods) && current in g0 && current < |ws| && goal < |ws|
    requires SearchInv(ws, pods, start, goal, open0, g0, cameFrom0, walk0, Some(current))
    ensures SearchInv(ws, pods, start, goal, open, g, cameFrom, walk, None)
    ensures (g == g0 && open == open0) || Potential(g, |ws|, Top(ws, pods) + 1) < Potential(g0, |ws|, Top(ws, pods) + 1)
  {
    open, g, cameFrom, walk := open0, g0, cameFrom0, walk0;
    ghost var top := Top(ws, pods) + 1;
    var neighbors := ws[current].paths;
    var i := 0;
    while i < |neighbors|
      invariant 0 <= i <= |neighbors| && current in g
      invariant SearchInv(ws, pods, start, goal, open, g, cameFrom, walk, Some(current))
      invariant Handled(ws, pods, goal, g, neighbors[..i])
      invariant (g == g0 && open == open0) || Potential(g, |ws|, top) < Potential(g0, |ws|, top)
    {
      assert neighbors[i] in ws[current].paths;
      ghost var gBefore := g;
      open, g, cameFrom, walk := RelaxNeighbour(ws, pods, start, goal, current, neighbors[i], open, g, cameFrom, walk);
      HandledExtends(ws, pods, goal, gBefore, g, neighbors, i);
      i := i + 1;
    }
    assert neighbors[..i] == neighbors;
    ExpandedCloses(ws, pods, start, goal, open, g, cameFrom, walk, current);
  }

  /**
   * One turn of the loop over the neighbours of `current`: an unblocked neighbour whose
   * score the step through `current` lowers gets that score and `current` as predecessor,
   * and is pushed unless already open. Afterwards the neighbour is blocked or scored, no
   * score is lost, and either nothing changed or the termination measure is lower.
   */
  method RelaxNeighbour(ws: seq<Waypoint>, pods: seq<Pod>, ghost start: nat, goal: nat, current: nat, neighbor: nat,
                        open0: seq<Entry>, g0: map<nat, int>, cameFrom0: map<nat, nat>, ghost walk0: map<nat, seq<nat>>)
    returns (open: seq<Entry>, g: map<nat, int>, cameFrom: map<nat, nat>, ghost walk: map<nat, seq<nat>>)
    requires GraphReady(ws, pods) && current in g0 && current < |ws| && goal < |ws| && neighbor in ws[current].paths
    requires SearchInv(ws, pods, start, goal, open0, g0, cameFrom0, walk0, Some(current))
    ensures SearchInv(ws, pods, start, goal, open, g, cameFrom, walk, Some(current))
    ensures neighbor < |ws| && (IsBlocked(ws, pods, neighbor, goal) || neighbor in g)
    ensures g0.Keys <= g.Keys && current in g
    ensures (g == g0 && open == open0) || Potential(g, |ws|, Top(ws, pods) + 1) < Potential(g0, |ws|, Top(ws, pods) + 1)
  {
    open, g, cameFrom, walk := open0, g0, cameFrom0, walk0;
    if !IsBlocked(ws, pods, neighbor, goal) {
      var tentative := g[current] + SqDistance(ws[current], ws[neighbor]);
      if neighbor !in g || tentative < g[neighbor] {
        cameFrom := cameFrom[neighbor := current];
        g := g[neighbor := tentative];
        walk := walk[neighbor := walk0[current] + [neighbor]];
        if !InOpen(open, neighbor) {
          open := open + [Entry(tentative + Heuristic(ws[neighbor], ws[goal]), neighbor)];
        }
        RelaxKeeps(ws, pods, start, goal, open0, g0, cameFrom0, walk0, current, neighbor, tentative, open);
      }
    }
  }

  /**
   * `find_path`: the route from `start` to `goal` that A* finds, or `[]` when there is none.
   * The result is `[start]` when the two coincide, any non-empty result is a route, and
   * an empty result means no route exists.
   */
  method FindPath(ws: seq<Waypoint>, pods: seq<Pod>, start: nat, goal: nat) returns (path: seq<nat>)
    requires GraphReady(ws, pods) && start < |ws| && goal < |ws|
    ensures start == goal ==> path == [start]
    ensures path != [] ==> IsRoute(ws, pods, path, start, goal)
    ensures path == [] ==> NoRoute(ws, pods, start, goal)
  {
    if start == goal {
      path := [start];
      return;
    }
    var open := [Entry(0, start)];
    var cameFrom: map<nat, nat> := map[];
    var g: map<nat, int> := map[start := 0];
    ghost var walk: map<nat, seq<nat>> := map[start := [start]];
    ghost var top := Top(ws, pods) + 1;
    InitialState(ws, pods, start, goal);
    while open != []
      invariant SearchInv(ws, pods, start, goal, open, g, cameFrom, walk, None)
      decreases Potential(g, |ws|, top), |open|
    {
      var k := FirstLeast(open);
      var current := open[k].node;
      if current == goal {
        open := open[..k] + open[k + 1..];
        path := ReconstructPath(start, g, cameFrom, current);
        ChainIsRoute(ws, pods, start, goal, g, cameFrom, path);
        return;
      }
      PopKeeps(ws, pods, start, goal, open, g, cameFrom, walk, k);
      open := open[..k] + open[k + 1..];
      open, g, cameFrom, walk := ExpandNeighbours(ws, pods, start, goal, current, open, g, cameFrom, walk);
    }
    ExhaustedMeansNoRoute(ws, pods, start, goal, g, cameFrom, walk);
    path := [];
  }
}
