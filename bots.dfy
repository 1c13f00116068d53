/**
 * Bots: the robots' task state machine. A bot refers to its waypoint, its pods and its
 * path by index into the floor's tables. Every operation of a bot is a function from a
 * `Floor` (the waypoint, pod and bot tables) to the floor after it; the instance's
 * methods perform the same updates in place.
 */
module Bots {
  import opened Wrappers
  import opened Waypoints
  import opened Pods
  import opened Routes

  datatype BotState = Idle | Moving
  datatype Task = FetchPod | ReturnPod

  /** An output (or input) station: its id and the waypoint it stands on. */
  datatype Station = Station(id: nat, waypoint: nat)

  datatype Bot = Bot(
    id: nat,
    speed: real,
    currentWaypoint: Option<nat>,
    path: seq<nat>,
    pathIndex: nat,
    state: BotState,
    carryingPod: Option<nat>,
    currentTask: Option<Task>,
    targetPod: Option<nat>,
    targetStation: Option<Station>,
    busyTime: real,
    idleTime: real)

  /** A freshly constructed bot: idle, nowhere, with no task, no path and zero times. */
  function NewBot(id: nat, speed: real): (b: Bot)
    ensures b.id == id && b.speed == speed && b.state == Idle
    ensures b.currentWaypoint.None? && b.path == [] && b.pathIndex == 0
    ensures b.carryingPod.None? && b.currentTask.None? && b.targetPod.None? && b.targetStation.None?
    ensures b.busyTime == 0.0 && b.idleTime == 0.0
  {
    Bot(id, speed, None, [], 0, Idle, None, None, None, None, 0.0, 0.0)
  }

  datatype Floor = Floor(waypoints: seq<Waypoint>, pods: seq<Pod>, bots: seq<Bot>)

  /** The call `find_path(start, goal)` that a transition makes. */
  datatype Query = Query(start: nat, goal: nat)

  /**
   * The result of a bot transition: whether it raised, the floor after it, the path query it
   * made (its answer is the transition's `route` argument), and whether it called
   * `complete_order` for the bot.
   */
  datatype Step = Step(out: Outcome, floor: Floor, query: Option<Query>, completesOrder: bool)

  // ---------------------------------------------------------------------------
  // Well-formed floors

  predicate RouteIndexed(route: seq<nat>, n: nat)
  {
    forall i :: 0 <= i < |route| ==> route[i] < n
  }

  predicate BotIndexed(bot: Bot, nw: nat, np: nat)
  {
    && (bot.currentWaypoint.Some? ==> bot.currentWaypoint.value < nw)
    && RouteIndexed(bot.path, nw)
    && (bot.carryingPod.Some? ==> bot.carryingPod.value < np)
    && (bot.targetPod.Some? ==> bot.targetPod.value < np)
    && (bot.targetStation.Some? ==> bot.targetStation.value.waypoint < nw)
  }

  /**
   * Every reference is an index of the table it points into: the counterpart of
   * Python's object references being live objects.
   */
  ghost predicate Indexed(f: Floor)
  {
    && (forall w :: 0 <= w < |f.waypoints| && f.waypoints[w].pod.Some? ==> f.waypoints[w].pod.value < |f.pods|)
    && (forall p :: 0 <= p < |f.pods| && f.pods[p].waypoint.Some? ==> f.pods[p].waypoint.value < |f.waypoints|)
    && (forall p :: 0 <= p < |f.pods| && f.pods[p].bot.Some? ==> f.pods[p].bot.value < |f.bots|)
    && (forall b :: 0 <= b < |f.bots| ==> BotIndexed(f.bots[b], |f.waypoints|, |f.pods|))
  }

  /** The two waypoint tables have the same waypoints, positions and edges. */
  ghost predicate SameGraph(ws: seq<Waypoint>, ws': seq<Waypoint>)
  {
    |ws'| == |ws| &&
    forall v :: 0 <= v < |ws| ==> ws'[v].paths == ws[v].paths && ws'[v].x == ws[v].x && ws'[v].y == ws[v].y
  }

  /**
   * A transition's frame: the tables keep their sizes, the waypoints keep their
   * positions and edges, and the bots keep their ids.
   */
  ghost predicate Frame(f: Floor, f': Floor)
  {
    && SameGraph(f.waypoints, f'.waypoints) && |f'.pods| == |f.pods| && |f'.bots| == |f.bots|
    && forall b :: 0 <= b < |f.bots| ==> f'.bots[b].id == f.bots[b].id
  }

  lemma FrameTransitive(f: Floor, f': Floor, f'': Floor)
    requires Frame(f, f') && Frame(f', f'')
    ensures Frame(f, f'')
  {
  }

  /** Changing only what stands on the waypoints keeps the graph searchable. */
  lemma SameGraphKeepsReady(ws: seq<Waypoint>, pods: seq<Pod>, ws': seq<Waypoint>, pods': seq<Pod>)
    requires GraphReady(ws, pods) && SameGraph(ws, ws')
    requires forall w :: 0 <= w < |ws'| && ws'[w].pod.Some? ==> ws'[w].pod.value < |pods'|
    ensures GraphReady(ws', pods')
  {
    forall v, u | 0 <= v < |ws'| && u in ws'[v].paths && u != v
      ensures u < |ws'| && SqDistance(ws'[v], ws'[u]) > 0
    {
      assert ws'[v].paths == ws[v].paths;
      assert SqDistance(ws'[v], ws'[u]) == SqDistance(ws[v], ws[u]);
    }
  }

  // ---------------------------------------------------------------------------
  // The links between bots, pods and waypoints

  /** `waypoint.pod` and `pod.waypoint` point at each other. */
  ghost predicate PodsPlaced(f: Floor)
    requires Indexed(f)
  {
    && (forall w :: 0 <= w < |f.waypoints| && f.waypoints[w].pod.Some? ==>
          f.pods[f.waypoints[w].pod.value].waypoint == Some(w))
    && (forall p :: 0 <= p < |f.pods| && f.pods[p].waypoint.Some? ==>
          f.waypoints[f.pods[p].waypoint.value].pod == Some(p))
  }

  /**
   * A pod is in use exactly when a bot holds it and exactly when it is off the grid,
   * and the bot holding it carries it.
   */
  ghost predicate PodsHeld(f: Floor)
    requires Indexed(f)
  {
    forall p :: 0 <= p < |f.pods| ==>
      && (f.pods[p].inUse <==> f.pods[p].bot.Some?)
      && (f.pods[p].inUse <==> f.pods[p].waypoint.None?)
      && (f.pods[p].bot.Some? ==> f.bots[f.pods[p].bot.value].carryingPod == Some(p))
  }

  /**
   * A bot stands on a waypoint, its path index is within its path, a carried pod is in use
   * and is its target, it is moving exactly when it has a task, its task is a fetch with
   * both targets set, and an idle bot carries nothing and has no path and no targets.
   */
  ghost predicate BotConsistent(f: Floor, b: nat)
    requires Indexed(f) && b < |f.bots|
  {
    var bot := f.bots[b];
    && bot.currentWaypoint.Some?
    && bot.pathIndex <= |bot.path|
    && (bot.carryingPod.Some? ==> f.pods[bot.carryingPod.value].inUse && bot.targetPod == bot.carryingPod)
    && (bot.state == Moving <==> bot.currentTask.Some?)
    && (bot.currentTask.Some? ==> bot.currentTask == Some(FetchPod) && bot.targetPod.Some? && bot.targetStation.Some?)
    && (bot.state == Idle ==>
          bot.carryingPod.None? && bot.path == [] && bot.pathIndex == 0 && bot.targetPod.None? && bot.targetStation.None?)
  }

  ghost predicate Consistent(f: Floor)
    requires Indexed(f)
  {
    PodsPlaced(f) && PodsHeld(f) && forall b :: 0 <= b < |f.bots| ==> BotConsistent(f, b)
  }

  /**
   * On a consistent floor a waypoint other than the goal is blocked exactly when a pod
   * stands on it: pods on the grid are never in use.
   */
  lemma BlockedIffPodPresent(f: Floor, w: nat, goal: nat)
    requires Indexed(f) && Consistent(f) && w < |f.waypoints| && w != goal
    ensures IsBlocked(f.waypoints, f.pods, w, goal) <==> f.waypoints[w].pod.Some?
  {
    if f.waypoints[w].pod.Some? {
      var p := f.waypoints[w].pod.value;
      assert f.pods[p].waypoint == Some(w);
    }
  }

  /** The floor with bot `b` replaced. */
  function SetBot(f: Floor, b: nat, bot: Bot): (r: Floor)
    requires b < |f.bots|
    ensures r.waypoints == f.waypoints && r.pods == f.pods && r.bots == f.bots[b := bot]
  {
    f.(bots := f.bots[b := bot])
  }

  /**
   * Replacing a bot by one that carries the same pod and is itself consistent keeps the
   * floor consistent.
   */
  lemma ReplaceBotKeepsConsistent(f: Floor, b: nat, bot: Bot)
    requires Indexed(f) && Consistent(f) && b < |f.bots|
    requires bot.carryingPod == f.bots[b].carryingPod && BotIndexed(bot, |f.waypoints|, |f.pods|)
    ensures Indexed(SetBot(f, b, bot))
    ensures BotConsistent(SetBot(f, b, bot), b) ==> Consistent(SetBot(f, b, bot))
  {
    var r := SetBot(f, b, bot);
    assert Indexed(r);
    if BotConsistent(r, b) {
      forall c | 0 <= c < |r.bots|
        ensures BotConsistent(r, c)
      {
        assert BotConsistent(f, c);
      }
      assert PodsHeld(r) by {
        forall q | 0 <= q < |r.pods| && r.pods[q].bot.Some?
          ensures r.bots[r.pods[q].bot.value].carryingPod == Some(q)
        {
          assert f.bots[f.pods[q].bot.value].carryingPod == Some(q);
        }
      }
    }
  }

  // ---------------------------------------------------------------------------
  // pick_up_pod, drop_pod, complete_task

  /**
   * `pick_up_pod`: the bot carries the pod, the pod is in use and held by the bot, and
   * the pod leaves the waypoint it stood on, whose pod is cleared. Nothing else changes.
   */
  function PickUp(f: Floor, b: nat, p: nat): (r: Floor)
    requires Indexed(f) && b < |f.bots| && p < |f.pods|
    ensures Indexed(r) && Frame(f, r)
    ensures r.bots == f.bots[b := f.bots[b].(carryingPod := Some(p))]
    ensures |r.pods| == |f.pods| && |r.waypoints| == |f.waypoints|
    ensures r.pods[p] == f.pods[p].(inUse := true, bot := Some(b), waypoint := None)
    ensures forall q :: 0 <= q < |f.pods| && q != p ==> r.pods[q] == f.pods[q]
    ensures f.pods[p].waypoint.Some? ==>
              r.waypoints == f.waypoints[f.pods[p].waypoint.value := f.waypoints[f.pods[p].waypoint.value].(pod := None)]
    ensures f.pods[p].waypoint.None? ==> r.waypoints == f.waypoints
  {
    var pod := f.pods[p];
    var bots := f.bots[b := f.bots[b].(carryingPod := Some(p))];
    var held := pod.(inUse := true, bot := Some(b));
    if pod.waypoint.Some? then
      var w := pod.waypoint.value;
      Floor(f.waypoints[w := f.waypoints[w].(pod := None)], f.pods[p := held.(waypoint := None)], bots)
    else
      Floor(f.waypoints, f.pods[p := held], bots)
  }

  /**
   * `drop_pod`: when the bot carries a pod and stands on a waypoint, the pod is placed on
   * that waypoint, is no longer in use nor held, and the bot carries nothing. Otherwise
   * nothing changes.
   */
  function Drop(f: Floor, b: nat): (r: Floor)
    requires Indexed(f) && b < |f.bots|
    ensures Indexed(r) && Frame(f, r)
    ensures f.bots[b].carryingPod.None? || f.bots[b].currentWaypoint.None? ==> r == f
    ensures f.bots[b].carryingPod.Some? && f.bots[b].currentWaypoint.Some? ==>
              var p, w := f.bots[b].carryingPod.value, f.bots[b].currentWaypoint.value;
              && r.bots == f.bots[b := f.bots[b].(carryingPod := None)]
              && r.pods == f.pods[p := f.pods[p].(waypoint := Some(w), inUse := false, bot := None)]
              && r.waypoints == f.waypoints[w := f.waypoints[w].(pod := Some(p))]
  {
    var bot := f.bots[b];
    if bot.carryingPod.Some? && bot.currentWaypoint.Some? then
      var p, w := bot.carryingPod.value, bot.currentWaypoint.value;
      var pods := f.pods[p := f.pods[p].(waypoint := Some(w), inUse := false, bot := None)];
      Floor(f.waypoints[w := f.waypoints[w].(pod := Some(p))], pods, f.bots[b := bot.(carryingPod := None)])
    else
      f
  }

  /** `complete_task`: the bot is idle with no task, no targets and an empty path. */
  function CompleteTask(f: Floor, b: nat): (r: Floor)
    requires Indexed(f) && b < |f.bots|
    ensures Indexed(r) && Frame(f, r)
    ensures r.waypoints == f.waypoints && r.pods == f.pods && |r.bots| == |f.bots|
    ensures forall c :: 0 <= c < |f.bots| && c != b ==> r.bots[c] == f.bots[c]
    ensures r.bots[b].state == Idle && r.bots[b].currentTask.None? && r.bots[b].path == [] && r.bots[b].pathIndex == 0
    ensures r.bots[b].targetPod.None? && r.bots[b].targetStation.None?
    ensures r.bots[b] == f.bots[b].(state := r.bots[b].state, currentTask := None, targetPod := None,
                                    targetStation := None, path := [], pathIndex := 0)
  {
    var bot := f.bots[b];
    f.(bots := f.bots[b := bot.(currentTask := None, targetPod := None, targetStation := None,
                                 state := Idle, path := [], pathIndex := 0)])
  }

  /**
   * Picking up a pod from the waypoint the bot stands on and dropping it again
   * gives back the floor the bot started from.
   */
  lemma PickUpThenDropRestores(f: Floor, b: nat, p: nat)
    requires Indexed(f) && b < |f.bots| && p < |f.pods|
    requires f.bots[b].carryingPod.None? && f.bots[b].currentWaypoint.Some?
    requires f.pods[p].waypoint == f.bots[b].currentWaypoint
    requires !f.pods[p].inUse && f.pods[p].bot.None?
    requires f.waypoints[f.pods[p].waypoint.value].pod == Some(p)
    ensures Drop(PickUp(f, b, p), b) == f
  {
    var w := f.pods[p].waypoint.value;
    var r := Drop(PickUp(f, b, p), b);
    assert r.waypoints == f.waypoints by {
      assert r.waypoints[w] == f.waypoints[w];
    }
    assert r.pods[p] == f.pods[p];
    assert r.pods == f.pods;
    assert r.bots[b] == f.bots[b];
    assert r.bots == f.bots;
  }

  /**
   * Dropping the carried pod on an empty waypoint and picking it up again gives back
   * the floor the bot started from.
   */
  lemma DropThenPickUpRestores(f: Floor, b: nat)
    requires Indexed(f) && b < |f.bots|
    requires f.bots[b].carryingPod.Some? && f.bots[b].currentWaypoint.Some?
    requires f.waypoints[f.bots[b].currentWaypoint.value].pod.None?
    requires var p := f.bots[b].carryingPod.value;
             f.pods[p].waypoint.None? && f.pods[p].inUse && f.pods[p].bot == Some(b)
    ensures PickUp(Drop(f, b), b, f.bots[b].carryingPod.value) == f
  {
    var p, w := f.bots[b].carryingPod.value, f.bots[b].currentWaypoint.value;
    var r := PickUp(Drop(f, b), b, p);
    assert r.waypoints[w] == f.waypoints[w];
    assert r.waypoints == f.waypoints;
    assert r.pods[p] == f.pods[p];
    assert r.pods == f.pods;
    assert r.bots[b] == f.bots[b];
    assert r.bots == f.bots;
  }

  /**
   * Dropping a pod that is off the grid onto a waypoint holding none keeps pods and
   * waypoints pointing at each other.
   */
  lemma DropKeepsPlaced(f: Floor, b: nat)
    requires Indexed(f) && PodsPlaced(f) && b < |f.bots|
    requires f.bots[b].carryingPod.Some? && f.bots[b].currentWaypoint.Some?
    requires f.waypoints[f.bots[b].currentWaypoint.value].pod.None?
    requires f.pods[f.bots[b].carryingPod.value].waypoint.None?
    ensures PodsPlaced(Drop(f, b))
  {
    var p, w := f.bots[b].carryingPod.value, f.bots[b].currentWaypoint.value;
    var r := Drop(f, b);
    forall v | 0 <= v < |r.waypoints| && v != w && r.waypoints[v].pod.Some?
      ensures r.pods[r.waypoints[v].pod.value].waypoint == Some(v)
    {
      assert r.waypoints[v] == f.waypoints[v];
      assert r.waypoints[v].pod.value != p;
    }
    forall q | 0 <= q < |r.pods| && q != p && r.pods[q].waypoint.Some?
      ensures r.waypoints[r.pods[q].waypoint.value].pod == Some(q)
    {
      assert r.pods[q] == f.pods[q];
      assert f.pods[q].waypoint.value != w;
    }
  }

  /** Dropping the carried pod keeps every held pod carried by its holder. */
  lemma DropKeepsHeld(f: Floor, b: nat)
    requires Indexed(f) && PodsHeld(f) && b < |f.bots|
    ensures PodsHeld(Drop(f, b))
  {
    var r := Drop(f, b);
    if f.bots[b].carryingPod.Some? && f.bots[b].currentWaypoint.Some? {
      var p := f.bots[b].carryingPod.value;
      forall q | 0 <= q < |r.pods| && q != p && r.pods[q].bot.Some?
        ensures r.bots[r.pods[q].bot.value].carryingPod == Some(q)
      {
        assert r.pods[q] == f.pods[q];
      }
    }
  }

  /**
   * On a consistent floor, a bot that drops the pod it alone carries onto a waypoint
   * holding none leaves the floor consistent and is empty-handed.
   */
  lemma DropKeepsConsistent(f: Floor, b: nat)
    requires Indexed(f) && Consistent(f) && b < |f.bots|
    requires f.bots[b].carryingPod.Some? && f.bots[b].currentWaypoint.Some?
    requires f.waypoints[f.bots[b].currentWaypoint.value].pod.None?
    requires forall c :: 0 <= c < |f.bots| && c != b ==> f.bots[c].carryingPod != f.bots[b].carryingPod
    ensures Consistent(Drop(f, b)) && Drop(f, b).bots[b].carryingPod.None?
  {
    assert BotConsistent(f, b);
    var p := f.bots[b].carryingPod.value;
    DropKeepsPlaced(f, b);
    DropKeepsHeld(f, b);
    var r := Drop(f, b);
    forall c | 0 <= c < |r.bots|
      ensures BotConsistent(r, c)
    {
      assert BotConsistent(f, c);
      if c != b && f.bots[c].carryingPod.Some? {
        assert r.pods[f.bots[c].carryingPod.value] == f.pods[f.bots[c].carryingPod.value];
      }
    }
  }

  /** Picking up a pod keeps pods and waypoints pointing at each other. */
  lemma PickUpKeepsPlaced(f: Floor, b: nat, p: nat)
    requires Indexed(f) && PodsPlaced(f) && b < |f.bots| && p < |f.pods|
    ensures PodsPlaced(PickUp(f, b, p))
  {
    var r := PickUp(f, b, p);
    forall w | 0 <= w < |r.waypoints| && r.waypoints[w].pod.Some?
      ensures r.pods[r.waypoints[w].pod.value].waypoint == Some(w)
    {
      assert r.waypoints[w] == f.waypoints[w];
    }
    forall q | 0 <= q < |r.pods| && r.pods[q].waypoint.Some?
      ensures r.waypoints[r.pods[q].waypoint.value].pod == Some(q)
    {
      assert q != p && r.pods[q] == f.pods[q];
    }
  }

  /** Picking up a pod with an empty-handed bot keeps every held pod carried by its holder. */
  lemma PickUpKeepsHeld(f: Floor, b: nat, p: nat)
    requires Indexed(f) && PodsHeld(f) && b < |f.bots| && p < |f.pods|
    requires f.bots[b].carryingPod.None?
    ensures PodsHeld(PickUp(f, b, p))
  {
    var r := PickUp(f, b, p);
    forall q | 0 <= q < |r.pods| && q != p && r.pods[q].bot.Some?
      ensures r.bots[r.pods[q].bot.value].carryingPod == Some(q)
    {
      assert r.pods[q] == f.pods[q];
    }
  }

  /** Picking up its target pod keeps a moving, empty-handed bot's floor consistent. */
  lemma PickUpKeepsConsistent(f: Floor, b: nat, p: nat)
    requires Indexed(f) && Consistent(f) && b < |f.bots| && p < |f.pods|
    requires f.bots[b].carryingPod.None? && f.bots[b].state == Moving && f.bots[b].targetPod == Some(p)
    ensures Consistent(PickUp(f, b, p))
  {
    PickUpKeepsPlaced(f, b, p);
    PickUpKeepsHeld(f, b, p);
    var r := PickUp(f, b, p);
    forall c | 0 <= c < |r.bots|
      ensures BotConsistent(r, c)
    {
      assert BotConsistent(f, c);
    }
  }

  // ---------------------------------------------------------------------------
  // calculate_path, assign_task

  /**
   * `calculate_path(dest)`, where `route` is the answer to the path query it makes.
   * A bot that stands on no waypoint is left alone; a missing destination raises (the
   * pathfinder dereferences it); otherwise the bot's path becomes the route, followed
   * from its start.
   */
  function CalculatePath(f: Floor, b: nat, dest: Option<nat>, route: seq<nat>): (s: Step)
    requires Indexed(f) && b < |f.bots| && RouteIndexed(route, |f.waypoints|)
    ensures Indexed(s.floor) && Frame(f, s.floor) && !s.completesOrder
    ensures s.out.Raised? <==> f.bots[b].currentWaypoint.Some? && dest.None?
    ensures s.out.Raised? ==> s.out.error == DestinationIsNone
    ensures s.query.Some? <==> f.bots[b].currentWaypoint.Some? && dest.Some?
    ensures s.query.Some? ==>
              && s.query.value == Query(f.bots[b].currentWaypoint.value, dest.value)
              && s.floor == SetBot(f, b, f.bots[b].(path := route, pathIndex := 0))
    ensures s.query.None? ==> s.floor == f
  {
    var bot := f.bots[b];
    if bot.currentWaypoint.None? then
      Step(Ok, f, None, false)
    else if dest.None? then
      Step(Raised(DestinationIsNone), f, None, false)
    else
      Step(Ok, SetBot(f, b, bot.(path := route, pathIndex := 0)),
           Some(Query(bot.currentWaypoint.value, dest.value)), false)
  }

  /** A new path for a moving bot keeps the floor consistent. */
  lemma CalculatePathKeepsConsistent(f: Floor, b: nat, dest: Option<nat>, route: seq<nat>)
    requires Indexed(f) && Consistent(f) && b < |f.bots| && RouteIndexed(route, |f.waypoints|)
    requires f.bots[b].state == Moving
    ensures Consistent(CalculatePath(f, b, dest, route).floor)
  {
    assert BotConsistent(f, b);
    ReplaceBotKeepsConsistent(f, b, f.bots[b].(path := route, pathIndex := 0));
  }

  /**
   * `assign_task`: the bot takes its task with its target pod and station and starts
   * moving; when the pod stands on a waypoint the bot's path is computed towards it.
   */
  function AssignTask(f: Floor, b: nat, task: Task, pod: nat, station: Station, route: seq<nat>): (s: Step)
    requires Indexed(f) && b < |f.bots| && pod < |f.pods| && station.waypoint < |f.waypoints|
    requires RouteIndexed(route, |f.waypoints|)
    ensures Indexed(s.floor) && Frame(f, s.floor) && s.out.Ok? && !s.completesOrder
    ensures s.floor.waypoints == f.waypoints && s.floor.pods == f.pods && |s.floor.bots| == |f.bots|
    ensures forall c :: 0 <= c < |f.bots| && c != b ==> s.floor.bots[c] == f.bots[c]
    ensures var bot := s.floor.bots[b];
            && bot.state == Moving && bot.currentTask == Some(task)
            && bot.targetPod == Some(pod) && bot.targetStation == Some(station)
    ensures s.query.Some? <==> f.pods[pod].waypoint.Some? && f.bots[b].currentWaypoint.Some?
    ensures s.query.Some? ==> s.query.value.goal == f.pods[pod].waypoint.value && s.floor.bots[b].path == route
  {
    var f1 := SetBot(f, b, Committed(f.bots[b], task, pod, station));
    if f.pods[pod].waypoint.Some? then CalculatePath(f1, b, f.pods[pod].waypoint, route)
    else Step(Ok, f1, None, false)
  }

  /** The bot after the first four assignments of `assign_task`. */
  function Committed(bot: Bot, task: Task, pod: nat, station: Station): (r: Bot)
    ensures r.state == Moving && r.currentTask == Some(task)
    ensures r.targetPod == Some(pod) && r.targetStation == Some(station)
    ensures r.(state := bot.state, currentTask := bot.currentTask,
               targetPod := bot.targetPod, targetStation := bot.targetStation) == bot
  {
    bot.(currentTask := Some(task), targetPod := Some(pod), targetStation := Some(station), state := Moving)
  }

  /** Giving an idle bot a fetch task keeps the floor consistent. */
  lemma AssignTaskKeepsConsistent(f: Floor, b: nat, pod: nat, station: Station, route: seq<nat>)
    requires Indexed(f) && Consistent(f) && b < |f.bots| && pod < |f.pods| && station.waypoint < |f.waypoints|
    requires RouteIndexed(route, |f.waypoints|) && f.bots[b].state == Idle
    ensures Consistent(AssignTask(f, b, FetchPod, pod, station, route).floor)
  {
    assert BotConsistent(f, b);
    var bot := Committed(f.bots[b], FetchPod, pod, station);
    ReplaceBotKeepsConsistent(f, b, bot);
    var f1 := SetBot(f, b, bot);
    if f.pods[pod].waypoint.Some? {
      CalculatePathKeepsConsistent(f1, b, f.pods[pod].waypoint, route);
    }
  }

  // ---------------------------------------------------------------------------
  // on_destination_reached, move, update

  /**
   * The delivery branch of `on_destination_reached`: drop the pod, complete the order,
   * and, if the target pod stands on a waypoint, pick it up again, ask for a path to its
   * (now cleared) waypoint and switch to the `return_pod` task.
   */
  function Deliver(f: Floor, b: nat, route: seq<nat>): (s: Step)
    requires Indexed(f) && b < |f.bots| && RouteIndexed(route, |f.waypoints|)
    ensures Indexed(s.floor) && Frame(f, s.floor) && s.completesOrder
  {
    var f1 := Drop(f, b);
    var target := f.bots[b].targetPod;
    if target.Some? && f1.pods[target.value].waypoint.Some? then
      var s := Reload(f1, b, target.value, route);
      FrameTransitive(f, f1, s.floor);
      s.(completesOrder := true)
    else Step(Ok, f1, None, true)
  }

  /**
   * The end of the delivery branch: pick the target pod up again, ask for a path to its
   * waypoint (which the pick-up has just cleared) and, unless that raises, switch to the
   * `return_pod` task.
   */
  function Reload(f: Floor, b: nat, p: nat, route: seq<nat>): (s: Step)
    requires Indexed(f) && b < |f.bots| && p < |f.pods| && RouteIndexed(route, |f.waypoints|)
    ensures Indexed(s.floor) && Frame(f, s.floor) && !s.completesOrder
  {
    var f2 := PickUp(f, b, p);
    var s := CalculatePath(f2, b, f2.pods[p].waypoint, route);
    FrameTransitive(f, f2, s.floor);
    if s.out.Raised? then s
    else
      var returning := s.floor.bots[b].(currentTask := Some(ReturnPod));
      assert BotIndexed(returning, |s.floor.waypoints|, |s.floor.pods|);
      FrameTransitive(f, s.floor, SetBot(s.floor, b, returning));
      s.(floor := SetBot(s.floor, b, returning))
  }

  /**
   * The fetch branch of `on_destination_reached` for a bot carrying nothing: pick up the
   * target pod, then ask for a path to the target station if there is one.
   */
  function Fetch(f: Floor, b: nat, route: seq<nat>): (s: Step)
    requires Indexed(f) && b < |f.bots| && RouteIndexed(route, |f.waypoints|)
    requires f.bots[b].targetPod.Some?
    ensures Indexed(s.floor) && Frame(f, s.floor) && !s.completesOrder
  {
    var bot := f.bots[b];
    var f1 := PickUp(f, b, bot.targetPod.value);
    if bot.targetStation.Some? then CalculatePath(f1, b, Some(bot.targetStation.value.waypoint), route)
    else Step(Ok, f1, None, false)
  }

  /**
   * `on_destination_reached`, where `route` answers the path query it makes.
   * A fetching bot that carries nothing picks up its target pod and heads for its station;
   * a fetching bot that carries a pod and has a station delivers; any other fetching bot
   * completes its task. A returning bot drops what it carries and completes its task.
   */
  function Arrive(f: Floor, b: nat, route: seq<nat>): (s: Step)
    requires Indexed(f) && b < |f.bots| && RouteIndexed(route, |f.waypoints|)
    ensures Indexed(s.floor) && Frame(f, s.floor)
  {
    var bot := f.bots[b];
    if bot.currentTask == Some(FetchPod) then
      if bot.targetPod.Some? && bot.carryingPod.None? then Fetch(f, b, route)
      else if bot.carryingPod.Some? && bot.targetStation.Some? then Deliver(f, b, route)
      else Step(Ok, CompleteTask(f, b), None, false)
    else if bot.currentTask == Some(ReturnPod) then
      var f1 := if bot.carryingPod.Some? then Drop(f, b) else f;
      Step(Ok, CompleteTask(f1, b), None, false)
    else
      Step(Ok, f, None, false)
  }

  /**
   * A bot that reaches its station carrying its target pod completes the order and then
   * raises: the pod it picks up again no longer has a waypoint to return to. So the
   * `return_pod` task is never entered by a bot that stands on a waypoint.
   */
  lemma DeliveryRaises(f: Floor, b: nat, route: seq<nat>)
    requires Indexed(f) && b < |f.bots| && RouteIndexed(route, |f.waypoints|)
    requires f.bots[b].currentTask == Some(FetchPod) && f.bots[b].currentWaypoint.Some?
    requires f.bots[b].carryingPod.Some? && f.bots[b].targetPod == f.bots[b].carryingPod
    requires f.bots[b].targetStation.Some?
    ensures Arrive(f, b, route).out == Raised(DestinationIsNone)
    ensures Arrive(f, b, route).completesOrder
  {
    assert Arrive(f, b, route) == Deliver(f, b, route);
    var f1 := Drop(f, b);
    var p := f.bots[b].carryingPod.value;
    assert f1.pods[p].waypoint == f.bots[b].currentWaypoint;
    var f2 := PickUp(f1, b, p);
    assert f2.pods[p].waypoint.None?;
    assert f2.bots[b].currentWaypoint == f.bots[b].currentWaypoint;
  }

  /**
   * A fetching bot that arrives carrying nothing picks up its target pod, which it now
   * holds, and asks for a path from where it stands to its station.
   */
  lemma FetchArrival(f: Floor, b: nat, route: seq<nat>)
    requires Indexed(f) && b < |f.bots| && RouteIndexed(route, |f.waypoints|)
    requires f.bots[b].currentTask == Some(FetchPod) && f.bots[b].currentWaypoint.Some?
    requires f.bots[b].targetPod.Some? && f.bots[b].carryingPod.None? && f.bots[b].targetStation.Some?
    ensures var s, p := Arrive(f, b, route), f.bots[b].targetPod.value;
            && s.out.Ok? && !s.completesOrder
            && s.floor.bots[b].carryingPod == Some(p)
            && s.floor.pods[p].inUse && s.floor.pods[p].bot == Some(b) && s.floor.pods[p].waypoint.None?
            && s.query == Some(Query(f.bots[b].currentWaypoint.value, f.bots[b].targetStation.value.waypoint))
            && s.floor.bots[b].path == route && s.floor.bots[b].pathIndex == 0
  {
    assert Arrive(f, b, route) == Fetch(f, b, route);
  }

  /**
   * A returning bot that arrives on a waypoint sets down the pod it carries there and
   * becomes idle, with no task, no path and nothing carried.
   */
  lemma ReturnArrival(f: Floor, b: nat, route: seq<nat>)
    requires Indexed(f) && b < |f.bots| && RouteIndexed(route, |f.waypoints|)
    requires f.bots[b].currentTask == Some(ReturnPod) && f.bots[b].currentWaypoint.Some?
    ensures var s, w := Arrive(f, b, route), f.bots[b].currentWaypoint.value;
            && s.out.Ok? && s.query.None? && !s.completesOrder
            && s.floor.bots[b].state == Idle && s.floor.bots[b].currentTask.None?
            && s.floor.bots[b].path == [] && s.floor.bots[b].carryingPod.None?
            && s.floor.bots[b].currentWaypoint == Some(w)
            && (f.bots[b].carryingPod.Some? ==>
                  var p := f.bots[b].carryingPod.value;
                  && s.floor.pods[p].waypoint == Some(w) && s.floor.waypoints[w].pod == Some(p)
                  && !s.floor.pods[p].inUse && s.floor.pods[p].bot.None?)
            && (f.bots[b].carryingPod.None? ==> s.floor.pods == f.pods && s.floor.waypoints == f.waypoints)
  {
  }

  /** On a consistent floor an arrival that does not raise leaves it consistent. */
  lemma ArriveKeepsConsistent(f: Floor, b: nat, route: seq<nat>)
    requires Indexed(f) && Consistent(f) && b < |f.bots| && RouteIndexed(route, |f.waypoints|)
    ensures Arrive(f, b, route).out.Ok? ==> Consistent(Arrive(f, b, route).floor)
  {
    var bot := f.bots[b];
    assert BotConsistent(f, b);
    if bot.currentTask.Some? {
      if bot.carryingPod.None? {
        var p := bot.targetPod.value;
        PickUpKeepsConsistent(f, b, p);
        var f1 := PickUp(f, b, p);
        assert f1.bots[b].state == Moving;
        CalculatePathKeepsConsistent(f1, b, Some(bot.targetStation.value.waypoint), route);
        assert Arrive(f, b, route) == Fetch(f, b, route);
      } else {
        DeliveryRaises(f, b, route);
      }
    }
  }

  /** The bot after reaching the waypoint at its path index (`move`, the snap). */
  function Snapped(bot: Bot): (r: Bot)
    requires bot.pathIndex < |bot.path|
    ensures r.currentWaypoint == Some(bot.path[bot.pathIndex]) && r.pathIndex == bot.pathIndex + 1 <= |r.path|
    ensures r.(currentWaypoint := bot.currentWaypoint, pathIndex := bot.pathIndex) == bot
  {
    bot.(currentWaypoint := Some(bot.path[bot.pathIndex]), pathIndex := bot.pathIndex + 1)
  }

  /**
   * `move`, with continuous motion reduced to whether the bot has reached the waypoint
   * it is heading for. A bot with no path left arrives. A bot that reaches its next
   * waypoint stands on it and advances its path index by one, arriving when that was the
   * last waypoint. A bot still on its way keeps its state.
   */
  function Move(f: Floor, b: nat, reached: bool, route: seq<nat>): (s: Step)
    requires Indexed(f) && b < |f.bots| && RouteIndexed(route, |f.waypoints|)
    ensures Indexed(s.floor) && Frame(f, s.floor)
  {
    var bot := f.bots[b];
    if |bot.path| == 0 || bot.pathIndex >= |bot.path| then
      Arrive(f, b, route)
    else if reached then
      var f1 := SetBot(f, b, Snapped(bot));
      if bot.pathIndex + 1 < |bot.path| then Step(Ok, f1, None, false) else Arrive(f1, b, route)
    else
      Step(Ok, f, None, false)
  }

  /** Reaching a waypoint on the path puts the bot on it and advances its index by exactly one. */
  lemma MoveSnaps(f: Floor, b: nat, route: seq<nat>)
    requires Indexed(f) && b < |f.bots| && RouteIndexed(route, |f.waypoints|)
    requires f.bots[b].pathIndex < |f.bots[b].path| - 1
    ensures var s := Move(f, b, true, route);
            && s.out.Ok? && s.query.None?
            && s.floor.bots[b].currentWaypoint == Some(f.bots[b].path[f.bots[b].pathIndex])
            && s.floor.bots[b].pathIndex == f.bots[b].pathIndex + 1
            && s.floor.bots[b].path == f.bots[b].path
            && s.floor.waypoints == f.waypoints && s.floor.pods == f.pods
  {
  }

  /** A bot whose path is used up, or empty, arrives: the move is the arrival. */
  lemma MoveArrives(f: Floor, b: nat, reached: bool, route: seq<nat>)
    requires Indexed(f) && b < |f.bots| && RouteIndexed(route, |f.waypoints|)
    requires f.bots[b].pathIndex >= |f.bots[b].path|
    ensures Move(f, b, reached, route) == Arrive(f, b, route)
  {
  }

  /** Reaching the last waypoint of the path snaps the bot onto it and then arrives there. */
  lemma MoveSnapsThenArrives(f: Floor, b: nat, route: seq<nat>)
    requires Indexed(f) && b < |f.bots| && RouteIndexed(route, |f.waypoints|)
    requires |f.bots[b].path| > 0 && f.bots[b].pathIndex == |f.bots[b].path| - 1
    ensures var f1 := SetBot(f, b, Snapped(f.bots[b]));
            && Indexed(f1) && f1.bots[b].currentWaypoint == Some(f.bots[b].path[|f.bots[b].path| - 1])
            && Move(f, b, true, route) == Arrive(f1, b, route)
  {
  }

  /** A bot with path left that has not reached its next waypoint keeps the floor as it was. */
  lemma MoveWaits(f: Floor, b: nat, route: seq<nat>)
    requires Indexed(f) && b < |f.bots| && RouteIndexed(route, |f.waypoints|)
    requires f.bots[b].pathIndex < |f.bots[b].path|
    ensures var s := Move(f, b, false, route);
            s.out.Ok? && s.query.None? && !s.completesOrder && s.floor == f
  {
  }

  /** On a consistent floor a move that does not raise leaves it consistent. */
  lemma MoveKeepsConsistent(f: Floor, b: nat, reached: bool, route: seq<nat>)
    requires Indexed(f) && Consistent(f) && b < |f.bots| && RouteIndexed(route, |f.waypoints|)
    ensures Move(f, b, reached, route).out.Ok? ==> Consistent(Move(f, b, reached, route).floor)
  {
    var bot := f.bots[b];
    if |bot.path| == 0 || bot.pathIndex >= |bot.path| {
      ArriveKeepsConsistent(f, b, route);
    } else if reached {
      assert BotConsistent(f, b);
      ReplaceBotKeepsConsistent(f, b, Snapped(bot));
      if bot.pathIndex + 1 >= |bot.path| {
        ArriveKeepsConsistent(SetBot(f, b, Snapped(bot)), b, route);
      }
    }
  }

  /**
   * `update`: an idle bot adds the elapsed time to its idle time and does nothing else;
   * a moving bot adds it to its busy time and moves.
   */
  function BotUpdate(f: Floor, b: nat, dt: real, reached: bool, route: seq<nat>): (s: Step)
    requires Indexed(f) && b < |f.bots| && RouteIndexed(route, |f.waypoints|)
    ensures Indexed(s.floor) && Frame(f, s.floor)
  {
    if f.bots[b].state == Idle then
      Step(Ok, SetBot(f, b, f.bots[b].(idleTime := f.bots[b].idleTime + dt)), None, false)
    else
      Move(SetBot(f, b, f.bots[b].(busyTime := f.bots[b].busyTime + dt)), b, reached, route)
  }

  /** An idle bot's update only adds the elapsed time to its idle time. */
  lemma IdleUpdateOnlyCounts(f: Floor, b: nat, dt: real, reached: bool, route: seq<nat>)
    requires Indexed(f) && b < |f.bots| && RouteIndexed(route, |f.waypoints|)
    requires f.bots[b].state == Idle
    ensures var s := BotUpdate(f, b, dt, reached, route);
            && s.out.Ok? && s.query.None? && !s.completesOrder
            && s.floor.waypoints == f.waypoints && s.floor.pods == f.pods && |s.floor.bots| == |f.bots|
            && (forall c :: 0 <= c < |f.bots| && c != b ==> s.floor.bots[c] == f.bots[c])
            && s.floor.bots[b] == f.bots[b].(idleTime := f.bots[b].idleTime + dt)
  {
  }

  /** An idle bot's update is the step that replaces the bot by one with more idle time. */
  lemma IdleUpdateWaits(f: Floor, b: nat, dt: real, reached: bool, route: seq<nat>)
    requires Indexed(f) && b < |f.bots| && RouteIndexed(route, |f.waypoints|)
    requires f.bots[b].state == Idle
    ensures BotUpdate(f, b, dt, reached, route)
            == Step(Ok, SetBot(f, b, f.bots[b].(idleTime := f.bots[b].idleTime + dt)), None, false)
  {
  }

  /** A moving bot's update adds the elapsed time to its busy time, then moves. */
  lemma MovingUpdateMoves(f: Floor, b: nat, dt: real, reached: bool, route: seq<nat>)
    requires Indexed(f) && b < |f.bots| && RouteIndexed(route, |f.waypoints|)
    requires f.bots[b].state == Moving
    ensures var f1 := SetBot(f, b, f.bots[b].(busyTime := f.bots[b].busyTime + dt));
            Indexed(f1) && BotUpdate(f, b, dt, reached, route) == Move(f1, b, reached, route)
  {
  }

  /** The moving case of `BotUpdateKeepsConsistent`. */
  lemma MovingUpdateKeepsConsistent(f: Floor, b: nat, dt: real, reached: bool, route: seq<nat>)
    requires Indexed(f) && Consistent(f) && b < |f.bots| && RouteIndexed(route, |f.waypoints|)
    requires f.bots[b].state == Moving
    ensures var s := Move(SetBot(f, b, f.bots[b].(busyTime := f.bots[b].busyTime + dt)), b, reached, route);
            s.out.Ok? ==> Consistent(s.floor)
  {
    var f1 := SetBot(f, b, f.bots[b].(busyTime := f.bots[b].busyTime + dt));
    assert BotConsistent(f, b);
    ReplaceBotKeepsConsistent(f, b, f.bots[b].(busyTime := f.bots[b].busyTime + dt));
    MoveKeepsConsistent(f1, b, reached, route);
  }

  /** On a consistent floor a bot update that does not raise leaves it consistent. */
  lemma BotUpdateKeepsConsistent(f: Floor, b: nat, dt: real, reached: bool, route: seq<nat>)
    requires Indexed(f) && Consistent(f) && b < |f.bots| && RouteIndexed(route, |f.waypoints|)
    ensures BotUpdate(f, b, dt, reached, route).out.Ok? ==> Consistent(BotUpdate(f, b, dt, reached, route).floor)
  {
    var bot := f.bots[b];
    if bot.state == Idle {
      assert BotConsistent(f, b);
      ReplaceBotKeepsConsistent(f, b, bot.(idleTime := bot.idleTime + dt));
    } else {
      MovingUpdateKeepsConsistent(f, b, dt, reached, route);
      MovingUpdateMoves(f, b, dt, reached, route);
    }
  }
}
