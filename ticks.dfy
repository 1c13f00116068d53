/**
 * Ticks: what one call of the instance's `update` does, as functions of the state
 * before it. Every bot updates in table order, and the first update that raises ends
 * the tick; otherwise an order may be queued, and then the idle bots take the queued
 * orders front first. Path queries are answered by routes the caller of these
 * functions supplies; the instance's methods supply the pathfinder's answers.
 */
module Ticks {
  import opened Wrappers
  import opened Waypoints
  import opened Pods
  import opened Routes
  import opened Bots
  import opened Orders

  /**
   * What `find_path(start, goal)` answers: `[start]` when the two coincide, otherwise a
   * route from `start` to `goal` through unblocked waypoints, or `[]` when there is none.
   */
  ghost predicate Answers(ws: seq<Waypoint>, pods: seq<Pod>, start: nat, goal: nat, route: seq<nat>)
    requires GraphReady(ws, pods)
  {
    && (start == goal ==> route == [start])
    && (route != [] ==> IsRoute(ws, pods, route, start, goal))
    && (route == [] ==> NoRoute(ws, pods, start, goal))
  }

  /** The step's path query, if it made one, was answered by `route` on the floor after it. */
  ghost predicate Answered(s: Step, route: seq<nat>)
  {
    s.query.Some? && GraphReady(s.floor.waypoints, s.floor.pods) ==>
      Answers(s.floor.waypoints, s.floor.pods, s.query.value.start, s.query.value.goal, route)
  }

  /**
   * The books after a step: the bot's order is completed when the step says so. An
   * order only ever moves from in progress to completed: the sum of the two is kept.
   */
  function BooksAfter(books: Books, s: Step, botId: nat): (r: Books)
    ensures !s.completesOrder || botId !in books.active ==> r == books
    ensures s.completesOrder && botId in books.active ==>
              && r.active == books.active - {botId}
              && r.stats.ordersCompleted == books.stats.ordersCompleted + 1
              && r.stats.itemsPicked == books.stats.itemsPicked + |books.active[botId].items|
    ensures r.active.Keys <= books.active.Keys
    ensures r.stats.ordersCompleted + |r.active.Keys| == books.stats.ordersCompleted + |books.active.Keys|
  {
    CompleteOrderConserves(books, botId);
    if s.completesOrder then CompleteOrder(books, botId) else books
  }

  predicate StationsIndexed(stations: seq<Station>, n: nat)
  {
    forall i :: 0 <= i < |stations| ==> stations[i].waypoint < n
  }

  predicate OrdersIndexed(orders: seq<Order>, n: nat)
  {
    forall i :: 0 <= i < |orders| && orders[i].station.Some? ==> orders[i].station.value.waypoint < n
  }

  predicate RoutesIndexed(routes: seq<seq<nat>>, n: nat)
  {
    forall k :: 0 <= k < |routes| ==> RouteIndexed(routes[k], n)
  }

  // ---------------------------------------------------------------------------
  // The bot updates

  /** Whether bot `k` reaches the waypoint it heads for in this tick; bots not listed do not. */
  function Reached(reached: seq<bool>, k: nat): bool
  {
    k < |reached| && reached[k]
  }

  /** The state of the floor and the books part-way through a tick. */
  datatype Sweep = Sweep(out: Outcome, floor: Floor, books: Books)

  /**
   * The first `|routes|` bot updates of a tick, bot `k`'s path query answered by
   * `routes[k]`, stopping at the first update that raises.
   */
  function Swept(f: Floor, books: Books, dt: real, reached: seq<bool>, routes: seq<seq<nat>>): (r: Sweep)
    requires Indexed(f) && |routes| <= |f.bots| && RoutesIndexed(routes, |f.waypoints|)
    ensures Indexed(r.floor) && Frame(f, r.floor)
    decreases |routes|
  {
    if routes == [] then Sweep(Ok, f, books)
    else
      var n := |routes| - 1;
      var prev := Swept(f, books, dt, reached, routes[..n]);
      if prev.out.Raised? then prev
      else
        var s := BotUpdate(prev.floor, n, dt, Reached(reached, n), routes[n]);
        FrameTransitive(f, prev.floor, s.floor);
        Sweep(s.out, s.floor, BooksAfter(prev.books, s, f.bots[n].id))
  }

  /** The bot update that ends a sweep of `|routes|` bots that has not raised before it. */
  function LastUpdate(f: Floor, books: Books, dt: real, reached: seq<bool>, routes: seq<seq<nat>>): (s: Step)
    requires Indexed(f) && 0 < |routes| <= |f.bots| && RoutesIndexed(routes, |f.waypoints|)
    ensures Indexed(s.floor)
  {
    var n := |routes| - 1;
    BotUpdate(Swept(f, books, dt, reached, routes[..n]).floor, n, dt, Reached(reached, n), routes[n])
  }

  /** Every bot update of the sweep that was reached had its path query answered. */
  ghost predicate SweepAnswered(f: Floor, books: Books, dt: real, reached: seq<bool>, routes: seq<seq<nat>>)
    requires Indexed(f) && |routes| <= |f.bots| && RoutesIndexed(routes, |f.waypoints|)
    decreases |routes|
  {
    routes == [] ||
    var n := |routes| - 1;
    && SweepAnswered(f, books, dt, reached, routes[..n])
    && (Swept(f, books, dt, reached, routes[..n]).out.Ok? ==>
          Answered(LastUpdate(f, books, dt, reached, routes), routes[n]))
  }

  /**
   * One more bot update of a sweep that has not raised: the next bot keeps its id, and
   * its update, answered by `route`, extends the sweep.
   */
  lemma SweptExtend(f: Floor, books: Books, dt: real, reached: seq<bool>, routes: seq<seq<nat>>, route: seq<nat>)
    requires Indexed(f) && |routes| < |f.bots| && RoutesIndexed(routes, |f.waypoints|)
    requires RouteIndexed(route, |f.waypoints|)
    requires Swept(f, books, dt, reached, routes).out.Ok?
    ensures RoutesIndexed(routes + [route], |f.waypoints|)
    ensures var n, prev := |routes|, Swept(f, books, dt, reached, routes);
            var s := BotUpdate(prev.floor, n, dt, Reached(reached, n), route);
            && prev.floor.bots[n].id == f.bots[n].id
            && Swept(f, books, dt, reached, routes + [route]) == Sweep(s.out, s.floor, BooksAfter(prev.books, s, f.bots[n].id))
            && (SweepAnswered(f, books, dt, reached, routes + [route])
                <==> SweepAnswered(f, books, dt, reached, routes) && Answered(s, route))
  {
    var n := |routes|;
    var routes' := routes + [route];
    assert routes'[..n] == routes;
    assert routes'[n] == route;
  }

  /** On a consistent floor a sweep that does not raise leaves the floor consistent. */
  lemma {:induction false} SweptKeepsConsistent(f: Floor, books: Books, dt: real, reached: seq<bool>, routes: seq<seq<nat>>)
    requires Indexed(f) && Consistent(f) && |routes| <= |f.bots| && RoutesIndexed(routes, |f.waypoints|)
    ensures Swept(f, books, dt, reached, routes).out.Ok? ==> Consistent(Swept(f, books, dt, reached, routes).floor)
    decreases |routes|
  {
    if routes != [] {
      var n := |routes| - 1;
      SweptKeepsConsistent(f, books, dt, reached, routes[..n]);
      var prev := Swept(f, books, dt, reached, routes[..n]);
      if prev.out.Ok? {
        BotUpdateKeepsConsistent(prev.floor, n, dt, Reached(reached, n), routes[n]);
      }
    }
  }

  /**
   * Orders only move from in progress to completed during a sweep: their total stays
   * the same.
   */
  lemma {:induction false} SweptConserves(f: Floor, books: Books, dt: real, reached: seq<bool>, routes: seq<seq<nat>>)
    requires Indexed(f) && |routes| <= |f.bots| && RoutesIndexed(routes, |f.waypoints|)
    ensures var r := Swept(f, books, dt, reached, routes).books;
            r.stats.ordersCompleted + |r.active.Keys| == books.stats.ordersCompleted + |books.active.Keys|
    decreases |routes|
  {
    if routes != [] {
      var n := |routes| - 1;
      SweptConserves(f, books, dt, reached, routes[..n]);
      CompleteOrderConserves(Swept(f, books, dt, reached, routes[..n]).books, f.bots[n].id);
    }
  }

  // ---------------------------------------------------------------------------
  // generate_random_order

  /**
   * `generate_random_order`: the order's id is the current queue length, and its station
   * is the output station `draw` picks, or none when there are no output stations.
   */
  function NewOrder(id: nat, items: seq<string>, stations: seq<Station>, draw: nat): (o: Order)
    ensures o.id == id && o.items == items
    ensures o.station.Some? <==> stations != []
    ensures o.station.Some? ==> o.station.value in stations
  {
    Order(id, items, if stations == [] then None else Some(stations[draw % |stations|]))
  }

  /** The queue after the tick's order generation; `order` is `None` when no order is generated. */
  function Enqueued(pending: seq<Order>, stations: seq<Station>, order: Option<seq<string>>, draw: nat): (q: seq<Order>)
    ensures |pending| <= |q| <= |pending| + 1 && q[..|pending|] == pending
    ensures |q| == |pending| + 1 <==> order.Some?
    ensures order.Some? ==>
              var o := q[|pending|];
              && o.id == |pending| && o.items == order.value
              && (o.station.Some? <==> stations != [])
              && (o.station.Some? ==> o.station.value in stations)
  {
    if order.Some? then pending + [NewOrder(|pending|, order.value, stations, draw)] else pending
  }

  /** Queueing an order drawn from indexed stations keeps the queue indexed. */
  lemma EnqueuedIndexed(pending: seq<Order>, stations: seq<Station>, order: Option<seq<string>>, draw: nat, n: nat)
    requires OrdersIndexed(pending, n) && StationsIndexed(stations, n)
    ensures OrdersIndexed(Enqueued(pending, stations, order, draw), n)
  {
    var q := Enqueued(pending, stations, order, draw);
    forall i | 0 <= i < |q| && q[i].station.Some?
      ensures q[i].station.value.waypoint < n
    {
      if i == |pending| {
        var s :| s in stations && Some(s) == q[i].station;
      }
    }
  }

  // ---------------------------------------------------------------------------
  // assign_tasks

  /**
   * The floor after the first `|routes|` idle bots have each taken the front order: a
   * bot whose order has a pod and a station gets the fetch task, its path query answered
   * by its route.
   */
  function Assigned(f: Floor, idle: seq<nat>, pending: seq<Order>, routes: seq<seq<nat>>): (r: Floor)
    requires Indexed(f) && |routes| <= |idle| && |routes| <= |pending|
    requires forall i :: 0 <= i < |idle| ==> idle[i] < |f.bots|
    requires OrdersIndexed(pending, |f.waypoints|) && RoutesIndexed(routes, |f.waypoints|)
    ensures Indexed(r) && Frame(f, r) && r.waypoints == f.waypoints && r.pods == f.pods
    ensures forall c :: 0 <= c < |f.bots| && c !in idle[..|routes|] ==> r.bots[c] == f.bots[c]
    decreases |routes|
  {
    if routes == [] then f
    else
      var n := |routes| - 1;
      var prev := Assigned(f, idle, pending, routes[..n]);
      assert idle[..|routes|] == idle[..n] + [idle[n]];
      var pod := Assignment(f.pods, pending[n]);
      if pod.Some? then
        var s := AssignTask(prev, idle[n], FetchPod, pod.value, pending[n].station.value, routes[n]);
        FrameTransitive(f, prev, s.floor);
        s.floor
      else prev
  }

  /** Every task assignment had its path query answered. */
  ghost predicate AssignedAnswered(f: Floor, idle: seq<nat>, pending: seq<Order>, routes: seq<seq<nat>>)
    requires Indexed(f) && |routes| <= |idle| && |routes| <= |pending|
    requires forall i :: 0 <= i < |idle| ==> idle[i] < |f.bots|
    requires OrdersIndexed(pending, |f.waypoints|) && RoutesIndexed(routes, |f.waypoints|)
    decreases |routes|
  {
    routes == [] ||
    var n := |routes| - 1;
    var pod := Assignment(f.pods, pending[n]);
    && AssignedAnswered(f, idle, pending, routes[..n])
    && (pod.Some? ==>
          Answered(AssignTask(Assigned(f, idle, pending, routes[..n]), idle[n], FetchPod, pod.value,
                              pending[n].station.value, routes[n]), routes[n]))
  }

  /**
   * One more round of `assign_tasks`: the next idle bot still has its original state, and
   * it takes the next order exactly when the order is assigned a pod.
   */
  lemma AssignedExtend(f: Floor, idle: seq<nat>, pending: seq<Order>, routes: seq<seq<nat>>, route: seq<nat>)
    requires Indexed(f) && |routes| < |idle| && |routes| < |pending|
    requires forall i :: 0 <= i < |idle| ==> idle[i] < |f.bots|
    requires forall i, j :: 0 <= i < j < |idle| ==> idle[i] < idle[j]
    requires OrdersIndexed(pending, |f.waypoints|) && RoutesIndexed(routes, |f.waypoints|)
    requires RouteIndexed(route, |f.waypoints|)
    ensures RoutesIndexed(routes + [route], |f.waypoints|)
    ensures var n, prev := |routes|, Assigned(f, idle, pending, routes);
            var pod := Assignment(f.pods, pending[n]);
            && prev.bots[idle[n]] == f.bots[idle[n]]
            && (pod.None? ==> Assigned(f, idle, pending, routes + [route]) == prev)
            && (pod.None? ==> (AssignedAnswered(f, idle, pending, routes + [route]) <==> AssignedAnswered(f, idle, pending, routes)))
            && (pod.Some? ==>
                  var s := AssignTask(prev, idle[n], FetchPod, pod.value, pending[n].station.value, route);
                  && Assigned(f, idle, pending, routes + [route]) == s.floor
                  && (AssignedAnswered(f, idle, pending, routes + [route]) <==> AssignedAnswered(f, idle, pending, routes) && Answered(s, route)))
  {
    var n := |routes|;
    var routes' := routes + [route];
    assert routes'[..n] == routes;
    assert routes'[n] == route;
    assert idle[n] !in idle[..n];
  }

  /**
   * Part-way through `assign_tasks`, after `|routes|` rounds: the floor, the queue and the
   * orders in progress are those the rounds so far produce from `f`, `pending` and `active`.
   */
  ghost predicate AssignRounds(f: Floor, idle: seq<nat>, pending: seq<Order>, active: map<nat, Order>,
                               routes: seq<seq<nat>>, f': Floor, pending': seq<Order>, active': map<nat, Order>)
    requires Indexed(f) && (forall i :: 0 <= i < |idle| ==> idle[i] < |f.bots|)
    requires OrdersIndexed(pending, |f.waypoints|)
  {
    && |routes| <= |idle| && |routes| <= |pending| && RoutesIndexed(routes, |f.waypoints|)
    && f' == Assigned(f, idle, pending, routes)
    && AssignedAnswered(f, idle, pending, routes)
    && pending' == pending[|routes|..]
    && active' == FiledAfter(active, f.bots, idle, pending, f.pods, |routes|)
  }

  /**
   * One round of `assign_tasks` as the instance performs it: when the next idle bot takes
   * the front order exactly as `AssignTask` describes, or nothing changes because no pod is
   * assigned, the rounds so far extend by one and the queue loses its front.
   */
  lemma AssignRoundsStep(f: Floor, idle: seq<nat>, pending: seq<Order>, active: map<nat, Order>,
                         routes: seq<seq<nat>>, route: seq<nat>, f1: Floor, q1: seq<Order>, a1: map<nat, Order>,
                         f2: Floor, a2: map<nat, Order>)
    requires Indexed(f) && (forall i :: 0 <= i < |idle| ==> idle[i] < |f.bots|)
    requires forall i, j :: 0 <= i < j < |idle| ==> idle[i] < idle[j]
    requires OrdersIndexed(pending, |f.waypoints|) && RouteIndexed(route, |f.waypoints|)
    requires AssignRounds(f, idle, pending, active, routes, f1, q1, a1) && |routes| < |idle| && q1 != []
    requires Indexed(f1) && idle[|routes|] < |f1.bots| && f1.pods == f.pods && f1.waypoints == f.waypoints
    requires q1[0].station.Some? ==> q1[0].station.value.waypoint < |f1.waypoints|
    requires var pod := Assignment(f1.pods, q1[0]);
             && (pod.None? ==> f2 == f1 && a2 == a1)
             && (pod.Some? ==>
                   var s := AssignTask(f1, idle[|routes|], FetchPod, pod.value, q1[0].station.value, route);
                   f2 == s.floor && Answered(s, route) && a2 == a1[f1.bots[idle[|routes|]].id := q1[0]])
    ensures AssignRounds(f, idle, pending, active, routes + [route], f2, q1[1..], a2)
  {
    var j := |routes|;
    assert q1[0] == pending[j] && q1[1..] == pending[j + 1..];
    AssignedExtend(f, idle, pending, routes, route);
    assert f1.bots[idle[j]].id == f.bots[idle[j]].id;
  }

  /**
   * Giving fetch tasks to distinct idle bots of a consistent floor keeps it consistent.
   */
  lemma {:induction false} AssignedKeepsConsistent(f: Floor, idle: seq<nat>, pending: seq<Order>, routes: seq<seq<nat>>)
    requires Indexed(f) && Consistent(f) && |routes| <= |idle| && |routes| <= |pending|
    requires forall i :: 0 <= i < |idle| ==> idle[i] < |f.bots| && f.bots[idle[i]].state == Idle
    requires forall i, j :: 0 <= i < j < |idle| ==> idle[i] < idle[j]
    requires OrdersIndexed(pending, |f.waypoints|) && RoutesIndexed(routes, |f.waypoints|)
    ensures Consistent(Assigned(f, idle, pending, routes))
    decreases |routes|
  {
    if routes != [] {
      var n := |routes| - 1;
      var earlier := routes[..n];
      assert routes == earlier + [routes[n]];
      AssignedKeepsConsistent(f, idle, pending, earlier);
      AssignedExtend(f, idle, pending, earlier, routes[n]);
      var pod := Assignment(f.pods, pending[n]);
      if pod.Some? {
        AssignTaskKeepsConsistent(Assigned(f, idle, pending, earlier), idle[n], pod.value,
                                  pending[n].station.value, routes[n]);
      }
    }
  }

  // ---------------------------------------------------------------------------
  // A whole tick

  /** The state a tick leaves: its outcome, the floor, the books and the queue. */
  datatype Tock = Tock(out: Outcome, floor: Floor, books: Books, pending: seq<Order>)

  /**
   * The routes that answer a tick's path queries: `moved` for the bot updates, one per bot
   * unless one raises, and `given` for task assignment, one per order taken, where
   * as many orders are taken as there are idle bots and queued orders, whichever is fewer.
   */
  ghost predicate TickRoutes(f: Floor, books: Books, pending: seq<Order>, stations: seq<Station>, dt: real,
                             reached: seq<bool>, order: Option<seq<string>>, draw: nat,
                             moved: seq<seq<nat>>, given: seq<seq<nat>>)
    requires Indexed(f)
  {
    && |moved| <= |f.bots| && RoutesIndexed(moved, |f.waypoints|) && RoutesIndexed(given, |f.waypoints|)
    && var sw := Swept(f, books, dt, reached, moved);
       && (sw.out.Raised? ==> given == [])
       && (sw.out.Ok? ==>
             && |moved| == |f.bots|
             && |given| == Taken(|IdleBots(sw.floor.bots)|, |Enqueued(pending, stations, order, draw)|))
  }

  /**
   * `update` on a running instance: every bot updates, and the first update that raises
   * ends the tick with the queue untouched; otherwise `order`, when there is one, is
   * queued and the idle bots of the floor the updates leave take the queued orders.
   */
  function Tick(f: Floor, books: Books, pending: seq<Order>, stations: seq<Station>, dt: real,
                reached: seq<bool>, order: Option<seq<string>>, draw: nat,
                moved: seq<seq<nat>>, given: seq<seq<nat>>): (t: Tock)
    requires Indexed(f) && OrdersIndexed(pending, |f.waypoints|) && StationsIndexed(stations, |f.waypoints|)
    requires TickRoutes(f, books, pending, stations, dt, reached, order, draw, moved, given)
    ensures Indexed(t.floor) && Frame(f, t.floor)
  {
    var sw := Swept(f, books, dt, reached, moved);
    if sw.out.Raised? then Tock(sw.out, sw.floor, sw.books, pending)
    else
      var queue := Enqueued(pending, stations, order, draw);
      EnqueuedIndexed(pending, stations, order, draw, |f.waypoints|);
      var idle := IdleBots(sw.floor.bots);
      var k := |given|;
      var floor := Assigned(sw.floor, idle, queue, given);
      FrameTransitive(f, sw.floor, floor);
      Tock(Ok, floor, Books(FiledAfter(sw.books.active, sw.floor.bots, idle, queue, sw.floor.pods, k), sw.books.stats),
           queue[k..])
  }

  /** Every path query of the tick was answered by its route. */
  ghost predicate TickAnswered(f: Floor, books: Books, pending: seq<Order>, stations: seq<Station>, dt: real,
                               reached: seq<bool>, order: Option<seq<string>>, draw: nat,
                               moved: seq<seq<nat>>, given: seq<seq<nat>>)
    requires Indexed(f) && OrdersIndexed(pending, |f.waypoints|) && StationsIndexed(stations, |f.waypoints|)
    requires TickRoutes(f, books, pending, stations, dt, reached, order, draw, moved, given)
  {
    var sw := Swept(f, books, dt, reached, moved);
    && SweepAnswered(f, books, dt, reached, moved)
    && (sw.out.Ok? ==>
          var queue := Enqueued(pending, stations, order, draw);
          EnqueuedIndexed(pending, stations, order, draw, |f.waypoints|);
          AssignedAnswered(sw.floor, IdleBots(sw.floor.bots), queue, given))
  }

  /**
   * `moved` and `given` are a tick's routes and answer its path queries, and the tick
   * leaves `t`.
   */
  ghost predicate Ticked(f: Floor, books: Books, pending: seq<Order>, stations: seq<Station>, dt: real,
                         reached: seq<bool>, order: Option<seq<string>>, draw: nat,
                         moved: seq<seq<nat>>, given: seq<seq<nat>>, t: Tock)
    requires Indexed(f) && OrdersIndexed(pending, |f.waypoints|) && StationsIndexed(stations, |f.waypoints|)
  {
    && TickRoutes(f, books, pending, stations, dt, reached, order, draw, moved, given)
    && Tick(f, books, pending, stations, dt, reached, order, draw, moved, given) == t
    && TickAnswered(f, books, pending, stations, dt, reached, order, draw, moved, given)
  }

  /**
   * A tick whose bot updates do not raise and leave the floor `f1` and the books `b1`:
   * the idle bots of `f1` take the orders of `queue`, which leaves `t`.
   */
  lemma TickOk(f: Floor, books: Books, pending: seq<Order>, stations: seq<Station>, dt: real,
               reached: seq<bool>, order: Option<seq<string>>, draw: nat,
               moved: seq<seq<nat>>, given: seq<seq<nat>>, f1: Floor, b1: Books, queue: seq<Order>, t: Tock)
    requires Indexed(f) && OrdersIndexed(pending, |f.waypoints|) && StationsIndexed(stations, |f.waypoints|)
    requires |moved| == |f.bots| && RoutesIndexed(moved, |f.waypoints|)
    requires Swept(f, books, dt, reached, moved) == Sweep(Ok, f1, b1)
    requires SweepAnswered(f, books, dt, reached, moved)
    requires queue == Enqueued(pending, stations, order, draw) && OrdersIndexed(queue, |f1.waypoints|)
    requires |given| == Taken(|IdleBots(f1.bots)|, |queue|)
    requires AssignRounds(f1, IdleBots(f1.bots), queue, b1.active, given, t.floor, t.pending, t.books.active)
    requires t.out == Ok && t.books.stats == b1.stats
    ensures Ticked(f, books, pending, stations, dt, reached, order, draw, moved, given, t)
  {
  }

  /** A tick whose bot updates raise ends with the updates' floor and books and the queue untouched. */
  lemma TickRaised(f: Floor, books: Books, pending: seq<Order>, stations: seq<Station>, dt: real,
                   reached: seq<bool>, order: Option<seq<string>>, draw: nat, moved: seq<seq<nat>>, t: Tock)
    requires Indexed(f) && OrdersIndexed(pending, |f.waypoints|) && StationsIndexed(stations, |f.waypoints|)
    requires |moved| <= |f.bots| && RoutesIndexed(moved, |f.waypoints|)
    requires var sw := Swept(f, books, dt, reached, moved);
             sw.out.Raised? && t == Tock(sw.out, sw.floor, sw.books, pending)
    requires SweepAnswered(f, books, dt, reached, moved)
    ensures Ticked(f, books, pending, stations, dt, reached, order, draw, moved, [], t)
  {
  }

  /**
   * A tick that does not raise keeps a consistent floor consistent: the sweep does, and
   * the idle bots of the floor it leaves take their orders.
   */
  lemma TickKeepsConsistent(f: Floor, books: Books, pending: seq<Order>, stations: seq<Station>, dt: real,
                            reached: seq<bool>, order: Option<seq<string>>, draw: nat,
                            moved: seq<seq<nat>>, given: seq<seq<nat>>)
    requires Indexed(f) && Consistent(f)
    requires OrdersIndexed(pending, |f.waypoints|) && StationsIndexed(stations, |f.waypoints|)
    requires TickRoutes(f, books, pending, stations, dt, reached, order, draw, moved, given)
    ensures var t := Tick(f, books, pending, stations, dt, reached, order, draw, moved, given);
            t.out.Ok? ==> Consistent(t.floor)
  {
    var sw := Swept(f, books, dt, reached, moved);
    SweptKeepsConsistent(f, books, dt, reached, moved);
    if sw.out.Ok? {
      var queue := Enqueued(pending, stations, order, draw);
      EnqueuedIndexed(pending, stations, order, draw, |f.waypoints|);
      AssignedKeepsConsistent(sw.floor, IdleBots(sw.floor.bots), queue, given);
    }
  }
}
