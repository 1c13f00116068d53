/**
 * World: the simulation instance. It owns the waypoint, pod and bot tables, the
 * stations, the clock, the order queue and the statistics, and it performs every bot
 * operation in place on its tables. Each method is specified by the function of
 * `Bots` or `Orders` that describes the same operation on values.
 */
module World {
  import opened Wrappers
  import opened Waypoints
  import opened Pods
  import opened Routes
  import opened Pathfinding
  import opened Bots
  import opened Orders
  import opened Ticks
  import opened Layout
  import opened Generation

  /** The instance's fields other than its tables, its order books and its queue. */
  datatype Site = Site(
    grid: map<(int, int), nat>,
    inputStations: seq<Station>,
    outputStations: seq<Station>,
    currentTime: real,
    timeStep: real,
    running: bool,
    paused: bool)

  ghost predicate ValidState(f: Floor, grid: map<(int, int), nat>, inputs: seq<Station>, outputs: seq<Station>,
                             pending: seq<Order>)
  {
    && Indexed(f)
    && GraphReady(f.waypoints, f.pods)
    && (forall k :: k in grid ==> grid[k] < |f.waypoints|)
    && StationsIndexed(inputs, |f.waypoints|)
    && StationsIndexed(outputs, |f.waypoints|)
    && OrdersIndexed(pending, |f.waypoints|)
  }

  /** A freshly generated floor, with its stations, is indexed, consistent and ready for the search. */
  lemma GeneratedFloorValid(c: Config, items: seq<seq<string>>, podDraws: seq<nat>, botDraws: seq<nat>,
                            f: Floor, inputs: seq<Station>, outputs: seq<Station>)
    requires Generate(c, items, podDraws, botDraws).Built?
    requires f == Generate(c, items, podDraws, botDraws).floor
    requires inputs == Generate(c, items, podDraws, botDraws).inputs
    requires outputs == Generate(c, items, podDraws, botDraws).outputs
    ensures Indexed(f) && Consistent(f) && GraphReady(f.waypoints, f.pods)
    ensures StationsIndexed(inputs, |f.waypoints|) && StationsIndexed(outputs, |f.waypoints|)
    ensures |f.waypoints| == |Sites(c)|
  {
    GeneratedValid(c, items, podDraws, botDraws);
    GeneratedParts(c, items, podDraws, botDraws);
  }

  /** An indexed floor whose grid map names only its waypoints is valid with no pending orders. */
  lemma ValidFromParts(c: Config, f: Floor, grid: map<(int, int), nat>, inputs: seq<Station>, outputs: seq<Station>)
    requires Indexed(f) && GraphReady(f.waypoints, f.pods)
    requires StationsIndexed(inputs, |f.waypoints|) && StationsIndexed(outputs, |f.waypoints|)
    requires GridMap(grid, c.width, c.height) && |f.waypoints| == |Sites(c)|
    ensures ValidState(f, grid, inputs, outputs, [])
  {
    GridMapBelowSites(grid, c);
  }

  /** A freshly generated instance, with its grid and no pending orders, is valid and consistent. */
  lemma GeneratedInstanceValid(c: Config, items: seq<seq<string>>, podDraws: seq<nat>, botDraws: seq<nat>,
                               f: Floor, grid: map<(int, int), nat>, inputs: seq<Station>, outputs: seq<Station>)
    requires Generate(c, items, podDraws, botDraws).Built?
    requires f == Generate(c, items, podDraws, botDraws).floor
    requires inputs == Generate(c, items, podDraws, botDraws).inputs
    requires outputs == Generate(c, items, podDraws, botDraws).outputs
    requires GridMap(grid, c.width, c.height)
    ensures Indexed(f) && Consistent(f) && ValidState(f, grid, inputs, outputs, [])
  {
    GeneratedFloorValid(c, items, podDraws, botDraws, f, inputs, outputs);
    ValidFromParts(c, f, grid, inputs, outputs);
  }

  /** A transition of the floor keeps the instance valid. */
  lemma FrameKeepsValid(f: Floor, f': Floor, grid: map<(int, int), nat>, inputs: seq<Station>,
                        outputs: seq<Station>, pending: seq<Order>)
    requires ValidState(f, grid, inputs, outputs, pending) && Indexed(f') && Frame(f, f')
    ensures ValidState(f', grid, inputs, outputs, pending)
  {
    SameGraphKeepsReady(f.waypoints, f.pods, f'.waypoints, f'.pods);
  }

  /** Replacing one bot by a well-indexed bot with the same id keeps the instance valid. */
  lemma SetBotKeepsValid(f: Floor, b: nat, bot: Bot, grid: map<(int, int), nat>, inputs: seq<Station>,
                         outputs: seq<Station>, pending: seq<Order>)
    requires ValidState(f, grid, inputs, outputs, pending) && b < |f.bots|
    requires BotIndexed(bot, |f.waypoints|, |f.pods|) && bot.id == f.bots[b].id
    ensures ValidState(SetBot(f, b, bot), grid, inputs, outputs, pending) && Frame(f, SetBot(f, b, bot))
  {
  }

  /** Taking the front order off the queue keeps the instance valid. */
  lemma DequeueKeepsValid(f: Floor, grid: map<(int, int), nat>, inputs: seq<Station>, outputs: seq<Station>,
                          pending: seq<Order>)
    requires ValidState(f, grid, inputs, outputs, pending) && pending != []
    ensures ValidState(f, grid, inputs, outputs, pending[1..])
    ensures pending[0].station.Some? ==> pending[0].station.value.waypoint < |f.waypoints|
  {
  }

  class Instance {
    var waypoints: seq<Waypoint>
    /** `waypoint_grid`: the waypoint at each grid position. */
    var grid: map<(int, int), nat>
    var pods: seq<Pod>
    var bots: seq<Bot>
    var inputStations: seq<Station>
    var outputStations: seq<Station>
    var currentTime: real
    var timeStep: real
    var running: bool
    var paused: bool
    var stats: Stats
    var pendingOrders: seq<Order>
    /** `active_tasks`: the order each bot is working on, by bot id. */
    var activeTasks: map<nat, Order>

    function FloorState(): Floor
      reads this`waypoints, this`pods, this`bots
    {
      Floor(waypoints, pods, bots)
    }

    function BooksState(): Books
      reads this`activeTasks, this`stats
    {
      Books(activeTasks, stats)
    }

    function SiteState(): Site
      reads this`grid, this`inputStations, this`outputStations, this`currentTime, this`timeStep,
            this`running, this`paused
    {
      Site(grid, inputStations, outputStations, currentTime, timeStep, running, paused)
    }

    /**
     * Every reference is an index of its table, the waypoint graph can be searched, and
     * the grid, the stations and the queued orders name existing waypoints.
     */
    ghost predicate Valid()
      reads this`waypoints, this`pods, this`bots, this`grid, this`inputStations, this`outputStations,
            this`pendingOrders
    {
      ValidState(FloorState(), grid, inputStations, outputStations, pendingOrders)
    }

    /** A new instance: empty tables, the clock at zero, not running, zeroed statistics. */
    constructor (timeStep: Option<real>)
      ensures Valid()
      ensures waypoints == [] && grid == map[] && pods == [] && bots == []
      ensures inputStations == [] && outputStations == []
      ensures currentTime == 0.0 && this.timeStep == (if timeStep.Some? then timeStep.value else 0.1)
      ensures !running && !paused
      ensures stats == ZeroStats(None) && pendingOrders == [] && activeTasks == map[]
    {
      waypoints, grid, pods, bots := [], map[], [], [];
      inputStations, outputStations := [], [];
      currentTime := 0.0;
      this.timeStep := if timeStep.Some? then timeStep.value else 0.1;
      running, paused := false, false;
      stats := ZeroStats(None);
      pendingOrders, activeTasks := [], map[];
      new;
      assert |waypoints| == 0 && |pods| == 0 && |bots| == 0 && |pendingOrders| == 0 && |inputStations| == 0 && |outputStations| == 0;
      assert Indexed(FloorState());
      assert GraphReady(waypoints, pods);
    }

    // -------------------------------------------------------------------------
    // The bots' operations, in place

    /** `bot.pick_up_pod(pod)`. */
    method PickUpPod(b: nat, p: nat)
      requires Valid() && b < |bots| && p < |pods|
      modifies this`waypoints, this`pods, this`bots
      ensures Valid() && FloorState() == PickUp(old(FloorState()), b, p)
    {
      bots := bots[b := bots[b].(carryingPod := Some(p))];
      pods := pods[p := pods[p].(inUse := true, bot := Some(b))];
      if pods[p].waypoint.Some? {
        var w := pods[p].waypoint.value;
        waypoints := waypoints[w := waypoints[w].(pod := None)];
        pods := pods[p := pods[p].(waypoint := None)];
      }
      assert FloorState() == PickUp(old(FloorState()), b, p);
      FrameKeepsValid(old(FloorState()), FloorState(), grid, inputStations, outputStations, pendingOrders);
    }

    /** `bot.drop_pod()`. */
    method DropPod(b: nat)
      requires Valid() && b < |bots|
      modifies this`waypoints, this`pods, this`bots
      ensures Valid() && FloorState() == Drop(old(FloorState()), b)
    {
      var bot := bots[b];
      if bot.carryingPod.Some? && bot.currentWaypoint.Some? {
        var p, w := bot.carryingPod.value, bot.currentWaypoint.value;
        pods := pods[p := pods[p].(waypoint := Some(w))];
        waypoints := waypoints[w := waypoints[w].(pod := Some(p))];
        pods := pods[p := pods[p].(inUse := false, bot := None)];
        bots := bots[b := bot.(carryingPod := None)];
      }
      assert FloorState() == Drop(old(FloorState()), b);
      FrameKeepsValid(old(FloorState()), FloorState(), grid, inputStations, outputStations, pendingOrders);
    }

    /** `bot.complete_task()`. */
    method CompleteTask(b: nat)
      requires Valid() && b < |bots|
      modifies this`bots
      ensures Valid() && FloorState() == Bots.CompleteTask(old(FloorState()), b)
    {
      bots := bots[b := bots[b].(currentTask := None, targetPod := None, targetStation := None)];
      bots := bots[b := bots[b].(state := Idle, path := [], pathIndex := 0)];
    }

    /**
     * `bot.calculate_path(destination)`: the path comes from the search on the current
     * floor, and the step is the one `Bots.CalculatePath` describes for that route.
     */
    method CalculatePath(b: nat, dest: Option<nat>) returns (out: Outcome, route: seq<nat>)
      requires Valid() && b < |bots| && (dest.Some? ==> dest.value < |waypoints|)
      modifies this`bots
      ensures RouteIndexed(route, old(|waypoints|))
      ensures Valid() && |waypoints| == old(|waypoints|)
      ensures var s := Bots.CalculatePath(old(FloorState()), b, dest, route);
              out == s.out && FloorState() == s.floor && Answered(s, route)
    {
      out, route := Ok, [];
      if bots[b].currentWaypoint.Some? {
        if dest.None? {
          out := Raised(DestinationIsNone);
          return;
        }
        route := FindPath(waypoints, pods, bots[b].currentWaypoint.value, dest.value);
        bots := bots[b := bots[b].(path := route, pathIndex := 0)];
      }
    }

    /** `bot.assign_task(task, pod, station)`. */
    method AssignTask(b: nat, task: Task, p: nat, station: Station) returns (route: seq<nat>)
      requires Valid() && b < |bots| && p < |pods| && station.waypoint < |waypoints|
      modifies this`bots
      ensures RouteIndexed(route, old(|waypoints|))
      ensures Valid() && |waypoints| == old(|waypoints|)
      ensures var s := Bots.AssignTask(old(FloorState()), b, task, p, station, route);
              FloorState() == s.floor && Answered(s, route)
    {
      bots := bots[b := Committed(bots[b], task, p, station)];
      route := [];
      if pods[p].waypoint.Some? {
        var out;
        out, route := CalculatePath(b, pods[p].waypoint);
      }
    }

    /** `complete_order(bot)`, for the bot with id `botId`. */
    method CompleteOrder(botId: nat)
      modifies this`activeTasks, this`stats
      ensures BooksState() == Orders.CompleteOrder(old(BooksState()), botId)
    {
      if botId in activeTasks {
        var order := activeTasks[botId];
        activeTasks := activeTasks - {botId};
        stats := stats.(ordersCompleted := stats.ordersCompleted + 1);
        stats := stats.(itemsPicked := stats.itemsPicked + |order.items|);
      }
    }

    /**
     * `bot.on_destination_reached()`, including the `complete_order` call the delivery
     * branch makes on the instance.
     */
    method OnDestinationReached(b: nat) returns (out: Outcome, route: seq<nat>)
      requires Valid() && b < |bots|
      modifies this`waypoints, this`pods, this`bots, this`activeTasks, this`stats
      ensures RouteIndexed(route, old(|waypoints|))
      ensures Valid() && |waypoints| == old(|waypoints|)
      ensures var s := Arrive(old(FloorState()), b, route);
              && out == s.out && FloorState() == s.floor && Answered(s, route)
              && BooksState() == BooksAfter(old(BooksState()), s, old(bots[b].id))
    {
      out, route := Ok, [];
      var bot := bots[b];
      if bot.currentTask == Some(FetchPod) {
        if bot.targetPod.Some? && bot.carryingPod.None? {
          out, route := Fetch(b);
        } else if bot.carryingPod.Some? && bot.targetStation.Some? {
          out, route := Deliver(b);
        } else {
          CompleteTask(b);
        }
      } else if bot.currentTask == Some(ReturnPod) {
        if bot.carryingPod.Some? {
          DropPod(b);
        }
        CompleteTask(b);
      }
    }

    /** The fetch branch of `on_destination_reached`, as `Bots.Fetch` describes it. */
    method Fetch(b: nat) returns (out: Outcome, route: seq<nat>)
      requires Valid() && b < |bots| && bots[b].targetPod.Some?
      modifies this`waypoints, this`pods, this`bots
      ensures RouteIndexed(route, old(|waypoints|))
      ensures Valid() && |waypoints| == old(|waypoints|)
      ensures var s := Bots.Fetch(old(FloorState()), b, route);
              out == s.out && FloorState() == s.floor && Answered(s, route)
    {
      var bot := bots[b];
      out, route := Ok, [];
      PickUpPod(b, bot.targetPod.value);
      if bot.targetStation.Some? {
        out, route := CalculatePath(b, Some(bot.targetStation.value.waypoint));
      }
    }

    /** The delivery branch of `on_destination_reached`, as `Bots.Deliver` describes it. */
    method Deliver(b: nat) returns (out: Outcome, route: seq<nat>)
      requires Valid() && b < |bots|
      modifies this`waypoints, this`pods, this`bots, this`activeTasks, this`stats
      ensures RouteIndexed(route, old(|waypoints|))
      ensures Valid() && |waypoints| == old(|waypoints|)
      ensures var s := Bots.Deliver(old(FloorState()), b, route);
              out == s.out && FloorState() == s.floor && Answered(s, route)
      ensures BooksState() == Orders.CompleteOrder(old(BooksState()), old(bots[b].id))
    {
      var bot := bots[b];
      out, route := Ok, [];
      DropPod(b);
      CompleteOrder(bot.id);
      var target := bot.targetPod;
      if target.Some? && pods[target.value].waypoint.Some? {
        out, route := Reload(b, target.value);
      }
    }

    /** The end of the delivery branch, as `Bots.Reload` describes it. */
    method Reload(b: nat, p: nat) returns (out: Outcome, route: seq<nat>)
      requires Valid() && b < |bots| && p < |pods|
      modifies this`waypoints, this`pods, this`bots
      ensures RouteIndexed(route, old(|waypoints|))
      ensures Valid() && |waypoints| == old(|waypoints|)
      ensures var s := Bots.Reload(old(FloorState()), b, p, route);
              out == s.out && FloorState() == s.floor && Answered(s, route)
    {
      ghost var f0 := FloorState();
      PickUpPod(b, p);
      out, route := CalculatePath(b, pods[p].waypoint);
      if out.Ok? {
        bots := bots[b := bots[b].(currentTask := Some(ReturnPod))];
      }
      assert FloorState() == Bots.Reload(f0, b, p, route).floor;
      FrameKeepsValid(f0, FloorState(), grid, inputStations, outputStations, pendingOrders);
    }

    /** `bot.move(delta_time)`, with `reached` standing for the distance test. */
    method Move(b: nat, reached: bool) returns (out: Outcome, route: seq<nat>)
      requires Valid() && b < |bots|
      modifies this`waypoints, this`pods, this`bots, this`activeTasks, this`stats
      ensures RouteIndexed(route, old(|waypoints|))
      ensures Valid() && |waypoints| == old(|waypoints|)
      ensures var s := Bots.Move(old(FloorState()), b, reached, route);
              && out == s.out && FloorState() == s.floor && Answered(s, route)
              && BooksState() == BooksAfter(old(BooksState()), s, old(bots[b].id))
    {
      ghost var f0 := FloorState();
      var bot := bots[b];
      if |bot.path| == 0 || bot.pathIndex >= |bot.path| {
        out, route := OnDestinationReached(b);
      } else if reached {
        bots := bots[b := Snapped(bot)];
        SetBotKeepsValid(f0, b, Snapped(bot), grid, inputStations, outputStations, pendingOrders);
        assert FloorState() == SetBot(f0, b, Snapped(bot));
        if bot.pathIndex + 1 < |bot.path| {
          out, route := Ok, [];
        } else {
          out, route := OnDestinationReached(b);
        }
      } else {
        out, route := Ok, [];
      }
    }

    /** `bot.update(delta_time)`. */
    method UpdateBot(b: nat, dt: real, reached: bool) returns (out: Outcome, route: seq<nat>)
      requires Valid() && b < |bots|
      modifies this`waypoints, this`pods, this`bots, this`activeTasks, this`stats
      ensures RouteIndexed(route, old(|waypoints|))
      ensures Valid() && |waypoints| == old(|waypoints|)
      ensures var s := BotUpdate(old(FloorState()), b, dt, reached, route);
              && out == s.out && FloorState() == s.floor && Answered(s, route)
              && BooksState() == BooksAfter(old(BooksState()), s, old(bots[b].id))
    {
      if bots[b].state == Idle {
        out, route := UpdateIdle(b, dt, reached);
      } else {
        out, route := UpdateMoving(b, dt, reached);
      }
    }

    /** `bot.update(delta_time)` on an idle bot: only its idle time grows. */
    method UpdateIdle(b: nat, dt: real, reached: bool) returns (out: Outcome, route: seq<nat>)
      requires Valid() && b < |bots| && bots[b].state == Idle
      modifies this`bots
      ensures RouteIndexed(route, old(|waypoints|))
      ensures Valid() && |waypoints| == old(|waypoints|)
      ensures var s := BotUpdate(old(FloorState()), b, dt, reached, route);
              && out == s.out && FloorState() == s.floor && Answered(s, route)
              && BooksState() == BooksAfter(old(BooksState()), s, old(bots[b].id))
    {
      ghost var f0 := FloorState();
      var bot := bots[b];
      PutBot(b, bot.(idleTime := bot.idleTime + dt));
      assert FloorState() == SetBot(f0, b, f0.bots[b].(idleTime := f0.bots[b].idleTime + dt));
      out, route := Ok, [];
      IdleUpdateWaits(f0, b, dt, reached, route);
    }

    /** `bot.update(delta_time)` on a bot that is not idle: its busy time grows and it moves. */
    method UpdateMoving(b: nat, dt: real, reached: bool) returns (out: Outcome, route: seq<nat>)
      requires Valid() && b < |bots| && bots[b].state == Moving
      modifies this`waypoints, this`pods, this`bots, this`activeTasks, this`stats
      ensures RouteIndexed(route, old(|waypoints|))
      ensures Valid() && |waypoints| == old(|waypoints|)
      ensures var s := BotUpdate(old(FloorState()), b, dt, reached, route);
              && out == s.out && FloorState() == s.floor && Answered(s, route)
              && BooksState() == BooksAfter(old(BooksState()), s, old(bots[b].id))
    {
      ghost var f0 := FloorState();
      var bot := bots[b];
      PutBot(b, bot.(busyTime := bot.busyTime + dt));
      assert FloorState() == SetBot(f0, b, f0.bots[b].(busyTime := f0.bots[b].busyTime + dt));
      out, route := Move(b, reached);
      MovingUpdateMoves(f0, b, dt, reached, route);
    }

    /** Replaces bot `b`'s record by `bot`, which keeps its id and its references valid. */
    method PutBot(b: nat, bot: Bot)
      requires Valid() && b < |bots| && BotIndexed(bot, |waypoints|, |pods|) && bot.id == bots[b].id
      modifies this`bots
      ensures Valid() && FloorState() == SetBot(old(FloorState()), b, bot)
    {
      SetBotKeepsValid(FloorState(), b, bot, grid, inputStations, outputStations, pendingOrders);
      bots := bots[b := bot];
    }

    /**
     * `update(delta_time)`. The chance draw `random.random() < 0.05` and the order it
     * generates are supplied as `order` (`None` when no order is generated), with `draw`
     * choosing its station; `reached` stands for each bot's distance test.
     */
    method Update(dt: real, reached: seq<bool>, order: Option<seq<string>>, draw: nat)
      returns (out: Outcome, moved: seq<seq<nat>>, given: seq<seq<nat>>)
      requires Valid()
      modifies this`waypoints, this`pods, this`bots, this`activeTasks, this`stats, this`pendingOrders, this`currentTime
      ensures Valid() && |waypoints| == old(|waypoints|)
      ensures old(paused) ==>
                && out.Ok? && moved == [] && given == [] && currentTime == old(currentTime)
                && FloorState() == old(FloorState()) && BooksState() == old(BooksState())
                && pendingOrders == old(pendingOrders)
      ensures !old(paused) ==>
                && currentTime == old(currentTime) + dt
                && Ticked(old(FloorState()), old(BooksState()), old(pendingOrders), outputStations, dt, reached,
                          order, draw, moved, given, Tock(out, FloorState(), BooksState(), pendingOrders))
    {
      out, moved, given := Ok, [], [];
      if paused {
        return;
      }
      currentTime := currentTime + dt;
      out, moved, given := Advance(dt, reached, order, draw);
    }

    /** The bot updates, the order generation and task assignment of a running `update`. */
    method Advance(dt: real, reached: seq<bool>, order: Option<seq<string>>, draw: nat)
      returns (out: Outcome, moved: seq<seq<nat>>, given: seq<seq<nat>>)
      requires Valid()
      modifies this`waypoints, this`pods, this`bots, this`activeTasks, this`stats, this`pendingOrders
      ensures Valid() && |waypoints| == old(|waypoints|)
      ensures Ticked(old(FloorState()), old(BooksState()), old(pendingOrders), outputStations, dt, reached,
                     order, draw, moved, given, Tock(out, FloorState(), BooksState(), pendingOrders))
    {
      ghost var f0, b0 := FloorState(), BooksState();
      given := [];
      out, moved := UpdateBots(dt, reached);
      if out.Ok? {
        given := FinishTick(f0, b0, dt, reached, order, draw, moved);
      } else {
        TickRaised(f0, b0, pendingOrders, outputStations, dt, reached, order, draw, moved,
                   Tock(out, FloorState(), BooksState(), pendingOrders));
      }
    }

    /** The end of a running `update` whose bot updates, from `f0` and `b0`, did not raise. */
    method FinishTick(ghost f0: Floor, ghost b0: Books, dt: real, reached: seq<bool>, order: Option<seq<string>>,
                      draw: nat, moved: seq<seq<nat>>) returns (given: seq<seq<nat>>)
      requires Valid() && Indexed(f0) && |waypoints| == |f0.waypoints|
      requires OrdersIndexed(pendingOrders, |f0.waypoints|) && StationsIndexed(outputStations, |f0.waypoints|)
      requires |moved| == |f0.bots| && RoutesIndexed(moved, |f0.waypoints|)
      requires Swept(f0, b0, dt, reached, moved) == Sweep(Ok, FloorState(), BooksState())
      requires SweepAnswered(f0, b0, dt, reached, moved)
      modifies this`bots, this`activeTasks, this`pendingOrders
      ensures Valid()
      ensures Ticked(f0, b0, old(pendingOrders), outputStations, dt, reached, order, draw, moved, given,
                     Tock(Ok, FloorState(), BooksState(), pendingOrders))
    {
      ghost var f1, b1, q0 := FloorState(), BooksState(), pendingOrders;
      given := Restock(order, draw);
      TickOk(f0, b0, q0, outputStations, dt, reached, order, draw, moved, given, f1, b1,
             Enqueued(q0, outputStations, order, draw), Tock(Ok, FloorState(), BooksState(), pendingOrders));
    }

    /**
     * The end of a running `update`: `order`, when there is one, is queued, and the idle
     * bots take the queued orders.
     */
    method Restock(order: Option<seq<string>>, draw: nat) returns (given: seq<seq<nat>>)
      requires Valid()
      modifies this`bots, this`activeTasks, this`pendingOrders
      ensures Valid()
      ensures var queue, idle := Enqueued(old(pendingOrders), outputStations, order, draw), IdleBots(old(bots));
              && OrdersIndexed(queue, |waypoints|)
              && |given| == Taken(|idle|, |queue|)
              && AssignRounds(old(FloorState()), idle, queue, old(activeTasks), given, FloorState(), pendingOrders, activeTasks)
    {
      MaybeGenerateOrder(order, draw);
      given := AssignTasks();
    }

    /**
     * The bot loop of `update`: every bot updates in table order; the first update that
     * raises ends the loop with its error.
     */
    method UpdateBots(dt: real, reached: seq<bool>) returns (out: Outcome, moved: seq<seq<nat>>)
      requires Valid()
      modifies this`waypoints, this`pods, this`bots, this`activeTasks, this`stats
      ensures Valid() && |waypoints| == old(|waypoints|)
      ensures |moved| <= old(|bots|) && RoutesIndexed(moved, old(|waypoints|))
      ensures Swept(old(FloorState()), old(BooksState()), dt, reached, moved) == Sweep(out, FloorState(), BooksState())
      ensures SweepAnswered(old(FloorState()), old(BooksState()), dt, reached, moved)
      ensures out.Ok? ==> |moved| == old(|bots|)
    {
      ghost var f0, b0 := FloorState(), BooksState();
      out, moved := Ok, [];
      while out.Ok? && |moved| < |bots|
        invariant Valid() && |waypoints| == |f0.waypoints| && |bots| == |f0.bots| && |moved| <= |f0.bots|
        invariant RoutesIndexed(moved, |f0.waypoints|)
        invariant Swept(f0, b0, dt, reached, moved) == Sweep(out, FloorState(), BooksState())
        invariant SweepAnswered(f0, b0, dt, reached, moved)
        decreases |bots| - |moved|
      {
        var n := |moved|;
        var route;
        out, route := UpdateBot(n, dt, Reached(reached, n));
        SweptExtend(f0, b0, dt, reached, moved, route);
        moved := moved + [route];
      }
    }

    // -------------------------------------------------------------------------
    // Orders

    /** `find_pod_with_items(items)`: the first free pod holding one of the items. */
    method FindPodWithItems(items: seq<string>) returns (r: Option<nat>)
      ensures r == Orders.FindPodWithItems(pods, items)
    {
      for q := 0 to |pods|
        invariant forall q' :: 0 <= q' < q ==> !Suitable(pods[q'], items)
      {
        if !pods[q].inUse {
          for i := 0 to |items|
            invariant forall i' :: 0 <= i' < i ==> items[i'] !in pods[q].items
          {
            if items[i] in pods[q].items {
              assert Suitable(pods[q], items);
              return Some(q);
            }
          }
        }
      }
      return None;
    }

    /** `generate_random_order()`, with the items and the station draw supplied. */
    method GenerateRandomOrder(items: seq<string>, draw: nat)
      requires Valid()
      modifies this`pendingOrders
      ensures Valid()
      ensures pendingOrders == old(pendingOrders) + [NewOrder(|old(pendingOrders)|, items, outputStations, draw)]
    {
      var station := if outputStations == [] then None else Some(outputStations[draw % |outputStations|]);
      var order := Order(|pendingOrders|, items, station);
      EnqueuedIndexed(pendingOrders, outputStations, Some(items), draw, |waypoints|);
      pendingOrders := pendingOrders + [order];
    }

    /** The 5% chance of `update`: `order` is the order it generates, or `None`. */
    method MaybeGenerateOrder(order: Option<seq<string>>, draw: nat)
      requires Valid()
      modifies this`pendingOrders
      ensures Valid() && pendingOrders == Enqueued(old(pendingOrders), outputStations, order, draw)
    {
      if order.Some? {
        GenerateRandomOrder(order.value, draw);
      }
    }

    /**
     * `assign_tasks()`: each idle bot, in table order, takes the front order while
     * orders remain; when a pod holding one of its items is found and the order names a
     * station, the bot gets the fetch task and the order is filed under the bot's id.
     */
    method AssignTasks() returns (routes: seq<seq<nat>>)
      requires Valid()
      modifies this`bots, this`activeTasks, this`pendingOrders
      ensures Valid()
      ensures var idle := IdleBots(old(bots));
              && |routes| == Taken(|idle|, |old(pendingOrders)|)
              && AssignRounds(old(FloorState()), idle, old(pendingOrders), old(activeTasks), routes,
                              FloorState(), pendingOrders, activeTasks)
    {
      ghost var f0, pending0, active0 := FloorState(), pendingOrders, activeTasks;
      var idle := IdleBots(bots);
      routes := [];
      while |routes| < |idle| && pendingOrders != []
        invariant Valid() && waypoints == f0.waypoints && pods == f0.pods
        invariant AssignRounds(f0, idle, pending0, active0, routes, FloorState(), pendingOrders, activeTasks)
        decreases |idle| - |routes|
      {
        var route := TakeFront(f0, idle, pending0, active0, routes);
        routes := routes + [route];
      }
    }

    /** One round of `assign_tasks`: the next idle bot takes the front order. */
    method TakeFront(ghost f0: Floor, idle: seq<nat>, ghost pending0: seq<Order>, ghost active0: map<nat, Order>,
                     routes: seq<seq<nat>>) returns (route: seq<nat>)
      requires Valid() && f0.waypoints == waypoints && f0.pods == pods && Indexed(f0)
      requires forall i :: 0 <= i < |idle| ==> idle[i] < |f0.bots|
      requires forall i, j :: 0 <= i < j < |idle| ==> idle[i] < idle[j]
      requires OrdersIndexed(pending0, |f0.waypoints|)
      requires AssignRounds(f0, idle, pending0, active0, routes, FloorState(), pendingOrders, activeTasks)
      requires |routes| < |idle| && pendingOrders != []
      modifies this`bots, this`activeTasks, this`pendingOrders
      ensures Valid()
      ensures AssignRounds(f0, idle, pending0, active0, routes + [route], FloorState(), pendingOrders, activeTasks)
    {
      var j := |routes|;
      ghost var f1, q1, a1 := FloorState(), pendingOrders, activeTasks;
      assert |bots| == |f0.bots|;
      var order := PopFront();
      route := TakeOrder(idle[j], order);
      AssignRoundsStep(f0, idle, pending0, active0, routes, route, f1, q1, a1, FloorState(), activeTasks);
    }

    /** `pending_orders.pop(0)`. */
    method PopFront() returns (order: Order)
      requires Valid() && pendingOrders != []
      modifies this`pendingOrders
      ensures Valid() && order == old(pendingOrders[0]) && pendingOrders == old(pendingOrders[1..])
      ensures order.station.Some? ==> order.station.value.waypoint < |waypoints|
    {
      DequeueKeepsValid(FloorState(), grid, inputStations, outputStations, pendingOrders);
      order := pendingOrders[0];
      pendingOrders := pendingOrders[1..];
    }

    /**
     * The rest of one round of `assign_tasks`: bot `b` takes `order` when a pod is found
     * for it and it names a station, and the order is filed under the bot's id.
     */
    method TakeOrder(b: nat, order: Order) returns (route: seq<nat>)
      requires Valid() && b < |bots|
      requires order.station.Some? ==> order.station.value.waypoint < |waypoints|
      modifies this`bots, this`activeTasks
      ensures Valid() && RouteIndexed(route, old(|waypoints|))
      ensures var pod := Assignment(pods, order);
              && (pod.None? ==> bots == old(bots) && activeTasks == old(activeTasks))
              && (pod.Some? ==>
                    var s := Bots.AssignTask(old(FloorState()), b, FetchPod, pod.value, order.station.value, route);
                    && FloorState() == s.floor && Answered(s, route)
                    && activeTasks == old(activeTasks)[old(bots[b].id) := order])
    {
      var pod := FindPodWithItems(order.items);
      assert (if pod.Some? && order.station.Some? then pod else None) == Assignment(pods, order);
      route := [];
      if pod.Some? && order.station.Some? {
        var id := bots[b].id;
        route := AssignTask(b, FetchPod, pod.value, order.station.value);
        activeTasks := activeTasks[id := order];
      }
    }

    /** `reset_statistics()`, at wall-clock time `now`. */
    method ResetStatistics(now: real)
      modifies this`stats
      ensures stats == ZeroStats(Some(now))
    {
      stats := ZeroStats(Some(now));
    }
    // -------------------------------------------------------------------------
    // generate_layout, in place

    /** The building loop: waypoint `y * width + x` at `(x, y)`, row by row, each in the grid map. */
    method BuildGrid(width: nat, height: nat)
      requires waypoints == [] && grid == map[]
      modifies this`waypoints, this`grid
      ensures |waypoints| == width * height && FreshGrid(waypoints, width, height)
      ensures GridMap(grid, width, height)
    {
      var id := 0;
      var y := 0;
      while y < height
        invariant 0 <= y <= height
        invariant id == y * width == |waypoints|
        invariant FreshGrid(waypoints, width, height)
        invariant GridUpTo(grid, width, 0, y)
      {
        var x := 0;
        while x < width
          invariant 0 <= x <= width
          invariant id == y * width + x == |waypoints|
          invariant FreshGrid(waypoints, width, height)
          invariant GridUpTo(grid, width, x, y)
        {
          waypoints := waypoints + [NewWaypoint(id, x, y)];
          grid := grid[(x, y) := id];
          id := id + 1;
          x := x + 1;
        }
        assert (y + 1) * width == y * width + width;
        y := y + 1;
      }
      assert height * width == width * height;
      GridUpToAll(grid, width, height);
    }

    /**
     * One neighbour of the linking: when the grid has a waypoint at `(x', y')`, one step
     * from `w0` in direction `i`, `wp` gets a path to it, which links `w0` in one more
     * direction.
     */
    method LinkTo(w0: Waypoint, wp: Waypoint, width: nat, height: nat, i: nat, x': int, y': int) returns (r: Waypoint)
      requires |waypoints| == width * height && GridPositions(waypoints, width, height) && GridMap(grid, width, height)
      requires InGrid(width, height, w0.x, w0.y) && i < 4 && x' == w0.x + StepX(i) && y' == w0.y + StepY(i)
      requires wp == Linked(w0, width, height, i)
      ensures r == Linked(w0, width, height, i + 1)
    {
      LinkStep(w0, waypoints, grid, width, height, i, x', y');
      r := wp;
      if (x', y') in grid {
        r := AddPath(wp, waypoints[grid[(x', y')]]);
      }
    }

    /**
     * The linking of one waypoint: a path to the waypoint on its right, below it, on its
     * left and above it, in that order, wherever the grid has one.
     */
    method LinkWaypoint(k: nat, width: nat, height: nat) returns (wp: Waypoint)
      requires |waypoints| == width * height && GridPositions(waypoints, width, height) && GridMap(grid, width, height)
      requires k < |waypoints| && waypoints[k] == NewWaypoint(k, waypoints[k].x, waypoints[k].y)
      ensures wp == GridCell(width, height, waypoints[k].x, waypoints[k].y)
    {
      var w0 := waypoints[k];
      var x, y := w0.x, w0.y;
      LinkedCell(w0, width, height);
      wp := LinkTo(w0, w0, width, height, 0, x + 1, y);
      wp := LinkTo(w0, wp, width, height, 1, x, y + 1);
      wp := LinkTo(w0, wp, width, height, 2, x - 1, y);
      wp := LinkTo(w0, wp, width, height, 3, x, y - 1);
    }

    /** The connecting loop: every waypoint linked to its grid neighbours gives the connected grid. */
    method ConnectGrid(width: nat, height: nat)
      requires |waypoints| == width * height && FreshGrid(waypoints, width, height) && GridMap(grid, width, height)
      modifies this`waypoints
      ensures waypoints == GridWaypoints(width, height)
    {
      var k := 0;
      while k < |waypoints|
        invariant k <= |waypoints| == width * height
        invariant GridPositions(waypoints, width, height)
        invariant forall j :: 0 <= j < k ==> waypoints[j] == GridCell(width, height, waypoints[j].x, waypoints[j].y)
        invariant forall j :: k <= j < |waypoints| ==> waypoints[j] == NewWaypoint(j, waypoints[j].x, waypoints[j].y)
      {
        var wp := LinkWaypoint(k, width, height);
        waypoints := waypoints[k := wp];
        k := k + 1;
      }
      ConnectedGrid(waypoints, width, height);
    }

    /**
     * The input (`input`) or the output station loop: station `i` stands at column
     * `StationColumn` of the first or the last row, and its waypoint refers to it. The loop
     * raises `KeyError` exactly at `StationFault`, before anything changes.
     */
    method PlaceStations(c: Config, input: bool) returns (out: Outcome)
      requires |waypoints| == c.width * c.height && GridMap(grid, c.width, c.height)
      modifies this`waypoints, this`inputStations, this`outputStations
      ensures out.Raised? <==> StationFault(c, input).Some?
      ensures out.Raised? ==>
                && out.error == StationFault(c, input).value
                && waypoints == old(waypoints) && inputStations == old(inputStations) && outputStations == old(outputStations)
      ensures out.Ok? ==> waypoints == Stationed(old(waypoints), StationRow(c, input), input)
      ensures out.Ok? ==> input ==> inputStations == old(inputStations) + StationRow(c, input)
      ensures out.Ok? ==> !input ==> outputStations == old(outputStations) + StationRow(c, input)
      ensures input ==> outputStations == old(outputStations)
      ensures !input ==> inputStations == old(inputStations)
    {
      var count := if input then c.inputCount else c.outputCount;
      var y := if input then 0 else c.height - 1;
      var stations;
      out, stations := PlaceRow(c.width, c.height, count, y, input);
      if out.Ok? {
        if input {
          inputStations := inputStations + stations;
        } else {
          outputStations := outputStations + stations;
        }
      }
    }

    /**
     * The body of a station loop, on row `y`: it raises `KeyError` for the first station
     * exactly when that cell is off the grid, and once that lookup succeeds every later
     * station is on the grid.
     */
    method PlaceRow(width: nat, height: nat, count: nat, y: int, input: bool) returns (out: Outcome, stations: seq<Station>)
      requires |waypoints| == width * height && GridMap(grid, width, height)
      modifies this`waypoints
      ensures out.Raised? <==> count > 0 && !InGrid(width, height, StationColumn(width, count, 0), y)
      ensures out.Raised? ==> out.error == GridKeyMissing(StationColumn(width, count, 0), y) && waypoints == old(waypoints)
      ensures out.Ok? ==> count > 0 ==> y >= 0
      ensures out.Ok? ==> stations == StationsOnRow(width, count, if y < 0 then 0 else y)
      ensures out.Ok? ==> waypoints == Stationed(old(waypoints), stations, input)
    {
      var spacing := width / (count + 1);
      ghost var row := StationsOnRow(width, count, if y < 0 then 0 else y);
      ghost var ws0 := waypoints;
      stations := [];
      var i := 0;
      while i < count
        invariant i <= count
        invariant i > 0 ==> InGrid(width, height, StationColumn(width, count, 0), y)
        invariant stations == row[..i]
        invariant |waypoints| == |ws0| && waypoints == Stationed(ws0, stations, input)
      {
        var x := spacing * (i + 1);
        assert x == StationColumn(width, count, i);
        if i > 0 {
          StationColumnInGrid(width, count, i);
        }
        if (x, y) !in grid {
          return Raised(GridKeyMissing(x, y)), stations;
        }
        var wp := grid[(x, y)];
        GridIdBelow(width, height, x, y);
        var station := Station(i, wp);
        assert station == row[i];
        assert waypoints[wp := WithStation(waypoints[wp], input, i)] == Stationed(ws0, stations + [station], input) by {
          StationedExtend(ws0, stations, station, input);
        }
        assert row[..i + 1] == stations + [station];
        stations := stations + [station];
        waypoints := waypoints[wp := WithStation(waypoints[wp], input, i)];
        i := i + 1;
      }
      if count > 0 {
        StationColumnInGrid(width, count, 0);
      }
      assert row[..count] == row;
      return Ok, stations;
    }

    /**
     * The storage loop: the storage columns of each row of the band are marked, row by row
     * from the band's first row and column by column from column 2. It raises `KeyError`
     * at `StorageFault`, the first cell it visits that is off the grid.
     */
    method MarkStorage(c: Config) returns (out: Outcome)
      requires |waypoints| == c.width * c.height && GridPositions(waypoints, c.width, c.height)
      requires GridMap(grid, c.width, c.height)
      modifies this`waypoints
      ensures out.Raised? <==> StorageFault(c.width, c.height, StorageRows(c)).Some?
      ensures out.Raised? ==> out.error == StorageFault(c.width, c.height, StorageRows(c)).value
      ensures out.Ok? ==> waypoints == Stored(old(waypoints), c.width, c.height, StorageRows(c))
      ensures out.Raised? ==>
                && out.error.GridKeyMissing?
                && waypoints == MarkedUpTo(old(waypoints), c.width, c.height, StorageRows(c), 0, out.error.y)
    {
      var rows := if c.storageRows.Some? then c.storageRows.value else 5;
      var start := c.height / 2 - rows / 2;
      var end := start + rows;
      ghost var ws0 := waypoints;
      MarkedEnds(ws0, c.width, c.height, rows);
      var y := start;
      while y < end
        invariant start <= y <= end
        invariant c.width >= 5 && y > start ==> 0 <= start && y <= c.height
        invariant waypoints == MarkedUpTo(ws0, c.width, c.height, rows, 0, y)
      {
        out := MarkRow(ws0, c.width, c.height, rows, y);
        if out.Raised? {
          return;
        }
        y := y + 1;
      }
      return Ok;
    }

    /**
     * One row of the storage loop, from column 2 to column `width - 3`: each storage column
     * is marked. Column 2 is visited first, so the row raises `KeyError` there exactly when
     * the row has storage columns and lies off the grid.
     */
    method MarkRow(ghost ws0: seq<Waypoint>, width: nat, height: nat, rows: nat, y: int) returns (out: Outcome)
      requires |ws0| == width * height && GridPositions(ws0, width, height) && GridMap(grid, width, height)
      requires StorageStart(height, rows) <= y < StorageStart(height, rows) + rows
      requires waypoints == MarkedUpTo(ws0, width, height, rows, 0, y)
      modifies this`waypoints
      ensures out.Raised? <==> width >= 5 && !(0 <= y < height)
      ensures out.Raised? ==> out.error == GridKeyMissing(2, y)
      ensures out.Ok? ==> waypoints == MarkedUpTo(ws0, width, height, rows, 0, y + 1)
      ensures out.Raised? ==> waypoints == old(waypoints)
    {
      var x := 2;
      while x < width - 2
        invariant 2 <= x
        invariant x == 2 ==> waypoints == old(waypoints)
        invariant x > 2 ==> 0 <= y < height && x <= width - 2
        invariant waypoints == MarkedUpTo(ws0, width, height, rows, x, y)
      {
        if x % 3 != 0 {
          if (x, y) !in grid {
            return Raised(GridKeyMissing(x, y));
          }
          MarkedStep(ws0, width, height, rows, x, y);
          var wp := grid[(x, y)];
          waypoints := waypoints[wp := waypoints[wp].(podStorageLocation := true)];
        } else {
          MarkedStep(ws0, width, height, rows, x, y);
        }
        x := x + 1;
      }
      MarkedRowEnd(ws0, width, height, rows, x, y);
      return Ok;
    }

    /** The seeding loop of one pod: `add_item(name)` for each name in turn. */
    method StockPod(p: Pod, names: seq<string>) returns (pod: Pod)
      ensures pod == Stocked(p, names)
    {
      pod := p;
      var j := 0;
      while j < |names|
        invariant j <= |names|
        invariant pod == Stocked(p, names[..j])
      {
        StockedStep(p, names, j);
        pod := AddItem(pod, names[j], 1.0, 1).pod;
        j := j + 1;
      }
      assert names[..j] == names;
    }

    /**
     * One round of the pod loop: a new pod with the next id stands on waypoint `wp`, which
     * refers to it, and is seeded with `names`.
     */
    method PlacePod(wp: nat, capacity: real, names: seq<string>)
      requires wp < |waypoints|
      modifies this`waypoints, this`pods
      ensures waypoints == old(waypoints)[wp := old(waypoints)[wp].(pod := Some(|old(pods)|))]
      ensures pods == old(pods) + [Stocked(NewPod(|old(pods)|, capacity).(waypoint := Some(wp)), names)]
    {
      var pod := NewPod(|pods|, capacity).(waypoint := Some(wp));
      waypoints := waypoints[wp := waypoints[wp].(pod := Some(|pods|))];
      pod := StockPod(pod, names);
      pods := pods + [pod];
    }

    /**
     * The pod loop: the storage cells, shuffled, receive pods `0, 1, ...` while both last;
     * each pod of the given capacity stands on its cell, which refers to it, and is seeded
     * with its item names one `add_item` at a time.
     */
    method PlacePods(count: nat, capacity: real, draws: seq<nat>, items: seq<seq<string>>)
      requires pods == []
      modifies this`waypoints, this`pods
      ensures var cells := Shuffled(Cells(old(waypoints), StorageCell, |old(waypoints)|), draws);
              var placed := cells[..Min(count, |cells|)];
              waypoints == Podded(old(waypoints), placed) && pods == NewPods(placed, capacity, items)
    {
      var cells := Cells(waypoints, StorageCell, |waypoints|);
      var shuffled := ShuffleCells(cells, draws);
      var n := if count < |shuffled| then count else |shuffled|;
      ShuffledCellsInRange(waypoints, draws, n);
      PlaceAll(shuffled[..n], capacity, items);
    }

    /** The `random.shuffle` of a list of cells, done in place on an array copy. */
    static method ShuffleCells(cells: seq<nat>, draws: seq<nat>) returns (shuffled: seq<nat>)
      ensures shuffled == Shuffled(cells, draws)
    {
      var spots := new nat[|cells|](j requires 0 <= j < |cells| => cells[j]);
      assert spots[..] == cells;
      Shuffle(spots, draws);
      shuffled := spots[..];
    }

    /** Every shuffled storage cell is a waypoint index. */
    static lemma ShuffledCellsInRange(ws: seq<Waypoint>, draws: seq<nat>, n: nat)
      requires n <= |Cells(ws, StorageCell, |ws|)|
      ensures var placed := Shuffled(Cells(ws, StorageCell, |ws|), draws)[..n];
              forall i :: 0 <= i < |placed| ==> placed[i] < |ws|
    {
      var cells := Cells(ws, StorageCell, |ws|);
      ShuffledPermutes(cells, draws);
      var placed := Shuffled(cells, draws)[..n];
      forall i | 0 <= i < |placed|
        ensures placed[i] < |ws|
      {
        assert placed[i] in Shuffled(cells, draws);
      }
    }

    /** The rounds of the pod loop: pod `i` on waypoint `placed[i]`, seeded with its item names. */
    method PlaceAll(placed: seq<nat>, capacity: real, items: seq<seq<string>>)
      requires pods == [] && forall i :: 0 <= i < |placed| ==> placed[i] < |waypoints|
      modifies this`waypoints, this`pods
      ensures waypoints == Podded(old(waypoints), placed) && pods == NewPods(placed, capacity, items)
    {
      ghost var ws0 := waypoints;
      var i := 0;
      while i < |placed|
        invariant i <= |placed|
        invariant |waypoints| == |ws0| && |pods| == i
        invariant waypoints == Podded(ws0, placed[..i])
        invariant pods == NewPods(placed[..i], capacity, items)
      {
        var wp := placed[i];
        PlacePod(wp, capacity, ItemsFor(items, i));
        assert placed[..i + 1] == placed[..i] + [wp];
        assert waypoints == Podded(ws0, placed[..i + 1]) by {
          PoddedExtend(ws0, placed[..i], wp);
        }
        assert pods == NewPods(placed[..i + 1], capacity, items) by {
          NewPodsExtend(placed[..i], wp, capacity, items);
        }
        i := i + 1;
      }
      assert placed[..i] == placed;
    }

    /**
     * The robot loop: the free waypoints, shuffled, receive idle bots `0, 1, ...` of the
     * configured speed while both last.
     */
    method SpawnRobots(c: Config, draws: seq<nat>)
      requires bots == []
      modifies this`bots
      ensures bots == NewBots(BotSpots(waypoints, c, draws), c.robotSpeed)
    {
      var cells := Cells(waypoints, FreeCell, |waypoints|);
      var spots := new nat[|cells|](j requires 0 <= j < |cells| => cells[j]);
      assert spots[..] == cells;
      Shuffle(spots, draws);
      var shuffled := spots[..];
      var n := if c.robotCount < |shuffled| then c.robotCount else |shuffled|;
      var i := 0;
      while i < n
        invariant i <= n
        invariant bots == NewBots(shuffled[..i], c.robotSpeed)
      {
        var bot := NewBot(i, c.robotSpeed).(currentWaypoint := Some(shuffled[i]));
        NewBotsExtend(shuffled[..i], shuffled[i], c.robotSpeed);
        bots := bots + [bot];
        assert shuffled[..i + 1] == shuffled[..i] + [shuffled[i]];
        i := i + 1;
      }
      assert shuffled == Shuffled(cells, draws);
    }

    /**
     * The first half of `generate_layout`: the grid, its links, the stations and the storage
     * cells. It raises the first `KeyError` of the station and the storage loops, or lays out
     * exactly the sites of `Generate`.
     */
    method LayOutSites(c: Config) returns (out: Outcome)
      requires waypoints == [] && grid == map[] && inputStations == [] && outputStations == []
      modifies this`waypoints, this`grid, this`inputStations, this`outputStations
      ensures out.Raised? <==> SitesFault(c).Some?
      ensures out.Raised? ==> out.error == SitesFault(c).value
      ensures out.Ok? ==> waypoints == Sites(c) && inputStations == Inputs(c) && outputStations == Outputs(c)
      ensures GridMap(grid, c.width, c.height)
    {
      BuildGrid(c.width, c.height);
      ConnectGrid(c.width, c.height);
      ghost var ws0 := waypoints;
      GridWaypointsShape(c.width, c.height);
      out := PlaceStations(c, true);
      if out.Raised? {
        return;
      }
      ghost var ws1 := waypoints;
      out := PlaceStations(c, false);
      if out.Raised? {
        return;
      }
      ghost var ws2 := waypoints;
      BareKeepsGrid(ws0, ws1, c.width, c.height);
      BareKeepsGrid(ws1, ws2, c.width, c.height);
      GridGraphPositions(ws2, c.width, c.height);
      out := MarkStorage(c);
    }

    /**
     * `generate_layout` on a new instance: it raises the `KeyError` that `Generate` predicts,
     * or builds exactly the floor and the stations of `Generate`, with the grid map; the
     * result is valid and consistent.
     */
    method GenerateLayout(c: Config, items: seq<seq<string>>, podDraws: seq<nat>, botDraws: seq<nat>)
      returns (out: Outcome)
      requires waypoints == [] && grid == map[] && pods == [] && bots == []
      requires inputStations == [] && outputStations == []
      modifies this`waypoints, this`grid, this`pods, this`bots, this`inputStations, this`outputStations
      ensures var g := Generate(c, items, podDraws, botDraws);
              && (out.Raised? <==> g.Failed?)
              && (g.Failed? ==> out == Raised(g.error))
              && (g.Built? ==> && FloorState() == g.floor && inputStations == g.inputs && outputStations == g.outputs
                               && GridMap(grid, c.width, c.height))
      ensures out.Ok? ==> Indexed(FloorState()) && Consistent(FloorState()) && (pendingOrders == [] ==> Valid())
    {
      ghost var g := Generate(c, items, podDraws, botDraws);
      out := LayOutSites(c);
      if out.Raised? {
        assert g == Failed(out.error);
        return;
      }
      assert g.Built?;
      assert inputStations == g.inputs && outputStations == g.outputs by {
        GeneratedParts(c, items, podDraws, botDraws);
      }
      Furnish(c, items, podDraws, botDraws);
      GeneratedInstanceValid(c, items, podDraws, botDraws, FloorState(), grid, inputStations, outputStations);

    }

    /** The pod and robot loops of `generate_layout`, on a floor whose sites are laid out. */
    method Furnish(c: Config, items: seq<seq<string>>, podDraws: seq<nat>, botDraws: seq<nat>)
      requires Generate(c, items, podDraws, botDraws).Built?
      requires waypoints == Sites(c) && pods == [] && bots == []
      modifies this`waypoints, this`pods, this`bots
      ensures FloorState() == Generate(c, items, podDraws, botDraws).floor
    {
      GeneratedParts(c, items, podDraws, botDraws);
      PlacePods(c.podCount, c.podCapacity, podDraws, items);
      SpawnRobots(c, botDraws);
    }
  }
}
