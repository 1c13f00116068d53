/**
 * Orders: the instance's order bookkeeping. Orders wait in a FIFO queue; idle bots take
 * them front first, each with the first free pod holding one of the order's items; an
 * order in progress is filed under its bot's id until the bot completes it.
 */
module Orders {
  import opened Wrappers
  import opened Pods
  import opened Bots

  /** An order: its id, the item names it asks for, and the output station it goes to. */
  datatype Order = Order(id: nat, items: seq<string>, station: Option<Station>)

  /**
   * The statistics record. `startTime` is the wall-clock time of the last reset, which
   * the caller supplies.
   */
  datatype Stats = Stats(
    ordersCompleted: nat,
    itemsPicked: nat,
    totalDistanceTraveled: real,
    botBusyTime: real,
    botIdleTime: real,
    startTime: Option<real>,
    endTime: Option<real>)

  /** The statistics of a new instance, or after `reset_statistics` at time `start`. */
  function ZeroStats(start: Option<real>): (s: Stats)
    ensures s.ordersCompleted == 0 && s.itemsPicked == 0
    ensures s.totalDistanceTraveled == 0.0 && s.botBusyTime == 0.0 && s.botIdleTime == 0.0
    ensures s.startTime == start && s.endTime.None?
  {
    Stats(0, 0, 0.0, 0.0, 0.0, start, None)
  }

  // ---------------------------------------------------------------------------
  // find_pod_with_items

  /** One of `items` is a key of the pod's contents. */
  predicate HoldsAny(pod: Pod, items: seq<string>)
  {
    exists i :: 0 <= i < |items| && items[i] in pod.items
  }

  /** The inner loop of `find_pod_with_items`: does some requested item name a key? */
  function ScanItems(pod: Pod, items: seq<string>): (r: bool)
    ensures r <==> HoldsAny(pod, items)
  {
    if items == [] then false
    else if items[0] in pod.items then true
    else
      var r := ScanItems(pod, items[1..]);
      assert forall i :: 1 <= i < |items| ==> items[i] == items[1..][i - 1];
      assert r ==> exists i :: 1 <= i < |items| && items[i] in pod.items by {
        if r {
          var i :| 0 <= i < |items[1..]| && items[1..][i] in pod.items;
          assert items[i + 1] in pod.items;
        }
      }
      r
  }

  /** A pod the search accepts: not in use, and holding one of the requested items. */
  predicate Suitable(pod: Pod, items: seq<string>)
  {
    !pod.inUse && HoldsAny(pod, items)
  }

  /** The outer loop of `find_pod_with_items`, from pod `k` on. */
  function ScanPods(pods: seq<Pod>, items: seq<string>, k: nat): (r: Option<nat>)
    requires k <= |pods|
    ensures r.Some? ==> k <= r.value < |pods| && Suitable(pods[r.value], items)
    ensures r.Some? ==> forall q :: k <= q < r.value ==> !Suitable(pods[q], items)
    ensures r.None? ==> forall q :: k <= q < |pods| ==> !Suitable(pods[q], items)
    decreases |pods| - k
  {
    if k == |pods| then None
    else if !pods[k].inUse && ScanItems(pods[k], items) then Some(k)
    else ScanPods(pods, items, k + 1)
  }

  /**
   * `find_pod_with_items`: the first pod, in table order, that is not in use and holds
   * one of the requested items; `None` exactly when there is no such pod.
   */
  function FindPodWithItems(pods: seq<Pod>, items: seq<string>): (r: Option<nat>)
    ensures r.Some? ==> r.value < |pods| && Suitable(pods[r.value], items)
    ensures r.Some? ==> forall q :: 0 <= q < r.value ==> !Suitable(pods[q], items)
    ensures r.None? <==> forall q :: 0 <= q < |pods| ==> !Suitable(pods[q], items)
  {
    ScanPods(pods, items, 0)
  }

  /** Only what the search reads matters: pods' use flags and item keys. */
  lemma FindPodLooksAtFlagsAndKeys(pods: seq<Pod>, pods': seq<Pod>, items: seq<string>)
    requires |pods'| == |pods|
    requires forall q :: 0 <= q < |pods| ==> pods'[q].inUse == pods[q].inUse && pods'[q].items.Keys == pods[q].items.Keys
    ensures FindPodWithItems(pods', items) == FindPodWithItems(pods, items)
  {
    var r, r' := FindPodWithItems(pods, items), FindPodWithItems(pods', items);
    forall q | 0 <= q < |pods|
      ensures Suitable(pods'[q], items) <==> Suitable(pods[q], items)
    {
      assert forall i :: 0 <= i < |items| ==> (items[i] in pods'[q].items <==> items[i] in pods[q].items);
    }
    if r.Some? {
      assert r'.Some?;
      assert !(r'.value < r.value) && !(r.value < r'.value);
    }
  }

  // ---------------------------------------------------------------------------
  // complete_order

  /** The orders in progress, by bot id, with the statistics. */
  datatype Books = Books(active: map<nat, Order>, stats: Stats)

  /**
   * `complete_order(bot)`: when the bot has an order in progress, the order is removed,
   * one more order counts as completed and its items count as picked; otherwise nothing
   * changes.
   */
  function CompleteOrder(books: Books, botId: nat): (r: Books)
    ensures botId !in books.active ==> r == books
    ensures botId in books.active ==>
              && r.active == books.active - {botId}
              && r.stats.ordersCompleted == books.stats.ordersCompleted + 1
              && r.stats.itemsPicked == books.stats.itemsPicked + |books.active[botId].items|
              && r.stats.(ordersCompleted := books.stats.ordersCompleted, itemsPicked := books.stats.itemsPicked) == books.stats
  {
    if botId in books.active then
      var order := books.active[botId];
      Books(books.active - {botId},
            books.stats.(ordersCompleted := books.stats.ordersCompleted + 1,
                         itemsPicked := books.stats.itemsPicked + |order.items|))
    else books
  }

  /** Completing the same bot's order twice counts it once. */
  lemma CompleteOrderIdempotent(books: Books, botId: nat)
    ensures CompleteOrder(CompleteOrder(books, botId), botId) == CompleteOrder(books, botId)
  {
  }

  /** Completion moves an order from in progress to completed: the total stays the same. */
  lemma CompleteOrderConserves(books: Books, botId: nat)
    ensures var r := CompleteOrder(books, botId);
            r.stats.ordersCompleted + |r.active.Keys| == books.stats.ordersCompleted + |books.active.Keys|
  {
    var r := CompleteOrder(books, botId);
    if botId in books.active {
      assert books.active.Keys == r.active.Keys + {botId};
    }
  }

  // ---------------------------------------------------------------------------
  // assign_tasks

  /** The indices of the idle bots, in table order: `[bot for bot in bots if bot.state == 'idle']`. */
  function IdleBots(bots: seq<Bot>): (r: seq<nat>)
    ensures forall i :: 0 <= i < |r| ==> r[i] < |bots| && bots[r[i]].state == Idle
    ensures forall i, j :: 0 <= i < j < |r| ==> r[i] < r[j]
    ensures forall b :: 0 <= b < |bots| && bots[b].state == Idle ==> b in r
  {
    if bots == [] then []
    else
      var n := |bots| - 1;
      var rest := IdleBots(bots[..n]);
      assert forall b :: 0 <= b < n ==> bots[..n][b] == bots[b];
      if bots[n].state == Idle then rest + [n] else rest
  }

  /**
   * The pod an order is assigned with, when `assign_tasks` assigns it: a pod was found
   * and the order names a station.
   */
  function Assignment(pods: seq<Pod>, order: Order): (r: Option<nat>)
    ensures r.Some? ==> r.value < |pods| && Suitable(pods[r.value], order.items) && order.station.Some?
    ensures r.Some? ==> forall q :: 0 <= q < r.value ==> !Suitable(pods[q], order.items)
    ensures r.None? <==> order.station.None? || forall q :: 0 <= q < |pods| ==> !Suitable(pods[q], order.items)
  {
    var pod := FindPodWithItems(pods, order.items);
    if pod.Some? && order.station.Some? then pod else None
  }

  /** The number of orders `assign_tasks` takes: one per idle bot, while orders remain. */
  function Taken(idle: nat, pending: nat): (k: nat)
    ensures k <= idle && k <= pending && (k == idle || k == pending)
  {
    if idle < pending then idle else pending
  }

  /**
   * The orders in progress after the first `j` idle bots have each taken the front order:
   * each order that is assigned is filed under its bot's id.
   */
  function FiledAfter(active: map<nat, Order>, bots: seq<Bot>, idle: seq<nat>, pending: seq<Order>,
                      pods: seq<Pod>, j: nat): (r: map<nat, Order>)
    requires j <= |idle| && j <= |pending| && forall i :: 0 <= i < |idle| ==> idle[i] < |bots|
    ensures forall id :: id in r ==> id in active || exists i :: 0 <= i < j && bots[idle[i]].id == id
  {
    if j == 0 then active
    else
      var r := FiledAfter(active, bots, idle, pending, pods, j - 1);
      if Assignment(pods, pending[j - 1]).Some? then r[bots[idle[j - 1]].id := pending[j - 1]] else r
  }

  /**
   * Two orders for the same items, both with a station, are assigned with the same pod:
   * assignment does not reserve the pod it hands out.
   */
  lemma SameItemsSamePod(pods: seq<Pod>, o1: Order, o2: Order)
    requires o1.items == o2.items && o1.station.Some? && o2.station.Some?
    requires FindPodWithItems(pods, o1.items).Some?
    ensures Assignment(pods, o1) == Assignment(pods, o2) != None
  {
  }

  /** The bot with the order last filed under its id holds it: later filings overwrite earlier ones. */
  lemma FiledUnderBot(active: map<nat, Order>, bots: seq<Bot>, idle: seq<nat>, pending: seq<Order>,
                      pods: seq<Pod>, j: nat, i: nat)
    requires j <= |idle| && j <= |pending| && forall k :: 0 <= k < |idle| ==> idle[k] < |bots|
    requires i < j && Assignment(pods, pending[i]).Some?
    requires forall k :: i < k < j ==> bots[idle[k]].id != bots[idle[i]].id
    ensures bots[idle[i]].id in FiledAfter(active, bots, idle, pending, pods, j)
    ensures FiledAfter(active, bots, idle, pending, pods, j)[bots[idle[i]].id] == pending[i]
    decreases j
  {
    if i < j - 1 {
      FiledUnderBot(active, bots, idle, pending, pods, j - 1, i);
    }
  }

  // ---------------------------------------------------------------------------
  // Robot utilization

  function TotalBusy(bots: seq<Bot>): real
  {
    if bots == [] then 0.0 else TotalBusy(bots[..|bots| - 1]) + bots[|bots| - 1].busyTime
  }

  function TotalTime(bots: seq<Bot>): real
  {
    if bots == [] then 0.0
    else TotalTime(bots[..|bots| - 1]) + bots[|bots| - 1].busyTime + bots[|bots| - 1].idleTime
  }

  predicate TimesNonNegative(bots: seq<Bot>)
  {
    forall b :: 0 <= b < |bots| ==> bots[b].busyTime >= 0.0 && bots[b].idleTime >= 0.0
  }

  /** With non-negative times, busy time is part of total time. */
  lemma {:induction false} BusyWithinTotal(bots: seq<Bot>)
    requires TimesNonNegative(bots)
    ensures 0.0 <= TotalBusy(bots) <= TotalTime(bots)
    decreases |bots|
  {
    if bots != [] {
      var init := bots[..|bots| - 1];
      assert TimesNonNegative(init) by {
        forall b | 0 <= b < |init| ensures init[b].busyTime >= 0.0 && init[b].idleTime >= 0.0 {
          assert init[b] == bots[b];
        }
      }
      BusyWithinTotal(init);
    }
  }

  /**
   * The average robot utilization of the statistics report: busy time over total time,
   * in percent, and 0 when no time has passed. It lies between 0 and 100.
   */
  function Utilization(bots: seq<Bot>): (u: real)
    requires TimesNonNegative(bots)
    ensures 0.0 <= u <= 100.0
    ensures TotalTime(bots) > 0.0 ==> u * TotalTime(bots) == TotalBusy(bots) * 100.0
    ensures TotalTime(bots) <= 0.0 ==> u == 0.0
  {
    BusyWithinTotal(bots);
    if TotalTime(bots) > 0.0 then TotalBusy(bots) / TotalTime(bots) * 100.0 else 0.0
  }
}
