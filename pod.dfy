/**
 * Pods: mobile storage units holding named items up to a capacity.
 * A pod is either at rest on a waypoint or carried by a robot; both
 * references are indices into the instance's tables.
 */
module Pods {
  import opened Wrappers

  datatype Pod = Pod(
    id: nat,
    capacity: real,
    waypoint: Option<nat>,
    inUse: bool,
    bot: Option<nat>,
    items: map<string, int>,   // item name -> count
    capacityUsed: real,
    itemsHandled: int,
    bundlesHandled: nat)

  /** The pod after an item operation, and the boolean the operation returns. */
  datatype Change = Change(pod: Pod, ok: bool)

  /** A freshly constructed pod: empty, at no waypoint, carried by nobody. */
  function NewPod(id: nat, capacity: real): (p: Pod)
    ensures p.id == id && p.capacity == capacity
    ensures p.waypoint.None? && !p.inUse && p.bot.None?
    ensures p.items == map[] && p.capacityUsed == 0.0
    ensures p.itemsHandled == 0 && p.bundlesHandled == 0
  {
    Pod(id, capacity, None, false, None, map[], 0.0, 0, 0)
  }

  /** The stored count of `name`, 0 when the name is not a key. */
  function CountOf(items: map<string, int>, name: string): int
  {
    if name in items then items[name] else 0
  }

  /** Every stored count is positive. */
  predicate PositiveCounts(items: map<string, int>)
  {
    forall name :: name in items ==> items[name] > 0
  }

  /**
   * `add_item`: succeeds exactly when the weight fits in the remaining capacity;
   * on failure the pod is unchanged.
   */
  function AddItem(p: Pod, name: string, weight: real, count: int): (r: Change)
    ensures r.ok <==> p.capacityUsed + weight * count as real <= p.capacity
    ensures !r.ok ==> r.pod == p
    ensures r.ok ==> r.pod.capacityUsed <= r.pod.capacity
    ensures r.ok ==>
              && r.pod.items.Keys == p.items.Keys + {name}
              && r.pod.items[name] == CountOf(p.items, name) + count
              && (forall other :: other in p.items && other != name ==> r.pod.items[other] == p.items[other])
              && r.pod.capacityUsed == p.capacityUsed + weight * count as real
              && r.pod.bundlesHandled == p.bundlesHandled + 1
              && r.pod.(items := p.items, capacityUsed := p.capacityUsed, bundlesHandled := p.bundlesHandled) == p
  {
    if p.capacityUsed + weight * count as real <= p.capacity then
      var items := if name in p.items then p.items[name := p.items[name] + count] else p.items[name := count];
      Change(p.(items := items,
                capacityUsed := p.capacityUsed + weight * count as real,
                bundlesHandled := p.bundlesHandled + 1), true)
    else
      Change(p, false)
  }

  /**
   * `remove_item`: succeeds exactly when `name` is stored with at least `count`;
   * a count that drops to zero or below deletes the key. On failure the pod is unchanged.
   */
  function RemoveItem(p: Pod, name: string, weight: real, count: int): (r: Change)
    ensures r.ok <==> name in p.items && p.items[name] >= count
    ensures !r.ok ==> r.pod == p
    ensures r.ok ==>
              && (name in r.pod.items <==> p.items[name] - count > 0)
              && (name in r.pod.items ==> r.pod.items[name] == p.items[name] - count)
              && r.pod.items.Keys - {name} == p.items.Keys - {name}
              && (forall other :: other in p.items && other != name ==> other in r.pod.items && r.pod.items[other] == p.items[other])
              && r.pod.capacityUsed == p.capacityUsed - weight * count as real
              && r.pod.itemsHandled == p.itemsHandled + count
              && r.pod.(items := p.items, capacityUsed := p.capacityUsed, itemsHandled := p.itemsHandled) == p
  {
    if name in p.items && p.items[name] >= count then
      var left := p.items[name] - count;
      var items := if left <= 0 then p.items - {name} else p.items[name := left];
      Change(p.(items := items,
                capacityUsed := p.capacityUsed - weight * count as real,
                itemsHandled := p.itemsHandled + count), true)
    else
      Change(p, false)
  }

  /** `contains`: the name is a key with a positive count. */
  predicate Contains(p: Pod, name: string)
  {
    name in p.items && p.items[name] > 0
  }

  /** `get_capacity_utilization`: used capacity as a percentage, 0 for a non-positive capacity. */
  function CapacityUtilization(p: Pod): (u: real)
    ensures p.capacity <= 0.0 ==> u == 0.0
    ensures p.capacity > 0.0 && 0.0 <= p.capacityUsed <= p.capacity ==> 0.0 <= u <= 100.0
    ensures p.capacity > 0.0 ==> u * p.capacity == p.capacityUsed * 100.0
  {
    if p.capacity > 0.0 then
      var share := p.capacityUsed / p.capacity;
      assert share * p.capacity == p.capacityUsed;
      assert 0.0 <= p.capacityUsed <= p.capacity ==> 0.0 <= share <= 1.0;
      share * 100.0
    else 0.0
  }

  /** Where all counts are positive, `contains` is exactly key membership. */
  lemma ContainsIsKeyMembership(p: Pod, name: string)
    requires PositiveCounts(p.items)
    ensures Contains(p, name) <==> name in p.items
  {
  }

  /** Adding a positive count keeps every stored count positive. */
  lemma AddKeepsCountsPositive(p: Pod, name: string, weight: real, count: int)
    requires PositiveCounts(p.items) && count > 0
    ensures PositiveCounts(AddItem(p, name, weight, count).pod.items)
  {
  }

  /** Removing any count keeps every stored count positive: a key that reaches zero is deleted. */
  lemma RemoveKeepsCountsPositive(p: Pod, name: string, weight: real, count: int)
    requires PositiveCounts(p.items)
    ensures PositiveCounts(RemoveItem(p, name, weight, count).pod.items)
  {
  }

  /** A successful add followed by the matching remove restores the contents and the load. */
  lemma AddThenRemoveRestores(p: Pod, name: string, weight: real, count: int)
    requires PositiveCounts(p.items)
    requires AddItem(p, name, weight, count).ok
    ensures RemoveItem(AddItem(p, name, weight, count).pod, name, weight, count).ok
    ensures RemoveItem(AddItem(p, name, weight, count).pod, name, weight, count).pod.items == p.items
    ensures RemoveItem(AddItem(p, name, weight, count).pod, name, weight, count).pod.capacityUsed == p.capacityUsed
  {
    var added := AddItem(p, name, weight, count).pod;
    var back := RemoveItem(added, name, weight, count).pod;
    assert back.items.Keys == p.items.Keys;
  }

  /**
   * The item seeding of a new pod: `add_item(name)` (weight 1, count 1) for each name in
   * turn. A name that no longer fits is skipped.
   */
  function Stocked(p: Pod, names: seq<string>): Pod
    decreases |names|
  {
    if names == [] then p else AddItem(Stocked(p, names[..|names| - 1]), names[|names| - 1], 1.0, 1).pod
  }

  /**
   * Seeding only changes the contents: it never exceeds the capacity of a pod that was
   * within it, every stored count stays positive, and every key is an old key or a
   * seeded name.
   */
  lemma {:induction false} StockedKeeps(p: Pod, names: seq<string>)
    ensures Stocked(p, names).(items := p.items, capacityUsed := p.capacityUsed, bundlesHandled := p.bundlesHandled) == p
    ensures p.capacityUsed <= p.capacity ==> Stocked(p, names).capacityUsed <= p.capacity
    ensures PositiveCounts(p.items) ==> PositiveCounts(Stocked(p, names).items)
    ensures forall name :: name in Stocked(p, names).items ==> name in p.items || name in names
    decreases |names|
  {
    if names != [] {
      var init := names[..|names| - 1];
      var q := Stocked(p, init);
      StockedKeeps(p, init);
      if PositiveCounts(p.items) {
        AddKeepsCountsPositive(q, names[|names| - 1], 1.0, 1);
      }
      assert forall name :: name in init ==> name in names;
    }
  }

  /** Seeding one more name is one more `add_item`. */
  lemma StockedStep(p: Pod, names: seq<string>, j: nat)
    requires j < |names|
    ensures Stocked(p, names[..j + 1]) == AddItem(Stocked(p, names[..j]), names[j], 1.0, 1).pod
  {
    assert names[..j + 1][..j] == names[..j];
  }
}
