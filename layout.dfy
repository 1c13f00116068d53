/**
 * Layout: the integer arithmetic of the generated warehouse. Waypoints form a
 * `width` by `height` grid numbered row by row, each connected to its right, lower,
 * left and upper neighbour; stations sit at evenly spaced columns of the first and last
 * row; pod storage is a band of rows in the middle. The order in which pods and robots
 * are placed comes from an in-place shuffle whose random draws are supplied by the caller.
 */
module Layout {
  import opened Waypoints
  import opened Routes

  /** The id, and index, of the waypoint at column `x` of row `y`. */
  function GridId(width: nat, x: nat, y: nat): nat
  {
    y * width + x
  }

  predicate InGrid(width: nat, height: nat, x: int, y: int)
  {
    0 <= x < width && 0 <= y < height
  }

  lemma MulAtLeast(a: int, w: nat)
    requires a >= 1
    ensures a * w >= w
  {
  }

  lemma MulBelow(y: nat, width: nat, height: nat)
    requires y < height
    ensures y * width + width <= height * width
  {
    MulSucc(y, width);
    MulMonotone(y * width + width, y + 1, height, width);
  }

  /** The id of a grid position indexes a `width * height` table. */
  lemma GridIdBelow(width: nat, height: nat, x: int, y: int)
    requires InGrid(width, height, x, y)
    ensures GridId(width, x, y) < width * height
  {
    MulBelow(y, width, height);
  }

  /**
   * Row-by-row numbering: the id of a grid position is below `width * height`, and its
   * remainder and quotient by `width` give back its column and row.
   */
  lemma GridIdCoordinates(width: nat, height: nat, x: int, y: int)
    requires InGrid(width, height, x, y)
    ensures GridId(width, x, y) < width * height
    ensures GridId(width, x, y) % width == x && GridId(width, x, y) / width == y
  {
    var n := GridId(width, x, y);
    MulBelow(y, width, height);
    var q, r := n / width, n % width;
    assert n == q * width + r && 0 <= r < width;
    if q > y {
      MulAtLeast(q - y, width);
      assert false;
    } else if q < y {
      MulAtLeast(y - q, width);
      assert false;
    }
  }

  /** Distinct grid positions have distinct ids. */
  lemma GridIdInjective(width: nat, height: nat, x: int, y: int, x': int, y': int)
    requires InGrid(width, height, x, y) && InGrid(width, height, x', y')
    ensures GridId(width, x, y) == GridId(width, x', y') <==> x == x' && y == y'
  {
    GridIdCoordinates(width, height, x, y);
    GridIdCoordinates(width, height, x', y');
  }

  /** The neighbour to the right of `(x, y)`, when it is on the grid. */
  function Right(width: nat, height: nat, x: int, y: int): seq<nat>
    requires InGrid(width, height, x, y)
  {
    if x + 1 < width then [GridId(width, x + 1, y)] else []
  }

  /** The neighbour below `(x, y)`, when it is on the grid. */
  function Down(width: nat, height: nat, x: int, y: int): seq<nat>
    requires InGrid(width, height, x, y)
  {
    if y + 1 < height then [GridId(width, x, y + 1)] else []
  }

  /** The neighbour to the left of `(x, y)`, when it is on the grid. */
  function Left(width: nat, height: nat, x: int, y: int): seq<nat>
    requires InGrid(width, height, x, y)
  {
    if x > 0 then [GridId(width, x - 1, y)] else []
  }

  /** The neighbour above `(x, y)`, when it is on the grid. */
  function Up(width: nat, height: nat, x: int, y: int): seq<nat>
    requires InGrid(width, height, x, y)
  {
    if y > 0 then [GridId(width, x, y - 1)] else []
  }

  /**
   * The ids the connecting loop of `generate_layout` adds to the waypoint at `(x, y)`, in
   * its order: right, down, left, up, each only when that position is on the grid.
   */
  function GridNeighbours(width: nat, height: nat, x: int, y: int): (ns: seq<nat>)
    requires InGrid(width, height, x, y)
    ensures |ns| <= 4
  {
    Right(width, height, x, y) + Down(width, height, x, y) + Left(width, height, x, y) + Up(width, height, x, y)
  }

  /** The four directions in the connecting loop's order: right, down, left, up. */
  function Direction(width: nat, height: nat, x: int, y: int, i: nat): seq<nat>
    requires InGrid(width, height, x, y) && i < 4
  {
    if i == 0 then Right(width, height, x, y)
    else if i == 1 then Down(width, height, x, y)
    else if i == 2 then Left(width, height, x, y)
    else Up(width, height, x, y)
  }

  /** The column and row steps of direction `i`. */
  function StepX(i: nat): int { if i == 0 then 1 else if i == 2 then -1 else 0 }
  function StepY(i: nat): int { if i == 1 then 1 else if i == 3 then -1 else 0 }

  /** The neighbours in the first `i` directions. */
  function NeighbourPrefix(width: nat, height: nat, x: int, y: int, i: nat): seq<nat>
    requires InGrid(width, height, x, y) && i <= 4
  {
    if i == 0 then [] else NeighbourPrefix(width, height, x, y, i - 1) + Direction(width, height, x, y, i - 1)
  }

  /** All four directions make up the neighbours. */
  lemma NeighbourPrefixAll(width: nat, height: nat, x: int, y: int)
    requires InGrid(width, height, x, y)
    ensures NeighbourPrefix(width, height, x, y, 4) == GridNeighbours(width, height, x, y)
  {
    var r, d, l := Right(width, height, x, y), Down(width, height, x, y), Left(width, height, x, y);
    assert [] + r == r;
    assert NeighbourPrefix(width, height, x, y, 1) == r;
    assert NeighbourPrefix(width, height, x, y, 2) == r + d;
    assert NeighbourPrefix(width, height, x, y, 3) == r + d + l;
  }

  /**
   * Direction `i` holds the neighbour one step away in that direction, when it is on the
   * grid, and that neighbour is not among those of the directions before it.
   */
  lemma DirectionStep(width: nat, height: nat, x: int, y: int, i: nat)
    requires InGrid(width, height, x, y) && i < 4
    ensures Direction(width, height, x, y, i) ==
              if InGrid(width, height, x + StepX(i), y + StepY(i)) then [GridId(width, x + StepX(i), y + StepY(i))] else []
    ensures InGrid(width, height, x + StepX(i), y + StepY(i)) ==>
              GridId(width, x + StepX(i), y + StepY(i)) !in NeighbourPrefix(width, height, x, y, i)
  {
    assert NeighbourPrefix(width, height, x, y, 1) == Right(width, height, x, y);
    if x + 1 < width && y + 1 < height { GridIdInjective(width, height, x + 1, y, x, y + 1); }
    if x + 1 < width && x > 0 { GridIdInjective(width, height, x + 1, y, x - 1, y); }
    if x + 1 < width && y > 0 { GridIdInjective(width, height, x + 1, y, x, y - 1); }
    if y + 1 < height && x > 0 { GridIdInjective(width, height, x, y + 1, x - 1, y); }
    if y + 1 < height && y > 0 { GridIdInjective(width, height, x, y + 1, x, y - 1); }
    if x > 0 && y > 0 { GridIdInjective(width, height, x - 1, y, x, y - 1); }
  }

  /**
   * A grid position is listed among the neighbours of another exactly when the two are
   * one step apart, horizontally or vertically.
   */
  lemma GridAdjacency(width: nat, height: nat, x: int, y: int, x': int, y': int)
    requires InGrid(width, height, x, y) && InGrid(width, height, x', y')
    ensures GridId(width, x', y') in GridNeighbours(width, height, x, y) <==> Abs(x - x') + Abs(y - y') == 1
  {
    if x + 1 < width { GridIdInjective(width, height, x', y', x + 1, y); }
    if y + 1 < height { GridIdInjective(width, height, x', y', x, y + 1); }
    if x > 0 { GridIdInjective(width, height, x', y', x - 1, y); }
    if y > 0 { GridIdInjective(width, height, x', y', x, y - 1); }
  }

  /** Adjacency on the grid is symmetric. */
  lemma GridSymmetric(width: nat, height: nat, x: int, y: int, x': int, y': int)
    requires InGrid(width, height, x, y) && InGrid(width, height, x', y')
    ensures GridId(width, x', y') in GridNeighbours(width, height, x, y)
            <==> GridId(width, x, y) in GridNeighbours(width, height, x', y')
  {
    GridAdjacency(width, height, x, y, x', y');
    GridAdjacency(width, height, x', y', x, y);
  }

  /** The neighbours of a position are on the grid and listed once each. */
  lemma GridNeighboursDistinct(width: nat, height: nat, x: int, y: int)
    requires InGrid(width, height, x, y)
    ensures NoDuplicates(GridNeighbours(width, height, x, y))
    ensures forall i :: 0 <= i < |GridNeighbours(width, height, x, y)| ==> GridNeighbours(width, height, x, y)[i] < width * height
    ensures GridId(width, x, y) !in GridNeighbours(width, height, x, y)
  {
    var ns := GridNeighbours(width, height, x, y);
    forall i | 0 <= i < |ns|
      ensures ns[i] < width * height && ns[i] != GridId(width, x, y)
    {
      if x + 1 < width { GridIdCoordinates(width, height, x + 1, y); GridIdInjective(width, height, x, y, x + 1, y); }
      if y + 1 < height { GridIdCoordinates(width, height, x, y + 1); GridIdInjective(width, height, x, y, x, y + 1); }
      if x > 0 { GridIdCoordinates(width, height, x - 1, y); GridIdInjective(width, height, x, y, x - 1, y); }
      if y > 0 { GridIdCoordinates(width, height, x, y - 1); GridIdInjective(width, height, x, y, x, y - 1); }
    }
    forall i, j | 0 <= i < j < |ns|
      ensures ns[i] != ns[j]
    {
      if x + 1 < width && y + 1 < height { GridIdInjective(width, height, x + 1, y, x, y + 1); }
      if x + 1 < width && x > 0 { GridIdInjective(width, height, x + 1, y, x - 1, y); }
      if x + 1 < width && y > 0 { GridIdInjective(width, height, x + 1, y, x, y - 1); }
      if y + 1 < height && x > 0 { GridIdInjective(width, height, x, y + 1, x - 1, y); }
      if y + 1 < height && y > 0 { GridIdInjective(width, height, x, y + 1, x, y - 1); }
      if x > 0 && y > 0 { GridIdInjective(width, height, x - 1, y, x, y - 1); }
    }
  }

  // ---------------------------------------------------------------------------
  // Stations and storage

  /** The column of station `i` of `count`: the spacing `width // (count + 1)` times `i + 1`. */
  function StationColumn(width: nat, count: nat, i: nat): nat
  {
    (width / (count + 1)) * (i + 1)
  }

  /** On a grid with at least one column every station column lies on the grid. */
  lemma StationColumnInGrid(width: nat, count: nat, i: nat)
    requires i < count && width > 0
    ensures 0 <= StationColumn(width, count, i) < width
  {
    var s := width / (count + 1);
    assert StationColumn(width, count, i) == s * (i + 1);
    assert s * (count + 1) <= width;
    MulLess(s, i + 1, count + 1);
  }

  lemma MulLess(s: nat, a: nat, b: nat)
    requires a < b
    ensures s * a + s <= s * b
  {
    MulSucc(a, s);
    MulMonotone((a + 1) * s, a + 1, b, s);
  }

  /** The first row of the storage band: `height // 2 - rows // 2`. */
  function StorageStart(height: nat, rows: nat): int
  {
    height / 2 - rows / 2
  }

  /** A storage band no taller than the grid lies within its rows. */
  lemma StorageBandInGrid(height: nat, rows: nat)
    requires rows <= height
    ensures 0 <= StorageStart(height, rows) && StorageStart(height, rows) + rows <= height
  {
  }

  /** The storage columns: from 2 up to `width - 2`, skipping multiples of 3 (the aisles). */
  predicate StorageColumn(width: nat, x: int)
  {
    2 <= x < width - 2 && x % 3 != 0
  }

  // ---------------------------------------------------------------------------
  // random.shuffle

  /** The `k`-th random draw reduced below `bound`; a missing draw counts as 0. */
  function Draw(draws: seq<nat>, k: nat, bound: nat): (j: nat)
    requires bound > 0
    ensures j < bound
  {
    if k < |draws| then draws[k] % bound else 0
  }

  /** `s` with the elements at `i` and `j` exchanged. */
  function Swap(s: seq<nat>, i: nat, j: nat): (r: seq<nat>)
    requires i < |s| && j < |s|
  {
    s[i := s[j]][j := s[i]]
  }

  /** The steps of `random.shuffle` for `i`, `i - 1`, ..., 1: swap `s[i]` with the element at a draw in `0 ..= i`. */
  function ShuffleFrom(s: seq<nat>, draws: seq<nat>, i: int): (r: seq<nat>)
    requires i < |s|
    ensures |r| == |s|
    decreases i
  {
    if i < 1 then s else ShuffleFrom(Swap(s, i, Draw(draws, |s| - 1 - i, i + 1)), draws, i - 1)
  }

  /** `random.shuffle(s)` with the given draws. */
  function Shuffled(s: seq<nat>, draws: seq<nat>): (r: seq<nat>)
    ensures |r| == |s|
  {
    ShuffleFrom(s, draws, |s| - 1)
  }

  /** Every step of the shuffle is a swap, so the result is a permutation. */
  lemma {:induction false} ShuffleFromPermutes(s: seq<nat>, draws: seq<nat>, i: int)
    requires i < |s|
    ensures multiset(ShuffleFrom(s, draws, i)) == multiset(s)
    decreases i
  {
    if i >= 1 {
      var j := Draw(draws, |s| - 1 - i, i + 1);
      var t := Swap(s, i, j);
      assert multiset(t) == multiset(s);
      ShuffleFromPermutes(t, draws, i - 1);
    }
  }

  /** A shuffle keeps the elements of a sequence without duplicates, and keeps it without duplicates. */
  lemma ShuffledPermutes(s: seq<nat>, draws: seq<nat>)
    ensures multiset(Shuffled(s, draws)) == multiset(s)
    ensures forall v :: v in Shuffled(s, draws) <==> v in s
    ensures NoDuplicates(s) ==> NoDuplicates(Shuffled(s, draws))
  {
    var r := Shuffled(s, draws);
    ShuffleFromPermutes(s, draws, |s| - 1);
    assert forall v :: v in r <==> v in multiset(r);
    assert forall v :: v in s <==> v in multiset(s);
    if NoDuplicates(s) {
      PermutationKeepsDistinct(s, r);
    }
  }

  /**
   * `random.shuffle` on an array: for `i` from the last index down to 1, swap `a[i]` with
   * `a[j]` for a draw `j` in `0 ..= i`.
   */
  method Shuffle(a: array<nat>, draws: seq<nat>)
    modifies a
    ensures a[..] == Shuffled(old(a[..]), draws)
  {
    var i := a.Length - 1;
    while i >= 1
      invariant -1 <= i < a.Length || a.Length == 0
      invariant i < a.Length && ShuffleFrom(a[..], draws, i) == Shuffled(old(a[..]), draws)
      decreases i
    {
      var j := Draw(draws, a.Length - 1 - i, i + 1);
      assert a[..][i := a[j]][j := a[i]] == Swap(a[..], i, j);
      a[i], a[j] := a[j], a[i];
      i := i - 1;
    }
  }

  /** A permutation of a sequence without duplicates has none either. */
  lemma PermutationKeepsDistinct(s: seq<nat>, t: seq<nat>)
    requires multiset(s) == multiset(t) && NoDuplicates(s)
    ensures NoDuplicates(t)
  {
    forall i, j | 0 <= i < j < |t|
      ensures t[i] != t[j]
    {
      if t[i] == t[j] {
        var v := t[i];
        calc {
          multiset(t)[v];
        >= { assert multiset([t[i], t[j]]) <= multiset(t) by { TwoInMultiset(t, i, j); } }
          2;
        }
        AtMostOnce(s, v);
        assert false;
      }
    }
  }

  lemma TwoInMultiset(t: seq<nat>, i: nat, j: nat)
    requires 0 <= i < j < |t|
    ensures multiset([t[i], t[j]]) <= multiset(t)
  {
    assert t == t[..i] + [t[i]] + t[i + 1..j] + [t[j]] + t[j + 1..];
  }

  /** In a sequence without duplicates every value occurs at most once. */
  lemma {:induction false} AtMostOnce(s: seq<nat>, v: nat)
    requires NoDuplicates(s)
    ensures multiset(s)[v] <= 1
    decreases |s|
  {
    if |s| > 0 {
      assert s == [s[0]] + s[1..];
      assert NoDuplicates(s[1..]);
      AtMostOnce(s[1..], v);
      if s[0] == v {
        assert v !in s[1..];
        assert multiset(s[1..])[v] == 0;
      }
    }
  }
}
