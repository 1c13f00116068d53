/**
 * Generation: the warehouse `generate_layout` builds from its configuration, as a value.
 * A `width` by `height` grid of waypoints numbered row by row, each linked to its grid
 * neighbours; input stations on the first row and output stations on the last, at evenly
 * spaced columns; a band of storage rows in the middle; pods on shuffled storage cells and
 * robots on shuffled free cells. The shuffles' draws and the item names seeded into each
 * pod are parameters.
 */
module Generation {
  import opened Wrappers
  import opened Waypoints
  import opened Pods
  import opened Routes
  import opened Bots
  import opened Layout
  import opened Ticks

  /**
   * The configuration `generate_layout` reads: the grid size, the station counts,
   * `pod_storage_rows` (5 when absent), and the pod and robot counts, capacity and speed.
   */
  datatype Config = Config(
    width: nat,
    height: nat,
    inputCount: nat,
    outputCount: nat,
    storageRows: Option<nat>,
    podCount: nat,
    podCapacity: real,
    robotCount: nat,
    robotSpeed: real)

  function StorageRows(c: Config): nat
  {
    if c.storageRows.Some? then c.storageRows.value else 5
  }

  function Min(a: nat, b: nat): nat
  {
    if a < b then a else b
  }

  // ---------------------------------------------------------------------------
  // The grid

  /** `waypoint_grid`: its keys are exactly the grid positions, each mapped to its id. */
  ghost predicate GridMap(grid: map<(int, int), nat>, width: nat, height: nat)
  {
    && (forall x, y :: (x, y) in grid <==> InGrid(width, height, x, y))
    && (forall x, y :: (x, y) in grid ==> grid[(x, y)] == GridId(width, x, y))
  }

  /** Every waypoint the grid map names is one of the sites. */
  lemma GridMapBelowSites(grid: map<(int, int), nat>, c: Config)
    requires GridMap(grid, c.width, c.height)
    ensures forall key :: key in grid ==> grid[key] < |Sites(c)|
  {
    GridMapIndexes(grid, c.width, c.height);
  }

  /** Ids and positions as the building loop assigns them: waypoint `k` stands at the grid position numbered `k`. */
  ghost predicate GridPositions(ws: seq<Waypoint>, width: nat, height: nat)
  {
    forall k :: 0 <= k < |ws| ==>
      ws[k].id == k && InGrid(width, height, ws[k].x, ws[k].y) && GridId(width, ws[k].x, ws[k].y) == k
  }

  /** The waypoints of the building loop: new waypoints at their grid positions. */
  ghost predicate FreshGrid(ws: seq<Waypoint>, width: nat, height: nat)
  {
    GridPositions(ws, width, height) && forall k :: 0 <= k < |ws| ==> ws[k] == NewWaypoint(k, ws[k].x, ws[k].y)
  }

  /** Every index of a `width * height` table is the id of a grid position. */
  lemma GridRow(width: nat, height: nat, k: nat)
    requires k < width * height
    ensures width > 0 && InGrid(width, height, k % width, k / width) && GridId(width, k % width, k / width) == k
  {
    var x, y := k % width, k / width;
    assert k == y * width + x;
    if y >= height {
      MulMonotone(height * width, height, y, width);
      assert false;
    }
  }

  /** Every neighbour recorded at distance 1. */
  function UnitDistances(ns: seq<nat>): map<nat, int>
  {
    map n | n in ns :: 1
  }

  /** The waypoint at `(x, y)` once connected: linked to its grid neighbours, each at distance 1. */
  function GridCell(width: nat, height: nat, x: int, y: int): Waypoint
    requires InGrid(width, height, x, y)
  {
    var ns := GridNeighbours(width, height, x, y);
    NewWaypoint(GridId(width, x, y), x, y).(paths := ns, pathDistances := UnitDistances(ns))
  }

  function GridCellAt(width: nat, height: nat, k: nat): Waypoint
    requires k < width * height
  {
    GridRow(width, height, k);
    GridCell(width, height, k % width, k / width)
  }

  /** The waypoint table after the building and the connecting loop. */
  function GridWaypoints(width: nat, height: nat): (ws: seq<Waypoint>)
    ensures |ws| == width * height
  {
    seq(width * height, k requires 0 <= k < width * height => GridCellAt(width, height, k))
  }

  /** A waypoint with nothing placed on it: what the graph sees of it. */
  function Bare(w: Waypoint): Waypoint
  {
    w.(pod := None, inputStation := None, outputStation := None, podStorageLocation := false)
  }

  /**
   * The table's graph is the grid: waypoint `k` stands at the grid position numbered `k`
   * and has the id, edges and distances of that cell.
   */
  ghost predicate GridGraph(ws: seq<Waypoint>, width: nat, height: nat)
  {
    && |ws| == width * height
    && forall k :: 0 <= k < |ws| ==>
         && InGrid(width, height, ws[k].x, ws[k].y) && GridId(width, ws[k].x, ws[k].y) == k
         && Bare(ws[k]) == GridCell(width, height, ws[k].x, ws[k].y)
  }

  /** The connected grid is the grid graph, with nothing placed on it yet. */
  lemma GridWaypointsShape(width: nat, height: nat)
    ensures GridGraph(GridWaypoints(width, height), width, height)
    ensures forall k :: 0 <= k < width * height ==> Bare(GridWaypoints(width, height)[k]) == GridWaypoints(width, height)[k]
  {
    var ws := GridWaypoints(width, height);
    forall k | 0 <= k < |ws|
      ensures InGrid(width, height, ws[k].x, ws[k].y) && GridId(width, ws[k].x, ws[k].y) == k
      ensures Bare(ws[k]) == ws[k] == GridCell(width, height, ws[k].x, ws[k].y)
    {
      GridRow(width, height, k);
    }
  }

  /** The grid's ids index the table. */
  lemma GridMapIndexes(grid: map<(int, int), nat>, width: nat, height: nat)
    requires GridMap(grid, width, height)
    ensures forall key :: key in grid ==> grid[key] < width * height
  {
    forall key | key in grid
      ensures grid[key] < width * height
    {
      var (x, y) := key;
      GridIdBelow(width, height, x, y);
    }
  }

  /** `w` linked to its first `i` grid neighbours. */
  function Linked(w: Waypoint, width: nat, height: nat, i: nat): Waypoint
    requires InGrid(width, height, w.x, w.y) && i <= 4
  {
    var ns := NeighbourPrefix(width, height, w.x, w.y, i);
    w.(paths := ns, pathDistances := UnitDistances(ns))
  }

  /** A waypoint one step away in direction `i` is at distance 1. */
  lemma StepDistance(a: Waypoint, b: Waypoint, i: nat)
    requires i < 4 && b.x == a.x + StepX(i) && b.y == a.y + StepY(i)
    ensures SqDistance(a, b) == 1
  {
    if i == 0 { assert SqDistance(a, b) == (-1) * (-1) + 0 * 0; }
    else if i == 1 { assert SqDistance(a, b) == 0 * 0 + (-1) * (-1); }
    else if i == 2 { assert SqDistance(a, b) == 1 * 1 + 0 * 0; }
    else { assert SqDistance(a, b) == 0 * 0 + 1 * 1; }
  }

  /**
   * Linking in direction `i` adds the neighbour in that direction at distance 1 when it is on
   * the grid, and does nothing otherwise.
   */
  lemma LinkStep(w: Waypoint, ws: seq<Waypoint>, grid: map<(int, int), nat>, width: nat, height: nat, i: nat, x': int, y': int)
    requires |ws| == width * height && GridPositions(ws, width, height) && GridMap(grid, width, height)
    requires InGrid(width, height, w.x, w.y) && i < 4 && x' == w.x + StepX(i) && y' == w.y + StepY(i)
    ensures (x', y') in grid ==>
              grid[(x', y')] < |ws| && AddPath(Linked(w, width, height, i), ws[grid[(x', y')]]) == Linked(w, width, height, i + 1)
    ensures (x', y') !in grid ==> Linked(w, width, height, i) == Linked(w, width, height, i + 1)
  {
    DirectionStep(width, height, w.x, w.y, i);
    var ns := NeighbourPrefix(width, height, w.x, w.y, i);
    assert NeighbourPrefix(width, height, w.x, w.y, i + 1) == ns + Direction(width, height, w.x, w.y, i);
    if InGrid(width, height, x', y') {
      var r := GridId(width, x', y');
      GridIdBelow(width, height, x', y');
      assert grid[(x', y')] == r;
      GridIdInjective(width, height, ws[r].x, ws[r].y, x', y');
      StepDistance(Linked(w, width, height, i), ws[r], i);
      AddNeighbour(Linked(w, width, height, i), ws[r], ns);
    } else {
      assert ns + [] == ns;
    }
  }

  /** Adding a new neighbour at distance 1 to a waypoint whose neighbours are all at distance 1. */
  lemma AddNeighbour(w: Waypoint, other: Waypoint, ns: seq<nat>)
    requires w.paths == ns && w.pathDistances == UnitDistances(ns)
    requires other.id !in ns && SqDistance(w, other) == 1
    ensures AddPath(w, other) == w.(paths := ns + [other.id], pathDistances := UnitDistances(ns + [other.id]))
  {
    assert UnitDistances(ns + [other.id]) == UnitDistances(ns)[other.id := 1];
  }

  /**
   * A new waypoint at a grid position, linked in all four directions, is the connected grid
   * cell there; linked in none, it is unchanged.
   */
  lemma LinkedCell(w: Waypoint, width: nat, height: nat)
    requires InGrid(width, height, w.x, w.y) && w == NewWaypoint(GridId(width, w.x, w.y), w.x, w.y)
    ensures Linked(w, width, height, 0) == w
    ensures Linked(w, width, height, 4) == GridCell(width, height, w.x, w.y)
  {
    assert UnitDistances([]) == map[];
    NeighbourPrefixAll(width, height, w.x, w.y);
  }

  /** A table of connected cells, each at the position of its index, is the connected grid. */
  lemma ConnectedGrid(ws: seq<Waypoint>, width: nat, height: nat)
    requires |ws| == width * height && GridPositions(ws, width, height)
    requires forall k :: 0 <= k < |ws| ==> ws[k] == GridCell(width, height, ws[k].x, ws[k].y)
    ensures ws == GridWaypoints(width, height)
  {
    forall k | 0 <= k < |ws|
      ensures ws[k] == GridWaypoints(width, height)[k]
    {
      GridIdCoordinates(width, height, ws[k].x, ws[k].y);
    }
  }

  /**
   * The grid graph can be searched: every edge leads to a waypoint of the table, and
   * distinct waypoints stand at distinct positions.
   */
  lemma GridGraphReady(ws: seq<Waypoint>, pods: seq<Pod>, width: nat, height: nat)
    requires GridGraph(ws, width, height)
    requires forall w :: 0 <= w < |ws| && ws[w].pod.Some? ==> ws[w].pod.value < |pods|
    ensures GraphReady(ws, pods)
  {
    forall v, u | 0 <= v < |ws| && u in ws[v].paths
      ensures u < |ws|
    {
      assert ws[v].paths == GridCell(width, height, ws[v].x, ws[v].y).paths;
      GridNeighboursDistinct(width, height, ws[v].x, ws[v].y);
    }
    forall v, u | 0 <= v < |ws| && u in ws[v].paths && u != v
      ensures u < |ws| && SqDistance(ws[v], ws[u]) > 0
    {
      assert GridId(width, ws[u].x, ws[u].y) != GridId(width, ws[v].x, ws[v].y);
    }
  }

  /**
   * The grid graph is 4-connected: a waypoint's edges go exactly to the waypoints one step
   * away horizontally or vertically, each listed once and at distance 1, never to itself.
   */
  lemma GridGraphEdges(ws: seq<Waypoint>, width: nat, height: nat, v: nat)
    requires GridGraph(ws, width, height) && v < |ws|
    ensures |ws[v].paths| <= 4 && NoDuplicates(ws[v].paths) && v !in ws[v].paths
    ensures forall u :: u in ws[v].paths <==> 0 <= u < |ws| && Abs(ws[v].x - ws[u].x) + Abs(ws[v].y - ws[u].y) == 1
    ensures forall u :: u in ws[v].paths ==> u in ws[v].pathDistances && ws[v].pathDistances[u] == 1
  {
    var c := GridCell(width, height, ws[v].x, ws[v].y);
    assert ws[v].paths == c.paths && ws[v].pathDistances == c.pathDistances;
    GridNeighboursDistinct(width, height, ws[v].x, ws[v].y);
    forall u
      ensures u in ws[v].paths <==> 0 <= u < |ws| && Abs(ws[v].x - ws[u].x) + Abs(ws[v].y - ws[u].y) == 1
    {
      if 0 <= u < |ws| {
        GridAdjacency(width, height, ws[v].x, ws[v].y, ws[u].x, ws[u].y);
      } else {
        assert u !in ws[v].paths;
      }
    }
  }

  /** Edges of the grid graph go both ways. */
  lemma GridGraphSymmetric(ws: seq<Waypoint>, width: nat, height: nat, v: nat, u: nat)
    requires GridGraph(ws, width, height) && v < |ws| && u < |ws|
    ensures u in ws[v].paths <==> v in ws[u].paths
  {
    assert ws[v].paths == GridCell(width, height, ws[v].x, ws[v].y).paths;
    assert ws[u].paths == GridCell(width, height, ws[u].x, ws[u].y).paths;
    GridSymmetric(width, height, ws[v].x, ws[v].y, ws[u].x, ws[u].y);
  }

  /** Placing things on waypoints keeps the grid graph. */
  lemma BareKeepsGrid(ws: seq<Waypoint>, ws': seq<Waypoint>, width: nat, height: nat)
    requires GridGraph(ws, width, height) && |ws'| == |ws|
    requires forall k :: 0 <= k < |ws| ==> Bare(ws'[k]) == Bare(ws[k])
    ensures GridGraph(ws', width, height)
  {
  }

  // ---------------------------------------------------------------------------
  // Stations

  /** The stations of one row: station `i` of `count` at column `StationColumn(width, count, i)`. */
  function StationsOnRow(width: nat, count: nat, y: nat): seq<Station>
  {
    seq(count, i requires 0 <= i < count => Station(i, GridId(width, StationColumn(width, count, i), y)))
  }

  function StationCells(stations: seq<Station>): seq<nat>
  {
    seq(|stations|, i requires 0 <= i < |stations| => stations[i].waypoint)
  }

  /** The last index at which `v` occurs in `s`, if any. */
  function LastIndex(s: seq<nat>, v: nat): (r: Option<nat>)
    ensures r.Some? ==> r.value < |s| && s[r.value] == v && forall j :: r.value < j < |s| ==> s[j] != v
    ensures r.None? <==> v !in s
  {
    if s == [] then None
    else if s[|s| - 1] == v then Some(|s| - 1)
    else
      var r := LastIndex(s[..|s| - 1], v);
      assert s == s[..|s| - 1] + [s[|s| - 1]];
      r
  }

  /** In a sequence without duplicates the last index of an element is its only one. */
  lemma LastIndexDistinct(s: seq<nat>, i: nat)
    requires NoDuplicates(s) && i < |s|
    ensures LastIndex(s, s[i]) == Some(i)
  {
  }

  /** `wp.input_station = station`, or `wp.output_station = station`. */
  function WithStation(w: Waypoint, input: bool, i: nat): Waypoint
  {
    if input then w.(inputStation := Some(i)) else w.(outputStation := Some(i))
  }

  /** `wp.input_station`, or `wp.output_station`. */
  function StationOf(w: Waypoint, input: bool): Option<nat>
  {
    if input then w.inputStation else w.outputStation
  }

  /** The waypoints after a station loop: each refers to the last station placed on it. */
  function Stationed(ws: seq<Waypoint>, stations: seq<Station>, input: bool): (r: seq<Waypoint>)
    ensures |r| == |ws|
    ensures forall w :: 0 <= w < |ws| ==> Bare(r[w]) == Bare(ws[w]) && r[w].pod == ws[w].pod
    ensures forall w :: 0 <= w < |ws| ==> r[w].podStorageLocation == ws[w].podStorageLocation
    ensures forall w :: 0 <= w < |ws| ==> StationOf(r[w], !input) == StationOf(ws[w], !input)
    ensures forall w :: 0 <= w < |ws| ==>
              StationOf(r[w], input) ==
                var i := LastIndex(StationCells(stations), w);
                if i.Some? then Some(stations[i.value].id) else StationOf(ws[w], input)
  {
    seq(|ws|, w requires 0 <= w < |ws| =>
      var i := LastIndex(StationCells(stations), w);
      if i.Some? then WithStation(ws[w], input, stations[i.value].id) else ws[w])
  }

  /** One more station: its waypoint now refers to it, and nothing else changes. */
  lemma StationedExtend(ws: seq<Waypoint>, stations: seq<Station>, st: Station, input: bool)
    requires st.waypoint < |ws|
    ensures var s := Stationed(ws, stations, input);
            Stationed(ws, stations + [st], input) == s[st.waypoint := WithStation(s[st.waypoint], input, st.id)]
  {
    var cells, cells' := StationCells(stations), StationCells(stations + [st]);
    assert cells'[..|cells|] == cells;
    var s, s' := Stationed(ws, stations, input), Stationed(ws, stations + [st], input);
    forall w | 0 <= w < |ws|
      ensures s'[w] == s[st.waypoint := WithStation(s[st.waypoint], input, st.id)][w]
    {
      if w != st.waypoint {
        assert LastIndex(cells', w) == LastIndex(cells, w);
      }
    }
  }

  /** On a grid, every station of a row stands on a waypoint of that row at its station column. */
  lemma StationsOnRowInGrid(width: nat, height: nat, count: nat, y: nat)
    requires y < height && width > 0
    ensures StationsIndexed(StationsOnRow(width, count, y), width * height)
    ensures forall i :: 0 <= i < count ==>
              var w := StationsOnRow(width, count, y)[i].waypoint;
              w % width == StationColumn(width, count, i) && w / width == y
  {
    forall i | 0 <= i < count
      ensures GridId(width, StationColumn(width, count, i), y) < width * height
      ensures GridId(width, StationColumn(width, count, i), y) % width == StationColumn(width, count, i)
      ensures GridId(width, StationColumn(width, count, i), y) / width == y
    {
      StationColumnInGrid(width, count, i);
      GridIdCoordinates(width, height, StationColumn(width, count, i), y);
    }
  }

  /** With a positive spacing the stations of a row stand on distinct waypoints. */
  lemma SpacedStationsDistinct(width: nat, height: nat, count: nat, y: nat)
    requires y < height && width / (count + 1) > 0
    ensures NoDuplicates(StationCells(StationsOnRow(width, count, y)))
  {
    var cells := StationCells(StationsOnRow(width, count, y));
    forall i, j | 0 <= i < j < |cells|
      ensures cells[i] != cells[j]
    {
      var s := width / (count + 1);
      StationColumnInGrid(width, count, i);
      StationColumnInGrid(width, count, j);
      MulLess(s, i + 1, j + 1);
      GridIdInjective(width, height, StationColumn(width, count, i), y, StationColumn(width, count, j), y);
    }
  }

  // ---------------------------------------------------------------------------
  // Storage

  /** The storage cells: the storage columns of the band of `rows` rows from `StorageStart`. */
  predicate InStorage(width: nat, height: nat, rows: nat, x: int, y: int)
  {
    StorageColumn(width, x) && StorageStart(height, rows) <= y < StorageStart(height, rows) + rows
  }

  /** The waypoints after the storage loop: the storage cells are marked. */
  function Stored(ws: seq<Waypoint>, width: nat, height: nat, rows: nat): (r: seq<Waypoint>)
    ensures |r| == |ws|
    ensures forall w :: 0 <= w < |ws| ==> Bare(r[w]) == Bare(ws[w]) && r[w].pod == ws[w].pod
    ensures forall w :: 0 <= w < |ws| ==> r[w].inputStation == ws[w].inputStation && r[w].outputStation == ws[w].outputStation
  {
    seq(|ws|, w requires 0 <= w < |ws| =>
      ws[w].(podStorageLocation := ws[w].podStorageLocation || InStorage(width, height, rows, ws[w].x, ws[w].y)))
  }

  /**
   * The `KeyError` of the storage loop, if any: the loop visits the band's rows from the top,
   * each from column 2, which is a storage column whenever there is one, so it fails at the
   * first row of the band that is off the grid.
   */
  function StorageFault(width: nat, height: nat, rows: nat): (e: Option<Error>)
    ensures e.Some? <==> (exists x :: StorageColumn(width, x)) && rows > 0 &&
                         !(0 <= StorageStart(height, rows) && StorageStart(height, rows) + rows <= height)
  {
    var start := StorageStart(height, rows);
    assert width >= 5 ==> StorageColumn(width, 2);
    if width < 5 then None
    else if start < 0 then Some(GridKeyMissing(2, start))
    else if start + rows > height then Some(GridKeyMissing(2, height))
    else None
  }

  // ---------------------------------------------------------------------------
  // Pods and robots

  /** The waypoints of a kind, for the two comprehensions of `generate_layout`. */
  datatype CellKind = StorageCell | FreeCell

  /** `wp.pod_storage_location`, or `not wp.pod and not wp.input_station and not wp.output_station`. */
  predicate Selected(w: Waypoint, kind: CellKind)
  {
    match kind
    case StorageCell => w.podStorageLocation
    case FreeCell => !IsOccupied(w)
  }

  /** The indices of the selected waypoints among the first `n`, in table order. */
  function Cells(ws: seq<Waypoint>, kind: CellKind, n: nat): (r: seq<nat>)
    requires n <= |ws|
    ensures forall i :: 0 <= i < |r| ==> r[i] < n && Selected(ws[r[i]], kind)
    ensures forall i, j :: 0 <= i < j < |r| ==> r[i] < r[j]
    ensures forall w :: 0 <= w < n && Selected(ws[w], kind) ==> w in r
  {
    if n == 0 then []
    else
      var rest := Cells(ws, kind, n - 1);
      if Selected(ws[n - 1], kind) then rest + [n - 1] else rest
  }

  /** The item names seeded into pod `i`. */
  function ItemsFor(items: seq<seq<string>>, i: nat): seq<string>
  {
    if i < |items| then items[i] else []
  }

  /** The waypoints after the pod loop: `placed[i]` holds pod `i`. */
  function Podded(ws: seq<Waypoint>, placed: seq<nat>): (r: seq<Waypoint>)
    ensures |r| == |ws|
    ensures forall w :: 0 <= w < |ws| ==> Bare(r[w]) == Bare(ws[w])
    ensures forall w :: 0 <= w < |ws| ==> r[w].(pod := ws[w].pod) == ws[w]
    ensures forall w :: 0 <= w < |ws| && w in placed ==>
              r[w].pod.Some? && r[w].pod.value < |placed| && placed[r[w].pod.value] == w
    ensures forall w :: 0 <= w < |ws| && w !in placed ==> r[w].pod == ws[w].pod
  {
    seq(|ws|, w requires 0 <= w < |ws| =>
      var i := LastIndex(placed, w);
      if i.Some? then ws[w].(pod := i) else ws[w])
  }

  /** The pod table: pod `i` of the given capacity, at `placed[i]`, seeded with its item names. */
  function NewPods(placed: seq<nat>, capacity: real, items: seq<seq<string>>): seq<Pod>
  {
    seq(|placed|, i requires 0 <= i < |placed| =>
      Stocked(NewPod(i, capacity).(waypoint := Some(placed[i])), ItemsFor(items, i)))
  }

  /** The bot table: bot `i` of the given speed, at `spots[i]`. */
  function NewBots(spots: seq<nat>, speed: real): seq<Bot>
  {
    seq(|spots|, i requires 0 <= i < |spots| => NewBot(i, speed).(currentWaypoint := Some(spots[i])))
  }

  // ---------------------------------------------------------------------------
  // generate_layout

  /** The input stations, on the first row. */
  function Inputs(c: Config): seq<Station>
  {
    StationsOnRow(c.width, c.inputCount, 0)
  }

  /** The output stations, on the last row. */
  function Outputs(c: Config): seq<Station>
  {
    if c.height == 0 then [] else StationsOnRow(c.width, c.outputCount, c.height - 1)
  }

  /** The grid with its stations and storage cells, before any pod is placed. */
  function Sites(c: Config): (ws: seq<Waypoint>)
    ensures |ws| == c.width * c.height
  {
    Stored(Stationed(Stationed(GridWaypoints(c.width, c.height), Inputs(c), true), Outputs(c), false),
           c.width, c.height, StorageRows(c))
  }

  /** The storage cells that receive pods, in placement order. */
  function PodSpots(c: Config, podDraws: seq<nat>): seq<nat>
  {
    var cells := Shuffled(Cells(Sites(c), StorageCell, |Sites(c)|), podDraws);
    cells[..Min(c.podCount, |cells|)]
  }

  /** The free waypoints that receive robots, in placement order. */
  function BotSpots(ws: seq<Waypoint>, c: Config, botDraws: seq<nat>): seq<nat>
  {
    var cells := Shuffled(Cells(ws, FreeCell, |ws|), botDraws);
    cells[..Min(c.robotCount, |cells|)]
  }

  /** What `generate_layout` builds: the `KeyError` it raises, or the floor and the stations. */
  datatype Generated = Failed(error: Error) | Built(floor: Floor, inputs: seq<Station>, outputs: seq<Station>)

  /**
   * `generate_layout` on a new instance. The station loops look up `(x, 0)` and
   * `(x, height - 1)`, which are missing exactly when the grid is empty; the storage loop
   * fails at `StorageFault`.
   */
  function Generate(c: Config, items: seq<seq<string>>, podDraws: seq<nat>, botDraws: seq<nat>): Generated
  {
    var empty := c.width == 0 || c.height == 0;
    if c.inputCount > 0 && empty then Failed(GridKeyMissing(StationColumn(c.width, c.inputCount, 0), 0))
    else if c.outputCount > 0 && empty then Failed(GridKeyMissing(StationColumn(c.width, c.outputCount, 0), c.height - 1))
    else if StorageFault(c.width, c.height, StorageRows(c)).Some? then Failed(StorageFault(c.width, c.height, StorageRows(c)).value)
    else
      var placed := PodSpots(c, podDraws);
      var ws := Podded(Sites(c), placed);
      Built(Floor(ws, NewPods(placed, c.podCapacity, items), NewBots(BotSpots(ws, c, botDraws), c.robotSpeed)),
            Inputs(c), Outputs(c))
  }

  /**
   * Generation fails exactly when a station needs a grid that is empty, or when there are
   * storage columns and the storage band reaches beyond the grid's rows.
   */
  lemma GenerateFails(c: Config, items: seq<seq<string>>, podDraws: seq<nat>, botDraws: seq<nat>)
    ensures Generate(c, items, podDraws, botDraws).Failed? <==>
              || ((c.inputCount > 0 || c.outputCount > 0) && (c.width == 0 || c.height == 0))
              || ((exists x :: StorageColumn(c.width, x)) && StorageRows(c) > 0 &&
                  !(0 <= StorageStart(c.height, StorageRows(c)) && StorageStart(c.height, StorageRows(c)) + StorageRows(c) <= c.height))
  {
  }

  /** What the stations and the storage loop place: station references and storage marks, no pods. */
  lemma SitesShape(c: Config)
    requires !(c.inputCount > 0 && (c.width == 0 || c.height == 0))
    requires !(c.outputCount > 0 && (c.width == 0 || c.height == 0))
    ensures GridGraph(Sites(c), c.width, c.height)
    ensures StationsIndexed(Inputs(c), |Sites(c)|) && StationsIndexed(Outputs(c), |Sites(c)|)
    ensures forall w :: 0 <= w < |Sites(c)| ==> Sites(c)[w].pod.None?
    ensures forall w :: 0 <= w < |Sites(c)| ==>
              (Sites(c)[w].podStorageLocation <==> InStorage(c.width, c.height, StorageRows(c), Sites(c)[w].x, Sites(c)[w].y))
    ensures forall w :: 0 <= w < |Sites(c)| ==>
              (Sites(c)[w].inputStation.Some? <==> w in StationCells(Inputs(c))) &&
              (Sites(c)[w].outputStation.Some? <==> w in StationCells(Outputs(c)))
  {
    var w, h := c.width, c.height;
    var ws0 := GridWaypoints(w, h);
    GridWaypointsShape(w, h);
    var ws1 := Stationed(ws0, Inputs(c), true);
    var ws2 := Stationed(ws1, Outputs(c), false);
    BareKeepsGrid(ws0, ws1, w, h);
    BareKeepsGrid(ws1, ws2, w, h);
    BareKeepsGrid(ws2, Sites(c), w, h);
    if w > 0 && h > 0 {
      StationsOnRowInGrid(w, h, c.inputCount, 0);
      StationsOnRowInGrid(w, h, c.outputCount, h - 1);
    }
    forall k | 0 <= k < |Sites(c)|
      ensures Sites(c)[k].pod.None?
      ensures Sites(c)[k].podStorageLocation <==> InStorage(w, h, StorageRows(c), Sites(c)[k].x, Sites(c)[k].y)
      ensures Sites(c)[k].inputStation.Some? <==> k in StationCells(Inputs(c))
      ensures Sites(c)[k].outputStation.Some? <==> k in StationCells(Outputs(c))
    {
      assert ws0[k] == Bare(ws0[k]);
    }
  }

  // ---------------------------------------------------------------------------
  // What generate_layout builds

  /**
   * The spots a shuffle-and-take loop fills: `count` of the cells, or all of them when there
   * are fewer, each cell at most once.
   */
  lemma SpotsShape(cells: seq<nat>, draws: seq<nat>, count: nat)
    requires forall i, j :: 0 <= i < j < |cells| ==> cells[i] < cells[j]
    ensures var spots := Shuffled(cells, draws)[..Min(count, |cells|)];
            && |spots| == Min(count, |cells|) && NoDuplicates(spots)
            && (forall v :: v in spots ==> v in cells)
            && (|spots| < count ==> forall v :: v in cells ==> v in spots)
  {
    var all := Shuffled(cells, draws);
    ShuffledPermutes(cells, draws);
    var spots := all[..Min(count, |cells|)];
    forall v | v in spots
      ensures v in cells
    {
      var i :| 0 <= i < |spots| && spots[i] == v;
      assert all[i] == v;
    }
    if |spots| < count {
      assert spots == all;
    }
  }

  /** Without duplicates, the waypoint of pod `i` holds pod `i`. */
  lemma PoddedAt(ws: seq<Waypoint>, placed: seq<nat>, i: nat)
    requires NoDuplicates(placed) && i < |placed| && placed[i] < |ws|
    ensures Podded(ws, placed)[placed[i]].pod == Some(i)
  {
    LastIndexDistinct(placed, i);
  }

  /** The pod table: pod `p` stands at `placed[p]`, is not in use and is seeded within its capacity. */
  lemma NewPodsShape(placed: seq<nat>, capacity: real, items: seq<seq<string>>)
    ensures |NewPods(placed, capacity, items)| == |placed|
    ensures forall p :: 0 <= p < |placed| ==>
              var pod := NewPods(placed, capacity, items)[p];
              && pod.id == p && pod.capacity == capacity && pod.waypoint == Some(placed[p])
              && !pod.inUse && pod.bot.None?
              && (capacity >= 0.0 ==> pod.capacityUsed <= capacity)
              && PositiveCounts(pod.items)
              && (forall name :: name in pod.items ==> name in ItemsFor(items, p))
  {
    forall p | 0 <= p < |placed|
      ensures var pod := NewPods(placed, capacity, items)[p];
              && pod.id == p && pod.capacity == capacity && pod.waypoint == Some(placed[p])
              && !pod.inUse && pod.bot.None?
              && (capacity >= 0.0 ==> pod.capacityUsed <= capacity)
              && PositiveCounts(pod.items)
              && (forall name :: name in pod.items ==> name in ItemsFor(items, p))
    {
      StockedKeeps(NewPod(p, capacity).(waypoint := Some(placed[p])), ItemsFor(items, p));
    }
  }

  /** The parts of a generated floor, when generation succeeds. */
  lemma GeneratedParts(c: Config, items: seq<seq<string>>, podDraws: seq<nat>, botDraws: seq<nat>)
    requires Generate(c, items, podDraws, botDraws).Built?
    ensures var g := Generate(c, items, podDraws, botDraws);
            var placed := PodSpots(c, podDraws);
            && g.floor.waypoints == Podded(Sites(c), placed)
            && g.floor.pods == NewPods(placed, c.podCapacity, items)
            && g.floor.bots == NewBots(BotSpots(g.floor.waypoints, c, botDraws), c.robotSpeed)
            && g.inputs == Inputs(c) && g.outputs == Outputs(c)
            && !(c.inputCount > 0 && (c.width == 0 || c.height == 0))
            && !(c.outputCount > 0 && (c.width == 0 || c.height == 0))
  {
  }

  /**
   * `spots` are distinct selected waypoints of `ws`: `count` of them, or all the selected
   * waypoints when there are fewer.
   */
  ghost predicate SpotsFill(ws: seq<Waypoint>, spots: seq<nat>, kind: CellKind, count: nat)
  {
    && |spots| <= count && NoDuplicates(spots)
    && (forall i :: 0 <= i < |spots| ==> spots[i] < |ws| && Selected(ws[spots[i]], kind))
    && (|spots| < count ==> forall w :: 0 <= w < |ws| && Selected(ws[w], kind) ==> w in spots)
  }

  /** The selected cells a shuffle-and-take loop fills. */
  lemma CellSpots(ws: seq<Waypoint>, kind: CellKind, draws: seq<nat>, count: nat)
    ensures var cells := Cells(ws, kind, |ws|);
            SpotsFill(ws, Shuffled(cells, draws)[..Min(count, |cells|)], kind, count)
  {
    var cells := Cells(ws, kind, |ws|);
    var spots := Shuffled(cells, draws)[..Min(count, |cells|)];
    SpotsShape(cells, draws, count);
    forall i | 0 <= i < |spots|
      ensures spots[i] < |ws| && Selected(ws[spots[i]], kind)
    {
      assert spots[i] in cells;
      var j :| 0 <= j < |cells| && cells[j] == spots[i];
    }
  }

  /** The pods go to distinct storage cells: `pod_count` of them, or all when there are fewer. */
  lemma PodSpotsShape(c: Config, podDraws: seq<nat>)
    ensures SpotsFill(Sites(c), PodSpots(c, podDraws), StorageCell, c.podCount)
  {
    CellSpots(Sites(c), StorageCell, podDraws, c.podCount);
  }

  /** The robots go to distinct free cells: `robot_count` of them, or all when there are fewer. */
  lemma BotSpotsShape(ws: seq<Waypoint>, c: Config, botDraws: seq<nat>)
    ensures SpotsFill(ws, BotSpots(ws, c, botDraws), FreeCell, c.robotCount)
  {
    CellSpots(ws, FreeCell, botDraws, c.robotCount);
  }

  /**
   * Pods placed on distinct waypoints of a grid without pods, and robots placed on
   * waypoints, make a well-formed floor.
   */
  lemma PlacedFloorValid(sites: seq<Waypoint>, width: nat, height: nat, placed: seq<nat>, capacity: real,
                         items: seq<seq<string>>, spots: seq<nat>, speed: real)
    requires GridGraph(sites, width, height) && forall w :: 0 <= w < |sites| ==> sites[w].pod.None?
    requires NoDuplicates(placed) && forall i :: 0 <= i < |placed| ==> placed[i] < |sites|
    requires forall i :: 0 <= i < |spots| ==> spots[i] < |sites|
    ensures var f := Floor(Podded(sites, placed), NewPods(placed, capacity, items), NewBots(spots, speed));
            && Indexed(f) && Consistent(f)
            && GraphReady(f.waypoints, f.pods)
            && GridGraph(f.waypoints, width, height)
  {
    var f := Floor(Podded(sites, placed), NewPods(placed, capacity, items), NewBots(spots, speed));
    PlacedFloorIndexed(sites, placed, capacity, items, spots, speed);
    NewPodsShape(placed, capacity, items);
    BareKeepsGrid(sites, f.waypoints, width, height);
    GridGraphReady(f.waypoints, f.pods, width, height);
  }

  /** The references of a floor with placed pods and robots are in range, and pods and waypoints agree. */
  lemma PlacedFloorIndexed(sites: seq<Waypoint>, placed: seq<nat>, capacity: real,
                           items: seq<seq<string>>, spots: seq<nat>, speed: real)
    requires forall w :: 0 <= w < |sites| ==> sites[w].pod.None?
    requires NoDuplicates(placed) && forall i :: 0 <= i < |placed| ==> placed[i] < |sites|
    requires forall i :: 0 <= i < |spots| ==> spots[i] < |sites|
    ensures var f := Floor(Podded(sites, placed), NewPods(placed, capacity, items), NewBots(spots, speed));
            Indexed(f) && PodsPlaced(f)
  {
    var f := Floor(Podded(sites, placed), NewPods(placed, capacity, items), NewBots(spots, speed));
    NewPodsShape(placed, capacity, items);
    assert Indexed(f);
    forall p | 0 <= p < |f.pods|
      ensures f.waypoints[f.pods[p].waypoint.value].pod == Some(p)
    {
      PoddedAt(sites, placed, p);
    }
  }

  /**
   * A generated floor is well formed: its references are in range, pods and waypoints refer
   * to each other, no pod is in use, every robot stands idle on a waypoint, and the graph
   * is the connected grid, ready for the path search.
   */
  lemma GeneratedValid(c: Config, items: seq<seq<string>>, podDraws: seq<nat>, botDraws: seq<nat>)
    requires Generate(c, items, podDraws, botDraws).Built?
    ensures var g := Generate(c, items, podDraws, botDraws);
            && Indexed(g.floor) && Consistent(g.floor)
            && GraphReady(g.floor.waypoints, g.floor.pods)
            && GridGraph(g.floor.waypoints, c.width, c.height)
            && StationsIndexed(g.inputs, |g.floor.waypoints|) && StationsIndexed(g.outputs, |g.floor.waypoints|)
  {
    var g := Generate(c, items, podDraws, botDraws);
    GeneratedParts(c, items, podDraws, botDraws);
    SitesShape(c);
    PodSpotsShape(c, podDraws);
    BotSpotsShape(g.floor.waypoints, c, botDraws);
    PlacedFloorValid(Sites(c), c.width, c.height, PodSpots(c, podDraws), c.podCapacity, items,
                     BotSpots(g.floor.waypoints, c, botDraws), c.robotSpeed);
  }

  /**
   * The pods as `generate_layout` leaves them: pod `p` is the `p`-th pod created, of the given
   * capacity, on a storage cell of its own; there are `count` of them, or one on every
   * storage cell when there are fewer cells; each is seeded within its capacity with
   * positive counts of the names given for it.
   */
  ghost predicate PodsStored(ws: seq<Waypoint>, pods: seq<Pod>, width: nat, height: nat, rows: nat, count: nat,
                             capacity: real, items: seq<seq<string>>)
  {
    && |pods| <= count
    && (forall p :: 0 <= p < |pods| ==>
          && pods[p].id == p && pods[p].capacity == capacity
          && pods[p].waypoint.Some? && pods[p].waypoint.value < |ws|
          && InStorage(width, height, rows, ws[pods[p].waypoint.value].x, ws[pods[p].waypoint.value].y)
          && (capacity >= 0.0 ==> pods[p].capacityUsed <= capacity)
          && PositiveCounts(pods[p].items)
          && (forall name :: name in pods[p].items ==> name in ItemsFor(items, p)))
    && (forall p, q :: 0 <= p < q < |pods| ==> pods[p].waypoint != pods[q].waypoint)
    && (|pods| < count ==>
          forall w :: 0 <= w < |ws| && InStorage(width, height, rows, ws[w].x, ws[w].y) ==> ws[w].pod.Some?)
  }

  /** Pods placed on distinct storage cells of a grid without pods. */
  lemma PlacedPods(sites: seq<Waypoint>, width: nat, height: nat, rows: nat, placed: seq<nat>, count: nat,
                   capacity: real, items: seq<seq<string>>)
    requires forall w :: 0 <= w < |sites| ==>
               sites[w].pod.None? && (sites[w].podStorageLocation <==> InStorage(width, height, rows, sites[w].x, sites[w].y))
    requires SpotsFill(sites, placed, StorageCell, count)
    ensures PodsStored(Podded(sites, placed), NewPods(placed, capacity, items), width, height, rows, count, capacity, items)
  {
    NewPodsShape(placed, capacity, items);
  }

  /** The pods of a generated floor are stored as configured. */
  lemma GeneratedPods(c: Config, items: seq<seq<string>>, podDraws: seq<nat>, botDraws: seq<nat>)
    requires Generate(c, items, podDraws, botDraws).Built?
    ensures var f := Generate(c, items, podDraws, botDraws).floor;
            PodsStored(f.waypoints, f.pods, c.width, c.height, StorageRows(c), c.podCount, c.podCapacity, items)
  {
    GeneratedParts(c, items, podDraws, botDraws);
    SitesShape(c);
    PodSpotsShape(c, podDraws);
    PlacedPods(Sites(c), c.width, c.height, StorageRows(c), PodSpots(c, podDraws), c.podCount, c.podCapacity, items);
  }

  /**
   * The robots as `generate_layout` leaves them: robot `b` is the `b`-th robot created, of
   * the given speed, idle on a free waypoint of its own; there are `count` of them, or one
   * on every free waypoint when there are fewer.
   */
  ghost predicate BotsSpawned(ws: seq<Waypoint>, bots: seq<Bot>, count: nat, speed: real)
  {
    && |bots| <= count
    && (forall b :: 0 <= b < |bots| ==>
          && bots[b].id == b && bots[b].speed == speed && bots[b].state == Idle
          && bots[b].currentWaypoint.Some? && bots[b].currentWaypoint.value < |ws|
          && !IsOccupied(ws[bots[b].currentWaypoint.value]))
    && (forall b, d :: 0 <= b < d < |bots| ==> bots[b].currentWaypoint != bots[d].currentWaypoint)
    && (|bots| < count ==>
          forall w :: 0 <= w < |ws| && !IsOccupied(ws[w]) ==>
            exists b :: 0 <= b < |bots| && bots[b].currentWaypoint == Some(w))
  }

  /** Robots placed on distinct free waypoints. */
  lemma PlacedBots(ws: seq<Waypoint>, spots: seq<nat>, count: nat, speed: real)
    requires SpotsFill(ws, spots, FreeCell, count)
    ensures BotsSpawned(ws, NewBots(spots, speed), count, speed)
  {
    var bots := NewBots(spots, speed);
    if |bots| < count {
      forall w | 0 <= w < |ws| && !IsOccupied(ws[w])
        ensures exists b :: 0 <= b < |bots| && bots[b].currentWaypoint == Some(w)
      {
        assert Selected(ws[w], FreeCell);
        var b :| 0 <= b < |spots| && spots[b] == w;
        assert bots[b].currentWaypoint == Some(w);
      }
    }
  }

  /** The robots of a generated floor are spawned as configured. */
  lemma GeneratedBots(c: Config, items: seq<seq<string>>, podDraws: seq<nat>, botDraws: seq<nat>)
    requires Generate(c, items, podDraws, botDraws).Built?
    ensures var f := Generate(c, items, podDraws, botDraws).floor;
            BotsSpawned(f.waypoints, f.bots, c.robotCount, c.robotSpeed)
  {
    var f := Generate(c, items, podDraws, botDraws).floor;
    GeneratedParts(c, items, podDraws, botDraws);
    BotSpotsShape(f.waypoints, c, botDraws);
    PlacedBots(f.waypoints, BotSpots(f.waypoints, c, botDraws), c.robotCount, c.robotSpeed);
  }

  /** Each waypoint refers to the last of `stations` placed on it, and to none if none is. */
  ghost predicate StationRefs(ws: seq<Waypoint>, stations: seq<Station>, input: bool)
  {
    forall w :: 0 <= w < |ws| ==>
      StationOf(ws[w], input) ==
        var i := LastIndex(StationCells(stations), w);
        if i.Some? then Some(stations[i.value].id) else None
  }

  /**
   * The stations as `generate_layout` leaves them: station `i` of `count` stands at column
   * `StationColumn(width, count, i)` of row `y` and its waypoint refers to a station, to
   * station `i` itself whenever the spacing is positive; no other waypoint refers to one.
   */
  ghost predicate StationsPlaced(ws: seq<Waypoint>, stations: seq<Station>, width: nat, count: nat, y: int, input: bool)
  {
    && |stations| == count
    && (forall i :: 0 <= i < count ==>
          && stations[i].id == i && stations[i].waypoint < |ws|
          && ws[stations[i].waypoint].x == StationColumn(width, count, i) && ws[stations[i].waypoint].y == y
          && StationOf(ws[stations[i].waypoint], input).Some?
          && (width / (count + 1) > 0 ==> StationOf(ws[stations[i].waypoint], input) == Some(i)))
    && (forall w :: 0 <= w < |ws| && StationOf(ws[w], input).Some? ==> w in StationCells(stations))
  }

  /** The station loops leave exactly their own references on the grid. */
  lemma SitesStations(c: Config)
    ensures StationRefs(Sites(c), Inputs(c), true) && StationRefs(Sites(c), Outputs(c), false)
  {
    var ws0 := GridWaypoints(c.width, c.height);
    GridWaypointsShape(c.width, c.height);
    var ws1 := Stationed(ws0, Inputs(c), true);
    var ws2 := Stationed(ws1, Outputs(c), false);
    forall w | 0 <= w < |ws0|
      ensures ws0[w].inputStation.None? && ws0[w].outputStation.None?
    {
      assert ws0[w] == Bare(ws0[w]);
    }
  }

  /** One row of stations on the grid graph, with the references the loop leaves. */
  lemma RowStations(ws: seq<Waypoint>, width: nat, height: nat, count: nat, y: nat, input: bool)
    requires GridGraph(ws, width, height) && StationRefs(ws, StationsOnRow(width, count, y), input)
    requires count > 0 ==> width > 0 && y < height
    ensures StationsPlaced(ws, StationsOnRow(width, count, y), width, count, y, input)
  {
    var stations := StationsOnRow(width, count, y);
    var cells := StationCells(stations);
    forall i | 0 <= i < count
      ensures stations[i].waypoint < |ws|
      ensures ws[stations[i].waypoint].x == StationColumn(width, count, i) && ws[stations[i].waypoint].y == y
      ensures StationOf(ws[stations[i].waypoint], input).Some?
      ensures width / (count + 1) > 0 ==> StationOf(ws[stations[i].waypoint], input) == Some(i)
    {
      var x := StationColumn(width, count, i);
      var w := stations[i].waypoint;
      StationColumnInGrid(width, count, i);
      GridIdBelow(width, height, x, y);
      GridIdInjective(width, height, ws[w].x, ws[w].y, x, y);
      assert cells[i] == w;
      if width / (count + 1) > 0 {
        SpacedStationsDistinct(width, height, count, y);
        LastIndexDistinct(cells, i);
      }
    }
    forall w | 0 <= w < |ws| && StationOf(ws[w], input).Some?
      ensures w in cells
    {
    }
  }

  /** Placing pods leaves the station references. */
  lemma PoddedKeepsStations(ws: seq<Waypoint>, placed: seq<nat>, stations: seq<Station>, input: bool)
    requires StationRefs(ws, stations, input)
    ensures StationRefs(Podded(ws, placed), stations, input)
  {
    var r := Podded(ws, placed);
    forall w | 0 <= w < |ws|
      ensures StationOf(r[w], input) == StationOf(ws[w], input)
    {
      assert r[w].(pod := ws[w].pod) == ws[w];
    }
  }

  /** The stations of a generated floor are placed as configured, inputs on the first row and outputs on the last. */
  lemma GeneratedStations(c: Config, items: seq<seq<string>>, podDraws: seq<nat>, botDraws: seq<nat>)
    requires Generate(c, items, podDraws, botDraws).Built?
    ensures var g := Generate(c, items, podDraws, botDraws);
            && StationsPlaced(g.floor.waypoints, g.inputs, c.width, c.inputCount, 0, true)
            && StationsPlaced(g.floor.waypoints, g.outputs, c.width, c.outputCount, c.height - 1, false)
  {
    var g := Generate(c, items, podDraws, botDraws);
    GeneratedValid(c, items, podDraws, botDraws);
    GeneratedParts(c, items, podDraws, botDraws);
    SitesStations(c);
    PoddedKeepsStations(Sites(c), PodSpots(c, podDraws), Inputs(c), true);
    PoddedKeepsStations(Sites(c), PodSpots(c, podDraws), Outputs(c), false);
    ConfiguredStations(g.floor.waypoints, c);
  }

  /** Both station rows of a configuration, on the grid graph. */
  lemma ConfiguredStations(ws: seq<Waypoint>, c: Config)
    requires GridGraph(ws, c.width, c.height)
    requires StationRefs(ws, Inputs(c), true) && StationRefs(ws, Outputs(c), false)
    requires c.inputCount > 0 ==> c.width > 0 && c.height > 0
    requires c.outputCount > 0 ==> c.width > 0 && c.height > 0
    ensures StationsPlaced(ws, Inputs(c), c.width, c.inputCount, 0, true)
    ensures StationsPlaced(ws, Outputs(c), c.width, c.outputCount, c.height - 1, false)
  {
    RowStations(ws, c.width, c.height, c.inputCount, 0, true);
    if c.height > 0 {
      RowStations(ws, c.width, c.height, c.outputCount, c.height - 1, false);
    } else {
      assert |ws| == 0;
    }
  }

  // ---------------------------------------------------------------------------
  // The loops of generate_layout, step by step

  /** The grid map after the building loop has reached column `x` of row `y`. */
  ghost predicate GridUpTo(grid: map<(int, int), nat>, width: nat, x: int, y: int)
  {
    && (forall x', y' :: (x', y') in grid <==> (0 <= y' < y && 0 <= x' < width) || (y' == y && 0 <= x' < x))
    && (forall x', y' :: (x', y') in grid ==> x' >= 0 && y' >= 0 && grid[(x', y')] == GridId(width, x', y'))
  }

  /** The whole grid built. */
  lemma GridUpToAll(grid: map<(int, int), nat>, width: nat, height: nat)
    requires GridUpTo(grid, width, 0, height)
    ensures GridMap(grid, width, height)
  {
  }

  /** The grid graph has the positions of the building loop. */
  lemma GridGraphPositions(ws: seq<Waypoint>, width: nat, height: nat)
    requires GridGraph(ws, width, height)
    ensures GridPositions(ws, width, height)
  {
    forall k | 0 <= k < |ws|
      ensures ws[k].id == k
    {
      assert Bare(ws[k]).id == GridCell(width, height, ws[k].x, ws[k].y).id;
    }
  }

  /** The input (`input`) or output row of stations of a configuration: its count, row and stations. */
  function StationCount(c: Config, input: bool): nat
  {
    if input then c.inputCount else c.outputCount
  }

  function StationY(c: Config, input: bool): int
  {
    if input then 0 else c.height - 1
  }

  function StationRow(c: Config, input: bool): (r: seq<Station>)
    ensures StationCount(c, input) > 0 && StationY(c, input) >= 0 ==>
              r == StationsOnRow(c.width, StationCount(c, input), StationY(c, input))
    ensures StationCount(c, input) == 0 ==> r == []
  {
    if input then Inputs(c) else Outputs(c)
  }

  /**
   * The `KeyError` of a station loop, if any: the first station's cell is off the grid.
   * That happens exactly when there are stations and the grid is empty; otherwise every
   * station's cell is on the grid.
   */
  function StationFault(c: Config, input: bool): (e: Option<Error>)
    ensures e.Some? <==> StationCount(c, input) > 0 && (c.width == 0 || c.height == 0)
    ensures e.Some? ==> e.value == GridKeyMissing(StationColumn(c.width, StationCount(c, input), 0), StationY(c, input))
  {
    var count, y := StationCount(c, input), StationY(c, input);
    assert count > 0 && c.width > 0 && c.height > 0 ==> InGrid(c.width, c.height, StationColumn(c.width, count, 0), y) by {
      if count > 0 && c.width > 0 {
        StationColumnInGrid(c.width, count, 0);
      }
    }
    if count > 0 && !InGrid(c.width, c.height, StationColumn(c.width, count, 0), y)
    then Some(GridKeyMissing(StationColumn(c.width, count, 0), y))
    else None
  }

  /** The first `KeyError` of the station and the storage loops, if any: the one `Generate` fails with. */
  function SitesFault(c: Config): (e: Option<Error>)
    ensures e.Some? ==> forall items, podDraws, botDraws :: Generate(c, items, podDraws, botDraws) == Failed(e.value)
    ensures e.None? ==> forall items, podDraws, botDraws :: Generate(c, items, podDraws, botDraws).Built?
  {
    if StationFault(c, true).Some? then StationFault(c, true)
    else if StationFault(c, false).Some? then StationFault(c, false)
    else StorageFault(c.width, c.height, StorageRows(c))
  }

  /** The waypoints after the storage loop has reached column `x` of row `y`. */
  function MarkedUpTo(ws: seq<Waypoint>, width: nat, height: nat, rows: nat, x: int, y: int): (r: seq<Waypoint>)
    ensures |r| == |ws|
  {
    seq(|ws|, w requires 0 <= w < |ws| =>
      ws[w].(podStorageLocation := ws[w].podStorageLocation ||
               (InStorage(width, height, rows, ws[w].x, ws[w].y) && (ws[w].y < y || (ws[w].y == y && ws[w].x < x)))))
  }

  /** Before the first row of the band nothing is marked; after its last row all of it is. */
  lemma MarkedEnds(ws: seq<Waypoint>, width: nat, height: nat, rows: nat)
    ensures MarkedUpTo(ws, width, height, rows, 0, StorageStart(height, rows)) == ws
    ensures MarkedUpTo(ws, width, height, rows, 0, StorageStart(height, rows) + rows) == Stored(ws, width, height, rows)
  {
    var start := StorageStart(height, rows);
    assert forall w :: 0 <= w < |ws| ==> MarkedUpTo(ws, width, height, rows, 0, start)[w] == ws[w];
  }

  /** A row of the band ends at column `width - 2`. */
  lemma MarkedRowEnd(ws: seq<Waypoint>, width: nat, height: nat, rows: nat, x: int, y: int)
    requires x >= width - 2
    ensures MarkedUpTo(ws, width, height, rows, x, y) == MarkedUpTo(ws, width, height, rows, 0, y + 1)
  {
    var a, b := MarkedUpTo(ws, width, height, rows, x, y), MarkedUpTo(ws, width, height, rows, 0, y + 1);
    forall w | 0 <= w < |ws|
      ensures a[w] == b[w]
    {
    }
  }

  /** One column of a row of the band: column `x` of row `y` is marked when it is a storage cell. */
  lemma MarkedStep(ws: seq<Waypoint>, width: nat, height: nat, rows: nat, x: int, y: int)
    requires GridPositions(ws, width, height) && |ws| == width * height && InGrid(width, height, x, y)
    requires StorageStart(height, rows) <= y < StorageStart(height, rows) + rows
    ensures GridId(width, x, y) < |ws|
    ensures var m, w := MarkedUpTo(ws, width, height, rows, x, y), GridId(width, x, y);
            MarkedUpTo(ws, width, height, rows, x + 1, y) ==
              if x % 3 != 0 && StorageColumn(width, x) then m[w := m[w].(podStorageLocation := true)] else m
  {
    var w := GridId(width, x, y);
    GridIdBelow(width, height, x, y);
    GridIdInjective(width, height, ws[w].x, ws[w].y, x, y);
    var m, m' := MarkedUpTo(ws, width, height, rows, x, y), MarkedUpTo(ws, width, height, rows, x + 1, y);
    forall v | 0 <= v < |ws| && v != w
      ensures m'[v] == m[v]
    {
      GridIdInjective(width, height, ws[v].x, ws[v].y, x, y);
    }
  }

  /** One more pod: its waypoint now holds it, and nothing else changes. */
  lemma PoddedExtend(ws: seq<Waypoint>, placed: seq<nat>, w: nat)
    requires w < |ws|
    ensures var r := Podded(ws, placed);
            Podded(ws, placed + [w]) == r[w := r[w].(pod := Some(|placed|))]
  {
    var r, r' := Podded(ws, placed), Podded(ws, placed + [w]);
    forall v | 0 <= v < |ws|
      ensures r'[v] == r[w := r[w].(pod := Some(|placed|))][v]
    {
      if v != w {
        assert LastIndex(placed + [w], v) == LastIndex(placed, v) by {
          assert (placed + [w])[..|placed|] == placed;
        }
      }
    }
  }

  /** One more pod at the end of the table. */
  lemma NewPodsExtend(placed: seq<nat>, w: nat, capacity: real, items: seq<seq<string>>)
    ensures NewPods(placed + [w], capacity, items) ==
              NewPods(placed, capacity, items) + [Stocked(NewPod(|placed|, capacity).(waypoint := Some(w)), ItemsFor(items, |placed|))]
  {
  }

  /** One more bot at the end of the table. */
  lemma NewBotsExtend(spots: seq<nat>, w: nat, speed: real)
    ensures NewBots(spots + [w], speed) == NewBots(spots, speed) + [NewBot(|spots|, speed).(currentWaypoint := Some(w))]
  {
  }
}
