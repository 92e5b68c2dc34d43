/**
 * The generation engine: the simulation state (the live set and the set being
 * built for the next generation) and the two-phase step that advances it.
 */
module Engine {
  import opened Codec
  import opened Rules

  /** The keys of a list of cells, as resetSimulation builds its seed. */
  function Seed(cells: seq<Cell>): set<nat>
  {
    if cells == [] then {} else {Cantor(cells[0].x, cells[0].y)} + Seed(cells[1..])
  }

  /** A key is in the seed exactly when it decodes to one of the listed cells. */
  lemma {:induction false} SeedMembers(cells: seq<Cell>)
    ensures forall k :: k in Seed(cells) <==> Icantor(k) in cells
  {
    hide Cantor, Icantor, Diagonal, FloorSqrt, Triangle, Fold, Unfold;
    if cells != [] {
      SeedMembers(cells[1..]);
      IcantorCantor(cells[0].x, cells[0].y);
      forall k | Icantor(k) == cells[0]
        ensures k == Cantor(cells[0].x, cells[0].y)
      {
      }
      assert forall c :: c in cells <==> c == cells[0] || c in cells[1..];
    }
  }

  /** Distinct cells give a seed with one key per cell. */
  lemma {:induction false} SeedSize(cells: seq<Cell>)
    requires forall p, q :: 0 <= p < q < |cells| ==> cells[p] != cells[q]
    ensures |Seed(cells)| == |cells|
  {
    hide Cantor, Icantor, Diagonal, FloorSqrt, Triangle, Fold, Unfold;
    if cells != [] {
      SeedSize(cells[1..]);
      SeedMembers(cells[1..]);
      IcantorCantor(cells[0].x, cells[0].y);
      assert cells[0] !in cells[1..];
    }
  }

  /** The five cells of the R-pentomino that a reset places. */
  const RCells: seq<Cell> := [Cell(80, 31), Cell(80, 32), Cell(80, 30), Cell(79, 31), Cell(81, 32)]

  /** The seed placed by a reset: five distinct keys. */
  function RPentomino(): (s: set<nat>)
    ensures |s| == 5
  {
    SeedSize(RCells);
    Seed(RCells)
  }

  /** The seed holds exactly the keys of the five R-pentomino cells. */
  lemma RPentominoCells()
    ensures forall k :: k in RPentomino() <==> Icantor(k) in RCells
  {
    hide Cantor, Icantor, Diagonal, FloorSqrt, Triangle, Fold, Unfold;
    SeedMembers(RCells);
  }

  /** Whether offset (dx, dy) comes before (i, j) in the row-by-row order of
      the nested offset loops. */
  predicate Before(dx: int, dy: int, i: int, j: int)
  {
    dx < i || (dx == i && dy < j)
  }

  /** The neighbour keys of k that the nested loops have visited when they
      reach offset (i, j). */
  ghost function Scanned(k: nat, i: int, j: int): set<nat>
  {
    (if Before(-1, -1, i, j) then {Shift(k, -1, -1)} else {}) +
    (if Before(-1, 0, i, j) then {Shift(k, -1, 0)} else {}) +
    (if Before(-1, 1, i, j) then {Shift(k, -1, 1)} else {}) +
    (if Before(0, -1, i, j) then {Shift(k, 0, -1)} else {}) +
    (if Before(0, 1, i, j) then {Shift(k, 0, 1)} else {}) +
    (if Before(1, -1, i, j) then {Shift(k, 1, -1)} else {}) +
    (if Before(1, 0, i, j) then {Shift(k, 1, 0)} else {}) +
    (if Before(1, 1, i, j) then {Shift(k, 1, 1)} else {})
  }

  /** What the nested loops know when they reach offset (i, j): the count of
      the live keys visited so far, and the visited keys that are dead. */
  ghost predicate ScanState(cur: set<nat>, k: nat, i: int, j: int, neighbors: nat, dead: set<nat>)
  {
    neighbors == |cur * Scanned(k, i, j)| && dead == Scanned(k, i, j) - cur
  }

  /** Adding a new key to the visited ones: the count grows when it is live,
      the dead set when it is not. */
  lemma VisitKey(cur: set<nat>, seen: set<nat>, test: nat)
    requires test !in seen
    ensures |cur * (seen + {test})| == |cur * seen| + (if test in cur then 1 else 0)
    ensures (seen + {test}) - cur == (seen - cur) + (if test in cur then {} else {test})
  {
    if test in cur {
      assert cur * (seen + {test}) == cur * seen + {test};
    } else {
      assert cur * (seen + {test}) == cur * seen;
    }
  }

  /** Offset (i, j) adds its key to the visited ones, unless it is the
      centre, and that key was not visited before. */
  lemma ScanAdvance(k: nat, i: int, j: int)
    requires -1 <= i <= 1 && -1 <= j <= 1
    ensures Scanned(k, i, j + 1) == Scanned(k, i, j) + (if IsOffset(i, j) then {Shift(k, i, j)} else {})
    ensures IsOffset(i, j) ==> Shift(k, i, j) !in Scanned(k, i, j)
  {
    hide Cantor, Icantor, Diagonal, FloorSqrt, Triangle, Fold, Unfold;
  }

  /** One pass of the inner loop body at offset (i, j): the centre is skipped,
      any other neighbour is counted when live and collected when dead. */
  lemma ScanStep(cur: set<nat>, k: nat, i: int, j: int, neighbors: nat, dead: set<nat>)
    requires -1 <= i <= 1 && -1 <= j <= 1
    requires ScanState(cur, k, i, j, neighbors, dead)
    ensures !IsOffset(i, j) ==> ScanState(cur, k, i, j + 1, neighbors, dead)
    ensures IsOffset(i, j) && Shift(k, i, j) in cur ==> ScanState(cur, k, i, j + 1, neighbors + 1, dead)
    ensures IsOffset(i, j) && Shift(k, i, j) !in cur ==> ScanState(cur, k, i, j + 1, neighbors, dead + {Shift(k, i, j)})
  {
    hide Cantor, Icantor, Diagonal, FloorSqrt, Triangle, Fold, Unfold;
    ScanAdvance(k, i, j);
    hide Scanned, Shift;
    if IsOffset(i, j) {
      VisitKey(cur, Scanned(k, i, j), Shift(k, i, j));
    }
  }

  /** The loops start with nothing visited, the end of a row is the start of
      the next, and the end of the last row has visited the whole neighbourhood. */
  lemma ScanRow(cur: set<nat>, k: nat, i: int)
    ensures ScanState(cur, k, -1, -1, 0, {})
    ensures forall n, d :: ScanState(cur, k, i, 2, n, d) == ScanState(cur, k, i + 1, -1, n, d)
    ensures forall n, d :: ScanState(cur, k, 2, -1, n, d) ==> n == LiveCount(cur, k) && d == Neighbourhood(k) - cur
  {
    hide Cantor, Icantor, Diagonal, FloorSqrt, Triangle, Fold, Unfold;
    assert Scanned(k, -1, -1) == {};
    assert Scanned(k, i, 2) == Scanned(k, i + 1, -1);
    assert Scanned(k, 2, -1) == Neighbourhood(k);
  }

  /** Visits the eight neighbours of the cell of key hash, in the order of the
      step's two nested offset loops, counting those alive in cur and collecting
      those that are not. */
  method ScanNeighbours(cur: set<nat>, hash: nat) returns (neighbors: nat, dead: set<nat>)
    ensures neighbors == LiveCount(cur, hash)
    ensures dead == Neighbourhood(hash) - cur
  {
    hide Cantor, Icantor, Diagonal, FloorSqrt, Triangle, Fold, Unfold, ScanState, Shift, Neighbourhood, LiveCount;
    var cell := Icantor(hash);
    neighbors, dead := 0, {};
    ScanRow(cur, hash, -1);
    for i := -1 to 2
      invariant ScanState(cur, hash, i, -1, neighbors, dead)
    {
      for j := -1 to 2
        invariant ScanState(cur, hash, i, j, neighbors, dead)
      {
        ScanStep(cur, hash, i, j, neighbors, dead);
        if i == 0 && j == 0 {
          continue;
        }
        var test := Cantor(cell.x + i, cell.y + j);
        ShiftIsCantor(hash, i, j);
        if test in cur {
          neighbors := neighbors + 1;
        } else {
          dead := dead + {test};
        }
      }
      ScanRow(cur, hash, i);
    }
    ScanRow(cur, hash, 2);
  }

  /** The simulation state. Between two steps next is empty. */
  class Cogl {
    var current: set<nat>
    var next: set<nat>

    ghost predicate Valid()
      reads this
    {
      next == {}
    }

    /** Setting up the simulation seeds it with the R-pentomino. */
    constructor ()
      ensures Valid() && current == RPentomino()
    {
      hide Cantor, Icantor, Diagonal, FloorSqrt, Triangle, Fold, Unfold;
      current := RPentomino();
      next := {};
    }

    /** A reset discards the state and reseeds the R-pentomino. */
    method Reset()
      modifies this
      ensures Valid() && current == RPentomino()
    {
      hide Cantor, Icantor, Diagonal, FloorSqrt, Triangle, Fold, Unfold;
      current := RPentomino();
      next := {};
    }

    /** The live phase: scans every live cell, adds the survivors to next and
        returns the dead cells next to life, each once. */
    method LivePhase() returns (deadTestCells: set<nat>)
      requires Valid()
      modifies this`next
      ensures next == Survivors(current)
      ensures forall m :: m in deadTestCells <==> IsCandidate(current, m)
    {
      hide Cantor, Icantor, Diagonal, FloorSqrt, Triangle, Fold, Unfold, Shift, Neighbourhood, LiveCount, Survivors, Births;
      deadTestCells := {};
      var todo := current;
      ghost var done: set<nat> := {};
      while todo != {}
        invariant todo <= current && done == current - todo
        invariant next == Survivors(current) * done
        invariant forall m :: m in deadTestCells <==> m !in current && exists k :: k in done && m in Neighbourhood(k)
        decreases todo
      {
        var hash :| hash in todo;
        var neighbors, dead := ScanNeighbours(current, hash);
        deadTestCells := deadTestCells + dead;
        if 1 < neighbors < 4 {
          next := next + {hash};
        }
        todo := todo - {hash};
        done := done + {hash};
      }
    }

    /** The dead phase: adds to next every candidate with exactly three live
        neighbours. */
    method DeadPhase(deadTestCells: set<nat>)
      modifies this`next
      ensures next == old(next) + Births(current, deadTestCells)
    {
      hide Cantor, Icantor, Diagonal, FloorSqrt, Triangle, Fold, Unfold, Shift, Neighbourhood, LiveCount, Survivors, Births;
      var todo := deadTestCells;
      ghost var done: set<nat> := {};
      while todo != {}
        invariant todo <= deadTestCells && done == deadTestCells - todo
        invariant next == old(next) + Births(current, deadTestCells) * done
        decreases todo
      {
        var hash :| hash in todo;
        var neighbors, _ := ScanNeighbours(current, hash);
        if neighbors == 3 {
          next := next + {hash};
        }
        todo := todo - {hash};
        done := done + {hash};
      }
    }

    /** One generation: both phases, then next becomes current and is emptied. */
    method Step()
      requires Valid()
      modifies this
      ensures Valid() && current == NextGen(old(current))
    {
      hide Cantor, Icantor, Diagonal, FloorSqrt, Triangle, Fold, Unfold;
      var deadTestCells := LivePhase();
      DeadPhase(deadTestCells);
      StepSplit(current, deadTestCells);
      current := next;
      next := {};
    }
  }
}
