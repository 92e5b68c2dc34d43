/**
 * The birth/survival rule of the engine, stated declaratively over sets of
 * cell keys. A key is alive when it is in the set; its neighbours are the
 * eight cells of its Moore neighbourhood. A live cell survives with 2 or 3
 * live neighbours, a dead cell is born with exactly 3 (the rule B3/S23).
 */
module Rules {
  import opened Codec

  /** The key of the cell dx columns and dy rows away from the cell of key k. */
  function Shift(k: nat, dx: int, dy: int): (m: nat)
    ensures Icantor(m) == Cell(Icantor(k).x + dx, Icantor(k).y + dy)
  {
    hide Cantor, Diagonal, FloorSqrt, Triangle, Fold, Unfold;
    var c := Icantor(k);
    IcantorCantor(c.x + dx, c.y + dy);
    Cantor(c.x + dx, c.y + dy)
  }

  /** Shift encodes the shifted cell of the decoded key. */
  lemma ShiftIsCantor(k: nat, dx: int, dy: int)
    ensures Shift(k, dx, dy) == Cantor(Icantor(k).x + dx, Icantor(k).y + dy)
  {
  }

  /** Different offsets reach different keys. */
  lemma ShiftInjective(k: nat, dx: int, dy: int, ex: int, ey: int)
    requires Shift(k, dx, dy) == Shift(k, ex, ey)
    ensures dx == ex && dy == ey
  {
    hide Cantor, Icantor, Diagonal, FloorSqrt, Triangle, Fold, Unfold;
    assert Icantor(Shift(k, dx, dy)) == Icantor(Shift(k, ex, ey));
  }

  /** Shifting back undoes a shift. */
  lemma ShiftBack(k: nat, dx: int, dy: int)
    ensures Shift(Shift(k, dx, dy), -dx, -dy) == k
  {
    hide Cantor, Icantor, Diagonal, FloorSqrt, Triangle, Fold, Unfold;
    var m := Shift(k, dx, dy);
    assert Icantor(Shift(m, -dx, -dy)) == Icantor(k);
  }

  /** Whether (dx, dy) is one of the eight neighbour offsets. */
  predicate IsOffset(dx: int, dy: int)
  {
    -1 <= dx <= 1 && -1 <= dy <= 1 && (dx, dy) != (0, 0)
  }

  /** The eight keys around k: the Moore neighbourhood of its cell. */
  function Neighbourhood(k: nat): set<nat>
  {
    {Shift(k, -1, -1), Shift(k, -1, 0), Shift(k, -1, 1),
     Shift(k, 0, -1), Shift(k, 0, 1),
     Shift(k, 1, -1), Shift(k, 1, 0), Shift(k, 1, 1)}
  }

  /** The neighbourhood holds exactly the keys one offset away. */
  lemma NeighbourhoodShifts(k: nat, m: nat)
    ensures m in Neighbourhood(k) <==> exists dx, dy :: IsOffset(dx, dy) && m == Shift(k, dx, dy)
  {
    hide Cantor, Icantor, Diagonal, FloorSqrt, Triangle, Fold, Unfold;
    if exists dx, dy :: IsOffset(dx, dy) && m == Shift(k, dx, dy) {
      var dx, dy :| IsOffset(dx, dy) && m == Shift(k, dx, dy);
      assert dx in {-1, 0, 1} && dy in {-1, 0, 1};
    }
  }

  /** The neighbourhood, read on decoded cells: m is around k exactly when the
      cells differ and lie at most one step apart along each axis. */
  lemma NeighbourhoodIsMoore(k: nat, m: nat)
    ensures m in Neighbourhood(k) <==>
      var a, b := Icantor(k), Icantor(m);
      a != b && -1 <= b.x - a.x <= 1 && -1 <= b.y - a.y <= 1
  {
    hide Cantor, Icantor, Diagonal, FloorSqrt, Triangle, Fold, Unfold;
    var a, b := Icantor(k), Icantor(m);
    if a != b && -1 <= b.x - a.x <= 1 && -1 <= b.y - a.y <= 1 {
      var dx, dy := b.x - a.x, b.y - a.y;
      assert Icantor(Shift(k, dx, dy)) == b;
      assert m == Shift(k, dx, dy);
      NeighbourhoodShifts(k, m);
    }
  }

  /** Being neighbours is symmetric. */
  lemma NeighbourhoodSymmetric(k: nat, m: nat)
    requires m in Neighbourhood(k)
    ensures k in Neighbourhood(m)
  {
    hide Cantor, Icantor, Diagonal, FloorSqrt, Triangle, Fold, Unfold;
    NeighbourhoodShifts(k, m);
    var dx, dy :| IsOffset(dx, dy) && m == Shift(k, dx, dy);
    ShiftBack(k, dx, dy);
    NeighbourhoodShifts(m, k);
  }

  /** A cell is not its own neighbour. */
  lemma NotOwnNeighbour(k: nat)
    ensures k !in Neighbourhood(k)
  {
    hide Cantor, Icantor, Diagonal, FloorSqrt, Triangle, Fold, Unfold;
  
  }

  /** Every cell has eight distinct neighbours. */
  lemma NeighbourhoodSize(k: nat)
    ensures |Neighbourhood(k)| == 8
  {
    hide Cantor, Icantor, Diagonal, FloorSqrt, Triangle, Fold, Unfold;
    var a := {Shift(k, -1, -1), Shift(k, -1, 0), Shift(k, -1, 1)};
    var b := a + {Shift(k, 0, -1), Shift(k, 0, 1)};
    var c := b + {Shift(k, 1, -1), Shift(k, 1, 0)};
    assert |a| == 3;
    assert |b| == 5;
    assert |c| == 7;
    assert Neighbourhood(k) == c + {Shift(k, 1, 1)};
  }

  /** The live neighbours of k in the generation cur. */
  function LiveNeighbours(cur: set<nat>, k: nat): set<nat>
  {
    cur * Neighbourhood(k)
  }

  /** How many of the eight neighbours of k are alive in cur. */
  function LiveCount(cur: set<nat>, k: nat): nat
  {
    |LiveNeighbours(cur, k)|
  }

  /** Whether the cell of key k is alive in the generation after cur. */
  predicate Lives(cur: set<nat>, k: nat)
  {
    var n := LiveCount(cur, k);
    if k in cur then n == 2 || n == 3 else n == 3
  }

  /** A dead cell that has at least one live neighbour: the only dead cells
      that the step examines. */
  ghost predicate IsCandidate(cur: set<nat>, m: nat)
  {
    m !in cur && exists k :: k in cur && m in Neighbourhood(k)
  }

  /** The live cells of cur that stay alive. */
  function Survivors(cur: set<nat>): (s: set<nat>)
    ensures s <= cur
    ensures forall k :: k in s <==> k in cur && (LiveCount(cur, k) == 2 || LiveCount(cur, k) == 3)
  {
    set k | k in cur && Lives(cur, k)
  }

  /** The cells among cands that have exactly three live neighbours. */
  function Births(cur: set<nat>, cands: set<nat>): (s: set<nat>)
    ensures s <= cands
    ensures forall k :: k in s <==> k in cands && LiveCount(cur, k) == 3
  {
    set k | k in cands && LiveCount(cur, k) == 3
  }

  /** Every cell within one step of a live cell, live cells included. */
  function Halo(cur: set<nat>): set<nat>
  {
    cur + set k, m | k in cur && m in Neighbourhood(k) :: m
  }

  /** The next generation: the cells that live by the rule. Only the halo of
      cur needs to be searched, see NextGenRule. */
  function NextGen(cur: set<nat>): set<nat>
  {
    set k | k in Halo(cur) && Lives(cur, k)
  }

  /** A dead cell that comes to life has a live neighbour: no cell far from
      life is ever born. */
  lemma BornOnlyNearLife(cur: set<nat>, k: nat)
    requires k !in cur && Lives(cur, k)
    ensures IsCandidate(cur, k)
  {
    hide Cantor, Icantor, Diagonal, FloorSqrt, Triangle, Fold, Unfold;
    var s := LiveNeighbours(cur, k);
    assert |s| == 3;
    var m :| m in s;
    NeighbourhoodSymmetric(k, m);
  }

  /** NextGen holds exactly the cells the rule keeps or brings to life. */
  lemma NextGenRule(cur: set<nat>, k: nat)
    ensures k in NextGen(cur) <==> Lives(cur, k)
  {
    hide Cantor, Icantor, Diagonal, FloorSqrt, Triangle, Fold, Unfold;
    if Lives(cur, k) && k !in cur {
      BornOnlyNearLife(cur, k);
      var m :| m in cur && k in Neighbourhood(m);
      assert k in Halo(cur);
    }
  }

  /** Survivors together with the births among the candidates make the next
      generation, provided the candidates are exactly the dead cells next to life. */
  lemma StepSplit(cur: set<nat>, cands: set<nat>)
    requires forall m :: m in cands <==> IsCandidate(cur, m)
    ensures Survivors(cur) + Births(cur, cands) == NextGen(cur)
  {
    hide Cantor, Icantor, Diagonal, FloorSqrt, Triangle, Fold, Unfold;
    forall k | k in NextGen(cur)
      ensures k in Survivors(cur) + Births(cur, cands)
    {
      NextGenRule(cur, k);
      if k !in cur {
        BornOnlyNearLife(cur, k);
      }
    }
    forall k | k in Survivors(cur) + Births(cur, cands)
      ensures k in NextGen(cur)
    {
      NextGenRule(cur, k);
    }
  }

  /** A set within a singleton has at most one element. */
  lemma AtMostOne(s: set<nat>, k: nat)
    requires s <= {k}
    ensures |s| <= 1
  {
    if s != {} {
      assert s == {k};
    }
  }

  /** A lone cell dies and nothing is born around it. */
  lemma SingletonDies(k: nat)
    ensures NextGen({k}) == {}
  {
    hide Cantor, Icantor, Diagonal, FloorSqrt, Triangle, Fold, Unfold, Shift, Neighbourhood, NextGen, Halo;
    forall m | m in NextGen({k})
      ensures false
    {
      NextGenRule({k}, m);
      if m == k {
        NotOwnNeighbour(k);
      } else {
        AtMostOne(LiveNeighbours({k}, m), k);
      }
    }
  }

  /** An empty generation stays empty. */
  lemma EmptyStaysEmpty()
    ensures NextGen({}) == {}
  {
    hide Cantor, Icantor, Diagonal, FloorSqrt, Triangle, Fold, Unfold;
  }
}
