/**
 * The coordinate codec of the sparse Game-of-Life engine: a bijection between
 * the integer lattice Z x Z and the naturals, so that a cell can be stored as
 * a single key in a set.
 *
 * A signed component is first folded onto the naturals by the zig-zag map
 * (0, -1, 1, -2, 2, ... go to 0, 1, 2, 3, 4, ...); the two folded components are
 * then combined by the Cantor pairing function. Decoding finds the diagonal of
 * the key with an integer square root and undoes both steps.
 */
module Codec {

  /** A lattice cell: two unbounded signed components. */
  datatype Cell = Cell(x: int, y: int)

  /** The zig-zag fold (bijectIntToNat): non-negatives go to the even naturals,
      negatives to the odd ones. */
  function Fold(i: int): (n: nat)
    ensures n % 2 == 0 <==> i >= 0
  {
    if i >= 0 then i * 2 else -i * 2 - 1
  }

  /** The inverse of the fold (iBijectIntToNat). Every natural is the fold of
      exactly the integer returned here. */
  function Unfold(n: nat): (i: int)
    ensures Fold(i) == n
    ensures i >= 0 <==> n % 2 == 0
  {
    if n % 2 == 0 then n / 2 else -(n + 1) / 2
  }

  /** Unfolding undoes the fold on every integer. */
  lemma UnfoldFold(i: int)
    ensures Unfold(Fold(i)) == i
  {
  }

  /** The w-th triangular number 0 + 1 + ... + w, the first key on diagonal w. */
  function Triangle(w: nat): nat
  {
    if w == 0 then 0 else Triangle(w - 1) + w
  }

  /** The closed form the codec computes, (w*w + w) / 2, is the triangular number. */
  lemma {:induction false} TriangleClosedForm(w: nat)
    ensures 2 * Triangle(w) == w * (w + 1)
    ensures Triangle(w) == (w * w + w) / 2
  {
    if w > 0 {
      TriangleClosedForm(w - 1);
      assert w * (w + 1) == (w - 1) * w + 2 * w;
    }
  }

  /** Consecutive triangular numbers are one diagonal apart. */
  lemma TriangleSucc(w: nat)
    ensures Triangle(w + 1) == Triangle(w) + w + 1
  {
  }

  /** Triangular numbers grow: a later diagonal starts past the end of an earlier one. */
  lemma {:induction false} TriangleGrows(v: nat, w: nat)
    requires v < w
    ensures Triangle(v + 1) <= Triangle(w)
  {
    if v + 1 < w {
      TriangleGrows(v, w - 1);
      TriangleSucc(w - 1);
    }
  }

  /** The Cantor pairing of the folded components (cantor). The key of (x, y)
      lies on diagonal Fold(x) + Fold(y), at position Fold(y) within it. */
  function Cantor(x: int, y: int): (p: nat)
    ensures Triangle(Fold(x) + Fold(y)) <= p < Triangle(Fold(x) + Fold(y) + 1)
    ensures p - Triangle(Fold(x) + Fold(y)) == Fold(y)
  {
    var a := Fold(x);
    var b := Fold(y);
    TriangleClosedForm(a + b);
    TriangleSucc(a + b);
    ((a + b) * (a + b + 1)) / 2 + b
  }

  /** The floor of the square root of n, standing for Math.floor of Math.sqrt. */
  function FloorSqrt(n: nat): (r: nat)
    ensures r * r <= n < (r + 1) * (r + 1)
  {
    if n < 4 then (if n == 0 then 0 else 1)
    else
      var s := FloorSqrt(n / 4);
      SqrtDoubling(n, s);
      if (2 * s + 1) * (2 * s + 1) <= n then 2 * s + 1 else 2 * s
  }

  /** If s is the root of n / 4, the root of n is 2 * s or 2 * s + 1. */
  lemma SqrtDoubling(n: nat, s: nat)
    requires s * s <= n / 4 < (s + 1) * (s + 1)
    ensures (2 * s) * (2 * s) <= n < (2 * s + 2) * (2 * s + 2)
  {
    assert (2 * s) * (2 * s) == 4 * (s * s);
    assert (2 * s + 2) * (2 * s + 2) == 4 * ((s + 1) * (s + 1));
  }

  lemma SquareMonotone(a: nat, b: nat)
    requires a <= b
    ensures a * a <= b * b
  {
    assert a * a <= a * b <= b * b;
  }

  /** The diagonal holding key p, floor((sqrt(8p + 1) - 1) / 2) computed exactly. */
  function Diagonal(p: nat): (w: nat)
    ensures Triangle(w) <= p < Triangle(w + 1)
  {
    var s := FloorSqrt(8 * p + 1);
    DiagonalBounds(p, s);
    (s - 1) / 2
  }

  /** 8 * Triangle(w) + 1 is the odd square (2w + 1)^2. */
  lemma TriangleOddSquare(w: nat)
    ensures 8 * Triangle(w) + 1 == (2 * w + 1) * (2 * w + 1)
  {
    TriangleClosedForm(w);
    assert (2 * w + 1) * (2 * w + 1) == 4 * (w * (w + 1)) + 1;
  }

  /** The diagonal computed from the root s of 8p + 1 is the one holding p. */
  lemma DiagonalBounds(p: nat, s: nat)
    requires s * s <= 8 * p + 1 < (s + 1) * (s + 1)
    ensures s >= 1 && Triangle((s - 1) / 2) <= p < Triangle((s - 1) / 2 + 1)
  {
    var w := (s - 1) / 2;
    TriangleOddSquare(w);
    TriangleOddSquare(w + 1);
    hide Triangle;
    SquareMonotone(2 * w + 1, s);
    SquareMonotone(s + 1, 2 * w + 3);
  }

  /** A key has one diagonal only. */
  lemma DiagonalUnique(p: nat, w: nat)
    requires Triangle(w) <= p < Triangle(w + 1)
    ensures Diagonal(p) == w
  {
    var v := Diagonal(p);
    if v < w {
      TriangleGrows(v, w);
    } else if w < v {
      TriangleGrows(w, v);
    }
  }

  /** Decoding (icantor): find the diagonal w, the offset u of p along it, and
      unfold u as y and w - u as x. Encoding the result gives p back. */
  function Icantor(p: nat): (c: Cell)
    ensures Cantor(c.x, c.y) == p
  {
    var w := Diagonal(p);
    TriangleClosedForm(w);
    TriangleSucc(w);
    var t := (w * w + w) / 2;
    var u := p - t;
    var c := Cell(Unfold(w - u), Unfold(u));
    CantorOnDiagonal(c, w, u);
    c
  }

  /** The cell whose folded components are w - u and u has key Triangle(w) + u. */
  lemma CantorOnDiagonal(c: Cell, w: nat, u: nat)
    requires u <= w && Fold(c.x) == w - u && Fold(c.y) == u
    ensures Cantor(c.x, c.y) == Triangle(w) + u
  {
  }

  /** Decoding undoes encoding on every cell. */
  lemma IcantorCantor(x: int, y: int)
    ensures Icantor(Cantor(x, y)) == Cell(x, y)
  {
    hide Cantor, FloorSqrt, Diagonal;
    var p := Cantor(x, y);
    DiagonalUnique(p, Fold(x) + Fold(y));
    UnfoldFold(x);
    UnfoldFold(y);
  }

  /** Distinct cells get distinct keys. */
  lemma CantorInjective(a: Cell, b: Cell)
    requires Cantor(a.x, a.y) == Cantor(b.x, b.y)
    ensures a == b
  {
    IcantorCantor(a.x, a.y);
    IcantorCantor(b.x, b.y);
  }
}
