/** Shared vocabulary of the M-Rep ray tracer: optional values and results,
    3-D points with real coordinates, control grids, and the integer helpers
    (binomial coefficients, the length of a Python range) the core relies on. */
module Geometry {

  datatype Option<T> = None | Some(value: T)

  datatype Result<T, E> = Success(value: T) | Failure(error: E)

  /** A point or direction in space; NumPy's float64 triples become reals. */
  datatype Vec3 = Vec3(x: real, y: real, z: real)

  function Add(a: Vec3, b: Vec3): Vec3
  {
    Vec3(a.x + b.x, a.y + b.y, a.z + b.z)
  }

  function Scale(t: real, a: Vec3): Vec3
  {
    Vec3(t * a.x, t * a.y, t * a.z)
  }

  /** Coordinate `axis` (0 = x, 1 = y, 2 = z) of a point. */
  function Coord(p: Vec3, axis: int): real
    requires 0 <= axis < 3
  {
    if axis == 0 then p.x else if axis == 1 then p.y else p.z
  }

  function Abs(r: real): real
  {
    if r < 0.0 then -r else r
  }

  /** The number of iterations of Python's `range(n)`: none when `n <= 0`. */
  function RangeLen(n: int): nat
  {
    if n < 0 then 0 else n
  }

  /** Python's `math.comb(n, k)`: the binomial coefficient, 0 when `k > n`. */
  function Comb(n: nat, k: nat): nat
  {
    if k == 0 then 1 else if n == 0 then 0 else Comb(n - 1, k - 1) + Comb(n - 1, k)
  }

  lemma {:induction false} CombPositive(n: nat, k: nat)
    requires k <= n
    ensures Comb(n, k) >= 1
  {
    if k > 0 {
      CombPositive(n - 1, k - 1);
    }
  }

  /** A control net: rows of control points, indexed `grid[i][j]`. */
  type Grid = seq<seq<Vec3>>

  /** Every row has `cols` points. */
  predicate Rectangular(g: Grid, cols: nat)
  {
    forall a :: 0 <= a < |g| ==> |g[a]| == cols
  }

  /** A NumPy array of shape `(n+1, m+1, 3)` with `n, m >= 0`. */
  predicate IsGrid(g: Grid)
  {
    |g| >= 1 && |g[0]| >= 1 && Rectangular(g, |g[0]|)
  }

  predicate AllGrids(ps: seq<Grid>)
  {
    forall k :: 0 <= k < |ps| ==> IsGrid(ps[k])
  }

  /** The points of a grid in row-major order (NumPy's `reshape(-1, 3)`). */
  function Flatten(g: Grid): seq<Vec3>
  {
    if |g| == 0 then [] else Flatten(g[..|g| - 1]) + g[|g| - 1]
  }

  /** Every point of the grid is among its flattened points. */
  lemma {:induction false} FlattenContains(g: Grid, a: int, b: int)
    requires 0 <= a < |g| && 0 <= b < |g[a]|
    ensures g[a][b] in Flatten(g)
  {
    var init := g[..|g| - 1];
    assert Flatten(g) == Flatten(init) + g[|g| - 1];
    if a < |g| - 1 {
      assert init[a] == g[a];
      FlattenContains(init, a, b);
    }
  }

  /** `a * c + b` indexes inside `n` rows of `c` columns. */
  lemma MulBound(a: nat, n: nat, c: nat, b: nat)
    requires a < n && b < c
    ensures a * c + b < n * c
  {
    assert (a + 1) * c <= n * c by {
      MulMono(a + 1, n, c);
    }
  }

  lemma MulMono(a: int, b: int, c: nat)
    requires a <= b
    ensures a * c <= b * c
  {
    assert b * c - a * c == (b - a) * c;
  }

  lemma DivModSplit(n: nat, c: nat)
    requires c > 0
    ensures n == (n / c) * c + n % c && 0 <= n % c < c && n / c >= 0
  {
  }

  /** Division with remainder is unique: `x = q*n + r` with `0 <= r < n`
      forces `q = x / n` and `r = x % n`. */
  lemma DivModUnique(x: int, n: int, q: int, r: int)
    requires n > 0 && 0 <= r < n && x == q * n + r
    ensures x / n == q && x % n == r
  {
    var q', r' := x / n, x % n;
    assert (q - q') * n == r' - r;
    MulAwayFromZero(q - q', n);
  }

  lemma MulAwayFromZero(d: int, n: int)
    requires n >= 0
    ensures d >= 1 ==> d * n >= n
    ensures d <= -1 ==> d * n <= -n
  {
    if d >= 1 {
      MulMono(1, d, n);
    } else if d <= -1 {
      MulMono(d, -1, n);
    }
  }
}
