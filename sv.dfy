/** The matrix `S_v` of a Bézier patch: column block `axis` (0 for the
    constant 1, then x, y, z) holds, for every pair of Bernstein indices
    `(k, l)` of the auxiliary degree `v`, the coefficients of the products
    `B_{i+k} B_{j+l}` weighted by the patch's control points. Every term of
    the five nested loops lands in a cell of its own, so each cell holds one
    term or zero; `SvCell` says which. */
module Sv {
  import opened Geometry

  /** The auxiliary bidegree `v = (v0, v1)`. */
  datatype Ext = Ext(v0: int, v1: int)

  /** One iteration of the loops `axis`, `k`, `l`, `i`, `j`. */
  datatype Quad = Quad(axis: int, k: int, l: int, i: int, j: int)

  function Min(a: int, b: int): int { if a <= b then a else b }
  function Max(a: int, b: int): int { if a <= b then b else a }

  /** The `v` chosen when none is given, after section 3.2 of the M-Rep
      paper: `(2 min(d1, d2) - 1, max(d1, d2) - 1)`. */
  function DefaultExt(d1: int, d2: int): Ext
  {
    Ext(2 * Min(d1, d2) - 1, Max(d1, d2) - 1)
  }

  function Stride(e: Ext): int
  {
    (e.v0 + 1) * (e.v1 + 1)
  }

  function RowCount(d1: int, d2: int, e: Ext): int
  {
    (d1 + e.v0 + 1) * (d2 + e.v1 + 1)
  }

  function ColCount(e: Ext): int
  {
    4 * Stride(e)
  }

  /** The number of Bernstein polynomials of degree `v1 + d2` in the second parameter. */
  function Width(d2: int, e: Ext): int
  {
    e.v1 + d2 + 1
  }

  /** The row and the column term `q` is added to. */
  function TargetRow(d2: int, e: Ext, q: Quad): int
  {
    (q.j + q.l) + (q.i + q.k) * Width(d2, e)
  }

  function TargetCol(e: Ext, q: Quad): int
  {
    q.l + q.k * (e.v1 + 1) + q.axis * Stride(e)
  }

  /** `q` is visited by the loops over `range(4)`, `range(v0 + 1)`,
      `range(v1 + 1)`, `range(d1 + 1)` and `range(d2 + 1)`. */
  predicate InLoop(d1: int, d2: int, e: Ext, q: Quad)
  {
    0 <= q.axis < 4 && 0 <= q.k <= e.v0 && 0 <= q.l <= e.v1 && 0 <= q.i <= d1 && 0 <= q.j <= d2
  }

  /** `c[i, j]`: ones for block 0, coordinate `axis - 1` of the control point otherwise. */
  function Control(b: Grid, axis: int, i: int, j: int): real
    requires 0 <= axis < 4 && 0 <= i < |b| && 0 <= j < |b[i]|
  {
    if axis == 0 then 1.0 else Coord(b[i][j], axis - 1)
  }

  /** The term added for `q`: `C(v0,k) C(v1,l) C(d1,i) C(d2,j) / (C(v0+d1,i+k) C(v1+d2,j+l)) * c[i,j]`. */
  function Term(b: Grid, e: Ext, q: Quad): real
    requires IsGrid(b) && InLoop(|b| - 1, |b[0]| - 1, e, q)
  {
    var d1, d2 := |b| - 1, |b[0]| - 1;
    var num := Comb(e.v0, q.k) * Comb(e.v1, q.l) * Comb(d1, q.i) * Comb(d2, q.j);
    var x, y := Comb(e.v0 + d1, q.i + q.k), Comb(e.v1 + d2, q.j + q.l);
    CombPositive(e.v0 + d1, q.i + q.k);
    CombPositive(e.v1 + d2, q.j + q.l);
    MulAwayFromZero(x, y);
    num as real / (x * y) as real * Control(b, q.axis, q.i, q.j)
  }

  /** The loop iteration whose term lands in cell `(r, c)`, if any does:
      the inverse of `(TargetRow, TargetCol)`. */
  function Decode(d2: int, e: Ext, r: int, c: int): Quad
    requires e.v0 >= 0 && e.v1 >= 0 && d2 >= 0
  {
    MulAwayFromZero(e.v0 + 1, e.v1 + 1);
    var axis, rest := c / Stride(e), c % Stride(e);
    var k, l := rest / (e.v1 + 1), rest % (e.v1 + 1);
    var s, t := r / Width(d2, e), r % Width(d2, e);
    Quad(axis, k, l, s - k, t - l)
  }

  /** Cell `(r, c)` of `S_v(b, v)`. */
  function SvCell(b: Grid, e: Ext, r: int, c: int): real
    requires IsGrid(b)
  {
    if e.v0 < 0 || e.v1 < 0 then 0.0
    else
      var q := Decode(|b[0]| - 1, e, r, c);
      if InLoop(|b| - 1, |b[0]| - 1, e, q) then Term(b, e, q) else 0.0
  }

  /** The whole of `S_v(b, v)` as rows of cells. */
  function SvRows(b: Grid, e: Ext): (m: seq<seq<real>>)
    requires IsGrid(b) && RowCount(|b| - 1, |b[0]| - 1, e) >= 0 && ColCount(e) >= 0
    ensures |m| == RowCount(|b| - 1, |b[0]| - 1, e)
    ensures forall r :: 0 <= r < |m| ==> |m[r]| == ColCount(e)
  {
    seq(RowCount(|b| - 1, |b[0]| - 1, e), r =>
      seq(ColCount(e), c => SvCell(b, e, r, c)))
  }

  // ---------------------------------------------------------------------
  // Where the terms land

  /** Every term lands inside the `RowCount x ColCount` matrix. */
  lemma TargetInRange(d1: int, d2: int, e: Ext, q: Quad)
    requires InLoop(d1, d2, e, q)
    ensures 0 <= TargetRow(d2, e, q) < RowCount(d1, d2, e)
    ensures 0 <= TargetCol(e, q) < ColCount(e)
  {
    MulBound(q.i + q.k, d1 + e.v0 + 1, Width(d2, e), q.j + q.l);
    MulBound(q.k, e.v0 + 1, e.v1 + 1, q.l);
    MulBound(q.axis, 4, Stride(e), q.l + q.k * (e.v1 + 1));
  }

  /** Decoding the cell a term lands in gives back the term's loop indices,
      so no two iterations add to the same cell. */
  lemma DecodeTarget(d1: int, d2: int, e: Ext, q: Quad)
    requires InLoop(d1, d2, e, q)
    ensures Decode(d2, e, TargetRow(d2, e, q), TargetCol(e, q)) == q
  {
    var rest := q.l + q.k * (e.v1 + 1);
    MulBound(q.k, e.v0 + 1, e.v1 + 1, q.l);
    DivModUnique(TargetCol(e, q), Stride(e), q.axis, rest);
    DivModUnique(rest, e.v1 + 1, q.k, q.l);
    DivModUnique(TargetRow(d2, e, q), Width(d2, e), q.i + q.k, q.j + q.l);
  }

  lemma TargetInjective(d1: int, d2: int, e: Ext, p: Quad, q: Quad)
    requires InLoop(d1, d2, e, p) && InLoop(d1, d2, e, q)
    requires TargetRow(d2, e, p) == TargetRow(d2, e, q) && TargetCol(e, p) == TargetCol(e, q)
    ensures p == q
  {
    DecodeTarget(d1, d2, e, p);
    DecodeTarget(d1, d2, e, q);
  }

  /** A cell whose decoding is a loop iteration is where that iteration's term lands. */
  lemma TargetDecode(d1: int, d2: int, e: Ext, r: int, c: int)
    requires e.v0 >= 0 && e.v1 >= 0 && d2 >= 0 && r >= 0 && c >= 0
    requires InLoop(d1, d2, e, Decode(d2, e, r, c))
    ensures TargetRow(d2, e, Decode(d2, e, r, c)) == r && TargetCol(e, Decode(d2, e, r, c)) == c
  {
    MulAwayFromZero(e.v0 + 1, e.v1 + 1);
    DivModSplit(c, Stride(e));
    DivModSplit(c % Stride(e), e.v1 + 1);
    DivModSplit(r, Width(d2, e));
  }

  /** The cell a term lands in holds exactly that term. */
  lemma CellOfTarget(b: Grid, e: Ext, q: Quad)
    requires IsGrid(b) && InLoop(|b| - 1, |b[0]| - 1, e, q)
    ensures SvCell(b, e, TargetRow(|b[0]| - 1, e, q), TargetCol(e, q)) == Term(b, e, q)
  {
    DecodeTarget(|b| - 1, |b[0]| - 1, e, q);
  }

  /** A nonzero cell is the landing cell of some loop iteration. */
  lemma NonzeroIsTarget(b: Grid, e: Ext, r: int, c: int)
    requires IsGrid(b) && r >= 0 && c >= 0 && SvCell(b, e, r, c) != 0.0
    ensures exists q :: InLoop(|b| - 1, |b[0]| - 1, e, q)
                        && TargetRow(|b[0]| - 1, e, q) == r && TargetCol(e, q) == c
  {
    var q := Decode(|b[0]| - 1, e, r, c);
    TargetDecode(|b| - 1, |b[0]| - 1, e, r, c);
  }

  /** The `v` picked by default never makes a dimension negative, and it
      gives a nonempty loop exactly when both degrees are at least 1. */
  lemma DefaultExtShape(d1: int, d2: int)
    requires d1 >= 0 && d2 >= 0
    ensures var e := DefaultExt(d1, d2);
            RowCount(d1, d2, e) >= 0 && ColCount(e) >= 0
            && ((e.v0 >= 0 && e.v1 >= 0) <==> (d1 >= 1 && d2 >= 1))
  {
    var e := DefaultExt(d1, d2);
    MulAwayFromZero(e.v0 + 1, e.v1 + 1);
    MulAwayFromZero(d1 + e.v0 + 1, d2 + e.v1 + 1);
  }

  // ---------------------------------------------------------------------
  // The loops

  /** Lexicographic order of loop iterations: `q` comes before `p`. */
  predicate Before(q: Quad, p: Quad)
  {
    q.axis < p.axis
    || (q.axis == p.axis && (q.k < p.k
    || (q.k == p.k && (q.l < p.l
    || (q.l == p.l && (q.i < p.i
    || (q.i == p.i && q.j < p.j)))))))
  }

  /** Cell `(r, c)` once every iteration before `p` has run. */
  function Partial(b: Grid, e: Ext, r: int, c: int, p: Quad): real
    requires IsGrid(b)
  {
    if e.v0 < 0 || e.v1 < 0 then 0.0
    else
      var q := Decode(|b[0]| - 1, e, r, c);
      if InLoop(|b| - 1, |b[0]| - 1, e, q) && Before(q, p) then Term(b, e, q) else 0.0
  }

  predicate Filled(out: array2<real>, b: Grid, e: Ext, p: Quad)
    requires IsGrid(b)
    reads out
  {
    forall r, c :: 0 <= r < out.Length0 && 0 <= c < out.Length1 ==> out[r, c] == Partial(b, e, r, c, p)
  }

  /** Two positions that no loop iteration separates leave the same cells. */
  lemma SameFilled(out: array2<real>, b: Grid, e: Ext, p1: Quad, p2: Quad)
    requires IsGrid(b) && Filled(out, b, e, p1)
    requires forall q :: InLoop(|b| - 1, |b[0]| - 1, e, q) ==> (Before(q, p1) <==> Before(q, p2))
    ensures Filled(out, b, e, p2)
  {
  }

  /** Leaving the loop over `j` moves on to the next `i`. */
  lemma NextI(out: array2<real>, b: Grid, e: Ext, p: Quad)
    requires IsGrid(b) && Filled(out, b, e, p) && p.j == |b[0]|
    ensures Filled(out, b, e, Quad(p.axis, p.k, p.l, p.i + 1, 0))
  {
    SameFilled(out, b, e, p, Quad(p.axis, p.k, p.l, p.i + 1, 0));
  }

  /** Leaving the loop over `i` moves on to the next `l`. */
  lemma NextL(out: array2<real>, b: Grid, e: Ext, p: Quad)
    requires IsGrid(b) && Filled(out, b, e, p) && p.i == |b| && p.j == 0
    ensures Filled(out, b, e, Quad(p.axis, p.k, p.l + 1, 0, 0))
  {
    SameFilled(out, b, e, p, Quad(p.axis, p.k, p.l + 1, 0, 0));
  }

  /** Leaving the loop over `l` moves on to the next `k`. */
  lemma NextK(out: array2<real>, b: Grid, e: Ext, p: Quad)
    requires IsGrid(b) && Filled(out, b, e, p) && p.l >= e.v1 + 1 && p.i == 0 && p.j == 0
    ensures Filled(out, b, e, Quad(p.axis, p.k + 1, 0, 0, 0))
  {
    SameFilled(out, b, e, p, Quad(p.axis, p.k + 1, 0, 0, 0));
  }

  /** Leaving the loop over `k` moves on to the next `axis`. */
  lemma NextAxis(out: array2<real>, b: Grid, e: Ext, p: Quad)
    requires IsGrid(b) && Filled(out, b, e, p) && p.k >= e.v0 + 1 && p.l == 0 && p.i == 0 && p.j == 0
    ensures Filled(out, b, e, Quad(p.axis + 1, 0, 0, 0, 0))
  {
    SameFilled(out, b, e, p, Quad(p.axis + 1, 0, 0, 0, 0));
  }

  /** After the last iteration every cell is final. */
  lemma FilledAll(out: array2<real>, b: Grid, e: Ext)
    requires IsGrid(b) && Filled(out, b, e, Quad(4, 0, 0, 0, 0))
    ensures forall x, y :: 0 <= x < out.Length0 && 0 <= y < out.Length1 ==> out[x, y] == SvCell(b, e, x, y)
  {
  }

  /** Running iteration `p` fills its landing cell and touches no other. */
  lemma StepCell(b: Grid, e: Ext, p: Quad, next: Quad, r: int, c: int)
    requires IsGrid(b) && InLoop(|b| - 1, |b[0]| - 1, e, p) && r >= 0 && c >= 0
    requires forall q :: Before(q, next) <==> Before(q, p) || q == p
    ensures r == TargetRow(|b[0]| - 1, e, p) && c == TargetCol(e, p) ==>
              Partial(b, e, r, c, p) == 0.0 && Partial(b, e, r, c, next) == Term(b, e, p)
    ensures !(r == TargetRow(|b[0]| - 1, e, p) && c == TargetCol(e, p)) ==>
              Partial(b, e, r, c, next) == Partial(b, e, r, c, p)
  {
    var d1, d2 := |b| - 1, |b[0]| - 1;
    DecodeTarget(d1, d2, e, p);
    if InLoop(d1, d2, e, Decode(d2, e, r, c)) {
      TargetDecode(d1, d2, e, r, c);
    }
  }

  /** `out[row, col] += ...` for iteration `p`. */
  method AddTerm(out: array2<real>, b: Grid, e: Ext, p: Quad)
    requires IsGrid(b) && InLoop(|b| - 1, |b[0]| - 1, e, p)
    requires out.Length0 == RowCount(|b| - 1, |b[0]| - 1, e) && out.Length1 == ColCount(e)
    requires Filled(out, b, e, p)
    modifies out
    ensures Filled(out, b, e, p.(j := p.j + 1))
  {
    var d1, d2 := |b| - 1, |b[0]| - 1;
    TargetInRange(d1, d2, e, p);
    var row, col := TargetRow(d2, e, p), TargetCol(e, p);
    label L:
    out[row, col] := out[row, col] + Term(b, e, p);
    forall x, y | 0 <= x < out.Length0 && 0 <= y < out.Length1
      ensures out[x, y] == Partial(b, e, x, y, p.(j := p.j + 1))
    {
      StepCell(b, e, p, p.(j := p.j + 1), x, y);
      assert old@L(out[x, y]) == Partial(b, e, x, y, p);
    }
  }

  /** The loops over `l`, `i` and `j` for one `axis` and one `k`. */
  method AddBlock(out: array2<real>, b: Grid, e: Ext, axis: int, k: int)
    requires IsGrid(b) && 0 <= axis < 4 && 0 <= k <= e.v0
    requires out.Length0 == RowCount(|b| - 1, |b[0]| - 1, e) && out.Length1 == ColCount(e)
    requires Filled(out, b, e, Quad(axis, k, 0, 0, 0))
    modifies out
    ensures Filled(out, b, e, Quad(axis, k + 1, 0, 0, 0))
  {
    var d1, d2 := |b| - 1, |b[0]| - 1;
    var l := 0;
    while l < e.v1 + 1
      invariant 0 <= l && (e.v1 >= 0 ==> l <= e.v1 + 1)
      invariant Filled(out, b, e, Quad(axis, k, l, 0, 0))
    {
      var i := 0;
      while i < d1 + 1
        invariant 0 <= i <= d1 + 1
        invariant Filled(out, b, e, Quad(axis, k, l, i, 0))
      {
        var j := 0;
        while j < d2 + 1
          invariant 0 <= j <= d2 + 1
          invariant Filled(out, b, e, Quad(axis, k, l, i, j))
        {
          AddTerm(out, b, e, Quad(axis, k, l, i, j));
          j := j + 1;
        }
        NextI(out, b, e, Quad(axis, k, l, i, j));
        i := i + 1;
      }
      NextL(out, b, e, Quad(axis, k, l, i, 0));
      l := l + 1;
    }
    NextK(out, b, e, Quad(axis, k, l, 0, 0));
  }

  /** `S_v(b, v)`: `None` where `np.zeros` rejects a negative dimension,
      otherwise a fresh matrix whose every cell is `SvCell`. */
  method BuildSv(b: Grid, v: Option<Ext>) returns (r: Option<array2<real>>)
    requires IsGrid(b)
    ensures var e := if v.Some? then v.value else DefaultExt(|b| - 1, |b[0]| - 1);
            r.None? <==> RowCount(|b| - 1, |b[0]| - 1, e) < 0 || ColCount(e) < 0
    ensures r.Some? ==>
              var e := if v.Some? then v.value else DefaultExt(|b| - 1, |b[0]| - 1);
              && fresh(r.value)
              && r.value.Length0 == RowCount(|b| - 1, |b[0]| - 1, e)
              && r.value.Length1 == ColCount(e)
              && forall x, y :: 0 <= x < r.value.Length0 && 0 <= y < r.value.Length1 ==>
                   r.value[x, y] == SvCell(b, e, x, y)
  {
    var d1, d2 := |b| - 1, |b[0]| - 1;
    var e := if v.Some? then v.value else DefaultExt(d1, d2);
    var rows, cols := RowCount(d1, d2, e), ColCount(e);
    if rows < 0 || cols < 0 {
      return None;
    }
    var out := new real[rows, cols]((_, _) => 0.0);
    var axis := 0;
    while axis < 4
      invariant 0 <= axis <= 4
      invariant Filled(out, b, e, Quad(axis, 0, 0, 0, 0))
    {
      var k := 0;
      while k < e.v0 + 1
        invariant 0 <= k && (e.v0 >= 0 ==> k <= e.v0 + 1)
        invariant Filled(out, b, e, Quad(axis, k, 0, 0, 0))
      {
        AddBlock(out, b, e, axis, k);
        k := k + 1;
      }
      NextAxis(out, b, e, Quad(axis, k, 0, 0, 0));
      axis := axis + 1;
    }
    FilledAll(out, b, e);
    return Some(out);
  }
}
