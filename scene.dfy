/** `prepare`: every explicit patch becomes its implicit form together with
    the axis-aligned bounding box of its control points. */
module Scene {
  import opened Geometry
  import opened Sv
  import opened MRep

  /** The tuple `(M, bounds_min, bounds_max)`. */
  datatype ImplicitPatch = ImplicitPatch(m: Implicit, lo: Vec3, hi: Vec3)

  /** The smallest coordinate `axis` among the points (`min(axis=0)`). */
  function LowerCoord(pts: seq<Vec3>, axis: int): (r: real)
    requires |pts| > 0 && 0 <= axis < 3
    ensures forall k :: 0 <= k < |pts| ==> r <= Coord(pts[k], axis)
    ensures exists k :: 0 <= k < |pts| && r == Coord(pts[k], axis)
  {
    if |pts| == 1 then Coord(pts[0], axis)
    else
      var rest := LowerCoord(pts[..|pts| - 1], axis);
      var x := Coord(pts[|pts| - 1], axis);
      assert forall k :: 0 <= k < |pts| - 1 ==> pts[..|pts| - 1][k] == pts[k];
      if x < rest then x else rest
  }

  /** The largest coordinate `axis` among the points (`max(axis=0)`). */
  function UpperCoord(pts: seq<Vec3>, axis: int): (r: real)
    requires |pts| > 0 && 0 <= axis < 3
    ensures forall k :: 0 <= k < |pts| ==> Coord(pts[k], axis) <= r
    ensures exists k :: 0 <= k < |pts| && r == Coord(pts[k], axis)
  {
    if |pts| == 1 then Coord(pts[0], axis)
    else
      var rest := UpperCoord(pts[..|pts| - 1], axis);
      var x := Coord(pts[|pts| - 1], axis);
      assert forall k :: 0 <= k < |pts| - 1 ==> pts[..|pts| - 1][k] == pts[k];
      if x > rest then x else rest
  }

  function Lower(pts: seq<Vec3>): Vec3
    requires |pts| > 0
  {
    Vec3(LowerCoord(pts, 0), LowerCoord(pts, 1), LowerCoord(pts, 2))
  }

  function Upper(pts: seq<Vec3>): Vec3
    requires |pts| > 0
  {
    Vec3(UpperCoord(pts, 0), UpperCoord(pts, 1), UpperCoord(pts, 2))
  }

  predicate InBox(p: Vec3, lo: Vec3, hi: Vec3)
  {
    lo.x <= p.x <= hi.x && lo.y <= p.y <= hi.y && lo.z <= p.z <= hi.z
  }

  lemma FlattenNonEmpty(g: Grid)
    requires IsGrid(g)
    ensures |Flatten(g)| > 0
  {
    FlattenContains(g, 0, 0);
  }

  /** Every control point lies in the box, so the box is ordered. */
  lemma BoxContainsControlPoints(g: Grid)
    requires IsGrid(g)
    ensures |Flatten(g)| > 0
    ensures forall a, b :: 0 <= a < |g| && 0 <= b < |g[a]| ==>
              InBox(g[a][b], Lower(Flatten(g)), Upper(Flatten(g)))
  {
    FlattenNonEmpty(g);
    var pts := Flatten(g);
    forall a, b | 0 <= a < |g| && 0 <= b < |g[a]|
      ensures InBox(g[a][b], Lower(pts), Upper(pts))
    {
      FlattenContains(g, a, b);
      var k :| 0 <= k < |pts| && pts[k] == g[a][b];
      assert Coord(pts[k], 0) == g[a][b].x && Coord(pts[k], 1) == g[a][b].y && Coord(pts[k], 2) == g[a][b].z;
    }
  }

  lemma BoxOrdered(g: Grid)
    requires IsGrid(g)
    ensures |Flatten(g)| > 0
    ensures var lo, hi := Lower(Flatten(g)), Upper(Flatten(g));
            lo.x <= hi.x && lo.y <= hi.y && lo.z <= hi.z
  {
    BoxContainsControlPoints(g);
    assert InBox(g[0][0], Lower(Flatten(g)), Upper(Flatten(g)));
  }

  /** The null space `prepare` gets for a patch: that of `S_v(p)` with the default `v`. */
  function DefaultSv(p: Grid): seq<seq<real>>
    requires IsGrid(p)
  {
    DefaultExtShape(|p| - 1, |p[0]| - 1);
    SvRows(p, DefaultExt(|p| - 1, |p[0]| - 1))
  }

  /** What `prepare` makes of one patch, `null_space` being given. */
  function PrepareOne(p: Grid, nullSpace: Matrix -> Matrix): ImplicitPatch
    requires IsGrid(p) && forall s :: Rect(nullSpace(s))
  {
    FlattenNonEmpty(p);
    var pts := Flatten(p);
    ImplicitPatch(BuildM(nullSpace(DefaultSv(p))), Lower(pts), Upper(pts))
  }

  /** `build_M(b)`: builds `S_v(b)` in place, then splits its null space. */
  method BuildImplicit(b: Grid, nullSpace: Matrix -> Matrix) returns (m: Implicit)
    requires IsGrid(b) && forall s :: Rect(nullSpace(s))
    ensures m == BuildM(nullSpace(DefaultSv(b)))
  {
    var e := DefaultExt(|b| - 1, |b[0]| - 1);
    DefaultExtShape(|b| - 1, |b[0]| - 1);
    var r := BuildSv(b, None);
    var s := r.value;
    var rows := seq(s.Length0, i requires 0 <= i < s.Length0 reads s =>
                  seq(s.Length1, j requires 0 <= j < s.Length1 reads s => s[i, j]));
    MatrixExt(rows, DefaultSv(b));
    m := BuildM(nullSpace(rows));
  }

  /** `prepare(patches)`: one `(M, bounds_min, bounds_max)` per patch, in order. */
  method Prepare(patches: seq<Grid>, nullSpace: Matrix -> Matrix) returns (out: seq<ImplicitPatch>)
    requires AllGrids(patches) && forall s :: Rect(nullSpace(s))
    ensures |out| == |patches|
    ensures forall k :: 0 <= k < |patches| ==> out[k] == PrepareOne(patches[k], nullSpace)
  {
    out := [];
    var k := 0;
    while k < |patches|
      invariant 0 <= k <= |patches| && |out| == k
      invariant forall j :: 0 <= j < k ==> out[j] == PrepareOne(patches[j], nullSpace)
    {
      var p := patches[k];
      var m := BuildImplicit(p, nullSpace);
      FlattenNonEmpty(p);
      var pts := Flatten(p);
      out := out + [ImplicitPatch(m, Lower(pts), Upper(pts))];
      k := k + 1;
    }
  }
}
