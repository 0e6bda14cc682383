/** The implicit form of a patch (`build_M`) and its restriction to a ray
    (`parameterize_ray`). The null space of `S_v` is an input: its rows split
    into four equal blocks `N0, N1, N2, N3`, and the M-Rep of a point
    `(x, y, z)` is the matrix `N0 + x N1 + y N2 + z N3`. */
module MRep {
  import opened Geometry

  type Matrix = seq<seq<real>>

  /** Rows of equal length, as every NumPy 2-D array has. */
  predicate Rect(m: Matrix)
  {
    forall r :: 0 <= r < |m| ==> |m[r]| == |m[0]|
  }

  predicate SameShape(a: Matrix, b: Matrix)
  {
    |a| == |b| && forall r :: 0 <= r < |a| ==> |a[r]| == |b[r]|
  }

  function MatAdd(a: Matrix, b: Matrix): (s: Matrix)
    requires SameShape(a, b)
    ensures SameShape(s, a)
    ensures forall r, c :: 0 <= r < |a| && 0 <= c < |a[r]| ==> s[r][c] == a[r][c] + b[r][c]
  {
    seq(|a|, r requires 0 <= r < |a| => seq(|a[r]|, c requires 0 <= c < |a[r]| => a[r][c] + b[r][c]))
  }

  function MatSub(a: Matrix, b: Matrix): (s: Matrix)
    requires SameShape(a, b)
    ensures SameShape(s, a)
    ensures forall r, c :: 0 <= r < |a| && 0 <= c < |a[r]| ==> s[r][c] == a[r][c] - b[r][c]
  {
    seq(|a|, r requires 0 <= r < |a| => seq(|a[r]|, c requires 0 <= c < |a[r]| => a[r][c] - b[r][c]))
  }

  /** `a * t` on a NumPy array: every entry times the scalar. */
  function MatScale(a: Matrix, t: real): (s: Matrix)
    ensures SameShape(s, a)
    ensures forall r, c :: 0 <= r < |a| && 0 <= c < |a[r]| ==> s[r][c] == a[r][c] * t
  {
    seq(|a|, r requires 0 <= r < |a| => seq(|a[r]|, c requires 0 <= c < |a[r]| => a[r][c] * t))
  }

  /** Two matrices of one shape with the same entries are equal. */
  lemma MatrixExt(a: Matrix, b: Matrix)
    requires SameShape(a, b)
    requires forall r, c :: 0 <= r < |a| && 0 <= c < |a[r]| ==> a[r][c] == b[r][c]
    ensures a == b
  {
    forall r | 0 <= r < |a|
      ensures a[r] == b[r]
    {
      assert forall c :: 0 <= c < |a[r]| ==> a[r][c] == b[r][c];
    }
  }

  /** The four row blocks the returned lambda combines. */
  datatype Implicit = Implicit(n0: Matrix, n1: Matrix, n2: Matrix, n3: Matrix)

  predicate WellShaped(m: Implicit)
  {
    SameShape(m.n1, m.n0) && SameShape(m.n2, m.n0) && SameShape(m.n3, m.n0)
  }

  /** `build_M` given `ns = null_space(S_v(b))`: `i = int(rows / 4)` and
      the blocks `ns[:i]`, `ns[i:2i]`, `ns[2i:3i]`, `ns[3i:4i]`. */
  function BuildM(ns: Matrix): (m: Implicit)
    requires Rect(ns)
    ensures WellShaped(m)
    ensures |m.n0| == |ns| / 4
  {
    var i := |ns| / 4;
    Implicit(ns[..i], ns[i..2 * i], ns[2 * i..3 * i], ns[3 * i..4 * i])
  }

  /** When the row count is a multiple of 4 (as it is for `null_space(S_v(b))`,
      whose rows are the `4 * stride` columns of `S_v`) the blocks cover the
      null space exactly, in order. */
  lemma BuildMCovers(ns: Matrix)
    requires Rect(ns) && |ns| % 4 == 0
    ensures var m := BuildM(ns);
            m.n0 + m.n1 + m.n2 + m.n3 == ns
  {
    var i := |ns| / 4;
    Quarters(ns, i);
  }

  lemma Quarters<T>(s: seq<T>, i: nat)
    requires |s| == 4 * i
    ensures s[..i] + s[i..2 * i] + s[2 * i..3 * i] + s[3 * i..4 * i] == s
  {
    assert s[..i] + s[i..2 * i] == s[..2 * i];
    assert s[..2 * i] + s[2 * i..3 * i] == s[..3 * i];
  }

  /** `M(x, y, z) = N0 + N1 * x + N2 * y + N3 * z`, summed left to right. */
  function Eval(m: Implicit, p: Vec3): (s: Matrix)
    requires WellShaped(m)
    ensures SameShape(s, m.n0)
  {
    MatAdd(MatAdd(MatAdd(m.n0, MatScale(m.n1, p.x)), MatScale(m.n2, p.y)), MatScale(m.n3, p.z))
  }

  /** Every entry of `M(p)` is affine in the coordinates of `p`. */
  lemma EvalEntry(m: Implicit, p: Vec3, r: int, c: int)
    requires WellShaped(m) && 0 <= r < |m.n0| && 0 <= c < |m.n0[r]|
    ensures Eval(m, p)[r][c] == m.n0[r][c] + p.x * m.n1[r][c] + p.y * m.n2[r][c] + p.z * m.n3[r][c]
  {
  }

  /** `parameterize_ray`: `A = M(o)` and `B = M(o + d) - A`. */
  function ParameterizeRay(m: Implicit, o: Vec3, d: Vec3): (ab: (Matrix, Matrix))
    requires WellShaped(m)
    ensures SameShape(ab.0, m.n0) && SameShape(ab.1, m.n0)
  {
    var a := Eval(m, o);
    (a, MatSub(Eval(m, Add(o, d)), a))
  }

  /** `B = d.x N1 + d.y N2 + d.z N3`: it depends on the direction only. */
  lemma DirectionPart(m: Implicit, o: Vec3, d: Vec3)
    requires WellShaped(m)
    ensures var b := ParameterizeRay(m, o, d).1;
            forall r, c :: 0 <= r < |m.n0| && 0 <= c < |m.n0[r]| ==>
              b[r][c] == d.x * m.n1[r][c] + d.y * m.n2[r][c] + d.z * m.n3[r][c]
  {
    forall r, c | 0 <= r < |m.n0| && 0 <= c < |m.n0[r]|
      ensures ParameterizeRay(m, o, d).1[r][c] == d.x * m.n1[r][c] + d.y * m.n2[r][c] + d.z * m.n3[r][c]
    {
      DirectionEntry(m, o, d, r, c);
    }
  }

  lemma DirectionEntry(m: Implicit, o: Vec3, d: Vec3, r: int, c: int)
    requires WellShaped(m) && 0 <= r < |m.n0| && 0 <= c < |m.n0[r]|
    ensures ParameterizeRay(m, o, d).1[r][c] == d.x * m.n1[r][c] + d.y * m.n2[r][c] + d.z * m.n3[r][c]
  {
    EvalEntry(m, o, r, c);
    EvalEntry(m, Add(o, d), r, c);
  }

  lemma DirectionPartOnly(m: Implicit, o1: Vec3, o2: Vec3, d: Vec3)
    requires WellShaped(m)
    ensures ParameterizeRay(m, o1, d).1 == ParameterizeRay(m, o2, d).1
  {
    DirectionPart(m, o1, d);
    DirectionPart(m, o2, d);
    MatrixExt(ParameterizeRay(m, o1, d).1, ParameterizeRay(m, o2, d).1);
  }

  /** Substituting the ray `o + t d` into the M-Rep gives `A + t B`. */
  lemma RaySubstitution(m: Implicit, o: Vec3, d: Vec3, t: real)
    requires WellShaped(m)
    ensures var (a, b) := ParameterizeRay(m, o, d);
            Eval(m, Add(o, Scale(t, d))) == MatAdd(a, MatScale(b, t))
  {
    var (a, b) := ParameterizeRay(m, o, d);
    var lhs, rhs := Eval(m, Add(o, Scale(t, d))), MatAdd(a, MatScale(b, t));
    forall r, c | 0 <= r < |lhs| && 0 <= c < |lhs[r]|
      ensures lhs[r][c] == rhs[r][c]
    {
      RayEntry(m, o, d, t, r, c);
    }
    MatrixExt(lhs, rhs);
  }

  lemma RayEntry(m: Implicit, o: Vec3, d: Vec3, t: real, r: int, c: int)
    requires WellShaped(m) && 0 <= r < |m.n0| && 0 <= c < |m.n0[r]|
    ensures var (a, b) := ParameterizeRay(m, o, d);
            Eval(m, Add(o, Scale(t, d)))[r][c] == MatAdd(a, MatScale(b, t))[r][c]
  {
    EvalEntry(m, Add(o, Scale(t, d)), r, c);
    EvalEntry(m, o, r, c);
    EvalEntry(m, Add(o, d), r, c);
    Affine(m.n0[r][c], m.n1[r][c], m.n2[r][c], m.n3[r][c], o, d, t);
  }

  /** One entry of the substitution, as an identity between reals. */
  lemma Affine(n0: real, n1: real, n2: real, n3: real, o: Vec3, d: Vec3, t: real)
    ensures var p, q := Add(o, Scale(t, d)), Add(o, d);
            var e := n0 + o.x * n1 + o.y * n2 + o.z * n3;
            n0 + p.x * n1 + p.y * n2 + p.z * n3 == e + ((n0 + q.x * n1 + q.y * n2 + q.z * n3) - e) * t
  {
  }

  /** A generalized eigenvalue `e` of the pencil `(A, B)` makes `A - e B`
      singular, and `A - e B` is the M-Rep at `o - e d`: the root lies at
      distance `-e` along the ray, hence `dist = -e.real` in `raytrace`. */
  lemma PencilRoot(m: Implicit, o: Vec3, d: Vec3, e: real)
    requires WellShaped(m)
    ensures var (a, b) := ParameterizeRay(m, o, d);
            MatSub(a, MatScale(b, e)) == Eval(m, Add(o, Scale(-e, d)))
  {
    var (a, b) := ParameterizeRay(m, o, d);
    RaySubstitution(m, o, d, -e);
    var lhs, rhs := MatSub(a, MatScale(b, e)), MatAdd(a, MatScale(b, -e));
    MatrixExt(lhs, rhs);
  }
}
