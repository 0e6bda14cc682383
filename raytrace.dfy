/** `raytrace`: the nearest hit of a ray against prepared implicit patches.
    Patches whose bounding box the ray meets become targets, sorted by box
    distance; a target whose box lies beyond the best hit so far is skipped,
    and the roots of every other target's pencil are filtered down to real,
    non-negative, in-box roots with a parameter pre-image. `ray_box`,
    `pencil_eigenvalues` and the least-squares solve inside `preimages` are
    parameters. */
module Raytrace {
  import opened Geometry
  import opened MRep
  import opened Scene

  datatype Complex = Complex(re: real, im: real)

  /** `(box_dist, i, M, bounds_min, bounds_max)`. */
  datatype Target = Target(boxDist: real, index: nat, patch: ImplicitPatch)

  /** `min_dist` before any hit: `1e12`. */
  const Big: real := 1000000000000.0

  /** The tolerance `eps = 1e-8` of `raytrace` and `preimages`. */
  const Eps: real := 0.00000001

  /** The point at distance `t` along the ray: `ray_origin + ray_dir * t`. */
  function At(o: Vec3, d: Vec3, t: real): Vec3
  {
    Add(o, Scale(t, d))
  }

  /** `np.all((pt >= bounds_min - eps) * (pt <= bounds_max + eps))`. */
  predicate InInflatedBox(p: Vec3, lo: Vec3, hi: Vec3)
  {
    lo.x - Eps <= p.x <= hi.x + Eps && lo.y - Eps <= p.y <= hi.y + Eps && lo.z - Eps <= p.z <= hi.z + Eps
  }

  /** `preimages(M, P)`: the parameters `(u, v)` the least-squares solve
      gives, kept only when both lie in `[-eps, 1 + eps]`. */
  function Preimage(solveUv: (Implicit, Vec3) -> (real, real), m: Implicit, p: Vec3): (r: Option<(real, real)>)
    ensures r.Some? ==> r.value == solveUv(m, p) && -Eps <= r.value.0 <= 1.0 + Eps && -Eps <= r.value.1 <= 1.0 + Eps
    ensures r.None? <==> !(-Eps <= solveUv(m, p).0 <= 1.0 + Eps && -Eps <= solveUv(m, p).1 <= 1.0 + Eps)
  {
    var (u, v) := solveUv(m, p);
    if -Eps <= u && u <= 1.0 + Eps && -Eps <= v && v <= 1.0 + Eps then Some((u, v)) else None
  }

  predicate Shaped(ps: seq<ImplicitPatch>)
  {
    forall k :: 0 <= k < |ps| ==> WellShaped(ps[k].m)
  }

  /** The roots `pencil_eigenvalues(*parameterize_ray(M, o, d))` of a patch. */
  function Roots(eigen: (Matrix, Matrix) -> seq<Complex>, p: ImplicitPatch, o: Vec3, d: Vec3): seq<Complex>
    requires WellShaped(p.m)
  {
    var (a, b) := ParameterizeRay(p.m, o, d);
    eigen(a, b)
  }

  /** A root every filter of the inner loop lets through, whatever the
      best distance: nearly real, at a non-negative distance `-re`, inside
      the inflated box, and with a pre-image. */
  predicate Candidate(o: Vec3, d: Vec3, solveUv: (Implicit, Vec3) -> (real, real), p: ImplicitPatch, e: Complex)
  {
    && Abs(e.im) <= Eps
    && -e.re >= 0.0
    && InInflatedBox(At(o, d, -e.re), p.lo, p.hi)
    && Preimage(solveUv, p.m, At(o, d, -e.re)).Some?
  }

  /** No candidate root among `roots` is nearer than `best`. */
  predicate Settled(o: Vec3, d: Vec3, solveUv: (Implicit, Vec3) -> (real, real), p: ImplicitPatch,
                    roots: seq<Complex>, best: real)
  {
    forall k :: 0 <= k < |roots| && Candidate(o, d, solveUv, p, roots[k]) ==> best <= -roots[k].re
  }

  /** Every candidate root from position `from` on lies strictly beyond
      `best`: none of them would pass the `dist > min_dist` test. */
  predicate Beyond(o: Vec3, d: Vec3, solveUv: (Implicit, Vec3) -> (real, real), p: ImplicitPatch,
                   roots: seq<Complex>, from: int, best: real)
  {
    forall k :: 0 <= from <= k < |roots| && Candidate(o, d, solveUv, p, roots[k]) ==> best < -roots[k].re
  }

  // ---------------------------------------------------------------------
  // Targets

  /** The targets collected from the patches, in patch order. */
  function Collect(o: Vec3, d: Vec3, ps: seq<ImplicitPatch>, rayBox: (Vec3, Vec3, Vec3, Vec3) -> Option<real>): seq<Target>
  {
    if |ps| == 0 then []
    else
      var rest := Collect(o, d, ps[..|ps| - 1], rayBox);
      var last := ps[|ps| - 1];
      match rayBox(o, d, last.lo, last.hi)
      case None => rest
      case Some(dist) => rest + [Target(dist, |ps| - 1, last)]
  }

  /** The ray meets target `t`'s box: `t` names patch `t.index` and the distance `ray_box` gave. */
  predicate Hit(o: Vec3, d: Vec3, ps: seq<ImplicitPatch>, rayBox: (Vec3, Vec3, Vec3, Vec3) -> Option<real>, t: Target)
  {
    t.index < |ps| && t.patch == ps[t.index] && rayBox(o, d, ps[t.index].lo, ps[t.index].hi) == Some(t.boxDist)
  }

  /** The targets are exactly the patches whose box `ray_box` reports as
      hit, once each, in increasing patch order. */
  lemma {:induction false} CollectExact(o: Vec3, d: Vec3, ps: seq<ImplicitPatch>, rayBox: (Vec3, Vec3, Vec3, Vec3) -> Option<real>)
    ensures var ts := Collect(o, d, ps, rayBox);
            && (forall t :: t in ts <==> Hit(o, d, ps, rayBox, t))
            && (forall i, j :: 0 <= i < j < |ts| ==> ts[i].index < ts[j].index)
  {
    if |ps| > 0 {
      var init := ps[..|ps| - 1];
      CollectExact(o, d, init, rayBox);
      forall t | Hit(o, d, init, rayBox, t)
        ensures Hit(o, d, ps, rayBox, t)
      {
        assert init[t.index] == ps[t.index];
      }
      forall t | Hit(o, d, ps, rayBox, t) && t.index < |init|
        ensures Hit(o, d, init, rayBox, t)
      {
        assert init[t.index] == ps[t.index];
      }
      CollectBelow(o, d, init, rayBox);
    }
  }

  lemma {:induction false} CollectBelow(o: Vec3, d: Vec3, ps: seq<ImplicitPatch>, rayBox: (Vec3, Vec3, Vec3, Vec3) -> Option<real>)
    ensures forall t :: t in Collect(o, d, ps, rayBox) ==> t.index < |ps|
  {
    if |ps| > 0 {
      CollectBelow(o, d, ps[..|ps| - 1], rayBox);
    }
  }

  /** The order `targets.sort()` puts tuples in: by box distance, then by
      patch index (the indices are distinct, so later fields never matter). */
  predicate KeyLe(a: Target, b: Target)
  {
    a.boxDist < b.boxDist || (a.boxDist == b.boxDist && a.index <= b.index)
  }

  predicate Sorted(s: seq<Target>)
  {
    forall i, j :: 0 <= i < j < |s| ==> KeyLe(s[i], s[j])
  }

  function Insert(t: Target, s: seq<Target>): seq<Target>
  {
    if |s| == 0 then [t]
    else if KeyLe(t, s[0]) then [t] + s
    else [s[0]] + Insert(t, s[1..])
  }

  /** `targets.sort()`, as the insertion sort that yields the same list. */
  function SortTargets(s: seq<Target>): seq<Target>
  {
    if |s| == 0 then [] else Insert(s[0], SortTargets(s[1..]))
  }

  lemma {:induction false} InsertElements(t: Target, s: seq<Target>)
    ensures multiset(Insert(t, s)) == multiset(s) + multiset{t}
    ensures forall x :: x in Insert(t, s) <==> x == t || x in s
  {
    if |s| > 0 && !KeyLe(t, s[0]) {
      InsertElements(t, s[1..]);
      assert s == [s[0]] + s[1..];
    }
  }

  lemma {:induction false} InsertSorted(t: Target, s: seq<Target>)
    requires Sorted(s)
    ensures Sorted(Insert(t, s))
  {
    if |s| > 0 && !KeyLe(t, s[0]) {
      InsertSorted(t, s[1..]);
      InsertElements(t, s[1..]);
      var r := Insert(t, s[1..]);
      forall x | x in r
        ensures KeyLe(s[0], x)
      {
        if x != t {
          var k :| 0 <= k < |s[1..]| && s[1..][k] == x;
          assert s[k + 1] == x;
        }
      }
      assert Insert(t, s) == [s[0]] + r;
    }
  }

  /** Sorting yields a list ordered by `(box_dist, index)` holding the same targets. */
  lemma {:induction false} SortTargetsCorrect(s: seq<Target>)
    ensures Sorted(SortTargets(s)) && multiset(SortTargets(s)) == multiset(s)
  {
    if |s| > 0 {
      SortTargetsCorrect(s[1..]);
      InsertSorted(s[0], SortTargets(s[1..]));
      InsertElements(s[0], SortTargets(s[1..]));
      assert s == [s[0]] + s[1..];
    }
  }

  // ---------------------------------------------------------------------
  // The search

  function CountTrue(s: seq<bool>): nat
  {
    if |s| == 0 then 0 else CountTrue(s[..|s| - 1]) + (if s[|s| - 1] then 1 else 0)
  }

  lemma CountSnoc(s: seq<bool>, b: bool)
    ensures CountTrue(s + [b]) == CountTrue(s) + (if b then 1 else 0)
  {
    assert (s + [b])[..|s|] == s;
  }

  /** The loop over `eigs` for one target: every root that passes the
      filters and is no farther than the best so far becomes the new best,
      so a root at exactly the best distance replaces the earlier hit and
      the last such root wins. */
  method ScanRoots(o: Vec3, d: Vec3, solveUv: (Implicit, Vec3) -> (real, real), t: Target, eigs: seq<Complex>,
                   minDist0: real, hitIndex0: Option<nat>, hitUv0: Option<(real, real)>)
    returns (minDist: real, hitIndex: Option<nat>, hitUv: Option<(real, real)>, ghost found: bool, ghost rootAt: nat)
    ensures minDist <= minDist0
    ensures Settled(o, d, solveUv, t.patch, eigs, minDist)
    ensures !found <==> Beyond(o, d, solveUv, t.patch, eigs, 0, minDist0)
    ensures !found ==> minDist == minDist0 && hitIndex == hitIndex0 && hitUv == hitUv0
    ensures found ==> rootAt < |eigs| && Candidate(o, d, solveUv, t.patch, eigs[rootAt]) && minDist == -eigs[rootAt].re
                      && hitIndex == Some(t.index) && hitUv == Preimage(solveUv, t.patch.m, At(o, d, minDist))
                      && Beyond(o, d, solveUv, t.patch, eigs, rootAt + 1, minDist)
  {
    minDist, hitIndex, hitUv := minDist0, hitIndex0, hitUv0;
    found, rootAt := false, 0;
    var q := 0;
    while q < |eigs|
      invariant 0 <= q <= |eigs|
      invariant minDist <= minDist0
      invariant forall k :: 0 <= k < q && Candidate(o, d, solveUv, t.patch, eigs[k]) ==> minDist <= -eigs[k].re
      invariant !found ==> minDist == minDist0 && hitIndex == hitIndex0 && hitUv == hitUv0
                           && forall k :: 0 <= k < q && Candidate(o, d, solveUv, t.patch, eigs[k]) ==> minDist0 < -eigs[k].re
      invariant found ==> rootAt < q && Candidate(o, d, solveUv, t.patch, eigs[rootAt]) && minDist == -eigs[rootAt].re
                          && hitIndex == Some(t.index) && hitUv == Preimage(solveUv, t.patch.m, At(o, d, minDist))
                          && forall k :: rootAt < k < q && Candidate(o, d, solveUv, t.patch, eigs[k]) ==> minDist < -eigs[k].re
    {
      var e := eigs[q];
      if Abs(e.im) > Eps {
        q := q + 1;
        continue;
      }
      var dist := -e.re;
      if dist < 0.0 || dist > minDist {
        q := q + 1;
        continue;
      }
      var pt := At(o, d, dist);
      if !InInflatedBox(pt, t.patch.lo, t.patch.hi) {
        q := q + 1;
        continue;
      }
      var uv := Preimage(solveUv, t.patch.m, pt);
      if uv.None? {
        q := q + 1;
        continue;
      }
      minDist, hitIndex, hitUv := dist, Some(t.index), uv;
      found, rootAt := true, q;
      q := q + 1;
    }
  }

  /** The first loop of `raytrace`: a target per patch whose box the ray meets. */
  method CollectTargets(o: Vec3, d: Vec3, patches: seq<ImplicitPatch>, rayBox: (Vec3, Vec3, Vec3, Vec3) -> Option<real>)
    returns (collected: seq<Target>)
    ensures collected == Collect(o, d, patches, rayBox)
  {
    collected := [];
    var i := 0;
    while i < |patches|
      invariant 0 <= i <= |patches|
      invariant collected == Collect(o, d, patches[..i], rayBox)
    {
      assert patches[..i + 1][..i] == patches[..i];
      var p := patches[i];
      var boxDist := rayBox(o, d, p.lo, p.hi);
      if boxDist.Some? {
        collected := collected + [Target(boxDist.value, i, p)];
      }
      i := i + 1;
    }
    assert patches[..i] == patches;
  }

  /** What the search has established once it has visited `|examined|`
      targets with best distance `best`: a skipped target's box lies beyond
      `best`, and no root of a searched target is a nearer candidate. */
  predicate Searched(o: Vec3, d: Vec3, eigen: (Matrix, Matrix) -> seq<Complex>, solveUv: (Implicit, Vec3) -> (real, real),
                     targets: seq<Target>, examined: seq<bool>, best: real)
  {
    && |examined| <= |targets|
    && forall j :: 0 <= j < |examined| ==>
         if examined[j] then
           WellShaped(targets[j].patch.m) && Settled(o, d, solveUv, targets[j].patch, Roots(eigen, targets[j].patch, o, d), best)
         else targets[j].boxDist > best
  }

  lemma SearchedLower(o: Vec3, d: Vec3, eigen: (Matrix, Matrix) -> seq<Complex>, solveUv: (Implicit, Vec3) -> (real, real),
                      targets: seq<Target>, examined: seq<bool>, best: real, best': real)
    requires Searched(o, d, eigen, solveUv, targets, examined, best) && best' <= best
    ensures Searched(o, d, eigen, solveUv, targets, examined, best')
  {
  }

  lemma SearchedSkip(o: Vec3, d: Vec3, eigen: (Matrix, Matrix) -> seq<Complex>, solveUv: (Implicit, Vec3) -> (real, real),
                     targets: seq<Target>, examined: seq<bool>, best: real)
    requires Searched(o, d, eigen, solveUv, targets, examined, best)
    requires |examined| < |targets| && targets[|examined|].boxDist > best
    ensures Searched(o, d, eigen, solveUv, targets, examined + [false], best)
  {
  }

  lemma SearchedScan(o: Vec3, d: Vec3, eigen: (Matrix, Matrix) -> seq<Complex>, solveUv: (Implicit, Vec3) -> (real, real),
                     targets: seq<Target>, examined: seq<bool>, best: real, best': real)
    requires Searched(o, d, eigen, solveUv, targets, examined, best) && best' <= best
    requires |examined| < |targets| && WellShaped(targets[|examined|].patch.m)
    requires Settled(o, d, solveUv, targets[|examined|].patch, Roots(eigen, targets[|examined|].patch, o, d), best')
    ensures Searched(o, d, eigen, solveUv, targets, examined + [true], best')
  {
    SearchedLower(o, d, eigen, solveUv, targets, examined, best, best');
  }

  /** The pruning record of a search that has visited `|examined|` targets:
      `before[j]` is the `min_dist` target `j` met, starting at `1e12` and
      never increasing, and target `j` went to `pencil_eigenvalues` exactly
      when its box distance was not beyond `before[j]`. */
  predicate Pruned(targets: seq<Target>, examined: seq<bool>, before: seq<real>, best: real)
  {
    && |before| == |examined| <= |targets|
    && (|before| > 0 ==> before[0] == Big)
    && (forall i, j :: 0 <= i < j < |before| ==> before[j] <= before[i])
    && (forall j :: 0 <= j < |before| ==> best <= before[j])
    && (forall j :: 0 <= j < |before| ==> (examined[j] <==> targets[j].boxDist <= before[j]))
  }

  lemma PrunedStep(targets: seq<Target>, examined: seq<bool>, before: seq<real>, best: real, best': real)
    requires Pruned(targets, examined, before, best) && |examined| < |targets| && best' <= best
    requires |examined| == 0 ==> best == Big
    ensures Pruned(targets, examined + [targets[|examined|].boxDist <= best], before + [best], best')
  {
  }

  /** What one target does to `min_dist`: a skipped target leaves `met`
      as it was; a searched one leaves the nearer of `met` and its nearest
      candidate root, so `left` is `met` or the distance of a candidate,
      and no candidate is nearer. */
  predicate Stepped(o: Vec3, d: Vec3, eigen: (Matrix, Matrix) -> seq<Complex>, solveUv: (Implicit, Vec3) -> (real, real),
                    t: Target, searched: bool, met: real, left: real)
  {
    if !searched then left == met
    else
      && left <= met && WellShaped(t.patch.m)
      && var roots := Roots(eigen, t.patch, o, d);
         && Settled(o, d, solveUv, t.patch, roots, left)
         && (left == met || exists q :: 0 <= q < |roots| && Candidate(o, d, solveUv, t.patch, roots[q]) && left == -roots[q].re)
  }

  /** The `min_dist` target `j` left behind: the one target `j + 1` met,
      or the final one after the last target. */
  function Left(before: seq<real>, j: int, best: real): real
    requires 0 <= j < |before|
  {
    if j + 1 < |before| then before[j + 1] else best
  }

  /** The record `before` follows the running `min_dist`: from `1e12`
      before any target, each target turns the value it met into the value
      the next one meets, the last one into `best`. */
  predicate Tracked(o: Vec3, d: Vec3, eigen: (Matrix, Matrix) -> seq<Complex>, solveUv: (Implicit, Vec3) -> (real, real),
                    targets: seq<Target>, examined: seq<bool>, before: seq<real>, best: real)
  {
    && |before| == |examined| <= |targets|
    && (|before| == 0 ==> best == Big)
    && forall j :: 0 <= j < |before| ==>
         Stepped(o, d, eigen, solveUv, targets[j], examined[j], before[j], Left(before, j, best))
  }

  lemma TrackedStep(o: Vec3, d: Vec3, eigen: (Matrix, Matrix) -> seq<Complex>, solveUv: (Implicit, Vec3) -> (real, real),
                    targets: seq<Target>, examined: seq<bool>, before: seq<real>, best: real, b: bool, best': real)
    requires Tracked(o, d, eigen, solveUv, targets, examined, before, best) && |examined| < |targets|
    requires Stepped(o, d, eigen, solveUv, targets[|examined|], b, best, best')
    ensures Tracked(o, d, eigen, solveUv, targets, examined + [b], before + [best], best')
  {
    var examined', before' := examined + [b], before + [best];
    forall j | 0 <= j < |before'|
      ensures Stepped(o, d, eigen, solveUv, targets[j], examined'[j], before'[j], Left(before', j, best'))
    {
      if j < |before| {
        assert Left(before', j, best') == Left(before, j, best);
      }
    }
  }

  /** A target's step is a function of the value it met. */
  lemma SteppedUnique(o: Vec3, d: Vec3, eigen: (Matrix, Matrix) -> seq<Complex>, solveUv: (Implicit, Vec3) -> (real, real),
                      t: Target, searched: bool, met: real, left1: real, left2: real)
    requires Stepped(o, d, eigen, solveUv, t, searched, met, left1)
    requires Stepped(o, d, eigen, solveUv, t, searched, met, left2)
    ensures left1 == left2
  {
    if searched {
      var roots := Roots(eigen, t.patch, o, d);
      if left1 < met {
        var q :| 0 <= q < |roots| && Candidate(o, d, solveUv, t.patch, roots[q]) && left1 == -roots[q].re;
        assert left2 <= left1;
      }
      if left2 < met {
        var q :| 0 <= q < |roots| && Candidate(o, d, solveUv, t.patch, roots[q]) && left2 == -roots[q].re;
        assert left1 <= left2;
      }
    }
  }

  /** The pruning record and the step record together determine the whole
      run: two runs over the same targets that both satisfy them agree on
      which targets were searched, on every `min_dist` met, and on the
      final one. */
  lemma {:induction false} RunDetermined(o: Vec3, d: Vec3, eigen: (Matrix, Matrix) -> seq<Complex>,
                                         solveUv: (Implicit, Vec3) -> (real, real), targets: seq<Target>,
                                         examined1: seq<bool>, before1: seq<real>, best1: real,
                                         examined2: seq<bool>, before2: seq<real>, best2: real)
    requires |examined1| == |examined2| == |targets|
    requires Pruned(targets, examined1, before1, best1) && Tracked(o, d, eigen, solveUv, targets, examined1, before1, best1)
    requires Pruned(targets, examined2, before2, best2) && Tracked(o, d, eigen, solveUv, targets, examined2, before2, best2)
    ensures examined1 == examined2 && before1 == before2 && best1 == best2
  {
    var n := |targets|;
    var j := 0;
    while j < n
      invariant 0 <= j <= n
      invariant forall i :: 0 <= i < j ==> examined1[i] == examined2[i]
      invariant forall i :: 0 <= i <= j && i < n ==> before1[i] == before2[i]
      invariant j == n && n > 0 ==> best1 == best2
    {
      SteppedUnique(o, d, eigen, solveUv, targets[j], examined1[j], before1[j],
                    Left(before1, j, best1), Left(before2, j, best2));
      j := j + 1;
    }
  }

  /** The accepted hit is unique: the last searched target owning a
      candidate at `best`, and its last such root. */
  lemma HitDetermined(o: Vec3, d: Vec3, eigen: (Matrix, Matrix) -> seq<Complex>, solveUv: (Implicit, Vec3) -> (real, real),
                      targets: seq<Target>, examined: seq<bool>, best: real,
                      j1: int, q1: int, hitIndex1: Option<nat>, hitUv1: Option<(real, real)>,
                      j2: int, q2: int, hitIndex2: Option<nat>, hitUv2: Option<(real, real)>)
    requires Accepted(o, d, eigen, solveUv, targets, examined, j1, q1, best, hitIndex1, hitUv1)
    requires Accepted(o, d, eigen, solveUv, targets, examined, j2, q2, best, hitIndex2, hitUv2)
    ensures j1 == j2 && q1 == q2 && hitIndex1 == hitIndex2 && hitUv1 == hitUv2
  {
    if j1 < j2 {
      assert false;
    }
    if j2 < j1 {
      assert false;
    }
  }

  /** No searched target from `from` on owns a candidate root at `best` or nearer. */
  predicate Missed(o: Vec3, d: Vec3, eigen: (Matrix, Matrix) -> seq<Complex>, solveUv: (Implicit, Vec3) -> (real, real),
                   targets: seq<Target>, examined: seq<bool>, from: int, best: real)
  {
    && |examined| <= |targets|
    && forall k :: 0 <= from <= k < |examined| && examined[k] ==>
         WellShaped(targets[k].patch.m) && Beyond(o, d, solveUv, targets[k].patch, Roots(eigen, targets[k].patch, o, d), 0, best)
  }

  /** Root `q` of searched target `j` is the accepted hit: a candidate at
      distance `best` whose pre-image is `hitUv`, with no candidate at that
      distance or nearer after it, in its own roots or in later searched
      targets (the last root at the best distance wins). */
  predicate Accepted(o: Vec3, d: Vec3, eigen: (Matrix, Matrix) -> seq<Complex>, solveUv: (Implicit, Vec3) -> (real, real),
                     targets: seq<Target>, examined: seq<bool>, j: int, q: int, best: real,
                     hitIndex: Option<nat>, hitUv: Option<(real, real)>)
  {
    && 0 <= j < |examined| <= |targets| && examined[j] && WellShaped(targets[j].patch.m)
    && hitIndex == Some(targets[j].index)
    && var roots := Roots(eigen, targets[j].patch, o, d);
       && 0 <= q < |roots| && Candidate(o, d, solveUv, targets[j].patch, roots[q]) && best == -roots[q].re
       && hitUv == Preimage(solveUv, targets[j].patch.m, At(o, d, best))
       && Beyond(o, d, solveUv, targets[j].patch, roots, q + 1, best)
       && Missed(o, d, eigen, solveUv, targets, examined, j + 1, best)
  }

  lemma AcceptedExtend(o: Vec3, d: Vec3, eigen: (Matrix, Matrix) -> seq<Complex>, solveUv: (Implicit, Vec3) -> (real, real),
                       targets: seq<Target>, examined: seq<bool>, j: int, q: int, best: real,
                       hitIndex: Option<nat>, hitUv: Option<(real, real)>, b: bool)
    requires Accepted(o, d, eigen, solveUv, targets, examined, j, q, best, hitIndex, hitUv) && |examined| < |targets|
    requires b ==> WellShaped(targets[|examined|].patch.m)
                   && Beyond(o, d, solveUv, targets[|examined|].patch, Roots(eigen, targets[|examined|].patch, o, d), 0, best)
    ensures Accepted(o, d, eigen, solveUv, targets, examined + [b], j, q, best, hitIndex, hitUv)
  {
    MissedExtend(o, d, eigen, solveUv, targets, examined, j + 1, best, b);
  }

  lemma MissedExtend(o: Vec3, d: Vec3, eigen: (Matrix, Matrix) -> seq<Complex>, solveUv: (Implicit, Vec3) -> (real, real),
                     targets: seq<Target>, examined: seq<bool>, from: int, best: real, b: bool)
    requires Missed(o, d, eigen, solveUv, targets, examined, from, best) && |examined| < |targets|
    requires b ==> WellShaped(targets[|examined|].patch.m)
                   && Beyond(o, d, solveUv, targets[|examined|].patch, Roots(eigen, targets[|examined|].patch, o, d), 0, best)
    ensures Missed(o, d, eigen, solveUv, targets, examined + [b], from, best)
  {
  }

  /** The invariant of the second loop of `raytrace` after `|examined|` targets. */
  predicate SearchInv(o: Vec3, d: Vec3, eigen: (Matrix, Matrix) -> seq<Complex>, solveUv: (Implicit, Vec3) -> (real, real),
                      targets: seq<Target>, examined: seq<bool>, before: seq<real>, actualSearch: nat,
                      minDist: real, hitIndex: Option<nat>, hitUv: Option<(real, real)>, hitAt: nat, hitQ: nat)
  {
    && |examined| <= |targets|
    && actualSearch == CountTrue(examined) && actualSearch <= |examined|
    && minDist <= Big
    && Pruned(targets, examined, before, minDist)
    && Tracked(o, d, eigen, solveUv, targets, examined, before, minDist)
    && Searched(o, d, eigen, solveUv, targets, examined, minDist)
    && PrefixClosed(examined)
    && (hitIndex.None? ==> minDist == Big && hitUv.None? && Missed(o, d, eigen, solveUv, targets, examined, 0, Big))
    && (hitIndex.Some? ==> Accepted(o, d, eigen, solveUv, targets, examined, hitAt, hitQ, minDist, hitIndex, hitUv))
  }

  /** A target whose box lies beyond the best distance is skipped. */
  lemma SkipStep(o: Vec3, d: Vec3, eigen: (Matrix, Matrix) -> seq<Complex>, solveUv: (Implicit, Vec3) -> (real, real),
                 targets: seq<Target>, examined: seq<bool>, before: seq<real>, actualSearch: nat,
                 minDist: real, hitIndex: Option<nat>, hitUv: Option<(real, real)>, hitAt: nat, hitQ: nat)
    returns (examined': seq<bool>, before': seq<real>)
    requires SearchInv(o, d, eigen, solveUv, targets, examined, before, actualSearch, minDist, hitIndex, hitUv, hitAt, hitQ)
    requires |examined| < |targets| && targets[|examined|].boxDist > minDist
    ensures |examined'| == |examined| + 1
    ensures SearchInv(o, d, eigen, solveUv, targets, examined', before', actualSearch, minDist, hitIndex, hitUv, hitAt, hitQ)
  {
    examined', before' := examined + [false], before + [minDist];
    PrunedStep(targets, examined, before, minDist, minDist);
    TrackedStep(o, d, eigen, solveUv, targets, examined, before, minDist, false, minDist);
    SearchedSkip(o, d, eigen, solveUv, targets, examined, minDist);
    ExtendPrefix(examined, false);
    CountSnoc(examined, false);
    if hitIndex.Some? {
      AcceptedExtend(o, d, eigen, solveUv, targets, examined, hitAt, hitQ, minDist, hitIndex, hitUv, false);
    } else {
      MissedExtend(o, d, eigen, solveUv, targets, examined, 0, minDist, false);
    }
  }

  /** A searched target, its roots scanned as `ScanRoots` promises. */
  lemma ScanStep(o: Vec3, d: Vec3, eigen: (Matrix, Matrix) -> seq<Complex>, solveUv: (Implicit, Vec3) -> (real, real),
                 targets: seq<Target>, examined: seq<bool>, before: seq<real>, actualSearch: nat,
                 minDist0: real, hitIndex0: Option<nat>, hitUv0: Option<(real, real)>, hitAt: nat, hitQ: nat,
                 minDist: real, hitIndex: Option<nat>, hitUv: Option<(real, real)>, found: bool, rootAt: nat)
    requires Sorted(targets)
    requires SearchInv(o, d, eigen, solveUv, targets, examined, before, actualSearch, minDist0, hitIndex0, hitUv0, hitAt, hitQ)
    requires |examined| < |targets| && targets[|examined|].boxDist <= minDist0
    requires WellShaped(targets[|examined|].patch.m)
    requires var t, eigs := targets[|examined|], Roots(eigen, targets[|examined|].patch, o, d);
             && minDist <= minDist0
             && Settled(o, d, solveUv, t.patch, eigs, minDist)
             && (!found <==> Beyond(o, d, solveUv, t.patch, eigs, 0, minDist0))
             && (!found ==> minDist == minDist0 && hitIndex == hitIndex0 && hitUv == hitUv0)
             && (found ==> rootAt < |eigs| && Candidate(o, d, solveUv, t.patch, eigs[rootAt]) && minDist == -eigs[rootAt].re
                           && hitIndex == Some(t.index) && hitUv == Preimage(solveUv, t.patch.m, At(o, d, minDist))
                           && Beyond(o, d, solveUv, t.patch, eigs, rootAt + 1, minDist))
    ensures var n := |examined|;
            SearchInv(o, d, eigen, solveUv, targets, examined + [true], before + [minDist0], actualSearch + 1,
                      minDist, hitIndex, hitUv, if found then n else hitAt, if found then rootAt else hitQ)
  {
    SkippedStayBehind(o, d, eigen, solveUv, targets, examined, minDist0);
    ExtendPrefix(examined, true);
    CountSnoc(examined, true);
    PrunedStep(targets, examined, before, minDist0, minDist);
    TrackedStep(o, d, eigen, solveUv, targets, examined, before, minDist0, true, minDist);
    SearchedScan(o, d, eigen, solveUv, targets, examined, minDist0, minDist);
    if !found {
      if hitIndex.Some? {
        AcceptedExtend(o, d, eigen, solveUv, targets, examined, hitAt, hitQ, minDist, hitIndex, hitUv, true);
      } else {
        MissedExtend(o, d, eigen, solveUv, targets, examined, 0, minDist, true);
      }
    }
  }

  /** The body of the second loop for a target that is not skipped: the
      ray is substituted into its M-Rep and the roots of the pencil scanned. */
  method Visit(o: Vec3, d: Vec3, eigen: (Matrix, Matrix) -> seq<Complex>, solveUv: (Implicit, Vec3) -> (real, real),
               targets: seq<Target>, n: nat, ghost examined: seq<bool>, ghost before: seq<real>, ghost actualSearch: nat,
               minDist0: real, hitIndex0: Option<nat>, hitUv0: Option<(real, real)>, ghost hitAt0: nat, ghost hitQ0: nat)
    returns (minDist: real, hitIndex: Option<nat>, hitUv: Option<(real, real)>, ghost hitAt: nat, ghost hitQ: nat,
             ghost examined': seq<bool>, ghost before': seq<real>)
    requires Sorted(targets)
    requires SearchInv(o, d, eigen, solveUv, targets, examined, before, actualSearch, minDist0, hitIndex0, hitUv0, hitAt0, hitQ0)
    requires n == |examined| < |targets| && targets[n].boxDist <= minDist0
    requires WellShaped(targets[n].patch.m)
    ensures |examined'| == n + 1
    ensures SearchInv(o, d, eigen, solveUv, targets, examined', before', actualSearch + 1, minDist, hitIndex, hitUv, hitAt, hitQ)
  {
    var t := targets[n];
    var (a, b) := ParameterizeRay(t.patch.m, o, d);
    var eigs := eigen(a, b);
    ghost var found, rootAt;
    minDist, hitIndex, hitUv, found, rootAt := ScanRoots(o, d, solveUv, t, eigs, minDist0, hitIndex0, hitUv0);
    ScanStep(o, d, eigen, solveUv, targets, examined, before, actualSearch, minDist0, hitIndex0, hitUv0, hitAt0, hitQ0,
             minDist, hitIndex, hitUv, found, rootAt);
    hitAt, hitQ := if found then n else hitAt0, if found then rootAt else hitQ0;
    examined', before' := examined + [true], before + [minDist0];
  }

  /** The second loop of `raytrace`: visits the sorted targets, skipping
      those whose box lies beyond the best distance so far. */
  method Search(o: Vec3, d: Vec3, targets: seq<Target>,
                eigen: (Matrix, Matrix) -> seq<Complex>,
                solveUv: (Implicit, Vec3) -> (real, real))
    returns (minDist: real, hitIndex: Option<nat>, hitUv: Option<(real, real)>, actualSearch: nat,
             ghost examined: seq<bool>, ghost before: seq<real>)
    requires Sorted(targets)
    requires forall j :: 0 <= j < |targets| ==> WellShaped(targets[j].patch.m)
    ensures |examined| == |targets| && actualSearch == CountTrue(examined) && actualSearch <= |targets|
    ensures Pruned(targets, examined, before, minDist)
    ensures Tracked(o, d, eigen, solveUv, targets, examined, before, minDist)
    ensures Searched(o, d, eigen, solveUv, targets, examined, minDist)
    ensures PrefixClosed(examined)
    ensures minDist <= Big
    ensures hitIndex.None? ==> minDist == Big && hitUv.None? && Missed(o, d, eigen, solveUv, targets, examined, 0, Big)
    ensures hitIndex.Some? ==> exists j, q :: Accepted(o, d, eigen, solveUv, targets, examined, j, q, minDist, hitIndex, hitUv)
  {
    minDist, hitIndex, hitUv := Big, None, None;
    actualSearch := 0;
    examined, before := [], [];
    ghost var hitAt: nat, hitQ: nat := 0, 0;
    var n := 0;
    while n < |targets|
      invariant n == |examined|
      invariant SearchInv(o, d, eigen, solveUv, targets, examined, before, actualSearch, minDist, hitIndex, hitUv, hitAt, hitQ)
    {
      var t := targets[n];
      if t.boxDist > minDist {
        examined, before :=
          SkipStep(o, d, eigen, solveUv, targets, examined, before, actualSearch, minDist, hitIndex, hitUv, hitAt, hitQ);
        n := n + 1;
        continue;
      }
      minDist, hitIndex, hitUv, hitAt, hitQ, examined, before :=
        Visit(o, d, eigen, solveUv, targets, n, examined, before, actualSearch, minDist, hitIndex, hitUv, hitAt, hitQ);
      actualSearch := actualSearch + 1;
      n := n + 1;
    }
  }

  /** `raytrace(ray_origin, ray_dir, implicit_patches)`: the best distance,
      the index and parameters of the patch hit there, the number of targets
      and the number of targets searched. `targets`, `examined` (which
      targets reached `pencil_eigenvalues`) and `before` (the `min_dist`
      each target met) record the run. */
  method Raytrace(o: Vec3, d: Vec3, patches: seq<ImplicitPatch>,
                  rayBox: (Vec3, Vec3, Vec3, Vec3) -> Option<real>,
                  eigen: (Matrix, Matrix) -> seq<Complex>,
                  solveUv: (Implicit, Vec3) -> (real, real))
    returns (minDist: real, hitIndex: Option<nat>, hitUv: Option<(real, real)>, targetCount: nat, actualSearch: nat,
             ghost targets: seq<Target>, ghost examined: seq<bool>, ghost before: seq<real>)
    requires Shaped(patches)
    ensures targets == SortTargets(Collect(o, d, patches, rayBox)) && targetCount == |targets|
    ensures Sorted(targets) && forall t :: t in targets <==> Hit(o, d, patches, rayBox, t)
    ensures |examined| == |targets| && |before| == |targets|
    ensures actualSearch == CountTrue(examined) && actualSearch <= targetCount
    ensures forall j :: 0 <= j < |targets| ==> Hit(o, d, patches, rayBox, targets[j]) && WellShaped(targets[j].patch.m)
    ensures |targets| > 0 ==> before[0] == Big
    ensures forall i, j :: 0 <= i < j < |targets| ==> before[j] <= before[i]
    ensures forall j :: 0 <= j < |targets| ==> minDist <= before[j]
    ensures forall j :: 0 <= j < |targets| ==> (examined[j] <==> targets[j].boxDist <= before[j])
    ensures |targets| == 0 ==> minDist == Big
    ensures forall j :: 0 <= j < |targets| ==>
              Stepped(o, d, eigen, solveUv, targets[j], examined[j], before[j], Left(before, j, minDist))
    ensures forall j :: 0 <= j < |targets| && examined[j] ==>
              Settled(o, d, solveUv, targets[j].patch, Roots(eigen, targets[j].patch, o, d), minDist)
    ensures forall i, j :: 0 <= i < j < |targets| && examined[j] ==> examined[i]
    ensures minDist <= Big
    ensures hitIndex.None? ==> minDist == Big && hitUv.None? && Missed(o, d, eigen, solveUv, targets, examined, 0, Big)
    ensures hitIndex.Some? ==> exists j, q :: Accepted(o, d, eigen, solveUv, targets, examined, j, q, minDist, hitIndex, hitUv)
  {
    var collected := CollectTargets(o, d, patches, rayBox);
    var sorted := SortTargets(collected);
    SortTargetsCorrect(collected);
    CollectExact(o, d, patches, rayBox);
    assert forall t :: t in sorted <==> t in multiset(collected);
    TargetsFromPatches(o, d, patches, rayBox);
    minDist, hitIndex, hitUv, actualSearch, examined, before := Search(o, d, sorted, eigen, solveUv);
    targets := sorted;
    targetCount := |sorted|;
  }

  /** Every target names a patch whose box the ray meets, so its implicit form is well shaped. */
  lemma TargetsFromPatches(o: Vec3, d: Vec3, patches: seq<ImplicitPatch>, rayBox: (Vec3, Vec3, Vec3, Vec3) -> Option<real>)
    requires Shaped(patches)
    ensures var ts := SortTargets(Collect(o, d, patches, rayBox));
            forall j :: 0 <= j < |ts| ==> Hit(o, d, patches, rayBox, ts[j]) && WellShaped(ts[j].patch.m)
  {
    var c := Collect(o, d, patches, rayBox);
    var ts := SortTargets(c);
    CollectExact(o, d, patches, rayBox);
    SortTargetsCorrect(c);
    forall j | 0 <= j < |ts|
      ensures Hit(o, d, patches, rayBox, ts[j]) && WellShaped(ts[j].patch.m)
    {
      assert ts[j] in multiset(c);
    }
  }

  /** Skipping is safe when `ray_box` is: if no candidate root of a target
      lies nearer than its box distance, the best distance of a finished
      search is no farther than any candidate root of any target. */
  lemma PruningIsSafe(o: Vec3, d: Vec3, eigen: (Matrix, Matrix) -> seq<Complex>, solveUv: (Implicit, Vec3) -> (real, real),
                      targets: seq<Target>, examined: seq<bool>, best: real)
    requires Searched(o, d, eigen, solveUv, targets, examined, best) && |examined| == |targets|
    requires forall j :: 0 <= j < |targets| ==> WellShaped(targets[j].patch.m)
    requires forall j :: 0 <= j < |targets| ==>
               var roots := Roots(eigen, targets[j].patch, o, d);
               forall k :: 0 <= k < |roots| && Candidate(o, d, solveUv, targets[j].patch, roots[k]) ==>
                 targets[j].boxDist <= -roots[k].re
    ensures forall j :: 0 <= j < |targets| ==>
              Settled(o, d, solveUv, targets[j].patch, Roots(eigen, targets[j].patch, o, d), best)
  {
    forall j | 0 <= j < |targets|
      ensures Settled(o, d, solveUv, targets[j].patch, Roots(eigen, targets[j].patch, o, d), best)
    {
      if !examined[j] {
        assert targets[j].boxDist > best;
      }
    }
  }

  /** Once one target is skipped, every later one is skipped too. */
  predicate PrefixClosed(examined: seq<bool>)
  {
    forall i, j :: 0 <= i < j < |examined| && examined[j] ==> examined[i]
  }

  lemma ExtendPrefix(examined: seq<bool>, b: bool)
    requires PrefixClosed(examined)
    requires b ==> forall j :: 0 <= j < |examined| ==> examined[j]
    ensures PrefixClosed(examined + [b])
  {
  }

  /** With the targets sorted, a target searched now has no skipped target before it. */
  lemma SkippedStayBehind(o: Vec3, d: Vec3, eigen: (Matrix, Matrix) -> seq<Complex>, solveUv: (Implicit, Vec3) -> (real, real),
                          targets: seq<Target>, examined: seq<bool>, best: real)
    requires Sorted(targets) && |examined| < |targets|
    requires Searched(o, d, eigen, solveUv, targets, examined, best)
    requires targets[|examined|].boxDist <= best
    ensures forall j :: 0 <= j < |examined| ==> examined[j]
  {
    forall j | 0 <= j < |examined|
      ensures examined[j]
    {
      assert KeyLe(targets[j], targets[|examined|]);
    }
  }
}
