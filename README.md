# teapot-mrep: the discrete skeleton of M-Rep ray tracing

`python/mrep3.py` ray-traces Bézier patches through their matrix
representation (M-Rep). A patch file in the BPT format is parsed into grids
of control points. For every patch, `S_v` builds the implicitization matrix,
the null space of which `build_M` splits into four blocks `N0..N3`. The
M-Rep of a point `(x, y, z)` is then `N0 + x N1 + y N2 + z N3`, and a point
lies on the surface where that matrix drops rank. `prepare` pairs each M-Rep
with the bounding box of its control points. `raytrace` substitutes the ray
into every M-Rep whose box the ray meets and that is not pruned
(`parameterize_ray`), takes the
generalized eigenvalues of the resulting pencil as candidate distances,
filters them and keeps the nearest.

This project models that pipeline in Dafny, with floating-point numbers as
`real` and the numerical solvers as function parameters:

- `Geometry` (`geometry.dfy`): points, `Option`/`Result`, binomial
  coefficients, control grids and their row-major flattening.
- `Bpt` (`bpt.dfy`): `parse_bpt`. The cursor loops form a method. It is
  proved equal to a recursive reader, whose shape, cursor, error-propagation
  and round-trip properties are lemmas.
- `Sv` (`sv.dfy`): `S_v`. The five nested loops run over an `array2<real>`
  and are proved against a closed form for every cell. The index map of the
  loops is shown to be in range and injective, so each cell receives at most
  one term.
- `MRep` (`mrep.dfy`): the block split in `build_M`, evaluation of the
  M-Rep, and `parameterize_ray` with its substitution lemmas.
- `Scene` (`scene.dfy`): `build_M` as a whole, and `prepare` with its
  bounding boxes.
- `Raytrace` (`raytrace.dfy`): the nearest-hit selection loop of `raytrace`.

The docstring of `parameterize_ray` promises `M(R(t)) = A - tB`. The code
computes `B = M(o + d) - A`, so in fact `M(o + t d) = A + tB`
(`MRep.RaySubstitution`). A generalized eigenvalue `e` of `(A, B)` makes
`A - eB = M(o - e d)` singular (`MRep.PencilRoot`). That is why `raytrace`
takes `-e.real` as the distance. The model follows the code.

Three more details of the code:

- Targets are sorted by the pair `(box distance, patch index)`, as Python
  orders the tuples.
- A target whose box lies beyond the best hit so far is skipped, and
  iteration goes on. The model records the `min_dist` each target met, ties
  each value to the one before through what that target's roots do to it,
  and proves that a target reaches `pencil_eigenvalues` exactly when its box
  distance is not beyond that value. These records fix the whole run
  (`Raytrace.RunDetermined`). It also proves that once one target is
  skipped, every later one is skipped too (`Raytrace.Search`, `PrefixClosed`).
- A root is rejected only when it lies strictly beyond `min_dist`, so among
  roots at the same best distance the last one scanned wins, and so does the
  last searched target owning one (`Raytrace.ScanRoots`, `Raytrace.Search`).

## Model

| member | source | states |
|---|---|---|
| Bpt.ParseBpt | python/mrep3.py:120-140 | the cursor loops return exactly what the recursive reader `Bpt.Parse` (the whole of `parse_bpt` as a function) gives, including which line's failure is reported when a line is missing or malformed |
| Bpt.ParseShape | python/mrep3.py:126-139 | a successful parse yields exactly `max(int(lines[0]), 0)` patches; patch `k` is what one patch read gives at the cursor the previous patches left |
| Bpt.ReadPatchesShape | python/mrep3.py:129-139 | `count` patches read in sequence; each starts at the line where the previous one ended |
| Bpt.ReadPatchShape | python/mrep3.py:130-138 | a patch read at line `at` has `n+1` rows of `m+1` points for its `n m` line; it consumes exactly `1 + (n+1)(m+1)` lines; point `(a, b)` comes from line `at + 1 + a(m+1) + b` (row-major) |
| Bpt.ReadGridShape | python/mrep3.py:133-138 | a grid read has `rows` rows of `cols` points, taken row-major from consecutive lines, and ends `rows*cols` lines later |
| Bpt.ReadRowShape | python/mrep3.py:135-137 | a row read has `cols` points, point `b` coming from line `at + b` |
| Bpt.PatchFailureAborts | python/mrep3.py:129-139 | an error while reading any patch is the error of the whole parse |
| Bpt.PointFailureAborts | python/mrep3.py:136-137 | an error on any coordinate line is the error of the whole parse |
| Bpt.ReadRowOf | python/mrep3.py:135-137 | lines holding a row's points read back as that row |
| Bpt.ReadGridOf | python/mrep3.py:133-138 | lines holding a grid's points row-major read back as that grid, ending right after them |
| Bpt.ReadPatchOf | python/mrep3.py:130-138 | a written patch embedded anywhere in the lines reads back as that patch, with the cursor just past it |
| Bpt.ReadPatchesOf | python/mrep3.py:129-139 | written patches read back as the same list, with the cursor just past them |
| Bpt.RoundTrip | python/mrep3.py:120-140 | parsing the serialization of any list of non-empty rectangular grids, followed by any trailing lines, gives back that list |
| Sv.DefaultExtShape | python/mrep3.py:148-154 | the default `v = (2 min(d1,d2) - 1, max(d1,d2) - 1)`, computed by `Sv.DefaultExt` (line 150), never gives a negative matrix dimension; it gives non-empty `k`/`l` loops exactly when both degrees are at least 1 |
| Sv.SvRows | python/mrep3.py:152-154 | `S_v` has `(d1+v0+1)(d2+v1+1)` rows of `4 (v0+1)(v1+1)` columns |
| Sv.TargetInRange | python/mrep3.py:153-168 | every row `(j+l) + (i+k)(v1+d2+1)` and column `l + k(v1+1) + axis*stride` the loops write lies inside the matrix |
| Sv.DecodeTarget | python/mrep3.py:167-168 | the cell an iteration writes determines the iteration `(axis, k, l, i, j)` |
| Sv.TargetInjective | python/mrep3.py:167-168 | no two loop iterations write the same cell |
| Sv.TargetDecode | python/mrep3.py:167-168 | a cell whose decoding is a loop iteration is the cell that iteration writes |
| Sv.CellOfTarget | python/mrep3.py:160-171 | the cell an iteration writes ends up holding exactly that iteration's term `C(v0,k)C(v1,l)C(d1,i)C(d2,j)/(C(v0+d1,i+k)C(v1+d2,j+l)) * c[i,j]` |
| Sv.NonzeroIsTarget | python/mrep3.py:153-171 | every nonzero cell is written by some loop iteration; all other cells keep their initial 0 |
| Sv.AddTerm | python/mrep3.py:167-171 | one `+=` adds the iteration's term to its cell and keeps every cell equal to the sum of the terms visited so far |
| Sv.AddBlock | python/mrep3.py:162-171 | the `l`, `i`, `j` loops for one `axis` and `k` leave every cell equal to the sum of all terms up to the next `k` |
| Sv.BuildSv | python/mrep3.py:142-172 | with `v` given or defaulted, fails exactly when a dimension is negative (`np.zeros` raises); otherwise returns a fresh matrix of the stated shape in which every cell equals its closed form `SvCell` |
| MRep.BuildM | python/mrep3.py:179-185 | the four blocks `null[:i]`, `null[i:2i]`, `null[2i:3i]`, `null[3i:4i]` have the same shape, each with `rows / 4` rows |
| MRep.BuildMCovers | python/mrep3.py:181-185 | when the row count is a multiple of 4, the four blocks concatenated are the whole null-space matrix |
| MRep.Eval | python/mrep3.py:182-185 | the lambda `M(x, y, z)` returns a matrix of the same shape as the blocks |
| MRep.EvalEntry | python/mrep3.py:182-185 | each entry of `M(x, y, z)`, as `MRep.Eval` computes it, is `N0 + x N1 + y N2 + z N3` at that entry |
| MRep.ParameterizeRay | python/mrep3.py:187-193 | `A` and `B` have the shape of the blocks; what they are is stated by the lemmas below |
| MRep.DirectionPart | python/mrep3.py:187-193 | `B = d.x N1 + d.y N2 + d.z N3` entrywise |
| MRep.DirectionPartOnly | python/mrep3.py:187-193 | `B` does not depend on the ray origin |
| MRep.RaySubstitution | python/mrep3.py:187-193 | for the pair `(A, B)` that `MRep.ParameterizeRay` returns, `M(o + t d) = A + t B` for every `t` |
| MRep.PencilRoot | python/mrep3.py:187-193 | `A - e B = M(o - e d)`: an eigenvalue `e` of the pencil is a surface point at distance `-e` along the ray |
| Scene.LowerCoord | python/mrep3.py:398 | `min(axis=0)` is no larger than that coordinate of every control point and equal to that coordinate of one of them |
| Scene.UpperCoord | python/mrep3.py:399 | `max(axis=0)` is no smaller than that coordinate of every control point and equal to that coordinate of one of them |
| Scene.BoxContainsControlPoints | python/mrep3.py:398-399 | every control point of the patch lies in `[bounds_min, bounds_max]` |
| Scene.BoxOrdered | python/mrep3.py:398-399 | `bounds_min <= bounds_max` componentwise |
| Scene.BuildImplicit | python/mrep3.py:174-185 | `build_M(b)` builds `S_v(b)` with the default `v` in an array; the M-Rep is the block split of the null space of exactly the closed-form matrix |
| Scene.Prepare | python/mrep3.py:389-401 | one `(M, bounds_min, bounds_max)` per patch, in order, each built from that patch |
| Raytrace.Preimage | python/mrep3.py:298-302 | a pre-image is returned exactly when both solved parameters lie in `[-1e-8, 1 + 1e-8]`, and it is then the solved pair itself |
| Raytrace.CollectTargets | python/mrep3.py:319-325 | the first loop collects one target per patch whose box `ray_box` reports as hit |
| Raytrace.CollectExact | python/mrep3.py:319-325 | the targets `Raytrace.Collect` (the first loop as a function) yields are exactly the patches whose box is hit, each with its box distance, in strictly increasing patch order |
| Raytrace.InsertElements | python/mrep3.py:326 | inserting a target adds exactly that target |
| Raytrace.InsertSorted | python/mrep3.py:326 | inserting into a sorted list keeps it sorted by `(box_dist, index)` |
| Raytrace.SortTargetsCorrect | python/mrep3.py:326 | `targets.sort()`, modelled by `Raytrace.SortTargets`, yields a permutation sorted ascending by `(box_dist, index)` |
| Raytrace.TargetsFromPatches | python/mrep3.py:319-326 | every sorted target names a patch whose box is hit, so its M-Rep is well formed |
| Raytrace.ScanRoots | python/mrep3.py:334-358 | `min_dist` never increases; no root passing the filters is nearer than the result; a root is accepted exactly when some root passing the filters lies at or before the prior `min_dist`; the accepted root is nearly real (`abs(imag) <= 1e-8`), at distance `0 <= -real`, in the box inflated by `1e-8`, with a pre-image, and `min_dist`, `hit_index`, `hit_uv` are its distance, the target's patch index and its pre-image; no later root passing the filters lies at that distance or nearer, so the last root at the best distance wins; with no accepted root nothing changes |
| Raytrace.SkippedStayBehind | python/mrep3.py:326-331 | with the targets sorted, a target that is searched has no skipped target before it |
| Raytrace.Search | python/mrep3.py:328-358 | the `min_dist` each target met starts at `1e12`; a target is passed to `pencil_eigenvalues` exactly when its box distance is not beyond that value; a skipped target passes it on unchanged, and a searched one passes on the nearer of it and the target's nearest candidate root, the last target's value being the final `min_dist`; `actual_search` counts the searched targets; once a target is skipped all later ones are; with no hit the result is `(1e12, None, None)` and no searched target owns a candidate at `1e12` or nearer; with a hit, `hit_index` and `hit_uv` belong to a searched target owning a candidate root at exactly `min_dist`, the last such root of that target, and no later searched target owns a candidate at `min_dist` or nearer |
| Raytrace.Raytrace | python/mrep3.py:304-359 | `len(targets)` is the number of patches whose box is hit; `targets` is exactly those, sorted by `(box_dist, index)`; the `min_dist` each target met, which targets were searched and how each one changed `min_dist`, and everything `Search` states about `min_dist`, `hit_index`, `hit_uv` (pruning and ties included) and `actual_search` |
| Raytrace.PruningIsSafe | python/mrep3.py:329-331 | if no candidate root of a patch lies nearer than its box distance, skipping loses nothing: the final `min_dist` is no farther than every candidate root of every target |
| Raytrace.TrackedStep | python/mrep3.py:328-358 | one more target, skipped or searched, extends the record of the `min_dist` each target met |
| Raytrace.SteppedUnique | python/mrep3.py:334-358 | what one target leaves as `min_dist` is a function of the value it met |
| Raytrace.RunDetermined | python/mrep3.py:328-358 | the pruning and step records fix the run: which targets are searched, every `min_dist` met, the final `min_dist` and so `actual_search` |
| Raytrace.HitDetermined | python/mrep3.py:334-358 | the accepted target and root, hence `hit_index` and `hit_uv`, are unique for a given run and `min_dist` |

## Left out

- `pencil_eigenvalues` and `reduce_pencil_easy` (SVD, rank tolerances, `scipy.linalg.eigvals`, the unreachable GUPTRI branch) are the parameter `eigen`, giving a list of complex roots for a pencil.
- `null_space` (a floating-point SVD in SciPy) is the parameter `nullSpace`, required only to return rectangular matrices. Its row count being a multiple of 4 is what `MRep.BuildMCovers` assumes. It is not proved about the solver.
- The inside of `preimages` (SVD, two `lstsq` solves with the hard-coded `v = (5, 2)`, and its debug `print`) is the parameter `solveUv`. Only the final acceptance test is modelled (`Raytrace.Preimage`).
- `ray_box` is a C function loaded through `ctypes` and is the parameter `rayBox`. Its `dtype` assertions are not modelled.
- `build_M` returns a closure. The model keeps the four blocks it closes over (`MRep.Implicit`) and evaluates them with `MRep.Eval`.
- Floating point is not modelled: all arithmetic is on exact reals. This covers `comb`'s float division in `S_v`, the rounding of `o + d * dist`, and NaN and infinities.
- Converting text to numbers in `parse_bpt` is not modelled. Lines come as tokens with their `int(...)` and `float(...)` readings. `data.split('\n')` and `split(' ')` are assumed done. The count line is read as exactly one token, whereas Python applies `int()` to the whole unsplit first line, which also accepts surrounding spaces (`"32 "` is 32 there and a `BadCount` error in the model).
- Bpt.ParseBpt: a coordinate line with other than three numbers is a parse error in the model. Python accepts it and leaves the failure, or an oddly shaped array, to NumPy.
- Bpt.ParseBpt: `np.array(patch)` is kept as a grid of points. A patch with a negative degree is an empty grid, as `range` makes it; NumPy's handling of it is not modelled.
- Scene.Prepare: requires every patch to be a non-empty grid (`AllGrids`), and `Scene.BuildImplicit` the same of its patch. `Bpt.ParseBpt` yields a patch with no rows or no columns for a negative degree; on such a patch the source raises `IndexError` in `S_v` at `b.shape[1]` or `b.shape[2]` (python/mrep3.py:146-147), reached from `prepare` through `build_M` (python/mrep3.py:396, 179). That failure is not modelled.
- Raytrace.SortTargets: the in-place Timsort of `targets.sort()` is modelled as an insertion sort on values. The keys `(box_dist, index)` are distinct, so the resulting order is the same. The comparison never reaches the tuple's matrix field.
- Raytrace.Raytrace: converting list arguments to NumPy arrays is not modelled; points are `Vec3` values.
- Raytrace.Raytrace: the result states that the final `min_dist` is no farther than every candidate root of the searched targets. It does not state that this holds for every target. That needs `ray_box` to report an entry distance no larger than any candidate root, which `Raytrace.PruningIsSafe` takes as a hypothesis because `ray_box` is foreign code.
- Not modelled: `bernstein`, `bernstein_deriv`, `sample_surface`, `surface_derivs` and `draw_patches`. They sample, differentiate and plot surfaces for display only.
- Not modelled: the module-level script, which reads `teapot.bpt` and prints.
