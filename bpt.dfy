/** The BPT patch format read by `parse_bpt`: a line holding the number of
    patches, then for every patch a line `n m` with its two degrees followed
    by `(n+1)(m+1)` lines of three coordinates in row-major order. Lines come
    already split into tokens; converting text to numbers is not modelled. */
module Bpt {
  import opened Geometry

  /** One space-separated field of a line, with what Python's `int(...)` and
      `float(...)` make of it (`None` where they raise `ValueError`). */
  datatype Token = Token(asInt: Option<int>, asReal: Option<real>)

  type Line = seq<Token>

  /** Why parsing stopped, with the index of the line that stopped it. */
  datatype ParseError =
    | MissingLine(at: nat)   // `lines[i]` past the last line (IndexError)
    | BadCount               // `int(lines[0])` fails (ValueError)
    | BadDegrees(at: nat)    // a degree line is not exactly two integers
    | BadPoint(at: nat)      // a coordinate line is not three numbers

  /** `int(line)`: the whole line is one integer. */
  function CountOf(line: Line): Option<int>
  {
    if |line| == 1 && line[0].asInt.Some? then Some(line[0].asInt.value) else None
  }

  /** `(n, m) = map(int, line.split(' '))`: exactly two integers. */
  function DegreesOf(line: Line): Option<(int, int)>
  {
    if |line| == 2 && line[0].asInt.Some? && line[1].asInt.Some?
    then Some((line[0].asInt.value, line[1].asInt.value))
    else None
  }

  /** `list(map(float, line.split(' ')))` read as one control point. */
  function PointOf(line: Line): Option<Vec3>
  {
    if |line| == 3 && line[0].asReal.Some? && line[1].asReal.Some? && line[2].asReal.Some?
    then Some(Vec3(line[0].asReal.value, line[1].asReal.value, line[2].asReal.value))
    else None
  }

  function ReadPoint(lines: seq<Line>, at: nat): Result<Vec3, ParseError>
  {
    if at >= |lines| then Failure(MissingLine(at))
    else match PointOf(lines[at])
      case None => Failure(BadPoint(at))
      case Some(p) => Success(p)
  }

  /** Line `k` exists and holds the point `p`. */
  predicate HoldsPoint(lines: seq<Line>, k: int, p: Vec3)
  {
    0 <= k < |lines| && PointOf(lines[k]) == Some(p)
  }

  /** The first `cols` points from line `at` on, read one after the other:
      the earliest line that fails decides the error. */
  function ReadRow(lines: seq<Line>, at: nat, cols: nat): Result<seq<Vec3>, ParseError>
  {
    if cols == 0 then Success([])
    else match ReadRow(lines, at, cols - 1)
      case Failure(e) => Failure(e)
      case Success(row) =>
        match ReadPoint(lines, at + cols - 1)
        case Failure(e) => Failure(e)
        case Success(p) => Success(row + [p])
  }

  /** `rows` rows of `cols` points each, starting at line `at`, and the line
      after the last of them. */
  function ReadGrid(lines: seq<Line>, at: nat, rows: nat, cols: nat): Result<(Grid, nat), ParseError>
  {
    if rows == 0 then Success(([], at))
    else match ReadGrid(lines, at, rows - 1, cols)
      case Failure(e) => Failure(e)
      case Success((g, next)) =>
        match ReadRow(lines, next, cols)
        case Failure(e) => Failure(e)
        case Success(row) => Success((g + [row], next + cols))
  }

  /** One patch whose degree line is line `at`, and the line after it. */
  function ReadPatch(lines: seq<Line>, at: nat): Result<(Grid, nat), ParseError>
  {
    if at >= |lines| then Failure(MissingLine(at))
    else match DegreesOf(lines[at])
      case None => Failure(BadDegrees(at))
      case Some((n, m)) =>
        match ReadGrid(lines, at + 1, RangeLen(n + 1), RangeLen(m + 1))
        case Failure(e) => Failure(e)
        case Success((g, next)) => Success((g, next))
  }

  /** The first `count` patches, the first one starting at line 1, and the
      line after the last of them. */
  function ReadPatches(lines: seq<Line>, count: nat): Result<(seq<Grid>, nat), ParseError>
  {
    if count == 0 then Success(([], 1))
    else match ReadPatches(lines, count - 1)
      case Failure(e) => Failure(e)
      case Success((ps, next)) =>
        match ReadPatch(lines, next)
        case Failure(e) => Failure(e)
        case Success((g, after)) => Success((ps + [g], after))
  }

  /** What `parse_bpt` returns or raises. */
  function Parse(lines: seq<Line>): Result<seq<Grid>, ParseError>
  {
    if |lines| == 0 then Failure(MissingLine(0))
    else match CountOf(lines[0])
      case None => Failure(BadCount)
      case Some(count) =>
        match ReadPatches(lines, RangeLen(count))
        case Failure(e) => Failure(e)
        case Success((ps, _)) => Success(ps)
  }

  /** `parse_bpt`: a cursor walks the lines; every point is appended to its
      row, every row to its patch, every patch to the result. */
  method ParseBpt(lines: seq<Line>) returns (r: Result<seq<Grid>, ParseError>)
    ensures r == Parse(lines)
  {
    if |lines| == 0 {
      return Failure(MissingLine(0));
    }
    var count := CountOf(lines[0]);
    if count.None? {
      return Failure(BadCount);
    }
    var total := RangeLen(count.value);
    var i: nat := 1;
    var patches: seq<Grid> := [];
    var done := 0;
    while done < total
      invariant 0 <= done <= total
      invariant ReadPatches(lines, done) == Success((patches, i))
    {
      if i >= |lines| {
        PatchFailureAborts(lines, done, total, patches, i, MissingLine(i));
        return Failure(MissingLine(i));
      }
      var degrees := DegreesOf(lines[i]);
      if degrees.None? {
        PatchFailureAborts(lines, done, total, patches, i, BadDegrees(i));
        return Failure(BadDegrees(i));
      }
      var (n, m) := degrees.value;
      var start := i;
      i := i + 1;
      var rows, cols := RangeLen(n + 1), RangeLen(m + 1);
      var patch: Grid := [];
      var a := 0;
      while a < rows
        invariant 0 <= a <= rows
        invariant ReadGrid(lines, start + 1, a, cols) == Success((patch, i))
      {
        var row: seq<Vec3> := [];
        var rowStart := i;
        var b := 0;
        while b < cols
          invariant 0 <= b <= cols
          invariant i == rowStart + b
          invariant ReadRow(lines, rowStart, b) == Success(row)
        {
          var e: ParseError;
          if i >= |lines| {
            e := MissingLine(i);
          } else {
            var point := PointOf(lines[i]);
            if point.Some? {
              row := row + [point.value];
              i := i + 1;
              b := b + 1;
              continue;
            }
            e := BadPoint(i);
          }
          assert ReadRow(lines, rowStart, b + 1) == Failure(e);
          PointFailureAborts(lines, done, total, patches, start, a, rowStart, b + 1, patch, e);
          return Failure(e);
        }
        patch := patch + [row];
        a := a + 1;
      }
      assert ReadPatch(lines, start) == Success((patch, i));
      patches := patches + [patch];
      done := done + 1;
    }
    return Success(patches);
  }

  /** A failure while reading the patch at cursor `at` ends the whole parse. */
  lemma PatchFailureAborts(lines: seq<Line>, done: nat, total: nat, patches: seq<Grid>, at: nat, e: ParseError)
    requires done < total && |lines| > 0 && CountOf(lines[0]).Some? && RangeLen(CountOf(lines[0]).value) == total
    requires ReadPatches(lines, done) == Success((patches, at))
    requires ReadPatch(lines, at) == Failure(e)
    ensures Parse(lines) == Failure(e)
  {
    assert ReadPatches(lines, done + 1) == Failure(e);
    PatchesFailStable(lines, done + 1, total, e);
  }

  /** A failure on a coordinate line ends the whole parse. */
  lemma PointFailureAborts(lines: seq<Line>, done: nat, total: nat, patches: seq<Grid>,
                           start: nat, a: nat, rowStart: nat, b: nat, patch: Grid, e: ParseError)
    requires done < total && |lines| > 0 && CountOf(lines[0]).Some? && RangeLen(CountOf(lines[0]).value) == total
    requires ReadPatches(lines, done) == Success((patches, start))
    requires start < |lines| && DegreesOf(lines[start]).Some?
    requires a < RangeLen(DegreesOf(lines[start]).value.0 + 1)
    requires b <= RangeLen(DegreesOf(lines[start]).value.1 + 1)
    requires ReadGrid(lines, start + 1, a, RangeLen(DegreesOf(lines[start]).value.1 + 1)) == Success((patch, rowStart))
    requires ReadRow(lines, rowStart, b) == Failure(e)
    ensures Parse(lines) == Failure(e)
  {
    var (n, m) := DegreesOf(lines[start]).value;
    var rows, cols := RangeLen(n + 1), RangeLen(m + 1);
    RowFailStable(lines, rowStart, b, cols, e);
    assert ReadGrid(lines, start + 1, a + 1, cols) == Failure(e);
    GridFailStable(lines, start + 1, a + 1, rows, cols, e);
    PatchFailureAborts(lines, done, total, patches, start, e);
  }

  lemma {:induction false} RowFailStable(lines: seq<Line>, at: nat, j: nat, k: nat, e: ParseError)
    requires j <= k && ReadRow(lines, at, j) == Failure(e)
    ensures ReadRow(lines, at, k) == Failure(e)
  {
    if j < k {
      RowFailStable(lines, at, j, k - 1, e);
    }
  }

  lemma {:induction false} GridFailStable(lines: seq<Line>, at: nat, j: nat, k: nat, cols: nat, e: ParseError)
    requires j <= k && ReadGrid(lines, at, j, cols) == Failure(e)
    ensures ReadGrid(lines, at, k, cols) == Failure(e)
  {
    if j < k {
      GridFailStable(lines, at, j, k - 1, cols, e);
    }
  }

  lemma {:induction false} PatchesFailStable(lines: seq<Line>, j: nat, k: nat, e: ParseError)
    requires j <= k && ReadPatches(lines, j) == Failure(e)
    ensures ReadPatches(lines, k) == Failure(e)
  {
    if j < k {
      PatchesFailStable(lines, j, k - 1, e);
    }
  }

  // ---------------------------------------------------------------------
  // Shape of what is read

  /** A row read from line `at` holds exactly `cols` points, point `b`
      coming from line `at + b`. */
  lemma {:induction false} ReadRowShape(lines: seq<Line>, at: nat, cols: nat, row: seq<Vec3>)
    requires ReadRow(lines, at, cols) == Success(row)
    ensures |row| == cols
    ensures forall b :: 0 <= b < cols ==> HoldsPoint(lines, at + b, row[b])
  {
    if cols > 0 {
      var init := ReadRow(lines, at, cols - 1).value;
      ReadRowShape(lines, at, cols - 1, init);
    }
  }

  /** A grid read from line `at` has `rows` rows of `cols` points, point
      `(a, b)` coming from line `at + a*cols + b` (row-major order), and
      ends `rows * cols` lines further on. */
  lemma {:induction false} ReadGridShape(lines: seq<Line>, at: nat, rows: nat, cols: nat, g: Grid, next: nat)
    requires ReadGrid(lines, at, rows, cols) == Success((g, next))
    ensures |g| == rows && Rectangular(g, cols) && next == at + rows * cols
    ensures forall a, b :: 0 <= a < rows && 0 <= b < cols ==>
              HoldsPoint(lines, at + a * cols + b, g[a][b])
  {
    if rows > 0 {
      var (init, mid) := ReadGrid(lines, at, rows - 1, cols).value;
      ReadGridShape(lines, at, rows - 1, cols, init, mid);
      var row := ReadRow(lines, mid, cols).value;
      ReadRowShape(lines, mid, cols, row);
      assert g == init + [row];
      assert mid + cols == at + rows * cols by {
        MulSucc(rows - 1, cols);
      }
      forall a, b | 0 <= a < rows && 0 <= b < cols
        ensures HoldsPoint(lines, at + a * cols + b, g[a][b])
      {
        if a == rows - 1 {
          assert at + a * cols + b == mid + b;
          assert g[a][b] == row[b];
        } else {
          assert g[a][b] == init[a][b];
        }
      }
    }
  }

  /** A patch read at line `at` has the shape `(n+1) x (m+1)` its degree line
      gives (an empty range for a negative bound), takes its points from the
      following lines in row-major order, and consumes `1 + (n+1)(m+1)` lines. */
  lemma ReadPatchShape(lines: seq<Line>, at: nat, g: Grid, next: nat)
    requires ReadPatch(lines, at) == Success((g, next))
    ensures at < |lines| && DegreesOf(lines[at]).Some?
    ensures var (n, m) := DegreesOf(lines[at]).value;
            var rows, cols := RangeLen(n + 1), RangeLen(m + 1);
            && |g| == rows && Rectangular(g, cols)
            && next == at + 1 + rows * cols
            && forall a, b :: 0 <= a < rows && 0 <= b < cols ==>
                 HoldsPoint(lines, at + 1 + a * cols + b, g[a][b])
  {
    var (n, m) := DegreesOf(lines[at]).value;
    ReadGridShape(lines, at + 1, RangeLen(n + 1), RangeLen(m + 1), g, next);
  }

  /** The cursor after the first `k` patches (1 when `k = 0`). */
  function Cursor(lines: seq<Line>, k: nat): nat
  {
    match ReadPatches(lines, k)
    case Success((_, next)) => next
    case Failure(_) => 0
  }

  /** `count` patches read one after the other: patch `k` is exactly what
      one patch read gives at the cursor the previous patches left. */
  lemma {:induction false} ReadPatchesShape(lines: seq<Line>, count: nat, ps: seq<Grid>, next: nat)
    requires ReadPatches(lines, count) == Success((ps, next))
    ensures |ps| == count && next == Cursor(lines, count)
    ensures forall k :: 0 <= k < count ==>
              ReadPatch(lines, Cursor(lines, k)) == Success((ps[k], Cursor(lines, k + 1)))
  {
    if count > 0 {
      var (init, mid) := ReadPatches(lines, count - 1).value;
      ReadPatchesShape(lines, count - 1, init, mid);
      assert ps == init + [ps[count - 1]];
    }
  }

  /** A successful parse yields exactly as many patches as the first line
      says, patch `k` being read at the cursor the previous ones left. */
  lemma ParseShape(lines: seq<Line>, ps: seq<Grid>)
    requires Parse(lines) == Success(ps)
    ensures |lines| > 0 && CountOf(lines[0]).Some?
    ensures |ps| == RangeLen(CountOf(lines[0]).value)
    ensures forall k :: 0 <= k < |ps| ==>
              ReadPatch(lines, Cursor(lines, k)) == Success((ps[k], Cursor(lines, k + 1)))
  {
    var count := RangeLen(CountOf(lines[0]).value);
    var (qs, next) := ReadPatches(lines, count).value;
    ReadPatchesShape(lines, count, qs, next);
  }

  // ---------------------------------------------------------------------
  // Writing the format, and reading back what was written

  function IntToken(k: int): Token
  {
    Token(Some(k), Some(k as real))
  }

  /** A coordinate written with a decimal point, which `int(...)` rejects. */
  function RealToken(x: real): Token
  {
    Token(None, Some(x))
  }

  function PointLine(p: Vec3): Line
  {
    [RealToken(p.x), RealToken(p.y), RealToken(p.z)]
  }

  function PointLines(pts: seq<Vec3>): (r: seq<Line>)
    ensures |r| == |pts|
  {
    seq(|pts|, k requires 0 <= k < |pts| => PointLine(pts[k]))
  }

  /** The degree line of a patch, then its points row by row. */
  function PatchLines(g: Grid): seq<Line>
    requires IsGrid(g)
  {
    [[IntToken(|g| - 1), IntToken(|g[0]| - 1)]] + PointLines(Flatten(g))
  }

  function PatchesLines(ps: seq<Grid>): seq<Line>
    requires AllGrids(ps)
  {
    if |ps| == 0 then [] else PatchesLines(ps[..|ps| - 1]) + PatchLines(ps[|ps| - 1])
  }

  /** A BPT file holding the given patches. */
  function Serialize(ps: seq<Grid>): seq<Line>
    requires AllGrids(ps)
  {
    [[IntToken(|ps|)]] + PatchesLines(ps)
  }

  /** Lines that hold `row`'s points one after the other read back as `row`. */
  lemma {:induction false} ReadRowOf(lines: seq<Line>, at: nat, row: seq<Vec3>)
    requires forall b :: 0 <= b < |row| ==> HoldsPoint(lines, at + b, row[b])
    ensures ReadRow(lines, at, |row|) == Success(row)
  {
    if |row| > 0 {
      var init := row[..|row| - 1];
      ReadRowOf(lines, at, init);
      assert row == init + [row[|row| - 1]];
    }
  }

  /** Lines that hold a grid's points in row-major order read back as the grid. */
  lemma {:induction false} ReadGridOf(lines: seq<Line>, at: nat, g: Grid, cols: nat)
    requires Rectangular(g, cols)
    requires forall k :: 0 <= k < |Flatten(g)| ==> HoldsPoint(lines, at + k, Flatten(g)[k])
    ensures ReadGrid(lines, at, |g|, cols) == Success((g, at + |Flatten(g)|))
  {
    if |g| > 0 {
      var init, last := g[..|g| - 1], g[|g| - 1];
      var before := Flatten(init);
      assert Flatten(g) == before + last;
      forall k | 0 <= k < |before|
        ensures HoldsPoint(lines, at + k, before[k])
      {
        assert before[k] == Flatten(g)[k];
      }
      ReadGridOf(lines, at, init, cols);
      var mid := at + |before|;
      forall b | 0 <= b < |last|
        ensures HoldsPoint(lines, mid + b, last[b])
      {
        assert last[b] == Flatten(g)[|before| + b];
      }
      ReadRowOf(lines, mid, last);
      assert g == init + [last];
    }
  }

  /** A patch's lines, wherever they sit in a file, read back as the patch. */
  lemma ReadPatchOf(lines: seq<Line>, at: nat, g: Grid)
    requires IsGrid(g)
    requires Holds(lines, at, PatchLines(g))
    ensures ReadPatch(lines, at) == Success((g, at + |PatchLines(g)|))
  {
    PatchLinesAt(g);
    ReadEmbeddedPatch(lines, at, PatchLines(g), g);
  }

  lemma ReadEmbeddedPatch(lines: seq<Line>, at: nat, own: seq<Line>, g: Grid)
    requires IsGrid(g)
    requires |own| == 1 + |Flatten(g)| && DegreesOf(own[0]) == Some((|g| - 1, |g[0]| - 1))
    requires forall k :: 0 <= k < |Flatten(g)| ==> PointOf(own[1 + k]) == Some(Flatten(g)[k])
    requires Holds(lines, at, own)
    ensures ReadPatch(lines, at) == Success((g, at + |own|))
  {
    var pts := Flatten(g);
    forall k | 0 <= k < |pts|
      ensures HoldsPoint(lines, at + 1 + k, pts[k])
    {
      assert lines[at + 1 + k] == own[1 + k];
    }
    assert lines[at] == own[0];
    ReadPatchAt(lines, at, g);
  }

  /** A header naming the grid's degrees followed by its points reads back as the grid. */
  lemma ReadPatchAt(lines: seq<Line>, at: nat, g: Grid)
    requires IsGrid(g)
    requires at < |lines| && DegreesOf(lines[at]) == Some((|g| - 1, |g[0]| - 1))
    requires forall k :: 0 <= k < |Flatten(g)| ==> HoldsPoint(lines, at + 1 + k, Flatten(g)[k])
    ensures ReadPatch(lines, at) == Success((g, at + 1 + |Flatten(g)|))
  {
    ReadGridOf(lines, at + 1, g, |g[0]|);
  }

  lemma PatchLinesAt(g: Grid)
    requires IsGrid(g)
    ensures |PatchLines(g)| == 1 + |Flatten(g)|
    ensures DegreesOf(PatchLines(g)[0]) == Some((|g| - 1, |g[0]| - 1))
    ensures forall k :: 0 <= k < |Flatten(g)| ==> PointOf(PatchLines(g)[1 + k]) == Some(Flatten(g)[k])
  {
    var header := [IntToken(|g| - 1), IntToken(|g[0]| - 1)];
    assert DegreesOf(header) == Some((|g| - 1, |g[0]| - 1));
    HeaderThenPoints(header, Flatten(g));
  }

  lemma HeaderThenPoints(header: Line, pts: seq<Vec3>)
    ensures |[header] + PointLines(pts)| == 1 + |pts|
    ensures ([header] + PointLines(pts))[0] == header
    ensures forall k :: 0 <= k < |pts| ==> PointOf(([header] + PointLines(pts))[1 + k]) == Some(pts[k])
  {
    forall k | 0 <= k < |pts|
      ensures PointOf(([header] + PointLines(pts))[1 + k]) == Some(pts[k])
    {
      assert ([header] + PointLines(pts))[1 + k] == PointLine(pts[k]);
    }
  }

  /** The lines of several patches, from line 1 of a file on, read back as those patches. */
  lemma {:induction false} ReadPatchesOf(lines: seq<Line>, ps: seq<Grid>)
    requires AllGrids(ps)
    requires Holds(lines, 1, PatchesLines(ps))
    ensures ReadPatches(lines, |ps|) == Success((ps, 1 + |PatchesLines(ps)|))
  {
    if |ps| > 0 {
      var init := ps[..|ps| - 1];
      AllGridsPrefix(ps, |ps| - 1);
      var mid: nat := 1 + |PatchesLines(init)|;
      assert ReadPatches(lines, |init|) == Success((init, mid)) by {
        HoldsInit(lines, ps);
        ReadPatchesOf(lines, init);
      }
      PatchAfter(lines, ps);
      ReadPatchesStep(lines, ps, mid, 1 + |PatchesLines(ps)|);
    } else {
      assert ps == [];
    }
  }

  /** The lines of all patches but the last hold those patches. */
  lemma HoldsInit(lines: seq<Line>, ps: seq<Grid>)
    requires AllGrids(ps) && |ps| > 0
    requires Holds(lines, 1, PatchesLines(ps))
    ensures AllGrids(ps[..|ps| - 1]) && Holds(lines, 1, PatchesLines(ps[..|ps| - 1]))
  {
    PatchesLinesSnoc(ps);
    HoldsHalves(lines, 1, PatchesLines(ps[..|ps| - 1]), PatchLines(ps[|ps| - 1]));
  }

  /** The last patch is read from the line after all the others. */
  lemma PatchAfter(lines: seq<Line>, ps: seq<Grid>)
    requires AllGrids(ps) && |ps| > 0
    requires Holds(lines, 1, PatchesLines(ps))
    ensures AllGrids(ps[..|ps| - 1])
    ensures var r := ReadPatch(lines, 1 + |PatchesLines(ps[..|ps| - 1])|);
              r.Success? && r.value.0 == ps[|ps| - 1] && r.value.1 == 1 + |PatchesLines(ps)|
  {
    var init, last := ps[..|ps| - 1], ps[|ps| - 1];
    PatchesLinesSnoc(ps);
    var before, own := PatchesLines(init), PatchLines(last);
    HoldsHalves(lines, 1, before, own);
    ReadPatchOf(lines, 1 + |before|, last);
  }

  lemma PatchesLinesSnoc(ps: seq<Grid>)
    requires AllGrids(ps) && |ps| > 0
    ensures AllGrids(ps[..|ps| - 1]) && IsGrid(ps[|ps| - 1])
    ensures PatchesLines(ps) == PatchesLines(ps[..|ps| - 1]) + PatchLines(ps[|ps| - 1])
  {
    AllGridsPrefix(ps, |ps| - 1);
    PatchesLinesUnfold(ps);
  }

  lemma PatchesLinesUnfold(ps: seq<Grid>)
    requires AllGrids(ps) && |ps| > 0 && AllGrids(ps[..|ps| - 1]) && IsGrid(ps[|ps| - 1])
    ensures PatchesLines(ps) == PatchesLines(ps[..|ps| - 1]) + PatchLines(ps[|ps| - 1])
  {
  }

  lemma AllGridsPrefix(ps: seq<Grid>, n: nat)
    requires AllGrids(ps) && n <= |ps|
    ensures AllGrids(ps[..n])
  {
    forall k | 0 <= k < n
      ensures IsGrid(ps[..n][k])
    {
      assert ps[..n][k] == ps[k];
    }
  }

  /** Lines `at`, `at + 1`, ... of `lines` are those of `chunk`. */
  predicate Holds(lines: seq<Line>, at: nat, chunk: seq<Line>)
  {
    at + |chunk| <= |lines| && forall k {:trigger chunk[k]} :: 0 <= k < |chunk| ==> lines[at + k] == chunk[k]
  }

  lemma HoldsHalves(s: seq<Line>, at: nat, a: seq<Line>, b: seq<Line>)
    requires Holds(s, at, a + b)
    ensures Holds(s, at, a) && Holds(s, at + |a|, b)
  {
    forall k | 0 <= k < |a|
      ensures s[at + k] == a[k]
    {
      assert s[at + k] == (a + b)[k];
    }
    forall k | 0 <= k < |b|
      ensures s[at + |a| + k] == b[k]
    {
      assert s[at + |a| + k] == (a + b)[|a| + k];
    }
  }

  lemma ReadPatchesStep(lines: seq<Line>, ps: seq<Grid>, mid: nat, end: nat)
    requires |ps| > 0
    requires ReadPatches(lines, |ps| - 1) == Success((ps[..|ps| - 1], mid))
    requires ReadPatch(lines, mid) == Success((ps[|ps| - 1], end))
    ensures ReadPatches(lines, |ps|) == Success((ps, end))
  {
    assert ps[..|ps| - 1] + [ps[|ps| - 1]] == ps;
  }

  /** Reading back a written file gives the patches that were written, and
      lines after the last patch (such as the empty line a final newline
      leaves) are ignored. */
  lemma RoundTrip(ps: seq<Grid>, rest: seq<Line>)
    requires AllGrids(ps)
    ensures Parse(Serialize(ps) + rest) == Success(ps)
  {
    var lines := Serialize(ps) + rest;
    forall k | 0 <= k < |PatchesLines(ps)|
      ensures lines[1 + k] == PatchesLines(ps)[k]
    {
    }
    ReadPatchesOf(lines, ps);
    assert lines[0] == [IntToken(|ps|)];
  }

  lemma MulSucc(a: nat, c: nat)
    ensures (a + 1) * c == a * c + c
  {
  }
}
