/**
 * The bird's-eye-view vision stage: the reference-path extractor that turns a
 * thinned drivable-surface mask into an ordered walk of pixels, the two-slot
 * grayscale frame history, and the fixed grid of optical-flow sample points.
 */
module Vision {
  import opened Common

  /** Height and width of the cropped top-down image. */
  const Rows: nat := 65
  const Cols: nat := 96

  /** The vehicle's position in image coordinates (below the crop). */
  const Anchor: Point := Point(70, 48)

  /** The eight neighbour offsets, in the fixed order the walk scans them. */
  const Neighborhood: seq<Point> :=
    [Point(1, 1), Point(0, 1), Point(-1, 1), Point(-1, 0),
     Point(-1, -1), Point(0, -1), Point(1, -1), Point(1, 0)]

  /** Spacing of the optical-flow sample grid. */
  const SampleStep: nat := 25

  // ---------------------------------------------------------------------------
  // Points and distances
  // ---------------------------------------------------------------------------

  /**
   * Squared Euclidean distance. The source takes the square root; since the
   * square root is strictly increasing on non-negative numbers, every comparison
   * and every argmin is the same under the squared distance.
   */
  function SqDist(p: Point, q: Point): (d: int)
    ensures d >= 0
    ensures d == 0 <==> p == q
  {
    var dr, dc := p.row - q.row, p.col - q.col;
    assert dr * dr >= 0 && dc * dc >= 0;
    assert dr != 0 ==> dr * dr > 0;
    assert dc != 0 ==> dc * dc > 0;
    dr * dr + dc * dc
  }

  /** The point reached from `p` by the offset `d`. */
  function Step(p: Point, d: Point): Point
  {
    Point(p.row + d.row, p.col + d.col)
  }

  /** The offset leading from `p` to `q`. */
  function Offset(p: Point, q: Point): (d: Point)
    ensures Step(p, d) == q
  {
    Point(q.row - p.row, q.col - p.col)
  }

  /** `q` is one of the eight neighbours of `p`. */
  predicate IsNeighbor(p: Point, q: Point)
  {
    Offset(p, q) in Neighborhood
  }

  /** No offset of the neighbourhood leaves a point where it is. */
  lemma StepMoves(p: Point, k: nat)
    requires k < |Neighborhood|
    ensures Step(p, Neighborhood[k]) != p
    ensures IsNeighbor(p, Step(p, Neighborhood[k]))
  {
    assert Neighborhood[k] != Point(0, 0);
    assert Offset(p, Step(p, Neighborhood[k])) == Neighborhood[k];
  }

  // ---------------------------------------------------------------------------
  // The skeleton grid and its candidate pixels
  // ---------------------------------------------------------------------------

  /** A boolean image, row by row (true where the skeleton is set). */
  type Grid = seq<seq<bool>>

  /** The first `j` entries of row `i` of a two-dimensional array. */
  function RowOf(a: array2<bool>, i: nat, j: nat): (row: seq<bool>)
    requires i < a.Length0 && j <= a.Length1
    reads a
    ensures |row| == j
    ensures forall c :: 0 <= c < j ==> row[c] == a[i, c]
  {
    if j == 0 then [] else RowOf(a, i, j - 1) + [a[i, j - 1]]
  }

  /** The first `i` rows of a two-dimensional array. */
  function RowsOf(a: array2<bool>, i: nat): (g: Grid)
    requires i <= a.Length0
    reads a
    ensures |g| == i
    ensures forall r :: 0 <= r < i ==> g[r] == RowOf(a, r, a.Length1)
  {
    if i == 0 then [] else RowsOf(a, i - 1) + [RowOf(a, i - 1, a.Length1)]
  }

  /** The current contents of a two-dimensional array as a grid. */
  function GridOf(a: array2<bool>): (g: Grid)
    reads a
    ensures |g| == a.Length0
    ensures forall i :: 0 <= i < |g| ==> |g[i]| == a.Length1
    ensures forall i, j :: 0 <= i < a.Length0 && 0 <= j < a.Length1 ==> g[i][j] == a[i, j]
  {
    RowsOf(a, a.Length0)
  }

  /** The pixel (i, j) lies on the outermost rows or columns of the image. */
  predicate OnBorder(i: int, j: int)
  {
    i == 0 || i == Rows - 1 || j == 0 || j == Cols - 1
  }

  /** `g` has the image's shape. */
  predicate IsImage(g: Grid)
  {
    |g| == Rows && forall i :: 0 <= i < |g| ==> |g[i]| == Cols
  }

  /** No pixel on the border of `g` is set. */
  predicate BorderClear(g: Grid)
    requires IsImage(g)
  {
    forall i, j :: 0 <= i < Rows && 0 <= j < Cols && OnBorder(i, j) ==> !g[i][j]
  }

  /** `g` with its outermost rows and columns cleared. */
  function ClearBorderOf(g: Grid): (r: Grid)
    ensures |r| == |g|
    ensures forall i :: 0 <= i < |g| ==> |r[i]| == |g[i]|
    ensures forall i, j :: 0 <= i < |g| && 0 <= j < |g[i]| ==> r[i][j] == (!OnBorder(i, j) && g[i][j])
  {
    seq(|g|, i requires 0 <= i < |g| => seq(|g[i]|, j requires 0 <= j < |g[i]| => !OnBorder(i, j) && g[i][j]))
  }

  /** Clearing the border of an image leaves an image whose border is clear. */
  lemma ClearBorderOfImage(g: Grid)
    requires IsImage(g)
    ensures IsImage(ClearBorderOf(g)) && BorderClear(ClearBorderOf(g))
  {
  }

  /** Row-major order on pixels. */
  predicate Before(p: Point, q: Point)
  {
    p.row < q.row || (p.row == q.row && p.col < q.col)
  }

  predicate RowMajor(s: seq<Point>)
  {
    forall a, b :: 0 <= a < b < |s| ==> Before(s[a], s[b])
  }

  /** The set pixels among the first `j` columns of row `i`, left to right. */
  function RowCandidates(row: seq<bool>, i: int, j: nat): seq<Point>
    requires j <= |row|
    decreases j
  {
    if j == 0 then []
    else RowCandidates(row, i, j - 1) + (if row[j - 1] then [Point(i, j - 1)] else [])
  }

  /** The set pixels among the first `i` rows, in row-major order. */
  function CandidatesUpTo(g: Grid, i: nat): seq<Point>
    requires i <= |g|
    decreases i
  {
    if i == 0 then []
    else CandidatesUpTo(g, i - 1) + RowCandidates(g[i - 1], i - 1, |g[i - 1]|)
  }

  /** All set pixels of `g`, in the order `numpy.where` lists them. */
  function Candidates(g: Grid): seq<Point>
  {
    CandidatesUpTo(g, |g|)
  }

  lemma {:induction false} RowCandidatesMembers(row: seq<bool>, i: int, j: nat, p: Point)
    requires j <= |row|
    ensures p in RowCandidates(row, i, j) <==> p.row == i && 0 <= p.col < j && row[p.col]
  {
    if j > 0 {
      RowCandidatesMembers(row, i, j - 1, p);
    }
  }

  lemma {:induction false} CandidatesUpToMembers(g: Grid, i: nat, p: Point)
    requires i <= |g|
    ensures p in CandidatesUpTo(g, i) <==>
      0 <= p.row < i && 0 <= p.col < |g[p.row]| && g[p.row][p.col]
  {
    if i > 0 {
      CandidatesUpToMembers(g, i - 1, p);
      RowCandidatesMembers(g[i - 1], i - 1, |g[i - 1]|, p);
    }
  }

  /** A pixel is a candidate exactly when it is set in the grid. */
  lemma CandidatesMembers(g: Grid, p: Point)
    ensures p in Candidates(g) <==>
      0 <= p.row < |g| && 0 <= p.col < |g[p.row]| && g[p.row][p.col]
  {
    CandidatesUpToMembers(g, |g|, p);
  }

  lemma {:induction false} RowCandidatesOrdered(row: seq<bool>, i: int, j: nat)
    requires j <= |row|
    ensures RowMajor(RowCandidates(row, i, j))
    ensures forall k :: 0 <= k < |RowCandidates(row, i, j)| ==>
      RowCandidates(row, i, j)[k].row == i && 0 <= RowCandidates(row, i, j)[k].col < j
  {
    if j > 0 {
      RowCandidatesOrdered(row, i, j - 1);
    }
  }

  lemma {:induction false} CandidatesUpToOrdered(g: Grid, i: nat)
    requires i <= |g|
    ensures RowMajor(CandidatesUpTo(g, i))
    ensures forall k :: 0 <= k < |CandidatesUpTo(g, i)| ==> CandidatesUpTo(g, i)[k].row < i
  {
    if i > 0 {
      CandidatesUpToOrdered(g, i - 1);
      RowCandidatesOrdered(g[i - 1], i - 1, |g[i - 1]|);
    }
  }

  /** The candidates come in strictly increasing row-major order (so without repeats). */
  lemma CandidatesRowMajor(g: Grid)
    ensures RowMajor(Candidates(g))
    ensures Distinct(Candidates(g))
  {
    CandidatesUpToOrdered(g, |g|);
  }

  /** Once the border is cleared, no candidate lies on row 0, row 64, column 0 or column 95. */
  lemma CandidatesAvoidBorder(g: Grid)
    requires IsImage(g) && BorderClear(g)
    ensures forall p :: p in Candidates(g) ==> 0 < p.row < Rows - 1 && 0 < p.col < Cols - 1
  {
    forall p | p in Candidates(g)
      ensures 0 < p.row < Rows - 1 && 0 < p.col < Cols - 1
    {
      CandidatesMembers(g, p);
    }
  }

  // ---------------------------------------------------------------------------
  // Start point: the first candidate nearest to the anchor
  // ---------------------------------------------------------------------------

  /** Index of the first element of `ps` at minimal distance to `anchor`. */
  function NearestIndex(ps: seq<Point>, anchor: Point): (k: nat)
    requires |ps| > 0
    ensures k < |ps|
    ensures forall j :: 0 <= j < |ps| ==> SqDist(ps[k], anchor) <= SqDist(ps[j], anchor)
    ensures forall j :: 0 <= j < k ==> SqDist(ps[k], anchor) < SqDist(ps[j], anchor)
    decreases |ps|
  {
    if |ps| == 1 then 0
    else
      var k := NearestIndex(ps[..|ps| - 1], anchor);
      if SqDist(ps[|ps| - 1], anchor) < SqDist(ps[k], anchor) then |ps| - 1 else k
  }

  // ---------------------------------------------------------------------------
  // The greedy neighbour walk, as a reference definition
  // ---------------------------------------------------------------------------

  /** The walk's variables: the closed list, the path so far and the current point. */
  datatype WalkState = WalkState(close: seq<Point>, line: seq<Point>, cur: Point)

  function InitState(start: Point): WalkState
  {
    WalkState([start], [start], start)
  }

  /** A non-empty, duplicate-free, 8-connected path of candidate pixels. */
  predicate IsPath(points: seq<Point>, line: seq<Point>)
  {
    && |line| > 0
    && (forall i :: 0 <= i < |line| ==> line[i] in points)
    && Distinct(line)
    && (forall i :: 0 <= i < |line| - 1 ==> IsNeighbor(line[i], line[i + 1]))
  }

  /**
   * What holds of the walk's variables between moves: the current point ends the
   * path, every path point before it is closed, and only path points are closed.
   */
  predicate WalkInv(points: seq<Point>, s: WalkState)
  {
    && IsPath(points, s.line)
    && s.cur == s.line[|s.line| - 1]
    && (forall i :: 0 <= i < |s.line| - 1 ==> s.line[i] in s.close)
    && (forall c :: c in s.close ==> c in s.line)
  }

  /** Scanning offset `d` from the current point finds no open candidate. */
  predicate Blocked(points: seq<Point>, s: WalkState, d: Point)
  {
    Step(s.cur, d) !in points || Step(s.cur, d) in s.close
  }

  /**
   * Try one offset: if it leads to an open candidate, close the point being left
   * and move to the new one.
   */
  function Advance(points: seq<Point>, s: WalkState, d: Point): WalkState
  {
    var nb := Step(s.cur, d);
    if nb in points && nb !in s.close then WalkState(s.close + [s.cur], s.line + [nb], nb) else s
  }

  lemma AdvanceKeepsInv(points: seq<Point>, s: WalkState, k: nat)
    requires k < |Neighborhood|
    requires WalkInv(points, s)
    ensures var r := Advance(points, s, Neighborhood[k]);
      && WalkInv(points, r)
      && (r == s || (r.line == s.line + [r.cur] && r.close == s.close + [s.cur]))
      && (r == s <==> Blocked(points, s, Neighborhood[k]))
  {
    var nb := Step(s.cur, Neighborhood[k]);
    if nb in points && nb !in s.close {
      StepMoves(s.cur, k);
      var line := s.line + [nb];
      assert s.line == s.line[..|s.line| - 1] + [s.cur];
      assert nb !in s.line;
      assert Distinct(line);
      assert forall i :: 0 <= i < |line| - 1 ==> IsNeighbor(line[i], line[i + 1]) by {
        forall i | 0 <= i < |line| - 1 ensures IsNeighbor(line[i], line[i + 1]) {
          if i < |s.line| - 1 {
            assert line[i] == s.line[i] && line[i + 1] == s.line[i + 1];
          }
        }
      }
    }
  }

  /**
   * One pass of the `for` loop over the offsets `k..7`. A move does not end the
   * pass: the remaining offsets are scanned from the point just entered.
   */
  function PassFrom(points: seq<Point>, s: WalkState, k: nat): (r: WalkState)
    requires k <= |Neighborhood|
    requires WalkInv(points, s)
    ensures WalkInv(points, r)
    ensures |s.line| <= |r.line| && r.line[..|s.line|] == s.line
    ensures |r.line| == |s.line| ==>
      r == s && forall k' :: k <= k' < |Neighborhood| ==> Blocked(points, s, Neighborhood[k'])
    decreases |Neighborhood| - k
  {
    if k == |Neighborhood| then s
    else
      AdvanceKeepsInv(points, s, k);
      var next := Advance(points, s, Neighborhood[k]);
      var r := PassFrom(points, next, k + 1);
      assert r.line[..|s.line|] == r.line[..|next.line|][..|s.line|];
      r
  }

  /** A stopped path: every candidate neighbour of its last point was visited before. */
  predicate Stuck(points: seq<Point>, line: seq<Point>)
    requires |line| > 0
  {
    forall k :: 0 <= k < |Neighborhood| ==>
      Step(line[|line| - 1], Neighborhood[k]) in points ==>
      Step(line[|line| - 1], Neighborhood[k]) in line[..|line| - 1]
  }

  lemma BlockedPassStuck(points: seq<Point>, s: WalkState)
    requires WalkInv(points, s)
    requires forall k :: 0 <= k < |Neighborhood| ==> Blocked(points, s, Neighborhood[k])
    ensures Stuck(points, s.line)
  {
    forall k | 0 <= k < |Neighborhood| && Step(s.cur, Neighborhood[k]) in points
      ensures Step(s.cur, Neighborhood[k]) in s.line[..|s.line| - 1]
    {
      StepMoves(s.cur, k);
      assert Blocked(points, s, Neighborhood[k]);
      assert s.line == s.line[..|s.line| - 1] + [s.cur];
    }
  }

  /** The `while True` loop: repeat whole passes until one of them makes no move. */
  function Walk(points: seq<Point>, s: WalkState): seq<Point>
    requires WalkInv(points, s)
    decreases |points| - |s.line|
  {
    var r := PassFrom(points, s, 0);
    if |r.line| == |s.line| then s.line
    else
      DistinctWithin(r.line, points);
      Walk(points, r)
  }

  /**
   * The walk extends the path it starts from, keeps it a duplicate-free
   * 8-connected path of candidates, and stops only when stuck.
   */
  lemma {:induction false} WalkSpec(points: seq<Point>, s: WalkState)
    requires WalkInv(points, s)
    ensures var line := Walk(points, s);
      && |s.line| <= |line| && line[..|s.line|] == s.line
      && IsPath(points, line)
      && Stuck(points, line)
    decreases |points| - |s.line|
  {
    var r := PassFrom(points, s, 0);
    if |r.line| == |s.line| {
      assert Walk(points, s) == s.line;
      BlockedPassStuck(points, s);
    } else {
      DistinctWithin(r.line, points);
      var line := Walk(points, r);
      assert Walk(points, s) == line;
      WalkSpec(points, r);
      assert line[..|s.line|] == line[..|r.line|][..|s.line|];
    }
  }

  /** The reference path of a (border-cleared) skeleton grid, as the source builds it. */
  function ExtractPath(g: Grid, anchor: Point): seq<Point>
  {
    var points := Candidates(g);
    if |points| == 0 then []
    else Walk(points, InitState(points[NearestIndex(points, anchor)]))
  }

  /** Among the candidates nearest to the anchor, the chosen one comes first in row-major order. */
  lemma NearestIsFirst(g: Grid, anchor: Point)
    requires |Candidates(g)| > 0
    ensures var points := Candidates(g);
      forall j :: 0 <= j < |points| && Before(points[j], points[NearestIndex(points, anchor)]) ==>
        SqDist(points[NearestIndex(points, anchor)], anchor) < SqDist(points[j], anchor)
  {
    var points := Candidates(g);
    var n := NearestIndex(points, anchor);
    CandidatesRowMajor(g);
    assert forall j :: n <= j < |points| ==> !Before(points[j], points[n]);
  }

  /**
   * What the extracted path is: empty exactly when no pixel is set; otherwise it
   * starts at the first candidate (in row-major order) nearest to the anchor,
   * consists of candidates without repeats, moves one 8-neighbour at a time, is
   * no longer than the candidate list, and ends where every candidate neighbour
   * of its last point has already been visited.
   */
  lemma ExtractPathSpec(g: Grid, anchor: Point)
    ensures var path, points := ExtractPath(g, anchor), Candidates(g);
      && (|path| == 0 <==> |points| == 0)
      && (|path| > 0 ==>
            && IsPath(points, path)
            && Stuck(points, path)
            && (forall j :: 0 <= j < |points| ==> SqDist(path[0], anchor) <= SqDist(points[j], anchor))
            && (forall j :: 0 <= j < |points| && Before(points[j], path[0]) ==>
                  SqDist(path[0], anchor) < SqDist(points[j], anchor)))
      && |path| <= |points|
  {
    var points := Candidates(g);
    if |points| > 0 {
      var n := NearestIndex(points, anchor);
      var path := Walk(points, InitState(points[n]));
      WalkSpec(points, InitState(points[n]));
      assert path[0] == points[n] by {
        assert path[..1] == [points[n]];
      }
      NearestIsFirst(g, anchor);
      DistinctWithin(path, points);
    }
  }

  /** Every point of a path extracted from a border-cleared image is an interior pixel. */
  lemma ExtractPathInterior(g: Grid, anchor: Point)
    requires IsImage(g) && BorderClear(g)
    ensures forall i :: 0 <= i < |ExtractPath(g, anchor)| ==>
      0 < ExtractPath(g, anchor)[i].row < Rows - 1 && 0 < ExtractPath(g, anchor)[i].col < Cols - 1
  {
    var path := ExtractPath(g, anchor);
    ExtractPathSpec(g, anchor);
    CandidatesAvoidBorder(g);
    forall i | 0 <= i < |path|
      ensures 0 < path[i].row < Rows - 1 && 0 < path[i].col < Cols - 1
    {
      assert path[i] in Candidates(g);
    }
  }

  /**
   * One pass of the source's `for nb in self.neighborhood` loop, updating
   * `closeList`, `refLine` and `current` in place; `ct` counts the moves.
   */
  method ScanNeighbors(points: seq<Point>, closeList0: seq<Point>, refLine0: seq<Point>, current0: Point)
    returns (closeList: seq<Point>, refLine: seq<Point>, current: Point, ct: nat)
    requires WalkInv(points, WalkState(closeList0, refLine0, current0))
    ensures WalkState(closeList, refLine, current) == PassFrom(points, WalkState(closeList0, refLine0, current0), 0)
    ensures ct == |refLine| - |refLine0|
  {
    closeList, refLine, current, ct := closeList0, refLine0, current0, 0;
    for k := 0 to |Neighborhood|
      invariant WalkInv(points, WalkState(closeList, refLine, current))
      invariant PassFrom(points, WalkState(closeList, refLine, current), k) ==
        PassFrom(points, WalkState(closeList0, refLine0, current0), 0)
      invariant |refLine| == |refLine0| + ct
    {
      ghost var s := WalkState(closeList, refLine, current);
      AdvanceKeepsInv(points, s, k);
      var nb := Neighborhood[k];
      var nbPoint := Point(current.row + nb.row, current.col + nb.col);
      assert nbPoint == Step(s.cur, Neighborhood[k]);
      if nbPoint in points && nbPoint !in closeList {
        refLine := refLine + [nbPoint];
        closeList := closeList + [current];
        current := nbPoint;
        ct := ct + 1;
        assert WalkState(closeList, refLine, current) == Advance(points, s, Neighborhood[k]);
      } else {
        assert s == Advance(points, s, Neighborhood[k]);
      }
    }
  }

  /**
   * The walk as the source runs it: `refLine` and `closeList` grow in place, and
   * passes repeat until one of them makes no move.
   */
  method GreedyWalk(points: seq<Point>, start: Point) returns (refLine: seq<Point>)
    requires start in points
    ensures refLine == Walk(points, InitState(start))
  {
    refLine := [start];
    var closeList := [start];
    var current := start;
    while true
      invariant WalkInv(points, WalkState(closeList, refLine, current))
      invariant Walk(points, WalkState(closeList, refLine, current)) == Walk(points, InitState(start))
      decreases |points| - |refLine|
    {
      var ct;
      closeList, refLine, current, ct := ScanNeighbors(points, closeList, refLine, current);
      if ct == 0 {
        break;
      }
      DistinctWithin(refLine, points);
    }
  }

  // ---------------------------------------------------------------------------
  // The optical-flow sample grid
  // ---------------------------------------------------------------------------

  /** Python's `range(lo, hi, step)` for a positive step. */
  function Range(lo: int, hi: int, step: nat): (r: seq<int>)
    requires step > 0
    ensures forall k :: 0 <= k < |r| ==> r[k] == lo + k * step && r[k] < hi
    ensures lo + |r| * step >= hi
    decreases hi - lo
  {
    if lo >= hi then [] else [lo] + Range(lo + step, hi, step)
  }

  /** `[[x, y] for x in xs for y in ys]`. */
  function Product(xs: seq<int>, ys: seq<int>): (r: seq<Point>)
    ensures |r| == |xs| * |ys|
  {
    if xs == [] then []
    else
      var r := seq(|ys|, b requires 0 <= b < |ys| => Point(xs[0], ys[b])) + Product(xs[1..], ys);
      assert |xs| * |ys| == |ys| + (|xs| - 1) * |ys|;
      r
  }

  /** The product lists x as the outer and y as the inner index. */
  lemma {:induction false} ProductAt(xs: seq<int>, ys: seq<int>, a: nat, b: nat)
    requires a < |xs| && b < |ys|
    ensures a * |ys| + b < |Product(xs, ys)|
    ensures Product(xs, ys)[a * |ys| + b] == Point(xs[a], ys[b])
  {
    var n := |ys|;
    if a > 0 {
      ProductAt(xs[1..], ys, a - 1, b);
      assert a * n == n + (a - 1) * n;
    }
  }

  /** Each point of `ps` re-expressed relative to `anchor`. */
  function Relative(ps: seq<Point>, anchor: Point): (r: seq<Point>)
    ensures |r| == |ps|
    ensures forall i :: 0 <= i < |ps| ==> Step(anchor, r[i]) == ps[i]
  {
    seq(|ps|, i requires 0 <= i < |ps| => Point(ps[i].row - anchor.row, ps[i].col - anchor.col))
  }

  /** The sample grid built in the constructor. */
  function SamplePoints(): seq<Point>
  {
    Product(Range(10, 64, SampleStep), Range(10, 95, SampleStep))
  }

  /**
   * Twelve sample points; the outer index runs over x in 10, 35, 60 and the
   * inner one over y in 10, 35, 60, 85.
   */
  lemma SamplePointsShape()
    ensures |SamplePoints()| == 12
    ensures forall a, b :: 0 <= a < 3 && 0 <= b < 4 ==>
      SamplePoints()[4 * a + b] == Point(10 + 25 * a, 10 + 25 * b)
  {
    var xs, ys := Range(10, 64, SampleStep), Range(10, 95, SampleStep);
    assert |xs| == 3 by {
      assert xs[2] == 60 && 60 + SampleStep >= 64;
    }
    assert |ys| == 4 by {
      assert ys[3] == 85 && 85 + SampleStep >= 95;
    }
    forall a, b | 0 <= a < 3 && 0 <= b < 4
      ensures SamplePoints()[4 * a + b] == Point(10 + 25 * a, 10 + 25 * b)
    {
      ProductAt(xs, ys, a, b);
    }
  }

  // ---------------------------------------------------------------------------
  // The vision object
  // ---------------------------------------------------------------------------

  /** A grayscale frame (pixel intensities), produced by a foreign colour conversion. */
  datatype GrayFrame = GrayFrame(pixels: seq<seq<int>>)

  /** The drivable-surface mask produced by the lane detector. */
  datatype LaneMask = LaneMask(pixels: seq<seq<bool>>)

  class BevVision {
    /** The previous and the current grayscale frame. */
    var imgList: seq<Option<GrayFrame>>
    var laneMask: Option<LaneMask>
    var refLine: Option<seq<Point>>
    const anchor: Point
    const samplePoints: seq<Point>
    const samplePointsR: seq<Point>
    var velocity: seq<real>

    /** The frame history has two slots, filled together. */
    ghost predicate Valid()
      reads this
    {
      |imgList| == 2 && (imgList[0].None? <==> imgList[1].None?)
    }

    constructor ()
      ensures Valid()
      ensures imgList == [None, None] && laneMask == None && refLine == None
      ensures anchor == Anchor
      ensures samplePoints == SamplePoints()
      ensures samplePointsR == Relative(SamplePoints(), Anchor)
      ensures velocity == [0.0, 0.0, 0.0]
    {
      imgList := [None, None];
      laneMask := None;
      refLine := None;
      anchor := Anchor;
      var points := Product(Range(10, 64, SampleStep), Range(10, 95, SampleStep));
      samplePoints := points;
      samplePointsR := Relative(points, Anchor);
      velocity := [0.0, 0.0, 0.0];
    }

    /**
     * Rotate the frame history: the old current frame becomes the previous one
     * and `gray` the current one; on the first call both slots hold `gray`.
     */
    method GetRawImage(gray: GrayFrame)
      requires Valid()
      modifies this`imgList
      ensures Valid()
      ensures imgList[1] == Some(gray)
      ensures imgList[0] == if old(imgList[1]).Some? then old(imgList[1]) else Some(gray)
    {
      imgList := imgList[1..];
      imgList := imgList + [Some(gray)];
      if imgList[0].None? {
        imgList := imgList[0 := Some(gray)];
      }
    }

    /** An array whose border is cleared relative to `before` holds `ClearBorderOf(before)`. */
    static lemma ClearedGrid(a: array2<bool>, before: Grid)
      requires a.Length0 == Rows && a.Length1 == Cols && IsImage(before)
      requires forall i, j :: 0 <= i < Rows && 0 <= j < Cols ==>
        a[i, j] == (!OnBorder(i, j) && before[i][j])
      ensures GridOf(a) == ClearBorderOf(before)
    {
      var after, cleared := GridOf(a), ClearBorderOf(before);
      forall i | 0 <= i < Rows
        ensures after[i] == cleared[i]
      {
        assert |after[i]| == |cleared[i]|;
      }
    }

    /**
     * Clear the outermost rows and columns of the skeleton in place
     * (four slice assignments in the source).
     */
    static method ClearBorder(thin: array2<bool>)
      requires thin.Length0 == Rows && thin.Length1 == Cols
      modifies thin
      ensures forall i, j :: 0 <= i < Rows && 0 <= j < Cols ==>
        thin[i, j] == (!OnBorder(i, j) && old(thin[i, j]))
      ensures GridOf(thin) == ClearBorderOf(old(GridOf(thin)))
    {
      ghost var before := GridOf(thin);
      forall j | 0 <= j < Cols {
        thin[0, j] := false;
      }
      forall j | 0 <= j < Cols {
        thin[64, j] := false;
      }
      forall i | 0 <= i < Rows {
        thin[i, 0] := false;
      }
      forall i | 0 <= i < Rows {
        thin[i, 95] := false;
      }
      ClearedGrid(thin, before);
    }

    /**
     * Build the reference path. `thin` is the foreign thinning of `laneMask`.
     * Without a mask nothing is touched; otherwise the border of `thin` is cleared
     * and `refLine` becomes the greedy walk from the candidate nearest the anchor.
     */
    method ReferenceLineExtractor(thin: array2<bool>)
      requires thin.Length0 == Rows && thin.Length1 == Cols
      modifies this`refLine, thin
      ensures laneMask.None? ==> refLine == old(refLine)
      ensures laneMask.None? ==> unchanged(thin)
      ensures laneMask.Some? ==>
        forall i, j :: 0 <= i < Rows && 0 <= j < Cols ==> thin[i, j] == (!OnBorder(i, j) && old(thin[i, j]))
      ensures laneMask.Some? ==> refLine == Some(ExtractPath(ClearBorderOf(old(GridOf(thin))), anchor))
      ensures laneMask.Some? ==> refLine.Some? && forall i :: 0 <= i < |refLine.value| ==>
        0 < refLine.value[i].row < Rows - 1 && 0 < refLine.value[i].col < Cols - 1
    {
      if laneMask.None? {
        return;
      }
      ghost var skeleton := ClearBorderOf(GridOf(thin));
      ClearBorderOfImage(GridOf(thin));
      ExtractPathInterior(skeleton, anchor);
      ClearBorder(thin);
      refLine := Some([]);
      var points := Candidates(GridOf(thin));
      if |points| == 0 {
        return;
      }
      var startPoint := points[NearestIndex(points, anchor)];
      var line := GreedyWalk(points, startPoint);
      refLine := Some(line);
    }
  }
}
