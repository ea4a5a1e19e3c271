/** `generate_noise_spawn_points_2d` (spawning/transformation.rs): the
  * sample grid, its elliptical footprint, the ordering by noise value, the
  * exclusivity filter and the emitted offsets. The fractal noise generator
  * is a given function from grid cell to value. */
module NoiseScatter {
  import opened Common
  import opened Float32
  import opened Exclusivity
  import Structures

  /** The noise value sampled at each grid cell. */
  type NoiseField = (int, int) -> real

  /** Rust's `/ 2` on integers: the quotient truncated toward zero. */
  function HalfTrunc(a: int): (h: int)
    ensures a >= 0 ==> 0 <= a - 2 * h <= 1
    ensures a < 0 ==> -1 <= a - 2 * h <= 0
  {
    if a >= 0 then a / 2 else -((-a) / 2)
  }

  /** `f as i32` / `f as i64`: truncation toward zero (saturation at the
    * integer bounds is not modelled). */
  function TruncToInt(r: real): (t: int)
    ensures r >= 0.0 ==> 0 <= t && t as real <= r < t as real + 1.0
    ensures r < 0.0 ==> t <= 0 && t as real - 1.0 < r <= t as real
  {
    if r >= 0.0 then r.Floor else -((-r).Floor)
  }

  /** `r % 2.0 == 0.0` for a finite f32: `r` is an even integer. */
  predicate EvenReal(r: real)
  {
    (r / 2.0).Floor as real == r / 2.0
  }

  /** The two assertions that make the sampler panic. */
  datatype NoisePanic = CellBudgetExceeded | OddDimensions | UnsupportedDimensionality

  const CellBudget: int := 2097152

  function Checks(sx: int, sy: int, rm: real): (p: Option<NoisePanic>)
    ensures p.None? <==>
      TruncToInt(sx as real * rm) * TruncToInt(sy as real * rm) <= CellBudget &&
      EvenReal(sx as real * rm) && EvenReal(sy as real * rm)
    ensures p == Some(CellBudgetExceeded) <==>
      TruncToInt(sx as real * rm) * TruncToInt(sy as real * rm) > CellBudget
  {
    var ew := sx as real * rm;
    var eh := sy as real * rm;
    if TruncToInt(ew) * TruncToInt(eh) > CellBudget then Some(CellBudgetExceeded)
    else if !EvenReal(ew) || !EvenReal(eh) then Some(OddDimensions)
    else None
  }

  /** The inclusive sample ranges and the resolution modifier. */
  datatype Grid = Grid(startX: int, endX: int, startY: int, endY: int, rm: real)

  /** `start = size / 2 * (rm as i32)` and `end = 3 * size / 2 * (rm as i32)`. */
  function Bounds(sx: int, sy: int, rm: real): Grid
  {
    var t := TruncToInt(rm);
    Grid(HalfTrunc(sx) * t, HalfTrunc(3 * sx) * t, HalfTrunc(sy) * t, HalfTrunc(3 * sy) * t, rm)
  }

  function RadiusX(g: Grid): real { (g.endX - g.startX) as real / 2.0 }
  function RadiusY(g: Grid): real { (g.endY - g.startY) as real / 2.0 }
  function CentreX(g: Grid): int { HalfTrunc(g.startX + g.endX) }
  function CentreY(g: Grid): int { HalfTrunc(g.startY + g.endY) }

  /** `x as f32 / resolution_modifier`. */
  function SampleX(g: Grid, x: int): Float { Div(Fin(x as real), g.rm) }
  function SampleY(g: Grid, y: int): Float { Div(Fin(y as real), g.rm) }

  /** Which coordinates the footprint test and the offsets compare with the
    * centre: the sample coordinates as the source does, or the sample
    * coordinates scaled back to grid units. */
  datatype Footprint = AsWritten | Centred

  function Unscale(f: Footprint, s: Float, rm: real): Float
  {
    if f.AsWritten? then s else Mul(s, Fin(rm))
  }

  /** The footprint test: `nx^2 + ny^2 > 1` skips the cell, so a NaN keeps it. */
  predicate InFootprint(f: Footprint, g: Grid, x: int, y: int)
  {
    var nx := Div(Sub(Unscale(f, SampleX(g, x), g.rm), Fin(CentreX(g) as real)), RadiusX(g));
    var ny := Div(Sub(Unscale(f, SampleY(g, y), g.rm), Fin(CentreY(g) as real)), RadiusY(g));
    !Greater(Add(Sq(nx), Sq(ny)), 1.0)
  }

  /** The candidate pushed for a cell: its sample coordinates, z = 0, and its noise value. */
  function Cell(g: Grid, x: int, y: int, noise: NoiseField): Candidate
  {
    Candidate(Point(SampleX(g, x), SampleY(g, y), Fin(0.0)), noise(x, y))
  }

  /** The candidates of column `x` for `y` from `startY` up to `yEnd - 1`. */
  function ColumnCandidates(f: Footprint, g: Grid, x: int, yEnd: int, noise: NoiseField): seq<Candidate>
    decreases yEnd - g.startY
  {
    if yEnd <= g.startY then []
    else ColumnCandidates(f, g, x, yEnd - 1, noise) +
         (if InFootprint(f, g, x, yEnd - 1) then [Cell(g, x, yEnd - 1, noise)] else [])
  }

  /** The candidates of the columns from `startX` up to `xEnd - 1`, column by column. */
  function GridCandidates(f: Footprint, g: Grid, xEnd: int, noise: NoiseField): seq<Candidate>
    decreases xEnd - g.startX
  {
    if xEnd <= g.startX then []
    else GridCandidates(f, g, xEnd - 1, noise) + ColumnCandidates(f, g, xEnd - 1, g.endY + 1, noise)
  }

  /** A candidate comes from a cell of the grid inside the footprint, and
    * every such cell gives one. */
  lemma {:induction false} ColumnMembership(f: Footprint, g: Grid, x: int, yEnd: int, noise: NoiseField, c: Candidate)
    ensures c in ColumnCandidates(f, g, x, yEnd, noise) <==>
      exists y :: g.startY <= y < yEnd && InFootprint(f, g, x, y) && c == Cell(g, x, y, noise)
    decreases yEnd - g.startY
  {
    if yEnd > g.startY {
      ColumnMembership(f, g, x, yEnd - 1, noise, c);
      if InFootprint(f, g, x, yEnd - 1) && c == Cell(g, x, yEnd - 1, noise) {
        assert c in ColumnCandidates(f, g, x, yEnd, noise);
      }
    }
  }

  lemma {:induction false} GridMembership(f: Footprint, g: Grid, xEnd: int, noise: NoiseField, c: Candidate)
    ensures c in GridCandidates(f, g, xEnd, noise) <==>
      exists x, y :: g.startX <= x < xEnd && g.startY <= y <= g.endY &&
        InFootprint(f, g, x, y) && c == Cell(g, x, y, noise)
    decreases xEnd - g.startX
  {
    if xEnd > g.startX {
      GridMembership(f, g, xEnd - 1, noise, c);
      ColumnMembership(f, g, xEnd - 1, g.endY + 1, noise, c);
      if c in GridCandidates(f, g, xEnd, noise) {
        if c !in GridCandidates(f, g, xEnd - 1, noise) {
          var y :| g.startY <= y < g.endY + 1 && InFootprint(f, g, xEnd - 1, y) && c == Cell(g, xEnd - 1, y, noise);
        }
      } else {
        forall x, y | g.startX <= x < xEnd && g.startY <= y <= g.endY && InFootprint(f, g, x, y)
          ensures c != Cell(g, x, y, noise)
        {
          if x == xEnd - 1 {
            assert c !in ColumnCandidates(f, g, xEnd - 1, g.endY + 1, noise);
          }
        }
      }
    }
  }

  // ---------------------------------------------------------------------------
  // Ordering by descending noise value (`sort_by`, a stable sort)

  predicate Descending(s: seq<Candidate>)
  {
    forall i, j :: 0 <= i < j < |s| ==> s[i].value >= s[j].value
  }

  /** Places `c` after every element whose value is at least its own. */
  function Insert(sorted: seq<Candidate>, c: Candidate): seq<Candidate>
  {
    if |sorted| == 0 then [c]
    else if sorted[0].value >= c.value then [sorted[0]] + Insert(sorted[1..], c)
    else [c] + sorted
  }

  function SortDescending(s: seq<Candidate>): seq<Candidate>
    decreases |s|
  {
    if |s| == 0 then [] else Insert(SortDescending(s[..|s| - 1]), s[|s| - 1])
  }

  /** A descending sequence with a larger head stays descending. */
  lemma DescendingCons(h: Candidate, t: seq<Candidate>)
    requires Descending(t)
    requires forall x :: x in t ==> h.value >= x.value
    ensures Descending([h] + t)
  {
    var r := [h] + t;
    forall i, j | 0 <= i < j < |r| ensures r[i].value >= r[j].value {
      assert r[j] == t[j - 1];
      if i > 0 {
        assert r[i] == t[i - 1];
      }
    }
  }

  lemma {:induction false} InsertPermutes(sorted: seq<Candidate>, c: Candidate)
    ensures multiset(Insert(sorted, c)) == multiset(sorted) + multiset{c}
    decreases |sorted|
  {
    if |sorted| > 0 {
      InsertPermutes(sorted[1..], c);
      assert sorted == [sorted[0]] + sorted[1..];
    }
  }

  lemma {:induction false} InsertKeepsOrder(sorted: seq<Candidate>, c: Candidate)
    requires Descending(sorted)
    ensures Descending(Insert(sorted, c))
    decreases |sorted|
  {
    if |sorted| > 0 && sorted[0].value >= c.value {
      var tail := sorted[1..];
      assert Descending(tail) by {
        forall i, j | 0 <= i < j < |tail| ensures tail[i].value >= tail[j].value {
          assert tail[i] == sorted[i + 1] && tail[j] == sorted[j + 1];
        }
      }
      InsertKeepsOrder(tail, c);
      InsertPermutes(tail, c);
      forall x | x in Insert(tail, c) ensures sorted[0].value >= x.value {
        assert x in multiset(Insert(tail, c));
        if x != c {
          assert x in multiset(tail);
          var k :| 0 <= k < |tail| && tail[k] == x;
          assert sorted[k + 1] == x;
        }
      }
      DescendingCons(sorted[0], Insert(tail, c));
    } else if |sorted| > 0 {
      forall x | x in sorted ensures c.value >= x.value {
        var k :| 0 <= k < |sorted| && sorted[k] == x;
        assert k == 0 || sorted[0].value >= sorted[k].value;
      }
      DescendingCons(c, sorted);
    }
  }

  /** The sorted candidates are in descending order of value and are a
    * permutation of the input. */
  lemma {:induction false} SortDescendingCorrect(s: seq<Candidate>)
    ensures Descending(SortDescending(s))
    ensures multiset(SortDescending(s)) == multiset(s)
    decreases |s|
  {
    if |s| > 0 {
      SortDescendingCorrect(s[..|s| - 1]);
      InsertKeepsOrder(SortDescending(s[..|s| - 1]), s[|s| - 1]);
      InsertPermutes(SortDescending(s[..|s| - 1]), s[|s| - 1]);
      assert s == s[..|s| - 1] + [s[|s| - 1]];
    }
  }

  // ---------------------------------------------------------------------------
  // Offsets and the whole sampler

  /** `((x - cx) / cx, (y - cy) / cy, 0)`: normalised by the centre coordinate. */
  function Offset(f: Footprint, g: Grid, p: Point): Point
  {
    Point(Div(Sub(Unscale(f, p.x, g.rm), Fin(CentreX(g) as real)), CentreX(g) as real),
          Div(Sub(Unscale(f, p.y, g.rm), Fin(CentreY(g) as real)), CentreY(g) as real),
          Fin(0.0))
  }

  /** What the sampler returns, or the assertion it fails. */
  function NoiseSpawnPoints(f: Footprint, sx: int, sy: int, rm: real, count: nat, radius: real,
                            noise: NoiseField): Result<seq<Point>, NoisePanic>
  {
    match Checks(sx, sy, rm)
    case Some(p) => Err(p)
    case None =>
      var g := Bounds(sx, sy, rm);
      var accepted := Exclusive(SortDescending(GridCandidates(f, g, g.endX + 1, noise)), count, Beyond(radius * radius));
      Ok(seq(|accepted|, i requires 0 <= i < |accepted| => Offset(f, g, accepted[i])))
  }

  /** The nested loops over the inclusive ranges that collect the candidates. */
  method ScanGrid(f: Footprint, g: Grid, noise: NoiseField) returns (values: seq<Candidate>)
    ensures values == GridCandidates(f, g, g.endX + 1, noise)
  {
    values := [];
    var x := g.startX;
    while x <= g.endX
      invariant g.startX <= x && (x <= g.endX + 1 || x == g.startX)
      invariant values == GridCandidates(f, g, x, noise)
      decreases g.endX - x
    {
      var column := ScanColumn(f, g, x, noise);
      values := values + column;
      x := x + 1;
    }
  }

  /** The inner loop: the candidates of column `x`. */
  method ScanColumn(f: Footprint, g: Grid, x: int, noise: NoiseField) returns (column: seq<Candidate>)
    ensures column == ColumnCandidates(f, g, x, g.endY + 1, noise)
  {
    column := [];
    var y := g.startY;
    while y <= g.endY
      invariant g.startY <= y && (y <= g.endY + 1 || y == g.startY)
      invariant column == ColumnCandidates(f, g, x, y, noise)
      decreases g.endY - y
    {
      if InFootprint(f, g, x, y) {
        column := column + [Cell(g, x, y, noise)];
      }
      y := y + 1;
    }
  }

  /** `generate_noise_spawn_points_2d` with sample size `(sx, sy)`. */
  method GenerateNoiseSpawnPoints2D(f: Footprint, sx: int, sy: int, rm: real, count: nat, radius: real,
                                    noise: NoiseField) returns (r: Result<seq<Point>, NoisePanic>)
    ensures r == NoiseSpawnPoints(f, sx, sy, rm, count, radius, noise)
  {
    var ew := sx as real * rm;
    var eh := sy as real * rm;
    if TruncToInt(ew) * TruncToInt(eh) > CellBudget {
      return Err(CellBudgetExceeded);
    }
    if !EvenReal(ew) || !EvenReal(eh) {
      return Err(OddDimensions);
    }
    var g := Bounds(sx, sy, rm);
    var values := ScanGrid(f, g, noise);
    var sorted := SortDescending(values);
    var accepted := FilterByExclusivity(sorted, count, radius);
    r := Ok(seq(|accepted|, i requires 0 <= i < |accepted| => Offset(f, g, accepted[i])));
  }

  /** `generate_noise_spawn_points`: only the two-dimensional sample sizes
    * are implemented, `UBiDim(n)` standing for the square `n` by `n`. */
  function NoiseSpawnPointsFor(f: Footprint, size: Structures.SampleSize, rm: real, count: nat, radius: real,
                               noise: NoiseField): (r: Result<seq<Point>, NoisePanic>)
    ensures r == Err(UnsupportedDimensionality) <==> !size.UBiDim? && !size.BiDim?
    ensures size.UBiDim? ==> r == NoiseSpawnPoints(f, size.n, size.n, rm, count, radius, noise)
    ensures size.BiDim? ==> r == NoiseSpawnPoints(f, size.x, size.y, rm, count, radius, noise)
  {
    match size
    case UBiDim(n) => NoiseSpawnPoints(f, n, n, rm, count, radius, noise)
    case BiDim(x, y) => NoiseSpawnPoints(f, x, y, rm, count, radius, noise)
    case _ => Err(UnsupportedDimensionality)
  }

  // ---------------------------------------------------------------------------
  // Properties of the grid, the footprint and the result

  /** For an even, non-negative size the ranges run from `size/2 * t` to
    * `3*size/2 * t` (`t` the truncated modifier), centred on `size * t`. */
  lemma EvenBounds(sx: int, sy: int, rm: real)
    requires sx >= 0 && sx % 2 == 0 && sy >= 0 && sy % 2 == 0 && rm >= 0.0
    ensures var g := Bounds(sx, sy, rm);
      var t := TruncToInt(rm);
      g.startX == sx / 2 * t && g.endX == 3 * sx / 2 * t && CentreX(g) == sx * t &&
      g.startY == sy / 2 * t && g.endY == 3 * sy / 2 * t && CentreY(g) == sy * t &&
      RadiusX(g) == (sx * t) as real / 2.0 && RadiusY(g) == (sy * t) as real / 2.0 &&
      g.startX <= CentreX(g) <= g.endX && g.startY <= CentreY(g) <= g.endY
  {
    var t := TruncToInt(rm);
    EvenAxis(sx, t);
    EvenAxis(sy, t);
  }

  lemma EvenAxis(s: int, t: int)
    requires s >= 0 && s % 2 == 0 && t >= 0
    ensures HalfTrunc(s) == s / 2 && HalfTrunc(3 * s) == 3 * s / 2
    ensures HalfTrunc(s) * t + HalfTrunc(3 * s) * t == 2 * (s * t)
    ensures HalfTrunc(HalfTrunc(s) * t + HalfTrunc(3 * s) * t) == s * t
    ensures HalfTrunc(3 * s) * t - HalfTrunc(s) * t == s * t
    ensures HalfTrunc(s) * t <= s * t <= HalfTrunc(3 * s) * t
  {
    var h := s / 2;
    assert s == 2 * h;
    assert 3 * s == 2 * (3 * h);
    assert HalfTrunc(s) == h && HalfTrunc(3 * s) == 3 * h;
    assert h * t + (3 * h) * t == 2 * (s * t) by {
      assert (3 * h) * t == 3 * (h * t);
      assert s * t == 2 * (h * t);
    }
    assert (3 * h) * t - h * t == s * t by {
      assert (3 * h) * t == 3 * (h * t);
      assert s * t == 2 * (h * t);
    }
    assert 0 <= h * t;
  }

  function Sqr(r: real): real { r * r }

  /** The ellipse equation of a cell in grid units: at most 1 inside. */
  function Ellipse(g: Grid, x: int, y: int): real
    requires RadiusX(g) != 0.0 && RadiusY(g) != 0.0
  {
    Sqr((x - CentreX(g)) as real / RadiusX(g)) + Sqr((y - CentreY(g)) as real / RadiusY(g))
  }

  /** The footprint test in plain arithmetic when nothing is divided by zero:
    * the sample coordinates are compared with the centre in grid units. */
  lemma AsWrittenFootprint(g: Grid, x: int, y: int)
    requires g.rm != 0.0 && RadiusX(g) != 0.0 && RadiusY(g) != 0.0
    ensures InFootprint(AsWritten, g, x, y) <==>
      Sqr((x as real / g.rm - CentreX(g) as real) / RadiusX(g)) +
      Sqr((y as real / g.rm - CentreY(g) as real) / RadiusY(g)) <= 1.0
  {
  }

  /** The corrected test keeps exactly the cells of the ellipse inscribed in
    * the grid, all in grid units. */
  lemma CentredFootprintIsEllipse(g: Grid, x: int, y: int)
    requires g.rm != 0.0 && RadiusX(g) != 0.0 && RadiusY(g) != 0.0
    ensures InFootprint(Centred, g, x, y) <==> Ellipse(g, x, y) <= 1.0
  {
    var nx := Div(Sub(Unscale(Centred, SampleX(g, x), g.rm), Fin(CentreX(g) as real)), RadiusX(g));
    var ny := Div(Sub(Unscale(Centred, SampleY(g, y), g.rm), Fin(CentreY(g) as real)), RadiusY(g));
    UnscaleSample(g.rm, x);
    UnscaleSample(g.rm, y);
    assert nx == Fin((x - CentreX(g)) as real / RadiusX(g));
    assert ny == Fin((y - CentreY(g)) as real / RadiusY(g));
  }

  /** Scaling a sample back by a non-zero modifier recovers its grid coordinate. */
  lemma UnscaleSample(rm: real, x: int)
    requires rm != 0.0
    ensures Unscale(Centred, Div(Fin(x as real), rm), rm) == Fin(x as real)
  {
    assert x as real / rm * rm == x as real;
  }

  /** At resolution 1 the two readings coincide, footprint and offsets alike. */
  lemma FootprintsAgreeAtUnitResolution(g: Grid, x: int, y: int, p: Point)
    requires g.rm == 1.0
    ensures InFootprint(AsWritten, g, x, y) == InFootprint(Centred, g, x, y)
    ensures Offset(AsWritten, g, p) == Offset(Centred, g, p)
  {
    assert Mul(SampleX(g, x), Fin(1.0)) == SampleX(g, x);
    assert Mul(SampleY(g, y), Fin(1.0)) == SampleY(g, y);
    assert Mul(p.x, Fin(1.0)) == p.x;
    assert Mul(p.y, Fin(1.0)) == p.y;
  }

  /** The corrected footprint always keeps the centre cell ... */
  lemma CentreKept(g: Grid)
    requires g.rm != 0.0 && RadiusX(g) != 0.0 && RadiusY(g) != 0.0
    ensures InFootprint(Centred, g, CentreX(g), CentreY(g))
  {
    CentredFootprintIsEllipse(g, CentreX(g), CentreY(g));
  }

  /** ... and is symmetric about it when the centre is exact. */
  lemma CentredFootprintSymmetric(g: Grid, x: int, y: int)
    requires g.rm != 0.0 && RadiusX(g) != 0.0 && RadiusY(g) != 0.0
    requires (g.startX + g.endX) % 2 == 0 && (g.startY + g.endY) % 2 == 0
    ensures InFootprint(Centred, g, x, y) <==>
      InFootprint(Centred, g, 2 * CentreX(g) - x, 2 * CentreY(g) - y)
  {
    CentredFootprintIsEllipse(g, x, y);
    CentredFootprintIsEllipse(g, 2 * CentreX(g) - x, 2 * CentreY(g) - y);
    EllipseSymmetric(g, x, y);
  }

  lemma EllipseSymmetric(g: Grid, x: int, y: int)
    requires RadiusX(g) != 0.0 && RadiusY(g) != 0.0
    ensures Ellipse(g, 2 * CentreX(g) - x, 2 * CentreY(g) - y) == Ellipse(g, x, y)
  {
    var a := (x - CentreX(g)) as real / RadiusX(g);
    var b := (y - CentreY(g)) as real / RadiusY(g);
    NegDiv((x - CentreX(g)) as real, RadiusX(g));
    NegDiv((y - CentreY(g)) as real, RadiusY(g));
    assert (2 * CentreX(g) - x - CentreX(g)) as real == -((x - CentreX(g)) as real);
    assert (2 * CentreY(g) - y - CentreY(g)) as real == -((y - CentreY(g)) as real);
    assert Sqr(-a) == Sqr(a) && Sqr(-b) == Sqr(b);
  }

  lemma NegDiv(u: real, r: real)
    requires r != 0.0
    ensures (-u) / r == -(u / r)
  {
  }

  /** With a 4 x 4 sample and modifier 2 the checks pass and the centre cell
    * (8, 8) is inside the grid, yet the test as written rejects it: its
    * sample coordinate 4 is compared with the centre 8 in grid units. */
  lemma CentreCellRejectedAsWritten()
    ensures var g := Bounds(4, 4, 2.0);
      Checks(4, 4, 2.0).None? && g == Grid(4, 12, 4, 12, 2.0) &&
      CentreX(g) == 8 && CentreY(g) == 8 &&
      !InFootprint(AsWritten, g, 8, 8) && InFootprint(Centred, g, 8, 8)
  {
    SmallSample();
    SmallGridCentre();
  }

  /** On the grid 4..12 at modifier 2 the centre is (8, 8); only the
    * corrected test keeps it. */
  lemma SmallGridCentre()
    ensures var g := Grid(4, 12, 4, 12, 2.0);
      CentreX(g) == 8 && CentreY(g) == 8 &&
      !InFootprint(AsWritten, g, 8, 8) && InFootprint(Centred, g, 8, 8)
  {
    var g := Grid(4, 12, 4, 12, 2.0);
    SmallGridShape();
    SmallGridRejects();
    CentreKept(g);
  }

  lemma SmallGridShape()
    ensures var g := Grid(4, 12, 4, 12, 2.0);
      CentreX(g) == 8 && CentreY(g) == 8 && RadiusX(g) == 4.0 && RadiusY(g) == 4.0
  {
  }

  /** The sample coordinate 4 lies a full radius from the centre 8. */
  lemma SmallGridRejects()
    ensures !InFootprint(AsWritten, Grid(4, 12, 4, 12, 2.0), 8, 8)
  {
    var g := Grid(4, 12, 4, 12, 2.0);
    SmallGridShape();
    AsWrittenFootprint(g, 8, 8);
    assert (8 as real / 2.0 - 8 as real) / 4.0 == -1.0;
    assert Sqr(-1.0) + Sqr(-1.0) == 2.0;
  }

  /** The 4 x 4 sample at modifier 2: an 8 x 8 effective grid, within budget
    * and even, sampled over 4..12 on both axes. */
  lemma SmallSample()
    ensures Checks(4, 4, 2.0).None? && Bounds(4, 4, 2.0) == Grid(4, 12, 4, 12, 2.0)
  {
    assert TruncToInt(2.0) == 2;
    assert TruncToInt(8.0) == 8;
    assert EvenReal(8.0) by { assert (8.0 / 2.0).Floor == 4; }
    assert HalfTrunc(4) == 2 && HalfTrunc(12) == 6;
  }

  /** Offsets of cells of the grid lie within [-1/2, 1/2] on each axis when
    * the size is even and positive and the modifier is at least 1, for the
    * corrected reading at any such modifier and for the source's at 1. */
  lemma OffsetWithinHalf(f: Footprint, sx: int, sy: int, rm: real, x: int, y: int, noise: NoiseField)
    requires sx > 0 && sx % 2 == 0 && sy > 0 && sy % 2 == 0 && rm >= 1.0
    requires f.Centred? || rm == 1.0
    requires var g := Bounds(sx, sy, rm); g.startX <= x <= g.endX && g.startY <= y <= g.endY
    ensures var o := Offset(f, Bounds(sx, sy, rm), Cell(Bounds(sx, sy, rm), x, y, noise).p);
      o.x.Fin? && o.y.Fin? && o.z == Fin(0.0) &&
      -0.5 <= o.x.v <= 0.5 && -0.5 <= o.y.v <= 0.5
  {
    var g := Bounds(sx, sy, rm);
    var t := TruncToInt(rm);
    EvenBounds(sx, sy, rm);
    assert t >= 1;
    AxisWithinHalf(sx, t, x);
    AxisWithinHalf(sy, t, y);
    OffsetOfCell(f, g, x, y, noise);
  }

  /** The offset of a cell, once the sample is scaled back to grid units. */
  lemma OffsetOfCell(f: Footprint, g: Grid, x: int, y: int, noise: NoiseField)
    requires g.rm != 0.0 && (f.Centred? || g.rm == 1.0) && CentreX(g) != 0 && CentreY(g) != 0
    ensures Offset(f, g, Cell(g, x, y, noise).p) ==
      Point(Fin((x - CentreX(g)) as real / CentreX(g) as real),
            Fin((y - CentreY(g)) as real / CentreY(g) as real), Fin(0.0))
  {
    var p := Cell(g, x, y, noise).p;
    assert Unscale(f, p.x, g.rm) == Fin(x as real) by {
      assert x as real / g.rm * g.rm == x as real;
    }
    assert Unscale(f, p.y, g.rm) == Fin(y as real) by {
      assert y as real / g.rm * g.rm == y as real;
    }
    assert Sub(Fin(x as real), Fin(CentreX(g) as real)) == Fin((x - CentreX(g)) as real);
    assert Sub(Fin(y as real), Fin(CentreY(g) as real)) == Fin((y - CentreY(g)) as real);
  }

  lemma AxisWithinHalf(s: int, t: int, x: int)
    requires s > 0 && s % 2 == 0 && t >= 1
    requires s / 2 * t <= x <= 3 * s / 2 * t
    ensures s * t > 0
    ensures -0.5 <= (x - s * t) as real / (s * t) as real <= 0.5
  {
    var h := s / 2;
    var m := h * t;
    assert s * t == 2 * m;
    assert 3 * s / 2 == 3 * h;
    assert 3 * s / 2 * t == 3 * m;
    assert m > 0;
    HalfRatio((x - s * t) as real, (s * t) as real);
  }

  lemma HalfRatio(d: real, c: real)
    requires c > 0.0 && -(c / 2.0) <= d <= c / 2.0
    ensures -0.5 <= d / c <= 0.5
  {
    assert d / c * c == d;
  }

  /** An offset the sampler returns: finite, in [-1/2, 1/2] on x and y, and 0 on z. */
  predicate WithinHalf(o: Point)
  {
    o.x.Fin? && o.y.Fin? && o.z == Fin(0.0) && -0.5 <= o.x.v <= 0.5 && -0.5 <= o.y.v <= 0.5
  }

  /** A cell the footprint test keeps, under either reading and at any
    * modifier of at least 1, has its offset in [-1/2, 1/2]: the test bounds
    * its distance from the centre by the radius, which is half the centre
    * coordinate the offset divides by. */
  lemma FootprintOffsetWithinHalf(f: Footprint, sx: int, sy: int, rm: real, x: int, y: int, noise: NoiseField)
    requires sx > 0 && sx % 2 == 0 && sy > 0 && sy % 2 == 0 && rm >= 1.0
    requires InFootprint(f, Bounds(sx, sy, rm), x, y)
    ensures WithinHalf(Offset(f, Bounds(sx, sy, rm), Cell(Bounds(sx, sy, rm), x, y, noise).p))
  {
    var g := Bounds(sx, sy, rm);
    var t := TruncToInt(rm);
    EvenBounds(sx, sy, rm);
    assert t >= 1;
    PositiveCentre(sx, t);
    PositiveCentre(sy, t);
    var cx, cy := CentreX(g) as real, CentreY(g) as real;
    var p := Cell(g, x, y, noise).p;
    var u := Unscale(f, p.x, g.rm);
    var v := Unscale(f, p.y, g.rm);
    assert u.Fin? && v.Fin?;
    var nx := Div(Sub(u, Fin(cx)), RadiusX(g));
    var ny := Div(Sub(v, Fin(cy)), RadiusY(g));
    assert RadiusX(g) == cx / 2.0 && RadiusY(g) == cy / 2.0;
    assert nx == Fin((u.v - cx) / (cx / 2.0)) && ny == Fin((v.v - cy) / (cy / 2.0));
    SqNotNegative(nx);
    SqNotNegative(ny);
    assert Sqr(nx.v) + Sqr(ny.v) <= 1.0;
    WithinHalfOfRadius(u.v - cx, cx, Sqr(ny.v));
    WithinHalfOfRadius(v.v - cy, cy, Sqr(nx.v));
  }

  lemma PositiveCentre(s: int, t: int)
    requires s > 0 && t >= 1
    ensures s * t > 0
  {
  }

  /** A distance whose square over half of `c` fits the unit circle is
    * within half of `c`. */
  lemma WithinHalfOfRadius(d: real, c: real, e: real)
    requires c > 0.0 && e >= 0.0 && Sqr(d / (c / 2.0)) + e <= 1.0
    ensures -0.5 <= d / c <= 0.5
  {
    var n := d / (c / 2.0);
    assert n * n <= 1.0;
    assert d / c == n / 2.0;
  }

  /** Every offset the sampler returns lies in [-1/2, 1/2] on both axes, for
    * even positive sizes and a modifier of at least 1, under either reading. */
  lemma NoiseSpawnOffsetsWithinHalf(f: Footprint, sx: int, sy: int, rm: real, count: nat, radius: real,
                                    noise: NoiseField)
    requires sx > 0 && sx % 2 == 0 && sy > 0 && sy % 2 == 0 && rm >= 1.0
    ensures var r := NoiseSpawnPoints(f, sx, sy, rm, count, radius, noise);
      r.Ok? ==> forall i :: 0 <= i < |r.value| ==> WithinHalf(r.value[i])
  {
    var g := Bounds(sx, sy, rm);
    var accepted := Exclusive(SortDescending(GridCandidates(f, g, g.endX + 1, noise)), count, Beyond(radius * radius));
    var r := NoiseSpawnPoints(f, sx, sy, rm, count, radius, noise);
    NoiseSpawnPointsProperties(f, sx, sy, rm, count, radius, noise);
    AcceptedCells(f, g, count, radius, noise);
    OffsetsOfSamples(f, sx, sy, rm, accepted, noise);
    if r.Ok? {
      forall i | 0 <= i < |r.value|
        ensures WithinHalf(r.value[i])
      {
        assert r.value[i] == Offset(f, g, accepted[i]);
      }
    }
  }

  /** The offsets of footprint sample points are all in [-1/2, 1/2]. */
  lemma OffsetsOfSamples(f: Footprint, sx: int, sy: int, rm: real, qs: seq<Point>, noise: NoiseField)
    requires sx > 0 && sx % 2 == 0 && sy > 0 && sy % 2 == 0 && rm >= 1.0
    requires AllFootprintSamples(f, Bounds(sx, sy, rm), qs, noise)
    ensures forall i :: 0 <= i < |qs| ==> WithinHalf(Offset(f, Bounds(sx, sy, rm), qs[i]))
  {
    forall i | 0 <= i < |qs|
      ensures WithinHalf(Offset(f, Bounds(sx, sy, rm), qs[i]))
    {
      SampleOffsetWithinHalf(f, sx, sy, rm, qs[i], noise);
    }
  }

  /** The offset of a footprint cell's sample point is in [-1/2, 1/2]. */
  lemma SampleOffsetWithinHalf(f: Footprint, sx: int, sy: int, rm: real, q: Point, noise: NoiseField)
    requires sx > 0 && sx % 2 == 0 && sy > 0 && sy % 2 == 0 && rm >= 1.0
    requires FootprintSample(f, Bounds(sx, sy, rm), q, noise)
    ensures WithinHalf(Offset(f, Bounds(sx, sy, rm), q))
  {
    var g := Bounds(sx, sy, rm);
    var x, y :| g.startX <= x <= g.endX && g.startY <= y <= g.endY &&
      InFootprint(f, g, x, y) && q == Cell(g, x, y, noise).p;
    FootprintOffsetWithinHalf(f, sx, sy, rm, x, y, noise);
  }

  /** `q` is the sample point of a grid cell inside the footprint. */
  predicate FootprintSample(f: Footprint, g: Grid, q: Point, noise: NoiseField)
  {
    exists x, y :: g.startX <= x <= g.endX && g.startY <= y <= g.endY &&
      InFootprint(f, g, x, y) && q == Cell(g, x, y, noise).p
  }

  /** Every point of `qs` is the sample point of a cell of the footprint. */
  predicate AllFootprintSamples(f: Footprint, g: Grid, qs: seq<Point>, noise: NoiseField)
  {
    forall i :: 0 <= i < |qs| ==> FootprintSample(f, g, qs[i], noise)
  }

  /** Every accepted point is the sample point of a cell of the footprint. */
  lemma AcceptedCells(f: Footprint, g: Grid, count: nat, radius: real, noise: NoiseField)
    ensures AllFootprintSamples(f, g, Exclusive(SortDescending(GridCandidates(f, g, g.endX + 1, noise)), count,
                                                Beyond(radius * radius)), noise)
  {
    var cands := GridCandidates(f, g, g.endX + 1, noise);
    var sorted := SortDescending(cands);
    var far := Beyond(radius * radius);
    var accepted := Exclusive(sorted, count, far);
    SortDescendingCorrect(cands);
    ExclusiveIsAccepted(sorted, count, far);
    AcceptedFromCandidates(sorted, count, far);
    forall i | 0 <= i < |accepted|
      ensures FootprintSample(f, g, accepted[i], noise)
    {
      assert accepted[i] in Accepted(sorted, count, far);
      var k :| 0 <= k < |sorted| && sorted[k].p == accepted[i];
      assert sorted[k] in multiset(cands);
      GridMembership(f, g, g.endX + 1, noise, sorted[k]);
    }
  }

  /** The first accepted point is that of a highest-noise candidate. */
  lemma HighestFirst(cands: seq<Candidate>, count: nat, radius: real)
    requires count >= 1 && |cands| >= 1
    ensures var accepted := Exclusive(SortDescending(cands), count, Beyond(radius * radius));
      |accepted| >= 1 &&
      exists k :: 0 <= k < |cands| && accepted[0] == cands[k].p &&
        forall c :: c in cands ==> cands[k].value >= c.value
  {
    var sorted := SortDescending(cands);
    var far := Beyond(radius * radius);
    SortDescendingCorrect(cands);
    ExclusiveIsAccepted(sorted, count, far);
    assert |sorted| >= 1 by {
      assert |multiset(sorted)| == |multiset(cands)|;
    }
    FirstAccepted(sorted, count, far);
    assert sorted[0] in multiset(cands);
    var k :| 0 <= k < |cands| && cands[k] == sorted[0];
    forall c | c in cands ensures cands[k].value >= c.value {
      assert c in multiset(sorted);
      var j :| 0 <= j < |sorted| && sorted[j] == c;
    }
  }

  /** What the sampler emits: at most `count` offsets, one per accepted
    * sample point, in order; the accepted points are pairwise farther apart
    * than `radius`. */
  lemma NoiseSpawnPointsProperties(f: Footprint, sx: int, sy: int, rm: real, count: nat, radius: real,
                                   noise: NoiseField)
    ensures var r := NoiseSpawnPoints(f, sx, sy, rm, count, radius, noise);
      var g := Bounds(sx, sy, rm);
      var accepted := Exclusive(SortDescending(GridCandidates(f, g, g.endX + 1, noise)), count, Beyond(radius * radius));
      (r.Ok? <==> Checks(sx, sy, rm).None?) &&
      (r.Ok? ==>
        |r.value| == |accepted| <= count &&
        PairwiseSeparated(accepted, Beyond(radius * radius)) &&
        forall i :: 0 <= i < |accepted| ==> r.value[i] == Offset(f, g, accepted[i]))
  {
    var g := Bounds(sx, sy, rm);
    var sorted := SortDescending(GridCandidates(f, g, g.endX + 1, noise));
    var far := Beyond(radius * radius);
    ExclusiveIsAccepted(sorted, count, far);
    AcceptedBound(sorted, count, far);
    AcceptedSeparated(sorted, count, far);
  }
}
