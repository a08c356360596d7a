/** Axis-aligned bounds on a sheet and the grid they snap to, in thousandths of a unit. */
module SchematicGeometry {
  import opened Basics

  const UNIT: int := 1000

  datatype Position = Position(x: int, y: int)

  datatype Bounds = Bounds(x: int, y: int, width: int, height: int)

  function Right(b: Bounds): int { b.x + b.width }

  function Bottom(b: Bounds): int { b.y + b.height }

  predicate Overlap(a: Bounds, b: Bounds) {
    a.x < Right(b) && Right(a) > b.x && a.y < Bottom(b) && Bottom(a) > b.y
  }

  predicate Inside(inner: Bounds, outer: Bounds) {
    inner.x >= outer.x && inner.y >= outer.y && Right(inner) <= Right(outer) && Bottom(inner) <= Bottom(outer)
  }

  function Translate(b: Bounds, dx: int, dy: int): Bounds {
    Bounds(b.x + dx, b.y + dy, b.width, b.height)
  }

  predicate Aligned(v: int, grid: int)
    requires grid > 0
  {
    v % grid == 0
  }

  /** `Math.round(value / grid) * grid`: the nearest multiple, the upper one on a tie. */
  function SnapToGrid(value: int, grid: int): int {
    if grid <= 0 then value else (2 * value + grid) / (2 * grid) * grid
  }

  lemma NonNegative(k: int, grid: int)
    requires k >= 0 && grid > 0
    ensures k * grid >= 0 && -k * grid <= 0
  {
    if k >= 1 {
      AtLeastOnce(k, grid);
    }
  }

  lemma AtLeastOnce(k: int, grid: int)
    requires k >= 1 && grid > 0
    ensures k * grid >= grid && -k * grid <= -grid
    decreases k
  {
    if k > 1 {
      AtLeastOnce(k - 1, grid);
      assert k * grid == (k - 1) * grid + grid;
    }
    assert -k * grid == -(k * grid);
  }

  lemma NoStep(d: int, grid: int)
    requires grid > 0 && -grid < d * grid < grid
    ensures d == 0
  {
    if d >= 1 {
      AtLeastOnce(d, grid);
    } else if d <= -1 {
      AtLeastOnce(-d, grid);
    }
  }

  lemma MultipleAligned(k: int, grid: int)
    requires grid > 0
    ensures Aligned(k * grid, grid)
  {
    var q, r := k * grid / grid, k * grid % grid;
    assert k * grid == q * grid + r;
    assert (k - q) * grid == k * grid - q * grid;
    NoStep(k - q, grid);
  }

  lemma AlignedIsMultiple(v: int, grid: int) returns (k: int)
    requires grid > 0 && Aligned(v, grid)
    ensures v == k * grid
  {
    k := v / grid;
  }

  lemma AlignedAdd(a: int, b: int, grid: int)
    requires grid > 0 && Aligned(a, grid) && Aligned(b, grid)
    ensures Aligned(a + b, grid) && Aligned(a - b, grid)
  {
    var j := AlignedIsMultiple(a, grid);
    var k := AlignedIsMultiple(b, grid);
    assert a + b == (j + k) * grid && a - b == (j - k) * grid;
    MultipleAligned(j + k, grid);
    MultipleAligned(j - k, grid);
  }

  /** Two different multiples are at least one grid step apart. */
  lemma AlignedGap(a: int, b: int, grid: int)
    requires grid > 0 && Aligned(a, grid) && Aligned(b, grid) && a < b
    ensures a + grid <= b
  {
    var j := AlignedIsMultiple(a, grid);
    var k := AlignedIsMultiple(b, grid);
    assert (k - j) * grid == b - a;
    if k - j >= 1 {
      AtLeastOnce(k - j, grid);
    } else {
      NonNegative(j - k, grid);
    }
  }

  /** Snapping yields a multiple within half a grid step, and keeps multiples. */
  lemma SnapNearest(value: int, grid: int)
    requires grid > 0
    ensures Aligned(SnapToGrid(value, grid), grid)
    ensures 2 * value - grid < 2 * SnapToGrid(value, grid) <= 2 * value + grid
    ensures Aligned(value, grid) ==> SnapToGrid(value, grid) == value
  {
    var q, r := (2 * value + grid) / (2 * grid), (2 * value + grid) % (2 * grid);
    MultipleAligned(q, grid);
    assert 2 * value + grid == q * (2 * grid) + r;
    assert q * (2 * grid) == 2 * (q * grid);
    if Aligned(value, grid) && SnapToGrid(value, grid) != value {
      AlignedGap(Min(value, q * grid), Max(value, q * grid), grid);
    }
  }

  lemma SnapUnique(value: int, m: int, grid: int)
    requires grid > 0 && Aligned(m, grid) && 2 * value - grid < 2 * m <= 2 * value + grid
    ensures SnapToGrid(value, grid) == m
  {
    SnapNearest(value, grid);
    var s := SnapToGrid(value, grid);
    if s < m {
      AlignedGap(s, m, grid);
    } else if m < s {
      AlignedGap(m, s, grid);
    }
  }

  lemma SnapMonotone(a: int, b: int, grid: int)
    requires a <= b
    ensures SnapToGrid(a, grid) <= SnapToGrid(b, grid)
  {
    if grid > 0 {
      SnapNearest(a, grid);
      SnapNearest(b, grid);
      if SnapToGrid(b, grid) < SnapToGrid(a, grid) {
        AlignedGap(SnapToGrid(b, grid), SnapToGrid(a, grid), grid);
      }
    }
  }

  lemma FloorMultiple(v: int, grid: int)
    requires grid > 0
    ensures Aligned(v / grid * grid, grid) && v / grid * grid <= v < v / grid * grid + grid
  {
    MultipleAligned(v / grid, grid);
  }

  /** Whole grid steps within size and spacing reach past the size. */
  predicate KeepsClear(size: int, spacing: int, grid: int) {
    grid <= 0 || (size + spacing) / grid * grid >= size
  }

  lemma SnapSteps(c: int, d: int, grid: int)
    requires grid > 0
    ensures SnapToGrid(c + d, grid) >= SnapToGrid(c, grid) + d / grid * grid
  {
    var steps := d / grid * grid;
    FloorMultiple(d, grid);
    SnapNearest(c, grid);
    SnapNearest(c + d, grid);
    AlignedAdd(SnapToGrid(c, grid), steps, grid);
    if SnapToGrid(c + d, grid) < SnapToGrid(c, grid) + steps {
      AlignedGap(SnapToGrid(c + d, grid), SnapToGrid(c, grid) + steps, grid);
    }
  }

  /** The start at which snapping moves a part most and its successor least. */
  function WorstStart(grid: int): int {
    -(grid / 2)
  }

  lemma WorstSnap(d: int, grid: int)
    requires grid > 0
    ensures SnapToGrid(WorstStart(grid), grid) == 0
    ensures SnapToGrid(WorstStart(grid) + d, grid) == d / grid * grid
  {
    MultipleAligned(0, grid);
    SnapUnique(WorstStart(grid), 0, grid);
    FloorMultiple(d, grid);
    SnapUnique(WorstStart(grid) + d, d / grid * grid, grid);
  }

  /** After snapping, a part and its successor keep off each other wherever the part
      starts, exactly when whole grid steps within size and spacing reach past the size.
      A spacing of one grid step is always enough. */
  lemma KeepsClearIff(size: int, spacing: int, grid: int)
    requires grid > 0
    ensures KeepsClear(size, spacing, grid) <==>
      forall c :: SnapToGrid(c + size + spacing, grid) >= SnapToGrid(c, grid) + size
    ensures spacing >= grid ==> KeepsClear(size, spacing, grid)
  {
    FloorMultiple(size + spacing, grid);
    if KeepsClear(size, spacing, grid) {
      forall c ensures SnapToGrid(c + size + spacing, grid) >= SnapToGrid(c, grid) + size {
        SnapSteps(c, size + spacing, grid);
        assert c + (size + spacing) == c + size + spacing;
      }
    } else {
      WorstSnap(size + spacing, grid);
      assert WorstStart(grid) + (size + spacing) == WorstStart(grid) + size + spacing;
    }
  }
}
