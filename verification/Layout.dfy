/** Launch-pad coordinates (tara_core/layout.launch_grid), in exact real arithmetic. */
module Layout {
  import opened Numbers

  const PAD_SPACING_M := 2.2
  const GEOFENCE_RADIUS_M := 30.0
  const MAX_FLEET_SIZE := 1000

  datatype Pad = Pad(x: real, y: real)

  /** math.ceil(math.sqrt(n)): the least k with k * k >= n, searched from `k`. */
  function CeilSqrt(n: nat, k: nat): nat
    decreases n - k
  {
    if k * k >= n || k >= n then k else CeilSqrt(n, k + 1)
  }

  lemma {:induction false} CeilSqrtIs(n: nat, k: nat, root: nat)
    requires k <= root && n <= root * root && (root == 0 || (root - 1) * (root - 1) < n) && root <= n
    ensures CeilSqrt(n, k) == root
    decreases root - k
  {
    if k < root {
      Squares(k, root - 1);
      CeilSqrtIs(n, k + 1, root);
    }
  }

  lemma Squares(a: nat, b: nat)
    requires a <= b
    ensures a * a <= b * b
  {
    assert b * b - a * a == (b - a) * (b + a);
  }

  function Columns(n: nat, spacing: real): (cols: int)
    requires spacing > 0.0
    ensures cols >= 1
  {
    var maxCols := (GEOFENCE_RADIUS_M / spacing).Floor;
    var fit := if maxCols >= 1 then maxCols else 1;
    var square := CeilSqrt(n, 0);
    var cols := if square <= fit then square else fit;
    if cols >= 1 then cols else 1
  }

  /** Row-major pads, `spacing` metres apart, drone 0 at the origin. */
  function LaunchGrid(n: nat, spacing: real): seq<Pad>
    requires spacing > 0.0
  {
    var cols := Columns(n, spacing);
    seq(n, i requires 0 <= i < n => Pad((i / cols) as real * spacing, (i % cols) as real * spacing))
  }

  /** On the grid the whole system indexes, every pad lies at whole multiples of 220 cm, so at an even
    * number of whole centimetres on both axes. */
  lemma PadsAreEvenCentimetres(i: nat)
    requires i < MAX_FLEET_SIZE
    ensures i < |LaunchGrid(MAX_FLEET_SIZE, PAD_SPACING_M)|
    ensures var pad := LaunchGrid(MAX_FLEET_SIZE, PAD_SPACING_M)[i];
            && pad.x * 100.0 == (2 * (110 * (i / 13))) as real
            && pad.y * 100.0 == (2 * (110 * (i % 13))) as real
  {
    CeilSqrtIs(1000, 0, 32);
    FloorUnique(GEOFENCE_RADIUS_M / PAD_SPACING_M, 13);
    assert Columns(MAX_FLEET_SIZE, PAD_SPACING_M) == 13;
  }

  /** Pads of any grid are at least the spacing apart along one of the axes. */
  lemma PadsApart(n: nat, spacing: real, i: nat, j: nat)
    requires spacing > 0.0 && i < j < n
    ensures |LaunchGrid(n, spacing)| == n
    ensures var (p, q) := (LaunchGrid(n, spacing)[i], LaunchGrid(n, spacing)[j]);
            q.x - p.x >= spacing || q.y - p.y >= spacing || p.y - q.y >= spacing
  {
    hide Columns, LaunchGrid, Times;
    var cols := Columns(n, spacing);
    PadAt(n, spacing, i);
    PadAt(n, spacing, j);
    CellsDiffer(i, j, cols);
    if i / cols == j / cols {
      Further(i % cols, j % cols, spacing);
    } else {
      RowsOrdered(i, j, cols);
      Further(i / cols, j / cols, spacing);
    }
  }

  lemma PadAt(n: nat, spacing: real, i: nat)
    requires spacing > 0.0 && i < n
    ensures |LaunchGrid(n, spacing)| == n
    ensures var cols := Columns(n, spacing);
            LaunchGrid(n, spacing)[i] == Pad(Times((i / cols) as real, spacing), Times((i % cols) as real, spacing))
  {
    hide Columns;
  }

  lemma CellsDiffer(i: nat, j: nat, cols: int)
    requires i < j && cols >= 1
    ensures i / cols == j / cols ==> i % cols < j % cols
  {
    assert i == cols * (i / cols) + i % cols && j == cols * (j / cols) + j % cols;
  }

  lemma RowsOrdered(i: nat, j: nat, cols: int)
    requires i < j && cols >= 1 && i / cols != j / cols
    ensures i / cols < j / cols
  {
    var d := j / cols - i / cols;
    assert i == cols * (i / cols) + i % cols && j == cols * (j / cols) + j % cols;
    assert j - i == cols * d + (j % cols - i % cols);
    assert d <= -1 ==> cols * d <= -cols;
  }

  lemma Further(a: int, b: int, spacing: real)
    requires a < b && spacing > 0.0
    ensures Times(b as real, spacing) - Times(a as real, spacing) >= spacing
  {
    var d := (b - a) as real;
    assert b as real * spacing - a as real * spacing == d * spacing;
    MulMono(1.0, d, spacing);
  }

  /** No row reaches beyond the geofence radius, unless one pad alone would. */
  lemma RowsInside(n: nat, spacing: real, i: nat)
    requires spacing > 0.0 && i < n
    ensures |LaunchGrid(n, spacing)| == n && 0.0 <= LaunchGrid(n, spacing)[i].y
    ensures LaunchGrid(n, spacing)[i].y == 0.0 || LaunchGrid(n, spacing)[i].y + spacing <= GEOFENCE_RADIUS_M
  {
    var cols, q := Columns(n, spacing), GEOFENCE_RADIUS_M / spacing;
    assert q * spacing == GEOFENCE_RADIUS_M;
    var col := i % cols;
    assert 0 <= col < cols;
    if col > 0 {
      assert cols <= q.Floor;
      hide Columns;
      MulMono((col + 1) as real, q, spacing);
    }
    MulMono(0.0, col as real, spacing);
  }
}
