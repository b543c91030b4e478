/** Occupancy grids and the arithmetic shared by the two ways of merging them. */
module Grids {
  import opened Common

  /** A planar pose; its heading is given by cosine and sine. */
  datatype Pose = Pose(x: real, y: real, c: real, s: real)

  const IDENTITY: Pose := Pose(0.0, 0.0, 1.0, 0.0)

  predicate Rigid(p: Pose) {
    p.c * p.c + p.s * p.s == 1.0
  }

  /** An occupancy grid, its cells in row-major order: -1 unknown, otherwise an occupancy from 0 to 100. */
  datatype Grid = Grid(width: nat, height: nat, resolution: real, origin: Pose, data: seq<int>)

  /** There is a value for every cell; values beyond the last cell are never read. */
  predicate ValidGrid(g: Grid) {
    |g.data| >= g.width * g.height && Rigid(g.origin)
  }

  predicate HasCell(g: Grid, x: nat, y: nat) {
    x < g.width && y < g.height
  }

  lemma FlatIndex(x: nat, y: nat, width: nat, height: nat)
    requires x < width && y < height
    ensures 0 <= x + y * width < width * height
  {
    assert y * width <= (height - 1) * width;
  }

  lemma AtLeastOnce(n: int, width: nat)
    requires n >= 1
    ensures n * width >= width
  {
  }

  lemma FlatIndexIsInjective(x: nat, y: nat, u: nat, v: nat, width: nat)
    requires x < width && u < width && x + y * width == u + v * width
    ensures x == u && y == v
  {
    assert (v - y) * width == v * width - y * width == x - u;
    if y < v {
      AtLeastOnce(v - y, width);
    } else if v < y {
      assert (y - v) * width == y * width - v * width;
      AtLeastOnce(y - v, width);
    }
  }

  function Cell(g: Grid, x: nat, y: nat): int
    requires ValidGrid(g) && HasCell(g, x, y)
  {
    FlatIndex(x, y, g.width, g.height);
    g.data[x + y * g.width]
  }

  function Ceil(x: real): int {
    -((-x).Floor)
  }

  /** A coordinate of the half-open interval falls into one of the cells that cover it. */
  lemma FloorWithin(low: real, v: real, high: real, resolution: real)
    requires low <= v < high && resolution > 0.0
    ensures 0 <= ((v - low) / resolution).Floor < Ceil((high - low) / resolution)
  {
    DivideKeepsOrder(v - low, high - low, resolution);
  }

  lemma DivideKeepsOrder(a: real, b: real, r: real)
    requires 0.0 <= a < b && r > 0.0
    ensures 0.0 <= a / r < b / r
  {
  }

  function Least(xs: seq<real>): (r: real)
    requires xs != []
    ensures r in xs && forall x :: x in xs ==> r <= x
  {
    if |xs| == 1 then xs[0]
    else
      var r := Least(xs[1..]);
      assert xs == [xs[0]] + xs[1..];
      if xs[0] < r then xs[0] else r
  }

  function Greatest(xs: seq<real>): (r: real)
    requires xs != []
    ensures r in xs && forall x :: x in xs ==> x <= r
  {
    if |xs| == 1 then xs[0]
    else
      var r := Greatest(xs[1..]);
      assert xs == [xs[0]] + xs[1..];
      if r < xs[0] then xs[0] else r
  }

  /** A known value that a source cell puts into the merged cell with the given index. */
  datatype Mark = Mark(index: nat, value: nat)

  /** Each cell holds the greatest of the values put into it, and -1 if there are none. */
  predicate Painted(data: seq<int>, marks: set<Mark>) {
    forall i :: 0 <= i < |data| ==> IsGreatest(data[i], i, marks)
  }

  predicate IsGreatest(value: int, i: nat, marks: set<Mark>) {
    && -1 <= value
    && (value >= 0 ==> Mark(i, value) in marks)
    && (forall m :: m in marks && m.index == i ==> m.value <= value)
  }

  /** One more mark: its cell takes the greater of the old and the new value. */
  lemma PaintOne(data: seq<int>, marks: set<Mark>, m: Mark)
    requires Painted(data, marks) && m.index < |data|
    ensures Painted(data[m.index := Max(data[m.index], m.value)], marks + {m})
  {
    var after := data[m.index := Max(data[m.index], m.value)];
    forall i | 0 <= i < |after| ensures IsGreatest(after[i], i, marks + {m}) {
      assert IsGreatest(data[i], i, marks);
    }
  }

  lemma PaintedIsKnown(data: seq<int>, marks: set<Mark>, k: nat)
    requires Painted(data, marks) && k < |data|
    ensures -1 <= data[k]
  {
    assert IsGreatest(data[k], k, marks);
  }
}
