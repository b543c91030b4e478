/** What the merged grids hold, told by the source grids' own cells, origins and transforms. */
module MergeMeaning {
  import opened Common
  import opened Grids
  import opened MergeGeometry
  import opened MergeMarks
  import opened MergeMap
  import opened OfflineMerge

  /* Arithmetic. */

  /** Every further cell adds its own length. */
  lemma MetresAddUp(n: nat, r: real)
    ensures Metres(0, r) == 0.0 && Metres(n + 1, r) == Metres(n, r) + r
  {
  }

  lemma ScaleOrder(a: real, b: real, r: real)
    requires r > 0.0
    ensures a <= b <==> a * r <= b * r
  {
    if a < b {
      assert (b - a) * r > 0.0;
    } else if b < a {
      assert (a - b) * r > 0.0;
    }
  }

  lemma DivideBack(v: real, r: real)
    requires r > 0.0
    ensures v / r * r == v
  {
  }

  lemma AtLeastIff(q: real, v: real, r: real, u: nat)
    requires r > 0.0 && q * r == v
    ensures u as real <= q <==> Metres(u, r) <= v
    ensures q <= u as real <==> v <= Metres(u, r)
  {
    ScaleOrder(u as real, q, r);
    ScaleOrder(q, u as real, r);
  }

  lemma FloorBetween(q: real, u: nat)
    ensures q.Floor == u <==> u as real <= q && !((u + 1) as real <= q)
  {
    assert (u + 1) as real == u as real + 1.0;
  }

  /** A coordinate has index `u` exactly if it lies in the u-th interval of length `r` from `low` on. */
  lemma FloorIff(low: real, v: real, r: real, u: nat)
    requires r > 0.0
    ensures ((v - low) / r).Floor == u <==> low + Metres(u, r) <= v < low + Metres(u + 1, r)
  {
    hide Metres;
    var q := (v - low) / r;
    DivideBack(v - low, r);
    FloorBetween(q, u);
    AtLeastIff(q, v - low, r, u);
    AtLeastIff(q, v - low, r, u + 1);
  }

  /** `n` cells of size `r` from `low` on reach `high`, and no smaller number of at least `least` cells does. */
  predicate FewestCells(low: real, high: real, r: real, n: nat, least: nat) {
    && n >= least
    && high <= low + Metres(n, r)
    && (n == least || low + Metres(n - 1, r) < high)
  }

  lemma CeilBetween(q: real, n: nat)
    ensures Ceil(q) <= n <==> q <= n as real
  {
  }

  lemma CeilIsFewest(low: real, high: real, r: real, least: nat)
    requires r > 0.0
    ensures FewestCells(low, high, r, Max(least, Ceil((high - low) / r)), least)
  {
    hide Metres, Ceil;
    var q := (high - low) / r;
    var n := Max(least, Ceil(q));
    DivideBack(high - low, r);
    CeilBetween(q, n);
    AtLeastIff(q, high - low, r, n);
    if n != least {
      CeilBetween(q, n - 1);
      AtLeastIff(q, high - low, r, n - 1);
    }
  }

  /* The geometry. */

  /** A point of a grid is taken through the grid's origin pose and then through its transform. */
  lemma PlaceIs(p: Source, x: real, y: real)
    ensures
      var o, t := p.grid.origin, p.transform;
      var sx, sy := o.x + o.c * x - o.s * y, o.y + o.s * x + o.c * y;
      && Place(p, x, y).0 == t.x + t.c * sx - t.s * sy
      && Place(p, x, y).1 == t.y + t.s * sx + t.c * sy
  {
    var o := p.grid.origin;
    var q := TransformXY(x, y, o);
    assert q.0 == o.x + o.c * x - o.s * y;
    assert q.1 == o.y + o.s * x + o.c * y;
    assert Place(p, x, y) == TransformXY(q.0, q.1, p.transform);
  }

  /** The centre of a cell is the midpoint between its two opposite corners, wherever the grid is placed. */
  lemma CentreIsMidpoint(p: Source, x: nat, y: nat)
    ensures
      var r := p.grid.resolution;
      var a := Place(p, Metres(x, r), Metres(y, r));
      var b := Place(p, Metres(x + 1, r), Metres(y + 1, r));
      2.0 * Centre(p, x, y).0 == a.0 + b.0 && 2.0 * Centre(p, x, y).1 == a.1 + b.1
  {
    hide Place, Middle, Metres;
    var r := p.grid.resolution;
    Halves(x, r);
    Halves(y, r);
    PlaceKeepsMidpoints(
      p, Metres(x, r), Metres(y, r), Metres(x + 1, r), Metres(y + 1, r), Middle(x, r), Middle(y, r));
  }

  lemma Halves(i: nat, r: real)
    ensures 2.0 * Middle(i, r) == Metres(i, r) + Metres(i + 1, r)
  {
  }

  lemma PlaceKeepsMidpoints(p: Source, x1: real, y1: real, x2: real, y2: real, x: real, y: real)
    requires 2.0 * x == x1 + x2 && 2.0 * y == y1 + y2
    ensures 2.0 * Place(p, x, y).0 == Place(p, x1, y1).0 + Place(p, x2, y2).0
    ensures 2.0 * Place(p, x, y).1 == Place(p, x1, y1).1 + Place(p, x2, y2).1
  {
    hide Place, OriginPose;
    PlaceX(p, x, y);
    PlaceX(p, x1, y1);
    PlaceX(p, x2, y2);
    PlaceY(p, x, y);
    PlaceY(p, x1, y1);
    PlaceY(p, x2, y2);
    TransformKeepsMidpoints(OriginPose(p), x1, y1, x2, y2, x, y);
    hide TransformXY;
  }

  lemma TransformKeepsMidpoints(o: Pose, x1: real, y1: real, x2: real, y2: real, x: real, y: real)
    requires 2.0 * x == x1 + x2 && 2.0 * y == y1 + y2
    ensures 2.0 * TransformXY(x, y, o).0 == TransformXY(x1, y1, o).0 + TransformXY(x2, y2, o).0
    ensures 2.0 * TransformXY(x, y, o).1 == TransformXY(x1, y1, o).1 + TransformXY(x2, y2, o).1
  {
    FormKeepsMidpoints(o.x, o.c, -o.s, x1, y1, x2, y2, x, y);
    FormKeepsMidpoints(o.y, o.s, o.c, x1, y1, x2, y2, x, y);
    Axes(o, x1, y1);
    Axes(o, x2, y2);
    Axes(o, x, y);
    hide TransformXY;
  }

  lemma FormKeepsMidpoints(
    k: real, a: real, b: real, x1: real, y1: real, x2: real, y2: real, x: real, y: real)
    requires 2.0 * x == x1 + x2 && 2.0 * y == y1 + y2
    ensures 2.0 * (k + (a * x + b * y)) == (k + (a * x1 + b * y1)) + (k + (a * x2 + b * y2))
  {
    Doubled(a, x1, x2, x);
    Doubled(b, y1, y2, y);
  }

  lemma Doubled(c: real, a: real, b: real, m: real)
    requires 2.0 * m == a + b
    ensures 2.0 * (c * m) == c * a + c * b
  {
  }

  /** One of the four outer corners of a source, in the merged frame. */
  predicate IsCorner(p: Source, q: (real, real)) {
    var w, h := Metres(p.grid.width, p.grid.resolution), Metres(p.grid.height, p.grid.resolution);
    q == Place(p, 0.0, 0.0) || q == Place(p, w, 0.0) || q == Place(p, 0.0, h) || q == Place(p, w, h)
  }

  ghost predicate IsSomeCorner(ps: seq<Source>, q: (real, real)) {
    exists p :: p in ps && IsCorner(p, q)
  }

  lemma CornersAreFour(p: Source, q: (real, real))
    ensures q in Corners(p) <==> IsCorner(p, q)
  {
    hide Place;
  }

  lemma SomeCornerIff(ps: seq<Source>, q: (real, real))
    ensures IsSomeCorner(ps, q) <==> q in AllCorners(ps)
  {
    CornersAre(ps, q);
    hide AllCorners, Corners, IsCorner;
    forall p ensures q in Corners(p) <==> IsCorner(p, q) {
      CornersAreFour(p, q);
    }
  }

  /**
   The merged grid is the smallest that covers all sources: its resolution is the finest of theirs, its origin the
   least corner coordinates, and it has the fewest cells, at least one, that reach the greatest ones.
   */
  lemma CanvasIsTight(ps: seq<Source>)
    returns (left: (real, real), low: (real, real), right: (real, real), high: (real, real))
    requires CanvasOf(ps).Some?
    ensures
      var c := CanvasOf(ps).value;
      && (exists p :: p in ps && p.grid.resolution == c.resolution)
      && (forall p :: p in ps ==> c.resolution <= p.grid.resolution) && c.resolution > 0.0
      && IsSomeCorner(ps, left) && IsSomeCorner(ps, low) && IsSomeCorner(ps, right) && IsSomeCorner(ps, high)
      && (forall q :: IsSomeCorner(ps, q) ==> left.0 <= q.0 <= right.0 && low.1 <= q.1 <= high.1)
      && c.minX == left.0 && FewestCells(c.minX, right.0, c.resolution, c.width, 1)
      && c.minY == low.1 && FewestCells(c.minY, high.1, c.resolution, c.height, 1)
  {
    hide *;
    CanvasIs(ps);
    left, right := WidthIsTight(ps);
    low, high := HeightIsTight(ps);
  }

  lemma CanvasIs(ps: seq<Source>)
    requires CanvasOf(ps).Some?
    ensures ps != [] && AllCorners(ps) != []
    ensures
      var c, points := CanvasOf(ps).value, AllCorners(ps);
      && c.resolution > 0.0
      && (exists p :: p in ps && p.grid.resolution == c.resolution)
      && (forall p :: p in ps ==> c.resolution <= p.grid.resolution)
      && c.minX == Least(Xs(points)) && c.width == Cells(c.minX, Greatest(Xs(points)), c.resolution)
      && c.minY == Least(Ys(points)) && c.height == Cells(c.minY, Greatest(Ys(points)), c.resolution)
  {
    CornersExist(ps);
    hide AllCorners, Cells;
    ResolutionsAre(ps, Least(Resolutions(ps)));
    forall p | p in ps ensures Least(Resolutions(ps)) <= p.grid.resolution {
      ResolutionsAre(ps, p.grid.resolution);
    }
  }

  lemma CellsAre(low: real, high: real, r: real)
    requires r > 0.0
    ensures FewestCells(low, high, r, Cells(low, high, r), 1)
  {
    hide FewestCells, Ceil;
    CeilIsFewest(low, high, r, 1);
  }

  lemma WidthIsTight(ps: seq<Source>) returns (left: (real, real), right: (real, real))
    requires CanvasOf(ps).Some?
    ensures
      var c := CanvasOf(ps).value;
      && IsSomeCorner(ps, left) && IsSomeCorner(ps, right)
      && (forall q :: IsSomeCorner(ps, q) ==> left.0 <= q.0 <= right.0)
      && c.minX == left.0 && FewestCells(c.minX, right.0, c.resolution, c.width, 1)
  {
    hide *;
    CanvasIs(ps);
    var points, r := AllCorners(ps), CanvasOf(ps).value.resolution;
    left, right := WidthExtremes(points);
    CellsAre(Least(Xs(points)), Greatest(Xs(points)), r);
    forall q ensures IsSomeCorner(ps, q) <==> q in points {
      SomeCornerIff(ps, q);
    }
  }

  lemma WidthExtremes(points: seq<(real, real)>) returns (left: (real, real), right: (real, real))
    requires points != []
    ensures left in points && left.0 == Least(Xs(points)) && right in points && right.0 == Greatest(Xs(points))
    ensures forall q :: q in points ==> left.0 <= q.0 <= right.0
  {
    hide Least, Greatest;
    left, right := AtX(points, Least(Xs(points))), AtX(points, Greatest(Xs(points)));
    forall q | q in points ensures q.0 in Xs(points) {
      XsAre(points, q.0);
    }
  }

  lemma HeightIsTight(ps: seq<Source>) returns (low: (real, real), high: (real, real))
    requires CanvasOf(ps).Some?
    ensures
      var c := CanvasOf(ps).value;
      && IsSomeCorner(ps, low) && IsSomeCorner(ps, high)
      && (forall q :: IsSomeCorner(ps, q) ==> low.1 <= q.1 <= high.1)
      && c.minY == low.1 && FewestCells(c.minY, high.1, c.resolution, c.height, 1)
  {
    hide *;
    CanvasIs(ps);
    var points, r := AllCorners(ps), CanvasOf(ps).value.resolution;
    low, high := HeightExtremes(points);
    CellsAre(Least(Ys(points)), Greatest(Ys(points)), r);
    forall q ensures IsSomeCorner(ps, q) <==> q in points {
      SomeCornerIff(ps, q);
    }
  }

  lemma HeightExtremes(points: seq<(real, real)>) returns (low: (real, real), high: (real, real))
    requires points != []
    ensures low in points && low.1 == Least(Ys(points)) && high in points && high.1 == Greatest(Ys(points))
    ensures forall q :: q in points ==> low.1 <= q.1 <= high.1
  {
    hide Least, Greatest;
    low, high := AtY(points, Least(Ys(points))), AtY(points, Greatest(Ys(points)));
    forall q | q in points ensures q.1 in Ys(points) {
      YsAre(points, q.1);
    }
  }

  ghost function AtX(points: seq<(real, real)>, x: real): (q: (real, real))
    requires x in Xs(points)
    ensures q in points && q.0 == x
  {
    XsAre(points, x);
    var q :| q in points && q.0 == x;
    q
  }

  ghost function AtY(points: seq<(real, real)>, y: real): (q: (real, real))
    requires y in Ys(points)
    ensures q in points && q.1 == y
  {
    YsAre(points, y);
    var q :| q in points && q.1 == y;
    q
  }

  /* The values. */

  /** A point lies in the cell (u, v) of the merged grid. */
  predicate LiesIn(c: Canvas, x: real, y: real, u: nat, v: nat) {
    && c.minX + Metres(u, c.resolution) <= x < c.minX + Metres(u + 1, c.resolution)
    && c.minY + Metres(v, c.resolution) <= y < c.minY + Metres(v + 1, c.resolution)
  }

  /** Cell (x, y) of the grid holds `value`. */
  predicate HoldsAt(g: Grid, x: nat, y: nat, value: int) {
    x < g.width && y < g.height && x + y * g.width < |g.data| && g.data[x + y * g.width] == value
  }

  /** The cell (x, y) of the source holds `value`, and the midpoint of its corners lies in the merged cell (u, v). */
  predicate CentreLands(c: Canvas, p: Source, x: nat, y: nat, u: nat, v: nat, value: int) {
    var r := p.grid.resolution;
    var a := Place(p, Metres(x, r), Metres(y, r));
    var b := Place(p, Metres(x + 1, r), Metres(y + 1, r));
    HoldsAt(p.grid, x, y, value) && LiesIn(c, (a.0 + b.0) / 2.0, (a.1 + b.1) / 2.0, u, v)
  }

  lemma TargetIsCell(rule: Rule, c: Canvas, p: Source, x: nat, y: nat, u: nat, v: nat)
    requires Covers(rule, c, p) && HasCell(p.grid, x, y) && u < c.width && v < c.height
    ensures u + v * c.width < c.width * c.height
    ensures Target(rule, c, p, x, y) == u + v * c.width <==>
            Column(rule, c, p, x, y) == u && Row(rule, c, p, x, y) == v
  {
    FlatIndex(u, v, c.width, c.height);
    hide Column, Row, ValidSource;
    if Target(rule, c, p, x, y) == u + v * c.width {
      FlatIndexIsInjective(Column(rule, c, p, x, y), Row(rule, c, p, x, y), u, v, c.width);
    }
  }

  lemma HoldsIsCell(g: Grid, x: nat, y: nat, value: int)
    requires ValidGrid(g)
    ensures HoldsAt(g, x, y, value) <==> HasCell(g, x, y) && Cell(g, x, y) == value
  {
    if HasCell(g, x, y) {
      FlatIndex(x, y, g.width, g.height);
    }
  }

  lemma CentreLandsIff(c: Canvas, p: Source, x: nat, y: nat, u: nat, v: nat, value: int)
    requires Covers(TfAware, c, p) && u < c.width && v < c.height && value >= 0
    ensures Lands(TfAware, c, p, x, y, u + v * c.width, value) <==> CentreLands(c, p, x, y, u, v, value)
  {
    hide Place, Cell, Target, Centre, ValidGrid, HoldsAt, Metres;
    HoldsIsCell(p.grid, x, y, value);
    if HasCell(p.grid, x, y) {
      TargetIsCell(TfAware, c, p, x, y, u, v);
      CentreIsMidpoint(p, x, y);
      var r := p.grid.resolution;
      var a := Place(p, Metres(x, r), Metres(y, r));
      var b := Place(p, Metres(x + 1, r), Metres(y + 1, r));
      assert Centre(p, x, y).0 == (a.0 + b.0) / 2.0 && Centre(p, x, y).1 == (a.1 + b.1) / 2.0;
      FloorIff(c.minX, Centre(p, x, y).0, c.resolution, u);
      FloorIff(c.minY, Centre(p, x, y).1, c.resolution, v);
    }
  }

  /** The value that the merged grid holds in its cell (u, v). */
  function Shown(m: Merged, u: nat, v: nat): int
    requires u < m.canvas.width && v < m.canvas.height && |m.data| == m.canvas.width * m.canvas.height
  {
    FlatIndex(u, v, m.canvas.width, m.canvas.height);
    m.data[u + v * m.canvas.width]
  }

  /**
   Every cell (u, v) of the merged grid holds the greatest of the known values of the source cells whose centre lies in
   it, and -1 if there are none.
   */
  lemma MergedCellMeans(m: Merged, ps: seq<Source>, u: nat, v: nat)
    requires IsMergeOf(m, ps) && u < m.canvas.width && v < m.canvas.height
    ensures
      var shown := Shown(m, u, v);
      && (shown == -1 || (shown >= 0 && exists p, x, y :: p in ps && CentreLands(m.canvas, p, x, y, u, v, shown)))
      && (forall p, x, y, value :: p in ps && value >= 0 && CentreLands(m.canvas, p, x, y, u, v, value) ==>
            value <= shown)
  {
    hide CanvasOf, Covers, Lands, CentreLands;
    FlatIndex(u, v, m.canvas.width, m.canvas.height);
    var i := u + v * m.canvas.width;
    assert IsMergedCell(TfAware, m.canvas, ps, i, m.data[i]);
    forall p, x, y, value | p in ps && value >= 0
      ensures Lands(TfAware, m.canvas, p, x, y, i, value) <==> CentreLands(m.canvas, p, x, y, u, v, value)
    {
      CentreLandsIff(m.canvas, p, x, y, u, v, value);
    }
    if m.data[i] != -1 {
      var p, x, y :| p in ps && Lands(TfAware, m.canvas, p, x, y, i, m.data[i]);
      LandingsAreKnown(TfAware, m.canvas, p, x, y, i, m.data[i]);
    }
  }

  /** The cell (x, y) of the grid holds `value`, and its lower left corner lies in the merged cell (u, v). */
  predicate CornerLands(c: Canvas, g: Grid, x: nat, y: nat, u: nat, v: nat, value: int) {
    && HoldsAt(g, x, y, value)
    && LiesIn(c, g.origin.x + Metres(x, g.resolution), g.origin.y + Metres(y, g.resolution), u, v)
  }

  lemma CornerLandsIff(c: Canvas, p: Source, x: nat, y: nat, u: nat, v: nat, value: int)
    requires Covers(Offline, c, p) && u < c.width && v < c.height && (value == 0 || value == 100)
    ensures Lands(Offline, c, p, x, y, u + v * c.width, value) <==> CornerLands(c, p.grid, x, y, u, v, value)
  {
    hide Cell, Target, ValidGrid, HoldsAt, Metres;
    HoldsIsCell(p.grid, x, y, value);
    if HasCell(p.grid, x, y) {
      TargetIsCell(Offline, c, p, x, y, u, v);
      FloorIff(c.minX, p.grid.origin.x + Metres(x, p.grid.resolution), c.resolution, u);
      FloorIff(c.minY, p.grid.origin.y + Metres(y, p.grid.resolution), c.resolution, v);
    }
  }

  ghost predicate SomeCornerLands(c: Canvas, gs: seq<Grid>, u: nat, v: nat, value: int) {
    exists k: nat, x: nat, y: nat :: k < |gs| && CornerLands(c, gs[k], x, y, u, v, value)
  }

  lemma GridLandsIff(gs: seq<Grid>, k: nat, x: nat, y: nat, u: nat, v: nat, value: int)
    requires Usable(gs) && k < |gs| && (value == 0 || value == 100)
    requires u < OfflineCanvas(gs).width && v < OfflineCanvas(gs).height
    ensures
      var c, p := OfflineCanvas(gs), AsSources(gs)[k];
      && p in AsSources(gs)
      && (Lands(Offline, c, p, x, y, u + v * c.width, value) <==> CornerLands(c, gs[k], x, y, u, v, value))
  {
    hide Usable, OfflineCanvas, Covers, Lands, CornerLands;
    GridIsCovered(gs, k);
    CornerLandsIff(OfflineCanvas(gs), AsSources(gs)[k], x, y, u, v, value);
  }

  lemma SomeCornerLandsIff(gs: seq<Grid>, u: nat, v: nat, value: int)
    requires Usable(gs) && (value == 0 || value == 100)
    requires u < OfflineCanvas(gs).width && v < OfflineCanvas(gs).height
    ensures SomeLands(gs, u + v * OfflineCanvas(gs).width, value) <==>
            SomeCornerLands(OfflineCanvas(gs), gs, u, v, value)
  {
    hide Usable, OfflineCanvas, Lands, CornerLands, AsSources;
    var c := OfflineCanvas(gs);
    if SomeLands(gs, u + v * c.width, value) {
      var p, x, y :| p in AsSources(gs) && Lands(Offline, c, p, x, y, u + v * c.width, value);
      var k: nat :| k < |gs| && AsSources(gs)[k] == p;
      GridLandsIff(gs, k, x, y, u, v, value);
    }
    if SomeCornerLands(c, gs, u, v, value) {
      var k: nat, x: nat, y: nat :| k < |gs| && CornerLands(c, gs[k], x, y, u, v, value);
      GridLandsIff(gs, k, x, y, u, v, value);
    }
  }

  /**
   Every cell (u, v) of the offline merge is occupied if the corner of some occupied cell lies in it, else free if that
   of some free cell does, and else unknown.
   */
  lemma OfflineCellMeans(m: Merged, gs: seq<Grid>, u: nat, v: nat)
    requires Usable(gs) && IsOfflineMergeOf(m, gs) && u < m.canvas.width && v < m.canvas.height
    ensures Shown(m, u, v) ==
            if SomeCornerLands(m.canvas, gs, u, v, 100) then 100
            else if SomeCornerLands(m.canvas, gs, u, v, 0) then 0 else -1
  {
    hide Usable, OfflineCanvas, IsMergedCell, SomeLands, SomeCornerLands;
    FlatIndex(u, v, m.canvas.width, m.canvas.height);
    ObstaclesWin(m, gs, u + v * m.canvas.width);
    SomeCornerLandsIff(gs, u, v, 100);
    SomeCornerLandsIff(gs, u, v, 0);
  }

  lemma OfflineResolution(gs: seq<Grid>)
    requires Usable(gs)
    ensures exists k :: 0 <= k < |gs| && gs[k].resolution == OfflineCanvas(gs).resolution
    ensures forall k :: 0 <= k < |gs| ==> OfflineCanvas(gs).resolution <= gs[k].resolution
  {
    hide OfflineCanvas, Usable, Least, Span;
    CanvasFields(gs);
    var rs := Resolutions(AsSources(gs));
    assert forall k :: 0 <= k < |gs| ==> rs[k] == gs[k].resolution && rs[k] in rs;
  }

  lemma UsableIsNotEmpty(gs: seq<Grid>)
    requires Usable(gs)
    ensures gs != []
  {
  }

  lemma LeastAt(xs: seq<real>) returns (i: nat)
    requires xs != []
    ensures i < |xs| && xs[i] == Least(xs) && forall k :: 0 <= k < |xs| ==> Least(xs) <= xs[k]
  {
    i :| i < |xs| && xs[i] == Least(xs);
    assert forall k :: 0 <= k < |xs| ==> xs[k] in xs;
  }

  lemma GreatestAt(xs: seq<real>) returns (i: nat)
    requires xs != []
    ensures i < |xs| && xs[i] == Greatest(xs) && forall k :: 0 <= k < |xs| ==> xs[k] <= Greatest(xs)
  {
    i :| i < |xs| && xs[i] == Greatest(xs);
    assert forall k :: 0 <= k < |xs| ==> xs[k] in xs;
  }

  lemma WidthEnds(gs: seq<Grid>)
    requires gs != []
    ensures exists k :: 0 <= k < |gs| && gs[k].origin.x == Least(Lefts(gs))
    ensures forall k :: 0 <= k < |gs| ==> Least(Lefts(gs)) <= gs[k].origin.x
    ensures exists k :: 0 <= k < |gs| && Greatest(Rights(gs)) == gs[k].origin.x + Metres(gs[k].width, gs[k].resolution)
    ensures forall k :: 0 <= k < |gs| ==>
      gs[k].origin.x + Metres(gs[k].width, gs[k].resolution) <= Greatest(Rights(gs))
  {
    hide Least, Greatest, Metres;
    var i := LeastAt(Lefts(gs));
    var j := GreatestAt(Rights(gs));
    assert gs[i].origin.x == Least(Lefts(gs));
    assert gs[j].origin.x + Metres(gs[j].width, gs[j].resolution) == Greatest(Rights(gs));
    forall k | 0 <= k < |gs|
      ensures Lefts(gs)[k] == gs[k].origin.x
      ensures Rights(gs)[k] == gs[k].origin.x + Metres(gs[k].width, gs[k].resolution)
    {
    }
  }

  lemma OfflineWidth(gs: seq<Grid>) returns (right: real)
    requires Usable(gs)
    ensures
      var c := OfflineCanvas(gs);
      && (exists k :: 0 <= k < |gs| && gs[k].origin.x == c.minX)
      && (exists k :: 0 <= k < |gs| && right == gs[k].origin.x + Metres(gs[k].width, gs[k].resolution))
      && (forall k :: 0 <= k < |gs| ==>
            && c.minX <= gs[k].origin.x
            && gs[k].origin.x + Metres(gs[k].width, gs[k].resolution) <= right)
      && FewestCells(c.minX, right, c.resolution, c.width, 0)
  {
    hide *;
    CanvasFields(gs);
    ExtentIsOrdered(gs);
    UsableIsNotEmpty(gs);
    WidthEnds(gs);
    right := Greatest(Rights(gs));
    SpanIsFewest(OfflineCanvas(gs).minX, right, OfflineCanvas(gs).resolution);
  }

  lemma HeightEnds(gs: seq<Grid>)
    requires gs != []
    ensures exists k :: 0 <= k < |gs| && gs[k].origin.y == Least(Bottoms(gs))
    ensures forall k :: 0 <= k < |gs| ==> Least(Bottoms(gs)) <= gs[k].origin.y
    ensures exists k :: 0 <= k < |gs| && Greatest(Tops(gs)) == gs[k].origin.y + Metres(gs[k].height, gs[k].resolution)
    ensures forall k :: 0 <= k < |gs| ==>
      gs[k].origin.y + Metres(gs[k].height, gs[k].resolution) <= Greatest(Tops(gs))
  {
    hide Least, Greatest, Metres;
    var i := LeastAt(Bottoms(gs));
    var j := GreatestAt(Tops(gs));
    assert gs[i].origin.y == Least(Bottoms(gs));
    assert gs[j].origin.y + Metres(gs[j].height, gs[j].resolution) == Greatest(Tops(gs));
    forall k | 0 <= k < |gs|
      ensures Bottoms(gs)[k] == gs[k].origin.y
      ensures Tops(gs)[k] == gs[k].origin.y + Metres(gs[k].height, gs[k].resolution)
    {
    }
  }

  lemma OfflineHeight(gs: seq<Grid>) returns (top: real)
    requires Usable(gs)
    ensures
      var c := OfflineCanvas(gs);
      && (exists k :: 0 <= k < |gs| && gs[k].origin.y == c.minY)
      && (exists k :: 0 <= k < |gs| && top == gs[k].origin.y + Metres(gs[k].height, gs[k].resolution))
      && (forall k :: 0 <= k < |gs| ==>
            && c.minY <= gs[k].origin.y
            && gs[k].origin.y + Metres(gs[k].height, gs[k].resolution) <= top)
      && FewestCells(c.minY, top, c.resolution, c.height, 0)
  {
    hide *;
    CanvasFields(gs);
    ExtentIsOrdered(gs);
    UsableIsNotEmpty(gs);
    HeightEnds(gs);
    top := Greatest(Tops(gs));
    SpanIsFewest(OfflineCanvas(gs).minY, top, OfflineCanvas(gs).resolution);
  }

  /**
   The offline grid has the finest resolution, starts at the leftmost and lowest origins, and has the fewest cells that
   reach the rightmost and highest ends, where origins and ends ignore how the grids are turned.
   */
  lemma OfflineCanvasIsTight(gs: seq<Grid>) returns (right: real, top: real)
    requires Usable(gs)
    ensures
      var c := OfflineCanvas(gs);
      && (exists k :: 0 <= k < |gs| && gs[k].resolution == c.resolution)
      && (exists k :: 0 <= k < |gs| && gs[k].origin.x == c.minX)
      && (exists k :: 0 <= k < |gs| && gs[k].origin.y == c.minY)
      && (exists k :: 0 <= k < |gs| && right == gs[k].origin.x + Metres(gs[k].width, gs[k].resolution))
      && (exists k :: 0 <= k < |gs| && top == gs[k].origin.y + Metres(gs[k].height, gs[k].resolution))
      && (forall k :: 0 <= k < |gs| ==>
            && c.resolution <= gs[k].resolution
            && c.minX <= gs[k].origin.x && gs[k].origin.x + Metres(gs[k].width, gs[k].resolution) <= right
            && c.minY <= gs[k].origin.y && gs[k].origin.y + Metres(gs[k].height, gs[k].resolution) <= top)
      && FewestCells(c.minX, right, c.resolution, c.width, 0)
      && FewestCells(c.minY, top, c.resolution, c.height, 0)
  {
    hide *;
    OfflineResolution(gs);
    right := OfflineWidth(gs);
    top := OfflineHeight(gs);
  }

  lemma SpanIsFewest(low: real, high: real, r: real)
    requires r > 0.0 && low <= high
    ensures FewestCells(low, high, r, Span(low, high, r), 0)
  {
    hide FewestCells, Ceil;
    CeilIsFewest(low, high, r, 0);
  }
}
