/** When the offline merge and the TF-aware merge produce the same grid. */
module MergeAgreement {
  import opened Common
  import opened Grids
  import opened MergeGeometry
  import opened MergeMarks
  import opened MergeMap
  import opened OfflineMerge

  predicate Upright(g: Grid) {
    g.origin.c == 1.0 && g.origin.s == 0.0
  }

  /** Grids that are not turned and have at least one cell. */
  predicate UprightAll(gs: seq<Grid>) {
    Usable(gs) && forall k :: 0 <= k < |gs| ==> Upright(gs[k]) && gs[k].width >= 1 && gs[k].height >= 1
  }

  lemma UprightPlace(g: Grid, x: real, y: real)
    requires Upright(g)
    ensures Place(Source(g, IDENTITY), x, y) == (g.origin.x + x, g.origin.y + y)
  {
  }

  /** The grid's corners reach from its left to its right and from its bottom to its top. */
  lemma UprightCorners(g: Grid)
    requires Upright(g)
    ensures
      var l, b := g.origin.x, g.origin.y;
      var r, t := l + Metres(g.width, g.resolution), b + Metres(g.height, g.resolution);
      Corners(Source(g, IDENTITY)) == [(l, b), (r, b), (l, t), (r, t)]
  {
    var w, h := Metres(g.width, g.resolution), Metres(g.height, g.resolution);
    hide Place, Metres;
    UprightPlace(g, 0.0, 0.0);
    UprightPlace(g, w, 0.0);
    UprightPlace(g, 0.0, h);
    UprightPlace(g, w, h);
  }

  lemma LeastIs(xs: seq<real>, x: real)
    requires x in xs && forall y :: y in xs ==> x <= y
    ensures Least(xs) == x
  {
  }

  lemma GreatestIs(xs: seq<real>, x: real)
    requires x in xs && forall y :: y in xs ==> y <= x
    ensures Greatest(xs) == x
  {
  }

  /** A corner of some grid, and every corner lies within the extent that the offline merge computes. */
  lemma CornerWithin(gs: seq<Grid>, q: (real, real))
    requires UprightAll(gs) && q in AllCorners(AsSources(gs))
    ensures Least(Lefts(gs)) <= q.0 <= Greatest(Rights(gs)) && Least(Bottoms(gs)) <= q.1 <= Greatest(Tops(gs))
  {
    var ps := AsSources(gs);
    CornersAre(ps, q);
    var p :| p in ps && q in Corners(p);
    var k :| 0 <= k < |ps| && ps[k] == p;
    hide AllCorners, Corners, Metres, ValidGrid;
    assert Upright(gs[k]);
    UprightCorners(gs[k]);
    MetresArePositive(gs[k].width, gs[k].resolution);
    MetresArePositive(gs[k].height, gs[k].resolution);
    assert Lefts(gs)[k] in Lefts(gs) && Rights(gs)[k] in Rights(gs);
    assert Bottoms(gs)[k] in Bottoms(gs) && Tops(gs)[k] in Tops(gs);
  }

  lemma CornersOf(gs: seq<Grid>, k: nat)
    requires UprightAll(gs) && k < |gs|
    ensures (Lefts(gs)[k], Bottoms(gs)[k]) in AllCorners(AsSources(gs))
    ensures (Rights(gs)[k], Tops(gs)[k]) in AllCorners(AsSources(gs))
  {
    var ps := AsSources(gs);
    hide AllCorners, Corners, Metres, ValidGrid, Upright;
    assert Upright(gs[k]);
    UprightCorners(gs[k]);
    var corners := Corners(ps[k]);
    assert corners[0] in corners && corners[3] in corners && ps[k] in ps;
    CornersAre(ps, corners[0]);
    CornersAre(ps, corners[3]);
  }

  lemma SameExtentInX(gs: seq<Grid>)
    requires UprightAll(gs) && AllCorners(AsSources(gs)) != []
    ensures Least(Xs(AllCorners(AsSources(gs)))) == Least(Lefts(gs))
    ensures Greatest(Xs(AllCorners(AsSources(gs)))) == Greatest(Rights(gs))
  {
    var corners := AllCorners(AsSources(gs));
    var low: nat :| low < |gs| && Lefts(gs)[low] == Least(Lefts(gs));
    var high: nat :| high < |gs| && Rights(gs)[high] == Greatest(Rights(gs));
    CornersOf(gs, low);
    CornersOf(gs, high);
    hide UprightAll, AllCorners;
    XsAre(corners, Least(Lefts(gs)));
    XsAre(corners, Greatest(Rights(gs)));
    forall x | x in Xs(corners) ensures Least(Lefts(gs)) <= x <= Greatest(Rights(gs)) {
      XsAre(corners, x);
      var q :| q in corners && q.0 == x;
      CornerWithin(gs, q);
    }
    LeastIs(Xs(corners), Least(Lefts(gs)));
    GreatestIs(Xs(corners), Greatest(Rights(gs)));
  }

  lemma SameExtentInY(gs: seq<Grid>)
    requires UprightAll(gs) && AllCorners(AsSources(gs)) != []
    ensures Least(Ys(AllCorners(AsSources(gs)))) == Least(Bottoms(gs))
    ensures Greatest(Ys(AllCorners(AsSources(gs)))) == Greatest(Tops(gs))
  {
    var corners := AllCorners(AsSources(gs));
    var low: nat :| low < |gs| && Bottoms(gs)[low] == Least(Bottoms(gs));
    var high: nat :| high < |gs| && Tops(gs)[high] == Greatest(Tops(gs));
    CornersOf(gs, low);
    CornersOf(gs, high);
    hide UprightAll, AllCorners;
    YsAre(corners, Least(Bottoms(gs)));
    YsAre(corners, Greatest(Tops(gs)));
    forall y | y in Ys(corners) ensures Least(Bottoms(gs)) <= y <= Greatest(Tops(gs)) {
      YsAre(corners, y);
      var q :| q in corners && q.1 == y;
      CornerWithin(gs, q);
    }
    LeastIs(Ys(corners), Least(Bottoms(gs)));
    GreatestIs(Ys(corners), Greatest(Tops(gs)));
  }

  /** With a cell to cover, the offline merge needs no lower bound on the size. */
  lemma SpanIsCells(low: real, high: real, resolution: real)
    requires low < high && resolution > 0.0
    ensures Span(low, high, resolution) == Cells(low, high, resolution)
  {
    FloorWithin(low, low, high, resolution);
  }

  lemma ExtentIsProper(gs: seq<Grid>)
    requires UprightAll(gs)
    ensures Least(Lefts(gs)) < Greatest(Rights(gs)) && Least(Bottoms(gs)) < Greatest(Tops(gs))
  {
    assert Lefts(gs)[0] in Lefts(gs) && Rights(gs)[0] in Rights(gs);
    assert Bottoms(gs)[0] in Bottoms(gs) && Tops(gs)[0] in Tops(gs);
    MetresKeepOrder(0, gs[0].width, gs[0].resolution);
    MetresKeepOrder(0, gs[0].height, gs[0].resolution);
    hide Metres;
  }

  /** Grids that are not turned give both merges the same origin, resolution and size, whatever their resolutions. */
  lemma SameCanvas(gs: seq<Grid>)
    requires UprightAll(gs)
    ensures CanvasOf(AsSources(gs)) == Some(OfflineCanvas(gs))
  {
    var ps := AsSources(gs);
    hide AllCorners, Corners, Cells, Span, Metres, ValidGrid, Upright;
    FinestIsPositive(gs);
    CornersExist(ps);
    ExtentIsProper(gs);
    SameExtentInX(gs);
    SameExtentInY(gs);
    var r := Least(Resolutions(ps));
    SpanIsCells(Least(Lefts(gs)), Greatest(Rights(gs)), r);
    SpanIsCells(Least(Bottoms(gs)), Greatest(Tops(gs)), r);
  }

  /* Cells. */

  /** The n-th point of a lattice that starts at `base`. */
  function LatticePoint(base: real, n: int, r: real): real {
    base + n as real * r
  }

  /** All grids have one resolution, and their origins lie on one lattice of that spacing. */
  predicate OnLattice(gs: seq<Grid>, at: seq<(int, int)>, originX: real, originY: real, r: real) {
    && |at| == |gs|
    && forall k :: 0 <= k < |gs| ==>
         && gs[k].resolution == r
         && gs[k].origin.x == LatticePoint(originX, at[k].0, r) && gs[k].origin.y == LatticePoint(originY, at[k].1, r)
  }

  /** A whole number of cells, plus at most the half cell to a centre, is still in the same cell. */
  lemma HalfCellStays(n: int, i: nat, low: real, origin: real, r: real)
    requires r > 0.0 && origin == LatticePoint(low, n, r)
    ensures ((origin + Middle(i, r) - low) / r).Floor == n + i
    ensures ((origin + Metres(i, r) - low) / r).Floor == n + i
  {
    var m := (n + i) as real;
    assert m == n as real + i as real;
    Cancel(origin + Middle(i, r) - low, m + 0.5, r);
    Cancel(origin + Metres(i, r) - low, m, r);
  }

  lemma Cancel(q: real, a: real, r: real)
    requires r != 0.0 && q == a * r
    ensures q / r == a
  {
  }

  /** The grids that reach furthest to the left and to the bottom. */
  lemma CornerGrids(gs: seq<Grid>) returns (low: nat, bottom: nat)
    requires Usable(gs)
    ensures low < |gs| && gs[low].origin.x == OfflineCanvas(gs).minX
    ensures bottom < |gs| && gs[bottom].origin.y == OfflineCanvas(gs).minY
  {
    hide OfflineCanvas, Least, Greatest, Span;
    CanvasFields(gs);
    low :| low < |gs| && Lefts(gs)[low] == Least(Lefts(gs));
    bottom :| bottom < |gs| && Bottoms(gs)[bottom] == Least(Bottoms(gs));
  }

  /** Each grid begins a whole number of cells from the corner of the merged grid. */
  lemma WholeCells(
    gs: seq<Grid>, at: seq<(int, int)>, originX: real, originY: real, r: real, low: nat, bottom: nat, k: nat)
    requires Usable(gs) && OnLattice(gs, at, originX, originY, r) && k < |gs|
    requires low < |gs| && gs[low].origin.x == OfflineCanvas(gs).minX
    requires bottom < |gs| && gs[bottom].origin.y == OfflineCanvas(gs).minY
    ensures gs[k].origin.x == LatticePoint(OfflineCanvas(gs).minX, at[k].0 - at[low].0, r)
    ensures gs[k].origin.y == LatticePoint(OfflineCanvas(gs).minY, at[k].1 - at[bottom].1, r)
  {
    hide Usable, OfflineCanvas, LatticePoint;
    Apart(originX, at[k].0, at[low].0, r);
    Apart(originY, at[k].1, at[bottom].1, r);
  }

  lemma OneResolution(gs: seq<Grid>, at: seq<(int, int)>, originX: real, originY: real, r: real)
    requires Usable(gs) && OnLattice(gs, at, originX, originY, r)
    ensures OfflineCanvas(gs).resolution == r > 0.0
  {
    hide Metres, ValidGrid;
    CanvasFields(gs);
    ResolutionsAre(AsSources(gs), OfflineCanvas(gs).resolution);
  }

  /** Under either rule, a cell falls where its place on the lattice says. */
  lemma TargetsAre(
    gs: seq<Grid>, at: seq<(int, int)>, originX: real, originY: real, r: real, low: nat, bottom: nat,
    rule: Rule, k: nat, x: nat, y: nat)
    requires UprightAll(gs) && OnLattice(gs, at, originX, originY, r) && k < |gs|
    requires low < |gs| && gs[low].origin.x == OfflineCanvas(gs).minX
    requires bottom < |gs| && gs[bottom].origin.y == OfflineCanvas(gs).minY
    ensures
      var c, p := OfflineCanvas(gs), AsSources(gs)[k];
      && c.resolution > 0.0
      && Column(rule, c, p, x, y) == at[k].0 - at[low].0 + x
      && Row(rule, c, p, x, y) == at[k].1 - at[bottom].1 + y
  {
    hide Usable, OfflineCanvas, Upright, Middle, Metres, Place, LatticePoint;
    var c, g := OfflineCanvas(gs), gs[k];
    OneResolution(gs, at, originX, originY, r);
    WholeCells(gs, at, originX, originY, r, low, bottom, k);
    assert Upright(g);
    UprightPlace(g, Middle(x, r), Middle(y, r));
    HalfCellStays(at[k].0 - at[low].0, x, c.minX, g.origin.x, r);
    HalfCellStays(at[k].1 - at[bottom].1, y, c.minY, g.origin.y, r);
  }

  /** Centres and corners of cells fall into the same merged cells. */
  lemma SameTargets(gs: seq<Grid>, at: seq<(int, int)>, originX: real, originY: real, r: real, k: nat, x: nat, y: nat)
    requires UprightAll(gs) && OnLattice(gs, at, originX, originY, r) && k < |gs|
    ensures
      var c, p := OfflineCanvas(gs), AsSources(gs)[k];
      c.resolution > 0.0 && Column(TfAware, c, p, x, y) == Column(Offline, c, p, x, y)
      && Row(TfAware, c, p, x, y) == Row(Offline, c, p, x, y)
  {
    hide Usable, OfflineCanvas, OnLattice, Column, Row;
    var low, bottom := CornerGrids(gs);
    TargetsAre(gs, at, originX, originY, r, low, bottom, TfAware, k, x, y);
    TargetsAre(gs, at, originX, originY, r, low, bottom, Offline, k, x, y);
  }

  lemma Apart(base: real, n: int, m: int, r: real)
    ensures LatticePoint(base, n, r) == LatticePoint(LatticePoint(base, m, r), n - m, r)
  {
    assert (n - m) as real == n as real - m as real;
  }

  lemma SameLandings(
    gs: seq<Grid>, at: seq<(int, int)>, originX: real, originY: real, r: real,
    p: Source, x: nat, y: nat, i: nat, v: int)
    requires UprightAll(gs) && OnLattice(gs, at, originX, originY, r) && p in AsSources(gs)
    requires CoversAll(TfAware, OfflineCanvas(gs), AsSources(gs))
    ensures Lands(Offline, OfflineCanvas(gs), p, x, y, i, v) <==>
            Lands(TfAware, OfflineCanvas(gs), p, x, y, i, v) && (v == 0 || v == 100)
  {
    var k: nat :| k < |gs| && AsSources(gs)[k] == p;
    EveryCornerFallsInside(gs);
    SameTargets(gs, at, originX, originY, r, k, x, y);
    hide UprightAll, OnLattice, OfflineCanvas, Column, Row, Cell;
    assert Covers(TfAware, OfflineCanvas(gs), p) && Covers(Offline, OfflineCanvas(gs), p);
  }

  lemma SameCell(
    gs: seq<Grid>, at: seq<(int, int)>, originX: real, originY: real, r: real, i: nat, v: int, w: int)
    requires UprightAll(gs) && OnLattice(gs, at, originX, originY, r)
    requires CoversAll(TfAware, OfflineCanvas(gs), AsSources(gs))
    requires IsMergedCell(TfAware, OfflineCanvas(gs), AsSources(gs), i, v)
    requires IsMergedCell(Offline, OfflineCanvas(gs), AsSources(gs), i, w)
    ensures v == w <==> v == -1 || v == 0 || v == 100
  {
    var c, ps := OfflineCanvas(gs), AsSources(gs);
    hide UprightAll, OnLattice, OfflineCanvas, CoversAll, Lands, AsSources;
    if w != -1 {
      var p, x, y :| p in ps && Lands(Offline, c, p, x, y, i, w);
      SameLandings(gs, at, originX, originY, r, p, x, y, i, w);
      LandingsAreKnown(Offline, c, p, x, y, i, w);
    }
    if v != -1 {
      var p, x, y :| p in ps && Lands(TfAware, c, p, x, y, i, v);
      SameLandings(gs, at, originX, originY, r, p, x, y, i, v);
      LandingsAreKnown(TfAware, c, p, x, y, i, v);
    }
  }

  /**
   On upright grids of one resolution, offset by whole cells, the two merges always agree on origin, resolution and
   size; and they agree on the data exactly if the TF-aware merge shows nothing but -1, 0 and 100.
   */
  lemma MergesAgreeIff(
    gs: seq<Grid>, at: seq<(int, int)>, originX: real, originY: real, r: real, a: Merged, b: Merged)
    requires UprightAll(gs) && OnLattice(gs, at, originX, originY, r)
    requires IsMergeOf(a, AsSources(gs)) && IsOfflineMergeOf(b, gs)
    ensures a.canvas == b.canvas && |a.data| == |b.data|
    ensures a.data == b.data <==> Plain(a.data)
  {
    SameCanvas(gs);
    hide UprightAll, OnLattice, OfflineCanvas, CoversAll, CanvasOf, AsSources;
    forall i | 0 <= i < |a.data|
      ensures a.data[i] == b.data[i] <==> a.data[i] == -1 || a.data[i] == 0 || a.data[i] == 100
    {
      SameCell(gs, at, originX, originY, r, i, a.data[i], b.data[i]);
    }
  }

  /* When the merges agree, told by the grids alone. */

  /** Two cells lie at the same place of the lattice. */
  predicate SamePlace(at: seq<(int, int)>, k: nat, x: nat, y: nat, j: nat, u: nat, v: nat) {
    && k < |at| && j < |at|
    && at[k].0 + x == at[j].0 + u && at[k].1 + y == at[j].1 + v
  }

  lemma LatticeIsComplete(gs: seq<Grid>, at: seq<(int, int)>, originX: real, originY: real, r: real)
    requires OnLattice(gs, at, originX, originY, r)
    ensures |at| == |gs|
  {
  }

  /** Cells share a merged cell if and only if they share a place of the lattice. */
  lemma TargetsMeetIff(
    gs: seq<Grid>, at: seq<(int, int)>, originX: real, originY: real, r: real,
    k: nat, x: nat, y: nat, j: nat, u: nat, v: nat)
    requires UprightAll(gs) && OnLattice(gs, at, originX, originY, r)
    requires k < |gs| && HasCell(gs[k], x, y) && j < |gs| && HasCell(gs[j], u, v)
    requires CoversAll(TfAware, OfflineCanvas(gs), AsSources(gs))
    ensures AsSources(gs)[k] in AsSources(gs) && AsSources(gs)[j] in AsSources(gs)
    ensures
      var c, p, q := OfflineCanvas(gs), AsSources(gs)[k], AsSources(gs)[j];
      Target(TfAware, c, p, x, y) == Target(TfAware, c, q, u, v) <==> SamePlace(at, k, x, y, j, u, v)
  {
    hide Usable, Upright, OfflineCanvas, OnLattice, LatticePoint, Column, Row, ValidSource;
    var c, p, q := OfflineCanvas(gs), AsSources(gs)[k], AsSources(gs)[j];
    assert p in AsSources(gs) && q in AsSources(gs);
    assert HasCell(p.grid, x, y) && HasCell(q.grid, u, v);
    var low, bottom := CornerGrids(gs);
    TargetsAre(gs, at, originX, originY, r, low, bottom, TfAware, k, x, y);
    TargetsAre(gs, at, originX, originY, r, low, bottom, TfAware, j, u, v);
    LatticeIsComplete(gs, at, originX, originY, r);
    hide UprightAll;
    assert Covers(TfAware, c, p) && Covers(TfAware, c, q);
    if Target(TfAware, c, p, x, y) == Target(TfAware, c, q, u, v) {
      FlatIndexIsInjective(
        Column(TfAware, c, p, x, y), Row(TfAware, c, p, x, y),
        Column(TfAware, c, q, u, v), Row(TfAware, c, q, u, v), c.width);
    }
  }

  /** A cell of some grid holds `value`. */
  predicate Holds(gs: seq<Grid>, k: nat, x: nat, y: nat, value: int)
    requires Usable(gs)
  {
    k < |gs| && HasCell(gs[k], x, y) && Cell(gs[k], x, y) == value
  }

  /** Every known value but 0 and 100 is below 100 and lies under a 100. */
  ghost predicate InBetweensAreCovered(gs: seq<Grid>, at: seq<(int, int)>)
    requires Usable(gs)
  {
    forall k: nat, x: nat, y: nat, value: int {:trigger Holds(gs, k, x, y, value)} ::
      Holds(gs, k, x, y, value) && value > 0 && value != 100 ==> value < 100 && Under100(gs, at, k, x, y)
  }

  ghost predicate Under100(gs: seq<Grid>, at: seq<(int, int)>, k: nat, x: nat, y: nat)
    requires Usable(gs)
  {
    exists j: nat, u: nat, v: nat :: Holds(gs, j, u, v, 100) && SamePlace(at, k, x, y, j, u, v)
  }

  /** A known cell lands, and bounds the value of the merged cell from below. */
  lemma HeldLands(gs: seq<Grid>, a: Merged, k: nat, x: nat, y: nat, value: int) returns (i: nat)
    requires Usable(gs) && IsMergeOf(a, AsSources(gs)) && Holds(gs, k, x, y, value) && value >= 0
    ensures AsSources(gs)[k] in AsSources(gs) && Covers(TfAware, a.canvas, AsSources(gs)[k])
    ensures i < |a.data| && i == Target(TfAware, a.canvas, AsSources(gs)[k], x, y) && value <= a.data[i]
  {
    hide Usable, CanvasOf, Column, Row;
    var p := AsSources(gs)[k];
    assert p in AsSources(gs) && HasCell(p.grid, x, y);
    i := Target(TfAware, a.canvas, p, x, y);
    assert Lands(TfAware, a.canvas, p, x, y, i, value);
    assert IsMergedCell(TfAware, a.canvas, AsSources(gs), i, a.data[i]);
  }

  /** A value that shows in the merged grid is held by a cell that lands there. */
  lemma ShownIsHeld(gs: seq<Grid>, a: Merged, i: nat) returns (k: nat, x: nat, y: nat)
    requires Usable(gs) && IsMergeOf(a, AsSources(gs)) && i < |a.data| && a.data[i] != -1
    ensures Holds(gs, k, x, y, a.data[i]) && a.data[i] >= 0
    ensures AsSources(gs)[k] in AsSources(gs) && Covers(TfAware, a.canvas, AsSources(gs)[k])
    ensures i == Target(TfAware, a.canvas, AsSources(gs)[k], x, y)
  {
    hide Usable, CanvasOf, Column, Row;
    var p;
    assert IsMergedCell(TfAware, a.canvas, AsSources(gs), i, a.data[i]);
    p, x, y :| p in AsSources(gs) && Lands(TfAware, a.canvas, p, x, y, i, a.data[i]);
    k :| k < |gs| && AsSources(gs)[k] == p;
  }

  lemma PlainMeansCovered(
    gs: seq<Grid>, at: seq<(int, int)>, originX: real, originY: real, r: real, a: Merged)
    requires UprightAll(gs) && OnLattice(gs, at, originX, originY, r)
    requires IsMergeOf(a, AsSources(gs)) && a.canvas == OfflineCanvas(gs) && Plain(a.data)
    ensures InBetweensAreCovered(gs, at)
  {
    hide OnLattice, OfflineCanvas, Usable, SamePlace, IsMergedCell, Covers, CanvasOf, Holds;
    forall k: nat, x: nat, y: nat, value: int | Holds(gs, k, x, y, value) && value > 0 && value != 100
      ensures value < 100 && Under100(gs, at, k, x, y)
    {
      var i := HeldLands(gs, a, k, x, y, value);
      var j, u, v := ShownIsHeld(gs, a, i);
      HeldIsCell(gs, k, x, y, value);
      HeldIsCell(gs, j, u, v, 100);
      TargetsMeetIff(gs, at, originX, originY, r, k, x, y, j, u, v);
    }
  }

  lemma HeldIsCell(gs: seq<Grid>, k: nat, x: nat, y: nat, value: int)
    requires Usable(gs) && Holds(gs, k, x, y, value)
    ensures k < |gs| && HasCell(gs[k], x, y)
  {
  }

  lemma CoveredMeansPlain(
    gs: seq<Grid>, at: seq<(int, int)>, originX: real, originY: real, r: real, a: Merged)
    requires UprightAll(gs) && OnLattice(gs, at, originX, originY, r)
    requires IsMergeOf(a, AsSources(gs)) && a.canvas == OfflineCanvas(gs) && InBetweensAreCovered(gs, at)
    ensures Plain(a.data)
  {
    hide OnLattice, OfflineCanvas, Usable, SamePlace, IsMergedCell, Covers, CanvasOf, Holds;
    forall i | 0 <= i < |a.data| ensures a.data[i] == -1 || a.data[i] == 0 || a.data[i] == 100 {
      if a.data[i] != -1 && a.data[i] != 0 && a.data[i] != 100 {
        var k, x, y := ShownIsHeld(gs, a, i);
        var j, u, v :| Holds(gs, j, u, v, 100) && SamePlace(at, k, x, y, j, u, v);
        HeldIsCell(gs, k, x, y, a.data[i]);
        HeldIsCell(gs, j, u, v, 100);
        TargetsMeetIff(gs, at, originX, originY, r, k, x, y, j, u, v);
        var i2 := HeldLands(gs, a, j, u, v, 100);
        assert false;
      }
    }
  }

  /**
   The same, told by the grids before they are merged: the data agree if and only if every known value other than
   0 and 100 is below 100 and lies at the same place as a 100.
   */
  lemma MergesAgreeOnInputsIff(
    gs: seq<Grid>, at: seq<(int, int)>, originX: real, originY: real, r: real, a: Merged, b: Merged)
    requires UprightAll(gs) && OnLattice(gs, at, originX, originY, r)
    requires IsMergeOf(a, AsSources(gs)) && IsOfflineMergeOf(b, gs)
    ensures a.canvas == b.canvas && |a.data| == |b.data|
    ensures a.data == b.data <==> InBetweensAreCovered(gs, at)
  {
    hide OnLattice, OfflineCanvas, CoversAll, CanvasOf, AsSources, Usable, IsMergedCell, InBetweensAreCovered, Plain;
    MergesAgreeIff(gs, at, originX, originY, r, a, b);
    if Plain(a.data) {
      PlainMeansCovered(gs, at, originX, originY, r, a);
    }
    if InBetweensAreCovered(gs, at) {
      CoveredMeansPlain(gs, at, originX, originY, r, a);
    }
  }

  lemma PlainIsCovered(gs: seq<Grid>, at: seq<(int, int)>)
    requires Usable(gs) && forall k :: 0 <= k < |gs| ==> Plain(gs[k].data)
    ensures InBetweensAreCovered(gs, at)
  {
    forall k: nat, x: nat, y: nat, value: int | Holds(gs, k, x, y, value) ensures value <= 0 || value == 100 {
      FlatIndex(x, y, gs[k].width, gs[k].height);
    }
  }

  /** Grids that hold nothing but -1, 0 and 100 are merged alike. */
  lemma PlainGridsMergeAlike(
    gs: seq<Grid>, at: seq<(int, int)>, originX: real, originY: real, r: real, a: Merged, b: Merged)
    requires UprightAll(gs) && OnLattice(gs, at, originX, originY, r) && forall k :: 0 <= k < |gs| ==> Plain(gs[k].data)
    requires IsMergeOf(a, AsSources(gs)) && IsOfflineMergeOf(b, gs)
    ensures a == b
  {
    hide OnLattice, OfflineCanvas, CoversAll, CanvasOf, AsSources, Usable, IsMergedCell, InBetweensAreCovered, Plain;
    PlainIsCovered(gs, at);
    MergesAgreeOnInputsIff(gs, at, originX, originY, r, a, b);
  }

  /** A single cell, half a metre wide, that is occupied with a probability of 50. */
  const HALF_OCCUPIED: Grid := Grid(1, 1, 0.5, IDENTITY, [50])

  lemma HalfOccupiedIsRegular()
    ensures UprightAll([HALF_OCCUPIED]) && OnLattice([HALF_OCCUPIED], [(0, 0)], 0.0, 0.0, 0.5)
    ensures Source(HALF_OCCUPIED, IDENTITY) in AsSources([HALF_OCCUPIED])
  {
    assert [HALF_OCCUPIED][0] == HALF_OCCUPIED && [(0, 0)][0] == (0, 0);
    assert AsSources([HALF_OCCUPIED])[0] == Source(HALF_OCCUPIED, IDENTITY);
  }

  /** The condition is needed: the merges differ on the simplest grid with a value in between. */
  lemma ValuesInBetweenDiffer(gs: seq<Grid>, a: Merged, b: Merged)
    requires gs == [HALF_OCCUPIED] && Usable(gs)
    requires IsMergeOf(a, AsSources(gs)) && IsOfflineMergeOf(b, gs)
    ensures 50 in a.data && a.data != b.data
  {
    hide UprightAll, OnLattice, CanvasOf, AsSources, Column, Row, Usable, OfflineCanvas;
    var p, ps := Source(HALF_OCCUPIED, IDENTITY), AsSources(gs);
    HalfOccupiedIsRegular();
    assert Covers(TfAware, a.canvas, p) && HasCell(p.grid, 0, 0);
    var i := Target(TfAware, a.canvas, p, 0, 0);
    assert Lands(TfAware, a.canvas, p, 0, 0, i, 50);
    assert IsMergedCell(TfAware, a.canvas, ps, i, a.data[i]);
    var q, x, y :| q in ps && Lands(TfAware, a.canvas, q, x, y, i, a.data[i]);
    OnlyHalfOccupied(q);
    MergesAgreeIff(gs, [(0, 0)], 0.0, 0.0, 0.5, a, b);
  }

  lemma OnlyHalfOccupied(q: Source)
    requires q in AsSources([HALF_OCCUPIED])
    ensures q.grid == HALF_OCCUPIED
  {
  }
}
