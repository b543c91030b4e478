/** The offline merge, which puts grids together by the positions of their origins alone. */
module OfflineMerge {
  import opened Common
  import opened Grids
  import opened MergeGeometry
  import opened MergeMarks

  function AsSources(gs: seq<Grid>): (ps: seq<Source>)
    ensures |ps| == |gs| && forall k :: 0 <= k < |ps| ==> ps[k] == Source(gs[k], IDENTITY)
  {
    seq(|gs|, k requires 0 <= k < |gs| => Source(gs[k], IDENTITY))
  }

  function Lefts(gs: seq<Grid>): (xs: seq<real>)
    ensures |xs| == |gs| && forall k :: 0 <= k < |xs| ==> xs[k] == gs[k].origin.x
  {
    seq(|gs|, k requires 0 <= k < |gs| => gs[k].origin.x)
  }

  function Bottoms(gs: seq<Grid>): (ys: seq<real>)
    ensures |ys| == |gs| && forall k :: 0 <= k < |ys| ==> ys[k] == gs[k].origin.y
  {
    seq(|gs|, k requires 0 <= k < |gs| => gs[k].origin.y)
  }

  function Rights(gs: seq<Grid>): (xs: seq<real>)
    ensures |xs| == |gs|
    ensures forall k :: 0 <= k < |xs| ==> xs[k] == gs[k].origin.x + Metres(gs[k].width, gs[k].resolution)
  {
    seq(|gs|, k requires 0 <= k < |gs| => gs[k].origin.x + Metres(gs[k].width, gs[k].resolution))
  }

  function Tops(gs: seq<Grid>): (ys: seq<real>)
    ensures |ys| == |gs|
    ensures forall k :: 0 <= k < |ys| ==> ys[k] == gs[k].origin.y + Metres(gs[k].height, gs[k].resolution)
  {
    seq(|gs|, k requires 0 <= k < |gs| => gs[k].origin.y + Metres(gs[k].height, gs[k].resolution))
  }

  predicate Usable(gs: seq<Grid>) {
    gs != [] && forall k :: 0 <= k < |gs| ==> ValidGrid(gs[k]) && gs[k].resolution > 0.0
  }

  /** The number of cells that cover an interval, possibly none. */
  function Span(low: real, high: real, resolution: real): (n: int)
    requires resolution > 0.0
    ensures low <= high ==> n >= 0
  {
    assert low <= high ==> (low - high) / resolution <= 0.0;
    assert (low - high) / resolution == -((high - low) / resolution);
    Ceil((high - low) / resolution)
  }

  lemma ExtentIsOrdered(gs: seq<Grid>)
    requires Usable(gs)
    ensures Least(Lefts(gs)) <= Greatest(Rights(gs)) && Least(Bottoms(gs)) <= Greatest(Tops(gs))
  {
    assert Lefts(gs)[0] in Lefts(gs) && Rights(gs)[0] in Rights(gs);
    assert Bottoms(gs)[0] in Bottoms(gs) && Tops(gs)[0] in Tops(gs);
    MetresArePositive(gs[0].width, gs[0].resolution);
    MetresArePositive(gs[0].height, gs[0].resolution);
  }

  lemma MetresArePositive(n: nat, resolution: real)
    requires resolution > 0.0
    ensures Metres(n, resolution) >= 0.0
  {
  }

  lemma FinestIsPositive(gs: seq<Grid>)
    requires Usable(gs)
    ensures Least(Resolutions(AsSources(gs))) > 0.0
  {
  }

  function OfflineCanvas(gs: seq<Grid>): Canvas
    requires Usable(gs)
  {
    FinestIsPositive(gs);
    ExtentIsOrdered(gs);
    var minX, minY, r := Least(Lefts(gs)), Least(Bottoms(gs)), Least(Resolutions(AsSources(gs)));
    Canvas(minX, minY, r, Span(minX, Greatest(Rights(gs)), r), Span(minY, Greatest(Tops(gs)), r))
  }

  lemma MetresKeepOrder(i: nat, n: nat, resolution: real)
    requires i < n && resolution > 0.0
    ensures 0.0 <= Metres(i, resolution) < Metres(n, resolution)
  {
    if i > 0 {
      ScaleKeepsOrder(i as real, n as real, resolution);
    }
  }

  lemma CornerIsInside(i: nat, size: nat, low: real, origin: real, high: real, own: real, r: real)
    requires i < size && own > 0.0 && r > 0.0 && low <= origin && origin + Metres(size, own) <= high
    ensures 0 <= ((origin + Metres(i, own) - low) / r).Floor < Span(low, high, r)
  {
    MetresKeepOrder(i, size, own);
    hide Metres, Ceil;
    FloorWithin(low, origin + Metres(i, own), high, r);
  }

  /** No index that the offline merge computes is out of range. */
  lemma EveryCornerFallsInside(gs: seq<Grid>)
    requires Usable(gs)
    ensures CoversAll(Offline, OfflineCanvas(gs), AsSources(gs))
  {
    var c := OfflineCanvas(gs);
    FinestIsPositive(gs);
    forall p | p in AsSources(gs) ensures Covers(Offline, c, p) {
      var k :| 0 <= k < |gs| && p == AsSources(gs)[k];
      GridIsCovered(gs, k);
    }
  }

  lemma CanvasFields(gs: seq<Grid>)
    requires Usable(gs)
    ensures
      var c := OfflineCanvas(gs);
      && c.resolution == Least(Resolutions(AsSources(gs))) > 0.0
      && c.minX == Least(Lefts(gs)) && c.minY == Least(Bottoms(gs))
      && c.width == Span(c.minX, Greatest(Rights(gs)), c.resolution)
      && c.height == Span(c.minY, Greatest(Tops(gs)), c.resolution)
  {
    hide Least, Greatest, Span;
    FinestIsPositive(gs);
  }

  lemma CornerFallsInColumn(gs: seq<Grid>, k: nat, x: nat)
    requires Usable(gs) && k < |gs| && x < gs[k].width
    ensures
      var c, p := OfflineCanvas(gs), Source(gs[k], IDENTITY);
      c.resolution > 0.0 && 0 <= CornerColumn(c, p, x) < c.width
  {
    hide Usable, Metres, Span, OfflineCanvas, Least, Greatest, Lefts, Rights, Bottoms, Tops, AsSources;
    var c, g := OfflineCanvas(gs), gs[k];
    CanvasFields(gs);
    WithinExtent(gs, k);
    CornerIsInside(x, g.width, c.minX, g.origin.x, Greatest(Rights(gs)), g.resolution, c.resolution);
  }

  lemma CornerFallsInRow(gs: seq<Grid>, k: nat, y: nat)
    requires Usable(gs) && k < |gs| && y < gs[k].height
    ensures
      var c, p := OfflineCanvas(gs), Source(gs[k], IDENTITY);
      c.resolution > 0.0 && 0 <= CornerRow(c, p, y) < c.height
  {
    hide Usable, Metres, Span, OfflineCanvas, Least, Greatest, Lefts, Rights, Bottoms, Tops, AsSources;
    var c, g := OfflineCanvas(gs), gs[k];
    CanvasFields(gs);
    WithinExtent(gs, k);
    CornerIsInside(y, g.height, c.minY, g.origin.y, Greatest(Tops(gs)), g.resolution, c.resolution);
  }

  /** The extent holds every grid. */
  lemma WithinExtent(gs: seq<Grid>, k: nat)
    requires Usable(gs) && k < |gs|
    ensures gs[k].resolution > 0.0
    ensures Least(Lefts(gs)) <= gs[k].origin.x && Least(Bottoms(gs)) <= gs[k].origin.y
    ensures gs[k].origin.x + Metres(gs[k].width, gs[k].resolution) <= Greatest(Rights(gs))
    ensures gs[k].origin.y + Metres(gs[k].height, gs[k].resolution) <= Greatest(Tops(gs))
  {
    hide Metres, ValidGrid, Least, Greatest;
    assert Lefts(gs)[k] in Lefts(gs) && Rights(gs)[k] in Rights(gs);
    assert Bottoms(gs)[k] in Bottoms(gs) && Tops(gs)[k] in Tops(gs);
  }

  lemma CanvasIsPositive(gs: seq<Grid>)
    requires Usable(gs)
    ensures OfflineCanvas(gs).resolution > 0.0
  {
    CanvasFields(gs);
  }

  lemma GridIsCovered(gs: seq<Grid>, k: nat)
    requires Usable(gs) && k < |gs|
    ensures Covers(Offline, OfflineCanvas(gs), Source(gs[k], IDENTITY))
  {
    hide OfflineCanvas, CornerColumn, CornerRow, ValidGrid, Least, Greatest, Span;
    var c, g := OfflineCanvas(gs), gs[k];
    var p := Source(g, IDENTITY);
    CanvasIsPositive(gs);
    forall x, y | HasCell(g, x, y)
      ensures 0 <= Column(Offline, c, p, x, y) < c.width && 0 <= Row(Offline, c, p, x, y) < c.height
    {
      CornerFallsInColumn(gs, k, x);
      CornerFallsInRow(gs, k, y);
    }
  }

  /* The merged grid. */

  ghost predicate IsOfflineMergeOf(m: Merged, gs: seq<Grid>)
    requires Usable(gs)
  {
    && m.canvas == OfflineCanvas(gs) && |m.data| == m.canvas.width * m.canvas.height
    && forall i :: 0 <= i < |m.data| ==> IsMergedCell(Offline, m.canvas, AsSources(gs), i, m.data[i])
  }

  /** Some cell with the given value falls into the merged cell. */
  ghost predicate SomeLands(gs: seq<Grid>, i: nat, value: int)
    requires Usable(gs)
  {
    exists p, x, y :: p in AsSources(gs) && Lands(Offline, OfflineCanvas(gs), p, x, y, i, value)
  }

  /** An obstacle wins over free space, which wins over unknown space; other values never show. */
  lemma ObstaclesWin(m: Merged, gs: seq<Grid>, i: nat)
    requires Usable(gs) && IsOfflineMergeOf(m, gs) && i < |m.data|
    ensures m.data[i] ==
            if SomeLands(gs, i, 100) then 100 else if SomeLands(gs, i, 0) then 0 else -1
  {
    hide OfflineCanvas, Covers, Target, Cell;
    assert IsMergedCell(Offline, m.canvas, AsSources(gs), i, m.data[i]);
  }

  /** A single free cell. */
  const FREE: Grid := Grid(1, 1, 0.5, IDENTITY, [0])

  lemma FreeIsUsable()
    ensures Usable([FREE]) && AsSources([FREE]) == [Source(FREE, IDENTITY)]
  {
  }

  /** Free space is shown as free, not as unknown. */
  lemma FreeSpaceShowsFree(gs: seq<Grid>, m: Merged)
    requires gs == [FREE] && Usable(gs) && IsOfflineMergeOf(m, gs)
    ensures m.data == [0]
  {
    var p := Source(FREE, IDENTITY);
    FreeIsUsable();
    EveryCornerFallsInside(gs);
    FreeCanvas(gs);
    hide OfflineCanvas, Usable, Column, Row;
    assert p in AsSources(gs) && Covers(Offline, m.canvas, p) && HasCell(p.grid, 0, 0);
    var i := Target(Offline, m.canvas, p, 0, 0);
    assert Lands(Offline, m.canvas, p, 0, 0, i, 0);
    ObstaclesWin(m, gs, 0);
  }

  lemma FreeCanvas(gs: seq<Grid>)
    requires gs == [FREE] && Usable(gs)
    ensures OfflineCanvas(gs).width == 1 && OfflineCanvas(gs).height == 1
  {
    var c := OfflineCanvas(gs);
    assert Lefts(gs) == [0.0] && Bottoms(gs) == [0.0] && Rights(gs) == [0.5] && Tops(gs) == [0.5];
    assert Resolutions(AsSources(gs)) == [0.5];
  }

  /* The loops. */

  predicate Plain(data: seq<int>) {
    forall i :: 0 <= i < |data| ==> data[i] == -1 || data[i] == 0 || data[i] == 100
  }

  /** The body of the innermost loop. */
  method MergeCell(c: Canvas, p: Source, x: nat, y: nat, data: array<int>, ghost marks: set<Mark>)
    requires Covers(Offline, c, p) && HasCell(p.grid, x, y)
    requires data.Length == c.width * c.height && Painted(data[..], marks) && Plain(data[..])
    modifies data
    ensures Plain(data[..])
    ensures Painted(data[..],
                    marks + if Keeps(Offline, Cell(p.grid, x, y)) then {MarkOf(Offline, c, p, x, y)} else {})
  {
    hide Painted;
    FlatIndex(x, y, p.grid.width, p.grid.height);
    var incoming := p.grid.data[x + y * p.grid.width];
    assert 0 <= Column(Offline, c, p, x, y) < c.width && 0 <= Row(Offline, c, p, x, y) < c.height;
    var mergedX := ((p.grid.origin.x + Metres(x, p.grid.resolution) - c.minX) / c.resolution).Floor;
    var mergedY := ((p.grid.origin.y + Metres(y, p.grid.resolution) - c.minY) / c.resolution).Floor;
    FlatIndex(mergedX, mergedY, c.width, c.height);
    var k := mergedX + mergedY * c.width;
    ghost var before := data[..];
    if incoming == 100 {
      data[k] := 100;
    } else if incoming == 0 || incoming == -1 {
      if data[k] == -1 {
        data[k] := incoming;
      }
    }
    if Keeps(Offline, incoming) {
      PaintOne(before, marks, MarkOf(Offline, c, p, x, y));
      assert data[..] == before[k := Max(before[k], incoming)];
    } else {
      assert data[..] == before && marks + {} == marks;
    }
  }

  method MergeGrid(c: Canvas, p: Source, data: array<int>, ghost marks: set<Mark>)
    requires Covers(Offline, c, p) && data.Length == c.width * c.height
    requires Painted(data[..], marks) && Plain(data[..])
    modifies data
    ensures Painted(data[..], marks + RowsMarks(Offline, c, p, p.grid.height)) && Plain(data[..])
  {
    hide Painted, Plain, Covers, MarkOf;
    assert marks + RowsMarks(Offline, c, p, 0) == marks;
    for y := 0 to p.grid.height
      invariant Painted(data[..], marks + RowsMarks(Offline, c, p, y)) && Plain(data[..])
    {
      ghost var rows := marks + RowsMarks(Offline, c, p, y);
      assert rows + RowMarks(Offline, c, p, y, 0) == rows;
      for x := 0 to p.grid.width
        invariant Painted(data[..], rows + RowMarks(Offline, c, p, y, x)) && Plain(data[..])
      {
        MergeCell(c, p, x, y, data, rows + RowMarks(Offline, c, p, y, x));
        OneMoreCell(Offline, c, p, y, x, rows);
      }
      assert rows + RowMarks(Offline, c, p, y, p.grid.width) == marks + RowsMarks(Offline, c, p, y + 1);
    }
  }

  method MergeMaps(gs: seq<Grid>) returns (m: Merged)
    requires Usable(gs)
    ensures IsOfflineMergeOf(m, gs)
  {
    FinestIsPositive(gs);
    ExtentIsOrdered(gs);
    var minX, minY := Least(Lefts(gs)), Least(Bottoms(gs));
    var maxX, maxY := Greatest(Rights(gs)), Greatest(Tops(gs));
    var resolution := Least(Resolutions(AsSources(gs)));
    var width, height := Span(minX, maxX, resolution), Span(minY, maxY, resolution);
    var c := Canvas(minX, minY, resolution, width, height);
    EveryCornerFallsInside(gs);
    hide OfflineCanvas, Usable, Covers, IsMergedCell;
    var data := FilledGrid(c, AsSources(gs));
    PaintedIsMerged(Offline, c, AsSources(gs), data);
    m := Merged(c, data);
  }

  method FilledGrid(c: Canvas, ps: seq<Source>) returns (merged: seq<int>)
    requires CoversAll(Offline, c, ps)
    ensures |merged| == c.width * c.height && Painted(merged, AllMarks(Offline, c, ps))
  {
    var data := new int[c.width * c.height](_ => -1);
    assert Painted(data[..], AllMarks(Offline, c, [])) && Plain(data[..]);
    hide Painted, Plain, RowsMarks, Covers;
    for k := 0 to |ps|
      invariant Painted(data[..], AllMarks(Offline, c, ps[..k])) && Plain(data[..])
    {
      MergeGrid(c, ps[k], data, AllMarks(Offline, c, ps[..k]));
      assert ps[..k + 1][..k] == ps[..k];
    }
    assert ps[..|ps|] == ps;
    return data[..];
  }
}
