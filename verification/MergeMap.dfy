/** The TF-aware merge: what the merged grid holds, and the loops that fill it in place. */
module MergeMap {
  import opened Common
  import opened Grids
  import opened MergeGeometry
  import opened MergeMarks

  /** -1 is unknown; of two known values the greater one is kept. */
  function MergeOccupancyValue(existing: int, incoming: int): int {
    if incoming < 0 then existing
    else if existing < 0 then incoming
    else Max(existing, incoming)
  }

  lemma MergingIsMax(existing: int, incoming: int)
    requires -1 <= existing && -1 <= incoming
    ensures MergeOccupancyValue(existing, incoming) == Max(existing, incoming)
  {
  }

  lemma SourcesAreCovered(ps: seq<Source>)
    requires CanvasOf(ps).Some? && forall p :: p in ps ==> ValidSource(p)
    ensures CoversAll(TfAware, CanvasOf(ps).value, ps)
  {
    hide CanvasOf, ValidSource, CentreColumn, CentreRow;
    forall p | p in ps ensures Covers(TfAware, CanvasOf(ps).value, p) {
      SourceIsNoFiner(ps, p);
      forall x, y | HasCell(p.grid, x, y)
        ensures 0 <= CentreColumn(CanvasOf(ps).value, p, x, y) < CanvasOf(ps).value.width
        ensures 0 <= CentreRow(CanvasOf(ps).value, p, x, y) < CanvasOf(ps).value.height
      {
        EveryCentreFallsInside(ps, p, x, y);
      }
    }
  }

  /* The merged grid. */

  /**
   The grid promised by the merge policy: every cell holds the greatest of the known values whose source cells have
   their centre in it, and -1 exactly if there are none.
   */
  ghost predicate IsMergeOf(m: Merged, ps: seq<Source>) {
    && CanvasOf(ps) == Some(m.canvas) && CoversAll(TfAware, m.canvas, ps)
    && |m.data| == m.canvas.width * m.canvas.height
    && forall i :: 0 <= i < |m.data| ==> IsMergedCell(TfAware, m.canvas, ps, i, m.data[i])
  }

  /** The policy leaves no choice. */
  lemma MergeIsUnique(a: Merged, b: Merged, ps: seq<Source>, qs: seq<Source>)
    requires IsMergeOf(a, ps) && IsMergeOf(b, qs) && forall p :: p in ps <==> p in qs
    requires CanvasOf(ps) == CanvasOf(qs)
    ensures a == b
  {
    hide CanvasOf, CoversAll;
    forall i | 0 <= i < |a.data| ensures a.data[i] == b.data[i] {
      hide IsMergedCell;
      NoGreater(TfAware, a.canvas, ps, qs, i, a.data[i], b.data[i]);
      NoGreater(TfAware, a.canvas, qs, ps, i, b.data[i], a.data[i]);
    }
  }

  lemma LeastOfSame(a: seq<real>, b: seq<real>)
    requires a != [] && b != [] && forall x :: x in a <==> x in b
    ensures Least(a) == Least(b) && Greatest(a) == Greatest(b)
  {
  }

  lemma SameXs(a: seq<(real, real)>, b: seq<(real, real)>)
    requires a != [] && b != [] && forall q :: q in a <==> q in b
    ensures Least(Xs(a)) == Least(Xs(b)) && Greatest(Xs(a)) == Greatest(Xs(b))
  {
    forall x ensures x in Xs(a) <==> x in Xs(b) {
      XsAre(a, x);
      XsAre(b, x);
    }
    LeastOfSame(Xs(a), Xs(b));
  }

  lemma SameYs(a: seq<(real, real)>, b: seq<(real, real)>)
    requires a != [] && b != [] && forall q :: q in a <==> q in b
    ensures Least(Ys(a)) == Least(Ys(b)) && Greatest(Ys(a)) == Greatest(Ys(b))
  {
    forall y ensures y in Ys(a) <==> y in Ys(b) {
      YsAre(a, y);
      YsAre(b, y);
    }
    LeastOfSame(Ys(a), Ys(b));
  }

  lemma XsAre(points: seq<(real, real)>, x: real)
    ensures x in Xs(points) <==> exists q :: q in points && q.0 == x
  {
    if q :| q in points && q.0 == x {
      var k :| 0 <= k < |points| && points[k] == q;
      assert Xs(points)[k] == x;
    }
    if x in Xs(points) {
      var k :| 0 <= k < |points| && Xs(points)[k] == x;
      assert points[k] in points;
    }
  }

  lemma YsAre(points: seq<(real, real)>, y: real)
    ensures y in Ys(points) <==> exists q :: q in points && q.1 == y
  {
    if q :| q in points && q.1 == y {
      var k :| 0 <= k < |points| && points[k] == q;
      assert Ys(points)[k] == y;
    }
    if y in Ys(points) {
      var k :| 0 <= k < |points| && Ys(points)[k] == y;
      assert points[k] in points;
    }
  }

  lemma SameResolutions(ps: seq<Source>, qs: seq<Source>)
    requires ps != [] && qs != [] && forall p :: p in ps <==> p in qs
    ensures Least(Resolutions(ps)) == Least(Resolutions(qs))
  {
    forall r ensures r in Resolutions(ps) <==> r in Resolutions(qs) {
      ResolutionsAre(ps, r);
      ResolutionsAre(qs, r);
    }
    LeastOfSame(Resolutions(ps), Resolutions(qs));
  }

  lemma ResolutionsAre(ps: seq<Source>, r: real)
    ensures r in Resolutions(ps) <==> exists p :: p in ps && p.grid.resolution == r
  {
    if p :| p in ps && p.grid.resolution == r {
      var k :| 0 <= k < |ps| && ps[k] == p;
      assert Resolutions(ps)[k] == r;
    }
    if r in Resolutions(ps) {
      var k :| 0 <= k < |ps| && Resolutions(ps)[k] == r;
      assert ps[k] in ps;
    }
  }

  lemma SameEmptiness(ps: seq<Source>, qs: seq<Source>)
    requires forall p :: p in ps <==> p in qs
    ensures ps == [] <==> qs == []
  {
    if ps != [] {
      assert ps[0] in ps;
    }
    if qs != [] {
      assert qs[0] in qs;
    }
  }

  lemma CornersExist(ps: seq<Source>)
    requires ps != []
    ensures AllCorners(ps) != []
  {
  }

  /** Origin, resolution and size depend on the set of sources only. */
  lemma CanvasOfSame(ps: seq<Source>, qs: seq<Source>)
    requires forall p :: p in ps <==> p in qs
    ensures CanvasOf(ps) == CanvasOf(qs)
  {
    SameEmptiness(ps, qs);
    if ps != [] {
      CornersExist(ps);
      CornersExist(qs);
      hide Corners, AllCorners, Cells;
      var a, b := AllCorners(ps), AllCorners(qs);
      forall q ensures q in a <==> q in b {
        CornersAre(ps, q);
        CornersAre(qs, q);
      }
      SameXs(a, b);
      SameYs(a, b);
      SameResolutions(ps, qs);
    }
  }

  /**
   Merging is insensitive to the order in which robots are listed, and to a map being listed twice: sources that are
   the same as a set give the same origin, size, resolution and data.
   */
  lemma OrderDoesNotMatter(a: Merged, b: Merged, ps: seq<Source>, qs: seq<Source>)
    requires IsMergeOf(a, ps) && IsMergeOf(b, qs) && forall p :: p in ps <==> p in qs
    ensures a == b
  {
    CanvasOfSame(ps, qs);
    MergeIsUnique(a, b, ps, qs);
  }

  /* The loops. */

  /** The body of the innermost loop. The bounds check is the program's own; it never fails. */
  method MergeCell(c: Canvas, p: Source, x: nat, y: nat, data: array<int>, ghost marks: set<Mark>)
    requires Covers(TfAware, c, p) && HasCell(p.grid, x, y)
    requires data.Length == c.width * c.height && Painted(data[..], marks)
    modifies data
    ensures Painted(data[..], marks + if Cell(p.grid, x, y) >= 0 then {MarkOf(TfAware, c, p, x, y)} else {})
  {
    hide Painted;
    FlatIndex(x, y, p.grid.width, p.grid.height);
    var incoming := p.grid.data[x + y * p.grid.width];
    if incoming < 0 {
      assert marks + {} == marks;
      return;
    }
    var centre := Centre(p, x, y);
    var mergedX := ((centre.0 - c.minX) / c.resolution).Floor;
    var mergedY := ((centre.1 - c.minY) / c.resolution).Floor;
    if 0 <= mergedX < c.width && 0 <= mergedY < c.height {
      FlatIndex(mergedX, mergedY, c.width, c.height);
      var k := mergedX + mergedY * c.width;
      PaintOne(data[..], marks, MarkOf(TfAware, c, p, x, y));
      PaintedIsKnown(data[..], marks, k);
      MergingIsMax(data[k], incoming);
      ghost var before := data[..];
      data[k] := MergeOccupancyValue(data[k], incoming);
      assert data[..] == before[k := Max(before[k], incoming)];
    }
  }

  method MergeSource(c: Canvas, p: Source, data: array<int>, ghost marks: set<Mark>)
    requires Covers(TfAware, c, p) && data.Length == c.width * c.height && Painted(data[..], marks)
    modifies data
    ensures Painted(data[..], marks + RowsMarks(TfAware, c, p, p.grid.height))
  {
    hide Painted, Covers, MarkOf;
    assert marks + RowsMarks(TfAware, c, p, 0) == marks;
    for y := 0 to p.grid.height
      invariant Painted(data[..], marks + RowsMarks(TfAware, c, p, y))
    {
      ghost var rows := marks + RowsMarks(TfAware, c, p, y);
      assert rows + RowMarks(TfAware, c, p, y, 0) == rows;
      for x := 0 to p.grid.width
        invariant Painted(data[..], rows + RowMarks(TfAware, c, p, y, x))
      {
        MergeCell(c, p, x, y, data, rows + RowMarks(TfAware, c, p, y, x));
        OneMoreCell(TfAware, c, p, y, x, rows);
      }
      assert rows + RowMarks(TfAware, c, p, y, p.grid.width) == marks + RowsMarks(TfAware, c, p, y + 1);
    }
  }

  /** Nothing is merged without sources, nor if the finest resolution is not positive. */
  method BuildMergedMap(sources: seq<Source>) returns (r: Option<Merged>)
    requires forall p :: p in sources ==> ValidSource(p)
    ensures r.None? <==> sources == [] || exists p :: p in sources && p.grid.resolution <= 0.0
    ensures r.Some? ==> IsMergeOf(r.value, sources)
  {
    hide Corners, AllCorners, ValidSource, IsMergedCell, Painted, AllMarks, Covers, Cells;
    NoCanvasIff(sources);
    var corners := CollectCorners(sources);
    if corners == [] {
      return None;
    }
    var resolution := Least(Resolutions(sources));
    if resolution <= 0.0 {
      return None;
    }
    var minX, minY, maxX, maxY := Least(Xs(corners)), Least(Ys(corners)), Greatest(Xs(corners)), Greatest(Ys(corners));
    var width, height := Cells(minX, maxX, resolution), Cells(minY, maxY, resolution);
    var c := Canvas(minX, minY, resolution, width, height);
    SourcesAreCovered(sources);
    var data := MergeSources(c, sources);
    r := Some(Merged(c, data));
    PaintedIsMerged(TfAware, c, sources, data);
  }

  method CollectCorners(sources: seq<Source>) returns (corners: seq<(real, real)>)
    ensures corners == AllCorners(sources)
  {
    hide Corners;
    corners := [];
    for k := 0 to |sources|
      invariant corners == AllCorners(sources[..k])
    {
      assert sources[..k + 1][..k] == sources[..k];
      corners := corners + Corners(sources[k]);
    }
    assert sources[..|sources|] == sources;
  }

  method MergeSources(c: Canvas, sources: seq<Source>) returns (merged: seq<int>)
    requires CoversAll(TfAware, c, sources)
    ensures |merged| == c.width * c.height && Painted(merged, AllMarks(TfAware, c, sources))
  {
    var data := new int[c.width * c.height](_ => -1);
    assert Painted(data[..], AllMarks(TfAware, c, []));
    hide Painted, RowsMarks, Covers;
    for k := 0 to |sources|
      invariant Painted(data[..], AllMarks(TfAware, c, sources[..k]))
    {
      MergeSource(c, sources[k], data, AllMarks(TfAware, c, sources[..k]));
      assert sources[..k + 1][..k] == sources[..k];
    }
    assert sources[..|sources|] == sources;
    return data[..];
  }

  lemma NoCanvasIff(ps: seq<Source>)
    ensures CanvasOf(ps) == None <==> ps == [] || exists p :: p in ps && p.grid.resolution <= 0.0
    ensures ps == [] <==> AllCorners(ps) == []
  {
    hide Corners;
    if ps != [] {
      CornersExist(ps);
      ResolutionsAre(ps, Least(Resolutions(ps)));
      forall p | p in ps ensures Least(Resolutions(ps)) <= p.grid.resolution {
        ResolutionsAre(ps, p.grid.resolution);
      }
    }
  }
}
