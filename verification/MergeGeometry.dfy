/** The geometry of the TF-aware merge: source grids placed in the merged frame, and the grid that covers them. */
module MergeGeometry {
  import opened Common
  import opened Grids

  /* Geometry. */

  function TransformXY(x: real, y: real, p: Pose): (real, real) {
    (p.x + p.c * x - p.s * y, p.y + p.s * x + p.c * y)
  }

  function SquaredDistance(a: (real, real), b: (real, real)): real {
    (a.0 - b.0) * (a.0 - b.0) + (a.1 - b.1) * (a.1 - b.1)
  }

  /** Such a transform is a rigid motion: it changes no distance. */
  lemma DistancesAreKept(x1: real, y1: real, x2: real, y2: real, p: Pose)
    requires Rigid(p)
    ensures SquaredDistance(TransformXY(x1, y1, p), TransformXY(x2, y2, p)) == SquaredDistance((x1, y1), (x2, y2))
  {
    var dx, dy := x1 - x2, y1 - y2;
    var (x1t, y1t) := TransformXY(x1, y1, p);
    var (x2t, y2t) := TransformXY(x2, y2, p);
    assert x1t - x2t == p.c * dx - p.s * dy;
    assert y1t - y2t == p.s * dx + p.c * dy;
    SquaresAdd(p.c, p.s, dx, dy);
  }

  lemma SquaresAdd(c: real, s: real, x: real, y: real)
    requires c * c + s * s == 1.0
    ensures (c * x - s * y) * (c * x - s * y) + (s * x + c * y) * (s * x + c * y) == x * x + y * y
  {
    calc {
      (c * x - s * y) * (c * x - s * y) + (s * x + c * y) * (s * x + c * y);
      (c * c + s * s) * (x * x) + (c * c + s * s) * (y * y);
      x * x + y * y;
    }
  }

  /** A source grid and the transform from its frame into the merged frame. */
  datatype Source = Source(grid: Grid, transform: Pose)

  predicate ValidSource(p: Source) {
    ValidGrid(p.grid) && Rigid(p.transform)
  }

  /** Where a point of the grid, measured from its origin, lies in the merged frame. */
  function Place(p: Source, x: real, y: real): (real, real) {
    var (sx, sy) := TransformXY(x, y, p.grid.origin);
    TransformXY(sx, sy, p.transform)
  }

  /** The pose of the grid's origin in the merged frame. */
  function OriginPose(p: Source): Pose {
    var o, t := p.grid.origin, p.transform;
    var (x, y) := TransformXY(o.x, o.y, t);
    Pose(x, y, t.c * o.c - t.s * o.s, t.s * o.c + t.c * o.s)
  }

  lemma ComposeX(tx: real, c: real, s: real, ox: real, oy: real, oc: real, os: real, x: real, y: real)
    ensures tx + c * (ox + oc * x - os * y) - s * (oy + os * x + oc * y) ==
            (tx + c * ox - s * oy) + (c * oc - s * os) * x - (s * oc + c * os) * y
  {
  }

  lemma ComposeY(ty: real, c: real, s: real, ox: real, oy: real, oc: real, os: real, x: real, y: real)
    ensures ty + s * (ox + oc * x - os * y) + c * (oy + os * x + oc * y) ==
            (ty + s * ox + c * oy) + (s * oc + c * os) * x + (c * oc - s * os) * y
  {
  }

  lemma HeadingsMultiply(c: real, s: real, oc: real, os: real)
    requires c * c + s * s == 1.0 && oc * oc + os * os == 1.0
    ensures (c * oc - s * os) * (c * oc - s * os) + (s * oc + c * os) * (s * oc + c * os) == 1.0
  {
    SquaresAdd(c, s, oc, os);
  }

  lemma PlaceX(p: Source, x: real, y: real)
    ensures Place(p, x, y).0 == TransformXY(x, y, OriginPose(p)).0
  {
    var o, t := p.grid.origin, p.transform;
    ComposeX(t.x, t.c, t.s, o.x, o.y, o.c, o.s, x, y);
  }

  lemma PlaceY(p: Source, x: real, y: real)
    ensures Place(p, x, y).1 == TransformXY(x, y, OriginPose(p)).1
  {
    var o, t := p.grid.origin, p.transform;
    ComposeY(t.y, t.c, t.s, o.x, o.y, o.c, o.s, x, y);
  }

  lemma OriginIsRigid(p: Source)
    requires ValidSource(p)
    ensures Rigid(OriginPose(p))
  {
    HeadingsMultiply(p.transform.c, p.transform.s, p.grid.origin.c, p.grid.origin.s);
  }

  /** The two transforms act as one, which is rigid. */
  lemma PlaceIsRigid(p: Source, x: real, y: real)
    requires ValidSource(p)
    ensures Place(p, x, y) == TransformXY(x, y, OriginPose(p)) && Rigid(OriginPose(p))
  {
    hide Place, TransformXY, OriginPose, Rigid;
    PlaceX(p, x, y);
    PlaceY(p, x, y);
    OriginIsRigid(p);
  }

  /** The length of `n` cells. */
  function Metres(n: nat, resolution: real): real {
    n as real * resolution
  }

  /** How far the middle of the i-th cell is from where the cells begin. */
  function Middle(i: nat, resolution: real): real {
    (i as real + 0.5) * resolution
  }

  function WidthMetres(p: Source): real {
    Metres(p.grid.width, p.grid.resolution)
  }

  function HeightMetres(p: Source): real {
    Metres(p.grid.height, p.grid.resolution)
  }

  /** The outer corners of the grid, in the merged frame. */
  function Corners(p: Source): seq<(real, real)> {
    var w, h := WidthMetres(p), HeightMetres(p);
    [Place(p, 0.0, 0.0), Place(p, w, 0.0), Place(p, 0.0, h), Place(p, w, h)]
  }

  /** A linear form that is not zero is exceeded, strictly inside a rectangle, at one of the corners. */
  lemma CornerExceeds(a: real, b: real, x: real, y: real, w: real, h: real)
    requires 0.0 < x < w && 0.0 < y < h && (a != 0.0 || b != 0.0)
    ensures
      var cx := if a > 0.0 then w else 0.0;
      var cy := if b > 0.0 then h else 0.0;
      a * x + b * y < a * cx + b * cy
  {
    ScaleGrows(a, x, w);
    ScaleGrows(b, y, h);
  }

  lemma ScaleGrows(a: real, x: real, w: real)
    requires 0.0 < x < w
    ensures a > 0.0 ==> a * x < a * w
    ensures a < 0.0 ==> a * x < a * 0.0
    ensures a == 0.0 ==> a * x == a * 0.0 == a * w
  {
  }

  function Xs(points: seq<(real, real)>): (xs: seq<real>)
    ensures |xs| == |points| && forall k :: 0 <= k < |xs| ==> xs[k] == points[k].0
  {
    seq(|points|, k requires 0 <= k < |points| => points[k].0)
  }

  function Ys(points: seq<(real, real)>): (ys: seq<real>)
    ensures |ys| == |points| && forall k :: 0 <= k < |ys| ==> ys[k] == points[k].1
  {
    seq(|points|, k requires 0 <= k < |points| => points[k].1)
  }

  lemma CornerBeyond(p: Source, x: real, y: real, a: real, b: real) returns (cx: real, cy: real)
    requires 0.0 < x < WidthMetres(p) && 0.0 < y < HeightMetres(p) && (a != 0.0 || b != 0.0)
    ensures a * x + b * y < a * cx + b * cy
    ensures Place(p, cx, cy) in Corners(p)
  {
    var w, h := WidthMetres(p), HeightMetres(p);
    cx := if a > 0.0 then w else 0.0;
    cy := if b > 0.0 then h else 0.0;
    CornerExceeds(a, b, x, y, w, h);
    hide Place, WidthMetres, HeightMetres;
    var corners := Corners(p);
    assert corners[0] in corners && corners[1] in corners && corners[2] in corners && corners[3] in corners;
  }

  lemma HeadingIsNotZero(p: Pose)
    requires Rigid(p)
    ensures p.c != 0.0 || p.s != 0.0
  {
  }

  /** A corner lies further than the point in the direction (a, b) of the grid's own frame. */
  lemma Beyond(p: Source, x: real, y: real, a: real, b: real) returns (q: (real, real), cx: real, cy: real)
    requires ValidSource(p) && 0.0 < x < WidthMetres(p) && 0.0 < y < HeightMetres(p) && (a != 0.0 || b != 0.0)
    ensures a * x + b * y < a * cx + b * cy && q in Corners(p) && q == TransformXY(cx, cy, OriginPose(p))
  {
    hide Corners, Place, OriginPose, Rigid, WidthMetres, HeightMetres, TransformXY;
    cx, cy := CornerBeyond(p, x, y, a, b);
    PlaceIsRigid(p, cx, cy);
    q := Place(p, cx, cy);
  }

  lemma Negated(a: real, x: real)
    ensures -a * x == -(a * x)
  {
  }

  /** The direction (c, -s) of the grid's own frame is the x axis of the merged frame; (s, c) is its y axis. */
  lemma Axes(p: Pose, x: real, y: real)
    ensures TransformXY(x, y, p).0 == p.x + (p.c * x + -p.s * y) == p.x - (-p.c * x + p.s * y)
    ensures TransformXY(x, y, p).1 == p.y + (p.s * x + p.c * y) == p.y - (-p.s * x + -p.c * y)
  {
    Negated(p.s, x);
    Negated(p.s, y);
    Negated(p.c, x);
    Negated(p.c, y);
  }

  /** A point strictly inside the grid lies strictly between two corners in x. */
  lemma BetweenInX(p: Source, x: real, y: real) returns (left: (real, real), right: (real, real))
    requires ValidSource(p) && 0.0 < x < WidthMetres(p) && 0.0 < y < HeightMetres(p)
    ensures left in Corners(p) && right in Corners(p) && left.0 < Place(p, x, y).0 < right.0
  {
    hide ValidSource, Corners, Place, OriginPose, Rigid, WidthMetres, HeightMetres, TransformXY;
    var o := OriginPose(p);
    PlaceIsRigid(p, x, y);
    HeadingIsNotZero(o);
    Axes(o, x, y);
    var cx, cy;
    left, cx, cy := Beyond(p, x, y, -o.c, o.s);
    Axes(o, cx, cy);
    right, cx, cy := Beyond(p, x, y, o.c, -o.s);
    Axes(o, cx, cy);
  }

  /** And between two corners in y. */
  lemma BetweenInY(p: Source, x: real, y: real) returns (low: (real, real), high: (real, real))
    requires ValidSource(p) && 0.0 < x < WidthMetres(p) && 0.0 < y < HeightMetres(p)
    ensures low in Corners(p) && high in Corners(p) && low.1 < Place(p, x, y).1 < high.1
  {
    hide ValidSource, Corners, Place, OriginPose, Rigid, WidthMetres, HeightMetres, TransformXY;
    var o := OriginPose(p);
    PlaceIsRigid(p, x, y);
    HeadingIsNotZero(o);
    Axes(o, x, y);
    var cx, cy;
    low, cx, cy := Beyond(p, x, y, -o.s, -o.c);
    Axes(o, cx, cy);
    high, cx, cy := Beyond(p, x, y, o.s, o.c);
    Axes(o, cx, cy);
  }

  /* The merged grid's frame. */

  /** Origin, resolution and size of the merged grid. */
  datatype Canvas = Canvas(minX: real, minY: real, resolution: real, width: nat, height: nat)

  function AllCorners(ps: seq<Source>): seq<(real, real)> {
    if ps == [] then [] else AllCorners(ps[..|ps| - 1]) + Corners(ps[|ps| - 1])
  }

  lemma {:induction false} CornersAre(ps: seq<Source>, q: (real, real))
    ensures q in AllCorners(ps) <==> exists p :: p in ps && q in Corners(p)
  {
    if ps != [] {
      var pre, last := ps[..|ps| - 1], ps[|ps| - 1];
      CornersAre(pre, q);
      assert ps == pre + [last];
      hide Corners;
    }
  }

  function Resolutions(ps: seq<Source>): (rs: seq<real>)
    ensures |rs| == |ps| && forall k :: 0 <= k < |rs| ==> rs[k] == ps[k].grid.resolution
  {
    seq(|ps|, k requires 0 <= k < |ps| => ps[k].grid.resolution)
  }

  /** The frame of the merged grid; none without sources, nor with a resolution that is not positive. */
  function CanvasOf(ps: seq<Source>): Option<Canvas> {
    if ps == [] then None
    else
      var corners := AllCorners(ps);
      var xs, ys, r := Xs(corners), Ys(corners), Least(Resolutions(ps));
      if r <= 0.0 then None
      else
        Some(Canvas(Least(xs), Least(ys), r, Cells(Least(xs), Greatest(xs), r), Cells(Least(ys), Greatest(ys), r)))
  }

  /** The number of cells that cover an interval, at least one. */
  function Cells(low: real, high: real, resolution: real): nat
    requires resolution > 0.0
  {
    Max(1, Ceil((high - low) / resolution))
  }

  /** Where the centre of a source cell falls. */
  function CentreColumn(c: Canvas, p: Source, x: nat, y: nat): int
    requires c.resolution > 0.0
  {
    ((Centre(p, x, y).0 - c.minX) / c.resolution).Floor
  }

  function CentreRow(c: Canvas, p: Source, x: nat, y: nat): int
    requires c.resolution > 0.0
  {
    ((Centre(p, x, y).1 - c.minY) / c.resolution).Floor
  }

  /** Where the lower left corner of a cell falls, if the grid is not turned and is in the merged frame already. */
  function CornerColumn(c: Canvas, p: Source, x: nat): int
    requires c.resolution > 0.0
  {
    ((p.grid.origin.x + Metres(x, p.grid.resolution) - c.minX) / c.resolution).Floor
  }

  function CornerRow(c: Canvas, p: Source, y: nat): int
    requires c.resolution > 0.0
  {
    ((p.grid.origin.y + Metres(y, p.grid.resolution) - c.minY) / c.resolution).Floor
  }

  function Centre(p: Source, x: nat, y: nat): (real, real) {
    Place(p, Middle(x, p.grid.resolution), Middle(y, p.grid.resolution))
  }

  lemma MiddleIsInside(i: nat, size: nat, resolution: real)
    requires i < size && resolution > 0.0
    ensures 0.0 < Middle(i, resolution) < Metres(size, resolution)
  {
    ScaleKeepsOrder(i as real + 0.5, size as real, resolution);
  }

  lemma ScaleKeepsOrder(a: real, b: real, r: real)
    requires 0.0 < a < b && r > 0.0
    ensures 0.0 < a * r < b * r
  {
  }

  lemma SourceIsNoFiner(ps: seq<Source>, p: Source)
    requires CanvasOf(ps).Some? && p in ps
    ensures p.grid.resolution >= CanvasOf(ps).value.resolution > 0.0
  {
    hide AllCorners, Corners;
    assert p.grid.resolution in Resolutions(ps);
  }

  /**
   The centre of every cell of every source falls into the merged grid, however the sources are placed and whatever
   their resolutions: the bounds check of the merge never fires.
   */
  lemma EveryCentreFallsInside(ps: seq<Source>, p: Source, x: nat, y: nat)
    requires CanvasOf(ps).Some? && p in ps && ValidSource(p) && HasCell(p.grid, x, y)
    ensures
      var c := CanvasOf(ps).value;
      && c.resolution > 0.0
      && 0 <= CentreColumn(c, p, x, y) < c.width && 0 <= CentreRow(c, p, x, y) < c.height
  {
    hide CanvasOf, ValidSource, Place, Metres, Middle;
    var r := p.grid.resolution;
    SourceIsNoFiner(ps, p);
    MiddleIsInside(x, p.grid.width, r);
    MiddleIsInside(y, p.grid.height, r);
    CentreFallsInX(ps, p, Middle(x, r), Middle(y, r));
    CentreFallsInY(ps, p, Middle(x, r), Middle(y, r));
  }

  lemma CentreFallsInX(ps: seq<Source>, p: Source, lx: real, ly: real)
    requires CanvasOf(ps).Some? && p in ps && ValidSource(p)
    requires 0.0 < lx < WidthMetres(p) && 0.0 < ly < HeightMetres(p)
    ensures 0 <= ((Place(p, lx, ly).0 - CanvasOf(ps).value.minX) / CanvasOf(ps).value.resolution).Floor
              < CanvasOf(ps).value.width
  {
    hide ValidSource, Place, Corners, WidthMetres, HeightMetres, AllCorners;
    var left, right := BetweenInX(p, lx, ly);
    CornersAre(ps, left);
    CornersAre(ps, right);
    var xs := Xs(AllCorners(ps));
    assert left.0 in xs && right.0 in xs;
    FloorWithin(Least(xs), Place(p, lx, ly).0, Greatest(xs), CanvasOf(ps).value.resolution);
  }

  lemma CentreFallsInY(ps: seq<Source>, p: Source, lx: real, ly: real)
    requires CanvasOf(ps).Some? && p in ps && ValidSource(p)
    requires 0.0 < lx < WidthMetres(p) && 0.0 < ly < HeightMetres(p)
    ensures 0 <= ((Place(p, lx, ly).1 - CanvasOf(ps).value.minY) / CanvasOf(ps).value.resolution).Floor
              < CanvasOf(ps).value.height
  {
    hide ValidSource, Place, Corners, WidthMetres, HeightMetres, AllCorners;
    var low, high := BetweenInY(p, lx, ly);
    CornersAre(ps, low);
    CornersAre(ps, high);
    var ys := Ys(AllCorners(ps));
    assert low.1 in ys && high.1 in ys;
    FloorWithin(Least(ys), Place(p, lx, ly).1, Greatest(ys), CanvasOf(ps).value.resolution);
  }
}
