/** Which known values the two ways of merging put into which merged cells. */
module MergeMarks {
  import opened Grids
  import opened MergeGeometry

  /** The TF-aware merge looks at the centres of cells, the offline merge at their corners. */
  datatype Rule = TfAware | Offline

  function Column(rule: Rule, c: Canvas, p: Source, x: nat, y: nat): int
    requires c.resolution > 0.0
  {
    match rule
    case TfAware => CentreColumn(c, p, x, y)
    case Offline => CornerColumn(c, p, x)
  }

  function Row(rule: Rule, c: Canvas, p: Source, x: nat, y: nat): int
    requires c.resolution > 0.0
  {
    match rule
    case TfAware => CentreRow(c, p, x, y)
    case Offline => CornerRow(c, p, y)
  }

  /** The values that count: all known ones, or only free and occupied. */
  predicate Keeps(rule: Rule, value: int) {
    match rule
    case TfAware => value >= 0
    case Offline => value == 0 || value == 100
  }

  /* The values that the sources put into the merged cells. */

  /** The cells of a source have a place in the merged grid. */
  ghost predicate Covers(rule: Rule, c: Canvas, p: Source) {
    && ValidSource(p) && c.resolution > 0.0
    && forall x, y {:trigger HasCell(p.grid, x, y)} :: HasCell(p.grid, x, y) ==>
         0 <= Column(rule, c, p, x, y) < c.width && 0 <= Row(rule, c, p, x, y) < c.height
  }

  function Target(rule: Rule, c: Canvas, p: Source, x: nat, y: nat): (i: nat)
    requires Covers(rule, c, p) && HasCell(p.grid, x, y)
    ensures i < c.width * c.height
  {
    FlatIndex(Column(rule, c, p, x, y), Row(rule, c, p, x, y), c.width, c.height);
    Column(rule, c, p, x, y) + Row(rule, c, p, x, y) * c.width
  }

  function MarkOf(rule: Rule, c: Canvas, p: Source, x: nat, y: nat): Mark
    requires Covers(rule, c, p) && HasCell(p.grid, x, y) && Keeps(rule, Cell(p.grid, x, y))
  {
    Mark(Target(rule, c, p, x, y), Cell(p.grid, x, y))
  }

  /** Marks of the first `n` cells of row `y`. */
  function RowMarks(rule: Rule, c: Canvas, p: Source, y: nat, n: nat): set<Mark>
    requires Covers(rule, c, p) && y < p.grid.height && n <= p.grid.width
  {
    if n == 0 then {}
    else
      RowMarks(rule, c, p, y, n - 1) +
      (if Keeps(rule, Cell(p.grid, n - 1, y)) then {MarkOf(rule, c, p, n - 1, y)} else {})
  }

  /** Marks of the first `m` rows. */
  function RowsMarks(rule: Rule, c: Canvas, p: Source, m: nat): set<Mark>
    requires Covers(rule, c, p) && m <= p.grid.height
  {
    if m == 0 then {} else RowsMarks(rule, c, p, m - 1) + RowMarks(rule, c, p, m - 1, p.grid.width)
  }

  ghost predicate CoversAll(rule: Rule, c: Canvas, ps: seq<Source>) {
    forall p :: p in ps ==> Covers(rule, c, p)
  }

  function AllMarks(rule: Rule, c: Canvas, ps: seq<Source>): set<Mark>
    requires CoversAll(rule, c, ps)
  {
    if ps == [] then {}
    else
      var p := ps[|ps| - 1];
      AllMarks(rule, c, ps[..|ps| - 1]) + RowsMarks(rule, c, p, p.grid.height)
  }

  /** A source cell holding `value`, which counts, falls into the merged cell with index `i`. */
  ghost predicate Lands(rule: Rule, c: Canvas, p: Source, x: nat, y: nat, i: nat, value: int) {
    && Covers(rule, c, p) && HasCell(p.grid, x, y)
    && Target(rule, c, p, x, y) == i && Cell(p.grid, x, y) == value && Keeps(rule, value)
  }

  lemma {:induction false} RowMarksAre(rule: Rule, c: Canvas, p: Source, y: nat, n: nat, m: Mark)
    requires Covers(rule, c, p) && y < p.grid.height && n <= p.grid.width
    ensures m in RowMarks(rule, c, p, y, n) <==> exists x: nat :: x < n && Lands(rule, c, p, x, y, m.index, m.value)
  {
    hide Target, Cell, Column, Row;
    if n > 0 {
      RowMarksAre(rule, c, p, y, n - 1, m);
      assert HasCell(p.grid, n - 1, y);
      assert Lands(rule, c, p, n - 1, y, m.index, m.value) <==>
             Keeps(rule, Cell(p.grid, n - 1, y)) && m == MarkOf(rule, c, p, n - 1, y);
    }
  }

  lemma {:induction false} RowsMarksAre(rule: Rule, c: Canvas, p: Source, h: nat, m: Mark)
    requires Covers(rule, c, p) && h <= p.grid.height
    ensures m in RowsMarks(rule, c, p, h) <==>
            exists x: nat, y: nat :: y < h && Lands(rule, c, p, x, y, m.index, m.value)
  {
    hide Covers, Target, Cell;
    if h > 0 {
      RowsMarksAre(rule, c, p, h - 1, m);
      RowMarksAre(rule, c, p, h - 1, p.grid.width, m);
      hide RowMarks;
    }
  }

  /** The marks are exactly the landings of the cells whose values count. */
  lemma {:induction false} MarksAre(rule: Rule, c: Canvas, ps: seq<Source>, m: Mark)
    requires CoversAll(rule, c, ps)
    ensures m in AllMarks(rule, c, ps) <==>
            exists p, x, y :: p in ps && Lands(rule, c, p, x, y, m.index, m.value)
  {
    hide Covers, Target, Cell;
    if ps != [] {
      var pre, last := ps[..|ps| - 1], ps[|ps| - 1];
      assert ps == pre + [last];
      MarksAre(rule, c, pre, m);
      RowsMarksAre(rule, c, last, last.grid.height, m);
      hide RowsMarks, Lands;
    }
  }

  datatype Merged = Merged(canvas: Canvas, data: seq<int>)

  /** The greatest of the values that land in the cell, or -1 if none do. */
  ghost predicate IsMergedCell(rule: Rule, c: Canvas, ps: seq<Source>, i: nat, value: int) {
    && (value == -1 || exists p, x, y :: p in ps && Lands(rule, c, p, x, y, i, value))
    && (forall p, x, y, v :: p in ps && Lands(rule, c, p, x, y, i, v) ==> v <= value)
  }

  /** Painting all marks gives every cell the greatest value that lands in it. */
  lemma PaintedIsMerged(rule: Rule, c: Canvas, ps: seq<Source>, data: seq<int>)
    requires CoversAll(rule, c, ps) && Painted(data, AllMarks(rule, c, ps))
    ensures forall i :: 0 <= i < |data| ==> IsMergedCell(rule, c, ps, i, data[i])
  {
    hide CoversAll, AllMarks, Lands;
    forall i | 0 <= i < |data| ensures IsMergedCell(rule, c, ps, i, data[i]) {
      assert IsGreatest(data[i], i, AllMarks(rule, c, ps));
      if data[i] >= 0 {
        MarksAre(rule, c, ps, Mark(i, data[i]));
      }
      forall p, x, y, v | p in ps && Lands(rule, c, p, x, y, i, v) ensures v <= data[i] {
        LandingsAreKnown(rule, c, p, x, y, i, v);
        MarksAre(rule, c, ps, Mark(i, v));
      }
    }
  }

  lemma LandingsAreKnown(rule: Rule, c: Canvas, p: Source, x: nat, y: nat, i: nat, v: int)
    requires Lands(rule, c, p, x, y, i, v)
    ensures v >= 0
  {
  }

  lemma NoGreater(rule: Rule, c: Canvas, ps: seq<Source>, qs: seq<Source>, i: nat, v: int, w: int)
    requires IsMergedCell(rule, c, ps, i, v) && IsMergedCell(rule, c, qs, i, w) && forall p :: p in ps <==> p in qs
    ensures v <= w
  {
  }

  lemma OneMoreCell(rule: Rule, c: Canvas, p: Source, y: nat, x: nat, rows: set<Mark>)
    requires Covers(rule, c, p) && HasCell(p.grid, x, y)
    ensures rows + RowMarks(rule, c, p, y, x)
            + (if Keeps(rule, Cell(p.grid, x, y)) then {MarkOf(rule, c, p, x, y)} else {}) ==
            rows + RowMarks(rule, c, p, y, x + 1)
  {
  }
}
