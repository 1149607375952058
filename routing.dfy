/**
 * The terminal cell table and the connectors drawn into it: straight runs
 * of line glyphs, single junction glyphs, and the three shapes a connector
 * between two consecutive job boxes takes.
 */
module Routing {
  import opened Geometry
  import opened Wrappers

  /** A terminal cell, as (column, row). */
  type Cell = (int, int)

  /** The glyphs written so far, by cell. */
  type Cells = map<Cell, char>

  const Horizontal: char := '\U{2501}'
  const Vertical: char := '\U{2503}'
  /** The junction where a connector branches downward. */
  const Tee: char := '\U{2533}'
  /** The bend at the left foot of a same-stage bracket. */
  const CornerLeft: char := '\U{2517}'
  /** The bend at the right foot of a same-stage bracket. */
  const CornerRight: char := '\U{251B}'
  /** How far the junctions and the margins of a bracket sit from a box edge. */
  const Margin: int := 3

  /**
   * One drawing step: a single glyph, or a run of `len` horizontal or
   * vertical line glyphs starting at (x, y) (nothing when len <= 0).
   */
  datatype Stroke =
    | Mark(x: int, y: int, glyph: char)
    | HRun(x: int, y: int, len: int)
    | VRun(x: int, y: int, len: int)

  /** The cells a stroke writes. */
  predicate Covers(s: Stroke, p: Cell)
  {
    match s
    case Mark(x, y, _) => p == (x, y)
    case HRun(x, y, l) => p.1 == y && x <= p.0 < x + l
    case VRun(x, y, l) => p.0 == x && y <= p.1 < y + l
  }

  /** The glyph a stroke writes. */
  function Ink(s: Stroke): char
  {
    match s
    case Mark(_, _, g) => g
    case HRun(_, _, _) => Horizontal
    case VRun(_, _, _) => Vertical
  }

  function RunLength(s: Stroke): nat
  {
    match s
    case Mark(_, _, _) => 0
    case HRun(_, _, l) => if l < 0 then 0 else l
    case VRun(_, _, l) => if l < 0 then 0 else l
  }

  /** What cell p shows: its glyph, or None when nothing was written there. */
  function At(cells: Cells, p: Cell): Option<char>
  {
    if p in cells then Some(cells[p]) else None
  }

  /**
   * The cell table after a stroke; a run is written one cell at a time from
   * its start.
   */
  function Apply(cells: Cells, s: Stroke): Cells
    decreases RunLength(s)
  {
    match s
    case Mark(x, y, g) => cells[(x, y) := g]
    case HRun(x, y, l) =>
      if l <= 0 then cells else Apply(cells, HRun(x, y, l - 1))[(x + l - 1, y) := Horizontal]
    case VRun(x, y, l) =>
      if l <= 0 then cells else Apply(cells, VRun(x, y, l - 1))[(x, y + l - 1) := Vertical]
  }

  /**
   * A stroke writes exactly the cells it covers, with its glyph, and leaves
   * every other cell as it was (a run of length <= 0 writes nothing).
   */
  lemma {:induction false} ApplyAt(cells: Cells, s: Stroke, p: Cell)
    ensures At(Apply(cells, s), p) == if Covers(s, p) then Some(Ink(s)) else At(cells, p)
    decreases RunLength(s)
  {
    match s
    case Mark(_, _, _) =>
    case HRun(x, y, l) =>
      if l > 0 {
        ApplyAt(cells, HRun(x, y, l - 1), p);
      }
    case VRun(x, y, l) =>
      if l > 0 {
        ApplyAt(cells, VRun(x, y, l - 1), p);
      }
  }

  /**
   * The left half of a same-column bracket: the junction left of the first
   * box, then the two-cell foot and its corner left of the second box.
   */
  function LeftFoot(cells: Cells, x2: int, top: int, foot: int): Cells
  {
    Apply(Apply(Apply(Apply(cells,
      Mark(x2 - Margin, top, Tee)),
      Mark(x2 - 1, foot, Horizontal)),
      Mark(x2 - 2, foot, Horizontal)),
      Mark(x2 - Margin, foot, CornerLeft))
  }

  /** The two vertical runs of a same-column bracket, in both margins. */
  function Margins(cells: Cells, x2: int, w: int, start: int, len: int): Cells
  {
    Apply(Apply(cells, VRun(x2 - Margin, start, len)), VRun(x2 + w + Margin, start, len))
  }

  /** The right foot of a same-column bracket: two cells and the corner right of the second box. */
  function RightFoot(cells: Cells, x2: int, w: int, foot: int): Cells
  {
    Apply(Apply(Apply(cells,
      Mark(x2 + w + 1, foot, Horizontal)),
      Mark(x2 + w + 2, foot, Horizontal)),
      Mark(x2 + w + Margin, foot, CornerRight))
  }

  /** A run of `len` cells from (x, row) with a junction Margin cells in, drawn over it. */
  function Branch(cells: Cells, x: int, row: int, len: int): Cells
  {
    Apply(Apply(cells, HRun(x, row, len)), Mark(x + Margin, row, Tee))
  }

  /**
   * A same-column bracket around the box at column x2: the left foot, the
   * margin runs of `len` cells from row `start`, then the right foot.
   */
  function Bracket(cells: Cells, x2: int, w: int, top: int, foot: int, start: int, len: int): Cells
  {
    RightFoot(Margins(LeftFoot(cells, x2, top, foot), x2, w, start, len), x2, w, foot)
  }

  /**
   * The connector from the box at (x1, y1) to the box at (x2, y2), the first
   * box having bounding size (w, h), with its cells in the order they are
   * written:
   * - different column and row: a run on the second box's middle row from the
   *   first box's right edge, and a junction Margin cells right of that edge;
   * - same row: a run on the shared middle row from the first box's right edge;
   * - same column: a bracket around the second box, with a junction left of
   *   the first box, two-cell feet with corners on both sides of the second
   *   box, and vertical runs in both margins.
   */
  function Connector(cells: Cells, x1: int, y1: int, x2: int, y2: int, w: int, h: int): Cells
  {
    var dx, dy := x2 - x1, y2 - y1;
    if dy != 0 && dx != 0 then
      Branch(cells, x1 + w, y2 + Quot(h, 2), dx - w)
    else if dy == 0 then
      Apply(cells, HRun(x1 + w, y1 + Quot(h, 2), dx - w))
    else
      Bracket(cells, x2, w, y1 + Quot(h, 2), y2 + Quot(h, 2), y1 + h, dy - 1)
  }

  /**
   * Same row: the connector is one horizontal line filling exactly the gap
   * from the first box's right edge (x1 + w) up to the cell before the
   * second box (x2 - 1); no other cell changes.
   */
  lemma SameRowConnector(cells: Cells, x1: int, y1: int, x2: int, y2: int, w: int, h: int)
    requires y1 == y2
    ensures forall p :: At(Connector(cells, x1, y1, x2, y2, w, h), p) ==
              if p.1 == y1 + Quot(h, 2) && x1 + w <= p.0 < x2 then Some(Horizontal) else At(cells, p)
  {
    var r := Apply(cells, HRun(x1 + w, y1 + Quot(h, 2), x2 - x1 - w));
    assert Connector(cells, x1, y1, x2, y2, w, h) == r;
    forall p: Cell
      ensures At(r, p) == if p.1 == y1 + Quot(h, 2) && x1 + w <= p.0 < x2 then Some(Horizontal) else At(cells, p)
    {
      ApplyAt(cells, HRun(x1 + w, y1 + Quot(h, 2), x2 - x1 - w), p);
    }
  }

  /**
   * Different column and row: a horizontal line on the second box's middle
   * row from x1 + w to x2 - 1, with the junction at x1 + w + Margin drawn
   * over it (also when it lies past the line's end); no other cell changes.
   */
  lemma CrossStageConnector(cells: Cells, x1: int, y1: int, x2: int, y2: int, w: int, h: int)
    requires x1 != x2 && y1 != y2
    ensures var row := y2 + Quot(h, 2);
            forall p :: At(Connector(cells, x1, y1, x2, y2, w, h), p) ==
              if p == (x1 + w + Margin, row) then Some(Tee)
              else if p.1 == row && x1 + w <= p.0 < x2 then Some(Horizontal)
              else At(cells, p)
  {
    var row := y2 + Quot(h, 2);
    var line := Apply(cells, HRun(x1 + w, row, x2 - x1 - w));
    assert Connector(cells, x1, y1, x2, y2, w, h) == Apply(line, Mark(x1 + w + Margin, row, Tee));
    forall p: Cell
      ensures At(Apply(line, Mark(x1 + w + Margin, row, Tee)), p) ==
                if p == (x1 + w + Margin, row) then Some(Tee)
                else if p.1 == row && x1 + w <= p.0 < x2 then Some(Horizontal)
                else At(cells, p)
    {
      ApplyAt(cells, HRun(x1 + w, row, x2 - x1 - w), p);
      ApplyAt(line, Mark(x1 + w + Margin, row, Tee), p);
    }
  }

  /** What the left foot shows at every cell, when its two rows differ. */
  lemma LeftFootAt(cells: Cells, x2: int, top: int, foot: int, p: Cell)
    requires top != foot
    ensures At(LeftFoot(cells, x2, top, foot), p) ==
              if p == (x2 - Margin, top) then Some(Tee)
              else if p == (x2 - Margin, foot) then Some(CornerLeft)
              else if p == (x2 - 2, foot) || p == (x2 - 1, foot) then Some(Horizontal)
              else At(cells, p)
  {
    var c1 := Apply(cells, Mark(x2 - Margin, top, Tee));
    var c2 := Apply(c1, Mark(x2 - 1, foot, Horizontal));
    var c3 := Apply(c2, Mark(x2 - 2, foot, Horizontal));
    ApplyAt(cells, Mark(x2 - Margin, top, Tee), p);
    ApplyAt(c1, Mark(x2 - 1, foot, Horizontal), p);
    ApplyAt(c2, Mark(x2 - 2, foot, Horizontal), p);
    ApplyAt(c3, Mark(x2 - Margin, foot, CornerLeft), p);
  }

  /** What the margin runs show at every cell. */
  lemma MarginsAt(cells: Cells, x2: int, w: int, start: int, len: int, p: Cell)
    ensures At(Margins(cells, x2, w, start, len), p) ==
              if (p.0 == x2 - Margin || p.0 == x2 + w + Margin) && start <= p.1 < start + len then Some(Vertical)
              else At(cells, p)
  {
    ApplyAt(cells, VRun(x2 - Margin, start, len), p);
    ApplyAt(Apply(cells, VRun(x2 - Margin, start, len)), VRun(x2 + w + Margin, start, len), p);
  }

  /** What the right foot shows at every cell. */
  lemma RightFootAt(cells: Cells, x2: int, w: int, foot: int, p: Cell)
    ensures At(RightFoot(cells, x2, w, foot), p) ==
              if p == (x2 + w + Margin, foot) then Some(CornerRight)
              else if p == (x2 + w + 1, foot) || p == (x2 + w + 2, foot) then Some(Horizontal)
              else At(cells, p)
  {
    var c1 := Apply(cells, Mark(x2 + w + 1, foot, Horizontal));
    var c2 := Apply(c1, Mark(x2 + w + 2, foot, Horizontal));
    ApplyAt(cells, Mark(x2 + w + 1, foot, Horizontal), p);
    ApplyAt(c1, Mark(x2 + w + 2, foot, Horizontal), p);
    ApplyAt(c2, Mark(x2 + w + Margin, foot, CornerRight), p);
  }

  /** The same-column case of Connector is the bracket. */
  lemma BracketCase(cells: Cells, x: int, y1: int, y2: int, w: int, h: int)
    requires y1 != y2
    ensures Connector(cells, x, y1, x, y2, w, h) ==
              Bracket(cells, x, w, y1 + Quot(h, 2), y2 + Quot(h, 2), y1 + h, y2 - y1 - 1)
  {
  }

  /**
   * What a bracket shows at every cell, when the junction row differs from
   * the foot row and the run ends above the foot: the feet and corners on
   * the foot row, the junction, the margin runs, and otherwise the old cell.
   */
  lemma BracketAt(cells: Cells, x2: int, w: int, top: int, foot: int, start: int, len: int, p: Cell)
    requires top != foot && w >= 0 && start + len <= foot
    ensures At(Bracket(cells, x2, w, top, foot, start, len), p) ==
              if p == (x2 + w + Margin, foot) then Some(CornerRight)
              else if p == (x2 + w + 1, foot) || p == (x2 + w + 2, foot) then Some(Horizontal)
              else if (p.0 == x2 - Margin || p.0 == x2 + w + Margin) && start <= p.1 < start + len then Some(Vertical)
              else if p == (x2 - Margin, top) then Some(Tee)
              else if p == (x2 - Margin, foot) then Some(CornerLeft)
              else if p == (x2 - 2, foot) || p == (x2 - 1, foot) then Some(Horizontal)
              else At(cells, p)
  {
    var left := LeftFoot(cells, x2, top, foot);
    RightFootAt(Margins(left, x2, w, start, len), x2, w, foot, p);
    MarginsAt(left, x2, w, start, len, p);
    LeftFootAt(cells, x2, top, foot, p);
  }

  /**
   * Same column, second box lower, boxes one or two rows high (the heights
   * for which h/2 == h - 1): the left margin carries an unbroken line from
   * the junction beside the first box down to the corner at the second
   * box's foot, the right margin a line ending in the other corner, and both
   * two-cell feet reach the second box.
   */
  lemma DownwardBracket(cells: Cells, x: int, y1: int, y2: int, w: int, h: int)
    requires y1 < y2 && w >= 0 && Quot(h, 2) == h - 1
    ensures var r := Connector(cells, x, y1, x, y2, w, h);
            var foot := y2 + h - 1;
            && At(r, (x - Margin, y1 + h - 1)) == Some(Tee)
            && (forall p: Cell :: (p.0 == x - Margin || p.0 == x + w + Margin) && y1 + h <= p.1 < foot ==>
                  At(r, p) == Some(Vertical))
            && At(r, (x - Margin, foot)) == Some(CornerLeft)
            && At(r, (x + w + Margin, foot)) == Some(CornerRight)
            && At(r, (x - 2, foot)) == Some(Horizontal) && At(r, (x - 1, foot)) == Some(Horizontal)
            && At(r, (x + w + 1, foot)) == Some(Horizontal) && At(r, (x + w + 2, foot)) == Some(Horizontal)
  {
    var top, foot, start, len := y1 + h - 1, y2 + h - 1, y1 + h, y2 - y1 - 1;
    BracketCase(cells, x, y1, y2, w, h);
    var r := Bracket(cells, x, w, top, foot, start, len);
    assert Connector(cells, x, y1, x, y2, w, h) == r;
    forall p: Cell | (p.0 == x - Margin || p.0 == x + w + Margin) && start <= p.1 < foot
      ensures At(r, p) == Some(Vertical)
    {
      BracketAt(cells, x, w, top, foot, start, len, p);
    }
    BracketAt(cells, x, w, top, foot, start, len, (x - Margin, top));
    BracketAt(cells, x, w, top, foot, start, len, (x - Margin, foot));
    BracketAt(cells, x, w, top, foot, start, len, (x + w + Margin, foot));
    BracketAt(cells, x, w, top, foot, start, len, (x - 2, foot));
    BracketAt(cells, x, w, top, foot, start, len, (x - 1, foot));
    BracketAt(cells, x, w, top, foot, start, len, (x + w + 1, foot));
    BracketAt(cells, x, w, top, foot, start, len, (x + w + 2, foot));
  }

  /**
   * Same column, second box higher: the margin runs have a negative length,
   * so the connector writes only its seven single glyphs.
   */
  lemma UpwardBracket(cells: Cells, x: int, y1: int, y2: int, w: int, h: int)
    requires y2 < y1
    ensures var foot := y2 + Quot(h, 2);
            forall p :: p !in {(x - Margin, y1 + Quot(h, 2)), (x - 1, foot), (x - 2, foot), (x - Margin, foot),
                               (x + w + 1, foot), (x + w + 2, foot), (x + w + Margin, foot)} ==>
              At(Connector(cells, x, y1, x, y2, w, h), p) == At(cells, p)
  {
    var top, foot := y1 + Quot(h, 2), y2 + Quot(h, 2);
    BracketCase(cells, x, y1, y2, w, h);
    var left := LeftFoot(cells, x, top, foot);
    var sides := Margins(left, x, w, y1 + h, y2 - y1 - 1);
    forall p: Cell | p !in {(x - Margin, top), (x - 1, foot), (x - 2, foot), (x - Margin, foot),
                            (x + w + 1, foot), (x + w + 2, foot), (x + w + Margin, foot)}
      ensures At(RightFoot(sides, x, w, foot), p) == At(cells, p)
    {
      RightFootAt(sides, x, w, foot, p);
      MarginsAt(left, x, w, y1 + h, y2 - y1 - 1, p);
      LeftFootAt(cells, x, top, foot, p);
    }
  }
}
