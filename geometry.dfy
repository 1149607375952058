/**
 * Screen geometry of the pipeline diagram: Go's integer division, the
 * rectangles of stage-label and job boxes, and how the stage columns are
 * spread over the terminal width.
 */
module Geometry {

  /** Half the width of every box, in cells. */
  const HalfWidth: int := 7
  /** Vertical distance between the tops of two consecutive job boxes of a stage. */
  const RowPitch: int := 6
  /** Height of a job box (y1 - y0). */
  const JobHeight: int := 2
  /** The stage label occupies rows Middle - LabelTop .. Middle - LabelBottom. */
  const LabelTop: int := 4
  const LabelBottom: int := 2

  /**
   * Go's `/` on integers, which truncates toward zero (Dafny's `/` is
   * Euclidean and differs for a negative dividend): the remainder is
   * smaller than the divisor and has the sign of the dividend.
   */
  function Quot(a: int, b: int): int
    requires b > 0
  {
    if a >= 0 then a / b else -((-a) / b)
  }

  /** Quot truncates: the remainder is smaller than the divisor and has the sign of the dividend. */
  lemma QuotTruncates(a: int, b: int)
    requires b > 0
    ensures a >= 0 ==> 0 <= a - Quot(a, b) * b < b
    ensures a < 0 ==> -b < a - Quot(a, b) * b <= 0
  {
    if a < 0 {
      var q := (-a) / b;
      assert -a == q * b + (-a) % b;
      assert a - Quot(a, b) * b == -((-a) - q * b);
    }
  }

  /** A gocui view rectangle: corners (x0, y0) and (x1, y1). */
  datatype Rect = Rect(x0: int, y0: int, x1: int, y1: int)

  /** `maxX*stageIdx/(stages+1)`: the horizontal centre of a stage's column. */
  function ColumnCentre(maxX: int, stageIdx: int, stages: nat): int
  {
    Quot(maxX * stageIdx, stages + 1)
  }

  /** `maxY/2`: the row where the first job box of every column starts. */
  function Middle(maxY: int): int
  {
    Quot(maxY, 2)
  }

  /** The rectangle of the label box of stage number `stageIdx`. */
  function StageBox(maxX: int, maxY: int, stageIdx: int, stages: nat): Rect
  {
    var c := ColumnCentre(maxX, stageIdx, stages);
    Rect(c - HalfWidth, Middle(maxY) - LabelTop, c + HalfWidth, Middle(maxY) - LabelBottom)
  }

  /**
   * The rectangle of the job box in row `rowIdx` of the column of stage
   * `stageIdx`: as wide as the stage's label box, starting at the middle row
   * of the screen and moving one row pitch down per row.
   */
  function JobBox(maxX: int, maxY: int, stageIdx: int, stages: nat, rowIdx: int): Rect
  {
    var c := ColumnCentre(maxX, stageIdx, stages);
    Rect(c - HalfWidth, Middle(maxY) + rowIdx * RowPitch, c + HalfWidth, Middle(maxY) + JobHeight + rowIdx * RowPitch)
  }

  /** The stage-label box spans HalfWidth cells either side of its column centre and ends above the middle row. */
  lemma StageBoxShape(maxX: int, maxY: int, stageIdx: int, stages: nat)
    ensures var r := StageBox(maxX, maxY, stageIdx, stages);
            && r.x0 + HalfWidth == ColumnCentre(maxX, stageIdx, stages) == r.x1 - HalfWidth
            && r.y1 < Middle(maxY) && r.y0 < r.y1
  {
  }

  /**
   * A job box has its stage label's x range, starts one row pitch lower per
   * row index from the middle row, and is JobHeight rows high.
   */
  lemma JobBoxShape(maxX: int, maxY: int, stageIdx: int, stages: nat, rowIdx: int)
    ensures var r := JobBox(maxX, maxY, stageIdx, stages, rowIdx);
            && r.x0 == StageBox(maxX, maxY, stageIdx, stages).x0
            && r.x1 == StageBox(maxX, maxY, stageIdx, stages).x1
            && r.y0 == Middle(maxY) + RowPitch * rowIdx && r.y1 == r.y0 + JobHeight
  {
  }

  /** Job boxes of one column are ordered by row, with a gap between them. */
  lemma RowsDisjoint(maxX: int, maxY: int, stageIdx: int, stages: nat, row: int, row': int)
    requires row < row'
    ensures JobBox(maxX, maxY, stageIdx, stages, row).y1 < JobBox(maxX, maxY, stageIdx, stages, row').y0
  {
  }

  /** Every job box of a non-negative row lies strictly below its stage's label box. */
  lemma LabelAboveJobs(maxX: int, maxY: int, stageIdx: int, stages: nat, row: nat)
    ensures StageBox(maxX, maxY, stageIdx, stages).y1 < JobBox(maxX, maxY, stageIdx, stages, row).y0
  {
  }

  /** A multiple of a positive number that stays below that number is not positive. */
  lemma MultipleBelow(x: int, d: int)
    requires d > 0 && x * d < d
    ensures x <= 0
  {
    if x > 0 {
      assert (x - 1) * d >= 0;
    }
  }

  /** Euclidean division by a positive number is monotone in the dividend. */
  lemma DivMonotone(a: int, b: int, d: int)
    requires d > 0 && a <= b
    ensures a / d <= b / d
  {
    var qa, qb := a / d, b / d;
    assert a == qa * d + a % d && b == qb * d + b % d;
    assert (qa - qb) * d == qa * d - qb * d;
    MultipleBelow(qa - qb, d);
  }

  /** Dividing an exact multiple gives back the factor. */
  lemma DivExact(m: int, d: int)
    requires d > 0
    ensures (m * d) / d == m
  {
    var t := (m * d) / d;
    assert m * d == t * d + (m * d) % d;
    assert (m - t) * d == m * d - t * d;
    assert (t - m) * d == t * d - m * d;
    MultipleBelow(m - t, d);
    MultipleBelow(t - m, d);
  }

  /** Adding at least k multiples of d to the dividend raises the quotient by at least k. */
  lemma DivGap(a: int, b: int, d: int, k: int)
    requires d > 0 && k >= 0 && a + k * d <= b
    ensures a / d + k <= b / d
  {
    var q := a / d;
    assert a == q * d + a % d;
    assert (q + k) * d == q * d + k * d;
    DivMonotone((q + k) * d, b, d);
    DivExact(q + k, d);
  }

  /** A product with a non-negative factor grows with the other factor. */
  lemma MulMonotone(m: int, a: int, b: int)
    requires m >= 0 && a <= b
    ensures m * a <= m * b
  {
    assert m * b - m * a == m * (b - a);
  }

  /** For a non-negative width, the column centre never decreases with the stage number. */
  lemma ColumnMonotone(maxX: int, stages: nat, s: int, s': int)
    requires maxX >= 0 && 0 <= s <= s'
    ensures ColumnCentre(maxX, s, stages) <= ColumnCentre(maxX, s', stages)
  {
    MulMonotone(maxX, s, s');
    DivMonotone(maxX * s, maxX * s', stages + 1);
  }

  /**
   * When the width leaves at least k cells per column, the centres of two
   * different stages are at least k apart.
   */
  lemma ColumnGap(maxX: int, stages: nat, s: int, s': int, k: nat)
    requires maxX >= k * (stages + 1) && 0 <= s < s'
    ensures ColumnCentre(maxX, s, stages) + k <= ColumnCentre(maxX, s', stages)
  {
    MulMonotone(maxX, s + 1, s');
    assert maxX * (s + 1) == maxX * s + maxX;
    DivGap(maxX * s, maxX * s', stages + 1, k);
  }

  /** Once the width is at least the number of columns, the centres strictly increase. */
  lemma ColumnStrict(maxX: int, stages: nat, s: int, s': int)
    requires maxX >= stages + 1 && 0 <= s < s'
    ensures ColumnCentre(maxX, s, stages) < ColumnCentre(maxX, s', stages)
  {
    ColumnGap(maxX, stages, s, s', 1);
  }

  /** A non-negative dividend below m multiples of d has a quotient below m. */
  lemma QuotBelow(a: int, d: int, m: int)
    requires d > 0 && 0 <= a < m * d
    ensures 0 <= a / d < m
  {
    var q := a / d;
    assert a == q * d + a % d;
    assert (q - m + 1) * d == q * d - m * d + d;
    MultipleBelow(q - m + 1, d);
  }

  /** The centre of a column numbered 0 .. stages lies on a screen of positive width. */
  lemma CentreOnScreen(maxX: int, s: int, stages: nat)
    requires maxX > 0 && 0 <= s <= stages
    ensures 0 <= ColumnCentre(maxX, s, stages) < maxX
  {
    MulMonotone(maxX, 0, s);
    MulMonotone(maxX, s, stages);
    assert maxX * (stages + 1) == maxX * stages + maxX;
    QuotBelow(maxX * s, stages + 1, maxX);
  }

  /**
   * With at least 2*HalfWidth+1 cells per column, boxes of different stages
   * do not overlap horizontally.
   */
  lemma ColumnsDisjoint(maxX: int, maxY: int, stages: nat, s: int, s': int, row: int, row': int)
    requires maxX >= (2 * HalfWidth + 1) * (stages + 1) && 0 <= s < s'
    ensures JobBox(maxX, maxY, s, stages, row).x1 < JobBox(maxX, maxY, s', stages, row').x0
  {
    ColumnGap(maxX, stages, s, s', 2 * HalfWidth + 1);
  }
}
