/** The Dots-and-Boxes grid: dots on a `rows` x `cols` lattice, the lines
    between neighbouring dots, and the unit boxes those lines enclose. */
module Grid {

  datatype Orientation = Horizontal | Vertical

  /** A horizontal line at (r, c) joins dot (r, c) to dot (r, c+1);
      a vertical line at (r, c) joins dot (r, c) to dot (r+1, c). */
  datatype Line = Line(kind: Orientation, r: int, c: int)

  /** Box (r, c) is the cell whose top-left corner is dot (r, c). */
  datatype Box = Box(r: int, c: int)

  predicate ValidLine(rows: int, cols: int, l: Line) {
    0 <= l.r < rows && 0 <= l.c < cols &&
    match l.kind
    case Horizontal => l.c < cols - 1
    case Vertical => l.r < rows - 1
  }

  predicate ValidBox(rows: int, cols: int, b: Box) {
    0 <= b.r < rows - 1 && 0 <= b.c < cols - 1
  }

  function Top(b: Box): Line { Line(Horizontal, b.r, b.c) }
  function Bottom(b: Box): Line { Line(Horizontal, b.r + 1, b.c) }
  function Left(b: Box): Line { Line(Vertical, b.r, b.c) }
  function Right(b: Box): Line { Line(Vertical, b.r, b.c + 1) }

  function Sides(b: Box): set<Line> { {Top(b), Bottom(b), Left(b), Right(b)} }

  /** All four bounding lines of `b` are drawn. */
  predicate Enclosed(lines: set<Line>, b: Box) {
    Top(b) in lines && Bottom(b) in lines && Left(b) in lines && Right(b) in lines
  }

  /** How many of the four bounding lines of `b` are drawn. */
  function SideCount(lines: set<Line>, b: Box): (n: nat)
    ensures n <= 4
    ensures n == 4 <==> Enclosed(lines, b)
  {
    (if Top(b) in lines then 1 else 0) + (if Bottom(b) in lines then 1 else 0) +
    (if Left(b) in lines then 1 else 0) + (if Right(b) in lines then 1 else 0)
  }

  /** Every box of a grid with `nr` rows and `nc` columns of boxes. */
  function BoxGrid(nr: int, nc: int): set<Box> {
    set r: int, c: int | 0 <= r < nr && 0 <= c < nc :: Box(r, c)
  }

  function BoxRow(r: int, nc: int): set<Box> {
    set c: int | 0 <= c < nc :: Box(r, c)
  }

  /** The (rows-1) x (cols-1) boxes of the board. */
  function AllBoxes(rows: int, cols: int): set<Box> {
    BoxGrid(rows - 1, cols - 1)
  }

  function LineGrid(kind: Orientation, nr: int, nc: int): set<Line> {
    set r: int, c: int | 0 <= r < nr && 0 <= c < nc :: Line(kind, r, c)
  }

  function LineRow(kind: Orientation, r: int, nc: int): set<Line> {
    set c: int | 0 <= c < nc :: Line(kind, r, c)
  }

  /** Every line that can be drawn on the board. */
  function AllLines(rows: int, cols: int): set<Line> {
    LineGrid(Horizontal, rows, cols - 1) + LineGrid(Vertical, rows - 1, cols)
  }

  /** The boxes of the board that `l` is a side of. */
  function Borders(rows: int, cols: int, l: Line): set<Box> {
    var near := match l.kind
      case Horizontal => {Box(l.r - 1, l.c), Box(l.r, l.c)}
      case Vertical => {Box(l.r, l.c - 1), Box(l.r, l.c)};
    set b | b in near && ValidBox(rows, cols, b)
  }

  lemma AllBoxesExact(rows: int, cols: int, b: Box)
    ensures b in AllBoxes(rows, cols) <==> ValidBox(rows, cols, b)
  {
    if ValidBox(rows, cols, b) {
      assert b == Box(b.r, b.c);
    }
  }

  lemma AllLinesExact(rows: int, cols: int, l: Line)
    ensures l in AllLines(rows, cols) <==> ValidLine(rows, cols, l)
  {
    if ValidLine(rows, cols, l) {
      assert l == Line(l.kind, l.r, l.c);
    }
  }

  /** The sides of a board box are lines of the board. */
  lemma SidesValid(rows: int, cols: int, b: Box)
    requires ValidBox(rows, cols, b)
    ensures forall l | l in Sides(b) :: ValidLine(rows, cols, l)
  {
  }

  /** `Borders` is exactly the set of board boxes that have `l` as a side. */
  lemma BordersExact(rows: int, cols: int, l: Line, b: Box)
    ensures b in Borders(rows, cols, l) <==> ValidBox(rows, cols, b) && l in Sides(b)
  {
  }

  /** A line borders at most two boxes. */
  lemma BordersAtMostTwo(rows: int, cols: int, l: Line)
    ensures |Borders(rows, cols, l)| <= 2
  {
    var near := match l.kind
      case Horizontal => {Box(l.r - 1, l.c), Box(l.r, l.c)}
      case Vertical => {Box(l.r, l.c - 1), Box(l.r, l.c)};
    Subset(Borders(rows, cols, l), near);
  }

  /** A line of the board borders exactly one box when it lies on the
      rim of the board and exactly two otherwise. */
  lemma BordersCount(rows: int, cols: int, l: Line)
    requires rows >= 2 && cols >= 2 && ValidLine(rows, cols, l)
    ensures var rim := match l.kind
              case Horizontal => l.r == 0 || l.r == rows - 1
              case Vertical => l.c == 0 || l.c == cols - 1;
            |Borders(rows, cols, l)| == if rim then 1 else 2
  {
    var (before, after) := match l.kind
      case Horizontal => (Box(l.r - 1, l.c), Box(l.r, l.c))
      case Vertical => (Box(l.r, l.c - 1), Box(l.r, l.c));
    var bs := Borders(rows, cols, l);
    if ValidBox(rows, cols, before) && ValidBox(rows, cols, after) {
      assert bs == {before, after};
    } else if ValidBox(rows, cols, before) {
      assert bs == {before};
    } else {
      assert bs == {after};
    }
  }

  lemma Subset<T>(a: set<T>, b: set<T>)
    requires a <= b
    ensures |a| <= |b|
  {
    assert b == a + (b - a);
  }

  lemma MulStep(n: nat, m: nat)
    requires n > 0
    ensures n * m == (n - 1) * m + m
  {
  }

  lemma BoxRowStep(r: int, nc: nat)
    requires nc > 0
    ensures BoxRow(r, nc) == BoxRow(r, nc - 1) + {Box(r, nc - 1)}
    ensures Box(r, nc - 1) !in BoxRow(r, nc - 1)
  {
  }

  lemma {:induction false} BoxRowCount(r: int, nc: nat)
    ensures |BoxRow(r, nc)| == nc
  {
    if nc > 0 {
      BoxRowCount(r, nc - 1);
      BoxRowStep(r, nc);
    } else {
      assert BoxRow(r, nc) == {};
    }
  }

  lemma BoxGridStep(nr: nat, nc: nat)
    requires nr > 0
    ensures BoxGrid(nr, nc) == BoxGrid(nr - 1, nc) + BoxRow(nr - 1, nc)
    ensures BoxGrid(nr - 1, nc) !! BoxRow(nr - 1, nc)
  {
  }

  lemma {:induction false} BoxGridCount(nr: nat, nc: nat)
    ensures |BoxGrid(nr, nc)| == nr * nc
  {
    if nr > 0 {
      BoxGridCount(nr - 1, nc);
      BoxRowCount(nr - 1, nc);
      BoxGridStep(nr, nc);
      MulStep(nr, nc);
    } else {
      assert BoxGrid(nr, nc) == {};
    }
  }

  /** The board has (rows-1)(cols-1) boxes. */
  lemma BoxCount(rows: int, cols: int)
    requires rows >= 1 && cols >= 1
    ensures |AllBoxes(rows, cols)| == (rows - 1) * (cols - 1)
  {
    BoxGridCount(rows - 1, cols - 1);
  }

  lemma LineRowStep(kind: Orientation, r: int, nc: nat)
    requires nc > 0
    ensures LineRow(kind, r, nc) == LineRow(kind, r, nc - 1) + {Line(kind, r, nc - 1)}
    ensures Line(kind, r, nc - 1) !in LineRow(kind, r, nc - 1)
  {
  }

  lemma {:induction false} LineRowCount(kind: Orientation, r: int, nc: nat)
    ensures |LineRow(kind, r, nc)| == nc
  {
    if nc > 0 {
      LineRowCount(kind, r, nc - 1);
      LineRowStep(kind, r, nc);
    } else {
      assert LineRow(kind, r, nc) == {};
    }
  }

  lemma LineGridStep(kind: Orientation, nr: nat, nc: nat)
    requires nr > 0
    ensures LineGrid(kind, nr, nc) == LineGrid(kind, nr - 1, nc) + LineRow(kind, nr - 1, nc)
    ensures LineGrid(kind, nr - 1, nc) !! LineRow(kind, nr - 1, nc)
  {
  }

  lemma {:induction false} LineGridCount(kind: Orientation, nr: nat, nc: nat)
    ensures |LineGrid(kind, nr, nc)| == nr * nc
  {
    if nr > 0 {
      LineGridCount(kind, nr - 1, nc);
      LineRowCount(kind, nr - 1, nc);
      LineGridStep(kind, nr, nc);
      MulStep(nr, nc);
    } else {
      assert LineGrid(kind, nr, nc) == {};
    }
  }

  /** The board has rows(cols-1) horizontal and (rows-1)cols vertical lines. */
  lemma LineCount(rows: int, cols: int)
    requires rows >= 1 && cols >= 1
    ensures |AllLines(rows, cols)| == rows * (cols - 1) + (rows - 1) * cols
  {
    LineGridCount(Horizontal, rows, cols - 1);
    LineGridCount(Vertical, rows - 1, cols);
    assert LineGrid(Horizontal, rows, cols - 1) !! LineGrid(Vertical, rows - 1, cols);
  }
}
