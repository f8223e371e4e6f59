/** The geometry library of the maze solver: points, lines and wall-bounded
    grid cells in canvas coordinates (x grows to the right, y grows downward,
    (0, 0) is the upper left corner).

    Coordinates are `real`: the source declares them as integers, but a cell's
    centre is computed with true division and so is fractional in general.
    Integer coordinates are the whole-numbered reals. */
module Geo {
  import opened Wrappers
  import opened Surface

  /** Colour a point gets when none is given. */
  const DefaultPointColor := "red"
  /** Colour a line or a cell gets when none is given. */
  const DefaultLineColor := "black"
  /** Width a line gets when none is given. */
  const DefaultLineWidth := 2
  /** Colours of a move line: forward step and backtracking step. */
  const MoveColor := "red"
  const UndoColor := "grey"
  /** Half the side of the square that bounds the dot drawn for a point. */
  const DotRadius: real := 2.0

  /** Name of the class of the left operand of `+`, used in the error text. */
  const PointClassName := "Point"

  /** The right operand of `Point + other`, tagged by its runtime kind:
      a coordinate pair (the first two items of a tuple), another point,
      or a value of any other class, known only by its class name. */
  datatype Operand =
    | Pair(dx: real, dy: real)
    | PointOperand(p: Point)
    | Other(className: string)

  /** The exception raised for an operand of an unsupported type. */
  datatype TypeError = TypeError(message: string)

  /** The text of the unsupported-operand error, naming both classes. */
  function UnsupportedOperands(left: string, right: string): string
  {
    "unsupported operand type(s) for +: '" + left + "' and '" + right + "'"
  }

  datatype Point = Point(x: real, y: real, color: string := DefaultPointColor)
  {
    /** `self + other`: a fresh point offset by a pair or by another point's
        coordinates; any other operand raises a type error. The new point
        always has the default colour, whatever either operand's colour. */
    function Add(other: Operand): (r: Result<Point, TypeError>)
      ensures r.Ok? <==> !other.Other?
      ensures r.Ok? ==> r.value.color == DefaultPointColor
      ensures other.Pair? ==> r.Ok? && r.value.x - x == other.dx && r.value.y - y == other.dy
      ensures other.PointOperand? ==>
                r.Ok? && r.value.x - x == other.p.x && r.value.y - y == other.p.y
      ensures other.Other? ==>
                r == Err(TypeError(UnsupportedOperands(PointClassName, other.className)))
    {
      match other
      case Pair(dx, dy) => Ok(Point(x + dx, y + dy))
      case PointOperand(p) => Ok(Point(x + p.x, y + p.y))
      case Other(name) => Err(TypeError(UnsupportedOperands(PointClassName, name)))
    }

    /** The oval request that draws this point: a dot of the point's colour
        in a square box centred on the point. */
    function Dot(): (d: Item)
      ensures d.OvalItem? && d.fill == color
      ensures d.x1 + d.x2 == 2.0 * x && d.y1 + d.y2 == 2.0 * y
      ensures d.x2 - d.x1 == 2.0 * DotRadius && d.y2 - d.y1 == 2.0 * DotRadius
    {
      OvalItem(x - DotRadius, y - DotRadius, x + DotRadius, y + DotRadius, color)
    }

    /** Draws the point as a small dot. */
    method Draw(canvas: Canvas)
      modifies canvas
      ensures canvas.items == old(canvas.items) + [Dot()]
    {
      canvas.CreateOval(x - DotRadius, y - DotRadius, x + DotRadius, y + DotRadius, color);
    }
  }

  datatype Line = Line(p1: Point, p2: Point, color: string := DefaultLineColor,
                       width: int := DefaultLineWidth)
  {
    /** The line request that draws this segment; the endpoints' own colours
        play no part in it. */
    function Record(): Item
    {
      LineItem(p1.x, p1.y, p2.x, p2.y, color, width)
    }

    /** Draws the segment from `p1` to `p2`. */
    method Draw(canvas: Canvas)
      modifies canvas
      ensures canvas.items == old(canvas.items) + [Record()]
    {
      canvas.CreateLine(p1.x, p1.y, p2.x, p2.y, color, width);
    }
  }

  /** The requests that drawing the lines `ls` in order issues. */
  function Rendered(ls: seq<Line>): seq<Item>
  {
    if ls == [] then [] else [ls[0].Record()] + Rendered(ls[1..])
  }

  /** The segment with ends at `a` and `b` covers exactly the span between
      `lo` and `hi` on its axis, in either direction. */
  predicate Spans(a: real, b: real, lo: real, hi: real)
  {
    (a == lo && b == hi) || (a == hi && b == lo)
  }

  /** The four walls of a cell, in the order the cell draws them. */
  datatype Side = Left | Top | Right | Bottom

  const DrawOrder: seq<Side> := [Left, Top, Right, Bottom]

  /** A cell of the maze grid: the rectangle between its top left corner `tl`
      and bottom right corner `br`, and one flag per wall saying whether that
      wall is drawn. A cell built without flags has all four walls. */
  datatype Cell = Cell(tl: Point, br: Point, color: string := DefaultLineColor,
                       lWall: bool := true, rWall: bool := true,
                       tWall: bool := true, bWall: bool := true)
  {
    /** The rectangle has positive width and height. Nothing in the source
        enforces this; lemmas that need it say so. */
    predicate NonDegenerate()
    {
      tl.x < br.x && tl.y < br.y
    }

    predicate HasWall(s: Side)
    {
      match s
      case Left => lWall
      case Top => tWall
      case Right => rWall
      case Bottom => bWall
    }

    /** Number of walls whose flag is set. */
    function WallCount(): nat
    {
      (if lWall then 1 else 0) + (if tWall then 1 else 0) +
      (if rWall then 1 else 0) + (if bWall then 1 else 0)
    }

    /** A point is a corner of the rectangle. */
    predicate IsCorner(p: Point)
    {
      (p.x == tl.x || p.x == br.x) && (p.y == tl.y || p.y == br.y)
    }

    /** The boundary segment drawn for wall `s`: it joins two corners, runs
        vertically along the full height for the left and right walls and
        horizontally along the full width for the top and bottom walls,
        starts at `tl` for the left and top walls and at `br` for the right
        and bottom walls, and carries the cell's colour. */
    function WallLine(s: Side): (l: Line)
      ensures l.color == color && l.width == DefaultLineWidth
      ensures IsCorner(l.p1) && IsCorner(l.p2)
      ensures (s == Left || s == Top) ==> l.p1 == tl
      ensures (s == Right || s == Bottom) ==> l.p1 == br
      ensures (s == Left || s == Right) ==>
                l.p1.x == l.p2.x && Spans(l.p1.y, l.p2.y, tl.y, br.y)
      ensures (s == Top || s == Bottom) ==>
                l.p1.y == l.p2.y && Spans(l.p1.x, l.p2.x, tl.x, br.x)
      ensures l.p2.color == DefaultPointColor
    {
      match s
      case Left => Line(tl, Point(tl.x, br.y), color)
      case Top => Line(tl, Point(br.x, tl.y), color)
      case Right => Line(br, Point(br.x, tl.y), color)
      case Bottom => Line(br, Point(tl.x, br.y), color)
    }

    /** The segments drawing the cell emits: one per set wall flag, in the
        order left, top, right, bottom, all of the cell's colour and of the
        default width. */
    function WallLines(): (ls: seq<Line>)
      ensures |ls| == WallCount()
      ensures forall i :: 0 <= i < |ls| ==>
                ls[i].color == color && ls[i].width == DefaultLineWidth
    {
      Flagged(lWall, WallLine(Left)) + Flagged(tWall, WallLine(Top)) +
      Flagged(rWall, WallLine(Right)) + Flagged(bWall, WallLine(Bottom))
    }

    /** The requests for the cell's walls, wall by wall. */
    lemma RenderedWallLines()
      ensures Rendered(WallLines()) ==
                Flagged(lWall, WallLine(Left).Record()) + Flagged(tWall, WallLine(Top).Record()) +
                Flagged(rWall, WallLine(Right).Record()) + Flagged(bWall, WallLine(Bottom).Record())
    {
      var left := Flagged(lWall, WallLine(Left));
      var top := Flagged(tWall, WallLine(Top));
      var right := Flagged(rWall, WallLine(Right));
      var bottom := Flagged(bWall, WallLine(Bottom));
      RenderedFlagged(lWall, WallLine(Left));
      RenderedFlagged(tWall, WallLine(Top));
      RenderedFlagged(rWall, WallLine(Right));
      RenderedFlagged(bWall, WallLine(Bottom));
      RenderedAppend(left, top);
      RenderedAppend(left + top, right);
      RenderedAppend(left + top + right, bottom);
      assert WallLines() == left + top + right + bottom;
    }

    /** Draws every wall whose flag is set, and nothing else. */
    method Draw(canvas: Canvas)
      modifies canvas
      ensures canvas.items == old(canvas.items) + Rendered(WallLines())
    {
      ghost var left, top, right, bottom :=
        Flagged(lWall, WallLine(Left).Record()), Flagged(tWall, WallLine(Top).Record()),
        Flagged(rWall, WallLine(Right).Record()), Flagged(bWall, WallLine(Bottom).Record());
      if lWall {
        Line(tl, Point(tl.x, br.y), color).Draw(canvas);
      }
      assert canvas.items == old(canvas.items) + left;
      if tWall {
        Line(tl, Point(br.x, tl.y), color).Draw(canvas);
      }
      assert canvas.items == old(canvas.items) + (left + top);
      if rWall {
        Line(br, Point(br.x, tl.y), color).Draw(canvas);
      }
      assert canvas.items == old(canvas.items) + (left + top + right);
      if bWall {
        Line(br, Point(tl.x, br.y), color).Draw(canvas);
      }
      assert canvas.items == old(canvas.items) + (left + top + right + bottom);
      RenderedWallLines();
    }

    /** The midpoint of the two corners, `tl + (br - tl) / 2`, as a fresh
        point of the default colour. */
    function Center(): (c: Point)
      ensures 2.0 * c.x == tl.x + br.x && 2.0 * c.y == tl.y + br.y
      ensures c.color == DefaultPointColor
    {
      Point(tl.x + (br.x - tl.x) / 2.0, tl.y + (br.y - tl.y) / 2.0)
    }

    /** The path segment from this cell's centre to `to`'s centre: grey when it
        marks a backtracking step, red otherwise. It is returned, not drawn. */
    function DrawMove(to: Cell, undo: bool := false): (l: Line)
      ensures 2.0 * l.p1.x == tl.x + br.x && 2.0 * l.p1.y == tl.y + br.y
      ensures 2.0 * l.p2.x == to.tl.x + to.br.x && 2.0 * l.p2.y == to.tl.y + to.br.y
      ensures l.color == UndoColor <==> undo
      ensures l.color == MoveColor <==> !undo
      ensures l.width == DefaultLineWidth
      ensures l.p1.color == DefaultPointColor && l.p2.color == DefaultPointColor
    {
      Line(Center(), to.Center(), if undo then UndoColor else MoveColor)
    }
  }

  /** `[x]` when `flag` is set, nothing otherwise. */
  function Flagged<T>(flag: bool, x: T): seq<T>
  {
    if flag then [x] else []
  }

  /** A line drawn only when its flag is set issues its request only then. */
  lemma RenderedFlagged(flag: bool, l: Line)
    ensures Rendered(Flagged(flag, l)) == Flagged(flag, l.Record())
  {
    if flag {
      assert [l][1..] == [];
    }
  }

  /** Drawing two batches in turn issues the requests of the first batch,
      then those of the second. */
  lemma {:induction false} RenderedAppend(a: seq<Line>, b: seq<Line>)
    ensures Rendered(a + b) == Rendered(a) + Rendered(b)
  {
    if a == [] {
      assert a + b == b;
    } else {
      assert (a + b)[1..] == a[1..] + b;
      RenderedAppend(a[1..], b);
    }
  }
}
