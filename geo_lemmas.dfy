/** What the geometry library promises, stated over the model in the Geo
    module: the algebra of point addition and its error case, the exact set
    and order of wall segments a cell draws, the centre as midpoint, and the
    colour and direction of move lines. */
module GeoProperties {
  import opened Wrappers
  import opened Surface
  import opened Geo

  // ---------------------------------------------------------------------
  // Point addition

  /** Adding a pair offsets both coordinates; the result has the default
      colour whatever the receiver's colour. */
  lemma AddPairOffsets(p: Point, dx: real, dy: real)
    ensures p.Add(Pair(dx, dy)) == Ok(Point(p.x + dx, p.y + dy, DefaultPointColor))
  {
  }

  /** Adding two points is the component-wise sum, so it does not depend on
      which operand is the receiver. */
  lemma AddPointsCommute(a: Point, b: Point)
    ensures a.Add(PointOperand(b)) == b.Add(PointOperand(a))
    ensures a.Add(PointOperand(b)) == Ok(Point(a.x + b.x, a.y + b.y))
  {
  }

  /** Adding a point and adding the pair of its coordinates give the same
      result: the added point's colour plays no part. */
  lemma AddPairAgreesWithPoint(p: Point, q: Point)
    ensures p.Add(Pair(q.x, q.y)) == p.Add(PointOperand(q))
  {
  }

  /** Point addition associates. */
  lemma AddPointsAssociate(a: Point, b: Point, c: Point)
    ensures a.Add(PointOperand(b)).Ok? && b.Add(PointOperand(c)).Ok?
    ensures a.Add(PointOperand(b)).value.Add(PointOperand(c)) ==
            a.Add(PointOperand(b.Add(PointOperand(c)).value))
  {
  }

  /** Offsetting by a pair and then by its negation restores the
      coordinates; only the colour is reset to the default. */
  lemma AddPairUndone(p: Point, dx: real, dy: real)
    ensures p.Add(Pair(dx, dy)).Ok?
    ensures p.Add(Pair(dx, dy)).value.Add(Pair(-dx, -dy)) == Ok(p.(color := DefaultPointColor))
  {
  }

  /** The receiver's colour never influences the result of an addition. */
  lemma AddIgnoresReceiverColor(p: Point, other: Operand, c: string)
    ensures p.(color := c).Add(other) == p.Add(other)
  {
  }

  /** `t` occurs in `s` as a contiguous piece. */
  predicate Contains(s: string, t: string)
  {
    exists i, j :: 0 <= i <= j <= |s| && s[i..j] == t
  }

  /** Any operand that is neither a pair nor a point fails with a type error
      whose message names the receiver's class and the operand's class, each
      in quotes. */
  lemma AddRejectsOtherOperands(p: Point, name: string)
    ensures p.Add(Other(name)).Err?
    ensures Contains(p.Add(Other(name)).error.message, "'" + PointClassName + "'")
    ensures Contains(p.Add(Other(name)).error.message, "'" + name + "'")
  {
    var prefix := "unsupported operand type(s) for +: ";
    var left := "'" + PointClassName + "'";
    var middle := " and ";
    var right := "'" + name + "'";
    var m := p.Add(Other(name)).error.message;
    assert m == prefix + left + middle + right;
    assert m[|prefix|..|prefix| + |left|] == left;
    var k := |prefix| + |left| + |middle|;
    assert m[k..k + |right|] == right;
  }

  // ---------------------------------------------------------------------
  // Requests issued for a batch of lines

  /** Drawing a batch of lines issues exactly one request per line, in the
      batch's order. */
  lemma {:induction false} RenderedAt(ls: seq<Line>)
    ensures |Rendered(ls)| == |ls|
    ensures forall k :: 0 <= k < |ls| ==> Rendered(ls)[k] == ls[k].Record()
  {
    if ls != [] {
      RenderedAt(ls[1..]);
      forall k | 0 <= k < |ls|
        ensures Rendered(ls)[k] == ls[k].Record()
      {
        if k > 0 {
          assert Rendered(ls)[k] == Rendered(ls[1..])[k - 1];
        }
      }
    }
  }

  // ---------------------------------------------------------------------
  // Wall rendering

  /** Reference definition of a cell's walls: walk `sides` in order and keep
      the segment of every side whose flag is set. */
  function SideLines(c: Cell, sides: seq<Side>): seq<Line>
  {
    if sides == [] then []
    else Flagged(c.HasWall(sides[0]), c.WallLine(sides[0])) + SideLines(c, sides[1..])
  }

  /** A segment is among the kept segments of `sides` exactly when it is the
      segment of one of those sides whose flag is set. */
  lemma {:induction false} SideLinesMembers(c: Cell, sides: seq<Side>, l: Line)
    ensures l in SideLines(c, sides) <==>
            exists s :: s in sides && c.HasWall(s) && l == c.WallLine(s)
  {
    if sides != [] {
      SideLinesMembers(c, sides[1..], l);
      var s0 := sides[0];
      assert s0 in sides;
      forall s | s in sides[1..] ensures s in sides { }
      forall s | s in sides && s != s0 ensures s in sides[1..] {
        var i :| 0 <= i < |sides| && sides[i] == s;
        assert i > 0;
        assert sides[1..][i - 1] == s;
      }
    }
  }

  /** Drawing a cell keeps the walls with a set flag, in the fixed order
      left, top, right, bottom. */
  lemma WallLinesFollowDrawOrder(c: Cell)
    ensures c.WallLines() == SideLines(c, DrawOrder)
  {
    var left, top := Flagged(c.lWall, c.WallLine(Left)), Flagged(c.tWall, c.WallLine(Top));
    var right, bottom := Flagged(c.rWall, c.WallLine(Right)), Flagged(c.bWall, c.WallLine(Bottom));
    var t1, t2, t3 := DrawOrder[1..], DrawOrder[2..], DrawOrder[3..];
    assert t3[1..] == [];
    assert t2[1..] == t3 && t1[1..] == t2;
    SideLinesStep(c, t3);
    var r3 := SideLines(c, t3);
    assert r3 == bottom;
    SideLinesStep(c, t2);
    var r2 := SideLines(c, t2);
    assert r2 == right + r3;
    SideLinesStep(c, t1);
    var r1 := SideLines(c, t1);
    assert r1 == top + r2;
    SideLinesStep(c, DrawOrder);
    assert SideLines(c, DrawOrder) == left + r1;
    ConcatAssociates(left, top, right, bottom);
  }

  /** One step of the reference definition. */
  lemma SideLinesStep(c: Cell, sides: seq<Side>)
    requires sides != []
    ensures SideLines(c, sides) ==
            Flagged(c.HasWall(sides[0]), c.WallLine(sides[0])) + SideLines(c, sides[1..])
  {
  }

  lemma ConcatAssociates<T>(a: seq<T>, b: seq<T>, c: seq<T>, d: seq<T>)
    ensures a + b + c + d == a + (b + (c + d))
  {
  }

  /** Every segment a cell emits is the segment of one of its set walls. */
  lemma WallLinesAreSetWalls(c: Cell, l: Line)
    requires l in c.WallLines()
    ensures exists s :: c.HasWall(s) && l == c.WallLine(s)
  {
    WallLinesFollowDrawOrder(c);
    SideLinesMembers(c, DrawOrder, l);
  }

  /** On a rectangle of positive size the four wall segments differ from
      each other, so a wall's segment is emitted exactly when its flag is set. */
  lemma WallDrawnIffFlagSet(c: Cell, s: Side)
    requires c.NonDegenerate()
    ensures c.WallLine(s) in c.WallLines() <==> c.HasWall(s)
  {
    WallLinesFollowDrawOrder(c);
    SideLinesMembers(c, DrawOrder, c.WallLine(s));
    forall t | c.WallLine(t) == c.WallLine(s) ensures t == s {
      if t != s {
        WallLinesDistinct(c, s, t);
      }
    }
  }

  /** On a rectangle of positive size different walls have different
      segments. */
  lemma WallLinesDistinct(c: Cell, s: Side, t: Side)
    requires c.NonDegenerate()
    requires s != t
    ensures c.WallLine(s) != c.WallLine(t)
  {
    var ls, lt := c.WallLine(s), c.WallLine(t);
    if (s == Left || s == Top) && (t == Left || t == Top) {
      assert ls.p2.x != lt.p2.x;
    } else if (s == Right || s == Bottom) && (t == Right || t == Bottom) {
      assert ls.p2.x != lt.p2.x;
    } else {
      assert ls.p1.x != lt.p1.x;
    }
  }

  /** Drawing a cell issues one line request per set wall flag, each with the
      cell's colour and the default width. */
  lemma DrawIssuesOneRequestPerWall(c: Cell)
    ensures |Rendered(c.WallLines())| == c.WallCount()
    ensures forall k :: 0 <= k < |Rendered(c.WallLines())| ==>
              Rendered(c.WallLines())[k].LineItem? &&
              Rendered(c.WallLines())[k].fill == c.color &&
              Rendered(c.WallLines())[k].width == DefaultLineWidth
  {
    RenderedAt(c.WallLines());
  }

  /** Every line request a cell issues lies on the cell's boundary: it is
      either vertical at the left or right edge spanning the full height, or
      horizontal at the top or bottom edge spanning the full width. */
  lemma DrawRequestsLieOnBoundary(c: Cell, k: nat)
    requires k < |Rendered(c.WallLines())|
    ensures var i := Rendered(c.WallLines())[k];
            i.LineItem? &&
            ((i.x1 == i.x2 && (i.x1 == c.tl.x || i.x1 == c.br.x) && Spans(i.y1, i.y2, c.tl.y, c.br.y)) ||
             (i.y1 == i.y2 && (i.y1 == c.tl.y || i.y1 == c.br.y) && Spans(i.x1, i.x2, c.tl.x, c.br.x)))
  {
    RenderedAt(c.WallLines());
    var l := c.WallLines()[k];
    WallLinesAreSetWalls(c, l);
    var s :| c.HasWall(s) && l == c.WallLine(s);
  }

  /** A cell built without wall flags has all four walls and emits four
      segments, in the order left, top, right, bottom. */
  lemma FreshCellDrawsFourWalls(tl: Point, br: Point, color: string)
    ensures Cell(tl, br, color).WallCount() == 4
    ensures Cell(tl, br, color).WallLines() ==
            [Line(tl, Point(tl.x, br.y), color), Line(tl, Point(br.x, tl.y), color),
             Line(br, Point(br.x, tl.y), color), Line(br, Point(tl.x, br.y), color)]
  {
  }

  /** The corner cell of the demo driver with its right and bottom walls
      opened draws only its left and top edges. */
  lemma CornerCellExample()
    ensures Cell(Point(90.0, 90.0), Point(110.0, 110.0), rWall := false, bWall := false).WallLines() ==
            [Line(Point(90.0, 90.0), Point(90.0, 110.0), DefaultLineColor),
             Line(Point(90.0, 90.0), Point(110.0, 90.0), DefaultLineColor)]
  {
  }

  // ---------------------------------------------------------------------
  // Cell centre

  /** The centre of a rectangle of positive size lies strictly inside it,
      equally far from both corners on each axis. */
  lemma CenterInside(c: Cell)
    requires c.NonDegenerate()
    ensures c.tl.x < c.Center().x < c.br.x && c.tl.y < c.Center().y < c.br.y
    ensures c.Center().x - c.tl.x == c.br.x - c.Center().x
    ensures c.Center().y - c.tl.y == c.br.y - c.Center().y
  {
  }

  /** Moving both corners by an offset moves the centre by that offset. */
  lemma CenterFollowsTranslation(c: Cell, dx: real, dy: real)
    ensures c.tl.Add(Pair(dx, dy)).Ok? && c.br.Add(Pair(dx, dy)).Ok?
    ensures c.(tl := c.tl.Add(Pair(dx, dy)).value, br := c.br.Add(Pair(dx, dy)).value).Center() ==
            c.Center().Add(Pair(dx, dy)).value
  {
  }

  /** A 20 by 20 cell at the origin has its centre at (10, 10). */
  lemma CenterExample()
    ensures Cell(Point(0.0, 0.0), Point(20.0, 20.0)).Center() == Point(10.0, 10.0)
  {
  }

  // ---------------------------------------------------------------------
  // Move lines

  /** The undo flag changes only the colour of a move line. */
  lemma DrawMoveUndoOnlyRecolors(a: Cell, b: Cell)
    ensures a.DrawMove(b, true) == a.DrawMove(b, false).(color := UndoColor)
    ensures a.DrawMove(b) == a.DrawMove(b, false)
  {
  }

  /** The move line back from the target cell is the move line to it,
      reversed. */
  lemma DrawMoveReversed(a: Cell, b: Cell, undo: bool)
    ensures b.DrawMove(a, undo) ==
            Line(a.DrawMove(b, undo).p2, a.DrawMove(b, undo).p1, a.DrawMove(b, undo).color)
  {
  }

  /** From a cell to the same cell moved by an offset, the move line's
      direction is that offset. */
  lemma DrawMoveToShiftedCell(a: Cell, dx: real, dy: real, undo: bool)
    ensures a.tl.Add(Pair(dx, dy)).Ok? && a.br.Add(Pair(dx, dy)).Ok?
    ensures var b := a.(tl := a.tl.Add(Pair(dx, dy)).value, br := a.br.Add(Pair(dx, dy)).value);
            var l := a.DrawMove(b, undo);
            l.p2.x - l.p1.x == dx && l.p2.y - l.p1.y == dy
  {
    CenterFollowsTranslation(a, dx, dy);
  }

  /** The first two steps of the demo driver's path: a grey backtracking
      segment, then a red forward segment, along the hallway's middle. */
  lemma PathMovesExample()
    ensures Cell(Point(100.0, 300.0), Point(120.0, 320.0), rWall := false)
              .DrawMove(Cell(Point(120.0, 300.0), Point(140.0, 320.0), lWall := false, rWall := false), true)
            == Line(Point(110.0, 310.0), Point(130.0, 310.0), UndoColor)
    ensures Cell(Point(120.0, 300.0), Point(140.0, 320.0), lWall := false, rWall := false)
              .DrawMove(Cell(Point(140.0, 300.0), Point(160.0, 320.0), lWall := false, rWall := false), false)
            == Line(Point(130.0, 310.0), Point(150.0, 310.0), MoveColor)
  {
  }
}
