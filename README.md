# Maze solver geometry, modelled in Dafny

This is a model of the geometry library of a tutorial maze solver. The library
draws on a desktop canvas. It has three parts:

- **Points** in canvas coordinates. Their `+` takes a coordinate pair or another
  point and returns a fresh point. Any other operand raises `TypeError`.
- **Lines**: a drawing directive with a colour and a width (default black, 2).
- **Cells**: rectangles given by a top-left and a bottom-right corner. Each cell
  has four wall flags, all set by default. A cell draws the segment of every set
  wall, computes its centre, and builds the "move" line from its centre to
  another cell's centre. That line is grey for a backtracking step and red
  otherwise.

The canvas is an external collaborator. The model reduces it to an append-only
log of the `create_line` / `create_oval` requests it receives (`Surface.Canvas`).
Every drawing operation is a method, and its contract gives the exact suffix it
appends to that log. Points, lines and cells are immutable values (datatypes).
The shown code never changes a point, line or cell after creating it. So "the
receiver is not modified" holds by construction, and every addition returns a
new value.

Files:

- `wrappers.dfy`: the `Result` type that stands for "returns or raises".
- `canvas.dfy`: the canvas log.
- `geo.dfy`: points, lines, cells and their operations.
- `geo_lemmas.dfy`: the properties relating them.

Two facts about the source shape the model:

- `draw_move` only returns the move line; the caller draws it (src/geo.py:107-112).
- `center()` divides with `/`, so its coordinates are not whole numbers in general (src/geo.py:101-104). Coordinates are therefore `real` throughout, although the source annotates them as `int`; whole-numbered reals stand for integers.

## Model

| member | source | states |
|---|---|---|
| `Geo.Point.Add` | src/geo.py:38-47 | Succeeds exactly when the operand is a pair or a point. A pair moves the receiver by (dx, dy). A point adds its coordinates. The result always has the default colour "red". Any other operand gives a TypeError with the unsupported-operand message. |
| `Geo.Point.Dot` | src/geo.py:28-36 | The oval request for a point is filled with the point's colour. Its box is centred on the point, with side 2·2. |
| `Geo.Point.Draw` | src/geo.py:28-36 | Drawing a point appends exactly its dot request to the canvas log. |
| `Geo.Line.Draw` | src/geo.py:59-67 | Drawing a line appends exactly one line request, `Line.Record`. This is the argument list of `create_line`: the endpoints' coordinates, the line's colour and its width. |
| `Geo.Cell.WallLine` | src/geo.py:90-97 | Each wall's segment has the cell's colour and width 2, and joins two corners. Left and right segments are vertical and span the full height. Top and bottom segments are horizontal and span the full width. Left and top start at tl, right and bottom start at br. |
| `Geo.Cell.WallLines` | src/geo.py:87-97 | The cell emits as many segments as it has set wall flags, all of the cell's colour and width 2. |
| `Geo.Cell.Draw` | src/geo.py:87-97 | Drawing a cell appends to the canvas log the requests for its wall segments and nothing else. |
| `Geo.Cell.Center` | src/geo.py:99-105 | The centre is the midpoint of the corners: 2·centre = tl + br on each axis. It is a fresh point of the default colour. |
| `Geo.Cell.DrawMove` | src/geo.py:107-112 | The move line runs from this cell's midpoint to the target's midpoint, with width 2. Both endpoints are fresh points of the default colour "red". The line's colour is "grey" exactly when undo is set and "red" exactly when it is not. |
| `GeoProperties.AddPairOffsets` | src/geo.py:40-41 | Point(x, y) + (dx, dy) is Point(x+dx, y+dy) with colour "red". |
| `GeoProperties.AddPointsCommute` | src/geo.py:42-43 | a + b is the component-wise sum and equals b + a. |
| `GeoProperties.AddPairAgreesWithPoint` | src/geo.py:40-43 | Adding a point gives the same result as adding the pair of its coordinates. |
| `GeoProperties.AddPointsAssociate` | src/geo.py:42-43 | (a + b) + c equals a + (b + c). |
| `GeoProperties.AddPairUndone` | src/geo.py:40-41 | Adding (dx, dy) and then (-dx, -dy) restores the coordinates. Only the colour becomes "red". |
| `GeoProperties.AddIgnoresReceiverColor` | src/geo.py:24-47 | The receiver's colour never affects the result of an addition, success or error. |
| `GeoProperties.AddRejectsOtherOperands` | src/geo.py:44-47 | An operand of any other class fails. The message contains both 'Point' and the operand's quoted class name. |
| `GeoProperties.RenderedAt` | src/geo.py:59-67 | Drawing a batch of lines issues one request per line, in order. Request k is line k's record. |
| `GeoProperties.SideLinesMembers` | src/geo.py:87-97 | A segment is among the walls kept from a list of sides exactly when it is the segment of a listed side whose flag is set. |
| `GeoProperties.WallLinesFollowDrawOrder` | src/geo.py:87-97 | A cell's segments are its set walls, taken in the fixed order left, top, right, bottom. |
| `GeoProperties.WallLinesAreSetWalls` | src/geo.py:87-97 | Every emitted segment is the segment of a wall whose flag is set. |
| `GeoProperties.WallDrawnIffFlagSet` | src/geo.py:82-97 | For a rectangle of positive size, a wall's segment is emitted if and only if its flag is set. |
| `GeoProperties.WallLinesDistinct` | src/geo.py:90-97 | For a rectangle of positive size, the four wall segments are pairwise different. |
| `GeoProperties.DrawIssuesOneRequestPerWall` | src/geo.py:87-97 | Drawing a cell issues exactly as many requests as it has set walls. Each is a line request with the cell's colour and width 2. |
| `GeoProperties.DrawRequestsLieOnBoundary` | src/geo.py:90-97 | Every request a cell issues lies on its boundary. It is either a vertical left/right edge spanning the full height, or a horizontal top/bottom edge spanning the full width. |
| `GeoProperties.FreshCellDrawsFourWalls` | src/geo.py:82-97 | A cell built without flags has four walls and emits exactly the four stated segments, in order. |
| `GeoProperties.CornerCellExample` | src/main.py:42 | The driver's corner cell with its right and bottom walls open draws only its left and top edges. |
| `GeoProperties.CenterInside` | src/geo.py:99-105 | For a rectangle of positive size, the centre lies strictly inside it, equally far from both corners on each axis. |
| `GeoProperties.CenterFollowsTranslation` | src/geo.py:99-105 | Moving both corners by (dx, dy) with `+` moves the centre by (dx, dy). |
| `GeoProperties.CenterExample` | src/geo.py:99-105 | The cell from (0, 0) to (20, 20) has centre (10, 10). |
| `GeoProperties.DrawMoveUndoOnlyRecolors` | src/geo.py:107-112 | The undo flag changes only the colour, which becomes "grey". Undo defaults to false. |
| `GeoProperties.DrawMoveReversed` | src/geo.py:107-112 | The move line from b to a is the move line from a to b with its endpoints swapped. |
| `GeoProperties.DrawMoveToShiftedCell` | src/geo.py:107-112 | From a cell to the same cell moved by (dx, dy), the move line's direction is (dx, dy). |
| `GeoProperties.PathMovesExample` | src/main.py:48-71 | The driver's first two path steps are a grey segment from (110, 310) to (130, 310), then a red one from (130, 310) to (150, 310). |

## Left out

- The toolkit canvas itself (`create_oval`, `create_line`): `Surface.Canvas` is the log that stands for it. Its constructor, `CreateLine` and `CreateOval` only record each request; what appears on screen is not modelled.
- The window wrapper in src/gui.py and its draft copy in src/maze.py: window creation, the event loop, the close callback and redraw pacing are UI plumbing with no statable result.
- The field-only `Point` and `Line` drafts in src/maze.py: they duplicate the geometry records and have no behaviour.
- The demo driver src/main.py: it uses random colours and fixed drawing calls. Its cells serve only as the concrete examples above.
- Floating point: `center()` yields floats in the source. The model uses exact reals, so rounding of very large or odd coordinates is not modelled.
- Tuple operands: the model's `Pair` holds the tuple's first two items. A tuple shorter than two (an `IndexError` in the source) and items that are not numbers are not modelled.
- Reflected addition (`tuple + Point`): the source defines no `__radd__`, so Python itself raises. This is outside the library.
- Mutation and aliasing: the source classes are mutable dataclasses, and a wall segment shares the cell's corner object. The shown code mutates neither, so the model uses values.
- A maze grid, its generation and its solving: none of them exists in the core file.
