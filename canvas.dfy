/** The drawing surface, seen only through what is drawn on it.

    The toolkit canvas is an external collaborator; the model keeps the one
    thing the geometry library can observe about it: the ordered log of the
    `create_line` and `create_oval` requests it has received.  Nothing is ever
    removed from the log. */
module Surface {

  /** One drawing request, with the arguments the geometry library passes. */
  datatype Item =
    | LineItem(x1: real, y1: real, x2: real, y2: real, fill: string, width: int)
    | OvalItem(x1: real, y1: real, x2: real, y2: real, fill: string)

  class Canvas {
    /** Every request received so far, oldest first. */
    var items: seq<Item>

    constructor ()
      ensures items == []
    {
      items := [];
    }

    /** A straight segment from (x1, y1) to (x2, y2). */
    method CreateLine(x1: real, y1: real, x2: real, y2: real, fill: string, width: int)
      modifies this
      ensures items == old(items) + [LineItem(x1, y1, x2, y2, fill, width)]
    {
      items := items + [LineItem(x1, y1, x2, y2, fill, width)];
    }

    /** A filled oval inscribed in the box with corners (x1, y1) and (x2, y2). */
    method CreateOval(x1: real, y1: real, x2: real, y2: real, fill: string)
      modifies this
      ensures items == old(items) + [OvalItem(x1, y1, x2, y2, fill)]
    {
      items := items + [OvalItem(x1, y1, x2, y2, fill)];
    }
  }
}
