// Axis-aligned rectangles (the integer part of pygame's Rect) and the
// static terrain blocks of the level.
module Geometry {
  /** A rectangle with its top-left corner at (x, y). */
  datatype Rect = Rect(x: int, y: int, width: int, height: int)
  {
    function Left(): int { x }
    function Right(): int { x + width }
    function Top(): int { y }
    function Bottom(): int { y + height }

    /** Assigning `rect.bottom` moves the rectangle vertically, keeping its size. */
    function WithBottom(b: int): (r: Rect)
      ensures r.Bottom() == b
      ensures r.x == x && r.width == width && r.height == height
    {
      this.(y := b - height)
    }

    /** Assigning `rect.top` moves the rectangle vertically, keeping its size. */
    function WithTop(t: int): (r: Rect)
      ensures r.Top() == t
      ensures r.x == x && r.width == width && r.height == height
    {
      this.(y := t)
    }
  }

  /** A terrain block: an Object whose rectangle and image never change. */
  datatype Block = Block(rect: Rect)
}
