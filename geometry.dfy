/** Integer points and boxes in pixel space, and Python's truncating `int()` of a quotient. */
module Geometry {

  datatype Point = Point(x: int, y: int)

  /** An axis-aligned box given by two corners (x1, y1) and (x2, y2). */
  datatype Box = Box(x1: int, y1: int, x2: int, y2: int)

  /** `int(a / b)` in Python for a positive divisor: the quotient truncated toward zero. */
  function TruncDiv(a: int, b: int): (q: int)
    requires b > 0
    ensures 0 <= a ==> 0 <= q && q * b <= a < q * b + b
    ensures a < 0 ==> q <= 0 && q * b - b < a <= q * b
  {
    if a >= 0 then a / b else -((-a) / b)
  }

  /** The centre of a box, each coordinate `int((lo + hi) / 2)`. */
  function Centre(b: Box): (c: Point)
    ensures b.x1 <= b.x2 ==> b.x1 <= c.x <= b.x2
    ensures b.y1 <= b.y2 ==> b.y1 <= c.y <= b.y2
    ensures b.x1 + b.x2 >= 0 ==> 0 <= b.x1 + b.x2 - 2 * c.x <= 1
    ensures b.x1 + b.x2 < 0 ==> -1 <= b.x1 + b.x2 - 2 * c.x <= 0
    ensures b.y1 + b.y2 >= 0 ==> 0 <= b.y1 + b.y2 - 2 * c.y <= 1
    ensures b.y1 + b.y2 < 0 ==> -1 <= b.y1 + b.y2 - 2 * c.y <= 0
  {
    Point(TruncDiv(b.x1 + b.x2, 2), TruncDiv(b.y1 + b.y2, 2))
  }

  /** The example of the tracker's unit test: box (100, 100, 200, 200) has centre (150, 150). */
  lemma CentreExample()
    ensures Centre(Box(100, 100, 200, 200)) == Point(150, 150)
    ensures Centre(Box(300, 300, 400, 400)) == Point(350, 350)
  {
  }
}
