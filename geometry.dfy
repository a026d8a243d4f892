/** Board positions: the `(x, y)` tuples of the game, with x the column and
    y the row. */
module Geometry {

  datatype Pos = Pos(x: int, y: int)

  predicate OnBoard(p: Pos, height: int, width: int) {
    0 <= p.x < width && 0 <= p.y < height
  }

  /** `p` moved by the displacement `d`. */
  function Shift(p: Pos, d: (int, int)): Pos {
    Pos(p.x + d.0, p.y + d.1)
  }

  function Dist(a: int, b: int): nat {
    if a < b then b - a else a - b
  }

  function Manhattan(a: Pos, b: Pos): nat {
    Dist(a.x, b.x) + Dist(a.y, b.y)
  }

  predicate Distinct(s: seq<Pos>) {
    forall i, j :: 0 <= i < j < |s| ==> s[i] != s[j]
  }

  /** The row-major number of an on-board cell lies in `0 .. height * width`. */
  lemma CellIndexInRange(p: Pos, height: int, width: int)
    requires OnBoard(p, height, width)
    ensures 0 <= p.y * width + p.x < height * width
  {
    assert p.y * width + p.x < (p.y + 1) * width;
    assert (height - (p.y + 1)) * width >= 0;
  }
}
