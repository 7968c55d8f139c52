/** Screen geometry shared by the drawable widgets, and the loop that writes
    one line of text into terminal cells. */
module Screen {
  import opened PyLists

  /** A rectangle of the terminal, from its upper-left to its bottom-right corner. */
  datatype ScreenArea = ScreenArea(upperLeftX: int, upperLeftY: int, bottomRightX: int, bottomRightY: int)

  /** One terminal cell written by a widget. */
  datatype Cell = Cell(x: int, y: int, ch: char)

  /** `for x, i in zip(range(fromX, toX), range(len(text)))`: writes `text[i]`
      at column `fromX + i` of row `y`, stopping at whichever range runs out
      first, so exactly `min(len(text), toX - fromX)` characters (none when the
      column range is empty) land on screen, from the start of `text`. */
  method DrawRow(text: string, fromX: int, toX: int, y: int) returns (cells: seq<Cell>)
    ensures |cells| == Min(|text|, Max(0, toX - fromX))
    ensures forall i :: 0 <= i < |cells| ==> cells[i] == Cell(fromX + i, y, text[i])
  {
    cells := [];
    var x, i := fromX, 0;
    while x < toX && i < |text|
      invariant 0 <= i <= |text| && x == fromX + i
      invariant i <= Max(0, toX - fromX)
      invariant |cells| == i
      invariant forall k :: 0 <= k < i ==> cells[k] == Cell(fromX + k, y, text[k])
    {
      cells := cells + [Cell(x, y, text[i])];
      x, i := x + 1, i + 1;
    }
  }
}
