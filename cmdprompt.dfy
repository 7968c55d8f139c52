/** The command prompt bar at the bottom of the kanban board: a one-line edit
    buffer that starts with the prompt marker, takes typed characters, spaces
    and backspaces, and is reset when the line is evaluated. */
module CommandPrompt {
  import opened PyLists
  import opened Screen

  /** What a fresh or freshly evaluated buffer holds. */
  const DefaultCmdPrompt: string := ">> "

  /** Outcome of drawing the prompt. `draw` fails for a buffer wider than the
      bar, because the branch meant to trim it reads the variable it is about
      to assign (Python raises `UnboundLocalError`). */
  datatype DrawResult =
    | Drawn(cells: seq<Cell>, cursorX: int, cursorY: int)
    | UnboundLocalError

  /** Columns available for text: the bar's width less its two border columns. */
  function DisplayWidth(area: ScreenArea): int {
    (area.bottomRightX - area.upperLeftX) - 2
  }

  /** The buffer can be drawn as it is. */
  predicate Fits(buffer: string, area: ScreenArea) {
    |buffer| <= DisplayWidth(area)
  }

  class CmdPrompt {
    var buffer: string
    var area: ScreenArea

    constructor (area: ScreenArea)
      ensures buffer == DefaultCmdPrompt && this.area == area
    {
      this.area := area;
      buffer := DefaultCmdPrompt;
    }

    /** Appends one typed character. */
    method ReceiveInput(c: char)
      modifies this`buffer
      ensures buffer == old(buffer) + [c]
    {
      buffer := buffer + [c];
    }

    /** Python's `buffer[:-1]`: drops the last character, if any. Nothing
        protects the prompt marker, which backspaces erase like typed text. */
    method ReceiveBackspace()
      modifies this`buffer
      ensures buffer == Prefix(old(buffer), -1)
      ensures old(buffer) != [] ==> buffer + [old(buffer)[|old(buffer)| - 1]] == old(buffer)
      ensures old(buffer) == [] ==> buffer == []
    {
      buffer := Prefix(buffer, -1);
    }

    /** Appends one space, exactly as typing `' '` would. */
    method ReceiveSpace()
      modifies this`buffer
      ensures buffer == old(buffer) + [' ']
    {
      buffer := buffer + " ";
    }

    /** Resets the buffer to the bare prompt, whatever it held; so evaluating
        twice leaves the same state as evaluating once. */
    method EvaluateBuffer()
      modifies this`buffer
      ensures buffer == DefaultCmdPrompt
    {
      buffer := DefaultCmdPrompt;
    }

    /** The text and cursor part of `draw`. When the buffer fits, all of it is
        written on the row above the bottom border, one character per column
        from just right of the left border, and the cursor sits right after it,
        strictly between the borders. When it does not fit, drawing fails. */
    method Draw() returns (r: DrawResult)
      ensures r.UnboundLocalError? <==> !Fits(buffer, area)
      ensures r.Drawn? ==>
        |r.cells| == |buffer| &&
        (forall i :: 0 <= i < |r.cells| ==>
           r.cells[i] == Cell(area.upperLeftX + 1 + i, area.bottomRightY - 1, buffer[i]))
      ensures r.Drawn? ==>
        r.cursorY == area.bottomRightY - 1 &&
        r.cursorX == area.upperLeftX + |buffer| + 1 &&
        area.upperLeftX < r.cursorX < area.bottomRightX
    {
      var tlx, brx, bry := area.upperLeftX, area.bottomRightX, area.bottomRightY;
      var displayWidth := (brx - tlx) - 2;
      if |buffer| > displayWidth {
        return UnboundLocalError;
      }
      var displayBuffer := buffer;
      var y := bry - 1;
      var cells := DrawRow(displayBuffer, tlx + 1, brx, y);
      r := Drawn(cells, tlx + |displayBuffer| + 1, y);
    }
  }

  /** Every prompt bar, however wide, fails to draw once the user has typed
      `DisplayWidth(area) - 2` characters after the marker. */
  lemma {:induction false} TypingOverflowsEveryBar(area: ScreenArea, typed: string)
    requires |typed| == Max(0, DisplayWidth(area) - 2)
    ensures !Fits(DefaultCmdPrompt + typed, area)
  {
  }

  /** The evidently intended trimming: keep the last `width` characters, the
      ones just typed, when the buffer is wider than the bar. */
  function ClippedDisplayBuffer(buffer: string, width: int): (shown: string)
    ensures |shown| == Min(|buffer|, Max(0, width))
    ensures shown == buffer[|buffer| - |shown|..]
  {
    if |buffer| > width then buffer[|buffer| - Max(0, width)..] else buffer
  }

  /** With the trimming in place the cursor stays inside the bar for any
      buffer, and the most recently typed character stays visible. */
  lemma ClippedCursorInsideBar(buffer: string, area: ScreenArea)
    requires DisplayWidth(area) >= 0
    ensures var shown := ClippedDisplayBuffer(buffer, DisplayWidth(area));
      area.upperLeftX < area.upperLeftX + |shown| + 1 < area.bottomRightX &&
      (buffer != [] && DisplayWidth(area) > 0 ==> shown[|shown| - 1] == buffer[|buffer| - 1])
  {
  }

  /** A backspace undoes the character typed just before it. */
  lemma BackspaceUndoesInput(buffer: string, c: char)
    ensures Prefix(buffer + [c], -1) == buffer
  {
  }

  /** The buffer after `n` backspaces. */
  function Backspaces(buffer: string, n: nat): string {
    if n == 0 then buffer else Prefix(Backspaces(buffer, n - 1), -1)
  }

  /** Each backspace shortens the buffer by one until it is empty, and what
      is left is always the start of the original buffer. */
  lemma {:induction false} BackspacesShorten(buffer: string, n: nat)
    ensures var r := Backspaces(buffer, n);
      |r| == Max(0, |buffer| - n) && r == buffer[..|r|]
  {
    if n > 0 {
      BackspacesShorten(buffer, n - 1);
    }
  }

  /** The prompt marker is not protected: as many backspaces as the buffer
      has characters erase all of it, marker included. */
  lemma BackspacesEraseMarker(buffer: string)
    ensures Backspaces(buffer, |buffer|) == ""
  {
    BackspacesShorten(buffer, |buffer|);
  }
}
