/** The console as a value: the screen, the line being typed, and what each key, write and read does to them. */
module Keyboards {
  import opened Bytes
  import opened Memory
  import opened Editor
  import opened Screen

  /** The keyboard's globals, which all terminals share; the key buffer itself is saved with a terminal. */
  datatype Keyboard = Keyboard(typed: nat, temp: seq<byte>, oldTyped: nat, canRead: bool,
                               ctrl: bool, shift: bool, caps: bool)

  datatype Console = Console(display: Display, keys: seq<byte>, board: Keyboard)

  predicate IsBoard(b: Keyboard) {
    |b.temp| == 128 && b.typed <= 128 && b.oldTyped <= 128
  }

  predicate IsConsole(c: Console) {
    IsDisplay(c.display) && |c.keys| == 128 && IsBoard(c.board)
  }

  const BLANK_BOARD := Keyboard(0, Zeros(128), 0, false, false, false, false)

  // ---------------------------------------------------------------- keys

  /** flush: forget what was typed. */
  function Flushed(c: Console): Console {
    c.(keys := Zeros(128), board := c.board.(typed := 0))
  }

  /** clear_screen */
  function Wiped(c: Console): Console {
    c.(display := c.display.(video := Blanked(c.display.video), x := 0, y := 0), board := c.board.(ctrl := false))
  }

  function ReleaseOn(c: Console, scancode: byte): Console {
    var b := c.board;
    if b.shift && (scancode == L_SHIFT_RELEASE || scancode == R_SHIFT_RELEASE) then
      c.(board := b.(shift := false, ctrl := false))
    else if scancode == L_RELEASE && b.ctrl then Wiped(Flushed(c))
    else if AsksForTerminal(b.ctrl, scancode) then c
    else c.(board := b.(ctrl := false))
  }

  /** A cursor beside the screen goes to the next row. */
  function Normalised(d: Display): Display {
    if d.x > 79 then d.(x := 0, y := d.y + 1) else d
  }

  function EnterOn(c: Console): Console {
    Console(c.display.(x := 0, y := c.display.y + 1), Zeros(128),
            c.board.(temp := c.keys, oldTyped := c.board.typed, typed := 0, canRead := true))
  }

  /** One cell back and blank; at the top left corner there is nowhere to go, and nothing is taken off the line. */
  function RubOutOn(c: Console): Console
    requires IsConsole(c) && c.board.typed > 0
  {
    var (d, b) := (c.display, c.board);
    if d.x == 0 && d.y == 0 then c.(display := Place(d, SPACE))
    else
      var back := if d.x == 0 then d.(x := 79, y := d.y - 1) else d.(x := d.x - 1);
      c.(display := Place(back, SPACE), board := b.(typed := b.typed - 1))
  }

  function TypeOn(c: Console, scancode: byte): Console
    requires IsConsole(c) && c.board.typed < 128
  {
    var (d, b) := (c.display, c.board);
    var ch := KeyChar(scancode, b.shift || b.caps);
    var placed := Place(d, ch);
    Console(placed.(x := d.x + 1), c.keys[b.typed := ch], b.(typed := b.typed + 1))
  }

  /** A key pressed without control, with the cursor on a cell. */
  function PressOnCell(c: Console, scancode: byte): Console
    requires IsConsole(c)
  {
    var b := c.board;
    if scancode == CTRL then c.(board := b.(ctrl := true))
    else if scancode == CAPS_LOCK then c.(board := b.(caps := !b.caps))
    else if scancode == L_SHIFT || scancode == R_SHIFT then c.(board := b.(shift := true))
    else if scancode == ENTER then EnterOn(c)
    else if scancode == BACKSPACE && b.typed > 0 then RubOutOn(c)
    else if b.typed < 128 && scancode != BACKSPACE then TypeOn(c, scancode)
    else c
  }

  /** As it is printed, without the newlines, which are skipped. */
  const WARNING: string :=
    "Max number of processes reached OR Five processes are currently running which means the"
    + " second terminal cannot running another process "

  /** Control and F3 warns while all slots, or all but the last, are taken. */
  predicate Warns(ctrl: bool, scancode: byte, crowded: bool) {
    ctrl && scancode == F3 && crowded
  }

  function PressOn(c: Console, scancode: byte, crowded: bool): Console
    requires IsConsole(c)
  {
    if Warns(c.board.ctrl, scancode, crowded) then c.(display := WriteAll(c.display, Chars(WARNING)))
    else if c.board.ctrl then c
    else
      var e := PressOnCell(c.(display := Normalised(c.display)), scancode);
      e.(display := Scroll(e.display))
  }

  /** One keyboard interrupt. */
  function KeyOn(c: Console, scancode: byte, crowded: bool): (e: Console)
    requires IsConsole(c)
    ensures IsConsole(e)
  {
    if scancode >= 0x80 then ReleaseOn(c, scancode) else PressOn(c, scancode, crowded)
  }

  // ---------------------------------------------------------------- the line

  /** The line being typed, and the committed one. */
  function LineOf(c: Console): (e: Line)
    requires IsConsole(c)
    ensures |e.text| <= 128
  {
    var b := c.board;
    Line(c.keys[..b.typed], b.shift, b.caps, b.ctrl, if b.canRead then Some(b.temp[..b.oldTyped]) else None)
  }

  /** A rub-out with something typed, but the cursor at the top left corner. */
  predicate Cornered(c: Console, scancode: byte) {
    !c.board.ctrl && scancode == BACKSPACE && c.board.typed > 0 && c.display.x == 0 && c.display.y == 0
  }

  lemma PressEdits(c: Console, scancode: byte)
    requires IsConsole(c) && scancode < 0x80 && !c.board.ctrl
    ensures LineOf(PressOnCell(c, scancode)) == Press(LineOf(c), scancode) <==> !Cornered(c, scancode)
  {
    var (b, e) := (c.board, PressOnCell(c, scancode));
    hide KeyChar, Place;
    if scancode == ENTER {
      assert LineOf(e).text == [];
    } else if scancode == BACKSPACE {
      assert b.typed > 0 ==> c.keys[..b.typed][..b.typed - 1] == c.keys[..b.typed - 1];
    } else if b.typed < 128 && scancode !in {CTRL, CAPS_LOCK, L_SHIFT, R_SHIFT} {
      var ch := KeyChar(scancode, b.shift || b.caps);
      assert c.keys[b.typed := ch][..b.typed + 1] == c.keys[..b.typed] + [ch];
    }
  }

  /** Each key edits the line as it should, exactly if it is not a rub-out in the corner. */
  lemma KeyEdits(c: Console, scancode: byte, crowded: bool)
    requires IsConsole(c)
    ensures LineOf(KeyOn(c, scancode, crowded)) == Key(LineOf(c), scancode) <==> !Cornered(c, scancode)
  {
    hide PressOnCell, Normalised, Scroll, WriteAll, Chars, KeyChar;
    if scancode >= 0x80 {
      assert c.keys[..0] == [];
    } else if !c.board.ctrl {
      var n := c.(display := Normalised(c.display));
      NormalisedCorner(c, scancode);
      assert IsConsole(n) && LineOf(n) == LineOf(c);
      PressEdits(n, scancode);
    }
  }

  lemma NormalisedCorner(c: Console, scancode: byte)
    ensures IsDisplay(c.display) ==> IsDisplay(Normalised(c.display))
    ensures Cornered(c.(display := Normalised(c.display)), scancode) <==> Cornered(c, scancode)
  {
  }

  /** The cursor on a cell of the screen, or at the start of row 25. */
  predicate OnCell(d: Display) {
    d.x < 80 && d.y <= 25 && (d.y == 25 ==> d.x == 0)
  }

  lemma PressMoves(c: Console, scancode: byte)
    requires IsConsole(c) && !c.display.lost && !c.board.ctrl && scancode < 0x80 && OnCell(c.display)
    ensures var d := PressOnCell(c, scancode).display;
            && !d.lost && (d.x, d.y) == Moved(LineOf(c), c.display.x, c.display.y, scancode)
            && d.y <= 26 && d.x <= 80 && (d.y == 25 ==> d.x <= 1) && (d.y == 26 ==> d.x == 0)
            && d.video[4002..] == c.display.video[4002..]
  {
    MovedCases(LineOf(c), c.display.x, c.display.y, scancode);
    var (x, y) := (c.display.x, c.display.y);
    CellBehind(c.display.video, Here(c.display), KeyChar(scancode, c.board.shift || c.board.caps));
    if x > 0 || y > 0 {
      CellBehind(c.display.video, 80 * y + x - 1, SPACE);
    }
    CellBehind(c.display.video, 0, SPACE);
    hide KeyChar, Moved, StoreCell;
  }

  lemma CellBehind(v: seq<byte>, n: nat, ch: byte)
    requires n <= 2000 && |v| == 0x4000
    ensures StoreCell(v, n, ch)[4002..] == v[4002..]
  {
  }

  lemma ScrollBehind(d: Display)
    requires IsDisplay(d)
    ensures Scroll(d).video[4002..] == d.video[4002..]
  {
  }

  /** Where a key takes the cursor, and that it stores nothing behind the screen. */
  lemma KeyMoves(c: Console, scancode: byte, crowded: bool)
    requires IsConsole(c) && !Warns(c.board.ctrl, scancode, crowded) && CursorOk(c.display.x, c.display.y)
    requires !c.display.lost
    ensures var d := KeyOn(c, scancode, crowded).display;
            && !d.lost && CursorOk(d.x, d.y) && (d.x, d.y) == CursorAfter(LineOf(c), c.display.x, c.display.y, scancode)
            && d.video[4002..] == c.display.video[4002..]
  {
    if scancode >= 0x80 {
      ReleaseMoves(c, scancode);
    } else if !c.board.ctrl {
      var n := c.(display := Normalised(c.display));
      assert IsConsole(n) && LineOf(n) == LineOf(c) && OnCell(n.display);
      PressMoves(n, scancode);
      ScrollBehind(PressOnCell(n, scancode).display);
      hide PressOnCell, Moved, Scrolled, LineOf, WriteAll;
    }
  }

  lemma ReleaseMoves(c: Console, scancode: byte)
    requires IsConsole(c) && CursorOk(c.display.x, c.display.y) && !c.display.lost && scancode >= 0x80
    ensures var d := ReleaseOn(c, scancode).display;
            && !d.lost && CursorOk(d.x, d.y) && (d.x, d.y) == CursorAfter(LineOf(c), c.display.x, c.display.y, scancode)
            && d.video[4002..] == c.display.video[4002..]
  {
    var v := Blanked(c.display.video);
    assert v[4002..] == c.display.video[4002..];
    hide Blanked, KeyChar;
  }

  // ---------------------------------------------------------------- writes and reads

  /** terminal_write */
  function WriteOn(c: Console, bytes: seq<byte>): (e: Console)
    requires IsConsole(c)
    ensures IsConsole(e)
  {
    Flushed(c.(display := WriteAll(c.display, bytes)))
  }

  /** How many bytes terminal_read copies. */
  function Copied(b: Keyboard, n: nat): nat {
    if b.typed + 1 < n then b.oldTyped + 1 else n
  }

  /** What terminal_read leaves in a buffer of n bytes or behind it; `beyond` is what lies behind temp_buffer. */
  function LineBytes(b: Keyboard, n: nat, beyond: byte): (r: seq<byte>)
    requires IsBoard(b) && b.oldTyped < 128
    ensures |r| == if Copied(b, n) < n then n else Copied(b, n)
  {
    var copied := (b.temp[b.oldTyped := NEWLINE] + [beyond])[..Copied(b, n)];
    if |copied| < n then copied + Zeros(n - |copied|) else copied
  }

  /** The committed line is handed out, and what was typed since is forgotten. */
  function TakeOn(c: Console): (e: Console)
    requires IsConsole(c)
    ensures IsConsole(e)
  {
    var b := c.board;
    var e := Flushed(c);
    e.(board := e.board.(temp := if b.oldTyped < 128 then b.temp[b.oldTyped := NEWLINE] else b.temp, canRead := false))
  }

  /** With room for what is typed since and for the line, a read gives the committed line, a newline and NULs. */
  lemma LineIsRead(c: Console, n: nat, beyond: byte)
    requires IsConsole(c) && c.board.canRead && c.board.oldTyped < 128
    requires c.board.typed + 1 < n && c.board.oldTyped + 1 <= n
    ensures LineBytes(c.board, n, beyond) == Pad(LineOf(c).committed.value + [NEWLINE], n)
  {
    var b := c.board;
    var temp := b.temp[b.oldTyped := NEWLINE] + [beyond];
    assert temp[..b.oldTyped + 1] == b.temp[..b.oldTyped] + [NEWLINE];
  }

  // ---------------------------------------------------------------- any interleaving

  /** What reaches the console: keys, output of programs, and reads of the line. */
  datatype Input = Stroke(scancode: byte, crowded: bool) | Output(bytes: seq<byte>) | Take

  function InputOn(c: Console, i: Input): (e: Console)
    requires IsConsole(c)
    ensures IsConsole(e)
  {
    match i
    case Stroke(scancode, crowded) => KeyOn(c, scancode, crowded)
    case Output(bytes) => WriteOn(c, bytes)
    case Take => if c.board.canRead && c.board.oldTyped < 128 then TakeOn(c) else c
  }

  function InputsOn(c: Console, inputs: seq<Input>): (e: Console)
    requires IsConsole(c)
    ensures IsConsole(e)
    decreases |inputs|
  {
    if inputs == [] then c else
    InputOn(InputsOn(c, inputs[..|inputs| - 1]), inputs[|inputs| - 1])
  }

  /**
   * What should happen to the line: output forgets what was typed, and a read consumes what was committed
   * too, if there is a line and it is not a full one, for whose newline there is no place.
   */
  function InputOnLine(e: Line, i: Input): (r: Line)
    requires |e.text| <= 128
    ensures |r.text| <= 128
  {
    match i
    case Stroke(scancode, _) => Key(e, scancode)
    case Output(_) => e.(text := [])
    case Take => if e.committed.Some? && |e.committed.value| < 128 then e.(text := [], committed := None) else e
  }

  function InputsOnLine(e: Line, inputs: seq<Input>): (r: Line)
    requires |e.text| <= 128
    ensures |r.text| <= 128
    decreases |inputs|
  {
    if inputs == [] then e else
    InputOnLine(InputsOnLine(e, inputs[..|inputs| - 1]), inputs[|inputs| - 1])
  }

  /** At least as many cells before the cursor as there are typed characters; beside the screen, in its row. */
  predicate HasRoom(d: Display, typed: nat) {
    typed <= 80 * d.y + Min(d.x, 80)
  }

  /** The cursor is never fewer cells from the corner than there are typed characters, so a rub-out can go back. */
  predicate Editing(c: Console) {
    IsConsole(c) && !c.display.lost && CursorOk(c.display.x, c.display.y) && HasRoom(c.display, c.board.typed)
  }

  lemma ByteKeepsRoom(d: Display, ch: byte, typed: nat)
    requires IsDisplay(d) && CursorOk(d.x, d.y) && !d.lost && ch >= 32 && typed <= 128 && HasRoom(d, typed)
    ensures var e := WriteByte(d, ch);
            !e.lost ==> HasRoom(e, typed)
  {
    hide Scrolled, StoreCell;
  }

  lemma {:induction false} TextKeepsRoom(d: Display, text: seq<byte>, typed: nat)
    requires IsDisplay(d) && CursorOk(d.x, d.y) && !d.lost && AllPrintable(text) && typed <= 128 && HasRoom(d, typed)
    ensures var e := WriteAll(d, text);
            !e.lost ==> CursorOk(e.x, e.y) && HasRoom(e, typed)
    decreases |text|
  {
    WriteReach(d, text);
    if text != [] {
      var front := text[..|text| - 1];
      TextKeepsRoom(d, front, typed);
      WriteReach(d, front);
      hide Overwrite, WriteByte, Spilt;
      if WriteAll(d, front).lost {
        LostStays(WriteAll(d, front), text[|text| - 1]);
      } else {
        ByteKeepsRoom(WriteAll(d, front), text[|text| - 1], typed);
      }
    }
  }

  lemma WarningKeepsRoom(c: Console)
    requires Editing(c)
    ensures var e := c.(display := WriteAll(c.display, Chars(WARNING)));
            !e.display.lost ==> Editing(e)
  {
    TextKeepsRoom(c.display, Chars(WARNING), c.board.typed);
  }

  lemma KeyKeepsRoom(c: Console, scancode: byte, crowded: bool)
    requires Editing(c) && !Warns(c.board.ctrl, scancode, crowded)
    ensures var e := KeyOn(c, scancode, crowded);
            HasRoom(e.display, e.board.typed)
  {
    if scancode < 0x80 && !c.board.ctrl {
      MovedCases(LineOf(c), Normalised(c.display).x, Normalised(c.display).y, scancode);
    }
    KeyMoves(c, scancode, crowded);
    KeyCounts(c, scancode, crowded);
    hide KeyOn, Moved, EffectOf;
  }

  /** How a key changes the number of typed characters. */
  lemma KeyCounts(c: Console, scancode: byte, crowded: bool)
    requires IsConsole(c)
    ensures var n := KeyOn(c, scancode, crowded).board.typed;
            match EffectOf(ModeOf(LineOf(c)), scancode)
            case Append(_) => n == c.board.typed + 1
            case RubOut => n == if c.board.typed == 0 || Cornered(c, scancode) then c.board.typed else c.board.typed - 1
            case Erase => n == 0
            case Nothing => n == c.board.typed
  {
    hide KeyChar, Place, Scrolled, WriteAll, Chars;
  }

  lemma KeepsEditing(c: Console, i: Input)
    requires Editing(c)
    ensures InputOn(c, i).display.lost || Editing(InputOn(c, i))
  {
    match i
    case Stroke(scancode, crowded) =>
      if Warns(c.board.ctrl, scancode, crowded) {
        WarningKeepsRoom(c);
      } else {
        KeyMoves(c, scancode, crowded);
        KeyKeepsRoom(c, scancode, crowded);
      }
    case Output(bytes) => WriteReach(c.display, bytes);
    case Take =>
  }

  lemma {:induction false} WriteStaysLost(d: Display, bytes: seq<byte>)
    requires IsDisplay(d) && d.lost
    ensures WriteAll(d, bytes).lost
    decreases |bytes|
  {
    if bytes != [] {
      WriteStaysLost(d, bytes[..|bytes| - 1]);
    }
  }

  lemma StaysLost(c: Console, i: Input)
    requires IsConsole(c) && c.display.lost
    ensures InputOn(c, i).display.lost
  {
    match i
    case Stroke(scancode, crowded) =>
      WriteStaysLost(c.display, Chars(WARNING));
      hide KeyChar, WriteAll, Chars;
    case Output(bytes) => WriteStaysLost(c.display, bytes);
    case Take =>
  }

  lemma InputEdits(c: Console, i: Input)
    requires Editing(c)
    ensures LineOf(InputOn(c, i)) == InputOnLine(LineOf(c), i)
  {
    if i.Stroke? {
      KeyEdits(c, i.scancode, i.crowded);
      hide KeyOn, Key;
      assert c.board.typed == 0 || !(c.display.x == 0 && c.display.y == 0);
    } else {
      hide WriteAll;
    }
  }

  /**
   * Over any interleaving of keys, output and reads, the line is what it should be and a rub-out always has a
   * cell to go back to, unless some output has run out of video memory.
   */
  lemma {:induction false} InterleavingsEdit(c: Console, inputs: seq<Input>)
    requires Editing(c)
    ensures var e := InputsOn(c, inputs);
            !e.display.lost ==> Editing(e) && LineOf(e) == InputsOnLine(LineOf(c), inputs)
    decreases |inputs|
  {
    if inputs != [] {
      var (front, last) := (inputs[..|inputs| - 1], inputs[|inputs| - 1]);
      InterleavingsEdit(c, front);
      var f := InputsOn(c, front);
      hide InputOn, InputOnLine, LineOf;
      if f.display.lost {
        StaysLost(f, last);
      } else {
        KeepsEditing(f, last);
        if !InputOn(f, last).display.lost {
          InputEdits(f, last);
        }
      }
    }
  }

  function Strokes(scancodes: seq<byte>): (inputs: seq<Input>)
    ensures |inputs| == |scancodes|
  {
    seq(|scancodes|, i requires 0 <= i < |scancodes| => Stroke(scancodes[i], false))
  }

  lemma InputsSnoc(c: Console, inputs: seq<Input>, i: Input)
    requires IsConsole(c)
    ensures InputsOn(c, inputs + [i]) == InputOn(InputsOn(c, inputs), i)
  {
    assert (inputs + [i])[..|inputs|] == inputs;
  }

  lemma StrokesSnoc(c: Console, scancodes: seq<byte>, scancode: byte)
    requires IsConsole(c)
    ensures InputsOn(c, Strokes(scancodes + [scancode])) == KeyOn(InputsOn(c, Strokes(scancodes)), scancode, false)
  {
    assert Strokes(scancodes + [scancode]) == Strokes(scancodes) + [Stroke(scancode, false)];
    InputsSnoc(c, Strokes(scancodes), Stroke(scancode, false));
  }

  /** Keys alone: the line and the cursor, however many there are. */
  lemma {:induction false} StrokesEdit(c: Console, scancodes: seq<byte>)
    requires Editing(c)
    ensures var e := InputsOn(c, Strokes(scancodes));
            && Editing(e) && LineOf(e) == Keys(LineOf(c), scancodes)
            && (e.display.x, e.display.y) == CursorAfterAll(LineOf(c), c.display.x, c.display.y, scancodes)
            && e.display.video[4002..] == c.display.video[4002..]
    decreases |scancodes|
  {
    hide LineOf, Key, KeyOn, CursorAfter, IsConsole, HasRoom, CursorOk;
    if scancodes != [] {
      var (front, last) := (scancodes[..|scancodes| - 1], scancodes[|scancodes| - 1]);
      StrokesEdit(c, front);
      assert scancodes == front + [last];
      StrokesSnoc(c, front, last);
      KeysSnoc(LineOf(c), front, last);
      var e := InputsOn(c, Strokes(front));
      hide InputsOn, Strokes;
      KeepsEditing(e, Stroke(last, false));
      InputEdits(e, Stroke(last, false));
      KeyMoves(e, last, false);
      hide Keys;
    }
  }

  // ---------------------------------------------------------------- what is shown depends on what was shown

  predicate SameConsole(c: Console, e: Console) {
    SameShown(c.display, e.display) && c.keys == e.keys && c.board == e.board
  }

  lemma KeyShown(c: Console, e: Console, scancode: byte, crowded: bool)
    requires IsConsole(c) && IsConsole(e) && SameConsole(c, e)
    ensures SameConsole(KeyOn(c, scancode, crowded), KeyOn(e, scancode, crowded))
  {
    if scancode >= 0x80 {
      BlankedShown(c.display.video, e.display.video);
      hide Blanked;
    } else if Warns(c.board.ctrl, scancode, crowded) {
      WriteShown(c.display, e.display, Chars(WARNING));
      hide WriteAll, Chars;
    } else if !c.board.ctrl {
      var (c1, e1) := (c.(display := Normalised(c.display)), e.(display := Normalised(e.display)));
      assert IsConsole(c1) && IsConsole(e1) && SameConsole(c1, e1);
      PressShown(c1, e1, scancode);
      ScrollShown(PressOnCell(c1, scancode).display, PressOnCell(e1, scancode).display);
      hide PressOnCell, Scroll, Normalised;
    }
  }

  lemma CursorShown(d: Display, e: Display, x: nat, y: nat)
    requires SameShown(d, e)
    ensures e.x == d.x && e.y == d.y && SameShown(d.(x := x, y := y), e.(x := x, y := y))
  {
  }

  lemma PressShown(c: Console, e: Console, scancode: byte)
    requires IsConsole(c) && IsConsole(e) && SameConsole(c, e)
    ensures SameConsole(PressOnCell(c, scancode), PressOnCell(e, scancode))
  {
    hide Place, KeyChar, SameShown;
    var (d, f) := (c.display, e.display);
    CursorShown(d, f, 0, d.y + 1);
    if scancode == BACKSPACE && c.board.typed > 0 {
      var (x, y) := if d.x == 0 && d.y == 0 then (0, 0) else if d.x == 0 then (79, d.y - 1) else (d.x - 1, d.y);
      CursorShown(d, f, x, y);
      PlaceShown(d.(x := x, y := y), f.(x := x, y := y), SPACE);
    } else {
      var ch := KeyChar(scancode, c.board.shift || c.board.caps);
      PlaceShown(d, f, ch);
      CursorShown(Place(d, ch), Place(f, ch), d.x + 1, Place(d, ch).y);
    }
  }
}
