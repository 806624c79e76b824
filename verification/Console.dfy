/**
 * The text console: its output routines and key handler over video memory, and the line that programs read.
 */
module Console {
  import opened Bytes
  import opened Memory
  import opened Page
  import opened Editor
  import opened Screen
  import opened Keyboards
  import opened Typing

  /** The first n bytes of the screen at `base` are those of the next row, or blank. */
  ghost predicate MovedUp(was: seq<byte>, v: seq<byte>, base: nat, n: nat) {
    && |v| == |was| && base + 0x4000 <= |v| && n <= 4000
    && (forall j :: 0 <= j < base ==> v[j] == was[j])
    && (forall j :: base + n <= j < |v| ==> v[j] == was[j])
    && (forall j :: base <= j < base + n ==> v[j] == NextRowByte(was, base, j))
  }

  ghost function NextRowByte(was: seq<byte>, base: nat, j: nat): byte
    requires base <= j < base + 4000 && base + 0x4000 <= |was|
  {
    if (j - base) % 2 == 1 then ATTRIB else if j - base < 3840 then was[j + 160] else SPACE
  }

  lemma MovedNext(was: seq<byte>, v: seq<byte>, base: nat, n: nat)
    requires MovedUp(was, v, base, n) && n % 2 == 0 && n < 4000
    ensures n < 3840 ==> v[base + n + 160] == NextRowByte(was, base, base + n)
    ensures MovedUp(was, v[base + n := NextRowByte(was, base, base + n)][base + n + 1 := ATTRIB], base, n + 2)
  {
  }

  lemma NothingMoved(was: seq<byte>, base: nat)
    requires base + 0x4000 <= |was|
    ensures MovedUp(was, was, base, 0)
  {
  }

  lemma MovedAll(was: seq<byte>, v: seq<byte>, base: nat)
    requires MovedUp(was, v, base, 4000)
    ensures v[..base] == was[..base] && v[base + 0x4000..] == was[base + 0x4000..]
    ensures v[base..base + 0x4000] == Scrolled(was[base..base + 0x4000])
  {
  }

  class Terminal {
    /** The memory that has video memory's four pages at `base`. */
    const video: array<byte>
    const base: nat
    const inputBuffer: array<byte>
    const tempBuffer: array<byte>
    var cursorX: nat
    var cursorY: nat
    /** A store outside the four pages has faulted; nothing more is stored. */
    var faulted: bool
    var lengthTyped: nat
    var oldLengthTyped: nat
    var canRead: bool
    var ctrlPressed: bool
    var shiftFlag: bool
    var capsFlag: bool

    ghost predicate Shape()
      reads this
    {
      && base + 0x4000 <= video.Length && inputBuffer.Length == 128 && tempBuffer.Length == 128
      && video != inputBuffer && video != tempBuffer && inputBuffer != tempBuffer
      && lengthTyped <= 128 && oldLengthTyped <= 128
    }

    ghost function Shown(): (d: Display)
      requires Shape()
      reads this, video
      ensures IsDisplay(d)
    {
      Display(video[base..base + 0x4000], cursorX, cursorY, faulted)
    }

    ghost function Board(): (b: Keyboard)
      requires Shape()
      reads this, tempBuffer
      ensures IsBoard(b)
    {
      Keyboards.Keyboard.Keyboard(lengthTyped, tempBuffer[..], oldLengthTyped, canRead,
                                  ctrlPressed, shiftFlag, capsFlag)
    }

    ghost function Value(): (c: Console)
      requires Shape()
      reads this, video, inputBuffer, tempBuffer
      ensures IsConsole(c)
    {
      Keyboards.Console(Shown(), inputBuffer[..], Board())
    }

    /** The memory around the four pages. */
    ghost function Outside(): (seq<byte>, seq<byte>)
      requires Shape()
      reads this, video
    {
      (video[..base], video[base + 0x4000..])
    }

    ghost predicate Working()
      reads this
    {
      Shape() && !faulted && CursorOk(cursorX, cursorY)
    }

    /** Zeroed globals: nothing typed, no modifier held, nothing to read. */
    constructor (video: array<byte>, base: nat)
      requires base + 0x4000 <= video.Length
      ensures this.video == video && this.base == base && fresh(inputBuffer) && fresh(tempBuffer)
      ensures Shape() && !faulted && Value().keys == Zeros(128) && Board() == BLANK_BOARD
      ensures Editing(Value()) && LineOf(Value()) == EMPTY && cursorX == 0 && cursorY == 0
    {
      this.video, this.base := video, base;
      inputBuffer := new byte[128](i => 0);
      tempBuffer := new byte[128](i => 0);
      cursorX, cursorY, faulted, lengthTyped, oldLengthTyped := 0, 0, false, 0, 0;
      canRead, ctrlPressed, shiftFlag, capsFlag := false, false, false, false;
    }

    /** initialize_terminal: a blank screen, the cursor at its top left, nothing typed. */
    method Initialize()
      requires Shape()
      modifies video, this`cursorX, this`cursorY, this`lengthTyped
      ensures Shape() && Outside() == old(Outside())
      ensures Value() == old(Value()).(display := Shown(), board := old(Board()).(typed := 0))
      ensures Shown() == Display(Blanked(old(Shown()).video), 0, 0, faulted)
      ensures TextOf(Shown()) == Text(seq(25, _ => Blank()), 0, 0)
      ensures !faulted ==> Editing(Value()) && LineOf(Value()) == old(LineOf(Value())).(text := [])
    {
      cursorX := 0;
      cursorY := 0;
      lengthTyped := 0;
      Clear();
    }

    // -------------------------------------------------------------- output

    /** clear: blank cells everywhere on the screen. */
    method Clear()
      requires Shape()
      modifies video
      ensures Outside() == old(Outside())
      ensures Shown() == old(Shown()).(video := Blanked(old(Shown()).video))
      ensures RowsOf(Shown().video) == seq(25, _ => Blank()) && PlainAttributes(Shown().video)
    {
      var i := 0;
      while i < 25 * 80
        invariant 0 <= i <= 2000
        invariant forall j :: 0 <= j < video.Length ==>
                    video[j] == if !(base <= j < base + 2 * i) then old(video[j])
                                else if (j - base) % 2 == 0 then SPACE else ATTRIB
      {
        video[base + 2 * i] := SPACE;
        video[base + 2 * i + 1] := ATTRIB;
        i := i + 1;
      }
      assert video[..base] == old(video[..base]) && video[base + 0x4000..] == old(video[base + 0x4000..]);
      BlankedRows(old(Shown()).video);
    }

    /** The cell at the cursor, and its attribute. */
    method PlaceHere(c: byte)
      requires Shape()
      modifies video, this`faulted
      ensures Outside() == old(Outside()) && Shown() == Place(old(Shown()), c)
    {
      if faulted || 80 * cursorY + cursorX >= 8192 {
        faulted := true;
      } else {
        video[base + (80 * cursorY + cursorX) * 2] := c;
        video[base + (80 * cursorY + cursorX) * 2 + 1] := ATTRIB;
      }
    }

    /** scroll_if_needed: move the rows up in place when the cursor has left the bottom row. */
    method ScrollIfNeeded()
      requires Shape()
      modifies video, this`cursorX, this`cursorY
      ensures Outside() == old(Outside()) && Shown() == Scroll(old(Shown()))
    {
      if !faulted && cursorY >= 25 {
        MoveRowsUp();
        cursorX := 0;
        cursorY := cursorY - 1;
      }
    }

    /** A character and its attribute. */
    method Store(at: nat, c: byte)
      requires at + 1 < video.Length
      modifies video
      ensures video[..] == old(video[..])[at := c][at + 1 := ATTRIB]
    {
      video[at] := c;
      video[at + 1] := ATTRIB;
    }

    method MoveRowsUp()
      requires Shape()
      modifies video
      ensures Outside() == old(Outside()) && Shown() == old(Shown()).(video := Scrolled(old(Shown()).video))
    {
      ghost var was := video[..];
      NothingMoved(was, base);
      var y := 1;
      while y < 25
        invariant 1 <= y <= 25 && MovedUp(was, video[..], base, 160 * (y - 1))
      {
        MoveRow(y, was);
        y := y + 1;
      }
      BlankLastRow(was);
      MovedAll(was, video[..], base);
    }

    method MoveRow(y: nat, ghost was: seq<byte>)
      requires 1 <= y < 25 && MovedUp(was, video[..], base, 160 * (y - 1))
      modifies video
      ensures MovedUp(was, video[..], base, 160 * y)
    {
      assert base + 0x4000 <= video.Length;
      hide MovedUp;
      var x := 0;
      while x < 80
        invariant 0 <= x <= 80 && MovedUp(was, video[..], base, 160 * (y - 1) + 2 * x)
      {
        MovedNext(was, video[..], base, 160 * (y - 1) + 2 * x);
        Store(base + (80 * (y - 1) + x) * 2, video[base + (80 * y + x) * 2]);
        x := x + 1;
      }
    }

    method BlankLastRow(ghost was: seq<byte>)
      requires MovedUp(was, video[..], base, 3840)
      modifies video
      ensures MovedUp(was, video[..], base, 4000)
    {
      assert base + 0x4000 <= video.Length;
      hide MovedUp;
      var x := 0;
      while x < 80
        invariant 0 <= x <= 80 && MovedUp(was, video[..], base, 3840 + 2 * x)
      {
        MovedNext(was, video[..], base, 3840 + 2 * x);
        Store(base + (80 * 24 + x) * 2, SPACE);
        x := x + 1;
      }
    }

    /** putc. Only a printed character scrolls; a newline leaves that to the caller. */
    method PutC(c: byte)
      requires Shape()
      modifies video, this`cursorX, this`cursorY, this`faulted
      ensures Outside() == old(Outside()) && Shown() == Screen.PutC(old(Shown()), c)
    {
      if faulted {
        return;
      }
      if c == NEWLINE {
        cursorX := 0;
        cursorY := cursorY + 1;
      } else {
        PlaceHere(c);
        if faulted {
          return;
        }
        if cursorX == 79 {
          cursorX := 0;
          cursorY := cursorY + 1;
        } else {
          cursorX := cursorX + 1;
        }
        ScrollIfNeeded();
      }
    }

    /** The body of terminal_write's loop. */
    method WriteByte(c: byte)
      requires Shape()
      modifies video, this`cursorX, this`cursorY, this`faulted
      ensures Outside() == old(Outside()) && Shown() == Screen.WriteByte(old(Shown()), c)
    {
      if c == 0 {
        return;
      } else if c >= 32 || c == NEWLINE {
        PutC(c);
      }
      ScrollIfNeeded();
    }

    /** terminal_write's loop. */
    method WriteBytes(buf: seq<byte>)
      requires Shape()
      modifies video, this`cursorX, this`cursorY, this`faulted
      ensures Outside() == old(Outside()) && Shown() == WriteAll(old(Shown()), buf)
    {
      hide Screen.WriteByte;
      var i := 0;
      while i < |buf|
        invariant 0 <= i <= |buf|
        invariant Outside() == old(Outside()) && Shown() == WriteAll(old(Shown()), buf[..i])
      {
        WriteByte(buf[i]);
        WriteSnoc(old(Shown()), buf[..i], buf[i]);
        assert buf[..i + 1] == buf[..i] + [buf[i]];
        i := i + 1;
      }
      assert buf[..i] == buf;
    }

    /** printf of a text without a per cent sign. */
    method Print(text: seq<byte>)
      requires Shape()
      modifies video, this`cursorX, this`cursorY, this`faulted
      ensures Outside() == old(Outside()) && Shown() == Screen.Print(old(Shown()), text)
    {
      hide Screen.PutC;
      var i := 0;
      while i < |text|
        invariant 0 <= i <= |text|
        invariant Outside() == old(Outside()) && Shown() == Screen.Print(old(Shown()), text[..i])
      {
        PutC(text[i]);
        WriteSnoc(old(Shown()), text[..i], text[i]);
        assert text[..i + 1] == text[..i] + [text[i]];
        i := i + 1;
      }
      assert text[..i] == text;
    }

    /** flush: forget what was typed. */
    method Flush()
      requires Shape()
      modifies inputBuffer, this`lengthTyped
      ensures Shape() && Value() == Flushed(old(Value()))
    {
      MemSet(inputBuffer, 0, 0, 128);
      lengthTyped := 0;
    }

    method ClearScreen()
      requires Shape()
      modifies video, this`cursorX, this`cursorY, this`ctrlPressed
      ensures Outside() == old(Outside()) && Value() == Wiped(old(Value()))
      ensures TextOf(Shown()) == Text(seq(25, _ => Blank()), 0, 0)
    {
      cursorX := 0;
      cursorY := 0;
      ctrlPressed := false;
      Clear();
    }

    /**
     * terminal_write, from any cursor. On the screen, the screen becomes the window on the page on which the
     * bytes are laid out. From beside it, the printable bytes of the first line go to the cells from there on,
     * through what is kept behind the screen and up to the end of the four pages, where the store faults. A
     * newline brings the cursor back from there, and any other byte but NUL from below the screen.
     */
    method TerminalWrite(fd: word, buf: seq<byte>) returns (r: int)
      requires Shape()
      modifies video, inputBuffer, this`cursorX, this`cursorY, this`faulted, this`lengthTyped
      ensures Shape() && Outside() == old(Outside())
      ensures fd != 1 ==> r == -1 && Value() == old(Value())
      ensures fd == 1 ==> r == 0 && lengthTyped == 0 && Value() == WriteOn(old(Value()), buf)
      ensures fd == 1 && old(Working() && OnScreen(cursorX, cursorY)) ==>
                && !faulted && OnScreen(cursorX, cursorY)
                && TextOf(Shown()) == Written(TextOf(old(Shown())), buf)
                && Shown().video[4000..] == old(Shown()).video[4000..]
      ensures fd == 1 && old(Working() && !OnScreen(cursorX, cursorY)) ==>
                var (d, spilt) := (old(Shown()), if old(Beside(cursorX, cursorY)) then Spilt(buf) else []);
                if 2 * Here(d) + |spilt| > 0x4000 then faulted
                else
                  && Working() && (OnScreen(cursorX, cursorY) <==> Recovers(d.y, buf))
                  && Shown().video[4002..] == Overwrite(d.video, 2 * Here(d), spilt)[4002..]
      ensures old(PlainAttributes(Shown().video)) ==> PlainAttributes(Shown().video)
    {
      if fd != 1 {
        return -1;
      }
      ghost var d := Shown();
      WriteBytes(buf);
      hide WriteAll, Recovers, PlainAttributes, Written, TextOf, Overwrite, Spilt;
      if !d.lost && CursorOk(d.x, d.y) {
        WriteReach(d, buf);
        if OnScreen(d.x, d.y) {
          WriteShowsPage(d, buf);
        } else {
          WriteRecovers(d, buf);
        }
      }
      PlainAfter(d, buf);
      Flush();
      return 0;
    }

    // -------------------------------------------------------------- keyboard

    /**
     * update_buffer_and_cursor: one keyboard interrupt; `crowded` says that all slots or all but the last are
     * taken. The line is edited as it should be, unless it is a rub-out in the top left corner, where output
     * of another terminal may have left something typed. Nothing but the warning leaves the first page.
     */
    method KeyInterrupt(scancode: byte, crowded: bool)
      requires Shape() && InTables(scancode)
      modifies this, video, inputBuffer, tempBuffer
      ensures Shape() && Outside() == old(Outside())
      ensures Value() == KeyOn(old(Value()), scancode, crowded)
      ensures LineOf(Value()) == Key(old(LineOf(Value())), scancode) <==> !Cornered(old(Value()), scancode)
      ensures old(!ctrlPressed && lengthTyped < 128) ==>
                var (k, n, up) := (scancode as int, old(lengthTyped), old(shiftFlag || capsFlag));
                var ch := inputBuffer[n];
                && (0x02 <= k < 0x0E ==> ch == Chars(if up then "!@#$%^&*()_+" else "1234567890-=")[k - 0x02])
                && (0x10 <= k < 0x1C ==> ch == Chars(if up then "QWERTYUIOP{}" else "qwertyuiop[]")[k - 0x10])
                && (0x1E <= k < 0x2A ==> ch == Chars(if up then "ASDFGHJKL:\"~" else "asdfghjkl;'`")[k - 0x1E])
                && (0x2B <= k < 0x36 ==> ch == Chars(if up then "|ZXCVBNM<>?" else "\\zxcvbnm,./")[k - 0x2B])
      ensures old(Working()) && !Warns(old(ctrlPressed), scancode, crowded) ==>
                var (e, x, y) := (old(LineOf(Value())), old(cursorX), old(cursorY));
                && Working() && (cursorX, cursorY) == CursorAfter(e, x, y, scancode)
                && (OnScreen(cursorX, cursorY) <==> !LeavesScreen(e, x, y, scancode))
                && Shown().video[4002..] == old(Shown()).video[4002..]
      ensures old(Editing(Value())) ==> faulted || Editing(Value())
    {
      ghost var c := Value();
      HandleKey(scancode, crowded);
      hide KeyOn, LineOf, Key, CursorAfter, LeavesScreen, Editing, Cornered, Warns, Chars;
      KeyEdits(c, scancode, crowded);
      if !c.board.ctrl && c.board.typed < 128 {
        TypedByte(c, scancode, crowded);
      }
      if !c.display.lost && CursorOk(c.display.x, c.display.y) && !Warns(c.board.ctrl, scancode, crowded) {
        KeyMoves(c, scancode, crowded);
        CursorLeavesScreen(LineOf(c), c.display.x, c.display.y, scancode);
      }
      if Editing(c) {
        KeepsEditing(c, Stroke(scancode, crowded));
      }
    }

    method HandleKey(scancode: byte, crowded: bool)
      requires Shape() && InTables(scancode)
      modifies this, video, inputBuffer, tempBuffer
      ensures Shape() && Outside() == old(Outside())
      ensures Value() == KeyOn(old(Value()), scancode, crowded)
    {
      hide ReleaseOn, Chars, WriteAll;
      if scancode >= 0x80 {
        KeyReleased(scancode);
      } else if scancode == F3 && ctrlPressed {
        if crowded {
          WriteBytes(Chars(WARNING));
        }
      } else if !ctrlPressed {
        KeyPressed(scancode);
      }
    }

    /** Any sequence of interrupts while slots are left. */
    method Keyboard(scancodes: seq<byte>)
      requires Shape() && AllInTables(scancodes)
      modifies this, video, inputBuffer, tempBuffer
      ensures Shape() && Outside() == old(Outside())
      ensures Value() == InputsOn(old(Value()), Strokes(scancodes))
      ensures old(Editing(Value())) ==>
                && Editing(Value()) && LineOf(Value()) == Keys(old(LineOf(Value())), scancodes)
                && (cursorX, cursorY) == CursorAfterAll(old(LineOf(Value())), old(cursorX), old(cursorY), scancodes)
    {
      hide KeyOn, InputsOn, LineOf, Editing, Cornered, Warns, CursorAfter, LeavesScreen, Key;
      ghost var c := Value();
      var i := 0;
      NoInputs(c);
      while i < |scancodes|
        invariant 0 <= i <= |scancodes|
        invariant Shape() && Outside() == old(Outside()) && Value() == InputsOn(c, Strokes(scancodes[..i]))
      {
        StrokesSnoc(c, scancodes[..i], scancodes[i]);
        assert scancodes[..i + 1] == scancodes[..i] + [scancodes[i]];
        KeyInterrupt(scancodes[i], false);
        i := i + 1;
      }
      assert scancodes[..i] == scancodes;
      if Editing(c) {
        StrokesEdit(c, scancodes);
      }
    }

    lemma NoInputs(c: Console)
      requires IsConsole(c)
      ensures InputsOn(c, Strokes([])) == c && InputsOn(c, []) == c
    {
    }

    /** Any interleaving of keys, output and reads. */
    method Interact(inputs: seq<Input>)
      requires Shape() && forall i :: 0 <= i < |inputs| && inputs[i].Stroke? ==> InTables(inputs[i].scancode)
      modifies this, video, inputBuffer, tempBuffer
      ensures Shape() && Outside() == old(Outside()) && Value() == InputsOn(old(Value()), inputs)
      ensures old(Editing(Value())) ==>
                faulted || (Editing(Value()) && LineOf(Value()) == InputsOnLine(old(LineOf(Value())), inputs))
    {
      hide KeyOn, WriteOn, TakeOn, InputsOn, LineOf, InputsOnLine, Editing, Cornered, Warns, CursorAfter, LeavesScreen,
        Key, Recovers, WriteAll, Spilt, LineBytes;
      ghost var c := Value();
      var i := 0;
      NoInputs(c);
      while i < |inputs|
        invariant 0 <= i <= |inputs|
        invariant Shape() && Outside() == old(Outside()) && Value() == InputsOn(c, inputs[..i])
      {
        InputsSnoc(c, inputs[..i], inputs[i]);
        assert inputs[..i + 1] == inputs[..i] + [inputs[i]];
        match inputs[i] {
          case Stroke(scancode, crowded) => KeyInterrupt(scancode, crowded);
          case Output(bytes) => var r := TerminalWrite(1, bytes);
          case Take =>
            if canRead && oldLengthTyped < 128 {
              var line := TakeLine(0, 0);
            }
        }
        i := i + 1;
      }
      assert inputs[..i] == inputs;
      if Editing(c) {
        InterleavingsEdit(c, inputs);
      }
    }

    method KeyReleased(scancode: byte)
      requires Shape() && scancode >= 0x80
      modifies video, inputBuffer, this`cursorX, this`cursorY, this`lengthTyped, this`shiftFlag, this`ctrlPressed
      ensures Shape() && Outside() == old(Outside()) && Value() == ReleaseOn(old(Value()), scancode)
    {
      hide Blanked;
      if shiftFlag && (scancode == L_SHIFT_RELEASE || scancode == R_SHIFT_RELEASE) {
        shiftFlag := false;
      } else if scancode == L_RELEASE && ctrlPressed {
        Flush();
        ClearScreen();
      } else if ctrlPressed && ONE_RELEASE <= scancode <= THREE_RELEASE {
        return;
      }
      ctrlPressed := false;
    }

    method KeyPressed(scancode: byte)
      requires Shape() && scancode < 100 && !ctrlPressed
      modifies this, video, inputBuffer, tempBuffer
      ensures Shape() && Outside() == old(Outside()) && Value() == PressOn(old(Value()), scancode, false)
    {
      hide PressOnCell, Scroll;
      if cursorX > 80 - 1 {
        cursorX := 0;
        cursorY := cursorY + 1;
      }
      KeyOnCell(scancode);
      ScrollIfNeeded();
    }

    /** The key itself, with the cursor on a cell. */
    method KeyOnCell(scancode: byte)
      requires Shape() && scancode < 100
      modifies this, video, inputBuffer, tempBuffer
      ensures Shape() && Outside() == old(Outside()) && Value() == PressOnCell(old(Value()), scancode)
    {
      hide EnterOn, RubOutOn, TypeOn;
      if scancode == CTRL {
        ctrlPressed := true;
      } else if scancode == CAPS_LOCK {
        capsFlag := !capsFlag;
      } else if scancode == L_SHIFT {
        shiftFlag := true;
      } else if scancode == R_SHIFT {
        shiftFlag := true;
      } else if scancode == ENTER {
        Enter();
      } else if scancode == BACKSPACE && lengthTyped > 0 {
        RubOut();
      } else if lengthTyped < 128 && scancode != BACKSPACE {
        Type(scancode);
      }
    }

    method Enter()
      requires Shape()
      modifies this, inputBuffer, tempBuffer
      ensures Shape() && Outside() == old(Outside()) && Value() == EnterOn(old(Value()))
    {
      cursorX := 0;
      cursorY := cursorY + 1;
      MemSet(tempBuffer, 0, 0, 128);
      forall i | 0 <= i < 128 {
        tempBuffer[i] := inputBuffer[i];
      }
      assert tempBuffer[..] == inputBuffer[..] && video[..] == old(video[..]);
      oldLengthTyped := lengthTyped;
      Flush();
      canRead := true;
    }

    method RubOut()
      requires Shape() && lengthTyped > 0
      modifies video, this`cursorX, this`cursorY, this`lengthTyped, this`faulted
      ensures Shape() && Outside() == old(Outside()) && Value() == RubOutOn(old(Value()))
    {
      hide Place;
      if cursorX == 0 && cursorY != 0 {
        cursorX := 80 - 1;
        cursorY := cursorY - 1;
        lengthTyped := lengthTyped - 1;
      } else if cursorX != 0 {
        cursorX := cursorX - 1;
        lengthTyped := lengthTyped - 1;
      }
      PlaceHere(SPACE);
    }

    method Type(scancode: byte)
      requires Shape() && lengthTyped < 128 && scancode < 100
      modifies video, inputBuffer, this`cursorX, this`lengthTyped, this`faulted
      ensures Shape() && Outside() == old(Outside()) && Value() == TypeOn(old(Value()), scancode)
    {
      hide Place;
      var c := TableEntry(PLAIN, scancode);
      if (shiftFlag || capsFlag) && c >= 97 && c <= 122 {
        inputBuffer[lengthTyped] := c - 32;
      } else if (shiftFlag || capsFlag) && (c < 97 || c > 122) {
        inputBuffer[lengthTyped] := TableEntry(SHIFTED, scancode);
      } else {
        inputBuffer[lengthTyped] := c;
      }
      PlaceHere(inputBuffer[lengthTyped]);
      lengthTyped := lengthTyped + 1;
      cursorX := cursorX + 1;
    }

    // -------------------------------------------------------------- reading

    /** What terminal_read copies, once Enter has been pressed; `beyond` is what lies behind temp_buffer. */
    method TakeLine(nbytes: nat, beyond: byte) returns (bytes: seq<byte>)
      requires Shape() && canRead && oldLengthTyped < 128
      modifies this`canRead, this`lengthTyped, inputBuffer, tempBuffer
      ensures Shape() && bytes == LineBytes(old(Board()), nbytes, beyond) && Value() == TakeOn(old(Value()))
    {
      tempBuffer[oldLengthTyped] := NEWLINE;
      var n := if lengthTyped + 1 < nbytes then oldLengthTyped + 1 else nbytes;
      bytes := (tempBuffer[..] + [beyond])[..n];
      if n < nbytes {
        bytes := bytes + Zeros(nbytes - n);
      }
      canRead := false;
      Flush();
    }

    /**
     * terminal_read, once Enter has been pressed, into a buffer with room for what it copies. With room for
     * what is typed since and for the line, it returns the committed line and a newline, and consumes it. The
     * length is found with strlen, so where the copied bytes fill the request a NUL has to follow it somewhere.
     */
    method TerminalRead(fd: word, buf: array<byte>, at: nat, nbytes: nat, beyond: byte) returns (r: int)
      requires Shape() && canRead && oldLengthTyped < 128
      requires buf != inputBuffer && buf != tempBuffer && buf != video
      requires at + nbytes <= buf.Length && Copied(Board(), nbytes) <= nbytes
      requires Copied(Board(), nbytes) == nbytes ==> exists k :: at + nbytes <= k < buf.Length && buf[k] == 0
      modifies this`canRead, this`lengthTyped, inputBuffer, tempBuffer, buf
      ensures fd != 0 ==> r == -1 && buf[..] == old(buf[..]) && unchanged(this)
      ensures fd == 0 ==> Shape() && !canRead && lengthTyped == 0 && Value() == TakeOn(old(Value()))
      ensures fd == 0 ==> buf[at..at + nbytes] == LineBytes(old(Board()), nbytes, beyond)
      ensures var line := old(LineOf(Value())).committed.value;
              fd == 0 && old(lengthTyped) + 1 < nbytes && NoNul(line)
              && (|line| + 1 < nbytes || (at + nbytes < buf.Length && old(buf[at + nbytes]) == 0)) ==>
                r == |line| + 1 && buf[at..at + r] == line + [NEWLINE]
      ensures forall j :: 0 <= j < buf.Length && !(at <= j < at + nbytes) ==> buf[j] == old(buf[j])
    {
      if fd != 0 {
        return -1;
      }
      ghost var (c, was) := (Value(), buf[..]);
      ReadInto(buf, at, nbytes, beyond);
      hide LineBytes, TakeOn, Copied, CStr, Zeros, LineOf;
      LineFits(c);
      NulFollows(c.board, was, buf[..], at, nbytes, beyond);
      r := StrLen(buf, at);
      assert buf[..][at..] == buf[at..];
      if c.board.typed + 1 < nbytes && NoNul(LineOf(c).committed.value) {
        LineAtFront(c, was, buf[..], at, nbytes, beyond);
      }
    }

    method ReadInto(buf: array<byte>, at: nat, nbytes: nat, beyond: byte)
      requires Shape() && canRead && oldLengthTyped < 128
      requires buf != inputBuffer && buf != tempBuffer && buf != video
      requires at + nbytes <= buf.Length && Copied(Board(), nbytes) <= nbytes
      modifies this`canRead, this`lengthTyped, inputBuffer, tempBuffer, buf
      ensures Shape() && Value() == TakeOn(old(Value()))
      ensures buf[at..at + nbytes] == LineBytes(old(Board()), nbytes, beyond)
      ensures forall j :: 0 <= j < buf.Length && !(at <= j < at + nbytes) ==> buf[j] == old(buf[j])
    {
      hide LineBytes, TakeOn;
      var bytes := TakeLine(nbytes, beyond);
      Fill(buf, at, bytes);
    }

    method Fill(buf: array<byte>, at: nat, bytes: seq<byte>)
      requires at + |bytes| <= buf.Length
      modifies buf
      ensures buf[at..at + |bytes|] == bytes
      ensures forall j :: 0 <= j < buf.Length && !(at <= j < at + |bytes|) ==> buf[j] == old(buf[j])
    {
      forall i | 0 <= i < |bytes| {
        buf[at + i] := bytes[i];
      }
    }

    lemma NulFollows(b: Keyboards.Keyboard, was: seq<byte>, now: seq<byte>, at: nat, nbytes: nat, beyond: byte)
      requires IsBoard(b) && b.oldTyped < 128 && Copied(b, nbytes) <= nbytes && |was| == |now| && at + nbytes <= |was|
      requires Copied(b, nbytes) == nbytes ==> exists k :: at + nbytes <= k < |was| && was[k] == 0
      requires forall j :: 0 <= j < |was| && !(at <= j < at + nbytes) ==> now[j] == was[j]
      requires now[at..at + nbytes] == LineBytes(b, nbytes, beyond)
      ensures exists k :: at <= k < |now| && now[k] == 0
    {
      if Copied(b, nbytes) < nbytes {
        assert now[at + Copied(b, nbytes)] == now[at..at + nbytes][Copied(b, nbytes)];
      } else {
        var k :| at + nbytes <= k < |was| && was[k] == 0;
        assert now[k] == 0;
      }
    }

    /** A buffer that holds what was read, and then a NUL, holds the committed line as a string. */
    lemma LineAtFront(c: Console, was: seq<byte>, now: seq<byte>, at: nat, nbytes: nat, beyond: byte)
      requires IsConsole(c) && c.board.canRead && c.board.oldTyped < 128 && |was| == |now|
      requires c.board.typed + 1 < nbytes && c.board.oldTyped + 1 <= nbytes && at + nbytes <= |now|
      requires now[at..at + nbytes] == LineBytes(c.board, nbytes, beyond)
      requires forall j :: 0 <= j < |was| && !(at <= j < at + nbytes) ==> now[j] == was[j]
      requires LineOf(c).committed.Some? && NoNul(LineOf(c).committed.value)
      ensures var line := LineOf(c).committed.value;
              |line| + 1 < nbytes || (at + nbytes < |was| && was[at + nbytes] == 0) ==>
                CStr(now[at..]) == line + [NEWLINE] && now[at..at + |line| + 1] == line + [NEWLINE]
    {
      var text := LineOf(c).committed.value + [NEWLINE];
      LineFits(c);
      LineIsRead(c, nbytes, beyond);
      hide LineOf, LineBytes, CStr, Pad;
      if |text| < nbytes || (at + nbytes < |was| && was[at + nbytes] == 0) {
        PaddedFront(now, at, nbytes, text);
        StringIs(now[at..], text);
      }
    }

    lemma PaddedFront(now: seq<byte>, at: nat, n: nat, text: seq<byte>)
      requires at + n <= |now| && |text| <= n && now[at..at + n] == Pad(text, n)
      ensures now[at..at + |text|] == text && now[at..][..|text|] == text
      ensures |text| < n ==> now[at + |text|] == 0
    {
      assert now[at..at + n][..|text|] == text;
      assert |text| < n ==> now[at..at + n][|text|] == 0;
    }

    lemma LineFits(c: Console)
      requires IsConsole(c) && c.board.canRead
      ensures LineOf(c).committed.Some? && |LineOf(c).committed.value| == c.board.oldTyped
    {
    }
  }

  lemma StringIs(s: seq<byte>, t: seq<byte>)
    requires |t| < |s| && s[..|t|] == t && s[|t|] == 0 && NoNul(t)
    ensures CStr(s) == t
  {
    CStrIs(s, |t|);
  }
}
