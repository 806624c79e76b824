/** The keyboard in characters: what the keys type, by their scan codes, and what of it is seen. */
module Typing {
  import opened Bytes
  import opened Editor
  import opened Screen
  import opened Keyboards

  // ---------------------------------------------------------------- what the keys type

  /** The key types the character that stands at its place in the row of keys that begins with `first`. */
  ghost predicate TypesFrom(e: Line, scancode: byte, first: nat, plain: string, raised: string) {
    && |plain| == |raised| && |e.text| <= 128
    && (first <= scancode < first + |plain| ==>
          Key(e, scancode)
          == e.(text := e.text + [Chars(if e.shift || e.caps then raised else plain)[scancode - first]]))
  }

  /** The rows of the keyboard, plain, and with shift or caps lock, which also raises digits and signs. */
  lemma KeysType(e: Line, scancode: byte)
    requires |e.text| < 128 && !e.ctrl
    ensures TypesFrom(e, scancode, 0x02, "1234567890-=", "!@#$%^&*()_+")
    ensures TypesFrom(e, scancode, 0x10, "qwertyuiop[]", "QWERTYUIOP{}")
    ensures TypesFrom(e, scancode, 0x1E, "asdfghjkl;'`", "ASDFGHJKL:\"~")
    ensures TypesFrom(e, scancode, 0x2B, "\\zxcvbnm,./", "|ZXCVBNM<>?")
    ensures TypesFrom(e, scancode, 0x00, "00", "00")
    ensures scancode == 0x0F ==> Key(e, scancode) == e.(text := e.text + [if e.shift || e.caps then 48 else 9])
    ensures scancode in {0x37, 0x38} ==> Key(e, scancode) == e.(text := e.text + [if e.shift || e.caps then 0 else 48])
    ensures scancode == 0x39 ==> Key(e, scancode) == e.(text := e.text + [if e.shift || e.caps then 0 else 32])
    ensures 0x3B <= scancode < 100 ==> Key(e, scancode) == e.(text := e.text + [0])
  {
    var k := scancode as int;
    hide KeyChar, Chars;
    if 0x02 <= k < 0x0E {
      Digits(k);
    } else if 0x10 <= k < 0x1C {
      TopRow(k);
    } else if 0x1E <= k < 0x2A {
      HomeRow(k);
    } else if 0x2B <= k < 0x36 {
      BottomRow(k);
    } else {
      OtherKeys(k);
    }
  }

  lemma Digits(k: nat)
    requires 0x02 <= k < 0x0E
    ensures KeyChar(k, false) == Chars("1234567890-=")[k - 0x02] && KeyChar(k, true) == Chars("!@#$%^&*()_+")[k - 0x02]
  {
    hide Chars;
    var i := k - 0x02;
    var (c, s) := ("1234567890-="[i] as int, "!@#$%^&*()_+"[i] as int);
    CharAt("1234567890-=", i);
    CharAt("!@#$%^&*()_+", i);
    assert !(97 <= c <= 122);
    assert TableEntry(PLAIN, k) == c && TableEntry(SHIFTED, k) == s;
  }

  lemma TopRow(k: nat)
    requires 0x10 <= k < 0x1C
    ensures KeyChar(k, false) == Chars("qwertyuiop[]")[k - 0x10] && KeyChar(k, true) == Chars("QWERTYUIOP{}")[k - 0x10]
  {
    hide Chars;
    var i := k - 0x10;
    var (c, s) := ("qwertyuiop[]"[i] as int, "0000000000{}"[i] as int);
    CharAt("qwertyuiop[]", i);
    CharAt("0000000000{}", i);
    CharAt("QWERTYUIOP{}", i);
    assert (if 97 <= c <= 122 then c - 32 else s) == "QWERTYUIOP{}"[i] as int;
    assert TableEntry(PLAIN, k) == c && TableEntry(SHIFTED, k) == s;
  }

  lemma HomeRow(k: nat)
    requires 0x1E <= k < 0x2A
    ensures KeyChar(k, false) == Chars("asdfghjkl;'`")[k - 0x1E] && KeyChar(k, true) == Chars("ASDFGHJKL:\"~")[k - 0x1E]
  {
    hide Chars;
    var i := k - 0x1E;
    var (c, s) := ("asdfghjkl;'`"[i] as int, "000000000:\"~"[i] as int);
    CharAt("asdfghjkl;'`", i);
    CharAt("000000000:\"~", i);
    CharAt("ASDFGHJKL:\"~", i);
    assert (if 97 <= c <= 122 then c - 32 else s) == "ASDFGHJKL:\"~"[i] as int;
    assert TableEntry(PLAIN, k) == c && TableEntry(SHIFTED, k) == s;
  }

  lemma BottomRow(k: nat)
    requires 0x2B <= k < 0x36
    ensures KeyChar(k, false) == Chars("\\zxcvbnm,./")[k - 0x2B] && KeyChar(k, true) == Chars("|ZXCVBNM<>?")[k - 0x2B]
  {
    hide Chars;
    var i := k - 0x2B;
    var (c, s) := ("\\zxcvbnm,./"[i] as int, "|0000000<>?"[i] as int);
    CharAt("\\zxcvbnm,./", i);
    CharAt("|0000000<>?", i);
    CharAt("|ZXCVBNM<>?", i);
    assert (if 97 <= c <= 122 then c - 32 else s) == "|ZXCVBNM<>?"[i] as int;
    assert TableEntry(PLAIN, k) == c && TableEntry(SHIFTED, k) == s;
  }

  lemma OtherKeys(k: nat)
    ensures KeyChar(0x0F, false) == 9 && KeyChar(0x0F, true) == 48
    ensures k < 2 ==> KeyChar(k, false) == KeyChar(k, true) == Chars("00")[k] == 48
    ensures k == 0x37 || k == 0x38 ==> KeyChar(k, false) == 48 && KeyChar(k, true) == 0
    ensures KeyChar(0x39, false) == 32 && KeyChar(0x39, true) == 0
    ensures k >= 0x3A ==> KeyChar(k, false) == KeyChar(k, true) == 0
  {
    assert |PLAIN| == 58 && |SHIFTED| == 54;
    assert PLAIN[0x0F] == 9 && SHIFTED[0x0E..0x10] == Chars("00");
    assert PLAIN[0..2] == Chars("00") && SHIFTED[0..2] == Chars("00") && PLAIN[0x36..0x39] == Chars("000");
  }

  /** The keys that type nothing, pressed without control: the modifiers, Enter and backspace. */
  lemma ControlKeys(e: Line)
    requires |e.text| <= 128 && !e.ctrl
    ensures Key(e, 0x1D) == e.(ctrl := true)
    ensures Key(e, 0x3A) == e.(caps := !e.caps)
    ensures Key(e, 0x2A) == Key(e, 0x36) == e.(shift := true)
    ensures Key(e, 0x1C) == e.(text := [], committed := Some(e.text))
    ensures Key(e, 0x0E) == if e.text == [] then e else e.(text := e.text[..|e.text| - 1])
  {
  }

  /** Releases end shift and control, and while control is held no other key does anything but erase the line. */
  lemma Releases(e: Line, scancode: byte)
    requires |e.text| <= 128
    ensures scancode < 0x80 && e.ctrl ==> Key(e, scancode) == e
    ensures scancode >= 0x80 && !e.ctrl ==>
              Key(e, scancode) == if scancode == 0xAA || scancode == 0xB6 then e.(shift := false) else e
    ensures scancode >= 0x80 && e.ctrl ==>
              Key(e, scancode) ==
              if scancode == 0xA6 then e.(text := [], ctrl := false)
              else if 0x82 <= scancode <= 0x84 then e
              else if scancode == 0xAA || scancode == 0xB6 then e.(shift := false, ctrl := false)
              else e.(ctrl := false)
  {
  }

  /** A full line takes no more characters. */
  lemma FullLine(e: Line, scancode: byte)
    requires |e.text| == 128 && scancode < 0x80 && scancode !in {0x0E, 0x1C, 0x1D, 0x2A, 0x36, 0x3A}
    ensures Key(e, scancode) == e
  {
  }

  /** In the key buffer: the byte behind what is typed becomes that character. */
  lemma TypedByte(c: Console, scancode: byte, crowded: bool)
    requires IsConsole(c) && !c.board.ctrl && c.board.typed < 128
    ensures var (k, ch, up) := (scancode as int, KeyOn(c, scancode, crowded).keys[c.board.typed],
                                c.board.shift || c.board.caps);
            && (0x02 <= k < 0x0E ==> ch == Chars(if up then "!@#$%^&*()_+" else "1234567890-=")[k - 0x02])
            && (0x10 <= k < 0x1C ==> ch == Chars(if up then "QWERTYUIOP{}" else "qwertyuiop[]")[k - 0x10])
            && (0x1E <= k < 0x2A ==> ch == Chars(if up then "ASDFGHJKL:\"~" else "asdfghjkl;'`")[k - 0x1E])
            && (0x2B <= k < 0x36 ==> ch == Chars(if up then "|ZXCVBNM<>?" else "\\zxcvbnm,./")[k - 0x2B])
            && (k == 0x39 ==> ch == if up then 0 else 32)
  {
    hide KeyOn, KeyChar, Chars;
    var k := scancode as int;
    if 0x02 <= k < 0x0E {
      TypedBuffer(c, scancode, crowded);
      Digits(k);
    } else if 0x10 <= k < 0x1C {
      TypedBuffer(c, scancode, crowded);
      TopRow(k);
    } else if 0x1E <= k < 0x2A {
      TypedBuffer(c, scancode, crowded);
      HomeRow(k);
    } else if 0x2B <= k < 0x36 {
      TypedBuffer(c, scancode, crowded);
      BottomRow(k);
    } else if k == 0x39 {
      TypedBuffer(c, scancode, crowded);
      OtherKeys(k);
    }
  }

  lemma TypedBuffer(c: Console, scancode: byte, crowded: bool)
    requires IsConsole(c) && !c.board.ctrl && c.board.typed < 128
    requires scancode < 0x80 && scancode !in {0x0E, 0x1C, 0x1D, 0x2A, 0x36, 0x3A}
    ensures KeyOn(c, scancode, crowded).keys[c.board.typed] == KeyChar(scancode, c.board.shift || c.board.caps)
  {
    hide KeyChar, Place, Scroll, Chars;
  }

  // ---------------------------------------------------------------- what is seen

  /** The cell in which a key finds the cursor: beside the screen it first goes to the next row. */
  function CellOf(d: Display): nat {
    if d.x > 79 then 80 * (d.y + 1) else 80 * d.y + d.x
  }

  /**
   * A character that is typed is shown in the cell of the cursor, with attribute 2, and nothing else changes. In
   * row 25, below the screen, the screen moves up without it.
   */
  lemma TypedIsShown(c: Console, scancode: byte, crowded: bool)
    requires IsConsole(c) && !c.display.lost && CursorOk(c.display.x, c.display.y)
    requires !c.board.ctrl && c.board.typed < 128
    requires scancode < 0x80 && scancode !in {0x0E, 0x1C, 0x1D, 0x2A, 0x36, 0x3A}
    ensures var (d, e, n) := (c.display, KeyOn(c, scancode, crowded), CellOf(c.display));
            && e.board == c.board.(typed := c.board.typed + 1)
            && e.keys[..c.board.typed] == c.keys[..c.board.typed]
            && LineOf(e) == Key(LineOf(c), scancode)
            && n <= 2000
            && (n < 2000 ==> e.display.video == d.video[2 * n := e.keys[c.board.typed]][2 * n + 1 := 2]
                             && (e.display.x, e.display.y) == (n % 80 + 1, n / 80))
            && (n == 2000 ==> OneRowUp(d.video[4000 := e.keys[c.board.typed]][4001 := 2], e.display.video)
                              && (e.display.x, e.display.y) == (0, 24))
  {
    hide KeyChar, LineOf, Key, Chars, WriteAll, ReleaseOn, RubOutOn, EnterOn;
    KeyEdits(c, scancode, crowded);
  }

  /** A rub-out blanks the cell before the cursor; in the top left corner, the first one. */
  lemma RubOutIsShown(c: Console, crowded: bool)
    requires IsConsole(c) && !c.display.lost && CursorOk(c.display.x, c.display.y)
    requires !c.board.ctrl && c.board.typed > 0
    ensures var (d, e, n) := (c.display, KeyOn(c, 0x0E, crowded), CellOf(c.display));
            var m := if n == 0 then 0 else n - 1;
            && e.display == d.(video := d.video[2 * m := 32][2 * m + 1 := 2], x := m % 80, y := m / 80)
            && e.keys == c.keys && e.board == c.board.(typed := if n == 0 then c.board.typed else c.board.typed - 1)
  {
  }

  /** Enter and the modifiers show nothing; below the bottom row they move the screen up. */
  lemma OthersAreNotShown(c: Console, scancode: byte, crowded: bool)
    requires IsConsole(c) && !c.display.lost && CursorOk(c.display.x, c.display.y) && !c.board.ctrl
    requires scancode in {0x1C, 0x1D, 0x2A, 0x36, 0x3A}
    ensures var (d, e) := (c.display, KeyOn(c, scancode, crowded).display);
            var row := CellOf(d) / 80 + if scancode == 0x1C then 1 else 0;
            var column := if scancode == 0x1C then 0 else CellOf(d) % 80;
            if row < 25 then e == d.(x := column, y := row)
            else OneRowUp(d.video, e.video) && e == d.(video := e.video, x := 0, y := row - 1)
  {
  }

  /** Control and L: a blank screen with the cursor at its top left, and nothing typed. */
  lemma ControlLClears(c: Console, crowded: bool)
    requires IsConsole(c) && c.board.ctrl
    ensures var (d, e) := (c.display, KeyOn(c, 0xA6, crowded));
            && (forall j :: 0 <= j < 4000 ==> e.display.video[j] == if j % 2 == 0 then 32 else 2)
            && e.display.video[4000..] == d.video[4000..]
            && e.display == d.(video := e.display.video, x := 0, y := 0)
            && e.keys == Zeros(128) && e.board == c.board.(typed := 0, ctrl := false)
  {
  }
}
