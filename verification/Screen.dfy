/**
 * The screen as a value: the four mapped pages of video memory with the cursor, and what the output routines
 * do to them. The first 4000 bytes are shown; the screens of terminals that are not shown are kept in the
 * pages behind the first.
 */
module Screen {
  import opened Bytes
  import opened Memory
  import opened Page

  const ATTRIB: byte := 2

  /** `lost` says that a cell outside the four pages was written: that store faults, and nothing follows. */
  datatype Display = Display(video: seq<byte>, x: nat, y: nat, lost: bool)

  predicate IsDisplay(d: Display) {
    |d.video| == 0x4000
  }

  /** The cell at the cursor, counted through the four pages. */
  function Here(d: Display): nat {
    80 * d.y + d.x
  }

  /**
   * Where a cursor can be: on the screen, below it at the start of row 25, or beside it in a column from 80
   * on, but not past the four pages.
   */
  predicate CursorOk(x: nat, y: nat) {
    y <= 25 && (y == 25 ==> x == 0) && 80 * y + x <= 8192
  }

  predicate Beside(x: nat, y: nat) {
    x >= 80 && y < 25
  }

  // ---------------------------------------------------------------- the output routines

  function StoreCell(video: seq<byte>, n: nat, c: byte): (v: seq<byte>)
    requires 2 * n + 1 < |video|
    ensures |v| == |video|
  {
    video[2 * n := c][2 * n + 1 := ATTRIB]
  }

  /** clear: blank cells on the screen. */
  function Blanked(video: seq<byte>): (v: seq<byte>)
    ensures |v| == |video|
  {
    seq(|video|, i requires 0 <= i < |video| =>
      if i >= 4000 then video[i] else if i % 2 == 0 then SPACE else ATTRIB)
  }

  /** Rows 1 to 24 move up, row 24 becomes blank. */
  function Scrolled(video: seq<byte>): (v: seq<byte>)
    requires |video| >= 4000
    ensures |v| == |video|
  {
    seq(|video|, i requires 0 <= i < |video| =>
      if i >= 4000 then video[i]
      else if i % 2 == 1 then ATTRIB
      else if i < 3840 then video[i + 160]
      else SPACE)
  }

  /** scroll_if_needed */
  function Scroll(d: Display): (e: Display)
    requires IsDisplay(d)
    ensures IsDisplay(e)
  {
    if d.lost || d.y < 25 then d else Display(Scrolled(d.video), 0, d.y - 1, false)
  }

  function Place(d: Display, c: byte): (e: Display)
    requires IsDisplay(d)
    ensures IsDisplay(e)
  {
    if d.lost || Here(d) >= 8192 then d.(lost := true) else d.(video := StoreCell(d.video, Here(d), c))
  }

  /** The cursor after a character; only column 79 wraps. */
  function Advance(d: Display): Display {
    if d.lost then d else if d.x == 79 then d.(x := 0, y := d.y + 1) else d.(x := d.x + 1)
  }

  /** putc. Only a printed character scrolls; a newline leaves that to the caller. */
  function PutC(d: Display, c: byte): (e: Display)
    requires IsDisplay(d)
    ensures IsDisplay(e)
  {
    if d.lost then d
    else if c == NEWLINE then d.(x := 0, y := d.y + 1)
    else Scroll(Advance(Place(d, c)))
  }

  /** One byte of terminal_write. */
  function WriteByte(d: Display, c: byte): (e: Display)
    requires IsDisplay(d)
    ensures IsDisplay(e)
  {
    if c == 0 then d else Scroll(if c >= 32 || c == NEWLINE then PutC(d, c) else d)
  }

  /** The bytes of terminal_write. */
  function WriteAll(d: Display, bytes: seq<byte>): (e: Display)
    requires IsDisplay(d)
    ensures IsDisplay(e)
    decreases |bytes|
  {
    if bytes == [] then d else WriteByte(WriteAll(d, bytes[..|bytes| - 1]), bytes[|bytes| - 1])
  }

  /** printf of a string without a per cent sign. */
  function Print(d: Display, bytes: seq<byte>): (e: Display)
    requires IsDisplay(d)
    ensures IsDisplay(e)
    decreases |bytes|
  {
    if bytes == [] then d else PutC(Print(d, bytes[..|bytes| - 1]), bytes[|bytes| - 1])
  }

  lemma WriteSnoc(d: Display, bytes: seq<byte>, c: byte)
    requires IsDisplay(d)
    ensures WriteAll(d, bytes + [c]) == WriteByte(WriteAll(d, bytes), c)
    ensures Print(d, bytes + [c]) == PutC(Print(d, bytes), c)
  {
    assert (bytes + [c])[..|bytes|] == bytes;
  }

  lemma {:induction false} WriteAppend(d: Display, a: seq<byte>, b: seq<byte>)
    requires IsDisplay(d)
    ensures WriteAll(d, a + b) == WriteAll(WriteAll(d, a), b)
    decreases |b|
  {
    if b == [] {
      assert a + b == a;
    } else {
      var (front, last) := (b[..|b| - 1], b[|b| - 1]);
      WriteAppend(d, a, front);
      assert b == front + [last] && a + b == (a + front) + [last];
      WriteSnoc(d, a + front, last);
      WriteSnoc(WriteAll(d, a), front, last);
    }
  }

  /** One row up, as bytes: characters and attributes, with a blank row at the bottom. */
  ghost predicate OneRowUp(v: seq<byte>, w: seq<byte>) {
    && |v| == |w| && 4000 <= |v| && w[4000..] == v[4000..]
    && (forall j :: 0 <= j < 4000 ==> w[j] == if j % 2 == 1 then 2 else if j < 3840 then v[j + 160] else 32)
  }

  /**
   * A byte of terminal_write that finds the cursor on the screen: from 32 on it is shown in the cell of the cursor,
   * with attribute 2, 10 ends the line, and others do nothing; past the last cell or row the screen moves up.
   */
  lemma ByteOnScreen(d: Display, c: byte)
    requires IsDisplay(d) && !d.lost && d.x < 80 && d.y < 25
    ensures var (e, n) := (WriteByte(d, c), 80 * d.y + d.x);
            && (c < 32 && c != 10 ==> e == d)
            && (c == 10 && d.y < 24 ==> e == d.(x := 0, y := d.y + 1))
            && (c == 10 && d.y == 24 ==> e == d.(video := e.video, x := 0) && OneRowUp(d.video, e.video))
            && (c >= 32 && n < 1999 ==>
                  e == d.(video := d.video[2 * n := c][2 * n + 1 := 2], x := (n + 1) % 80, y := (n + 1) / 80))
            && (c >= 32 && n == 1999 ==>
                  e == d.(video := e.video, x := 0) && OneRowUp(d.video[3998 := c][3999 := 2], e.video))
  {
  }

  /** putc, as printf calls it: any byte but 10 is shown, and 10 leaves the scrolling to the next character. */
  lemma PrintedOnScreen(d: Display, c: byte)
    requires IsDisplay(d) && !d.lost && d.x < 80 && d.y < 25
    ensures var (e, n) := (PutC(d, c), 80 * d.y + d.x);
            && (c == 10 ==> e == d.(x := 0, y := d.y + 1))
            && (c != 10 && n < 1999 ==>
                  e == d.(video := d.video[2 * n := c][2 * n + 1 := 2], x := (n + 1) % 80, y := (n + 1) / 80))
            && (c != 10 && n == 1999 ==>
                  e == d.(video := e.video, x := 0) && OneRowUp(d.video[3998 := c][3999 := 2], e.video))
  {
  }

  // ---------------------------------------------------------------- on the screen: the page

  /** Row r of the screen: every other byte is a character. */
  function RowOf(v: seq<byte>, r: nat): (row: Row)
    requires |v| >= 4000 && r < 25
    ensures |row| == 80 && forall x :: 0 <= x < 80 ==> row[x] == v[160 * r + 2 * x]
  {
    seq(80, x requires 0 <= x < 80 => v[160 * r + 2 * x])
  }

  function RowsOf(v: seq<byte>): (rows: seq<Row>)
    requires |v| >= 4000
    ensures |rows| == 25 && Rectangular(rows) && forall r :: 0 <= r < 25 ==> rows[r] == RowOf(v, r)
  {
    seq(25, r requires 0 <= r < 25 => RowOf(v, r))
  }

  /** What is shown, as text. */
  function TextOf(d: Display): (t: Text)
    requires IsDisplay(d) && OnScreen(d.x, d.y)
    ensures IsScreen(t)
  {
    Text(RowsOf(d.video), d.x, d.y)
  }

  /** Every visible cell has the one attribute the kernel uses. */
  ghost predicate PlainAttributes(v: seq<byte>) {
    |v| >= 4000 && forall j :: 0 <= j < 4000 && j % 2 == 1 ==> v[j] == ATTRIB
  }

  lemma BlankedRows(v: seq<byte>)
    requires |v| >= 4000
    ensures RowsOf(Blanked(v)) == seq(25, _ => Blank()) && PlainAttributes(Blanked(v))
  {
    forall r | 0 <= r < 25 ensures RowOf(Blanked(v), r) == Blank() {
      assert forall i :: 0 <= i < 80 ==> (160 * r + 2 * i) % 2 == 0;
    }
  }

  lemma StoreCellRows(v: seq<byte>, x: nat, y: nat, c: byte)
    requires |v| >= 4000 && x < 80 && y < 25
    ensures RowsOf(StoreCell(v, 80 * y + x, c)) == RowsOf(v)[y := SetColumn(RowOf(v, y), x, c)]
  {
    var w := StoreCell(v, 80 * y + x, c);
    forall r | 0 <= r < 25 ensures RowOf(w, r) == if r == y then SetColumn(RowOf(v, y), x, c) else RowOf(v, r) {
      forall i | 0 <= i < 80
        ensures RowOf(w, r)[i] == (if r == y && i == x then c else RowOf(v, r)[i])
      {
      }
    }
  }

  lemma ScrolledRows(v: seq<byte>)
    requires |v| >= 4000
    ensures RowsOf(Scrolled(v)) == RowsOf(v)[1..] + [Blank()]
  {
    forall r | 0 <= r < 25 ensures RowOf(Scrolled(v), r) == if r < 24 then RowOf(v, r + 1) else Blank() {
      forall i | 0 <= i < 80 ensures RowOf(Scrolled(v), r)[i] == if r < 24 then RowOf(v, r + 1)[i] else SPACE {
      }
    }
  }

  lemma PlainKept(d: Display, c: byte)
    requires IsDisplay(d) && PlainAttributes(d.video)
    ensures PlainAttributes(WriteByte(d, c).video)
  {
  }

  lemma {:induction false} PlainAfter(d: Display, bytes: seq<byte>)
    requires IsDisplay(d)
    ensures PlainAttributes(d.video) ==> PlainAttributes(WriteAll(d, bytes).video)
    decreases |bytes|
  {
    if bytes != [] && PlainAttributes(d.video) {
      PlainAfter(d, bytes[..|bytes| - 1]);
      hide PlainAttributes, WriteByte;
      PlainKept(WriteAll(d, bytes[..|bytes| - 1]), bytes[|bytes| - 1]);
    }
  }

  /** A printable character on the screen, as on the page. */
  lemma PutShows(d: Display, c: byte)
    requires IsDisplay(d) && OnScreen(d.x, d.y) && !d.lost && c >= 32
    ensures var e := PutC(d, c);
            && !e.lost && OnScreen(e.x, e.y) && TextOf(e) == Window(Put(TextOf(d), c))
            && e.video[4000..] == d.video[4000..]
  {
    var t := TextOf(d);
    WindowOfScreen(t);
    PutOnWindow(t, c);
    StoreCellRows(d.video, d.x, d.y, c);
    ScrolledRows(StoreCell(d.video, Here(d), c));
    hide RowOf, RowsOf, Put, Window, SetColumn, Blank, IsPage;
    var v := StoreCell(d.video, Here(d), c);
    assert v[4000..] == d.video[4000..] && Scrolled(v)[4000..] == v[4000..];
  }

  lemma NewlineShows(d: Display)
    requires IsDisplay(d) && OnScreen(d.x, d.y) && !d.lost
    ensures var e := WriteByte(d, NEWLINE);
            && !e.lost && OnScreen(e.x, e.y) && TextOf(e) == Window(Put(TextOf(d), NEWLINE))
            && e.video[4000..] == d.video[4000..]
  {
    var (t, e) := (TextOf(d), WriteByte(d, NEWLINE));
    assert e == if d.y < 24 then d.(x := 0, y := d.y + 1) else Display(Scrolled(d.video), 0, 24, false);
    assert Put(t, NEWLINE) == NextRow(t);
    assert Scrolled(d.video)[4000..] == d.video[4000..];
    hide RowOf, RowsOf, Window, NextRow, Blank, IsPage, Put, WriteByte, Scrolled, Rectangular;
    WindowOfScreen(t);
    NextRowOnWindow(t);
    ScrolledRows(d.video);
  }

  lemma ByteShows(d: Display, c: byte)
    requires IsDisplay(d) && OnScreen(d.x, d.y) && !d.lost
    ensures var e := WriteByte(d, c);
            && !e.lost && OnScreen(e.x, e.y) && TextOf(e) == Window(Put(TextOf(d), c))
            && e.video[4000..] == d.video[4000..]
  {
    if c >= 32 {
      PutShows(d, c);
      hide PutC, TextOf, Put, Window, IsPage;
    } else if c == NEWLINE {
      NewlineShows(d);
    } else {
      hide PutC, RowsOf, Window, IsPage, Scrolled;
      WindowOfScreen(TextOf(d));
    }
  }

  /** terminal_write from a cursor on the screen writes to the page of which the screen is the window. */
  lemma {:induction false} WriteShowsPage(d: Display, bytes: seq<byte>)
    requires IsDisplay(d) && OnScreen(d.x, d.y) && !d.lost
    ensures var e := WriteAll(d, bytes);
            && !e.lost && OnScreen(e.x, e.y) && TextOf(e) == Written(TextOf(d), bytes)
            && e.video[4000..] == d.video[4000..]
    decreases |bytes|
  {
    if bytes == [] {
      WindowOfScreen(TextOf(d));
    } else {
      var (front, last) := (bytes[..|bytes| - 1], bytes[|bytes| - 1]);
      WriteShowsPage(d, front);
      ByteShows(WriteAll(d, front), last);
      assert bytes == front + [last];
      WrittenNext(TextOf(d), front, last);
    }
  }

  lemma WrittenNext(start: Text, a: seq<byte>, c: byte)
    requires IsScreen(start)
    ensures Written(start, a + [c]) == Window(Put(Written(start, a), c))
  {
    LayoutConcat(start, a, [c]);
    PutThroughWindow(Layout(start, a), c);
  }

  // ---------------------------------------------------------------- off the screen

  /** The bytes that go to the cells from a cursor beside the screen on: the printable ones of the first line. */
  function Spilt(bytes: seq<byte>): (r: seq<byte>)
    decreases |bytes|
  {
    if bytes == [] then [] else
    var (front, last) := (bytes[..|bytes| - 1], bytes[|bytes| - 1]);
    Spilt(front) + (if NEWLINE !in bytes && last >= 32 then [last, ATTRIB] else [])
  }

  lemma {:induction false} SpiltCells(bytes: seq<byte>)
    ensures |Spilt(bytes)| % 2 == 0
    ensures forall i :: 0 <= i < |Spilt(bytes)| ==>
              if i % 2 == 0 then Spilt(bytes)[i] >= 32 else Spilt(bytes)[i] == ATTRIB
    decreases |bytes|
  {
    if bytes != [] {
      SpiltCells(bytes[..|bytes| - 1]);
    }
  }

  lemma OverwriteSnoc(v: seq<byte>, a: nat, s: seq<byte>, c: byte)
    requires a % 2 == 0 && |s| % 2 == 0 && a + |s| + 2 <= |v|
    ensures Overwrite(v, a, s + [c, ATTRIB]) == StoreCell(Overwrite(v, a, s), (a + |s|) / 2, c)
  {
  }

  lemma BesideByte(d: Display, c: byte)
    requires IsDisplay(d) && !d.lost && Beside(d.x, d.y) && CursorOk(d.x, d.y) && c != NEWLINE
    ensures WriteByte(d, c) ==
              if c < 32 then d
              else if Here(d) == 8192 then d.(lost := true)
              else d.(video := StoreCell(d.video, Here(d), c), x := d.x + 1)
  {
  }

  lemma StoreCellBehind(v: seq<byte>, n: nat, c: byte)
    requires 2 * n + 1 < |v| && n <= 2000 && |v| >= 4002
    ensures StoreCell(v, n, c)[4002..] == v[4002..] && Scrolled(StoreCell(v, n, c))[4002..] == v[4002..]
    ensures Scrolled(v)[4002..] == v[4002..]
  {
  }

  lemma NotBesideByte(d: Display, c: byte)
    requires IsDisplay(d) && !d.lost && !Beside(d.x, d.y) && CursorOk(d.x, d.y)
    ensures var e := WriteByte(d, c);
            && !e.lost && !Beside(e.x, e.y) && CursorOk(e.x, e.y) && e.video[4002..] == d.video[4002..]
            && (d.y < 25 ==> e.y < 25)
  {
    if Here(d) <= 2000 {
      StoreCellBehind(d.video, Here(d), c);
    }
    hide Scrolled, StoreCell;
  }

  lemma NewlineFromBeside(d: Display)
    requires IsDisplay(d) && !d.lost && Beside(d.x, d.y)
    ensures var e := WriteByte(d, NEWLINE);
            !e.lost && OnScreen(e.x, e.y) && e.video[4002..] == d.video[4002..]
  {
    StoreCellBehind(d.video, 0, 0);
    hide Scrolled, StoreCell;
  }

  /** What a write stores behind the screen, from any cursor: nothing, but for the first line beside the screen. */
  lemma {:induction false} WriteReach(d: Display, bytes: seq<byte>)
    requires IsDisplay(d) && !d.lost && CursorOk(d.x, d.y)
    ensures var (e, s) := (WriteAll(d, bytes), if Beside(d.x, d.y) then Spilt(bytes) else []);
            if 2 * Here(d) + |s| > 0x4000 then e.lost
            else
              && !e.lost && CursorOk(e.x, e.y)
              && e.video[4002..] == Overwrite(d.video, 2 * Here(d), s)[4002..]
              && (Beside(e.x, e.y) <==> Beside(d.x, d.y) && NEWLINE !in bytes)
              && (Beside(e.x, e.y) ==> e.y == d.y && 2 * e.x == 2 * d.x + |s|)
    decreases |bytes|
  {
    var at := 2 * Here(d);
    if bytes == [] {
      assert Overwrite(d.video, at, []) == d.video;
    } else {
      var (front, last) := (bytes[..|bytes| - 1], bytes[|bytes| - 1]);
      WriteReach(d, front);
      SpiltCells(front);
      assert bytes == front + [last];
      hide StoreCell, Scrolled, WriteByte, Overwrite, IsDisplay;
      var (f, s) := (WriteAll(d, front), if Beside(d.x, d.y) then Spilt(front) else []);
      if !f.lost {
        ReachNext(d, f, s, front, last);
      } else {
        LostStays(f, last);
      }
    }
  }

  lemma LostStays(d: Display, c: byte)
    requires IsDisplay(d) && d.lost
    ensures WriteByte(d, c) == d && PutC(d, c) == d
  {
  }

  lemma ReachNext(d: Display, f: Display, s: seq<byte>, front: seq<byte>, last: byte)
    requires IsDisplay(d) && IsDisplay(f) && !f.lost && CursorOk(d.x, d.y) && CursorOk(f.x, f.y)
    requires s == (if Beside(d.x, d.y) then Spilt(front) else []) && |s| % 2 == 0 && 2 * Here(d) + |s| <= 0x4000
    requires f.video[4002..] == Overwrite(d.video, 2 * Here(d), s)[4002..]
    requires Beside(f.x, f.y) <==> Beside(d.x, d.y) && NEWLINE !in front
    requires Beside(f.x, f.y) ==> f.y == d.y && 2 * f.x == 2 * d.x + |s|
    ensures var (e, s2) := (WriteByte(f, last), if Beside(d.x, d.y) then Spilt(front + [last]) else []);
            if 2 * Here(d) + |s2| > 0x4000 then e.lost
            else
              && !e.lost && CursorOk(e.x, e.y)
              && e.video[4002..] == Overwrite(d.video, 2 * Here(d), s2)[4002..]
              && (Beside(e.x, e.y) <==> Beside(d.x, d.y) && NEWLINE !in front + [last])
              && (Beside(e.x, e.y) ==> e.y == d.y && 2 * e.x == 2 * d.x + |s2|)
  {
    hide StoreCell, Scrolled, WriteByte, Overwrite, Spilt;
    SpiltNext(front, last);
    assert s + [] == s;
    if !Beside(f.x, f.y) {
      NotBesideByte(f, last);
    } else if last == NEWLINE {
      NewlineFromBeside(f);
    } else {
      BesideByte(f, last);
      if last >= 32 && Here(f) < 8192 {
        assert (2 * Here(d) + |s|) / 2 == Here(f);
        OverwriteSnoc(d.video, 2 * Here(d), s, last);
        StoreCellTail(f.video, Overwrite(d.video, 2 * Here(d), s), Here(f), last);
      }
    }
  }

  lemma SpiltNext(front: seq<byte>, last: byte)
    ensures NEWLINE !in front + [last] <==> NEWLINE !in front && last != NEWLINE
    ensures Spilt(front + [last])
         == Spilt(front) + (if NEWLINE !in front && last != NEWLINE && last >= 32 then [last, ATTRIB] else [])
  {
    var bytes := front + [last];
    assert bytes[..|front|] == front && bytes[|front|] == last;
  }

  lemma StoreCellTail(v: seq<byte>, w: seq<byte>, n: nat, c: byte)
    requires |v| == |w| && 4002 <= |v| && 2 * n + 1 < |v| && v[4002..] == w[4002..]
    ensures StoreCell(v, n, c)[4002..] == StoreCell(w, n, c)[4002..]
  {
    var (a, b) := (StoreCell(v, n, c), StoreCell(w, n, c));
    forall j | 4002 <= j < |v| ensures a[j] == b[j] {
      assert v[4002..][j - 4002] == w[4002..][j - 4002];
    }
  }

  /**
   * Exactly when a write from beside the screen stays on the first page, whatever video memory holds: if the
   * printable bytes of its first line, two bytes each, end before byte 4096.
   */
  lemma StaysOnPage(x: nat, y: nat, bytes: seq<byte>)
    requires Beside(x, y) && CursorOk(x, y)
    ensures (forall v: seq<byte> :: |v| == 0x4000 ==> KeepsPages(Display(v, x, y, false), bytes))
            <==> Spilt(bytes) == [] || 2 * (80 * y + x) + |Spilt(bytes)| <= 4096
  {
    if Spilt(bytes) == [] || 2 * (80 * y + x) + |Spilt(bytes)| <= 4096 {
      forall v: seq<byte> | |v| == 0x4000 ensures KeepsPages(Display(v, x, y, false), bytes) {
        ShortSpill(Display(v, x, y, false), bytes);
      }
    } else {
      LongSpill(Display(Zeros(0x4000), x, y, false), bytes);
    }
  }

  lemma ShortSpill(d: Display, bytes: seq<byte>)
    requires IsDisplay(d) && !d.lost && Beside(d.x, d.y) && CursorOk(d.x, d.y)
    requires Spilt(bytes) == [] || 2 * Here(d) + |Spilt(bytes)| <= 4096
    ensures KeepsPages(d, bytes)
  {
    var (at, s) := (2 * Here(d), Spilt(bytes));
    WriteReach(d, bytes);
    hide WriteAll, Overwrite, Spilt;
    TailOfTail(WriteAll(d, bytes).video, Overwrite(d.video, at, s));
    if s == [] {
      OverwriteNothing(d.video, at);
    } else {
      RegionElsewhere(d.video, at, s, 4096, 0x4000 - 4096);
      assert Overwrite(d.video, at, s)[4096..] == Region(Overwrite(d.video, at, s), 4096, 0x4000 - 4096);
    }
  }

  lemma LongSpill(d: Display, bytes: seq<byte>)
    requires d.video == Zeros(0x4000) && !d.lost && Beside(d.x, d.y) && CursorOk(d.x, d.y)
    requires Spilt(bytes) != [] && 2 * Here(d) + |Spilt(bytes)| > 4096
    ensures !KeepsPages(d, bytes)
  {
    var (at, s, e) := (2 * Here(d), Spilt(bytes), WriteAll(d, bytes));
    var k := if at < 4096 then 4096 else at;
    WriteReach(d, bytes);
    SpiltCells(bytes);
    hide WriteAll, Overwrite, Spilt;
    if !e.lost {
      SpiltByte(d.video, at, s, k);
      assert e.video[4002..][k - 4002] == Overwrite(d.video, at, s)[4002..][k - 4002];
      assert e.video[4096..][k - 4096] == e.video[k] != 0 == d.video[4096..][k - 4096];
    }
  }

  lemma SpiltByte(v: seq<byte>, at: nat, s: seq<byte>, k: nat)
    requires at <= k < at + |s| <= |v|
    ensures Overwrite(v, at, s)[k] == s[k - at]
  {
  }

  /** No fault, and nothing behind the first page changes. */
  predicate KeepsPages(d: Display, bytes: seq<byte>)
    requires IsDisplay(d)
  {
    !WriteAll(d, bytes).lost && WriteAll(d, bytes).video[4096..] == d.video[4096..]
  }

  lemma TailOfTail(v: seq<byte>, w: seq<byte>)
    requires |v| == |w| == 0x4000 && v[4002..] == w[4002..]
    ensures v[4096..] == w[4096..]
  {
    assert v[4002..][94..] == v[4096..] && w[4002..][94..] == w[4096..];
  }

  /** What brings a cursor in row y back that is off the screen: a newline, or below it any other byte but NUL. */
  ghost predicate Recovers(y: nat, bytes: seq<byte>) {
    if y == 25 then exists b :: b in bytes && b != 0 && b != NEWLINE else NEWLINE in bytes
  }

  lemma RecoversNext(y: nat, a: seq<byte>, c: byte)
    ensures Recovers(y, a + [c]) <==> Recovers(y, a) || Recovers(y, [c])
  {
    assert c in [c] && c in a + [c];
    assert forall b :: b in a ==> b in a + [c];
  }

  lemma ByteRecovers(d: Display, c: byte)
    requires IsDisplay(d) && !d.lost && CursorOk(d.x, d.y) && !OnScreen(d.x, d.y)
    ensures var e := WriteByte(d, c);
            !e.lost ==> (OnScreen(e.x, e.y) <==> Recovers(d.y, [c])) && (!OnScreen(e.x, e.y) ==> e.y == d.y)
  {
    hide Scrolled, StoreCell;
    assert c in [c];
  }

  /** When a write brings back a cursor that is off the screen. */
  lemma {:induction false} WriteRecovers(d: Display, bytes: seq<byte>)
    requires IsDisplay(d) && !d.lost && CursorOk(d.x, d.y) && !OnScreen(d.x, d.y)
    ensures var e := WriteAll(d, bytes);
            !e.lost ==> (OnScreen(e.x, e.y) <==> Recovers(d.y, bytes)) && (!OnScreen(e.x, e.y) ==> e.y == d.y)
    decreases |bytes|
  {
    if bytes != [] {
      var (front, last) := (bytes[..|bytes| - 1], bytes[|bytes| - 1]);
      assert bytes == front + [last];
      WriteRecovers(d, front);
      RecoversNext(d.y, front, last);
      WriteReach(d, front);
      hide Recovers, WriteByte, Overwrite, Spilt;
      var f := WriteAll(d, front);
      if f.lost {
        LostStays(f, last);
      } else if OnScreen(f.x, f.y) {
        ByteShows(f, last);
      } else {
        ByteRecovers(f, last);
      }
    }
  }

  // ---------------------------------------------------------------- messages of the kernel

  /** Printable text is printed as terminal_write writes it, and ends in rows 0 to 24. */
  lemma {:induction false} PrintIsWrite(d: Display, text: seq<byte>)
    requires IsDisplay(d) && !d.lost && CursorOk(d.x, d.y) && AllPrintable(text)
    ensures Print(d, text) == WriteAll(d, text)
    ensures text != [] && !Print(d, text).lost ==> Print(d, text).y < 25
    decreases |text|
  {
    if text != [] {
      var (front, last) := (text[..|text| - 1], text[|text| - 1]);
      PrintIsWrite(d, front);
      WriteReach(d, front);
      hide Overwrite, Spilt, Scrolled, StoreCell, WriteAll, Print;
      assert Print(d, text) == PutC(Print(d, front), last) && WriteAll(d, text) == WriteByte(WriteAll(d, front), last);
    }
  }

  // ---------------------------------------------------------------- what is shown depends on what was shown

  /** The same screen and cursor; what is kept behind the screen may differ. */
  predicate SameShown(d: Display, e: Display) {
    IsDisplay(d) && IsDisplay(e) && d.video[..4000] == e.video[..4000] && d.(video := []) == e.(video := [])
  }

  lemma PlaceShown(d: Display, e: Display, c: byte)
    requires SameShown(d, e)
    ensures SameShown(Place(d, c), Place(e, c))
  {
    if !d.lost && Here(d) < 8192 {
      var (v, w) := (Place(d, c).video, Place(e, c).video);
      forall j | 0 <= j < 4000 ensures v[j] == w[j] {
        assert d.video[..4000][j] == e.video[..4000][j];
      }
    }
  }

  lemma ScrollShown(d: Display, e: Display)
    requires SameShown(d, e)
    ensures SameShown(Scroll(d), Scroll(e))
  {
    var (v, w) := (Scrolled(d.video), Scrolled(e.video));
    forall j | 0 <= j < 4000 ensures v[j] == w[j] {
      assert j < 3840 ==> d.video[..4000][j + 160] == e.video[..4000][j + 160];
    }
  }

  lemma BlankedShown(v: seq<byte>, w: seq<byte>)
    requires |v| >= 4000 && |w| >= 4000
    ensures Blanked(v)[..4000] == Blanked(w)[..4000]
  {
  }

  lemma PutShown(d: Display, e: Display, c: byte)
    requires SameShown(d, e)
    ensures SameShown(PutC(d, c), PutC(e, c))
  {
    PlaceShown(d, e, c);
    hide Place, Scrolled;
    ScrollShown(Advance(Place(d, c)), Advance(Place(e, c)));
    hide Scroll;
  }

  lemma ByteShown(d: Display, e: Display, c: byte)
    requires SameShown(d, e)
    ensures SameShown(WriteByte(d, c), WriteByte(e, c))
  {
    PutShown(d, e, c);
    hide PutC, Scroll;
    ScrollShown(PutC(d, c), PutC(e, c));
    ScrollShown(d, e);
  }

  lemma {:induction false} WriteShown(d: Display, e: Display, bytes: seq<byte>)
    requires SameShown(d, e)
    ensures SameShown(WriteAll(d, bytes), WriteAll(e, bytes))
    decreases |bytes|
  {
    if bytes != [] {
      var (front, last) := (bytes[..|bytes| - 1], bytes[|bytes| - 1]);
      WriteShown(d, e, front);
      ByteShown(WriteAll(d, front), WriteAll(e, front), last);
    }
  }

  lemma {:induction false} PrintShown(d: Display, e: Display, bytes: seq<byte>)
    requires SameShown(d, e)
    ensures SameShown(Print(d, bytes), Print(e, bytes))
    decreases |bytes|
  {
    if bytes != [] {
      var (front, last) := (bytes[..|bytes| - 1], bytes[|bytes| - 1]);
      PrintShown(d, e, front);
      PutShown(Print(d, front), Print(e, front), last);
    }
  }
}
