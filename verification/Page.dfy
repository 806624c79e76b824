/**
 * An unbounded page of 80-column text, and the 25-row window on it that the screen shows.
 */
module Page {
  import opened Bytes

  type Row = seq<byte>

  /** Rows of text and a cursor at column x of row y. */
  datatype Text = Text(rows: seq<Row>, x: nat, y: nat)

  function Blank(): (r: Row)
    ensures |r| == 80 && forall i :: 0 <= i < 80 ==> r[i] == SPACE
  {
    seq(80, _ => SPACE)
  }

  predicate Rectangular(rows: seq<Row>) {
    forall r :: 0 <= r < |rows| ==> |rows[r]| == 80
  }

  /** At least 25 rows, with the cursor on one of the last 25. */
  predicate IsPage(p: Text) {
    Rectangular(p.rows) && p.x < 80 && |p.rows| >= 25 && |p.rows| - 25 <= p.y < |p.rows|
  }

  predicate OnScreen(x: nat, y: nat) {
    x < 80 && y < 25
  }

  predicate IsScreen(s: Text) {
    IsPage(s) && |s.rows| == 25
  }

  /** Carriage return and line feed; the page grows at the bottom. */
  function NextRow(p: Text): (q: Text)
    requires IsPage(p)
    ensures IsPage(q)
  {
    Text(if p.y + 1 == |p.rows| then p.rows + [Blank()] else p.rows, 0, p.y + 1)
  }

  function SetColumn(row: Row, x: nat, c: byte): Row
    requires x < |row|
  {
    row[x := c]
  }

  function SetCell(p: Text, c: byte): (q: Text)
    requires IsPage(p)
    ensures IsPage(q)
  {
    p.(rows := p.rows[p.y := SetColumn(p.rows[p.y], p.x, c)])
  }

  /** Newlines start a row, printable characters fill a cell and wrap at 80, other bytes are dropped. */
  function Put(p: Text, c: byte): (q: Text)
    requires IsPage(p)
    ensures IsPage(q) && |p.rows| <= |q.rows|
  {
    if c == NEWLINE then NextRow(p)
    else if c < 32 then p
    else
      var q := SetCell(p, c);
      if p.x == 79 then NextRow(q) else q.(x := p.x + 1)
  }

  function Layout(p: Text, bytes: seq<byte>): (q: Text)
    requires IsPage(p)
    ensures IsPage(q)
    decreases |bytes|
  {
    if bytes == [] then p else Layout(Put(p, bytes[0]), bytes[1..])
  }

  /** The last 25 rows. */
  function Window(p: Text): (s: Text)
    requires IsPage(p)
    ensures IsScreen(s)
  {
    Text(p.rows[|p.rows| - 25..], p.x, p.y - (|p.rows| - 25))
  }

  lemma WindowOfScreen(s: Text)
    requires IsScreen(s)
    ensures Window(s) == s
  {
  }

  /** A cell of the page is set on the window. */
  lemma SetOnWindow(p: Text, c: byte)
    requires IsPage(p)
    ensures var w := Window(p);
            Window(SetCell(p, c)) == Text(w.rows[w.y := SetColumn(w.rows[w.y], w.x, c)], w.x, w.y)
  {
    var (w, n) := (Window(p), |p.rows| - 25);
    var row := SetColumn(p.rows[p.y], p.x, c);
    assert p.rows[p.y := row][n..] == w.rows[w.y := row];
  }

  lemma NextRowOnWindow(p: Text)
    requires IsPage(p)
    ensures var w := Window(p);
            Window(NextRow(p)) == if w.y < 24 then Text(w.rows, 0, w.y + 1) else Text(w.rows[1..] + [Blank()], 0, 24)
  {
    hide Blank;
    var n := |p.rows| - 25;
    assert (p.rows + [Blank()])[n + 1..] == p.rows[n..][1..] + [Blank()];
  }

  /** A printable character on the screen, in the last column or before it. */
  lemma PutOnWindow(p: Text, c: byte)
    requires IsPage(p) && c >= 32
    ensures var w := Window(p);
            var rows := w.rows[w.y := SetColumn(w.rows[w.y], w.x, c)];
            Window(Put(p, c)) ==
              if w.x < 79 then Text(rows, w.x + 1, w.y)
              else if w.y < 24 then Text(rows, 0, w.y + 1)
              else Text(rows[1..] + [Blank()], 0, 24)
  {
    SetOnWindow(p, c);
    if p.x == 79 {
      NextRowOnWindow(SetCell(p, c));
    }
    hide Blank, SetColumn, NextRow;
  }

  /** A screen is a page of 25 rows: what scrolled out does not matter for what comes. */
  lemma PutThroughWindow(p: Text, c: byte)
    requires IsPage(p)
    ensures Window(Put(p, c)) == Window(Put(Window(p), c))
  {
    hide Window, Blank, NextRow, SetColumn, SetCell, IsPage;
    WindowOfScreen(Window(p));
    if c >= 32 {
      PutOnWindow(p, c);
      PutOnWindow(Window(p), c);
      hide Put;
    } else if c == NEWLINE {
      NextRowOnWindow(p);
      NextRowOnWindow(Window(p));
    }
  }

  lemma {:induction false} LayoutThroughWindow(p: Text, bytes: seq<byte>)
    requires IsPage(p)
    ensures Window(Layout(p, bytes)) == Window(Layout(Window(p), bytes))
    decreases |bytes|
  {
    if bytes != [] {
      LayoutThroughWindow(Put(p, bytes[0]), bytes[1..]);
      LayoutThroughWindow(Put(Window(p), bytes[0]), bytes[1..]);
      PutThroughWindow(p, bytes[0]);
    }
  }

  lemma {:induction false} LayoutConcat(p: Text, a: seq<byte>, b: seq<byte>)
    requires IsPage(p)
    ensures Layout(p, a + b) == Layout(Layout(p, a), b)
    decreases |a|
  {
    if a == [] {
      assert a + b == b;
    } else {
      LayoutConcat(Put(p, a[0]), a[1..], b);
      assert (a + b)[1..] == a[1..] + b;
    }
  }

  /** What a screen shows after bytes are written to it. */
  function Written(s: Text, bytes: seq<byte>): (t: Text)
    requires IsScreen(s)
    ensures IsScreen(t)
  {
    Window(Layout(s, bytes))
  }

  /** Writing in two pieces is writing at once. */
  lemma WritesCompose(s: Text, a: seq<byte>, b: seq<byte>)
    requires IsScreen(s)
    ensures Written(Written(s, a), b) == Written(s, a + b)
  {
    LayoutConcat(s, a, b);
    LayoutThroughWindow(Layout(s, a), b);
  }

  /** The cell at a reading position, rows one after the other. */
  function Cell(p: Text, n: nat): byte
    requires IsPage(p) && n < 80 * |p.rows|
  {
    p.rows[n / 80][n % 80]
  }

  function Position(p: Text): nat {
    80 * p.y + p.x
  }

  lemma PutPrintable(p: Text, c: byte)
    requires IsPage(p) && c >= 32
    ensures var q := Put(p, c);
            && Position(q) == Position(p) + 1
            && Cell(q, Position(p)) == c
            && forall n :: 0 <= n < Position(p) ==> Cell(q, n) == Cell(p, n)
  {
    var q := Put(p, c);
    assert Position(p) / 80 == p.y && Position(p) % 80 == p.x;
    forall n | 0 <= n < Position(p) ensures Cell(q, n) == Cell(p, n) {
      assert n / 80 < p.y || (n / 80 == p.y && n % 80 < p.x);
    }
  }

  /** Printable bytes land one per cell in reading order, and nothing before them changes. */
  lemma {:induction false} PrintablesInReadingOrder(p: Text, bytes: seq<byte>)
    requires IsPage(p) && forall i :: 0 <= i < |bytes| ==> bytes[i] >= 32
    ensures var q := Layout(p, bytes);
            && Position(q) == Position(p) + |bytes|
            && (forall i :: 0 <= i < |bytes| ==> Cell(q, Position(p) + i) == bytes[i])
            && (forall n :: 0 <= n < Position(p) ==> Cell(q, n) == Cell(p, n))
    decreases |bytes|
  {
    if bytes != [] {
      PutPrintable(p, bytes[0]);
      var p1, q := Put(p, bytes[0]), Layout(p, bytes);
      PrintablesInReadingOrder(p1, bytes[1..]);
      forall i | 0 <= i < |bytes| ensures Cell(q, Position(p) + i) == bytes[i] {
        if i > 0 {
          assert Cell(q, Position(p1) + (i - 1)) == bytes[1..][i - 1];
        }
      }
    }
  }
}
