/** Keys, output and reads of the line: each is the console operation on the terminal in front. */
module ConsoleSteps {
  import opened Bytes
  import opened FileSystem
  import opened Memory
  import opened Slots
  import opened Screen
  import opened Editor
  import opened Keyboards
  import opened Machine
  import opened Sessions
  import opened Refinement
  import opened Simulation
  import opened Fronts
  import P = Paging

  // ---------------------------------------------------------------- a new console for the terminal in front

  /** What terminals behind have saved in the four pages is as it was. */
  ghost predicate SavedStays(w: World, was: seq<byte>, video: seq<byte>)
    requires |w.sessions| == 3
  {
    && |was| == |video| == 0x4000
    && forall t :: 0 <= t < 3 && t != w.current && w.sessions[t].Some? ==>
         Region(video, SavedScreen(t) - VIDEO, 4000) == Region(was, SavedScreen(t) - VIDEO, 4000)
  }

  /** A region of the pages, in memory. */
  lemma PagesInMemory(mem: seq<byte>, video: seq<byte>, at: nat)
    requires IsMemory(mem) && |video| == 0x4000 && at + 4000 <= 0x4000
    ensures Region(Overwrite(mem, VIDEO, video), VIDEO + at, 4000) == Region(video, at, 4000)
    ensures Region(mem, VIDEO + at, 4000) == Region(Region(mem, VIDEO, 0x4000), at, 4000)
  {
    hide Region, Overwrite;
    RegionWritten(mem, VIDEO, video);
    RegionOfRegion(Overwrite(mem, VIDEO, video), VIDEO, 0x4000, at, 4000);
    RegionOfRegion(mem, VIDEO, 0x4000, at, 4000);
  }

  lemma FirstBytes(video: seq<byte>)
    requires |video| == 0x4000
    ensures Region(video, 0, 4000) == video[..4000]
  {
  }

  lemma ShowSized(fs: seq<byte>, s: State, c: Console)
    requires Sized(fs, s) && IsConsole(c) && !c.display.lost
    ensures Sized(fs, Show(s, c))
    ensures forall q :: 0 <= q < 6 ==> SameSlot(s, Show(s, c), q)
  {
    hide GoodFile, P.Shape;
    forall q | 0 <= q < 6 ensures SameSlot(s, Show(s, c), q) {
      LowWrite(s.mem, VIDEO, c.display.video, q);
    }
  }

  /** A console that leaves the saved screens alone, with the keyboard as it was. */
  lemma DisplayChange(fs: seq<byte>, s: State, w: World, c: Console)
    requires R(fs, s, w) && IsConsole(c) && !c.display.lost && CursorOk(c.display.x, c.display.y) && c.board == w.board
    requires IsMemory(s.mem) && SavedStays(w, ConsoleOf(s).display.video, c.display.video)
    ensures FrontReady(w) && R(fs, Show(s, c), Faced(w, c))
  {
    hide R, Sized, IsWorld, Overwrite, StackMatches, TermMatches, SlotsOf, StackOk, FrameOf, SameSlot, ConsoleOk;
    FrontKnown(fs, s, w);
    var (f, s1) := (Front(w), Show(s, c));
    ShowSized(fs, s, c);
    StackKept(fs, s, s1, f.stack);
    PagesInMemory(s.mem, c.display.video, 0);
    FirstBytes(c.display.video);
    forall t | 0 <= t < 3 && t != w.current && w.sessions[t].Some? ensures SameScreen(s, s1, t) {
      PagesInMemory(s.mem, c.display.video, SavedScreen(t) - VIDEO);
    }
    FrontChange(fs, s, s1, w, f.(view := View(c.display.video[..4000], c.display.x, c.display.y, c.keys)));
  }

  /** A console that leaves the saved screens alone can be shown. */
  lemma ConsoleChange(fs: seq<byte>, s: State, w: World, c: Console)
    requires R(fs, s, w) && IsConsole(c) && !c.display.lost && CursorOk(c.display.x, c.display.y)
    requires IsMemory(s.mem) && SavedStays(w, ConsoleOf(s).display.video, c.display.video)
    ensures FrontReady(w) && R(fs, Show(s, c), Faced(w, c))
  {
    RParts(fs, s, w);
    hide R, Sized, IsWorld, Overwrite, SavedStays, IsDisplay, CursorOk;
    var c1 := c.(board := w.board);
    DisplayChange(fs, s, w, c1);
    BoardChange(fs, Show(s, c1), Faced(w, c1), c.board);
  }

  /** The console in the state shows what the terminal in front shows. */
  lemma SameAsFacing(fs: seq<byte>, s: State, w: World)
    requires R(fs, s, w)
    ensures IsMemory(s.mem) && FrontReady(w) && IsConsole(ConsoleOf(s)) && SameConsole(ConsoleOf(s), Facing(w))
    ensures !ConsoleOf(s).display.lost && CursorOk(s.cursorX, s.cursorY)
    ensures (s.cursorX, s.cursorY) == (Front(w).view.x, Front(w).view.y)
  {
    assert TermMatches(fs, s, w, w.current);
    PagesInMemory(s.mem, Zeros(0x4000), 0);
    StackInRange(w);
    hide P.LaidOut, Live, Visible, SlotsMatch;
    assert IsProcess(Top(Front(w)));
  }

  /** What is faced depends on what is shown only. */
  lemma FacedSame(w: World, c: Console, e: Console)
    requires FrontReady(w) && IsConsole(c) && IsConsole(e) && SameConsole(c, e)
    ensures Faced(w, c) == Faced(w, e)
  {
  }

  /** Nothing behind the first page changes, or only at safe addresses. */
  lemma SafeSpill(w: World, was: seq<byte>, video: seq<byte>, at: nat, spilt: seq<byte>)
    requires |w.sessions| == 3 && |was| == |video| == 0x4000
    requires at + |spilt| <= 0x4000 && video[4002..] == Overwrite(was, at, spilt)[4002..]
    requires spilt == [] || SafeBuffer(w, VIDEO + at, |spilt|)
    ensures SavedStays(w, was, video)
  {
    forall t | 0 <= t < 3 && t != w.current && w.sessions[t].Some?
      ensures Region(video, SavedScreen(t) - VIDEO, 4000) == Region(was, SavedScreen(t) - VIDEO, 4000)
    {
      var b := SavedScreen(t) - VIDEO;
      forall j | b <= j < b + 4000 ensures video[j] == was[j] {
        assert video[4002..][j - 4002] == Overwrite(was, at, spilt)[4002..][j - 4002];
        if at <= j < at + |spilt| {
          SpillUnsafe(w, at, |spilt|, t, j);
        }
      }
    }
  }

  lemma SpillUnsafe(w: World, at: nat, n: nat, t: nat, j: nat)
    requires |w.sessions| == 3 && t < 3 && t != w.current && w.sessions[t].Some? && at <= 0x4000
    requires SavedScreen(t) <= VIDEO + j < SavedScreen(t) + 4000 && at <= j < at + n
    ensures !SafeBuffer(w, VIDEO + at, n)
  {
    assert !SafeTarget(w, At(VIDEO + at, j - at));
  }

  /** A buffer that runs past the four pages is not safe. */
  lemma PastPages(w: World, at: nat, n: nat)
    requires |w.sessions| == 3 && at <= 0x4000 && at + n > 0x4000
    ensures !SafeBuffer(w, VIDEO + at, n)
  {
    assert !SafeTarget(w, At(VIDEO + at, 0x4000 - at));
  }

  /** A write that goes to safe addresses only, if anywhere behind the screen. */
  lemma SafeWriteFits(w: World, d: Display, bytes: seq<byte>)
    requires |w.sessions| == 3 && IsDisplay(d) && !d.lost && CursorOk(d.x, d.y)
    requires Beside(d.x, d.y) ==> SafeBuffer(w, VIDEO + 2 * Here(d), |Spilt(bytes)|)
    ensures var e := WriteAll(d, bytes);
            !e.lost && CursorOk(e.x, e.y) && SavedStays(w, d.video, e.video)
  {
    var (at, spilt) := (2 * Here(d), if Beside(d.x, d.y) then Spilt(bytes) else []);
    WriteReach(d, bytes);
    hide WriteAll, Spilt, Overwrite, SafeBuffer, SavedStays;
    if at + |spilt| > 0x4000 {
      PastPages(w, at, |spilt|);
    } else {
      SafeSpill(w, d.video, WriteAll(d, bytes).video, at, spilt);
    }
  }

  /** What a write that is safe does to the four pages. */
  lemma WriteFits(fs: seq<byte>, s: State, w: World, bytes: seq<byte>)
    requires R(fs, s, w) && WriteSafe(w, bytes)
    ensures IsMemory(s.mem)
    ensures var (d, e) := (ConsoleOf(s).display, WriteAll(ConsoleOf(s).display, bytes));
            !e.lost && CursorOk(e.x, e.y) && SavedStays(w, d.video, e.video)
  {
    SameAsFacing(fs, s, w);
    hide R, WriteAll, Spilt, SafeBuffer, SavedStays, IsWorld;
    SafeWriteFits(w, ConsoleOf(s).display, bytes);
  }

  // ---------------------------------------------------------------- output

  lemma WriteSimulates(fs: seq<byte>, s: State, w: World, bytes: seq<byte>)
    requires R(fs, s, w) && WriteSafe(w, bytes)
    ensures IsMemory(s.mem) && |s.keys| == 128 && IsBoard(s.board) && |s.terms| == 3 && s.current < 3 && FrontReady(w)
    ensures R(fs, WriteStep(s, bytes), Faced(w, WriteOn(Facing(w), bytes)))
  {
    SizedParts(fs, s);
    SameAsFacing(fs, s, w);
    WriteFits(fs, s, w, bytes);
    WriteShown(ConsoleOf(s).display, Facing(w).display, bytes);
    hide R, WriteAll, SavedStays, Faced, Facing, ConsoleOf;
    var c := WriteOn(ConsoleOf(s), bytes);
    ConsoleChange(fs, s, w, c);
    FacedSame(w, c, WriteOn(Facing(w), bytes));
    hide WriteOn, Show;
    RecordChange(fs, Show(s, c), Faced(w, c), Show(s, c).cursorX, Show(s, c).cursorY);
  }

  /** The record of the terminal in front is written before it is read. */
  lemma RecordChange(fs: seq<byte>, s: State, w: World, x: nat, y: nat)
    requires R(fs, s, w)
    ensures |s.terms| == 3 && s.current < 3
    ensures R(fs, s.(terms := s.terms[s.current := s.terms[s.current].(cursorX := x, cursorY := y)]), w)
  {
    RecordSized(fs, s, x, y);
    hide R, Sized, IsWorld, TermMatches, StackMatches, FrameOf, SlotsOf, StackOk, ConsoleOk, IsView, FrontReady, Region;
    FrontKnown(fs, s, w);
    var s2 := s.(terms := s.terms[s.current := s.terms[s.current].(cursorX := x, cursorY := y)]);
    StackKept(fs, s, s2, Front(w).stack);
    FrontIs(w);
    FrontChange(fs, s, s2, w, Front(w));
  }

  lemma FrontIs(w: World)
    requires FrontReady(w)
    ensures |w.sessions| == 3 && w.current < 3 && w.sessions[w.current].Some? && WithFront(w, Front(w)) == w
  {
  }

  lemma RecordSized(fs: seq<byte>, s: State, x: nat, y: nat)
    requires Sized(fs, s)
    ensures Sized(fs, s.(terms := s.terms[s.current := s.terms[s.current].(cursorX := x, cursorY := y)]))
  {
    hide GoodFile, FileLength, P.Shape;
  }

  /** A line printed by the kernel. */
  lemma PrintSimulates(fs: seq<byte>, s: State, w: World, text: seq<byte>)
    requires R(fs, s, w) && AllPrintable(text) && text != [] && WriteSafe(w, text)
    ensures IsMemory(s.mem) && FrontReady(w)
    ensures R(fs, PrintStep(s, text + [NEWLINE]), Printed(w, text + [NEWLINE]))
  {
    SameAsFacing(fs, s, w);
    WriteFits(fs, s, w, text);
    var c := ConsoleOf(s);
    PrintIsWrite(c.display, text);
    WriteSnoc(c.display, text, NEWLINE);
    PrintShown(c.display, Facing(w).display, text + [NEWLINE]);
    hide R, WriteAll, Faced, Facing, ConsoleOf, Print;
    var e := c.(display := Print(c.display, text + [NEWLINE]));
    assert e.display == Print(c.display, text).(x := 0, y := Print(c.display, text).y + 1);
    ConsoleChange(fs, s, w, e);
    FacedSame(w, e, Facing(w).(display := Print(Facing(w).display, text + [NEWLINE])));
  }

  // ---------------------------------------------------------------- keys

  lemma CrowdedIsFewSlots(fs: seq<byte>, s: State, w: World)
    requires R(fs, s, w)
    ensures IsWorld(w) && (Crowded(s.processes) <==> FewSlots(w))
  {
    CrowdedMask(s.processes);
  }

  lemma InterruptSimulates(fs: seq<byte>, s: State, w: World, scancode: byte)
    requires R(fs, s, w) && IsWorld(w)
    requires Warns(w.board.ctrl, scancode, FewSlots(w)) ==> WriteSafe(w, Chars(WARNING))
    ensures IsMemory(s.mem) && |s.keys| == 128 && IsBoard(s.board) && FrontReady(w)
    ensures R(fs, InterruptStep(s, scancode), Faced(w, KeyOn(Facing(w), scancode, FewSlots(w))))
  {
    SizedParts(fs, s);
    SameAsFacing(fs, s, w);
    CrowdedIsFewSlots(fs, s, w);
    var (c, crowded) := (ConsoleOf(s), Crowded(s.processes));
    KeyShown(c, Facing(w), scancode, crowded);
    if Warns(c.board.ctrl, scancode, crowded) {
      WriteFits(fs, s, w, Chars(WARNING));
    } else {
      KeyMoves(c, scancode, crowded);
      OverwriteNothing(c.display.video, 0);
      SafeSpill(w, c.display.video, KeyOn(c, scancode, crowded).display.video, 0, []);
    }
    var e := KeyOn(c, scancode, crowded);
    assert !e.display.lost && CursorOk(e.display.x, e.display.y) && SavedStays(w, c.display.video, e.display.video);
    hide R, KeyOn, SavedStays, Faced, Facing, ConsoleOf, Crowded;
    ConsoleChange(fs, s, w, e);
    FacedSame(w, e, KeyOn(Facing(w), scancode, crowded));
  }

  /** Taking the line from the keyboard, before it goes into the buffer. */
  lemma TakeSimulates(fs: seq<byte>, s: State, w: World)
    requires R(fs, s, w)
    ensures IsMemory(s.mem) && IsConsole(ConsoleOf(s)) && FrontReady(w)
    ensures R(fs, Show(s, TakeOn(ConsoleOf(s))), Faced(w, TakeOn(Facing(w))))
  {
    SameAsFacing(fs, s, w);
    var c := ConsoleOf(s);
    OverwriteNothing(c.display.video, 0);
    SafeSpill(w, c.display.video, c.display.video, 0, []);
    hide R, SavedStays, Faced, Facing, ConsoleOf;
    ConsoleChange(fs, s, w, TakeOn(c));
    FacedSame(w, TakeOn(c), TakeOn(Facing(w)));
  }
}
