/** What single steps do to the machine, in addresses, bytes and characters. */
module Effects {
  import opened Bytes
  import opened FileSystem
  import opened Descriptors
  import opened CommandLine
  import opened Memory
  import opened Slots
  import opened Screen
  import opened Keyboards
  import opened Machine
  import opened Simulation
  import opened Steps
  import P = Paging
  import K = Kernel

  // ---------------------------------------------------------------- switching

  /** Going to a terminal in use exchanges screens, which are kept from 0xB9000 on, one page for each terminal. */
  lemma SwitchMovesScreens(fs: seq<byte>, s: State, t: nat, junk: seq<byte>, k: nat)
    requires Sized(fs, s) && ShellOk(fs) && |junk| == 4 && t < 3 && t != s.current && k < 0x200_0000
    requires s.terms[t].beenHere && s.terms[t].running.Some?
    ensures var (m, kept) := (SwitchStep(fs, s, t, junk).mem, 0xB_9000 + 0x1000 * s.current);
            && |m| == 0x200_0000
            && m[k] == if 0xB_8000 <= k < 0xB_8000 + 4000 then s.mem[k + 0x1000 * (t + 1)]
                       else if kept <= k < kept + 4000 then s.mem[k - 0x1000 * (s.current + 1)]
                       else s.mem[k]
  {
    hide GoodFile, GoodImage, ShellOk, GoodTable, Overwrite, Region;
    ScreensMoved(s.mem, s.current, t, k);
  }

  lemma ScreensMoved(m: seq<byte>, c: nat, t: nat, k: nat)
    requires IsMemory(m) && c < 3 && t < 3 && t != c && k < 0x200_0000
    ensures var (kept, m1) := (0xB_9000 + 0x1000 * c, Overwrite(m, SavedScreen(c), Region(m, VIDEO, 4000)));
            Overwrite(m1, VIDEO, Region(m1, SavedScreen(t), 4000))[k]
            == if 0xB_8000 <= k < 0xB_8000 + 4000 then m[k + 0x1000 * (t + 1)]
               else if kept <= k < kept + 4000 then m[k - 0x1000 * (c + 1)]
               else m[k]
  {
  }

  /** Cursor, keys, stack pointers and mapping become those of the terminal, and nothing else changes. */
  lemma SwitchLoads(fs: seq<byte>, s: State, t: nat, junk: seq<byte>)
    requires Sized(fs, s) && ShellOk(fs) && |junk| == 4 && t < 3 && t != s.current
    requires s.terms[t].beenHere && s.terms[t].running.Some?
    ensures var (s2, there, c) := (SwitchStep(fs, s, t, junk), s.terms[t], s.current);
            var number := s.pcbs[there.running.value].processNum;
            s2 == s.(current := t, cursorX := there.cursorX, cursorY := there.cursorY, keys := there.keyboard,
                     esp := there.esp, ebp := there.ebp, esp0 := there.esp0, board := s.board.(ctrl := false),
                     paging := s.paging.(directory := s.paging.directory[0x20 := 0x80_0087 + 0x40_0000 * number]),
                     terms := s.terms[c := s.terms[c].(
                       cursorX := s.cursorX, cursorY := s.cursorY, keyboard := s.keys,
                       esp := s.esp, ebp := s.ebp, esp0 := s.esp0)],
                     mem := s2.mem)
  {
    hide GoodFile, GoodImage, ShellOk, GoodTable, Overwrite, Region;
  }

  /**
   * A first visit starts the shell there, on a blank screen with the cursor at its top left. What had been typed
   * in the terminal that was left stays in the key buffer.
   */
  lemma FirstVisitStartsShell(fs: seq<byte>, s: State, t: nat, junk: seq<byte>, p: nat)
    requires Sized(fs, s) && ShellOk(fs) && |junk| == 4 && t < 3 && t != s.current
    requires !s.terms[t].beenHere && FreeSlot(s.processes, 0) == Some(p)
    ensures var s2 := SwitchStep(fs, s, t, junk);
            && s2.current == t && RunsShell(s2, p)
            && (s2.cursorX, s2.cursorY, s2.keys, s2.board) == (0, 0, s.keys, s.board.(ctrl := false))
            && ShowsBlank(s2.mem)
  {
    VisitInstalls(fs, s, t, junk, p);
    SizedParts(fs, s);
    hide Install, ShellOk, Shell, SwitchStep, Sized, RunsShell, Cleared;
    ClearedIs(s, t);
    ShellInstalled(fs, Cleared(s, t), Shell(fs), p);
  }

  lemma ClearedIs(s: State, t: nat)
    requires |s.terms| == 3 && s.current < 3 && IsMemory(s.mem) && t < 3 && t != s.current
    ensures var c := Cleared(s, t);
            && c.current == t && |c.terms| == 3 && c.terms[t] == s.terms[t] && IsMemory(c.mem)
            && (c.cursorX, c.cursorY, c.keys, c.board) == (0, 0, s.keys, s.board.(ctrl := false))
            && ShowsBlank(c.mem)
  {
    hide Region;
  }

  /** Blank cells with attribute 2 all over the screen. */
  ghost predicate ShowsBlank(m: seq<byte>) {
    IsMemory(m) && forall k :: 0xB_8000 <= k < 0xB_8000 + 4000 ==> m[k] == if k % 2 == 0 then 32 else 2
  }

  /** The terminal in front runs the base shell, in slot p: its name, no arguments, the console only. */
  ghost predicate RunsShell(s: State, p: nat) {
    && |s.pcbs| == 6 && |s.terms| == 3 && s.current < 3 && p < 6
    && s.terms[s.current].beenHere && s.terms[s.current].running == Some(p)
    && s.pcbs[p].termStart && s.pcbs[p].processNum == p
    && s.pcbs[p].filename == Chars("shell") + Zeros(27) && s.pcbs[p].args == Zeros(95)
  }

  lemma VisitInstalls(fs: seq<byte>, s: State, t: nat, junk: seq<byte>, p: nat)
    requires Sized(fs, s) && ShellOk(fs) && |junk| == 4 && t < 3 && t != s.current
    requires !s.terms[t].beenHere && FreeSlot(s.processes, 0) == Some(p)
    ensures IsMemory(s.mem) && Sized(fs, Cleared(s, t))
    ensures SwitchStep(fs, s, t, junk) == Install(fs, Cleared(s, t), SHELL, Shell(fs), p)
  {
    ShellIsExecutable(fs, junk);
    ClearedIsSized(fs, s, t);
    hide ShellOk, Shell, Executable, CommandOk, GoodFile, Overwrite, Install, FileName, GoodTable, Region;
  }

  lemma ClearedIsSized(fs: seq<byte>, s: State, t: nat)
    requires Sized(fs, s) && t < 3
    ensures IsMemory(s.mem) && Sized(fs, Cleared(s, t)) && Cleared(s, t).processes == s.processes
  {
    hide GoodFile, Overwrite, Region, GoodTable;
  }

  lemma ShellInstalled(fs: seq<byte>, s: State, inode: nat, p: nat)
    requires Sized(fs, s) && Loadable(fs, inode) && p < 6 && !s.terms[s.current].beenHere && ShowsBlank(s.mem)
    ensures var s2 := Install(fs, s, SHELL, inode, p);
            && s2.current == s.current && RunsShell(s2, p) && ShowsBlank(s2.mem)
            && (s2.cursorX, s2.cursorY, s2.keys, s2.board) == (s.cursorX, s.cursorY, s.keys, s.board)
  {
    ShellIsOneWord();
    ShellHasNoArguments();
    assert SHELL == Chars("shell");
    LoadLeavesScreen(s.mem, Content(fs, inode), p);
    hide FileName, Args, Overwrite, Content, GoodFile, WordAt, WithConsole, Chars, GoodTable, MapImage, ShowsBlank;
  }

  lemma ShellHasNoArguments()
    ensures Args(SHELL) == []
  {
    WordAdded(SHELL, []);
    SkipNothing(SHELL);
    assert SHELL + [] == SHELL;
  }

  lemma LoadLeavesScreen(m: seq<byte>, data: seq<byte>, p: nat)
    requires p < 6 && |data| <= 0x40_0000 - 0x4_8000 && ShowsBlank(m)
    ensures ShowsBlank(Overwrite(m, FrameAt(p) + 0x4_8000, data))
  {
  }

  // ---------------------------------------------------------------- halting

  /**
   * A process in slot p that is not a base shell gives back its bit, its files from descriptor 2 on, its name and
   * its arguments, and its parent in slot q gets the processor, with the stack pointers it had.
   */
  lemma HaltReturns(fs: seq<byte>, s: State, junk: seq<byte>, p: nat, q: nat)
    requires Sized(fs, s) && ShellOk(fs) && |junk| == 4 && s.terms[s.current].running == Some(p)
    requires s.pcbs[p].processNum == p != 0 && !s.pcbs[p].termStart
    requires s.pcbs[p].parentPcb == Some(q) && q != p
    ensures var s2 := HaltStep(fs, s, junk);
            var number := s.pcbs[q].processNum;
            && s2 == s.(terms := s.terms[s.current := s.terms[s.current].(running := Some(q))],
                        esp := s.pcbs[p].parentSp, ebp := s.pcbs[p].parentBp, esp0 := 0x80_0000 - 0x2000 * number - 4,
                        paging := s.paging.(directory := s.paging.directory[0x20 := 0x80_0087 + 0x40_0000 * number]),
                        pcbs := s.pcbs[p := s.pcbs[p].(args := Zeros(95), filename := Zeros(32))],
                        processes := s2.processes, tables := s.tables[p := s2.tables[p]])
            && (forall k :: 0 <= k < 6 ==> (Busy(s2.processes, k) <==> k != p && Busy(s.processes, k)))
            && (forall i :: 0 <= i < 8 ==> s2.tables[p][i] == s.tables[p][i].(inUse := i < 2 && s.tables[p][i].inUse))
  {
    SizedParts(fs, s);
    HaltIsReturn(fs, s, junk, p, q);
    VacatedIs(s, p);
    hide HaltStep, Sized, ShellOk, Busy, P.Shape, Vacate;
  }

  lemma HaltIsReturn(fs: seq<byte>, s: State, junk: seq<byte>, p: nat, q: nat)
    requires Sized(fs, s) && ShellOk(fs) && |junk| == 4 && s.terms[s.current].running == Some(p)
    requires s.pcbs[p].processNum == p != 0 && !s.pcbs[p].termStart
    requires s.pcbs[p].parentPcb == Some(q) && q != p
    ensures SixBits(s.processes) && p < 6 && q < 6 && s.pcbs[q].processNum < 6
    ensures Vacate(s, p).pcbs[q] == s.pcbs[q] && P.Shape(s.paging)
    ensures HaltStep(fs, s, junk) == ReturnTo(Vacate(s, p), s.pcbs[p], q)
  {
    ShellIsExecutable(fs, junk);
    VacatedIsSized(fs, s, p);
    hide ShellOk, Executable, CommandOk, GoodFile, GoodTable, FileName, ExecuteStep, Busy, CloseAll, ReturnTo,
      ClearMask, GoodImage, P.Shape;
  }

  lemma VacatedIs(s: State, p: nat)
    requires |s.pcbs| == 6 && |s.tables| == 6 && p < 6 && |s.tables[p]| == 8 && s.pcbs[p].processNum == p
    requires SixBits(s.processes)
    ensures var v := Vacate(s, p);
            && v == s.(pcbs := s.pcbs[p := s.pcbs[p].(args := Zeros(95), filename := Zeros(32))],
                       processes := v.processes, tables := s.tables[p := v.tables[p]])
            && |v.tables| == 6 && |v.tables[p]| == 8
            && (forall k :: 0 <= k < 6 ==> (Busy(v.processes, k) <==> k != p && Busy(s.processes, k)))
            && (forall i :: 0 <= i < 8 ==> v.tables[p][i] == s.tables[p][i].(inUse := i < 2 && s.tables[p][i].inUse))
  {
    ClearSlot(s.processes, p);
    hide Busy, ClearMask, Zeros;
  }

  /** A base shell gives up the same, and then the file "shell" is executed. */
  lemma HaltRestarts(fs: seq<byte>, s: State, junk: seq<byte>, p: nat)
    requires Sized(fs, s) && ShellOk(fs) && |junk| == 4 && s.terms[s.current].running == Some(p)
    requires s.pcbs[p].processNum == p && (p == 0 || s.pcbs[p].termStart)
    ensures var v := Vacate(s, p);
            && Sized(fs, v) && CommandOk(fs, Chars("shell"), junk)
            && HaltStep(fs, s, junk) == ExecuteStep(fs, v, Chars("shell"), junk).0
            && v == s.(pcbs := s.pcbs[p := s.pcbs[p].(args := Zeros(95), filename := Zeros(32))],
                       processes := v.processes, tables := s.tables[p := v.tables[p]])
            && (forall k :: 0 <= k < 6 ==> (Busy(v.processes, k) <==> k != p && Busy(s.processes, k)))
            && (forall i :: 0 <= i < 8 ==> v.tables[p][i] == s.tables[p][i].(inUse := i < 2 && s.tables[p][i].inUse))
  {
    ShellIsExecutable(fs, junk);
    VacatedIsSized(fs, s, p);
    SizedParts(fs, s);
    VacatedIs(s, p);
    assert SHELL == Chars("shell");
    hide ShellOk, Executable, CommandOk, GoodFile, GoodTable, FileName, ExecuteStep, Busy, Chars, Vacate;
  }

  // ---------------------------------------------------------------- what calls store for a program

  /** With process p in front, the kernel's stores into its image are its frame's bytes, and change nothing else. */
  lemma DeliversToFrame(s: State, p: nat, buffer: word, data: seq<byte>, k: nat)
    requires P.LaidOut(s.paging, Some(p), false) || P.LaidOut(s.paging, Some(p), true)
    requires IsMemory(s.mem) && p < 6 && 0x800_0000 <= buffer && buffer + |data| < 0x840_0000 && k < 0x200_0000
    ensures var (s2, at) := (DeliverStep(s, buffer, data), 0x80_0000 + 0x40_0000 * p + (buffer - 0x800_0000));
            && s2 == s.(mem := s2.mem) && |s2.mem| == 0x200_0000
            && s2.mem[k] == if at <= k < at + |data| then data[k - at] else s.mem[k]
  {
    assert s.paging.directory[0x20] == P.DirectoryEntry(s.paging, Some(p), true, 0x20);
    assert s.paging.directory[0x20] == P.DirectoryEntry(s.paging, Some(p), false, 0x20);
    hide P.LaidOut;
    K.DeliverInImage(s, buffer, data, p);
  }

  /**
   * vidmap stores the address 0x8400000, low byte first, in the image, gives it back, and makes the page there
   * show video memory; a pointer outside the image is refused.
   */
  lemma VidMapGivesScreen(s: State, p: nat, pointer: word, k: nat)
    requires P.LaidOut(s.paging, Some(p), false) || P.LaidOut(s.paging, Some(p), true)
    requires IsMemory(s.mem) && p < 6 && k < 0x200_0000
    ensures var (s2, r) := VidMapStep(s, pointer);
            && (!(0x800_0000 <= pointer < 0x840_0000) ==> r == -1 && s2 == s)
            && (0x800_0000 <= pointer < 0x840_0000 - 4 ==>
                  var at := 0x80_0000 + 0x40_0000 * p + (pointer - 0x800_0000);
                  && r == 0x840_0000 && P.LaidOut(s2.paging, Some(p), true)
                  && s2 == s.(mem := s2.mem, paging := s2.paging) && |s2.mem| == 0x200_0000
                  && s2.mem[k] == if at <= k < at + 4 then [0x00, 0x00, 0x40, 0x08][k - at] else s.mem[k])
  {
    if 0x800_0000 <= pointer < 0x840_0000 - 4 {
      VideoMapped(s, p);
      var m := MapVideo(s);
      hide P.LaidOut, MapVideo, DeliverStep;
      DeliversToFrame(m, p, pointer, VIDEO_POINTER, k);
    }
  }

  lemma VideoMapped(s: State, p: nat)
    requires P.LaidOut(s.paging, Some(p), false) || P.LaidOut(s.paging, Some(p), true)
    ensures P.LaidOut(MapVideo(s).paging, Some(p), true) && MapVideo(s) == s.(paging := MapVideo(s).paging)
  {
    if P.LaidOut(s.paging, Some(p), false) {
      P.LoadsKeepLayout(s.paging, Some(p), false, 0);
    } else {
      P.LoadsKeepLayout(s.paging, Some(p), true, 0);
    }
  }

  /** The bytes of a line that is read: what was committed, a newline, and NULs up to the request. */
  lemma LineByByte(b: Keyboard, n: nat, beyond: byte, i: nat)
    requires IsBoard(b) && b.oldTyped < 128 && i < |LineBytes(b, n, beyond)|
    ensures |LineBytes(b, n, beyond)| == if b.typed + 1 < n <= b.oldTyped then b.oldTyped + 1 else n
    ensures LineBytes(b, n, beyond)[i] ==
              if b.typed + 1 < n && i > b.oldTyped then 0
              else if i == b.oldTyped then 10
              else if i < 128 then b.temp[i]
              else beyond
  {
  }

  /** Control and F3, while at most one slot is free: the warning, newlines left out. */
  lemma WarningIsPrinted(c: Console)
    requires IsConsole(c) && c.board.ctrl
    ensures KeyOn(c, 0x3D, false) == c
    ensures KeyOn(c, 0x3D, true) == c.(display := WriteAll(c.display, Chars(
              "Max number of processes reached OR Five processes are currently running which means the"
              + " second terminal cannot running another process ")))
  {
    hide Chars, WriteAll;
  }
}
