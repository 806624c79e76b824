/** Every step of the kernel is the corresponding step of the three independent terminals. */
module Simulation {
  import opened Bytes
  import opened FileSystem
  import opened Descriptors
  import opened Memory
  import opened Slots
  import opened Keyboards
  import opened Machine
  import opened Sessions
  import opened Refinement
  import P = Paging

  // ---------------------------------------------------------------- installing a process

  lemma FreshTableShows(table: seq<Fd>)
    requires |table| == 8 && ConsoleOk(table) && forall i :: 2 <= i < 8 ==> !table[i].inUse
    ensures Visible(WithConsole(table)) == FreshTable() && ConsoleOk(WithConsole(table))
  {
  }

  lemma MapImageShape(paging: P.Tables, p: nat)
    requires P.Shape(paging) && p < 8
    ensures P.Shape(MapImage(paging, p))
  {
  }

  lemma InstallIsSized(fs: seq<byte>, s: State, command: seq<byte>, inode: nat, p: nat)
    requires Sized(fs, s) && |command| < 32 && Loadable(fs, inode) && p < 6
    ensures Sized(fs, Install(fs, s, command, inode, p))
  {
    hide GoodFile, FileLength, Content, WordAt;
    SetSlot(s.processes, p);
    MapImageShape(s.paging, p);
    assert GoodTable(fs, WithConsole(s.tables[p]));
  }

  /** The child is complete in its slot, and nothing else of memory, blocks or tables changed. */
  lemma Installed(fs: seq<byte>, s: State, command: seq<byte>, inode: nat, p: nat, sp: word, bp: word)
    requires Sized(fs, s) && |command| < 32 && Loadable(fs, inode) && p < 6
    requires ConsoleOk(s.tables[p]) && forall i :: 2 <= i < 8 ==> !s.tables[p][i].inUse
    ensures var s2 := Install(fs, s, command, inode, p);
            && Sized(fs, s2)
            && Holds(fs, s2, Started(fs, command, inode, p, sp, bp, FrameOf(s.mem, p)))
            && ConsoleOk(s2.tables[p])
            && (forall q :: 0 <= q < 6 && q != p ==> SameSlot(s, s2, q))
            && (forall t :: 0 <= t < 3 ==> SameScreen(s, s2, t))
            && Region(s2.mem, VIDEO, 4000) == Region(s.mem, VIDEO, 4000)
  {
    SizedParts(fs, s);
    hide Sized, Content, GoodFile, WordAt;
    InstallIsSized(fs, s, command, inode, p);
    FreshTableShows(s.tables[p]);
    var data := Content(fs, inode);
    RegionAround(s.mem, FrameAt(p) + 0x4_8000, data, FrameAt(p), 0x40_0000);
    forall q | 0 <= q < 6 && q != p ensures SameSlot(s, Install(fs, s, command, inode, p), q) {
      Apart(p, q, 0, 0);
      RegionElsewhere(s.mem, FrameAt(p) + 0x4_8000, data, FrameAt(q), 0x40_0000);
    }
    forall t | 0 <= t < 3 ensures SameScreen(s, Install(fs, s, command, inode, p), t) {
      Apart(p, p, t, t);
      RegionElsewhere(s.mem, FrameAt(p) + 0x4_8000, data, SavedScreen(t), 4000);
    }
    RegionElsewhere(s.mem, FrameAt(p) + 0x4_8000, data, VIDEO, 4000);
  }

  lemma SizedParts(fs: seq<byte>, s: State)
    requires Sized(fs, s)
    ensures IsMemory(s.mem) && |s.tables| == 6 && |s.pcbs| == 6 && |s.terms| == 3 && s.current < 3
    ensures forall p :: 0 <= p < 6 ==> |s.tables[p]| == 8
    ensures P.Shape(s.paging) && |s.keys| == 128 && IsBoard(s.board)
  {
  }

  /** Page tables after a process is mapped. */
  lemma Mapped(paging: P.Tables, image: Option<nat>, video: bool, p: nat)
    requires P.LaidOut(paging, image, video) && p < 8
    ensures P.LaidOut(MapImage(paging, p), Some(p), video)
  {
    P.LoadsKeepLayout(paging, image, video, p);
  }

  // ---------------------------------------------------------------- execute

  /** What a frame held before the event uses it for a new process. */
  ghost function Scrap(fs: seq<byte>, s: State, e: Event): (r: seq<byte>)
    requires Sized(fs, s)
    ensures |r| == 0x40_0000
  {
    var (running, free) := (s.terms[s.current].running, FreeSlot(s.processes, 0));
    FrameOf(s.mem, if e.Halt? && running.Some? then running.value else if free.Some? then free.value else 0)
  }

  lemma SlotZeroLive(w: World)
    requires IsWorld(w)
    ensures 0 in Live(w)
  {
    assert StackOf(w, 0)[0].slot == 0;
    assert 0 in SlotsOf(StackOf(w, 0));
  }

  lemma PushIsWorld(fs: seq<byte>, w: World, p: Process)
    requires IsWorld(w) && IsProcess(p) && p.slot !in Live(w)
    ensures var x := Front(w).(stack := Front(w).stack + [p]);
            IsWorld(WithFront(w, x)) && Live(WithFront(w, x)) == Live(w) + {p.slot}
  {
    var f := Front(w);
    var more := f.stack + [p];
    SlotsOfAppend(f.stack, p);
    forall i | 0 <= i < |f.stack| ensures f.stack[i].slot != p.slot {
      assert f.stack[i].slot in SlotsOf(f.stack);
    }
    FrontReplaced(w, f.(stack := more));
  }

  /** The child that execute creates in slot p. */
  ghost function Child(fs: seq<byte>, s: State, w: World, command: seq<byte>, inode: nat, p: nat): (c: Process)
    requires Sized(fs, s) && IsWorld(w) && |command| < 32 && Loadable(fs, inode) && p < 6
    ensures IsProcess(c) && c.slot == p
  {
    Started(fs, command, inode, p, Front(w).esp, Front(w).ebp, FrameOf(s.mem, p))
  }

  function WithChild(w: World, c: Process): World
    requires w.current < |w.sessions| && w.sessions[w.current].Some?
  {
    WithFront(w, Front(w).(stack := Front(w).stack + [c]))
  }

  /** What execute leaves and sets of the terminals, the cursor and the stack pointers. */
  lemma InstalledFront(fs: seq<byte>, s: State, command: seq<byte>, inode: nat, p: nat)
    requires Sized(fs, s) && |command| < 32 && Loadable(fs, inode) && p < 6
    ensures var s2 := Install(fs, s, command, inode, p);
            && s2.current == s.current && s2.board == s.board
            && s2.terms == s.terms[s.current := s.terms[s.current].(running := Some(p), beenHere := true)]
            && (s2.cursorX, s2.cursorY, s2.keys, s2.esp, s2.ebp) == (s.cursorX, s.cursorY, s.keys, s.esp, s.ebp)
  {
    hide Overwrite, Content, WithConsole, Pad, WordAt, GoodTable, MapImage, Loadable;
  }

  /** The links of the child in the block that execute writes. */
  lemma ChildLinked(fs: seq<byte>, s: State, stack: seq<Process>, command: seq<byte>, inode: nat, p: nat,
                    sp: word, bp: word)
    requires Sized(fs, s) && |command| < 32 && Loadable(fs, inode) && 0 < p < 6 && stack != []
    requires s.terms[s.current].beenHere && s.terms[s.current].running == Some(stack[|stack| - 1].slot)
    requires !s.pcbs[p].termStart && (s.esp, s.ebp) == (sp, bp)
    ensures var c := Started(fs, command, inode, p, sp, bp, FrameOf(s.mem, p));
            LinkedAt(Install(fs, s, command, inode, p), stack + [c], |stack|)
  {
    hide Overwrite, Content, WithConsole, Pad, WordAt, GoodTable, MapImage, Loadable;
  }

  lemma StackWith(fs: seq<byte>, s: State, stack: seq<Process>, c: Process)
    requires Sized(fs, s) && StackMatches(fs, s, stack) && Holds(fs, s, c) && LinkedAt(s, stack + [c], |stack|)
    ensures StackMatches(fs, s, stack + [c])
  {
    hide Sized, Holds;
    var stack2 := stack + [c];
    forall i | 0 <= i < |stack2| ensures ProcessMatches(fs, s, stack2, i) {
      if i < |stack| {
        assert ProcessMatches(fs, s, stack, i) && stack2[i] == stack[i];
        assert i > 0 ==> stack2[i - 1] == stack[i - 1];
      }
    }
  }

  lemma PushFront(fs: seq<byte>, s: State, w: World, command: seq<byte>, inode: nat, p: nat)
    requires R(fs, s, w) && |command| < 32 && Loadable(fs, inode)
    requires p < 6 && p !in Live(w) && p != 0
    ensures var (s2, c) := (Install(fs, s, command, inode, p), Child(fs, s, w, command, inode, p));
            && Sized(fs, s2) && IsWorld(WithChild(w, c))
            && TermMatches(fs, s2, WithChild(w, c), w.current)
  {
    RParts(fs, s, w);
    SizedParts(fs, s);
    assert Front(w).stack != [];
    assert EmptySlot(fs, s, p) && ConsoleOk(s.tables[p]) && TermMatches(fs, s, w, w.current);
    hide R, IsWorld, Sized, Overwrite, Loadable, StackMatches, Holds, SameSlot, SameScreen, Live, SlotsOf, FrameOf,
      Install, LinkedAt, Started, SavedMatches, ConsoleOk, IsBoard;
    var (x, c, s2) := (Front(w), Child(fs, s, w, command, inode, p), Install(fs, s, command, inode, p));
    Installed(fs, s, command, inode, p, x.esp, x.ebp);
    InstalledFront(fs, s, command, inode, p);
    PushIsWorld(fs, w, c);
    forall q | q in SlotsOf(x.stack) ensures SameSlot(s, s2, q) {
      SlotOwner(w, w.current, q);
    }
    StackKept(fs, s, s2, x.stack);
    ChildLinked(fs, s, x.stack, command, inode, p, x.esp, x.ebp);
    StackWith(fs, s2, x.stack, c);
  }

  lemma PushBehind(fs: seq<byte>, s: State, w: World, command: seq<byte>, inode: nat, p: nat, t: nat)
    requires R(fs, s, w) && |command| < 32 && Loadable(fs, inode)
    requires p < 6 && p !in Live(w) && t < 3 && t != w.current
    ensures var (s2, c) := (Install(fs, s, command, inode, p), Child(fs, s, w, command, inode, p));
            && Sized(fs, s2) && IsWorld(WithChild(w, c))
            && TermMatches(fs, s2, WithChild(w, c), t)
  {
    SizedParts(fs, s);
    hide Sized, Content, Overwrite, Loadable, Visible, P.LaidOut, WordAt;
    var (c, s2) := (Child(fs, s, w, command, inode, p), Install(fs, s, command, inode, p));
    assert EmptySlot(fs, s, p);
    Installed(fs, s, command, inode, p, 0, 0);
    PushIsWorld(fs, w, c);
    forall q | q in SlotsOf(StackOf(w, t)) ensures SameSlot(s, s2, q) {
      SlotOwner(w, t, q);
    }
    BehindKept(fs, s, s2, w, WithChild(w, c), t);
  }

  lemma PushSlots(fs: seq<byte>, s: State, w: World, command: seq<byte>, inode: nat, p: nat)
    requires R(fs, s, w) && |command| < 32 && Loadable(fs, inode)
    requires p < 6 && p !in Live(w)
    ensures var (s2, c) := (Install(fs, s, command, inode, p), Child(fs, s, w, command, inode, p));
            && Sized(fs, s2) && IsWorld(WithChild(w, c))
            && SlotsMatch(fs, s2, WithChild(w, c))
  {
    SizedParts(fs, s);
    assert SixBits(s.processes);
    hide Sized, Content, Overwrite, Loadable, Visible, P.LaidOut, WordAt, Busy, SlotBit;
    var (c, s2) := (Child(fs, s, w, command, inode, p), Install(fs, s, command, inode, p));
    assert EmptySlot(fs, s, p);
    Installed(fs, s, command, inode, p, 0, 0);
    PushIsWorld(fs, w, c);
    SetSlot(s.processes, p);
    SlotsPushed(fs, s, s2, w, WithChild(w, c), p);
  }

  lemma SlotKept(fs: seq<byte>, s: State, s2: State, q: nat)
    requires Sized(fs, s) && Sized(fs, s2) && SameSlot(s, s2, q)
    ensures s2.tables[q] == s.tables[q] && (EmptySlot(fs, s2, q) <==> EmptySlot(fs, s, q))
  {
  }

  /** The slot conditions after slot p was taken. */
  lemma SlotsPushed(fs: seq<byte>, s: State, s2: State, w: World, w2: World, p: nat)
    requires Sized(fs, s) && Sized(fs, s2) && IsWorld(w) && IsWorld(w2) && p < 6
    requires SlotsMatch(fs, s, w) && Live(w2) == Live(w) + {p}
    requires forall q :: 0 <= q < 6 ==> (Busy(s2.processes, q) <==> q == p || Busy(s.processes, q))
    requires ConsoleOk(s2.tables[p]) && forall q :: 0 <= q < 6 && q != p ==> SameSlot(s, s2, q)
    ensures SlotsMatch(fs, s2, w2)
  {
    SizedParts(fs, s);
    SizedParts(fs, s2);
    hide IsWorld, Live, Busy, ConsoleOk, EmptySlot, SameSlot, Sized;
    var live := Live(w);
    forall q | 0 <= q < 6 ensures ConsoleOk(s2.tables[q]) && (q != p && q !in live ==> EmptySlot(fs, s2, q)) {
      if q != p {
        SlotKept(fs, s, s2, q);
      }
    }
  }

  /** A successful execute. */
  lemma ExecuteSimulates(fs: seq<byte>, s: State, w: World, command: seq<byte>, inode: nat, p: nat)
    requires R(fs, s, w) && |command| < 32 && Loadable(fs, inode)
    requires FreeSlot(s.processes, 0) == Some(p)
    ensures R(fs, Install(fs, s, command, inode, p), WithChild(w, Child(fs, s, w, command, inode, p)))
  {
    hide Content, Overwrite, Loadable, Visible, P.LaidOut, WordAt, TermMatches, Live;
    SlotZeroLive(w);
    assert p !in Live(w);
    PushSlots(fs, s, w, command, inode, p);
    PushFront(fs, s, w, command, inode, p);
    var (s2, w2) := (Install(fs, s, command, inode, p), WithChild(w, Child(fs, s, w, command, inode, p)));
    forall t | 0 <= t < 3 ensures TermMatches(fs, s2, w2, t) {
      if t != w.current {
        PushBehind(fs, s, w, command, inode, p, t);
      }
    }
    Mapped(s.paging, Some(Top(Front(w)).slot), w.video, p);
  }

  // ---------------------------------------------------------------- halt

  /** The world after the running process returns to its parent. */
  function WithoutTop(w: World): World
    requires w.current < |w.sessions| && w.sessions[w.current].Some? && |Front(w).stack| > 1
  {
    var f := Front(w);
    WithFront(w, f.(stack := f.stack[..|f.stack| - 1], esp := Top(f).callerSp, ebp := Top(f).callerBp))
  }

  lemma PopIsWorld(w: World)
    requires IsWorld(w) && |Front(w).stack| > 1
    ensures IsWorld(WithoutTop(w))
    ensures Live(WithoutTop(w)) == Live(w) - {Top(Front(w)).slot}
    ensures SlotsOf(Front(WithoutTop(w)).stack) == SlotsOf(Front(w).stack) - {Top(Front(w)).slot}
  {
    var f := Front(w);
    SlotsOfPop(f.stack);
    FrontReplaced(w, Front(WithoutTop(w)));
    assert Top(f).slot in SlotsOf(f.stack);
    forall q | q in SlotsOf(f.stack) ensures q in Live(w) {
      SlotOwner(w, w.current, q);
    }
    forall q | q in Live(w) && q !in SlotsOf(f.stack) ensures q != Top(f).slot {
    }
  }

  /** The halting process is the one on top, and its parent the one below. */
  lemma TopLinked(fs: seq<byte>, s: State, w: World)
    requires R(fs, s, w)
    ensures var (f, p) := (Front(w), Top(Front(w)).slot);
            && p < 6 && s.terms[s.current].running == Some(p)
            && Holds(fs, s, Top(f)) && s.pcbs[p].processNum == p
            && (IsBase(s.pcbs[p]) <==> |f.stack| == 1)
            && (s.pcbs[p].termStart <==> |f.stack| == 1)
            && (|f.stack| > 1 ==>
                  && p != 0
                  && s.pcbs[p].parentPcb == Some(f.stack[|f.stack| - 2].slot)
                  && f.stack[|f.stack| - 2].slot < 6
                  && f.stack[|f.stack| - 2].slot != p
                  && s.pcbs[f.stack[|f.stack| - 2].slot].processNum == f.stack[|f.stack| - 2].slot
                  && s.pcbs[p].parentSp == Top(f).callerSp && s.pcbs[p].parentBp == Top(f).callerBp)
  {
    var f := Front(w);
    assert TermMatches(fs, s, w, w.current);
    assert ProcessMatches(fs, s, f.stack, |f.stack| - 1);
    if |f.stack| > 1 {
      assert ProcessMatches(fs, s, f.stack, |f.stack| - 2);
    }
  }

  lemma VacatedSlot(fs: seq<byte>, s: State, p: nat)
    requires Sized(fs, s) && p < 6 && ConsoleOk(s.tables[p])
    ensures var v := Vacate(s, p);
            && Sized(fs, v) && ConsoleOk(v.tables[p])
            && (forall i :: 2 <= i < 8 ==> !v.tables[p][i].inUse)
            && v.pcbs[p].termStart == s.pcbs[p].termStart && v.mem == s.mem
            && forall q :: 0 <= q < 6 && q != p ==> SameSlot(s, v, q)
  {
    VacatedIsSized(fs, s, p);
  }

  /** The state after the process in slot p gave way to its parent. */
  ghost function Returned(fs: seq<byte>, s: State, p: nat, parent: nat): (s2: State)
    requires Sized(fs, s) && p < 6 && parent < 6
    ensures Sized(fs, s2)
  {
    VacatedIsSized(fs, s, p);
    ReturnIsSized(fs, Vacate(s, p), s.pcbs[p], parent);
    ReturnTo(Vacate(s, p), s.pcbs[p], parent)
  }

  lemma ReturnIsSized(fs: seq<byte>, s: State, child: Pcb, parent: nat)
    requires Sized(fs, s) && parent < 6
    ensures Sized(fs, ReturnTo(s, child, parent))
  {
    hide GoodFile;
    MapImageShape(s.paging, s.pcbs[parent].processNum);
  }

  /** What a return gives up, leaves alone and restores. */
  lemma ReturnedParts(fs: seq<byte>, s: State, p: nat, parent: nat)
    requires Sized(fs, s) && p < 6 && parent < 6 && s.pcbs[p].processNum == p && s.pcbs[parent].processNum == parent
    requires parent != p && ConsoleOk(s.tables[p]) && !s.pcbs[p].termStart
    ensures var s2 := Returned(fs, s, p, parent);
            && EmptySlot(fs, s2, p) && ConsoleOk(s2.tables[p])
            && (forall q :: 0 <= q < 6 ==> (Busy(s2.processes, q) <==> q != p && Busy(s.processes, q)))
            && (forall q :: 0 <= q < 6 && q != p ==> SameSlot(s, s2, q))
            && s2.mem == s.mem && s2.terms == s.terms[s.current := s.terms[s.current].(running := Some(parent))]
            && s2.paging == MapImage(s.paging, parent) && s2.esp0 == Esp0(parent)
            && (s2.esp, s2.ebp) == (s.pcbs[p].parentSp, s.pcbs[p].parentBp)
            && (s2.cursorX, s2.cursorY, s2.keys) == (s.cursorX, s.cursorY, s.keys)
            && s2.board == s.board && s2.current == s.current
  {
    VacatedSlot(fs, s, p);
    ClearSlot(s.processes, p);
    hide Sized, Busy, ClearMask, MapImage, Esp0;
    forall q | 0 <= q < 6 && q != p ensures SameSlot(s, Returned(fs, s, p, parent), q) {
      assert SameSlot(s, Vacate(s, p), q);
    }
  }

  /** The slot of the running process's parent. */
  function Caller(w: World): nat
    requires w.current < |w.sessions| && w.sessions[w.current].Some? && |Front(w).stack| > 1
  {
    Front(w).stack[|Front(w).stack| - 2].slot
  }

  /** The running process, its parent, and what the return needs of them. */
  lemma ReturnReady(fs: seq<byte>, s: State, w: World)
    requires R(fs, s, w) && |Front(w).stack| > 1
    ensures var (f, p, parent) := (Front(w), Top(Front(w)).slot, Caller(w));
            && p < 6 && parent < 6 && p != parent && s.pcbs[p].processNum == p && s.pcbs[parent].processNum == parent
            && ConsoleOk(s.tables[p]) && !s.pcbs[p].termStart
            && StackMatches(fs, s, f.stack) && FrontMatches(s, f) && s.terms[s.current].beenHere
            && s.pcbs[p].parentSp == Top(f).callerSp && s.pcbs[p].parentBp == Top(f).callerBp
  {
    assert TermMatches(fs, s, w, w.current);
    hide StackMatches, FrontMatches, SlotsMatch;
    TopLinked(fs, s, w);
  }

  lemma StackWithoutTop(fs: seq<byte>, s: State, stack: seq<Process>)
    requires StackMatches(fs, s, stack) && stack != []
    ensures StackMatches(fs, s, stack[..|stack| - 1])
  {
    hide Sized, Holds;
    var stack2 := stack[..|stack| - 1];
    forall i | 0 <= i < |stack2| ensures ProcessMatches(fs, s, stack2, i) {
      assert ProcessMatches(fs, s, stack, i);
    }
  }

  lemma PopFront(fs: seq<byte>, s: State, w: World)
    requires R(fs, s, w) && |Front(w).stack| > 1
    ensures IsWorld(WithoutTop(w)) && Top(Front(w)).slot < 6 && Caller(w) < 6
    ensures TermMatches(fs, Returned(fs, s, Top(Front(w)).slot, Caller(w)), WithoutTop(w), w.current)
  {
    hide R, IsWorld, Sized, StackMatches, SameSlot, Returned, ConsoleOk, Busy, EmptySlot, Live;
    RunsInRange(fs, s, w);
    PopIsWorld(w);
    ReturnReady(fs, s, w);
    RParts(fs, s, w);
    var (f, s2) := (Front(w), Returned(fs, s, Top(Front(w)).slot, Caller(w)));
    var stack2 := f.stack[..|f.stack| - 1];
    ReturnedParts(fs, s, Top(f).slot, Caller(w));
    StackWithoutTop(fs, s, f.stack);
    forall q | q in SlotsOf(stack2) ensures SameSlot(s, s2, q) {
    }
    StackKept(fs, s, s2, stack2);
  }

  lemma RParts(fs: seq<byte>, s: State, w: World)
    requires R(fs, s, w)
    ensures Sized(fs, s) && IsWorld(w) && s.current == w.current && IsBoard(w.board) && s.board == w.board
  {
  }

  lemma RunsInRange(fs: seq<byte>, s: State, w: World)
    requires R(fs, s, w)
    ensures IsWorld(w) && w.current < 3 && |w.sessions| == 3 && w.sessions[w.current].Some? && Front(w).stack != []
    ensures forall t :: 0 <= t < 3 ==> forall q :: q in SlotsOf(StackOf(w, t)) ==> q < 6
    ensures forall t :: 0 <= t < 3 && t != w.current ==> Top(Front(w)).slot !in SlotsOf(StackOf(w, t))
    ensures StackOf(w, w.current) == Front(w).stack && Top(Front(w)).slot in SlotsOf(Front(w).stack)
  {
    hide Live, TermMatches, SlotsMatch, HardwareMatches, Sized;
    assert Top(Front(w)).slot in SlotsOf(Front(w).stack);
    forall t, q | 0 <= t < 3 && q in SlotsOf(StackOf(w, t)) ensures q < 6 {
      SlotOwner(w, t, q);
    }
    SlotOwner(w, w.current, Top(Front(w)).slot);
  }

  lemma PopBehind(fs: seq<byte>, s: State, w: World, t: nat)
    requires R(fs, s, w) && |Front(w).stack| > 1 && t < 3 && t != w.current
    ensures IsWorld(WithoutTop(w)) && Top(Front(w)).slot < 6 && Caller(w) < 6
    ensures TermMatches(fs, Returned(fs, s, Top(Front(w)).slot, Caller(w)), WithoutTop(w), t)
  {
    RunsInRange(fs, s, w);
    PopIsWorld(w);
    ReturnReady(fs, s, w);
    RParts(fs, s, w);
    assert TermMatches(fs, s, w, t);
    hide R, IsWorld, Sized, StackMatches, SameSlot, Returned, ConsoleOk, Busy, EmptySlot, Live, TermMatches,
      FrontMatches;
    var s2 := Returned(fs, s, Top(Front(w)).slot, Caller(w));
    ReturnedParts(fs, s, Top(Front(w)).slot, Caller(w));
    forall q | q in SlotsOf(StackOf(w, t)) ensures SameSlot(s, s2, q) {
    }
    BehindKept(fs, s, s2, w, WithoutTop(w), t);
  }

  /** The slot conditions after slot p was given up. */
  lemma SlotsPopped(fs: seq<byte>, s: State, s2: State, w: World, w2: World, p: nat)
    requires Sized(fs, s) && Sized(fs, s2) && IsWorld(w) && IsWorld(w2) && p < 6
    requires SlotsMatch(fs, s, w) && Live(w2) == Live(w) - {p}
    requires forall q :: 0 <= q < 6 ==> (Busy(s2.processes, q) <==> q != p && Busy(s.processes, q))
    requires ConsoleOk(s2.tables[p]) && EmptySlot(fs, s2, p)
    requires forall q :: 0 <= q < 6 && q != p ==> SameSlot(s, s2, q)
    ensures SlotsMatch(fs, s2, w2)
  {
    SizedParts(fs, s);
    SizedParts(fs, s2);
    hide IsWorld, Live, Busy, ConsoleOk, EmptySlot, SameSlot, Sized;
    var live := Live(w);
    forall q | 0 <= q < 6 ensures ConsoleOk(s2.tables[q]) && (q != p && q !in live ==> EmptySlot(fs, s2, q)) {
      if q != p {
        SlotKept(fs, s, s2, q);
      }
    }
  }

  lemma PopSlots(fs: seq<byte>, s: State, w: World)
    requires R(fs, s, w) && |Front(w).stack| > 1
    ensures IsWorld(WithoutTop(w)) && Top(Front(w)).slot < 6 && Caller(w) < 6
    ensures SlotsMatch(fs, Returned(fs, s, Top(Front(w)).slot, Caller(w)), WithoutTop(w))
  {
    RParts(fs, s, w);
    PopIsWorld(w);
    ReturnReady(fs, s, w);
    assert SlotsMatch(fs, s, w);
    hide R, IsWorld, Sized, StackMatches, SameSlot, Returned, ConsoleOk, Busy, EmptySlot, Live, TermMatches,
      FrontMatches, SlotsMatch, P.LaidOut, MapImage, Esp0, SlotsOf, StackOf;
    var s2 := Returned(fs, s, Top(Front(w)).slot, Caller(w));
    ReturnedParts(fs, s, Top(Front(w)).slot, Caller(w));
    SlotsPopped(fs, s, s2, w, WithoutTop(w), Top(Front(w)).slot);
  }

  lemma HardwareIs(fs: seq<byte>, s: State, w: World)
    requires R(fs, s, w)
    ensures Sized(fs, s) && IsWorld(w) && s.current == w.current && s.board == w.board && HardwareMatches(s, w)
  {
  }

  lemma PopHardware(fs: seq<byte>, s: State, w: World)
    requires R(fs, s, w) && |Front(w).stack| > 1
    ensures IsWorld(WithoutTop(w)) && Top(Front(w)).slot < 6 && Caller(w) < 6
    ensures var s2 := Returned(fs, s, Top(Front(w)).slot, Caller(w));
            HardwareMatches(s2, WithoutTop(w)) && s2.current == w.current && s2.board == s.board
  {
    HardwareIs(fs, s, w);
    hide R, IsWorld, Sized, StackMatches, SameSlot, Returned, ConsoleOk, Busy, EmptySlot, Live, TermMatches,
      FrontMatches, SlotsMatch, P.LaidOut, MapImage, Esp0;
    PopIsWorld(w);
    ReturnReady(fs, s, w);
    ReturnedParts(fs, s, Top(Front(w)).slot, Caller(w));
    Mapped(s.paging, Some(Top(Front(w)).slot), w.video, Caller(w));
  }

  /** A process that is not a base shell halts. */
  lemma PopSimulates(fs: seq<byte>, s: State, w: World)
    requires R(fs, s, w) && |Front(w).stack| > 1
    ensures Sized(fs, s) && Top(Front(w)).slot < 6 && Caller(w) < 6
    ensures R(fs, Returned(fs, s, Top(Front(w)).slot, Caller(w)), WithoutTop(w))
  {
    PopSlots(fs, s, w);
    PopHardware(fs, s, w);
    hide IsWorld, Sized, TermMatches, SlotsMatch, HardwareMatches, Returned;
    forall t | 0 <= t < 3
      ensures TermMatches(fs, Returned(fs, s, Top(Front(w)).slot, Caller(w)), WithoutTop(w), t)
    {
      if t == w.current {
        PopFront(fs, s, w);
      } else {
        PopBehind(fs, s, w, t);
      }
    }
  }

  /** The world after the base shell of the front terminal was executed again. */
  ghost function Restarted(fs: seq<byte>, s: State, w: World, inode: nat): (w2: World)
    requires Sized(fs, s) && IsWorld(w) && Loadable(fs, inode)
  {
    var f := Front(w);
    var p := Top(f).slot;
    WithFront(w, f.(stack := [Started(fs, SHELL, inode, p, f.esp, f.ebp, FrameOf(s.mem, p))]))
  }

  lemma RestartIsWorld(fs: seq<byte>, s: State, w: World, inode: nat)
    requires R(fs, s, w) && |Front(w).stack| == 1 && Loadable(fs, inode)
    ensures IsWorld(Restarted(fs, s, w, inode)) && Live(Restarted(fs, s, w, inode)) == Live(w)
  {
    hide Content, WordAt, Overwrite;
    var f := Front(w);
    var x := Front(Restarted(fs, s, w, inode));
    SlotsOfSame(f.stack, x.stack);
    FrontReplaced(w, x);
    forall q | q in SlotsOf(f.stack) ensures q in Live(w) {
      SlotOwner(w, w.current, q);
    }
  }

  /** What restarting does to the slots: slot p installed, the rest untouched. */
  lemma RestartedSlots(fs: seq<byte>, s: State, inode: nat, p: nat, sp: word, bp: word)
    requires Sized(fs, s) && p < 6 && Loadable(fs, inode) && ConsoleOk(s.tables[p])
    ensures Sized(fs, Vacate(s, p))
    ensures var s2 := Install(fs, Vacate(s, p), SHELL, inode, p);
            && Sized(fs, s2)
            && Holds(fs, s2, Started(fs, SHELL, inode, p, sp, bp, FrameOf(s.mem, p)))
            && ConsoleOk(s2.tables[p])
            && (forall q :: 0 <= q < 6 && q != p ==> SameSlot(s, s2, q))
            && (forall t :: 0 <= t < 3 ==> SameScreen(s, s2, t))
            && Region(s2.mem, VIDEO, 4000) == Region(s.mem, VIDEO, 4000)
  {
    VacatedSlot(fs, s, p);
    var v := Vacate(s, p);
    Installed(fs, v, SHELL, inode, p, sp, bp);
    var s2 := Install(fs, v, SHELL, inode, p);
    hide Sized, Content, WordAt, Overwrite, GoodFile, Install, Holds, Started;
    forall q | 0 <= q < 6 && q != p ensures SameSlot(s, s2, q) {
      assert SameSlot(s, v, q) && SameSlot(v, s2, q);
    }
    forall t | 0 <= t < 3 ensures SameScreen(s, s2, t) {
      assert SameScreen(v, s2, t);
    }
  }

  /** Clearing a set bit and setting it again. */
  lemma BitRestored(processes: bv8, p: nat)
    requires SixBits(processes) && p < 6 && Busy(processes, p)
    ensures forall q :: 0 <= q < 6 ==> (Busy((processes & ClearMask(p)) | SlotBit(p), q) <==> Busy(processes, q))
  {
    ClearSlot(processes, p);
    SetSlot(processes & ClearMask(p), p);
  }

  /** A base shell exits while all lower slots are taken: it is executed again in its own slot. */
  lemma RestartSimulates(fs: seq<byte>, s: State, w: World, inode: nat)
    requires R(fs, s, w) && |Front(w).stack| == 1 && Loadable(fs, inode)
    ensures var p := Top(Front(w)).slot;
            R(fs, Install(fs, Vacate(s, p), SHELL, inode, p), Restarted(fs, s, w, inode))
  {
    var (f, p) := (Front(w), Top(Front(w)).slot);
    SizedParts(fs, s);
    RestartParts(fs, s, w, inode);
    RestartIsWorld(fs, s, w, inode);
    RestartHardware(fs, s, w, inode);
    hide Content, WordAt, Overwrite, GoodFile, P.LaidOut, Live, Visible, TermMatches, Sized, StackMatches, WithConsole,
      Pad, MapImage, HardwareMatches, SlotsMatch, Restarted, ConsoleOk, Holds;
    var (s2, w2) := (Install(fs, Vacate(s, p), SHELL, inode, p), Restarted(fs, s, w, inode));
    forall t | 0 <= t < 3 ensures TermMatches(fs, s2, w2, t) {
      RestartTerm(fs, s, w, inode, t);
    }
    RestartKeepsSlots(fs, s, s2, w, w2, p);
  }

  lemma RestartHardware(fs: seq<byte>, s: State, w: World, inode: nat)
    requires R(fs, s, w) && |Front(w).stack| == 1 && Loadable(fs, inode)
    requires IsWorld(Restarted(fs, s, w, inode))
    ensures var p := Top(Front(w)).slot;
            && p < 6 && s.pcbs[p].processNum < 6 && Sized(fs, Vacate(s, p))
            && var (s2, w2) := (Install(fs, Vacate(s, p), SHELL, inode, p), Restarted(fs, s, w, inode));
               HardwareMatches(s2, w2) && s2.current == w2.current
  {
    var p := Top(Front(w)).slot;
    TopLinked(fs, s, w);
    VacatedIsSized(fs, s, p);
    hide Content, WordAt, Overwrite, GoodFile, P.LaidOut, Live, Visible, TermMatches, Sized, SlotsMatch, WithConsole,
      Pad;
    Mapped(s.paging, Some(p), w.video, p);
  }

  lemma RestartParts(fs: seq<byte>, s: State, w: World, inode: nat)
    requires R(fs, s, w) && |Front(w).stack| == 1 && Loadable(fs, inode)
    ensures var (f, p) := (Front(w), Top(Front(w)).slot);
            && p < 6 && p in Live(w) && s.pcbs[p].processNum == p && Sized(fs, Vacate(s, p))
            && var s2 := Install(fs, Vacate(s, p), SHELL, inode, p);
               && Sized(fs, s2)
               && Holds(fs, s2, Started(fs, SHELL, inode, p, f.esp, f.ebp, FrameOf(s.mem, p)))
               && ConsoleOk(s2.tables[p])
               && (forall q :: 0 <= q < 6 && q != p ==> SameSlot(s, s2, q))
               && (forall t :: 0 <= t < 3 ==> SameScreen(s, s2, t))
               && Region(s2.mem, VIDEO, 4000) == Region(s.mem, VIDEO, 4000)
               && (forall q :: 0 <= q < 6 ==> (Busy(s2.processes, q) <==> Busy(s.processes, q)))
  {
    var (f, p) := (Front(w), Top(Front(w)).slot);
    TopLinked(fs, s, w);
    SlotOwner(w, w.current, p);
    hide Content, WordAt, Overwrite, GoodFile, P.LaidOut, Live, Visible, TermMatches, Holds, Started, WithConsole;
    RestartedSlots(fs, s, inode, p, f.esp, f.ebp);
    BitRestored(s.processes, p);
  }

  lemma RestartTerm(fs: seq<byte>, s: State, w: World, inode: nat, t: nat)
    requires R(fs, s, w) && |Front(w).stack| == 1 && Loadable(fs, inode) && t < 3
    ensures var p := Top(Front(w)).slot;
            && p < 6 && s.pcbs[p].processNum < 6
            && var (s2, w2) := (Install(fs, Vacate(s, p), SHELL, inode, p), Restarted(fs, s, w, inode));
               Sized(fs, s2) && IsWorld(w2) && TermMatches(fs, s2, w2, t)
  {
    hide Content, WordAt, Overwrite, GoodFile, P.LaidOut, Live, Visible;
    var (f, p) := (Front(w), Top(Front(w)).slot);
    TopLinked(fs, s, w);
    RestartParts(fs, s, w, inode);
    RestartIsWorld(fs, s, w, inode);
    var (s2, w2) := (Install(fs, Vacate(s, p), SHELL, inode, p), Restarted(fs, s, w, inode));
    assert TermMatches(fs, s, w, t);
    if t == w.current {
      assert ProcessMatches(fs, s2, Front(w2).stack, 0);
    } else {
      SlotOwner(w, w.current, p);
      forall q | q in SlotsOf(StackOf(w, t)) ensures SameSlot(s, s2, q) {
        SlotOwner(w, t, q);
      }
      BehindKept(fs, s, s2, w, w2, t);
    }
  }

  lemma RestartKeepsSlots(fs: seq<byte>, s: State, s2: State, w: World, w2: World, p: nat)
    requires Sized(fs, s) && Sized(fs, s2) && IsWorld(w) && IsWorld(w2) && p < 6
    requires SlotsMatch(fs, s, w) && Live(w2) == Live(w) && p in Live(w)
    requires forall q :: 0 <= q < 6 ==> (Busy(s2.processes, q) <==> Busy(s.processes, q))
    requires ConsoleOk(s2.tables[p])
    requires forall q :: 0 <= q < 6 && q != p ==> SameSlot(s, s2, q)
    ensures SlotsMatch(fs, s2, w2)
  {
    SizedParts(fs, s);
    SizedParts(fs, s2);
    hide IsWorld, Live, Busy, ConsoleOk, EmptySlot, SameSlot, Sized;
    var live := Live(w);
    forall q | 0 <= q < 6 ensures ConsoleOk(s2.tables[q]) && (q !in live ==> EmptySlot(fs, s2, q)) {
      if q != p {
        SlotKept(fs, s, s2, q);
      }
    }
  }

  // ---------------------------------------------------------------- switching terminals

  /** Writes below 4 MB leave every frame alone. */
  lemma LowWrite(mem: seq<byte>, a: nat, data: seq<byte>, q: nat)
    requires IsMemory(mem) && a + |data| <= 0x40_0000 && q < 6
    ensures IsMemory(Overwrite(mem, a, data)) && FrameOf(Overwrite(mem, a, data), q) == FrameOf(mem, q)
  {
    RegionElsewhere(mem, a, data, FrameAt(q), 0x40_0000);
  }

  /** After saving, every visited terminal's record holds its session. */
  lemma SavedAll(fs: seq<byte>, s: State, w: World, t: nat)
    requires R(fs, s, w) && t < 3 && w.sessions[t].Some?
    ensures Sized(fs, Save(s)) && SavedMatches(Save(s), t, w.sessions[t].value)
    ensures Region(Save(s).mem, VIDEO, 4000) == Region(s.mem, VIDEO, 4000)
    ensures forall q :: 0 <= q < 6 ==> SameSlot(s, Save(s), q)
  {
    hide GoodFile, P.LaidOut, Live, StackMatches;
    var c := w.current;
    var screen := Region(s.mem, VIDEO, 4000);
    assert TermMatches(fs, s, w, t);
    Apart(0, 0, c, t);
    RegionElsewhere(s.mem, SavedScreen(c), screen, VIDEO, 4000);
    RegionWritten(s.mem, SavedScreen(c), screen);
    if t != c {
      RegionElsewhere(s.mem, SavedScreen(c), screen, SavedScreen(t), 4000);
    }
    forall q | 0 <= q < 6 ensures SameSlot(s, Save(s), q) {
      LowWrite(s.mem, SavedScreen(c), screen, q);
    }
  }

  /** Going to a visited terminal. */
  lemma SwitchSimulates(fs: seq<byte>, s: State, w: World, t: nat)
    requires R(fs, s, w) && t < 3 && w.sessions[t].Some?
    ensures s.terms[t].beenHere && s.terms[t].running.Some?
    ensures R(fs, Restore(Save(s), t), w.(current := t))
  {
    assert TermMatches(fs, s, w, t);
    assert s.terms[t].running == Some(Top(w.sessions[t].value).slot);
    var (s1, s2, w2) := (Save(s), Restore(Save(s), t), w.(current := t));
    SavedAll(fs, s, w, t);
    assert ProcessMatches(fs, s, StackOf(w, t), |StackOf(w, t)| - 1);
    RestoreIsSized(fs, s, w, t);
    hide GoodFile, P.LaidOut, Overwrite;
    assert IsWorld(w2) && Live(w2) == Live(w) by {
      SameStacks(w, w2);
    }
    forall u | 0 <= u < 3 ensures TermMatches(fs, s2, w2, u) {
      SwitchTerm(fs, s, w, t, u);
    }
    SameSlotsMatch(fs, s, s2, w, w2);
    Mapped(s.paging, Some(Top(Front(w)).slot), w.video, Top(w.sessions[t].value).slot);
  }

  /** The keyboard's globals belong to no terminal. */
  lemma BoardChange(fs: seq<byte>, s: State, w: World, b: Keyboard)
    requires R(fs, s, w) && IsBoard(b)
    ensures R(fs, s.(board := b), w.(board := b))
  {
    RParts(fs, s, w);
    SizedParts(fs, s);
    hide Sized, P.LaidOut, Visible, Live, IsWorld, Holds, LinkedAt, FrontMatches, SavedMatches, IsBoard, ConsoleOk,
      TermMatches, SlotsMatch;
    var (s2, w2) := (s.(board := b), w.(board := b));
    SameStacks(w, w2);
    SameSized(fs, s, b);
    forall t | 0 <= t < 3 ensures TermMatches(fs, s2, w2, t) {
      BoardTerm(fs, s, w, b, t);
    }
    SameSlotsMatch(fs, s, s2, w, w2);
  }

  lemma BoardTerm(fs: seq<byte>, s: State, w: World, b: Keyboard, t: nat)
    requires Sized(fs, s) && IsWorld(w) && IsBoard(b) && t < 3 && TermMatches(fs, s, w, t)
    ensures Sized(fs, s.(board := b)) && IsWorld(w.(board := b))
    ensures TermMatches(fs, s.(board := b), w.(board := b), t)
  {
    SizedParts(fs, s);
    SameStacks(w, w.(board := b));
    SameSized(fs, s, b);
    hide Sized, IsWorld, StackMatches, Live, FrameOf;
    if w.sessions[t].Some? {
      StackKept(fs, s, s.(board := b), StackOf(w, t));
    }
  }

  lemma SameSized(fs: seq<byte>, s: State, b: Keyboard)
    requires Sized(fs, s) && IsBoard(b)
    ensures Sized(fs, s.(board := b))
  {
    hide GoodFile, FileLength;
  }

  lemma SameStacks(w: World, w2: World)
    requires IsWorld(w) && |w2.sessions| == 3 && w2.current < 3 && w2.sessions[w2.current].Some?
    requires w2.sessions == w.sessions && IsBoard(w2.board)
    ensures IsWorld(w2) && Live(w2) == Live(w)
  {
    assert forall t :: 0 <= t < 3 ==> StackOf(w2, t) == StackOf(w, t);
  }

  /** Saving touches no block and no running pointer. */
  lemma SavedRecord(fs: seq<byte>, s: State, t: nat)
    requires Sized(fs, s) && t < 3
    ensures |Save(s).terms| == 3 && Save(s).terms[t].running == s.terms[t].running && Save(s).pcbs == s.pcbs
  {
    hide Overwrite, GoodTable;
  }

  lemma RestoredParts(fs: seq<byte>, s: State, t: nat, p: nat)
    requires Sized(fs, s) && t < 3 && p < 6 && s.terms[t].running == Some(p) && s.pcbs[p].processNum == p
    ensures Sized(fs, Restore(s, t))
    ensures forall q :: 0 <= q < 6 ==> SameSlot(s, Restore(s, t), q)
    ensures Region(Restore(s, t).mem, VIDEO, 4000) == Region(s.mem, SavedScreen(t), 4000)
    ensures forall u :: 0 <= u < 3 ==> SameScreen(s, Restore(s, t), u)
  {
    hide GoodFile, Overwrite, Region, MapImage;
    MapImageShape(s.paging, p);
    var screen := Region(s.mem, SavedScreen(t), 4000);
    RegionWritten(s.mem, VIDEO, screen);
    forall q | 0 <= q < 6 ensures SameSlot(s, Restore(s, t), q) {
      LowWrite(s.mem, VIDEO, screen, q);
    }
    forall u | 0 <= u < 3 ensures SameScreen(s, Restore(s, t), u) {
      RegionElsewhere(s.mem, VIDEO, screen, SavedScreen(u), 4000);
    }
  }

  lemma RestoreIsSized(fs: seq<byte>, s: State, w: World, t: nat)
    requires R(fs, s, w) && t < 3 && w.sessions[t].Some?
    ensures s.terms[t].running == Some(Top(w.sessions[t].value).slot) && Top(w.sessions[t].value).slot < 6
    ensures Save(s).pcbs[Top(w.sessions[t].value).slot].processNum == Top(w.sessions[t].value).slot
    ensures Sized(fs, Restore(Save(s), t))
    ensures forall q :: 0 <= q < 6 ==> SameSlot(s, Restore(Save(s), t), q)
    ensures Region(Restore(Save(s), t).mem, VIDEO, 4000) == Region(Save(s).mem, SavedScreen(t), 4000)
    ensures forall u :: 0 <= u < 3 ==> SameScreen(Save(s), Restore(Save(s), t), u)
  {
    assert TermMatches(fs, s, w, t);
    assert ProcessMatches(fs, s, StackOf(w, t), |StackOf(w, t)| - 1);
    SavedAll(fs, s, w, t);
    hide R, Sized, IsWorld, P.LaidOut, Overwrite, Live, TermMatches, StackMatches, SavedMatches, Restore, Save, FrameOf;
    SavedRecord(fs, s, t);
    RestoredParts(fs, Save(s), t, Top(w.sessions[t].value).slot);
    forall q | 0 <= q < 6 ensures SameSlot(s, Restore(Save(s), t), q) {
      assert SameSlot(s, Save(s), q) && SameSlot(Save(s), Restore(Save(s), t), q);
    }
  }

  lemma SwitchTerm(fs: seq<byte>, s: State, w: World, t: nat, u: nat)
    requires R(fs, s, w) && t < 3 && u < 3 && w.sessions[t].Some?
    requires s.terms[t].running == Some(Top(w.sessions[t].value).slot) && Top(w.sessions[t].value).slot < 6
    requires Save(s).pcbs[Top(w.sessions[t].value).slot].processNum == Top(w.sessions[t].value).slot
    ensures Sized(fs, Restore(Save(s), t)) && IsWorld(w.(current := t))
    ensures TermMatches(fs, Restore(Save(s), t), w.(current := t), u)
  {
    RestoreIsSized(fs, s, w, t);
    SavedAll(fs, s, w, t);
    SameStacks(w, w.(current := t));
    hide GoodFile, P.LaidOut, Overwrite, Live;
    var s2 := Restore(Save(s), t);
    assert TermMatches(fs, s, w, u) && TermMatches(fs, s, w, t);
    if w.sessions[u].Some? {
      SavedAll(fs, s, w, u);
      assert SameScreen(Save(s), s2, u);
      forall q | q in SlotsOf(StackOf(w, u)) ensures SameSlot(s, s2, q) {
        SlotOwner(w, u, q);
      }
      StackKept(fs, s, s2, StackOf(w, u));
    }
  }

  lemma SameSlotsMatch(fs: seq<byte>, s: State, s2: State, w: World, w2: World)
    requires Sized(fs, s) && Sized(fs, s2) && IsWorld(w) && IsWorld(w2)
    requires SlotsMatch(fs, s, w) && Live(w2) == Live(w) && s2.processes == s.processes
    requires forall q :: 0 <= q < 6 ==> SameSlot(s, s2, q)
    ensures SlotsMatch(fs, s2, w2)
  {
    SizedParts(fs, s);
    SizedParts(fs, s2);
    hide IsWorld, Live, Busy, ConsoleOk, EmptySlot, SameSlot, Sized;
    var live := Live(w);
    forall q | 0 <= q < 6 ensures ConsoleOk(s2.tables[q]) && (q !in live ==> EmptySlot(fs, s2, q)) {
      SlotKept(fs, s, s2, q);
    }
  }
}
