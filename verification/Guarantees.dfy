/** What a process and its terminal can rely on, whatever everybody else does. */
module Guarantees {
  import opened Bytes
  import opened FileSystem
  import opened Descriptors
  import opened CommandLine
  import opened Screen
  import opened Editor
  import opened Keyboards
  import opened Memory
  import opened Slots
  import opened Machine
  import opened Sessions
  import opened Refinement
  import opened Simulation
  import opened Fronts
  import opened Steps
  import opened Runs
  import opened Images
  import P = Paging

  // ---------------------------------------------------------------- the guards are exact

  /** The slot that the restarted base shell gets instead of its own. */
  lemma LowerSlotFree(fs: seq<byte>, s: State, w: World)
    requires R(fs, s, w) && |Front(w).stack| == 1 && exists q :: 0 <= q < Top(Front(w)).slot && q !in Live(w)
    ensures var p := Top(Front(w)).slot;
            p < 6 && s.pcbs[p].processNum < 6 && FreeSlot(Vacate(s, p).processes, 0).Some?
            && var r := FreeSlot(Vacate(s, p).processes, 0).value;
               r < 6 && r != p && r != 0 && !s.pcbs[r].termStart
  {
    var p := Top(Front(w)).slot;
    TopLinked(fs, s, w);
    RestartSlot(fs, s, w);
    SlotZeroLive(w);
    hide TermMatches, P.LaidOut, Live, GoodFile;
    var r := FreeSlot(Vacate(s, p).processes, 0).value;
    ClearSlot(s.processes, p);
    assert r != p && r !in Live(w);
    assert EmptySlot(fs, s, r);
  }

  /** A base shell that exits can be followed by a proper state only if all lower slots are taken. */
  lemma BaseExitNeedsLowerSlots(fs: seq<byte>, s: State, w: World, junk: seq<byte>)
    requires R(fs, s, w) && ShellOk(fs) && |junk| == 4 && |Front(w).stack| == 1
    ensures (exists w2 :: R(fs, HaltStep(fs, s, junk), w2))
            <==> forall q :: 0 <= q < Top(Front(w)).slot ==> Busy(s.processes, q)
  {
    hide ShellOk, GoodFile, P.LaidOut, Visible, Overwrite, Content, Live;
    var p := Top(Front(w)).slot;
    TopLinked(fs, s, w);
    assert TermMatches(fs, s, w, w.current);
    RestartSlot(fs, s, w);
    if forall q :: 0 <= q < p ==> Busy(s.processes, q) {
      HaltSimulates(fs, s, w, junk);
    } else {
      assert exists q :: 0 <= q < p && q !in Live(w);
      LowerSlotFree(fs, s, w);
      var r := FreeSlot(Vacate(s, p).processes, 0).value;
      hide Sized, IsWorld, SlotsMatch, TermMatches, HaltStep, IsBase, Vacate;
      forall w2 ensures !R(fs, HaltStep(fs, s, junk), w2) {
        RestartElsewhere(fs, s, junk, p, r, w2);
      }
    }
  }

  /** Where the shell that follows a base shell comes up. */
  lemma RestartsIn(fs: seq<byte>, s: State, junk: seq<byte>, p: nat, r: nat)
    requires Sized(fs, s) && ShellOk(fs) && |junk| == 4 && p < 6 && r < 6
    requires s.terms[s.current].running == Some(p) && IsBase(s.pcbs[p])
    requires FreeSlot(Vacate(s, p).processes, 0) == Some(r)
    ensures HaltStep(fs, s, junk) == Install(fs, Vacate(s, p), SHELL, Shell(fs), r)
  {
    ShellIsExecutable(fs, junk);
    hide ShellOk, Shell, Executable, CommandOk, GoodFile, Overwrite, Content, Install;
    VacatedIsSized(fs, s, p);
  }

  /** The shell that came up in a lower slot has the dead one as its parent: no world fits. */
  lemma RestartElsewhere(fs: seq<byte>, s: State, junk: seq<byte>, p: nat, r: nat, w: World)
    requires Sized(fs, s) && ShellOk(fs) && |junk| == 4
    requires p < 6 && r < 6 && r != p && r != 0 && !s.pcbs[r].termStart
    requires s.terms[s.current].beenHere && s.terms[s.current].running == Some(p)
    requires s.pcbs[p].processNum == p && IsBase(s.pcbs[p])
    requires FreeSlot(Vacate(s, p).processes, 0) == Some(r)
    ensures !R(fs, HaltStep(fs, s, junk), w)
  {
    RestartsIn(fs, s, junk, p, r);
    VacatedIsSized(fs, s, p);
    ClearSlot(s.processes, p);
    OrphanInstalled(fs, Vacate(s, p), Shell(fs), p, r);
    hide R, ShellOk, HaltStep, Shell, Vacate, Install, Sized, IsBase, FreeSlot;
    OrphanHasNoWorld(fs, HaltStep(fs, s, junk), w, r, p);
  }

  lemma OrphanInstalled(fs: seq<byte>, v: State, inode: nat, p: nat, r: nat)
    requires Sized(fs, v) && Loadable(fs, inode) && p < 6 && r < 6 && r != p && r != 0 && !v.pcbs[r].termStart
    requires v.terms[v.current].beenHere && v.terms[v.current].running == Some(p) && !Busy(v.processes, p)
    ensures var s := Install(fs, v, SHELL, inode, r);
            && |s.terms| == 3 && |s.pcbs| == 6 && s.current < 3 && s.terms[s.current].running == Some(r)
            && s.pcbs[r].parentPcb == Some(p) && !s.pcbs[r].termStart && !Busy(s.processes, p)
  {
    SetSlot(v.processes, r);
    hide Overwrite, Content, Loadable, WithConsole, Pad, MapImage, WordAt, Busy;
  }

  lemma OrphanHasNoWorld(fs: seq<byte>, s: State, w: World, r: nat, p: nat)
    requires |s.terms| == 3 && |s.pcbs| == 6 && s.current < 3 && r < 6 && p < 6
    requires s.terms[s.current].running == Some(r) && s.pcbs[r].parentPcb == Some(p) && !s.pcbs[r].termStart
    requires !Busy(s.processes, p)
    ensures !R(fs, s, w)
  {
    if R(fs, s, w) {
      ParentIsLive(fs, s, w);
    }
  }

  /** The parent of a running process that is not a base shell is live. */
  lemma ParentIsLive(fs: seq<byte>, s: State, w: World)
    requires R(fs, s, w)
    ensures var running := s.terms[s.current].running;
            && running.Some? && running.value < 6 && s.terms[s.current].beenHere
            && (!s.pcbs[running.value].termStart ==>
                  var parent := s.pcbs[running.value].parentPcb;
                  parent.Some? && parent.value < 6 && Busy(s.processes, parent.value))
  {
    TopLinked(fs, s, w);
    assert TermMatches(fs, s, w, w.current);
    var stack := Front(w).stack;
    if |stack| > 1 {
      StackInRange(w);
      assert stack[|stack| - 2].slot in SlotsOf(stack);
    }
  }

  /** A first visit leads to a proper state only if a slot is free. */
  lemma FirstVisitNeedsFreeSlot(fs: seq<byte>, s: State, w: World, t: nat, junk: seq<byte>)
    requires R(fs, s, w) && ShellOk(fs) && |junk| == 4 && t < 3 && !s.terms[t].beenHere
    ensures (exists w2 :: R(fs, SwitchStep(fs, s, t, junk), w2)) <==> s.processes != 0x3F
  {
    FullMask(fs, s, w);
    if s.processes != 0x3F {
      hide R, SwitchStep, ShellOk, Live, Sized, LeastFree;
      SwitchStepSimulates(fs, s, w, t, junk);
    } else {
      FullVisit(fs, s, w, t, junk);
      hide ShellOk, Live, SwitchStep, PrintStep, R;
      forall w2 ensures !R(fs, PrintStep(Cleared(s, t), Chars(FULL) + [NEWLINE]), w2) {
        NoShellNoWorld(fs, s, w, t, w2);
      }
    }
  }

  lemma FullMask(fs: seq<byte>, s: State, w: World)
    requires R(fs, s, w)
    ensures IsWorld(w) && (s.processes == 0x3F <==> FreeSlot(s.processes, 0).None?)
    ensures LeastFree(Live(w), 0) == FreeSlot(s.processes, 0)
  {
    AllBusyIsFull(s.processes);
    FreeSlotIsLeastFree(s.processes, Live(w), 0);
  }

  lemma FullVisit(fs: seq<byte>, s: State, w: World, t: nat, junk: seq<byte>)
    requires R(fs, s, w) && ShellOk(fs) && |junk| == 4 && t < 3 && !s.terms[t].beenHere
    requires FreeSlot(s.processes, 0).None?
    ensures IsMemory(s.mem) && |s.terms| == 3 && s.current < 3
    ensures SwitchStep(fs, s, t, junk) == PrintStep(Cleared(s, t), Chars(FULL) + [NEWLINE])
  {
    ShellIsExecutable(fs, junk);
    SizedParts(fs, s);
    hide PrintStep, Overwrite, ShellOk, Shell, Executable, CommandOk, TermMatches, SlotsMatch, IsWorld, Install,
      GoodFile;
  }

  lemma NoShellNoWorld(fs: seq<byte>, s: State, w: World, t: nat, w2: World)
    requires R(fs, s, w) && t < 3 && !s.terms[t].beenHere
    ensures IsMemory(s.mem) && |s.terms| == 3 && s.current < 3
    ensures !R(fs, PrintStep(Cleared(s, t), Chars(FULL) + [NEWLINE]), w2)
  {
    SizedParts(fs, s);
    var s2 := PrintStep(Cleared(s, t), Chars(FULL) + [NEWLINE]);
    if R(fs, s2, w2) {
      hide R, Print, Overwrite;
      ParentIsLive(fs, s2, w2);
    }
  }

  // ---------------------------------------------------------------- terminals do not interfere

  /** Nothing differs but the screen in front and the running process's memory and table. */
  ghost predicate OnlyTop(w: World, w2: World)
    requires FrontReady(w) && FrontReady(w2)
  {
    var (f, g) := (Front(w), Front(w2));
    && w2.current == w.current
    && (forall t :: 0 <= t < 3 && t != w.current ==> w2.sessions[t] == w.sessions[t])
    && |g.stack| == |f.stack| && (forall i :: 0 <= i < |f.stack| - 1 ==> g.stack[i] == f.stack[i])
    && Top(g) == Top(f).(memory := Top(g).memory, table := Top(g).table)
    && g.esp == f.esp && g.ebp == f.ebp
  }

  lemma OnlyTopChains(a: World, b: World, c: World)
    requires FrontReady(a) && FrontReady(b) && FrontReady(c) && OnlyTop(a, b) && OnlyTop(b, c)
    ensures OnlyTop(a, c)
  {
  }

  lemma KernelPokeIsOnlyTop(w: World, va: word, value: byte)
    requires FrontReady(w)
    ensures OnlyTop(w, KernelPoke(w, va, value))
  {
    hide Overwrite;
  }

  lemma {:induction false} FilledIsOnlyTop(w: World, buffer: word, data: seq<byte>)
    requires FrontReady(w)
    ensures OnlyTop(w, Filled(w, buffer, data))
    decreases |data|
  {
    if data != [] {
      var w1 := KernelPoke(w, buffer, data[0]);
      KernelPokeIsOnlyTop(w, buffer, data[0]);
      FilledIsOnlyTop(w1, At(buffer, 1), data[1..]);
      hide OnlyTop, KernelPoke;
      OnlyTopChains(w, w1, Filled(w1, At(buffer, 1), data[1..]));
    }
  }

  lemma OperateIsOnlyTop(fs: seq<byte>, w: World, call: Call)
    requires IsWorld(w) && CallOk(fs, call) && GoodTable(fs, Top(Front(w)).table)
    ensures FrontReady(w) && OnlyTop(w, Operate(fs, w, call))
  {
    hide GoodFile, CallStep, Visible;
  }

  lemma FetchIsOnlyTop(fs: seq<byte>, w: World, fd: word, buffer: word, n: nat)
    requires IsWorld(w) && GoodTable(fs, Top(Front(w)).table)
    ensures FrontReady(w) && FrontReady(Fetch(fs, w, fd, buffer, n)) && OnlyTop(w, Fetch(fs, w, fd, buffer, n))
  {
    var call := ReadCall(Request(fd, n));
    OperateIsOnlyTop(fs, w, call);
    var (w1, data) := (Operate(fs, w, call), ReadBytes(fs, Top(Front(w)).table, fd, buffer, n));
    FilledIsOnlyTop(w1, buffer, data);
    hide Operate, ReadBytes, Filled;
    OnlyTopChains(w, w1, Filled(w1, buffer, data));
  }

  lemma VidMapIsOnlyTop(w: World, pointer: word)
    requires FrontReady(w)
    ensures OnlyTop(w, Filled(w.(video := true), pointer, VIDEO_POINTER))
  {
    FilledIsOnlyTop(w.(video := true), pointer, VIDEO_POINTER);
  }

  lemma TookLineIsOnlyTop(w: World, buffer: word, n: nat, beyond: byte)
    requires FrontReady(w)
    ensures OnlyTop(w, TookLine(w, buffer, n, beyond))
  {
    hide Facing, TakeOn, LineBytes, Filled;
    if w.board.canRead && w.board.oldTyped < 128 {
      var w1 := Faced(w, TakeOn(Facing(w)));
      FilledIsOnlyTop(w1, buffer, LineBytes(w.board, n, beyond));
      OnlyTopChains(w, w1, Filled(w1, buffer, LineBytes(w.board, n, beyond)));
    }
  }

  /** The calls that store for the program. */
  predicate Stores(e: Event) {
    e.Read? || e.ReadLine? || e.Deliver? || e.VidMap?
  }

  lemma StoringIsOnlyTop(fs: seq<byte>, w: World, e: Event, scrap: seq<byte>)
    requires IsWorld(w) && EventOk(fs, e) && |scrap| == 0x40_0000 && GoodTable(fs, Top(Front(w)).table) && Stores(e)
    ensures FrontReady(w) && FrontReady(Next(fs, w, e, scrap)) && OnlyTop(w, Next(fs, w, e, scrap))
  {
    hide Filled, Fetch, GoodFile, ShellOk, TookLine;
    match e
    case ReadLine(buffer, n, beyond) => TookLineIsOnlyTop(w, buffer, n, beyond);
    case Read(fd, buffer, n) => FetchIsOnlyTop(fs, w, fd, buffer, n);
    case Deliver(buffer, data) => FilledIsOnlyTop(w, buffer, data);
    case VidMap(pointer) => VidMapIsOnlyTop(w, pointer);
  }

  /** Stacks differ in the running process only. */
  lemma OnlyTopStacks(w: World, w2: World, t: nat)
    requires FrontReady(w) && FrontReady(w2) && OnlyTop(w, w2) && t < 3
    ensures |StackOf(w2, t)| == |StackOf(w, t)|
    ensures forall i :: 0 <= i < |StackOf(w, t)| ==>
              var (p, q) := (StackOf(w, t)[i], StackOf(w2, t)[i]);
              && (t != w.current || i < |StackOf(w, t)| - 1 ==> q == p)
              && (q.slot, q.callerSp, q.callerBp) == (p.slot, p.callerSp, p.callerBp)
  {
  }

  /** An event changes at most the sessions in front before and after it. */
  lemma NextElsewhere(fs: seq<byte>, w: World, e: Event, scrap: seq<byte>, t: nat)
    requires IsWorld(w) && EventOk(fs, e) && |scrap| == 0x40_0000
    requires GoodTable(fs, Top(Front(w)).table)
    requires t < 3 && t != w.current && t != Next(fs, w, e, scrap).current
    ensures Next(fs, w, e, scrap).sessions[t] == w.sessions[t]
  {
    hide Filled, Fetch, GoodFile, Live, CallStep, Started, ShellOk, CommandOk, Visible, Overwrite, Executable, Facing,
      KeyOn, WriteOn, Print, TookLine, IsConsole, Push, StackOk, SlotsOf, GoodTable, CallOk, FewSlots, BlankCells;
    if Stores(e) {
      StoringIsOnlyTop(fs, w, e, scrap);
    } else if e.Execute? {
      PushElsewhere(fs, w, e.command, e.junk, scrap, t);
    }
  }

  lemma PushElsewhere(fs: seq<byte>, w: World, command: seq<byte>, junk: seq<byte>, scrap: seq<byte>, t: nat)
    requires IsWorld(w) && CommandOk(fs, command, junk) && |scrap| == 0x40_0000 && t < 3 && t != w.current
    ensures Push(fs, w, command, junk, scrap).sessions[t] == w.sessions[t]
    ensures Push(fs, w, command, junk, scrap).current == w.current
  {
    hide CommandOk, Executable, Live, Started, Facing, Print, IsConsole, Loadable;
  }

  lemma OthersUntouched(fs: seq<byte>, s: State, w: World, e: Event, t: nat)
    requires R(fs, s, w) && EventOk(fs, e) && t < 3 && t != w.current && t != After(fs, s, w, e).current
    ensures After(fs, s, w, e).sessions[t] == w.sessions[t]
  {
    RParts(fs, s, w);
    TopTableGood(fs, s, w);
    hide R, Next, Scrap, EventOk;
    NextElsewhere(fs, w, e, Scrap(fs, s, e), t);
  }

  /** Terminal t is not in front at any point of the run. */
  ghost predicate Behind(fs: seq<byte>, s: State, w: World, es: seq<Event>, t: nat)
    requires R(fs, s, w) && AllGuarded(fs, s, w, es)
    decreases |es|
  {
    w.current != t &&
    (es == [] ||
     (StepSimulates(fs, s, w, es[0]);
      Behind(fs, Step(fs, s, es[0]), After(fs, s, w, es[0]), es[1..], t)))
  }

  lemma {:induction false} RunBehind(fs: seq<byte>, s: State, w: World, es: seq<Event>, t: nat)
    requires R(fs, s, w) && AllGuarded(fs, s, w, es) && t < 3 && Behind(fs, s, w, es, t)
    ensures Play(fs, s, w, es).1.sessions[t] == w.sessions[t]
    ensures Play(fs, s, w, es).1.current != t
    decreases |es|
  {
    if es != [] {
      StepSimulates(fs, s, w, es[0]);
      RParts(fs, s, w);
      hide R, Step, After, EventOk, Guard;
      var (s1, w1) := (Step(fs, s, es[0]), After(fs, s, w, es[0]));
      assert w1.current != t;
      OthersUntouched(fs, s, w, es[0], t);
      RunBehind(fs, s1, w1, es[1..], t);
    }
  }

  /** What a user and a process in front can see of the shared hardware. */
  ghost predicate SameFrontState(s: State, s2: State) {
    && IsMemory(s.mem) && IsMemory(s2.mem) && |s.terms| == |s2.terms| == 3 && s.current < 3
    && P.Shape(s.paging) && P.Shape(s2.paging)
    && Region(s2.mem, VIDEO, 4000) == Region(s.mem, VIDEO, 4000)
    && (s2.cursorX, s2.cursorY, s2.keys) == (s.cursorX, s.cursorY, s.keys)
    && (s2.esp, s2.ebp, s2.esp0) == (s.esp, s.ebp, s.esp0)
    && s2.current == s.current && s2.terms[s.current].running == s.terms[s.current].running
    && s2.paging.directory[0x20] == s.paging.directory[0x20]
  }

  /**
   * Leave a terminal, let anything happen elsewhere, and come back: its screen, cursor, keys and stack
   * pointers are what was left, and so are the running process and its mapping.
   */
  lemma ReturningGivesBack(fs: seq<byte>, s: State, w: World, leave: Event,
                           s1: State, w1: World, es: seq<Event>, s2: State, w2: World, junk: seq<byte>)
    requires R(fs, s, w) && leave.Switch? && leave.terminal != w.current && EventOk(fs, leave)
    requires R(fs, s1, w1) && s1 == Step(fs, s, leave) && w1 == After(fs, s, w, leave)
    requires AllGuarded(fs, s1, w1, es) && Behind(fs, s1, w1, es, w.current)
    requires R(fs, s2, w2) && (s2, w2) == Play(fs, s1, w1, es)
    requires |junk| == 4 && w.current < 3 && EventOk(fs, Switch(w.current, junk))
    ensures SameFrontState(s, Step(fs, s2, Switch(w.current, junk)))
  {
    var c := w.current;
    LeavingKeeps(fs, s, w, leave);
    RunBehind(fs, s1, w1, es, c);
    ComingBack(fs, s, w, s2, w2, junk);
  }

  /** Going back to a visited terminal is restoring it. */
  lemma SwitchIsRestore(fs: seq<byte>, s: State, w: World, t: nat, junk: seq<byte>)
    requires R(fs, s, w) && t < 3 && w.sessions[t].Some? && EventOk(fs, Switch(t, junk))
    ensures Sized(fs, s)
    ensures R(fs, Step(fs, s, Switch(t, junk)), w.(current := t, board := w.board.(ctrl := false)))
  {
    RParts(fs, s, w);
    hide R, Sized, IsWorld, SwitchStep, Scrap, ShellOk;
    RevisitSimulates(fs, s, w, t, junk);
  }

  lemma ComingBack(fs: seq<byte>, s: State, w: World, s2: State, w2: World, junk: seq<byte>)
    requires R(fs, s, w) && R(fs, s2, w2) && w2.sessions[w.current] == w.sessions[w.current]
    requires |junk| == 4 && EventOk(fs, Switch(w.current, junk))
    ensures SameFrontState(s, Step(fs, s2, Switch(w.current, junk)))
  {
    var c := w.current;
    SwitchIsRestore(fs, s2, w2, c, junk);
    RParts(fs, s, w);
    hide R, Step, SameFrontState;
    SameFront(fs, s, w, Step(fs, s2, Switch(c, junk)), w2.(current := c, board := w2.board.(ctrl := false)));
  }

  lemma LeavingKeeps(fs: seq<byte>, s: State, w: World, leave: Event)
    requires R(fs, s, w) && leave.Switch? && leave.terminal != w.current && EventOk(fs, leave)
    ensures w.current < 3 && After(fs, s, w, leave).sessions[w.current] == w.sessions[w.current]
  {
    RParts(fs, s, w);
    AfterSwitch(fs, s, w, leave);
    hide R, After, EventOk;
    VisitKeeps(fs, w, leave.terminal, Scrap(fs, s, leave));
  }

  lemma AfterSwitch(fs: seq<byte>, s: State, w: World, leave: Event)
    requires R(fs, s, w) && leave.Switch? && EventOk(fs, leave) && IsWorld(w) && Sized(fs, s)
    ensures After(fs, s, w, leave) == Visit(fs, w, leave.terminal, Scrap(fs, s, leave))
  {
    hide R, Visit, Scrap, ShellOk;
  }

  lemma VisitKeeps(fs: seq<byte>, w: World, t: nat, scrap: seq<byte>)
    requires IsWorld(w) && ShellOk(fs) && t < 3 && |scrap| == 0x40_0000 && t != w.current
    ensures Visit(fs, w, t, scrap).sessions[w.current] == w.sessions[w.current]
  {
    hide ShellOk, Started, Live;
  }

  /** Two states that stand for worlds with the same front session show the same front. */
  lemma SameFront(fs: seq<byte>, s: State, w: World, s2: State, w2: World)
    requires R(fs, s, w) && R(fs, s2, w2) && w2.current == w.current && Front(w2) == Front(w)
    ensures SameFrontState(s, s2)
  {
    hide GoodFile, Visible, StackMatches, Live;
    assert TermMatches(fs, s, w, w.current) && TermMatches(fs, s2, w2, w2.current);
    var p := Top(Front(w)).slot;
    assert s.paging.directory[0x20] == P.DirectoryEntry(s.paging, Some(p), w.video, 0x20);
    assert s2.paging.directory[0x20] == P.DirectoryEntry(s2.paging, Some(p), w2.video, 0x20);
  }

  // ---------------------------------------------------------------- calling and returning

  /** The lowest d + 1 processes stay, and the first d of them unchanged. */
  ghost predicate Below(a: seq<Process>, b: seq<Process>, d: nat) {
    && d < |a| && d < |b| && a[..d] == b[..d]
    && a[d].slot == b[d].slot && a[d].callerSp == b[d].callerSp && a[d].callerBp == b[d].callerBp
  }

  /** An event that leaves more than d processes on a stack leaves the lowest ones alone. */
  lemma NextBelow(fs: seq<byte>, w: World, e: Event, scrap: seq<byte>, t: nat, d: nat)
    requires IsWorld(w) && EventOk(fs, e) && |scrap| == 0x40_0000 && t < 3 && d > 0
    requires GoodTable(fs, Top(Front(w)).table)
    requires d < |StackOf(w, t)| && d < |StackOf(Next(fs, w, e, scrap), t)|
    ensures Below(StackOf(w, t), StackOf(Next(fs, w, e, scrap), t), d)
  {
    hide Next, EventOk, OnlyTop, StackOf, IsWorld, FrontReady;
    if Stores(e) {
      StoringIsOnlyTop(fs, w, e, scrap);
      OnlyTopStacks(w, Next(fs, w, e, scrap), t);
    } else {
      NextBelowOtherwise(fs, w, e, scrap, t, d);
    }
  }

  lemma NextBelowOtherwise(fs: seq<byte>, w: World, e: Event, scrap: seq<byte>, t: nat, d: nat)
    requires !Stores(e)
    requires IsWorld(w) && EventOk(fs, e) && |scrap| == 0x40_0000 && t < 3 && d > 0
    requires GoodTable(fs, Top(Front(w)).table)
    requires d < |StackOf(w, t)| && d < |StackOf(Next(fs, w, e, scrap), t)|
    ensures Below(StackOf(w, t), StackOf(Next(fs, w, e, scrap), t), d)
  {
    hide Filled, Fetch, GoodFile, StackOk, SlotsOf, Live, CallStep, Started, ShellOk, CommandOk, Visible, Overwrite,
      Executable, Facing, KeyOn, WriteOn, Print, IsConsole, IsView, LeastFree, GoodTable, CallOk, FewSlots, BlankCells,
      Push, Pop, Visit, Below, IsWorld;
    RunsHere(w);
    if e.Execute? {
      PushBelow(fs, w, e.command, e.junk, scrap, t, d);
    } else if e.Halt? {
      PopBelow(fs, w, scrap, t, d);
    } else if e.Switch? {
      VisitBelow(fs, w, e.terminal, scrap, t, d);
    } else {
      SameBelow(w, Next(fs, w, e, scrap), t, d);
    }
  }

  lemma RunsHere(w: World)
    requires IsWorld(w)
    ensures FrontReady(w) && StackOf(w, w.current) == Front(w).stack
  {
    assert IsProcess(Top(Front(w)));
  }

  lemma SameBelow(w: World, w2: World, t: nat, d: nat)
    requires FrontReady(w) && FrontReady(w2) && w2.current == w.current && t < 3
    requires forall u :: 0 <= u < 3 && u != w.current ==> w2.sessions[u] == w.sessions[u]
    requires |Front(w2).stack| == |Front(w).stack|
    requires Front(w2).stack[..|Front(w).stack| - 1] == Front(w).stack[..|Front(w).stack| - 1]
    requires var (p, q) := (Top(Front(w)), Top(Front(w2)));
             q.slot == p.slot && q.callerSp == p.callerSp && q.callerBp == p.callerBp
    requires d < |StackOf(w, t)|
    ensures Below(StackOf(w, t), StackOf(w2, t), d)
  {
    if t == w.current {
      var (a, b) := (Front(w).stack, Front(w2).stack);
      assert a[..|a| - 1][..d] == a[..d] && b[..|a| - 1][..d] == b[..d];
      assert d < |a| - 1 ==> a[..|a| - 1][d] == b[..|a| - 1][d];
    }
  }

  lemma PushBelow(fs: seq<byte>, w: World, command: seq<byte>, junk: seq<byte>, scrap: seq<byte>, t: nat, d: nat)
    requires IsWorld(w) && CommandOk(fs, command, junk) && |scrap| == 0x40_0000 && t < 3 && d < |StackOf(w, t)|
    ensures Below(StackOf(w, t), StackOf(Push(fs, w, command, junk, scrap), t), d)
  {
    hide CommandOk, Executable, Live, Started, Facing, Print, IsConsole, Loadable, StackOk, SlotsOf;
  }

  lemma PopBelow(fs: seq<byte>, w: World, scrap: seq<byte>, t: nat, d: nat)
    requires IsWorld(w) && ShellOk(fs) && |scrap| == 0x40_0000 && t < 3 && d > 0
    requires d < |StackOf(w, t)| && d < |StackOf(Pop(fs, w, scrap), t)|
    ensures Below(StackOf(w, t), StackOf(Pop(fs, w, scrap), t), d)
  {
    hide ShellOk, Live, Started, StackOk, SlotsOf;
  }

  lemma VisitBelow(fs: seq<byte>, w: World, u: nat, scrap: seq<byte>, t: nat, d: nat)
    requires IsWorld(w) && ShellOk(fs) && |scrap| == 0x40_0000 && t < 3 && u < 3 && d < |StackOf(w, t)|
    ensures Below(StackOf(w, t), StackOf(Visit(fs, w, u, scrap), t), d)
  {
    hide ShellOk, Live, Started, StackOk, SlotsOf, BlankCells;
  }

  /** All along the run there are more than d processes in terminal t. */
  ghost predicate Above(fs: seq<byte>, s: State, w: World, es: seq<Event>, t: nat, d: nat)
    requires R(fs, s, w) && AllGuarded(fs, s, w, es) && t < 3
    decreases |es|
  {
    |w.sessions| == 3 && d < |StackOf(w, t)| &&
    (es == [] ||
     (StepSimulates(fs, s, w, es[0]);
      Above(fs, Step(fs, s, es[0]), After(fs, s, w, es[0]), es[1..], t, d)))
  }

  lemma {:induction false} RunBelow(fs: seq<byte>, s: State, w: World, es: seq<Event>, t: nat, d: nat)
    requires R(fs, s, w) && AllGuarded(fs, s, w, es) && t < 3 && d > 0 && Above(fs, s, w, es, t, d)
    ensures |w.sessions| == 3 && |Play(fs, s, w, es).1.sessions| == 3
    ensures Below(StackOf(w, t), StackOf(Play(fs, s, w, es).1, t), d)
    decreases |es|
  {
    RParts(fs, s, w);
    if es != [] {
      StepSimulates(fs, s, w, es[0]);
      TopTableGood(fs, s, w);
      var (s1, w1) := (Step(fs, s, es[0]), After(fs, s, w, es[0]));
      RunBelow(fs, s1, w1, es[1..], t, d);
      NextBelow(fs, w, es[0], Scrap(fs, s, es[0]), t, d);
    }
  }

  /**
   * A process executes a program; whatever then happens, in this terminal and in others, until the
   * program and everything it started have halted: the caller is running again with its stack pointers,
   * and all processes below are as they were, with their descriptors, arguments and memory.
   */
  lemma CallReturns(fs: seq<byte>, s: State, w: World, call: Event,
                    s1: State, w1: World, es: seq<Event>, s2: State, w2: World, junk: seq<byte>)
    requires R(fs, s, w) && call.Execute? && EventOk(fs, call)
    requires R(fs, s1, w1) && s1 == Step(fs, s, call) && w1 == After(fs, s, w, call)
    requires w.current < 3 && AllGuarded(fs, s1, w1, es) && Above(fs, s1, w1, es, w.current, |StackOf(w, w.current)|)
    requires R(fs, s2, w2) && (s2, w2) == Play(fs, s1, w1, es)
    requires w2.current == w.current && |StackOf(w2, w.current)| == |StackOf(w, w.current)| + 1
    requires EventOk(fs, Halt(junk))
    ensures var (s3, w3) := (Step(fs, s2, Halt(junk)), After(fs, s2, w2, Halt(junk)));
            && R(fs, s3, w3) && w3.current == w.current
            && StackOf(w3, w.current) == StackOf(w, w.current)
            && Front(w3).esp == s.esp && Front(w3).ebp == s.ebp
            && RestoredFor(fs, s, s3)
  {
    var (t, d) := (w.current, |StackOf(w, w.current)|);
    RParts(fs, s, w);
    RParts(fs, s2, w2);
    ExecutePushes(fs, s, w, call, w1);
    RunBelow(fs, s1, w1, es, t, d);
    StepSimulates(fs, s2, w2, Halt(junk));
    var (s3, w3) := (Step(fs, s2, Halt(junk)), After(fs, s2, w2, Halt(junk)));
    AfterHalt(fs, s2, w2, junk);
    WithoutTopShape(w2);
    hide R, Step, AllGuarded, Above, Play, IsWorld, Sized, RestoredFor, EventOk, After;
    SameStackRestored(fs, s, w, s3, w3);
  }

  /** An execute that adds a process leaves the caller's stack pointers with it. */
  lemma ExecutePushes(fs: seq<byte>, s: State, w: World, call: Event, w1: World)
    requires R(fs, s, w) && call.Execute? && EventOk(fs, call) && w1 == After(fs, s, w, call)
    requires w.current < 3 && |w1.sessions| == 3 && |StackOf(w1, w.current)| > |StackOf(w, w.current)|
    ensures var d := |StackOf(w, w.current)|;
            && d > 0 && StackOf(w1, w.current)[..d] == StackOf(w, w.current)
            && StackOf(w1, w.current)[d].callerSp == s.esp && StackOf(w1, w.current)[d].callerBp == s.ebp
  {
    RParts(fs, s, w);
    assert TermMatches(fs, s, w, w.current);
    hide R, GoodFile, Live, ShellOk, CommandOk, Visible, Overwrite, Executable, Content, StackMatches, Scrap;
  }

  lemma PopShape(fs: seq<byte>, w: World, scrap: seq<byte>)
    requires IsWorld(w) && ShellOk(fs) && |scrap| == 0x40_0000 && |Front(w).stack| > 1
    ensures Pop(fs, w, scrap) == WithoutTop(w)
  {
  }

  lemma AfterHalt(fs: seq<byte>, s: State, w: World, junk: seq<byte>)
    requires R(fs, s, w) && EventOk(fs, Halt(junk)) && Sized(fs, s) && IsWorld(w) && |Front(w).stack| > 1
    ensures After(fs, s, w, Halt(junk)) == WithoutTop(w)
  {
    hide R, Pop, WithoutTop, Scrap, ShellOk, Sized, Live;
    PopShape(fs, w, Scrap(fs, s, Halt(junk)));
  }

  lemma WithoutTopShape(w: World)
    requires IsWorld(w) && |Front(w).stack| > 1
    ensures var (w3, stack, n) := (WithoutTop(w), Front(w).stack, |Front(w).stack|);
            && w3.current == w.current && |w3.sessions| == 3 && w3.sessions[w.current].Some?
            && StackOf(w3, w.current) == stack[..n - 1] && Front(w3).stack == stack[..n - 1]
            && Front(w3).esp == stack[n - 1].callerSp && Front(w3).ebp == stack[n - 1].callerBp
  {
  }

  /** Running process, mapping and kernel stack of the current terminal; its process's block, table and frame. */
  ghost predicate RestoredFor(fs: seq<byte>, s: State, s3: State) {
    && Sized(fs, s) && Sized(fs, s3)
    && s3.current == s.current
    && s3.terms[s.current].running == s.terms[s.current].running
    && s3.esp0 == s.esp0 && s3.esp == s.esp && s3.ebp == s.ebp
    && s3.paging.directory[0x20] == s.paging.directory[0x20]
    && var running := s.terms[s.current].running;
       running.Some? && running.value < 6 &&
       var p := running.value;
       && s3.pcbs[p].processNum == s.pcbs[p].processNum
       && s3.pcbs[p].args == s.pcbs[p].args && s3.pcbs[p].filename == s.pcbs[p].filename
       && Visible(s3.tables[p]) == Visible(s.tables[p])
       && FrameOf(s3.mem, p) == FrameOf(s.mem, p)
  }

  lemma SameStackRestored(fs: seq<byte>, s: State, w: World, s3: State, w3: World)
    requires R(fs, s, w) && R(fs, s3, w3) && w3.current == w.current
    requires Front(w3).stack == Front(w).stack && Front(w3).esp == s.esp && Front(w3).ebp == s.ebp
    ensures RestoredFor(fs, s, s3)
  {
    TopLinked(fs, s, w);
    TopLinked(fs, s3, w3);
    assert TermMatches(fs, s, w, w.current) && TermMatches(fs, s3, w3, w3.current);
    hide GoodFile, StackMatches, Live, SlotsMatch;
    var p := Top(Front(w)).slot;
    assert s.paging.directory[0x20] == P.DirectoryEntry(s.paging, Some(p), w.video, 0x20);
    assert s3.paging.directory[0x20] == P.DirectoryEntry(s3.paging, Some(p), w3.video, 0x20);
  }

  ghost predicate NoSwitch(es: seq<Event>) {
    forall i :: 0 <= i < |es| ==> !es[i].Switch?
  }

  lemma NoSwitchParts(es: seq<Event>)
    requires NoSwitch(es) && es != []
    ensures !es[0].Switch? && NoSwitch(es[1..])
  {
  }

  lemma NextStays(fs: seq<byte>, w: World, e: Event, scrap: seq<byte>)
    requires IsWorld(w) && EventOk(fs, e) && |scrap| == 0x40_0000 && !e.Switch?
    requires GoodTable(fs, Top(Front(w)).table)
    ensures Next(fs, w, e, scrap).current == w.current
  {
    hide Filled, Fetch, GoodFile, Live, CallStep, Started, ShellOk, CommandOk, Visible, Overwrite, Executable, Facing,
      KeyOn, WriteOn, Print, TookLine, IsConsole, Faced;
    if Stores(e) {
      StoringIsOnlyTop(fs, w, e, scrap);
    }
  }

  lemma AfterStays(fs: seq<byte>, s: State, w: World, e: Event)
    requires R(fs, s, w) && EventOk(fs, e) && !e.Switch?
    ensures After(fs, s, w, e).current == w.current
  {
    RParts(fs, s, w);
    TopTableGood(fs, s, w);
    hide R, Next, Scrap, EventOk;
    NextStays(fs, w, e, Scrap(fs, s, e));
  }

  /** While nobody switches terminals, the others stay as they are. */
  lemma {:induction false} RunStays(fs: seq<byte>, s: State, w: World, es: seq<Event>, t: nat)
    requires R(fs, s, w) && AllGuarded(fs, s, w, es) && NoSwitch(es) && t < 3 && t != w.current
    ensures Play(fs, s, w, es).1.current == w.current
    ensures Play(fs, s, w, es).1.sessions[t] == w.sessions[t]
    decreases |es|
  {
    if es != [] {
      NoSwitchParts(es);
      StepSimulates(fs, s, w, es[0]);
      RParts(fs, s, w);
      hide R, Step, After, EventOk, Guard, NoSwitch, IsWorld, Sized;
      AfterStays(fs, s, w, es[0]);
      OthersUntouched(fs, s, w, es[0], t);
      RunStays(fs, Step(fs, s, es[0]), After(fs, s, w, es[0]), es[1..], t);
    }
  }

  lemma SameStacksSameMask(fs: seq<byte>, s: State, w: World, s3: State, w3: World)
    requires R(fs, s, w) && R(fs, s3, w3) && |w.sessions| == |w3.sessions| == 3
    requires forall t :: 0 <= t < 3 ==> StackOf(w3, t) == StackOf(w, t)
    ensures s3.processes == s.processes
  {
    hide GoodFile, TermMatches, HardwareMatches;
    assert Live(w3) == Live(w);
    SameBusySameMask(s.processes, s3.processes);
  }

  lemma MaskKept(fs: seq<byte>, s: State, w: World, call: Event,
                 s1: State, w1: World, es: seq<Event>, s2: State, w2: World, s3: State, w3: World, junk: seq<byte>)
    requires R(fs, s, w) && call.Execute? && EventOk(fs, call)
    requires R(fs, s1, w1) && s1 == Step(fs, s, call) && w1 == After(fs, s, w, call)
    requires AllGuarded(fs, s1, w1, es) && NoSwitch(es)
    requires R(fs, s2, w2) && (s2, w2) == Play(fs, s1, w1, es) && EventOk(fs, Halt(junk))
    requires R(fs, s3, w3) && w3 == After(fs, s2, w2, Halt(junk))
    requires w.current < 3 && |w.sessions| == |w3.sessions| == 3 && StackOf(w3, w.current) == StackOf(w, w.current)
    ensures s3.processes == s.processes
  {
    hide R, Step, After, EventOk, Guard, Play, AllGuarded, NoSwitch;
    AfterStays(fs, s, w, call);
    forall t | 0 <= t < 3 ensures StackOf(w3, t) == StackOf(w, t) {
      if t != w.current {
        OthersUntouched(fs, s, w, call, t);
        RunStays(fs, s1, w1, es, t);
        AfterStays(fs, s2, w2, Halt(junk));
        OthersUntouched(fs, s2, w2, Halt(junk), t);
      }
    }
    SameStacksSameMask(fs, s, w, s3, w3);
  }

  /** A call made and returned on one terminal, without switching, also leaves the slot bitmask as it was. */
  lemma CallRestoresMask(fs: seq<byte>, s: State, w: World, call: Event,
                         s1: State, w1: World, es: seq<Event>, s2: State, w2: World, junk: seq<byte>)
    requires R(fs, s, w) && call.Execute? && EventOk(fs, call)
    requires R(fs, s1, w1) && s1 == Step(fs, s, call) && w1 == After(fs, s, w, call)
    requires w.current < 3 && AllGuarded(fs, s1, w1, es) && Above(fs, s1, w1, es, w.current, |StackOf(w, w.current)|)
    requires R(fs, s2, w2) && (s2, w2) == Play(fs, s1, w1, es)
    requires w2.current == w.current && |StackOf(w2, w.current)| == |StackOf(w, w.current)| + 1
    requires EventOk(fs, Halt(junk)) && NoSwitch(es)
    ensures Step(fs, s2, Halt(junk)).processes == s.processes
  {
    CallReturns(fs, s, w, call, s1, w1, es, s2, w2, junk);
    RParts(fs, s, w);
    StepSimulates(fs, s2, w2, Halt(junk));
    var (s3, w3) := (Step(fs, s2, Halt(junk)), After(fs, s2, w2, Halt(junk)));
    RParts(fs, s, w);
    RParts(fs, s3, w3);
    hide R, Step, After, EventOk, Guard, Play, AllGuarded, NoSwitch, Above, RestoredFor, IsWorld, Sized;
    MaskKept(fs, s, w, call, s1, w1, es, s2, w2, s3, w3, junk);
  }

  // ---------------------------------------------------------------- a process and its memory

  /** Events that may change the running process: its own stores and calls, and its end. */
  ghost predicate OwnEvent(w: World, e: Event, t: nat, i: nat)
    requires IsWorld(w) && t < 3
  {
    t == w.current && i == |StackOf(w, t)| - 1 && (e.Store? || e.Descriptor? || Stores(e) || e.Halt?)
  }

  /** No event of anybody else changes a process, its descriptors or any byte of its memory. */
  lemma OnlyOwnEventsChange(fs: seq<byte>, w: World, e: Event, scrap: seq<byte>, t: nat, i: nat)
    requires IsWorld(w) && EventOk(fs, e) && |scrap| == 0x40_0000 && t < 3
    requires GoodTable(fs, Top(Front(w)).table)
    requires i < |StackOf(w, t)| && !OwnEvent(w, e, t, i) && i < |StackOf(Next(fs, w, e, scrap), t)|
    ensures StackOf(Next(fs, w, e, scrap), t)[i] == StackOf(w, t)[i]
  {
    if Stores(e) {
      StoringIsOnlyTop(fs, w, e, scrap);
      hide Next, EventOk, OnlyTop, StackOf, IsWorld, FrontReady;
      OnlyTopStacks(w, Next(fs, w, e, scrap), t);
    } else {
      OnlyOwnEventsChangeOtherwise(fs, w, e, scrap, t, i);
    }
  }

  lemma OnlyOwnEventsChangeOtherwise(fs: seq<byte>, w: World, e: Event, scrap: seq<byte>, t: nat, i: nat)
    requires !Stores(e)
    requires IsWorld(w) && EventOk(fs, e) && |scrap| == 0x40_0000 && t < 3
    requires GoodTable(fs, Top(Front(w)).table)
    requires i < |StackOf(w, t)| && !OwnEvent(w, e, t, i) && i < |StackOf(Next(fs, w, e, scrap), t)|
    ensures StackOf(Next(fs, w, e, scrap), t)[i] == StackOf(w, t)[i]
  {
    hide Filled, Fetch, GoodFile, Live, CallStep, Started, ShellOk, CommandOk, Visible, Overwrite, Executable, Facing,
      KeyOn, WriteOn, Print, TookLine, IsConsole;
  }

  /** Process i of terminal t stays on its stack and is never the one that acts. */
  ghost predicate Undisturbed(fs: seq<byte>, s: State, w: World, es: seq<Event>, t: nat, i: nat)
    requires R(fs, s, w) && AllGuarded(fs, s, w, es) && t < 3
    decreases |es|
  {
    |w.sessions| == 3 && IsWorld(w) && i < |StackOf(w, t)| &&
    (es == [] ||
     (!OwnEvent(w, es[0], t, i) &&
      (StepSimulates(fs, s, w, es[0]);
       Undisturbed(fs, Step(fs, s, es[0]), After(fs, s, w, es[0]), es[1..], t, i))))
  }

  /** Over any run in which a process does not act itself, all its memory stays byte for byte. */
  lemma {:induction false} MemoryIsPrivate(fs: seq<byte>, s: State, w: World, es: seq<Event>, t: nat, i: nat)
    requires R(fs, s, w) && AllGuarded(fs, s, w, es) && t < 3 && Undisturbed(fs, s, w, es, t, i)
    ensures Sized(fs, s) && Sized(fs, Play(fs, s, w, es).0)
    ensures var (s2, w2) := Play(fs, s, w, es);
            && i < |StackOf(w, t)| && i < |StackOf(w2, t)| && StackOf(w2, t)[i] == StackOf(w, t)[i]
            && var p := StackOf(w, t)[i].slot;
               p < 6 && FrameOf(s2.mem, p) == FrameOf(s.mem, p)
    decreases |es|
  {
    RParts(fs, s, w);
    FrameIsMemory(fs, s, w, t, i);
    if es != [] {
      StepSimulates(fs, s, w, es[0]);
      TopTableGood(fs, s, w);
      var (s1, w1) := (Step(fs, s, es[0]), After(fs, s, w, es[0]));
      MemoryIsPrivate(fs, s1, w1, es[1..], t, i);
      OnlyOwnEventsChange(fs, w, es[0], Scrap(fs, s, es[0]), t, i);
      FrameIsMemory(fs, s1, w1, t, i);
    }
  }

  lemma FrameIsMemory(fs: seq<byte>, s: State, w: World, t: nat, i: nat)
    requires R(fs, s, w) && t < 3 && |w.sessions| == 3 && i < |StackOf(w, t)|
    ensures IsMemory(s.mem)
    ensures StackOf(w, t)[i].slot < 6 && FrameOf(s.mem, StackOf(w, t)[i].slot) == StackOf(w, t)[i].memory
  {
    assert TermMatches(fs, s, w, t);
    assert ProcessMatches(fs, s, StackOf(w, t), i);
  }

  /** Through the page tables, the addresses from 0x08048000 on show what was written behind the load address. */
  lemma LoadedByte(t: P.Tables, mem: seq<byte>, p: nat, video: bool, data: seq<byte>, k: nat)
    requires P.LaidOut(t, Some(p), video) && p < 6 && IsMemory(mem)
    requires |data| <= 0x40_0000 - 0x4_8000 && k < |data|
    ensures var pa := P.Translate(t, 0x804_8000 + k, P.Access(true, false));
            pa.Some? && pa.value < |mem| && Overwrite(mem, FrameAt(p) + 0x4_8000, data)[pa.value] == data[k]
  {
    hide P.Translate, P.LaidOut, Overwrite;
    P.LayoutGivesAddressSpace(t, Some(p), video, 0x804_8000 + k, P.Access(true, false));
    OverwrittenByte(mem, FrameAt(p) + 0x4_8000, data, k);
  }

  /** What Install needs of a state. */
  ghost predicate Installable(fs: seq<byte>, s: State, command: seq<byte>, inode: nat, p: nat) {
    && |s.pcbs| == 6 && |s.tables| == 6 && |s.terms| == 3 && s.current < 3 && p < 6
    && |s.tables[p]| == 8 && IsMemory(s.mem) && P.Shape(s.paging) && |command| < 32 && Loadable(fs, inode)
  }

  lemma InstalledProgram(fs: seq<byte>, s: State, command: seq<byte>, inode: nat, p: nat, video: bool, k: nat)
    requires Installable(fs, s, command, inode, p) && k < |Content(fs, inode)|
    requires P.LaidOut(MapImage(s.paging, p), Some(p), video)
    ensures var s2 := Install(fs, s, command, inode, p);
            UserReads(s2, 0x804_8000 + k, Content(fs, inode)[k])
  {
    LoadedByte(MapImage(s.paging, p), s.mem, p, video, Content(fs, inode), k);
    hide Content, WordAt, GoodFile, P.LaidOut, P.Translate, Pad, WithConsole, CStr, FileName, Args;
  }

  /**
   * The process that a successful execute starts has the name and the arguments of the command, and in its block
   * the way back: its caller and the caller's stack pointers, none for slot 0.
   */
  lemma InstalledArguments(fs: seq<byte>, s: State, command: seq<byte>, inode: nat, p: nat)
    requires Installable(fs, s, command, inode, p) && NoNul(command)
    ensures var s2 := Install(fs, s, command, inode, p);
            && s2.terms[s2.current].running == Some(p)
            && CStr(s2.pcbs[p].args) == Args(command) && CStr(s2.pcbs[p].filename) == FileName(command)
            && |s2.pcbs[p].args| == 95 && |s2.pcbs[p].filename| == 32
            && (s2.pcbs[p].parentSp, s2.pcbs[p].parentBp) == (if p == 0 then (0, 0) else (s.esp, s.ebp))
            && s2.pcbs[p].parentPcb ==
               if p == 0 || !s.terms[s.current].beenHere then None else s.terms[s.current].running
  {
    hide Content, WordAt, GoodFile, CStr, Pad, WithConsole, FileName, Args, NoNul, MapImage, Overwrite;
    ArgsHaveNoNul(command);
    CStrOfPad(Args(command), 95);
    CStrOfPad(FileName(command), 32);
  }

  /** Nothing but the screen, the cursor and what lies behind the screen differs. */
  ghost predicate OnlyConsole(s: State, s2: State) {
    && IsMemory(s.mem) && IsMemory(s2.mem)
    && s2 == s.(mem := s2.mem, cursorX := s2.cursorX, cursorY := s2.cursorY, intact := s2.intact)
    && s2.mem[..VIDEO] == s.mem[..VIDEO] && s2.mem[VIDEO + 0x4000..] == s.mem[VIDEO + 0x4000..]
  }

  lemma PrintIsOnlyConsole(s: State, text: seq<byte>)
    requires IsMemory(s.mem)
    ensures OnlyConsole(s, PrintStep(s, text))
  {
    hide Print;
    var s2 := PrintStep(s, text);
    assert s2.mem[..VIDEO] == s.mem[..VIDEO] && s2.mem[VIDEO + 0x4000..] == s.mem[VIDEO + 0x4000..];
  }

  /**
   * An execute succeeds exactly if there is a file that is not empty and begins with 0x7F "ELF", and a slot is
   * free; bytes that a short file lacks are what the local buffer held. Any other file gives -1 and changes
   * nothing, and without a slot nothing changes but the console, which shows the message.
   */
  lemma ExecuteSucceedsIff(fs: seq<byte>, s: State, command: seq<byte>, junk: seq<byte>)
    requires Sized(fs, s) && CommandOk(fs, command, junk)
    ensures var (s2, r) := ExecuteStep(fs, s, command, junk);
            var found := Lookup(fs, FileName(command));
            var c := if found.Some? then Content(fs, StoredDentry(fs, found.value).inode) else [];
            var program :=
              && c != []
              && (if 0 < |c| then c[0] else junk[0]) == 0x7F && (if 1 < |c| then c[1] else junk[1]) == 0x45
              && (if 2 < |c| then c[2] else junk[2]) == 0x4C && (if 3 < |c| then c[3] else junk[3]) == 0x46;
            && (r == 0 <==> program && s.processes != 0x3F)
            && (r == -10 <==> program && s.processes == 0x3F)
            && (r == -1 <==> !program)
            && (r == -1 ==> s2 == s)
            && (r == -10 ==>
                  && OnlyConsole(s, s2)
                  && s2 == PrintStep(s, Chars("Max number of processes reached") + [10]))
  {
    AllBusyIsFull(s.processes);
    SizedParts(fs, s);
    PrintIsOnlyConsole(s, Chars(FULL) + [NEWLINE]);
    ExecutableIff(fs, FileName(command), junk);
    hide PrintStep, OnlyConsole, Executable, Content, GoodFile, FileName, Overwrite, MapImage, WithConsole, Pad;
  }

  /**
   * The least free slot p gets the processor: the program begins at the word in bytes 24 to 27 of its file, low
   * byte first, with the 4 MB from 8 MB + 4p MB on at 128 MB and a kernel stack that ends 8p KB below 8 MB.
   */
  lemma StartsAtEntryPoint(fs: seq<byte>, s: State, command: seq<byte>, junk: seq<byte>, p: nat)
    requires Sized(fs, s) && CommandOk(fs, command, junk)
    requires Executable(fs, FileName(command), junk).Some? && FreeSlot(s.processes, 0) == Some(p)
    ensures var (s2, c) := (ExecuteStep(fs, s, command, junk).0,
                            Content(fs, StoredDentry(fs, Lookup(fs, FileName(command)).value).inode));
            && |c| >= 28 && P.Shape(s2.paging)
            && s2.eip % 0x100 == c[24] && s2.eip / 0x100 % 0x100 == c[25]
            && s2.eip / 0x1_0000 % 0x100 == c[26] && s2.eip / 0x100_0000 == c[27]
            && s2.esp0 == 0x80_0000 - 0x2000 * p - 4
            && s2.paging.directory == s.paging.directory[0x20 := 0x80_0087 + 0x40_0000 * p]
            && |s2.terms| == 3 && s2.current == s.current < 3 && s2.terms[s.current].running == Some(p)
  {
    var inode := StoredDentry(fs, Lookup(fs, FileName(command)).value).inode;
    SizedParts(fs, s);
    InstalledHardware(fs, s, command, inode, p);
    hide Install, Content, Header, GoodFile, FileName, GoodTable;
  }

  lemma InstalledHardware(fs: seq<byte>, s: State, command: seq<byte>, inode: nat, p: nat)
    requires Installable(fs, s, command, inode, p)
    ensures var (s2, c) := (Install(fs, s, command, inode, p), Content(fs, inode));
            && |c| >= 28 && P.Shape(s2.paging)
            && s2.eip % 0x100 == c[24] && s2.eip / 0x100 % 0x100 == c[25]
            && s2.eip / 0x1_0000 % 0x100 == c[26] && s2.eip / 0x100_0000 == c[27]
            && s2.esp0 == 0x80_0000 - 0x2000 * p - 4
            && s2.paging.directory == s.paging.directory[0x20 := 0x80_0087 + 0x40_0000 * p]
            && |s2.terms| == 3 && s2.current == s.current < 3 && s2.terms[s.current].running == Some(p)
  {
    WordReadsBack(Content(fs, inode), 24, WordAt(Content(fs, inode), 24));
    hide Content, WordAt, GoodFile, FileName, Args, Pad, WithConsole, Overwrite;
  }

  lemma ExecutableIff(fs: seq<byte>, name: seq<byte>, junk: seq<byte>)
    requires GoodImage(fs) && |name| < 32 && |junk| == 4
    ensures var found := Lookup(fs, name);
            var c := if found.Some? then Content(fs, StoredDentry(fs, found.value).inode) else [];
            Executable(fs, name, junk) ==
            if && c != []
               && (if 0 < |c| then c[0] else junk[0]) == 0x7F && (if 1 < |c| then c[1] else junk[1]) == 0x45
               && (if 2 < |c| then c[2] else junk[2]) == 0x4C && (if 3 < |c| then c[3] else junk[3]) == 0x46
            then Some(StoredDentry(fs, found.value).inode) else None
  {
    var found := Lookup(fs, name);
    if found.Some? {
      HeaderIff(Content(fs, StoredDentry(fs, found.value).inode), junk);
    }
    hide Content, GoodFile, Header;
  }

  lemma HeaderIff(c: seq<byte>, junk: seq<byte>)
    requires |junk| == 4
    ensures Header(c, junk) == ELF
            <==> && (if 0 < |c| then c[0] else junk[0]) == 0x7F && (if 1 < |c| then c[1] else junk[1]) == 0x45
                 && (if 2 < |c| then c[2] else junk[2]) == 0x4C && (if 3 < |c| then c[3] else junk[3]) == 0x46
  {
    var h := Header(c, junk);
    assert |h| == 4;
    assert h == [h[0], h[1], h[2], h[3]];
    assert forall i :: 0 <= i < 4 ==> h[i] == if i < |c| then c[i] else junk[i];
  }

  /** From s to s2, a free slot was filled with the named process, and no other slot was touched. */
  ghost predicate FillsSlot(s: State, s2: State, p: nat, command: seq<byte>) {
    && p < 6 && |s2.pcbs| == 6 && |s2.terms| == 3 && s2.current < 3
    && s2.terms[s2.current].running == Some(p)
    && !Busy(s.processes, p) && Busy(s2.processes, p)
    && (forall q :: 0 <= q < 6 && q != p ==> SameSlot(s, s2, q) && (Busy(s2.processes, q) <==> Busy(s.processes, q)))
    && CStr(s2.pcbs[p].args) == Args(command)
    && CStr(s2.pcbs[p].filename) == FileName(command)
  }

  lemma InstallFillsSlot(fs: seq<byte>, s: State, command: seq<byte>, inode: nat, p: nat)
    requires Installable(fs, s, command, inode, p) && NoNul(command) && Sized(fs, s) && !Busy(s.processes, p)
    requires ConsoleOk(s.tables[p]) && forall i :: 2 <= i < 8 ==> !s.tables[p][i].inUse
    ensures FillsSlot(s, Install(fs, s, command, inode, p), p, command)
  {
    hide Sized, Content, CStr, FileName, Args, SameSlot, Holds, SameScreen, ConsoleOk, Overwrite, MapImage, WithConsole,
      Pad, WordAt, Busy, SlotBit, NoNul, Install, SixBits, Loadable;
    InstallMask(fs, s, command, inode, p);
    Installed(fs, s, command, inode, p, s.esp, s.ebp);
    InstalledArguments(fs, s, command, inode, p);
  }

  lemma InstallMask(fs: seq<byte>, s: State, command: seq<byte>, inode: nat, p: nat)
    requires Sized(fs, s) && |command| < 32 && Loadable(fs, inode) && p < 6
    ensures var s2 := Install(fs, s, command, inode, p);
            && |s2.pcbs| == 6 && |s2.terms| == 3 && s2.current < 3
            && forall q :: 0 <= q < 6 ==> (Busy(s2.processes, q) <==> q == p || Busy(s.processes, q))
  {
    SetSlot(s.processes, p);
    hide GoodTable, Overwrite, Content, Loadable, MapImage, WithConsole, Pad, WordAt, Busy, SlotBit;
  }

  /** A successful execute touches no slot but the least free one, which it fills. */
  lemma ExecuteFillsOneSlot(fs: seq<byte>, s: State, w: World, command: seq<byte>, junk: seq<byte>, p: nat)
    requires R(fs, s, w) && CommandOk(fs, command, junk)
    requires Sized(fs, s) && Executable(fs, FileName(command), junk).Some? && FreeSlot(s.processes, 0) == Some(p)
    ensures FillsSlot(s, ExecuteStep(fs, s, command, junk).0, p, command)
  {
    var inode := Executable(fs, FileName(command), junk).value;
    SizedParts(fs, s);
    EmptyWhenFree(fs, s, w, p);
    hide R, Content, GoodFile, FileName, Args, FillsSlot, ConsoleOk, Sized, Overwrite, MapImage, WithConsole, Pad,
      WordAt, Busy, Executable, NoNul, Install, GoodImage;
    InstallFillsSlot(fs, s, command, inode, p);
  }

  lemma EmptyWhenFree(fs: seq<byte>, s: State, w: World, p: nat)
    requires R(fs, s, w) && p < 6 && !Busy(s.processes, p)
    ensures |s.tables| == 6 && |s.tables[p]| == 8
    ensures ConsoleOk(s.tables[p]) && forall i :: 2 <= i < 8 ==> !s.tables[p][i].inUse
  {
    assert EmptySlot(fs, s, p);
  }

  /** A user-mode load from a virtual address gives the byte b. */
  ghost predicate UserReads(s: State, va: word, b: byte) {
    && P.Shape(s.paging)
    && var pa := P.Translate(s.paging, va, P.Access(true, false));
       pa.Some? && pa.value < |s.mem| && s.mem[pa.value] == b
  }

  /**
   * Right after a successful execute, the addresses from 0x08048000 on hold the file, as the new process
   * reads them through the page tables.
   */
  lemma ProgramIsLoaded(fs: seq<byte>, s: State, w: World, command: seq<byte>, junk: seq<byte>,
                        inode: nat, p: nat, k: nat)
    requires Sized(fs, s) && R(fs, s, w) && CommandOk(fs, command, junk)
    requires Executable(fs, FileName(command), junk) == Some(inode) && FreeSlot(s.processes, 0) == Some(p)
    requires k < |Content(fs, inode)|
    ensures UserReads(ExecuteStep(fs, s, command, junk).0, 0x804_8000 + k, Content(fs, inode)[k])
  {
    SizedParts(fs, s);
    RParts(fs, s, w);
    assert P.LaidOut(s.paging, Some(Top(Front(w)).slot), w.video);
    hide R, Sized, Content, WordAt, GoodFile, P.LaidOut, P.Translate, Install, MapImage, UserReads, GoodImage;
    Mapped(s.paging, Some(Top(Front(w)).slot), w.video, p);
    InstalledProgram(fs, s, command, inode, p, w.video, k);
  }

  /**
   * And it stays loaded, whatever anybody else does, for as long as the program does not act itself; when it
   * is the one in front, that is what it reads.
   */
  lemma ProgramStaysLoaded(fs: seq<byte>, s: State, w: World, call: Event, inode: nat, p: nat,
                           s1: State, w1: World, es: seq<Event>, k: nat)
    requires Sized(fs, s) && R(fs, s, w) && call.Execute? && EventOk(fs, call) && |w.sessions| == 3 && w.current < 3
    requires Executable(fs, FileName(call.command), call.junk) == Some(inode) && FreeSlot(s.processes, 0) == Some(p)
    requires R(fs, s1, w1) && s1 == Step(fs, s, call) && w1 == After(fs, s, w, call)
    requires AllGuarded(fs, s1, w1, es) && Undisturbed(fs, s1, w1, es, w.current, |StackOf(w, w.current)|)
    requires k < |Content(fs, inode)|
    ensures var (s2, w2) := Play(fs, s1, w1, es);
            && IsMemory(s2.mem) && FrameOf(s2.mem, p)[0x4_8000 + k] == Content(fs, inode)[k]
            && (w2.current == w.current && |w2.sessions| == 3
                && |StackOf(w2, w.current)| == |StackOf(w, w.current)| + 1 ==>
                  UserReads(s2, 0x804_8000 + k, Content(fs, inode)[k]))
  {
    var (t, d) := (w.current, |StackOf(w, w.current)|);
    PushedSlot(fs, s, w, call, inode, p);
    LoadedFrame(fs, s, call, inode, p, k);
    MemoryIsPrivate(fs, s1, w1, es, t, d);
    var (s2, w2) := Play(fs, s1, w1, es);
    assert FrameOf(s2.mem, p) == FrameOf(s1.mem, p);
    if w2.current == t && |w2.sessions| == 3 && |StackOf(w2, t)| == d + 1 {
      hide R, Step, After, Play, AllGuarded, Undisturbed, Sized, EventOk, Executable, Content, GoodFile, Overwrite,
        UserReads;
      ReadsOwnFrame(fs, s2, w2, 0x4_8000 + k);
    }
  }

  lemma PushedSlot(fs: seq<byte>, s: State, w: World, call: Event, inode: nat, p: nat)
    requires R(fs, s, w) && call.Execute? && EventOk(fs, call) && w.current < 3 && |w.sessions| == 3
    requires Executable(fs, FileName(call.command), call.junk) == Some(inode) && FreeSlot(s.processes, 0) == Some(p)
    ensures var w1 := After(fs, s, w, call);
            && |StackOf(w1, w.current)| == |StackOf(w, w.current)| + 1
            && StackOf(w1, w.current)[|StackOf(w, w.current)|].slot == p
  {
    RParts(fs, s, w);
    FreeSlotIsLeastFree(s.processes, Live(w), 0);
    TopTableGood(fs, s, w);
    hide R, Sized, Live, CommandOk, Executable, Overwrite, Content, Scrap, ShellOk;
  }

  lemma LoadedFrame(fs: seq<byte>, s: State, call: Event, inode: nat, p: nat, k: nat)
    requires Sized(fs, s) && call.Execute? && EventOk(fs, call)
    requires Executable(fs, FileName(call.command), call.junk) == Some(inode) && FreeSlot(s.processes, 0) == Some(p)
    requires k < |Content(fs, inode)|
    ensures var s1 := Step(fs, s, call);
            IsMemory(s1.mem) && FrameOf(s1.mem, p)[0x4_8000 + k] == Content(fs, inode)[k]
  {
    var s1 := Step(fs, s, call);
    LoadedMemory(fs, s, call, inode, p);
    hide Step, EventOk, Sized, Executable, Content, Overwrite, FreeSlot, FileName;
    OwnByte(s.mem, Content(fs, inode), p, k);
  }

  lemma LoadedMemory(fs: seq<byte>, s: State, call: Event, inode: nat, p: nat)
    requires Sized(fs, s) && call.Execute? && EventOk(fs, call)
    requires Executable(fs, FileName(call.command), call.junk) == Some(inode) && FreeSlot(s.processes, 0) == Some(p)
    ensures Loadable(fs, inode) && IsMemory(s.mem) && p < 6
    ensures Step(fs, s, call).mem == Overwrite(s.mem, FrameAt(p) + 0x4_8000, Content(fs, inode))
  {
    assert Loadable(fs, inode);
    hide CommandOk, Content, GoodFile, ShellOk, WithConsole, Pad, WordAt, Overwrite, Executable;
  }

  lemma OwnByte(m: seq<byte>, data: seq<byte>, p: nat, k: nat)
    requires IsMemory(m) && p < 6 && k < |data| <= 0x40_0000 - 0x4_8000
    ensures IsMemory(Overwrite(m, FrameAt(p) + 0x4_8000, data))
    ensures FrameOf(Overwrite(m, FrameAt(p) + 0x4_8000, data), p)[0x4_8000 + k] == data[k]
  {
    var (at, frame) := (FrameAt(p) + 0x4_8000, FrameAt(p));
    OverwrittenByte(m, at, data, k);
    hide Overwrite;
    assert frame + (0x4_8000 + k) == at + k;
  }

  /** What a program in front reads is its frame. */
  lemma ReadsOwnFrame(fs: seq<byte>, s: State, w: World, off: nat)
    requires R(fs, s, w) && off < 0x40_0000
    ensures IsMemory(s.mem) && Front(w).stack != [] && Top(Front(w)).slot < 6
    ensures UserReads(s, 0x800_0000 + off, FrameOf(s.mem, Top(Front(w)).slot)[off])
  {
    TopLinked(fs, s, w);
    SizedParts(fs, s);
    hide P.LaidOut, P.Translate, Sized;
    StoreLands(s, Top(Front(w)).slot, w.video, 0x800_0000 + off, P.Access(true, false));
  }

  lemma OverwrittenByte(m: seq<byte>, a: nat, data: seq<byte>, k: nat)
    requires a + |data| <= |m| && k < |data|
    ensures Overwrite(m, a, data)[a + k] == data[k]
  {
  }

  // ---------------------------------------------------------------- the keyboard is shared

  /** Neither Enter nor a read of the line. */
  predicate LeavesLine(e: Event) {
    !e.ReadLine? && !(e.Interrupt? && e.scancode == ENTER)
  }

  /** The same line is committed, or none. */
  predicate SameCommitted(a: Keyboard, b: Keyboard) {
    a.temp == b.temp && a.oldTyped == b.oldTyped && a.canRead == b.canRead
  }

  lemma KeyLeavesLine(c: Console, scancode: byte, crowded: bool)
    requires IsConsole(c) && scancode != ENTER
    ensures SameCommitted(KeyOn(c, scancode, crowded).board, c.board)
  {
    hide KeyChar, Place, WriteAll, Chars, Blanked, Scroll;
  }

  lemma {:induction false} FilledKeepsBoard(w: World, buffer: word, data: seq<byte>)
    requires FrontReady(w)
    ensures Filled(w, buffer, data).board == w.board
    decreases |data|
  {
    if data != [] {
      FilledKeepsBoard(KernelPoke(w, buffer, data[0]), At(buffer, 1), data[1..]);
    }
  }

  lemma ProcessKeepsLine(fs: seq<byte>, w: World, e: Event, scrap: seq<byte>)
    requires IsWorld(w) && EventOk(fs, e) && |scrap| == 0x40_0000 && GoodTable(fs, Top(Front(w)).table)
    requires e.Execute? || e.Halt? || e.Switch?
    ensures SameCommitted(Next(fs, w, e, scrap).board, w.board)
  {
    hide Live, Started, ShellOk, CommandOk, Overwrite, Executable, Print, IsConsole, StackOk, SlotsOf, GoodTable,
      BlankCells, LeastFree, IsView, FileName;
  }

  lemma OtherKeepsLine(fs: seq<byte>, w: World, e: Event, scrap: seq<byte>)
    requires IsWorld(w) && EventOk(fs, e) && |scrap| == 0x40_0000 && GoodTable(fs, Top(Front(w)).table)
    requires e.Write? || e.Registers? || e.Descriptor? || e.Store?
    ensures SameCommitted(Next(fs, w, e, scrap).board, w.board)
  {
    RunsHere(w);
    hide CallStep, ShellOk, Visible, Overwrite, WriteAll, IsConsole, GoodTable, CallOk, IsWorld;
  }

  lemma NextLeavesLine(fs: seq<byte>, w: World, e: Event, scrap: seq<byte>)
    requires IsWorld(w) && EventOk(fs, e) && |scrap| == 0x40_0000 && GoodTable(fs, Top(Front(w)).table) && LeavesLine(e)
    ensures SameCommitted(Next(fs, w, e, scrap).board, w.board)
  {
    RunsHere(w);
    if e.Interrupt? {
      hide KeyOn, IsWorld, FewSlots, ShellOk, GoodTable;
      KeyLeavesLine(Facing(w), e.scancode, FewSlots(w));
    } else if Stores(e) {
      hide Filled, IsWorld, ShellOk, GoodTable, ReadBytes, CallStep, Visible;
      StoresKeepBoard(fs, w, e);
    } else if e.Execute? || e.Halt? || e.Switch? {
      hide Next, EventOk, IsWorld, GoodTable;
      ProcessKeepsLine(fs, w, e, scrap);
    } else {
      hide Next, EventOk, IsWorld, GoodTable;
      OtherKeepsLine(fs, w, e, scrap);
    }
  }

  lemma StoresKeepBoard(fs: seq<byte>, w: World, e: Event)
    requires IsWorld(w) && FrontReady(w) && EventOk(fs, e) && GoodTable(fs, Top(Front(w)).table) && !e.ReadLine?
    ensures e.Read? ==> Fetch(fs, w, e.fd, e.buffer, e.n).board == w.board
    ensures e.Deliver? ==> Filled(w, e.buffer, e.data).board == w.board
    ensures e.VidMap? ==> Filled(w.(video := true), e.pointer, VIDEO_POINTER).board == w.board
  {
    hide Filled, ReadBytes, CallStep, Visible, ShellOk, GoodTable;
    if e.Read? {
      FilledKeepsBoard(Operate(fs, w, ReadCall(Request(e.fd, e.n))), e.buffer,
                       ReadBytes(fs, Top(Front(w)).table, e.fd, e.buffer, e.n));
    } else if e.Deliver? {
      FilledKeepsBoard(w, e.buffer, e.data);
    } else if e.VidMap? {
      FilledKeepsBoard(w.(video := true), e.pointer, VIDEO_POINTER);
    }
  }

  /**
   * A committed line belongs to no terminal: whatever happens, and whoever is in front in the end, it waits for
   * the next read or is replaced by the next Enter.
   */
  lemma {:induction false} CommittedLineWaits(fs: seq<byte>, s: State, w: World, es: seq<Event>)
    requires R(fs, s, w) && AllGuarded(fs, s, w, es) && forall i :: 0 <= i < |es| ==> LeavesLine(es[i])
    ensures SameCommitted(Play(fs, s, w, es).0.board, s.board)
    decreases |es|
  {
    hide R, Step, After, EventOk, Guard, LeavesLine;
    RParts(fs, s, w);
    if es != [] {
      StepSimulates(fs, s, w, es[0]);
      CommittedLineWaits(fs, Step(fs, s, es[0]), After(fs, s, w, es[0]), es[1..]);
      RParts(fs, Step(fs, s, es[0]), After(fs, s, w, es[0]));
      AfterLeavesLine(fs, s, w, es[0]);
    }
  }

  lemma AfterLeavesLine(fs: seq<byte>, s: State, w: World, e: Event)
    requires R(fs, s, w) && EventOk(fs, e) && LeavesLine(e)
    ensures SameCommitted(After(fs, s, w, e).board, w.board)
  {
    RParts(fs, s, w);
    TopTableGood(fs, s, w);
    hide R, Next, Scrap, EventOk, SameCommitted;
    NextLeavesLine(fs, w, e, Scrap(fs, s, e));
  }
}
