/** The remaining steps of the simulation, and the theorem over whole runs. */
module Steps {
  import opened Bytes
  import opened FileSystem
  import opened Descriptors
  import opened CommandLine
  import opened Memory
  import opened Slots
  import opened Screen
  import opened Keyboards
  import opened Machine
  import opened Sessions
  import opened Refinement
  import opened Simulation
  import opened Fronts
  import opened ConsoleSteps
  import P = Paging

  // ---------------------------------------------------------------- first visit of a terminal

  function Cleared(s: State, t: nat): (r: State)
    requires |s.terms| == 3 && s.current < 3 && IsMemory(s.mem)
  {
    Clear(Save(s)).(current := t)
  }

  lemma ClearedKeeps(fs: seq<byte>, s: State, w: World, t: nat)
    requires R(fs, s, w) && t < 3 && w.sessions[t].None?
    ensures var s1 := Cleared(s, t);
            && Sized(fs, s1) && !s1.terms[t].beenHere
            && (forall q :: 0 <= q < 6 ==> SameSlot(s, s1, q))
            && Region(s1.mem, VIDEO, 4000) == BlankCells()
            && (forall u :: 0 <= u < 3 && w.sessions[u].Some? ==> SavedMatches(s1, u, w.sessions[u].value))
  {
    hide GoodFile, P.LaidOut, Overwrite, Live;
    assert TermMatches(fs, s, w, t);
    SavedAll(fs, s, w, w.current);
    var (s0, s1) := (Save(s), Cleared(s, t));
    RegionWritten(s0.mem, VIDEO, BlankCells());
    forall q | 0 <= q < 6 ensures SameSlot(s, s1, q) {
      LowWrite(s0.mem, VIDEO, BlankCells(), q);
      assert SameSlot(s, s0, q);
    }
    forall u | 0 <= u < 3 && w.sessions[u].Some? ensures SavedMatches(s1, u, w.sessions[u].value) {
      SavedAll(fs, s, w, u);
      RegionElsewhere(s0.mem, VIDEO, BlankCells(), SavedScreen(u), 4000);
    }
  }

  ghost function Visited(fs: seq<byte>, s: State, w: World, t: nat, inode: nat, p: nat): (w2: World)
    requires Sized(fs, s) && IsWorld(w) && Loadable(fs, inode) && p < 6 && t < 3
  {
    var f := Front(w);
    var shell := Started(fs, SHELL, inode, p, f.esp, f.ebp, FrameOf(s.mem, p));
    w.(current := t, board := w.board.(ctrl := false),
       sessions := w.sessions[t := Some(Session([shell], View(BlankCells(), 0, 0, f.view.keys), f.esp, f.ebp))])
  }

  lemma VisitedIsWorld(fs: seq<byte>, s: State, w: World, t: nat, inode: nat, p: nat)
    requires R(fs, s, w) && Loadable(fs, inode) && p < 6 && p !in Live(w) && t < 3 && w.sessions[t].None?
    ensures IsWorld(Visited(fs, s, w, t, inode, p))
    ensures Live(Visited(fs, s, w, t, inode, p)) == Live(w) + {p}
  {
    hide Content, WordAt, Overwrite, GoodFile, TermMatches, SlotsMatch, Live;
    var x := Visited(fs, s, w, t, inode, p).sessions[t].value;
    var w1 := w.(board := w.board.(ctrl := false));
    SameStacks(w, w1);
    NewSessionWorld(w1, t, x.stack[0], x.view, x.esp, x.ebp);
  }

  lemma VisitTerm(fs: seq<byte>, s: State, w: World, t: nat, inode: nat, p: nat, u: nat)
    requires R(fs, s, w) && Loadable(fs, inode) && p < 6 && p !in Live(w) && t < 3 && w.sessions[t].None? && u < 3
    ensures Sized(fs, Cleared(s, t))
    ensures var (s2, w2) := (Install(fs, Cleared(s, t), SHELL, inode, p), Visited(fs, s, w, t, inode, p));
            Sized(fs, s2) && IsWorld(w2) && TermMatches(fs, s2, w2, u)
  {
    VisitParts(fs, s, w, t, inode, p);
    hide R, Sized, Live, Install;
    if u == t {
      VisitedFront(fs, s, w, t, inode, p);
    } else {
      VisitedBehind(fs, s, w, t, inode, p, u);
    }
  }

  lemma VisitedFront(fs: seq<byte>, s: State, w: World, t: nat, inode: nat, p: nat)
    requires R(fs, s, w) && Loadable(fs, inode) && p < 6 && p !in Live(w) && t < 3 && w.sessions[t].None?
    ensures Sized(fs, Cleared(s, t))
    ensures var (s2, w2) := (Install(fs, Cleared(s, t), SHELL, inode, p), Visited(fs, s, w, t, inode, p));
            Sized(fs, s2) && IsWorld(w2) && TermMatches(fs, s2, w2, t)
  {
    VisitedIsWorld(fs, s, w, t, inode, p);
    VisitParts(fs, s, w, t, inode, p);
    hide Content, WordAt, Overwrite, P.LaidOut, Visible, Live, Install, Sized, R, TermMatches;
    var (s2, w2) := (Install(fs, Cleared(s, t), SHELL, inode, p), Visited(fs, s, w, t, inode, p));
    assert w2.sessions[t].value.stack == [w2.sessions[t].value.stack[0]];
    FreshTerm(fs, s2, w2);
  }

  lemma VisitedBehind(fs: seq<byte>, s: State, w: World, t: nat, inode: nat, p: nat, u: nat)
    requires R(fs, s, w) && Loadable(fs, inode) && p < 6 && p !in Live(w) && t < 3 && w.sessions[t].None?
    requires u < 3 && u != t
    ensures Sized(fs, Cleared(s, t))
    ensures var (s2, w2) := (Install(fs, Cleared(s, t), SHELL, inode, p), Visited(fs, s, w, t, inode, p));
            Sized(fs, s2) && IsWorld(w2) && TermMatches(fs, s2, w2, u)
  {
    VisitedIsWorld(fs, s, w, t, inode, p);
    VisitParts(fs, s, w, t, inode, p);
    var (s2, w2) := (Install(fs, Cleared(s, t), SHELL, inode, p), Visited(fs, s, w, t, inode, p));
    assert w2.sessions[u] == w.sessions[u] && w2.current == t;
    hide Content, WordAt, Overwrite, P.LaidOut, Visible, Live, Install, Sized, Visited, TermMatches;
    SavedKept(fs, s, s2, w, w2, p, u);
  }

  /** A session in front with one process. */
  lemma FreshTerm(fs: seq<byte>, s: State, w: World)
    requires Sized(fs, s) && IsWorld(w) && s.current == w.current && |Front(w).stack| == 1
    requires Holds(fs, s, Top(Front(w))) && LinkedAt(s, Front(w).stack, 0) && FrontMatches(s, Front(w))
    requires s.terms[s.current].beenHere && s.terms[s.current].running == Some(Top(Front(w)).slot)
    ensures TermMatches(fs, s, w, w.current)
  {
    assert ProcessMatches(fs, s, Front(w).stack, 0);
    hide Sized, Holds, LinkedAt, FrontMatches;
  }

  /** The new shell, and what the visit did not touch. */
  lemma VisitParts(fs: seq<byte>, s: State, w: World, t: nat, inode: nat, p: nat)
    requires R(fs, s, w) && Loadable(fs, inode) && p < 6 && p !in Live(w) && t < 3 && w.sessions[t].None?
    ensures Sized(fs, Cleared(s, t))
    ensures var s2 := Install(fs, Cleared(s, t), SHELL, inode, p);
            && Sized(fs, s2)
            && Holds(fs, s2, Started(fs, SHELL, inode, p, Front(w).esp, Front(w).ebp, FrameOf(s.mem, p)))
            && LinkedAt(s2, [Started(fs, SHELL, inode, p, Front(w).esp, Front(w).ebp, FrameOf(s.mem, p))], 0)
            && s2.current == t && s2.terms[t].beenHere && s2.terms[t].running == Some(p)
            && Region(s2.mem, VIDEO, 4000) == BlankCells()
            && s2.cursorX == 0 && s2.cursorY == 0 && s2.keys == Front(w).view.keys
            && s2.esp == Front(w).esp && s2.ebp == Front(w).ebp
            && (forall q :: 0 <= q < 6 && q != p ==> SameSlot(s, s2, q))
            && (forall u :: 0 <= u < 3 && u != t ==>
                  s2.terms[u].beenHere == s.terms[u].beenHere && s2.terms[u].running == s.terms[u].running)
            && (forall u :: 0 <= u < 3 && u != t && w.sessions[u].Some? ==> SavedMatches(s2, u, w.sessions[u].value))
  {
    RParts(fs, s, w);
    SizedParts(fs, s);
    assert EmptySlot(fs, s, p) && ConsoleOk(s.tables[p]);
    assert TermMatches(fs, s, w, w.current);
    hide R, Sized, IsWorld, Overwrite, P.LaidOut, TermMatches, Live, Holds, LinkedAt, Started, Install, StackMatches,
      Loadable, SavedMatches, EmptySlot, SlotsMatch;
    ClearedKeeps(fs, s, w, t);
    var s1 := Cleared(s, t);
    ClearedIs(fs, s, t);
    EmptyKept(fs, s, s1, p);
    FreshShell(fs, s1, inode, p, Front(w).esp, Front(w).ebp);
    var s2 := Install(fs, s1, SHELL, inode, p);
    forall q | 0 <= q < 6 && q != p ensures SameSlot(s, s2, q) {
      assert SameSlot(s, s1, q) && SameSlot(s1, s2, q);
    }
    forall u | 0 <= u < 3 && u != t && w.sessions[u].Some? ensures SavedMatches(s2, u, w.sessions[u].value) {
      SavedAfterFresh(s1, s2, u, w.sessions[u].value);
    }
  }

  /** What clearing does not change, or sets. */
  lemma ClearedIs(fs: seq<byte>, s: State, t: nat)
    requires Sized(fs, s) && t < 3
    ensures var s1 := Cleared(s, t);
            && s1.current == t && s1.cursorX == 0 && s1.cursorY == 0 && s1.keys == s.keys
            && s1.esp == s.esp && s1.ebp == s.ebp && |s1.terms| == 3
            && forall u :: 0 <= u < 3 ==>
                 s1.terms[u].beenHere == s.terms[u].beenHere && s1.terms[u].running == s.terms[u].running
  {
    hide Overwrite, GoodTable;
  }

  lemma EmptyKept(fs: seq<byte>, s: State, s1: State, p: nat)
    requires Sized(fs, s) && Sized(fs, s1) && p < 6
    requires EmptySlot(fs, s, p) && ConsoleOk(s.tables[p]) && SameSlot(s, s1, p)
    ensures ConsoleOk(s1.tables[p]) && forall i :: 2 <= i < 8 ==> !s1.tables[p][i].inUse
    ensures FrameOf(s1.mem, p) == FrameOf(s.mem, p)
  {
    hide FrameOf;
  }

  lemma SavedAfterFresh(s1: State, s2: State, u: nat, x: Session)
    requires IsMemory(s1.mem) && IsMemory(s2.mem) && u < 3 && |s1.terms| == |s2.terms| == 3 && x.stack != []
    requires SavedMatches(s1, u, x) && SameScreen(s1, s2, u) && s2.terms[u] == s1.terms[u]
    ensures SavedMatches(s2, u, x)
  {
  }

  /** A shell installed in a terminal that has not been visited. */
  lemma FreshShell(fs: seq<byte>, s1: State, inode: nat, p: nat, sp: word, bp: word)
    requires Sized(fs, s1) && Loadable(fs, inode) && p < 6 && !s1.terms[s1.current].beenHere
    requires ConsoleOk(s1.tables[p]) && forall i :: 2 <= i < 8 ==> !s1.tables[p][i].inUse
    ensures var (s2, t) := (Install(fs, s1, SHELL, inode, p), s1.current);
            && Sized(fs, s2) && Holds(fs, s2, Started(fs, SHELL, inode, p, sp, bp, FrameOf(s1.mem, p)))
            && LinkedAt(s2, [Started(fs, SHELL, inode, p, sp, bp, FrameOf(s1.mem, p))], 0)
            && s2.current == t && s2.terms[t].beenHere && s2.terms[t].running == Some(p)
            && Region(s2.mem, VIDEO, 4000) == Region(s1.mem, VIDEO, 4000)
            && (s2.cursorX, s2.cursorY, s2.keys, s2.esp, s2.ebp) == (s1.cursorX, s1.cursorY, s1.keys, s1.esp, s1.ebp)
            && (forall q :: 0 <= q < 6 && q != p ==> SameSlot(s1, s2, q))
            && (forall u :: 0 <= u < 3 ==> SameScreen(s1, s2, u))
            && (forall u :: 0 <= u < 3 && u != t ==> s2.terms[u] == s1.terms[u])
  {
    SizedParts(fs, s1);
    hide Sized, Content, WordAt, Overwrite, Holds, WithConsole, Pad, MapImage, ConsoleOk, Loadable;
    Installed(fs, s1, SHELL, inode, p, sp, bp);
  }

  lemma SavedKept(fs: seq<byte>, s: State, s2: State, w: World, w2: World, p: nat, u: nat)
    requires Sized(fs, s) && Sized(fs, s2) && IsWorld(w) && IsWorld(w2) && u < 3 && p !in Live(w)
    requires TermMatches(fs, s, w, u) && w2.sessions[u] == w.sessions[u] && u != w2.current
    requires s2.terms[u].beenHere == s.terms[u].beenHere && s2.terms[u].running == s.terms[u].running
    requires w.sessions[u].Some? ==> SavedMatches(s2, u, w.sessions[u].value)
    requires forall q :: 0 <= q < 6 && q != p ==> SameSlot(s, s2, q)
    ensures TermMatches(fs, s2, w2, u)
  {
    if w.sessions[u].Some? {
      forall q | q in SlotsOf(StackOf(w, u)) ensures SameSlot(s, s2, q) {
        SlotOwner(w, u, q);
      }
      hide Sized, Live;
      StackKept(fs, s, s2, StackOf(w, u));
    }
  }

  lemma VisitSlots(fs: seq<byte>, s: State, w: World, t: nat, inode: nat, p: nat)
    requires R(fs, s, w) && Loadable(fs, inode) && p < 6 && p !in Live(w) && t < 3 && w.sessions[t].None?
    ensures Sized(fs, Cleared(s, t))
    ensures var (s2, w2) := (Install(fs, Cleared(s, t), SHELL, inode, p), Visited(fs, s, w, t, inode, p));
            Sized(fs, s2) && IsWorld(w2) && SlotsMatch(fs, s2, w2)
  {
    hide Content, WordAt, Overwrite, GoodFile, P.LaidOut, Visible, TermMatches;
    ClearedKeeps(fs, s, w, t);
    VisitedIsWorld(fs, s, w, t, inode, p);
    var s1 := Cleared(s, t);
    assert EmptySlot(fs, s, p) && SameSlot(s, s1, p);
    Installed(fs, s1, SHELL, inode, p, 0, 0);
    var (s2, w2) := (Install(fs, s1, SHELL, inode, p), Visited(fs, s, w, t, inode, p));
    SetSlot(s.processes, p);
    forall q | 0 <= q < 6 && q != p ensures SameSlot(s, s2, q) {
      assert SameSlot(s, s1, q) && SameSlot(s1, s2, q);
    }
    SlotsPushed(fs, s, s2, w, w2, p);
  }

  /** Going to a terminal for the first time while a slot is free. */
  lemma VisitSimulates(fs: seq<byte>, s: State, w: World, t: nat, inode: nat, p: nat)
    requires R(fs, s, w) && Loadable(fs, inode) && p < 6 && p !in Live(w) && t < 3 && w.sessions[t].None?
    ensures Sized(fs, Cleared(s, t))
    ensures R(fs, Install(fs, Cleared(s, t), SHELL, inode, p), Visited(fs, s, w, t, inode, p))
  {
    hide Content, WordAt, Overwrite, GoodFile, P.LaidOut, Visible, TermMatches, SlotsMatch;
    VisitSlots(fs, s, w, t, inode, p);
    var (s2, w2) := (Install(fs, Cleared(s, t), SHELL, inode, p), Visited(fs, s, w, t, inode, p));
    forall u | 0 <= u < 3 ensures TermMatches(fs, s2, w2, u) {
      VisitTerm(fs, s, w, t, inode, p, u);
    }
    Mapped(s.paging, Some(Top(Front(w)).slot), w.video, p);
  }

  // ---------------------------------------------------------------- what the running process does

  lemma RegistersSimulate(fs: seq<byte>, s: State, w: World, esp: word, ebp: word)
    requires R(fs, s, w)
    ensures R(fs, s.(esp := esp, ebp := ebp), WithFront(w, Front(w).(esp := esp, ebp := ebp)))
  {
    SizedRegisters(fs, s, w, esp, ebp);
    hide R, Sized, IsWorld, TermMatches, StackMatches, FrameOf, SlotsOf, StackOk, ConsoleOk, IsView, Region;
    FrontKnown(fs, s, w);
    var (f, s2) := (Front(w), s.(esp := esp, ebp := ebp));
    StackKept(fs, s, s2, f.stack);
    FrontChange(fs, s, s2, w, f.(esp := esp, ebp := ebp));
  }

  lemma SizedRegisters(fs: seq<byte>, s: State, w: World, esp: word, ebp: word)
    requires R(fs, s, w)
    ensures Sized(fs, s.(esp := esp, ebp := ebp))
  {
    hide GoodTable;
  }

  lemma VisibleTableGood(fs: seq<byte>, table: seq<Fd>)
    requires GoodTable(fs, table)
    ensures GoodTable(fs, Visible(table))
  {
  }

  /** A process cannot tell what its closed entries hold. */
  lemma CallsSeeVisible(fs: seq<byte>, table: seq<Fd>, call: Call)
    requires GoodTable(fs, table) && GoodTable(fs, Visible(table)) && CallOk(fs, call)
    ensures Visible(CallStep(fs, Visible(table), call)) == Visible(CallStep(fs, table, call))
  {
    hide GoodFile, FileLength, Content, WordAt, FirstMatch;
    if call.OpenCall? {
      FreeFdVisible(table, 2);
    }
  }

  lemma {:induction false} FreeFdVisible(table: seq<Fd>, i: nat)
    requires |table| == 8
    ensures FreeFd(Visible(table), i) == FreeFd(table, i)
    decreases 8 - i
  {
    if i < 8 {
      FreeFdVisible(table, i + 1);
    }
  }

  lemma CallKeepsConsole(fs: seq<byte>, table: seq<Fd>, call: Call)
    requires GoodTable(fs, table) && CallOk(fs, call) && ConsoleOk(table)
    ensures |CallStep(fs, table, call)| == 8 && ConsoleOk(CallStep(fs, table, call))
  {
    hide GoodFile, FileLength, Content, WordAt, FirstMatch;
  }

  lemma ImageHasGoodDirectory(fs: seq<byte>)
    requires GoodImage(fs)
    ensures GoodDirectory(fs)
  {
  }

  lemma DescriptorSimulates(fs: seq<byte>, s: State, w: World, call: Call)
    requires R(fs, s, w) && GoodImage(fs) && CallOk(fs, call)
    ensures GoodTable(fs, Top(Front(w)).table)
    ensures var f := Front(w);
            R(fs, DescriptorStep(fs, s, call),
              WithFront(w, WithTop(f, Top(f).(table := Visible(CallStep(fs, Top(f).table, call))))))
  {
    var (f, p) := (Front(w), Top(Front(w)).slot);
    TopLinked(fs, s, w);
    assert TermMatches(fs, s, w, w.current);
    VisibleTableGood(fs, s.tables[p]);
    ImageHasGoodDirectory(fs);
    CallKeepsTableGood(fs, s.tables[p], call);
    CallsSeeVisible(fs, s.tables[p], call);
    CallKeepsConsole(fs, s.tables[p], call);
    hide GoodFile, P.LaidOut, Live, Visible, CallStep, StackMatches, GoodImage;
    var s2 := DescriptorStep(fs, s, call);
    TopChange(fs, s, s2, w, Top(f).(table := Visible(CallStep(fs, Top(f).table, call))));
  }

  lemma MapVideoSimulates(fs: seq<byte>, s: State, w: World)
    requires R(fs, s, w)
    ensures R(fs, MapVideo(s), w.(video := true))
  {
    hide GoodFile, Live, Visible, StackMatches;
    var (s2, w2) := (MapVideo(s), w.(video := true));
    SameStacks(w, w2);
    P.LoadsKeepLayout(s.paging, Some(Top(Front(w)).slot), w.video, 0);
    hide P.LaidOut;
    forall q | 0 <= q < 6 ensures SameSlot(s, s2, q) {
    }
    SameSlotsMatch(fs, s, s2, w, w2);
    forall t | 0 <= t < 3 ensures TermMatches(fs, s2, w2, t) {
      assert TermMatches(fs, s, w, t);
      if w.sessions[t].Some? {
        forall q | q in SlotsOf(StackOf(w, t)) ensures SameSlot(s, s2, q) {
          SlotOwner(w, t, q);
        }
        StackKept(fs, s, s2, StackOf(w, t));
      }
    }
  }

  // ---------------------------------------------------------------- stores

  /** A byte written into the frame of one slot leaves the other frames and all screens alone. */
  lemma FrameWrite(mem: seq<byte>, p: nat, off: nat, value: byte)
    requires IsMemory(mem) && p < 6 && off < 0x40_0000
    ensures var mem2 := Overwrite(mem, FrameAt(p) + off, [value]);
            && IsMemory(mem2)
            && FrameOf(mem2, p) == Overwrite(FrameOf(mem, p), off, [value])
            && (forall q :: 0 <= q < 6 && q != p ==> FrameOf(mem2, q) == FrameOf(mem, q))
            && (forall t :: 0 <= t < 3 ==> Region(mem2, SavedScreen(t), 4000) == Region(mem, SavedScreen(t), 4000))
            && Region(mem2, VIDEO, 4000) == Region(mem, VIDEO, 4000)
  {
    var pa := FrameAt(p) + off;
    hide Overwrite, Region;
    RegionAround(mem, pa, [value], FrameAt(p), 0x40_0000);
    RegionElsewhere(mem, pa, [value], VIDEO, 4000);
    forall q | 0 <= q < 6 && q != p ensures FrameOf(Overwrite(mem, pa, [value]), q) == FrameOf(mem, q) {
      Apart(p, q, 0, 0);
      RegionElsewhere(mem, pa, [value], FrameAt(q), 0x40_0000);
    }
    forall t | 0 <= t < 3
      ensures Region(Overwrite(mem, pa, [value]), SavedScreen(t), 4000) == Region(mem, SavedScreen(t), 4000)
    {
      Apart(p, p, t, t);
      RegionElsewhere(mem, pa, [value], SavedScreen(t), 4000);
    }
  }

  lemma SizedMem(fs: seq<byte>, s: State, mem: seq<byte>)
    requires Sized(fs, s) && IsMemory(mem)
    ensures Sized(fs, s.(mem := mem))
  {
    hide GoodFile, P.Shape;
  }

  lemma FrontParts(fs: seq<byte>, s: State, w: World)
    requires R(fs, s, w)
    ensures Front(w).stack != [] && FrontMatches(s, Front(w))
    ensures var p := Top(Front(w)).slot;
            p < 6 && ConsoleOk(s.tables[p])
  {
    TopLinked(fs, s, w);
    assert TermMatches(fs, s, w, w.current);
  }

  /** A byte into the running process's own frame. */
  lemma FrameStore(fs: seq<byte>, s: State, w: World, va: word, value: byte)
    requires R(fs, s, w) && InImage(va)
    ensures var p := Top(Front(w)).slot;
            p < 6 && IsMemory(s.mem) &&
            R(fs, s.(mem := Overwrite(s.mem, FrameAt(p) + (va - 0x800_0000), [value])), Poke(w, va, value))
  {
    var (f, p) := (Front(w), Top(Front(w)).slot);
    TopLinked(fs, s, w);
    SizedParts(fs, s);
    FrontParts(fs, s, w);
    hide R, IsWorld, P.LaidOut, Live, Visible, ConsoleOk, TermMatches;
    var s2 := s.(mem := Overwrite(s.mem, FrameAt(p) + (va - 0x800_0000), [value]));
    FrameWrite(s.mem, p, va - 0x800_0000, value);
    SizedMem(fs, s, s2.mem);
    hide Sized, Overwrite;
    TopChange(fs, s, s2, w, Top(f).(memory := Overwrite(Top(f).memory, va - 0x800_0000, [value])));
  }

  /** A byte anywhere in the pages that hold the screens leaves all slots alone. */
  lemma LowStore(fs: seq<byte>, s: State, pa: nat, value: byte)
    requires Sized(fs, s) && 0xB_8000 <= pa < 0xB_C000
    ensures var s2 := s.(mem := Overwrite(s.mem, pa, [value]));
            Sized(fs, s2) && forall q :: 0 <= q < 6 ==> SameSlot(s, s2, q)
  {
    SizedParts(fs, s);
    var s2 := s.(mem := Overwrite(s.mem, pa, [value]));
    SizedMem(fs, s, s2.mem);
    hide Sized, Overwrite;
    forall q | 0 <= q < 6 ensures SameSlot(s, s2, q) {
      LowWrite(s.mem, pa, [value], q);
    }
  }

  /** A byte on the screen in front. */
  lemma ScreenStore(fs: seq<byte>, s: State, w: World, off: nat, value: byte)
    requires R(fs, s, w) && off < 4000
    ensures IsMemory(s.mem)
    ensures var f := Front(w);
            R(fs, s.(mem := Overwrite(s.mem, VIDEO + off, [value])),
              WithFront(w, f.(view := f.view.(screen := Overwrite(f.view.screen, off, [value])))))
  {
    hide R, Sized, IsWorld, Overwrite, TermMatches, StackMatches, FrameOf, SlotsOf, StackOk, ConsoleOk, SameSlot;
    FrontKnown(fs, s, w);
    var (f, s2) := (Front(w), s.(mem := Overwrite(s.mem, VIDEO + off, [value])));
    LowStore(fs, s, VIDEO + off, value);
    forall t | 0 <= t < 3 ensures SameScreen(s, s2, t) {
      RegionElsewhere(s.mem, VIDEO + off, [value], SavedScreen(t), 4000);
    }
    StackKept(fs, s, s2, f.stack);
    RegionAround(s.mem, VIDEO + off, [value], VIDEO, 4000);
    FrontChange(fs, s, s2, w, f.(view := f.view.(screen := Overwrite(f.view.screen, off, [value]))));
  }

  /** A byte that belongs to no screen in use. */
  lemma QuietStore(fs: seq<byte>, s: State, w: World, pa: nat, value: byte)
    requires R(fs, s, w) && VIDEO + 4000 <= pa < 0xB_C000
    requires forall t :: 0 <= t < 3 && t != w.current && w.sessions[t].Some? ==>
               !(SavedScreen(t) <= pa < SavedScreen(t) + 4000)
    ensures IsMemory(s.mem)
    ensures R(fs, s.(mem := Overwrite(s.mem, pa, [value])), w)
  {
    SizedParts(fs, s);
    LowStore(fs, s, pa, value);
    var s2 := s.(mem := Overwrite(s.mem, pa, [value]));
    hide Sized, P.LaidOut, Live, Visible, Overwrite;
    forall t | 0 <= t < 3 ensures TermMatches(fs, s2, w, t) {
      QuietTerm(fs, s, s2, w, pa, value, t);
    }
    SameSlotsMatch(fs, s, s2, w, w);
  }

  lemma QuietTerm(fs: seq<byte>, s: State, s2: State, w: World, pa: nat, value: byte, t: nat)
    requires R(fs, s, w) && VIDEO + 4000 <= pa < 0xB_C000 && IsMemory(s.mem) && t < 3
    requires t != w.current && w.sessions[t].Some? ==> !(SavedScreen(t) <= pa < SavedScreen(t) + 4000)
    requires s2 == s.(mem := Overwrite(s.mem, pa, [value])) && Sized(fs, s2)
    requires forall q :: 0 <= q < 6 ==> SameSlot(s, s2, q)
    ensures TermMatches(fs, s2, w, t)
  {
    assert TermMatches(fs, s, w, t);
    hide P.LaidOut, Live, Visible, Overwrite, SlotsMatch, StackMatches, GoodFile;
    if w.sessions[t].Some? {
      forall q | q in SlotsOf(StackOf(w, t)) ensures SameSlot(s, s2, q) {
        SlotOwner(w, t, q);
      }
      StackKept(fs, s, s2, StackOf(w, t));
      if t == w.current {
        RegionElsewhere(s.mem, pa, [value], VIDEO, 4000);
      } else {
        RegionElsewhere(s.mem, pa, [value], SavedScreen(t), 4000);
      }
    }
  }

  /** A store through the video page: 4000 bytes of screen, and 96 that are not shown. */
  lemma VideoStore(fs: seq<byte>, s: State, w: World, va: word, value: byte)
    requires R(fs, s, w) && w.video && 0x840_0000 <= va < 0x840_1000
    ensures IsMemory(s.mem)
    ensures R(fs, s.(mem := Overwrite(s.mem, VIDEO + (va - 0x840_0000), [value])), Poke(w, va, value))
  {
    if va < 0x840_0000 + 4000 {
      ScreenStore(fs, s, w, va - 0x840_0000, value);
    } else {
      QuietStore(fs, s, w, VIDEO + (va - 0x840_0000), value);
    }
  }

  /** Where stores go, through the page tables. */
  lemma StoreLands(s: State, p: nat, video: bool, va: word, a: P.Access)
    requires P.LaidOut(s.paging, Some(p), video) && p < 6
    ensures InImage(va) ==> P.Translate(s.paging, va, a) == Some(FrameAt(p) + (va - 0x800_0000))
    ensures video && 0x840_0000 <= va < 0x840_1000 ==>
              P.Translate(s.paging, va, a) == Some(VIDEO + (va - 0x840_0000))
    ensures !InImage(va) && !(video && 0x840_0000 <= va < 0x840_1000) ==>
              P.Translate(s.paging, va, a) == P.KernelMap(va, a)
  {
    P.LayoutGivesAddressSpace(s.paging, Some(p), video, va, a);
  }

  lemma UserLands(fs: seq<byte>, s: State, w: World, va: word, value: byte)
    requires R(fs, s, w)
    ensures IsMemory(s.mem) && P.Shape(s.paging) && IsWorld(w) && Top(Front(w)).slot < 6
    ensures StoreStep(s, va, value) ==
              if InImage(va) then
                s.(mem := Overwrite(s.mem, FrameAt(Top(Front(w)).slot) + (va - 0x800_0000), [value]))
              else if w.video && 0x840_0000 <= va < 0x840_1000 then
                s.(mem := Overwrite(s.mem, VIDEO + (va - 0x840_0000), [value]))
              else s
  {
    TopLinked(fs, s, w);
    SizedParts(fs, s);
    hide P.LaidOut, P.Translate, Sized, SlotsMatch, TermMatches, Overwrite;
    StoreLands(s, Top(Front(w)).slot, w.video, va, P.Access(true, true));
  }

  lemma StoreSimulates(fs: seq<byte>, s: State, w: World, va: word, value: byte)
    requires R(fs, s, w)
    ensures R(fs, StoreStep(s, va, value), Poke(w, va, value))
  {
    UserLands(fs, s, w, va, value);
    hide P.Shape, R, IsWorld, Overwrite, StoreStep;
    if InImage(va) {
      FrameStore(fs, s, w, va, value);
    } else if w.video && 0x840_0000 <= va < 0x840_1000 {
      VideoStore(fs, s, w, va, value);
    }
  }

  // ---------------------------------------------------------------- what calls store

  lemma KernelLands(fs: seq<byte>, s: State, w: World, va: word)
    requires R(fs, s, w)
    ensures IsMemory(s.mem) && P.Shape(s.paging) && Top(Front(w)).slot < 6
    ensures KernelTarget(s.paging, va, |s.mem|) ==
              if InImage(va) then Some(FrameAt(Top(Front(w)).slot) + (va - 0x800_0000))
              else if w.video && 0x840_0000 <= va < 0x840_1000 then Some(VIDEO + (va - 0x840_0000))
              else if 0xB_8000 <= va < 0xB_C000 then Some(va)
              else None
  {
    TopLinked(fs, s, w);
    SizedParts(fs, s);
    hide P.LaidOut, P.Translate, Sized, IsWorld, SlotsMatch, TermMatches;
    StoreLands(s, Top(Front(w)).slot, w.video, va, P.Access(false, true));
  }

  /** A byte that the kernel stores at a safe address is the program's doing only. */
  lemma KernelStoreSimulates(fs: seq<byte>, s: State, w: World, va: word, value: byte)
    requires R(fs, s, w) && SafeTarget(w, va)
    ensures P.Shape(s.paging) && R(fs, KernelStore(s, va, value), KernelPoke(w, va, value))
  {
    KernelLands(fs, s, w, va);
    hide P.Shape, KernelTarget, Sized, SlotsMatch, TermMatches, Overwrite;
    if InImage(va) {
      FrameStore(fs, s, w, va, value);
    } else if w.video && 0x840_0000 <= va < 0x840_1000 {
      VideoStore(fs, s, w, va, value);
    } else if va < 0xB_8000 + 4000 {
      ScreenStore(fs, s, w, va - 0xB_8000, value);
    } else {
      QuietStore(fs, s, w, va, value);
    }
  }

  /** A store changes neither which addresses are safe nor who is in front. */
  lemma SafeKept(w: World, va: word, value: byte, buffer: word, n: nat)
    requires FrontReady(w) && SafeBuffer(w, buffer, n) && n > 0
    ensures SafeTarget(w, buffer) && SafeBuffer(KernelPoke(w, va, value), At(buffer, 1), n - 1)
  {
    assert At(buffer, 0) == buffer;
    forall i | 0 <= i < n - 1 ensures SafeTarget(KernelPoke(w, va, value), At(At(buffer, 1), i)) {
      AtPlus(buffer, 1, i);
      assert SafeTarget(w, At(buffer, i + 1));
    }
  }

  lemma AtPlus(va: word, i: nat, j: nat)
    ensures At(At(va, i), j) == At(va, i + j)
  {
  }

  lemma {:induction false} DeliverSimulates(fs: seq<byte>, s: State, w: World, buffer: word, data: seq<byte>)
    requires R(fs, s, w) && SafeBuffer(w, buffer, |data|)
    ensures P.Shape(s.paging) && R(fs, DeliverStep(s, buffer, data), Filled(w, buffer, data))
    decreases |data|
  {
    if data == [] {
      SizedParts(fs, s);
    } else {
      SafeKept(w, buffer, data[0], buffer, |data|);
      KernelStoreSimulates(fs, s, w, buffer, data[0]);
      hide R, KernelStore, KernelPoke, SafeTarget;
      DeliverSimulates(fs, KernelStore(s, buffer, data[0]), KernelPoke(w, buffer, data[0]), At(buffer, 1), data[1..]);
    }
  }

  /** A process cannot tell what its closed entries hold, reading either. */
  lemma ReadsSeeVisible(fs: seq<byte>, table: seq<Fd>, fd: word, buffer: word, n: nat)
    requires GoodTable(fs, table) && GoodTable(fs, Visible(table))
    ensures ReadBytes(fs, Visible(table), fd, buffer, n) == ReadBytes(fs, table, fd, buffer, n)
  {
    hide GoodFile, FileLength, Content;
  }

  lemma ReadSimulates(fs: seq<byte>, s: State, w: World, fd: word, buffer: word, n: nat)
    requires R(fs, s, w) && GoodImage(fs)
    requires IsFile(Top(Front(w)).table, fd) && buffer != 0 ==> SafeBuffer(w, buffer, n)
    requires GoodTable(fs, Top(Front(w)).table)
    ensures R(fs, ReadFileStep(fs, s, fd, buffer, n), Fetch(fs, w, fd, buffer, n))
  {
    var call := ReadCall(Request(fd, n));
    TopLinked(fs, s, w);
    var (p, table) := (Top(Front(w)).slot, Top(Front(w)).table);
    ReadsSeeVisible(fs, s.tables[p], fd, buffer, n);
    if buffer != 0 {
      DescriptorSimulates(fs, s, w, call);
      SafeAfterCall(fs, w, call, buffer, |ReadBytes(fs, table, fd, buffer, n)|);
      hide R, DescriptorStep, Operate, ReadBytes, SafeTarget, Sized, GoodImage;
      DeliverSimulates(fs, DescriptorStep(fs, s, call), Operate(fs, w, call), buffer,
                       ReadBytes(fs, table, fd, buffer, n));
    }
  }

  lemma SafeAfterCall(fs: seq<byte>, w: World, call: Call, buffer: word, n: nat)
    requires IsWorld(w) && CallOk(fs, call) && GoodTable(fs, Top(Front(w)).table) && SafeBuffer(w, buffer, n)
    ensures SafeBuffer(Operate(fs, w, call), buffer, n)
  {
    hide GoodFile, CallStep, Visible;
    forall i | 0 <= i < n ensures SafeTarget(Operate(fs, w, call), At(buffer, i)) {
      assert SafeTarget(w, At(buffer, i));
    }
  }

  lemma VidMapSimulates(fs: seq<byte>, s: State, w: World, pointer: word)
    requires R(fs, s, w)
    ensures P.Shape(s.paging) && FrontReady(w.(video := true))
    ensures R(fs, VidMapStep(s, pointer).0,
              if InImage(pointer) then Filled(w.(video := true), pointer, VIDEO_POINTER) else w)
  {
    SizedParts(fs, s);
    if InImage(pointer) {
      MapVideoSimulates(fs, s, w);
      hide R, MapVideo;
      assert SafeBuffer(w.(video := true), pointer, 4);
      DeliverSimulates(fs, MapVideo(s), w.(video := true), pointer, VIDEO_POINTER);
    }
  }

  /** A line that is committed goes into the buffer; without one, the call waits. */
  lemma ReadLineSimulates(fs: seq<byte>, s: State, w: World, buffer: word, n: nat, beyond: byte)
    requires R(fs, s, w)
    requires w.board.canRead ==>
               w.board.oldTyped < 128 && IsBoard(w.board) && SafeBuffer(w, buffer, |LineBytes(w.board, n, beyond)|)
    ensures IsMemory(s.mem) && |s.keys| == 128 && IsBoard(s.board) && P.Shape(s.paging) && FrontReady(w)
    ensures R(fs, ReadLineStep(s, buffer, n, beyond), TookLine(w, buffer, n, beyond))
  {
    SizedParts(fs, s);
    TakeSimulates(fs, s, w);
    if w.board.canRead {
      SafeFaced(w, TakeOn(Facing(w)), buffer, |LineBytes(w.board, n, beyond)|);
      hide R, Show, Facing, Faced, TakeOn, LineBytes, SafeTarget, P.Shape;
      DeliverSimulates(fs, Show(s, TakeOn(ConsoleOf(s))), Faced(w, TakeOn(Facing(w))), buffer,
                       LineBytes(w.board, n, beyond));
    }
  }

  lemma SafeFaced(w: World, c: Console, buffer: word, n: nat)
    requires FrontReady(w) && IsConsole(c) && SafeBuffer(w, buffer, n)
    ensures SafeBuffer(Faced(w, c), buffer, n)
  {
    forall i | 0 <= i < n ensures SafeTarget(Faced(w, c), At(buffer, i)) {
      assert SafeTarget(w, At(buffer, i));
    }
  }

  // ---------------------------------------------------------------- one step, any event

  /** After the base shell gave up its slot, that slot is the least free one exactly under the guard. */
  lemma RestartSlot(fs: seq<byte>, s: State, w: World)
    requires R(fs, s, w) && |Front(w).stack| == 1
    ensures var p := Top(Front(w)).slot;
            && p < 6 && s.pcbs[p].processNum == p
            && FreeSlot(Vacate(s, p).processes, 0).Some?
            && (FreeSlot(Vacate(s, p).processes, 0) == Some(p)
                <==> forall q :: 0 <= q < p ==> q in Live(w))
  {
    TopLinked(fs, s, w);
    SlotZeroLive(w);
    assert SlotsMatch(fs, s, w) && Top(Front(w)).slot in Live(w) by {
      RunsInRange(fs, s, w);
      SlotOwner(w, w.current, Top(Front(w)).slot);
    }
    assert SixBits(s.processes);
    hide R, Sized, IsWorld, Live, Busy, ConsoleOk, EmptySlot, TermMatches, HardwareMatches, Holds, LinkedAt, SixBits;
    ClearedLeast(s.processes, Live(w), Top(Front(w)).slot);
  }

  /** Without its bit, a live slot is the least free one exactly if all lower ones are live. */
  lemma ClearedLeast(processes: bv8, live: set<nat>, p: nat)
    requires SixBits(processes) && p < 6 && p in live && forall q :: 0 <= q < 6 ==> (Busy(processes, q) <==> q in live)
    ensures FreeSlot(processes & ClearMask(p), 0).Some?
    ensures FreeSlot(processes & ClearMask(p), 0) == Some(p) <==> forall q :: 0 <= q < p ==> q in live
  {
    ClearSlot(processes, p);
    hide Busy, ClearMask;
    var m := processes & ClearMask(p);
    assert !Busy(m, p);
    assert forall q :: 0 <= q < 6 ==> (Busy(m, q) <==> q != p && q in live);
    var r := FreeSlot(m, 0).value;
    assert r <= p && !Busy(m, r) && (r != p ==> r !in live);
  }

  lemma HaltSimulates(fs: seq<byte>, s: State, w: World, junk: seq<byte>)
    requires R(fs, s, w) && ShellOk(fs) && |junk| == 4 && Guard(fs, w, Halt(junk))
    ensures R(fs, HaltStep(fs, s, junk), Pop(fs, w, Scrap(fs, s, Halt(junk))))
  {
    hide GoodFile, P.LaidOut, Live, TermMatches, Visible, Overwrite, Content, SlotsMatch, ShellOk, Shell, Executable,
      CommandOk;
    TopLinked(fs, s, w);
    ShellIsExecutable(fs, junk);
    var p := Top(Front(w)).slot;
    VacatedIsSized(fs, s, p);
    if |Front(w).stack| == 1 {
      RestartSlot(fs, s, w);
      RestartSimulates(fs, s, w, Shell(fs));
    } else {
      PopSimulates(fs, s, w);
    }
  }

  lemma SwitchStepSimulates(fs: seq<byte>, s: State, w: World, t: nat, junk: seq<byte>)
    requires R(fs, s, w) && ShellOk(fs) && |junk| == 4 && t < 3 && Guard(fs, w, Switch(t, junk))
    ensures R(fs, SwitchStep(fs, s, t, junk), Visit(fs, w, t, Scrap(fs, s, Switch(t, junk))))
  {
    assert TermMatches(fs, s, w, t);
    if w.sessions[t].Some? {
      RevisitSimulates(fs, s, w, t, junk);
    } else {
      FirstVisitSimulates(fs, s, w, t, junk);
    }
  }

  lemma RevisitSimulates(fs: seq<byte>, s: State, w: World, t: nat, junk: seq<byte>)
    requires R(fs, s, w) && ShellOk(fs) && |junk| == 4 && t < 3 && w.sessions[t].Some?
    ensures R(fs, SwitchStep(fs, s, t, junk), Visit(fs, w, t, Scrap(fs, s, Switch(t, junk))))
  {
    SwitchSimulates(fs, s, w, t);
    hide R, ShellOk, GoodFile, Live, Restore;
    BoardChange(fs, Restore(Save(s), t), w.(current := t), w.board.(ctrl := false));
  }

  lemma FirstVisitSimulates(fs: seq<byte>, s: State, w: World, t: nat, junk: seq<byte>)
    requires R(fs, s, w) && ShellOk(fs) && |junk| == 4 && t < 3 && w.sessions[t].None?
    requires LeastFree(Live(w), 0).Some?
    ensures R(fs, SwitchStep(fs, s, t, junk), Visit(fs, w, t, Scrap(fs, s, Switch(t, junk))))
  {
    ShellIsExecutable(fs, junk);
    hide ShellOk, Shell, Executable, CommandOk, GoodFile;
    FreeSlotIsLeastFree(s.processes, Live(w), 0);
    assert TermMatches(fs, s, w, t);
    ClearedKeeps(fs, s, w, t);
    VisitSimulates(fs, s, w, t, Shell(fs), FreeSlot(s.processes, 0).value);
  }

  lemma FreeIsLeastFree(fs: seq<byte>, s: State, w: World)
    requires R(fs, s, w)
    ensures LeastFree(Live(w), 0) == FreeSlot(s.processes, 0)
  {
    FreeSlotIsLeastFree(s.processes, Live(w), 0);
  }

  lemma CommandParts(fs: seq<byte>, command: seq<byte>, junk: seq<byte>)
    requires CommandOk(fs, command, junk)
    ensures GoodImage(fs) && |command| < 32 && |junk| == 4 && |FileName(command)| < 32
    ensures Executable(fs, FileName(command), junk).Some? ==>
              Loadable(fs, Executable(fs, FileName(command), junk).value)
  {
    hide Executable, GoodImage, Loadable;
  }

  lemma ExecuteStepSimulates(fs: seq<byte>, s: State, w: World, command: seq<byte>, junk: seq<byte>)
    requires R(fs, s, w) && CommandOk(fs, command, junk) && ShellOk(fs) && Guard(fs, w, Execute(command, junk))
    ensures R(fs, ExecuteStep(fs, s, command, junk).0, Push(fs, w, command, junk, Scrap(fs, s, Execute(command, junk))))
  {
    RParts(fs, s, w);
    FreeIsLeastFree(fs, s, w);
    hide R, Sized, IsWorld, P.LaidOut, Live, Overwrite, Content, Loadable, ShellOk, LeastFree, FreeSlot, WriteSafe,
      GoodImage, FileName, Install, PrintStep, Printed, FrameOf;
    CommandParts(fs, command, junk);
    SizedParts(fs, s);
    SameAsFacing(fs, s, w);
    var inode := Executable(fs, FileName(command), junk);
    if inode.Some? {
      if FreeSlot(s.processes, 0).Some? {
        ExecuteSimulates(fs, s, w, command, inode.value, FreeSlot(s.processes, 0).value);
      } else {
        PrintSimulates(fs, s, w, Chars(FULL));
      }
    }
  }

  /** The open descriptors of the running process stay good. */
  lemma TopTableGood(fs: seq<byte>, s: State, w: World)
    requires R(fs, s, w)
    ensures GoodTable(fs, Top(Front(w)).table)
  {
    TopLinked(fs, s, w);
    VisibleTableGood(fs, s.tables[Top(Front(w)).slot]);
  }

  /** The world that a state stands for after one event. */
  ghost function After(fs: seq<byte>, s: State, w: World, e: Event): (r: World)
    requires R(fs, s, w) && EventOk(fs, e)
    ensures |r.sessions| == 3 && r.current < 3
  {
    TopTableGood(fs, s, w);
    Next(fs, w, e, Scrap(fs, s, e))
  }

  lemma ShellImage(fs: seq<byte>)
    requires ShellOk(fs)
    ensures GoodImage(fs)
  {
  }

  /** Every step of the kernel is the step of the independent terminals. */
  lemma StepSimulates(fs: seq<byte>, s: State, w: World, e: Event)
    requires R(fs, s, w) && EventOk(fs, e) && Guard(fs, w, e)
    ensures R(fs, Step(fs, s, e), After(fs, s, w, e))
  {
    hide R, IsWorld, Sized, Live, ExecuteStep, HaltStep, SwitchStep, StoreStep, ReadFileStep, DeliverStep, VidMapStep,
      Push, Pop, Visit, Poke, Filled, Fetch, CommandOk, InterruptStep, WriteStep, ReadLineStep, Facing, Faced, TookLine,
      FewSlots, WriteSafe, SafeBuffer, Scrap, KeyOn, WriteOn, LineBytes, Executable, DescriptorStep, IsBoard,
      ShellOk, GoodImage, CallOk, Visible, CallStep;
    RParts(fs, s, w);
    ShellImage(fs);
    TopTableGood(fs, s, w);
    match e
    case Execute(command, junk) => ExecuteStepSimulates(fs, s, w, command, junk);
    case Halt(junk) => HaltSimulates(fs, s, w, junk);
    case Switch(t, junk) => SwitchStepSimulates(fs, s, w, t, junk);
    case Interrupt(scancode) => InterruptSimulates(fs, s, w, scancode);
    case Write(bytes) => WriteSimulates(fs, s, w, bytes);
    case ReadLine(buffer, n, beyond) => ReadLineSimulates(fs, s, w, buffer, n, beyond);
    case Registers(esp, ebp) => RegistersSimulate(fs, s, w, esp, ebp);
    case Descriptor(call) => DescriptorSimulates(fs, s, w, call);
    case Store(va, value) => StoreSimulates(fs, s, w, va, value);
    case Read(fd, buffer, n) => ReadSimulates(fs, s, w, fd, buffer, n);
    case Deliver(buffer, data) => DeliverSimulates(fs, s, w, buffer, data);
    case VidMap(pointer) => VidMapSimulates(fs, s, w, pointer);
  }
}
