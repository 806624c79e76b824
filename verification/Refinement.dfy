/**
 * The kernel's shared state refines the three independent terminals: what it means for a state to
 * stand for a world, and what a step leaves alone.
 */
module Refinement {
  import opened Bytes
  import opened Descriptors
  import opened Memory
  import opened Slots
  import opened Keyboards
  import opened Machine
  import opened Sessions
  import P = Paging

  // ---------------------------------------------------------------- the relation

  /** Console entries are only ever the console. */
  predicate ConsoleOk(table: seq<Fd>)
    requires |table| == 8
  {
    (table[0].inUse ==> table[0] == CONSOLE) && (table[1].inUse ==> table[1] == CONSOLE)
  }

  /** The block, table and frame of a slot hold a process. */
  ghost predicate Holds(fs: seq<byte>, s: State, p: Process)
    requires Sized(fs, s)
  {
    && IsProcess(p)
    && s.pcbs[p.slot].processNum == p.slot
    && s.pcbs[p.slot].filename == p.name
    && s.pcbs[p.slot].args == p.args
    && Visible(s.tables[p.slot]) == p.table
    && FrameOf(s.mem, p.slot) == p.memory
  }

  function FrameOf(mem: seq<byte>, slot: nat): (r: seq<byte>)
    requires IsMemory(mem) && slot < 6
    ensures |r| == 0x40_0000
  {
    Region(mem, FrameAt(slot), 0x40_0000)
  }

  /** The parent pointers follow the stack down to the base shell. */
  ghost predicate LinkedAt(s: State, stack: seq<Process>, i: nat)
    requires |s.pcbs| == 6 && i < |stack| && stack[i].slot < 6
  {
    var (p, pcb) := (stack[i], s.pcbs[stack[i].slot]);
    && (pcb.termStart <==> i == 0)
    && (i > 0 ==> p.slot != 0 && pcb.parentPcb == Some(stack[i - 1].slot)
                  && pcb.parentSp == p.callerSp && pcb.parentBp == p.callerBp)
  }

  ghost predicate ProcessMatches(fs: seq<byte>, s: State, stack: seq<Process>, i: nat) {
    Sized(fs, s) && i < |stack| && Holds(fs, s, stack[i]) && LinkedAt(s, stack, i)
  }

  ghost predicate StackMatches(fs: seq<byte>, s: State, stack: seq<Process>) {
    forall i :: 0 <= i < |stack| ==> ProcessMatches(fs, s, stack, i)
  }

  /** The live screen, cursor, keys and stack pointers are those of the session in front. */
  ghost predicate FrontMatches(s: State, x: Session)
    requires IsMemory(s.mem)
  {
    && Region(s.mem, VIDEO, 4000) == x.view.screen
    && s.cursorX == x.view.x && s.cursorY == x.view.y && s.keys == x.view.keys
    && s.esp == x.esp && s.ebp == x.ebp
  }

  /** The saved ones are those of a session that is not in front. */
  ghost predicate SavedMatches(s: State, t: nat, x: Session)
    requires IsMemory(s.mem) && t < |s.terms| == 3 && x.stack != []
  {
    var term := s.terms[t];
    && Region(s.mem, SavedScreen(t), 4000) == x.view.screen
    && term.cursorX == x.view.x && term.cursorY == x.view.y && term.keyboard == x.view.keys
    && term.esp == x.esp && term.ebp == x.ebp && term.esp0 == Esp0(Top(x).slot)
  }

  ghost predicate TermMatches(fs: seq<byte>, s: State, w: World, t: nat)
    requires Sized(fs, s) && IsWorld(w) && t < 3
  {
    match w.sessions[t]
    case None => !s.terms[t].beenHere && s.terms[t].running.None?
    case Some(x) =>
      && s.terms[t].beenHere && s.terms[t].running == Some(Top(x).slot)
      && StackMatches(fs, s, x.stack)
      && (if t == w.current then FrontMatches(s, x) else SavedMatches(s, t, x))
  }

  /** A slot whose bit is clear: not a base shell's, with no open file. */
  ghost predicate EmptySlot(fs: seq<byte>, s: State, p: nat)
    requires Sized(fs, s) && p < 6
  {
    && !s.pcbs[p].termStart
    && forall i :: 2 <= i < 8 ==> !s.tables[p][i].inUse
  }

  /** The set bits are exactly the live slots. */
  ghost predicate SlotsMatch(fs: seq<byte>, s: State, w: World)
    requires Sized(fs, s) && IsWorld(w)
  {
    && (forall p :: 0 <= p < 6 ==> (Busy(s.processes, p) <==> p in Live(w)))
    && (forall p :: 0 <= p < 6 ==> ConsoleOk(s.tables[p]))
    && (forall p :: 0 <= p < 6 && p !in Live(w) ==> EmptySlot(fs, s, p))
  }

  /** The page tables and the TSS are those of the process running in front. */
  ghost predicate HardwareMatches(s: State, w: World)
    requires IsWorld(w)
  {
    P.LaidOut(s.paging, Some(Top(Front(w)).slot), w.video) && s.esp0 == Esp0(Top(Front(w)).slot)
  }

  /** The state stands for the world. */
  ghost predicate R(fs: seq<byte>, s: State, w: World) {
    && Sized(fs, s) && IsWorld(w) && s.current == w.current && s.board == w.board
    && (forall t :: 0 <= t < 3 ==> TermMatches(fs, s, w, t))
    && SlotsMatch(fs, s, w)
    && HardwareMatches(s, w)
  }

  // ---------------------------------------------------------------- what stays the same

  /** A step did not touch slot q. */
  ghost predicate SameSlot(s: State, s2: State, q: nat) {
    && q < 6 && |s.pcbs| == |s2.pcbs| == 6 && |s.tables| == |s2.tables| == 6
    && IsMemory(s.mem) && IsMemory(s2.mem)
    && s2.pcbs[q] == s.pcbs[q] && s2.tables[q] == s.tables[q] && FrameOf(s2.mem, q) == FrameOf(s.mem, q)
  }

  ghost predicate SameScreen(s: State, s2: State, t: nat) {
    && IsMemory(s.mem) && IsMemory(s2.mem) && t < 3
    && Region(s2.mem, SavedScreen(t), 4000) == Region(s.mem, SavedScreen(t), 4000)
  }

  lemma StackKept(fs: seq<byte>, s: State, s2: State, stack: seq<Process>)
    requires Sized(fs, s2) && StackMatches(fs, s, stack)
    requires forall q :: q in SlotsOf(stack) ==> SameSlot(s, s2, q)
    ensures StackMatches(fs, s2, stack)
  {
    hide Sized;
    forall i | 0 <= i < |stack| ensures ProcessMatches(fs, s2, stack, i) {
      assert ProcessMatches(fs, s, stack, i);
      assert stack[i].slot in SlotsOf(stack);
      assert SameSlot(s, s2, stack[i].slot);
    }
  }

  /** A terminal that is behind before and after, and whose slots and saved screen are untouched. */
  lemma BehindKept(fs: seq<byte>, s: State, s2: State, w: World, w2: World, t: nat)
    requires Sized(fs, s) && Sized(fs, s2) && IsWorld(w) && IsWorld(w2) && t < 3
    requires TermMatches(fs, s, w, t) && t != w.current && t != w2.current
    requires w2.sessions[t] == w.sessions[t] && s2.terms[t] == s.terms[t]
    requires w.sessions[t].Some? ==> SameScreen(s, s2, t)
    requires forall q :: q in SlotsOf(StackOf(w, t)) ==> SameSlot(s, s2, q)
    ensures TermMatches(fs, s2, w2, t)
  {
    hide Sized;
    if w.sessions[t].Some? {
      StackKept(fs, s, s2, w.sessions[t].value.stack);
    }
  }

  // ---------------------------------------------------------------- slots of a world

  lemma {:induction false} FreeSlotIsLeastFree(processes: bv8, live: set<nat>, p: nat)
    requires p <= 6 && forall q :: 0 <= q < 6 ==> (Busy(processes, q) <==> q in live)
    ensures FreeSlot(processes, p) == LeastFree(live, p)
    decreases 6 - p
  {
    if p < 6 {
      FreeSlotIsLeastFree(processes, live, p + 1);
    }
  }

  lemma SlotsOfAppend(stack: seq<Process>, p: Process)
    ensures SlotsOf(stack + [p]) == SlotsOf(stack) + {p.slot}
  {
    var more := stack + [p];
    forall q | q in SlotsOf(stack) + {p.slot} ensures q in SlotsOf(more) {
      if q == p.slot {
        assert more[|stack|].slot == q;
      } else {
        var i :| 0 <= i < |stack| && stack[i].slot == q;
        assert more[i].slot == q;
      }
    }
  }

  lemma SingleStack(p: Process)
    requires IsProcess(p)
    ensures SlotsOf([p]) == {p.slot} && StackOk([p]) && SlotsOf([]) == {}
  {
    assert [p][0].slot in SlotsOf([p]);
  }

  lemma SlotsOfPop(stack: seq<Process>)
    requires stack != [] && NoSlotTwice(stack)
    ensures SlotsOf(stack[..|stack| - 1]) == SlotsOf(stack) - {stack[|stack| - 1].slot}
  {
    var less := stack[..|stack| - 1];
    assert stack == less + [stack[|stack| - 1]];
    SlotsOfAppend(less, stack[|stack| - 1]);
    assert forall i :: 0 <= i < |less| ==> less[i].slot != stack[|stack| - 1].slot;
  }

  lemma SlotsOfSame(a: seq<Process>, b: seq<Process>)
    requires |a| == |b| && forall i :: 0 <= i < |a| ==> a[i].slot == b[i].slot
    ensures SlotsOf(a) == SlotsOf(b)
  {
    forall q | q in SlotsOf(a) ensures q in SlotsOf(b) {
      var i :| 0 <= i < |a| && a[i].slot == q;
      assert b[i].slot == q;
    }
    forall q | q in SlotsOf(b) ensures q in SlotsOf(a) {
      var i :| 0 <= i < |b| && b[i].slot == q;
      assert a[i].slot == q;
    }
  }

  /** Processes on the stacks are live, and no other terminal has the slot. */
  lemma SlotOwner(w: World, t: nat, q: nat)
    requires IsWorld(w) && t < 3 && q in SlotsOf(StackOf(w, t))
    ensures q in Live(w) && q < 6
    ensures forall u :: 0 <= u < 3 && u != t ==> q !in SlotsOf(StackOf(w, u))
  {
  }

  /** Replacing the front session by one with a proper stack on free or own slots leaves a world. */
  lemma FrontReplaced(w: World, x: Session)
    requires IsWorld(w)
    requires x.stack != [] && StackOk(x.stack) && x.stack[0].slot == Front(w).stack[0].slot
    requires IsView(x.view)
    requires forall q :: q in SlotsOf(x.stack) ==> q in SlotsOf(Front(w).stack) || q !in Live(w)
    ensures IsWorld(WithFront(w, x))
    ensures Live(WithFront(w, x)) == Live(w) - SlotsOf(Front(w).stack) + SlotsOf(x.stack)
  {
    hide SlotsOf, StackOk, IsView, IsBoard;
    var w2 := WithFront(w, x);
    assert StackOf(w2, w.current) == x.stack;
    forall t | 0 <= t < 3 && t != w.current ensures StackOf(w2, t) == StackOf(w, t) {
    }
  }

  /** A first session in terminal 0. */
  lemma OneSessionWorld(p: Process, view: View, esp: word, ebp: word, board: Keyboard)
    requires IsProcess(p) && p.slot == 0 && IsView(view) && IsBoard(board)
    ensures var w := World([Some(Session([p], view, esp, ebp)), None, None], 0, false, board);
            IsWorld(w) && Live(w) == {0}
  {
    var w := World([Some(Session([p], view, esp, ebp)), None, None], 0, false, board);
    SingleStack(p);
    assert StackOf(w, 0) == [p] && StackOf(w, 1) == [] && StackOf(w, 2) == [];
    hide SlotsOf;
  }

  /** A new session with one process in a free slot. */
  lemma NewSessionWorld(w: World, t: nat, p: Process, view: View, esp: word, ebp: word)
    requires IsWorld(w) && t < 3 && w.sessions[t].None?
    requires IsProcess(p) && p.slot !in Live(w) && IsView(view)
    ensures var w2 := w.(current := t, sessions := w.sessions[t := Some(Session([p], view, esp, ebp))]);
            IsWorld(w2) && Live(w2) == Live(w) + {p.slot}
  {
    SingleStack(p);
    hide SlotsOf, StackOk, IsProcess, IsView, IsBoard;
    var w2 := w.(current := t, sessions := w.sessions[t := Some(Session([p], view, esp, ebp))]);
    assert StackOf(w2, t) == [p] && StackOf(w, t) == [];
    forall u | 0 <= u < 3 && u != t ensures StackOf(w2, u) == StackOf(w, u) && p.slot !in SlotsOf(StackOf(w, u)) {
    }
  }
}
