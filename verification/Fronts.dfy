/** Changes to the terminal in front: what has to stay for the state to go on standing for a world. */
module Fronts {
  import opened Bytes
  import opened FileSystem
  import opened Memory
  import opened Slots
  import opened Machine
  import opened Sessions
  import opened Refinement
  import opened Simulation
  import P = Paging

  /** The terminals' records, but for the saved state of the one in front. */
  ghost predicate SameRecords(s: State, s2: State) {
    && |s.terms| == |s2.terms| == 3 && s.current < 3
    && (forall t :: 0 <= t < 3 && t != s.current ==> s2.terms[t] == s.terms[t])
    && s2.terms[s.current].beenHere == s.terms[s.current].beenHere
    && s2.terms[s.current].running == s.terms[s.current].running
  }

  /** What of a state and its front session FrontChange needs to know. */
  lemma FrontKnown(fs: seq<byte>, s: State, w: World)
    requires R(fs, s, w)
    ensures Sized(fs, s) && FrontReady(w) && s.board == w.board && s.current == w.current && IsMemory(s.mem)
    ensures |s.terms| == 3 && |s.tables| == 6 && s.current < 3 && StackOk(Front(w).stack)
    ensures StackMatches(fs, s, Front(w).stack)
    ensures forall q :: 0 <= q < 6 ==> |s.tables[q]| == 8 && ConsoleOk(s.tables[q])
    ensures forall q :: q in SlotsOf(Front(w).stack) ==> q < 6
    ensures FrontMatches(s, Front(w)) && IsView(Front(w).view)
  {
    StackInRange(w);
    assert TermMatches(fs, s, w, w.current) && IsProcess(Top(Front(w)));
  }

  /** A change to the front terminal only. */
  lemma FrontChange(fs: seq<byte>, s: State, s2: State, w: World, x: Session)
    requires R(fs, s, w) && Sized(fs, s2)
    requires s2.current == s.current && s2.processes == s.processes && s2.pcbs == s.pcbs && s2.board == s.board
    requires s2.paging == s.paging && s2.esp0 == s.esp0 && SameRecords(s, s2)
    requires |x.stack| == |Front(w).stack|
    requires forall i :: 0 <= i < |x.stack| ==> x.stack[i].slot == Front(w).stack[i].slot
    requires StackOk(x.stack) && IsView(x.view)
    requires StackMatches(fs, s2, x.stack) && FrontMatches(s2, x)
    requires forall q :: 0 <= q < 6 && q !in SlotsOf(Front(w).stack) ==> SameSlot(s, s2, q)
    requires forall q :: 0 <= q < 6 ==> ConsoleOk(s2.tables[q])
    requires forall t :: 0 <= t < 3 && t != w.current && w.sessions[t].Some? ==> SameScreen(s, s2, t)
    ensures R(fs, s2, WithFront(w, x))
  {
    hide Sized, P.LaidOut, StackMatches, SameSlot, SameScreen, FrontMatches, SavedMatches, Busy, Esp0, StackOk, IsView;
    var w2 := WithFront(w, x);
    RunsInRange(fs, s, w);
    FrontWorld(w, x);
    forall t | 0 <= t < 3 ensures TermMatches(fs, s2, w2, t) {
      assert TermMatches(fs, s, w, t);
      if t != w.current {
        OthersSlots(w, t);
        BehindKept(fs, s, s2, w, w2, t);
      }
    }
    FrontSlots(fs, s, s2, w, w2);
  }

  lemma FrontWorld(w: World, x: Session)
    requires IsWorld(w) && |x.stack| == |Front(w).stack| && StackOk(x.stack) && IsView(x.view)
    requires forall i :: 0 <= i < |x.stack| ==> x.stack[i].slot == Front(w).stack[i].slot
    ensures IsWorld(WithFront(w, x)) && Live(WithFront(w, x)) == Live(w)
    ensures forall q :: q in SlotsOf(Front(w).stack) ==> q in Live(w)
  {
    SlotsOfSame(x.stack, Front(w).stack);
    FrontReplaced(w, x);
    forall q | q in SlotsOf(Front(w).stack) ensures q in Live(w) {
      SlotOwner(w, w.current, q);
    }
  }

  /** Terminals behind have other slots. */
  lemma OthersSlots(w: World, t: nat)
    requires IsWorld(w) && t < 3 && t != w.current
    ensures forall q :: q in SlotsOf(StackOf(w, t)) ==> q < 6 && q !in SlotsOf(Front(w).stack)
  {
    assert StackOf(w, w.current) == Front(w).stack;
    forall q | q in SlotsOf(StackOf(w, t)) ensures q < 6 && q !in SlotsOf(Front(w).stack) {
      SlotOwner(w, t, q);
    }
  }

  lemma FrontSlots(fs: seq<byte>, s: State, s2: State, w: World, w2: World)
    requires Sized(fs, s) && Sized(fs, s2) && IsWorld(w) && IsWorld(w2)
    requires SlotsMatch(fs, s, w) && Live(w2) == Live(w) && s2.processes == s.processes
    requires forall q :: 0 <= q < 6 ==> ConsoleOk(s2.tables[q])
    requires forall q :: 0 <= q < 6 && q !in Live(w) ==> SameSlot(s, s2, q)
    ensures SlotsMatch(fs, s2, w2)
  {
    var live := Live(w);
    hide IsWorld, Live, Busy, ConsoleOk;
    forall q | 0 <= q < 6 && q !in live ensures EmptySlot(fs, s2, q) {
      assert SameSlot(s, s2, q);
    }
  }

  lemma StackInRange(w: World)
    requires IsWorld(w)
    ensures StackOk(Front(w).stack)
    ensures forall q :: q in SlotsOf(Front(w).stack) ==> q < 6 && q in Live(w)
    ensures Top(Front(w)).slot in SlotsOf(Front(w).stack)
  {
    assert StackOf(w, w.current) == Front(w).stack;
    forall q | q in SlotsOf(Front(w).stack) ensures q < 6 && q in Live(w) {
      SlotOwner(w, w.current, q);
    }
  }

  /** A change to the running process only: its table or its memory. */
  lemma TopChange(fs: seq<byte>, s: State, s2: State, w: World, p: Process)
    requires R(fs, s, w) && Sized(fs, s2)
    requires s2.current == s.current && s2.terms == s.terms && s2.processes == s.processes && s2.pcbs == s.pcbs
    requires s2.paging == s.paging && s2.esp0 == s.esp0 && s2.board == s.board
    requires p.slot == Top(Front(w)).slot && Holds(fs, s2, p)
    requires p.callerSp == Top(Front(w)).callerSp && p.callerBp == Top(Front(w)).callerBp
    requires FrontMatches(s2, Front(w))
    requires forall q :: 0 <= q < 6 && q != p.slot ==> SameSlot(s, s2, q)
    requires ConsoleOk(s2.tables[p.slot])
    requires forall t :: 0 <= t < 3 ==> SameScreen(s, s2, t)
    ensures R(fs, s2, WithFront(w, WithTop(Front(w), p)))
  {
    hide GoodFile, P.LaidOut, Live, Visible;
    var f := Front(w);
    var stack2 := WithTop(f, p).stack;
    assert TermMatches(fs, s, w, w.current);
    StackInRange(w);
    forall i | 0 <= i < |stack2| ensures ProcessMatches(fs, s2, stack2, i) {
      assert ProcessMatches(fs, s, f.stack, i);
      if i < |f.stack| - 1 {
        assert SameSlot(s, s2, f.stack[i].slot);
      }
    }
    forall q | 0 <= q < 6 ensures ConsoleOk(s2.tables[q]) {
      assert q != p.slot ==> SameSlot(s, s2, q);
    }
    FrontChange(fs, s, s2, w, WithTop(f, p));
  }
}
