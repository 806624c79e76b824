/** What holds over every run of the kernel from boot. */
module Runs {
  import opened Bytes
  import opened FileSystem
  import opened Memory
  import opened Slots
  import opened Machine
  import opened Sessions
  import opened Refinement
  import opened Simulation
  import opened Steps
  import P = Paging

  // ---------------------------------------------------------------- boot

  ghost function BootWorld(fs: seq<byte>, s: State): World
    requires BootOk(fs, s) && ShellOk(fs)
  {
    var shell := Started(fs, SHELL, Shell(fs), 0, s.esp, s.ebp, FrameOf(s.mem, 0));
    var view := View(Region(s.mem, VIDEO, 4000), s.cursorX, s.cursorY, s.keys);
    World([Some(Session([shell], view, s.esp, s.ebp)), None, None], 0, false, s.board)
  }

  lemma BootIsWorld(fs: seq<byte>, s: State)
    requires BootOk(fs, s) && ShellOk(fs)
    ensures IsWorld(BootWorld(fs, s)) && Live(BootWorld(fs, s)) == {0}
  {
    hide Content, WordAt, Overwrite, GoodFile, Live, IsWorld, Shell;
    var w := BootWorld(fs, s);
    var x := w.sessions[0].value;
    OneSessionWorld(x.stack[0], x.view, x.esp, x.ebp, s.board);
  }

  lemma BootTerms(fs: seq<byte>, s: State)
    requires BootOk(fs, s) && ShellOk(fs)
    ensures var (s2, w) := (Install(fs, s, SHELL, Shell(fs), 0), BootWorld(fs, s));
            && Sized(fs, s2) && IsWorld(w)
            && forall t :: 0 <= t < 3 ==> TermMatches(fs, s2, w, t)
  {
    hide Content, WordAt, Overwrite, GoodFile, Visible, P.LaidOut, Live;
    var inode := Shell(fs);
    BootIsWorld(fs, s);
    Installed(fs, s, SHELL, inode, 0, s.esp, s.ebp);
    var (s2, w) := (Install(fs, s, SHELL, inode, 0), BootWorld(fs, s));
    assert ProcessMatches(fs, s2, StackOf(w, 0), 0);
  }

  lemma BootSlots(fs: seq<byte>, s: State)
    requires BootOk(fs, s) && ShellOk(fs)
    ensures var (s2, w) := (Install(fs, s, SHELL, Shell(fs), 0), BootWorld(fs, s));
            Sized(fs, s2) && IsWorld(w) && SlotsMatch(fs, s2, w)
  {
    hide Content, WordAt, Overwrite, GoodFile, Visible, P.LaidOut, Live, Holds;
    var inode := Shell(fs);
    BootIsWorld(fs, s);
    Installed(fs, s, SHELL, inode, 0, s.esp, s.ebp);
    var s2 := Install(fs, s, SHELL, inode, 0);
    SetSlot(s.processes, 0);
    forall q | 0 <= q < 6 ensures ConsoleOk(s2.tables[q]) && (q != 0 ==> EmptySlot(fs, s2, q)) {
      assert q != 0 ==> SameSlot(s, s2, q);
    }
  }

  /** The first execute leaves one terminal with one process. */
  lemma BootEstablishes(fs: seq<byte>, s: State, junk: seq<byte>)
    requires BootOk(fs, s) && ShellOk(fs) && |junk| == 4
    ensures (ShellIsExecutable(fs, junk); R(fs, ExecuteStep(fs, s, SHELL, junk).0, BootWorld(fs, s)))
  {
    hide Content, WordAt, Overwrite, GoodFile, Visible, Loadable, TermMatches, SlotsMatch, P.LaidOut, Live, IsWorld,
      ShellOk, Shell, Executable, CommandOk;
    ShellIsExecutable(fs, junk);
    assert !Busy(s.processes, 0) && FreeSlot(s.processes, 0) == Some(0);
    BootTerms(fs, s);
    BootSlots(fs, s);
    Mapped(s.paging, None, false, 0);
  }

  // ---------------------------------------------------------------- runs

  ghost predicate AllGuarded(fs: seq<byte>, s: State, w: World, es: seq<Event>)
    requires R(fs, s, w)
    decreases |es|
  {
    es == [] ||
    (&& EventOk(fs, es[0]) && Guard(fs, w, es[0])
     && (StepSimulates(fs, s, w, es[0]);
         AllGuarded(fs, Step(fs, s, es[0]), After(fs, s, w, es[0]), es[1..])))
  }

  /** The kernel's state and the world it stands for after a run of guarded events. */
  ghost function Play(fs: seq<byte>, s: State, w: World, es: seq<Event>): (r: (State, World))
    requires R(fs, s, w) && AllGuarded(fs, s, w, es)
    ensures R(fs, r.0, r.1)
    decreases |es|
  {
    if es == [] then (s, w) else
    StepSimulates(fs, s, w, es[0]);
    Play(fs, Step(fs, s, es[0]), After(fs, s, w, es[0]), es[1..])
  }

  /** The n-th process up the parent pointers from slot q; there is none above a base shell. */
  ghost function Ancestor(s: State, q: nat, n: nat): Option<nat>
    requires |s.pcbs| == 6
    decreases n
  {
    if q >= 6 then None
    else if n == 0 then Some(q)
    else if IsBase(s.pcbs[q]) || s.pcbs[q].parentPcb.None? then None
    else Ancestor(s, s.pcbs[q].parentPcb.value, n - 1)
  }

  lemma {:induction false} AncestorsAreStack(fs: seq<byte>, s: State, stack: seq<Process>, k: nat, n: nat)
    requires StackMatches(fs, s, stack) && k < |stack|
    requires |s.pcbs| == 6
    ensures Ancestor(s, stack[k].slot, n) == if n <= k then Some(stack[k - n].slot) else None
    decreases n
  {
    assert ProcessMatches(fs, s, stack, k);
    if n > 0 && k > 0 {
      AncestorsAreStack(fs, s, stack, k - 1, n - 1);
    }
  }

  /** Slot p is the n-th ancestor of the process that runs in terminal t. */
  ghost predicate OnChain(s: State, t: nat, n: nat, p: nat)
    requires |s.pcbs| == 6 && |s.terms| == 3
  {
    t < 3 && s.terms[t].beenHere && s.terms[t].running.Some? && Ancestor(s, s.terms[t].running.value, n) == Some(p)
  }

  lemma ChainIsStack(fs: seq<byte>, s: State, w: World, t: nat, n: nat, p: nat)
    requires R(fs, s, w) && t < 3 && p < 6
    ensures var stack := StackOf(w, t);
            OnChain(s, t, n, p) <==> n < |stack| && stack[|stack| - 1 - n].slot == p
  {
    assert TermMatches(fs, s, w, t);
    var stack := StackOf(w, t);
    if stack != [] {
      AncestorsAreStack(fs, s, stack, |stack| - 1, n);
    }
  }

  /**
   * In every state a run reaches: a slot's bit is set exactly if the slot is on the parent chain of
   * some visited terminal, and then it is on one chain only, in one place. Slot 0 is live, and the image
   * mapping and the TSS stack are those of the process that runs in the current terminal.
   */
  lemma BitsAreParentChains(fs: seq<byte>, s: State, w: World, p: nat)
    requires R(fs, s, w) && p < 6
    ensures Busy(s.processes, p) <==> exists t: nat, n: nat :: OnChain(s, t, n, p)
    ensures forall t: nat, n: nat, u: nat, m: nat :: OnChain(s, t, n, p) && OnChain(s, u, m, p) ==> t == u && n == m
    ensures Busy(s.processes, 0)
    ensures var running := s.terms[s.current].running;
            && running.Some? && running.value < 6
            && s.paging.directory[0x20] == P.ImageEntry(running.value)
            && s.esp0 == Esp0(running.value)
  {
    hide GoodFile, Visible, TermMatches;
    SlotZeroLive(w);
    TopLinked(fs, s, w);
    BusyIsOnChain(fs, s, w, p);
    forall t: nat, n: nat, u: nat, m: nat | OnChain(s, t, n, p) && OnChain(s, u, m, p) ensures t == u && n == m {
      ChainPlaceUnique(fs, s, w, p, t, n, u, m);
    }
    assert s.paging.directory[0x20] == P.DirectoryEntry(s.paging, Some(Top(Front(w)).slot), w.video, 0x20);
  }

  lemma BusyIsOnChain(fs: seq<byte>, s: State, w: World, p: nat)
    requires R(fs, s, w) && p < 6
    ensures Busy(s.processes, p) <==> exists t: nat, n: nat :: OnChain(s, t, n, p)
  {
    assert Busy(s.processes, p) <==> p in Live(w);
    if Busy(s.processes, p) {
      LiveIsOnChain(fs, s, w, p);
    }
    if t: nat, n: nat :| OnChain(s, t, n, p) {
      hide Sized, TermMatches, P.LaidOut, SlotsMatch;
      ChainIsStack(fs, s, w, t, n, p);
      assert p in SlotsOf(StackOf(w, t));
      SlotOwner(w, t, p);
    }
  }

  lemma LiveIsOnChain(fs: seq<byte>, s: State, w: World, p: nat)
    requires R(fs, s, w) && p < 6 && p in Live(w)
    ensures exists t: nat, n: nat :: OnChain(s, t, n, p)
  {
    hide GoodFile, TermMatches, P.LaidOut, SlotsMatch;
    var t: nat :| t < 3 && p in SlotsOf(StackOf(w, t));
    var stack := StackOf(w, t);
    var i :| 0 <= i < |stack| && stack[i].slot == p;
    ChainIsStack(fs, s, w, t, |stack| - 1 - i, p);
    assert OnChain(s, t, |stack| - 1 - i, p);
  }

  lemma ChainPlaceUnique(fs: seq<byte>, s: State, w: World, p: nat, t: nat, n: nat, u: nat, m: nat)
    requires R(fs, s, w) && p < 6 && OnChain(s, t, n, p) && OnChain(s, u, m, p)
    ensures t == u && n == m
  {
    hide GoodFile, Visible, TermMatches, P.LaidOut;
    ChainIsStack(fs, s, w, t, n, p);
    ChainIsStack(fs, s, w, u, m, p);
    assert p in SlotsOf(StackOf(w, t));
    SlotOwner(w, t, p);
    assert p in SlotsOf(StackOf(w, u));
  }
}
