/** Runs from boot that reach the states in which the kernel does not do what it should. */
module Scenarios {
  import opened Bytes
  import opened Memory
  import opened Page
  import opened Screen
  import opened Editor
  import opened Keyboards
  import opened Machine
  import opened Slots
  import opened Sessions
  import opened Refinement
  import opened Simulation
  import opened ConsoleSteps
  import opened Steps
  import opened Runs
  import opened Buffers
  import opened Guarantees
  import P = Paging

  /** Which slots are on the three stacks, and which terminal is in front. */
  datatype Layout = Layout(a: seq<nat>, b: seq<nat>, c: seq<nat>, current: nat)

  function Stack(l: Layout, t: nat): seq<nat> {
    if t == 0 then l.a else if t == 1 then l.b else l.c
  }

  function WithStack(l: Layout, t: nat, s: seq<nat>): Layout {
    if t == 0 then l.(a := s) else if t == 1 then l.(b := s) else l.(c := s)
  }

  function SlotsIn(stack: seq<Process>): (r: seq<nat>)
    ensures |r| == |stack| && forall i :: 0 <= i < |r| ==> r[i] == stack[i].slot
  {
    seq(|stack|, i requires 0 <= i < |stack| => stack[i].slot)
  }

  ghost function LayoutOf(w: World): (l: Layout)
    requires |w.sessions| == 3
  {
    Layout(SlotsIn(StackOf(w, 0)), SlotsIn(StackOf(w, 1)), SlotsIn(StackOf(w, 2)), w.current)
  }

  function Taken(l: Layout): set<nat> {
    (set q | q in l.a) + (set q | q in l.b) + (set q | q in l.c)
  }

  lemma InSlotsOf(stack: seq<Process>, q: nat)
    ensures q in SlotsIn(stack) <==> q in SlotsOf(stack)
  {
    if i :| 0 <= i < |stack| && stack[i].slot == q {
      assert SlotsIn(stack)[i] == q;
    }
  }

  lemma TakenIsLive(w: World)
    requires |w.sessions| == 3
    ensures Taken(LayoutOf(w)) == Live(w)
  {
    forall q ensures q in Taken(LayoutOf(w)) <==> q in Live(w) {
      InSlotsOf(StackOf(w, 0), q);
      InSlotsOf(StackOf(w, 1), q);
      InSlotsOf(StackOf(w, 2), q);
    }
  }

  predicate IsLayout(l: Layout) {
    l.current < 3 && Stack(l, l.current) != []
  }

  /** Starting and ending shells, and going from terminal to terminal, while the kernel can. */
  ghost predicate Simple(l: Layout, e: Event)
    requires IsLayout(l)
  {
    match e
    case Execute(command, junk) => command == SHELL && |junk| == 4 && LeastFree(Taken(l), 0).Some?
    case Switch(t, junk) => t < 3 && |junk| == 4 && (Stack(l, t) == [] ==> LeastFree(Taken(l), 0).Some?)
    case Halt(junk) => |junk| == 4 && |Stack(l, l.current)| > 1
    case _ => false
  }

  ghost function NextLayout(l: Layout, e: Event): (r: Layout)
    requires IsLayout(l) && Simple(l, e)
    ensures IsLayout(r)
  {
    var stack := Stack(l, l.current);
    match e
    case Execute(_, _) => WithStack(l, l.current, stack + [LeastFree(Taken(l), 0).value])
    case Switch(t, _) =>
      (if Stack(l, t) == [] then WithStack(l, t, [LeastFree(Taken(l), 0).value]) else l).(current := t)
    case Halt(_) => WithStack(l, l.current, stack[..|stack| - 1])
  }

  lemma WorldHasLayout(w: World)
    requires IsWorld(w)
    ensures IsLayout(LayoutOf(w)) && Taken(LayoutOf(w)) == Live(w)
    ensures forall t :: 0 <= t < 3 ==> Stack(LayoutOf(w), t) == SlotsIn(StackOf(w, t))
    ensures forall t :: 0 <= t < 3 ==> (StackOf(w, t) == [] <==> w.sessions[t].None?)
  {
    TakenIsLive(w);
  }

  /** Replacing one session replaces one stack of the layout. */
  lemma LayoutWith(w: World, t: nat, x: Session)
    requires |w.sessions| == 3 && t < 3
    ensures LayoutOf(w.(sessions := w.sessions[t := Some(x)])) == WithStack(LayoutOf(w), t, SlotsIn(x.stack))
  {
  }

  lemma SlotsInParts(stack: seq<Process>, p: Process)
    ensures SlotsIn(stack + [p]) == SlotsIn(stack) + [p.slot] && SlotsIn([p]) == [p.slot]
    ensures stack != [] ==> SlotsIn(stack[..|stack| - 1]) == SlotsIn(stack)[..|stack| - 1]
  {
  }

  lemma PushLayout(fs: seq<byte>, w: World, junk: seq<byte>, scrap: seq<byte>)
    requires IsWorld(w) && IsLayout(LayoutOf(w)) && ShellOk(fs) && |scrap| == 0x40_0000
    requires Simple(LayoutOf(w), Execute(SHELL, junk)) && CommandOk(fs, SHELL, junk)
    ensures LayoutOf(Push(fs, w, SHELL, junk, scrap)) == NextLayout(LayoutOf(w), Execute(SHELL, junk))
  {
    WorldHasLayout(w);
    ShellIsExecutable(fs, junk);
    var (f, p) := (Front(w), LeastFree(Live(w), 0).value);
    var shell := Started(fs, SHELL, Shell(fs), p, f.esp, f.ebp, scrap);
    SlotsInParts(f.stack, shell);
    LayoutWith(w, w.current, f.(stack := f.stack + [shell]));
    hide ShellOk, Shell, CommandOk, Executable, IsWorld, Live, Taken, LayoutOf, WithStack, Stack, IsLayout;
  }

  lemma PopLayout(fs: seq<byte>, w: World, junk: seq<byte>, scrap: seq<byte>)
    requires IsWorld(w) && IsLayout(LayoutOf(w)) && ShellOk(fs) && |scrap| == 0x40_0000
    requires Simple(LayoutOf(w), Halt(junk))
    ensures LayoutOf(Pop(fs, w, scrap)) == NextLayout(LayoutOf(w), Halt(junk))
  {
    WorldHasLayout(w);
    var f := Front(w);
    assert Stack(LayoutOf(w), w.current) == SlotsIn(f.stack);
    SlotsInParts(f.stack, Top(f));
    LayoutWith(w, w.current, f.(stack := f.stack[..|f.stack| - 1], esp := Top(f).callerSp, ebp := Top(f).callerBp));
    hide ShellOk, IsWorld, Live, Taken, Started, LayoutOf, WithStack, Stack, IsLayout;
  }

  lemma VisitLayout(fs: seq<byte>, w: World, t: nat, junk: seq<byte>, scrap: seq<byte>)
    requires IsWorld(w) && IsLayout(LayoutOf(w)) && ShellOk(fs) && |scrap| == 0x40_0000
    requires Simple(LayoutOf(w), Switch(t, junk))
    ensures LayoutOf(Visit(fs, w, t, scrap)) == NextLayout(LayoutOf(w), Switch(t, junk))
  {
    WorldHasLayout(w);
    assert Stack(LayoutOf(w), t) == SlotsIn(StackOf(w, t));
    if w.sessions[t].None? {
      var (f, p) := (Front(w), LeastFree(Live(w), 0).value);
      var shell := Started(fs, SHELL, Shell(fs), p, f.esp, f.ebp, scrap);
      SlotsInParts([], shell);
      LayoutWith(w, t, Session([shell], View(BlankCells(), 0, 0, f.view.keys), f.esp, f.ebp));
    }
    hide ShellOk, Shell, IsWorld, Live, Taken, Started, BlankCells, Stack, IsLayout;
  }

  lemma SimpleStep(fs: seq<byte>, s: State, w: World, e: Event)
    requires R(fs, s, w) && ShellOk(fs) && IsLayout(LayoutOf(w)) && Simple(LayoutOf(w), e)
    ensures EventOk(fs, e) && Guard(fs, w, e) && R(fs, Step(fs, s, e), After(fs, s, w, e))
    ensures LayoutOf(After(fs, s, w, e)) == NextLayout(LayoutOf(w), e)
  {
    RParts(fs, s, w);
    WorldHasLayout(w);
    SimpleIsGuarded(fs, w, e);
    StepSimulates(fs, s, w, e);
    var scrap := Scrap(fs, s, e);
    hide R, Step, Sized, IsWorld, Push, Pop, Visit, ShellOk, CommandOk, NextLayout, LayoutOf, Scrap, Guard, Simple;
    match e
    case Execute(_, junk) =>
      ShellIsExecutable(fs, junk);
      PushLayout(fs, w, junk, scrap);
    case Halt(junk) => PopLayout(fs, w, junk, scrap);
    case Switch(t, junk) => VisitLayout(fs, w, t, junk, scrap);
  }

  lemma SimpleIsGuarded(fs: seq<byte>, w: World, e: Event)
    requires IsWorld(w) && ShellOk(fs) && IsLayout(LayoutOf(w)) && Simple(LayoutOf(w), e)
    ensures EventOk(fs, e) && Guard(fs, w, e) && (e.Execute? || e.Halt? || e.Switch?)
    ensures e.Execute? ==> e.command == SHELL && |e.junk| == 4
  {
    WorldHasLayout(w);
    SimpleIsOk(fs, LayoutOf(w), e);
    var l := LayoutOf(w);
    assert |Stack(l, w.current)| == |Front(w).stack|;
    if e.Switch? {
      assert w.sessions[e.terminal].None? ==> Stack(l, e.terminal) == [];
    }
    hide IsWorld, LayoutOf, ShellOk, EventOk, Live, Taken, Stack;
  }

  lemma SimpleIsOk(fs: seq<byte>, l: Layout, e: Event)
    requires ShellOk(fs) && IsLayout(l) && Simple(l, e)
    ensures EventOk(fs, e)
  {
    hide ShellOk, CommandOk, Taken;
    if e.Execute? {
      ShellIsExecutable(fs, e.junk);
    }
  }

  ghost predicate AllSimple(l: Layout, es: seq<Event>)
    requires IsLayout(l)
    decreases |es|
  {
    es == [] || (Simple(l, es[0]) && AllSimple(NextLayout(l, es[0]), es[1..]))
  }

  ghost function RunLayout(l: Layout, es: seq<Event>): (r: Layout)
    requires IsLayout(l) && AllSimple(l, es)
    ensures IsLayout(r)
    decreases |es|
  {
    if es == [] then l else RunLayout(NextLayout(l, es[0]), es[1..])
  }

  /** The kernel's run has the stacks that counting slots predicts. */
  lemma {:induction false} LayoutPlays(fs: seq<byte>, s: State, w: World, es: seq<Event>)
    requires R(fs, s, w) && ShellOk(fs) && IsLayout(LayoutOf(w)) && AllSimple(LayoutOf(w), es)
    ensures AllGuarded(fs, s, w, es)
    ensures |Play(fs, s, w, es).1.sessions| == 3 && LayoutOf(Play(fs, s, w, es).1) == RunLayout(LayoutOf(w), es)
    decreases |es|
  {
    if es == [] {
      RParts(fs, s, w);
    } else {
      SimpleStep(fs, s, w, es[0]);
      hide R, Step, After, ShellOk, Simple, NextLayout, LayoutOf, EventOk, Guard;
      LayoutPlays(fs, Step(fs, s, es[0]), After(fs, s, w, es[0]), es[1..]);
    }
  }

  /** The state and the world after boot. */
  ghost function Booted(fs: seq<byte>, s: State, junk: seq<byte>): (r: (State, World))
    requires BootOk(fs, s) && ShellOk(fs) && |junk| == 4
    ensures R(fs, r.0, r.1)
  {
    hide R, BootWorld, ExecuteStep, Sized, P.LaidOut, ShellOk, CommandOk, Executable;
    BootEstablishes(fs, s, junk);
    ShellIsExecutable(fs, junk);
    BootIsSized(fs, s);
    (ExecuteStep(fs, s, SHELL, junk).0, BootWorld(fs, s))
  }

  lemma BootIsSized(fs: seq<byte>, s: State)
    requires BootOk(fs, s)
    ensures Sized(fs, s)
  {
  }

  lemma BootedLayout(fs: seq<byte>, s: State, junk: seq<byte>)
    requires BootOk(fs, s) && ShellOk(fs) && |junk| == 4
    ensures |Booted(fs, s, junk).1.sessions| == 3 && LayoutOf(Booted(fs, s, junk).1) == Layout([0], [], [], 0)
  {
    hide R, ExecuteStep, Sized, ShellOk, CommandOk, Executable, P.LaidOut;
    BootLayout(fs, s);
  }

  lemma BootLayout(fs: seq<byte>, s: State)
    requires BootOk(fs, s) && ShellOk(fs)
    ensures |BootWorld(fs, s).sessions| == 3 && LayoutOf(BootWorld(fs, s)) == Layout([0], [], [], 0)
  {
    var w := BootWorld(fs, s);
    hide ShellOk, Started, Sized;
    assert SlotsIn(StackOf(w, 0)) == [0];
  }

  // ---------------------------------------------------------------- a base shell that exits too early

  /** A second shell in terminal 0; a first visit to terminal 1; back, end the second shell, and there again. */
  function EarlyExit(junk: seq<byte>): seq<Event> {
    [Execute(SHELL, junk), Switch(1, junk), Switch(0, junk), Halt(junk), Switch(1, junk)]
  }

  lemma EarlyExitLayout(junk: seq<byte>)
    requires |junk| == 4
    ensures AllSimple(Layout([0], [], [], 0), EarlyExit(junk))
    ensures RunLayout(Layout([0], [], [], 0), EarlyExit(junk)) == Layout([0], [2], [], 1)
  {
    var es := EarlyExit(junk);
    var (l0, l1, l2) := (Layout([0], [], [], 0), Layout([0, 1], [], [], 0), Layout([0, 1], [2], [], 1));
    var (l3, l4, l5) := (l2.(current := 0), Layout([0], [2], [], 0), Layout([0], [2], [], 1));
    LeastOfThree();
    StepsTo(l0, es, l1);
    assert [0, 1][..1] == [0];
    StepsTo(l1, es[1..], l2);
    StepsTo(l2, es[2..], l3);
    StepsTo(l3, es[3..], l4);
    StepsTo(l4, es[4..], l5);
  }

  lemma LeastOfThree()
    ensures LeastFree(Taken(Layout([0], [], [], 0)), 0) == Some(1)
    ensures LeastFree(Taken(Layout([0, 1], [], [], 0)), 0) == Some(2)
  {
    assert Taken(Layout([0], [], [], 0)) == {0};
    assert Taken(Layout([0, 1], [], [], 0)) == {0, 1};
  }

  lemma StepsTo(l: Layout, es: seq<Event>, l2: Layout)
    requires IsLayout(l) && es != [] && Simple(l, es[0]) && NextLayout(l, es[0]) == l2
    ensures AllSimple(l, es) <==> AllSimple(l2, es[1..])
    ensures AllSimple(l, es) ==> RunLayout(l, es) == RunLayout(l2, es[1..])
  {
  }

  /** From boot, a run that leads to a base shell whose exit leaves no proper state. */
  lemma BaseExitCanFail(fs: seq<byte>, s0: State, junk: seq<byte>)
    requires BootOk(fs, s0) && ShellOk(fs) && |junk| == 4
    ensures var (s, w) := Booted(fs, s0, junk);
            AllGuarded(fs, s, w, EarlyExit(junk))
            && var s2 := Play(fs, s, w, EarlyExit(junk)).0;
               Sized(fs, s2) && !exists w3 :: R(fs, HaltStep(fs, s2, junk), w3)
  {
    hide Booted, BootOk, ShellOk, R, HaltStep;
    var (s, w) := Booted(fs, s0, junk);
    BootedLayout(fs, s0, junk);
    EarlyExitLayout(junk);
    LayoutPlays(fs, s, w, EarlyExit(junk));
    var (s2, w2) := Play(fs, s, w, EarlyExit(junk));
    hide Play, AllGuarded, RunLayout, AllSimple, EarlyExit;
    EarlyExitFails(fs, s2, w2, junk);
  }

  lemma EarlyExitFails(fs: seq<byte>, s: State, w: World, junk: seq<byte>)
    requires R(fs, s, w) && ShellOk(fs) && |junk| == 4
    requires |w.sessions| == 3 && LayoutOf(w) == Layout([0], [2], [], 1)
    ensures Sized(fs, s) && !exists w3 :: R(fs, HaltStep(fs, s, junk), w3)
  {
    RParts(fs, s, w);
    WorldHasLayout(w);
    NotTaken(LayoutOf(w));
    assert !Busy(s.processes, 1);
    assert SlotsIn(Front(w).stack) == [2] && [2][0] == 2 && Top(Front(w)).slot == 2;
    hide Sized, IsWorld, SlotsMatch, ShellOk, HaltStep, Taken;
    BaseExitNeedsLowerSlots(fs, s, w, junk);
  }

  lemma NotTaken(l: Layout)
    requires l == Layout([0], [2], [], 1)
    ensures 1 !in Taken(l)
  {
  }

  // ---------------------------------------------------------------- a first visit to a full machine

  /** n more shells. */
  function Shells(junk: seq<byte>, n: nat): (es: seq<Event>)
    ensures |es| == n
  {
    if n == 0 then [] else [Execute(SHELL, junk)] + Shells(junk, n - 1)
  }

  predicate CountsUp(s: seq<nat>, n: nat) {
    |s| == n && forall i :: 0 <= i < n ==> s[i] == i
  }

  lemma {:induction false} ShellsLayout(junk: seq<byte>, s: seq<nat>, n: nat)
    requires |junk| == 4 && n < 6 && CountsUp(s, 6 - n)
    ensures var l := Layout(s, [], [], 0);
            && AllSimple(l, Shells(junk, n))
            && var r := RunLayout(l, Shells(junk, n));
               r == Layout(r.a, [], [], 0) && CountsUp(r.a, 6)
    decreases n
  {
    if n > 0 {
      OneMore(s, 6 - n);
      var l2 := Layout(s + [6 - n], [], [], 0);
      ShellsLayout(junk, s + [6 - n], n - 1);
      assert Shells(junk, n)[1..] == Shells(junk, n - 1);
      hide Taken, CountsUp;
      StepsTo(Layout(s, [], [], 0), Shells(junk, n), l2);
    }
  }

  lemma OneMore(s: seq<nat>, n: nat)
    requires 0 < n < 6 && CountsUp(s, n)
    ensures LeastFree(Taken(Layout(s, [], [], 0)), 0) == Some(n)
  {
    var taken := Taken(Layout(s, [], [], 0));
    forall i: nat | i < 6 ensures i in taken <==> i < n {
      assert i < n ==> s[i] in s;
    }
  }

  /** From boot, a run that takes all six slots: a first visit to another terminal leaves no proper state. */
  lemma FirstVisitCanFail(fs: seq<byte>, s0: State, junk: seq<byte>)
    requires BootOk(fs, s0) && ShellOk(fs) && |junk| == 4
    ensures var (s, w) := Booted(fs, s0, junk);
            AllGuarded(fs, s, w, Shells(junk, 5))
            && var s2 := Play(fs, s, w, Shells(junk, 5)).0;
               Sized(fs, s2) && !exists w3 :: R(fs, SwitchStep(fs, s2, 1, junk), w3)
  {
    hide Booted, BootOk, ShellOk, R, SwitchStep;
    var (s, w) := Booted(fs, s0, junk);
    BootedLayout(fs, s0, junk);
    ShellsLayout(junk, [0], 5);
    LayoutPlays(fs, s, w, Shells(junk, 5));
    var (s2, w2) := Play(fs, s, w, Shells(junk, 5));
    hide Play, AllGuarded, RunLayout, AllSimple;
    FullHouseFails(fs, s2, w2, junk);
  }

  lemma FullHouseFails(fs: seq<byte>, s: State, w: World, junk: seq<byte>)
    requires R(fs, s, w) && ShellOk(fs) && |junk| == 4 && |w.sessions| == 3
    requires var l := LayoutOf(w); l.b == [] && CountsUp(l.a, 6)
    ensures Sized(fs, s) && !exists w3 :: R(fs, SwitchStep(fs, s, 1, junk), w3)
  {
    RParts(fs, s, w);
    WorldHasLayout(w);
    assert TermMatches(fs, s, w, 1);
    forall p | 0 <= p < 6 ensures Busy(s.processes, p) {
      assert LayoutOf(w).a[p] == p && p in Taken(LayoutOf(w));
    }
    hide Sized, IsWorld, SlotsMatch, ShellOk, SwitchStep;
    AllBusyIsFull(s.processes);
    FirstVisitNeedsFreeSlot(fs, s, w, 1, junk);
  }

  // ---------------------------------------------------------------- a buffer on somebody else's screen

  /** From boot, after a first visit to terminal 1, one byte that a call stores at 0xB9000 is felt in terminal 0. */
  lemma SavedScreenCanBeLost(fs: seq<byte>, s0: State, junk: seq<byte>)
    requires BootOk(fs, s0) && ShellOk(fs) && |junk| == 4
    ensures var (s, w) := Booted(fs, s0, junk);
            AllGuarded(fs, s, w, [Switch(1, junk)])
            && var (s2, w2) := Play(fs, s, w, [Switch(1, junk)]);
               P.Shape(s2.paging) && FrontReady(w2) && exists b: byte :: !FillsProperly(fs, s2, w2, 0xB_9000, [b])
  {
    hide Booted, BootOk, ShellOk, R;
    var (s, w) := Booted(fs, s0, junk);
    BootedLayout(fs, s0, junk);
    var es := [Switch(1, junk)];
    LeastOfThree();
    StepsTo(Layout([0], [], [], 0), es, Layout([0], [1], [], 1));
    assert es[1..] == [];
    LayoutPlays(fs, s, w, es);
    var (s2, w2) := Play(fs, s, w, es);
    hide Play, AllGuarded, RunLayout, AllSimple;
    RParts(fs, s2, w2);
    WorldHasLayout(w2);
    SavedScreenIsNotSafe(fs, s2, w2, 0);
  }

  // ---------------------------------------------------------------- output that runs on into somebody else's screen

  lemma {:induction false} PlayBoth(fs: seq<byte>, s: State, w: World, a: seq<Event>, b: seq<Event>)
    requires R(fs, s, w) && AllGuarded(fs, s, w, a)
    requires var (s1, w1) := Play(fs, s, w, a); AllGuarded(fs, s1, w1, b)
    ensures AllGuarded(fs, s, w, a + b)
    ensures var (s1, w1) := Play(fs, s, w, a); Play(fs, s, w, a + b) == Play(fs, s1, w1, b)
    decreases |a|
  {
    hide R, Step, After, EventOk, Guard;
    if a == [] {
      assert [] + b == b;
    } else {
      assert (a + b)[0] == a[0] && (a + b)[1..] == a[1..] + b;
      RParts(fs, s, w);
      StepSimulates(fs, s, w, a[0]);
      PlayBoth(fs, Step(fs, s, a[0]), After(fs, s, w, a[0]), a[1..], b);
    }
  }

  /** n times the same key. */
  function Presses(scancode: byte, n: nat): (es: seq<Event>)
    ensures |es| == n
  {
    if n == 0 then [] else [Interrupt(scancode)] + Presses(scancode, n - 1)
  }

  /** Terminal 1 is in front, terminal 0 is in use, and the cursor is here with so much typed. */
  ghost predicate Typing(w: World, x: nat, y: nat, typed: nat) {
    && FrontReady(w) && w.current == 1 && w.sessions[0].Some?
    && Front(w).view.x == x && Front(w).view.y == y && w.board.typed == typed && !w.board.ctrl
  }

  lemma PressKey(fs: seq<byte>, s: State, w: World, scancode: byte, x: nat, y: nat, typed: nat)
    requires R(fs, s, w) && ShellOk(fs) && Typing(w, x, y, typed) && y < 25 && x < 80
    requires (scancode == ENTER && y < 24) || (scancode == A_KEY && typed < 128)
    ensures IsWorld(w) && EventOk(fs, Interrupt(scancode)) && Guard(fs, w, Interrupt(scancode))
    ensures var w1 := After(fs, s, w, Interrupt(scancode));
            && R(fs, Step(fs, s, Interrupt(scancode)), w1)
            && if scancode == ENTER then Typing(w1, 0, y + 1, 0) else Typing(w1, x + 1, y, typed + 1)
  {
    hide R, ShellOk, Typing, Guard, Step, After, KeyOn;
    RParts(fs, s, w);
    KeyGuarded(fs, w, scancode, x, y, typed);
    StepSimulates(fs, s, w, Interrupt(scancode));
    AfterKey(fs, s, w, scancode, x, y, typed);
    KeyTypes(w, scancode, x, y, typed, FewSlots(w));
  }

  lemma KeyGuarded(fs: seq<byte>, w: World, scancode: byte, x: nat, y: nat, typed: nat)
    requires IsWorld(w) && ShellOk(fs) && Typing(w, x, y, typed) && (scancode == ENTER || scancode == A_KEY)
    ensures EventOk(fs, Interrupt(scancode)) && Guard(fs, w, Interrupt(scancode)) && FrontReady(w)
  {
    hide ShellOk, IsWorld, FewSlots, WriteSafe;
  }

  lemma KeyTypes(w: World, scancode: byte, x: nat, y: nat, typed: nat, crowded: bool)
    requires Typing(w, x, y, typed) && y < 25 && x < 80 && FrontReady(w)
    requires (scancode == ENTER && y < 24) || (scancode == A_KEY && typed < 128)
    ensures var w1 := Faced(w, KeyOn(Facing(w), scancode, crowded));
            if scancode == ENTER then Typing(w1, 0, y + 1, 0) else Typing(w1, x + 1, y, typed + 1)
  {
    PressedKey(Facing(w), scancode, crowded);
    hide KeyOn;
  }

  lemma AfterKey(fs: seq<byte>, s: State, w: World, scancode: byte, x: nat, y: nat, typed: nat)
    requires R(fs, s, w) && EventOk(fs, Interrupt(scancode)) && Typing(w, x, y, typed) && FrontReady(w)
    ensures After(fs, s, w, Interrupt(scancode)) == Faced(w, KeyOn(Facing(w), scancode, FewSlots(w)))
  {
    hide R, ShellOk, Scrap, Faced, Facing, KeyOn, FewSlots;
    RParts(fs, s, w);
    TopTableGood(fs, s, w);
  }

  /** Enter goes to the start of the next row, a letter to the next column. */
  lemma PressedKey(c: Console, scancode: byte, crowded: bool)
    requires IsConsole(c) && !c.display.lost && !c.board.ctrl && OnScreen(c.display.x, c.display.y)
    requires (scancode == ENTER && c.display.y < 24) || (scancode == A_KEY && c.board.typed < 128)
    ensures var e := KeyOn(c, scancode, crowded);
            && e.board.ctrl == c.board.ctrl
            && if scancode == ENTER then e.display.x == 0 && e.display.y == c.display.y + 1 && e.board.typed == 0
               else e.display.x == c.display.x + 1 && e.display.y == c.display.y && e.board.typed == c.board.typed + 1
  {
    hide KeyChar, StoreCell, Scrolled;
  }

  /** Enter after Enter, the first of which forgets what was typed before. */
  lemma {:induction false} PressEnters(fs: seq<byte>, s: State, w: World, y: nat, typed: nat, n: nat)
    requires R(fs, s, w) && ShellOk(fs) && Typing(w, 0, y, typed) && y + n <= 24
    ensures AllGuarded(fs, s, w, Presses(ENTER, n))
    ensures Typing(Play(fs, s, w, Presses(ENTER, n)).1, 0, y + n, if n == 0 then typed else 0)
    decreases n
  {
    hide R, Step, After, EventOk, Guard, ShellOk, Typing;
    if n > 0 {
      RParts(fs, s, w);
      PressKey(fs, s, w, ENTER, 0, y, typed);
      assert Presses(ENTER, n)[1..] == Presses(ENTER, n - 1);
      PressEnters(fs, Step(fs, s, Interrupt(ENTER)), After(fs, s, w, Interrupt(ENTER)), y + 1, 0, n - 1);
    }
  }

  lemma {:induction false} PressLetters(fs: seq<byte>, s: State, w: World, x: nat, n: nat)
    requires R(fs, s, w) && ShellOk(fs) && Typing(w, x, 24, x) && x + n <= 80
    ensures AllGuarded(fs, s, w, Presses(A_KEY, n))
    ensures Typing(Play(fs, s, w, Presses(A_KEY, n)).1, x + n, 24, x + n)
    decreases n
  {
    hide R, Step, After, EventOk, Guard, ShellOk, Typing;
    if n > 0 {
      RParts(fs, s, w);
      PressKey(fs, s, w, A_KEY, x, 24, x);
      assert Presses(A_KEY, n)[1..] == Presses(A_KEY, n - 1);
      PressLetters(fs, Step(fs, s, Interrupt(A_KEY)), After(fs, s, w, Interrupt(A_KEY)), x + 1, n - 1);
    }
  }

  /** A first visit to terminal 1, Enter down to the bottom row, and a row of letters. */
  function TypedRow(junk: seq<byte>): seq<Event> {
    [Switch(1, junk)] + (Presses(ENTER, 24) + Presses(A_KEY, 80))
  }

  lemma FirstVisitTypes(fs: seq<byte>, s0: State, junk: seq<byte>)
    requires BootOk(fs, s0) && ShellOk(fs) && |junk| == 4
    ensures var (s, w) := Booted(fs, s0, junk);
            AllGuarded(fs, s, w, [Switch(1, junk)])
            && var w1 := Play(fs, s, w, [Switch(1, junk)]).1;
               Typing(w1, 0, 0, w1.board.typed)
  {
    hide R, Step, After, ShellOk, EventOk, Guard, Booted, BootOk, Typing;
    var (s, w) := Booted(fs, s0, junk);
    var e := Switch(1, junk);
    VisitsOne(fs, s0, junk);
    OneEvent(fs, s, w, e);
  }

  lemma OneEvent(fs: seq<byte>, s: State, w: World, e: Event)
    requires R(fs, s, w) && IsWorld(w) && EventOk(fs, e) && Guard(fs, w, e) && R(fs, Step(fs, s, e), After(fs, s, w, e))
    requires Sized(fs, s)
    ensures AllGuarded(fs, s, w, [e]) && Play(fs, s, w, [e]) == (Step(fs, s, e), After(fs, s, w, e))
  {
    hide R, Step, After, EventOk, Guard, Sized, IsWorld;
    assert [e][1..] == [];
  }

  lemma VisitsOne(fs: seq<byte>, s0: State, junk: seq<byte>)
    requires BootOk(fs, s0) && ShellOk(fs) && |junk| == 4
    ensures var ((s, w), e) := (Booted(fs, s0, junk), Switch(1, junk));
            && Sized(fs, s) && IsWorld(w) && EventOk(fs, e) && Guard(fs, w, e)
            && R(fs, Step(fs, s, e), After(fs, s, w, e))
            && Typing(After(fs, s, w, e), 0, 0, After(fs, s, w, e).board.typed)
  {
    hide R, Step, ShellOk, EventOk, Guard, Booted, BootOk, After;
    var (s, w) := Booted(fs, s0, junk);
    var e := Switch(1, junk);
    BootedLayout(fs, s0, junk);
    LeastOfThree();
    RParts(fs, s, w);
    WorldHasLayout(w);
    assert Stack(LayoutOf(w), 1) == [] && Stack(LayoutOf(w), 0) == [0];
    SimpleStep(fs, s, w, e);
    AfterSwitch(fs, s, w, e);
    SameAsFacing(fs, Step(fs, s, e), After(fs, s, w, e));
    FirstVisitView(fs, w, Scrap(fs, s, e));
  }

  lemma FirstVisitView(fs: seq<byte>, w: World, scrap: seq<byte>)
    requires IsWorld(w) && ShellOk(fs) && |scrap| == 0x40_0000 && w.sessions[1].None? && LeastFree(Live(w), 0).Some?
    ensures var w1 := Visit(fs, w, 1, scrap);
            && w1.current == 1 && w1.sessions[1].Some? && w1.sessions[0].Some? && !w1.board.ctrl
            && w1.sessions[1].value.view.x == 0 && w1.sessions[1].value.view.y == 0
  {
    hide ShellOk, Live, Started, BlankCells;
  }

  /**
   * From boot, after a first visit to terminal 1, 24 times Enter and 80 letters: 49 characters that a program
   * writes there are felt in terminal 0.
   */
  lemma OutputCanSpill(fs: seq<byte>, s0: State, junk: seq<byte>)
    requires BootOk(fs, s0) && ShellOk(fs) && |junk| == 4
    ensures var (s, w) := Booted(fs, s0, junk);
            AllGuarded(fs, s, w, TypedRow(junk))
            && var (s2, w2) := Play(fs, s, w, TypedRow(junk));
               exists ch: byte :: ch >= 32 && !WritesProperly(fs, s2, w2, Repeated(ch, 49))
  {
    hide Booted, BootOk, ShellOk, R, Typing, Play, AllGuarded, Presses, WritesProperly, TypedRow;
    var (s, w) := Booted(fs, s0, junk);
    FirstVisitTypes(fs, s0, junk);
    var (s1, w1) := Play(fs, s, w, [Switch(1, junk)]);
    PressEnters(fs, s1, w1, 0, w1.board.typed, 24);
    var (s3, w3) := Play(fs, s1, w1, Presses(ENTER, 24));
    PressLetters(fs, s3, w3, 0, 80);
    PlayBoth(fs, s1, w1, Presses(ENTER, 24), Presses(A_KEY, 80));
    PlayBoth(fs, s, w, [Switch(1, junk)], Presses(ENTER, 24) + Presses(A_KEY, 80));
    assert TypedRow(junk) == [Switch(1, junk)] + (Presses(ENTER, 24) + Presses(A_KEY, 80)) by {
      TypedRowIs(junk);
    }
    var (s2, w2) := Play(fs, s, w, TypedRow(junk));
    RowSpills(fs, s2, w2);
  }

  lemma TypedRowIs(junk: seq<byte>)
    ensures TypedRow(junk) == [Switch(1, junk)] + (Presses(ENTER, 24) + Presses(A_KEY, 80))
  {
  }

  lemma RowSpills(fs: seq<byte>, s: State, w: World)
    requires R(fs, s, w) && Typing(w, 80, 24, 80)
    ensures exists ch: byte :: ch >= 32 && !WritesProperly(fs, s, w, Repeated(ch, 49))
  {
    SameAsFacing(fs, s, w);
    hide R, WritesProperly;
    var at := VIDEO + 2 * (80 * 24 + 80);
    assert At(at, 96) == SavedScreen(0) && !SafeTarget(w, At(at, 96));
    SpillIsFelt(fs, s, w, 49, 96);
  }
}
