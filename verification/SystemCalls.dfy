/** The kernel object from boot on: it always stands for three independent terminals. */
module SystemCalls {
  import opened Bytes
  import opened Descriptors
  import opened FileSystem
  import opened CommandLine
  import opened Memory
  import opened Keyboards
  import opened Machine
  import opened Sessions
  import opened Refinement
  import opened Simulation
  import opened ConsoleSteps
  import opened Steps
  import opened Buffers
  import opened Runs
  import opened Kernel
  import P = Paging

  /** Paging on, then the first shell. */
  method Boot(fs: seq<byte>, mem: array<byte>, paging: P.PageTables, junk: seq<byte>)
    returns (k: Kernel, ghost w: World)
    requires ShellOk(fs) && |junk| == 4 && mem.Length == 0x200_0000
    requires paging.Valid() && forall i :: 1 <= i < 1024 ==> paging.videoTable[i] == 0
    modifies mem, paging.directories, paging.pageTable
    ensures k.Valid() && k.fs == fs && R(fs, k.Value(), w)
    ensures w.current == 0 && |StackOf(w, 0)| == 1 && w.sessions[1].None? && w.sessions[2].None?
  {
    hide BootOk, R, ShellOk, P.LaidOut, ExecuteStep, Sized, CommandOk, BootWorld;
    paging.EnablePaging();
    k := new Kernel(fs, mem, paging);
    ghost var s := k.Value();
    w := BootWorld(fs, s);
    BootReady(fs, s, junk);
    BootEstablishes(fs, s, junk);
    var r := k.Execute(SHELL, junk);
  }

  lemma BootReady(fs: seq<byte>, s: State, junk: seq<byte>)
    requires BootOk(fs, s) && ShellOk(fs) && |junk| == 4
    ensures Sized(fs, s) && CommandOk(fs, SHELL, junk)
    ensures var w := BootWorld(fs, s);
            w.current == 0 && |w.sessions| == 3 && |StackOf(w, 0)| == 1 && w.sessions[1].None? && w.sessions[2].None?
  {
    hide Sized, ShellOk, CommandOk, Started, FrameOf;
    ShellIsExecutable(fs, junk);
  }

  /**
   * The events that are calls into the kernel, rather than what programs and hardware do by themselves;
   * reads on other devices than files are deliveries.
   */
  ghost predicate IsCall(w: World, e: Event)
    requires IsWorld(w)
  {
    && !e.Registers? && !e.Store?
    && (e.Read? ==> e.fd < 8 && Top(Front(w)).table[e.fd].inUse ==> Top(Front(w)).table[e.fd].table.FileOps?)
  }

  /**
   * Every call, made in any state the kernel can be in, takes the machine's step and leaves the kernel
   * standing for the world after that step. No pointer it follows is NULL.
   */
  method Perform(k: Kernel, e: Event, ghost w: World) returns (ghost w2: World)
    requires k.Valid() && R(k.fs, k.Value(), w) && EventOk(k.fs, e) && Guard(k.fs, w, e) && IsCall(w, e)
    modifies k, k.mem, k.pcbs, k.fds, k.terms, k.console, k.console.inputBuffer, k.console.tempBuffer
    modifies k.paging.directories, k.paging.videoTable
    ensures k.Valid() && k.Value() == Step(k.fs, old(k.Value()), e)
    ensures w2 == After(k.fs, old(k.Value()), w, e) && R(k.fs, k.Value(), w2)
  {
    ghost var s := k.Value();
    SafeIsReachable(k.fs, s, w, e);
    hide R, After, Step, Sized, P.Shape, EventOk, Guard, IsCall, TablesOf, CallReady;
    StepSimulates(k.fs, s, w, e);
    w2 := After(k.fs, s, w, e);
    Dispatch(k, e);
  }

  /** What the calls need of the state: no NULL pointers to follow, and buffers that lead somewhere. */
  ghost predicate CallReady(fs: seq<byte>, s: State, e: Event)
    requires Sized(fs, s)
  {
    && (forall t :: 0 <= t < 3 && s.terms[t].beenHere ==> s.terms[t].running.Some?)
    && s.terms[s.current].running.Some? && s.terms[s.current].running.value < 6
    && var (running, table) := (s.terms[s.current].running.value, s.tables[s.terms[s.current].running.value]);
       && (IsBase(s.pcbs[running]) || s.pcbs[running].parentPcb.Some?)
       && (e.Deliver? ==> Reachable(s.paging, e.buffer, |e.data|, |s.mem|))
       && (e.VidMap? && InImage(e.pointer) ==> Reachable(MapVideo(s).paging, e.pointer, 4, |s.mem|))
       && (e.Read? && e.fd < 8 && table[e.fd].inUse ==> table[e.fd].table.FileOps?)
       && (e.Read? && IsFile(table, e.fd) && e.buffer != 0 ==> Reachable(s.paging, e.buffer, e.n, |s.mem|))
       && (e.ReadLine? && s.board.canRead ==>
             && s.board.oldTyped < 128
             && Reachable(s.paging, e.buffer, |LineBytes(s.board, e.n, e.beyond)|, |s.mem|))
  }

  method Dispatch(k: Kernel, e: Event)
    requires k.Valid() && Sized(k.fs, k.Value()) && EventOk(k.fs, e) && CallReady(k.fs, k.Value(), e)
    requires !e.Registers? && !e.Store?
    modifies k, k.mem, k.pcbs, k.fds, k.terms, k.console, k.console.inputBuffer, k.console.tempBuffer
    modifies k.paging.directories, k.paging.videoTable
    ensures k.Valid() && k.Value() == Step(k.fs, old(k.Value()), e)
  {
    hide ExecuteStep, HaltStep, SwitchStep, DescriptorStep, ReadFileStep, DeliverStep, VidMapStep, Sized, P.Shape,
      CommandOk, GoodImage, ShellOk, TablesOf, Reachable, MapVideo, WriteStep, InterruptStep, ReadLineStep, LineBytes;
    if e.Execute? || e.Halt? || e.Switch? {
      DispatchProcess(k, e);
    } else {
      DispatchOther(k, e);
    }
  }

  method DispatchProcess(k: Kernel, e: Event)
    requires k.Valid() && Sized(k.fs, k.Value()) && EventOk(k.fs, e) && CallReady(k.fs, k.Value(), e)
    requires e.Execute? || e.Halt? || e.Switch?
    modifies k, k.mem, k.pcbs, k.fds, k.terms, k.console, k.console.inputBuffer, k.paging.directories
    ensures k.Valid() && k.Value() == Step(k.fs, old(k.Value()), e)
  {
    hide ExecuteStep, HaltStep, SwitchStep, Sized, P.Shape, CommandOk, GoodImage, ShellOk, TablesOf, Reachable;
    assert forall t :: 0 <= t < 3 ==> k.Value().terms[t] == k.terms[t];
    assert forall p :: 0 <= p < 6 ==> k.Value().pcbs[p] == k.pcbs[p];
    match e {
      case Execute(command, junk) => var r := k.Execute(command, junk);
      case Halt(junk) => k.Halt(junk);
      case Switch(t, junk) => k.SwitchToOtherTerm(t, junk);
    }
  }

  method DispatchOther(k: Kernel, e: Event)
    requires k.Valid() && Sized(k.fs, k.Value()) && EventOk(k.fs, e) && CallReady(k.fs, k.Value(), e)
    requires !e.Registers? && !e.Store? && !e.Execute? && !e.Halt? && !e.Switch?
    modifies k.mem, k.fds, k.terms, k.console, k.console.inputBuffer, k.console.tempBuffer
    modifies k.paging.directories, k.paging.videoTable
    ensures k.Valid() && k.Value() == Step(k.fs, old(k.Value()), e)
  {
    assert k.Value().intact;
    hide DescriptorStep, ReadFileStep, DeliverStep, VidMapStep, Sized, P.Shape, GoodImage, ShellOk, TablesOf, Reachable,
      MapVideo, WriteStep, InterruptStep, ReadLineStep, LineBytes;
    assert k.Value().terms[k.currentTerminal] == k.terms[k.currentTerminal];
    match e {
      case Interrupt(scancode) => k.KeyInterrupt(scancode);
      case Write(bytes) => k.TerminalWrite(bytes);
      case ReadLine(buffer, n, beyond) => k.ReadLine(buffer, n, beyond);
      case VidMap(pointer) => var r := k.VidMap(pointer);
      case Descriptor(call) => PerformCall(k, call);
      case Read(fd, buffer, n) => var cnt := k.Read(fd, buffer, n);
      case Deliver(buffer, data) => k.Deliver(buffer, data);
    }
  }

  /** Safe addresses lead somewhere. */
  lemma BufferReachable(fs: seq<byte>, s: State, w: World, buffer: word, n: nat)
    requires R(fs, s, w) && SafeBuffer(w, buffer, n)
    ensures P.Shape(s.paging) && Reachable(s.paging, buffer, n, |s.mem|)
  {
    SizedParts(fs, s);
    forall i | 0 <= i < n ensures KernelTarget(s.paging, At(buffer, i), |s.mem|).Some? {
      assert SafeTarget(w, At(buffer, i));
      KernelLands(fs, s, w, At(buffer, i));
    }
  }

  lemma SafeIsReachable(fs: seq<byte>, s: State, w: World, e: Event)
    requires R(fs, s, w) && EventOk(fs, e) && Guard(fs, w, e) && IsCall(w, e)
    ensures Sized(fs, s) && CallReady(fs, s, e)
  {
    SizedParts(fs, s);
    TopLinked(fs, s, w);
    RunningIsThere(fs, s, w);
    hide Reachable, SafeBuffer, ShellOk, P.LaidOut, TermMatches, SlotsMatch, P.Shape, GoodFile;
    match e
    case Deliver(buffer, data) => BufferReachable(fs, s, w, buffer, |data|);
    case Read(fd, buffer, n) =>
      if IsFile(Top(Front(w)).table, fd) && buffer != 0 {
        BufferReachable(fs, s, w, buffer, n);
      }
    case ReadLine(buffer, n, beyond) =>
      if w.board.canRead {
        BufferReachable(fs, s, w, buffer, |LineBytes(w.board, n, beyond)|);
      }
    case VidMap(pointer) => PointerReachable(fs, s, w, pointer);
    case _ =>
  }

  lemma PointerReachable(fs: seq<byte>, s: State, w: World, pointer: word)
    requires R(fs, s, w)
    ensures P.Shape(s.paging) && (InImage(pointer) ==> Reachable(MapVideo(s).paging, pointer, 4, |s.mem|))
  {
    SizedParts(fs, s);
    MapVideoSimulates(fs, s, w);
    hide R, P.Shape;
    if InImage(pointer) {
      assert SafeBuffer(w.(video := true), pointer, 4);
      BufferReachable(fs, MapVideo(s), w.(video := true), pointer, 4);
    }
  }

  method PerformCall(k: Kernel, call: Call)
    requires k.Valid() && Sized(k.fs, k.Value()) && CallOk(k.fs, call) && !call.ReadCall?
    requires k.terms[k.currentTerminal].running.Some?
    modifies k.fds
    ensures k.Valid() && k.Value() == DescriptorStep(k.fs, old(k.Value()), call)
  {
    match call {
      case OpenCall(name) => var fd := k.OpenFile(name);
      case CloseCall(fd) => var r := k.CloseFile(fd);
    }
  }

  lemma RunningIsThere(fs: seq<byte>, s: State, w: World)
    requires R(fs, s, w)
    ensures Sized(fs, s) && |s.terms| == 3 && s.current < 3 && |s.pcbs| == 6
    ensures forall t :: 0 <= t < 3 && s.terms[t].beenHere ==> s.terms[t].running.Some?
    ensures var running := s.terms[s.current].running;
            running.Some? && running.value < 6
            && (IsBase(s.pcbs[running.value]) || s.pcbs[running.value].parentPcb.Some?)
  {
    TopLinked(fs, s, w);
    forall t | 0 <= t < 3 && s.terms[t].beenHere ensures s.terms[t].running.Some? {
      assert TermMatches(fs, s, w, t);
    }
  }

  // ---------------------------------------------------------------- arguments

  /** getargs by the program in front, into its own image: the arguments it was started with. */
  method AskArguments(k: Kernel, buffer: word, nbytes: int, literal: seq<byte>, ghost w: World)
    returns (r: int, ghost stored: seq<byte>, ghost w2: World)
    requires k.Valid() && R(k.fs, k.Value(), w) && FrontReady(w) && |literal| >= k.mem.Length
    requires 0x800_0000 <= buffer && buffer + 95 <= 0x840_0000
    requires exists i :: buffer - 0x800_0000 <= i < 0x40_0000 && Top(Front(w)).memory[i] == 0
    modifies k.mem
    ensures k.Valid() && R(k.fs, k.Value(), w2) && FrontReady(w) && w2 == Filled(w, buffer, stored)
    ensures var args := CStr(Top(Front(w)).args);
            if args == [] || nbytes <= 0 then r == -1 && stored == []
            else r == 0 && |stored| >= 95 && stored[..95] == Pad(args, 95)
  {
    ghost var s := k.Value();
    AskReady(k.fs, s, w, buffer);
    assert k.terms[k.currentTerminal] == s.terms[s.current];
    assert forall p :: 0 <= p < 6 ==> k.pcbs[p] == s.pcbs[p];
    assert k.paging.directories[0x20] == s.paging.directory[0x20];
    hide R, P.Shape, Sized, FrontReady, TablesOf, CStr, Pad, DeliverStep, Filled, P.ImageEntry;
    r, stored := k.GetArgs(buffer, nbytes, literal);
    ImageIsSafe(w, buffer, |stored|);
    DeliverSimulates(k.fs, s, w, buffer, stored);
    w2 := Filled(w, buffer, stored);
  }

  lemma AskReady(fs: seq<byte>, s: State, w: World, buffer: word)
    requires R(fs, s, w) && FrontReady(w) && 0x800_0000 <= buffer && buffer + 95 <= 0x840_0000
    requires exists i :: buffer - 0x800_0000 <= i < 0x40_0000 && Top(Front(w)).memory[i] == 0
    ensures |s.terms| == 3 && s.current < 3 && |s.pcbs| == 6 && P.Shape(s.paging) && IsMemory(s.mem)
    ensures var running := s.terms[s.current].running;
            && running.Some? && running.value < 6
            && var pcb := s.pcbs[running.value];
               && |pcb.args| == 95 && 0 in pcb.args && pcb.processNum < 6 && pcb.args == Top(Front(w)).args
               && s.paging.directory[0x20] == P.ImageEntry(pcb.processNum)
               && var at := FrameAt(pcb.processNum) + (buffer - 0x800_0000);
                  exists k :: at <= k < FrameAt(pcb.processNum) + 0x40_0000 && s.mem[k] == 0
  {
    TopLinked(fs, s, w);
    SizedParts(fs, s);
    var p := Top(Front(w)).slot;
    BitsAreParentChains(fs, s, w, p);
    var i :| buffer - 0x800_0000 <= i < 0x40_0000 && Top(Front(w)).memory[i] == 0;
    assert FrameOf(s.mem, p)[i] == s.mem[FrameAt(p) + i];
    assert s.pcbs[p].args[94] == 0;
  }

  /** Right after a successful execute these are the arguments of the command. */
  lemma FreshArguments(fs: seq<byte>, s: State, w: World, command: seq<byte>, junk: seq<byte>)
    requires R(fs, s, w) && EventOk(fs, Execute(command, junk)) && Guard(fs, w, Execute(command, junk))
    requires Executable(fs, FileName(command), junk).Some? && LeastFree(Live(w), 0).Some?
    ensures var w1 := After(fs, s, w, Execute(command, junk));
            && FrontReady(w1) && R(fs, Step(fs, s, Execute(command, junk)), w1)
            && Top(Front(w1)).args == Pad(Args(command), 95) && CStr(Top(Front(w1)).args) == Args(command)
  {
    StepSimulates(fs, s, w, Execute(command, junk));
    ArgsHaveNoNul(command);
    CStrOfPad(Args(command), 95);
    FreshTop(fs, s, w, command, junk);
    hide R, Step, After, Guard, EventOk, CStr, Pad, Args, FrontReady, Executable, Live;
    SameAsFacing(fs, Step(fs, s, Execute(command, junk)), After(fs, s, w, Execute(command, junk)));
  }

  lemma FreshTop(fs: seq<byte>, s: State, w: World, command: seq<byte>, junk: seq<byte>)
    requires R(fs, s, w) && EventOk(fs, Execute(command, junk)) && IsWorld(w)
    requires Executable(fs, FileName(command), junk).Some? && LeastFree(Live(w), 0).Some?
    ensures var w1 := After(fs, s, w, Execute(command, junk));
            w1.sessions[w1.current].Some? && Front(w1).stack != []
            && Top(Front(w1)).args == Pad(Args(command), 95)
  {
    TopTableGood(fs, s, w);
    hide R, Pad, Args, FileName, Executable, CommandOk, Overwrite, Content, ShellOk, Live;
  }

  lemma ExecuteIsCall(w: World, command: seq<byte>, junk: seq<byte>)
    requires IsWorld(w)
    ensures IsCall(w, Execute(command, junk))
  {
  }

  /** A program that is started and asks gets the arguments of the command that started it. */
  method ExecuteAndAsk(k: Kernel, command: seq<byte>, junk: seq<byte>, buffer: word, nbytes: int, literal: seq<byte>,
                       ghost w: World) returns (r: int, ghost stored: seq<byte>, ghost w2: World)
    requires k.Valid() && R(k.fs, k.Value(), w) && |literal| >= k.mem.Length
    requires EventOk(k.fs, Execute(command, junk)) && Guard(k.fs, w, Execute(command, junk))
    requires Executable(k.fs, FileName(command), junk).Some? && LeastFree(Live(w), 0).Some?
    requires 0x800_0000 <= buffer && buffer + 95 <= 0x840_0000
    requires var w1 := After(k.fs, k.Value(), w, Execute(command, junk));
             FrontReady(w1) && exists i :: buffer - 0x800_0000 <= i < 0x40_0000 && Top(Front(w1)).memory[i] == 0
    modifies k, k.mem, k.pcbs, k.fds, k.terms, k.console, k.console.inputBuffer, k.console.tempBuffer
    modifies k.paging.directories, k.paging.videoTable
    ensures k.Valid() && R(k.fs, k.Value(), w2)
    ensures if Args(command) == [] || nbytes <= 0 then r == -1 && stored == []
            else r == 0 && |stored| >= 95 && stored[..95] == Pad(Args(command), 95)
  {
    assert IsWorld(w);
    hide R, After, Step, Guard, EventOk, Live, Executable, Args, CStr, Pad, FrontReady, Filled, IsCall, TablesOf,
      P.Shape;
    ghost var s := k.Value();
    FreshArguments(k.fs, s, w, command, junk);
    ExecuteIsCall(w, command, junk);
    ghost var w1 := Perform(k, Execute(command, junk), w);
    r, stored, w2 := AskArguments(k, buffer, nbytes, literal, w1);
  }

  /** An image of three blocks with one file, "shell": an ELF header of 28 bytes. */
  function SmallImage(): (fs: seq<byte>)
    ensures |fs| == 12288
  {
    seq(12288, i =>
      if i == 0 || i == 4 || i == 8 then 1
      else if 64 <= i < 69 then SHELL[i - 64]
      else if i == 96 then 2
      else if i == 4096 then 28
      else if 8192 <= i < 8196 then ELF[i - 8192]
      else 0)
  }

  lemma SmallWords()
    ensures var fs := SmallImage();
            && fs[0] == 1 && WordAt(fs, 4) == 1 && WordAt(fs, 4096) == 28 && WordAt(fs, 4100) == 0
            && WordAt(fs, 100) == 0
            && fs[64..69] == SHELL && fs[8192..8196] == ELF
  {
  }

  lemma SmallFile(fs: seq<byte>)
    requires |fs| == 12288 && WordAt(fs, 4) == 1 && WordAt(fs, 4096) == 28 && WordAt(fs, 4100) == 0
    requires fs[8192..8196] == ELF
    ensures Loadable(fs, 0) && Content(fs, 0)[..4] == ELF
  {
    hide WordAt;
    var c := Content(fs, 0);
    forall k | 0 <= k < 4 ensures c[k] == ELF[k] {
      assert c[k] == ContentByte(fs, 0, k);
      assert fs[8192..8196][k] == fs[8192 + k];
    }
  }

  /** What is assumed of images can be met: this one boots. */
  lemma SmallImageBoots()
    ensures ShellOk(SmallImage())
  {
    SmallWords();
    SmallFile(SmallImage());
    var fs := SmallImage();
    hide SmallImage, WordAt, Loadable, Content;
    assert fs[64..64 + 5] == SHELL && Matches(fs, 0, SHELL);
    assert StoredDentry(fs, 0).inode == 0 && Lookup(fs, SHELL) == Some(0);
  }
}
