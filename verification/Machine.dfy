/**
 * The kernel's state as values, and each system call or keyboard interrupt as one step on it: process
 * slots, control blocks, descriptor tables, the three terminals, and the hardware they share.
 */
module Machine {
  import opened Bytes
  import opened FileSystem
  import opened Descriptors
  import opened CommandLine
  import opened Memory
  import opened Slots
  import opened Screen
  import opened Editor
  import opened Keyboards
  import P = Paging

  /** A process control block, without its descriptor table. Pointers to other blocks are slot numbers. */
  datatype Pcb = Pcb(processNum: nat, parentSp: word, parentBp: word, parentPcb: Option<nat>,
                     filename: seq<byte>, args: seq<byte>, termStart: bool)

  /** A terminal's saved state; its screen is kept at SavedScreen. */
  datatype Term = Term(beenHere: bool, cursorX: nat, cursorY: nat, keyboard: seq<byte>, running: Option<nat>,
                       esp: word, ebp: word, esp0: int)

  /**
   * `board` holds the keyboard's globals, which the terminals share. `intact` says that no call has written
   * into the kernel's own 4 MB and none is stuck in a page fault;
   * what a kernel that is not intact does is not part of this model.
   */
  datatype State = State(processes: bv8, pcbs: seq<Pcb>, tables: seq<seq<Fd>>, terms: seq<Term>, current: nat,
                         paging: P.Tables, mem: seq<byte>, esp0: int, esp: word, ebp: word,
                         cursorX: nat, cursorY: nat, keys: seq<byte>, board: Keyboard, eip: word, intact: bool)

  /** What a user of a terminal has in front of him: the cells, the cursor and the key buffer. */
  datatype View = View(screen: seq<byte>, x: nat, y: nat, keys: seq<byte>)

  datatype Event =
    | Execute(command: seq<byte>, junk: seq<byte>)
    | Halt(junk: seq<byte>)
    | Switch(terminal: nat, junk: seq<byte>)
    | Interrupt(scancode: byte)
    | Write(bytes: seq<byte>)
    | ReadLine(buffer: word, n: nat, beyond: byte)
    | Registers(esp: word, ebp: word)
    | Descriptor(call: Call)
    | Read(fd: word, buffer: word, n: nat)
    | Deliver(buffer: word, data: seq<byte>)
    | Store(va: word, value: byte)
    | VidMap(pointer: word)

  const ELF: seq<byte> := [0x7F, 0x45, 0x4C, 0x46]
  const SHELL: seq<byte> := [115, 104, 101, 108, 108]
  const CLOSED := Fd(NoOps, false, 0, 0)

  // ---------------------------------------------------------------- what the steps assume

  /** Every entry that a lookup can find names a good file, and names of up to 31 bytes can be looked up. */
  ghost predicate GoodImage(fs: seq<byte>) {
    && HasBootBlock(fs)
    && 64 * (fs[0] + 1) + 31 <= |fs|
    && forall n :: 0 <= n < fs[0] ==> GoodFile(fs, StoredDentry(fs, n).inode)
  }

  /** The first four bytes, over whatever the buffer held before. */
  function Header(content: seq<byte>, junk: seq<byte>): seq<byte>
    requires |junk| == 4
  {
    if |content| >= 4 then content[..4] else content + junk[|content|..]
  }

  ghost predicate CommandFits(command: seq<byte>, junk: seq<byte>) {
    |command| < 32 && NoNul(command) && |junk| == 4
  }

  /** The inode of the named file if it exists, is not empty and starts with the ELF magic. */
  function Executable(fs: seq<byte>, name: seq<byte>, junk: seq<byte>): (r: Option<nat>)
    requires GoodImage(fs) && |name| < 32 && |junk| == 4
    ensures r.Some? ==> GoodFile(fs, r.value) && FileLength(fs, r.value) > 0
  {
    match Lookup(fs, name)
    case None => None
    case Some(n) =>
      var inode := StoredDentry(fs, n).inode;
      if FileLength(fs, inode) == 0 || Header(Content(fs, inode), junk) != ELF then None else Some(inode)
  }

  /** Executables hold an entry point and fit into the frame behind the load address. */
  ghost predicate Loadable(fs: seq<byte>, inode: nat) {
    GoodFile(fs, inode) && 28 <= FileLength(fs, inode) <= 0x40_0000 - 0x4_8000
  }

  ghost predicate CommandOk(fs: seq<byte>, command: seq<byte>, junk: seq<byte>) {
    && GoodImage(fs) && CommandFits(command, junk)
    && (Executable(fs, FileName(command), junk).Some? ==> Loadable(fs, Executable(fs, FileName(command), junk).value))
  }

  /** "shell" names an executable file. */
  ghost predicate ShellOk(fs: seq<byte>) {
    && GoodImage(fs)
    && Lookup(fs, SHELL).Some?
    && var inode := StoredDentry(fs, Lookup(fs, SHELL).value).inode;
       Loadable(fs, inode) && Content(fs, inode)[..4] == ELF
  }

  ghost function Shell(fs: seq<byte>): (inode: nat)
    requires ShellOk(fs)
    ensures Loadable(fs, inode)
  {
    StoredDentry(fs, Lookup(fs, SHELL).value).inode
  }

  /** Whatever the buffer held before the header was read. */
  lemma ShellIsExecutable(fs: seq<byte>, junk: seq<byte>)
    requires ShellOk(fs) && |junk| == 4
    ensures CommandOk(fs, SHELL, junk)
    ensures Executable(fs, FileName(SHELL), junk) == Some(Shell(fs))
  {
    hide GoodFile, Content;
    ShellIsOneWord();
  }

  lemma ShellIsOneWord()
    ensures FileName(SHELL) == SHELL && NoNul(SHELL)
  {
    WordAdded(SHELL, []);
    SkipNothing(SHELL);
    assert SHELL + [] == SHELL;
  }

  ghost predicate Sized(fs: seq<byte>, s: State) {
    && s.intact && SixBits(s.processes)
    && |s.pcbs| == 6 && |s.tables| == 6 && (forall p :: 0 <= p < 6 ==> GoodTable(fs, s.tables[p]))
    && |s.terms| == 3 && s.current < 3
    && (forall t :: 0 <= t < 3 ==> |s.terms[t].keyboard| == 128)
    && |s.keys| == 128 && IsBoard(s.board)
    && (forall p :: 0 <= p < 6 ==> ValidPointer(s.pcbs[p].parentPcb) && s.pcbs[p].processNum < 6)
    && (forall t :: 0 <= t < 3 ==> ValidPointer(s.terms[t].running))
    && IsMemory(s.mem)
    && P.Shape(s.paging)
  }

  /** NULL or the address of one of the six control blocks. */
  ghost predicate ValidPointer(p: Option<nat>) {
    p.Some? ==> p.value < 6
  }

  /** The state in which the kernel executes the first shell: no process, no visited terminal, blank blocks. */
  ghost predicate BootOk(fs: seq<byte>, s: State) {
    && Sized(fs, s) && s.processes == 0 && s.current == 0 && CursorOk(s.cursorX, s.cursorY)
    && (forall t :: 0 <= t < 3 ==> !s.terms[t].beenHere && s.terms[t].running.None?)
    && (forall p :: 0 <= p < 6 ==> !s.pcbs[p].termStart && forall i :: 0 <= i < 8 ==> !s.tables[p][i].inUse)
    && P.LaidOut(s.paging, None, false)
  }

  // ---------------------------------------------------------------- the console

  /** The console in the state; the four pages of video memory are mapped to themselves. */
  function ConsoleOf(s: State): (c: Console)
    requires IsMemory(s.mem)
    ensures IsDisplay(c.display)
  {
    Console(Display(Region(s.mem, VIDEO, 0x4000), s.cursorX, s.cursorY, !s.intact), s.keys, s.board)
  }

  function Show(s: State, c: Console): (r: State)
    requires IsMemory(s.mem) && IsDisplay(c.display)
    ensures IsMemory(r.mem)
  {
    s.(mem := Overwrite(s.mem, VIDEO, c.display.video), cursorX := c.display.x, cursorY := c.display.y,
       keys := c.keys, board := c.board, intact := s.intact && !c.display.lost)
  }

  /** printf of the kernel. */
  function PrintStep(s: State, text: seq<byte>): (r: State)
    requires IsMemory(s.mem)
  {
    var c := ConsoleOf(s);
    Show(s, c.(display := Print(c.display, text)))
  }

  /** terminal_write, which also notes the cursor in the terminal's record. */
  function WriteStep(s: State, bytes: seq<byte>): (r: State)
    requires IsMemory(s.mem) && |s.keys| == 128 && IsBoard(s.board) && |s.terms| == 3 && s.current < 3
  {
    var r := Show(s, WriteOn(ConsoleOf(s), bytes));
    r.(terms := r.terms[r.current := r.terms[r.current].(cursorX := r.cursorX, cursorY := r.cursorY)])
  }

  /** All slots are taken, or all but the last. */
  predicate Crowded(processes: bv8) {
    processes == 0x3F || processes == 0x1F
  }

  /** A keyboard interrupt that does not lead to another terminal. */
  function InterruptStep(s: State, scancode: byte): (r: State)
    requires IsMemory(s.mem) && |s.keys| == 128 && IsBoard(s.board)
  {
    Show(s, KeyOn(ConsoleOf(s), scancode, Crowded(s.processes)))
  }

  // ---------------------------------------------------------------- execute

  /** Opening stdin and stdout in the table of a slot. */
  function WithConsole(table: seq<Fd>): (r: seq<Fd>)
    requires |table| == 8
    ensures |r| == 8
  {
    var t := if table[0].inUse then table else table[0 := CONSOLE];
    if t[1].inUse then t else t[1 := CONSOLE]
  }

  function MapImage(paging: P.Tables, p: nat): P.Tables
    requires P.Shape(paging) && p < 8
  {
    paging.(directory := paging.directory[0x20 := P.ImageEntry(p)])
  }

  /** The child process, complete in slot p. */
  function Install(fs: seq<byte>, s: State, command: seq<byte>, inode: nat, p: nat): (r: State)
    requires |s.pcbs| == 6 && |s.tables| == 6 && |s.terms| == 3 && s.current < 3 && p < 6
    requires |s.tables[p]| == 8 && IsMemory(s.mem) && P.Shape(s.paging) && |command| < 32 && Loadable(fs, inode)
  {
    var term := s.terms[s.current];
    var parent := if term.beenHere then term.running else None;
    var first := p == 0;
    var pcb := Pcb(p, if first then 0 else s.esp, if first then 0 else s.ebp, if first then None else parent,
                   Pad(FileName(command), 32), Pad(Args(command), 95),
                   if term.beenHere then s.pcbs[p].termStart else true);
    s.(processes := s.processes | SlotBit(p),
       pcbs := s.pcbs[p := pcb],
       tables := s.tables[p := WithConsole(s.tables[p])],
       terms := s.terms[s.current := term.(running := Some(p), beenHere := true)],
       paging := MapImage(s.paging, p),
       mem := Overwrite(s.mem, FrameAt(p) + 0x4_8000, Content(fs, inode)),
       esp0 := Esp0(p),
       eip := WordAt(Content(fs, inode), 24))
  }

  /** What execute prints while all slots are taken. */
  const FULL: string := "Max number of processes reached"

  /** Nothing but the message on the screen, or the child is installed in the least free slot. */
  ghost function ExecuteStep(fs: seq<byte>, s: State, command: seq<byte>, junk: seq<byte>): (r: (State, int))
    requires Sized(fs, s) && CommandOk(fs, command, junk)
  {
    var failed: (State, int) := (s, -1);
    match Executable(fs, FileName(command), junk)
    case None => failed
    case Some(inode) =>
      match FreeSlot(s.processes, 0)
      case None => (PrintStep(s, Chars(FULL) + [NEWLINE]), -10)
      case Some(p) => (Install(fs, s, command, inode, p), 0)
  }

  // ---------------------------------------------------------------- halt

  function CloseAll(table: seq<Fd>): (r: seq<Fd>)
    requires |table| == 8
    ensures |r| == 8
  {
    seq(8, i requires 0 <= i < 8 => if i >= 2 then table[i].(inUse := false) else table[i])
  }

  /** The halting process gives up its slot, its open files, its name and its arguments. */
  function Vacate(s: State, p: nat): (r: State)
    requires |s.pcbs| == 6 && |s.tables| == 6 && p < 6 && |s.tables[p]| == 8 && s.pcbs[p].processNum < 6
  {
    s.(processes := s.processes & ClearMask(s.pcbs[p].processNum),
       pcbs := s.pcbs[p := s.pcbs[p].(args := Zeros(95), filename := Zeros(32))],
       tables := s.tables[p := CloseAll(s.tables[p])])
  }

  predicate IsBase(pcb: Pcb) {
    pcb.processNum == 0 || pcb.termStart
  }

  function ReturnTo(s: State, child: Pcb, parent: nat): (r: State)
    requires |s.pcbs| == 6 && |s.terms| == 3 && s.current < 3 && parent < 6 && s.pcbs[parent].processNum < 6
    requires P.Shape(s.paging)
  {
    s.(terms := s.terms[s.current := s.terms[s.current].(running := Some(parent))],
       paging := MapImage(s.paging, s.pcbs[parent].processNum),
       esp0 := Esp0(s.pcbs[parent].processNum),
       esp := child.parentSp,
       ebp := child.parentBp)
  }

  /** A base shell is executed again, any other process returns to its parent. */
  ghost function HaltStep(fs: seq<byte>, s: State, junk: seq<byte>): (r: State)
    requires Sized(fs, s) && ShellOk(fs) && |junk| == 4
  {
    match s.terms[s.current].running
    case None => s
    case Some(p) =>
      var pcb := s.pcbs[p];
      var v := Vacate(s, p);
      VacatedIsSized(fs, s, p);
      ShellIsExecutable(fs, junk);
      if IsBase(pcb) then ExecuteStep(fs, v, SHELL, junk).0
      else
        match pcb.parentPcb
        case None => v
        case Some(parent) => ReturnTo(v, pcb, parent)
  }

  lemma VacatedIsSized(fs: seq<byte>, s: State, p: nat)
    requires Sized(fs, s) && p < 6
    ensures Sized(fs, Vacate(s, p))
  {
    hide GoodFile, FileLength;
    ClearSlot(s.processes, s.pcbs[p].processNum);
  }

  // ---------------------------------------------------------------- terminals

  /** Copy the screen, cursor, keys and stack pointers to the current terminal's record. */
  function Save(s: State): (r: State)
    requires |s.terms| == 3 && s.current < 3 && IsMemory(s.mem)
  {
    s.(mem := Overwrite(s.mem, SavedScreen(s.current), Region(s.mem, VIDEO, 4000)),
       terms := s.terms[s.current := s.terms[s.current].(
         keyboard := s.keys, cursorX := s.cursorX, cursorY := s.cursorY, esp := s.esp, ebp := s.ebp, esp0 := s.esp0)])
  }

  function BlankCells(): (r: seq<byte>)
    ensures |r| == 4000
  {
    seq(4000, i => if i % 2 == 0 then 32 else 2)
  }

  function Clear(s: State): (r: State)
    requires IsMemory(s.mem)
  {
    s.(mem := Overwrite(s.mem, VIDEO, BlankCells()), cursorX := 0, cursorY := 0, board := s.board.(ctrl := false))
  }

  /** Copy a visited terminal's record back and map its running process. */
  function Restore(s: State, t: nat): (r: State)
    requires |s.terms| == 3 && t < 3 && IsMemory(s.mem) && |s.pcbs| == 6 && P.Shape(s.paging)
    requires s.terms[t].running.Some? && s.terms[t].running.value < 6
    requires s.pcbs[s.terms[t].running.value].processNum < 6
  {
    var term := s.terms[t];
    s.(current := t,
       mem := Overwrite(s.mem, VIDEO, Region(s.mem, SavedScreen(t), 4000)),
       keys := term.keyboard, cursorX := term.cursorX, cursorY := term.cursorY,
       esp := term.esp, ebp := term.ebp, esp0 := term.esp0,
       paging := MapImage(s.paging, s.pcbs[term.running.value].processNum))
  }

  /** switch_to_other_term; the key handler that called it then takes control as released. */
  ghost function SwitchStep(fs: seq<byte>, s: State, t: nat, junk: seq<byte>): (r: State)
    requires Sized(fs, s) && ShellOk(fs) && |junk| == 4 && t < 3
  {
    ShellIsExecutable(fs, junk);
    if !s.terms[t].beenHere then ExecuteStep(fs, Clear(Save(s)).(current := t), SHELL, junk).0
    else if s.terms[t].running.Some? then Restore(Save(s), t).(board := s.board.(ctrl := false))
    else s
  }

  // ---------------------------------------------------------------- what running programs do

  ghost function DescriptorStep(fs: seq<byte>, s: State, call: Call): (r: State)
    requires Sized(fs, s) && CallOk(fs, call)
  {
    match s.terms[s.current].running
    case None => s
    case Some(p) => s.(tables := s.tables[p := CallStep(fs, s.tables[p], call)])
  }

  /** A user-mode write goes through the page tables; a fault stores nothing. */
  ghost function StoreStep(s: State, va: word, value: byte): (r: State)
    requires P.Shape(s.paging)
  {
    match P.Translate(s.paging, va, P.Access(true, true))
    case None => s
    case Some(pa) => if pa < |s.mem| then s.(mem := Overwrite(s.mem, pa, [value])) else s
  }

  // ---------------------------------------------------------------- what the kernel stores for a program

  /** Address va + i, as a 32-bit word. */
  function At(va: word, i: nat): word {
    (va + i) % 0x1_0000_0000
  }

  predicate KernelMemory(pa: nat) {
    0x40_0000 <= pa < 0x80_0000
  }

  /** Where a kernel-mode write to a virtual address goes, if it does not fault or hit the kernel itself. */
  ghost function KernelTarget(paging: P.Tables, va: word, size: nat): (pa: Option<nat>)
    requires P.Shape(paging)
    ensures pa.Some? ==> pa.value < size && !KernelMemory(pa.value)
  {
    match P.Translate(paging, va, P.Access(false, true))
    case None => None
    case Some(pa) => if pa < size && !KernelMemory(pa) then Some(pa) else None
  }

  ghost function KernelStore(s: State, va: word, value: byte): (r: State)
    requires P.Shape(s.paging)
    ensures r.paging == s.paging && |r.mem| == |s.mem|
  {
    match KernelTarget(s.paging, va, |s.mem|)
    case None => s.(intact := false)
    case Some(pa) => s.(mem := Overwrite(s.mem, pa, [value]))
  }

  /** A call fills a buffer of the program, whatever address it was given. */
  ghost function DeliverStep(s: State, buffer: word, data: seq<byte>): (r: State)
    requires P.Shape(s.paging)
    ensures r.paging == s.paging && |r.mem| == |s.mem|
    decreases |data|
  {
    if data == [] then s else DeliverStep(KernelStore(s, buffer, data[0]), At(buffer, 1), data[1..])
  }

  /** The bytes a read puts into its buffer: none for a bad descriptor or a NULL buffer. */
  function ReadBytes(fs: seq<byte>, table: seq<Fd>, fd: word, buffer: word, n: nat): (data: seq<byte>)
    requires GoodTable(fs, table)
    ensures |data| == if IsFile(table, fd) && buffer != 0 then n else 0
  {
    if IsFile(table, fd) && buffer != 0 then
      var f := table[fd];
      Pad(Content(fs, f.info)[f.pos..Min(FileLength(fs, f.info), f.pos + n)], n)
    else []
  }

  /** read from a file; what other devices put into a buffer is a Deliver. */
  ghost function ReadFileStep(fs: seq<byte>, s: State, fd: word, buffer: word, n: nat): (r: State)
    requires Sized(fs, s)
  {
    match s.terms[s.current].running
    case None => s
    case Some(p) =>
      var data := ReadBytes(fs, s.tables[p], fd, buffer, n);
      if buffer == 0 then s
      else DeliverStep(DescriptorStep(fs, s, ReadCall(Request(fd, n))), buffer, data)
  }

  /**
   * terminal_read: while no line is committed it waits. The newline behind a full line of 128 bytes is stored
   * outside temp_buffer.
   */
  ghost function ReadLineStep(s: State, buffer: word, n: nat, beyond: byte): (r: State)
    requires IsMemory(s.mem) && |s.keys| == 128 && IsBoard(s.board) && P.Shape(s.paging)
  {
    if !s.board.canRead then s
    else if s.board.oldTyped == 128 then s.(intact := false)
    else DeliverStep(Show(s, TakeOn(ConsoleOf(s))), buffer, LineBytes(s.board, n, beyond))
  }

  /** The address of the video page, as vidmap stores it. */
  const VIDEO_POINTER: seq<byte> := [0x00, 0x00, 0x40, 0x08]

  predicate InImage(va: word) {
    0x800_0000 <= va < 0x840_0000
  }

  /** vidmap refuses pointers outside the program image. */
  ghost function VidMapStep(s: State, pointer: word): (r: (State, int))
    requires P.Shape(s.paging)
  {
    if InImage(pointer) then (DeliverStep(MapVideo(s), pointer, VIDEO_POINTER), 0x840_0000) else (s, -1)
  }

  function MapVideo(s: State): (r: State)
    requires P.Shape(s.paging)
    ensures P.Shape(r.paging)
  {
    s.(paging := s.paging.(directory := s.paging.directory[0x21 := VideoEntry(s.paging)],
                           videoTable := s.paging.videoTable[0 := 0xB_8007]))
  }

  function VideoEntry(paging: P.Tables): word
    requires P.Shape(paging)
  {
    paging.videoTableAt + 7
  }

  ghost predicate EventOk(fs: seq<byte>, e: Event) {
    && ShellOk(fs)
    && (e.Execute? ==> CommandOk(fs, e.command, e.junk))
    && (e.Halt? ==> |e.junk| == 4)
    && (e.Switch? ==> e.terminal < 3 && |e.junk| == 4)
    && (e.Interrupt? ==> InTables(e.scancode))
    && (e.Descriptor? ==> CallOk(fs, e.call) && !e.call.ReadCall?)
    && (e.Read? ==> e.n < 0x8000_0000)
  }

  ghost function Step(fs: seq<byte>, s: State, e: Event): (r: State)
    requires Sized(fs, s) && EventOk(fs, e)
  {
    match e
    case Execute(command, junk) => ExecuteStep(fs, s, command, junk).0
    case Halt(junk) => HaltStep(fs, s, junk)
    case Switch(t, junk) => SwitchStep(fs, s, t, junk)
    case Interrupt(scancode) => InterruptStep(s, scancode)
    case Write(bytes) => WriteStep(s, bytes)
    case ReadLine(buffer, n, beyond) => ReadLineStep(s, buffer, n, beyond)
    case Registers(esp, ebp) => s.(esp := esp, ebp := ebp)
    case Descriptor(call) => DescriptorStep(fs, s, call)
    case Read(fd, buffer, n) => ReadFileStep(fs, s, fd, buffer, n)
    case Deliver(buffer, data) => DeliverStep(s, buffer, data)
    case Store(va, value) => StoreStep(s, va, value)
    case VidMap(pointer) => VidMapStep(s, pointer).0
  }
}
