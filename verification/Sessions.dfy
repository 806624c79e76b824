/**
 * What the kernel is meant to provide: three independent terminals, each a stack of processes with
 * their own descriptors and memory, of which one terminal is in front. No slots are shared, no screen
 * is copied, nothing is saved or restored.
 */
module Sessions {
  import opened Bytes
  import opened FileSystem
  import opened Descriptors
  import opened CommandLine
  import opened Memory
  import opened Screen
  import opened Keyboards
  import opened Machine

  /** A live process. `callerSp` and `callerBp` are its parent's stack, to return to. */
  datatype Process = Process(slot: nat, name: seq<byte>, args: seq<byte>, table: seq<Fd>,
                             callerSp: word, callerBp: word, memory: seq<byte>)

  /** A terminal in use: the base shell first, the running process last. */
  datatype Session = Session(stack: seq<Process>, view: View, esp: word, ebp: word)

  /** The terminals, and the keyboard's globals, which they share. */
  datatype World = World(sessions: seq<Option<Session>>, current: nat, video: bool, board: Keyboard)

  ghost predicate IsProcess(p: Process) {
    p.slot < 6 && |p.table| == 8 && |p.memory| == 0x40_0000 && |p.args| == 95 && p.args[94] == 0
  }

  /** The stack of terminal t, empty before the first visit. */
  function StackOf(w: World, t: nat): seq<Process>
    requires t < |w.sessions|
  {
    if w.sessions[t].Some? then w.sessions[t].value.stack else []
  }

  function SlotsOf(stack: seq<Process>): set<nat> {
    set i | 0 <= i < |stack| :: stack[i].slot
  }

  ghost predicate NoSlotTwice(stack: seq<Process>) {
    forall i, j :: 0 <= i < j < |stack| ==> stack[i].slot != stack[j].slot
  }

  /** All live slots. */
  function Live(w: World): set<nat>
    requires |w.sessions| == 3
  {
    SlotsOf(StackOf(w, 0)) + SlotsOf(StackOf(w, 1)) + SlotsOf(StackOf(w, 2))
  }

  ghost predicate StackOk(stack: seq<Process>) {
    NoSlotTwice(stack) && forall i :: 0 <= i < |stack| ==> IsProcess(stack[i])
  }

  predicate IsView(v: View) {
    |v.screen| == 4000 && |v.keys| == 128 && CursorOk(v.x, v.y)
  }

  /** Every process has a slot of its own, and slot 0 belongs to the base shell of terminal 0. */
  ghost predicate IsWorld(w: World) {
    && |w.sessions| == 3 && w.current < 3 && IsBoard(w.board)
    && w.sessions[w.current].Some? && w.sessions[0].Some?
    && (forall t :: 0 <= t < 3 ==> StackOk(StackOf(w, t)))
    && (forall t :: 0 <= t < 3 && w.sessions[t].Some? ==>
          StackOf(w, t) != [] && IsView(w.sessions[t].value.view))
    && (forall t, u :: 0 <= t < u < 3 ==> SlotsOf(StackOf(w, t)) !! SlotsOf(StackOf(w, u)))
    && StackOf(w, 0)[0].slot == 0
  }

  function Front(w: World): Session
    requires w.current < |w.sessions| && w.sessions[w.current].Some?
  {
    w.sessions[w.current].value
  }

  function Top(s: Session): Process
    requires s.stack != []
  {
    s.stack[|s.stack| - 1]
  }

  function WithFront(w: World, s: Session): World
    requires w.current < |w.sessions|
  {
    w.(sessions := w.sessions[w.current := Some(s)])
  }

  function WithTop(s: Session, p: Process): Session
    requires s.stack != []
  {
    s.(stack := s.stack[|s.stack| - 1 := p])
  }

  /** The least slot at or after p that nobody has. */
  function LeastFree(live: set<nat>, p: nat): (r: Option<nat>)
    requires p <= 6
    ensures r.Some? ==> p <= r.value < 6 && r.value !in live
    ensures r.Some? ==> forall q :: p <= q < r.value ==> q in live
    ensures r.None? ==> forall q :: p <= q < 6 ==> q in live
    decreases 6 - p
  {
    if p == 6 then None else if p !in live then Some(p) else LeastFree(live, p + 1)
  }

  function FreshTable(): seq<Fd> {
    [CONSOLE, CONSOLE, CLOSED, CLOSED, CLOSED, CLOSED, CLOSED, CLOSED]
  }

  /** A descriptor table as its process can tell: what a closed entry holds does not matter. */
  function Visible(table: seq<Fd>): (r: seq<Fd>)
    requires |table| == 8
    ensures |r| == 8
  {
    seq(8, i requires 0 <= i < 8 => if table[i].inUse then table[i] else CLOSED)
  }

  /** A process started from a file: console descriptors, the file at the load address, the rest as it was. */
  function Started(fs: seq<byte>, command: seq<byte>, inode: nat, slot: nat, sp: word, bp: word, scrap: seq<byte>):
    Process
    requires |command| < 32 && Loadable(fs, inode) && |scrap| == 0x40_0000
  {
    Process(slot, Pad(FileName(command), 32), Pad(Args(command), 95), FreshTable(), sp, bp,
            Overwrite(scrap, 0x4_8000, Content(fs, inode)))
  }

  /** There is a process in front, with its memory and a console. */
  ghost predicate FrontReady(w: World) {
    && |w.sessions| == 3 && w.current < 3 && w.sessions[w.current].Some? && IsBoard(w.board)
    && Front(w).stack != [] && |Top(Front(w)).memory| == 0x40_0000
    && |Front(w).view.screen| == 4000 && |Front(w).view.keys| == 128
  }

  /** The console of the terminal in front; what lies behind its screen does not matter. */
  ghost function Facing(w: World): (c: Console)
    requires FrontReady(w)
    ensures IsConsole(c)
  {
    var v := Front(w).view;
    Console(Display(v.screen + Zeros(0x4000 - 4000), v.x, v.y, false), v.keys, w.board)
  }

  ghost function Faced(w: World, c: Console): (r: World)
    requires FrontReady(w) && IsConsole(c)
    ensures FrontReady(r) && r.current == w.current && r.video == w.video
  {
    var d := c.display;
    WithFront(w, Front(w).(view := View(d.video[..4000], d.x, d.y, c.keys))).(board := c.board)
  }

  ghost function Printed(w: World, text: seq<byte>): (r: World)
    requires FrontReady(w)
    ensures FrontReady(r) && r.current == w.current && r.video == w.video
  {
    var c := Facing(w);
    Faced(w, c.(display := Print(c.display, text)))
  }

  /** All slots are taken, or all but the last. */
  ghost predicate FewSlots(w: World)
    requires |w.sessions| == 3
  {
    forall q :: 0 <= q < 5 ==> q in Live(w)
  }

  /** Execute pushes a process on the front terminal, in the least free slot; without one, it says so. */
  ghost function Push(fs: seq<byte>, w: World, command: seq<byte>, junk: seq<byte>, scrap: seq<byte>): (r: World)
    requires IsWorld(w) && CommandOk(fs, command, junk) && |scrap| == 0x40_0000
    ensures |r.sessions| == 3 && r.current < 3
  {
    match (Executable(fs, FileName(command), junk), LeastFree(Live(w), 0))
    case (Some(inode), Some(p)) =>
      var f := Front(w);
      WithFront(w, f.(stack := f.stack + [Started(fs, command, inode, p, f.esp, f.ebp, scrap)]))
    case (Some(_), None) => Printed(w, Chars(FULL) + [NEWLINE])
    case _ => w
  }

  /** Halt pops the running process and continues its parent; a base shell starts afresh instead. */
  ghost function Pop(fs: seq<byte>, w: World, scrap: seq<byte>): (r: World)
    requires IsWorld(w) && ShellOk(fs) && |scrap| == 0x40_0000
    ensures |r.sessions| == 3 && r.current < 3
  {
    var f := Front(w);
    if |f.stack| == 1 then
      WithFront(w, f.(stack := [Started(fs, SHELL, Shell(fs), Top(f).slot, f.esp, f.ebp, scrap)]))
    else
      WithFront(w, f.(stack := f.stack[..|f.stack| - 1], esp := Top(f).callerSp, ebp := Top(f).callerBp))
  }

  /** Going to another terminal changes only which is in front; a first visit starts a shell on a blank screen. */
  ghost function Visit(fs: seq<byte>, w: World, t: nat, scrap: seq<byte>): (r: World)
    requires IsWorld(w) && ShellOk(fs) && t < 3 && |scrap| == 0x40_0000
    ensures |r.sessions| == 3 && r.current < 3
  {
    var released := w.board.(ctrl := false);
    if w.sessions[t].Some? then w.(current := t, board := released)
    else
      match LeastFree(Live(w), 0)
      case None => w
      case Some(p) =>
        var f := Front(w);
        var shell := Started(fs, SHELL, Shell(fs), p, f.esp, f.ebp, scrap);
        w.(current := t, board := released,
           sessions := w.sessions[t := Some(Session([shell], View(BlankCells(), 0, 0, f.view.keys), f.esp, f.ebp))])
  }

  /** A store reaches the running process's own memory, or the screen in front of it, or nothing. */
  ghost function Poke(w: World, va: word, value: byte): (r: World)
    requires FrontReady(w)
    ensures FrontReady(r) && r.current == w.current && r.video == w.video
  {
    var f := Front(w);
    if InImage(va) then
      var p := Top(f);
      WithFront(w, WithTop(f, p.(memory := Overwrite(p.memory, va - 0x800_0000, [value]))))
    else if w.video && 0x840_0000 <= va < 0x840_0000 + 4000 then
      WithFront(w, f.(view := f.view.(screen := Overwrite(f.view.screen, va - 0x840_0000, [value]))))
    else w
  }

  /** The same for a store by the kernel on the program's behalf, which also finds the screen at its own address. */
  ghost function KernelPoke(w: World, va: word, value: byte): (r: World)
    requires FrontReady(w)
    ensures FrontReady(r) && r.current == w.current && r.video == w.video
  {
    var f := Front(w);
    if 0xB_8000 <= va < 0xB_8000 + 4000 then
      WithFront(w, f.(view := f.view.(screen := Overwrite(f.view.screen, va - 0xB_8000, [value]))))
    else Poke(w, va, value)
  }

  ghost function Filled(w: World, buffer: word, data: seq<byte>): (r: World)
    requires FrontReady(w)
    ensures FrontReady(r) && r.current == w.current && r.video == w.video
    decreases |data|
  {
    if data == [] then w else Filled(KernelPoke(w, buffer, data[0]), At(buffer, 1), data[1..])
  }

  /**
   * Addresses at which the kernel can store for the program in front without anybody else noticing: the
   * program's own memory, the screen in front, and bytes that hold nothing. Not so the screens of the other
   * terminals in use, which are saved in pages 0xB9 to 0xBB, nor the kernel's own memory.
   */
  ghost predicate SafeTarget(w: World, va: word)
    requires |w.sessions| == 3
  {
    || InImage(va)
    || (w.video && 0x840_0000 <= va < 0x840_1000)
    || (0xB_8000 <= va < 0xB_C000 &&
        forall t :: 0 <= t < 3 && t != w.current && w.sessions[t].Some? ==>
          !(SavedScreen(t) <= va < SavedScreen(t) + 4000))
  }

  ghost predicate SafeBuffer(w: World, buffer: word, n: nat)
    requires |w.sessions| == 3
  {
    forall i :: 0 <= i < n ==> SafeTarget(w, At(buffer, i))
  }

  /** read from a file: the position moves, and the buffer is filled. */
  ghost function Fetch(fs: seq<byte>, w: World, fd: word, buffer: word, n: nat): (r: World)
    requires IsWorld(w) && GoodTable(fs, Top(Front(w)).table)
    ensures |r.sessions| == 3 && r.current < 3
  {
    var data := ReadBytes(fs, Top(Front(w)).table, fd, buffer, n);
    if buffer == 0 then w
    else Filled(Operate(fs, w, ReadCall(Request(fd, n))), buffer, data)
  }

  /** terminal_read: the committed line goes into the buffer; without one, it waits. */
  ghost function TookLine(w: World, buffer: word, n: nat, beyond: byte): (r: World)
    requires FrontReady(w)
    ensures FrontReady(r) && r.current == w.current && r.video == w.video
  {
    if !w.board.canRead || w.board.oldTyped == 128 then w
    else Filled(Faced(w, TakeOn(Facing(w))), buffer, LineBytes(w.board, n, beyond))
  }

  /** A call on the running process's own descriptors. */
  ghost function Operate(fs: seq<byte>, w: World, call: Call): (r: World)
    requires IsWorld(w) && CallOk(fs, call) && GoodTable(fs, Top(Front(w)).table)
    ensures FrontReady(r)
  {
    var f := Front(w);
    WithFront(w, WithTop(f, Top(f).(table := Visible(CallStep(fs, Top(f).table, call)))))
  }

  /** One event; `scrap` is what a newly used frame held before. */
  ghost function Next(fs: seq<byte>, w: World, e: Event, scrap: seq<byte>): (r: World)
    requires IsWorld(w) && EventOk(fs, e) && |scrap| == 0x40_0000 && GoodTable(fs, Top(Front(w)).table)
    ensures |r.sessions| == 3 && r.current < 3
  {
    var f := Front(w);
    match e
    case Execute(command, junk) => Push(fs, w, command, junk, scrap)
    case Halt(_) => Pop(fs, w, scrap)
    case Switch(t, _) => Visit(fs, w, t, scrap)
    case Interrupt(scancode) => Faced(w, KeyOn(Facing(w), scancode, FewSlots(w)))
    case Write(bytes) => Faced(w, WriteOn(Facing(w), bytes))
    case ReadLine(buffer, n, beyond) => TookLine(w, buffer, n, beyond)
    case Registers(esp, ebp) => WithFront(w, f.(esp := esp, ebp := ebp))
    case Descriptor(call) => Operate(fs, w, call)
    case Read(fd, buffer, n) => Fetch(fs, w, fd, buffer, n)
    case Deliver(buffer, data) => Filled(w, buffer, data)
    case Store(va, value) => Poke(w, va, value)
    case VidMap(pointer) => if InImage(pointer) then Filled(w.(video := true), pointer, VIDEO_POINTER) else w
  }

  /** From beside the screen, the first line of the output goes to safe addresses only. */
  ghost predicate WriteSafe(w: World, bytes: seq<byte>)
    requires IsWorld(w)
  {
    var v := Front(w).view;
    Beside(v.x, v.y) ==> SafeBuffer(w, VIDEO + 2 * (80 * v.y + v.x), |Spilt(bytes)|)
  }

  /**
   * When the kernel behaves this way: a base shell only exits while every lower slot is taken, a terminal
   * is only visited for the first time while a slot is free, buffers given to calls are safe, and so are the
   * cells to which output goes that starts beside the screen.
   */
  ghost predicate Guard(fs: seq<byte>, w: World, e: Event)
    requires IsWorld(w) && EventOk(fs, e)
  {
    match e
    case Execute(command, junk) =>
      Executable(fs, FileName(command), junk).Some? && LeastFree(Live(w), 0).None? ==> WriteSafe(w, Chars(FULL))
    case Halt(_) => |Front(w).stack| == 1 ==> forall q :: 0 <= q < Top(Front(w)).slot ==> q in Live(w)
    case Switch(t, _) => t < 3 && (w.sessions[t].None? ==> LeastFree(Live(w), 0).Some?)
    case Interrupt(scancode) => Warns(w.board.ctrl, scancode, FewSlots(w)) ==> WriteSafe(w, Chars(WARNING))
    case Write(bytes) => WriteSafe(w, bytes)
    case ReadLine(buffer, n, beyond) =>
      w.board.canRead ==> w.board.oldTyped < 128 && SafeBuffer(w, buffer, |LineBytes(w.board, n, beyond)|)
    case Read(fd, buffer, n) => IsFile(Top(Front(w)).table, fd) && buffer != 0 ==> SafeBuffer(w, buffer, n)
    case Deliver(buffer, data) => SafeBuffer(w, buffer, |data|)
    case _ => true
  }
}
