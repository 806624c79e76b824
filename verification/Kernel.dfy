/**
 * The kernel as it works: globals, control blocks, descriptor tables, page tables and memory updated in
 * place. Each system call is proved to be the step of Machine on the state these hold.
 */
module Kernel {
  import opened Arithmetic
  import opened Bytes
  import opened FileSystem
  import opened Descriptors
  import opened CommandLine
  import opened Memory
  import opened Slots
  import opened Screen
  import opened Editor
  import opened Keyboards
  import opened Machine
  import C = Console
  import P = Paging

  /** The descriptor arrays of the six control blocks, cut out of one array. */
  function TablesOf(fds: seq<Fd>): (tables: seq<seq<Fd>>)
    requires |fds| == 48
    ensures |tables| == 6 && forall p :: 0 <= p < 6 ==> tables[p] == fds[8 * p..8 * p + 8]
  {
    seq(6, p requires 0 <= p < 6 => fds[8 * p..8 * p + 8])
  }

  lemma OneTableChanged(a: seq<Fd>, b: seq<Fd>, p: nat)
    requires |a| == |b| == 48 && p < 6
    requires forall j :: 0 <= j < 48 && !(8 * p <= j < 8 * p + 8) ==> b[j] == a[j]
    ensures TablesOf(b) == TablesOf(a)[p := b[8 * p..8 * p + 8]]
  {
    forall q | 0 <= q < 6 && q != p ensures TablesOf(b)[q] == TablesOf(a)[q] {
      assert forall j :: 8 * q <= j < 8 * q + 8 ==> b[j] == a[j];
    }
  }

  /** Any access to 128 MB .. 132 MB goes to the frame that the directory entry names. */
  lemma ImageAddress(t: P.Tables, p: nat, va: word, a: P.Access)
    requires P.Shape(t) && p < 8 && t.directory[0x20] == P.ImageEntry(p) && 0x800_0000 <= va < 0x840_0000
    ensures P.Translate(t, va, a) == Some(FrameAt(p) + (va - 0x800_0000))
  {
    P.LargeFlags(2 + p, 0x87);
    DivModUnique(P.ImageEntry(p), 0x40_0000, 2 + p, 0x87);
    DivModUnique(va, 0x40_0000, 0x20, va - 0x800_0000);
  }

  /** `strncpy` over a buffer that is a field of a record. */
  method CopyOver(field: seq<byte>, src: seq<byte>, n: nat) returns (r: seq<byte>)
    requires n <= |field| && (n < |src| || 0 in src)
    ensures r == Pad(CStr(src)[..Min(n, |CStr(src)|)], n) + field[n..]
  {
    var buffer := new byte[|field|](i requires 0 <= i < |field| => field[i]);
    StrNCpy(buffer, 0, src, n);
    assert buffer[..] == buffer[0..n] + buffer[n..];
    assert buffer[n..] == field[n..];
    return buffer[..];
  }

  /** Whether a file starts with the ELF magic; `junk` is what the local buffer held. */
  method IsElf(fs: seq<byte>, inode: nat, junk: seq<byte>) returns (yes: bool)
    requires GoodFile(fs, inode) && |junk| == 4
    ensures yes <==> FileLength(fs, inode) != 0 && Header(Content(fs, inode), junk) == ELF
  {
    hide Content, GoodFile;
    var isExecutable := new byte[4](i requires 0 <= i < 4 => junk[i]);
    var r := ReadData(fs, inode, 0, isExecutable, 0, 4);
    if r == -1 {
      return false;
    }
    assert isExecutable[..] == isExecutable[0..r] + junk[r..];
    assert isExecutable[..] == Header(Content(fs, inode), junk);
    var d := StrNCmp(isExecutable[..], 0, ELF, 4);
    assert isExecutable[..][0..4] == isExecutable[..] && ELF[..4] == ELF;
    yes := d == 0;
  }

  /** The inode to execute, if there is one. */
  method FindExecutable(fs: seq<byte>, name: seq<byte>, junk: seq<byte>) returns (inode: Option<nat>)
    requires GoodImage(fs) && |name| < 32 && NoNul(name) && |junk| == 4
    ensures inode == Executable(fs, name, junk)
  {
    hide GoodFile, Header;
    var d := ReadDentryByName(fs, name);
    if d.None? {
      return None;
    }
    var yes := IsElf(fs, d.value.inode, junk);
    inode := if yes then Some(d.value.inode) else None;
  }

  /** The word at bytes 24 to 27 of a file, over what the local buffer held where the file is shorter. */
  method EntryPoint(fs: seq<byte>, inode: nat, junk: seq<byte>) returns (eip: word)
    requires GoodFile(fs, inode) && FileLength(fs, inode) >= 24 && |junk| == 4
    ensures eip == WordAt(Header(Content(fs, inode)[24..], junk), 0)
    ensures FileLength(fs, inode) >= 28 ==> eip == WordAt(Content(fs, inode), 24)
  {
    EntryPointRequest(FileLength(fs, inode));
    hide Content, GoodFile;
    var entryPoint := new byte[4](i requires 0 <= i < 4 => junk[i]);
    var r := ReadData(fs, inode, 24, entryPoint, 0, 4);
    if r == -1 {
      assert false;
    }
    assert entryPoint[..] == entryPoint[0..r] + junk[r..];
    assert entryPoint[..] == Header(Content(fs, inode)[24..], junk);
    eip := WordAt(entryPoint[..], 0);
  }

  /** The block of a new process in slot p. */
  function NewPcb(pcb: Pcb, p: nat, visited: bool, running: Option<nat>, esp: word, ebp: word,
                  name: seq<byte>, args: seq<byte>): Pcb
    requires |name| <= 32 && |args| <= 95
  {
    Pcb(p, if p == 0 then 0 else esp, if p == 0 then 0 else ebp,
        if p == 0 || !visited then None else running,
        Pad(name, 32), Pad(args, 95), if visited then pcb.termStart else true)
  }

  const CLEAR_BITMASKS: seq<bv8> := [0x3E, 0x3D, 0x3B, 0x37, 0x2F, 0x1F]
  const BLANK_PCB := Pcb(0, 0, 0, None, Zeros(32), Zeros(95), false)
  const BLANK_TERM := Term(false, 0, 0, Zeros(128), None, 0, 0, 0)

  lemma BlankIsBoot(fs: seq<byte>, s: State)
    requires s.intact && s.processes == 0 && s.current == 0 && |s.keys| == 128 && IsMemory(s.mem) && IsBoard(s.board)
    requires CursorOk(s.cursorX, s.cursorY)
    requires P.LaidOut(s.paging, None, false)
    requires |s.pcbs| == 6 && forall p :: 0 <= p < 6 ==> s.pcbs[p] == BLANK_PCB
    requires |s.terms| == 3 && forall t :: 0 <= t < 3 ==> s.terms[t] == BLANK_TERM
    requires |s.tables| == 6
    requires forall p :: 0 <= p < 6 ==> |s.tables[p]| == 8 && forall i :: 0 <= i < 8 ==> s.tables[p][i] == CLOSED
    ensures BootOk(fs, s)
  {
    hide GoodFile, P.DirectoryEntry;
  }

  class Kernel {
    /** The file system image. */
    const fs: seq<byte>
    const mem: array<byte>
    const pcbs: array<Pcb>
    /** The descriptors of slot p are fds[8p .. 8p + 8]. */
    const fds: array<Fd>
    const terms: array<Term>
    /** Screen and keyboard, which all terminals share; video memory is part of `mem`. */
    const console: C.Terminal
    const paging: P.PageTables
    var processes: bv8
    var currentTerminal: nat
    var esp0: int
    var esp: word
    var ebp: word
    var eip: word

    ghost predicate Valid()
      reads this, console, paging, paging.directories, paging.pageTable, paging.videoTable
    {
      && mem.Length == 0x200_0000 && pcbs.Length == 6 && fds.Length == 48 && terms.Length == 3
      && console.Shape() && console.video == mem && console.base == VIDEO
      && currentTerminal < 3
      && paging.Valid()
    }

    /** The state that the fields hold. */
    ghost function Value(): (s: State)
      requires Valid()
      reads this, mem, pcbs, fds, terms, console, console.inputBuffer, console.tempBuffer
      reads paging, paging.directories, paging.pageTable, paging.videoTable
    {
      State(processes, pcbs[..], TablesOf(fds[..]), terms[..], currentTerminal, paging.Value(), mem[..],
            esp0, esp, ebp, console.cursorX, console.cursorY, console.inputBuffer[..], console.Board(), eip,
            !console.faulted)
    }

    /** Zeroed globals and control blocks, and page tables as enable_paging leaves them. */
    constructor (fs: seq<byte>, mem: array<byte>, paging: P.PageTables)
      requires mem.Length == 0x200_0000 && paging.Valid() && P.LaidOut(paging.Value(), None, false)
      ensures Valid() && this.fs == fs && this.mem == mem && this.paging == paging && BootOk(fs, Value())
      ensures fresh(pcbs) && fresh(fds) && fresh(terms)
      ensures fresh(console) && fresh(console.inputBuffer) && fresh(console.tempBuffer)
    {
      this.fs, this.mem, this.paging := fs, mem, paging;
      pcbs := new Pcb[6](i => BLANK_PCB);
      fds := new Fd[48](i => CLOSED);
      terms := new Term[3](i => BLANK_TERM);
      console := new C.Terminal(mem, VIDEO);
      processes, currentTerminal, esp0, esp, ebp, eip := 0, 0, 0, 0, 0, 0;
      new;
      hide BootOk, P.LaidOut;
      forall p | 0 <= p < 6
        ensures |Value().tables[p]| == 8 && forall i :: 0 <= i < 8 ==> Value().tables[p][i] == CLOSED
      {
        assert Value().tables[p] == fds[8 * p..8 * p + 8];
      }
      BlankIsBoot(fs, Value());
    }

    // -------------------------------------------------------------- the console

    /** What the console object holds is the console of the state, and the rest of memory is outside. */
    method Print(text: seq<byte>)
      requires Valid() && !console.faulted
      modifies mem, console
      ensures Valid() && Value() == PrintStep(old(Value()), text)
    {
      hide P.Shape, TablesOf, Screen.Print, Overwrite;
      ghost var before := mem[..];
      console.Print(text);
      Reassembled(before, mem[..]);
    }

    /** terminal_write, with the cursor noted in the terminal's record. */
    method TerminalWrite(bytes: seq<byte>)
      requires Valid() && !console.faulted
      modifies mem, console, console.inputBuffer, terms
      ensures Valid() && Value() == WriteStep(old(Value()), bytes)
    {
      hide P.Shape, TablesOf, WriteAll, Overwrite, Spilt, Recovers, PlainAttributes, TextOf;
      ghost var before := mem[..];
      var r := console.TerminalWrite(1, bytes);
      Reassembled(before, mem[..]);
      terms[currentTerminal] := terms[currentTerminal].(cursorX := console.cursorX, cursorY := console.cursorY);
    }

    /** update_buffer_and_cursor, for keys that do not lead to another terminal. */
    method KeyInterrupt(scancode: byte)
      requires Valid() && !console.faulted && InTables(scancode)
      modifies mem, console, console.inputBuffer, console.tempBuffer
      ensures Valid() && Value() == InterruptStep(old(Value()), scancode)
    {
      hide P.Shape, TablesOf, KeyOn, Overwrite, LineOf, Key, CursorAfter, LeavesScreen, Editing, Cornered, Warns;
      ghost var before := mem[..];
      console.KeyInterrupt(scancode, processes == 0x3F || processes == 0x1F);
      Reassembled(before, mem[..]);
    }

    /** terminal_read into a buffer of the program. */
    method ReadLine(buffer: word, n: nat, beyond: byte)
      requires Valid() && !console.faulted
      requires console.canRead ==>
                 && console.oldLengthTyped < 128
                 && Reachable(paging.Value(), buffer, |LineBytes(console.Board(), n, beyond)|, mem.Length)
      modifies mem, console, console.inputBuffer, console.tempBuffer
      ensures Valid() && Value() == ReadLineStep(old(Value()), buffer, n, beyond)
    {
      hide P.Shape, TablesOf, TakeOn, LineBytes, Reachable, DeliverStep;
      if !console.canRead {
        return;
      }
      ghost var s := Value();
      var bytes := console.TakeLine(n, beyond);
      OverwriteSame(mem[..], VIDEO, 0x4000);
      assert Value() == Show(s, TakeOn(ConsoleOf(s)));
      Deliver(buffer, bytes);
    }

    // -------------------------------------------------------------- execute

    /** The mask that wanders up to the first clear bit. */
    method ClaimSlot() returns (p: nat)
      requires FreeSlot(processes, 0).Some?
      modifies this`processes
      ensures FreeSlot(old(processes), 0) == Some(p) && processes == old(processes) | SlotBit(p)
    {
      var mask: bv8 := 0x01;
      p := 0;
      assert mask == SlotBit(0);
      hide SlotBit;
      while p < 6
        invariant p <= 6 && (p < 6 ==> mask == SlotBit(p))
        invariant processes == old(processes) && FreeSlot(processes, 0) == FreeSlot(processes, p)
      {
        if processes & mask == 0 {
          processes := processes | mask;
          return;
        }
        NextMask(p);
        mask := mask << 1;
        p := p + 1;
      }
    }

    lemma NextMask(p: nat)
      requires p < 6
      ensures p < 5 ==> SlotBit(p) << 1 == SlotBit(p + 1)
    {
    }

    method MapProcess(p: nat)
      requires Valid() && p < 8
      modifies paging.directories
      ensures Valid() && paging.Value() == MapImage(old(paging.Value()), p)
      ensures paging.directories[0x20] == P.ImageEntry(p)
    {
      ghost var before := paging.directories[..];
      paging.LoadNewProcess(p);
      assert paging.directories[..1024] == before[..1024][0x20 := P.ImageEntry(p)];
    }

    /** The file, read through the new mapping to virtual address 0x08048000. */
    method LoadImage(inode: nat, p: nat)
      requires Valid() && Loadable(fs, inode) && p < 6
      requires paging.directories[0x20] == P.ImageEntry(p)
      modifies mem
      ensures mem[..] == Overwrite(old(mem[..]), FrameAt(p) + 0x4_8000, Content(fs, inode))
    {
      hide Content;
      ghost var before := mem[..];
      ImageAddress(paging.Value(), p, 0x804_8000, P.Access(false, true));
      var at := FrameAt(p) + 0x4_8000;
      var n := FileLength(fs, inode);
      var r := ReadData(fs, inode, 0, mem, at, n);
      assert r == n && Content(fs, inode)[0..n] == Content(fs, inode);
      assert mem[..] == mem[..at] + mem[at..at + n] + mem[at + n..];
      assert mem[..at] == before[..at] && mem[at + n..] == before[at + n..];
    }

    /** The block of the new process: its links, its name and its arguments. */
    method InstallPcb(p: nat, fileName: array<byte>, argBuffer: array<byte>,
                      ghost name: seq<byte>, ghost args: seq<byte>)
      requires Valid() && p < 6 && NoNul(name) && NoNul(args) && |name| < 32 && |args| < 95
      requires fileName.Length == 32 && fileName[..] == Pad(name, 32)
      requires argBuffer.Length == 95 && argBuffer[..] == Pad(args, 95)
      modifies pcbs, terms
      ensures var (c, term) := (currentTerminal, old(terms[currentTerminal]));
              && terms[..] == old(terms[..])[c := term.(running := Some(p), beenHere := true)]
              && pcbs[..] == old(pcbs[..])[p := NewPcb(old(pcbs[p]), p, term.beenHere, term.running, esp, ebp,
                                                       name, args)]
    {
      hide Pad;
      var c := currentTerminal;
      var parentPcb := None;
      if terms[c].beenHere {
        parentPcb := terms[c].running;
      }
      terms[c] := terms[c].(running := Some(p));
      if !terms[c].beenHere {
        pcbs[p] := pcbs[p].(termStart := true);
      }
      terms[c] := terms[c].(beenHere := true);
      var nameField := CopyName(fileName, name);
      if p == 0 {
        pcbs[p] := pcbs[p].(processNum := p, filename := nameField, parentSp := 0, parentBp := 0, parentPcb := None);
      } else {
        pcbs[p] := pcbs[p].(processNum := p, filename := nameField, parentSp := esp, parentBp := ebp,
                            parentPcb := parentPcb);
      }
      var argsField := CopyArgs(argBuffer, args);
      pcbs[p] := pcbs[p].(args := argsField);
    }

    /** open("stdin") and open("stdout") in the table of slot p. */
    method OpenConsole(p: nat)
      requires Valid() && p < 6 && GoodImage(fs)
      modifies fds
      ensures TablesOf(fds[..]) == old(TablesOf(fds[..]))[p := WithConsole(old(fds[8 * p..8 * p + 8]))]
    {
      hide GoodImage;
      ghost var before := fds[..];
      OpensConsole(fs, fds[8 * p..8 * p + 8]);
      var fd := Open(fs, fds, 8 * p, STDIN_NAME);
      fd := Open(fs, fds, 8 * p, STDOUT_NAME);
      OneTableChanged(before, fds[..], p);
    }

    /** Slot, mapping and memory of a new program. */
    method PlaceProgram(inode: nat) returns (p: nat)
      requires Valid() && Loadable(fs, inode) && FreeSlot(processes, 0).Some?
      modifies `processes, `eip, mem, paging.directories
      ensures Valid() && FreeSlot(old(processes), 0) == Some(p)
      ensures Value() == Placed(fs, old(Value()), inode, p)
    {
      assert GoodFile(fs, inode) && FileLength(fs, inode) >= 28;
      hide Content, WordAt, FreeSlot, Overwrite, MapImage, SlotBit, P.Shape, TablesOf, GoodFile, Header, Loadable,
        FileLength;
      p := ClaimSlot();
      MapProcess(p);
      eip := EntryPoint(fs, inode, Zeros(4));
      LoadImage(inode, p);
    }

    /** Block, descriptors and kernel stack of the program in slot p. */
    method Register(p: nat, fileName: array<byte>, argBuffer: array<byte>, ghost command: seq<byte>)
      requires Valid() && GoodImage(fs) && |command| < 32 && NoNul(command) && p < 6
      requires fileName.Length == 32 && fileName[..] == Pad(FileName(command), 32)
      requires argBuffer.Length == 95 && argBuffer[..] == Pad(Args(command), 95)
      modifies `esp0, pcbs, fds, terms
      ensures Valid() && Value() == Registered(old(Value()), command, p)
    {
      hide GoodImage, Pad, WithConsole, NoNul, FileName, Args, NewPcb, P.Shape, TablesOf;
      ArgsHaveNoNul(command);
      InstallPcb(p, fileName, argBuffer, FileName(command), Args(command));
      OpenConsole(p);
      esp0 := 0x80_0000 - 0x2000 * p - 4;
    }

    /** Nothing changes, or the child is complete in the least free slot. */
    method Execute(command: seq<byte>, junk: seq<byte>) returns (r: int)
      requires Valid() && Sized(fs, Value()) && CommandOk(fs, command, junk)
      modifies `processes, `eip, `esp0, mem, console, pcbs, fds, terms, paging.directories
      ensures Valid() && (Value(), r) == ExecuteStep(fs, old(Value()), command, junk)
    {
      hide Content, FileName, Args, FreeSlot, Install, Placed, Registered, P.Shape, TablesOf, CStr, Pad, GoodFile, Busy,
        PrintStep;
      ghost var before := Value();
      var fileName, argBuffer := ParseCommand(command);
      ArgsHaveNoNul(command);
      CStrOfPad(FileName(command), 32);
      var inode := FindExecutable(fs, CStr(fileName[..]), junk);
      if inode.None? {
        return -1;
      }
      AllBusyIsFull(processes);
      if processes == 0x3F {
        Print(Chars(FULL) + [NEWLINE]);
        return -10;
      }
      var p := PlaceProgram(inode.value);
      Register(p, fileName, argBuffer, command);
      InstallIsPlaceAndRegister(fs, before, command, inode.value, p);
      r := 0;
    }

    // -------------------------------------------------------------- halt

    method CloseFiles(p: nat)
      requires Valid() && p < 6
      modifies fds
      ensures TablesOf(fds[..]) == old(TablesOf(fds[..]))[p := CloseAll(old(fds[8 * p..8 * p + 8]))]
    {
      ghost var before := fds[..];
      CloseNext(fds[8 * p..8 * p + 8], 0);
      var i := 0;
      while i < 8
        invariant i <= 8
        invariant fds[8 * p..8 * p + 8] == ClosedBelow(before[8 * p..8 * p + 8], i)
        invariant forall j :: 0 <= j < 48 && !(8 * p <= j < 8 * p + 8) ==> fds[j] == before[j]
      {
        CloseNext(before[8 * p..8 * p + 8], i);
        assert fds[8 * p + i] == fds[8 * p..8 * p + 8][i];
        if fds[8 * p + i].inUse {
          var r := Close(fds, 8 * p, i);
        }
        i := i + 1;
      }
      OneTableChanged(before, fds[..], p);
    }

    /** The slot's bit, files, arguments and name. */
    method VacateSlot(p: nat)
      requires Valid() && p < 6 && pcbs[p].processNum < 6
      modifies `processes, pcbs, fds
      ensures Valid() && Value() == Vacate(old(Value()), p)
    {
      hide CloseAll, TablesOf, P.Shape, Zeros, Pad, ClearMask;
      var number := pcbs[p].processNum;
      ClearMasks(number);
      processes := processes & CLEAR_BITMASKS[number];
      CloseFiles(p);
      CStrOfEnd();
      var args := CopyOver(Zeros(95), [0], 95);
      var name := CopyOver(Zeros(32), [0], 32);
      pcbs[p] := pcbs[p].(args := args, filename := name);
    }

    /** A base shell starts again; any other process gives way to its parent. */
    method Halt(junk: seq<byte>)
      requires Valid() && Sized(fs, Value()) && ShellOk(fs) && |junk| == 4
      requires var running := terms[currentTerminal].running;
               running.Some? ==> IsBase(pcbs[running.value]) || pcbs[running.value].parentPcb.Some?
      modifies `processes, `eip, `esp0, `esp, `ebp, mem, console, pcbs, fds, terms, paging.directories
      ensures Valid() && Value() == HaltStep(fs, old(Value()), junk)
    {
      hide TablesOf, P.Shape, CloseAll, GoodFile, GoodImage, Zeros, CommandOk, Executable, ExecuteStep, MapImage;
      var c := currentTerminal;
      if terms[c].running.None? {
        return;
      }
      ghost var before := Value();
      var p := terms[c].running.value;
      VacatedIsSized(fs, before, p);
      VacateSlot(p);
      if pcbs[p].processNum == 0 || pcbs[p].termStart {
        ShellIsExecutable(fs, junk);
        var r := Execute(SHELL, junk);
      } else {
        esp, ebp := pcbs[p].parentSp, pcbs[p].parentBp;
        terms[c] := terms[c].(running := pcbs[p].parentPcb);
        var number := pcbs[terms[c].running.value].processNum;
        MapProcess(number);
        esp0 := 0x80_0000 - 0x2000 * number - 4;
      }
    }

    // -------------------------------------------------------------- terminals

    method MemCpy(dst: nat, src: nat, n: nat)
      requires dst + n <= mem.Length && src + n <= mem.Length && (dst + n <= src || src + n <= dst)
      modifies mem
      ensures mem[..] == Overwrite(old(mem[..]), dst, Region(old(mem[..]), src, n))
    {
      ghost var before := mem[..];
      forall i | 0 <= i < n {
        mem[dst + i] := mem[src + i];
      }
      OverwriteIs(before, mem[..], dst, Region(before, src, n));
    }

    method SaveTerminal()
      requires Valid()
      modifies mem, terms
      ensures Valid() && Value() == Save(old(Value()))
    {
      hide TablesOf, P.Shape, Overwrite, Region;
      var c := currentTerminal;
      MemCpy(SavedScreen(c), VIDEO, 4000);
      terms[c] := terms[c].(keyboard := console.inputBuffer[..]);
      terms[c] := terms[c].(cursorX := console.cursorX, cursorY := console.cursorY);
      terms[c] := terms[c].(esp := esp, ebp := ebp);
      terms[c] := terms[c].(esp0 := esp0);
    }

    method ClearScreen()
      requires Valid()
      modifies mem, console
      ensures Valid() && Value() == Clear(old(Value()))
    {
      hide TablesOf, P.Shape, Overwrite, BlankCells, Blanked, TextOf;
      ghost var before := mem[..];
      console.ClearScreen();
      Reassembled(before, mem[..]);
      BlankedIsBlank(before);
    }

    method CopyKeys(keyboard: seq<byte>)
      requires console.inputBuffer.Length == 128 && |keyboard| == 128
      modifies console.inputBuffer
      ensures console.inputBuffer[..] == keyboard
    {
      forall i | 0 <= i < 128 {
        console.inputBuffer[i] := keyboard[i];
      }
    }

    /** Screen, keys and cursor of terminal t. */
    method RestoreView(t: nat)
      requires Valid() && t < 3 && |terms[t].keyboard| == 128
      modifies console, mem, console.inputBuffer
      ensures Valid()
      ensures var (s, term) := (old(Value()), old(terms[t]));
              Value() == s.(mem := Overwrite(s.mem, VIDEO, Region(s.mem, SavedScreen(t), 4000)), keys := term.keyboard,
                            cursorX := term.cursorX, cursorY := term.cursorY)
    {
      hide TablesOf, P.Shape, Overwrite, Region;
      MemCpy(VIDEO, SavedScreen(t), 4000);
      CopyKeys(terms[t].keyboard);
      console.cursorX, console.cursorY := terms[t].cursorX, terms[t].cursorY;
    }

    method RestoreTerminal(t: nat)
      requires Valid() && t < 3 && |terms[t].keyboard| == 128
      requires terms[t].running.Some? && terms[t].running.value < 6 && pcbs[terms[t].running.value].processNum < 6
      modifies `currentTerminal, console, `esp, `ebp, `esp0, mem, console.inputBuffer, paging.directories
      ensures Valid() && Value() == Restore(old(Value()), t)
    {
      hide TablesOf, P.Shape, Overwrite, Region, MapImage, SavedScreen;
      currentTerminal := t;
      RestoreView(t);
      esp, ebp := terms[t].esp, terms[t].ebp;
      MapProcess(pcbs[terms[t].running.value].processNum);
      esp0 := terms[t].esp0;
    }

    /**
     * A visited terminal is restored; a first visit clears the screen and executes a shell there. The key
     * handler that called for it then takes control as released.
     */
    method SwitchToOtherTerm(t: nat, junk: seq<byte>)
      requires Valid() && Sized(fs, Value()) && ShellOk(fs) && |junk| == 4 && t < 3
      requires terms[t].beenHere ==> terms[t].running.Some?
      modifies this, mem, console, pcbs, fds, terms, console.inputBuffer, paging.directories
      ensures Valid() && Value() == SwitchStep(fs, old(Value()), t, junk)
    {
      hide TablesOf, P.Shape, GoodFile, GoodImage, CommandOk, Executable, ExecuteStep, Restore, Save, Clear;
      ghost var before := Value();
      SaveTerminal();
      SaveIsSized(fs, before);
      if !terms[t].beenHere {
        ClearScreen();
        currentTerminal := t;
        ShellIsExecutable(fs, junk);
        var r := Execute(SHELL, junk);
      } else {
        assert terms[t] == Value().terms[t] && pcbs[terms[t].running.value] == Value().pcbs[terms[t].running.value];
        Resume(t);
      }
    }

    /** Restoring a terminal, and control taken as released. */
    method Resume(t: nat)
      requires Valid() && t < 3 && |terms[t].keyboard| == 128
      requires terms[t].running.Some? && terms[t].running.value < 6 && pcbs[terms[t].running.value].processNum < 6
      modifies `currentTerminal, console, `esp, `ebp, `esp0, mem, console.inputBuffer, paging.directories
      ensures Valid() && Value() == Restore(old(Value()), t).(board := old(Value()).board.(ctrl := false))
    {
      hide TablesOf, P.Shape, Restore;
      RestoreKeepsBoard(Value(), t);
      RestoreTerminal(t);
      console.ctrlPressed := false;
    }

    // -------------------------------------------------------------- calls on the running process

    method OpenFile(name: seq<byte>) returns (fd: int)
      requires Valid() && Sized(fs, Value()) && Openable(fs, name) && terms[currentTerminal].running.Some?
      modifies fds
      ensures Valid() && Value() == DescriptorStep(fs, old(Value()), OpenCall(name))
      ensures fd == OpenStep(fs, old(Value()).tables[old(terms[currentTerminal]).running.value], name).1
    {
      hide P.Shape, GoodFile, Openable, OpenStep;
      ghost var before := fds[..];
      var p := terms[currentTerminal].running.value;
      assert terms[currentTerminal] == Value().terms[currentTerminal];
      fd := Open(fs, fds, 8 * p, name);
      OneTableChanged(before, fds[..], p);
    }

    method CloseFile(fd: word) returns (r: int)
      requires Valid() && Sized(fs, Value()) && terms[currentTerminal].running.Some?
      modifies fds
      ensures Valid() && Value() == DescriptorStep(fs, old(Value()), CloseCall(fd))
      ensures r == CloseStep(old(Value()).tables[old(terms[currentTerminal]).running.value], fd).1
    {
      hide P.Shape, GoodFile, CloseStep;
      ghost var before := fds[..];
      var p := terms[currentTerminal].running.value;
      assert terms[currentTerminal] == Value().terms[currentTerminal];
      r := Close(fds, 8 * p, fd);
      OneTableChanged(before, fds[..], p);
    }

    /** Filling a buffer of the program: each byte goes where the page tables lead the kernel. */
    method Deliver(buffer: word, data: seq<byte>)
      requires Valid() && Reachable(paging.Value(), buffer, |data|, mem.Length)
      modifies mem
      ensures Valid() && Value() == DeliverStep(old(Value()), buffer, data)
    {
      hide TablesOf, P.Shape, Overwrite;
      ghost var before := Value();
      var i := 0;
      assert data[..0] == [];
      while i < |data|
        invariant 0 <= i <= |data|
        invariant Value() == DeliverStep(before, buffer, data[..i])
      {
        DeliverOneMore(before, buffer, data[..i], data[i]);
        assert data[..i + 1] == data[..i] + [data[i]];
        ReachableAt(paging.Value(), buffer, |data|, mem.Length, i);
        var pa := P.Translate(paging.Value(), At(buffer, i), P.Access(false, true));
        ghost var bytes := mem[..];
        mem[pa.value] := data[i];
        OverwriteIs(bytes, mem[..], pa.value, [data[i]]);
        i := i + 1;
      }
      assert data[..i] == data;
    }

    /** read, for files and bad descriptors: the buffer is the program's, at a virtual address. */
    method Read(fd: word, buffer: word, n: nat) returns (cnt: int)
      requires Valid() && Sized(fs, Value()) && terms[currentTerminal].running.Some? && n < 0x8000_0000
      requires var table := Value().tables[terms[currentTerminal].running.value];
               && (fd < 8 && table[fd].inUse ==> table[fd].table.FileOps?)
               && (IsFile(table, fd) && buffer != 0 ==> Reachable(paging.Value(), buffer, n, mem.Length))
      modifies fds, mem
      ensures Valid() && Value() == ReadFileStep(fs, old(Value()), fd, buffer, n)
      ensures var table := old(Value()).tables[old(terms[currentTerminal]).running.value];
              if IsFile(table, fd) && buffer != 0
              then cnt >= 0 && table[fd].pos + cnt == Min(FileLength(fs, table[fd].info), table[fd].pos + n)
              else cnt == -1
    {
      hide P.Shape, GoodFile, Content, FileLength, Pad, DeliverStep, Reachable;
      if buffer == 0 || !IsFile(Value().tables[terms[currentTerminal].running.value], fd) {
        RefusedRead(fs, Value(), fd, buffer, n);
      }
      if fd > 7 {
        return -1;
      }
      if buffer == 0 {
        return -1;
      }
      var p := terms[currentTerminal].running.value;
      assert terms[currentTerminal] == Value().terms[currentTerminal] && |Value().tables[p]| == 8;
      assert fds[8 * p + fd] == Value().tables[p][fd];
      if !fds[8 * p + fd].inUse {
        return -1;
      }
      var bytes;
      cnt, bytes := Fetch(p, fd, n);
      Deliver(buffer, bytes);
    }

    /** file_read, as the bytes it leaves in the buffer it is given. */
    method Fetch(p: nat, fd: nat, n: nat) returns (cnt: int, bytes: seq<byte>)
      requires Valid() && Sized(fs, Value()) && terms[currentTerminal].running == Some(p) && p < 6 && n < 0x8000_0000
      requires IsFile(Value().tables[p], fd)
      modifies fds
      ensures Valid() && Value() == DescriptorStep(fs, old(Value()), ReadCall(Request(fd, n)))
      ensures var f := old(Value()).tables[p][fd];
              && cnt >= 0 && f.pos + cnt == Min(FileLength(fs, f.info), f.pos + n)
              && bytes == ReadBytes(fs, old(Value()).tables[p], fd, 1, n)
    {
      hide P.Shape, GoodFile, Content, FileLength, Pad;
      ghost var before := fds[..];
      ghost var table := Value().tables[p];
      assert terms[currentTerminal] == Value().terms[currentTerminal];
      assert fds[8 * p..8 * p + 8] == table && fds[8 * p + fd] == table[fd];
      var buf := new byte[n](i => 0);
      cnt := FileRead(fs, fds, 8 * p, fd, buf, 0, n);
      assert fds[8 * p..8 * p + 8] == Descriptors.ReadStep(fs, table, Request(fd, n));
      OneTableChanged(before, fds[..], p);
      assert buf[0..0 + n] == buf[..];
      bytes := buf[..];
    }

    /**
     * getargs, into a buffer in the program image with a string and 95 bytes of room in it. What it stores is
     * the arguments and NULs, and more only where a longer string was; `literal` is as in CommandLine.GetArgs.
     */
    method GetArgs(buffer: word, nbytes: int, literal: seq<byte>) returns (r: int, ghost stored: seq<byte>)
      requires Valid() && terms[currentTerminal].running.Some? && terms[currentTerminal].running.value < 6
      requires var pcb := pcbs[terms[currentTerminal].running.value];
               && |pcb.args| == 95 && 0 in pcb.args && pcb.processNum < 6
               && paging.directories[0x20] == P.ImageEntry(pcb.processNum)
               && 0x800_0000 <= buffer && buffer + 95 <= 0x840_0000
               && var at := FrameAt(pcb.processNum) + (buffer - 0x800_0000);
                  exists k :: at <= k < FrameAt(pcb.processNum) + 0x40_0000 && mem[k] == 0
      requires |literal| >= mem.Length
      modifies mem
      ensures Valid() && Value() == DeliverStep(old(Value()), buffer, stored) && buffer + |stored| <= 0x840_0000
      ensures var args := CStr(pcbs[terms[currentTerminal].running.value].args);
              if args == [] || nbytes <= 0 then r == -1 && stored == []
              else r == 0 && |stored| >= 95 && stored[..95] == Pad(args, 95)
    {
      hide TablesOf, P.Shape, CStr, Pad, DeliverStep, P.ImageEntry;
      ghost var before := Value();
      var pcb := pcbs[terms[currentTerminal].running.value];
      var at := FrameAt(pcb.processNum) + (buffer - 0x800_0000);
      assert before.paging.directory[0x20] == paging.directories[0x20];
      ghost var m;
      r, m := ArgsInto(pcb.args, at, FrameAt(pcb.processNum) + 0x40_0000, nbytes, literal);
      ChangedInImage(before, mem[..], buffer, m, pcb.processNum);
      stored := mem[at..at + m];
      assert r == 0 ==> stored[..95] == mem[at..at + 95];
    }

    /** getargs at a physical address; `limit` is where the frame ends. */
    method ArgsInto(args: seq<byte>, at: nat, ghost limit: nat, nbytes: int, literal: seq<byte>)
      returns (r: int, ghost m: nat)
      requires |args| == 95 && 0 in args && at + 95 <= limit <= mem.Length && |literal| >= mem.Length
      requires exists k :: at <= k < limit && mem[k] == 0
      modifies mem
      ensures at + m <= limit
      ensures forall j :: 0 <= j < mem.Length && !(at <= j < at + m) ==> mem[j] == old(mem[j])
      ensures if CStr(args) == [] || nbytes <= 0 then r == -1 && m == 0
              else r == 0 && m >= 95 && mem[at..at + 95] == Pad(CStr(args), 95)
    {
      hide CStr, Pad;
      ghost var k :| at <= k < limit && mem[k] == 0;
      m := Max(95, |CStr(mem[at..])|);
      StringEnds(mem[at..], k - at);
      r := CommandLine.GetArgs(args, mem, at, nbytes, literal);
      if r == -1 {
        m := 0;
      }
    }

    /** The page at 132 MB shows video memory, and its address is stored, if the pointer is the program's. */
    method VidMap(pointer: word) returns (r: int)
      requires Valid()
      requires InImage(pointer) ==> Reachable(MapVideo(Value()).paging, pointer, 4, mem.Length)
      modifies mem, paging.directories, paging.videoTable
      ensures Valid() && (Value(), r) == VidMapStep(old(Value()), pointer)
    {
      hide TablesOf, DeliverStep, P.Shape, Reachable;
      if InImage(pointer) {
        ghost var (before, directories) := (Value(), paging.directories[..]);
        paging.LoadVideoMem(0);
        assert paging.directories[..1024] == directories[..1024][0x21 := paging.videoTableAt + 7];
        assert Value() == MapVideo(before);
        Deliver(pointer, VIDEO_POINTER);
        return 0x840_0000;
      }
      return -1;
    }
  }

  /** Memory that differs in the four pages only. */
  lemma Reassembled(m: seq<byte>, m2: seq<byte>)
    requires IsMemory(m) && IsMemory(m2)
    requires m2[..VIDEO] == m[..VIDEO] && m2[VIDEO + 0x4000..] == m[VIDEO + 0x4000..]
    ensures m2 == Overwrite(m, VIDEO, m2[VIDEO..VIDEO + 0x4000])
    ensures m[VIDEO..VIDEO + 0x4000] == Region(m, VIDEO, 0x4000)
  {
    assert m2 == m2[..VIDEO] + m2[VIDEO..VIDEO + 0x4000] + m2[VIDEO + 0x4000..];
  }

  lemma OverwriteSame(m: seq<byte>, a: nat, n: nat)
    requires a + n <= |m|
    ensures Overwrite(m, a, Region(m, a, n)) == m
  {
  }

  lemma BlankedIsBlank(m: seq<byte>)
    requires IsMemory(m)
    ensures Overwrite(m, VIDEO, Blanked(m[VIDEO..VIDEO + 0x4000])) == Overwrite(m, VIDEO, BlankCells())
  {
  }

  lemma StringEnds(s: seq<byte>, k: nat)
    requires k < |s| && s[k] == 0
    ensures |CStr(s)| <= k
  {
  }

  lemma KernelStoreInImage(s: State, va: word, value: byte, p: nat)
    requires P.Shape(s.paging) && IsMemory(s.mem) && p < 6 && s.paging.directory[0x20] == P.ImageEntry(p) && InImage(va)
    ensures KernelStore(s, va, value) == s.(mem := Overwrite(s.mem, FrameAt(p) + (va - 0x800_0000), [value]))
  {
    ImageAddress(s.paging, p, va, P.Access(false, true));
    hide P.Shape, Overwrite, P.Translate;
  }

  /** In the program image, delivering is overwriting the frame. */
  lemma {:induction false} DeliverInImage(s: State, buffer: word, data: seq<byte>, p: nat)
    requires P.Shape(s.paging) && IsMemory(s.mem) && p < 6 && s.paging.directory[0x20] == P.ImageEntry(p)
    requires InImage(buffer) && buffer + |data| <= 0x840_0000
    ensures DeliverStep(s, buffer, data) == s.(mem := Overwrite(s.mem, FrameAt(p) + (buffer - 0x800_0000), data))
    decreases |data|
  {
    var at := FrameAt(p) + (buffer - 0x800_0000);
    if data == [] {
      OverwriteNothing(s.mem, at);
    } else {
      KernelStoreInImage(s, buffer, data[0], p);
      OverwriteParts(s.mem, at, data);
      assert At(buffer, 1) == buffer + 1;
      var (s1, rest) := (KernelStore(s, buffer, data[0]), data[1..]);
      hide P.Shape, KernelStore, Overwrite, At, FrameAt, P.ImageEntry;
      if rest == [] {
        OverwriteNothing(s1.mem, at + 1);
        assert DeliverStep(s1, At(buffer, 1), rest) == s1;
      } else {
        DeliverInImage(s1, At(buffer, 1), rest, p);
      }
      assert DeliverStep(s, buffer, data) == DeliverStep(s1, At(buffer, 1), rest);
    }
  }

  /** Memory that differs in the buffer only is what delivering the buffer's new bytes leads to. */
  lemma ChangedInImage(s: State, mem: seq<byte>, buffer: word, n: nat, p: nat)
    requires P.Shape(s.paging) && IsMemory(s.mem) && p < 6 && s.paging.directory[0x20] == P.ImageEntry(p)
    requires InImage(buffer) && buffer + n <= 0x840_0000 && IsMemory(mem)
    requires var at := FrameAt(p) + (buffer - 0x800_0000);
             forall j :: 0 <= j < |mem| && !(at <= j < at + n) ==> mem[j] == s.mem[j]
    ensures var at := FrameAt(p) + (buffer - 0x800_0000);
            s.(mem := mem) == DeliverStep(s, buffer, mem[at..at + n])
  {
    hide P.Shape, Overwrite, DeliverStep;
    var at := FrameAt(p) + (buffer - 0x800_0000);
    OverwriteIs(s.mem, mem, at, mem[at..at + n]);
    DeliverInImage(s, buffer, mem[at..at + n], p);
  }

  lemma OverwriteParts(m: seq<byte>, at: nat, data: seq<byte>)
    requires data != [] && at + |data| <= |m|
    ensures Overwrite(Overwrite(m, at, [data[0]]), at + 1, data[1..]) == Overwrite(m, at, data)
  {
  }

  lemma RefusedRead(fs: seq<byte>, s: State, fd: word, buffer: word, n: nat)
    requires Sized(fs, s) && s.terms[s.current].running.Some?
    requires buffer == 0 || !IsFile(s.tables[s.terms[s.current].running.value], fd)
    ensures ReadFileStep(fs, s, fd, buffer, n) == s
  {
    hide GoodFile, FileLength, Content;
    var p := s.terms[s.current].running.value;
    assert s.tables[p := s.tables[p]] == s.tables;
  }

  /** Every address of a buffer leads somewhere outside the kernel's own memory. */
  ghost predicate Reachable(paging: P.Tables, buffer: word, n: nat, size: nat)
    requires P.Shape(paging)
  {
    forall i :: 0 <= i < n ==> KernelTarget(paging, At(buffer, i), size).Some?
  }

  lemma ReachableAt(paging: P.Tables, buffer: word, n: nat, size: nat, i: nat)
    requires P.Shape(paging) && Reachable(paging, buffer, n, size) && i < n
    ensures var pa := P.Translate(paging, At(buffer, i), P.Access(false, true));
            pa.Some? && KernelTarget(paging, At(buffer, i), size) == pa && pa.value < size
  {
  }

  lemma {:induction false} DeliverOneMore(s: State, buffer: word, data: seq<byte>, b: byte)
    requires P.Shape(s.paging)
    ensures DeliverStep(s, buffer, data + [b]) == KernelStore(DeliverStep(s, buffer, data), At(buffer, |data|), b)
    decreases |data|
  {
    hide P.Shape, KernelStore;
    if data == [] {
      assert [] + [b] == [b] && [b][1..] == [] && At(buffer, 0) == buffer;
    } else {
      assert At(At(buffer, 1), |data| - 1) == At(buffer, |data|);
      assert (data + [b])[1..] == data[1..] + [b] && (data + [b])[0] == data[0];
      hide At;
      DeliverOneMore(KernelStore(s, buffer, data[0]), At(buffer, 1), data[1..], b);
    }
  }

  ghost function Placed(fs: seq<byte>, s: State, inode: nat, p: nat): (r: State)
    requires p < 6 && IsMemory(s.mem) && P.Shape(s.paging) && Loadable(fs, inode)
  {
    s.(processes := s.processes | SlotBit(p), paging := MapImage(s.paging, p),
       mem := Overwrite(s.mem, FrameAt(p) + 0x4_8000, Content(fs, inode)), eip := WordAt(Content(fs, inode), 24))
  }

  ghost function Registered(s: State, command: seq<byte>, p: nat): (r: State)
    requires |s.pcbs| == 6 && |s.tables| == 6 && |s.terms| == 3 && s.current < 3 && p < 6
    requires |s.tables[p]| == 8 && |command| < 32
  {
    var term := s.terms[s.current];
    s.(pcbs := s.pcbs[p := NewPcb(s.pcbs[p], p, term.beenHere, term.running, s.esp, s.ebp,
                                  FileName(command), Args(command))],
       tables := s.tables[p := WithConsole(s.tables[p])],
       terms := s.terms[s.current := term.(running := Some(p), beenHere := true)],
       esp0 := Esp0(p))
  }

  lemma InstallIsPlaceAndRegister(fs: seq<byte>, s: State, command: seq<byte>, inode: nat, p: nat)
    requires |s.pcbs| == 6 && |s.tables| == 6 && |s.terms| == 3 && s.current < 3 && p < 6
    requires |s.tables[p]| == 8 && IsMemory(s.mem) && P.Shape(s.paging) && |command| < 32 && Loadable(fs, inode)
    ensures Registered(Placed(fs, s, inode, p), command, p) == Install(fs, s, command, inode, p)
  {
    hide Content, WordAt, Pad, WithConsole, FileName, Args, Overwrite, MapImage;
  }

  /** Halfway through halt's loop over the descriptors. */
  function ClosedBelow(table: seq<Fd>, n: nat): (r: seq<Fd>)
    requires |table| == 8
    ensures |r| == 8
  {
    seq(8, i requires 0 <= i < 8 => if 2 <= i < n then table[i].(inUse := false) else table[i])
  }

  lemma CloseNext(table: seq<Fd>, n: nat)
    requires |table| == 8 && n < 8
    ensures var now := ClosedBelow(table, n);
            ClosedBelow(table, n + 1) == if now[n].inUse then CloseStep(now, n).0 else now
    ensures ClosedBelow(table, 0) == table && ClosedBelow(table, 8) == CloseAll(table)
  {
  }

  lemma OverwriteIs(a: seq<byte>, b: seq<byte>, at: nat, data: seq<byte>)
    requires |a| == |b| && at + |data| <= |a|
    requires forall j :: at <= j < at + |data| ==> b[j] == data[j - at]
    requires forall j :: 0 <= j < |a| && !(at <= j < at + |data|) ==> b[j] == a[j]
    ensures b == Overwrite(a, at, data)
  {
  }

  lemma RestoreKeepsBoard(s: State, t: nat)
    requires |s.terms| == 3 && t < 3 && IsMemory(s.mem) && |s.pcbs| == 6 && P.Shape(s.paging)
    requires s.terms[t].running.Some? && s.terms[t].running.value < 6
    requires s.pcbs[s.terms[t].running.value].processNum < 6
    ensures Restore(s, t).board == s.board
  {
  }

  lemma SaveIsSized(fs: seq<byte>, s: State)
    requires Sized(fs, s)
    ensures Sized(fs, Save(s)) && |Save(s).terms| == |s.terms| == 3 && Save(s).board == s.board
    ensures forall t :: 0 <= t < 3 ==>
              Save(s).terms[t].beenHere == s.terms[t].beenHere && Save(s).terms[t].running == s.terms[t].running
    ensures forall t :: 0 <= t < 3 ==> Sized(fs, Clear(Save(s)).(current := t))
  {
    hide GoodFile, P.Shape;
  }

  lemma ClearMasks(p: nat)
    requires p < 6
    ensures CLEAR_BITMASKS[p] == ClearMask(p)
  {
  }

  lemma CStrOfEnd()
    ensures CStr([0]) == []
    ensures Pad([], 95) + Zeros(95)[95..] == Zeros(95) && Pad([], 32) + Zeros(32)[32..] == Zeros(32)
  {
  }

  lemma OpensConsole(fs: seq<byte>, table: seq<Fd>)
    requires GoodImage(fs) && |table| == 8
    ensures Openable(fs, STDIN_NAME) && Openable(fs, STDOUT_NAME)
    ensures OpenStep(fs, OpenStep(fs, table, STDIN_NAME).0, STDOUT_NAME).0 == WithConsole(table)
  {
    hide GoodFile;
    assert STDIN_NAME[..5] == STDIN_NAME && STDOUT_NAME[..6] == STDOUT_NAME;
    assert STDIN_NAME[3] != STDOUT_NAME[3] && STDOUT_NAME[..5][3] == STDOUT_NAME[3];
  }

  /** The name over the cleared field of the block; a copy of the whole field, so what it held does not matter. */
  method CopyName(fileName: array<byte>, ghost name: seq<byte>) returns (field: seq<byte>)
    requires NoNul(name) && |name| < 32 && fileName.Length == 32 && fileName[..] == Pad(name, 32)
    ensures field == Pad(name, 32)
  {
    CStrOfPad(name, 32);
    assert Pad(name, 32)[|name|] == 0;
    hide Pad, CStr;
    assert 0 in fileName[..];
    field := CopyOver(Zeros(32), fileName[..], 32);
  }

  /** The arguments over the cleared field, if there are any. */
  method CopyArgs(argBuffer: array<byte>, ghost args: seq<byte>) returns (field: seq<byte>)
    requires NoNul(args) && |args| < 95 && argBuffer.Length == 95 && argBuffer[..] == Pad(args, 95)
    ensures field == Pad(args, 95)
  {
    CStrOfPad(args, 95);
    PadParts(args);
    hide Pad, CStr, Zeros;
    assert argBuffer[0..] == argBuffer[..] && argBuffer[|args|] == 0;
    field := CopyOver(Zeros(95), [0], 95);
    assert field == Zeros(95) by {
      assert CStr([0])[..0] == [] && Zeros(95)[95..] == [];
    }
    var n := StrLen(argBuffer, 0);
    assert n == |args|;
    if n != 0 {
      field := CopyOver(field, argBuffer[..], n);
    }
  }

  lemma PadParts(s: seq<byte>)
    requires |s| < 95
    ensures Pad(s, |s|) + Zeros(95)[|s|..] == Pad(s, 95) && Pad([], 95) == Zeros(95) && s[..|s|] == s
    ensures CStr([0]) == [] && Pad(s, 95)[|s|] == 0
  {
  }
}
