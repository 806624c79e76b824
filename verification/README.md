# A small x86 kernel and its programs, modelled in Dafny

The kernel under `student-distrib/` runs up to six processes on three text terminals that share one screen, one
cursor, one key buffer, one TSS stack pointer and one image mapping. This project models its system calls, its
file system, its page tables, its console, two of the programs that run on it and the blink list of `fish/`, in
the form the code has (objects whose fields, arrays and loops change in place), and proves what they are for.

`dafny verify dfyconfig.toml` checks everything.

## How it is put together

| files | what they hold |
|---|---|
| `Machine`, `Memory`, `Slots` | the kernel's state as a value, and `execute`, `halt`, terminal switches, keyboard interrupts, terminal output and input, descriptor calls, the bytes that calls store into a caller's buffer, and user stores as steps on it |
| `Kernel`, `SystemCalls` | the same calls on a class with the kernel's own globals and arrays and one console object, each equal to its step; boot |
| `Sessions` | what the machine should be: three independent terminals, each a stack of processes with their own descriptors and memory, a screen, a cursor and a key buffer; nothing saved or restored, and nothing shared but the keyboard's globals |
| `Refinement`, `Simulation`, `Fronts`, `ConsoleSteps`, `Steps`, `Runs` | when a state stands for such a world, that every step keeps it so, and runs from boot |
| `Guarantees`, `Buffers` | what follows: exact guards, coming back to a terminal, calls that return, private memory, loaded programs; which buffers a call may fill |
| `Effects` | what single steps do to memory, registers, blocks and screen, in addresses and bytes |
| `Scenarios` | runs from boot that reach the states in which a guard fails |
| `CommandLine`, `Paging`, `Bits`, `Arithmetic` | command splitting and `getargs`; page tables as 32-bit words under two-level translation (section 4.3 of the Intel Software Developer's Manual, volume 3A) |
| `FileSystem`, `Directory`, `Descriptors`, `Cat` | `read_data` and the lookups over an image of bytes, `dir_read`, `open`/`close`/`read`, and the `cat` program |
| `Images` | the file system image by its bytes, and what is read from it |
| `Lines`, `Grep` | `do_one_file` of grep against "the lines that contain the string" |
| `Screen`, `Page` | the four mapped pages of video memory and the output routines on them, as values; the screen as a window on an unbounded page |
| `Editor`, `Keyboards` | the key handler as a line editor; keys, output and reads on the console as a value, in any order |
| `Typing` | the keyboard in characters: what each scan code types, does and shows |
| `Console` | the same routines in place, on the array that video memory is part of |
| `Numbers` | `itoa`, `strrev` and the number formats of `printf` |
| `Blink`, `BlinkList` | the blink list over its static pool, and the closed form of its timing |
| `Bytes` | bytes, 32-bit words, C strings, `strlen`, `strncpy`, `memset` |

Registers are words kept as tokens; writing a control register means that translation follows the tables. What an
uninitialised buffer held is a parameter (`junk`), and so are the contents of the file system image. What a call
stores into a buffer goes through the page tables with kernel rights, byte by byte, from the virtual address the
program gave; what the console stores goes to the four pages from 0xB8000 on, which the tables map to themselves.
A state is no longer `intact` once a call's byte lands in the kernel's own 4 MB or faults, or output runs past the
four pages; what the kernel does from there on is not part of this model, and every guarantee about states that
stand for a world includes that this never happened.

## What the code needs from its callers, and where it fails

The code is modelled as it is. Where it meets its purpose only under a condition, the condition is exact. The first
four are the guards of the run theorems: a run is guarded if each of its events meets its guard (`Sessions.Guard`).

- A base shell that exits is meant to start again in its own slot. It does so only while all lower slots are taken
  (`Guarantees.BaseExitNeedsLowerSlots`); otherwise the new shell appears in a lower slot and its parent pointer
  names the dead one. A second shell on terminal 0, a first visit to terminal 1, the exit of that second shell and
  the exit of the shell on terminal 1 get there from boot (`Scenarios.BaseExitCanFail`).
- A first visit to a terminal needs a free slot (`Guarantees.FirstVisitNeedsFreeSlot`); without one the terminal is
  switched to and cleared with nothing running in it. Six shells on terminal 0 get there from boot
  (`Scenarios.FirstVisitCanFail`).
- `read` and `getargs` check a caller's pointer only against NULL, and store with kernel rights. Whatever the
  bytes are, the kernel goes on standing for independent terminals if and only if every address of the buffer is
  in the program image, on the video page, or in the four screen pages outside the saved screens of other
  terminals in use (`Buffers.BufferGuardIsExact`). A buffer on a saved screen changes a terminal that is not in
  front (`Buffers.SavedScreenIsNotSafe`, and from boot `Scenarios.SavedScreenCanBeLost`); one in the kernel's
  memory can hit any control block (`Buffers.KernelMemoryIsNotSafe`).
- `putc` wraps in column 79 only, and a character typed there leaves the cursor beside the screen, in column 80.
  Output that starts there goes on cell after cell, through the screens that are saved behind the first page and
  up to the end of the four pages. It stays on the first page, whatever video memory holds, if and only if the
  printable bytes of its first line end there (`Screen.StaysOnPage`). Output with n printable bytes in its first
  line may be written, whatever they are, if and only if the cursor is not beside the screen or the n cells from
  there on are safe (`Buffers.WriteGuardIsExact`). After a first visit to terminal 1, 24 times Enter and 80
  letters, 49 characters change the saved screen of terminal 0 (`Scenarios.OutputCanSpill`). The messages that
  `execute` and control with F3 print have the same guard.
- `read_data` returns what is left of the file only for offsets inside it and requests that do not wrap
  (`FileSystem.ClampStaysInsideFile`). When `execute` reads the entry point, four bytes at offset 24, that is so if
  and only if the file has 24 bytes (`FileSystem.EntryPointRequest`); from an ELF file of 10 bytes almost 4 GB are
  asked for (`FileSystem.ReadPastEndWraps`).
- `read_dentry_by_name` compares only as many bytes as the name looked up has, so an earlier, longer name shadows it
  (`Directory.ListedNameIsFound`, `Directory.PrefixShadowsName`); `copy_dentry` keeps one byte of type and inode
  (`Directory.EntriesAgree`).
- grep compares the first byte as a signed char and finds nothing for an empty string
  (`Lines.GrepMissesUnfindable`); for a text and a string of the one byte 200 it prints nothing
  (`Lines.HighByteIsMissed`).
- An Enter at the end of the bottom row scrolls once but moves down twice, and leaves the cursor below the screen.
  This, a character typed into column 79, and the keys that are not handled while the cursor is off the screen are
  all that leave it there (`Editor.CursorLeavesScreen`); 24 times Enter, 80 letters and Enter do both
  (`Editor.BottomRowIsLeft`). A later `terminal_write` brings the cursor back from beside the screen exactly if it
  has a newline, and from below exactly if it has a byte other than newline and NUL
  (`Console.Terminal.TerminalWrite`).
- A rub-out takes a character off the line exactly unless the cursor is in the top left corner
  (`Keyboards.KeyEdits`). On one terminal that never happens (`Keyboards.InterleavingsEdit`); it can after a switch,
  because the number of typed characters is shared. So is the committed line: it waits, through any run and whoever is
  in front in the end, for the next read or Enter (`Guarantees.CommittedLineWaits`).
- `mp1_ioctl_add` accepts location 0, which the pool reads as "free" (`BlinkList.AddAtZeroBreaksList`).

Documentation that differs from the code: the comment on `read_data` promises 0 for an invalid block number, but no
block number is checked and -1 is returned for an empty file.

The step model assumes of the image that every entry names a file whose blocks lie in it, that an executable has
between 28 bytes and 4 MB - 0x48000, and that "shell" is executable (`Machine.CommandOk`, `Machine.ShellOk`). An
image of three blocks meets this (`SystemCalls.SmallImageBoots`).

## Model

| member | source | states |
|---|---|---|
| `Steps.StepSimulates` | student-distrib/syscalls.c:64-143 | Every system call, keyboard interrupt, terminal switch and user store under its guard, made in a state that stands for three independent terminals, leads to a state that stands for the terminals after that one event: stacks of processes, one screen, cursor, key buffer and stack pointers each, and one keyboard |
| `Runs.BootEstablishes` | student-distrib/kernel.c:203-210 | Executing the first shell from zeroed globals leaves terminal 0 with one process in slot 0 and the other terminals unvisited |
| `Runs.Play` | student-distrib/syscalls.c:762-837 | Any run of guarded events, keys, output and reads that fill buffers among them, ends in a state that stands for the world it should, whatever the events and their number |
| `Runs.BitsAreParentChains` | student-distrib/syscalls.c:80-88 | In every reachable state a bit of the process mask is set exactly if its slot is on the parent chain of a visited terminal, on one chain only and in one place; slot 0 is live; directory entry 0x20 and the TSS stack belong to the process running in front |
| `Guarantees.BaseExitNeedsLowerSlots` | student-distrib/syscalls.c:109-118 | A base shell that exits leads to a proper state if and only if every lower slot is taken; otherwise the shell comes up in a lower slot with a dead parent |
| `Guarantees.RestartElsewhere` | student-distrib/syscalls.c:347-410 | Why: the shell started in a lower slot is linked to the block of the process that just died |
| `Guarantees.FirstVisitNeedsFreeSlot` | student-distrib/syscalls.c:764-792 | A first visit to a terminal leads to a proper state if and only if the mask is not full |
| `Guarantees.ReturningGivesBack` | student-distrib/syscalls.c:793-837 | Leave a terminal, let any guarded run of events happen elsewhere, come back: screen, cursor, keys, stack pointers, TSS stack, running process and its mapping are what was left |
| `Guarantees.RunBehind` | student-distrib/syscalls.c:762-837 | A terminal that is not in front at any point of a guarded run is unchanged by the run |
| `Guarantees.CallReturns` | student-distrib/syscalls.c:64-143 | A program is executed, any guarded run happens here and elsewhere while it is on the stack, and it halts: the caller runs again with its stack pointers, mapping and TSS stack, and with its name, arguments, descriptors and memory |
| `Guarantees.CallRestoresMask` | student-distrib/syscalls.c:80-81 | Under the conditions of a call that returns, if nobody switched terminals in between, the slot mask is also as it was before the call |
| `Guarantees.CommittedLineWaits` | student-distrib/terminal_driver.c:98-125 | Over any guarded run without an Enter or a read the committed line stays what it is, so a terminal reads what was entered in another |
| `Guarantees.RunBelow` | student-distrib/syscalls.c:121-125 | As long as more than d processes stay on a stack, the lowest d are untouched by any guarded run |
| `Guarantees.ExecuteSucceedsIff` | student-distrib/syscalls.c:267-295 | execute returns 0 iff the lookup finds a file that is not empty and begins with 0x7F, 0x45, 0x4C, 0x46, a short one being completed by what the buffer held, and the mask is not full; -1 for any other file, and then nothing has changed; -10 without a slot, and then nothing has changed but the cursor and the four pages of video memory, which show the message |
| `Guarantees.ExecutableIff` | student-distrib/syscalls.c:273-286 | The file that is executed, by its first four bytes |
| `Guarantees.StartsAtEntryPoint` | student-distrib/syscalls.c:326-440 | After a successful execute the program begins at the word in bytes 24 to 27 of the file, low byte first, with its 4 MB frame at 128 MB and a kernel stack that ends 8 KB below the one of the slot before |
| `Guarantees.ExecuteFillsOneSlot` | student-distrib/syscalls.c:297-312 | A successful execute claims the least free slot, fills block, table and frame of that slot with the named program, and touches no other slot |
| `Guarantees.ProgramIsLoaded` | student-distrib/syscalls.c:335-340 | After a successful execute, a user-mode load from 0x08048000 + k gives byte k of the file, through the page tables |
| `Guarantees.ProgramStaysLoaded` | student-distrib/syscalls.c:335-340 | and still does after any guarded run in which the program does not act itself, whenever it is in front |
| `Guarantees.MemoryIsPrivate` | student-distrib/syscalls.c:312-347 | Over any guarded run in which a process does not act itself, every byte of its 4 MB frame, its descriptors, name and arguments stay as they were |
| `Guarantees.OnlyOwnEventsChange` | student-distrib/syscalls.c:609-661 | No event but its own store, descriptor call, filled buffer or halt changes a process |
| `Guarantees.InstalledArguments` | student-distrib/syscalls.c:413-428 | The new block holds the file name and the arguments of the command as C strings, and the caller with its stack pointers, none in slot 0 |
| `Guarantees.ParentIsLive` | student-distrib/syscalls.c:405-410 | The parent pointer of a running process that is not a base shell names a live slot |
| `Simulation.ExecuteSimulates` | student-distrib/syscalls.c:297-440 | Installing a program in the least free slot is pushing a process on the front stack |
| `Simulation.PopSimulates` | student-distrib/syscalls.c:119-132 | Returning to the parent is popping the front stack |
| `Simulation.RestartSimulates` | student-distrib/syscalls.c:109-118 | Vacating a base shell's slot and executing a shell there replaces the bottom of the stack |
| `Simulation.SwitchSimulates` | student-distrib/syscalls.c:793-837 | Saving one terminal and restoring a visited one changes only which terminal is in front |
| `Steps.HaltSimulates` | student-distrib/syscalls.c:64-143 | halt as a whole, under the base-shell guard |
| `Steps.SwitchStepSimulates` | student-distrib/syscalls.c:762-837 | switch_to_other_term as a whole, under the first-visit guard |
| `Steps.ExecuteStepSimulates` | student-distrib/syscalls.c:153-449 | execute as a whole: push, nothing, or the message of a full mask on the screen in front |
| `Steps.StoreSimulates` | student-distrib/paging_handler.c:83-101 | A user store reaches the running process's own frame, the video page, or faults; in each case only that process or the screen in front changes |
| `Steps.DeliverSimulates` | student-distrib/syscalls.c:626-631 | Filling a safe buffer, at any virtual address and of any length, changes only the running process's memory and the screen in front |
| `Steps.ReadSimulates` | student-distrib/syscalls.c:609-634 | read of a file: the position moves and the zero-filled bytes are stored where the page tables lead; refused reads change nothing |
| `Steps.VidMapSimulates` | student-distrib/syscalls.c:709-725 | vidmap with a pointer into the image maps the video page and leaves 0x08400000 there; any other pointer changes nothing |
| `ConsoleSteps.WriteSimulates` | student-distrib/terminal_driver.c:71-91 | terminal_write of any bytes, from any cursor, to safe cells only: the terminal in front shows what its own console would, and no other terminal changes |
| `ConsoleSteps.PrintSimulates` | student-distrib/syscalls.c:291-295 | The same for the message of a full mask, whose newline does not scroll |
| `ConsoleSteps.InterruptSimulates` | student-distrib/keyboard_driver.c:131-314 | Any keyboard interrupt: only the terminal in front and the keyboard change |
| `Steps.ReadLineSimulates` | student-distrib/terminal_driver.c:98-125 | terminal_read into a safe buffer: the line is taken from the keyboard and stored where the page tables lead |
| `Buffers.WriteGuardIsExact` | student-distrib/lib.c:185-206 | Output whose first line has n printable bytes may be written, whatever they are, if and only if the cursor is not beside the screen or the n cells from there on are at safe addresses |
| `Buffers.BufferGuardIsExact` | student-distrib/syscalls.c:609-634 | Filling a buffer leaves a state that stands for the filled world, whatever the bytes are, if and only if every address of the buffer is safe |
| `Buffers.SavedScreenIsNotSafe` | student-distrib/syscalls.c:803-806 | One byte read to where another terminal's screen is saved: no longer the terminal that was left |
| `Buffers.KernelMemoryIsNotSafe` | student-distrib/syscalls.c:609-634 | A buffer that starts in the kernel's own 4 MB or below video memory never leaves a proper state |
| `Scenarios.BaseExitCanFail` | student-distrib/syscalls.c:109-118 | A guarded run from boot after which the exit of a base shell leaves no proper state |
| `Scenarios.FirstVisitCanFail` | student-distrib/syscalls.c:764-792 | A guarded run from boot after which a first visit leaves no proper state |
| `Scenarios.SavedScreenCanBeLost` | student-distrib/syscalls.c:803-806 | A guarded run from boot after which one byte that a call stores at 0xB9000 changes the terminal that was left |
| `Scenarios.OutputCanSpill` | student-distrib/lib.c:185-206 | A guarded run from boot, of a first visit and 104 keys, after which 49 characters of output change a terminal that is not in front |
| `Memory.Apart` | student-distrib/syscalls.c:343-347 | Frames, kernel stacks, saved screens and video memory of different slots and terminals do not overlap |
| `Slots.ClearSlot` | student-distrib/syscalls.c:80-81 | The clear masks of halt clear exactly the bit of their slot |
| `Slots.SetSlot` | student-distrib/syscalls.c:300-307 | Or-ing the wandering mask sets exactly the bit of its slot |
| `Slots.AllBusyIsFull` | student-distrib/syscalls.c:291-295 | The mask is 0x3F iff there is no free slot |
| `Kernel.Kernel.ClaimSlot` | student-distrib/syscalls.c:300-308 | The mask-shifting loop claims the least free slot and sets its bit |
| `Kernel.Kernel.LoadImage` | student-distrib/syscalls.c:337-340 | Reading the file to virtual address 0x08048000 fills the new frame behind offset 0x48000 with the file and nothing else |
| `Kernel.EntryPoint` | student-distrib/syscalls.c:326-329 | From a file of at least 24 bytes the second read cannot fail: its error return is unreachable; the entry point is the word at byte 24, completed by what the buffer held if the file ends before byte 28 |
| `Kernel.IsElf` | student-distrib/syscalls.c:273-286 | The header check accepts a file iff it is not empty and its first bytes are the ELF magic, short files being completed by what the buffer held |
| `Kernel.FindExecutable` | student-distrib/syscalls.c:267-286 | The lookup and the header check together |
| `Kernel.Kernel.InstallPcb` | student-distrib/syscalls.c:343-428 | The block and the terminal record that execute writes, field by field |
| `Kernel.Kernel.Execute` | student-distrib/syscalls.c:153-449 | execute on the kernel's own arrays is the machine step: nothing changes, the message is printed, or the whole child is installed |
| `Kernel.Kernel.CloseFiles` | student-distrib/syscalls.c:91-97 | halt's loop closes descriptors 2 to 7 and leaves 0 and 1 |
| `Kernel.Kernel.VacateSlot` | student-distrib/syscalls.c:75-101 | Bit, files, arguments and name of the halting process |
| `Kernel.Kernel.Halt` | student-distrib/syscalls.c:64-143 | halt on the kernel's own arrays is the machine step |
| `Effects.HaltReturns` | student-distrib/syscalls.c:75-132 | A process with a parent gives back exactly its bit, its files from descriptor 2 on, its name and its arguments, and the parent gets stack pointers, mapping and kernel stack; nothing else changes |
| `Effects.HaltRestarts` | student-distrib/syscalls.c:75-118 | A base shell, or whatever runs in slot 0, gives up the same, and the file "shell" is executed |
| `Kernel.Kernel.SaveTerminal` | student-distrib/syscalls.c:795-811 | Screen, keys, cursor and stack pointers go to the current terminal's record |
| `Kernel.Kernel.RestoreTerminal` | student-distrib/syscalls.c:815-833 | and come back from the record of the terminal switched to, with its mapping |
| `Kernel.Kernel.SwitchToOtherTerm` | student-distrib/syscalls.c:762-837 | switch_to_other_term on the kernel's own arrays is the machine step |
| `Effects.SwitchMovesScreens` | student-distrib/syscalls.c:795-826 | Byte by byte of memory: the screen goes to the page from 0xB9000 on that belongs to the terminal left, the other one comes back, and nothing else changes |
| `Effects.SwitchLoads` | student-distrib/syscalls.c:793-837 | Everything else a switch changes: cursor, keys, stack pointers and mapping become those of the terminal, its own are noted in the record of the one left, and control counts as released |
| `Effects.FirstVisitStartsShell` | student-distrib/syscalls.c:764-792 | A first visit leaves blank cells with attribute 2, the cursor at the top left, and a base shell named "shell" without arguments; the key buffer stays |
| `Kernel.Kernel.OpenFile` | student-distrib/syscalls.c:456-579 | open on the running process's table |
| `Kernel.Kernel.CloseFile` | student-distrib/syscalls.c:640-661 | close on the running process's table |
| `Kernel.Kernel.Fetch` | student-distrib/filesysobjs.c:369-391 | file_read on the running process's table: the next bytes of the file, zero-filled to the request, and only the position moves |
| `Kernel.Kernel.Deliver` | student-distrib/filesysobjs.c:379-391 | The bytes go, one by one, to the physical addresses that the tables give a kernel access from the caller's virtual address on |
| `Kernel.Kernel.Read` | student-distrib/syscalls.c:609-634 | read on the kernel's own arrays is the machine step, with its return value: -1, or the number of bytes that were left and asked for |
| `Kernel.Kernel.TerminalWrite` | student-distrib/terminal_driver.c:71-91 | terminal_write on the kernel's own arrays is the machine step |
| `Kernel.Kernel.Print` | student-distrib/lib.c:45-165 | printf of a text without a per cent sign is the machine step |
| `Kernel.Kernel.KeyInterrupt` | student-distrib/keyboard_driver.c:131-314 | A keyboard interrupt on the kernel's own arrays is the machine step |
| `Kernel.Kernel.ReadLine` | student-distrib/terminal_driver.c:98-125 | terminal_read on the kernel's own arrays is the machine step |
| `Kernel.Kernel.GetArgs` | student-distrib/syscalls.c:671-698 | getargs into a buffer of the running program delivers the arguments in its block and NULs, or returns -1 and stores nothing |
| `Kernel.Kernel.VidMap` | student-distrib/syscalls.c:709-725 | vidmap is the machine step: page map, stored address and return value, or -1 and no change |
| `Effects.VidMapGivesScreen` | student-distrib/syscalls.c:709-725 | With a pointer into the image the bytes 00 00 40 08 stand there, 0x8400000 is returned and the page there shows video memory; with any other pointer -1, and no change |
| `Effects.DeliversToFrame` | student-distrib/filesysobjs.c:379-391 | What a call stores into the image, byte by byte of physical memory |
| `SystemCalls.Boot` | student-distrib/kernel.c:178-210 | Enabling paging and executing the first shell yields a kernel object that stands for one terminal with one shell |
| `SystemCalls.Perform` | student-distrib/syscalls.c:64-143 | Every call and keyboard interrupt, made on the object in any state it can be in, takes the machine step and leaves it standing for the world after the step; none of the pointers it follows is NULL |
| `SystemCalls.AskArguments` | student-distrib/syscalls.c:671-698 | getargs by the program in front gives the arguments it was started with, and the kernel goes on standing for its world |
| `SystemCalls.FreshArguments` | student-distrib/syscalls.c:413-428 | Right after a successful execute these are the arguments of the command |
| `SystemCalls.ExecuteAndAsk` | student-distrib/syscalls.c:153-449 | Both together: a program that is started and asks gets the arguments of its command, padded with NULs |
| `CommandLine.SplitDetermined` | student-distrib/syscalls.c:205-257 | Any command laid out as spaces, name, spaces, arguments is split into exactly that name and those arguments |
| `CommandLine.OneCommand` | student-distrib/syscalls.c:205-257 | A command of two spaces, "grep", two spaces and "a b" |
| `CommandLine.EveryCommandSplits` | student-distrib/syscalls.c:205-257 | and every command is laid out that way |
| `CommandLine.ParseCommand` | student-distrib/syscalls.c:205-262 | The flag-driven loop fills its two buffers with the first word and the rest, zero-padded, for every command of fewer than 32 bytes |
| `CommandLine.ArgsHaveNoNul` | student-distrib/syscalls.c:205-257 | Name and arguments of a command are C strings |
| `CommandLine.GetArgs` | student-distrib/syscalls.c:671-698 | -1 iff there are no arguments or no room is offered; otherwise 95 bytes with the arguments and NULs, and nothing before the buffer changes |
| `Paging.LayoutGivesAddressSpace` | student-distrib/paging_handler.c:21-182 | For all 2^32 addresses and all kinds of access, the tables translate to the intended address space, here in numbers, and fault elsewhere |
| `Paging.UserReach` | student-distrib/paging_handler.c:83-182 | User mode reaches the running image frame and the shared video page only |
| `Paging.LoadsKeepLayout` | student-distrib/paging_handler.c:83-182 | Loading a process changes the image mapping only; loading video memory adds the page at 132 MB only |
| `Paging.PageTables.EnablePaging` | student-distrib/paging_handler.c:21-81 | The loops and or-ed vectors leave exactly pages 0xB8 to 0xBB and 4 to 8 MB mapped to themselves |
| `Paging.PageTables.LoadNewProcess` | student-distrib/paging_handler.c:83-108 | One directory entry changes, to the frame of the process; numbers above 7 change nothing |
| `Paging.PageTables.LoadVideoMem` | student-distrib/paging_handler.c:153-182 | One directory entry and one page entry change |
| `Bits.PageMask` | student-distrib/paging_handler.c:56-71 | The 4 KB mask rounds an address down to its page |
| `Bits.LargePageMask` | student-distrib/paging_handler.c:97-97 | The 4 MB mask does so for large pages |
| `Bits.OrFlags` | student-distrib/paging_handler.c:57-73 | Or-ing flags into an aligned address adds them |
| `FileSystem.ReadData` | student-distrib/filesysobjs.c:133-195 | Exactly content[offset .. offset + n) with n = min(length, file length - offset), and n is returned; -1 only for an empty file; no other byte of the buffer changes |
| `Images.WordReadsBack` | student-distrib/filesysobjs.c:143-152 | A word is read at any position exactly from the four bytes of its little-endian form |
| `Images.ContentByBytes` | student-distrib/filesysobjs.c:133-195 | An image with length, block numbers and blocks where they belong holds that file, for any numbering of up to 1023 blocks |
| `Images.ReadAcrossBlocks` | student-distrib/filesysobjs.c:133-195 | A file of two blocks in reverse order, whose length is stored as 0x88, 0x13, 0, 0: a request of 6000 bytes from byte 4090 on gives 910, six of the first block and 904 of the second |
| `FileSystem.CopyBlocks` | student-distrib/filesysobjs.c:170-194 | The block walk delivers byte k of the file from block k / 4096, for any block numbering |
| `FileSystem.ClampStaysInsideFile` | student-distrib/filesysobjs.c:166-168 | The unsigned clamp gives the bytes that are left if and only if the offset is inside the file and the request does not wrap into it |
| `FileSystem.EntryPointRequest` | student-distrib/syscalls.c:326-329 | What execute asks for at offset 24: four bytes from files of 28 bytes on, the rest from 24 bytes on, and almost 4 GB from shorter files; it stays inside the file if and only if there are 24 bytes |
| `FileSystem.ReadPastEndWraps` | student-distrib/filesysobjs.c:166-168 | An ELF file of 10 bytes passes the header check, and its entry point read asks for almost 4 GB |
| `FileSystem.FirstMatch` | student-distrib/filesysobjs.c:41-87 | The entry found is the first one whose bytes begin with the name |
| `Images.EntryByBytes` | student-distrib/filesysobjs.c:41-87 | The 64 bytes from 64 (n + 1) on, as name, type and inode of entry n |
| `Images.LookupByBytes` | student-distrib/filesysobjs.c:41-87 | A lookup finds entry n exactly if its bytes begin with the name and those of no entry before it do |
| `Images.TwoBlocksAreRead` | student-distrib/filesysobjs.c:20-89 | In that image "cat" is found, with type 2, inode 0 and its 5000 bytes |
| `FileSystem.ReadDentryByName` | student-distrib/filesysobjs.c:20-89 | The first matching entry with its full type and inode, or nothing |
| `FileSystem.StrNCmp` | student-distrib/lib.c:496-514 | Zero exactly for equal prefixes |
| `FileSystem.CopyDentry` | student-distrib/filesysobjs.c:197-221 | The name and one byte each of type and inode |
| `FileSystem.ReadDentryByIndex` | student-distrib/filesysobjs.c:97-122 | Entry `index` if the header announces it |
| `Directory.DirectoryReader.DirRead` | student-distrib/filesysobjs.c:301-338 | One call delivers the next name, NUL-terminated in 33 bytes, and advances the shared cursor; after the last entry it gives 0 and starts over |
| `Directory.ListingCycles` | student-distrib/filesysobjs.c:301-338 | Call number j gives entry j mod (n + 1), and every (n + 1)-th call gives 0, for any number of calls |
| `Directory.ListedNameIsFound` | student-distrib/filesysobjs.c:41-87 | Looking up a listed name finds its own entry if and only if no earlier entry begins with it |
| `Directory.EntriesAgree` | student-distrib/filesysobjs.c:197-212 | Lookup by name and by index agree if and only if type and inode are below 256 |
| `Directory.ListedNamesResolve` | student-distrib/filesysobjs.c:301-338 | Looking up the name that any call of a listing gave finds the entry it came from, as the listing saw it, if and only if no earlier entry begins with it and type and inode are below 256 |
| `Directory.PrefixShadowsName` | student-distrib/filesysobjs.c:52-53 | A directory of "ab" and "a" in which looking up "a" finds "ab" |
| `Descriptors.Open` | student-distrib/syscalls.c:456-579 | The table and the number that open leaves |
| `Descriptors.OpenTakesLeastFree` | student-distrib/syscalls.c:529-575 | open claims the least free descriptor of 2..7 for the clock, the directory or the file, from its first byte on, and changes no other, or returns -1 iff the name, its type or the table rules it out |
| `Descriptors.ConsoleNames` | student-distrib/syscalls.c:467-513 | Names that begin with "stdin" and "stdout" open descriptors 0 and 1 if these are closed |
| `Descriptors.CloseFrees` | student-distrib/syscalls.c:640-661 | 0 exactly for an open descriptor of 2..7, which is then closed, and no other changes |
| `Descriptors.OpenAndClose` | student-distrib/syscalls.c:456-661 | Opening, reading and closing leave the open descriptors as they were |
| `Descriptors.Close` | student-distrib/syscalls.c:640-661 | close frees an open descriptor of 2..7 and refuses everything else |
| `Descriptors.FileRead` | student-distrib/filesysobjs.c:369-391 | The request is zero-filled, the next bytes of the file come first, and the position moves by what was read |
| `Descriptors.Read` | student-distrib/syscalls.c:609-634 | -1 for closed or foreign numbers, file_read otherwise |
| `Descriptors.CallKeepsTableGood` | student-distrib/syscalls.c:456-661 | Descriptors always name a file and stand inside it |
| `Descriptors.ReadsAreSequentialAndIndependent` | student-distrib/filesysobjs.c:369-391 | Any interleaving of reads delivers on each descriptor the next bytes of its own file, as many as asked for there |
| `Descriptors.WholeFileByFirstZero` | student-distrib/filesysobjs.c:369-391 | When a positive-sized read first adds nothing, the whole file has been delivered |
| `Cat.CatMain` | syscalls/ece391cat.c:16-30 | cat writes exactly the file, in a loop whose unread bytes are the measure, or returns 2; its descriptor stays open at the end of the file, and no other changes |
| `Grep.DoOneFile` | syscalls/ece391grep.c:10-66 | The sliding window prints, in order and once each, exactly the lines of the file that contain the string, on top of the read call's zero-fill; whether or not the file opened, the same descriptors are open as before, unchanged |
| `Grep.GrepOpened` | syscalls/ece391grep.c:21-60 | The outer loop terminates with the unread bytes as measure, and leaves its descriptor at the end of the file |
| `Grep.GrepFiles` | syscalls/ece391grep.c:84-94 | For any number of names one descriptor is enough: every file opens, the outputs follow one another, names that begin with a dot are skipped, and a name without a file ends it with 3 |
| `Grep.GreppedInTurn` | syscalls/ece391grep.c:84-94 | The result is 0 exactly if every name that does not begin with a dot is found, else 3, and the output is that of the files in order, up to the message for the first that is not |
| `Grep.ScanWindow` | syscalls/ece391grep.c:28-57 | One pass over the window: what is printed and the text still to come make up the result |
| `Grep.Refilled` | syscalls/ece391grep.c:22-27 | After a read behind the kept bytes the buffer is a window on the text again, because the kernel zero-fills the request |
| `Grep.CarryOver` | syscalls/ece391grep.c:34-37 | The partial line is moved to the front of the buffer it overlaps |
| `Grep.SearchLine` | syscalls/ece391grep.c:42-51 | The search loop finds the string in the line, if it is one that can be found at all |
| `Grep.StrNCmp` | syscalls/ece391support.c:35-46 | Zero exactly if the string continues with the first n bytes |
| `Grep.StrCpy` | syscalls/ece391support.c:14-17 | An overlapping copy towards the front |
| `Lines.SplitIsInverseOfJoin` | syscalls/ece391grep.c:29-32 | Splitting a text at newlines loses nothing |
| `Lines.JoinDeterminesLines` | syscalls/ece391grep.c:29-32 | and is the only decomposition into lines |
| `Lines.ShortLinesAreLines` | syscalls/ece391grep.c:33-39 | Lines of at most 1023 bytes leave a newline in every full window |
| `Lines.HighByteIsMissed` | syscalls/ece391grep.c:43-44 | The line of the one byte 200 contains that string and is not printed |
| `Lines.GrepMissesUnfindable` | syscalls/ece391grep.c:43-44 | grep prints the matching lines if and only if the string is not empty and starts below 128, or no line matches: its first byte is compared as a signed char |
| `Lines.TwoOfThreeLines` | syscalls/ece391grep.c:45-48 | The bytes printed for "is" in the lines "this", "no" and "is" of a file "f" |
| `Console.Terminal.Initialize` | student-distrib/terminal_driver.c:10-19 | A blank screen, the cursor at its top left, an empty line |
| `Console.Terminal.TerminalWrite` | student-distrib/terminal_driver.c:71-91 | From any cursor. On the screen: the screen becomes the 25-row window on the page on which the bytes are laid out, and nothing behind it changes. Off the screen: exactly which cells behind it are stored, when the store faults, and which bytes bring the cursor back |
| `Console.Terminal.MoveRowsUp` | student-distrib/keyboard_driver.c:97-125 | The in-place loops move the rows up by one and blank the last |
| `Screen.WriteShowsPage` | student-distrib/terminal_driver.c:71-91 | Byte after byte, output on the screen is output on the page |
| `Screen.ByteOnScreen` | student-distrib/terminal_driver.c:76-85 | Each byte of terminal_write: from 32 on it is shown with attribute 2 in the cell of the cursor, 10 ends the line, others do nothing, and past the last cell or row the rows move up |
| `Screen.PrintedOnScreen` | student-distrib/lib.c:185-206 | The same for printf, which shows every byte but 10 |
| `Screen.PutShows` | student-distrib/lib.c:185-206 | One printable character on the screen is that character on the page, wrapped and scrolled |
| `Screen.ScrolledRows` | student-distrib/keyboard_driver.c:97-125 | After scrolling the screen shows rows 1 to 24 and a blank one |
| `Screen.BlankedRows` | student-distrib/lib.c:20-28 | Blank cells everywhere |
| `Screen.WriteReach` | student-distrib/lib.c:185-206 | From any cursor: what output stores behind the screen is the printable bytes of its first line, if it starts beside the screen, and nothing else |
| `Screen.StaysOnPage` | student-distrib/lib.c:185-206 | Output from beside the screen leaves the other pages alone, whatever they hold, if and only if 80 y + x and the printable bytes of its first line are at most 2048 cells |
| `Screen.WriteRecovers` | student-distrib/terminal_driver.c:71-91 | Exactly which output brings a cursor back that is off the screen |
| `Page.LayoutThroughWindow` | student-distrib/terminal_driver.c:76-85 | What has scrolled out does not matter for what is written next |
| `Page.WritesCompose` | student-distrib/terminal_driver.c:71-91 | Writing in two pieces is writing at once |
| `Page.PrintablesInReadingOrder` | student-distrib/lib.c:191-201 | Printable bytes land one per cell in reading order and change nothing before them |
| `Console.Terminal.KeyInterrupt` | student-distrib/keyboard_driver.c:131-314 | From any cursor, each scan code edits the line as it should exactly unless it is a rub-out in the corner, moves the cursor as it should, stores nothing behind the first page, and which keys leave the cursor off the screen; a digit, sign or letter key appends that character to the key buffer |
| `Console.Terminal.Keyboard` | student-distrib/keyboard_driver.c:131-314 | Any sequence of scan codes |
| `Console.Terminal.Interact` | student-distrib/keyboard_driver.c:131-314 | Any interleaving of keys, output and reads |
| `Keyboards.InterleavingsEdit` | student-distrib/keyboard_driver.c:131-314 | Over any such interleaving the line is what keys, output and reads should make it, and a rub-out always has a cell to go back to |
| `Keyboards.KeyEdits` | student-distrib/keyboard_driver.c:227-302 | A key edits the line as it should if and only if it is not a rub-out with the cursor in the top left corner |
| `Typing.KeysType` | student-distrib/keyboard_driver.c:32-58 | What each key types: digits, signs and the rows "qwertyuiop", "asdfghjkl" and "zxcvbnm", with shift or caps lock their capitals and the signs above |
| `Typing.ControlKeys` | student-distrib/keyboard_driver.c:238-284 | What Enter, backspace and the modifiers do to the line |
| `Typing.Releases` | student-distrib/keyboard_driver.c:135-200 | Releases end shift and control; while control is held no press does anything, and releasing L erases the line |
| `Typing.FullLine` | student-distrib/keyboard_driver.c:286-301 | A line of 128 characters takes no more |
| `Typing.TypedByte` | student-distrib/keyboard_driver.c:286-296 | The byte that a key appends to the key buffer, whatever is on the screen |
| `Typing.TypedIsShown` | student-distrib/keyboard_driver.c:286-309 | A typed character is shown in the cell of the cursor with attribute 2, nothing else changes, and the cursor goes one column on; below the screen the rows move up |
| `Typing.RubOutIsShown` | student-distrib/keyboard_driver.c:269-284 | A rub-out blanks the cell before the cursor and nothing else |
| `Typing.OthersAreNotShown` | student-distrib/keyboard_driver.c:232-268 | Enter and the modifiers show nothing, but below the bottom row the rows move up |
| `Typing.ControlLClears` | student-distrib/keyboard_driver.c:139-142 | Control and L leave a blank screen, the cursor at its top left and an empty line |
| `Keyboards.KeyMoves` | student-distrib/keyboard_driver.c:227-309 | Where a key takes the cursor, and that it stores nothing behind the first page |
| `Keyboards.LineIsRead` | student-distrib/terminal_driver.c:98-125 | What a read copies is the committed line, a newline and NULs |
| `Effects.LineByByte` | student-distrib/terminal_driver.c:98-125 | For any request, every byte that a read leaves: the committed characters, 10, and NULs |
| `Effects.WarningIsPrinted` | student-distrib/keyboard_driver.c:202-231 | Control with F3 prints the warning if at most one slot is free, and does nothing otherwise |
| `Editor.CursorLeavesScreen` | student-distrib/keyboard_driver.c:232-302 | The cursor is on the screen exactly unless the last key took it off or failed to bring it back |
| `Editor.BottomRowIsLeft` | student-distrib/keyboard_driver.c:257-268 | 24 times Enter, 80 letters, Enter: beside the screen, then below it |
| `Console.Terminal.TerminalRead` | student-distrib/terminal_driver.c:98-125 | The committed line and a newline, once, into a buffer of any contents with room for them; a NUL behind the request is needed only where the copied bytes fill it |
| `Editor.LineIsWhatSurvives` | student-distrib/keyboard_driver.c:232-302 | For every key sequence, modifiers and a full line included, the line is the characters that later rub-outs leave, read backwards |
| `Editor.EnterCommitsWhatSurvives` | student-distrib/keyboard_driver.c:257-268 | and Enter commits exactly those |
| `Numbers.Itoa` | student-distrib/lib.c:217-250 | The numeral of the value as a string, for every 32-bit value and radix 2..36 |
| `Numbers.StrRev` | student-distrib/lib.c:259-275 | The in-place reversal |
| `Numbers.DigitsParse` | student-distrib/lib.c:238-243 | Digits parse back to the value and do not start with 0 |
| `Numbers.DigitCharacters` | student-distrib/lib.c:220-220 | Digits are 0 to 9 and A to Z |
| `Numbers.DigitsAreUnique` | student-distrib/lib.c:238-243 | There is no other digit string of the same value without leading zeros |
| `Numbers.NumeralParses` | student-distrib/lib.c:217-250 | What itoa writes parses back, zero included |
| `Numbers.WordDigits` | student-distrib/lib.c:107-107 | At most 32 digits |
| `Numbers.PrintHexPadded` | student-distrib/lib.c:89-99 | %#x emits exactly eight digits with the value |
| `Numbers.PrintDecimal` | student-distrib/lib.c:115-128 | %d emits the decimal digits of the value, behind a minus sign if it is negative, the least integer included |
| `BlinkList.Blinker.Add` | fish/blink.S:105-184 | An add is the add of the list that the pool represents and returns 0 exactly for a location on the screen while an entry is free; at most the character of its cell changes |
| `BlinkList.Blinker.FindHelper` | fish/blink.S:351-379 | The first node of the list at the location |
| `BlinkList.Blinker.Find` | fish/blink.S:302-349 | find returns the most recently added live record at the location |
| `BlinkList.Blinker.Remove` | fish/blink.S:187-237 | remove unlinks exactly that node and keeps the order of the rest |
| `BlinkList.Blinker.UnlinkNode` | fish/blink.S:206-222 | The pointer-to-pointer search and the unlinking |
| `BlinkList.Blinker.Tasklet` | fish/blink.S:49-99 | The walk over the list is one tick of every record, in list order; no attribute changes |
| `BlinkList.Blinker.Malloc` | fish/fish.c:161-171 | The first entry with location 0 |
| `BlinkList.RoomIsFreeEntry` | fish/fish.c:161-171 | The pool has a free entry exactly if the list has fewer than 2000 nodes |
| `BlinkList.PoolAddRefinesAdd` | fish/blink.S:131-162 | The claimed entry goes to the front: the list stays acyclic and duplicate-free, and its nodes are exactly the entries with a non-zero location |
| `BlinkList.AddAtZeroBreaksList` | fish/blink.S:132-133 | An accepted add leaves a proper list if and only if its location is not 0 |
| `Blink.FindIsTop` | fish/blink.S:351-379 | Finding gives the top of the location's stack |
| `Blink.RemovePops` | fish/blink.S:187-237 | Removing pops it and leaves every other location alone |
| `Blink.LocationsAreIndependentStacks` | fish/blink.S:105-237 | Over any run, adds that a full pool refuses included, each location is a stack of its own, of the adds that were accepted |
| `Blink.TickVideoLocal` | fish/blink.S:60-90 | What a tick does to a cell depends only on the records at that cell |
| `Blink.SwitchesIff` | fish/blink.S:64-66 | The signed 16-bit countdown: a record switches at 0, 1 and above 0x8000 |
| `Blink.TickWrites` | fish/blink.S:67-86 | Where records switch, the last of them in the list decides which character stays |
| `Blink.TickLeaves` | fish/blink.S:43-99 | A tick leaves attributes alone, and cells at which no record switches |
| `Blink.StepTouches` | fish/blink.S:43-47 | An accepted add stores exactly its on-character; for any event a byte of the screen changes only if it is the character of a cell with an accepted add, or a tick on which a record there switches |
| `Blink.RunTouches` | fish/blink.S:43-47 | Over any run attributes stay, and so do the cells at which nothing was ever added |
| `Blink.PhaseStep` | fish/blink.S:64-86 | countdown and status step through the closed form |
| `Blink.BlinkClosedForm` | fish/blink.S:49-99 | k ticks after its add, whatever happens elsewhere, a cell shows the on-character iff k mod (on + off) < on, and find returns the closed form of the record |
| `Bytes.StrNCpy` | student-distrib/lib.c:546-561 | The string, at most n bytes of it, filled up with NULs |
| `Bytes.StrLen` | student-distrib/lib.c:284-292 | The length up to the first NUL |

## Left out

- Scheduling (`scheduler.c`): its timer handler is installed nowhere and its branches print forever.
- Interrupt controller, real-time clock, descriptor tables, port output and boot messages: device register writes.
- The effect of the inline assembly on the real stack, `iret` and `switch_to_user`: `esp` and `ebp` are tokens that `execute` and a terminal switch save and restore.
- The process count that guards terminal switches in the key handler: the switch is an event of its own, with the first-visit guard, and the interrupt that is refused one changes nothing.
- Runs of newlines in `printf`: only the kernel's own message is printed, a text and one newline.
- The keyboard's globals (`length_typed`, `can_read`, `temp_buffer`, `old_length_typed`, the flags) are part of the world but of no terminal, as in the code: none is saved. A first visit starts with the key buffer of the terminal it comes from.
- What a kernel does after a call has stored into its own memory or faulted: such a state is only marked as not intact.
- `SystemCalls.Perform`: user stores and register changes are not calls of this method but what programs and hardware do by themselves. Reads of the clock and of directories, and what `getargs` stores, enter as deliveries of the bytes that `Directory` and `Kernel.Kernel.GetArgs` say.
- `Steps.ReadLineSimulates`: a full line of 128 bytes, whose newline is stored outside `temp_buffer`, is outside the guard.
- `Kernel.Kernel.GetArgs`: the buffer lies in the program image, and a NUL follows in the frame, as `strlen` needs.
- `Kernel.Kernel.SwitchToOtherTerm`: the VGA cursor registers and the end-of-interrupt command are not modelled.
- `Console.Terminal.TerminalRead`: the spin until Enter is a precondition; a NUL follows the request where the copied bytes fill it, as its `strlen` needs, and a full line of 128 bytes, which overruns `temp_buffer`, is outside the precondition.
- `Descriptors.Read`: reads on terminal, clock and directory descriptors are not dispatched here; `dir_read` is modelled in `Directory`, `terminal_read` in `Console`.
- `Grep.DoOneFile`: the file is one without NULs and with lines of at most 1023 bytes, and the spare byte of the buffer does not start as a newline.
- `Grep.GrepFiles`: the names that `main` reads from the directory are given, and a file of another type than 2, the clock among them, is not grepped.
- `Cat.CatMain`: the name is given; fetching it with `getargs` is not repeated.
- `CommandLine.ParseCommand`: commands of 32 bytes or more, which overrun the file name buffer, are outside the precondition.
- NULL arguments of system calls: every branch on them returns at once.
- `mp1_ioctl_sync` and `add_frames` of `fish/`: redraw and a file-copying loop outside the list contract.
- `set_handler`, `sigreturn`, the `closed_*` stubs, `write`, the other demo programs, `ece391emulate.c` and the repeated support files: single-branch code or a layer for another system.
- Pointers to control blocks are slot numbers, and pointers into the pool are indices; the arithmetic from addresses to these is not modelled.
