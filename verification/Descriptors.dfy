/**
 * File descriptors: open, close and read on one process's table of eight. The tables of all
 * processes lie in one array; `base` is where a process's table starts.
 */
module Descriptors {
  import opened Bytes
  import opened FileSystem

  /** Which operations table a descriptor points to. */
  datatype Ops = NoOps | TerminalOps | RtcOps | DirOps | FileOps

  datatype Fd = Fd(table: Ops, inUse: bool, pos: word, info: word)

  const STDIN_NAME: seq<byte> := [115, 116, 100, 105, 110]
  const STDOUT_NAME: seq<byte> := [115, 116, 100, 111, 117, 116]

  /** An open console descriptor, as both stdin and stdout are set up. */
  const CONSOLE := Fd(TerminalOps, true, 0, 0)

  /** `strncmp(name, prefix, strlen(prefix)) == 0`. */
  predicate StartsWith(name: seq<byte>, prefix: seq<byte>) {
    |prefix| <= |name| && name[..|prefix|] == prefix
  }

  /** The least free descriptor at or after i. */
  function FreeFd(table: seq<Fd>, i: nat): (r: Option<nat>)
    requires |table| == 8
    ensures r.Some? ==> i <= r.value < 8 && !table[r.value].inUse
    ensures r.Some? ==> forall k :: i <= k < r.value ==> table[k].inUse
    ensures r.None? ==> forall k :: i <= k < 8 ==> table[k].inUse
    decreases 8 - i
  {
    if i >= 8 then None else if !table[i].inUse then Some(i) else FreeFd(table, i + 1)
  }

  function OpsFor(fileType: word): Option<Ops> {
    if fileType == 0 then Some(RtcOps)
    else if fileType == 1 then Some(DirOps)
    else if fileType == 2 then Some(FileOps)
    else None
  }

  /** Names that can be opened without the lookup leaving the image. */
  ghost predicate Openable(fs: seq<byte>, name: seq<byte>) {
    HasBootBlock(fs) && LookupInImage(fs, fs[0], name) && NoNul(name)
  }

  function OpenStep(fs: seq<byte>, table: seq<Fd>, name: seq<byte>): (r: (seq<Fd>, int))
    requires |table| == 8 && Openable(fs, name)
    ensures |r.0| == 8
  {
    var failed: (seq<Fd>, int) := (table, -1);
    if StartsWith(name, STDIN_NAME) then
      if table[0].inUse then failed else (table[0 := CONSOLE], 0)
    else if StartsWith(name, STDOUT_NAME) then
      if table[1].inUse then failed else (table[1 := CONSOLE], 0)
    else
      match Lookup(fs, name)
      case None => failed
      case Some(n) =>
        var d := StoredDentry(fs, n);
        match (OpsFor(d.fileType), FreeFd(table, 2))
        case (Some(ops), Some(i)) => (table[i := Fd(ops, true, 0, d.inode)], i)
        case _ => failed
  }

  method Open(fs: seq<byte>, fds: array<Fd>, base: nat, name: seq<byte>) returns (fd: int)
    requires base + 8 <= fds.Length && Openable(fs, name)
    modifies fds
    ensures (fds[base..base + 8], fd) == OpenStep(fs, old(fds[base..base + 8]), name)
    ensures forall j :: 0 <= j < fds.Length && !(base <= j < base + 8) ==> fds[j] == old(fds[j])
  {
    fd := -1;
    ghost var table := fds[base..base + 8];
    if StartsWith(name, STDIN_NAME) {
      if fds[base].inUse {
        return -1;
      }
      fds[base] := CONSOLE;
      assert fds[base..base + 8] == table[0 := CONSOLE];
      fd := 0;
    } else if StartsWith(name, STDOUT_NAME) {
      if fds[base + 1].inUse {
        return -1;
      }
      fds[base + 1] := CONSOLE;
      assert fds[base..base + 8] == table[1 := CONSOLE];
      fd := 0;
    } else {
      var d := ReadDentryByName(fs, name);
      if d.None? {
        return -1;
      }
      var index := 2;
      while index < 8
        invariant 2 <= index <= 8
        invariant fds[base..base + 8] == table && fd == -1
        invariant OpsFor(d.value.fileType).None? || FreeFd(table, 2) == FreeFd(table, index)
        invariant forall j :: 0 <= j < fds.Length ==> fds[j] == old(fds[j])
      {
        assert fds[base + index] == table[index];
        if !fds[base + index].inUse {
          if d.value.fileType == 0 {
            fds[base + index] := Fd(RtcOps, true, 0, d.value.inode);
            fd := index;
            break;
          }
          if d.value.fileType == 1 {
            fds[base + index] := Fd(DirOps, true, 0, d.value.inode);
            fd := index;
            break;
          }
          if d.value.fileType == 2 {
            fds[base + index] := Fd(FileOps, true, 0, d.value.inode);
            fd := index;
            break;
          }
        }
        index := index + 1;
      }
      assert fd == index ==> fds[base..base + 8] == table[fd := fds[base + fd]];
    }
  }

  function CloseStep(table: seq<Fd>, fd: word): (r: (seq<Fd>, int))
    requires |table| == 8
    ensures |r.0| == 8
  {
    if fd <= 1 || fd > 7 || !table[fd].inUse then (table, -1)
    else (table[fd := table[fd].(inUse := false)], 0)
  }

  method Close(fds: array<Fd>, base: nat, fd: word) returns (r: int)
    requires base + 8 <= fds.Length
    modifies fds
    ensures (fds[base..base + 8], r) == CloseStep(old(fds[base..base + 8]), fd)
    ensures forall j :: 0 <= j < fds.Length && !(base <= j < base + 8) ==> fds[j] == old(fds[j])
  {
    ghost var table := fds[base..base + 8];
    if fd <= 1 || fd > 7 {
      return -1;
    }
    if !fds[base + fd].inUse {
      return -1;
    }
    fds[base + fd] := fds[base + fd].(inUse := false);
    assert fds[base..base + 8] == table[fd := table[fd].(inUse := false)];
    return 0;
  }

  // ---------------------------------------------------------------- reading

  /** An open file descriptor names a good file and stands inside it. */
  ghost predicate GoodFd(fs: seq<byte>, f: Fd) {
    f.inUse && f.table.FileOps? ==> GoodFile(fs, f.info) && f.pos <= FileLength(fs, f.info)
  }

  ghost predicate GoodTable(fs: seq<byte>, table: seq<Fd>) {
    |table| == 8 && forall i :: 0 <= i < 8 ==> GoodFd(fs, table[i])
  }

  /** Every entry of type file that a lookup can find is a good file. */
  ghost predicate GoodDirectory(fs: seq<byte>) {
    && HasBootBlock(fs)
    && 64 * (fs[0] + 1) <= |fs|
    && forall n :: 0 <= n < fs[0] && StoredDentry(fs, n).fileType == 2 ==> GoodFile(fs, StoredDentry(fs, n).inode)
  }

  predicate IsFile(table: seq<Fd>, fd: nat)
    requires |table| == 8
  {
    fd < 8 && table[fd].inUse && table[fd].table.FileOps?
  }

  /** file_read: zero the whole request, read, and advance by what was read. */
  method FileRead(fs: seq<byte>, fds: array<Fd>, base: nat, fd: nat, buf: array<byte>, at: nat, n: nat)
    returns (cnt: nat)
    requires base + 8 <= fds.Length && GoodTable(fs, fds[base..base + 8]) && IsFile(fds[base..base + 8], fd)
    requires n < 0x8000_0000 && at + n <= buf.Length
    modifies fds, buf
    ensures var f := old(fds[base + fd]);
            && f.pos + cnt == Min(FileLength(fs, f.info), f.pos + n)
            && fds[base..base + 8] == old(fds[base..base + 8])[fd := f.(pos := f.pos + cnt)]
            && cnt <= n && buf[at..at + n] == Pad(Content(fs, f.info)[f.pos..f.pos + cnt], n)
    ensures forall j :: 0 <= j < fds.Length && !(base <= j < base + 8) ==> fds[j] == old(fds[j])
    ensures forall j :: 0 <= j < buf.Length && !(at <= j < at + n) ==> buf[j] == old(buf[j])
  {
    hide Content, Pad;
    ghost var table := fds[base..base + 8];
    assert table[fd] == fds[base + fd] && GoodFd(fs, table[fd]);
    MemSet(buf, at, 0, n);
    var f := fds[base + fd];
    var r := ReadData(fs, f.info, f.pos, buf, at, n);
    if r > 0 {
      fds[base + fd] := f.(pos := f.pos + r);
      cnt := r;
    } else {
      cnt := 0;
    }
    assert fds[base..base + 8] == table[fd := f.(pos := f.pos + cnt)];
    PaddedWith(buf[..], at, n, Content(fs, f.info)[f.pos..f.pos + cnt]);
  }

  lemma PaddedWith(buf: seq<byte>, at: nat, n: nat, data: seq<byte>)
    requires |data| <= n && at + n <= |buf| && buf[at..at + |data|] == data
    requires forall j :: at + |data| <= j < at + n ==> buf[j] == 0
    ensures buf[at..at + n] == Pad(data, n)
  {
    assert buf[at..at + n] == buf[at..at + |data|] + Zeros(n - |data|);
  }

  /** The read system call, for descriptors that are closed, out of range or files. */
  method Read(fs: seq<byte>, fds: array<Fd>, base: nat, fd: word, buf: array<byte>, at: nat, n: nat)
    returns (cnt: int)
    requires base + 8 <= fds.Length && GoodTable(fs, fds[base..base + 8])
    requires fd < 8 && fds[base + fd].inUse ==> fds[base + fd].table.FileOps?
    requires n < 0x8000_0000 && at + n <= buf.Length
    modifies fds, buf
    ensures !IsFile(old(fds[base..base + 8]), fd) ==> cnt == -1 && fds[..] == old(fds[..]) && buf[..] == old(buf[..])
    ensures IsFile(old(fds[base..base + 8]), fd) ==>
              var f := old(fds[base + fd]);
              && f.pos + cnt == Min(FileLength(fs, f.info), f.pos + n)
              && fds[base..base + 8] == old(fds[base..base + 8])[fd := f.(pos := f.pos + cnt)]
              && 0 <= cnt <= n && buf[at..at + n] == Pad(Content(fs, f.info)[f.pos..f.pos + cnt], n)
    ensures forall j :: 0 <= j < fds.Length && !(base <= j < base + 8) ==> fds[j] == old(fds[j])
    ensures forall j :: 0 <= j < buf.Length && !(at <= j < at + n) ==> buf[j] == old(buf[j])
  {
    if fd > 7 {
      return -1;
    }
    assert fds[base..base + 8][fd] == fds[base + fd];
    if !fds[base + fd].inUse {
      return -1;
    }
    cnt := FileRead(fs, fds, base, fd, buf, at, n);
  }

  // ---------------------------------------------------------------- runs of system calls on one table

  datatype Request = Request(fd: word, n: nat)

  datatype Call = OpenCall(name: seq<byte>) | CloseCall(fd: word) | ReadCall(request: Request)

  ghost predicate CallOk(fs: seq<byte>, c: Call) {
    c.OpenCall? ==> Openable(fs, c.name)
  }

  /** The table after one read request. */
  function ReadStep(fs: seq<byte>, table: seq<Fd>, r: Request): (after: seq<Fd>)
    requires GoodTable(fs, table)
    ensures GoodTable(fs, after)
  {
    if IsFile(table, r.fd) then
      var f := table[r.fd];
      table[r.fd := f.(pos := Min(FileLength(fs, f.info), f.pos + r.n))]
    else table
  }

  function CallStep(fs: seq<byte>, table: seq<Fd>, c: Call): (r: seq<Fd>)
    requires GoodTable(fs, table) && CallOk(fs, c)
  {
    match c
    case OpenCall(name) => OpenStep(fs, table, name).0
    case CloseCall(fd) => CloseStep(table, fd).0
    case ReadCall(request) => ReadStep(fs, table, request)
  }

  lemma CallKeepsTableGood(fs: seq<byte>, table: seq<Fd>, c: Call)
    requires GoodDirectory(fs) && GoodTable(fs, table) && CallOk(fs, c)
    ensures GoodTable(fs, CallStep(fs, table, c))
  {
  }

  /**
   * open never replaces a live descriptor: it changes nothing, or claims the least free one of 2..7 for the
   * device, the directory or the file that the entry stands for.
   */
  lemma OpenTakesLeastFree(fs: seq<byte>, table: seq<Fd>, name: seq<byte>)
    requires |table| == 8 && Openable(fs, name)
    requires !StartsWith(name, STDIN_NAME) && !StartsWith(name, STDOUT_NAME)
    ensures var (after, fd) := OpenStep(fs, table, name);
            && (fd == -1 ==> after == table)
            && (fd != -1 ==> 2 <= fd < 8 && !table[fd].inUse)
            && (fd != -1 ==> forall k :: 2 <= k < fd ==> table[k].inUse)
            && (fd != -1 ==> forall k :: 0 <= k < 8 && k != fd ==> after[k] == table[k])
            && (fd != -1 ==>
                  var d := StoredDentry(fs, Lookup(fs, name).value);
                  after[fd] == Fd([RtcOps, DirOps, FileOps][d.fileType], true, 0, d.inode))
    ensures OpenStep(fs, table, name).1 == -1 <==>
              || Lookup(fs, name).None?
              || StoredDentry(fs, Lookup(fs, name).value).fileType > 2
              || forall k :: 2 <= k < 8 ==> table[k].inUse
  {
  }

  /** Names that begin with "stdin" and "stdout" open the console as descriptors 0 and 1, and both give 0. */
  lemma ConsoleNames(fs: seq<byte>, table: seq<Fd>, name: seq<byte>, tail: seq<byte>)
    requires |table| == 8 && Openable(fs, name)
    ensures name == Chars("stdin") + tail ==>
              OpenStep(fs, table, name)
              == if table[0].inUse then (table, -1) else (table[0 := Fd(TerminalOps, true, 0, 0)], 0)
    ensures name == Chars("stdout") + tail ==>
              OpenStep(fs, table, name)
              == if table[1].inUse then (table, -1) else (table[1 := Fd(TerminalOps, true, 0, 0)], 0)
  {
    assert Chars("stdin") == STDIN_NAME && Chars("stdout") == STDOUT_NAME;
    assert STDIN_NAME[3] != STDOUT_NAME[3];
  }

  /** close gives back an open descriptor of 2..7, and refuses everything else. */
  lemma CloseFrees(table: seq<Fd>, fd: word)
    requires |table| == 8
    ensures var (after, r) := CloseStep(table, fd);
            && (r == 0 <==> 2 <= fd < 8 && table[fd].inUse)
            && (r != 0 ==> r == -1 && after == table)
            && (r == 0 ==> !after[fd].inUse && forall k :: 0 <= k < 8 && k != fd ==> after[k] == table[k])
  {
  }

  /** Opening and closing leave the open descriptors as they were, however far the new one was read meanwhile. */
  lemma OpenAndClose(fs: seq<byte>, table: seq<Fd>, name: seq<byte>, pos: word)
    requires |table| == 8 && Openable(fs, name)
    requires !StartsWith(name, STDIN_NAME) && !StartsWith(name, STDOUT_NAME) && OpenStep(fs, table, name).1 != -1
    ensures var (held, fd) := OpenStep(fs, table, name);
            var (after, r) := CloseStep(held[fd := held[fd].(pos := pos)], fd);
            && r == 0
            && forall k :: 0 <= k < 8 ==> after[k].inUse == table[k].inUse && (table[k].inUse ==> after[k] == table[k])
  {
    OpenTakesLeastFree(fs, table, name);
  }

  /** What a run of reads delivers on descriptor `fd`, interleaved with reads on others. */
  function Delivered(fs: seq<byte>, table: seq<Fd>, run: seq<Request>, fd: word): (data: seq<byte>)
    requires GoodTable(fs, table) && IsFile(table, fd)
    decreases |run|
  {
    if run == [] then [] else
    var after := ReadStep(fs, table, run[0]);
    (if run[0].fd == fd then Content(fs, table[fd].info)[table[fd].pos..after[fd].pos] else [])
    + Delivered(fs, after, run[1..], fd)
  }

  /** The bytes that the reads on `fd` asked for, in total. */
  function Requested(run: seq<Request>, fd: word): nat {
    if run == [] then 0 else (if run[0].fd == fd then run[0].n else 0) + Requested(run[1..], fd)
  }

  /**
   * Any interleaving of reads delivers on each descriptor the next bytes of its own file, as many as
   * were asked for there: reads on other descriptors change nothing.
   */
  lemma {:induction false} ReadsAreSequentialAndIndependent(fs: seq<byte>, table: seq<Fd>, run: seq<Request>, fd: word)
    requires GoodTable(fs, table) && IsFile(table, fd)
    ensures var f := table[fd];
            Delivered(fs, table, run, fd)
            == Content(fs, f.info)[f.pos..Min(FileLength(fs, f.info), f.pos + Requested(run, fd))]
    decreases |run|
  {
    hide GoodFile, FileLength, Content;
    if run != [] {
      var after := ReadStep(fs, table, run[0]);
      assert after[fd] == table[fd].(pos := if run[0].fd == fd then after[fd].pos else table[fd].pos);
      ReadsAreSequentialAndIndependent(fs, after, run[1..], fd);
      var c := Content(fs, table[fd].info);
      SliceSplit(c, table[fd].pos, after[fd].pos, Min(|c|, table[fd].pos + Requested(run, fd)));
    }
  }

  lemma SliceSplit(c: seq<byte>, a: nat, m: nat, b: nat)
    requires a <= m <= b <= |c|
    ensures c[a..b] == c[a..m] + c[m..b]
  {
  }

  /** Once a read of at least one byte adds nothing, everything from the start was delivered. */
  lemma WholeFileByFirstZero(fs: seq<byte>, table: seq<Fd>, run: seq<Request>, fd: word, n: nat)
    requires GoodTable(fs, table) && IsFile(table, fd) && table[fd].pos == 0 && n > 0
    requires Delivered(fs, table, run + [Request(fd, n)], fd) == Delivered(fs, table, run, fd)
    ensures Delivered(fs, table, run, fd) == Content(fs, table[fd].info)
  {
    hide GoodFile, Delivered;
    ReadsAreSequentialAndIndependent(fs, table, run, fd);
    ReadsAreSequentialAndIndependent(fs, table, run + [Request(fd, n)], fd);
    RequestedAppend(run, fd, n);
    var c := Content(fs, table[fd].info);
    assert c[0..|c|] == c;
  }

  lemma {:induction false} RequestedAppend(run: seq<Request>, fd: word, n: nat)
    ensures Requested(run + [Request(fd, n)], fd) == Requested(run, fd) + n
  {
    if run != [] {
      RequestedAppend(run[1..], fd, n);
      assert (run + [Request(fd, n)])[1..] == run[1..] + [Request(fd, n)];
    }
  }
}
