/** The `cat` program: open, then copy the file to the screen 1024 bytes at a time. */
module Cat {
  import opened Bytes
  import opened FileSystem
  import opened Descriptors

  /** `name` resolves to nothing or to a regular file, and is not a console name. */
  ghost predicate FileOrNothing(fs: seq<byte>, name: seq<byte>) {
    && Openable(fs, name)
    && !StartsWith(name, STDIN_NAME) && !StartsWith(name, STDOUT_NAME)
    && (Lookup(fs, name).Some? ==> StoredDentry(fs, Lookup(fs, name).value).fileType == 2)
  }

  /** The descriptor that opening `name` yields in `table`, if any. */
  function Opens(fs: seq<byte>, table: seq<Fd>, name: seq<byte>): Option<nat>
    requires |table| == 8 && Openable(fs, name)
  {
    var fd := OpenStep(fs, table, name).1;
    if fd < 0 then None else Some(fd)
  }

  lemma OpenedFile(fs: seq<byte>, table: seq<Fd>, name: seq<byte>)
    requires GoodDirectory(fs) && FileOrNothing(fs, name) && GoodTable(fs, table)
    ensures var (after, fd) := OpenStep(fs, table, name);
            && (fd == -1 ==> after == table)
            && (fd != -1 ==>
                  && 2 <= fd < 8 && !table[fd].inUse && Lookup(fs, name).Some?
                  && var inode := StoredDentry(fs, Lookup(fs, name).value).inode;
                     after == table[fd := Fd(FileOps, true, 0, inode)] && GoodFile(fs, inode) && GoodTable(fs, after))
  {
    hide GoodFile, FirstMatch, WordAt;
    OpenTakesLeastFree(fs, table, name);
    CallKeepsTableGood(fs, table, OpenCall(name));
  }

  /** The read call on a file of which so far `pos` bytes were read. */
  method ReadNext(fs: seq<byte>, fds: array<Fd>, base: nat, fd: word, ghost table: seq<Fd>, ghost inode: word,
                  ghost pos: word, buf: array<byte>, at: nat, n: nat)
    returns (cnt: nat)
    requires base + 8 <= fds.Length && fd < 8 && GoodTable(fs, table) && n < 0x8000_0000 && at + n <= buf.Length
    requires GoodFile(fs, inode) && pos <= FileLength(fs, inode)
    requires fds[base..base + 8] == table[fd := Fd(FileOps, true, pos, inode)]
    modifies fds, buf
    ensures cnt <= n && pos + cnt == Min(FileLength(fs, inode), pos + n)
    ensures fds[base..base + 8] == table[fd := Fd(FileOps, true, pos + cnt, inode)]
    ensures forall j :: 0 <= j < fds.Length && !(base <= j < base + 8) ==> fds[j] == old(fds[j])
    ensures buf[at..at + n] == Pad(Content(fs, inode)[pos..pos + cnt], n)
    ensures forall j :: 0 <= j < buf.Length && !(at <= j < at + n) ==> buf[j] == old(buf[j])
  {
    hide Content, GoodFile, FileLength, Pad;
    assert fds[base + fd] == fds[base..base + 8][fd];
    cnt := Read(fs, fds, base, fd, buf, at, n);
  }

  /**
   * What was written is the whole file; 2 is returned when the file does not open. The program leaves its
   * descriptor open, at the end of the file, for halt to close.
   */
  method CatMain(fs: seq<byte>, fds: array<Fd>, base: nat, name: seq<byte>) returns (status: int, out: seq<byte>)
    requires GoodDirectory(fs) && FileOrNothing(fs, name)
    requires base + 8 <= fds.Length && GoodTable(fs, fds[base..base + 8])
    modifies fds
    ensures match Opens(fs, old(fds[base..base + 8]), name)
            case None => status == 2 && out == []
            case Some(_) =>
              var inode := StoredDentry(fs, Lookup(fs, name).value).inode;
              status == 0 && GoodFile(fs, inode) && out == Content(fs, inode)
    ensures var table := old(fds[base..base + 8]);
            fds[base..base + 8] ==
            match Opens(fs, table, name)
            case None => table
            case Some(fd) =>
              var inode := StoredDentry(fs, Lookup(fs, name).value).inode;
              table[fd := Fd(FileOps, true, FileLength(fs, inode), inode)]
    ensures forall j :: 0 <= j < fds.Length && !(base <= j < base + 8) ==> fds[j] == old(fds[j])
  {
    OpenedFile(fs, fds[base..base + 8], name);
    hide Content, WordAt, OpenStep, FirstMatch, Lookup, StoredDentry, GoodFile, FileLength, Pad,
      GoodDirectory, GoodTable;
    ghost var whole := fds[..];
    out := [];
    ghost var before := fds[base..base + 8];
    var fd := Open(fs, fds, base, name);
    if fd == -1 {
      return 2, [];
    }
    ghost var inode := StoredDentry(fs, Lookup(fs, name).value).inode;
    ghost var content := Content(fs, inode);
    var buf := new byte[1024](i => 0);
    ghost var pos: word := 0;
    while true
      invariant pos <= |content| && out == content[..pos]
      invariant fds[base..base + 8] == before[fd := Fd(FileOps, true, pos, inode)]
      invariant forall j :: 0 <= j < fds.Length && !(base <= j < base + 8) ==> fds[j] == whole[j]
      decreases |content| - pos
    {
      var cnt := ReadNext(fs, fds, base, fd, before, inode, pos, buf, 0, 1024);
      if cnt == 0 {
        assert content[..pos] == content;
        break;
      }
      NextChunk(content, pos, cnt, buf[0..0 + 1024]);
      assert buf[..cnt] == buf[0..0 + 1024][..cnt];
      out := out + buf[..cnt];
      pos := pos + cnt;
    }
    return 0, out;
  }

  lemma NextChunk(content: seq<byte>, pos: nat, cnt: nat, buf: seq<byte>)
    requires pos + cnt <= |content| && cnt <= 1024 && buf == Pad(content[pos..pos + cnt], 1024)
    ensures content[..pos + cnt] == content[..pos] + buf[..cnt]
  {
    assert buf[..cnt] == content[pos..pos + cnt];
  }
}
