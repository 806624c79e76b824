/**
 * The read-only file system image: a boot block with 64-byte directory entries, then one
 * 4096-byte inode block per file, then the data blocks. `fs` is the image as loaded at `start_fs`;
 * addresses are offsets into it.
 */
module FileSystem {
  import opened Bytes

  datatype Dentry = Dentry(name: seq<byte>, fileType: word, inode: word)

  // ---------------------------------------------------------------- layout of the image

  function WordAt(fs: seq<byte>, a: nat): (w: word)
    requires a + 4 <= |fs|
  {
    var (b0: int, b1: int, b2: int, b3: int) := (fs[a], fs[a + 1], fs[a + 2], fs[a + 3]);
    b0 + 0x100 * b1 + 0x1_0000 * b2 + 0x100_0000 * b3
  }

  ghost predicate HasBootBlock(fs: seq<byte>) {
    4096 <= |fs| <= 0x1_0000_0000
  }

  function NumDirs(fs: seq<byte>): word
    requires HasBootBlock(fs)
  {
    WordAt(fs, 0)
  }

  function NumInodes(fs: seq<byte>): word
    requires HasBootBlock(fs)
  {
    WordAt(fs, 4)
  }

  function InodeAddress(inode: nat): nat {
    4096 * (1 + inode)
  }

  function BlockAddress(fs: seq<byte>, block: nat): nat
    requires HasBootBlock(fs)
  {
    4096 * (1 + NumInodes(fs) + block)
  }

  ghost predicate HasInode(fs: seq<byte>, inode: nat) {
    && HasBootBlock(fs)
    && inode < NumInodes(fs)
    && 4096 * (1 + NumInodes(fs)) <= |fs|
  }

  function FileLength(fs: seq<byte>, inode: nat): word
    requires HasInode(fs, inode)
  {
    WordAt(fs, InodeAddress(inode))
  }

  /** The number of the data block that holds bytes 4096k .. 4096k + 4095 of the file. */
  function BlockNumber(fs: seq<byte>, inode: nat, k: nat): word
    requires HasInode(fs, inode) && k < 1023
  {
    WordAt(fs, InodeAddress(inode) + 4 * (k + 1))
  }

  /** Every block the file uses lies inside the image; the block numbers are otherwise arbitrary. */
  ghost predicate GoodFile(fs: seq<byte>, inode: nat) {
    && HasInode(fs, inode)
    && FileLength(fs, inode) <= 1023 * 4096
    && forall k :: 0 <= k < 1023 && k * 4096 < FileLength(fs, inode) ==>
         BlockAddress(fs, BlockNumber(fs, inode, k)) + 4096 <= |fs|
  }

  function ContentByte(fs: seq<byte>, inode: nat, k: nat): byte
    requires GoodFile(fs, inode) && k < FileLength(fs, inode)
  {
    fs[BlockAddress(fs, BlockNumber(fs, inode, k / 4096)) + k % 4096]
  }

  /** What the file holds: byte k is byte k % 4096 of its block number k / 4096. */
  function Content(fs: seq<byte>, inode: nat): (c: seq<byte>)
    requires GoodFile(fs, inode)
    ensures |c| == FileLength(fs, inode)
  {
    seq(FileLength(fs, inode),
        k requires 0 <= k < FileLength(fs, inode) => ContentByte(fs, inode, k))
  }

  // ---------------------------------------------------------------- read_data

  /** The byte count read_data settles on, in 32-bit unsigned arithmetic. */
  function ClampedLength(fileLength: word, offset: word, length: word): word {
    if (length + offset) % 0x1_0000_0000 >= fileLength then (fileLength - offset) % 0x1_0000_0000 else length
  }

  /** The caller's side: the offset is inside the file and the request does not wrap into it. */
  predicate RequestOk(fileLength: word, offset: word, length: word) {
    offset <= fileLength && !(length + offset >= 0x1_0000_0000 && length + offset - 0x1_0000_0000 < fileLength)
  }

  function Available(fileLength: word, offset: word, length: word): int {
    if offset <= fileLength then Min(length, fileLength - offset) else 0
  }

  /** The clamp keeps a read inside the file exactly when the request satisfies `RequestOk`. */
  lemma ClampStaysInsideFile(fileLength: word, offset: word, length: word)
    ensures ClampedLength(fileLength, offset, length) == Available(fileLength, offset, length)
            <==> RequestOk(fileLength, offset, length)
  {
    if length + offset >= 0x1_0000_0000 {
      assert (length + offset) % 0x1_0000_0000 == length + offset - 0x1_0000_0000;
    }
    if offset > fileLength {
      assert (fileLength - offset) % 0x1_0000_0000 == fileLength - offset + 0x1_0000_0000;
    }
  }

  /**
   * What execute asks for when it reads the entry point, four bytes at offset 24: all of them from a file of 28
   * bytes, fewer from 24 bytes on, and from a shorter file the clamp wraps and asks for almost 4 GB.
   */
  lemma EntryPointRequest(fileLength: word)
    ensures RequestOk(fileLength, 24, 4) <==> fileLength >= 24
    ensures ClampedLength(fileLength, 24, 4) ==
              if fileLength >= 28 then 4
              else if fileLength >= 24 then fileLength - 24
              else 0x1_0000_0000 - (24 - fileLength)
  {
    if fileLength < 24 {
      assert (fileLength - 24) % 0x1_0000_0000 == fileLength - 24 + 0x1_0000_0000;
    }
  }

  /** An executable of 10 bytes, whose header is read and found good. */
  lemma ReadPastEndWraps()
    ensures RequestOk(10, 0, 4) && ClampedLength(10, 24, 4) == 0x1_0000_0000 - 14
  {
  }

  method ReadData(fs: seq<byte>, inode: nat, offset: word, buf: array<byte>, at: nat, length: word)
    returns (r: int)
    requires GoodFile(fs, inode)
    requires RequestOk(FileLength(fs, inode), offset, length)
    requires at + Available(FileLength(fs, inode), offset, length) <= buf.Length
    modifies buf
    ensures r == if FileLength(fs, inode) == 0 then -1
                 else Available(FileLength(fs, inode), offset, length)
    ensures r >= 0 ==> buf[at..at + r] == Content(fs, inode)[offset..offset + r]
    ensures forall j :: 0 <= j < buf.Length && !(at <= j < at + r) ==> buf[j] == old(buf[j])
  {
    var fileLength := FileLength(fs, inode);
    if fileLength == 0 {
      return -1;
    }
    var n: word := length;
    if (length + offset) % 0x1_0000_0000 >= fileLength {
      n := (fileLength - offset) % 0x1_0000_0000;
    }
    ClampStaysInsideFile(fileLength, offset, length);
    r := CopyBlocks(fs, inode, offset, buf, at, n);
    assert buf[at..at + r] == Content(fs, inode)[offset..offset + r];
  }

  /** read_data's loop: walk the inode's block list from the block that holds `offset`. */
  method CopyBlocks(fs: seq<byte>, inode: nat, offset: nat, buf: array<byte>, at: nat, n: nat)
    returns (i: nat)
    requires GoodFile(fs, inode) && offset + n <= FileLength(fs, inode) && FileLength(fs, inode) > 0
    requires at + n <= buf.Length
    modifies buf
    ensures i == n
    ensures forall j :: at <= j < at + n ==> buf[j] == ContentByte(fs, inode, offset + (j - at))
    ensures forall j :: 0 <= j < buf.Length && !(at <= j < at + n) ==> buf[j] == old(buf[j])
  {
    hide ContentByte, Content;
    ContentAt(fs, inode, 0, 0);
    var blockPtr := InodeAddress(inode) + 4 * (offset / 4096 + 1);
    var left := 4096 - offset % 4096;
    var addr := BlockAddress(fs, WordAt(fs, blockPtr)) + offset % 4096;
    // The walk stands at byte `inBlock` of the file's block number `block`.
    ghost var block: nat, inBlock: nat := offset / 4096, offset % 4096;
    i := 0;
    while i < n
      invariant 0 <= i <= n
      invariant offset + i == block * 4096 + inBlock && inBlock == 4096 - left && 0 <= left
      invariant block <= 1023 && blockPtr == InodeAddress(inode) + 4 * (block + 1)
      invariant i < n ==> block < 1023 && addr == BlockAddress(fs, BlockNumber(fs, inode, block)) + inBlock
      invariant forall j :: at <= j < at + i ==> buf[j] == ContentByte(fs, inode, offset + (j - at))
      invariant forall j :: 0 <= j < buf.Length && !(at <= j < at + i) ==> buf[j] == old(buf[j])
    {
      if left == 0 {
        blockPtr := blockPtr + 4;
        addr := BlockAddress(fs, WordAt(fs, blockPtr));
        left := 4096;
        block, inBlock := block + 1, 0;
      }
      ContentAt(fs, inode, block, inBlock);
      buf[at + i] := fs[addr];
      left := left - 1;
      inBlock := inBlock + 1;
      i := i + 1;
      addr := addr + 1;
    }
  }

  lemma ContentAt(fs: seq<byte>, inode: nat, block: nat, inBlock: nat)
    requires GoodFile(fs, inode) && block < 1023 && inBlock < 4096
    requires block * 4096 + inBlock < FileLength(fs, inode)
    ensures BlockAddress(fs, BlockNumber(fs, inode, block)) + 4096 <= |fs|
    ensures ContentByte(fs, inode, block * 4096 + inBlock)
         == fs[BlockAddress(fs, BlockNumber(fs, inode, block)) + inBlock]
  {
    assert (block * 4096 + inBlock) / 4096 == block && (block * 4096 + inBlock) % 4096 == inBlock;
  }

  // ---------------------------------------------------------------- directory entries

  function EntryAddress(n: nat): nat {
    64 * (n + 1)
  }

  ghost predicate HasEntry(fs: seq<byte>, n: nat) {
    HasBootBlock(fs) && EntryAddress(n) + 64 <= |fs|
  }

  /** The directory entry as it is stored, with full 32-bit type and inode. */
  function StoredDentry(fs: seq<byte>, n: nat): Dentry
    requires HasEntry(fs, n)
  {
    var a := EntryAddress(n);
    Dentry(fs[a..a + 32], WordAt(fs, a + 32), WordAt(fs, a + 36))
  }

  /** The name of entry n: 32 bytes at most, or up to the first NUL. */
  function EntryName(fs: seq<byte>, n: nat): (name: seq<byte>)
    requires HasEntry(fs, n)
  {
    CStr(fs[EntryAddress(n)..EntryAddress(n) + 32])
  }

  /** read_dentry_by_name's test: the entry's bytes begin with the name looked up. */
  predicate Matches(fs: seq<byte>, n: nat, name: seq<byte>)
    requires EntryAddress(n) + |name| <= |fs|
  {
    fs[EntryAddress(n)..EntryAddress(n) + |name|] == name
  }

  /** Every comparison of a lookup over `count` entries stays inside the image. */
  ghost predicate LookupInImage(fs: seq<byte>, count: nat, name: seq<byte>) {
    HasBootBlock(fs) && 64 * (count + 1) + |name| <= |fs|
  }

  /** The first entry at or after n, below `count`, that matches. */
  function FirstMatch(fs: seq<byte>, n: nat, count: nat, name: seq<byte>): (r: Option<nat>)
    requires LookupInImage(fs, count, name)
    ensures r.None? ==> forall k :: n <= k < count ==> !Matches(fs, k, name)
    ensures r.Some? ==> n <= r.value < count && Matches(fs, r.value, name)
    ensures r.Some? ==> forall k :: n <= k < r.value ==> !Matches(fs, k, name)
    decreases count - n
  {
    if n >= count then None
    else if Matches(fs, n, name) then Some(n)
    else FirstMatch(fs, n + 1, count, name)
  }

  /** The entry read_dentry_by_name settles on; it counts entries by the low byte of the header. */
  function Lookup(fs: seq<byte>, name: seq<byte>): Option<nat>
    requires HasBootBlock(fs) && LookupInImage(fs, fs[0], name)
  {
    if name == [] then None else FirstMatch(fs, 0, fs[0], name)
  }

  /** `strncmp` of `n` bytes at `at` against the string `s`, with signed chars. */
  method StrNCmp(fs: seq<byte>, at: nat, s: seq<byte>, n: nat) returns (r: int)
    requires n <= |s| && at + n <= |fs| && NoNul(s)
    ensures -255 <= r <= 255
    ensures r == 0 <==> fs[at..at + n] == s[..n]
  {
    var i := 0;
    while i < n
      invariant 0 <= i <= n
      invariant fs[at..at + i] == s[..i]
    {
      if fs[at + i] != s[i] || fs[at + i] == 0 {
        assert fs[at..at + n][i] != s[..n][i];
        return Signed(fs[at + i]) - Signed(s[i]);
      }
      assert fs[at..at + i + 1] == fs[at..at + i] + [fs[at + i]] && s[..i + 1] == s[..i] + [s[i]];
      i := i + 1;
    }
    return 0;
  }

  /** The conversion of an `int` to a signed `char`. */
  function ToChar(r: int): int {
    if r % 256 < 128 then r % 256 else r % 256 - 256
  }

  method ReadDentryByName(fs: seq<byte>, name: seq<byte>) returns (r: Option<Dentry>)
    requires HasBootBlock(fs) && LookupInImage(fs, fs[0], name) && NoNul(name)
    ensures r == match Lookup(fs, name) case None => None case Some(n) => Some(StoredDentry(fs, n))
  {
    if name == [] {
      return None;
    }
    var numDirs := fs[0];
    var n := 0;
    while n < numDirs
      invariant 0 <= n <= numDirs
      invariant FirstMatch(fs, 0, numDirs, name) == FirstMatch(fs, n, numDirs, name)
    {
      var d := StrNCmp(fs, EntryAddress(n), name, |name|);
      var x := ToChar(d);
      if x == 0 {
        assert d == 0 && name[..|name|] == name;
        return Some(StoredDentry(fs, n));
      }
      n := n + 1;
    }
    return None;
  }

  /** The entry as copy_dentry copies it: one byte each of the type and the inode. */
  function CopiedDentry(fs: seq<byte>, n: nat): Dentry
    requires HasEntry(fs, n)
  {
    var a := EntryAddress(n);
    Dentry(fs[a..a + 32], fs[a + 32], fs[a + 36])
  }

  method CopyDentry(fs: seq<byte>, n: nat) returns (d: Dentry)
    requires HasEntry(fs, n)
    ensures d == CopiedDentry(fs, n)
  {
    var a := EntryAddress(n);
    var name := new byte[32](i => 0);
    var m := 0;
    while m < 32
      invariant 0 <= m <= 32
      invariant name[..m] == fs[a..a + m]
    {
      name[m] := fs[a + m];
      m := m + 1;
      assert fs[a..a + m] == fs[a..a + m - 1] + [fs[a + m - 1]];
    }
    assert name[..] == name[..m];
    return Dentry(name[..], fs[a + 32], fs[a + 36]);
  }

  method ReadDentryByIndex(fs: seq<byte>, index: nat) returns (r: Option<Dentry>)
    requires HasBootBlock(fs) && (index < NumDirs(fs) ==> HasEntry(fs, index))
    ensures r == if index < NumDirs(fs) then Some(CopiedDentry(fs, index)) else None
  {
    if index >= NumDirs(fs) {
      return None;
    }
    var d := CopyDentry(fs, index);
    return Some(d);
  }
}
