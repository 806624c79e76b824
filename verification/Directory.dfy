/** Listing the directory with dir_read, and looking listed names up again. */
module Directory {
  import opened Arithmetic
  import opened Bytes
  import opened FileSystem

  /** The image holds every entry its header announces. */
  ghost predicate HasDirectory(fs: seq<byte>) {
    HasBootBlock(fs) && 64 * (NumDirs(fs) + 1) <= |fs|
  }

  /** One dir_read from cursor `index`: the bytes of the name it delivers, and the next cursor. */
  function DirStep(fs: seq<byte>, index: nat): (r: (seq<byte>, nat))
    requires HasDirectory(fs)
  {
    if index < NumDirs(fs) then (EntryName(fs, index), index + 1) else ([], 0)
  }

  /** In a `dentry_t` the four type bytes follow the name; `strlen` of an unterminated name runs into them. */
  lemma NameInsideStruct(name: seq<byte>, fileType: byte)
    requires |name| == 32
    ensures Min(32, |CStr(name + [fileType, 0, 0, 0])|) == |CStr(name)|
    ensures CStr(name + [fileType, 0, 0, 0])[..|CStr(name)|] == CStr(name)
  {
    var whole := name + [fileType, 0, 0, 0];
    var k := |CStr(name)|;
    assert whole[..k] == name[..k];
    if k < 32 {
      CStrIs(whole, k);
    } else {
      CStrCoversPrefix(whole, 32);
    }
  }

  class DirectoryReader {
    /** The function-static cursor that all dir_read calls share. */
    var directoryIndex: nat

    constructor ()
      ensures directoryIndex == 0
    {
      directoryIndex := 0;
    }

    method DirRead(fs: seq<byte>, buf: array<byte>, at: nat) returns (r: nat)
      requires HasDirectory(fs) && at + 33 <= buf.Length
      modifies this, buf
      ensures r <= 32
      ensures (buf[at..at + r], directoryIndex) == DirStep(fs, old(directoryIndex))
      ensures old(directoryIndex) < NumDirs(fs) ==> buf[at..at + 33] == Pad(buf[at..at + r], 33)
      ensures old(directoryIndex) >= NumDirs(fs) ==> r == 0 && buf[..] == old(buf[..])
      ensures forall j :: 0 <= j < buf.Length && !(at <= j < at + 33) ==> buf[j] == old(buf[j])
    {
      hide WordAt, CStr;
      var d := ReadDentryByIndex(fs, directoryIndex);
      if d.Some? {
        directoryIndex := directoryIndex + 1;
        MemSet(buf, at, 0, 33);
        var field := d.value.name + [d.value.fileType, 0, 0, 0];
        NameInsideStruct(d.value.name, d.value.fileType);
        var name := |CStr(field)|;
        if name > 32 {
          name := 32;
        }
        StrNCpy(buf, at, field, name);
        assert CStr(field)[..name] == EntryName(fs, old(directoryIndex));
        assert buf[at..at + name] == Pad(CStr(field)[..name], name) == CStr(field)[..name];
        assert buf[at..at + 33] == buf[at..at + name] + Zeros(33 - name);
        return name;
      } else {
        directoryIndex := 0;
        assert buf[at..at + 0] == [];
        return 0;
      }
    }
  }

  /** What k calls from cursor `index` deliver, one name per call ("" for a 0 return), and the cursor. */
  function DirCalls(fs: seq<byte>, index: nat, k: nat): (r: (seq<seq<byte>>, nat))
    requires HasDirectory(fs)
  {
    if k == 0 then ([], index) else
    var (names, i) := DirCalls(fs, index, k - 1);
    var (name, j) := DirStep(fs, i);
    (names + [name], j)
  }

  /**
   * Listing is a cycle of length n + 1: call number j gives entry j mod (n + 1), and the call after
   * the last entry gives 0 and starts over. Holds for any number of calls.
   */
  lemma {:induction false} ListingCycles(fs: seq<byte>, k: nat)
    requires HasDirectory(fs)
    ensures var n := NumDirs(fs);
            var (names, index) := DirCalls(fs, 0, k);
            && |names| == k
            && index == k % (n + 1)
            && forall j :: 0 <= j < k ==>
                 names[j] == if j % (n + 1) < n then EntryName(fs, j % (n + 1)) else []
  {
    hide EntryName, WordAt;
    if k != 0 {
      ListingCycles(fs, k - 1);
      NextModulo(k - 1, NumDirs(fs) + 1);
    }
  }

  /** A name that the listing gave is found again as itself unless an earlier entry begins with it. */
  lemma ListedNameIsFound(fs: seq<byte>, n: nat)
    requires HasDirectory(fs) && n < NumDirs(fs) == fs[0] && EntryName(fs, n) != []
    requires LookupInImage(fs, fs[0], EntryName(fs, n))
    ensures Lookup(fs, EntryName(fs, n)) == Some(n)
            <==> forall k :: 0 <= k < n ==> !Matches(fs, k, EntryName(fs, n))
  {
    var a := EntryAddress(n);
    var name := EntryName(fs, n);
    assert fs[a..a + |name|] == fs[a..a + 32][..|name|];
    assert Matches(fs, n, name);
  }

  /** Lookup by name keeps whole words, lookup by index one byte of each: they agree below 256. */
  lemma EntriesAgree(fs: seq<byte>, n: nat)
    requires HasEntry(fs, n)
    ensures StoredDentry(fs, n) == CopiedDentry(fs, n)
            <==> StoredDentry(fs, n).fileType < 256 && StoredDentry(fs, n).inode < 256
  {
  }

  /**
   * The name that any call of a listing gave: looking it up finds the entry it came from, with the type and
   * the inode that the listing saw, exactly if no earlier entry begins with it and both are below 256.
   */
  lemma ListedNamesResolve(fs: seq<byte>, k: nat, j: nat)
    requires HasDirectory(fs) && NumDirs(fs) == fs[0] && j < k && j % (NumDirs(fs) + 1) < NumDirs(fs)
    requires |DirCalls(fs, 0, k).0| == k
    requires DirCalls(fs, 0, k).0[j] != [] && LookupInImage(fs, fs[0], DirCalls(fs, 0, k).0[j])
    ensures var (name, n) := (DirCalls(fs, 0, k).0[j], j % (NumDirs(fs) + 1));
            && 64 * (n + 1) + |name| <= |fs| && HasEntry(fs, n)
            && (Lookup(fs, name) == Some(n) && StoredDentry(fs, n) == CopiedDentry(fs, n)
                <==> && (forall i :: 0 <= i < n ==> !Matches(fs, i, name))
                     && StoredDentry(fs, n).fileType < 256 && StoredDentry(fs, n).inode < 256)
  {
    hide EntryName, WordAt, DirCalls, FirstMatch, CStr;
    var n := j % (NumDirs(fs) + 1);
    ListingCycles(fs, k);
    ListedNameIsFound(fs, n);
    EntriesAgree(fs, n);
  }

  /** A directory of "ab" followed by "a". */
  function ShadowingImage(): (fs: seq<byte>)
    ensures |fs| == 4096
  {
    seq(4096, i => if i == 0 then 2 else if i == 64 || i == 128 then 97 else if i == 65 then 98 else 0)
  }

  /** Looking up "a" finds "ab". */
  lemma PrefixShadowsName()
    ensures HasDirectory(ShadowingImage()) && NumDirs(ShadowingImage()) == 2
    ensures EntryName(ShadowingImage(), 1) == [97] && EntryName(ShadowingImage(), 0) == [97, 98]
    ensures Lookup(ShadowingImage(), [97]) == Some(0)
  {
    var fs := ShadowingImage();
    CStrIs(fs[128..160], 1);
    assert fs[128..160][..1] == [97];
    CStrIs(fs[64..96], 2);
    assert fs[64..96][..2] == [97, 98];
    assert fs[64..65] == [97];
    assert Matches(fs, 0, [97]);
  }
}
