/** File system images by their bytes: what the lookups and read_data make of what is stored where. */
module Images {
  import opened Arithmetic
  import opened Bytes
  import opened FileSystem

  /** A word is read back as it was stored, low byte first, at any position. */
  lemma WordReadsBack(fs: seq<byte>, a: nat, w: word)
    requires a + 4 <= |fs|
    ensures WordAt(fs, a) == w
            <==> && fs[a] == w % 0x100 && fs[a + 1] == w / 0x100 % 0x100
                 && fs[a + 2] == w / 0x1_0000 % 0x100 && fs[a + 3] == w / 0x100_0000 % 0x100
  {
    WordParts(w);
    if WordAt(fs, a) == w {
      BytesOfWord(fs[a], fs[a + 1], fs[a + 2], fs[a + 3], w);
    }
  }

  lemma BytesOfWord(b0: int, b1: int, b2: int, b3: int, w: int)
    requires 0 <= b0 < 0x100 && 0 <= b1 < 0x100 && 0 <= b2 < 0x100 && 0 <= b3 < 0x100
    requires w == b0 + 0x100 * b1 + 0x1_0000 * b2 + 0x100_0000 * b3
    ensures b0 == w % 0x100 && b1 == w / 0x100 % 0x100
    ensures b2 == w / 0x1_0000 % 0x100 && b3 == w / 0x100_0000 % 0x100
  {
    DivModUnique(w, 0x100, b1 + 0x100 * b2 + 0x1_0000 * b3, b0);
    DivModUnique(w, 0x1_0000, b2 + 0x100 * b3, b0 + 0x100 * b1);
    DivModUnique(w, 0x100_0000, b3, b0 + 0x100 * b1 + 0x1_0000 * b2);
  }

  lemma WordParts(w: word)
    ensures w == w % 0x100 + 0x100 * (w / 0x100 % 0x100) + 0x1_0000 * (w / 0x1_0000 % 0x100)
                 + 0x100_0000 * (w / 0x100_0000 % 0x100)
  {
  }

  /**
   * A file whose length and block numbers stand in inode block `inode`, and whose blocks stand behind all inode
   * blocks in any order: that is what the image holds.
   */
  lemma ContentByBytes(fs: seq<byte>, inodes: word, inode: nat, blocks: seq<word>, content: seq<byte>)
    requires 4096 <= |fs| <= 0x1_0000_0000 && 4096 * (1 + inodes) <= |fs|
    requires WordAt(fs, 4) == inodes && inode < inodes
    requires |content| <= 4096 * 1023 && |content| <= 4096 * |blocks| && |blocks| <= 1023
    requires WordAt(fs, 4096 * (1 + inode)) == |content|
    requires forall k :: 0 <= k < |blocks| ==>
               && WordAt(fs, 4096 * (1 + inode) + 4 + 4 * k) == blocks[k]
               && 4096 * (1 + inodes + blocks[k]) + 4096 <= |fs|
    requires forall i :: 0 <= i < |content| ==>
               content[i] == fs[4096 * (1 + inodes + blocks[i / 4096]) + i % 4096]
    ensures GoodFile(fs, inode) && Content(fs, inode) == content
  {
    forall k | 0 <= k < 1023 && k * 4096 < FileLength(fs, inode)
      ensures BlockAddress(fs, BlockNumber(fs, inode, k)) + 4096 <= |fs|
    {
      assert WordAt(fs, 4096 * (1 + inode) + 4 + 4 * k) == blocks[k];
    }
    var c := Content(fs, inode);
    forall i | 0 <= i < |content| ensures c[i] == content[i] {
      assert WordAt(fs, 4096 * (1 + inode) + 4 + 4 * (i / 4096)) == blocks[i / 4096];
      assert c[i] == ContentByte(fs, inode, i);
    }
  }

  /** The directory entry that stands in the 64 bytes from 64 (n + 1) on. */
  lemma EntryByBytes(fs: seq<byte>, n: nat, name: seq<byte>, fileType: word, inode: word)
    requires 4096 <= |fs| <= 0x1_0000_0000 && 64 * (n + 1) + 64 <= |fs|
    requires NoNul(name) && |name| <= 32 && fs[64 * (n + 1)..64 * (n + 1) + |name|] == name
    requires |name| < 32 ==> fs[64 * (n + 1) + |name|] == 0
    requires WordAt(fs, 64 * (n + 1) + 32) == fileType && WordAt(fs, 64 * (n + 1) + 36) == inode
    ensures EntryName(fs, n) == name
    ensures StoredDentry(fs, n).fileType == fileType && StoredDentry(fs, n).inode == inode
    ensures StoredDentry(fs, n).name == fs[64 * (n + 1)..64 * (n + 1) + 32]
  {
    hide CStr, WordAt;
    var field := fs[64 * (n + 1)..64 * (n + 1) + 32];
    assert field[..|name|] == name;
    CStrIs(field, |name|);
  }

  /** A lookup finds the first entry whose bytes begin with the name. */
  lemma LookupByBytes(fs: seq<byte>, name: seq<byte>, n: nat)
    requires 4096 <= |fs| <= 0x1_0000_0000 && 64 * (fs[0] + 1) + |name| <= |fs| && n < fs[0]
    ensures Lookup(fs, name) == Some(n)
            <==> && name != [] && fs[64 * (n + 1)..][..|name|] == name
                 && forall a :: 64 <= a < 64 * (n + 1) && a % 64 == 0 ==> fs[a..][..|name|] != name
  {
    forall k | 0 <= k < fs[0] ensures Matches(fs, k, name) <==> fs[64 * (k + 1)..][..|name|] == name {
      assert fs[64 * (k + 1)..][..|name|] == fs[64 * (k + 1)..64 * (k + 1) + |name|];
    }
    if forall a :: 64 <= a < 64 * (n + 1) && a % 64 == 0 ==> fs[a..][..|name|] != name {
      forall k | 0 <= k < n ensures !Matches(fs, k, name) {
        assert fs[64 * (k + 1)..][..|name|] != name;
      }
      if name != [] && Matches(fs, n, name) {
        var first := FirstMatch(fs, 0, fs[0], name);
        assert first.Some?;
        assert Matches(fs, first.value, name);
      }
    } else {
      var a :| 64 <= a < 64 * (n + 1) && a % 64 == 0 && fs[a..][..|name|] == name;
      assert Matches(fs, a / 64 - 1, name);
    }
  }

  // ---------------------------------------------------------------- an image with a file of two blocks

  /**
   * One entry, "cat", of type 2 and inode 0; a length of 0x1388 = 5000; its first block is data block 1, of
   * the letter a, and its second is data block 0, of the letter b.
   */
  function TwoBlockImage(): (fs: seq<byte>)
    ensures |fs| == 16384
  {
    seq(16384, i =>
      if i == 0 || i == 4 then 1
      else if i == 8 then 2
      else if i == 64 then 99 else if i == 65 then 97 else if i == 66 then 116
      else if i == 96 then 2
      else if i == 4096 then 0x88 else if i == 4097 then 0x13
      else if i == 4100 then 1
      else if 8192 <= i < 12288 then 98
      else if 12288 <= i then 97
      else 0)
  }

  function TwoBlockFile(): (c: seq<byte>)
    ensures |c| == 5000
  {
    seq(5000, k => if k < 4096 then 97 else 98)
  }

  lemma TwoBlockWords()
    ensures var fs := TwoBlockImage();
            && fs[0] == 1 && WordAt(fs, 4) == 1 && WordAt(fs, 4096) == 5000
            && WordAt(fs, 4100) == 1 && WordAt(fs, 4104) == 0 && WordAt(fs, 96) == 2 && WordAt(fs, 100) == 0
            && fs[64..67] == Chars("cat") && fs[67] == 0
  {
    hide WordAt;
    var fs := TwoBlockImage();
    SmallWord(fs, 4, 1);
    SmallWord(fs, 4096, 5000);
    SmallWord(fs, 4100, 1);
    SmallWord(fs, 4104, 0);
    SmallWord(fs, 96, 2);
    SmallWord(fs, 100, 0);
  }

  lemma SmallWord(fs: seq<byte>, a: nat, w: word)
    requires a + 4 <= |fs| && w < 0x1_0000
    requires fs[a] == w % 0x100 && fs[a + 1] == w / 0x100 && fs[a + 2] == fs[a + 3] == 0
    ensures WordAt(fs, a) == w
  {
    WordReadsBack(fs, a, w);
  }

  /** It is found, it is as long as its length bytes say, and its blocks come in the order of their numbers. */
  lemma TwoBlocksAreRead()
    ensures var fs := TwoBlockImage();
            && HasBootBlock(fs) && LookupInImage(fs, fs[0], Chars("cat")) && Lookup(fs, Chars("cat")) == Some(0)
            && StoredDentry(fs, 0).fileType == 2 && StoredDentry(fs, 0).inode == 0
            && GoodFile(fs, 0) && FileLength(fs, 0) == 5000 && Content(fs, 0) == TwoBlockFile()
  {
    TwoBlockWords();
    var fs := TwoBlockImage();
    LookupByBytes(fs, Chars("cat"), 0);
    TwoBlockBytes();
    hide TwoBlockImage, TwoBlockFile, WordAt, Content, Chars;
    EntryByBytes(fs, 0, fs[64..67], 2, 0);
    ContentByBytes(fs, 1, 0, [1, 0], TwoBlockFile());
  }

  lemma TwoBlockBytes()
    ensures var (fs, c) := (TwoBlockImage(), TwoBlockFile());
            && (forall i :: 0 <= i < 5000 ==> c[i] == fs[8192 + 4096 * [1, 0][i / 4096] + i % 4096])
            && NoNul(fs[64..67])
  {
  }

  /** read_data of 6000 bytes from byte 4090 on: 910 bytes, of which the first six are the end of the first block. */
  method ReadAcrossBlocks() returns (r: int, buf: array<byte>)
    ensures r == 910 && buf.Length == 6000 && fresh(buf)
    ensures forall j :: 0 <= j < 910 ==> buf[j] == if j < 6 then 97 else 98
    ensures forall j :: 910 <= j < 6000 ==> buf[j] == 0
  {
    TwoBlocksAreRead();
    hide TwoBlockImage, Content;
    buf := new byte[6000](i => 0);
    r := ReadData(TwoBlockImage(), 0, 4090, buf, 0, 6000);
    assert forall j :: 0 <= j < 910 ==> buf[j] == buf[0..910][j];
  }
}
