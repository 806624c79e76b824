/**
 * Page tables as 32-bit words, and what the processor makes of them: two-level translation with 4 MB
 * pages, as in section 4.3 of the Intel Software Developer's Manual, volume 3A.
 */
module Paging {
  import opened Arithmetic
  import opened Bits
  import opened Bytes

  /** The directory in use and the two page tables it can point to, with their addresses. */
  datatype Tables = Tables(directory: seq<word>, pageTable: seq<word>, videoTable: seq<word>,
                           pageTableAt: word, videoTableAt: word)

  datatype Access = Access(user: bool, write: bool)

  ghost predicate Shape(t: Tables) {
    && |t.directory| == |t.pageTable| == |t.videoTable| == 1024
    && t.pageTableAt % 4096 == 0 && t.videoTableAt % 4096 == 0 && t.pageTableAt != t.videoTableAt
  }

  // ---------------------------------------------------------------- the processor

  /** Present; user accesses also need the user bit, and user writes the write bit. */
  predicate Permits(entry: word, a: Access) {
    entry % 2 == 1 && (a.user ==> entry / 4 % 2 == 1) && (a.user && a.write ==> entry / 2 % 2 == 1)
  }

  predicate IsLarge(entry: word) {
    entry / 128 % 2 == 1
  }

  function TableAt(t: Tables, address: nat): Option<seq<word>> {
    if address == t.pageTableAt then Some(t.pageTable)
    else if address == t.videoTableAt then Some(t.videoTable)
    else None
  }

  /** The physical address of a virtual one, or None for a page fault. */
  function Translate(t: Tables, va: word, a: Access): Option<nat>
    requires Shape(t)
  {
    var pde := t.directory[va / 0x40_0000];
    if !Permits(pde, a) then None
    else if IsLarge(pde) then Some(pde / 0x40_0000 * 0x40_0000 + va % 0x40_0000)
    else
      match TableAt(t, pde / 4096 * 4096)
      case None => None
      case Some(table) =>
        var pte := table[va / 4096 % 1024];
        if !Permits(pte, a) then None else Some(pte / 4096 * 4096 + va % 4096)
  }

  // ---------------------------------------------------------------- the address space it should be

  /** Kernel accesses to pages 0xB8 to 0xBB and to 4 MB .. 8 MB, each mapped to itself. */
  function KernelMap(va: word, a: Access): Option<nat> {
    if !a.user && (0xB_8000 <= va < 0xB_C000 || 0x40_0000 <= va < 0x80_0000) then Some(va) else None
  }

  /** Also 128 MB .. 132 MB to the image frame of a process, and the page at 132 MB to video memory. */
  function AddressSpace(image: Option<nat>, video: bool, va: word, a: Access): Option<nat> {
    if image.Some? && 0x800_0000 <= va < 0x840_0000 then
      Some(0x80_0000 + 0x40_0000 * image.value + (va - 0x800_0000))
    else if video && 0x840_0000 <= va < 0x840_1000 then Some(0xB_8000 + (va - 0x840_0000))
    else KernelMap(va, a)
  }

  function ImageEntry(process: nat): nat {
    0x80_0087 + 0x40_0000 * process
  }

  function DirectoryEntry(t: Tables, image: Option<nat>, video: bool, i: nat): nat {
    if i == 0 then t.pageTableAt + 3
    else if i == 1 then 0x40_0083
    else if i == 0x20 && image.Some? then ImageEntry(image.value)
    else if i == 0x21 && video then t.videoTableAt + 7
    else 2
  }

  function PageEntry(i: nat): nat {
    4096 * i + if 0xB8 <= i <= 0xBB then 3 else 2
  }

  /** The words that enable_paging, load_new_process and load_video_mem leave in the tables. */
  ghost predicate LaidOut(t: Tables, image: Option<nat>, video: bool) {
    && Shape(t)
    && (image.Some? ==> image.value < 8)
    && (forall i :: 0 <= i < 1024 ==> t.directory[i] == DirectoryEntry(t, image, video, i))
    && (forall i :: 0 <= i < 1024 ==> t.pageTable[i] == PageEntry(i))
    && (forall i :: 1 <= i < 1024 ==> t.videoTable[i] == 0)
    && (video ==> t.videoTable[0] == 0xB_8007)
  }

  /** For all 2^32 addresses and every kind of access, the processor sees exactly that address space. */
  lemma LayoutGivesAddressSpace(t: Tables, image: Option<nat>, video: bool, va: word, a: Access)
    requires LaidOut(t, image, video)
    ensures Translate(t, va, a) == AddressSpace(image, video, va, a)
    ensures Translate(t, va, a) ==
              if image.Some? && 0x800_0000 <= va < 0x840_0000 then
                Some(0x40_0000 * (image.value + 2) + (va - 0x800_0000))
              else if video && 0x840_0000 <= va < 0x840_1000 then Some(va - 0x840_0000 + 0xB_8000)
              else if !a.user && (0xB_8000 <= va < 0xB_C000 || 0x40_0000 <= va < 0x80_0000) then Some(va)
              else None
  {
    hide Translate, LaidOut;
    AddressesTranslate(t, image, video, va, a);
  }

  lemma AddressesTranslate(t: Tables, image: Option<nat>, video: bool, va: word, a: Access)
    requires LaidOut(t, image, video)
    ensures Translate(t, va, a) == AddressSpace(image, video, va, a)
  {
    var i := va / 0x40_0000;
    if i == 0 {
      LowAddress(t, image, video, va, a);
    } else if i == 0x21 && video {
      VideoAddress(t, image, va, a);
    } else if i == 1 || (i == 0x20 && image.Some?) {
      LargeAddress(t, image, video, va, a);
    } else {
      assert t.directory[i] == 2;
    }
  }

  /** 4 MB .. 8 MB and the image are single pages of 4 MB. */
  lemma LargeAddress(t: Tables, image: Option<nat>, video: bool, va: word, a: Access)
    requires LaidOut(t, image, video)
    requires va / 0x40_0000 == 1 || (va / 0x40_0000 == 0x20 && image.Some?)
    ensures Translate(t, va, a) == AddressSpace(image, video, va, a)
  {
    var i := va / 0x40_0000;
    var pde := t.directory[i];
    assert pde == DirectoryEntry(t, image, video, i);
    var frame := if i == 1 then 1 else 2 + image.value;
    DivModUnique(pde, 0x40_0000, frame, pde - 0x40_0000 * frame);
    LargeFlags(frame, pde - 0x40_0000 * frame);
  }

  lemma LargeFlags(frame: nat, flags: nat)
    requires flags == 0x83 || flags == 0x87
    ensures var pde := 0x40_0000 * frame + flags;
            && pde % 2 == 1 && pde / 2 % 2 == 1 && pde / 128 % 2 == 1
            && pde / 4 % 2 == (if flags == 0x87 then 1 else 0)
  {
    var pde := 0x40_0000 * frame + flags;
    DivModUnique(pde, 2, 0x20_0000 * frame + flags / 2, 1);
    DivModUnique(pde, 4, 0x10_0000 * frame + flags / 4, 3);
    DivModUnique(pde, 128, 0x8000 * frame + 1, flags - 128);
    EvenPlus(0x10_0000 * frame, flags / 2);
    EvenPlus(0x8_0000 * frame, flags / 4);
    EvenPlus(0x4000 * frame, 1);
  }

  /** The first 4 MB go through the kernel's page table. */
  lemma LowAddress(t: Tables, image: Option<nat>, video: bool, va: word, a: Access)
    requires LaidOut(t, image, video) && va < 0x40_0000
    ensures Translate(t, va, a) == AddressSpace(image, video, va, a)
  {
    var j := va / 4096;
    assert t.directory[0] == t.pageTableAt + 3 && t.pageTable[j] == PageEntry(j);
    AlignedPlus(t.pageTableAt, 3);
    AlignedPlus(4096 * j, t.pageTable[j] - 4096 * j);
  }

  /** 132 MB to 136 MB go through the table that maps one page of video memory. */
  lemma VideoAddress(t: Tables, image: Option<nat>, va: word, a: Access)
    requires LaidOut(t, image, true) && 0x840_0000 <= va < 0x880_0000
    ensures Translate(t, va, a) == AddressSpace(image, true, va, a)
  {
    assert t.directory[0x21] == t.videoTableAt + 7;
    AlignedPlus(t.videoTableAt, 7);
    var j := va / 4096 % 1024;
    if j > 0 {
      assert t.videoTable[j] == 0;
    }
  }

  lemma AlignedPlus(base: word, flags: nat)
    requires base % 4096 == 0 && flags < 8
    ensures (base + flags) / 4096 * 4096 == base
    ensures (base + flags) % 2 == flags % 2 && (base + flags) / 2 % 2 == flags / 2 % 2
    ensures (base + flags) / 4 % 2 == flags / 4 % 2 && (base + flags) / 128 % 2 == 0
  {
    var q := base / 4096;
    DivModUnique(base + flags, 4096, q, flags);
    DivModUnique(base + flags, 2, 2048 * q + flags / 2, flags % 2);
    DivModUnique(base + flags, 4, 1024 * q + flags / 4, flags % 4);
    DivModUnique(base + flags, 128, 32 * q, flags);
    EvenPlus(1024 * q, flags / 2);
    EvenPlus(512 * q, flags / 4);
    EvenPlus(16 * q, 0);
  }

  lemma EvenPlus(half: nat, x: nat)
    ensures (2 * half + x) % 2 == x % 2
  {
    DivModUnique(2 * half + x, 2, half + x / 2, x % 2);
  }

  /** In user mode, only the image frame of the running process and the shared video page can be reached. */
  lemma UserReach(t: Tables, image: Option<nat>, video: bool, va: word, a: Access)
    requires LaidOut(t, image, video) && a.user && Translate(t, va, a).Some?
    ensures var pa := Translate(t, va, a).value;
            || (image.Some? && 0x80_0000 + 0x40_0000 * image.value <= pa < 0xC0_0000 + 0x40_0000 * image.value)
            || (video && 0xB_8000 <= pa < 0xB_9000)
  {
    LayoutGivesAddressSpace(t, image, video, va, a);
  }

  // ---------------------------------------------------------------- the kernel's routines

  class PageTables {
    /** Eight page directories of 1024 entries, of which only the first is used. */
    const directories: array<word>
    const pageTable: array<word>
    const videoTable: array<word>
    const pageTableAt: word
    const videoTableAt: word

    ghost predicate Valid()
      reads this, directories, pageTable, videoTable
    {
      && directories.Length == 8192 && pageTable.Length == 1024 && videoTable.Length == 1024
      && directories != pageTable && directories != videoTable && pageTable != videoTable
      && pageTableAt % 4096 == 0 && videoTableAt % 4096 == 0 && pageTableAt != videoTableAt
    }

    /** Tables in static memory: zero until paging is enabled. */
    constructor (pageTableAt: word, videoTableAt: word)
      requires pageTableAt % 4096 == 0 && videoTableAt % 4096 == 0 && pageTableAt != videoTableAt
      ensures Valid() && fresh(directories) && fresh(pageTable) && fresh(videoTable)
      ensures forall i :: 0 <= i < 1024 ==> videoTable[i] == 0
    {
      directories := new word[8192](i => 0);
      pageTable := new word[1024](i => 0);
      videoTable := new word[1024](i => 0);
      this.pageTableAt := pageTableAt;
      this.videoTableAt := videoTableAt;
    }

    function Value(): (t: Tables)
      requires Valid()
      reads this, directories, pageTable, videoTable
      ensures Shape(t)
    {
      Tables(directories[..1024], pageTable[..], videoTable[..], pageTableAt, videoTableAt)
    }

    method EnablePaging()
      requires Valid() && forall i :: 1 <= i < 1024 ==> videoTable[i] == 0
      modifies directories, pageTable
      ensures Valid() && LaidOut(Value(), None, false)
      ensures forall i :: 1024 <= i < 8192 ==> directories[i] == 2
    {
      hide Or, And;
      BlankDirectories();
      FillPageTable();
      var i := 0xB8;
      PresentFlag(pageTable[i]);
      pageTable[i] := Or(pageTable[i], 3);
      PresentFlag(pageTable[i + 1]);
      pageTable[i + 1] := Or(pageTable[i + 1], 3);
      PresentFlag(pageTable[i + 2]);
      pageTable[i + 2] := Or(pageTable[i + 2], 3);
      PresentFlag(pageTable[i + 3]);
      pageTable[i + 3] := Or(pageTable[i + 3], 3);

      TableEntry();
      directories[0] := Or(Or(0, And(pageTableAt, 0xFFFF_F000)), 3);
      directories[1] := 0x40_0083;
    }

    /** Nothing present, in any of the eight directories. */
    method BlankDirectories()
      requires Valid()
      modifies directories
      ensures forall j :: 0 <= j < 8192 ==> directories[j] == 2
    {
      var d := 0;
      while d < 8
        invariant 0 <= d <= 8
        invariant forall j :: 0 <= j < 1024 * d ==> directories[j] == 2
      {
        var i := 0;
        while i < 1024
          invariant 0 <= i <= 1024
          invariant forall j :: 0 <= j < 1024 * d + i ==> directories[j] == 2
        {
          directories[1024 * d + i] := 2;
          i := i + 1;
        }
        d := d + 1;
      }
    }

    /** Entry i stands for address 4096 i, writable and not present. */
    method FillPageTable()
      requires Valid()
      modifies pageTable
      ensures forall j :: 0 <= j < 1024 ==> pageTable[j] == 4096 * j + 2
    {
      hide Or, And;
      var i := 0;
      while i < 1024
        invariant 0 <= i <= 1024
        invariant forall j :: 0 <= j < i ==> pageTable[j] == 4096 * j + 2
      {
        BlankEntry(i);
        pageTable[i] := Or(And(i * 4096, 0xFFFF_F000), 2);
        i := i + 1;
      }
    }

    lemma BlankEntry(i: nat)
      requires i < 1024
      ensures Or(And(i * 4096, 0xFFFF_F000), 2) == 4096 * i + 2
    {
      hide And, Or;
      PageMask(i * 4096);
      SmallOr();
      OrFlags(i * 4096, 0, 2);
    }

    lemma TableEntry()
      requires pageTableAt % 4096 == 0
      ensures Or(Or(0, And(pageTableAt, 0xFFFF_F000)), 3) == pageTableAt + 3
    {
      hide And, Or;
      PageMask(pageTableAt);
      SmallOr();
      OrFlags(pageTableAt, 0, 3);
    }

    lemma SmallOr()
      ensures Or(0, 3) == 3 && Or(2, 3) == 3
      ensures forall x: nat :: Or(0, x) == x
    {
    }

    lemma PresentFlag(entry: word)
      requires entry % 4096 == 2
      ensures Or(entry, 3) == entry + 1
    {
      OrFlags(entry - 2, 2, 3);
      assert Or(2, 3) == 3;
    }

    /** A process number above 7 is refused with a message and no effect. */
    method LoadNewProcess(process: word)
      requires Valid()
      modifies directories
      ensures process > 7 ==> directories[..] == old(directories[..])
      ensures process <= 7 ==> directories[..] == old(directories[..])[0x20 := ImageEntry(process)]
    {
      if process > 7 {
        return;
      }
      var frame := 0x80_0000 + process * 0x40_0000;
      LargePageMask(frame);
      var vector := And(frame, 0xFFC0_0000);
      OrFlags(frame, 0, 0x87);
      vector := Or(vector, 0x87);
      directories[0x20] := vector;
    }

    method LoadVideoMem(terminal: word)
      requires Valid() && terminal < 1024 - 0x21
      modifies directories, videoTable
      ensures directories[..] == old(directories[..])[0x21 + terminal := videoTableAt + 7]
      ensures videoTable[..] == old(videoTable[..])[0 := 0xB_8007]
    {
      hide And, Or;
      SmallOr();
      var index := 0x21 + terminal;
      OrFlags(0xB_8000, 0, 7);
      videoTable[0] := Or(0xB_8000, 7);
      PageMask(videoTableAt);
      OrFlags(videoTableAt, 0, 7);
      directories[index] := Or(And(videoTableAt, 0xFFFF_F000), 7);
    }
  }

  /** Loading a process changes the image mapping only; loading video memory adds the page at 132 MB only. */
  lemma LoadsKeepLayout(t: Tables, image: Option<nat>, video: bool, process: nat)
    requires LaidOut(t, image, video) && process < 8
    ensures LaidOut(t.(directory := t.directory[0x20 := ImageEntry(process)]), Some(process), video)
    ensures LaidOut(t.(directory := t.directory[0x21 := t.videoTableAt + 7], videoTable := t.videoTable[0 := 0xB_8007]),
                    image, true)
  {
  }
}
