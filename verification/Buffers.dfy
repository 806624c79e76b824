/** Buffers given to calls: the condition under which filling one is the program's own business is exact. */
module Buffers {
  import opened Bytes
  import opened Memory
  import opened Screen
  import opened Editor
  import opened Keyboards
  import opened Machine
  import opened Sessions
  import opened Refinement
  import opened Simulation
  import opened ConsoleSteps
  import opened Steps
  import P = Paging

  lemma {:induction false} BrokenStays(s: State, buffer: word, data: seq<byte>)
    requires P.Shape(s.paging) && !s.intact
    ensures !DeliverStep(s, buffer, data).intact
    decreases |data|
  {
    if data != [] {
      BrokenStays(KernelStore(s, buffer, data[0]), At(buffer, 1), data[1..]);
    }
  }

  /** One address that faults or lies in the kernel is enough. */
  lemma {:induction false} DeliverBreaks(s: State, buffer: word, data: seq<byte>, i: nat)
    requires P.Shape(s.paging) && i < |data| && KernelTarget(s.paging, At(buffer, i), |s.mem|).None?
    ensures !DeliverStep(s, buffer, data).intact
    decreases |data|
  {
    hide P.Shape, KernelTarget;
    var s1 := KernelStore(s, buffer, data[0]);
    if i == 0 {
      assert At(buffer, 0) == buffer;
      BrokenStays(s1, At(buffer, 1), data[1..]);
    } else {
      AtPlus(buffer, 1, i - 1);
      DeliverBreaks(s1, At(buffer, 1), data[1..], i - 1);
    }
  }

  /** Bytes that no address of the buffer leads to stay. */
  lemma {:induction false} DeliverElsewhere(s: State, buffer: word, data: seq<byte>, pa: nat)
    requires P.Shape(s.paging) && pa < |s.mem|
    requires forall j :: 0 <= j < |data| ==> KernelTarget(s.paging, At(buffer, j), |s.mem|) != Some(pa)
    ensures DeliverStep(s, buffer, data).mem[pa] == s.mem[pa]
    decreases |data|
  {
    hide P.Shape, KernelTarget;
    if data != [] {
      assert At(buffer, 0) == buffer;
      forall j | 0 <= j < |data| - 1 ensures KernelTarget(s.paging, At(At(buffer, 1), j), |s.mem|) != Some(pa) {
        AtPlus(buffer, 1, j);
        assert KernelTarget(s.paging, At(buffer, j + 1), |s.mem|) != Some(pa);
      }
      DeliverElsewhere(KernelStore(s, buffer, data[0]), At(buffer, 1), data[1..], pa);
    }
  }

  /** A byte that is stored and not overwritten is there afterwards. */
  lemma {:induction false} DeliverPuts(s: State, buffer: word, data: seq<byte>, i: nat, pa: nat)
    requires P.Shape(s.paging) && pa < |s.mem| && i < |data|
    requires KernelTarget(s.paging, At(buffer, i), |s.mem|) == Some(pa)
    requires forall j :: i < j < |data| ==> KernelTarget(s.paging, At(buffer, j), |s.mem|) != Some(pa)
    ensures DeliverStep(s, buffer, data).mem[pa] == data[i]
    decreases |data|
  {
    hide P.Shape, KernelTarget;
    var s1 := KernelStore(s, buffer, data[0]);
    forall j | i <= j < |data| - 1 ensures KernelTarget(s.paging, At(At(buffer, 1), j), |s.mem|)
                                         == KernelTarget(s.paging, At(buffer, j + 1), |s.mem|) {
      AtPlus(buffer, 1, j);
    }
    if i == 0 {
      assert At(buffer, 0) == buffer;
      DeliverElsewhere(s1, At(buffer, 1), data[1..], pa);
    } else {
      AtPlus(buffer, 1, i - 1);
      DeliverPuts(s1, At(buffer, 1), data[1..], i - 1, pa);
    }
  }

  lemma {:induction false} FilledElsewhere(w: World, buffer: word, data: seq<byte>, t: nat)
    requires FrontReady(w) && t < 3 && t != w.current
    ensures Filled(w, buffer, data).sessions[t] == w.sessions[t]
    decreases |data|
  {
    if data != [] {
      FilledElsewhere(KernelPoke(w, buffer, data[0]), At(buffer, 1), data[1..], t);
    }
  }

  /** An address that is not safe faults, hits the kernel, or is on a saved screen, under no other address. */
  lemma UnsafeTarget(fs: seq<byte>, s: State, w: World, va: word)
    requires R(fs, s, w) && !SafeTarget(w, va)
    ensures P.Shape(s.paging)
    ensures KernelTarget(s.paging, va, |s.mem|).Some? ==>
              && KernelTarget(s.paging, va, |s.mem|) == Some(va) && va < |s.mem|
              && (forall other: word :: KernelTarget(s.paging, other, |s.mem|) == Some(va) ==> other == va)
              && exists t :: 0 <= t < 3 && t != w.current && w.sessions[t].Some?
                             && SavedScreen(t) <= va < SavedScreen(t) + 4000
  {
    SizedParts(fs, s);
    KernelLands(fs, s, w, va);
    forall other: word
      ensures KernelTarget(s.paging, other, |s.mem|) == Some(va) && 0xB_9000 <= va < 0xB_C000 ==> other == va
    {
      KernelLands(fs, s, w, other);
    }
  }

  /** Address 0 faults, so a buffer that goes all the way round is never stored. */
  lemma RoundBufferFaults(fs: seq<byte>, s: State, w: World, buffer: word, i: nat, j: nat)
    requires R(fs, s, w) && i < j && At(buffer, i) == At(buffer, j)
    ensures P.Shape(s.paging)
    ensures exists k :: i <= k < j && KernelTarget(s.paging, At(buffer, k), |s.mem|).None?
  {
    var k := if At(buffer, i) == 0 then i else i + (0x1_0000_0000 - At(buffer, i));
    assert At(buffer, k) == 0 && i <= k < j;
    KernelLands(fs, s, w, 0);
  }

  /** What a saved screen held is lost. */
  lemma SavedScreenLost(fs: seq<byte>, s: State, w: World, s2: State, w2: World, t: nat, va: nat)
    requires R(fs, s, w) && t < 3 && t != w.current && w.sessions[t].Some?
    requires SavedScreen(t) <= va < SavedScreen(t) + 4000
    requires w2.current == w.current && |w2.sessions| == 3 && w2.sessions[t] == w.sessions[t]
    requires IsMemory(s.mem) && IsMemory(s2.mem) && s2.mem[va] != s.mem[va]
    ensures !R(fs, s2, w2)
  {
    assert TermMatches(fs, s, w, t);
    assert Region(s2.mem, SavedScreen(t), 4000)[va - SavedScreen(t)] == s2.mem[va];
    assert Region(s.mem, SavedScreen(t), 4000)[va - SavedScreen(t)] == s.mem[va];
    assert R(fs, s2, w2) ==> TermMatches(fs, s2, w2, t);
  }

  ghost predicate FillsProperly(fs: seq<byte>, s: State, w: World, buffer: word, data: seq<byte>)
    requires P.Shape(s.paging) && FrontReady(w)
  {
    R(fs, DeliverStep(s, buffer, data), Filled(w, buffer, data))
  }

  lemma UnsafeByteIsFelt(fs: seq<byte>, s: State, w: World, buffer: word, n: nat, i: nat)
    requires R(fs, s, w) && i < n && !SafeTarget(w, At(buffer, i))
    ensures P.Shape(s.paging) && FrontReady(w)
    ensures exists data: seq<byte> :: |data| == n && !FillsProperly(fs, s, w, buffer, data)
  {
    SizedParts(fs, s);
    SameAsFacing(fs, s, w);
    hide R, P.Shape, KernelTarget, IsWorld, Filled, DeliverStep, SafeTarget, FrontReady, Sized, Facing;
    var va := At(buffer, i);
    UnsafeTarget(fs, s, w, va);
    var other: byte := if va < |s.mem| && s.mem[va] == 0 then 1 else 0;
    var data := seq(n, _ => other);
    if k :| 0 <= k < n && KernelTarget(s.paging, At(buffer, k), |s.mem|).None? {
      DeliverBreaks(s, buffer, data, k);
      NotIntact(fs, DeliverStep(s, buffer, data), Filled(w, buffer, data));
    } else {
      forall j | i < j < n ensures KernelTarget(s.paging, At(buffer, j), |s.mem|) != Some(va) {
        if At(buffer, j) == va {
          RoundBufferFaults(fs, s, w, buffer, i, j);
        }
      }
      DeliverPuts(s, buffer, data, i, va);
      assert DeliverStep(s, buffer, data).mem[va] != s.mem[va];
      var t :| 0 <= t < 3 && t != w.current && w.sessions[t].Some? && SavedScreen(t) <= va < SavedScreen(t) + 4000;
      FilledElsewhere(w, buffer, data, t);
      SavedScreenLost(fs, s, w, DeliverStep(s, buffer, data), Filled(w, buffer, data), t, va);
    }
    assert !FillsProperly(fs, s, w, buffer, data);
  }

  lemma NotIntact(fs: seq<byte>, s: State, w: World)
    requires !s.intact
    ensures !R(fs, s, w)
  {
  }

  /**
   * A call may fill a buffer, with whatever bytes, if and only if every address of the buffer is safe:
   * otherwise some bytes break the kernel or change the screen that another terminal has saved.
   */
  lemma BufferGuardIsExact(fs: seq<byte>, s: State, w: World, buffer: word, n: nat)
    requires R(fs, s, w)
    ensures P.Shape(s.paging) && FrontReady(w)
    ensures (forall data: seq<byte> :: |data| == n ==> FillsProperly(fs, s, w, buffer, data))
            <==> SafeBuffer(w, buffer, n)
  {
    SizedParts(fs, s);
    if SafeBuffer(w, buffer, n) {
      forall data: seq<byte> | |data| == n ensures FillsProperly(fs, s, w, buffer, data) {
        DeliverSimulates(fs, s, w, buffer, data);
      }
    } else {
      var i :| 0 <= i < n && !SafeTarget(w, At(buffer, i));
      UnsafeByteIsFelt(fs, s, w, buffer, n, i);
    }
  }

  /** A buffer in the program image is safe. */
  lemma ImageIsSafe(w: World, buffer: word, n: nat)
    requires |w.sessions| == 3 && 0x800_0000 <= buffer && buffer + n <= 0x840_0000
    ensures SafeBuffer(w, buffer, n)
  {
  }

  /** One byte read to where another terminal's screen is saved: that terminal is no longer what it was. */
  lemma SavedScreenIsNotSafe(fs: seq<byte>, s: State, w: World, t: nat)
    requires R(fs, s, w) && t < 3 && t != w.current && |w.sessions| == 3 && w.sessions[t].Some?
    ensures P.Shape(s.paging) && FrontReady(w)
    ensures exists b: byte :: !FillsProperly(fs, s, w, SavedScreen(t), [b])
  {
    var buffer := SavedScreen(t);
    assert At(buffer, 0) == buffer;
    UnsafeByteIsFelt(fs, s, w, buffer, 1, 0);
    var data: seq<byte> :| |data| == 1 && !FillsProperly(fs, s, w, buffer, data);
    assert data == [data[0]];
  }

  /** And a buffer in the kernel's own memory or at an unmapped address breaks it whatever the bytes are. */
  lemma KernelMemoryIsNotSafe(fs: seq<byte>, s: State, w: World, buffer: word, data: seq<byte>)
    requires R(fs, s, w) && data != []
    requires KernelMemory(buffer) || buffer < 0xB_8000
    ensures P.Shape(s.paging) && FrontReady(w) && !FillsProperly(fs, s, w, buffer, data)
  {
    KernelLands(fs, s, w, buffer);
    assert At(buffer, 0) == buffer;
    DeliverBreaks(s, buffer, data, 0);
    NotIntact(fs, DeliverStep(s, buffer, data), Filled(w, buffer, data));
  }

  // ---------------------------------------------------------------- output from beside the screen

  ghost predicate WritesProperly(fs: seq<byte>, s: State, w: World, bytes: seq<byte>)
    requires R(fs, s, w)
  {
    SizedParts(fs, s);
    SameAsFacing(fs, s, w);
    R(fs, WriteStep(s, bytes), Faced(w, WriteOn(Facing(w), bytes)))
  }

  /** What writing properly is, and what is known of the console before. */
  lemma ProperIsRelated(fs: seq<byte>, s: State, w: World, bytes: seq<byte>)
    requires R(fs, s, w)
    ensures IsMemory(s.mem) && |s.keys| == 128 && IsBoard(s.board) && |s.terms| == 3 && s.current < 3
    ensures FrontReady(w) && IsConsole(ConsoleOf(s)) && !ConsoleOf(s).display.lost
    ensures (s.cursorX, s.cursorY) == (Front(w).view.x, Front(w).view.y) && CursorOk(s.cursorX, s.cursorY)
    ensures WritesProperly(fs, s, w, bytes) <==> R(fs, WriteStep(s, bytes), Faced(w, WriteOn(Facing(w), bytes)))
  {
    SizedParts(fs, s);
    SameAsFacing(fs, s, w);
  }

  /** n times the same character, as it is stored. */
  lemma {:induction false} SpiltRepeated(ch: byte, n: nat)
    requires ch >= 32
    ensures |Spilt(Repeated(ch, n))| == 2 * n
    ensures forall i :: 0 <= i < n ==> Spilt(Repeated(ch, n))[2 * i] == ch
  {
    if n > 0 {
      var front := Repeated(ch, n - 1);
      SpiltRepeated(ch, n - 1);
      NoNewline(ch, n - 1);
      SpiltNext(front, ch);
      EvenEntries(Spilt(front), ch, n - 1);
      assert Repeated(ch, n) == front + [ch];
      hide Spilt, Repeated;
    }
  }

  lemma EvenEntries(a: seq<byte>, ch: byte, n: nat)
    requires |a| == 2 * n && forall i :: 0 <= i < n ==> a[2 * i] == ch
    ensures forall i :: 0 <= i < n + 1 ==> (a + [ch, ATTRIB])[2 * i] == ch
  {
  }

  lemma {:induction false} NoNewline(ch: byte, n: nat)
    requires ch >= 32
    ensures NEWLINE !in Repeated(ch, n)
  {
    if n > 0 {
      NoNewline(ch, n - 1);
    }
  }

  /** The character that is written to a cell is there afterwards. */
  lemma WrittenCell(d: Display, ch: byte, n: nat, i: nat)
    requires IsDisplay(d) && !d.lost && Beside(d.x, d.y) && CursorOk(d.x, d.y) && ch >= 32 && i < n
    requires 2 * (Here(d) + n) <= 0x4000 && 2 * (Here(d) + i) >= 4096
    ensures WriteAll(d, Repeated(ch, n)).video[2 * (Here(d) + i)] == ch
  {
    var (text, at) := (Repeated(ch, n), 2 * Here(d));
    WriteReach(d, text);
    SpiltRepeated(ch, n);
    hide WriteAll, Spilt, Overwrite;
    var k := at + 2 * i;
    SpiltByte(d.video, at, Spilt(text), k);
    assert WriteAll(d, text).video[4002..][k - 4002] == Overwrite(d.video, at, Spilt(text))[4002..][k - 4002];
  }

  lemma SpillFaults(fs: seq<byte>, s: State, w: World, text: seq<byte>)
    requires R(fs, s, w) && FrontReady(w) && Beside(Front(w).view.x, Front(w).view.y)
    requires 2 * (80 * Front(w).view.y + Front(w).view.x) + |Spilt(text)| > 0x4000
    ensures !WritesProperly(fs, s, w, text)
  {
    hide R, WriteAll, Spilt, Faced, Facing, FrontReady, WritesProperly, Overwrite;
    ProperIsRelated(fs, s, w, text);
    WriteReach(ConsoleOf(s).display, text);
    NotIntact(fs, WriteStep(s, text), Faced(w, WriteOn(Facing(w), text)));
  }

  /** The byte at k of the pages is on the saved screen of terminal t, and was another character. */
  lemma SpillOnSaved(fs: seq<byte>, s: State, w: World, ch: byte, n: nat, i: nat, t: nat)
    requires R(fs, s, w) && FrontReady(w) && CursorOk(Front(w).view.x, Front(w).view.y)
    requires Beside(Front(w).view.x, Front(w).view.y) && i < n && ch >= 32
    requires t < 3 && t != w.current && w.sessions[t].Some? && IsMemory(s.mem)
    requires var k := 2 * (80 * Front(w).view.y + Front(w).view.x + i);
             && k + 2 * (n - i) <= 0x4000 && SavedScreen(t) <= VIDEO + k < SavedScreen(t) + 4000
             && s.mem[VIDEO + k] != ch
    ensures !WritesProperly(fs, s, w, Repeated(ch, n))
  {
    hide WriteAll, Facing, R, Repeated, WritesProperly, Overwrite, Spilt, IsConsole;
    ProperIsRelated(fs, s, w, Repeated(ch, n));
    var (c, text) := (ConsoleOf(s), Repeated(ch, n));
    var k := 2 * (Here(c.display) + i);
    WrittenCell(c.display, ch, n, i);
    PageByte(s, WriteOn(c, text), k);
    SavedScreenLost(fs, s, w, WriteStep(s, text), Faced(w, WriteOn(Facing(w), text)), t, VIDEO + k);
  }

  lemma PageByte(s: State, c: Console, k: nat)
    requires IsMemory(s.mem) && IsConsole(c) && k < 0x4000
    ensures Show(s, c).mem[VIDEO + k] == c.display.video[k]
  {
  }

  /** In the four pages, an address that is not safe is on the saved screen of another terminal. */
  lemma SavedThere(w: World, va: word) returns (t: nat)
    requires |w.sessions| == 3 && 0xB_8000 <= va < 0xB_C000 && !SafeTarget(w, va)
    ensures t < 3 && t != w.current && w.sessions[t].Some? && SavedScreen(t) <= va < SavedScreen(t) + 4000
  {
    t :| 0 <= t < 3 && t != w.current && w.sessions[t].Some? && SavedScreen(t) <= va < SavedScreen(t) + 4000;
  }

  /** Saved screens begin at even addresses. */
  lemma EvenByte(here: nat, i: nat, t: nat)
    requires t < 3 && SavedScreen(t) <= VIDEO + 2 * here + i < SavedScreen(t) + 4000
    ensures SavedScreen(t) <= VIDEO + 2 * (here + i / 2) < SavedScreen(t) + 4000
  {
  }

  lemma SomeOther(fs: seq<byte>, s: State, w: World, n: nat, i: nat, t: nat)
    requires R(fs, s, w) && FrontReady(w) && CursorOk(Front(w).view.x, Front(w).view.y)
    requires Beside(Front(w).view.x, Front(w).view.y) && i < n
    requires t < 3 && t != w.current && w.sessions[t].Some? && IsMemory(s.mem)
    requires var k := 2 * (80 * Front(w).view.y + Front(w).view.x + i);
             k + 2 * (n - i) <= 0x4000 && SavedScreen(t) <= VIDEO + k < SavedScreen(t) + 4000
    ensures exists ch: byte :: ch >= 32 && !WritesProperly(fs, s, w, Repeated(ch, n))
  {
    assert w.current < |w.sessions| && w.sessions[w.current].Some?;
    hide R, WritesProperly, Repeated, FrontReady, CursorOk, Facing;
    var k := 2 * (80 * Front(w).view.y + Front(w).view.x + i);
    SpillOnSaved(fs, s, w, if s.mem[VIDEO + k] == 32 then 33 else 32, n, i, t);
  }

  /** Output that reaches a saved screen, or runs past the pages, with a character that is not there yet. */
  lemma SpillIsFelt(fs: seq<byte>, s: State, w: World, n: nat, i: nat)
    requires R(fs, s, w) && FrontReady(w) && CursorOk(Front(w).view.x, Front(w).view.y)
    requires Beside(Front(w).view.x, Front(w).view.y) && i < 2 * n
    requires !SafeTarget(w, At(VIDEO + 2 * (80 * Front(w).view.y + Front(w).view.x), i))
    ensures exists ch: byte :: ch >= 32 && !WritesProperly(fs, s, w, Repeated(ch, n))
  {
    hide R, WritesProperly, SafeTarget, Repeated, FrontReady, Facing, Spilt, IsConsole;
    ProperIsRelated(fs, s, w, []);
    FrontIs(w);
    var here := 80 * Front(w).view.y + Front(w).view.x;
    if 2 * here + 2 * n > 0x4000 {
      SpiltRepeated(32, n);
      SpillFaults(fs, s, w, Repeated(32, n));
    } else {
      var t := SavedThere(w, VIDEO + 2 * here + i);
      EvenByte(here, i, t);
      SomeOther(fs, s, w, n, i / 2, t);
    }
  }

  /**
   * Output whose first line has n printable bytes may be written, whatever they are, if and only if the cursor
   * is not beside the screen or all addresses of the n cells from there on are safe.
   */
  lemma WriteGuardIsExact(fs: seq<byte>, s: State, w: World, n: nat)
    requires R(fs, s, w)
    ensures FrontReady(w) && CursorOk(Front(w).view.x, Front(w).view.y)
    ensures var v := Front(w).view;
            (forall bytes :: |Spilt(bytes)| == 2 * n ==> WritesProperly(fs, s, w, bytes))
            <==> (Beside(v.x, v.y) ==> SafeBuffer(w, VIDEO + 2 * (80 * v.y + v.x), 2 * n))
  {
    SameAsFacing(fs, s, w);
    var v := Front(w).view;
    if Beside(v.x, v.y) && !SafeBuffer(w, VIDEO + 2 * (80 * v.y + v.x), 2 * n) {
      var i :| 0 <= i < 2 * n && !SafeTarget(w, At(VIDEO + 2 * (80 * v.y + v.x), i));
      SpillIsFelt(fs, s, w, n, i);
      var ch: byte :| ch >= 32 && !WritesProperly(fs, s, w, Repeated(ch, n));
      SpiltRepeated(ch, n);
    } else {
      forall bytes | |Spilt(bytes)| == 2 * n ensures WritesProperly(fs, s, w, bytes) {
        WriteSimulates(fs, s, w, bytes);
      }
    }
  }
}
