/** Physical memory as bytes: where the kernel keeps things, and what overwriting a region leaves alone. */
module Memory {
  import opened Bytes

  /** 32 MB: the kernel's first 8 MB and six process frames of 4 MB. */
  predicate IsMemory(m: seq<byte>) {
    |m| == 0x200_0000
  }

  /** Text-mode video memory. */
  const VIDEO: nat := 0xB_8000

  /** Where the screen of terminal t is kept while another one is shown. */
  function SavedScreen(t: nat): nat {
    0xB_9000 + 0x1000 * t
  }

  function FrameAt(p: nat): nat {
    0x80_0000 + 0x40_0000 * p
  }

  /** The top of slot p's kernel stack, as loaded into the TSS. */
  function Esp0(p: nat): int {
    0x80_0000 - 0x2000 * p - 4
  }

  function Region(m: seq<byte>, a: nat, n: nat): (r: seq<byte>)
    requires a + n <= |m|
    ensures |r| == n
  {
    m[a..a + n]
  }

  function Overwrite(m: seq<byte>, a: nat, data: seq<byte>): (r: seq<byte>)
    requires a + |data| <= |m|
    ensures |r| == |m|
  {
    m[..a] + data + m[a + |data|..]
  }

  lemma OverwriteNothing(m: seq<byte>, at: nat)
    requires at <= |m|
    ensures Overwrite(m, at, []) == m
  {
  }

  lemma RegionElsewhere(m: seq<byte>, a: nat, data: seq<byte>, b: nat, n: nat)
    requires a + |data| <= |m| && b + n <= |m| && (b + n <= a || a + |data| <= b)
    ensures Region(Overwrite(m, a, data), b, n) == Region(m, b, n)
  {
  }

  lemma RegionOfRegion(m: seq<byte>, a: nat, n: nat, b: nat, k: nat)
    requires a + n <= |m| && b + k <= n
    ensures Region(Region(m, a, n), b, k) == Region(m, a + b, k)
  {
    var (x, y) := (Region(Region(m, a, n), b, k), Region(m, a + b, k));
    assert forall i :: 0 <= i < k ==> x[i] == Region(m, a, n)[b + i] == m[a + b + i] == y[i];
  }

  lemma RegionWritten(m: seq<byte>, a: nat, data: seq<byte>)
    requires a + |data| <= |m|
    ensures Region(Overwrite(m, a, data), a, |data|) == data
  {
  }

  lemma RegionAround(m: seq<byte>, a: nat, data: seq<byte>, b: nat, n: nat)
    requires b <= a && a + |data| <= b + n <= |m|
    ensures Region(Overwrite(m, a, data), b, n) == Overwrite(Region(m, b, n), a - b, data)
  {
  }

  /** Frames, screens, kernel stacks and PCBs are apart from each other. */
  lemma Apart(p: nat, q: nat, t: nat, u: nat)
    requires p < 6 && q < 6 && t < 3 && u < 3
    ensures p != q ==> FrameAt(p) + 0x40_0000 <= FrameAt(q) || FrameAt(q) + 0x40_0000 <= FrameAt(p)
    ensures t != u ==> SavedScreen(t) + 4000 <= SavedScreen(u) || SavedScreen(u) + 4000 <= SavedScreen(t)
    ensures VIDEO + 4096 <= SavedScreen(t) && SavedScreen(t) + 4000 <= 0x40_0000
    ensures p != q ==> Esp0(p) + 4 <= Esp0(q) - 0x1FFC || Esp0(q) + 4 <= Esp0(p) - 0x1FFC
    ensures 0x40_0000 <= Esp0(p) - 0x1FFC && Esp0(p) + 4 <= FrameAt(q)
    ensures FrameAt(p) + 0x40_0000 <= 0x200_0000
  {
  }
}
