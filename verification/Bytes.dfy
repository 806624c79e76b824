/** Bytes, 32-bit words and C strings, as the kernel and its programs use them. */
module Bytes {
  type byte = b: int | 0 <= b < 256
  type word = w: int | 0 <= w < 0x1_0000_0000

  const NEWLINE: byte := 10
  const SPACE: byte := 32

  datatype Option<+T> = None | Some(value: T)

  function Min(a: int, b: int): (m: int)
    ensures m <= a && m <= b && (m == a || m == b)
  {
    if a <= b then a else b
  }

  function Max(a: int, b: int): (m: int)
    ensures m >= a && m >= b && (m == a || m == b)
  {
    if a <= b then b else a
  }

  /** A byte read through a signed `char`. */
  function Signed(b: byte): int {
    if b < 128 then b else b - 256
  }

  ghost predicate AllPrintable(text: seq<byte>) {
    forall i :: 0 <= i < |text| ==> text[i] >= 32
  }

  /** The bytes of a string constant of printable characters. */
  function Chars(s: string): (r: seq<byte>)
    ensures |r| == |s| && AllPrintable(r)
    ensures forall i :: 0 <= i < |s| && 32 <= s[i] as int < 256 ==> r[i] == s[i] as int
  {
    seq(|s|, i requires 0 <= i < |s| => var c := s[i] as int; if 32 <= c < 256 then c else SPACE)
  }

  lemma CharAt(s: string, i: nat)
    requires i < |s| && 32 <= s[i] as int < 256
    ensures Chars(s)[i] == s[i] as int
  {
  }

  function Zeros(n: nat): (s: seq<byte>)
    ensures |s| == n && forall i :: 0 <= i < n ==> s[i] == 0
  {
    seq(n, _ => 0)
  }

  /** `s` followed by NULs up to `n` bytes. */
  function Pad(s: seq<byte>, n: nat): (r: seq<byte>)
    requires |s| <= n
    ensures |r| == n && r[..|s|] == s && forall i :: |s| <= i < n ==> r[i] == 0
  {
    s + Zeros(n - |s|)
  }

  ghost predicate NoNul(s: seq<byte>) {
    forall i :: 0 <= i < |s| ==> s[i] != 0
  }

  /** The C string that starts at the front of `s`: everything before the first NUL. */
  function CStr(s: seq<byte>): (r: seq<byte>)
    ensures |r| <= |s| && r == s[..|r|] && NoNul(r)
    ensures |r| == |s| || s[|r|] == 0
  {
    if s == [] || s[0] == 0 then [] else [s[0]] + CStr(s[1..])
  }

  lemma {:induction false} CStrIs(s: seq<byte>, k: nat)
    requires k <= |s| && NoNul(s[..k]) && (k == |s| || s[k] == 0)
    ensures CStr(s) == s[..k]
  {
    if k != 0 {
      assert s[..k][0] == s[0];
      assert s[1..][..k - 1] == s[..k][1..];
      CStrIs(s[1..], k - 1);
      assert s[..k] == [s[0]] + s[1..][..k - 1];
    }
  }

  lemma {:induction false} CStrCoversPrefix(s: seq<byte>, k: nat)
    requires k <= |s| && NoNul(s[..k])
    ensures k <= |CStr(s)| && CStr(s)[..k] == s[..k]
  {
    if k != 0 {
      assert s[..k][0] == s[0];
      assert s[1..][..k - 1] == s[..k][1..];
      CStrCoversPrefix(s[1..], k - 1);
    }
  }

  lemma CStrOfPad(s: seq<byte>, n: nat)
    requires NoNul(s) && |s| <= n
    ensures CStr(Pad(s, n)) == s
  {
    assert Pad(s, n)[..|s|] == s;
    CStrIs(Pad(s, n), |s|);
  }

  /** `strlen`: counts up to the first NUL. */
  method StrLen(a: array<byte>, at: nat) returns (len: nat)
    requires at <= a.Length && exists k :: at <= k < a.Length && a[k] == 0
    ensures at + len < a.Length && a[at + len] == 0 && NoNul(a[at..at + len])
    ensures len == |CStr(a[at..])| && CStr(a[at..]) == a[at..at + len]
  {
    len := 0;
    while a[at + len] != 0
      invariant at + len < a.Length
      invariant forall k :: at <= k < at + len ==> a[k] != 0
      decreases a.Length - at - len
    {
      len := len + 1;
    }
    assert a[at..][..len] == a[at..at + len];
    CStrIs(a[at..], len);
  }

  /** `strncpy`: copies the string at the front of `src`, at most `n` bytes, and fills up with NULs. */
  method StrNCpy(dst: array<byte>, at: nat, src: seq<byte>, n: nat)
    requires at + n <= dst.Length
    requires n < |src| || 0 in src
    modifies dst
    ensures dst[at..at + n] == Pad(CStr(src)[..Min(n, |CStr(src)|)], n)
    ensures forall j :: 0 <= j < dst.Length && !(at <= j < at + n) ==> dst[j] == old(dst[j])
  {
    var i := 0;
    while src[i] != 0 && i < n
      invariant 0 <= i <= n && i < |src|
      invariant n < |src| || 0 in src[i..]
      invariant NoNul(src[..i])
      invariant forall j :: at <= j < at + i ==> dst[j] == src[j - at]
      invariant forall j :: 0 <= j < dst.Length && !(at <= j < at + n) ==> dst[j] == old(dst[j])
      decreases n - i
    {
      assert src[i..] == [src[i]] + src[i + 1..];
      assert src[..i + 1] == src[..i] + [src[i]];
      dst[at + i] := src[i];
      i := i + 1;
    }
    ghost var k := i;
    if src[k] == 0 {
      CStrIs(src, k);
    } else {
      CStrCoversPrefix(src, k);
    }
    while i < n
      invariant k <= i <= n
      invariant forall j :: at <= j < at + k ==> dst[j] == src[j - at]
      invariant forall j :: at + k <= j < at + i ==> dst[j] == 0
      invariant forall j :: 0 <= j < dst.Length && !(at <= j < at + n) ==> dst[j] == old(dst[j])
    {
      dst[at + i] := 0;
      i := i + 1;
    }
    assert dst[at..at + n] == src[..k] + Zeros(n - k);
  }

  /** `memset`. */
  method MemSet(dst: array<byte>, at: nat, c: byte, n: nat)
    requires at + n <= dst.Length
    modifies dst
    ensures forall i :: at <= i < at + n ==> dst[i] == c
    ensures forall i :: 0 <= i < dst.Length && !(at <= i < at + n) ==> dst[i] == old(dst[i])
  {
    forall i | at <= i < at + n {
      dst[i] := c;
    }
  }
}
