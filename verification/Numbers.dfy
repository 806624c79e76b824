/** Printing numbers: itoa with its in-place reversal, and the number formats of printf. */
module Numbers {
  import opened Arithmetic
  import opened Bytes

  const ZERO: byte := 48
  const MINUS: byte := 45

  function Digit(d: nat): (c: byte)
    requires d < 36
    ensures 48 <= c < 91 && (c == ZERO <==> d == 0)
  {
    if d < 10 then 48 + d else 55 + d
  }

  function DigitValue(c: byte): int {
    if 48 <= c < 58 then c - 48 else if 65 <= c < 91 then c - 55 else -1
  }

  /** Digits from 10 on are capital letters. */
  lemma DigitCharacters(d: nat)
    requires d < 36
    ensures Digit(d) == Chars("0123456789ABCDEFGHIJKLMNOPQRSTUVWXYZ")[d] && DigitValue(Digit(d)) == d
  {
    hide Chars;
    CharAt("0123456789ABCDEFGHIJKLMNOPQRSTUVWXYZ", d);
  }

  /** The digits of v, most significant first; none for 0. */
  function Digits(v: nat, radix: nat): (s: seq<byte>)
    requires 2 <= radix <= 36
    ensures NoNul(s) && (s == [] <==> v == 0)
    decreases v
  {
    if v == 0 then [] else
    Smaller(v, radix);
    Digits(v / radix, radix) + [Digit(v % radix)]
  }

  lemma Smaller(v: nat, radix: nat)
    requires v > 0 && radix >= 2
    ensures 0 <= v / radix < v && v % radix < radix && v == v / radix * radix + v % radix
  {
    var q := v / radix;
    assert v == q * radix + v % radix;
    if q > 0 {
      assert q * radix >= q * 2 by { ProductGrows(q, 2, radix); }
    }
  }

  function Numeral(v: nat, radix: nat): (s: seq<byte>)
    requires 2 <= radix <= 36
    ensures |s| > 0 && NoNul(s)
  {
    if v == 0 then [ZERO] else Digits(v, radix)
  }

  /** The value of a digit string, read from left to right. */
  function Parse(s: seq<byte>, radix: nat): int {
    if s == [] then 0 else Parse(s[..|s| - 1], radix) * radix + DigitValue(s[|s| - 1])
  }

  lemma ParseSnoc(s: seq<byte>, c: byte, radix: nat)
    ensures Parse(s + [c], radix) == Parse(s, radix) * radix + DigitValue(c)
  {
    assert (s + [c])[..|s|] == s;
  }

  /** Digits parse back to the number, and the first one is not 0. */
  lemma {:induction false} DigitsParse(v: nat, radix: nat)
    requires 2 <= radix <= 36
    ensures Parse(Digits(v, radix), radix) == v
    ensures v > 0 ==> Digits(v, radix)[0] != ZERO
    decreases v
  {
    if v > 0 {
      Smaller(v, radix);
      DigitsParse(v / radix, radix);
      ParseSnoc(Digits(v / radix, radix), Digit(v % radix), radix);
    }
  }

  ghost predicate DigitString(s: seq<byte>, radix: nat) {
    forall i :: 0 <= i < |s| ==> 0 <= DigitValue(s[i]) < radix
  }

  lemma {:induction false} ParseNonNegative(s: seq<byte>, radix: nat)
    requires DigitString(s, radix)
    ensures Parse(s, radix) >= 0
  {
    if s != [] {
      ParseNonNegative(s[..|s| - 1], radix);
      ProductGrows(radix, 0, Parse(s[..|s| - 1], radix));
    }
  }

  /** There is only one digit string without leading zeros for each number. */
  lemma {:induction false} DigitsAreUnique(s: seq<byte>, radix: nat)
    requires 2 <= radix <= 36 && DigitString(s, radix) && (s != [] ==> s[0] != ZERO)
    ensures Parse(s, radix) >= 0 && s == Digits(Parse(s, radix), radix)
  {
    if s != [] {
      var (front, d) := (s[..|s| - 1], DigitValue(s[|s| - 1]));
      DigitsAreUnique(front, radix);
      ParseNonNegative(s, radix);
      var q := Parse(front, radix);
      DivModUnique(q * radix + d, radix, q, d);
      assert s == front + [Digit(d)];
      assert Parse(s, radix) == q * radix + d;
      assert Parse(s, radix) > 0 by {
        if q > 0 {
          ProductGrows(radix, 1, q);
        }
      }
    }
  }

  /** A number below 2^n has at most n digits in any radix. */
  lemma {:induction false} DigitsAtMost(v: nat, radix: nat, n: nat)
    requires 2 <= radix <= 36 && v < Power2(n)
    ensures |Digits(v, radix)| <= n
    decreases n
  {
    if v > 0 && n > 0 {
      Smaller(v, radix);
      ProductGrows(v / radix, 2, radix);
      DigitsAtMost(v / radix, radix, n - 1);
    }
  }

  lemma WordDigits(v: word, radix: nat)
    requires 2 <= radix <= 36
    ensures |Numeral(v, radix)| <= 32
  {
    assert Power2(8) == 256 && Power2(16) == 0x1_0000 by {
      assert Power2(4) == 16;
      assert Power2(12) == 4096;
    }
    assert Power2(20) == 0x10_0000;
    assert Power2(24) == 0x100_0000;
    assert Power2(28) == 0x1000_0000;
    assert Power2(32) == 0x1_0000_0000;
    DigitsAtMost(v, radix, 32);
  }

  /** A 32-bit number has at most 8 hexadecimal digits. */
  lemma WordHexDigits(v: word)
    ensures |Numeral(v, 16)| <= 8
  {
    HexDigitsAtMost(v, 8);
  }

  function Power16(n: nat): nat {
    if n == 0 then 1 else 16 * Power16(n - 1)
  }

  lemma {:induction false} HexDigitsAtMost(v: nat, n: nat)
    requires v < Power16(n)
    ensures |Digits(v, 16)| <= n
    decreases n
  {
    if v > 0 && n > 0 {
      HexDigitsAtMost(v / 16, n - 1);
    }
  }

  function Reverse(s: seq<byte>): (r: seq<byte>)
    ensures |r| == |s| && forall i :: 0 <= i < |s| ==> r[i] == s[|s| - 1 - i]
  {
    seq(|s|, i requires 0 <= i < |s| => s[|s| - 1 - i])
  }

  /** strrev: reverse the string at `at` in place. */
  method StrRev(s: array<byte>, at: nat, ghost len: nat)
    requires at + len < s.Length && s[at + len] == 0 && NoNul(s[at..at + len])
    modifies s
    ensures s[at..at + len] == Reverse(old(s[at..at + len]))
    ensures forall j :: 0 <= j < s.Length && !(at <= j < at + len) ==> s[j] == old(s[j])
  {
    assert s[at..][..len] == s[at..at + len];
    CStrIs(s[at..], len);
    var length := StrLen(s, at);
    SwapEnds(s, at, length);
  }

  /** strrev's loop. */
  method SwapEnds(s: array<byte>, at: nat, len: nat)
    requires at + len <= s.Length
    modifies s
    ensures s[at..at + len] == Reverse(old(s[at..at + len]))
    ensures forall j :: 0 <= j < s.Length && !(at <= j < at + len) ==> s[j] == old(s[j])
  {
    hide Reverse;
    ghost var text, reversed := s[at..at + len], Reverse(s[at..at + len]);
    var beg: int, end: int := 0, (len as int) - 1;
    while beg < end
      invariant 0 <= beg <= len && end == len - 1 - beg && beg <= end + 2
      invariant forall j :: at <= j < at + beg ==> s[j] == reversed[j - at]
      invariant forall j :: at + end < j < at + len ==> s[j] == reversed[j - at]
      invariant forall j :: at + beg <= j <= at + end ==> s[j] == text[j - at]
      invariant forall j :: 0 <= j < s.Length && !(at <= j < at + len) ==> s[j] == old(s[j])
    {
      var tmp := s[at + end];
      s[at + end] := s[at + beg];
      s[at + beg] := tmp;
      beg := beg + 1;
      end := end - 1;
    }
    assert s[at..at + len] == reversed;
  }

  lemma DigitsStep(v: nat, radix: nat)
    requires 2 <= radix <= 36 && v > 0
    ensures 0 <= v / radix < v && v % radix < radix
    ensures Digits(v, radix) == Digits(v / radix, radix) + [Digit(v % radix)]
  {
    Smaller(v, radix);
  }

  lemma ReverseCons(s: seq<byte>, c: byte, front: seq<byte>)
    ensures front + [c] + Reverse(s) == front + Reverse(s + [c])
  {
    assert [c] + Reverse(s) == Reverse(s + [c]);
  }

  lemma ReverseNoNul(s: seq<byte>)
    requires NoNul(Reverse(s))
    ensures NoNul(s)
  {
    forall k | 0 <= k < |s| ensures s[k] != 0 {
      assert s[k] == Reverse(s)[|s| - 1 - k];
    }
  }

  /** itoa: the numeral of `value` as a string at `at`. */
  method Itoa(value: word, buf: array<byte>, at: nat, radix: nat)
    requires 2 <= radix <= 36 && at + |Numeral(value, radix)| < buf.Length
    modifies buf
    ensures buf[at..at + |Numeral(value, radix)|] == Numeral(value, radix)
    ensures buf[at + |Numeral(value, radix)|] == 0
    ensures forall j :: 0 <= j < buf.Length && !(at <= j <= at + |Numeral(value, radix)|) ==> buf[j] == old(buf[j])
  {
    hide Digits, Reverse, CStr;
    if value == 0 {
      buf[at] := ZERO;
      buf[at + 1] := 0;
    } else {
      var i := EmitDigits(value, buf, at, radix);
      TerminateAndReverse(buf, at, i, Digits(value, radix));
    }
  }

  /** itoa's last steps: the NUL, and the reversal. */
  method TerminateAndReverse(buf: array<byte>, at: nat, i: nat, ghost digits: seq<byte>)
    requires at + i < buf.Length && Reverse(buf[at..at + i]) == digits && NoNul(digits)
    modifies buf
    ensures buf[at..at + i] == digits && buf[at + i] == 0
    ensures forall j :: 0 <= j < buf.Length && !(at <= j <= at + i) ==> buf[j] == old(buf[j])
  {
    hide Reverse;
    ghost var backwards := buf[at..at + i];
    buf[at + i] := 0;
    assert buf[at..at + i] == backwards;
    ReverseNoNul(backwards);
    StrRev(buf, at, i);
  }

  /** itoa's loop: digits from the lowest place value up. */
  method EmitDigits(value: word, buf: array<byte>, at: nat, radix: nat) returns (i: nat)
    requires 2 <= radix <= 36 && at + |Digits(value, radix)| < buf.Length
    modifies buf
    ensures i == |Digits(value, radix)| && Reverse(buf[at..at + i]) == Digits(value, radix)
    ensures forall j :: 0 <= j < buf.Length && !(at <= j < at + i) ==> buf[j] == old(buf[j])
  {
    hide Digits, Reverse;
    var newval: word := value;
    i := 0;
    assert Digits(value, radix) + Reverse(buf[at..at + i]) == Digits(value, radix);
    while newval > 0
      invariant 0 <= i <= |Digits(value, radix)|
      invariant Digits(value, radix) == Digits(newval, radix) + Reverse(buf[at..at + i])
      invariant forall j :: 0 <= j < buf.Length && !(at <= j < at + i) ==> buf[j] == old(buf[j])
      decreases newval
    {
      DigitsStep(newval, radix);
      ghost var was, c := buf[at..at + i], Digit(newval % radix);
      ReverseCons(was, c, Digits(newval / radix, radix));
      buf[at + i] := Digit(newval % radix);
      assert buf[at..at + i + 1] == was + [c];
      newval := newval / radix;
      i := i + 1;
    }
    assert Digits(newval, radix) + Reverse(buf[at..at + i]) == Reverse(buf[at..at + i]);
  }

  /** puts: the bytes up to the first NUL. */
  method PutS(buf: array<byte>, at: nat, ghost text: seq<byte>) returns (out: seq<byte>)
    requires at + |text| < buf.Length && buf[at + |text|] == 0
    requires NoNul(text) && buf[at..at + |text|] == text
    ensures out == text
  {
    assert buf[at..][..|text|] == text;
    CStrIs(buf[at..], |text|);
    var n := StrLen(buf, at);
    return buf[at..at + n];
  }

  /** printf %#x: eight hexadecimal digits with the value of v. */
  method PrintHexPadded(v: word) returns (out: seq<byte>)
    ensures |out| == 8 && Parse(out, 16) == v
    ensures |Numeral(v, 16)| <= 8 && out == Repeat(ZERO, 8 - |Numeral(v, 16)|) + Numeral(v, 16)
  {
    hide Parse, Digits, CStr, Numeral;
    WordHexDigits(v);
    var buf := new byte[64](i => 0);
    Itoa(v, buf, 8, 16);
    ghost var text := Numeral(v, 16);
    assert buf[8..][..|text|] == text;
    CStrIs(buf[8..], |text|);
    var start := StrLen(buf, 8);
    var i := start;
    while i < 8
      invariant start <= i <= 8
      invariant forall j :: start <= j < i ==> buf[j] == ZERO
      invariant buf[8..8 + |text|] == text && buf[8 + |text|] == 0
    {
      buf[i] := ZERO;
      i := i + 1;
    }
    ghost var padded := Repeat(ZERO, 8 - |text|) + text;
    assert buf[start..start + 8] == padded;
    out := PutS(buf, start, padded);
    PaddingKeepsValue(8 - |text|, text, 16);
    NumeralParses(v, 16);
  }

  /** printf %d for a 32-bit signed value: a minus sign and the numeral of the magnitude. */
  method PrintDecimal(value: int) returns (out: seq<byte>)
    requires -0x8000_0000 <= value < 0x8000_0000
    ensures if value < 0 then
              |out| > 1 && out[0] == 45 && DigitString(out[1..], 10) && -Parse(out[1..], 10) == value && out[1] != 48
            else DigitString(out, 10) && Parse(out, 10) == value && (value > 0 ==> out[0] != 48)
  {
    hide Parse, Digits, CStr, Numeral;
    var buf := new byte[36](i => 0);
    if value < 0 {
      var magnitude := (-value) % 0x1_0000_0000;
      WordDigits(magnitude, 10);
      buf[0] := MINUS;
      Itoa(magnitude, buf, 1, 10);
      NumeralParses(magnitude, 10);
      ghost var text := [MINUS] + Numeral(magnitude, 10);
      assert buf[0..0 + |text|] == text;
      out := PutS(buf, 0, text);
      assert out[1..] == Numeral(magnitude, 10);
    } else {
      WordDigits(value, 10);
      Itoa(value, buf, 0, 10);
      NumeralParses(value, 10);
      out := PutS(buf, 0, Numeral(value, 10));
    }
  }

  function Repeat(c: byte, n: nat): (s: seq<byte>)
    ensures |s| == n && forall i :: 0 <= i < n ==> s[i] == c
  {
    seq(n, _ => c)
  }

  /** What itoa writes: a numeral that parses back, of valid digits, without leading zeros. */
  lemma NumeralParses(v: nat, radix: nat)
    requires 2 <= radix <= 36
    ensures Parse(Numeral(v, radix), radix) == v && DigitString(Numeral(v, radix), radix)
    ensures v > 0 ==> Numeral(v, radix)[0] != ZERO
  {
    if v == 0 {
      ParseSnoc([], ZERO, radix);
      assert [] + [ZERO] == [ZERO];
    } else {
      DigitsParse(v, radix);
    }
    DigitsValid(v, radix);
  }

  lemma {:induction false} DigitsValid(v: nat, radix: nat)
    requires 2 <= radix <= 36
    ensures DigitString(Digits(v, radix), radix)
    decreases v
  {
    if v > 0 {
      Smaller(v, radix);
      DigitsValid(v / radix, radix);
    }
  }

  lemma {:induction false} PaddingKeepsValue(n: nat, s: seq<byte>, radix: nat)
    ensures Parse(Repeat(ZERO, n) + s, radix) == Parse(s, radix)
    decreases |s|, n
  {
    var z := Repeat(ZERO, n);
    if s != [] {
      var front := s[..|s| - 1];
      PaddingKeepsValue(n, front, radix);
      ParseSnoc(z + front, s[|s| - 1], radix);
      assert z + s == (z + front) + [s[|s| - 1]];
    } else if n > 0 {
      PaddingKeepsValue(n - 1, [], radix);
      ParseSnoc(Repeat(ZERO, n - 1), ZERO, radix);
      assert z + s == Repeat(ZERO, n - 1) + [ZERO] && Repeat(ZERO, n - 1) + [] == Repeat(ZERO, n - 1);
    }
  }

  lemma SomeNumerals()
    ensures Numeral(0, 10) == [48] && Numeral(10, 10) == [49, 48] && Numeral(0xAF, 16) == [65, 70]
  {
    assert Digits(1, 10) == [49] by {
      assert Digits(0, 10) == [];
    }
    assert Digits(0xA, 16) == [65] by {
      assert Digits(0, 16) == [];
    }
    assert 0xAF / 16 == 0xA && 0xAF % 16 == 0xF && 10 / 10 == 1 && 10 % 10 == 0;
  }
}
