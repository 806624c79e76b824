/** How execute splits a command into a file name and arguments, and how getargs hands these out. */
module CommandLine {
  import opened Bytes

  function SkipSpaces(s: seq<byte>): (r: seq<byte>)
    ensures |r| <= |s|
  {
    if s == [] || s[0] != SPACE then s else SkipSpaces(s[1..])
  }

  /** The bytes before the first space. */
  function Word(s: seq<byte>): (w: seq<byte>)
    ensures |w| <= |s|
  {
    if s == [] || s[0] == SPACE then [] else [s[0]] + Word(s[1..])
  }

  function AfterWord(s: seq<byte>): (r: seq<byte>)
    ensures |r| <= |s|
  {
    if s == [] || s[0] == SPACE then s else AfterWord(s[1..])
  }

  /** The first space-delimited word. */
  function FileName(command: seq<byte>): (name: seq<byte>)
    ensures |name| <= |command|
  {
    Word(SkipSpaces(command))
  }

  /** What follows that word, without leading spaces. */
  function Args(command: seq<byte>): (args: seq<byte>)
    ensures |args| <= |command|
  {
    SkipSpaces(AfterWord(SkipSpaces(command)))
  }

  function Spaces(n: nat): (s: seq<byte>)
    ensures |s| == n
  {
    if n == 0 then [] else [SPACE] + Spaces(n - 1)
  }

  /** A name without spaces and arguments that do not start with one; arguments only after a name and a space. */
  predicate WellSplit(name: seq<byte>, gap: nat, args: seq<byte>) {
    && SPACE !in name
    && (args == [] || args[0] != SPACE)
    && (name == [] ==> gap == 0 && args == [])
    && (args != [] ==> gap > 0)
  }

  lemma {:induction false} SkipAdded(n: nat, s: seq<byte>)
    ensures SkipSpaces(Spaces(n) + s) == SkipSpaces(s)
  {
    if n > 0 {
      SkipAdded(n - 1, s);
      var all := Spaces(n) + s;
      assert all[0] == SPACE && all[1..] == Spaces(n - 1) + s;
    } else {
      assert Spaces(0) + s == s;
    }
  }

  lemma {:induction false} WordAdded(name: seq<byte>, s: seq<byte>)
    requires SPACE !in name && (s == [] || s[0] == SPACE)
    ensures Word(name + s) == name && AfterWord(name + s) == s
  {
    if name == [] {
      assert name + s == s;
    } else {
      assert name[0] in name;
      assert forall b :: b in name[1..] ==> b in name;
      WordAdded(name[1..], s);
      assert (name + s)[1..] == name[1..] + s;
    }
  }

  lemma Regroup(a: seq<byte>, b: seq<byte>, c: seq<byte>, d: seq<byte>)
    ensures a + b + c + d == a + (b + (c + d))
  {
  }

  /** The split is the only one of its kind: any command laid out that way parses back to its parts. */
  lemma SplitDetermined(lead: nat, name: seq<byte>, gap: nat, args: seq<byte>)
    requires WellSplit(name, gap, args)
    ensures FileName(Spaces(lead) + name + Spaces(gap) + args) == name
    ensures Args(Spaces(lead) + name + Spaces(gap) + args) == args
  {
    hide SkipSpaces, Word, AfterWord;
    var tail := Spaces(gap) + args;
    Regroup(Spaces(lead), name, Spaces(gap), args);
    SkipAdded(lead, name + tail);
    SkipAdded(gap, args);
    assert SPACE !in name ==> name == [] || name[0] in name;
    WordAdded(name, tail);
    SkipNothing(name + tail);
    SkipNothing(args);
  }

  /** Two spaces, a name, two spaces, and arguments of two words. */
  lemma OneCommand()
    ensures var command := [32, 32] + Chars("grep") + [32, 32] + Chars("a b");
            FileName(command) == Chars("grep") && Args(command) == Chars("a b")
  {
    assert Spaces(2) == [32, 32] by {
      assert Spaces(1) == [32] && Spaces(2) == [32] + Spaces(1);
    }
    SplitDetermined(2, Chars("grep"), 2, Chars("a b"));
  }

  lemma SkipNothing(s: seq<byte>)
    requires s == [] || s[0] != SPACE
    ensures SkipSpaces(s) == s
  {
  }

  lemma {:induction false} LeadingSpaces(s: seq<byte>) returns (n: nat)
    ensures s == Spaces(n) + SkipSpaces(s) && (SkipSpaces(s) == [] || SkipSpaces(s)[0] != SPACE)
    ensures s != [] && s[0] == SPACE ==> n > 0
  {
    if s == [] || s[0] != SPACE {
      n := 0;
    } else {
      n := LeadingSpaces(s[1..]);
      assert s == [SPACE] + s[1..];
      assert [SPACE] + (Spaces(n) + SkipSpaces(s)) == Spaces(n + 1) + SkipSpaces(s);
      n := n + 1;
    }
  }

  lemma {:induction false} WordSplits(s: seq<byte>)
    ensures s == Word(s) + AfterWord(s) && SPACE !in Word(s)
    ensures AfterWord(s) == [] || AfterWord(s)[0] == SPACE
    ensures s != [] && s[0] != SPACE ==> Word(s) != []
  {
    if s != [] && s[0] != SPACE {
      WordSplits(s[1..]);
      Prepended(s[0], s[1..], Word(s[1..]), AfterWord(s[1..]));
      assert s == [s[0]] + s[1..];
    }
  }

  lemma Prepended(b: byte, rest: seq<byte>, front: seq<byte>, back: seq<byte>)
    requires rest == front + back
    ensures [b] + rest == [b] + front + back
  {
  }

  /** The command is `lead` spaces, its name, `gap` spaces and its arguments. */
  ghost predicate LaidOutWith(command: seq<byte>, lead: nat, gap: nat) {
    && command == Spaces(lead) + FileName(command) + Spaces(gap) + Args(command)
    && WellSplit(FileName(command), gap, Args(command))
  }

  /** Every command is laid out that way, so the parse loses only the number of spaces. */
  lemma EveryCommandSplits(command: seq<byte>)
    ensures exists lead: nat, gap: nat :: LaidOutWith(command, lead, gap)
  {
    var lead, gap := SplitPoints(command);
  }

  lemma SplitPoints(command: seq<byte>) returns (lead: nat, gap: nat)
    ensures LaidOutWith(command, lead, gap)
  {
    hide SkipSpaces, Word, AfterWord, Spaces;
    lead := LeadingSpaces(command);
    var body := SkipSpaces(command);
    WordSplits(body);
    gap := LeadingSpaces(AfterWord(body));
    SpacesLength(gap);
    Regroup(Spaces(lead), Word(body), Spaces(gap), Args(command));
    if AfterWord(body) == [] {
      gap := 0;
      SpacesLength(0);
      SkipNothing([]);
      Regroup(Spaces(lead), Word(body), Spaces(gap), Args(command));
      assert Spaces(0) + [] == [];
    }
  }

  lemma SpacesLength(n: nat)
    ensures |Spaces(n)| == n
  {
  }

  /** Where the loop stands: before the name, in it, between, or in the arguments. */
  function NameToCome(parsed: bool, handled: bool, rest: seq<byte>): (r: seq<byte>)
    ensures |r| <= |rest|
  {
    if parsed then [] else if handled then Word(rest) else FileName(rest)
  }

  function ArgsToCome(parsed: bool, handled: bool, rest: seq<byte>): (r: seq<byte>)
    ensures |r| <= |rest|
  {
    if !parsed then (if handled then SkipSpaces(AfterWord(rest)) else Args(rest))
    else if handled then rest else SkipSpaces(rest)
  }

  /** What one turn of the loop takes off the input, given the flags after its first test. */
  lemma NextByte(parsed: bool, before: bool, rest: seq<byte>)
    requires rest != []
    ensures var c := rest[0];
            var handled := before || c != SPACE;
            var ends := !parsed && handled && c == SPACE;
            && NameToCome(parsed, before, rest)
               == (if !parsed && handled && !ends then [c] else [])
                  + NameToCome(parsed || ends, handled && !ends, rest[1..])
            && ArgsToCome(parsed, before, rest)
               == (if parsed && handled then [c] else []) + ArgsToCome(parsed || ends, handled && !ends, rest[1..])
  {
    assert rest == [rest[0]] + rest[1..];
  }

  /** execute's flag-driven loop, into its two zeroed buffers. */
  method ParseCommand(command: seq<byte>) returns (fileName: array<byte>, argBuffer: array<byte>)
    requires |command| < 32 && NoNul(command)
    ensures fresh(fileName) && fresh(argBuffer) && fileName.Length == 32 && argBuffer.Length == 95
    ensures fileName[..] == Pad(FileName(command), 32) && argBuffer[..] == Pad(Args(command), 95)
  {
    hide NameToCome, ArgsToCome, FileName, Args, Pad, Zeros;
    argBuffer := new byte[95](i => 0);
    fileName := new byte[32](i => 0);
    var cur, fileCur, argCur := 0, 0, 0;
    var handled, parsed := false, false;
    ToComeAtStart(command);
    while cur < |command|
      invariant 0 <= fileCur <= cur <= |command| && 0 <= argCur <= cur
      invariant FileName(command) == fileName[..fileCur] + NameToCome(parsed, handled, command[cur..])
      invariant Args(command) == argBuffer[..argCur] + ArgsToCome(parsed, handled, command[cur..])
      invariant forall j :: fileCur <= j < 32 ==> fileName[j] == 0
      invariant forall j :: argCur <= j < 95 ==> argBuffer[j] == 0
    {
      NextByte(parsed, handled, command[cur..]);
      assert command[cur..][1..] == command[cur + 1..];
      ghost var name, args := fileName[..fileCur], argBuffer[..argCur];
      if command[cur] != SPACE && !handled {
        handled := true;
      }
      if !parsed && handled {
        if command[cur] != SPACE && handled {
          fileName[fileCur] := command[cur];
          fileCur := fileCur + 1;
          assert fileName[..fileCur] == name + [command[cur]];
        }
        if command[cur] == SPACE && handled {
          parsed := true;
          handled := false;
        }
      } else {
        if handled {
          argBuffer[argCur] := command[cur];
          argCur := argCur + 1;
          assert argBuffer[..argCur] == args + [command[cur]];
        }
      }
      cur := cur + 1;
    }
    NothingToCome(parsed, handled, command[cur..]);
    assert fileName[..fileCur] == FileName(command) && argBuffer[..argCur] == Args(command);
    fileName[cur] := 0;
    if argBuffer[0] != 0 {
      argBuffer[argCur] := 0;
    }
    PaddedWith(fileName[..], fileCur);
    PaddedWith(argBuffer[..], argCur);
  }

  lemma PaddedWith(s: seq<byte>, k: nat)
    requires k <= |s| && forall j :: k <= j < |s| ==> s[j] == 0
    ensures s == Pad(s[..k], |s|)
  {
  }

  lemma ToComeAtStart(command: seq<byte>)
    ensures command[0..] == command
    ensures NameToCome(false, false, command) == FileName(command)
    ensures ArgsToCome(false, false, command) == Args(command)
  {
  }

  lemma NothingToCome(parsed: bool, handled: bool, rest: seq<byte>)
    requires rest == []
    ensures NameToCome(parsed, handled, rest) == [] && ArgsToCome(parsed, handled, rest) == []
  {
  }

  /**
   * getargs: -1 iff there are no arguments or no room is offered; otherwise 95 bytes, the arguments
   * and then NULs. `literal` is what memory holds from the string literal "\\0" on, which is first
   * copied over the old string in the buffer.
   */
  method GetArgs(args: seq<byte>, buf: array<byte>, at: nat, nbytes: int, literal: seq<byte>) returns (r: int)
    requires |args| == 95 && 0 in args
    requires at + 95 <= buf.Length && exists k :: at <= k < buf.Length && buf[k] == 0
    requires |literal| >= buf.Length
    modifies buf
    ensures r == if CStr(args) == [] || nbytes <= 0 then -1 else 0
    ensures r == -1 ==> buf[..] == old(buf[..])
    ensures r == 0 ==> buf[at..at + 95] == Pad(CStr(args), 95)
    ensures forall j :: 0 <= j < buf.Length && !(at <= j < at + Max(95, |CStr(old(buf[at..]))|)) ==>
              buf[j] == old(buf[j])
  {
    if args[0] == 0 {
      return -1;
    }
    if nbytes <= 0 {
      return -1;
    }
    var n := StrLen(buf, at);
    forall j | 0 <= j < n {
      buf[at + j] := literal[j];
    }
    CopyArguments(args, buf, at);
    return 0;
  }

  /** The loops of getargs: the string, then NULs. */
  method CopyArguments(args: seq<byte>, buf: array<byte>, at: nat)
    requires |args| == 95 && 0 in args && at + 95 <= buf.Length
    modifies buf
    ensures buf[at..at + 95] == Pad(CStr(args), 95)
    ensures forall j :: 0 <= j < buf.Length && !(at <= j < at + 95) ==> buf[j] == old(buf[j])
  {
    var i := 0;
    EndsInside(args);
    hide CStr, Pad, Zeros;
    while args[i] != 0 && i < |CStr(args)|
      invariant 0 <= i <= |CStr(args)| < 95
      invariant forall j :: at <= j < at + i ==> buf[j] == args[j - at]
      invariant forall j :: 0 <= j < buf.Length && !(at <= j < at + 95) ==> buf[j] == old(buf[j])
      decreases 95 - i
    {
      buf[at + i] := args[i];
      i := i + 1;
    }
    ghost var k := i;
    while i < 95
      invariant k <= i <= 95
      invariant forall j :: at <= j < at + k ==> buf[j] == args[j - at]
      invariant forall j :: at + k <= j < at + i ==> buf[j] == 0
      invariant forall j :: 0 <= j < buf.Length && !(at <= j < at + 95) ==> buf[j] == old(buf[j])
    {
      buf[at + i] := 0;
      i := i + 1;
    }
    PaddedAt(buf[..], at, args, k);
  }

  lemma PaddedAt(buf: seq<byte>, at: nat, args: seq<byte>, k: nat)
    requires k <= |args| == 95 && at + 95 <= |buf|
    requires forall j :: at <= j < at + k ==> buf[j] == args[j - at]
    requires forall j :: at + k <= j < at + 95 ==> buf[j] == 0
    ensures buf[at..at + 95] == Pad(args[..k], 95)
  {
    assert buf[at..at + 95] == args[..k] + Zeros(95 - k);
  }

  lemma EndsInside(s: seq<byte>)
    requires 0 in s
    ensures |CStr(s)| < |s| && s[|CStr(s)|] == 0
    ensures NoNul(CStr(s)) && CStr(s) == s[..|CStr(s)|] && (s[0] != 0 ==> CStr(s) != [])
  {
    assert forall k :: 0 <= k < |CStr(s)| ==> CStr(s)[k] == s[k];
  }

  lemma ArgsHaveNoNul(command: seq<byte>)
    requires NoNul(command)
    ensures NoNul(Args(command)) && NoNul(FileName(command))
  {
    hide SkipSpaces, Word, AfterWord, Spaces, FileName, Args, WellSplit;
    var lead, gap := SplitPoints(command);
    var (a, b, c, d) := (Spaces(lead), FileName(command), Spaces(gap), Args(command));
    assert forall i :: 0 <= i < |b| ==> b[i] == command[|a| + i];
    assert forall i :: 0 <= i < |d| ==> d[i] == command[|a| + |b| + |c| + i];
  }
}
