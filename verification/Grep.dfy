/** The `grep` program's do_one_file: a 1024-byte window slid over a file, on top of the read call. */
module Grep {
  import opened Bytes
  import opened FileSystem
  import opened Descriptors
  import opened Lines
  import opened Cat

  /** ece391_strncmp of the bytes at `at` (a string that ends at `end`) against the first n bytes of `s`. */
  method StrNCmp(data: array<byte>, at: nat, ghost end: nat, s: seq<byte>, n: nat) returns (r: int)
    requires at <= end < data.Length && data[end] == 0
    requires n <= |s| && NoNul(s)
    ensures r == 0 <==> at + n <= end && data[at..at + n] == s[..n]
  {
    if n == 0 {
      return 0;
    }
    var i, left := 0, n;
    while data[at + i] == s[i]
      invariant 0 <= i < n && left == n - i && at + i <= end
      invariant data[at..at + i] == s[..i]
      decreases left
    {
      left := left - 1;
      assert data[at..at + i + 1] == data[at..at + i] + [data[at + i]] && s[..i + 1] == s[..i] + [s[i]];
      if data[at + i] == 0 || left == 0 {
        return 0;
      }
      i := i + 1;
    }
    assert at + n <= end ==> data[at..at + n][i] != s[..n][i];
    return (data[at + i] as int) - s[i];
  }

  /** ece391_fdputs: the bytes written for the string at `at`. */
  method FdPuts(data: array<byte>, at: nat, ghost end: nat) returns (written: seq<byte>)
    requires at <= end < data.Length && data[end] == 0 && NoNul(data[at..end])
    ensures written == data[at..end]
  {
    var len := StrLen(data, at);
    assert data[at..][..end - at] == data[at..end];
    CStrIs(data[at..], end - at);
    return data[at..at + len];
  }

  /** ece391_strcpy towards the front of the same buffer, byte by byte. */
  method StrCpy(data: array<byte>, dst: nat, src: nat, ghost len: nat)
    requires dst < src && src + len < data.Length
    requires data[src + len] == 0 && NoNul(data[src..src + len])
    modifies data
    ensures forall j :: dst <= j <= dst + len ==> data[j] == old(data[j - dst + src])
    ensures forall j :: 0 <= j < data.Length && !(dst <= j <= dst + len) ==> data[j] == old(data[j])
  {
    var i := 0;
    assert forall j :: src <= j < src + len ==> data[j] == data[src..src + len][j - src] != 0;
    while true
      invariant 0 <= i <= len
      invariant forall j :: dst <= j < dst + i ==> data[j] == old(data[j - dst + src])
      invariant forall j :: 0 <= j < data.Length && !(dst <= j < dst + i) ==> data[j] == old(data[j])
      decreases len - i
    {
      data[dst + i] := data[src + i];
      i := i + 1;
      if data[dst + i - 1] == 0 {
        break;
      }
    }
  }

  lemma OccursInSlice(bytes: seq<byte>, start: nat, end: nat, check: nat, s: seq<byte>)
    requires start <= check < end <= |bytes|
    ensures OccursAt(bytes[start..end], s, check - start) <==> check + |s| <= end && bytes[check..check + |s|] == s
  {
    if check + |s| <= end {
      SameSlice(bytes[start..end], bytes, check - start, check - start + |s|, start);
    }
  }

  lemma FirstByteDiffers(bytes: seq<byte>, start: nat, end: nat, check: nat, s: seq<byte>)
    requires start <= check < end <= |bytes|
    requires s == [] || Signed(s[0]) != bytes[check] as int
    ensures !(Findable(s) && OccursAt(bytes[start..end], s, check - start))
  {
    OccursInSlice(bytes, start, end, check, s);
    if s != [] && check + |s| <= end {
      assert bytes[check..check + |s|][0] == bytes[check];
    }
  }

  /** The search loop over one line, which ends in a NUL at `end`. */
  method SearchLine(data: array<byte>, start: nat, end: nat, s: seq<byte>) returns (found: bool)
    requires start <= end < data.Length && data[end] == 0 && NoNul(s)
    ensures found <==> Findable(s) && Contains(data[start..end], s)
  {
    hide OccursAt;
    ghost var line := data[start..end];
    ghost var bytes := data[..];
    assert bytes[start..end] == line;
    var check := start;
    while check < end
      invariant start <= check <= end
      invariant forall i: nat :: i < check - start ==> !(Findable(s) && OccursAt(line, s, i))
    {
      if s != [] && Signed(s[0]) == data[check] as int {
        var d := StrNCmp(data, check, end, s, |s|);
        OccursInSlice(bytes, start, end, check, s);
        assert check + |s| <= end ==> bytes[check..check + |s|] == data[check..check + |s|];
        if d == 0 {
          return true;
        }
      } else {
        FirstByteDiffers(bytes, start, end, check, s);
      }
      check := check + 1;
    }
    NoOccurrencePast(line, s);
    return false;
  }

  lemma NoOccurrencePast(line: seq<byte>, s: seq<byte>)
    ensures Findable(s) ==> forall i: nat :: i >= |line| ==> !OccursAt(line, s, i)
  {
  }

  /** The window holds text[q..p] in its first `last` bytes, then NULs, and a spare byte that is no newline. */
  ghost predicate Window(data: array<byte>, text: seq<byte>, q: nat, p: nat, last: nat)
    reads data
  {
    && data.Length == 1025 && last <= 1024
    && q <= p <= |text| && p == q + last
    && data[..last] == text[q..p]
    && (forall j :: last <= j < 1024 ==> data[j] == 0)
    && data[1024] != NEWLINE
  }

  /** The first newline at or after `start`, or `last`. */
  method FindLineEnd(data: array<byte>, start: nat, last: nat) returns (end: nat)
    requires start <= last < data.Length
    ensures start <= end <= last
    ensures NEWLINE !in data[start..end] && (end < last ==> data[end] == NEWLINE)
  {
    end := start;
    while end < last && NEWLINE != data[end]
      invariant start <= end <= last
      invariant NEWLINE !in data[start..end]
    {
      end := end + 1;
      assert data[start..end] == data[start..end - 1] + [data[end - 1]];
    }
  }

  /** Move the partial line at `lineStart` to the front of the window. */
  method CarryOver(data: array<byte>, lineStart: nat, last: nat, ghost line: seq<byte>) returns (last2: nat)
    requires data.Length == 1025 && 0 < lineStart < last <= 1024
    requires data[lineStart..last] == line && NoNul(line)
    requires data[1024] != NEWLINE
    modifies data
    ensures last2 == last - lineStart == |line| && data[..last2] == line && data[1024] != NEWLINE
  {
    data[last] := 0;
    assert data[lineStart..lineStart + (last - lineStart)] == line;
    StrCpy(data, 0, lineStart, last - lineStart);
    return last - lineStart;
  }

  /** Terminate the line at `end`, search it, and report it if it contains `s`. */
  method PrintIfFound(data: array<byte>, start: nat, end: nat, s: seq<byte>, fname: seq<byte>, ghost line: seq<byte>)
    returns (printed: seq<byte>)
    requires start <= end < data.Length && data[start..end] == line && NoNul(line) && NoNul(s)
    modifies data
    ensures printed == if Findable(s) then ReportIf(fname, s, line) else []
    ensures data[end] == 0 && forall j :: 0 <= j < data.Length && j != end ==> data[j] == old(data[j])
  {
    data[end] := 0;
    assert data[start..end] == line;
    var found := SearchLine(data, start, end, s);
    printed := [];
    if found {
      var shown := FdPuts(data, start, end);
      printed := fname + [COLON] + shown + [NEWLINE];
    }
  }

  /**
   * The inner loop: print from the lines in the window, which starts at text[q], and keep the last
   * partial line if there may be more to come. On return the window starts at text[q2].
   */
  method ScanWindow(data: array<byte>, last: nat, cnt: nat, s: seq<byte>, fname: seq<byte>,
                    ghost text: seq<byte>, ghost q: nat, ghost p: nat)
    returns (last2: nat, out: seq<byte>, ghost q2: nat)
    requires NoNul(s) && NoNul(text) && ShortLines(text)
    requires Window(data, text, q, p, last)
    requires p < |text| ==> last == 1024
    requires cnt == 0 ==> p == |text|
    modifies data
    ensures q <= q2 && p == q2 + last2 && last2 < 1024 && data[..last2] == text[q2..p]
    ensures data[1024] != NEWLINE
    ensures cnt == 0 ==> last2 == 0
    ensures Grepped(fname, s, text[q..]) == out + Grepped(fname, s, text[q2..])
  {
    hide Grepped, ReportIf;
    out, q2 := [], q;
    var lineStart := 0;
    while true
      invariant q2 == q + lineStart && (lineStart < last || lineStart == 0) && p == q + last
      invariant forall j :: lineStart <= j < last ==> data[j] == text[q + j]
      invariant forall j :: last <= j < 1024 ==> data[j] == 0
      invariant data[1024] != NEWLINE
      invariant Grepped(fname, s, text[q..]) == out + Grepped(fname, s, text[q2..])
      decreases last - lineStart
    {
      var lineEnd := FindLineEnd(data, lineStart, last);
      SameSlice(data[..], text, lineStart, lineEnd, q);
      if NEWLINE != data[lineEnd] && 0 != cnt && lineStart != 0 {
        last2 := CarryOver(data, lineStart, last, text[q2..p]);
        return;
      }
      if lineEnd == last {
        // Not carried: the line is the rest of the text, for a full window without a newline cannot be.
        if last == 1024 {
          FullWindowHasNewline(text, q);
        }
        assert p == |text|;
      }
      var printed := PrintIfFound(data, lineStart, lineEnd, s, fname, text[q2..q + lineEnd]);
      ghost var next := if lineEnd < last then q + lineEnd + 1 else p;
      StepOverLine(fname, s, text, q2, q + lineEnd, next);
      Reassociate(out, printed, Grepped(fname, s, text[next..]));
      out := out + printed;
      lineStart := lineEnd + 1;
      q2 := next;
      if lineStart >= last {
        last2 := 0;
        return;
      }
    }
  }

  lemma SameSlice(a: seq<byte>, b: seq<byte>, i: nat, j: nat, q: nat)
    requires i <= j <= |a| && q + j <= |b| && forall k :: i <= k < j ==> a[k] == b[q + k]
    ensures a[i..j] == b[q + i..q + j]
  {
  }

  lemma FullWindowHasNewline(text: seq<byte>, q: nat)
    requires ShortLines(text) && q + 1024 <= |text|
    ensures NEWLINE in text[q..q + 1024]
  {
    assert NewlineInWindow(text, q);
  }

  lemma Reassociate(a: seq<byte>, b: seq<byte>, c: seq<byte>)
    ensures (a + b) + c == a + (b + c)
  {
  }

  lemma StepOverLine(fname: seq<byte>, s: seq<byte>, text: seq<byte>, a: nat, e: nat, next: nat)
    requires next == if e < |text| then e + 1 else e
    requires a <= e <= |text| && NEWLINE !in text[a..e] && (e < |text| ==> text[e] == NEWLINE)
    ensures Grepped(fname, s, text[a..])
         == (if Findable(s) then ReportIf(fname, s, text[a..e]) else [])
            + Grepped(fname, s, text[next..])
  {
    hide Grepped, ReportIf;
    assert text[a..][..e - a] == text[a..e];
    if e < |text| {
      assert text[a..][e - a] == NEWLINE;
      GreppedLine(fname, s, text[a..], e - a);
      assert text[a..][e - a + 1..] == text[e + 1..];
    } else {
      assert text[a..] == text[a..e] && text[e..] == [];
      GreppedLastLine(fname, s, text[a..]);
      GreppedNothing(fname, s);
    }
  }

  /** Text that grep handles: no NUL bytes, and no line of more than 1023 bytes. */
  ghost predicate GrepText(text: seq<byte>) {
    NoNul(text) && forall i :: 0 <= i < |Split(text)| ==> |Split(text)[i]| <= 1023
  }

  /** The same descriptors of the table are open, each unchanged, and nothing differs outside the table. */
  ghost predicate SameOpen(before: seq<Fd>, after: seq<Fd>, base: nat) {
    && |before| == |after| && base + 8 <= |after|
    && (forall j :: 0 <= j < |after| ==> after[j].inUse == before[j].inUse)
    && (forall j :: 0 <= j < |after| && (after[j].inUse || !(base <= j < base + 8)) ==> after[j] == before[j])
  }

  lemma SameTable(before: seq<Fd>, after: seq<Fd>, base: nat)
    requires |before| == |after| && base + 8 <= |after| && after[base..base + 8] == before[base..base + 8]
    requires forall j :: 0 <= j < |after| && !(base <= j < base + 8) ==> after[j] == before[j]
    ensures SameOpen(before, after, base)
  {
    forall j | base <= j < base + 8 ensures after[j] == before[j] {
      assert after[base..base + 8][j - base] == before[base..base + 8][j - base];
    }
  }

  lemma Reclosed(before: seq<Fd>, after: seq<Fd>, base: nat, fd: word, f: Fd)
    requires |before| == |after| && base + 8 <= |after| && 2 <= fd < 8 && !before[base + fd].inUse && f.inUse
    requires after[base..base + 8] == CloseStep(before[base..base + 8][fd := f], fd).0
    requires forall j :: 0 <= j < |after| && !(base <= j < base + 8) ==> after[j] == before[j]
    ensures SameOpen(before, after, base)
  {
    var (a, b) := (before[base..base + 8], after[base..base + 8]);
    forall j | base <= j < base + 8
      ensures after[j].inUse == before[j].inUse && (after[j].inUse ==> after[j] == before[j])
    {
      assert after[j] == b[j - base] && before[j] == a[j - base];
    }
  }

  /**
   * The result for a file that opens: every line that contains `s` is reported, once each and in
   * order, and whether or not it opens, the open descriptors are afterwards what they were before. `data` is the
   * uninitialised stack buffer.
   */
  method DoOneFile(fs: seq<byte>, fds: array<Fd>, base: nat, s: seq<byte>, fname: seq<byte>, data: array<byte>)
    returns (status: int, out: seq<byte>)
    requires GoodDirectory(fs) && FileOrNothing(fs, fname) && NoNul(s)
    requires base + 8 <= fds.Length && GoodTable(fs, fds[base..base + 8])
    requires data.Length == 1025 && data[1024] != NEWLINE
    requires Lookup(fs, fname).Some? ==>
               var inode := StoredDentry(fs, Lookup(fs, fname).value).inode;
               GoodFile(fs, inode) && GrepText(Content(fs, inode))
    modifies fds, data
    ensures match Opens(fs, old(fds[base..base + 8]), fname)
            case None => status == -1 && out == Chars("file open failed") + [10]
            case Some(_) =>
              var inode := StoredDentry(fs, Lookup(fs, fname).value).inode;
              status == 0 && out == Grepped(fname, s, Content(fs, inode))
    ensures forall j :: 0 <= j < fds.Length ==> fds[j].inUse == old(fds[j]).inUse
    ensures forall j :: 0 <= j < fds.Length && (fds[j].inUse || !(base <= j < base + 8)) ==> fds[j] == old(fds[j])
    ensures data[1024] != NEWLINE
  {
    OpenedFile(fs, fds[base..base + 8], fname);
    hide Content, WordAt, FirstMatch, OpenStep, Lookup, StoredDentry, Grepped, GoodFile, GrepText, FileLength;
    ghost var (before, whole) := (fds[base..base + 8], fds[..]);
    var fd := Open(fs, fds, base, fname);
    if fd == -1 {
      SameTable(whole, fds[..], base);
      return -1, Chars("file open failed") + [10];
    }
    ghost var inode := StoredDentry(fs, Lookup(fs, fname).value).inode;
    out := GrepOpened(fs, fds, base, fd, s, fname, data, inode);
    var closed := Close(fds, base, fd);
    if closed == -1 {
      assert false;
    }
    Reclosed(whole, fds[..], base, fd, Fd(FileOps, true, FileLength(fs, inode), inode));
    return 0, out;
  }

  /** The outer loop: one window after the other, until a read gives nothing. */
  method GrepOpened(fs: seq<byte>, fds: array<Fd>, base: nat, fd: word, s: seq<byte>, fname: seq<byte>,
                    data: array<byte>, ghost inode: word)
    returns (out: seq<byte>)
    requires base + 8 <= fds.Length && GoodTable(fs, fds[base..base + 8])
    requires fd < 8 && fds[base..base + 8][fd] == Fd(FileOps, true, 0, inode)
    requires data.Length == 1025 && data[1024] != NEWLINE && NoNul(s)
    requires GoodFile(fs, inode) && GrepText(Content(fs, inode))
    modifies fds, data
    ensures out == Grepped(fname, s, Content(fs, inode)) && data[1024] != NEWLINE
    ensures fds[base..base + 8] == old(fds[base..base + 8])[fd := Fd(FileOps, true, FileLength(fs, inode), inode)]
    ensures forall j :: 0 <= j < fds.Length && !(base <= j < base + 8) ==> fds[j] == old(fds[j])
  {
    hide Content, Grepped, GoodFile, Split, FileLength, Pad, GoodTable;
    ghost var (before, whole) := (fds[base..base + 8], fds[..]);
    ghost var text := Content(fs, inode);
    ShortLinesAreLines(text);
    ghost var p: word, q: nat := 0, 0;
    var last: nat := 0;
    out := [];
    assert text[0..] == text;
    while true
      invariant fds[base..base + 8] == before[fd := Fd(FileOps, true, p, inode)]
      invariant last < 1024 && p == q + last <= |text| && data[..last] == text[q..p]
      invariant data[1024] != NEWLINE
      invariant out + Grepped(fname, s, text[q..]) == Grepped(fname, s, text)
      invariant forall j :: 0 <= j < fds.Length && !(base <= j < base + 8) ==> fds[j] == whole[j]
      decreases |text| - p
    {
      ghost var kept := data[..last];
      var cnt := ReadNext(fs, fds, base, fd, before, inode, p, data, last, 1024 - last);
      Refilled(data, text, q, p, last, cnt, kept);
      last := last + cnt;
      p := p + cnt;
      ghost var q2: nat;
      var printed;
      last, printed, q2 := ScanWindow(data, last, cnt, s, fname, text, q, p);
      Reassociate(out, printed, Grepped(fname, s, text[q2..]));
      out := out + printed;
      q := q2;
      if 0 == cnt {
        break;
      }
    }
    assert text[q..] == [];
    GreppedNothing(fname, s);
    assert out + [] == out;
  }

  /** A listed name that the program can grep: not empty, and that of a text file or of nothing. */
  ghost predicate Greppable(fs: seq<byte>, name: seq<byte>) {
    && name != [] && FileOrNothing(fs, name)
    && (Lookup(fs, name).Some? ==>
          var inode := StoredDentry(fs, Lookup(fs, name).value).inode;
          GoodFile(fs, inode) && GrepText(Content(fs, inode)))
  }

  /** What grep prints for one name, if it names a file. */
  ghost function GreppedFile(fs: seq<byte>, s: seq<byte>, name: seq<byte>): (r: Option<seq<byte>>)
    requires Greppable(fs, name)
  {
    match Lookup(fs, name)
    case None => None
    case Some(n) => Some(Grepped(name, s, Content(fs, StoredDentry(fs, n).inode)))
  }

  ghost predicate AllGreppable(fs: seq<byte>, names: seq<seq<byte>>) {
    forall i :: 0 <= i < |names| ==> Greppable(fs, names[i])
  }

  /** The result for a list of names: those that begin with a dot are skipped, and one without a file ends it. */
  ghost function GreppedFiles(fs: seq<byte>, s: seq<byte>, names: seq<seq<byte>>): (r: (int, seq<byte>))
    requires AllGreppable(fs, names)
  {
    if names == [] then (0, []) else
    var rest := GreppedFiles(fs, s, names[1..]);
    assert Greppable(fs, names[0]);
    if names[0][0] == 46 then rest
    else
      match GreppedFile(fs, s, names[0])
      case None => (3, Chars("file open failed") + [10])
      case Some(printed) => (rest.0, printed + rest.1)
  }

  /** Name after name; the result is 0 exactly if every name that does not begin with a dot is found, and else 3. */
  lemma {:induction false} GreppedInTurn(fs: seq<byte>, s: seq<byte>, names: seq<seq<byte>>)
    requires AllGreppable(fs, names)
    ensures GreppedFiles(fs, s, names).0 in {0, 3}
    ensures GreppedFiles(fs, s, names).0 == 0 <==>
              forall i :: 0 <= i < |names| ==>
                Greppable(fs, names[i]) && (names[i][0] == 46 || Lookup(fs, names[i]).Some?)
    ensures names == [] ==> GreppedFiles(fs, s, names).1 == []
    ensures names != [] ==>
              && AllGreppable(fs, names[1..]) && Greppable(fs, names[0])
              && var (name, rest) := (names[0], GreppedFiles(fs, s, names[1..]).1);
                 GreppedFiles(fs, s, names).1 ==
                 if name[0] == 46 then rest
                 else if Lookup(fs, name).None? then Chars("file open failed") + [10]
                 else Grepped(name, s, Content(fs, StoredDentry(fs, Lookup(fs, name).value).inode)) + rest
  {
    if names != [] {
      GreppedInTurn(fs, s, names[1..]);
      assert Greppable(fs, names[0]);
      assert forall i :: 0 < i < |names| ==> names[i] == names[1..][i - 1];
      hide Greppable;
    }
  }

  /**
   * main's loop over the names it reads from the directory. One descriptor is enough for any number of files:
   * each one opens, for the one before it was closed.
   */
  method GrepFiles(fs: seq<byte>, fds: array<Fd>, base: nat, s: seq<byte>, names: seq<seq<byte>>, data: array<byte>)
    returns (status: int, out: seq<byte>)
    requires GoodDirectory(fs) && NoNul(s) && AllGreppable(fs, names)
    requires base + 8 <= fds.Length && GoodTable(fs, fds[base..base + 8])
    requires exists k :: base + 2 <= k < base + 8 && !fds[k].inUse
    requires data.Length == 1025 && data[1024] != NEWLINE
    modifies fds, data
    ensures (status, out) == GreppedFiles(fs, s, names)
    ensures forall j :: 0 <= j < fds.Length ==> fds[j].inUse == old(fds[j]).inUse
    ensures forall j :: 0 <= j < fds.Length && (fds[j].inUse || !(base <= j < base + 8)) ==> fds[j] == old(fds[j])
  {
    hide Content, WordAt, FirstMatch, Grepped, GoodFile, Split, FileLength, OpenStep;
    out := [];
    var i := 0;
    assert names[0..] == names && [] + GreppedFiles(fs, s, names).1 == GreppedFiles(fs, s, names).1;
    while i < |names|
      invariant 0 <= i <= |names|
      invariant GreppedFiles(fs, s, names).0 == GreppedFiles(fs, s, names[i..]).0
      invariant GreppedFiles(fs, s, names).1 == out + GreppedFiles(fs, s, names[i..]).1
      invariant forall j :: 0 <= j < fds.Length ==> fds[j].inUse == old(fds[j]).inUse
      invariant forall j :: 0 <= j < fds.Length && (fds[j].inUse || !(base <= j < base + 8)) ==> fds[j] == old(fds[j])
      invariant data[1024] != NEWLINE
    {
      var name := names[i];
      assert names[i..][0] == name && names[i..][1..] == names[i + 1..] && Greppable(fs, name);
      if name[0] != 46 {
        StillGood(fs, old(fds[..]), fds[..], base);
        ghost var k :| base + 2 <= k < base + 8 && !fds[k].inUse;
        OpensIff(fs, fds[base..base + 8], name, k - base);
        var r, printed := DoOneFile(fs, fds, base, s, name, data);
        if r != 0 {
          return 3, out + printed;
        }
        Reassociate(out, printed, GreppedFiles(fs, s, names[i + 1..]).1);
        out := out + printed;
      }
      i := i + 1;
    }
    assert out + [] == out;
    status := 0;
  }

  /** With a free descriptor, a file opens exactly if the name is found. */
  lemma OpensIff(fs: seq<byte>, table: seq<Fd>, name: seq<byte>, k: nat)
    requires |table| == 8 && FileOrNothing(fs, name) && 2 <= k < 8 && !table[k].inUse
    ensures Opens(fs, table, name).Some? <==> Lookup(fs, name).Some?
  {
    hide Lookup, WordAt;
    OpenTakesLeastFree(fs, table, name);
  }

  lemma StillGood(fs: seq<byte>, before: seq<Fd>, after: seq<Fd>, base: nat)
    requires |before| == |after| && base + 8 <= |after| && GoodTable(fs, before[base..base + 8])
    requires forall j :: 0 <= j < |after| && after[j].inUse ==> after[j] == before[j]
    ensures GoodTable(fs, after[base..base + 8])
  {
    hide GoodFile, FileLength;
    var (a, b) := (before[base..base + 8], after[base..base + 8]);
    forall i | 0 <= i < 8 ensures GoodFd(fs, b[i]) {
      assert GoodFd(fs, a[i]) && b[i] == after[base + i] && a[i] == before[base + i];
    }
  }

  /** After a read behind the kept bytes, the buffer is a window on the text again. */
  lemma Refilled(data: array<byte>, text: seq<byte>, q: nat, p: nat, last: nat, cnt: nat, kept: seq<byte>)
    requires data.Length == 1025 && last < 1024 && last + cnt <= 1024 && data[1024] != NEWLINE
    requires p == q + last && p + cnt <= |text|
    requires kept == data[..last] == text[q..p]
    requires data[last..last + (1024 - last)] == Pad(text[p..p + cnt], 1024 - last)
    ensures Window(data, text, q, p + cnt, last + cnt)
  {
    var tail := data[last..last + (1024 - last)];
    FrontAndNext(data[..], last, cnt);
    SliceAndNext(text, q, p, cnt);
    assert tail[..cnt] == data[..][last..last + cnt] && tail[..cnt] == text[p..p + cnt];
    forall j | last + cnt <= j < 1024 ensures data[j] == 0 {
      assert data[j] == tail[j - last];
    }
  }

  lemma FrontAndNext(a: seq<byte>, n: nat, k: nat)
    requires n + k <= |a|
    ensures a[..n + k] == a[..n] + a[n..n + k]
  {
  }

  lemma SliceAndNext(a: seq<byte>, i: nat, n: nat, k: nat)
    requires i <= n && n + k <= |a|
    ensures a[i..n + k] == a[i..n] + a[n..n + k]
  {
  }
}
