/** Lines of a text, and what it means to print the lines that contain a string. */
module Lines {
  import opened Bytes

  const COLON: byte := 58

  /** Position of the first newline, or the length if there is none. */
  function LineLength(s: seq<byte>): (k: nat)
    ensures k <= |s| && NEWLINE !in s[..k]
    ensures k < |s| ==> s[k] == NEWLINE
  {
    if s == [] || s[0] == NEWLINE then 0 else
    var k := LineLength(s[1..]);
    assert s[..k + 1] == [s[0]] + s[1..][..k];
    k + 1
  }

  lemma {:induction false} LineLengthIs(s: seq<byte>, k: nat)
    requires k <= |s| && NEWLINE !in s[..k] && (k < |s| ==> s[k] == NEWLINE)
    ensures LineLength(s) == k
  {
    if k != 0 {
      assert s[0] in s[..k];
      assert forall b :: b in s[1..][..k - 1] ==> b in s[..k];
      LineLengthIs(s[1..], k - 1);
    }
  }

  /** The lines of a text; the last one has no newline after it and may be empty. */
  function Split(s: seq<byte>): (lines: seq<seq<byte>>)
    ensures |lines| > 0
    decreases |s|
  {
    var k := LineLength(s);
    if k == |s| then [s] else [s[..k]] + Split(s[k + 1..])
  }

  function Join(lines: seq<seq<byte>>): seq<byte>
    requires |lines| > 0
  {
    if |lines| == 1 then lines[0] else lines[0] + [NEWLINE] + Join(lines[1..])
  }

  lemma SplitOff(s: seq<byte>, k: nat)
    requires k == LineLength(s) < |s|
    ensures var rest := Split(s[k + 1..]);
            && Split(s) == [s[..k]] + rest && Split(s)[1..] == rest
            && Join(Split(s)) == s[..k] + [NEWLINE] + Join(rest)
  {
    hide LineLength, Join;
    JoinOff(s[..k], Split(s[k + 1..]));
  }

  lemma JoinOff(line: seq<byte>, rest: seq<seq<byte>>)
    requires |rest| > 0
    ensures ([line] + rest)[1..] == rest && Join([line] + rest) == line + [NEWLINE] + Join(rest)
  {
    assert ([line] + rest)[1..] == rest;
  }

  /** Split loses nothing, and no line holds a newline: it is the only such decomposition. */
  lemma {:induction false} SplitIsInverseOfJoin(s: seq<byte>)
    ensures Join(Split(s)) == s
    ensures forall i :: 0 <= i < |Split(s)| ==> NEWLINE !in Split(s)[i]
    decreases |s|
  {
    var k := LineLength(s);
    if k == |s| {
      assert s[..k] == s;
    } else {
      SplitIsInverseOfJoin(s[k + 1..]);
      SplitOff(s, k);
      hide Split, Join, LineLength;
      assert s == s[..k] + [NEWLINE] + s[k + 1..];
    }
  }

  lemma {:induction false} JoinDeterminesLines(lines: seq<seq<byte>>)
    requires |lines| > 0 && forall i :: 0 <= i < |lines| ==> NEWLINE !in lines[i]
    ensures Split(Join(lines)) == lines
  {
    var s := Join(lines);
    assert s[..|lines[0]|] == lines[0];
    LineLengthIs(s, |lines[0]|);
    if |lines| > 1 {
      JoinDeterminesLines(lines[1..]);
      assert s[|lines[0]| + 1..] == Join(lines[1..]);
    }
  }

  ghost predicate NewlineInWindow(s: seq<byte>, i: nat)
    requires i + 1024 <= |s|
  {
    NEWLINE in s[i..i + 1024]
  }

  /** No 1024 consecutive bytes without a newline. */
  ghost predicate ShortLines(s: seq<byte>) {
    forall i :: 0 <= i <= |s| - 1024 ==> NewlineInWindow(s, i)
  }

  /** Lines of at most 1023 bytes: as windows of the text, or line by line. */
  lemma {:induction false} ShortLinesAreLines(s: seq<byte>)
    requires forall i :: 0 <= i < |Split(s)| ==> |Split(s)[i]| <= 1023
    ensures ShortLines(s)
    decreases |s|
  {
    var k := LineLength(s);
    assert |Split(s)[0]| <= 1023;
    if k < |s| {
      var rest := s[k + 1..];
      assert Split(s) == [s[..k]] + Split(rest);
      hide Split, LineLength;
      forall i | 0 <= i < |Split(rest)| ensures |Split(rest)[i]| <= 1023 {
        assert Split(rest)[i] == Split(s)[i + 1];
      }
      ShortLinesAreLines(rest);
      ShortLinePrepended(s, k);
    }
  }

  lemma ShortLinePrepended(s: seq<byte>, k: nat)
    requires k < |s| && k <= 1023 && s[k] == NEWLINE && ShortLines(s[k + 1..])
    ensures ShortLines(s)
  {
    var rest := s[k + 1..];
    forall i | 0 <= i <= |s| - 1024 ensures NewlineInWindow(s, i) {
      if i <= k {
        assert s[i..i + 1024][k - i] == NEWLINE;
      } else {
        assert NewlineInWindow(rest, i - k - 1);
        assert s[i..i + 1024] == rest[i - k - 1..i - k - 1 + 1024];
      }
    }
  }

  predicate OccursAt(line: seq<byte>, s: seq<byte>, i: nat) {
    i + |s| <= |line| && line[i..i + |s|] == s
  }

  ghost predicate Contains(line: seq<byte>, s: seq<byte>) {
    exists i: nat :: OccursAt(line, s, i)
  }

  /** One line of grep's output: file name, colon, line, newline. */
  function Report(fname: seq<byte>, line: seq<byte>): seq<byte> {
    fname + [COLON] + line + [NEWLINE]
  }

  ghost function ReportIf(fname: seq<byte>, s: seq<byte>, line: seq<byte>): seq<byte> {
    if Contains(line, s) then Report(fname, line) else []
  }

  /** The report on every line that contains `s`, once each and in order. */
  ghost function Matching(fname: seq<byte>, s: seq<byte>, lines: seq<seq<byte>>): seq<byte> {
    if lines == [] then [] else ReportIf(fname, s, lines[0]) + Matching(fname, s, lines[1..])
  }

  /** grep compares the first byte of `s` as a signed char, so it can only find strings that start below 128. */
  predicate Findable(s: seq<byte>) {
    s != [] && s[0] < 128
  }

  /** What grep prints for a text. */
  ghost function Grepped(fname: seq<byte>, s: seq<byte>, text: seq<byte>): seq<byte> {
    if Findable(s) then Matching(fname, s, Split(text)) else []
  }

  lemma GreppedLine(fname: seq<byte>, s: seq<byte>, text: seq<byte>, k: nat)
    requires k < |text| && NEWLINE !in text[..k] && text[k] == NEWLINE
    ensures Grepped(fname, s, text)
         == (if Findable(s) then ReportIf(fname, s, text[..k]) else []) + Grepped(fname, s, text[k + 1..])
  {
    LineLengthIs(text, k);
    assert Split(text)[1..] == Split(text[k + 1..]);
  }

  lemma GreppedLastLine(fname: seq<byte>, s: seq<byte>, text: seq<byte>)
    requires NEWLINE !in text
    ensures Grepped(fname, s, text) == if Findable(s) then ReportIf(fname, s, text) else []
  {
    assert text[..|text|] == text;
    LineLengthIs(text, |text|);
    assert Split(text) == [text];
    assert [text][1..] == [];
    assert ReportIf(fname, s, text) + Matching(fname, s, []) == ReportIf(fname, s, text);
  }

  lemma GreppedNothing(fname: seq<byte>, s: seq<byte>)
    ensures Grepped(fname, s, []) == []
  {
    GreppedLastLine(fname, s, []);
  }

  lemma {:induction false} MatchingEmpty(fname: seq<byte>, s: seq<byte>, lines: seq<seq<byte>>)
    ensures Matching(fname, s, lines) == [] <==> forall i :: 0 <= i < |lines| ==> !Contains(lines[i], s)
  {
    if lines != [] {
      MatchingEmpty(fname, s, lines[1..]);
    }
  }

  /** grep prints the matching lines exactly when `s` is findable or there is no matching line. */
  lemma GrepMissesUnfindable(fname: seq<byte>, s: seq<byte>, text: seq<byte>)
    ensures Grepped(fname, s, text) == Matching(fname, s, Split(text))
            <==> (s != [] && s[0] < 128) || forall i :: 0 <= i < |Split(text)| ==> !Contains(Split(text)[i], s)
  {
    MatchingEmpty(fname, s, Split(text));
  }

  /** The text and the string are both the one byte 200: the line matches, and grep prints nothing. */
  lemma HighByteIsMissed(fname: seq<byte>)
    ensures Split([200]) == [[200]] && Contains([200], [200])
    ensures Grepped(fname, [200], [200]) == [] && Matching(fname, [200], Split([200])) == Report(fname, [200])
  {
    GreppedLastLine(fname, [200], [200]);
    LineLengthIs([200], 1);
    assert OccursAt([200], [200], 0);
    assert [[200]][1..] == [] && Report(fname, [200]) + [] == Report(fname, [200]);
  }

  /** Three lines, of which the first and the last contain the string. */
  lemma TwoOfThreeLines()
    ensures Grepped(Chars("f"), Chars("is"), Chars("this") + [10] + Chars("no") + [10] + Chars("is"))
         == Chars("f:this") + [10] + Chars("f:is") + [10]
  {
    WhichContain();
    ReportsAre();
    hide Grepped, Contains, Chars, Report;
    ThreeLines(Chars("f"), Chars("is"), Chars("this"), Chars("no"), Chars("is"));
  }

  lemma ThreeLines(f: seq<byte>, s: seq<byte>, a: seq<byte>, b: seq<byte>, c: seq<byte>)
    requires AllPrintable(a) && AllPrintable(b) && AllPrintable(c)
    requires Findable(s) && Contains(a, s) && !Contains(b, s) && Contains(c, s)
    ensures Grepped(f, s, a + [10] + b + [10] + c) == Report(f, a) + Report(f, c)
  {
    hide Grepped, Contains, Report;
    LineThen(f, s, a, b + [10] + c);
    LineThen(f, s, b, c);
    GreppedLastLine(f, s, c);
    assert a + [10] + b + [10] + c == a + [10] + (b + [10] + c);
  }

  lemma ReportsAre()
    ensures Report(Chars("f"), Chars("this")) + Report(Chars("f"), Chars("is"))
         == Chars("f:this") + [10] + Chars("f:is") + [10]
    ensures Findable(Chars("is"))
  {
    assert Report(Chars("f"), Chars("this")) == Chars("f:this") + [10];
    assert Report(Chars("f"), Chars("is")) == Chars("f:is") + [10];
  }

  lemma LineThen(fname: seq<byte>, s: seq<byte>, line: seq<byte>, rest: seq<byte>)
    requires NEWLINE !in line
    ensures Grepped(fname, s, line + [10] + rest)
         == (if Findable(s) then ReportIf(fname, s, line) else []) + Grepped(fname, s, rest)
  {
    var text := line + [10] + rest;
    assert text[..|line|] == line && text[|line| + 1..] == rest;
    GreppedLine(fname, s, text, |line|);
  }

  lemma WhichContain()
    ensures Contains(Chars("this"), Chars("is")) && !Contains(Chars("no"), Chars("is"))
    ensures Contains(Chars("is"), Chars("is"))
  {
    assert Chars("this")[2..4] == Chars("is") && OccursAt(Chars("this"), Chars("is"), 2);
    assert Chars("is")[0..2] == Chars("is") && OccursAt(Chars("is"), Chars("is"), 0);
    assert Chars("no")[0] != Chars("is")[0];
    assert forall i: nat :: OccursAt(Chars("no"), Chars("is"), i) ==> i == 0 && Chars("no")[0..2][0] == Chars("no")[0];
  }
}
