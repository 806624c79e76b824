/** The keyboard as a line editor: what each scan code does to the line being typed. */
module Editor {
  import opened Bytes
  import opened Page

  const BACKSPACE: byte := 0x0E
  const ENTER: byte := 0x1C
  const CTRL: byte := 0x1D
  const L_SHIFT: byte := 0x2A
  const R_SHIFT: byte := 0x36
  const CAPS_LOCK: byte := 0x3A
  const F3: byte := 0x3D

  const L_SHIFT_RELEASE: byte := 0xAA
  const R_SHIFT_RELEASE: byte := 0xB6
  const L_RELEASE: byte := 0xA6
  const ONE_RELEASE: byte := 0x82
  const THREE_RELEASE: byte := 0x84

  const TAB: byte := 9

  /** Characters by scan code, row by row; codes past the end of the initialiser give 0. */
  const PLAIN: seq<byte> :=
    Chars("00") + Chars("1234567890-=") + Chars("0") + [TAB] + Chars("qwertyuiop[]")
    + Chars("0a") + Chars("asdfghjkl;'`") + Chars("0") + Chars("\\zxcvbnm,./") + Chars("000") + [SPACE]

  const SHIFTED: seq<byte> :=
    Chars("00") + Chars("!@#$%^&*()_+") + Chars("00") + Chars("0000000000{}")
    + Chars("00") + Chars("000000000:\"~") + Chars("0") + Chars("|0000000<>?")

  function TableEntry(table: seq<byte>, scancode: nat): byte {
    if scancode < |table| then table[scancode] else 0
  }

  /** The character a key types. */
  function KeyChar(scancode: nat, raised: bool): byte {
    var c := TableEntry(PLAIN, scancode);
    if raised && 97 <= c <= 122 then c - 32
    else if raised then TableEntry(SHIFTED, scancode)
    else c
  }

  /** The line being typed, the modifier flags, and the line last committed but not yet read. */
  datatype Line = Line(text: seq<byte>, shift: bool, caps: bool, ctrl: bool, committed: Option<seq<byte>>)

  /** Keys that are in the two 100-entry tables, pressed or released. */
  predicate InTables(scancode: byte) {
    scancode < 0x80 ==> scancode < 100
  }

  /** Control with 1, 2 or 3 asks for another terminal. */
  predicate AsksForTerminal(ctrl: bool, scancode: byte) {
    ctrl && ONE_RELEASE <= scancode <= THREE_RELEASE
  }

  function Release(e: Line, scancode: byte): Line {
    if e.shift && (scancode == L_SHIFT_RELEASE || scancode == R_SHIFT_RELEASE) then e.(shift := false, ctrl := false)
    else if scancode == L_RELEASE && e.ctrl then e.(text := [], ctrl := false)
    else if AsksForTerminal(e.ctrl, scancode) then e
    else e.(ctrl := false)
  }

  function Press(e: Line, scancode: byte): Line {
    if e.ctrl then e
    else if scancode == CTRL then e.(ctrl := true)
    else if scancode == CAPS_LOCK then e.(caps := !e.caps)
    else if scancode == L_SHIFT || scancode == R_SHIFT then e.(shift := true)
    else if scancode == ENTER then e.(text := [], committed := Some(e.text))
    else if scancode == BACKSPACE then e.(text := if e.text == [] then [] else e.text[..|e.text| - 1])
    else if |e.text| < 128 then e.(text := e.text + [KeyChar(scancode, e.shift || e.caps)])
    else e
  }

  /** One keyboard interrupt. */
  function Key(e: Line, scancode: byte): (r: Line)
    requires |e.text| <= 128
    ensures |r.text| <= 128
  {
    if scancode >= 0x80 then Release(e, scancode) else Press(e, scancode)
  }

  function Keys(e: Line, scancodes: seq<byte>): (r: Line)
    requires |e.text| <= 128
    ensures |r.text| <= 128
    decreases |scancodes|
  {
    if scancodes == [] then e else
    Key(Keys(e, scancodes[..|scancodes| - 1]), scancodes[|scancodes| - 1])
  }

  predicate AllInTables(scancodes: seq<byte>) {
    forall i :: 0 <= i < |scancodes| ==> InTables(scancodes[i])
  }

  lemma KeysSnoc(e: Line, scancodes: seq<byte>, c: byte)
    requires |e.text| <= 128
    ensures Keys(e, scancodes + [c]) == Key(Keys(e, scancodes), c)
  {
    assert (scancodes + [c])[..|scancodes|] == scancodes;
  }

  // ---------------------------------------------------------------- what a sequence of keys amounts to

  /** The modifiers, and how many characters there are on the line, but not which. */
  datatype Mode = Mode(shift: bool, caps: bool, ctrl: bool, count: nat)

  /** What one key does to the line. */
  datatype Effect = Append(c: byte) | RubOut | Erase | Nothing

  function ModeOf(e: Line): Mode {
    Mode(e.shift, e.caps, e.ctrl, |e.text|)
  }

  function EffectOf(m: Mode, scancode: byte): Effect {
    if scancode >= 0x80 then
      if scancode == L_RELEASE && m.ctrl then Erase else Nothing
    else if m.ctrl || scancode in {CTRL, CAPS_LOCK, L_SHIFT, R_SHIFT} then Nothing
    else if scancode == ENTER then Erase
    else if scancode == BACKSPACE then RubOut
    else if m.count < 128 then Append(KeyChar(scancode, m.shift || m.caps))
    else Nothing
  }

  function NextMode(m: Mode, scancode: byte): Mode {
    var count :=
      match EffectOf(m, scancode)
      case Append(_) => m.count + 1
      case RubOut => if m.count == 0 then 0 else m.count - 1
      case Erase => 0
      case Nothing => m.count;
    if scancode >= 0x80 then
      Mode(m.shift && scancode != L_SHIFT_RELEASE && scancode != R_SHIFT_RELEASE, m.caps,
           AsksForTerminal(m.ctrl, scancode), count)
    else if m.ctrl then m
    else
      Mode(m.shift || scancode == L_SHIFT || scancode == R_SHIFT, m.caps != (scancode == CAPS_LOCK),
           scancode == CTRL, count)
  }

  function ModeAfter(m: Mode, scancodes: seq<byte>): Mode
    decreases |scancodes|
  {
    if scancodes == [] then m else
    NextMode(ModeAfter(m, scancodes[..|scancodes| - 1]), scancodes[|scancodes| - 1])
  }

  function Effects(m: Mode, scancodes: seq<byte>): (r: seq<Effect>)
    ensures |r| == |scancodes|
    decreases |scancodes|
  {
    if scancodes == [] then [] else
    var (before, last) := (scancodes[..|scancodes| - 1], scancodes[|scancodes| - 1]);
    Effects(m, before) + [EffectOf(ModeAfter(m, before), last)]
  }

  /** `s` without its last n characters, or nothing. */
  function Chop(s: seq<byte>, n: nat): seq<byte> {
    if n <= |s| then s[..|s| - n] else []
  }

  /**
   * The characters that are left when the effects are read backwards with `pending` rub-outs still to be
   * spent: back to the last time the line was erased, or to the line there was at the start.
   */
  function Surviving(start: seq<byte>, effects: seq<Effect>, pending: nat): seq<byte>
    decreases |effects|
  {
    if effects == [] then Chop(start, pending) else
    var before := effects[..|effects| - 1];
    match effects[|effects| - 1]
    case Append(c) => if pending > 0 then Surviving(start, before, pending - 1) else Surviving(start, before, 0) + [c]
    case RubOut => Surviving(start, before, pending + 1)
    case Erase => []
    case Nothing => Surviving(start, before, pending)
  }

  lemma {:induction false} ModeFollows(e: Line, scancodes: seq<byte>)
    requires |e.text| <= 128
    ensures ModeOf(Keys(e, scancodes)) == ModeAfter(ModeOf(e), scancodes)
    decreases |scancodes|
  {
    hide KeyChar;
    if scancodes != [] {
      ModeFollows(e, scancodes[..|scancodes| - 1]);
    }
  }

  /** Any sequence of keys leaves on the line what survives of it. */
  lemma {:induction false} LineIsWhatSurvives(e: Line, scancodes: seq<byte>, pending: nat)
    requires |e.text| <= 128
    ensures Chop(Keys(e, scancodes).text, pending)
         == Surviving(e.text, Effects(ModeOf(e), scancodes), pending)
    decreases |scancodes|
  {
    if scancodes != [] {
      var (before, last) := (scancodes[..|scancodes| - 1], scancodes[|scancodes| - 1]);
      var (was, effects) := (Keys(e, before), Effects(ModeOf(e), before));
      ModeFollows(e, before);
      assert (effects + [EffectOf(ModeOf(was), last)])[..|before|] == effects;
      OneMoreKey(was, last, pending);
      hide Keys, Effects, Key, EffectOf;
      match EffectOf(ModeOf(was), last)
      case Append(_) => LineIsWhatSurvives(e, before, if pending > 0 then pending - 1 else 0);
      case RubOut => LineIsWhatSurvives(e, before, pending + 1);
      case Erase =>
      case Nothing => LineIsWhatSurvives(e, before, pending);
    }
  }

  lemma OneMoreKey(was: Line, last: byte, pending: nat)
    requires |was.text| <= 128
    ensures Chop(Key(was, last).text, pending) ==
              match EffectOf(ModeOf(was), last)
              case Append(c) => if pending > 0 then Chop(was.text, pending - 1) else Chop(was.text, 0) + [c]
              case RubOut => Chop(was.text, pending + 1)
              case Erase => []
              case Nothing => Chop(was.text, pending)
  {
    hide KeyChar;
    assert Chop(was.text, 0) == was.text;
  }

  /** Enter commits exactly that, and leaves an empty line. */
  lemma EnterCommitsWhatSurvives(e: Line, scancodes: seq<byte>)
    requires |e.text| <= 128 && !ModeAfter(ModeOf(e), scancodes).ctrl
    ensures Keys(e, scancodes + [ENTER])
         == Keys(e, scancodes).(text := [],
                                committed := Some(Surviving(e.text, Effects(ModeOf(e), scancodes), 0)))
  {
    KeysSnoc(e, scancodes, ENTER);
    ModeFollows(e, scancodes);
    LineIsWhatSurvives(e, scancodes, 0);
    assert Chop(Keys(e, scancodes).text, 0) == Keys(e, scancodes).text;
  }

  // ---------------------------------------------------------------- where the cursor goes

  /** The key puts a character on the line. */
  predicate Types(e: Line, scancode: byte) {
    EffectOf(ModeOf(e), scancode).Append?
  }

  /** The key is handled at all: it is pressed, and control is not held. */
  predicate Pressed(e: Line, scancode: byte) {
    scancode < 0x80 && !e.ctrl
  }

  /** Where a pressed key moves the cursor from a cell. */
  function Moved(e: Line, x: nat, y: nat, scancode: byte): (nat, nat) {
    match EffectOf(ModeOf(e), scancode)
    case Append(_) => (x + 1, y)
    case Erase => (0, y + 1)
    case RubOut =>
      if e.text == [] then (x, y) else if x > 0 then (x - 1, y) else if y > 0 then (79, y - 1) else (x, y)
    case Nothing => (x, y)
  }

  lemma MovedCases(e: Line, x: nat, y: nat, scancode: byte)
    requires !e.ctrl && scancode < 0x80
    ensures Moved(e, x, y, scancode) ==
              if scancode in {CTRL, CAPS_LOCK, L_SHIFT, R_SHIFT} then (x, y)
              else if scancode == ENTER then (0, y + 1)
              else if scancode == BACKSPACE then
                if e.text == [] then (x, y) else if x > 0 then (x - 1, y) else if y > 0 then (79, y - 1) else (x, y)
              else if |e.text| < 128 then (x + 1, y) else (x, y)
  {
  }

  /** Where the cursor stands after a key, first brought back from beside the screen, in the end scrolled once. */
  function CursorAfter(e: Line, x: nat, y: nat, scancode: byte): (nat, nat) {
    if !Pressed(e, scancode) then
      if EffectOf(ModeOf(e), scancode).Erase? then (0, 0) else (x, y)
    else
      var (a, b) := if x > 79 then (0, y + 1) else (x, y);
      var (c, d) := Moved(e, a, b, scancode);
      if d >= 25 then (0, d - 1) else (c, d)
  }

  function CursorAfterAll(e: Line, x: nat, y: nat, scancodes: seq<byte>): (nat, nat)
    requires |e.text| <= 128
    decreases |scancodes|
  {
    if scancodes == [] then (x, y) else
    var (before, last) := (scancodes[..|scancodes| - 1], scancodes[|scancodes| - 1]);
    var (a, b) := CursorAfterAll(e, x, y, before);
    CursorAfter(Keys(e, before), a, b, last)
  }

  /**
   * When a key leaves the cursor off the screen: a character typed in the last column, an Enter at the end of
   * the bottom row or below it, or a key that is not handled while the cursor is already off the screen.
   */
  predicate LeavesScreen(e: Line, x: nat, y: nat, scancode: byte) {
    if Pressed(e, scancode) then
      || (Types(e, scancode) && x == 79)
      || (scancode == ENTER && (y == 25 || (y == 24 && x >= 80)))
    else !EffectOf(ModeOf(e), scancode).Erase? && !OnScreen(x, y)
  }

  lemma CursorLeavesScreen(e: Line, x: nat, y: nat, scancode: byte)
    requires y <= 25 && (y == 25 ==> x == 0)
    ensures var (a, b) := CursorAfter(e, x, y, scancode);
            && (a <= 80 || (a, b) == (x, y)) && b <= 25 && (b == 25 ==> a == 0)
            && (OnScreen(a, b) <==> !LeavesScreen(e, x, y, scancode))
  {
    hide KeyChar;
  }

  // ---------------------------------------------------------------- a way off the screen

  const EMPTY := Line([], false, false, false, None)

  /** n times the same key. */
  function Repeated(c: byte, n: nat): (r: seq<byte>)
    ensures |r| == n
  {
    if n == 0 then [] else Repeated(c, n - 1) + [c]
  }

  lemma {:induction false} EntersGoDown(n: nat)
    requires n <= 24
    ensures Keys(EMPTY, Repeated(ENTER, n)) == EMPTY.(committed := if n == 0 then None else Some([]))
    ensures CursorAfterAll(EMPTY, 0, 0, Repeated(ENTER, n)) == (0, n)
  {
    if n > 0 {
      EntersGoDown(n - 1);
      var before := Repeated(ENTER, n - 1);
      KeysSnoc(EMPTY, before, ENTER);
      assert (before + [ENTER])[..n - 1] == before;
      EnterGoesDown(Keys(EMPTY, before), n - 1);
      hide Keys, Key, CursorAfter;
    }
  }

  lemma EnterGoesDown(e: Line, y: nat)
    requires y < 24 && !e.ctrl && e.text == []
    ensures Key(e, ENTER) == e.(committed := Some([])) && CursorAfter(e, 0, y, ENTER) == (0, y + 1)
  {
  }

  /** Scan code of the letter a. */
  const A_KEY: byte := 0x1E

  lemma {:induction false} TypingGoesRight(m: nat)
    requires m <= 80
    ensures var keys := Repeated(ENTER, 24) + Repeated(A_KEY, m);
            && ModeOf(Keys(EMPTY, keys)) == Mode(false, false, false, m)
            && CursorAfterAll(EMPTY, 0, 0, keys) == (m, 24)
  {
    var enters := Repeated(ENTER, 24);
    if m == 0 {
      EntersGoDown(24);
      assert enters + [] == enters;
    } else {
      TypingGoesRight(m - 1);
      var before := enters + Repeated(A_KEY, m - 1);
      assert enters + Repeated(A_KEY, m) == before + [A_KEY];
      KeysSnoc(EMPTY, before, A_KEY);
      assert (before + [A_KEY])[..|before|] == before;
      LetterGoesRight(Keys(EMPTY, before), m - 1);
      hide Keys, Key, EffectOf, ModeOf, CursorAfter, Repeated;
    }
  }

  lemma LetterGoesRight(e: Line, m: nat)
    requires m < 80 && ModeOf(e) == Mode(false, false, false, m)
    ensures ModeOf(Key(e, A_KEY)) == Mode(false, false, false, m + 1) && CursorAfter(e, m, 24, A_KEY) == (m + 1, 24)
  {
    hide KeyChar;
  }

  /** 24 times Enter, 80 letters, Enter: the cursor is below the screen. After the letters it is beside it. */
  lemma BottomRowIsLeft()
    ensures var typed := Repeated(ENTER, 24) + Repeated(A_KEY, 80);
            && AllInTables(typed + [ENTER])
            && CursorAfterAll(EMPTY, 0, 0, typed) == (80, 24)
            && CursorAfterAll(EMPTY, 0, 0, typed + [ENTER]) == (0, 25)
  {
    var typed := Repeated(ENTER, 24) + Repeated(A_KEY, 80);
    TypingGoesRight(80);
    KeysSnoc(EMPTY, typed, ENTER);
    assert (typed + [ENTER])[..|typed|] == typed;
    RepeatedKeys(typed);
  }

  lemma RepeatedKeys(typed: seq<byte>)
    requires typed == Repeated(ENTER, 24) + Repeated(A_KEY, 80)
    ensures forall i :: 0 <= i < |typed| ==> typed[i] == ENTER || typed[i] == A_KEY
  {
    RepeatedIs(ENTER, 24);
    RepeatedIs(A_KEY, 80);
  }

  lemma {:induction false} RepeatedIs(c: byte, n: nat)
    ensures forall i :: 0 <= i < n ==> Repeated(c, n)[i] == c
  {
    if n > 0 {
      RepeatedIs(c, n - 1);
    }
  }
}
