/**
 * Blinking characters as values: what the list of blink records holds, newest first, and what
 * adding, removing and a clock tick do to it and to the text screen.
 */
module Blink {
  import opened Arithmetic
  import opened Bytes

  type half = h: int | 0 <= h < 0x1_0000

  /** struct mp1_blink_struct; `next` is an index into the pool. */
  datatype Record = Record(location: half, onChar: byte, offChar: byte, onLength: half, offLength: half,
                           countdown: half, status: half, next: Option<nat>)

  function Strip(n: Record): Record {
    n.(next := None)
  }

  /** A record as it enters the list: on, with a full countdown. */
  function Started(n: Record): Record {
    n.(status := 1, countdown := n.onLength, next := None)
  }

  // ---------------------------------------------------------------- one tick

  /** A 16-bit word read as signed. */
  function SignedHalf(h: half): int {
    if h < 0x8000 then h else h - 0x1_0000
  }

  /** `decw` and the signed comparison: does this tick switch the character? */
  predicate Switches(n: Record) {
    SignedHalf((n.countdown - 1) % 0x1_0000) <= 0
  }

  function TickRecord(n: Record): Record {
    if !Switches(n) then n.(countdown := (n.countdown - 1) % 0x1_0000)
    else if n.status % 2 == 1 then n.(countdown := n.offLength, status := n.status - 1)
    else n.(countdown := n.onLength, status := n.status + 1)
  }

  /** The character a switching record writes. */
  function NewChar(n: Record): byte {
    if n.status % 2 == 1 then n.offChar else n.onChar
  }

  function Poke(video: seq<byte>, location: half, c: byte): (v: seq<byte>)
    requires |video| == 4000 && location < 2000
    ensures |v| == 4000
  {
    video[2 * location := c]
  }

  predicate InScreen(list: seq<Record>) {
    forall i :: 0 <= i < |list| ==> list[i].location < 2000
  }

  function Tick(list: seq<Record>): (r: seq<Record>)
    ensures |r| == |list| && forall i :: 0 <= i < |list| ==> r[i] == TickRecord(list[i])
  {
    seq(|list|, i requires 0 <= i < |list| => TickRecord(list[i]))
  }

  /** The screen after a tick that visits the records in list order. */
  function TickVideo(list: seq<Record>, video: seq<byte>): (v: seq<byte>)
    requires InScreen(list) && |video| == 4000
    ensures |v| == 4000
  {
    if list == [] then video else
    TickVideo(list[1..], if Switches(list[0]) then Poke(video, list[0].location, NewChar(list[0])) else video)
  }

  // ---------------------------------------------------------------- runs

  datatype State = State(list: seq<Record>, video: seq<byte>)

  datatype Event = AddEvent(record: Record) | RemoveEvent(location: half) | TickEvent

  ghost predicate WellFormed(s: State) {
    |s.video| == 4000 && |s.list| <= 2000 && InScreen(s.list)
  }

  /** The index of the first (most recently added) record at a location, or |list|. */
  function IndexAt(list: seq<Record>, location: half): (i: nat)
    ensures i <= |list| && (i < |list| ==> list[i].location == location)
    ensures forall k :: 0 <= k < i ==> list[k].location != location
  {
    if list == [] || list[0].location == location then 0 else 1 + IndexAt(list[1..], location)
  }

  /** The list without the first record at a location. */
  function RemoveAt(list: seq<Record>, location: half): (r: seq<Record>)
    ensures |r| <= |list| && forall i :: 0 <= i < |r| ==> r[i] in list
  {
    if list == [] then []
    else if list[0].location == location then list[1..]
    else [list[0]] + RemoveAt(list[1..], location)
  }

  lemma {:induction false} RemoveAtIndex(list: seq<Record>, location: half)
    ensures var i := IndexAt(list, location);
            RemoveAt(list, location) == if i == |list| then list else list[..i] + list[i + 1..]
  {
    if list != [] && list[0].location != location {
      RemoveAtIndex(list[1..], location);
      WithoutBehind(list[0], list[1..], IndexAt(list[1..], location));
      assert list == [list[0]] + list[1..];
    }
  }

  lemma WithoutBehind(n: Record, rest: seq<Record>, i: nat)
    requires i <= |rest|
    ensures i < |rest| ==>
              var list := [n] + rest; list[..i + 1] + list[i + 2..] == [n] + (rest[..i] + rest[i + 1..])
  {
  }

  predicate Accepts(list: seq<Record>, n: Record) {
    n.location < 2000 && |list| < 2000
  }

  function Step(s: State, e: Event): (t: State)
    requires WellFormed(s)
    ensures WellFormed(t)
  {
    match e
    case AddEvent(n) =>
      if Accepts(s.list, n) then State([Started(n)] + s.list, Poke(s.video, n.location, n.onChar)) else s
    case RemoveEvent(location) => State(RemoveAt(s.list, location), s.video)
    case TickEvent => State(Tick(s.list), TickVideo(s.list, s.video))
  }

  function Run(s: State, es: seq<Event>): (t: State)
    requires WellFormed(s)
    ensures WellFormed(t)
    decreases |es|
  {
    if es == [] then s else Run(Step(s, es[0]), es[1..])
  }

  /** The records at one location, newest first. */
  function Here(list: seq<Record>, location: half): (r: seq<Record>)
    ensures forall i :: 0 <= i < |r| ==> r[i].location == location
  {
    if list == [] then [] else
    (if list[0].location == location then [list[0]] else []) + Here(list[1..], location)
  }

  lemma {:induction false} HereConcat(a: seq<Record>, b: seq<Record>, location: half)
    ensures Here(a + b, location) == Here(a, location) + Here(b, location)
  {
    if a == [] {
      assert a + b == b;
    } else {
      HereConcat(a[1..], b, location);
      assert (a + b)[1..] == a[1..] + b;
    }
  }

  lemma {:induction false} HereNone(list: seq<Record>, location: half)
    requires forall i :: 0 <= i < |list| ==> list[i].location != location
    ensures Here(list, location) == []
  {
    if list != [] {
      HereNone(list[1..], location);
    }
  }

  /** Finding gives the top of the location's stack. */
  lemma FindIsTop(list: seq<Record>, location: half)
    ensures var i := IndexAt(list, location);
            && (i == |list| <==> Here(list, location) == [])
            && (i < |list| ==> Here(list, location)[0] == list[i])
  {
    var i := IndexAt(list, location);
    HereNone(list[..i], location);
    HereConcat(list[..i], list[i..], location);
    assert list == list[..i] + list[i..];
  }

  lemma HereCons(n: Record, list: seq<Record>, location: half)
    ensures Here([n] + list, location)
         == if n.location == location then [n] + Here(list, location) else Here(list, location)
  {
    assert ([n] + list)[1..] == list;
    assert [] + Here(list, location) == Here(list, location);
  }

  /** Removing pops the location's stack and leaves every other location alone. */
  lemma {:induction false} RemovePops(list: seq<Record>, location: half, other: half)
    ensures Here(RemoveAt(list, location), other)
         == if other == location && Here(list, other) != [] then Here(list, other)[1..] else Here(list, other)
  {
    if list != [] {
      HereCons(list[0], list[1..], other);
      assert list == [list[0]] + list[1..];
      if list[0].location != location {
        RemovePops(list[1..], location, other);
        HereCons(list[0], RemoveAt(list[1..], location), other);
      }
    }
  }

  lemma {:induction false} TickKeepsPlaces(list: seq<Record>, location: half)
    ensures Here(Tick(list), location) == Tick(Here(list, location))
  {
    if list != [] {
      TickKeepsPlaces(list[1..], location);
      assert Tick(list)[1..] == Tick(list[1..]);
      assert Tick(list)[0].location == list[0].location;
    }
  }

  /** The effect of an event on one location's stack. */
  function StackStep(stack: seq<Record>, e: Event): seq<Record> {
    match e
    case AddEvent(n) => [Started(n)] + stack
    case RemoveEvent(_) => if stack == [] then [] else stack[1..]
    case TickEvent => Tick(stack)
  }

  predicate Concerns(e: Event, location: half) {
    match e
    case AddEvent(n) => n.location == location
    case RemoveEvent(l) => l == location
    case TickEvent => true
  }

  function StackRun(stack: seq<Record>, es: seq<Event>, location: half): seq<Record>
    decreases |es|
  {
    if es == [] then stack else
    StackRun(if Concerns(es[0], location) then StackStep(stack, es[0]) else stack, es[1..], location)
  }

  /** The events of a run without the adds that are refused, for their location or for a full pool. */
  function Effective(s: State, es: seq<Event>): (r: seq<Event>)
    requires WellFormed(s)
    ensures |r| <= |es|
    decreases |es|
  {
    if es == [] then [] else
    (if es[0].AddEvent? && !Accepts(s.list, es[0].record) then [] else [es[0]]) + Effective(Step(s, es[0]), es[1..])
  }

  /**
   * Each location is a stack of its own, over any run: the events at other locations do not touch it, and
   * an add that is refused is as if it had not been tried.
   */
  lemma {:induction false} LocationsAreIndependentStacks(s: State, es: seq<Event>, location: half)
    requires WellFormed(s)
    ensures Here(Run(s, es).list, location) == StackRun(Here(s.list, location), Effective(s, es), location)
    decreases |es|
  {
    if es != [] {
      LocationsAreIndependentStacks(Step(s, es[0]), es[1..], location);
      var rest := Effective(Step(s, es[0]), es[1..]);
      assert ([es[0]] + rest)[1..] == rest && [] + rest == rest;
      match es[0]
      case AddEvent(n) => HereCons(Started(n), s.list, location);
      case RemoveEvent(l) => RemovePops(s.list, l, location);
      case TickEvent => TickKeepsPlaces(s.list, location);
    }
  }

  // ---------------------------------------------------------------- what stays on the screen

  /** A record switches when its countdown is 0 or 1, or above 0x8000, which is read as negative. */
  lemma SwitchesIff(n: Record)
    ensures Switches(n) <==> n.countdown <= 1 || n.countdown > 0x8000
  {
    if n.countdown == 0 {
      assert (n.countdown - 1) % 0x1_0000 == 0xFFFF;
    }
  }

  /** The record at position i of the list is the last at its location that this tick switches. */
  ghost predicate LastToSwitch(list: seq<Record>, i: nat) {
    && i < |list| && (list[i].countdown <= 1 || list[i].countdown > 0x8000)
    && forall k :: i < k < |list| && list[k].location == list[i].location ==> 1 < list[k].countdown <= 0x8000
  }

  /** A tick leaves attributes alone, and cells at which no record switches. */
  lemma {:induction false} TickLeaves(list: seq<Record>, video: seq<byte>, j: nat)
    requires InScreen(list) && |video| == 4000 && j < 4000
    requires j % 2 == 1 || forall i :: 0 <= i < |list| && list[i].location == j / 2 ==> 1 < list[i].countdown <= 0x8000
    ensures TickVideo(list, video)[j] == video[j]
  {
    if list != [] {
      var n := list[0];
      SwitchesIff(n);
      TickLeaves(list[1..], if Switches(n) then Poke(video, n.location, NewChar(n)) else video, j);
    }
  }

  /** Where records switch, the last of them in the list decides: on or off, as it is not now. */
  lemma {:induction false} TickWrites(list: seq<Record>, video: seq<byte>, i: nat)
    requires InScreen(list) && |video| == 4000 && LastToSwitch(list, i)
    ensures TickVideo(list, video)[2 * list[i].location]
         == if list[i].status % 2 == 1 then list[i].offChar else list[i].onChar
  {
    var n := list[0];
    var v := if Switches(n) then Poke(video, n.location, NewChar(n)) else video;
    if i > 0 {
      LaterRecord(list, i);
      TickWrites(list[1..], v, i - 1);
    } else {
      SwitchesIff(n);
      OnlyFirst(list, 2 * n.location);
      TickLeaves(list[1..], v, 2 * n.location);
    }
  }

  lemma LaterRecord(list: seq<Record>, i: nat)
    requires LastToSwitch(list, i) && i > 0
    ensures LastToSwitch(list[1..], i - 1) && list[1..][i - 1] == list[i]
  {
    var rest := list[1..];
    assert forall k :: 0 <= k < |rest| ==> rest[k] == list[k + 1];
  }

  lemma OnlyFirst(list: seq<Record>, j: nat)
    requires LastToSwitch(list, 0) && j == 2 * list[0].location
    ensures forall i :: 0 <= i < |list[1..]| && list[1..][i].location == j / 2 ==> 1 < list[1..][i].countdown <= 0x8000
  {
    var rest := list[1..];
    assert forall k :: 0 <= k < |rest| ==> rest[k] == list[k + 1];
  }

  /**
   * An accepted add puts exactly its on-character on the screen. For any event, a byte of the screen is touched
   * only if it is the character of a cell, and the event is an accepted add there or a tick on which a record
   * there switches.
   */
  lemma StepTouches(s: State, e: Event, j: nat)
    requires WellFormed(s) && j < 4000
    ensures e.AddEvent? && e.record.location < 2000 && |s.list| < 2000 ==>
              Step(s, e).video == s.video[2 * e.record.location := e.record.onChar]
    ensures Step(s, e).video[j] != s.video[j] ==>
              && j % 2 == 0
              && match e
                 case AddEvent(n) => n.location == j / 2 && |s.list| < 2000
                 case RemoveEvent(_) => false
                 case TickEvent =>
                   exists i :: 0 <= i < |s.list| && s.list[i].location == j / 2
                               && (s.list[i].countdown <= 1 || s.list[i].countdown > 0x8000)
  {
    if e.TickEvent? && Step(s, e).video[j] != s.video[j] {
      if j % 2 == 1 || !exists i :: 0 <= i < |s.list| && s.list[i].location == j / 2
                                    && (s.list[i].countdown <= 1 || s.list[i].countdown > 0x8000) {
        TickLeaves(s.list, s.video, j);
      }
    }
  }

  lemma StepPlaces(s: State, e: Event, location: half)
    requires WellFormed(s) && !(e.AddEvent? && e.record.location == location)
    requires forall i :: 0 <= i < |s.list| ==> s.list[i].location != location
    ensures forall i :: 0 <= i < |Step(s, e).list| ==> Step(s, e).list[i].location != location
  {
    var t := Step(s, e);
    forall i | 0 <= i < |t.list| ensures t.list[i].location != location {
      if e.RemoveEvent? {
        assert t.list[i] in s.list;
      }
    }
  }

  /** Over any run, attributes stay as they are, and so do the cells without a record at which none is added. */
  lemma {:induction false} RunTouches(s: State, es: seq<Event>, j: nat)
    requires WellFormed(s) && j < 4000
    requires j % 2 == 1 || ((forall i :: 0 <= i < |s.list| ==> s.list[i].location != j / 2)
                            && forall i :: 0 <= i < |es| && es[i].AddEvent? ==> es[i].record.location != j / 2)
    ensures Run(s, es).video[j] == s.video[j]
    decreases |es|
  {
    if es != [] {
      StepTouches(s, es[0], j);
      if j % 2 == 0 {
        StepPlaces(s, es[0], j / 2);
      }
      hide Step;
      RunTouches(Step(s, es[0]), es[1..], j);
    }
  }

  // ---------------------------------------------------------------- timing

  ghost predicate Lengths(n: Record) {
    0 < n.onLength < 0x8000 && 0 < n.offLength < 0x8000
  }

  /** The closed form of a record k ticks after it was added. */
  function Phase(n: Record, k: nat): Record
    requires Lengths(n)
  {
    var m := k % (n.onLength + n.offLength);
    if m < n.onLength then n.(status := 1, countdown := n.onLength - m, next := None)
    else n.(status := 0, countdown := n.onLength + n.offLength - m, next := None)
  }

  function Shown(n: Record, k: nat): byte
    requires Lengths(n)
  {
    if k % (n.onLength + n.offLength) < n.onLength then n.onChar else n.offChar
  }

  lemma PhaseStep(n: Record, k: nat)
    requires Lengths(n)
    ensures TickRecord(Phase(n, k)) == Phase(n, k + 1)
    ensures Shown(n, k + 1) == if Switches(Phase(n, k)) then NewChar(Phase(n, k)) else Shown(n, k)
  {
    NextModulo(k, n.onLength + n.offLength);
  }

  /** What a tick does to a cell depends only on the records at that cell. */
  lemma {:induction false} TickVideoLocal(list: seq<Record>, video: seq<byte>, location: half)
    requires InScreen(list) && |video| == 4000 && location < 2000
    ensures InScreen(Here(list, location))
    ensures TickVideo(list, video)[2 * location] == TickVideo(Here(list, location), video)[2 * location]
  {
    if list != [] {
      var v := if Switches(list[0]) then Poke(video, list[0].location, NewChar(list[0])) else video;
      TickVideoLocal(list[1..], v, location);
      if list[0].location == location {
        assert Here(list, location)[1..] == Here(list[1..], location);
      } else {
        assert Here(list, location) == Here(list[1..], location);
        TickVideoFrame(Here(list[1..], location), v, video, location);
      }
    }
  }

  /** Screens that agree on a cell still agree on it after the same tick. */
  lemma {:induction false} TickVideoFrame(list: seq<Record>, v: seq<byte>, w: seq<byte>, location: half)
    requires InScreen(list) && |v| == |w| == 4000 && location < 2000
    requires v[2 * location] == w[2 * location]
    ensures TickVideo(list, v)[2 * location] == TickVideo(list, w)[2 * location]
  {
    if list != [] {
      var n := list[0];
      TickVideoFrame(list[1..], if Switches(n) then Poke(v, n.location, NewChar(n)) else v,
                     if Switches(n) then Poke(w, n.location, NewChar(n)) else w, location);
    }
  }

  function Ticks(es: seq<Event>): nat {
    if es == [] then 0 else (if es[0].TickEvent? then 1 else 0) + Ticks(es[1..])
  }

  /** Record n, alone at its location, is k ticks old and its cell shows the right character. */
  ghost predicate Blinking(s: State, n: Record, k: nat) {
    && WellFormed(s) && Lengths(n) && n.location < 2000
    && Here(s.list, n.location) == [Phase(n, k)]
    && s.video[2 * n.location] == Shown(n, k)
  }

  ghost predicate LeavesAlone(e: Event, location: half) {
    e.TickEvent? || !Concerns(e, location)
  }

  lemma BlinkingStep(s: State, n: Record, k: nat, e: Event)
    requires Blinking(s, n, k) && LeavesAlone(e, n.location)
    ensures Blinking(Step(s, e), n, if e.TickEvent? then k + 1 else k)
  {
    var l := n.location;
    match e
    case AddEvent(m) => HereCons(Started(m), s.list, l);
    case RemoveEvent(m) => RemovePops(s.list, m, l);
    case TickEvent =>
      TickKeepsPlaces(s.list, l);
      TickVideoLocal(s.list, s.video, l);
      PhaseStep(n, k);
      assert Here(s.list, l)[1..] == [];
  }

  lemma {:induction false} BlinkingRun(s: State, n: Record, k: nat, es: seq<Event>)
    requires Blinking(s, n, k) && forall i :: 0 <= i < |es| ==> LeavesAlone(es[i], n.location)
    ensures Blinking(Run(s, es), n, k + Ticks(es))
    decreases |es|
  {
    if es != [] {
      BlinkingStep(s, n, k, es[0]);
      BlinkingRun(Step(s, es[0]), n, if es[0].TickEvent? then k + 1 else k, es[1..]);
    }
  }

  /**
   * Add a record at a free location, then let anything happen at other locations: with k ticks since,
   * the cell shows the on-character iff k mod (on + off) < on, and find returns the record's closed form.
   */
  lemma BlinkClosedForm(s: State, n: Record, es: seq<Event>)
    requires WellFormed(s) && Lengths(n) && Accepts(s.list, n)
    requires Here(s.list, n.location) == []
    requires forall i :: 0 <= i < |es| ==> LeavesAlone(es[i], n.location)
    ensures var t := Run(Step(s, AddEvent(n)), es);
            var k := Ticks(es);
            && t.video[2 * n.location]
               == (if k % (n.onLength + n.offLength) < n.onLength then n.onChar else n.offChar)
            && IndexAt(t.list, n.location) < |t.list|
            && t.list[IndexAt(t.list, n.location)] == Phase(n, k)
  {
    hide Here, IndexAt, TickVideo, RemoveAt, Run, Phase;
    var s1 := Step(s, AddEvent(n));
    HereCons(Started(n), s.list, n.location);
    PhaseZero(n);
    BlinkingRun(s1, n, 0, es);
    FindIsTop(Run(s1, es).list, n.location);
  }

  lemma PhaseZero(n: Record)
    requires Lengths(n)
    ensures Phase(n, 0) == Started(n) && Shown(n, 0) == n.onChar
  {
    DivModUnique(0, n.onLength + n.offLength, 0, 0);
  }
}
