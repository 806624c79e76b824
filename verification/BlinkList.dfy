/**
 * The linked list of blink records over a static pool of 2000 structs. A pool entry is free when its
 * location is 0. Pointers to records are pool indices, NULL is None.
 */
module BlinkList {
  import opened Bytes
  import opened Blink

  const ZERO := Record(0, 0, 0, 0, 0, 0, 0, None)

  function Nth(spine: seq<nat>, k: nat): Option<nat> {
    if k < |spine| then Some(spine[k]) else None
  }

  /** The node at position k points to the one at position k + 1. */
  ghost predicate Linked(pool: seq<Record>, spine: seq<nat>, k: nat) {
    k < |spine| && spine[k] < |pool| && pool[spine[k]].next == Nth(spine, k + 1)
  }

  /**
   * `spine` lists the pool entries reached from `head`, in order: the list is acyclic, has no
   * duplicates, and its nodes are exactly the entries with a non-zero location.
   */
  ghost predicate Represents(pool: seq<Record>, head: Option<nat>, spine: seq<nat>) {
    && |pool| == 2000
    && head == Nth(spine, 0)
    && (forall k :: 0 <= k < |spine| ==> spine[k] < 2000)
    && (forall k :: 0 <= k < |spine| ==> Linked(pool, spine, k))
    && Distinct(spine)
    && InUse(pool, spine)
    && (forall i :: 0 <= i < 2000 ==> pool[i].location < 2000)
  }

  /** Entries are in use exactly if they are on the spine. */
  ghost predicate InUse(pool: seq<Record>, spine: seq<nat>) {
    |pool| == 2000 && forall i :: 0 <= i < 2000 ==> (i in spine <==> pool[i].location != 0)
  }

  /** The records of the list, without their links. */
  function Records(pool: seq<Record>, spine: seq<nat>): (r: seq<Record>)
    requires forall k :: 0 <= k < |spine| ==> spine[k] < |pool|
    ensures |r| == |spine| && forall k :: 0 <= k < |r| ==> r[k] == Strip(pool[spine[k]])
  {
    seq(|spine|, k requires 0 <= k < |spine| => Strip(pool[spine[k]]))
  }

  /** The first free entry of the pool at or after i. */
  function FirstFree(pool: seq<Record>, i: nat): (r: Option<nat>)
    ensures r.Some? ==> i <= r.value < |pool| && pool[r.value].location == 0
    ensures r.Some? ==> forall k :: i <= k < r.value ==> pool[k].location != 0
    ensures r.None? ==> forall k :: i <= k < |pool| ==> pool[k].location != 0
    decreases |pool| - i
  {
    if i >= |pool| then None else if pool[i].location == 0 then Some(i) else FirstFree(pool, i + 1)
  }

  ghost predicate Distinct(spine: seq<nat>) {
    forall j, k :: 0 <= j < k < |spine| ==> spine[j] != spine[k]
  }

  /** `spine` without its position j. */
  function Drop(spine: seq<nat>, j: nat): (rest: seq<nat>)
    requires j < |spine|
    ensures |rest| == |spine| - 1 && forall k :: 0 <= k < |rest| ==> rest[k] == spine[if k < j then k else k + 1]
  {
    spine[..j] + spine[j + 1..]
  }

  lemma DropMembers(spine: seq<nat>, j: nat)
    requires Distinct(spine) && j < |spine|
    ensures Distinct(Drop(spine, j))
    ensures forall i :: i in Drop(spine, j) <==> i in spine && i != spine[j]
  {
    var rest := Drop(spine, j);
    forall i | i in spine && i != spine[j] ensures i in rest {
      var k :| 0 <= k < |spine| && spine[k] == i;
      assert rest[if k < j then k else k - 1] == i;
    }
  }

  /** Distinct indices below n are at most n, and exactly n only if they are all of them. */
  lemma {:induction false} DistinctIndices(spine: seq<nat>, n: nat)
    requires Distinct(spine) && forall k :: 0 <= k < |spine| ==> spine[k] < n
    ensures |spine| <= n
    ensures |spine| == n <==> forall i :: 0 <= i < n ==> i in spine
  {
    assert |spine| == 0 || spine[0] < n;
    if n != 0 {
      if n - 1 in spine {
        var j :| 0 <= j < |spine| && spine[j] == n - 1;
        DropMembers(spine, j);
        DistinctIndices(Drop(spine, j), n - 1);
      } else {
        DistinctIndices(spine, n - 1);
      }
    }
  }

  /** The pool has a free entry exactly when the list is not full. */
  lemma RoomIsFreeEntry(pool: seq<Record>, head: Option<nat>, spine: seq<nat>)
    requires Represents(pool, head, spine)
    ensures |spine| <= 2000 && (|spine| < 2000 <==> FirstFree(pool, 0).Some?)
  {
    DistinctIndices(spine, 2000);
    if FirstFree(pool, 0).Some? {
      assert FirstFree(pool, 0).value !in spine;
    }
  }

  /** mp1_ioctl_add on the pool: the entry it claims goes to the front of the list. */
  function PoolAdd(pool: seq<Record>, head: Option<nat>, n: Record): (r: (seq<Record>, Option<nat>, int))
    requires |pool| == 2000
    ensures |r.0| == 2000
  {
    var failed: (seq<Record>, Option<nat>, int) := (pool, head, -1);
    if n.location >= 2000 then failed else
    match FirstFree(pool, 0)
    case None => failed
    case Some(i) => (pool[i := Started(n).(next := head)], Some(i), 0)
  }

  lemma LinkInFront(pool: seq<Record>, head: Option<nat>, spine: seq<nat>, i: nat, n: Record)
    requires Represents(pool, head, spine)
    requires i < 2000 && pool[i].location == 0 && 0 < n.location < 2000
    ensures var pool2 := pool[i := Started(n).(next := head)];
            && Represents(pool2, Some(i), [i] + spine)
            && Records(pool2, [i] + spine) == [Started(n)] + Records(pool, spine)
  {
    var m := Started(n).(next := head);
    var pool2, spine2 := pool[i := m], [i] + spine;
    assert i !in spine && m.location != 0;
    assert Strip(m) == Started(n);
    InUseInFront(pool, spine, i, m);
    RecordsBehind(pool, spine, i, m);
    hide Strip, Started, InUse, Records;
    LinkedInFront(pool, spine, i, m);
  }

  lemma LinkedInFront(pool: seq<Record>, spine: seq<nat>, i: nat, m: Record)
    requires |pool| == 2000 && i < 2000 && i !in spine && m.next == Nth(spine, 0) && Distinct(spine)
    requires forall k :: 0 <= k < |spine| ==> spine[k] < 2000 && Linked(pool, spine, k)
    ensures Distinct([i] + spine)
    ensures forall k :: 0 <= k < |spine| + 1 ==> ([i] + spine)[k] < 2000 && Linked(pool[i := m], [i] + spine, k)
  {
    forall k | 0 <= k < |spine| + 1 ensures ([i] + spine)[k] < 2000 && Linked(pool[i := m], [i] + spine, k) {
      if k > 0 {
        LinkedBehind(pool, spine, i, m, k - 1);
      } else {
        assert Nth([i] + spine, 1) == Nth(spine, 0);
      }
    }
  }

  lemma InUseInFront(pool: seq<Record>, spine: seq<nat>, i: nat, m: Record)
    requires InUse(pool, spine) && i < 2000 && m.location != 0
    ensures InUse(pool[i := m], [i] + spine)
  {
    forall j | 0 <= j < 2000 ensures j in [i] + spine <==> pool[i := m][j].location != 0 {
      assert j in [i] + spine <==> j == i || j in spine;
    }
  }

  lemma RecordsBehind(pool: seq<Record>, spine: seq<nat>, i: nat, m: Record)
    requires |pool| == 2000 && i < 2000 && i !in spine && forall k :: 0 <= k < |spine| ==> spine[k] < 2000
    ensures Records(pool[i := m], [i] + spine) == [Strip(m)] + Records(pool, spine)
  {
    hide Strip;
    var (a, b) := (Records(pool[i := m], [i] + spine), [Strip(m)] + Records(pool, spine));
    forall k | 0 <= k < |a| ensures a[k] == b[k] {
      if k > 0 {
        assert ([i] + spine)[k] == spine[k - 1];
      }
    }
  }

  lemma LinkedBehind(pool: seq<Record>, spine: seq<nat>, i: nat, m: Record, k: nat)
    requires |pool| == 2000 && i < 2000 && i !in spine && k < |spine| && spine[k] < 2000 && Linked(pool, spine, k)
    ensures Linked(pool[i := m], [i] + spine, k + 1)
  {
    assert Nth([i] + spine, k + 2) == Nth(spine, k + 1);
  }

  /** Over the pool, an add is the add of the list it represents. */
  lemma PoolAddRefinesAdd(pool: seq<Record>, head: Option<nat>, spine: seq<nat>, n: Record)
    requires Represents(pool, head, spine) && n.location != 0
    ensures var (pool2, head2, r) := PoolAdd(pool, head, n);
            if Accepts(Records(pool, spine), n)
            then && r == 0 && head2.Some?
                 && Represents(pool2, head2, [head2.value] + spine)
                 && Records(pool2, [head2.value] + spine) == [Started(n)] + Records(pool, spine)
            else r == -1 && (pool2, head2) == (pool, head)
  {
    RoomIsFreeEntry(pool, head, spine);
    if Accepts(Records(pool, spine), n) {
      LinkInFront(pool, head, spine, FirstFree(pool, 0).value, n);
    }
  }

  /** An accepted add leaves a proper list exactly when its location is not 0. */
  lemma AddAtZeroBreaksList(pool: seq<Record>, head: Option<nat>, spine: seq<nat>, n: Record)
    requires Represents(pool, head, spine) && Accepts(Records(pool, spine), n)
    ensures var (pool2, head2, _) := PoolAdd(pool, head, n);
            (exists spine2: seq<nat> :: Represents(pool2, head2, spine2)) <==> n.location != 0
  {
    var (pool2, head2, _) := PoolAdd(pool, head, n);
    if n.location != 0 {
      PoolAddRefinesAdd(pool, head, spine, n);
      assert Represents(pool2, head2, [head2.value] + spine);
    } else {
      RoomIsFreeEntry(pool, head, spine);
      forall spine2: seq<nat> ensures !Represents(pool2, head2, spine2) {
        assert head2 == Nth(spine2, 0) ==> head2.value in spine2;
      }
    }
  }

  lemma NodeAt(pool: seq<Record>, head: Option<nat>, spine: seq<nat>, k: nat)
    requires Represents(pool, head, spine) && k < |spine|
    ensures spine[k] < 2000 == |pool|
    ensures pool[spine[k]].next == Nth(spine, k + 1)
    ensures Records(pool, spine)[k] == Strip(pool[spine[k]]) && pool[spine[k]].location < 2000
  {
    assert Linked(pool, spine, k);
  }

  /** Rewriting a node's timing keeps the list. */
  lemma SetNode(pool: seq<Record>, head: Option<nat>, spine: seq<nat>, k: nat, m: Record)
    requires Represents(pool, head, spine) && k < |spine|
    requires m.location == pool[spine[k]].location && m.next == pool[spine[k]].next
    ensures Represents(pool[spine[k] := m], head, spine)
    ensures Records(pool[spine[k] := m], spine) == Records(pool, spine)[k := Strip(m)]
  {
    var pool2 := pool[spine[k] := m];
    forall j | 0 <= j < |spine| ensures Linked(pool2, spine, j) {
      assert Linked(pool, spine, j);
    }
  }

  // ---------------------------------------------------------------- the program's state

  class Blinker {
    const pool: array<Record>
    const video: array<byte>
    var listHead: Option<nat>
    /** The pool entries on the list, newest first. */
    ghost var spine: seq<nat>

    ghost predicate Valid()
      reads this, pool, video
    {
      pool.Length == 2000 && video.Length == 4000 && Represents(pool[..], listHead, spine)
    }

    ghost function Value(): (s: State)
      requires Valid()
      reads this, pool, video
      ensures WellFormed(s)
    {
      ListFits(pool[..], listHead, spine);
      State(Records(pool[..], spine), video[..])
    }

    constructor ()
      ensures Valid() && fresh(pool) && fresh(video) && Value().list == []
    {
      pool := new Record[2000](i => ZERO);
      video := new byte[4000](i => 0);
      listHead := None;
      spine := [];
    }

    method Malloc() returns (r: Option<nat>)
      requires pool.Length == 2000
      ensures r == FirstFree(pool[..], 0)
    {
      var i := 0;
      while i < 80 * 25
        invariant 0 <= i <= 2000
        invariant FirstFree(pool[..], 0) == FirstFree(pool[..], i)
      {
        if pool[i].location == 0 {
          return Some(i);
        }
        i := i + 1;
      }
      return None;
    }

    /** mp1_poke: the character of the cell, not its attribute byte. */
    method WriteChar(location: half, c: byte)
      requires video.Length == 4000 && location < 2000
      modifies video
      ensures video[..] == Poke(old(video[..]), location, c)
    {
      video[2 * location] := c;
    }

    /** mp1_ioctl_add. On the screen, at most the character of the cell changes. */
    method Add(n: Record) returns (r: int)
      requires Valid()
      modifies this, pool, video
      ensures (pool[..], listHead, r) == PoolAdd(old(pool[..]), old(listHead), n)
      ensures n.location != 0 ==> Valid() && Value() == Step(old(Value()), AddEvent(n))
      ensures r == if n.location < 2000 && exists i :: 0 <= i < 2000 && old(pool[i]).location == 0 then 0 else -1
      ensures forall j :: 0 <= j < 4000 ==>
                video[j] == if r == 0 && j == 2 * n.location then n.onChar else old(video[j])
    {
      PoolAddCases(n);
      var temp := n;
      if temp.location >= 80 * 25 {
        return -1;
      }
      temp := temp.(status := 1, countdown := temp.onLength);
      var p := Malloc();
      if p.None? {
        return -1;
      }
      pool[p.value] := temp;
      pool[p.value] := pool[p.value].(next := listHead);
      listHead := p;
      spine := [p.value] + spine;
      WriteChar(temp.location, temp.onChar);
      assert pool[..] == PoolAdd(old(pool[..]), old(listHead), n).0;
      return 0;
    }

    lemma PoolAddCases(n: Record)
      requires Valid()
      ensures n.location != 0 ==>
                var (pool2, head2, r) := PoolAdd(pool[..], listHead, n);
                if Accepts(Value().list, n)
                then && r == 0 && head2.Some?
                     && Represents(pool2, head2, [head2.value] + spine)
                     && Records(pool2, [head2.value] + spine) == [Started(n)] + Value().list
                else r == -1
    {
      if n.location != 0 {
        PoolAddRefinesAdd(pool[..], listHead, spine, n);
      }
    }

    /** mp1_find_helper: the first node of the list at a location, or NULL. */
    method FindHelper(location: half) returns (p: Option<nat>)
      requires Valid()
      ensures var k := IndexAt(Value().list, location);
              p == Nth(spine, k)
    {
      p := listHead;
      ghost var k := 0;
      while p.Some?
        invariant 0 <= k <= |spine| && p == Nth(spine, k)
        invariant forall j :: 0 <= j < k ==> Value().list[j].location != location
        decreases |spine| - k
      {
        NodeAt(pool[..], listHead, spine, k);
        if location == pool[p.value].location {
          IndexIs(Value().list, location, k);
          return;
        }
        p := pool[p.value].next;
        k := k + 1;
      }
      IndexIs(Value().list, location, k);
    }

    /** mp1_ioctl_find: a copy of the node found. */
    method Find(location: half) returns (r: Option<Record>)
      requires Valid()
      ensures var list, k := Value().list, IndexAt(Value().list, location);
              if k < |list| then r.Some? && Strip(r.value) == list[k] else r.None?
    {
      var p := FindHelper(location);
      if p.None? {
        return None;
      }
      return Some(pool[p.value]);
    }

    /** The link that leads to the node p: the `next` field of the node returned, or the list head (None). */
    method FindLink(p: nat, ghost k: nat) returns (link: Option<nat>)
      requires Valid() && k < |spine| && spine[k] == p
      ensures link == if k == 0 then None else Some(spine[k - 1])
    {
      hide Represents;
      link := None;
      var target := listHead;
      ghost var j := 0;
      HeadAndPlaces(pool[..], listHead, spine, 0, k);
      while target != Some(p)
        invariant 0 <= j <= k && target == Nth(spine, j)
        invariant link == if 0 < j <= |spine| then Some(spine[j - 1]) else None
        decreases k - j
      {
        NodeAt(pool[..], listHead, spine, j);
        link := target;
        target := pool[target.value].next;
        j := j + 1;
      }
      HeadAndPlaces(pool[..], listHead, spine, j, k);
    }

    /** mp1_ioctl_remove: unlink the node found and zero it. */
    method Remove(location: half) returns (r: int)
      requires Valid()
      modifies this, pool
      ensures Valid() && Value() == Step(old(Value()), RemoveEvent(location))
      ensures r == if IndexAt(old(Value().list), location) < |old(Value().list)| then 0 else -1
    {
      hide Represents, RemoveAt, WellFormed, InScreen, Strip;
      ghost var list := Value().list;
      RemoveAtIndex(list, location);
      var p := FindHelper(location);
      if p.None? {
        return -1;
      }
      ghost var k := IndexAt(list, location);
      NodeAt(pool[..], listHead, spine, k);
      UnlinkNode(p.value, k);
      return 0;
    }

    /** The second half of remove: the link to node k, then mp1_free. */
    method UnlinkNode(p: nat, ghost k: nat)
      requires Valid() && k < |spine| && spine[k] == p
      modifies this, pool
      ensures Valid() && video[..] == old(video[..])
      ensures Value().list == old(Value().list)[..k] + old(Value().list)[k + 1..]
    {
      hide Represents, Strip;
      NodeAt(pool[..], listHead, spine, k);
      var link := FindLink(p, k);
      Unlinked(pool[..], listHead, spine, k);
      HeadAndPlaces(pool[..], listHead, spine, 0, k);
      ghost var pool2 := Unlink(pool[..], spine, k);
      if k > 0 {
        NodeAt(pool[..], listHead, spine, k - 1);
      }
      match link {
        case None => listHead := pool[p].next;
        case Some(q) => pool[q] := pool[q].(next := pool[p].next);
      }
      pool[p] := ZERO;
      assert pool[..] == pool2;
      spine := Drop(spine, k);
    }

    /** The tasklet's work on one node. */
    method TickNode(p: nat, ghost k: nat)
      requires Valid() && Nth(spine, k) == Some(p)
      modifies pool, video
      ensures Valid() && Value().list == old(Value().list)[k := TickRecord(old(Value().list)[k])]
      ensures var n := old(Value().list)[k];
              video[..] == if Switches(n) then Poke(old(video[..]), n.location, NewChar(n)) else old(video[..])
      ensures p < 2000 && pool[p].next == Nth(spine, k + 1)
    {
      hide Represents;
      NodeAt(pool[..], listHead, spine, k);
      var n := pool[p];
      var countdown := (n.countdown - 1) % 0x1_0000;
      var m := n.(countdown := countdown);
      pool[p] := m;
      if !(SignedHalf(countdown) > 0) {
        var length;
        if n.status % 2 == 1 {
          WriteChar(n.location, n.offChar);
          length := n.offLength;
        } else {
          WriteChar(n.location, n.onChar);
          length := n.onLength;
        }
        m := n.(countdown := length, status := if n.status % 2 == 1 then n.status - 1 else n.status + 1);
        pool[p] := m;
      }
      assert Strip(m) == TickRecord(Strip(n));
      SetNode(old(pool[..]), listHead, spine, k, m);
      assert pool[..] == old(pool[..])[p := m];
    }

    /** mp1_rtc_tasklet: walk the list once. No attribute changes. */
    method Tasklet()
      requires Valid()
      modifies pool, video
      ensures Valid() && Value() == Step(old(Value()), TickEvent)
      ensures forall j :: 0 <= j < 4000 && j % 2 == 1 ==> video[j] == old(video[j])
    {
      AttributesStay(Value().list, video[..]);
      hide Represents, Partly, TickRest, Records, TickRecord, Switches, Poke;
      var p := listHead;
      ghost var k := 0;
      ghost var list := Value().list;
      HeadAndPlaces(pool[..], listHead, spine, 0, 0);
      TickRestEnds(list, video[..]);
      while p.Some?
        invariant 0 <= k <= |spine| == |list| && p == Nth(spine, k)
        invariant Valid()
        invariant Value().list == Partly(list, k)
        invariant TickRest(list, k, video[..]) == TickVideo(list, old(video[..]))
        decreases |spine| - k
      {
        TickRestStep(list, k, video[..]);
        TickNode(p.value, k);
        p := pool[p.value].next;
        k := k + 1;
      }
      TickRestEnds(list, video[..]);
    }
  }

  lemma AttributesStay(list: seq<Record>, video: seq<byte>)
    requires InScreen(list) && |video| == 4000
    ensures forall j :: 0 <= j < 4000 && j % 2 == 1 ==> TickVideo(list, video)[j] == video[j]
  {
    forall j | 0 <= j < 4000 && j % 2 == 1 ensures TickVideo(list, video)[j] == video[j] {
      TickLeaves(list, video, j);
    }
  }

  /** The list when its first k records have been ticked. */
  ghost function Partly(list: seq<Record>, k: nat): (r: seq<Record>)
    requires k <= |list|
    ensures |r| == |list|
  {
    Tick(list)[..k] + list[k..]
  }

  /** The screen after ticking the records from position k on. */
  ghost function TickRest(list: seq<Record>, k: nat, video: seq<byte>): seq<byte>
    requires InScreen(list) && |video| == 4000 && k <= |list|
  {
    TickVideo(list[k..], video)
  }

  lemma TickRestStep(list: seq<Record>, k: nat, video: seq<byte>)
    requires InScreen(list) && |video| == 4000 && k < |list|
    ensures Partly(list, k)[k] == list[k]
    ensures Partly(list, k)[k := TickRecord(list[k])] == Partly(list, k + 1)
    ensures TickRest(list, k, video)
         == TickRest(list, k + 1, if Switches(list[k]) then Poke(video, list[k].location, NewChar(list[k])) else video)
  {
    assert list[k..][1..] == list[k + 1..];
  }

  lemma TickRestEnds(list: seq<Record>, video: seq<byte>)
    requires InScreen(list) && |video| == 4000
    ensures Partly(list, 0) == list && TickRest(list, 0, video) == TickVideo(list, video)
    ensures Partly(list, |list|) == Tick(list) && TickRest(list, |list|, video) == video
  {
    assert list[0..] == list && list[|list|..] == [];
  }

  lemma HeadAndPlaces(pool: seq<Record>, head: Option<nat>, spine: seq<nat>, j: nat, k: nat)
    requires Represents(pool, head, spine) && j <= |spine| && k <= |spine|
    ensures head == Nth(spine, 0)
    ensures Nth(spine, j) == Nth(spine, k) ==> j == k
    ensures |pool| == 2000 && forall i :: 0 <= i < |spine| ==> spine[i] < 2000
  {
  }

  lemma ListFits(pool: seq<Record>, head: Option<nat>, spine: seq<nat>)
    requires Represents(pool, head, spine)
    ensures |spine| <= 2000 && InScreen(Records(pool, spine))
  {
    RoomIsFreeEntry(pool, head, spine);
  }

  lemma {:induction false} IndexIs(list: seq<Record>, location: half, k: nat)
    requires k <= |list| && (k < |list| ==> list[k].location == location)
    requires forall j :: 0 <= j < k ==> list[j].location != location
    ensures IndexAt(list, location) == k
  {
    if k != 0 {
      IndexIs(list[1..], location, k - 1);
    }
  }

  /** The pool after the node at position k of the list is unlinked and zeroed. */
  ghost function Unlink(pool: seq<Record>, spine: seq<nat>, k: nat): (r: seq<Record>)
    requires |pool| == 2000 && k < |spine| && forall j :: 0 <= j < |spine| ==> spine[j] < 2000
    ensures |r| == 2000
  {
    (if k == 0 then pool else pool[spine[k - 1] := pool[spine[k - 1]].(next := Nth(spine, k + 1))])
    [spine[k] := ZERO]
  }

  lemma UnlinkedLinks(pool: seq<Record>, head: Option<nat>, spine: seq<nat>, k: nat, j: nat)
    requires Represents(pool, head, spine) && k < |spine| && j < |spine| - 1
    ensures var spine2, pool2 := Drop(spine, k), Unlink(pool, spine, k);
            && spine2[j] < 2000 && Linked(pool2, spine2, j)
            && Strip(pool2[spine2[j]]) == Strip(pool[spine2[j]])
  {
    var i := if j < k then j else j + 1;
    var pool2 := Unlink(pool, spine, k);
    assert Linked(pool, spine, i);
    assert spine[i] != spine[k];
    assert j != k - 1 ==> pool2[spine[i]] == pool[spine[i]];
    assert Linked(pool, spine, k);
  }

  lemma UnlinkedMembers(pool: seq<Record>, head: Option<nat>, spine: seq<nat>, k: nat, i: nat)
    requires Represents(pool, head, spine) && k < |spine| && i < 2000
    ensures var pool2 := Unlink(pool, spine, k);
            && pool2[i].location == (if i == spine[k] then 0 else pool[i].location)
            && (i in Drop(spine, k) <==> pool2[i].location != 0)
  {
    DropMembers(spine, k);
  }

  lemma Unlinked(pool: seq<Record>, head: Option<nat>, spine: seq<nat>, k: nat)
    requires Represents(pool, head, spine) && k < |spine|
    ensures var spine2, pool2 := Drop(spine, k), Unlink(pool, spine, k);
            && Represents(pool2, if k == 0 then pool[spine[0]].next else head, spine2)
            && |Records(pool2, spine2)| == |spine| - 1
            && Records(pool2, spine2) == Records(pool, spine)[..k] + Records(pool, spine)[k + 1..]
  {
    hide Unlink, Drop;
    var pool2, spine2 := Unlink(pool, spine, k), Drop(spine, k);
    DropMembers(spine, k);
    assert Linked(pool, spine, 0);
    forall j | 0 <= j < |spine2|
      ensures spine2[j] < 2000 && Linked(pool2, spine2, j)
      ensures Strip(pool2[spine2[j]]) == Strip(pool[spine2[j]])
    {
      UnlinkedLinks(pool, head, spine, k, j);
    }
    forall i | 0 <= i < 2000
      ensures (i in spine2 <==> pool2[i].location != 0) && pool2[i].location < 2000
    {
      UnlinkedMembers(pool, head, spine, k, i);
    }
  }
}
