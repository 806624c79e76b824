/** The bitmask of process slots. */
module Slots {
  import opened Bytes

  function SlotBit(p: nat): bv8
    requires p < 6
  {
    if p == 0 then 0x01 else if p == 1 then 0x02 else if p == 2 then 0x04
    else if p == 3 then 0x08 else if p == 4 then 0x10 else 0x20
  }

  /** The masks halt uses to clear a slot. */
  function ClearMask(p: nat): bv8
    requires p < 6
  {
    if p == 0 then 0x3E else if p == 1 then 0x3D else if p == 2 then 0x3B
    else if p == 3 then 0x37 else if p == 4 then 0x2F else 0x1F
  }

  predicate Busy(processes: bv8, p: nat)
    requires p < 6
  {
    processes & SlotBit(p) != 0
  }

  predicate SixBits(processes: bv8) {
    processes & 0xC0 == 0
  }

  /** The least free slot at or after p. */
  function FreeSlot(processes: bv8, p: nat): (r: Option<nat>)
    requires p <= 6
    ensures r.Some? ==> p <= r.value < 6 && !Busy(processes, r.value)
    ensures r.Some? ==> forall q :: p <= q < r.value ==> Busy(processes, q)
    ensures r.None? ==> forall q :: p <= q < 6 ==> Busy(processes, q)
    decreases 6 - p
  {
    if p == 6 then None else if !Busy(processes, p) then Some(p) else FreeSlot(processes, p + 1)
  }

  lemma SetSlot(processes: bv8, p: nat)
    requires p < 6 && SixBits(processes)
    ensures SixBits(processes | SlotBit(p))
    ensures forall q :: 0 <= q < 6 ==> (Busy(processes | SlotBit(p), q) <==> q == p || Busy(processes, q))
  {
    forall q | 0 <= q < 6 ensures Busy(processes | SlotBit(p), q) <==> q == p || Busy(processes, q) {
      SetOne(processes, p, q);
    }
  }

  lemma SetOne(m: bv8, p: nat, q: nat)
    requires p < 6 && q < 6
    ensures Busy(m | SlotBit(p), q) <==> q == p || Busy(m, q)
  {
    if p == q {
      assert (m | SlotBit(p)) & SlotBit(p) == SlotBit(p);
    } else {
      assert SlotBit(p) & SlotBit(q) == 0;
      assert (m | SlotBit(p)) & SlotBit(q) == (m & SlotBit(q)) | (SlotBit(p) & SlotBit(q));
    }
  }

  lemma ClearSlot(processes: bv8, p: nat)
    requires p < 6 && SixBits(processes)
    ensures SixBits(processes & ClearMask(p))
    ensures forall q :: 0 <= q < 6 ==> (Busy(processes & ClearMask(p), q) <==> q != p && Busy(processes, q))
  {
    forall q | 0 <= q < 6 ensures Busy(processes & ClearMask(p), q) <==> q != p && Busy(processes, q) {
      ClearOne(processes, p, q);
    }
  }

  lemma ClearOne(m: bv8, p: nat, q: nat)
    requires p < 6 && q < 6
    ensures Busy(m & ClearMask(p), q) <==> q != p && Busy(m, q)
  {
    assert (m & ClearMask(p)) & SlotBit(q) == m & (ClearMask(p) & SlotBit(q));
    if p == q {
      assert ClearMask(p) & SlotBit(p) == 0;
    } else {
      assert ClearMask(p) & SlotBit(q) == SlotBit(q);
    }
  }

  /** Only the last slot may be free. */
  lemma CrowdedMask(processes: bv8)
    requires SixBits(processes)
    ensures processes == 0x3F || processes == 0x1F <==> forall q :: 0 <= q < 5 ==> Busy(processes, q)
  {
    if forall q :: 0 <= q < 5 ==> Busy(processes, q) {
      assert Busy(processes, 0) && Busy(processes, 1) && Busy(processes, 2) && Busy(processes, 3) && Busy(processes, 4);
    }
  }

  lemma AllBusyIsFull(processes: bv8)
    requires SixBits(processes)
    ensures processes == 0x3F <==> FreeSlot(processes, 0).None?
  {
    if FreeSlot(processes, 0).None? {
      assert Busy(processes, 0) && Busy(processes, 1) && Busy(processes, 2);
      assert Busy(processes, 3) && Busy(processes, 4) && Busy(processes, 5);
    } else {
      var p := FreeSlot(processes, 0).value;
      assert 0x3F & SlotBit(p) == SlotBit(p);
    }
  }

  lemma SameBusySameMask(a: bv8, b: bv8)
    requires SixBits(a) && SixBits(b) && forall p :: 0 <= p < 6 ==> (Busy(a, p) <==> Busy(b, p))
    ensures a == b
  {
    assert Busy(a, 0) <==> Busy(b, 0);
    assert Busy(a, 1) <==> Busy(b, 1);
    assert Busy(a, 2) <==> Busy(b, 2);
    assert Busy(a, 3) <==> Busy(b, 3);
    assert Busy(a, 4) <==> Busy(b, 4);
    assert Busy(a, 5) <==> Busy(b, 5);
  }
}
