/**
 * One of the recorder's two frame rings: a fixed array of RingCapacity
 * slots and two uint32_t counters that only ever increase (modulo 2^32).
 * The producer stores at slot prod % cap, the consumer takes slot cons % cap;
 * because the capacity divides 2^32 the slots stay consistent across the
 * counters' wrap-around.
 */
module FrameRings {
  import opened Wrappers
  import opened RecorderTypes

  /** The array slot of the frame i places after counter value c. */
  function Slot(c: int, i: int): (k: nat)
    ensures k < RingCapacity
  {
    (c + i) % RingCapacity
  }

  /** The frames in the live slots: count of them, starting at counter c. */
  function Window(slots: seq<RawFrame>, c: int, count: nat): (w: seq<RawFrame>)
    requires |slots| == RingCapacity
    ensures |w| == count
    ensures forall i :: 0 <= i < count ==> w[i] == slots[Slot(c, i)]
  {
    seq(count, i requires 0 <= i < count => slots[Slot(c, i)])
  }

  /** uint32_t subtraction p - c, which wraps around when p < c: the number of frames between the two counters. */
  function Distance(p: U32, c: U32): (d: nat)
    ensures d < Wrap32
    ensures d == (p - c) % Wrap32
  {
    if p >= c then p - c else p - c + Wrap32
  }

  /** The producer counter sits `Distance(p, c)` slots after the consumer counter. */
  lemma SlotAfter(p: U32, c: U32)
    ensures p % RingCapacity == Slot(c, Distance(p, c))
  {
    var d := Distance(p, c);
    if p >= c {
      assert d == p - c;
    } else {
      assert d == p - c + Wrap32;
      assert c + d == p + 8 * 0x2000_0000;
    }
  }

  /** Slots of the window are pairwise different positions of the array. */
  lemma WindowSlotsDistinct(c: int, i: int, j: int)
    requires 0 <= i < j < RingCapacity
    ensures Slot(c, i) != Slot(c, j)
  {
  }

  /** Advancing the uint32_t counter by one moves every slot by one. */
  lemma SlotAdvance(c: U32, i: int)
    ensures Slot((c + 1) % Wrap32, i) == Slot(c, i + 1)
  {
    if c + 1 == Wrap32 {
      assert (c + 1) % Wrap32 == 0;
      assert c + 1 + i == i + 8 * 0x2000_0000;
    }
  }

  class FrameRing {
    const ring: array<RawFrame>
    var prod: U32
    var cons: U32

    ghost predicate Valid()
      reads this
    {
      ring.Length == RingCapacity && Distance(prod, cons) <= RingCapacity
    }

    /** Number of frames waiting to be popped. */
    function Count(): nat
      reads this
    {
      Distance(prod, cons)
    }

    /** The waiting frames, oldest first. */
    ghost function Contents(): seq<RawFrame>
      reads this, ring
      requires Valid()
    {
      Window(ring[..], cons, Count())
    }

    /** The ring as the recorder's constructor leaves it: default frames in every slot, both counters 0. */
    constructor ()
      ensures Valid() && fresh(ring)
      ensures prod == 0 && cons == 0 && Contents() == []
      ensures forall i :: 0 <= i < ring.Length ==> ring[i] == EmptyRawFrame()
    {
      ring := new RawFrame[RingCapacity](_ => EmptyRawFrame());
      prod, cons := 0, 0;
    }

    /** q_push: refused (nothing changes) when the ring is full, else stores f at slot prod % cap. */
    method Push(f: RawFrame) returns (ok: bool)
      requires Valid()
      modifies this, ring
      ensures Valid()
      ensures ok <==> old(Count()) < RingCapacity
      ensures cons == old(cons)
      ensures ok ==> prod == (old(prod) + 1) % Wrap32 && Contents() == old(Contents()) + [f]
      ensures ok ==> ring[..] == old(ring[..])[old(prod) % RingCapacity := f]
      ensures !ok ==> prod == old(prod) && ring[..] == old(ring[..])
    {
      var p := prod;
      var c := cons;
      if Distance(p, c) >= RingCapacity {
        return false;
      }
      ghost var before := ring[..];
      ghost var n := Distance(p, c);
      ring[p % RingCapacity] := f;
      prod := (p + 1) % Wrap32;
      ok := true;
      assert Distance(prod, c) == n + 1;
      SlotAfter(p, c);
      forall i | 0 <= i < n
        ensures ring[..][Slot(c, i)] == before[Slot(c, i)]
      {
        WindowSlotsDistinct(c, i, n);
      }
      assert Contents() == Window(before, c, n) + [f];
    }

    /**
     * q_pop: refused (nothing changes, `out` is handed back as it was) when
     * the counters are equal; else returns the frame at slot cons % cap and
     * leaves a moved-from frame (null buffer, sizes kept) in that slot.
     */
    method Pop(out0: RawFrame) returns (ok: bool, out: RawFrame)
      requires Valid()
      modifies this, ring
      ensures Valid()
      ensures ok <==> old(Count()) > 0
      ensures prod == old(prod)
      ensures !ok ==> out == out0 && cons == old(cons) && ring[..] == old(ring[..])
      ensures ok ==> out == old(Contents())[0] && Contents() == old(Contents())[1..]
      ensures ok ==> cons == (old(cons) + 1) % Wrap32
      ensures ok ==> ring[..] == old(ring[..])[old(cons) % RingCapacity := out.(data := None)]
    {
      var c := cons;
      var p := prod;
      if c == p {
        assert Distance(p, c) == 0;
        return false, out0;
      }
      ghost var before := ring[..];
      ghost var n := Distance(p, c);
      assert n > 0;
      out := ring[c % RingCapacity];
      ring[c % RingCapacity] := out.(data := None);
      cons := (c + 1) % Wrap32;
      ok := true;
      assert Distance(p, cons) == n - 1;
      ghost var after := ring[..];
      forall i | 0 <= i < n - 1
        ensures after[Slot(cons, i)] == before[Slot(c, i + 1)]
      {
        SlotAdvance(c, i);
        WindowSlotsDistinct(c, 0, i + 1);
      }
      assert Contents() == Window(before, c, n)[1..];
    }
  }
}
