/** The conservative playout delay of adc/consrcvr.cc: the offset between sending and playing a
    sample only grows, when a packet arrives too late to be played. */
module Playout {

  /** `CONS_OFFSET`. */
  const CONS_OFFSET := 200

  // ---------------------------------------------------------------- 32-bit arithmetic

  const TWO_32 := 0x1_0000_0000
  const TWO_31 := 0x8000_0000

  /** Conversion to `u_int32_t`. */
  function U32(x: int): (r: int)
    ensures 0 <= r < TWO_32
    ensures 0 <= x < TWO_32 ==> r == x
  {
    x % TWO_32
  }

  /** Conversion to `int`. */
  function I32(x: int): (r: int)
    ensures -TWO_31 <= r < TWO_31
    ensures -TWO_31 <= x < TWO_31 ==> r == x
  {
    var u := U32(x);
    if u < TWO_31 then u else u - TWO_32
  }

  /** `adapt`, with the conversions of the source: the new offset. */
  function Adapt32(offset: int, sent: int, now: int): int {
    if U32(sent + offset) < now || offset == -1 then
      if offset < I32(U32(now - U32(sent + offset))) then I32(U32(offset + U32(now - U32(sent + offset))))
      else I32(offset + offset)
    else offset
  }

  function Delay32(offset: int, sent: int, now: int): int {
    I32(U32(offset - U32(now - sent)))
  }

  class ConsRcvr {
    var offset: int

    constructor ()
      ensures offset == CONS_OFFSET
    {
      offset := CONS_OFFSET;
    }

    method Adapt(sent: int, now: int) returns (delay: int)
      modifies this
      ensures offset == Adapt32(old(offset), sent, now)
      ensures delay == Delay32(offset, sent, now)
    {
      if U32(sent + offset) < now || offset == -1 {
        var late := U32(now - U32(sent + offset));
        if offset < I32(late) {
          offset := I32(U32(offset + late));
        } else {
          offset := I32(offset + offset);
        }
      }
      delay := I32(U32(offset - U32(now - sent)));
    }
  }

  // ---------------------------------------------------------------- runs

  /** A packet with its sending and arrival times, in samples. */
  datatype Arrival = Arrival(sent: int, now: int)

  /** Clocks small enough for 32-bit arithmetic, and no packet before it was sent. */
  predicate Plausible(a: Arrival) {
    0 <= a.sent <= a.now < 0x4000_0000
  }

  /** The offset after a sequence of arrivals. */
  function Offset(arrivals: seq<Arrival>): int {
    if arrivals == [] then CONS_OFFSET
    else
      var a := arrivals[|arrivals| - 1];
      Adapt32(Offset(arrivals[..|arrivals| - 1]), a.sent, a.now)
  }

  /** How many arrivals raised it. */
  function Increases(arrivals: seq<Arrival>): nat {
    if arrivals == [] then 0
    else
      var front := arrivals[..|arrivals| - 1];
      Increases(front) + if Offset(arrivals) > Offset(front) then 1 else 0
  }

  /** The largest time any packet was under way. */
  function LargestTransit(arrivals: seq<Arrival>): (d: int)
    ensures d >= 0
  {
    if arrivals == [] then 0
    else
      var a := arrivals[|arrivals| - 1];
      var d := LargestTransit(arrivals[..|arrivals| - 1]);
      if a.now - a.sent > d then a.now - a.sent else d
  }

  function Pow2(k: nat): nat {
    if k == 0 then 1 else 2 * Pow2(k - 1)
  }

  /** What one packet does, free of conversions: the offset becomes what this packet needed, or
      doubles, whichever is more, if the packet is late. */
  function Raised(offset: int, transit: int): int {
    if transit <= offset then offset else if transit >= 2 * offset then transit else 2 * offset
  }

  /** And the packet is playable afterwards. */
  lemma AdaptStep(offset: int, a: Arrival)
    requires Plausible(a) && CONS_OFFSET <= offset < TWO_31
    ensures
      var transit, offset' := a.now - a.sent, Adapt32(offset, a.sent, a.now);
      && offset' == Raised(offset, transit)
      && Delay32(offset', a.sent, a.now) == offset' - transit >= 0
  {
    var transit := a.now - a.sent;
    assert U32(a.sent + offset) == a.sent + offset;
    if transit > offset {
      assert U32(a.now - U32(a.sent + offset)) == transit - offset;
    }
  }

  /** The offset and its increases, free of conversions. */
  function PlainOffset(arrivals: seq<Arrival>): int {
    if arrivals == [] then CONS_OFFSET
    else
      var a := arrivals[|arrivals| - 1];
      Raised(PlainOffset(arrivals[..|arrivals| - 1]), a.now - a.sent)
  }

  function PlainIncreases(arrivals: seq<Arrival>): nat {
    if arrivals == [] then 0
    else
      var front := arrivals[..|arrivals| - 1];
      PlainIncreases(front) + if PlainOffset(arrivals) > PlainOffset(front) then 1 else 0
  }

  lemma {:induction false} PlainBounds(arrivals: seq<Arrival>)
    requires forall a <- arrivals :: Plausible(a)
    ensures CONS_OFFSET <= PlainOffset(arrivals) < TWO_31 && LargestTransit(arrivals) < 0x4000_0000
    ensures PlainOffset(arrivals) == CONS_OFFSET || PlainOffset(arrivals) < 2 * LargestTransit(arrivals)
  {
    if arrivals != [] {
      var front := arrivals[..|arrivals| - 1];
      assert forall b <- front :: b in arrivals;
      PlainBounds(front);
      assert Plausible(arrivals[|arrivals| - 1]);
    }
  }

  /** Each increase at least doubles the offset, and one more was needed for the largest transit. */
  lemma {:induction false} PlainDoubles(arrivals: seq<Arrival>)
    ensures PlainOffset(arrivals) >= CONS_OFFSET
    ensures CONS_OFFSET * Pow2(PlainIncreases(arrivals)) <= PlainOffset(arrivals)
    ensures PlainIncreases(arrivals) > 0 ==>
      CONS_OFFSET * Pow2(PlainIncreases(arrivals) - 1) < LargestTransit(arrivals)
  {
    if arrivals != [] {
      PlainDoubles(arrivals[..|arrivals| - 1]);
    }
  }

  lemma {:induction false} OffsetIsPlain(arrivals: seq<Arrival>)
    requires forall a <- arrivals :: Plausible(a)
    ensures Offset(arrivals) == PlainOffset(arrivals) && Increases(arrivals) == PlainIncreases(arrivals)
  {
    if arrivals != [] {
      var front := arrivals[..|arrivals| - 1];
      assert forall b <- front :: b in arrivals;
      OffsetIsPlain(front);
      PlainBounds(front);
      AdaptStep(Offset(front), arrivals[|arrivals| - 1]);
    }
  }

  /** Every packet is played no earlier than it arrives, the offset never shrinks and at least
      doubles when it grows. */
  lemma NeverLate(arrivals: seq<Arrival>, a: Arrival)
    requires Plausible(a) && forall b <- arrivals :: Plausible(b)
    ensures
      var before, after := Offset(arrivals), Offset(arrivals + [a]);
      && Delay32(after, a.sent, a.now) == after - (a.now - a.sent) >= 0
      && (after == before || after >= 2 * before)
      && (after > before <==> a.now - a.sent > before)
  {
    OffsetIsPlain(arrivals);
    PlainBounds(arrivals);
    AdaptStep(Offset(arrivals), a);
    assert (arrivals + [a])[..|arrivals|] == arrivals;
  }

  /** The offset is raised only logarithmically often, and never beyond twice what was needed. */
  lemma GrowsLogarithmically(arrivals: seq<Arrival>)
    requires forall a <- arrivals :: Plausible(a)
    ensures Increases(arrivals) > 0 ==> 100 * Pow2(Increases(arrivals)) < LargestTransit(arrivals)
    ensures Offset(arrivals) == CONS_OFFSET || Offset(arrivals) < 2 * LargestTransit(arrivals)
  {
    OffsetIsPlain(arrivals);
    PlainBounds(arrivals);
    PlainDoubles(arrivals);
  }
}
