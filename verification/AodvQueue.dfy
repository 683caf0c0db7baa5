/** The linked list behind the AODV send buffer (aodv/aodv_rqueue.cc): packets chained through
    their `next` field, with head, tail and length kept by hand. Every method is proved to do
    on the list what `SendBuffer` does on the sequence of its packets. */
module AodvQueue {
  import opened SendBuffer

  class Packet {
    var next: Packet?
    var ts: real
    const dst: int

    constructor (dst: int)
      ensures this.dst == dst && next == null
    {
      this.dst := dst;
      next, ts := null, 0.0;
    }
  }

  class RQueue {
    var head: Packet?
    var tail: Packet?
    var len: int
    ghost var repr: set<Packet>
    ghost var nodes: seq<Packet>
    ghost var items: seq<Item<Packet>>

    ghost predicate Valid()
      reads this, repr
    {
      && (forall i | 0 <= i < |nodes| :: nodes[i] in repr)
      && (forall i, j | 0 <= i < j < |nodes| :: nodes[i] != nodes[j])
      && (forall i {:trigger nodes[i].next} | 0 <= i < |nodes| - 1 :: nodes[i].next == nodes[i + 1])
      && (nodes != [] ==> nodes[|nodes| - 1].next == null)
      && head == (if nodes == [] then null else nodes[0])
      && tail == (if nodes == [] then null else nodes[|nodes| - 1])
      && len == |nodes| == |items|
      && (forall i | 0 <= i < |nodes| :: items[i] == Item(nodes[i], nodes[i].ts, nodes[i].dst))
    }

    constructor ()
      ensures Valid() && items == [] && repr == {}
    {
      head, tail, len := null, null, 0;
      repr, nodes, items := {}, [], [];
    }

    method RemoveHead() returns (p: Packet?)
      requires Valid()
      modifies this
      ensures Valid() && repr == old(repr)
      ensures p == null <==> old(items) == []
      ensures items == if p == null then old(items) else old(items)[1..]
      ensures nodes == if p == null then old(nodes) else old(nodes)[1..]
      ensures p != null ==> p == old(nodes)[0]
    {
      p := head;
      if head == tail {
        head, tail := null, null;
      } else {
        head := head.next;
      }
      if p != null {
        len := len - 1;
        nodes, items := nodes[1..], items[1..];
        assert forall i | 0 <= i < |nodes| :: nodes[i] == old(nodes)[i + 1];
      }
    }

    /** The packet is the `k`-th of the list and `prev` stands before it, as the search left them. */
    ghost predicate Found(p: Packet?, prev: Packet?, k: nat)
      reads this, repr
      requires Valid()
    {
      && k <= |nodes|
      && p == (if k < |nodes| then nodes[k] else null)
      && prev == (if k == 0 then null else nodes[k - 1])
    }

    method FindPacketWithDst(dst: int) returns (p: Packet?, prev: Packet?)
      requires Valid()
      ensures Found(p, prev, FirstFor(items, dst))
    {
      p, prev := head, null;
      ghost var k: nat := 0;
      while p != null
        invariant Found(p, prev, k)
        invariant forall i | 0 <= i < k :: items[i].dst != dst
        decreases |nodes| - k
      {
        if p.dst == dst {
          return;
        }
        prev, p := p, p.next;
        k := k + 1;
      }
    }

    method FindAgedPacket(now: real) returns (aged: bool, p: Packet?, prev: Packet?)
      requires Valid()
      ensures Found(p, prev, FirstAged(items, now))
      ensures aged <==> p != null
    {
      p, prev := head, null;
      ghost var k: nat := 0;
      while p != null
        invariant Found(p, prev, k)
        invariant forall i | 0 <= i < k :: items[i].ts >= now
        decreases |nodes| - k
      {
        if p.ts < now {
          return true, p, prev;
        }
        prev, p := p, p.next;
        k := k + 1;
      }
      aged := false;
    }

    /** The two ways in which `deque` and `purge` take out a packet that is not the head. */
    method UnlinkAfter(p: Packet, prev: Packet, ghost k: nat)
      requires Valid() && 0 < k < |nodes| && p == nodes[k] && prev == nodes[k - 1]
      modifies this, prev`next
      ensures Valid() && repr == old(repr) && items == RemoveAt(old(items), k)
    {
      if p == tail {
        prev.next := null;
        tail := prev;
        len := len - 1;
      } else {
        prev.next := p.next;
        len := len - 1;
      }
      nodes := nodes[..k] + nodes[k + 1..];
      items := RemoveAt(items, k);
    }

    method Unlink(p: Packet, prev: Packet?, ghost k: nat)
      requires Valid() && k < |nodes| && Found(p, prev, k)
      modifies this, repr
      ensures Valid() && items == RemoveAt(old(items), k)
      ensures repr == old(repr)
    {
      if p == head {
        var q := RemoveHead();
        assert old(items)[..k] == [];
      } else {
        UnlinkAfter(p, prev, k);
      }
    }

    /** One round of the purge loop: look for an aged packet and take it out. */
    method RemoveAged(now: real) returns (found: bool)
      requires Valid()
      modifies this, repr
      ensures Valid()
      ensures
        var k := FirstAged(old(items), now);
        && (found <==> k < |old(items)|)
        && items == if found then RemoveAt(old(items), k) else old(items)
      ensures repr == old(repr)
    {
      var p, prev;
      found, p, prev := FindAgedPacket(now);
      if found {
        Unlink(p, prev, FirstAged(items, now));
        var cnt, last := VerifyQueue();
        assert cnt == len && last == tail;
      }
    }

    method Purge(now: real)
      requires Valid()
      modifies this, repr
      ensures Valid() && items == SendBuffer.Purge(old(items), now)
      ensures repr == old(repr)
    {
      ghost var result := SendBuffer.Purge(items, now);
      var found := true;
      while found
        invariant Valid()
        invariant SendBuffer.Purge(items, now) == result
        invariant !found ==> NoneAged(items, now)
        invariant repr == old(repr)
        decreases found, |items|
      {
        ghost var before := items;
        found := RemoveAged(now);
        if found {
          PurgeSkips(before, FirstAged(before, now), now);
        }
      }
      PurgeDone(items, now);
    }

    /** Walking the list from the head counts `len` packets and ends at the tail, which is what
        the two asserts of `verifyQueue` ask. */
    method VerifyQueue() returns (cnt: nat, prev: Packet?)
      requires Valid()
      ensures cnt == len && prev == tail
    {
      var p := head;
      prev, cnt := null, 0;
      while p != null
        invariant 0 <= cnt && Found(p, prev, cnt)
        decreases |nodes| - cnt
      {
        cnt := cnt + 1;
        prev, p := p, p.next;
      }
    }

    /** The part of `enque` that drops the oldest packet of a full buffer. */
    method MakeRoom(now: real) returns (victim: Packet?, full: bool)
      requires Valid()
      modifies this
      ensures Valid() && repr == old(repr)
      ensures items == old(items)[|Overflow(old(items))|..]
      ensures forall i | 0 <= i < |nodes| :: nodes[i] in old(nodes)
      ensures victim != null <==> |old(items)| == LIMIT
      ensures victim != null ==> victim == old(items)[0].pkt && (full <==> old(items)[0].ts > now)
    {
      victim, full := null, false;
      if len == LIMIT {
        victim := RemoveHead();
        full := victim.ts > now;
      }
    }

    /** The packet must not be in the list already. The packet dropped for lack of room is
        returned, with the reason: full, or expired at this very instant. */
    method Enque(p: Packet, now: real) returns (victim: Packet?, full: bool)
      requires Valid() && p !in nodes
      modifies this, repr, p
      ensures Valid() && repr == old(repr) + {p}
      ensures items == SendBuffer.Enque(old(items), p, p.dst, now)
      ensures
        var live := SendBuffer.Purge(old(items), now);
        && (victim != null <==> |live| == LIMIT)
        && (victim != null ==> victim == live[0].pkt && (full <==> live[0].ts > now))
    {
      Purge(now);
      NotPurgedIn(old(items), now, p);
      p.next := null;
      p.ts := now + TIMEOUT;
      victim, full := MakeRoom(now);
      Append(p);
      var cnt, last := VerifyQueue();
      assert cnt == len && last == tail;
    }

    method Append(p: Packet)
      requires Valid() && p !in nodes && p.next == null
      modifies this, repr
      ensures Valid() && repr == old(repr) + {p}
      ensures items == old(items) + [Item(p, p.ts, p.dst)] && p.ts == old(p.ts)
    {
      if head == null {
        head, tail := p, p;
      } else {
        tail.next := p;
        tail := p;
      }
      len := len + 1;
      repr, nodes := repr + {p}, nodes + [p];
      items := items + [Item(p, p.ts, p.dst)];
    }

    method Deque(now: real) returns (p: Packet?)
      requires Valid()
      modifies this, repr
      ensures Valid() && repr == old(repr)
      ensures items == SendBuffer.Deque(old(items), now).0
      ensures
        var r := SendBuffer.Deque(old(items), now).1;
        p == if r.Some? then r.value.pkt else null
    {
      Purge(now);
      p := RemoveHead();
      var cnt, last := VerifyQueue();
      assert cnt == len && last == tail;
    }

    /** The part of `deque(dst)` after the purge. */
    method TakeFor(dst: int) returns (p: Packet?)
      requires Valid()
      modifies this, repr
      ensures Valid() && repr == old(repr)
      ensures
        var k := FirstFor(old(items), dst);
        if k < |old(items)| then p == old(items)[k].pkt && items == RemoveAt(old(items), k)
        else p == null && items == old(items)
    {
      var prev;
      p, prev := FindPacketWithDst(dst);
      if p == null {
        return;
      }
      Unlink(p, prev, FirstFor(items, dst));
      var cnt, last := VerifyQueue();
      assert cnt == len && last == tail;
    }

    method DequeFor(dst: int, now: real) returns (p: Packet?)
      requires Valid()
      modifies this, repr
      ensures Valid() && repr == old(repr)
      ensures items == SendBuffer.DequeFor(old(items), dst, now).0
      ensures
        var r := SendBuffer.DequeFor(old(items), dst, now).1;
        p == if r.Some? then r.value.pkt else null
    {
      Purge(now);
      p := TakeFor(dst);
    }

    method Find(dst: int) returns (found: bool)
      requires Valid()
      ensures found <==> exists i | 0 <= i < |items| :: items[i].dst == dst
    {
      var p, prev := FindPacketWithDst(dst);
      found := p != null;
    }
  }

  /** A new buffer returns what was put in, in the order in which it was put in. */
  method FirstInFirstOut(a: Packet, b: Packet, now: real) returns (first: Packet?, second: Packet?, third: Packet?)
    requires a != b
    modifies a, b
    ensures first == a && second == b && third == null
  {
    var q := new RQueue();
    ghost var ia, ib := Item(a, now + TIMEOUT, a.dst), Item(b, now + TIMEOUT, b.dst);
    var victim, full := q.Enque(a, now);
    assert q.items == [ia];
    PurgeDone([ia], now);
    victim, full := q.Enque(b, now);
    assert q.items == [ia] + [ib];
    PurgeDone([ia] + [ib], now);
    first := q.Deque(now);
    assert q.items == [ib];
    PurgeDone([ib], now);
    second := q.DequeFor(b.dst, now);
    third := q.Deque(now);
  }

  lemma {:induction false} NotPurgedIn(before: seq<Item<Packet>>, now: real, p: Packet)
    requires forall i | 0 <= i < |before| :: before[i].pkt != p
    ensures forall i | 0 <= i < |SendBuffer.Purge(before, now)| :: SendBuffer.Purge(before, now)[i].pkt != p
  {
    if before != [] {
      NotPurgedIn(before[1..], now, p);
    }
  }
}
