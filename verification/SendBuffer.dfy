/** The packet buffer of AODV (aodv/aodv_rqueue.cc) as a sequence of packets with expiry times. */
module SendBuffer {
  import opened Basics

  /** `AODV_RTQ_MAX_LEN` and `AODV_RTQ_TIMEOUT`. */
  const LIMIT := 64
  const TIMEOUT := 30.0

  /** A buffered packet with the expiry time and destination of its headers. */
  datatype Item<P> = Item(pkt: P, ts: real, dst: int)

  // ---------------------------------------------------------------- operations

  function RemoveAt<P>(items: seq<Item<P>>, k: nat): seq<Item<P>>
    requires k < |items|
  {
    items[..k] + items[k + 1..]
  }

  /** Index of the first aged item, or the length when there is none. */
  function FirstAged<P>(items: seq<Item<P>>, now: real): (k: nat)
    ensures k <= |items|
    ensures k < |items| ==> items[k].ts < now
    ensures forall i | 0 <= i < k :: items[i].ts >= now
  {
    FirstIndex(items, (it: Item<P>) => it.ts < now)
  }

  /** Index of the first item for `dst`, or the length when there is none. */
  function FirstFor<P>(items: seq<Item<P>>, dst: int): (k: nat)
    ensures k <= |items|
    ensures k < |items| ==> items[k].dst == dst
    ensures forall i | 0 <= i < k :: items[i].dst != dst
  {
    FirstIndex(items, (it: Item<P>) => it.dst == dst)
  }

  /** What is left after dropping everything that has aged, wherever it stands. */
  function Purge<P>(items: seq<Item<P>>, now: real): (r: seq<Item<P>>)
    ensures |r| <= |items|
  {
    if items == [] then []
    else if items[0].ts < now then Purge(items[1..], now)
    else [items[0]] + Purge(items[1..], now)
  }

  /** The commented-out version: drop from the head while the head has aged. */
  function PurgeHead<P>(items: seq<Item<P>>, now: real): seq<Item<P>> {
    if items != [] && items[0].ts < now then PurgeHead(items[1..], now) else items
  }

  /** After a purge, the packet to drop for lack of room, if any. */
  function Overflow<P>(items: seq<Item<P>>): seq<Item<P>> {
    if |items| == LIMIT then items[..1] else []
  }

  function Enque<P>(items: seq<Item<P>>, p: P, dst: int, now: real): seq<Item<P>> {
    var kept := Purge(items, now);
    kept[|Overflow(kept)|..] + [Item(p, now + TIMEOUT, dst)]
  }

  function Deque<P>(items: seq<Item<P>>, now: real): (seq<Item<P>>, Option<Item<P>>) {
    var kept := Purge(items, now);
    if kept == [] then (kept, None) else (kept[1..], Some(kept[0]))
  }

  function DequeFor<P>(items: seq<Item<P>>, dst: int, now: real): (seq<Item<P>>, Option<Item<P>>) {
    var kept := Purge(items, now);
    var k := FirstFor(kept, dst);
    if k == |kept| then (kept, None) else (RemoveAt(kept, k), Some(kept[k]))
  }

  // ---------------------------------------------------------------- facts about purging

  ghost predicate NoneAged<P>(items: seq<Item<P>>, now: real) {
    forall i | 0 <= i < |items| :: items[i].ts >= now
  }

  lemma {:induction false} PurgeConcat<P>(a: seq<Item<P>>, b: seq<Item<P>>, now: real)
    ensures Purge(a + b, now) == Purge(a, now) + Purge(b, now)
    decreases |a|
  {
    if a == [] {
      assert a + b == b;
    } else {
      var rest := a[1..];
      PurgeConcat(rest, b, now);
      assert (a + b)[1..] == rest + b && (a + b)[0] == a[0];
      if a[0].ts >= now {
        assert [a[0]] + (Purge(rest, now) + Purge(b, now)) == ([a[0]] + Purge(rest, now)) + Purge(b, now);
      }
    }
  }

  /** One round of the purge loop, which unlinks an aged item, leaves the final result the same. */
  lemma PurgeSkips<P>(items: seq<Item<P>>, k: nat, now: real)
    requires k < |items| && items[k].ts < now
    ensures Purge(RemoveAt(items, k), now) == Purge(items, now)
  {
    assert items == items[..k] + ([items[k]] + items[k + 1..]);
    PurgeConcat(items[..k], items[k + 1..], now);
    PurgeConcat(items[..k], [items[k]] + items[k + 1..], now);
  }

  lemma {:induction false} PurgeDone<P>(items: seq<Item<P>>, now: real)
    requires NoneAged(items, now)
    ensures Purge(items, now) == items
  {
    if items != [] {
      assert items[0].ts >= now;
      assert NoneAged(items[1..], now) by {
        forall i | 0 <= i < |items[1..]| ensures items[1..][i].ts >= now {
          assert items[1..][i] == items[i + 1];
        }
      }
      PurgeDone(items[1..], now);
    }
  }

  ghost predicate Sorted<P>(items: seq<Item<P>>) {
    forall i, j | 0 <= i < j < |items| :: items[i].ts <= items[j].ts
  }

  /** On a list sorted by expiry the slow purge and the head-only purge agree. */
  lemma {:induction false} PurgeIsPurgeHead<P>(items: seq<Item<P>>, now: real)
    requires Sorted(items)
    ensures Purge(items, now) == PurgeHead(items, now)
  {
    if items != [] {
      if items[0].ts < now {
        PurgeIsPurgeHead(items[1..], now);
      } else {
        PurgeDone(items, now);
      }
    }
  }

  /** On any other list they differ for some clock: sortedness is exactly what the fast form needs. */
  lemma FastPurgeNeedsSorted<P>(items: seq<Item<P>>)
    ensures Sorted(items) <==> forall now: real :: Purge(items, now) == PurgeHead(items, now)
  {
    forall now: real | Sorted(items) ensures Purge(items, now) == PurgeHead(items, now) {
      PurgeIsPurgeHead(items, now);
    }
    if !Sorted(items) {
      var i, j :| 0 <= i < j < |items| && items[i].ts > items[j].ts;
      var now := items[i].ts;
      PurgeKeepsOnly(items, now);
      PurgeHeadKeeps(items, now, i, j);
    }
  }

  lemma {:induction false} PurgeKeepsOnly<P>(items: seq<Item<P>>, now: real)
    ensures NoneAged(Purge(items, now), now)
  {
    if items != [] {
      PurgeKeepsOnly(items[1..], now);
    }
  }

  lemma {:induction false} PurgeHeadKeeps<P>(items: seq<Item<P>>, now: real, i: nat, j: nat)
    requires i < j < |items| && items[j].ts < now <= items[i].ts
    ensures !NoneAged(PurgeHead(items, now), now)
  {
    if items[0].ts < now {
      PurgeHeadKeeps(items[1..], now, i - 1, j - 1);
    } else {
      assert items[j].ts < now;
    }
  }

  // ---------------------------------------------------------------- runs

  datatype Event<P> =
    | EnqueAt(at: real, pkt: P, to: int)
    | DequeAt(at: real)
    | DequeForAt(at: real, to: int)

  /** The buffer, the clock, and where every packet that ever entered has gone. */
  datatype World<P(==)> = World(
    items: seq<Item<P>>, clock: real,
    entered: multiset<Item<P>>, returned: multiset<Item<P>>, dropped: multiset<Item<P>>, aged: multiset<Item<P>>)

  function Start<P(==)>(): World<P> {
    World([], 0.0, multiset{}, multiset{}, multiset{}, multiset{})
  }

  /** The items that a purge takes out. */
  function Aged<P>(items: seq<Item<P>>, now: real): seq<Item<P>> {
    if items == [] then []
    else if items[0].ts < now then [items[0]] + Aged(items[1..], now)
    else Aged(items[1..], now)
  }

  function Taken<P(==)>(r: Option<Item<P>>): multiset<Item<P>> {
    if r.Some? then multiset{r.value} else multiset{}
  }

  /** The clock never goes back: events from the past change nothing. */
  function Step<P(==)>(w: World<P>, e: Event<P>): World<P> {
    if e.at < w.clock then w
    else
      var aged := w.aged + multiset(Aged(w.items, e.at));
      match e
      case EnqueAt(at, p, to) =>
        World(Enque(w.items, p, to, at), at, w.entered + multiset{Item(p, at + TIMEOUT, to)}, w.returned,
              w.dropped + multiset(Overflow(Purge(w.items, at))), aged)
      case DequeAt(at) =>
        var (items, r) := Deque(w.items, at);
        World(items, at, w.entered, w.returned + Taken(r), w.dropped, aged)
      case DequeForAt(at, to) =>
        var (items, r) := DequeFor(w.items, to, at);
        World(items, at, w.entered, w.returned + Taken(r), w.dropped, aged)
  }

  function Run<P(==)>(es: seq<Event<P>>): World<P> {
    if es == [] then Start() else Step(Run(es[..|es| - 1]), es[|es| - 1])
  }

  ghost predicate Accounted<P>(w: World<P>) {
    w.entered == multiset(w.items) + w.returned + w.dropped + w.aged
  }

  /** The list is sorted, within its limit, and nothing expires later than a packet entered now. */
  ghost predicate ListOk<P>(items: seq<Item<P>>, now: real) {
    && Sorted(items)
    && |items| <= LIMIT
    && forall i | 0 <= i < |items| :: items[i].ts <= now + TIMEOUT
  }

  ghost predicate Inv<P>(w: World<P>) {
    ListOk(w.items, w.clock) && Accounted(w)
  }

  lemma {:induction false} PurgeSplits<P>(items: seq<Item<P>>, now: real)
    ensures multiset(items) == multiset(Purge(items, now)) + multiset(Aged(items, now))
  {
    if items != [] {
      PurgeSplits(items[1..], now);
      assert items == [items[0]] + items[1..];
    }
  }

  /** On a sorted list a purge leaves a suffix. */
  lemma {:induction false} PurgeIsSuffix<P>(items: seq<Item<P>>, now: real)
    requires Sorted(items)
    ensures exists k | 0 <= k <= |items| :: Purge(items, now) == items[k..]
  {
    if items == [] || items[0].ts >= now {
      PurgeIsPurgeHead(items, now);
      assert Purge(items, now) == items[0..];
    } else {
      PurgeIsSuffix(items[1..], now);
      var k :| 0 <= k <= |items[1..]| && Purge(items[1..], now) == items[1..][k..];
      assert Purge(items, now) == items[k + 1..];
    }
  }

  lemma Removed<P>(items: seq<Item<P>>, k: nat)
    requires k < |items|
    ensures multiset(items) == multiset(RemoveAt(items, k)) + multiset{items[k]}
  {
    assert items == items[..k] + [items[k]] + items[k + 1..];
  }

  /** What a purge leaves is as well-formed as what it started from. */
  lemma PurgedOk<P>(items: seq<Item<P>>, clock: real, now: real)
    requires ListOk(items, clock) && now >= clock
    ensures ListOk(Purge(items, now), now)
  {
    PurgeIsSuffix(items, now);
  }

  lemma EnqueOk<P>(items: seq<Item<P>>, clock: real, now: real, p: P, dst: int)
    requires ListOk(items, clock) && now >= clock
    ensures ListOk(Enque(items, p, dst, now), now)
  {
    PurgedOk(items, clock, now);
  }

  lemma DequeOk<P>(items: seq<Item<P>>, clock: real, now: real, dst: int)
    requires ListOk(items, clock) && now >= clock
    ensures ListOk(Deque(items, now).0, now) && ListOk(DequeFor(items, dst, now).0, now)
  {
    PurgedOk(items, clock, now);
    var kept := Purge(items, now);
    var k := FirstFor(kept, dst);
    if k < |kept| {
      RemoveOrder(kept, k, now + TIMEOUT);
    }
  }

  lemma RemoveOrder<P>(kept: seq<Item<P>>, k: nat, top: real)
    requires Sorted(kept) && k < |kept| && forall i | 0 <= i < |kept| :: kept[i].ts <= top
    ensures Sorted(RemoveAt(kept, k)) && |RemoveAt(kept, k)| == |kept| - 1
    ensures forall i | 0 <= i < |RemoveAt(kept, k)| :: RemoveAt(kept, k)[i].ts <= top
  {
    var r := RemoveAt(kept, k);
    forall i | 0 <= i < |r| ensures r[i] == kept[if i < k then i else i + 1] {
    }
  }

  lemma EnqueAccount<P>(items: seq<Item<P>>, now: real, p: P, dst: int)
    ensures multiset(items) + multiset{Item(p, now + TIMEOUT, dst)}
         == multiset(Enque(items, p, dst, now)) + multiset(Overflow(Purge(items, now))) + multiset(Aged(items, now))
  {
    PurgeSplits(items, now);
    var kept := Purge(items, now);
    var n := |Overflow(kept)|;
    assert kept == Overflow(kept) + kept[n..];
  }

  lemma DequeAccount<P>(items: seq<Item<P>>, now: real)
    ensures multiset(items) == multiset(Deque(items, now).0) + Taken(Deque(items, now).1) + multiset(Aged(items, now))
  {
    PurgeSplits(items, now);
    var kept := Purge(items, now);
    if kept != [] {
      assert kept == [kept[0]] + kept[1..];
    }
  }

  lemma DequeForAccount<P>(items: seq<Item<P>>, now: real, dst: int)
    ensures multiset(items)
         == multiset(DequeFor(items, dst, now).0) + Taken(DequeFor(items, dst, now).1) + multiset(Aged(items, now))
  {
    PurgeSplits(items, now);
    var kept := Purge(items, now);
    var k := FirstFor(kept, dst);
    if k < |kept| {
      Removed(kept, k);
    }
  }

  /** What leaves the list is added to the other accounts. */
  lemma BalanceIn<P>(w: World<P>, w': World<P>, incoming: multiset<Item<P>>, over: multiset<Item<P>>,
                     expired: multiset<Item<P>>)
    requires Accounted(w)
    requires multiset(w.items) + incoming == multiset(w'.items) + over + expired
    requires w'.entered == w.entered + incoming && w'.returned == w.returned
    requires w'.dropped == w.dropped + over && w'.aged == w.aged + expired
    ensures Accounted(w')
  {
    var before, after := multiset(w.items), multiset(w'.items);
    forall x ensures w'.entered[x] == (after + w'.returned + w'.dropped + w'.aged)[x] {
      assert (before + incoming)[x] == (after + over + expired)[x];
    }
  }

  lemma BalanceOut<P>(w: World<P>, w': World<P>, out: multiset<Item<P>>, expired: multiset<Item<P>>)
    requires Accounted(w)
    requires multiset(w.items) == multiset(w'.items) + out + expired
    requires w'.entered == w.entered && w'.returned == w.returned + out
    requires w'.dropped == w.dropped && w'.aged == w.aged + expired
    ensures Accounted(w')
  {
    var before, after := multiset(w.items), multiset(w'.items);
    forall x ensures w'.entered[x] == (after + w'.returned + w'.dropped + w'.aged)[x] {
      assert before[x] == (after + out + expired)[x];
    }
  }

  lemma EnqueAccounted<P>(w: World<P>, at: real, p: P, to: int)
    requires Accounted(w) && at >= w.clock
    ensures Accounted(Step(w, EnqueAt(at, p, to)))
  {
    EnqueAccount(w.items, at, p, to);
    BalanceIn(w, Step(w, EnqueAt(at, p, to)), multiset{Item(p, at + TIMEOUT, to)},
              multiset(Overflow(Purge(w.items, at))), multiset(Aged(w.items, at)));
  }

  lemma DequeAccounted<P>(w: World<P>, at: real)
    requires Accounted(w) && at >= w.clock
    ensures Accounted(Step(w, DequeAt(at)))
  {
    DequeAccount(w.items, at);
    BalanceOut(w, Step(w, DequeAt(at)), Taken(Deque(w.items, at).1), multiset(Aged(w.items, at)));
  }

  lemma DequeForAccounted<P>(w: World<P>, at: real, to: int)
    requires Accounted(w) && at >= w.clock
    ensures Accounted(Step(w, DequeForAt(at, to)))
  {
    DequeForAccount(w.items, at, to);
    BalanceOut(w, Step(w, DequeForAt(at, to)), Taken(DequeFor(w.items, to, at).1), multiset(Aged(w.items, at)));
  }

  lemma {:induction false} InvAlways<P>(es: seq<Event<P>>)
    ensures Inv(Run(es))
  {
    if es != [] {
      InvAlways(es[..|es| - 1]);
      if es[|es| - 1].at >= Run(es[..|es| - 1]).clock {
        var w, e := Run(es[..|es| - 1]), es[|es| - 1];
        match e
        case EnqueAt(at, p, to) =>
          EnqueOk(w.items, w.clock, at, p, to);
          EnqueAccounted(w, at, p, to);
        case DequeAt(at) =>
          DequeOk(w.items, w.clock, at, 0);
          DequeAccounted(w, at);
        case DequeForAt(at, to) =>
          DequeOk(w.items, w.clock, at, to);
          DequeForAccounted(w, at, to);
      }
    }
  }

  // ---------------------------------------------------------------- results

  /** In every run the list stays sorted by expiry, so the two purges agree at any later time. */
  lemma SlowPurgeIsFast<P>(es: seq<Event<P>>, now: real)
    ensures Purge(Run(es).items, now) == PurgeHead(Run(es).items, now)
  {
    InvAlways(es);
    PurgeIsPurgeHead(Run(es).items, now);
  }

  /** Every packet that entered is still queued, was returned, was dropped for lack of room, or
      has aged out, counted exactly once; and the buffer never exceeds its limit. */
  lemma EveryPacketAccounted<P>(es: seq<Event<P>>)
    ensures
      var w := Run(es);
      w.entered == multiset(w.items) + w.returned + w.dropped + w.aged && |w.items| <= LIMIT
  {
    InvAlways(es);
  }

  lemma RunAppend<P>(es: seq<Event<P>>, e: Event<P>)
    ensures Run(es + [e]) == Step(Run(es), e)
  {
    assert (es + [e])[..|es|] == es;
  }

  /** The unexpired items are those that were queued and have not aged. */
  lemma {:induction false} PurgeKeeps<P>(items: seq<Item<P>>, now: real)
    ensures forall x :: x in Purge(items, now) <==> x in items && x.ts >= now
  {
    if items != [] {
      PurgeKeeps(items[1..], now);
      assert items == [items[0]] + items[1..];
    }
  }

  lemma OldestFirst<P>(items: seq<Item<P>>, now: real)
    requires Sorted(items)
    ensures Sorted(Purge(items, now))
    ensures forall x <- Purge(items, now) :: Purge(items, now)[0].ts <= x.ts
  {
    PurgeIsSuffix(items, now);
    var k :| 0 <= k <= |items| && Purge(items, now) == items[k..];
  }

  lemma EnqueItems<P>(items: seq<Item<P>>, p: P, dst: int, now: real)
    requires |Purge(items, now)| <= 64
    ensures
      var live := Purge(items, now);
      && Overflow(live) == (if |live| < 64 then [] else [live[0]])
      && Enque(items, p, dst, now) == (if |live| < 64 then live else live[1..]) + [Item(p, now + 30.0, dst)]
  {
  }

  lemma EnqueDrops<P>(dropped: multiset<Item<P>>, live: seq<Item<P>>)
    requires |live| <= 64 && Overflow(live) == (if |live| < 64 then [] else [live[0]])
    ensures dropped + multiset(Overflow(live)) == dropped + if |live| < 64 then multiset{} else multiset{live[0]}
  {
    if |live| < 64 {
      assert multiset(Overflow(live)) == multiset{};
    }
  }

  /** What entering a packet makes of the world. */
  ghost predicate Entered<P>(w: World<P>, w': World<P>, live: seq<Item<P>>, entered: Item<P>) {
    && w'.returned == w.returned && w'.entered == w.entered + multiset{entered}
    && w'.items == (if |live| < 64 then live else live[1..]) + [entered]
    && w'.dropped == w.dropped + if |live| < 64 then multiset{} else multiset{live[0]}
  }

  lemma StepEntered<P>(w: World<P>, at: real, p: P, to: int)
    requires at >= w.clock && |Purge(w.items, at)| <= 64
    ensures Entered(w, Step(w, EnqueAt(at, p, to)), Purge(w.items, at), Item(p, at + 30.0, to))
  {
    EnqueItems(w.items, p, to, at);
    EnqueDrops(w.dropped, Purge(w.items, at));
  }

  lemma ListAlways<P>(es: seq<Event<P>>)
    ensures Sorted(Run(es).items) && |Run(es).items| <= 64
  {
    InvAlways(es);
  }

  /** Entering a packet in any run: with fewer than 64 unexpired packets nothing is dropped, with 64
      exactly the oldest one is; the packet goes to the end, to expire after 30 seconds. */
  lemma EnqueExactly<P>(es: seq<Event<P>>, at: real, p: P, to: int)
    requires at >= Run(es).clock
    ensures
      var live := Purge(Run(es).items, at);
      && |live| <= 64
      && (forall x <- live :: live[0].ts <= x.ts)
      && Entered(Run(es), Run(es + [EnqueAt(at, p, to)]), live, Item(p, at + 30.0, to))
  {
    ListAlways(es);
    RunAppend(es, EnqueAt(at, p, to));
    OldestFirst(Run(es).items, at);
    StepEntered(Run(es), at, p, to);
  }

  lemma TakeFirst<P>(items: seq<Item<P>>, now: real)
    ensures
      var live, (rest, r) := Purge(items, now), Deque(items, now);
      if live == [] then rest == [] && r == None else live == [live[0]] + rest && r == Some(live[0])
  {
  }

  /** Taking a packet for any destination: the oldest unexpired one, or none. */
  lemma DequeExactly<P>(es: seq<Event<P>>, at: real)
    requires at >= Run(es).clock
    ensures
      var w, w' := Run(es), Run(es + [DequeAt(at)]);
      var live := Purge(w.items, at);
      && w'.dropped == w.dropped && w'.entered == w.entered
      && w'.items == (if live == [] then [] else live[1..])
      && w'.returned == w.returned + if live == [] then multiset{} else multiset{live[0]}
  {
    RunAppend(es, DequeAt(at));
    TakeFirst(Run(es).items, at);
  }

  /** The packets for one destination, in order. */
  function Select<P>(items: seq<Item<P>>, dst: int): seq<Item<P>> {
    if items == [] then []
    else if items[0].dst == dst then [items[0]] + Select(items[1..], dst)
    else Select(items[1..], dst)
  }

  lemma {:induction false} SelectNone<P>(items: seq<Item<P>>, dst: int)
    requires forall i | 0 <= i < |items| :: items[i].dst != dst
    ensures Select(items, dst) == []
  {
    if items != [] {
      SelectNone(items[1..], dst);
    }
  }

  lemma {:induction false} SelectTaken<P>(items: seq<Item<P>>, k: nat, dst: int)
    requires k < |items| && items[k].dst == dst && forall i | 0 <= i < k :: items[i].dst != dst
    ensures Select(items, dst) == [items[k]] + Select(RemoveAt(items, k), dst)
  {
    if k == 0 {
      assert RemoveAt(items, 0) == items[1..];
    } else {
      SelectTaken(items[1..], k - 1, dst);
      assert RemoveAt(items, k)[1..] == RemoveAt(items[1..], k - 1);
    }
  }

  lemma {:induction false} SelectKept<P>(items: seq<Item<P>>, k: nat, other: int)
    requires k < |items| && items[k].dst != other
    ensures Select(RemoveAt(items, k), other) == Select(items, other)
  {
    if k == 0 {
      assert RemoveAt(items, 0) == items[1..];
    } else {
      SelectKept(items[1..], k - 1, other);
      assert RemoveAt(items, k)[1..] == RemoveAt(items[1..], k - 1);
    }
  }

  /** `deque(dst)` is first in first out for its destination and leaves every other destination's
      packets as they were; nothing is returned exactly when nothing unexpired is queued for it. */
  lemma DequeForIsFifo<P>(items: seq<Item<P>>, dst: int, now: real, other: int)
    ensures
      var kept := Purge(items, now);
      var (rest, r) := DequeFor(items, dst, now);
      && (r == None <==> Select(kept, dst) == [])
      && (r.Some? ==> Select(kept, dst) == [r.value] + Select(rest, dst))
      && (other != dst ==> Select(rest, other) == Select(kept, other))
  {
    var kept := Purge(items, now);
    var k := FirstFor(kept, dst);
    if k == |kept| {
      SelectNone(kept, dst);
    } else {
      SelectTaken(kept, k, dst);
      if other != dst {
        SelectKept(kept, k, other);
      }
    }
  }
}
