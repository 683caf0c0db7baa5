/** The neighbor list of the Neighbor Discovery agent (hsntg/nd.h, hsntg/nd.cc): one entry and
    one expiry timer for each prefix a host has heard advertised. */
module NeighborCache {
  import opened Basics

  /** Timer numbers that are not prefixes (`IPv6_TIMER_RA`, `IPv6_TIMER_RS`). */
  const TIMER_RA := -1
  const TIMER_RS := -2

  predicate Reserved(prefix: int) {
    prefix == TIMER_RA || prefix == TIMER_RS
  }

  /** `id` names the entry object, and so its timer. */
  datatype Entry = Entry(id: nat, prefix: int, time: real, lifetime: real)

  datatype Timer = Timer(prefix: int, due: real)

  /** The fields of a router advertisement that a host uses. */
  datatype Advert = Advert(prefix: int, routerLifetime: real, interval: nat)

  datatype Notice = NewPrefix(prefix: int) | PrefixExpired(prefix: int)

  /** What `timeout` does for the two reserved numbers: the periodic advertisement of a router, and
      the next solicitation of a host. */
  datatype Act = Advertise | Solicit

  /** The agent; `crashed` records that the expiry lookup returned NULL, `acts` what else expired
      prefix timers have set off. */
  datatype State = State(
    nlist: seq<Entry>, timers: map<nat, Timer>, nextId: nat, log: seq<Notice>, acts: seq<Act>, crashed: bool)

  const EMPTY := State([], map[], 0, [], [], false)

  // ---------------------------------------------------------------- operations

  function Lookup(nlist: seq<Entry>, prefix: int): (k: nat)
    ensures k <= |nlist|
    ensures k < |nlist| ==> nlist[k].prefix == prefix
    ensures forall i | 0 <= i < k :: nlist[i].prefix != prefix
  {
    FirstIndex(nlist, (e: Entry) => e.prefix == prefix)
  }

  /** Three advertisement intervals, in seconds, or the lifetime in the advertisement. */
  function LifetimeOf(a: Advert, useAdvInterval: bool): real {
    if useAdvInterval then a.interval as real * 0.003 else a.routerLifetime
  }

  function OnAdvert(s: State, now: real, a: Advert, useAdvInterval: bool): State {
    var lifetime := LifetimeOf(a, useAdvInterval);
    var k := Lookup(s.nlist, a.prefix);
    if k < |s.nlist| then
      var e := s.nlist[k].(time := now, lifetime := lifetime);
      s.(nlist := s.nlist[k := e], timers := s.timers[e.id := Timer(e.prefix, now + lifetime)])
    else
      State([Entry(s.nextId, a.prefix, now, lifetime)] + s.nlist,
            s.timers[s.nextId := Timer(a.prefix, now + lifetime)],
            s.nextId + 1, s.log + [NewPrefix(a.prefix)], s.acts, s.crashed)
  }

  /** `timeout(value)`: whatever is not one of the reserved numbers is taken for a prefix. */
  function OnTimeout(s: State, value: int): State {
    if value == TIMER_RA then s.(acts := s.acts + [Advertise])
    else if value == TIMER_RS then s.(acts := s.acts + [Solicit])
    else
      var k := Lookup(s.nlist, value);
      if k < |s.nlist| then
        s.(nlist := s.nlist[..k] + s.nlist[k + 1..], log := s.log + [PrefixExpired(value)])
      else s.(crashed := true)
  }

  /** The timer of entry `id` fires: it is no longer pending, and calls `timeout` with its prefix. */
  function OnTimer(s: State, id: nat): State
    requires id in s.timers
  {
    OnTimeout(s.(timers := s.timers - {id}), s.timers[id].prefix)
  }

  /** The agent as the source writes it. */
  class NDAgent {
    const useAdvInterval: bool
    var nlist: seq<Entry>
    var timers: map<nat, Timer>
    var nextId: nat
    var log: seq<Notice>
    var acts: seq<Act>
    var crashed: bool

    ghost function View(): State
      reads this
    {
      State(nlist, timers, nextId, log, acts, crashed)
    }

    constructor (useAdvInterval: bool)
      ensures this.useAdvInterval == useAdvInterval && View() == EMPTY
    {
      this.useAdvInterval := useAdvInterval;
      nlist, timers, nextId, log, acts, crashed := [], map[], 0, [], [], false;
    }

    method LookupEntry(prefix: int) returns (k: nat)
      ensures k == Lookup(nlist, prefix)
    {
      k := 0;
      while k < |nlist|
        invariant k <= |nlist|
        invariant forall i | 0 <= i < k :: nlist[i].prefix != prefix
      {
        if nlist[k].prefix == prefix {
          return;
        }
        k := k + 1;
      }
    }

    method RecvAds(now: real, a: Advert)
      modifies this
      ensures View() == OnAdvert(old(View()), now, a, useAdvInterval)
    {
      var timerLifetime := a.interval as real * 0.003;
      var lifetime := if useAdvInterval then timerLifetime else a.routerLifetime;
      var k := LookupEntry(a.prefix);
      if k < |nlist| {
        nlist := nlist[k := nlist[k].(time := now, lifetime := lifetime)];
        timers := timers[nlist[k].id := Timer(nlist[k].prefix, now + lifetime)];
      } else {
        nlist := [Entry(nextId, a.prefix, now, lifetime)] + nlist;
        timers := timers[nextId := Timer(a.prefix, now + lifetime)];
        nextId := nextId + 1;
        log := log + [NewPrefix(a.prefix)];
      }
    }

    method Timeout(value: int)
      modifies this
      ensures View() == OnTimeout(old(View()), value)
    {
      if value == TIMER_RA {
        acts := acts + [Advertise];
        return;
      }
      if value == TIMER_RS {
        acts := acts + [Solicit];
        return;
      }
      var k := LookupEntry(value);
      if k == |nlist| {
        crashed := true;
        return;
      }
      nlist := nlist[..k] + nlist[k + 1..];
      log := log + [PrefixExpired(value)];
    }

    method Expire(id: nat)
      requires id in timers
      modifies this
      ensures View() == OnTimer(old(View()), id)
    {
      var prefix := timers[id].prefix;
      timers := timers - {id};
      Timeout(prefix);
    }
  }

  // ---------------------------------------------------------------- runs

  datatype Event = Hear(at: real, a: Advert) | Fire(id: nat)

  /** The agent, the clock, and for each prefix its latest advertisement and when it was heard. */
  datatype World = World(s: State, clock: real, latest: map<int, (real, Advert)>)

  /** Until when an advertisement holds: for its router lifetime, or for three of its intervals, which
      are in milliseconds, where the agent goes by these. */
  function HeldUntil(heard: (real, Advert), useAdv: bool): real {
    if useAdv then heard.0 + 3.0 * (heard.1.interval as real / 1000.0) else heard.0 + heard.1.routerLifetime
  }

  const START := World(EMPTY, 0.0, map[])

  /** Timers fire in order and on time; at equal times either side may go first. */
  ghost predicate Enabled(w: World, e: Event, useAdv: bool) {
    match e
    case Hear(at, a) =>
      && w.clock <= at
      && LifetimeOf(a, useAdv) >= 0.0
      && (forall j <- w.s.timers :: at <= w.s.timers[j].due)
    case Fire(id) =>
      id in w.s.timers && forall j <- w.s.timers :: w.s.timers[id].due <= w.s.timers[j].due
  }

  ghost function Step(w: World, e: Event, useAdv: bool): World {
    if !Enabled(w, e, useAdv) then w
    else match e
      case Hear(at, a) =>
        World(OnAdvert(w.s, at, a, useAdv), at, w.latest[a.prefix := (at, a)])
      case Fire(id) => World(OnTimer(w.s, id), w.s.timers[id].due, w.latest)
  }

  /** Every sequence of events is a run; events the scheduler could not produce are skipped. */
  ghost function Run(es: seq<Event>, useAdv: bool): World {
    if es == [] then START else Step(Run(es[..|es| - 1], useAdv), es[|es| - 1], useAdv)
  }

  // ---------------------------------------------------------------- invariant

  ghost predicate Listed(nlist: seq<Entry>, prefix: int) {
    exists i | 0 <= i < |nlist| :: nlist[i].prefix == prefix
  }

  ghost predicate HasId(nlist: seq<Entry>, id: nat) {
    exists i | 0 <= i < |nlist| :: nlist[i].id == id
  }

  ghost predicate EntryOk(s: State, e: Entry) {
    && e.id < s.nextId
    && (e.id in s.timers || Reserved(e.prefix))
    && (e.id in s.timers ==> s.timers[e.id] == Timer(e.prefix, e.time + e.lifetime))
  }

  /** Each entry has its own timer (a reserved one possibly no longer), each timer its entry, and no
      prefix is listed twice. */
  ghost predicate Paired(s: State) {
    && (forall i, j | 0 <= i < j < |s.nlist| :: s.nlist[i].prefix != s.nlist[j].prefix && s.nlist[i].id != s.nlist[j].id)
    && (forall i | 0 <= i < |s.nlist| :: EntryOk(s, s.nlist[i]))
    && (forall id <- s.timers :: HasId(s.nlist, id))
  }

  ghost predicate Current(useAdv: bool, w: World, e: Entry) {
    && (w.clock <= e.time + e.lifetime || Reserved(e.prefix))
    && e.prefix in w.latest
    && w.latest[e.prefix].0 == e.time
    && HeldUntil(w.latest[e.prefix], useAdv) == e.time + e.lifetime
  }

  ghost predicate Timely(useAdv: bool, w: World) {
    && (forall id <- w.s.timers :: w.clock <= w.s.timers[id].due)
    && (forall i | 0 <= i < |w.s.nlist| :: Current(useAdv, w, w.s.nlist[i]))
    && (forall p <- w.latest :: HeldUntil(w.latest[p], useAdv) > w.clock || Reserved(p) ==> Listed(w.s.nlist, p))
  }

  /** The notices about one prefix: true for NEW, false for EXPIRED. */
  function About(log: seq<Notice>, prefix: int): seq<bool> {
    if log == [] then []
    else
      var n := log[|log| - 1];
      About(log[..|log| - 1], prefix) + if n.prefix == prefix then [n.NewPrefix?] else []
  }

  /** NEW, EXPIRED, NEW, EXPIRED, ... */
  ghost predicate Alternating(notices: seq<bool>) {
    forall i | 0 <= i < |notices| :: notices[i] <==> i % 2 == 0
  }

  ghost predicate NoticesOk(s: State) {
    forall p :: Alternating(About(s.log, p)) && (Listed(s.nlist, p) <==> |About(s.log, p)| % 2 == 1)
  }

  ghost predicate Inv(useAdv: bool, w: World) {
    !w.s.crashed && Paired(w.s) && Timely(useAdv, w) && NoticesOk(w.s)
  }

  lemma AboutAppend(log: seq<Notice>, n: Notice)
    ensures forall p :: About(log + [n], p) == About(log, p) + if n.prefix == p then [n.NewPrefix?] else []
  {
    assert (log + [n])[..|log|] == log;
  }

  lemma UpdateKeeps(nlist: seq<Entry>, k: nat, e: Entry)
    requires k < |nlist| && e.id == nlist[k].id && e.prefix == nlist[k].prefix
    ensures forall id :: HasId(nlist[k := e], id) <==> HasId(nlist, id)
    ensures forall p :: Listed(nlist[k := e], p) <==> Listed(nlist, p)
  {
    var nlist' := nlist[k := e];
    forall id | HasId(nlist, id) ensures HasId(nlist', id) {
      var i :| 0 <= i < |nlist| && nlist[i].id == id;
      assert nlist'[i].id == id;
    }
    forall p | Listed(nlist, p) ensures Listed(nlist', p) {
      var i :| 0 <= i < |nlist| && nlist[i].prefix == p;
      assert nlist'[i].prefix == p;
    }
  }

  lemma PrependAdds(nlist: seq<Entry>, e: Entry)
    ensures forall id :: HasId([e] + nlist, id) <==> HasId(nlist, id) || id == e.id
    ensures forall p :: Listed([e] + nlist, p) <==> Listed(nlist, p) || p == e.prefix
  {
    var nlist' := [e] + nlist;
    assert nlist'[0] == e;
    forall id | HasId(nlist, id) ensures HasId(nlist', id) {
      var i :| 0 <= i < |nlist| && nlist[i].id == id;
      assert nlist'[i + 1].id == id;
    }
    forall p | Listed(nlist, p) ensures Listed(nlist', p) {
      var i :| 0 <= i < |nlist| && nlist[i].prefix == p;
      assert nlist'[i + 1].prefix == p;
    }
  }

  lemma RemoveDrops(nlist: seq<Entry>, k: nat, id: nat, p: int)
    requires k < |nlist|
    ensures HasId(nlist, id) && id != nlist[k].id ==> HasId(nlist[..k] + nlist[k + 1..], id)
    ensures Listed(nlist, p) && p != nlist[k].prefix ==> Listed(nlist[..k] + nlist[k + 1..], p)
    ensures Listed(nlist[..k] + nlist[k + 1..], p) ==> Listed(nlist, p)
  {
    var nlist' := nlist[..k] + nlist[k + 1..];
    if HasId(nlist, id) && id != nlist[k].id {
      var i :| 0 <= i < |nlist| && nlist[i].id == id;
      assert nlist'[if i < k then i else i - 1].id == id;
    }
    if Listed(nlist, p) && p != nlist[k].prefix {
      var i :| 0 <= i < |nlist| && nlist[i].prefix == p;
      assert nlist'[if i < k then i else i - 1].prefix == p;
    }
  }

  function Replaced(s: State, k: nat, e: Entry): State
    requires k < |s.nlist|
  {
    s.(nlist := s.nlist[k := e], timers := s.timers[e.id := Timer(e.prefix, e.time + e.lifetime)])
  }

  lemma ReplacedPaired(s: State, k: nat, e: Entry)
    requires Paired(s) && k < |s.nlist| && e.id == s.nlist[k].id && e.prefix == s.nlist[k].prefix
    ensures Paired(Replaced(s, k, e))
  {
    var s' := Replaced(s, k, e);
    UpdateKeeps(s.nlist, k, e);
    assert EntryOk(s, s.nlist[k]) && HasId(s.nlist, e.id);
    forall i | 0 <= i < |s.nlist| ensures EntryOk(s', s'.nlist[i]) {
      assert EntryOk(s, s.nlist[i]);
      assert i != k ==> s'.nlist[i] == s.nlist[i] && s.nlist[i].id != e.id;
    }
  }

  /** An advertisement for a listed prefix changes one entry and its timer in place. */
  lemma RefreshPaired(s: State, at: real, a: Advert, useAdv: bool)
    requires Paired(s) && Listed(s.nlist, a.prefix)
    ensures Paired(OnAdvert(s, at, a, useAdv))
    ensures forall p :: Listed(OnAdvert(s, at, a, useAdv).nlist, p) <==> Listed(s.nlist, p)
  {
    var k := Lookup(s.nlist, a.prefix);
    var e := s.nlist[k].(time := at, lifetime := LifetimeOf(a, useAdv));
    assert OnAdvert(s, at, a, useAdv) == Replaced(s, k, e);
    UpdateKeeps(s.nlist, k, e);
    ReplacedPaired(s, k, e);
  }

  lemma DiscoverPaired(s: State, at: real, a: Advert, useAdv: bool)
    requires Paired(s) && !Listed(s.nlist, a.prefix)
    ensures Paired(OnAdvert(s, at, a, useAdv))
    ensures forall p :: Listed(OnAdvert(s, at, a, useAdv).nlist, p) <==> Listed(s.nlist, p) || p == a.prefix
  {
    var s' := OnAdvert(s, at, a, useAdv);
    var e := Entry(s.nextId, a.prefix, at, LifetimeOf(a, useAdv));
    assert s'.nlist == [e] + s.nlist;
    PrependAdds(s.nlist, e);
    forall i | 0 <= i < |s'.nlist| ensures EntryOk(s', s'.nlist[i]) {
      assert i > 0 ==> EntryOk(s, s.nlist[i - 1]);
    }
    forall i, j | 0 <= i < j < |s'.nlist|
      ensures s'.nlist[i].prefix != s'.nlist[j].prefix && s'.nlist[i].id != s'.nlist[j].id
    {
      assert EntryOk(s, s.nlist[j - 1]);
    }
  }

  lemma FiredIs(s: State, id: nat, k: nat)
    requires id in s.timers && !Reserved(s.timers[id].prefix) && k < |s.nlist|
    requires k == Lookup(s.nlist, s.timers[id].prefix) && s.nlist[k].id == id
    ensures OnTimer(s, id) == Without(s, k)
  {
  }

  /** The timer that fires belongs to a listed entry, and takes exactly that entry out. */
  lemma FireFinds(s: State, id: nat) returns (k: nat)
    requires Paired(s) && id in s.timers && !Reserved(s.timers[id].prefix)
    ensures k < |s.nlist| && s.nlist[k].id == id && s.timers[id].prefix == s.nlist[k].prefix
    ensures OnTimer(s, id) == Without(s, k)
  {
    assert HasId(s.nlist, id);
    k :| 0 <= k < |s.nlist| && s.nlist[k].id == id;
    assert EntryOk(s, s.nlist[k]);
    assert Lookup(s.nlist, s.nlist[k].prefix) <= k;
    FiredIs(s, id, k);
  }

  function Without(s: State, k: nat): State
    requires k < |s.nlist|
  {
    s.(timers := s.timers - {s.nlist[k].id}, nlist := s.nlist[..k] + s.nlist[k + 1..],
       log := s.log + [PrefixExpired(s.nlist[k].prefix)])
  }

  lemma WithoutPaired(s: State, k: nat)
    requires Paired(s) && k < |s.nlist|
    ensures Paired(Without(s, k))
  {
    var s' := Without(s, k);
    assert forall i | 0 <= i < |s'.nlist| :: s'.nlist[i] == s.nlist[if i < k then i else i + 1];
    forall i | 0 <= i < |s'.nlist| ensures EntryOk(s', s'.nlist[i]) {
      assert EntryOk(s, s.nlist[if i < k then i else i + 1]);
    }
    forall j <- s'.timers ensures HasId(s'.nlist, j) {
      RemoveDrops(s.nlist, k, j, 0);
    }
  }

  lemma WithoutListed(s: State, k: nat)
    requires Paired(s) && k < |s.nlist|
    ensures forall p :: Listed(Without(s, k).nlist, p) <==> Listed(s.nlist, p) && p != s.nlist[k].prefix
  {
    forall p ensures Listed(Without(s, k).nlist, p) <==> Listed(s.nlist, p) && p != s.nlist[k].prefix {
      RemoveDrops(s.nlist, k, 0, p);
      RemovedIsGone(s.nlist, k, p);
    }
  }

  lemma RemovedIsGone(nlist: seq<Entry>, k: nat, p: int)
    requires k < |nlist| && forall i, j | 0 <= i < j < |nlist| :: nlist[i].prefix != nlist[j].prefix
    ensures Listed(nlist[..k] + nlist[k + 1..], p) ==> p != nlist[k].prefix
  {
    var nlist' := nlist[..k] + nlist[k + 1..];
    if Listed(nlist', p) {
      var i :| 0 <= i < |nlist'| && nlist'[i].prefix == p;
      assert nlist'[i] == nlist[if i < k then i else i + 1];
    }
  }

  /** A notice that says what just changed keeps the alternation. */
  lemma NoticeOk(s: State, s': State, n: Notice)
    requires NoticesOk(s) && s'.log == s.log + [n]
    requires Listed(s.nlist, n.prefix) != n.NewPrefix?
    requires forall p :: Listed(s'.nlist, p) <==> if p == n.prefix then n.NewPrefix? else Listed(s.nlist, p)
    ensures NoticesOk(s')
  {
    AboutAppend(s.log, n);
    forall p ensures Alternating(About(s'.log, p)) && (Listed(s'.nlist, p) <==> |About(s'.log, p)| % 2 == 1) {
      assert Alternating(About(s.log, p));
    }
  }

  lemma RefreshOk(w: World, at: real, a: Advert, useAdv: bool)
    requires Inv(useAdv, w) && Enabled(w, Hear(at, a), useAdv) && Listed(w.s.nlist, a.prefix)
    ensures Inv(useAdv, Step(w, Hear(at, a), useAdv))
  {
    RefreshPaired(w.s, at, a, useAdv);
    var w' := Step(w, Hear(at, a), useAdv);
    forall i | 0 <= i < |w.s.nlist| ensures Current(useAdv, w', w'.s.nlist[i]) {
      assert Current(useAdv, w, w.s.nlist[i]) && EntryOk(w.s, w.s.nlist[i]);
    }
  }

  lemma DiscoverOk(w: World, at: real, a: Advert, useAdv: bool)
    requires Inv(useAdv, w) && Enabled(w, Hear(at, a), useAdv) && !Listed(w.s.nlist, a.prefix)
    ensures Inv(useAdv, Step(w, Hear(at, a), useAdv))
  {
    DiscoverPaired(w.s, at, a, useAdv);
    var w' := Step(w, Hear(at, a), useAdv);
    assert w'.s == OnAdvert(w.s, at, a, useAdv);
    NoticeOk(w.s, w'.s, NewPrefix(a.prefix));
    assert w'.s.nlist[0] == Entry(w.s.nextId, a.prefix, at, LifetimeOf(a, useAdv));
    forall i | 0 <= i < |w'.s.nlist| ensures Current(useAdv, w', w'.s.nlist[i]) {
      assert i > 0 ==>
        w'.s.nlist[i] == w.s.nlist[i - 1] && Current(useAdv, w, w.s.nlist[i - 1]) && EntryOk(w.s, w.s.nlist[i - 1]);
    }
  }

  lemma WithoutCurrent(useAdv: bool, w: World, k: nat, now: real)
    requires Paired(w.s) && Timely(useAdv, w) && k < |w.s.nlist|
    requires forall i | 0 <= i < |w.s.nlist| ::
      now <= w.s.nlist[i].time + w.s.nlist[i].lifetime || Reserved(w.s.nlist[i].prefix)
    ensures
      var w' := World(Without(w.s, k), now, w.latest);
      forall i | 0 <= i < |w'.s.nlist| :: Current(useAdv, w', w'.s.nlist[i])
  {
    var w' := World(Without(w.s, k), now, w.latest);
    RemovedAt(w.s.nlist, k);
    forall i | 0 <= i < |w'.s.nlist| ensures Current(useAdv, w', w'.s.nlist[i]) {
      assert Current(useAdv, w, w.s.nlist[if i < k then i else i + 1]);
    }
  }

  lemma RemovedAt(nlist: seq<Entry>, k: nat)
    requires k < |nlist|
    ensures
      var left := nlist[..k] + nlist[k + 1..];
      forall i | 0 <= i < |left| :: left[i] == nlist[if i < k then i else i + 1]
  {
  }

  lemma WithoutTimely(useAdv: bool, w: World, k: nat, now: real)
    requires Paired(w.s) && Timely(useAdv, w) && k < |w.s.nlist| && now == w.s.nlist[k].time + w.s.nlist[k].lifetime
    requires !Reserved(w.s.nlist[k].prefix) && w.clock <= now && forall id <- w.s.timers :: now <= w.s.timers[id].due
    requires forall i | 0 <= i < |w.s.nlist| ::
      now <= w.s.nlist[i].time + w.s.nlist[i].lifetime || Reserved(w.s.nlist[i].prefix)
    ensures Timely(useAdv, World(Without(w.s, k), now, w.latest))
  {
    WithoutCurrent(useAdv, w, k, now);
    WithoutListed(w.s, k);
    assert Current(useAdv, w, w.s.nlist[k]);
    forall p <- w.latest | HeldUntil(w.latest[p], useAdv) > now || Reserved(p)
      ensures Listed(Without(w.s, k).nlist, p)
    {
      assert Listed(w.s.nlist, p) && p != w.s.nlist[k].prefix;
    }
  }

  lemma FireOk(w: World, id: nat, useAdv: bool)
    requires Inv(useAdv, w) && Enabled(w, Fire(id), useAdv) && !Reserved(w.s.timers[id].prefix)
    ensures Inv(useAdv, Step(w, Fire(id), useAdv))
  {
    var k := FireFinds(w.s, id);
    assert EntryOk(w.s, w.s.nlist[k]) && Current(useAdv, w, w.s.nlist[k]);
    DueFirst(w, id, useAdv);
    WithoutTimely(useAdv, w, k, w.s.timers[id].due);
    WithoutPaired(w.s, k);
    WithoutListed(w.s, k);
    NoticeOk(w.s, Without(w.s, k), PrefixExpired(w.s.nlist[k].prefix));
    assert Step(w, Fire(id), useAdv) == World(Without(w.s, k), w.s.timers[id].due, w.latest);
  }

  /** The timer of a reserved number fires: its entry stays. */
  lemma FireReserved(w: World, id: nat, useAdv: bool)
    requires Inv(useAdv, w) && Enabled(w, Fire(id), useAdv) && Reserved(w.s.timers[id].prefix)
    ensures Inv(useAdv, Step(w, Fire(id), useAdv)) && Step(w, Fire(id), useAdv).s.nlist == w.s.nlist
  {
    var w' := Step(w, Fire(id), useAdv);
    DueFirst(w, id, useAdv);
    assert HasId(w.s.nlist, id);
    var k :| 0 <= k < |w.s.nlist| && w.s.nlist[k].id == id;
    assert EntryOk(w.s, w.s.nlist[k]);
    forall i | 0 <= i < |w.s.nlist| ensures EntryOk(w'.s, w.s.nlist[i]) && Current(useAdv, w', w.s.nlist[i]) {
      assert EntryOk(w.s, w.s.nlist[i]) && Current(useAdv, w, w.s.nlist[i]);
    }
    assert Paired(w'.s);
    forall p <- w.latest | HeldUntil(w.latest[p], useAdv) > w'.clock || Reserved(p) ensures Listed(w.s.nlist, p) {
      assert w.clock <= w'.clock;
    }
  }

  /** No entry that can expire is due before the timer that fires. */
  lemma DueFirst(w: World, id: nat, useAdv: bool)
    requires Inv(useAdv, w) && Enabled(w, Fire(id), useAdv)
    ensures forall i | 0 <= i < |w.s.nlist| ::
      w.s.timers[id].due <= w.s.nlist[i].time + w.s.nlist[i].lifetime || Reserved(w.s.nlist[i].prefix)
  {
    forall i | 0 <= i < |w.s.nlist| && !Reserved(w.s.nlist[i].prefix)
      ensures w.s.timers[id].due <= w.s.nlist[i].time + w.s.nlist[i].lifetime
    {
      assert EntryOk(w.s, w.s.nlist[i]);
    }
  }

  lemma {:induction false} InvAlways(es: seq<Event>, useAdv: bool)
    ensures Inv(useAdv, Run(es, useAdv))
  {
    if es != [] {
      var w, e := Run(es[..|es| - 1], useAdv), es[|es| - 1];
      InvAlways(es[..|es| - 1], useAdv);
      if Enabled(w, e, useAdv) {
        match e
        case Fire(id) =>
          if Reserved(w.s.timers[id].prefix) {
            FireReserved(w, id, useAdv);
          } else {
            FireOk(w, id, useAdv);
          }
        case Hear(at, a) =>
          if Listed(w.s.nlist, a.prefix) {
            RefreshOk(w, at, a, useAdv);
          } else {
            DiscoverOk(w, at, a, useAdv);
          }
      }
    }
  }

  // ---------------------------------------------------------------- results

  /** Every expiry that is due has been handled. */
  ghost predicate Settled(w: World) {
    forall id <- w.s.timers :: w.clock < w.s.timers[id].due
  }

  /** The latest advertisement of the prefix still holds: strictly, or up to this instant. */
  ghost predicate Alive(useAdv: bool, w: World, prefix: int) {
    prefix in w.latest && w.clock < HeldUntil(w.latest[prefix], useAdv)
  }

  ghost predicate AliveOrDue(useAdv: bool, w: World, prefix: int) {
    prefix in w.latest && w.clock <= HeldUntil(w.latest[prefix], useAdv)
  }

  /** The cache agrees with what was heard: in every run, a prefix is listed while its latest
      advertisement lasts and, unless it is a reserved number, only then (exactly then once the
      timers due now have fired), no prefix is listed twice, the expiry lookup never fails, and the
      notices about each prefix alternate, starting with NEW, the last one telling whether it is
      listed. */
  lemma CacheAgrees(es: seq<Event>, useAdv: bool, prefix: int)
    ensures
      var w := Run(es, useAdv);
      && !w.s.crashed
      && (Alive(useAdv, w, prefix) ==> Listed(w.s.nlist, prefix))
      && (Listed(w.s.nlist, prefix) && !Reserved(prefix) ==> AliveOrDue(useAdv, w, prefix))
      && (Settled(w) && !Reserved(prefix) ==> (Listed(w.s.nlist, prefix) <==> Alive(useAdv, w, prefix)))
      && (forall i, j | 0 <= i < j < |w.s.nlist| :: w.s.nlist[i].prefix != w.s.nlist[j].prefix)
      && Alternating(About(w.s.log, prefix))
      && (Listed(w.s.nlist, prefix) <==> |About(w.s.log, prefix)| % 2 == 1)
  {
    InvAlways(es, useAdv);
    var w := Run(es, useAdv);
    if Listed(w.s.nlist, prefix) {
      var i :| 0 <= i < |w.s.nlist| && w.s.nlist[i].prefix == prefix;
      assert Current(useAdv, w, w.s.nlist[i]) && EntryOk(w.s, w.s.nlist[i]);
    }
  }

  /** What the expiry of a timer does in any run: its prefix is taken out and reported, and nothing
      else changes; unless it is a reserved number, which stays and sets off its own action. */
  lemma ExpiryExactly(es: seq<Event>, useAdv: bool, id: nat)
    requires Enabled(Run(es, useAdv), Fire(id), useAdv)
    ensures
      var w, w' := Run(es, useAdv), Step(Run(es, useAdv), Fire(id), useAdv);
      var p := w.s.timers[id].prefix;
      if Reserved(p) then
        w'.s.nlist == w.s.nlist && w'.s.log == w.s.log
        && w'.s.acts == w.s.acts + [if p == TIMER_RA then Advertise else Solicit]
      else
        w'.s.log == w.s.log + [PrefixExpired(p)] && w'.s.acts == w.s.acts
        && forall q :: Listed(w'.s.nlist, q) <==> Listed(w.s.nlist, q) && q != p
  {
    InvAlways(es, useAdv);
    var w := Run(es, useAdv);
    if !Reserved(w.s.timers[id].prefix) {
      var k := FireFinds(w.s, id);
      WithoutListed(w.s, k);
    }
  }

  /** A reserved number used as a prefix stays listed from its first advertisement on. */
  lemma ReservedNeverExpires(es: seq<Event>, useAdv: bool, prefix: int)
    requires Reserved(prefix)
    ensures var w := Run(es, useAdv); Listed(w.s.nlist, prefix) <==> prefix in w.latest
  {
    InvAlways(es, useAdv);
    var w := Run(es, useAdv);
    if Listed(w.s.nlist, prefix) {
      var i :| 0 <= i < |w.s.nlist| && w.s.nlist[i].prefix == prefix;
      assert Current(useAdv, w, w.s.nlist[i]);
    }
  }

  lemma HeardOnce(useAdv: bool, a: Advert)
    requires LifetimeOf(a, useAdv) >= 0.0
    ensures
      var due := LifetimeOf(a, useAdv);
      Run([] + [Hear(0.0, a)], useAdv) ==
        World(State([Entry(0, a.prefix, 0.0, due)], map[0 := Timer(a.prefix, 0.0 + due)], 1,
                    [NewPrefix(a.prefix)], [], false),
              0.0, map[a.prefix := (0.0, a)])
  {
    RunAppend([], useAdv, Hear(0.0, a));
  }

  lemma FiredOnce(useAdv: bool, w: World, e: Entry, due: real)
    requires w.s.nlist == [e] && w.s.timers == map[0 := Timer(e.prefix, due)] && Reserved(e.prefix)
    ensures
      var w' := Step(w, Fire(0), useAdv);
      && w'.s.nlist == [e] && w'.s.timers == map[] && w'.clock == due
      && w'.s.log == w.s.log && w'.latest == w.latest
      && w'.s.acts == w.s.acts + [if e.prefix == TIMER_RA then Advertise else Solicit]
  {
    assert Enabled(w, Fire(0), useAdv);
    assert w.s.timers - {0} == map[];
  }

  /** Heard once for three seconds, such a number outlasts its lifetime; instead of an expiry, the
      timer sets off an advertisement or a solicitation. */
  lemma ReservedOutlasts(useAdv: bool, prefix: int) returns (es: seq<Event>)
    requires Reserved(prefix)
    ensures
      var w := Run(es, useAdv);
      && Settled(w) && Listed(w.s.nlist, prefix) && !Alive(useAdv, w, prefix)
      && w.s.log == [NewPrefix(prefix)]
      && w.s.acts == [if prefix == TIMER_RA then Advertise else Solicit]
  {
    var a := Advert(prefix, 3.0, 1000);
    es := [] + [Hear(0.0, a)] + [Fire(0)];
    HeardOnce(useAdv, a);
    RunAppend([] + [Hear(0.0, a)], useAdv, Fire(0));
    FiredOnce(useAdv, Run([] + [Hear(0.0, a)], useAdv), Entry(0, prefix, 0.0, 3.0), 3.0);
    assert Run(es, useAdv).s.nlist[0].prefix == prefix;
  }

  lemma RunAppend(es: seq<Event>, useAdv: bool, e: Event)
    ensures Run(es + [e], useAdv) == Step(Run(es, useAdv), e, useAdv)
  {
    assert (es + [e])[..|es|] == es;
  }

  ghost predicate AgreesOn(es: seq<Event>, useAdv: bool, prefix: int) {
    var w := Run(es, useAdv);
    Settled(w) ==> (Listed(w.s.nlist, prefix) <==> Alive(useAdv, w, prefix))
  }

  /** Over all runs, the list agrees with what was heard about a prefix exactly when the prefix is
      not one of the reserved timer numbers. */
  lemma AgreesExactlyUnlessReserved(useAdv: bool, prefix: int)
    ensures prefix != -1 && prefix != -2 <==> forall es :: AgreesOn(es, useAdv, prefix)
  {
    if Reserved(prefix) {
      var es := ReservedOutlasts(useAdv, prefix);
      assert !AgreesOn(es, useAdv, prefix);
    } else {
      forall es ensures AgreesOn(es, useAdv, prefix) {
        CacheAgrees(es, useAdv, prefix);
      }
    }
  }
}
