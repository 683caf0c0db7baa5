/** The channel scan of the 802.11 MAC (mac-802_11.cc) with action SCAN_ALL: each requested
    channel is visited until nobody answered for the minimum time, or the maximum time is over. */
module Scan {
  import opened Basics
  import opened Cycles
  import opened Products

  /** A scan request; the source reads its first channel without looking at their number. */
  datatype Request = Request(channels: seq<int>, minTime: real, maxTime: real) {
    predicate Ok() {
      && channels != []
      && (forall i | 0 <= i < |channels| :: 1 <= channels[i] <= 11)
      && minTime >= 0.0 && maxTime >= 0.0
    }
  }

  /** `BSSDescription`: an access point and the channel it was found on. */
  datatype Bss = Bss(id: int, channel: int)

  /** The station identifier used while not associated. */
  const IBSS_ID := 0xFFFFFFFF

  datatype State = State(
    scanning: bool, req: Request, index: nat, origCh: int, channel: int, bss: int, oldBss: int,
    found: seq<Bss>, recvd: bool, minDue: Option<real>, maxDue: Option<real>, results: seq<seq<Bss>>)

  // ---------------------------------------------------------------- operations

  function SetTimers(s: State, now: real): State {
    s.(minDue := Some(now + s.req.minTime), maxDue := Some(now + s.req.maxTime))
  }

  /** `link_scan`: only one scan at a time. */
  function OnLinkScan(s: State, now: real, req: Request): State
    requires req.Ok()
  {
    if s.scanning then s
    else
      SetTimers(State(true, req, 0, s.channel, req.channels[0], IBSS_ID, s.bss, [], false, None, None, s.results), now)
  }

  /** `nextScan`: the next channel, or back to where the scan started. */
  function NextScan(s: State, now: real): State {
    if s.index + 1 < |s.req.channels| then
      SetTimers(s.(index := s.index + 1, channel := s.req.channels[s.index + 1], recvd := false), now)
    else
      s.(scanning := false, index := s.index + 1, channel := s.origCh, bss := s.oldBss,
         minDue := None, maxDue := None, recvd := false, results := s.results + [s.found])
  }

  function OnMinTimer(s: State, now: real): State {
    if s.recvd then s.(minDue := Some(now + s.req.minTime))
    else NextScan(s.(minDue := None), now)
  }

  function OnMaxTimer(s: State, now: real): State {
    NextScan(s.(maxDue := None), now)
  }

  predicate Known(found: seq<Bss>, src: int) {
    exists i | 0 <= i < |found| :: found[i].id == src
  }

  /** An access point is listed once, in front, with the channel being scanned. */
  function Note(found: seq<Bss>, src: int, channel: int): seq<Bss> {
    if Known(found, src) then found else [Bss(src, channel)] + found
  }

  function OnBeacon(s: State, src: int): State
    requires s.index < |s.req.channels|
  {
    s.(found := Note(s.found, src, s.req.channels[s.index]), recvd := true)
  }

  /** A probe response is noted as an answer even when there is no room for its ACK. */
  function OnProbeResponse(s: State, src: int, busy: bool): State
    requires s.scanning ==> s.index < |s.req.channels|
  {
    if busy || !s.scanning then s.(recvd := true)
    else s.(found := Note(s.found, src, s.req.channels[s.index]), recvd := true)
  }

  class Scanner {
    var scanning: bool
    var req: Request
    var index: nat
    var origCh: int
    var channel: int
    var bss: int
    var oldBss: int
    var found: seq<Bss>
    var recvd: bool
    var minDue: Option<real>
    var maxDue: Option<real>
    ghost var results: seq<seq<Bss>>

    ghost function View(): State
      reads this
    {
      State(scanning, req, index, origCh, channel, bss, oldBss, found, recvd, minDue, maxDue, results)
    }

    constructor (channel: int, bss: int)
      ensures View() == State(false, Request([], 0.0, 0.0), 0, 0, channel, bss, bss, [], false, None, None, [])
    {
      scanning, req, index, origCh := false, Request([], 0.0, 0.0), 0, 0;
      this.channel, this.bss, oldBss := channel, bss, bss;
      found, recvd, minDue, maxDue, results := [], false, None, None, [];
    }

    method CalFreq(channelId: int) returns (freq: real)
      requires 1 <= channelId <= 11
      modifies this`channel
      ensures channel == channelId
      ensures freq == 2412000000.0 + 5000000.0 * (channelId - 1) as real
    {
      channel := channelId;
      var freqs := new real[11](i => 2412000000.0 + 5000000.0 * i as real);
      freq := freqs[channelId - 1];
    }

    /** The timers may still be pending: `clear_tx_rx` cancels them, `resched` sets them. */
    method ArmTimers(now: real)
      modifies this`minDue, this`maxDue
      ensures View() == SetTimers(old(View()), now)
    {
      minDue, maxDue := None, None;
      minDue := Some(now + req.minTime);
      maxDue := Some(now + req.maxTime);
    }

    method LinkScan(now: real, r: Request)
      requires r.Ok()
      modifies this
      ensures View() == OnLinkScan(old(View()), now, r)
    {
      if scanning {
        return;
      }
      req := r;
      index := 0;
      scanning := true;
      found := [];
      origCh := channel;
      recvd := false;
      if origCh != req.channels[0] {
        var f := CalFreq(req.channels[0]);
      }
      oldBss := bss;
      bss := IBSS_ID;
      assert View()
          == State(true, r, 0, old(channel), r.channels[0], IBSS_ID, old(bss), [], false, minDue, maxDue, old(results));
      ArmTimers(now);
    }

    method NextChannel(now: real)
      requires req.Ok() && 1 <= origCh <= 11
      modifies this
      ensures View() == NextScan(old(View()), now)
    {
      index := index + 1;
      if index < |req.channels| {
        var f := CalFreq(req.channels[index]);
        ArmTimers(now);
      } else {
        var f := CalFreq(origCh);
        scanning := false;
        bss := oldBss;
        minDue, maxDue := None, None;
        results := results + [found];
      }
      recvd := false;
    }

    method MinExpire(now: real)
      requires req.Ok() && 1 <= origCh <= 11
      modifies this
      ensures View() == OnMinTimer(old(View()), now)
    {
      if !recvd {
        minDue := None;
        NextChannel(now);
      } else {
        minDue := Some(now + req.minTime);
      }
    }

    method MaxExpire(now: real)
      requires req.Ok() && 1 <= origCh <= 11
      modifies this
      ensures View() == OnMaxTimer(old(View()), now)
    {
      maxDue := None;
      NextChannel(now);
    }

    method NoteBss(src: int)
      requires index < |req.channels|
      modifies this`found
      ensures found == Note(old(found), src, req.channels[index])
    {
      var i := 0;
      while i < |found|
        invariant 0 <= i <= |found|
        invariant forall j | 0 <= j < i :: found[j].id != src
      {
        if found[i].id == src {
          return;
        }
        i := i + 1;
      }
      found := [Bss(src, req.channels[index])] + found;
    }

    method RecvBeacon(src: int)
      requires index < |req.channels|
      modifies this
      ensures View() == OnBeacon(old(View()), src)
    {
      NoteBss(src);
      recvd := true;
    }

    method RecvProbeResponse(src: int, busy: bool)
      requires scanning ==> index < |req.channels|
      modifies this
      ensures View() == OnProbeResponse(old(View()), src, busy)
    {
      recvd := true;
      if busy || !scanning {
        return;
      }
      NoteBss(src);
    }
  }

  // ---------------------------------------------------------------- runs

  /** `Ask` is another scan request, which comes too early. */
  datatype Event =
    | Beacon(at: real, src: int)
    | Probe(at: real, src: int, busy: bool)
    | Ask(at: real, req: Request)
    | MinFires
    | MaxFires

  /** A channel, when it was entered, and whether anybody was heard on it since. */
  datatype Stay = Stay(channel: int, enter: real, answered: bool)

  /** The scan, the clock, the channels tuned to, the stay on the present one and those before it
      with the times at which they ended, and what was heard where. */
  datatype World = World(s: State, clock: real, here: Stay, past: seq<(Stay, real)>, heard: seq<Bss>)

  predicate NotLater(at: real, due: Option<real>) {
    due.Some? ==> at <= due.value
  }

  /** Timers expire on time, at equal times in either order. */
  predicate Enabled(w: World, e: Event) {
    && w.s.scanning
    && match e
       case Beacon(at, src) => w.clock <= at && NotLater(at, w.s.minDue) && NotLater(at, w.s.maxDue) && src != IBSS_ID
       case Probe(at, _, _) => w.clock <= at && NotLater(at, w.s.minDue) && NotLater(at, w.s.maxDue)
       case Ask(at, req) => w.clock <= at && NotLater(at, w.s.minDue) && NotLater(at, w.s.maxDue) && req.Ok()
       case MinFires => w.s.minDue.Some? && NotLater(w.s.minDue.value, w.s.maxDue)
       case MaxFires => w.s.maxDue.Some? && NotLater(w.s.maxDue.value, w.s.minDue)
  }

  /** What an expired timer did to the stay: nothing, or it ended at `now`. */
  function Moved(w: World, s: State, now: real): World {
    if s.scanning && s.index == w.s.index then World(s, now, w.here, w.past, w.heard)
    else World(s, now, Stay(s.channel, now, false), w.past + [(w.here, now)], w.heard)
  }

  function Step(w: World, e: Event): World
    requires w.s.scanning ==> w.s.index < |w.s.req.channels|
  {
    if !Enabled(w, e) then w
    else match e
      case Beacon(at, src) =>
        World(OnBeacon(w.s, src), at, w.here.(answered := true), w.past, w.heard + [Bss(src, w.here.channel)])
      case Probe(at, src, busy) =>
        World(OnProbeResponse(w.s, src, busy), at, w.here.(answered := true), w.past,
              if busy then w.heard else w.heard + [Bss(src, w.here.channel)])
      case Ask(at, req) => w.(s := OnLinkScan(w.s, at, req), clock := at)
      case MinFires => Moved(w, OnMinTimer(w.s, w.s.minDue.value), w.s.minDue.value)
      case MaxFires => Moved(w, OnMaxTimer(w.s, w.s.maxDue.value), w.s.maxDue.value)
  }

  /** A scan started at `from` by an idle station. */
  function Start(idle: State, from: real, req: Request): World
    requires req.Ok()
  {
    World(OnLinkScan(idle, from, req), from, Stay(req.channels[0], from, false), [], [])
  }

  function Run(idle: State, from: real, req: Request, es: seq<Event>): (w: World)
    requires req.Ok() && !idle.scanning
    ensures w.s.req == req && (w.s.scanning ==> w.s.index < |req.channels|)
    decreases es
  {
    if es == [] then Start(idle, from, req)
    else Step(Run(idle, from, req, es[..|es| - 1]), es[|es| - 1])
  }

  // ---------------------------------------------------------------- what was found

  /** The channel on which `src` was first heard. */
  function FirstChannel(heard: seq<Bss>, src: int): Option<int> {
    if heard == [] then None
    else
      var before := FirstChannel(heard[..|heard| - 1], src);
      if before.Some? then before
      else if heard[|heard| - 1].id == src then Some(heard[|heard| - 1].channel)
      else None
  }

  /** Each access point that was heard is listed once, with the channel it was first heard on. */
  ghost predicate FoundOk(found: seq<Bss>, heard: seq<Bss>) {
    && (forall i, j | 0 <= i < j < |found| :: found[i].id != found[j].id)
    && (forall i | 0 <= i < |found| :: FirstChannel(heard, found[i].id) == Some(found[i].channel))
    && (forall src :: FirstChannel(heard, src).Some? ==> Known(found, src))
  }

  lemma FirstChannelAppend(heard: seq<Bss>, b: Bss)
    ensures forall src :: FirstChannel(heard, src).Some? ==> FirstChannel(heard + [b], src) == FirstChannel(heard, src)
    ensures forall src :: src != b.id ==> FirstChannel(heard + [b], src) == FirstChannel(heard, src)
    ensures FirstChannel(heard, b.id) == None ==> FirstChannel(heard + [b], b.id) == Some(b.channel)
  {
    assert (heard + [b])[..|heard|] == heard;
  }

  lemma NoteKnows(found: seq<Bss>, src: int, channel: int)
    ensures forall other :: Known(Note(found, src, channel), other) <==> Known(found, other) || other == src
  {
    var found' := Note(found, src, channel);
    var added := |found'| - |found|;
    assert forall i | 0 <= i < |found| :: found'[i + added] == found[i];
    assert added == 1 ==> found'[0].id == src;
    forall other | Known(found, other) ensures Known(found', other) {
      var i :| 0 <= i < |found| && found[i].id == other;
      assert found'[i + added].id == other;
    }
  }

  lemma NoteOk(found: seq<Bss>, heard: seq<Bss>, src: int, channel: int)
    requires FoundOk(found, heard)
    ensures FoundOk(Note(found, src, channel), heard + [Bss(src, channel)])
  {
    FirstChannelAppend(heard, Bss(src, channel));
    NoteKnows(found, src, channel);
    var found' := Note(found, src, channel);
    if !Known(found, src) {
      assert FirstChannel(heard, src) == None;
      forall i | 0 <= i < |found'|
        ensures FirstChannel(heard + [Bss(src, channel)], found'[i].id) == Some(found'[i].channel)
      {
        assert i > 0 ==> found'[i] == found[i - 1];
      }
    }
  }

  // ---------------------------------------------------------------- invariant

  /** `n` times `t`. */
  function Total(n: nat, t: real): real {
    Mul(n as real, t)
  }

  lemma TotalNext(n: nat, t: real)
    ensures Total(n + 1, t) == Total(n, t) + t
    ensures t >= 0.0 ==> Total(n, t) >= 0.0
    ensures Total(0, t) == 0.0
  {
    assert (n + 1) as real == n as real + 1.0;
  }

  /** Time spent on a channel where nobody answers. */
  function Patience(r: Request): real {
    MinReal(r.minTime, r.maxTime)
  }

  /** A stay lasts for the maximum time if somebody was heard, and for the smaller of the two times
      if not. */
  ghost predicate StayOk(req: Request, s: Stay, leave: real) {
    leave == s.enter + if s.answered then req.maxTime else Patience(req)
  }

  /** The stays so far follow the request, one after the other from `from` on, each for its time. */
  ghost predicate Itinerary(req: Request, past: seq<(Stay, real)>, from: real) {
    && |past| <= |req.channels|
    && (forall i | 0 <= i < |past| ::
          past[i].0.channel == req.channels[i] && StayOk(req, past[i].0, past[i].1))
    && (forall i | 0 <= i < |past| :: past[i].0.enter == LastLeft(past[..i], from))
  }

  /** When the present stay began. */
  function LastLeft(past: seq<(Stay, real)>, from: real): real {
    if past == [] then from else past[|past| - 1].1
  }

  ghost predicate ScanningOk(w: World, from: real) {
    && w.s.index < |w.s.req.channels|
    && w.s.channel == w.here.channel == w.s.req.channels[w.s.index]
    && |w.past| == w.s.index
    && w.here.enter == LastLeft(w.past, from)
    && w.here.answered == w.s.recvd
    && w.s.minDue.Some? && w.s.maxDue == Some(w.here.enter + w.s.req.maxTime)
    && w.here.enter <= w.clock <= w.s.minDue.value && w.clock <= w.s.maxDue.value
    && (!w.here.answered ==> w.s.minDue.value == w.here.enter + w.s.req.minTime)
  }

  ghost predicate DoneOk(w: World, idle: State, from: real) {
    && |w.past| == |w.s.req.channels|
    && w.clock == LastLeft(w.past, from)
    && w.s.channel == idle.channel
    && w.s.bss == idle.bss
    && w.s.results == idle.results + [w.s.found]
  }

  ghost predicate Inv(w: World, from: real, idle: State) {
    && w.s.req.Ok()
    && FoundOk(w.s.found, w.heard)
    && Itinerary(w.s.req, w.past, from)
    && w.s.origCh == idle.channel && w.s.oldBss == idle.bss
    && (w.s.scanning ==> ScanningOk(w, from) && w.s.results == idle.results && w.s.bss == IBSS_ID)
    && (!w.s.scanning ==> DoneOk(w, idle, from))
  }

  /** Leaving a channel at `now`: for the next one, or for good. */
  lemma NextOk(w: World, from: real, idle: State, now: real, minDue: Option<real>, maxDue: Option<real>)
    requires Inv(w, from, idle) && w.s.scanning && w.clock <= now && StayOk(w.s.req, w.here, now)
    ensures Inv(Moved(w, NextScan(w.s.(minDue := minDue, maxDue := maxDue), now), now), from, idle)
  {
    var s := NextScan(w.s.(minDue := minDue, maxDue := maxDue), now);
    var past := w.past + [(w.here, now)];
    ItineraryAppend(w.s.req, w.past, (w.here, now), from);
    assert LastLeft(past, from) == now;
    if w.s.index + 1 < |w.s.req.channels| {
      assert ScanningOk(World(s, now, Stay(s.channel, now, false), past, w.heard), from);
    } else {
      assert DoneOk(World(s, now, Stay(s.channel, now, false), past, w.heard), idle, from);
    }
  }

  lemma ItineraryAppend(req: Request, past: seq<(Stay, real)>, next: (Stay, real), from: real)
    requires Itinerary(req, past, from) && |past| < |req.channels|
    requires next.0.channel == req.channels[|past|] && StayOk(req, next.0, next.1) && next.0.enter == LastLeft(past, from)
    ensures Itinerary(req, past + [next], from)
  {
    forall i | 0 <= i <= |past| ensures (past + [next])[i].0.enter == LastLeft((past + [next])[..i], from) {
      assert (past + [next])[..i] == past[..i];
      assert past[..|past|] == past;
    }
  }

  lemma StepOk(w: World, from: real, idle: State, e: Event)
    requires Inv(w, from, idle) && w.s.scanning && Enabled(w, e)
    ensures Inv(Step(w, e), from, idle)
  {
    match e
    case Beacon(at, src) => NoteOk(w.s.found, w.heard, src, w.s.channel);
    case Probe(at, src, busy) =>
      if !busy {
        NoteOk(w.s.found, w.heard, src, w.s.channel);
      }
    case Ask(_, _) =>
    case MinFires =>
      if !w.s.recvd {
        NextOk(w, from, idle, w.s.minDue.value, None, w.s.maxDue);
      }
    case MaxFires => NextOk(w, from, idle, w.s.maxDue.value, w.s.minDue, None);
  }

  lemma {:induction false} InvAlways(idle: State, from: real, req: Request, es: seq<Event>)
    requires req.Ok() && !idle.scanning
    ensures Inv(Run(idle, from, req, es), from, idle)
    decreases es
  {
    if es != [] {
      var front, e := es[..|es| - 1], es[|es| - 1];
      InvAlways(idle, from, req, front);
      if Enabled(Run(idle, from, req, front), e) {
        StepOk(Run(idle, from, req, front), from, idle, e);
      }
    }
  }

  // ---------------------------------------------------------------- results

  /** A scan visits the requested channels once each, in order, and stays on each for the maximum
      time if anybody is heard there and for the smaller of the two times if not. So it cannot be
      at work later than the maximum time per channel; until then one of its timers can expire.
      When it is over it has restored channel and station and delivered its result once. */
  lemma ScanComplete(idle: State, from: real, req: Request, es: seq<Event>)
    requires req.Ok() && !idle.scanning
    ensures
      var w := Run(idle, from, req, es);
      && Itinerary(req, w.past, from)
      && w.clock <= from + Total(|req.channels|, req.maxTime)
      && (w.s.scanning ==> Enabled(w, MinFires) || Enabled(w, MaxFires))
      && (!w.s.scanning ==>
            && |w.past| == |req.channels|
            && w.clock == LastLeft(w.past, from)
            && (Silent(w.past) ==> w.clock == from + Total(|req.channels|, Patience(req)))
            && w.s.channel == idle.channel
            && w.s.bss == idle.bss
            && w.s.results == idle.results + [w.s.found])
  {
    InvAlways(idle, from, req, es);
    TimeBound(Run(idle, from, req, es), from, idle);
  }

  lemma TimeBound(w: World, from: real, idle: State)
    requires Inv(w, from, idle)
    ensures w.clock <= from + Total(|w.s.req.channels|, w.s.req.maxTime)
    ensures !w.s.scanning && Silent(w.past) ==> w.clock == from + Total(|w.s.req.channels|, Patience(w.s.req))
  {
    ItineraryLength(w.s.req, w.past, from);
    if w.s.scanning {
      TotalNext(w.s.index, w.s.req.maxTime);
      TotalGrows(w.s.index + 1, |w.s.req.channels|, w.s.req.maxTime);
    }
  }

  ghost predicate Silent(past: seq<(Stay, real)>) {
    forall i | 0 <= i < |past| :: !past[i].0.answered
  }

  lemma {:induction false} ItineraryLength(req: Request, past: seq<(Stay, real)>, from: real)
    requires req.Ok() && Itinerary(req, past, from)
    ensures LastLeft(past, from) <= from + Total(|past|, req.maxTime)
    ensures Silent(past) ==> LastLeft(past, from) == from + Total(|past|, Patience(req))
    decreases past
  {
    if past == [] {
      TotalNext(0, req.maxTime);
      TotalNext(0, Patience(req));
    } else {
      var n := |past| - 1;
      assert forall i | 0 <= i < n :: past[..n][..i] == past[..i];
      ItineraryLength(req, past[..n], from);
      TotalNext(n, req.maxTime);
      TotalNext(n, Patience(req));
    }
  }

  /** The present channel was entered when the one before it was left; who is heard on it is what
      keeps the scan there. */
  lemma PresentStay(idle: State, from: real, req: Request, es: seq<Event>)
    requires req.Ok() && !idle.scanning && Run(idle, from, req, es).s.scanning
    ensures
      var w := Run(idle, from, req, es);
      && |w.past| < |req.channels|
      && w.here.channel == req.channels[|w.past|] == w.s.channel
      && w.here.enter == LastLeft(w.past, from)
      && w.s.bss == 0xFFFFFFFF
      && w.clock <= w.here.enter + if w.here.answered then req.maxTime else Patience(req)
  {
    InvAlways(idle, from, req, es);
  }

  /** How many timers have expired in a run. */
  function Expiries(idle: State, from: real, req: Request, es: seq<Event>): nat
    requires req.Ok() && !idle.scanning
    decreases es
  {
    if es == [] then 0
    else
      var front, e := es[..|es| - 1], es[|es| - 1];
      Expiries(idle, from, req, front)
      + if (e.MinFires? || e.MaxFires?) && Enabled(Run(idle, from, req, front), e) then 1 else 0
  }

  /** On its current channel the scan has set the minimum timer again `j` times. */
  ghost predicate Rearmed(s: State, j: nat) {
    && s.minDue.Some? && s.maxDue.Some?
    && s.minDue.value == s.maxDue.value - s.req.maxTime + Total(j + 1, s.req.minTime)
  }

  /** `n` minimum times are longer than the maximum time. */
  ghost predicate Outlasts(req: Request, n: nat) {
    Total(n, req.minTime) > req.maxTime
  }

  ghost predicate CountOk(s: State, count: nat, n: nat, j: nat) {
    if s.scanning then j < n && Rearmed(s, j) && count <= Times(s.index, n) + j
    else count <= Times(|s.req.channels|, n)
  }

  lemma MinCounted(w: World, count: nat, n: nat, j: nat)
    requires w.s.scanning && w.s.index < |w.s.req.channels| && w.s.req.Ok() && Outlasts(w.s.req, n)
    requires w.s.recvd && Enabled(w, MinFires) && CountOk(w.s, count, n, j)
    ensures CountOk(Step(w, MinFires).s, count + 1, n, j + 1)
  {
    TotalNext(j + 1, w.s.req.minTime);
  }

  lemma LeavingCounted(s: State, now: real, count: nat, n: nat, j: nat)
    requires s.scanning && s.index < |s.req.channels| && j < n && count <= Times(s.index, n) + j
    ensures CountOk(NextScan(s, now), count + 1, n, 0)
  {
    TimesStep(s.index, n);
    TotalNext(0, s.req.minTime);
  }

  lemma {:induction false} ExpiriesBounded(idle: State, from: real, req: Request, es: seq<Event>, n: nat) returns (j: nat)
    requires req.Ok() && !idle.scanning && Outlasts(req, n)
    ensures CountOk(Run(idle, from, req, es).s, Expiries(idle, from, req, es), n, j)
    decreases es
  {
    if es == [] {
      j := 0;
      TotalNext(0, req.minTime);
    } else {
      var front, e := es[..|es| - 1], es[|es| - 1];
      j := ExpiriesBounded(idle, from, req, front, n);
      var w, count := Run(idle, from, req, front), Expiries(idle, from, req, front);
      if Enabled(w, e) && (e.MinFires? || e.MaxFires?) {
        if e.MinFires? && w.s.recvd {
          MinCounted(w, count, n, j);
          j := j + 1;
        } else {
          if e.MinFires? {
            LeavingCounted(w.s.(minDue := None), w.s.minDue.value, count, n, j);
          } else {
            LeavingCounted(w.s.(maxDue := None), w.s.maxDue.value, count, n, j);
          }
          j := 0;
        }
      }
    }
  }

  lemma LongEnough(req: Request) returns (n: nat)
    requires req.Ok() && req.minTime > 0.0
    ensures Outlasts(req, n)
  {
    var q := Quotient(req.maxTime, req.minTime);
    MulZero(req.minTime);
    DivLessEq(0.0, q, req.minTime);
    n := q.Floor + 1;
    MulLess(q, n as real, req.minTime);
  }

  /** With a minimum time of zero, an answer heard at once keeps the timer expiring at that instant. */
  function Stalling(from: real, n: nat): (es: seq<Event>)
    ensures |es| == n + 1
  {
    if n == 0 then [Probe(from, 0, true)] else Stalling(from, n - 1) + [MinFires]
  }

  /** The minimum timer is due at once, and somebody has answered. */
  predicate Stalled(w: World) {
    w.s.scanning && w.s.recvd && w.s.minDue == Some(w.clock) && NotLater(w.clock, w.s.maxDue)
  }

  /** Then the expiry of the timer changes nothing at all. */
  lemma StalledStays(w: World)
    requires Stalled(w) && w.s.index < |w.s.req.channels| && w.s.req.minTime == 0.0
    ensures Enabled(w, MinFires) && Step(w, MinFires) == w
  {
  }

  lemma RunAppend(idle: State, from: real, req: Request, es: seq<Event>, e: Event)
    requires req.Ok() && !idle.scanning
    ensures
      var w := Run(idle, from, req, es);
      && Run(idle, from, req, es + [e]) == Step(w, e)
      && Expiries(idle, from, req, es + [e])
         == Expiries(idle, from, req, es) + if (e.MinFires? || e.MaxFires?) && Enabled(w, e) then 1 else 0
  {
    assert (es + [e])[..|es|] == es;
  }

  lemma StalledAtStart(idle: State, from: real, req: Request)
    requires req.Ok() && !idle.scanning && req.minTime == 0.0
    ensures Stalled(Step(Start(idle, from, req), Probe(from, 0, true)))
  {
  }

  lemma {:induction false} Stalls(idle: State, from: real, req: Request, n: nat)
    requires req.Ok() && !idle.scanning && req.minTime == 0.0
    ensures Stalled(Run(idle, from, req, Stalling(from, n))) && Expiries(idle, from, req, Stalling(from, n)) == n
  {
    if n == 0 {
      StalledAtStart(idle, from, req);
      RunAppend(idle, from, req, [], Probe(from, 0, true));
      assert [] + [Probe(from, 0, true)] == Stalling(from, 0);
    } else {
      Stalls(idle, from, req, n - 1);
      RunAppend(idle, from, req, Stalling(from, n - 1), MinFires);
      StalledStays(Run(idle, from, req, Stalling(from, n - 1)));
    }
  }

  ghost predicate EndsWithin(idle: State, from: real, req: Request, bound: nat)
    requires req.Ok() && !idle.scanning
  {
    forall es :: Expiries(idle, from, req, es) >= bound ==> !Run(idle, from, req, es).s.scanning
  }

  /** A scan ends after a bounded number of timer expiries, whatever answers arrive, exactly when
      its minimum time is not zero. */
  lemma ScanEndsExactly(idle: State, from: real, req: Request)
    requires req.Ok() && !idle.scanning
    ensures (exists bound :: EndsWithin(idle, from, req, bound)) <==> req.minTime > 0.0
  {
    if req.minTime > 0.0 {
      var n := LongEnough(req);
      var bound: nat := Times(|req.channels|, n);
      forall es | Expiries(idle, from, req, es) >= bound ensures !Run(idle, from, req, es).s.scanning {
        var j := ExpiriesBounded(idle, from, req, es, n);
        var i := Run(idle, from, req, es).s.index;
        if Run(idle, from, req, es).s.scanning {
          TimesStep(i, n);
          TimesGrows(i + 1, |req.channels|, n);
        }
      }
      assert EndsWithin(idle, from, req, bound);
    } else {
      forall bound: nat ensures !EndsWithin(idle, from, req, bound) {
        Stalls(idle, from, req, bound);
      }
    }
  }

  lemma TotalGrows(n: nat, m: nat, t: real)
    requires n <= m && t >= 0.0
    ensures Total(n, t) <= Total(m, t)
  {
    MulLessEq(n as real, m as real, t);
  }

  /** Each access point that answered is reported once, with the channel it was first heard on. */
  lemma EveryAccessPointReported(idle: State, from: real, req: Request, es: seq<Event>, src: int)
    requires req.Ok() && !idle.scanning
    ensures
      var w := Run(idle, from, req, es);
      && (Known(w.s.found, src) <==> FirstChannel(w.heard, src).Some?)
      && (forall i, j | 0 <= i < j < |w.s.found| :: w.s.found[i].id != w.s.found[j].id)
      && (forall i | 0 <= i < |w.s.found| :: FirstChannel(w.heard, w.s.found[i].id) == Some(w.s.found[i].channel))
  {
    InvAlways(idle, from, req, es);
  }
}
