/** The unicast data exchange of the 802.11 MAC (mac-802_11.cc) as stop-and-wait ARQ: one
    station sends frames shorter than the RTS threshold to any number of stations over a
    medium that may lose any data frame and any ACK. Sequence numbers are unbounded. */
module Arq {
  import opened Basics

  datatype Frame = Frame(dst: nat, payload: int)

  /** A frame with the sequence number it carries in `dh_scontrol`. */
  datatype Tx = Tx(frame: Frame, seqno: nat)

  // ---------------------------------------------------------------- one station, on values

  /** The sending side: `pktTx_`, `sta_seqno_`, `ssrc_`, and whether `tx_state_` is MAC_SEND. */
  datatype Sender = Sender(pktTx: Option<Tx>, nextSeq: nat, ssrc: nat, sending: bool)

  function OnSend(s: Sender, f: Frame): Sender {
    s.(pktTx := Some(Tx(f, s.nextSeq)), nextSeq := s.nextSeq + 1)
  }

  function OnTransmit(s: Sender): Sender {
    s.(sending := true)
  }

  /** The ACK timer expired: `RetransmitDATA`, with the short retry limit. */
  function OnAckTimeout(s: Sender, limit: nat): Sender {
    if s.ssrc + 1 >= limit then Sender(None, s.nextSeq, 0, false)
    else Sender(s.pktTx, s.nextSeq, s.ssrc + 1, false)
  }

  function OnAck(s: Sender): Sender {
    if s.sending then Sender(None, s.nextSeq, 0, false) else s
  }

  /** The receiving side for one peer. `cached` says that the peer is below `cache_node_count_`,
      `last` is its entry of the cache (0 when none), `up` what was passed to the link layer. */
  datatype Receiver = Receiver(cached: bool, last: nat, up: seq<Tx>)

  function OnData(r: Receiver, t: Tx): Receiver {
    if !r.cached then r.(up := r.up + [t])
    else if r.last != 0 && r.last == t.seqno then r
    else Receiver(true, t.seqno, r.up + [t])
  }

  // ---------------------------------------------------------------- one station, as the source writes it

  class Mac {
    const limit: nat
    const cache: array<nat>
    var pktTx: Option<Tx>
    var staSeqno: nat
    var ssrc: nat
    var sending: bool
    var up: map<nat, seq<Tx>>

    ghost function Sending(): Sender
      reads this
    {
      Sender(pktTx, staSeqno, ssrc, sending)
    }

    ghost function Receiving(src: nat): Receiver
      reads this, cache
    {
      Receiver(src < cache.Length, if src < cache.Length then cache[src] else 0, if src in up then up[src] else [])
    }

    constructor (limit: nat, nodes: nat)
      ensures this.limit == limit && cache.Length == nodes && fresh(cache)
      ensures Sending() == Sender(None, 1, 0, false)
      ensures forall src: nat :: Receiving(src) == Receiver(src < nodes, 0, [])
    {
      this.limit := limit;
      cache := new nat[nodes](_ => 0);
      pktTx, staSeqno, ssrc, sending, up := None, 1, 0, false, map[];
    }

    method Send(f: Frame)
      requires pktTx == None
      modifies this
      ensures Sending() == OnSend(old(Sending()), f)
      ensures forall src :: Receiving(src) == old(Receiving(src))
    {
      pktTx := Some(Tx(f, staSeqno));
      staSeqno := staSeqno + 1;
    }

    /** `check_pktTx` on an idle medium; the frame put on the air is returned. */
    method CheckPktTx() returns (t: Option<Tx>)
      modifies this
      ensures t == old(pktTx)
      ensures Sending() == if t.Some? then OnTransmit(old(Sending())) else old(Sending())
      ensures forall src :: Receiving(src) == old(Receiving(src))
    {
      t := pktTx;
      if pktTx.Some? {
        sending := true;
      }
    }

    method SendTimer()
      requires sending && pktTx.Some?
      modifies this
      ensures Sending() == OnAckTimeout(old(Sending()), limit)
      ensures forall src :: Receiving(src) == old(Receiving(src))
    {
      ssrc := ssrc + 1;
      if ssrc >= limit {
        pktTx := None;
        ssrc := 0;
      }
      sending := false;
    }

    method RecvAck()
      modifies this
      ensures Sending() == OnAck(old(Sending()))
      ensures forall src :: Receiving(src) == old(Receiving(src))
    {
      if !sending {
        return;
      }
      ssrc := 0;
      pktTx := None;
      sending := false;
    }

    /** The ACK is sent first, whatever the cache says. */
    method RecvData(src: nat, t: Tx)
      modifies this`up, cache
      ensures Sending() == old(Sending())
      ensures Receiving(src) == OnData(old(Receiving(src)), t)
      ensures forall other | other != src :: Receiving(other) == old(Receiving(other))
    {
      if src < cache.Length {
        if cache[src] != 0 && cache[src] == t.seqno {
          return;
        }
        cache[src] := t.seqno;
      }
      up := up[src := (if src in up then up[src] else []) + [t]];
    }
  }

  // ---------------------------------------------------------------- the medium and the runs

  /** What is on the air in the current exchange. */
  datatype Air = Quiet | Data(t: Tx) | Ack

  /** `frames` are the frames handed down so far (frame number q has sequence number q),
      `airings` the sequence numbers put on the air, `acked` and `given` (up) their fates. */
  datatype World = World(
    s: Sender, receivers: map<nat, Receiver>, air: Air,
    frames: seq<Frame>, airings: seq<nat>, acked: set<nat>, dropped: set<nat>)

  datatype Event = Send(f: Frame) | Transmit | DataArrives | DataLost | AckArrives | AckLost | AckTimeout

  function Start(peers: map<nat, bool>): World {
    World(Sender(None, 1, 0, false), map d | d in peers :: Receiver(peers[d], 0, []), Quiet, [], [], {}, {})
  }

  /** Events that cannot happen now change nothing. The ACK timeout covers the data frame and
      its ACK, so it expires only once neither is on the air. A receiver without room for an
      ACK discards the frame, which is the same as losing it. */
  function Step(limit: nat, w: World, e: Event): World {
    match e
    case Send(f) =>
      if w.s.pktTx == None then w.(s := OnSend(w.s, f), frames := w.frames + [f]) else w
    case Transmit =>
      if w.s.pktTx.Some? && !w.s.sending
      then w.(s := OnTransmit(w.s), air := Data(w.s.pktTx.value), airings := w.airings + [w.s.pktTx.value.seqno])
      else w
    case DataArrives =>
      if w.air.Data? && w.air.t.frame.dst in w.receivers
      then
        var d := w.air.t.frame.dst;
        w.(receivers := w.receivers[d := OnData(w.receivers[d], w.air.t)], air := Ack)
      else w
    case DataLost => if w.air.Data? then w.(air := Quiet) else w
    case AckArrives =>
      if w.air.Ack?
      then w.(s := OnAck(w.s), air := Quiet, acked := w.acked + Current(w.s))
      else w
    case AckLost => if w.air.Ack? then w.(air := Quiet) else w
    case AckTimeout =>
      if w.s.sending && w.air.Quiet?
      then
        var s := OnAckTimeout(w.s, limit);
        w.(s := s, dropped := if s.pktTx == None then w.dropped + Current(w.s) else w.dropped)
      else w
  }

  /** The sequence number of the frame being worked on. */
  function Current(s: Sender): set<nat> {
    if s.pktTx.Some? then {s.pktTx.value.seqno} else {}
  }

  function Run(limit: nat, peers: map<nat, bool>, es: seq<Event>): World {
    if es == [] then Start(peers) else Step(limit, Run(limit, peers, es[..|es| - 1]), es[|es| - 1])
  }

  // ---------------------------------------------------------------- invariant

  function Count(airings: seq<nat>, q: nat): nat {
    if airings == [] then 0
    else Count(airings[..|airings| - 1], q) + if airings[|airings| - 1] == q then 1 else 0
  }

  function Attempts(limit: nat): nat {
    if limit == 0 then 1 else limit
  }

  /** `up` is an in-order selection without repetition of the frames sent to `d`. */
  ghost predicate InOrder(up: seq<Tx>, frames: seq<Frame>, d: nat) {
    && (forall i, j | 0 <= i < j < |up| :: up[i].seqno < up[j].seqno)
    && (forall i | 0 <= i < |up| ::
          1 <= up[i].seqno <= |frames| && up[i].frame == frames[up[i].seqno - 1] && up[i].frame.dst == d)
  }

  /** Frame number `q` was passed up by the station it was sent to. */
  ghost predicate PassedUp(w: World, q: nat) {
    && 1 <= q <= |w.frames|
    && w.frames[q - 1].dst in w.receivers
    && Tx(w.frames[q - 1], q) in w.receivers[w.frames[q - 1].dst].up
  }

  /** A station that keeps a cache entry for the sender. */
  ghost predicate ReceiverOk(w: World, d: nat)
    requires d in w.receivers
  {
    var r := w.receivers[d];
    r.cached ==>
      && InOrder(r.up, w.frames, d)
      && r.last == if r.up == [] then 0 else r.up[|r.up| - 1].seqno
  }

  ghost predicate SenderOk(limit: nat, w: World) {
    && w.s.nextSeq == |w.frames| + 1
    && (w.s.pktTx == None ==> w.s.ssrc == 0 && !w.s.sending)
    && (w.s.pktTx.Some? ==> |w.frames| > 0 && w.s.pktTx.value == Tx(w.frames[|w.frames| - 1], |w.frames|)
                            && w.s.ssrc < Attempts(limit))
    && (w.air.Data? ==> w.s.sending && w.s.pktTx == Some(w.air.t))
    && (w.air.Ack? ==> w.s.sending && PassedUp(w, |w.frames|))
  }

  ghost predicate AiringsOk(limit: nat, w: World) {
    && (forall q <- w.airings :: q <= |w.frames|)
    && (forall q :: Count(w.airings, q) <= Attempts(limit))
    && (w.s.pktTx.Some? ==> Count(w.airings, |w.frames|) == w.s.ssrc + if w.s.sending then 1 else 0)
  }

  ghost predicate FatesOk(limit: nat, w: World) {
    && w.acked !! w.dropped !! Current(w.s)
    && (forall q :: q in w.acked + w.dropped + Current(w.s) <==> 1 <= q <= |w.frames|)
    && (forall q <- w.acked :: PassedUp(w, q))
    && (forall q <- w.dropped :: Count(w.airings, q) == Attempts(limit))
  }

  ghost predicate Inv(limit: nat, w: World) {
    && SenderOk(limit, w)
    && AiringsOk(limit, w)
    && FatesOk(limit, w)
    && (forall d <- w.receivers :: ReceiverOk(w, d))
  }

  lemma {:induction false} CountNone(airings: seq<nat>, q: nat)
    requires q !in airings
    ensures Count(airings, q) == 0
  {
    if airings != [] {
      var n := |airings| - 1;
      assert airings[n] in airings;
      CountNone(airings[..n], q);
    }
  }

  lemma CountAppend(airings: seq<nat>, x: nat)
    ensures forall q :: Count(airings + [x], q) == Count(airings, q) + if x == q then 1 else 0
  {
    assert (airings + [x])[..|airings|] == airings;
  }

  lemma SameReceivers(w: World, w': World)
    requires w'.receivers == w.receivers && w'.frames == w.frames
    ensures forall q :: PassedUp(w', q) == PassedUp(w, q)
    ensures forall d <- w.receivers :: ReceiverOk(w', d) == ReceiverOk(w, d)
  {
  }

  lemma StepSend(limit: nat, w: World, f: Frame)
    requires Inv(limit, w) && w.s.pktTx == None
    ensures Inv(limit, Step(limit, w, Send(f)))
  {
    var w' := Step(limit, w, Send(f));
    CountNone(w.airings, |w'.frames|);
    forall d <- w'.receivers ensures ReceiverOk(w', d) {
      assert ReceiverOk(w, d);
    }
  }

  lemma StepTransmit(limit: nat, w: World)
    requires Inv(limit, w) && w.s.pktTx.Some? && !w.s.sending
    ensures Inv(limit, Step(limit, w, Transmit))
  {
    var w' := Step(limit, w, Transmit);
    CountAppend(w.airings, |w.frames|);
    assert |w.frames| in Current(w.s);
    SameReceivers(w, w');
  }

  /** The receiver takes the newest frame once: a repeat is the last entry of `up`. */
  lemma ReceiverTakes(w: World, d: nat, t: Tx)
    requires d in w.receivers && ReceiverOk(w, d)
    requires |w.frames| > 0 && t == Tx(w.frames[|w.frames| - 1], |w.frames|) && t.frame.dst == d
    ensures
      var r' := OnData(w.receivers[d], t);
      && ReceiverOk(w.(receivers := w.receivers[d := r']), d)
      && r'.cached == w.receivers[d].cached
      && t in r'.up
      && (forall u <- w.receivers[d].up :: u in r'.up)
  {
    var r := w.receivers[d];
    var r' := OnData(r, t);
    if r.cached && r.last == t.seqno {
      assert r.up[|r.up| - 1] == t;
    } else {
      assert r'.up[|r.up|] == t;
      forall i | 0 <= i < |r.up| && r.cached ensures r.up[i].seqno < t.seqno {
        assert r.up[i].seqno <= r.up[|r.up| - 1].seqno;
      }
    }
  }

  lemma FatesKept(limit: nat, w: World, receivers: map<nat, Receiver>)
    requires FatesOk(limit, w)
    requires forall d <- w.receivers :: d in receivers && forall u <- w.receivers[d].up :: u in receivers[d].up
    ensures FatesOk(limit, w.(receivers := receivers))
  {
    forall q <- w.acked ensures PassedUp(w.(receivers := receivers), q) {
      assert PassedUp(w, q);
    }
  }

  /** The data frame has been taken, and its ACK is not yet on the air. */
  function Taken(w: World): World
    requires w.air.Data? && w.air.t.frame.dst in w.receivers
  {
    var d := w.air.t.frame.dst;
    w.(receivers := w.receivers[d := OnData(w.receivers[d], w.air.t)])
  }

  lemma DataTaken(limit: nat, w: World)
    requires Inv(limit, w) && w.air.Data? && w.air.t.frame.dst in w.receivers
    ensures FatesOk(limit, Taken(w)) && PassedUp(Taken(w), |w.frames|)
    ensures forall e <- Taken(w).receivers :: ReceiverOk(Taken(w), e)
  {
    ReceiverTakes(w, w.air.t.frame.dst, w.air.t);
    FatesKept(limit, w, Taken(w).receivers);
    forall e <- Taken(w).receivers ensures ReceiverOk(Taken(w), e) {
      assert e == w.air.t.frame.dst || ReceiverOk(w, e);
    }
  }

  lemma SenderWaits(limit: nat, w: World)
    requires SenderOk(limit, w) && AiringsOk(limit, w) && w.air.Data? && w.air.t.frame.dst in w.receivers
    ensures SenderOk(limit, Taken(w).(air := Quiet)) && AiringsOk(limit, Taken(w)) && w.s.sending
    ensures Step(limit, w, DataArrives) == Taken(w).(air := Ack)
  {
  }

  lemma StepData(limit: nat, w: World)
    requires Inv(limit, w) && w.air.Data? && w.air.t.frame.dst in w.receivers
    ensures Inv(limit, Step(limit, w, DataArrives))
  {
    DataTaken(limit, w);
    SenderWaits(limit, w);
    AckOnAir(limit, Taken(w));
  }

  lemma AckOnAir(limit: nat, w: World)
    requires SenderOk(limit, w.(air := Quiet)) && AiringsOk(limit, w) && FatesOk(limit, w)
    requires forall d <- w.receivers :: ReceiverOk(w, d)
    requires w.s.sending && PassedUp(w, |w.frames|)
    ensures Inv(limit, w.(air := Ack))
  {
    var w' := w.(air := Ack);
    SameReceivers(w, w');
  }

  lemma StepTimeout(limit: nat, w: World)
    requires Inv(limit, w)
    ensures Inv(limit, Step(limit, w, AckTimeout))
  {
    var w' := Step(limit, w, AckTimeout);
    SameReceivers(w, w');
    assert w.acked !! Current(w.s) && w.dropped !! Current(w.s);
    assert w'.acked + w'.dropped + Current(w'.s) == w.acked + w.dropped + Current(w.s);
  }

  lemma StepAck(limit: nat, w: World)
    requires Inv(limit, w) && w.air.Ack?
    ensures Inv(limit, Step(limit, w, AckArrives))
  {
    var w' := Step(limit, w, AckArrives);
    SameReceivers(w, w');
    assert w.acked !! Current(w.s) && w.dropped !! Current(w.s);
    assert w'.acked + w'.dropped + Current(w'.s) == w.acked + w.dropped + Current(w.s);
  }

  lemma StepLoss(limit: nat, w: World, e: Event)
    requires Inv(limit, w) && (e.DataLost? || e.AckLost?)
    ensures Inv(limit, Step(limit, w, e))
  {
    var w' := Step(limit, w, e);
    SameReceivers(w, w');
  }

  /** Whether a station keeps an entry for the sender does not change. */
  ghost predicate CachesOf(w: World, peers: map<nat, bool>) {
    w.receivers.Keys == peers.Keys && forall d <- peers :: w.receivers[d].cached == peers[d]
  }

  lemma {:induction false} InvAlways(limit: nat, peers: map<nat, bool>, es: seq<Event>)
    ensures Inv(limit, Run(limit, peers, es)) && CachesOf(Run(limit, peers, es), peers)
  {
    if es != [] {
      var w, e := Run(limit, peers, es[..|es| - 1]), es[|es| - 1];
      InvAlways(limit, peers, es[..|es| - 1]);
      if Step(limit, w, e) != w {
        match e
        case Send(f) => StepSend(limit, w, f);
        case Transmit => StepTransmit(limit, w);
        case DataArrives => StepData(limit, w);
        case AckTimeout => StepTimeout(limit, w);
        case AckArrives => StepAck(limit, w);
        case _ => StepLoss(limit, w, e);
      }
    }
  }

  // ---------------------------------------------------------------- results

  /** Exactly one entry of `up` has the sequence number of `t`, and it is `t`. */
  ghost predicate Once(up: seq<Tx>, t: Tx) {
    exists i | 0 <= i < |up| :: up[i] == t && forall j | 0 <= j < |up| && j != i :: up[j].seqno != t.seqno
  }

  lemma InOrderOnce(up: seq<Tx>, frames: seq<Frame>, d: nat, t: Tx)
    requires InOrder(up, frames, d) && t in up
    ensures Once(up, t)
  {
    var i :| 0 <= i < |up| && up[i] == t;
    forall j | 0 <= j < |up| && j != i ensures up[j].seqno != t.seqno {
      assert up[if j < i then j else i].seqno < up[if j < i then i else j].seqno;
    }
  }

  /** Frame number `q` was passed up exactly once by the station it was sent to. */
  ghost predicate PassedUpOnce(w: World, q: nat) {
    && 1 <= q <= |w.frames|
    && var f := w.frames[q - 1];
       f.dst in w.receivers && Once(w.receivers[f.dst].up, Tx(f, q))
  }

  ghost predicate InOrderAt(w: World, d: nat) {
    d in w.receivers && InOrder(w.receivers[d].up, w.frames, d)
  }

  /** Safety under any pattern of losses. Every station that keeps a cache entry for the sender
      passes up an in-order selection, without repetition, of the frames sent to it; a frame seen
      acknowledged was passed up, and exactly once by such a station; every frame handed down is
      acknowledged, dropped or still being sent, and only one of these; no frame goes on the air
      more often than the retry limit, and a dropped one exactly as often. */
  lemma ArqSafe(limit: nat, peers: map<nat, bool>, es: seq<Event>)
    ensures
      var w := Run(limit, peers, es);
      && (forall d <- peers :: peers[d] ==> InOrderAt(w, d))
      && w.acked !! w.dropped !! Current(w.s)
      && (forall q :: q in w.acked + w.dropped + Current(w.s) <==> 1 <= q <= |w.frames|)
      && (forall q <- w.acked :: PassedUp(w, q) && (w.receivers[w.frames[q - 1].dst].cached ==> PassedUpOnce(w, q)))
      && (forall q <- w.dropped :: Count(w.airings, q) == Attempts(limit))
      && (forall q :: Count(w.airings, q) <= Attempts(limit))
  {
    InvAlways(limit, peers, es);
    var w := Run(limit, peers, es);
    forall d <- peers | peers[d] ensures InOrderAt(w, d) {
      assert ReceiverOk(w, d);
    }
    forall q <- w.acked ensures PassedUp(w, q) && (w.receivers[w.frames[q - 1].dst].cached ==> PassedUpOnce(w, q)) {
      assert PassedUp(w, q);
      var d := w.frames[q - 1].dst;
      assert ReceiverOk(w, d);
      if w.receivers[d].cached {
        InOrderOnce(w.receivers[d].up, w.frames, d, Tx(w.frames[q - 1], q));
      }
    }
  }

  /** A repeated frame is filtered out exactly when the receiver has a cache entry for the
      sender (and the number is not 0, which the cache uses for "none"). */
  lemma RepeatFiltered(r: Receiver, t: Tx)
    ensures OnData(OnData(r, t), t).up == OnData(r, t).up <==> r.cached && t.seqno != 0
  {
    assert |OnData(r, t).up + [t]| == |OnData(r, t).up| + 1;
  }

  /** The first frame of a run, sent to an uncached station `f.dst`, is heard and its ACK is lost. */
  lemma FirstLoss(limit: nat, peers: map<nat, bool>, f: Frame) returns (lost: seq<Event>)
    requires limit >= 2 && f.dst in peers && !peers[f.dst]
    ensures
      var w := Run(limit, peers, lost);
      && w.s == Sender(Some(Tx(f, 1)), 2, 1, false) && w.air == Quiet
      && f.dst in w.receivers && w.receivers[f.dst] == Receiver(false, 0, [Tx(f, 1)])
  {
    var sent := [] + [Send(f)] + [Transmit];
    RunAppend(limit, peers, [], Send(f));
    RunAppend(limit, peers, [] + [Send(f)], Transmit);
    lost := sent + [DataArrives] + [AckLost] + [AckTimeout];
    RunAppend(limit, peers, sent, DataArrives);
    RunAppend(limit, peers, sent + [DataArrives], AckLost);
    RunAppend(limit, peers, sent + [DataArrives] + [AckLost], AckTimeout);
  }

  /** So a station without an entry for the sender can pass up a frame twice after one lost ACK,
      whatever the other stations are. */
  lemma UncachedRepeats(limit: nat, peers: map<nat, bool>, f: Frame) returns (es: seq<Event>)
    requires limit >= 2 && f.dst in peers && !peers[f.dst]
    ensures
      var w := Run(limit, peers, es);
      f.dst in w.receivers && w.receivers[f.dst].up == [Tx(f, 1), Tx(f, 1)]
  {
    var lost := FirstLoss(limit, peers, f);
    es := lost + [Transmit] + [DataArrives];
    RunAppend(limit, peers, lost, Transmit);
    RunAppend(limit, peers, lost + [Transmit], DataArrives);
  }

  /** Over all runs a station passes up its frames in order and without repetition exactly when it
      keeps a cache entry for the sender, as soon as the retry limit allows a second attempt. */
  lemma InOrderExactlyWhenCached(limit: nat, peers: map<nat, bool>, d: nat)
    requires limit >= 2 && d in peers
    ensures peers[d] <==> forall es :: InOrderAt(Run(limit, peers, es), d)
  {
    if peers[d] {
      forall es ensures InOrderAt(Run(limit, peers, es), d) {
        ArqSafe(limit, peers, es);
      }
    } else {
      var es := UncachedRepeats(limit, peers, Frame(d, 0));
      var up := Run(limit, peers, es).receivers[d].up;
      assert up[0].seqno == up[1].seqno;
      assert !InOrderAt(Run(limit, peers, es), d);
    }
  }

  lemma NewFrameTaken(limit: nat, peers: map<nat, bool>, es: seq<Event>, f: Frame)
    requires f.dst in peers
    ensures
      var w := Run(limit, peers, es);
      var t := Tx(f, |w.frames| + 1);
      f.dst in w.receivers && OnData(w.receivers[f.dst], t).up == w.receivers[f.dst].up + [t]
  {
    InvAlways(limit, peers, es);
    assert ReceiverOk(Run(limit, peers, es), f.dst);
  }

  /** And the exchange works: in any run, with the station free and nothing lost, a frame handed down
      is passed up, in the next place, by the station it is for, and acknowledged. */
  lemma DeliveredWithoutLoss(limit: nat, peers: map<nat, bool>, es: seq<Event>, f: Frame)
    requires f.dst in peers && Run(limit, peers, es).s.pktTx == None && Run(limit, peers, es).air == Quiet
    ensures
      var w, w' := Run(limit, peers, es), Run(limit, peers, es + [Send(f)] + [Transmit] + [DataArrives] + [AckArrives]);
      var q := |w.frames| + 1;
      && w'.frames == w.frames + [f] && w'.airings == w.airings + [q]
      && w'.acked == w.acked + {q} && w'.dropped == w.dropped
      && w'.s.pktTx == None && w'.s.ssrc == 0
      && f.dst in w.receivers && f.dst in w'.receivers
      && w'.receivers == w.receivers[f.dst := w'.receivers[f.dst]]
      && w'.receivers[f.dst].up == w.receivers[f.dst].up + [Tx(f, q)]
  {
    InvAlways(limit, peers, es);
    NewFrameTaken(limit, peers, es, f);
    RunAppend(limit, peers, es, Send(f));
    RunAppend(limit, peers, es + [Send(f)], Transmit);
    RunAppend(limit, peers, es + [Send(f)] + [Transmit], DataArrives);
    RunAppend(limit, peers, es + [Send(f)] + [Transmit] + [DataArrives], AckArrives);
  }

  /** Why the ACK timer has to cover a delayed ACK: were the ACK of a dropped frame to arrive while
      the next frame is on the air, it would end the exchange of that next frame, heard or not. */
  lemma LateAckMistaken(limit: nat, s: Sender, next: Frame)
    requires s.sending && s.pktTx.Some? && s.ssrc + 1 >= limit
    ensures
      var dropped := OnAckTimeout(s, limit);
      var resumed := OnTransmit(OnSend(dropped, next));
      && dropped.pktTx == None
      && resumed.pktTx == Some(Tx(next, s.nextSeq))
      && OnAck(resumed) == dropped.(nextSeq := s.nextSeq + 1)
  {
  }

  lemma RunAppend(limit: nat, peers: map<nat, bool>, es: seq<Event>, e: Event)
    ensures Run(limit, peers, es + [e]) == Step(limit, Run(limit, peers, es), e)
  {
    assert (es + [e])[..|es|] == es;
  }
}
