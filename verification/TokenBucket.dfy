/** The token bucket shaper of adc/tbf.cc: a packet leaves at once when the bucket holds
    enough tokens, otherwise it waits in a FIFO queue for a single timer whose expiry
    forwards the head packet without looking at the bucket again.

    The class works in seconds, as the source does. The specification measures time in
    credits: the instant t (in seconds) is the credit instant rate * t, so that one bit of
    tokens is earned per unit of time. As the rate is positive this keeps every order and
    every coincidence of instants, and `ConformsInSeconds` brings the result back. */
module TokenBucket {
  import opened Basics

  datatype Config = Config(bucket: real, qlen: int)

  datatype Packet = Packet(id: int, size: nat)

  /** `size() << 3`. */
  function Bits(p: Packet): (bits: real)
    ensures bits >= 0.0 && bits / 8.0 == p.size as real
  {
    (8 * p.size) as real
  }

  /** A packet together with the instant at which it arrived or left. */
  datatype Stamped = Stamped(time: real, pkt: Packet)

  datatype State = State(
    tokens: real, last: real, init: bool, queue: seq<Packet>, due: Option<real>,
    sent: seq<Stamped>, dropped: seq<Packet>, aborted: bool)

  const FRESH := State(0.0, 0.0, true, [], None, [], [], false)

  // ---------------------------------------------------------------- operations

  function Refill(c: Config, s: State, now: real): State {
    s.(tokens := MinReal(c.bucket, s.tokens + (now - s.last)), last := now)
  }

  function Forward(s: State, now: real, p: Packet): State {
    s.(sent := s.sent + [Stamped(now, p)], tokens := s.tokens - Bits(p))
  }

  function Arm(s: State, now: real, p: Packet): State {
    s.(due := Some(now + (Bits(p) - s.tokens)))
  }

  function Initialized(c: Config, s: State, now: real): State {
    if s.init then s.(tokens := c.bucket, last := now, init := false) else s
  }

  function OnRecv(c: Config, s: State, now: real, p: Packet): State {
    var s0 := Initialized(c, s, now);
    if s0.queue != [] then
      if |s0.queue| < c.qlen then s0.(queue := s0.queue + [p]) else s0.(dropped := s0.dropped + [p])
    else
      var s1 := Refill(c, s0, now);
      if s1.tokens >= Bits(p) then Forward(s1, now, p)
      else if c.qlen != 0 then Arm(s1.(queue := [p]), now, p)
      else s1.(dropped := s1.dropped + [p])
  }

  /** The timer has fired, so it is no longer pending unless it is armed again. */
  function OnTimeout(c: Config, s: State, now: real): State {
    if s.queue == [] then s.(aborted := true, due := None)
    else
      var p := s.queue[0];
      var s1 := Forward(Refill(c, s.(queue := s.queue[1..], due := None), now), now, p);
      if s1.queue != [] then Arm(s1, now, s1.queue[0]) else s1
  }

  /** The credit instant of `t` seconds. */
  function Credit(rate: real, t: real): real {
    rate * t
  }

  /** A log of instants in seconds, read in credits. */
  function Scaled(rate: real, log: seq<Stamped>): (r: seq<Stamped>)
    ensures |r| == |log|
  {
    if log == [] then []
    else
      var d := log[|log| - 1];
      Scaled(rate, log[..|log| - 1]) + [Stamped(Credit(rate, d.time), d.pkt)]
  }

  lemma ScaledAppend(rate: real, log: seq<Stamped>, d: Stamped)
    ensures Scaled(rate, log + [d]) == Scaled(rate, log) + [Stamped(Credit(rate, d.time), d.pkt)]
  {
    assert (log + [d])[..|log|] == log;
  }

  /** The shaper as the source writes it: an object updated in place, timed in seconds. */
  class TBF {
    const c: Config
    const rate: real
    var tokens: real
    var last: real
    var init: bool
    var queue: seq<Packet>
    var due: Option<real>
    var sent: seq<Stamped>
    var dropped: seq<Packet>
    var aborted: bool

    ghost function View(): State
      reads this
    {
      State(tokens, Credit(rate, last), init, queue,
            if due.Some? then Some(Credit(rate, due.value)) else None,
            Scaled(rate, sent), dropped, aborted)
    }

    constructor (c: Config, rate: real)
      ensures this.c == c && this.rate == rate && View() == FRESH
    {
      this.c := c;
      this.rate := rate;
      tokens, last, init, queue, due := 0.0, 0.0, true, [], None;
      sent, dropped, aborted := [], [], false;
    }

    method GetUpdatedTokens(now: real) returns (tok: real)
      modifies this`tokens, this`last
      ensures View() == Refill(c, old(View()), Credit(rate, now)) && tok == tokens && last == now
    {
      CreditDiff(rate, last, now);
      tokens := tokens + (now - last) * rate;
      if tokens > c.bucket {
        tokens := c.bucket;
      }
      last := now;
      tok := tokens;
    }

    /** `tbf_timer_.resched((pktsize - tokens_) / rate_)`. */
    method Resched(now: real, p: Packet)
      requires rate > 0.0
      modifies this`due
      ensures View() == Arm(old(View()), Credit(rate, now), p)
    {
      ScheduleAfter(rate, now, Bits(p) - tokens);
      due := Some(now + (Bits(p) - tokens) / rate);
    }

    /** `target_->recv(p)` and the tokens it costs. */
    method Send(now: real, p: Packet)
      modifies this`sent, this`tokens
      ensures View() == Forward(old(View()), Credit(rate, now), p)
    {
      ScaledAppend(rate, sent, Stamped(now, p));
      sent := sent + [Stamped(now, p)];
      tokens := tokens - Bits(p);
    }

    method Recv(now: real, p: Packet)
      requires rate > 0.0
      modifies this
      ensures View() == OnRecv(c, old(View()), Credit(rate, now), p)
    {
      if init {
        tokens := c.bucket;
        last := now;
        init := false;
      }
      if |queue| != 0 {
        if |queue| < c.qlen {
          queue := queue + [p];
          return;
        }
        dropped := dropped + [p];
        return;
      }
      var tok := GetUpdatedTokens(now);
      if tokens >= Bits(p) {
        Send(now, p);
      } else {
        if c.qlen != 0 {
          queue := queue + [p];
          Resched(now, p);
        } else {
          dropped := dropped + [p];
        }
      }
    }

    method Timeout(now: real)
      requires rate > 0.0
      modifies this
      ensures View() == OnTimeout(c, old(View()), Credit(rate, now))
    {
      due := None;
      if |queue| == 0 {
        aborted := true;
        return;
      }
      var p := queue[0];
      queue := queue[1..];
      var tok := GetUpdatedTokens(now);
      Send(now, p);
      if |queue| != 0 {
        Resched(now, queue[0]);
      }
    }
  }

  lemma CreditDiff(rate: real, x: real, y: real)
    ensures Credit(rate, y - x) == Credit(rate, y) - Credit(rate, x)
  {
  }

  lemma ScheduleAfter(rate: real, now: real, gap: real)
    requires rate > 0.0
    ensures Credit(rate, now + gap / rate) == Credit(rate, now) + gap
  {
  }

  // ---------------------------------------------------------------- runs

  /** What the scheduler can do next: deliver a packet, or let the pending timer expire. */
  datatype Event = Arrive(at: real, pkt: Packet) | Fire

  /** The shaper, the clock, and the arrivals accepted so far: those that left, and the rest. */
  datatype World = World(clock: real, s: State, served: seq<Stamped>, waiting: seq<Stamped>)

  const START := World(0.0, FRESH, [], [])

  /** The clock never goes back and never passes a pending timer; equal instants go either way. */
  predicate Enabled(w: World, e: Event) {
    match e
    case Arrive(at, _) => w.clock <= at && (w.s.due.Some? ==> at <= w.s.due.value)
    case Fire => w.s.due.Some?
  }

  function Step(c: Config, w: World, e: Event): World {
    if !Enabled(w, e) then w
    else match e
      case Arrive(at, p) =>
        var s, a := OnRecv(c, w.s, at, p), [Stamped(at, p)];
        if |s.sent| > |w.s.sent| then World(at, s, w.served + a, w.waiting)
        else if |s.queue| > |w.s.queue| then World(at, s, w.served, w.waiting + a)
        else World(at, s, w.served, w.waiting)
      case Fire =>
        var s := OnTimeout(c, w.s, w.s.due.value);
        if w.waiting == [] then World(w.s.due.value, s, w.served, w.waiting)
        else World(w.s.due.value, s, w.served + w.waiting[..1], w.waiting[1..])
  }

  /** Every sequence of events is a run; events the scheduler could not produce are skipped. */
  function Run(c: Config, es: seq<Event>): World {
    if es == [] then START else Step(c, Run(c, es[..|es| - 1]), es[|es| - 1])
  }

  // ---------------------------------------------------------------- timer exactness

  ghost predicate TimerOk(c: Config, w: World) {
    && !w.s.aborted
    && (w.s.due.Some? <==> w.s.queue != [])
    && (w.s.init ==> w.s.queue == [] && w.s.sent == [] && w.served == [])
    && 0.0 <= w.clock
    && (!w.s.init ==> 0.0 <= w.s.last <= w.clock && w.s.tokens <= c.bucket)
    && (w.s.queue != [] ==>
          && !w.s.init
          && w.s.tokens <= Bits(w.s.queue[0])
          && w.s.due == Some(w.s.last + (Bits(w.s.queue[0]) - w.s.tokens))
          && w.clock <= w.s.due.value)
  }

  lemma {:induction false} TimerOkAlways(c: Config, es: seq<Event>)
    requires c.bucket >= 0.0
    ensures TimerOk(c, Run(c, es))
  {
    if es != [] {
      TimerOkAlways(c, es[..|es| - 1]);
    }
  }

  /** Why the expiry need not look at the bucket: in every run the timer is pending exactly
      when packets wait, the error exit is never taken, the timer is never set into the past,
      and when it fires the refilled bucket holds exactly the head packet's bits and is left
      empty, if and only if that packet fits the bucket at all. */
  lemma TimerExact(c: Config, es: seq<Event>)
    requires c.bucket >= 0.0
    ensures
      var w := Run(c, es);
      && !w.s.aborted
      && (w.s.due.Some? <==> w.s.queue != [])
      && (w.s.due.Some? ==>
            && w.clock <= w.s.due.value
            && var bits := Bits(w.s.queue[0]);
               var full := Refill(c, w.s, w.s.due.value).tokens;
               && full <= bits
               && (full == bits <==> bits <= c.bucket)
               && (OnTimeout(c, w.s, w.s.due.value).tokens == 0.0 <==> bits <= c.bucket))
  {
    TimerOkAlways(c, es);
  }

  // ---------------------------------------------------------------- traffic envelope

  /** Bits that left in the closed window from `from` to `to`. */
  function Forwarded(sent: seq<Stamped>, from: real, to: real): (bits: real)
    ensures bits >= 0.0
  {
    if sent == [] then 0.0
    else
      var d := sent[|sent| - 1];
      Forwarded(sent[..|sent| - 1], from, to) + if from <= d.time <= to then Bits(d.pkt) else 0.0
  }

  lemma ForwardedNone(sent: seq<Stamped>, from: real, to: real)
    requires forall d <- sent :: d.time < from
    ensures Forwarded(sent, from, to) == 0.0
  {
  }

  ghost predicate SentWithin(sent: seq<Stamped>, m: real) {
    forall d <- sent :: Bits(d.pkt) <= m
  }

  /** Every packet that reaches the shaper in the run has at most `m` bits. */
  ghost predicate Offered(es: seq<Event>, m: real) {
    forall e <- es :: e.Arrive? ==> Bits(e.pkt) <= m
  }

  /** The balance kept for one window: what left plus what is in the bucket is paid for. */
  ghost predicate EnvelopeOk(c: Config, s: State, m: real, from: real, to: real) {
    && (!s.init ==> c.bucket - m <= s.tokens <= c.bucket)
    && Forwarded(s.sent, from, to) <= m + (to - from)
    && (forall d <- s.sent :: d.time <= s.last)
    && (!s.init && from <= s.last <= to ==>
          Forwarded(s.sent, from, to) + s.tokens <= c.bucket + (s.last - from))
  }

  lemma EnvelopeRefill(c: Config, s: State, m: real, from: real, to: real, now: real)
    requires 0.0 <= c.bucket <= m && from <= to
    requires EnvelopeOk(c, s, m, from, to) && !s.init && s.last <= now
    ensures EnvelopeOk(c, Refill(c, s, now), m, from, to)
  {
    if s.last < from <= now {
      ForwardedNone(s.sent, from, to);
    }
  }

  lemma EnvelopeForward(c: Config, s: State, m: real, from: real, to: real, p: Packet)
    requires 0.0 <= c.bucket <= m && from <= to && Bits(p) <= m
    requires EnvelopeOk(c, s, m, from, to) && !s.init && MinReal(c.bucket, Bits(p)) <= s.tokens
    ensures EnvelopeOk(c, Forward(s, s.last, p), m, from, to)
  {
    var s' := Forward(s, s.last, p);
    assert s'.sent[..|s'.sent| - 1] == s.sent;
  }

  lemma EnvelopeArrive(c: Config, s: State, m: real, from: real, to: real, now: real, p: Packet)
    requires 0.0 <= c.bucket <= m && from <= to
    requires EnvelopeOk(c, s, m, from, to) && (s.init ==> s.sent == []) && (!s.init ==> s.last <= now)
    requires SentWithin(OnRecv(c, s, now, p).sent, m)
    ensures EnvelopeOk(c, OnRecv(c, s, now, p), m, from, to)
  {
    var s0 := Initialized(c, s, now);
    if s0.queue == [] {
      EnvelopeRefill(c, s0, m, from, to, now);
      var s1 := Refill(c, s0, now);
      if s1.tokens >= Bits(p) {
        assert Stamped(now, p) in Forward(s1, now, p).sent;
        EnvelopeForward(c, s1, m, from, to, p);
      }
    }
  }

  lemma EnvelopeFire(c: Config, w: World, m: real, from: real, to: real)
    requires 0.0 <= c.bucket <= m && from <= to && w.s.queue != []
    requires TimerOk(c, w) && EnvelopeOk(c, w.s, m, from, to)
    requires SentWithin(OnTimeout(c, w.s, w.s.due.value).sent, m)
    ensures EnvelopeOk(c, OnTimeout(c, w.s, w.s.due.value), m, from, to)
  {
    var now, p := w.s.due.value, w.s.queue[0];
    var s0 := w.s.(queue := w.s.queue[1..], due := None);
    EnvelopeRefill(c, s0, m, from, to, now);
    var s1 := Refill(c, s0, now);
    assert Stamped(now, p) in Forward(s1, now, p).sent;
    EnvelopeForward(c, s1, m, from, to, p);
  }

  lemma {:induction false} EnvelopeAlways(c: Config, es: seq<Event>, m: real, from: real, to: real)
    requires 0.0 <= c.bucket <= m && from <= to && SentWithin(Run(c, es).s.sent, m)
    ensures EnvelopeOk(c, Run(c, es).s, m, from, to)
    decreases es
  {
    if es != [] {
      var front, e := es[..|es| - 1], es[|es| - 1];
      var w := Run(c, front);
      assert w.s.sent <= Step(c, w, e).s.sent;
      EnvelopeAlways(c, front, m, from, to);
      TimerOkAlways(c, front);
      if Enabled(w, e) {
        match e
        case Arrive(at, p) => EnvelopeArrive(c, w.s, m, from, to, at, p);
        case Fire => EnvelopeFire(c, w, m, from, to);
      }
    }
  }

  /** The traffic envelope, for packets of any size: if `m` bounds the bucket and every
      forwarded packet, no window lets out more than `m` plus the credit earned in it. */
  lemma Envelope(c: Config, es: seq<Event>, m: real, from: real, to: real)
    requires 0.0 <= c.bucket <= m && from <= to && SentWithin(Run(c, es).s.sent, m)
    ensures Forwarded(Run(c, es).s.sent, from, to) <= m + (to - from)
  {
    EnvelopeAlways(c, es, m, from, to);
  }

  /** Conformance to the bucket in every window. */
  ghost predicate Conforms(c: Config, sent: seq<Stamped>) {
    forall from: real, to: real :: from <= to ==> Forwarded(sent, from, to) <= c.bucket + (to - from)
  }

  lemma {:induction false} ForwardedAtLeast(sent: seq<Stamped>, d: Stamped)
    requires d in sent
    ensures Forwarded(sent, d.time, d.time) >= Bits(d.pkt)
  {
    var n := |sent| - 1;
    assert sent == sent[..n] + [sent[n]];
    if sent[n] != d {
      ForwardedAtLeast(sent[..n], d);
    }
  }

  lemma {:induction false} SentWasOffered(c: Config, es: seq<Event>, m: real)
    requires Offered(es, m)
    ensures SentWithin(Run(c, es).s.sent, m)
    ensures forall p <- Run(c, es).s.queue :: Bits(p) <= m
    decreases es
  {
    if es != [] {
      SentWasOffered(c, es[..|es| - 1], m);
    }
  }

  /** The output conforms to the bucket exactly when no forwarded packet is larger than it,
      so it always conforms when no larger packet is offered. */
  lemma ConformsExactly(c: Config, es: seq<Event>)
    requires c.bucket >= 0.0
    ensures Conforms(c, Run(c, es).s.sent) <==> SentWithin(Run(c, es).s.sent, c.bucket)
    ensures Offered(es, c.bucket) ==> Conforms(c, Run(c, es).s.sent)
  {
    var sent := Run(c, es).s.sent;
    if Offered(es, c.bucket) {
      SentWasOffered(c, es, c.bucket);
    }
    if SentWithin(sent, c.bucket) {
      forall from: real, to: real | from <= to
        ensures Forwarded(sent, from, to) <= c.bucket + (to - from)
      {
        Envelope(c, es, c.bucket, from, to);
      }
    }
    if Conforms(c, sent) {
      forall d <- sent ensures Bits(d.pkt) <= c.bucket {
        ForwardedAtLeast(sent, d);
      }
    }
  }

  lemma {:induction false} ForwardedScaled(rate: real, log: seq<Stamped>, from: real, to: real)
    requires rate > 0.0
    ensures Forwarded(Scaled(rate, log), Credit(rate, from), Credit(rate, to)) == Forwarded(log, from, to)
    decreases log
  {
    if log != [] {
      var n := |log| - 1;
      ForwardedScaled(rate, log[..n], from, to);
      assert Scaled(rate, log)[..n] == Scaled(rate, log[..n]);
      ScaleOrder(rate, from, log[n].time);
      ScaleOrder(rate, log[n].time, to);
    }
  }

  lemma ScaleOrder(rate: real, x: real, y: real)
    requires rate > 0.0
    ensures x <= y <==> Credit(rate, x) <= Credit(rate, y)
  {
    if x <= y {
      ScaleMonotone(rate, x, y);
    } else {
      GainPositive(rate, x - y);
    }
  }

  /** The envelope in seconds: whatever the shaper logged as sent in a run, the bits that left
      between the instants `from` and `to` are at most the bucket plus rate times the length. */
  lemma ConformsInSeconds(c: Config, rate: real, es: seq<Event>, log: seq<Stamped>, from: real, to: real)
    requires rate > 0.0 && c.bucket >= 0.0 && from <= to && Offered(es, c.bucket)
    requires Scaled(rate, log) == Run(c, es).s.sent
    ensures Forwarded(log, from, to) <= c.bucket + Credit(rate, to - from)
  {
    ForwardedScaled(rate, log, from, to);
    ScaleOrder(rate, from, to);
    ConformsExactly(c, es);
    CreditDiff(rate, from, to);
  }

  // ---------------------------------------------------------------- earliest departure

  /** An offline token meter: the credit left right after the latest departure, and its instant. */
  datatype Meter = Meter(level: real, since: real)

  function Full(c: Config): Meter {
    Meter(c.bucket, 0.0)
  }

  function Avail(c: Config, m: Meter, at: real): real {
    MinReal(c.bucket, m.level + (at - m.since))
  }

  /** A packet can leave once it has arrived and everything before it has left. */
  function Ready(m: Meter, a: Stamped): real {
    MaxReal(a.time, m.since)
  }

  function DepartAt(c: Config, m: Meter, a: Stamped): real {
    var r := Ready(m, a);
    r + MaxReal(0.0, Bits(a.pkt) - Avail(c, m, r))
  }

  function After(c: Config, m: Meter, a: Stamped): Meter {
    var d := DepartAt(c, m, a);
    Meter(Avail(c, m, d) - Bits(a.pkt), d)
  }

  /** The meter after a list of arrivals has been served in order. */
  function MeterAfter(c: Config, arrivals: seq<Stamped>): Meter {
    if arrivals == [] then Full(c)
    else After(c, MeterAfter(c, arrivals[..|arrivals| - 1]), arrivals[|arrivals| - 1])
  }

  /** Departures of the reference shaper: first in first out, each as early as allowed. */
  function Departures(c: Config, arrivals: seq<Stamped>): (ds: seq<Stamped>)
    ensures |ds| == |arrivals|
  {
    if arrivals == [] then []
    else
      var front, a := arrivals[..|arrivals| - 1], arrivals[|arrivals| - 1];
      Departures(c, front) + [Stamped(DepartAt(c, MeterAfter(c, front), a), a.pkt)]
  }

  /** The reference is the earliest possible: before the departure the credit falls short,
      at the departure a packet that fits the bucket is covered. */
  lemma DepartAtIsEarliest(c: Config, m: Meter, a: Stamped, x: real)
    requires m.level <= c.bucket
    ensures Ready(m, a) <= DepartAt(c, m, a)
    ensures Ready(m, a) <= x < DepartAt(c, m, a) ==> Avail(c, m, x) < Bits(a.pkt)
    ensures Bits(a.pkt) <= c.bucket <==> Avail(c, m, DepartAt(c, m, a)) >= Bits(a.pkt)
  {
  }

  /** The packets of a list of arrivals are those in the queue. */
  ghost predicate Queued(queue: seq<Packet>, waiting: seq<Stamped>) {
    |queue| == |waiting| && forall i | 0 <= i < |queue| :: queue[i] == waiting[i].pkt
  }

  /** The event-driven shaper is where the reference is after the served arrivals. */
  ghost predicate InStep(c: Config, w: World, m: Meter) {
    && m == MeterAfter(c, w.served)
    && w.s.sent == Departures(c, w.served)
    && Queued(w.s.queue, w.waiting)
    && (forall a <- w.waiting :: a.time <= w.clock)
    && (!w.s.init ==> m.since <= w.s.last && w.s.tokens == Avail(c, m, w.s.last))
    && (w.waiting != [] ==> w.s.last == Ready(m, w.waiting[0]))
  }

  lemma Serve(c: Config, served: seq<Stamped>, a: Stamped)
    ensures MeterAfter(c, served + [a]) == After(c, MeterAfter(c, served), a)
    ensures Departures(c, served + [a])
         == Departures(c, served) + [Stamped(DepartAt(c, MeterAfter(c, served), a), a.pkt)]
  {
    assert (served + [a])[..|served|] == served;
  }

  lemma InStepEnqueue(c: Config, w: World, m: Meter, at: real, p: Packet)
    requires TimerOk(c, w) && InStep(c, w, m) && Enabled(w, Arrive(at, p)) && w.s.queue != []
    ensures InStep(c, Step(c, w, Arrive(at, p)), m)
  {
  }

  lemma InStepSend(c: Config, w: World, m: Meter, at: real, p: Packet)
    requires TimerOk(c, w) && InStep(c, w, m) && Enabled(w, Arrive(at, p)) && w.s.queue == []
    requires Refill(c, Initialized(c, w.s, at), at).tokens >= Bits(p)
    ensures InStep(c, Step(c, w, Arrive(at, p)), After(c, m, Stamped(at, p)))
  {
    var s1 := Refill(c, Initialized(c, w.s, at), at);
    Serve(c, w.served, Stamped(at, p));
    assert DepartAt(c, m, Stamped(at, p)) == at && Avail(c, m, at) == s1.tokens;
    assert Step(c, w, Arrive(at, p)) == World(at, Forward(s1, at, p), w.served + [Stamped(at, p)], []);
  }

  lemma InStepWait(c: Config, w: World, m: Meter, at: real, p: Packet)
    requires c.bucket >= 0.0 && TimerOk(c, w) && InStep(c, w, m) && Enabled(w, Arrive(at, p)) && w.s.queue == []
    requires Refill(c, Initialized(c, w.s, at), at).tokens < Bits(p)
    ensures InStep(c, Step(c, w, Arrive(at, p)), m)
  {
    var s1 := Refill(c, Initialized(c, w.s, at), at);
    if c.qlen != 0 {
      assert Step(c, w, Arrive(at, p)) == World(at, Arm(s1.(queue := [p]), at, p), w.served, [Stamped(at, p)]);
    }
  }

  lemma InStepFire(c: Config, w: World, m: Meter) returns (m': Meter)
    requires c.bucket >= 0.0 && TimerOk(c, w) && InStep(c, w, m) && w.s.queue != []
    ensures InStep(c, Step(c, w, Fire), m')
  {
    var a := w.waiting[0];
    Serve(c, w.served, a);
    assert w.waiting[..1] == [a];
    m' := After(c, m, a);
    assert w.s.due == Some(DepartAt(c, m, a));
  }

  lemma {:induction false} InStepAlways(c: Config, es: seq<Event>) returns (m: Meter)
    requires c.bucket >= 0.0
    ensures InStep(c, Run(c, es), m)
  {
    if es == [] {
      m := Full(c);
    } else {
      var front, e := es[..|es| - 1], es[|es| - 1];
      m := InStepAlways(c, front);
      TimerOkAlways(c, front);
      if Enabled(Run(c, front), e) {
        match e
        case Arrive(at, p) =>
          if Run(c, front).s.queue == [] {
            if Refill(c, Initialized(c, Run(c, front).s, at), at).tokens >= Bits(p) {
              InStepSend(c, Run(c, front), m, at, p);
              m := After(c, m, Stamped(at, p));
            } else {
              InStepWait(c, Run(c, front), m, at, p);
            }
          } else {
            InStepEnqueue(c, Run(c, front), m, at, p);
          }
        case Fire => m := InStepFire(c, Run(c, front), m);
      }
    }
  }

  lemma {:induction false} DeparturesPrefix(c: Config, served: seq<Stamped>, waiting: seq<Stamped>)
    ensures Departures(c, served + waiting)[..|served|] == Departures(c, served)
    decreases waiting
  {
    if waiting == [] {
      assert served + waiting == served;
    } else {
      var n := |waiting| - 1;
      DeparturesPrefix(c, served, waiting[..n]);
      assert served + waiting == (served + waiting[..n]) + [waiting[n]];
      Serve(c, served + waiting[..n], waiting[n]);
    }
  }

  /** What `InStep` says about the whole list of accepted arrivals. */
  ghost predicate Agrees(c: Config, w: World, ref: seq<Stamped>) {
    && Queued(w.s.queue, w.waiting)
    && |ref| == |w.served| + |w.waiting|
    && w.s.sent == ref[..|w.served|]
    && (w.waiting != [] ==> w.s.due == Some(ref[|w.served|].time))
  }

  lemma {:induction false} NextDeparture(c: Config, served: seq<Stamped>, waiting: seq<Stamped>)
    requires waiting != []
    ensures Departures(c, served + waiting)[|served|].time == DepartAt(c, MeterAfter(c, served), waiting[0])
    decreases waiting
  {
    var n := |waiting| - 1;
    var front := served + waiting[..n];
    assert served + waiting == front + [waiting[n]];
    Serve(c, front, waiting[n]);
    if n == 0 {
      assert front == served;
    } else {
      NextDeparture(c, served, waiting[..n]);
    }
  }

  lemma InStepAgrees(c: Config, w: World, m: Meter)
    requires TimerOk(c, w) && InStep(c, w, m)
    ensures Agrees(c, w, Departures(c, w.served + w.waiting))
  {
    DeparturesPrefix(c, w.served, w.waiting);
    if w.waiting != [] {
      NextDeparture(c, w.served, w.waiting);
    }
  }

  /** Event by event with one timer, or offline with none: the shaper forwards exactly what the
      reference forwards, at the same instants, and its pending timer is the reference's next departure. */
  lemma RefinesReference(c: Config, es: seq<Event>)
    requires c.bucket >= 0.0
    ensures Agrees(c, Run(c, es), Departures(c, Run(c, es).served + Run(c, es).waiting))
  {
    var m := InStepAlways(c, es);
    TimerOkAlways(c, es);
    InStepAgrees(c, Run(c, es), m);
  }

  /** A packet is dropped exactly when it cannot leave at once and the queue has no room; any
      other packet joins the accepted arrivals. */
  lemma DroppedExactly(c: Config, es: seq<Event>, at: real, p: Packet)
    requires c.bucket >= 0.0 && c.qlen >= 0 && Enabled(Run(c, es), Arrive(at, p))
    ensures
      var w, a := Run(c, es), Stamped(at, p);
      var w' := Step(c, w, Arrive(at, p));
      var atOnce := w.waiting == [] && DepartAt(c, MeterAfter(c, w.served), a) == at;
      if |w.waiting| >= c.qlen && !atOnce
      then w'.s.dropped == w.s.dropped + [p] && w'.served + w'.waiting == w.served + w.waiting
      else w'.s.dropped == w.s.dropped && w'.served + w'.waiting == w.served + w.waiting + [a]
  {
    TimerOkAlways(c, es);
    var m := InStepAlways(c, es);
    DropStep(c, Run(c, es), m, at, p);
  }

  lemma DropStep(c: Config, w: World, m: Meter, at: real, p: Packet)
    requires c.bucket >= 0.0 && c.qlen >= 0 && TimerOk(c, w) && InStep(c, w, m) && Enabled(w, Arrive(at, p))
    ensures
      var w' := Step(c, w, Arrive(at, p));
      var atOnce := w.waiting == [] && DepartAt(c, m, Stamped(at, p)) == at;
      if |w.waiting| >= c.qlen && !atOnce
      then w'.s.dropped == w.s.dropped + [p] && w'.served + w'.waiting == w.served + w.waiting
      else w'.s.dropped == w.s.dropped && w'.served + w'.waiting == w.served + w.waiting + [Stamped(at, p)]
  {
    if w.s.queue == [] {
      assert w.waiting == [] && Refill(c, Initialized(c, w.s, at), at).tokens == Avail(c, m, at) && m.since <= at;
    }
  }

  // ---------------------------------------------------------------- no schedule is earlier

  /** Some first in, first out schedule of the arrivals. */
  ghost predicate Schedule(arrivals: seq<Stamped>, ds: seq<Stamped>) {
    && |ds| == |arrivals|
    && (forall i | 0 <= i < |ds| :: ds[i].pkt == arrivals[i].pkt && 0.0 <= arrivals[i].time <= ds[i].time)
    && (forall i, j | 0 <= i <= j < |ds| :: ds[i].time <= ds[j].time)
  }

  /** The bits of the packets from `j` up to, not including, `n`. */
  function Load(s: seq<Stamped>, j: nat, n: nat): real
    requires j <= n <= |s|
  {
    if j == n then 0.0 else Load(s, j, n - 1) + Bits(s[n - 1].pkt)
  }

  lemma {:induction false} SameLoad(s: seq<Stamped>, s': seq<Stamped>, j: nat, n: nat)
    requires j <= n <= |s| == |s'| && forall i | 0 <= i < |s| :: s[i].pkt == s'[i].pkt
    ensures Load(s, j, n) == Load(s', j, n)
  {
    if j < n {
      SameLoad(s, s', j, n - 1);
    }
  }

  lemma {:induction false} ForwardedPrefix(s: seq<Stamped>, n: nat, from: real, to: real)
    requires n <= |s|
    ensures Forwarded(s[..n], from, to) <= Forwarded(s, from, to)
  {
    if n < |s| {
      ForwardedPrefix(s[..|s| - 1], n, from, to);
      assert s[..|s| - 1][..n] == s[..n];
    } else {
      assert s[..n] == s;
    }
  }

  /** In the window from the `j`-th to a later departure all packets between them leave. */
  lemma {:induction false} WindowLoad(ds: seq<Stamped>, j: nat, n: nat, to: real)
    requires j <= n <= |ds| && forall i | j <= i < n :: ds[j].time <= ds[i].time <= to
    ensures j < n ==> Load(ds, j, n) <= Forwarded(ds[..n], ds[j].time, to)
  {
    if j < n {
      WindowLoad(ds, j, n - 1, to);
      assert ds[..n][..n - 1] == ds[..n - 1];
    }
  }

  /** The reference departure of the `k`-th arrival. */
  function DepartureAt(c: Config, arrivals: seq<Stamped>, k: nat): real
    requires k < |arrivals|
  {
    DepartAt(c, MeterAfter(c, arrivals[..k]), arrivals[k])
  }

  lemma MeterNext(c: Config, arrivals: seq<Stamped>, k: nat)
    requires k < |arrivals|
    ensures MeterAfter(c, arrivals[..k + 1]) == After(c, MeterAfter(c, arrivals[..k]), arrivals[k])
  {
    assert arrivals[..k + 1][..k] == arrivals[..k];
  }

  /** The bucket was full at some earlier departure, and what it holds now is what was earned since
      then less what has left since then. */
  lemma {:induction false} FullSince(c: Config, arrivals: seq<Stamped>, n: nat) returns (j: nat)
    requires 0 < n <= |arrivals|
    ensures
      var m := MeterAfter(c, arrivals[..n]);
      && j < n
      && m.since == DepartureAt(c, arrivals, n - 1)
      && m.level == c.bucket - Load(arrivals, j, n) + (m.since - DepartureAt(c, arrivals, j))
  {
    var m, d := MeterAfter(c, arrivals[..n - 1]), DepartureAt(c, arrivals, n - 1);
    MeterNext(c, arrivals, n - 1);
    if Avail(c, m, d) == c.bucket {
      j := n - 1;
      assert Load(arrivals, n - 1, n) == Load(arrivals, n - 1, n - 1) + Bits(arrivals[n - 1].pkt);
    } else {
      assert n > 1;
      j := FullSince(c, arrivals, n - 1);
    }
  }

  lemma DepartedLoad(c: Config, ds: seq<Stamped>, j: nat, i: nat)
    requires Conforms(c, ds) && j <= i < |ds| && forall k, l | 0 <= k <= l < |ds| :: ds[k].time <= ds[l].time
    ensures Load(ds, j, i + 1) <= c.bucket + (ds[i].time - ds[j].time)
  {
    WindowLoad(ds, j, i + 1, ds[i].time);
    ForwardedPrefix(ds, i + 1, ds[j].time, ds[i].time);
  }

  /** What has left between two departures of a conforming schedule is paid for by the reference. */
  lemma Overdrawn(c: Config, arrivals: seq<Stamped>, ds: seq<Stamped>, j: nat, i: nat)
    requires Schedule(arrivals, ds) && Conforms(c, ds) && j < i < |ds|
    requires DepartureAt(c, arrivals, j) <= ds[j].time
    ensures Load(arrivals, j, i) + Bits(arrivals[i].pkt) <= c.bucket + (ds[i].time - DepartureAt(c, arrivals, j))
  {
    SameLoad(arrivals, ds, j, i + 1);
    DepartedLoad(c, ds, j, i);
  }

  lemma {:induction false} NoneEarlierAt(c: Config, arrivals: seq<Stamped>, ds: seq<Stamped>, i: nat)
    requires Schedule(arrivals, ds) && Conforms(c, ds) && i < |ds|
    ensures DepartureAt(c, arrivals, i) <= ds[i].time
  {
    var m, a, x := MeterAfter(c, arrivals[..i]), arrivals[i], ds[i].time;
    ForwardedAtLeast(ds, ds[i]);
    assert Forwarded(ds, x, x) <= c.bucket + (x - x);
    if i == 0 {
      assert m == Full(c);
    } else {
      NoneEarlierAt(c, arrivals, ds, i - 1);
      var j := FullSince(c, arrivals, i);
      NoneEarlierAt(c, arrivals, ds, j);
      Overdrawn(c, arrivals, ds, j, i);
      MeterNext(c, arrivals, i - 1);
    }
    DepartAtIsEarliest(c, m, a, x);
  }

  /** The `i`-th packet forwarded is the `i`-th accepted one, at its reference departure. */
  lemma SentAt(c: Config, w: World, i: nat)
    requires Agrees(c, w, Departures(c, w.served + w.waiting)) && i < |w.s.sent|
    ensures
      var arrivals := w.served + w.waiting;
      i < |arrivals| && w.s.sent[i] == Stamped(DepartureAt(c, arrivals, i), arrivals[i].pkt)
  {
    var arrivals := w.served + w.waiting;
    assert w.s.sent[i] == Departures(c, arrivals)[i];
    assert arrivals == arrivals[..i] + arrivals[i..];
    NextDeparture(c, arrivals[..i], arrivals[i..]);
    DeparturesCarry(c, arrivals, i);
  }

  /** No packet can leave earlier: in every first in, first out schedule of the accepted arrivals
      that conforms to the bucket in all windows, each packet leaves no earlier than the shaper
      forwards it. */
  lemma NoScheduleIsEarlier(c: Config, es: seq<Event>, ds: seq<Stamped>, i: nat)
    requires c.bucket >= 0.0 && i < |Run(c, es).s.sent|
    requires Schedule(Run(c, es).served + Run(c, es).waiting, ds) && Conforms(c, ds)
    ensures i < |ds| && Run(c, es).s.sent[i].pkt == ds[i].pkt && Run(c, es).s.sent[i].time <= ds[i].time
  {
    RefinesReference(c, es);
    SentAt(c, Run(c, es), i);
    NoneEarlierAt(c, Run(c, es).served + Run(c, es).waiting, ds, i);
  }

  lemma {:induction false} DeparturesCarry(c: Config, arrivals: seq<Stamped>, i: nat)
    requires i < |arrivals|
    ensures Departures(c, arrivals)[i].pkt == arrivals[i].pkt
  {
    if i < |arrivals| - 1 {
      DeparturesCarry(c, arrivals[..|arrivals| - 1], i);
    }
  }
}
