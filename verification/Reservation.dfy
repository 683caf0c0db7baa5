/** Flow reservation over a path of links (adc/sa.cc, adc/salink.cc, adc/param-adc.cc).

    A source sends REQUEST along the path; each link decides on its own, reserves if it
    admits, and ands its decision into the packet. The far end answers ACCEPT or REJECT with
    the collected decision, the source turns the answer into CONFIRM, and the links on the
    path keep or roll back what they reserved. TEARDOWN releases an accepted flow. */
module Reservation {
  import opened Basics

  /** Size of the pending table of a link. */
  const NFLOWS := 500

  /** Marks a free slot of the pending table. */
  const FREE := -1

  datatype Kind = Request | Accept | Reject | Confirm | Teardown

  datatype Packet = Packet(kind: Kind, flow: int, rate: real, decision: bool)

  // ---------------------------------------------------------------- one link, on values

  /** State of one link. `held` is history: the flows whose rate was added and not yet taken off. */
  datatype LinkState = LinkState(resv: real, pending: seq<int>, numfl: int, held: set<int>)

  function Find(pending: seq<int>, flow: int): (j: int)
    ensures -1 <= j < |pending|
    ensures j != -1 ==> pending[j] == flow && flow !in pending[..j]
    ensures j == -1 <==> flow !in pending
    decreases |pending|
  {
    if pending == [] then -1
    else if pending[0] == flow then 0
    else
      var j := Find(pending[1..], flow);
      if j == -1 then -1 else j + 1
  }

  /** `None` is the source's `exit(1)`: the flow was admitted but the pending table is full. */
  function OnPacket(cap: real, l: LinkState, p: Packet): Option<(LinkState, Packet)> {
    match p.kind
    case Request =>
      if l.resv + p.rate <= cap then
        var j := Find(l.pending, FREE);
        if j == -1 then None
        else Some((LinkState(l.resv + p.rate, l.pending[j := p.flow], l.numfl + 1, l.held + {p.flow}), p))
      else Some((l, p.(decision := false)))
    case Accept => Some((l, p))
    case Reject => Some((l, p))
    case Confirm =>
      var j := Find(l.pending, p.flow);
      if j == -1 then Some((l, p))
      else if p.decision then Some((l.(pending := l.pending[j := FREE]), p))
      else Some((LinkState(l.resv - p.rate, l.pending[j := FREE], l.numfl - 1, l.held - {p.flow}), p))
    case Teardown =>
      Some((l.(resv := l.resv - p.rate, numfl := l.numfl - 1, held := l.held - {p.flow}), p))
  }

  // ---------------------------------------------------------------- one link, as the source writes it

  /** `SALink` with its `Param_ADC`. */
  class Link {
    const utilization: real
    const bandwidth: real
    var resv: real
    const pending: array<int>
    var numfl: int
    ghost var held: set<int>

    ghost function View(): LinkState
      reads this, pending
    {
      LinkState(resv, pending[..], numfl, held)
    }

    constructor (utilization: real, bandwidth: real)
      ensures this.utilization == utilization && this.bandwidth == bandwidth
      ensures View() == EmptyLink() && fresh(pending)
    {
      this.utilization := utilization;
      this.bandwidth := bandwidth;
      resv, numfl, held := 0.0, -1, {};
      pending := new int[NFLOWS](_ => FREE);
      new;
      assert pending[..] == seq(NFLOWS, _ => FREE);
    }

    method AdmitFlow(rate: real) returns (admitted: bool)
      modifies this`resv
      ensures admitted <==> old(resv) + rate <= utilization * bandwidth
      ensures resv == if admitted then old(resv) + rate else old(resv)
    {
      if resv + rate <= utilization * bandwidth {
        resv := resv + rate;
        return true;
      }
      return false;
    }

    method Lookup(flow: int) returns (j: int)
      ensures j == Find(pending[..], flow)
    {
      var i := 0;
      while i < pending.Length
        invariant 0 <= i <= pending.Length
        invariant flow !in pending[..i]
      {
        if pending[i] == flow {
          FindIsFirst(pending[..], flow, i);
          return i;
        }
        i := i + 1;
      }
      assert pending[..] == pending[..i];
      return -1;
    }

    /** False when the source leaves the program with `exit(1)`. */
    method Recv(p: Packet) returns (running: bool, out: Packet)
      modifies this, pending
      ensures
        var r := OnPacket(utilization * bandwidth, old(View()), p);
        && (running <==> r.Some?)
        && (running ==> View() == r.value.0 && out == r.value.1)
    {
      out := p;
      match p.kind {
      case Request =>
        var decide := AdmitFlow(p.rate);
        out := p.(decision := p.decision && decide);
        if decide {
          var j := Lookup(FREE);
          if j == -1 {
            return false, out;
          }
          pending[j] := p.flow;
          numfl := numfl + 1;
          held := held + {p.flow};
        }
      case Accept =>
      case Reject =>
      case Confirm =>
        var j := Lookup(p.flow);
        if j != -1 {
          if !p.decision {
            resv := resv - p.rate;
            numfl := numfl - 1;
            held := held - {p.flow};
          }
          pending[j] := FREE;
        }
      case Teardown =>
        resv := resv - p.rate;
        numfl := numfl - 1;
        held := held - {p.flow};
      }
      return true, out;
    }
  }

  lemma {:induction false} FindIsFirst(pending: seq<int>, flow: int, i: nat)
    requires i < |pending| && pending[i] == flow && flow !in pending[..i]
    ensures Find(pending, flow) == i
  {
    if i > 0 {
      assert pending[0] in pending[..i];
      assert pending[1..][..i - 1] == pending[..i][1..];
      FindIsFirst(pending[1..], flow, i - 1);
    }
  }

  function EmptyLink(): LinkState {
    LinkState(0.0, seq(NFLOWS, _ => FREE), -1, {})
  }

  // ---------------------------------------------------------------- the source

  /** `SA_Agent`: one flow with its traffic parameters. */
  class Source {
    const flow: int
    const rate: real
    var running: bool

    constructor (flow: int, rate: real)
      ensures this.flow == flow && this.rate == rate && !running
    {
      this.flow, this.rate, running := flow, rate, false;
    }

    method SendReq() returns (p: Packet)
      ensures p == RequestOf(flow, rate)
    {
      p := Packet(Request, flow, rate, true);
    }

    /** The packet sent back, if any; the running flag follows the decision of whatever arrived. */
    method Recv(p: Packet) returns (out: Option<Packet>)
      modifies this
      ensures out == if p.kind.Accept? || p.kind.Reject? then Some(Turned(p)) else None
      ensures running == p.decision
    {
      out := None;
      if p.kind == Accept || p.kind == Reject {
        out := Some(p.(kind := Confirm));
      }
      running := p.decision;
    }

    method Stop() returns (p: Packet)
      modifies this
      ensures p == TeardownOf(flow, rate) && !running
    {
      p := Packet(Teardown, flow, rate, true);
      running := false;
    }
  }

  function RequestOf(flow: int, rate: real): Packet {
    Packet(Request, flow, rate, true)
  }

  function TeardownOf(flow: int, rate: real): Packet {
    Packet(Teardown, flow, rate, true)
  }

  function Turned(p: Packet): Packet {
    p.(kind := Confirm)
  }

  /** The far end copies the reservation header into its answer. */
  function AnswerTo(p: Packet): Packet {
    p.(kind := if p.decision then Accept else Reject)
  }

  // ---------------------------------------------------------------- the network

  /** A control packet on its way from the source, and how many links of the path it has crossed. */
  datatype Moving = Moving(p: Packet, pos: nat)

  /** Whether a request is outstanding, and on which leg; the answer has crossed `back` links. */
  datatype Phase = Idle | Asked | Answered(answer: Packet, back: nat)

  /** A flow: its phase, the flag of the source, and what it has on the path, oldest first. */
  datatype Flow = Flow(phase: Phase, running: bool, sent: seq<Moving>)

  const NEW_FLOW := Flow(Idle, false, [])

  /** The links have capacities; each flow has a rate, its own path, a list of links, and the path
      that its answers take. */
  datatype Config = Config(caps: seq<real>, rate: int -> real, path: int -> seq<nat>, back: int -> seq<nat>) {
    ghost predicate Ok() {
      && (forall l | 0 <= l < |caps| :: caps[l] >= 0.0)
      && (forall f :: rate(f) >= 0.0)
      && Routed()
    }

    ghost predicate Routed() {
      && (forall f, i | 0 <= i < |path(f)| :: path(f)[i] < |caps|)
      && (forall f, i | 0 <= i < |back(f)| :: back(f)[i] < |caps|)
      && (forall f, i, j | 0 <= i < j < |path(f)| :: path(f)[i] != path(f)[j])
    }

    /** The links are numbered so that every path goes upwards. */
    ghost predicate Upwards() {
      forall f, i, j | 0 <= i < j < |path(f)| :: path(f)[i] < path(f)[j]
    }
  }

  datatype World = World(links: seq<LinkState>, flows: map<int, Flow>, exited: bool)

  function Start(c: Config): World {
    World(seq(|c.caps|, _ => EmptyLink()), map[], false)
  }

  function FlowOf(w: World, f: int): Flow {
    if f in w.flows then w.flows[f] else NEW_FLOW
  }

  function SetFlow(w: World, f: int, fl: Flow): World {
    w.(flows := w.flows[f := fl])
  }

  /** `Advance`: the `i`-th packet of the flow on the path crosses its next link. `Arrive`: the
      oldest one reaches the far end, which answers a REQUEST. `Return`: the answer crosses its next
      link. `Turn`: it is back. */
  datatype Event =
    | Begin(f: int)
    | Advance(f: int, i: nat)
    | Arrive(f: int)
    | Return(f: int)
    | Turn(f: int)
    | Stop(f: int)

  /** Packets of a flow stay in order. */
  predicate CanAdvance(sent: seq<Moving>, i: nat, n: nat) {
    i < |sent| && sent[i].pos < n && (i == 0 || sent[i].pos < sent[i - 1].pos)
  }

  /** The flow after its `i`-th packet has crossed a link and come out as `out`. */
  function Moved(fl: Flow, i: nat, out: Packet): Flow
    requires i < |fl.sent|
  {
    fl.(sent := fl.sent[i := Moving(out, fl.sent[i].pos + 1)])
  }

  ghost function Cross(c: Config, w: World, f: int, i: nat): World
    requires c.Routed() && |w.links| == |c.caps| && CanAdvance(FlowOf(w, f).sent, i, |c.path(f)|)
  {
    var fl := FlowOf(w, f);
    var m := fl.sent[i];
    var l := c.path(f)[m.pos];
    match OnPacket(c.caps[l], w.links[l], m.p)
    case None => w.(exited := true)
    case Some((link, out)) =>
      SetFlow(w.(links := w.links[l := link]), f, Moved(fl, i, out))
  }

  ghost function CrossBack(c: Config, w: World, f: int): World
    requires c.Routed() && |w.links| == |c.caps|
    requires FlowOf(w, f).phase.Answered? && FlowOf(w, f).phase.back < |c.back(f)|
  {
    var fl := FlowOf(w, f);
    var l := c.back(f)[fl.phase.back];
    match OnPacket(c.caps[l], w.links[l], fl.phase.answer)
    case None => w.(exited := true)
    case Some((link, out)) =>
      SetFlow(w.(links := w.links[l := link]), f, fl.(phase := Answered(out, fl.phase.back + 1)))
  }

  /** An event that is not possible now changes nothing. A flow asks again only when nothing of it
      is on its way and it is not running; it can be stopped at any time. */
  ghost function Step(c: Config, w: World, e: Event): World
    requires c.Routed() && |w.links| == |c.caps|
  {
    var n, fl := |c.path(e.f)|, FlowOf(w, e.f);
    if w.exited || e.f == FREE then w
    else match e
      case Begin(f) =>
        if fl == NEW_FLOW then SetFlow(w, f, Flow(Asked, false, [Moving(RequestOf(f, c.rate(f)), 0)])) else w
      case Advance(f, i) =>
        if CanAdvance(fl.sent, i, n) then Cross(c, w, f, i) else w
      case Arrive(f) =>
        if fl.sent == [] || fl.sent[0].pos < n then w
        else
          var p := fl.sent[0].p;
          SetFlow(w, f, fl.(sent := fl.sent[1..], phase := if p.kind == Request then Answered(AnswerTo(p), 0) else fl.phase))
      case Return(f) =>
        if fl.phase.Answered? && fl.phase.back < |c.back(f)| then CrossBack(c, w, f) else w
      case Turn(f) =>
        if fl.phase.Answered? && fl.phase.back >= |c.back(f)|
        then
          var a := fl.phase.answer;
          SetFlow(w, f, Flow(Idle, a.decision, fl.sent + [Moving(Turned(a), 0)]))
        else w
      case Stop(f) =>
        SetFlow(w, f, fl.(running := false, sent := fl.sent + [Moving(TeardownOf(f, c.rate(f)), 0)]))
  }

  /** Every sequence of events is a run. */
  ghost function RunFrom(c: Config, w: World, es: seq<Event>): (w': World)
    requires c.Routed() && |w.links| == |c.caps|
    ensures |w'.links| == |c.caps|
  {
    if es == [] then w else Step(c, RunFrom(c, w, es[..|es| - 1]), es[|es| - 1])
  }

  ghost function Run(c: Config, es: seq<Event>): (w: World)
    requires c.Routed()
    ensures |w.links| == |c.caps|
  {
    RunFrom(c, Start(c), es)
  }

  /** A run that stops flows only while they are running. */
  ghost predicate Orderly(c: Config, w: World, es: seq<Event>)
    requires c.Routed() && |w.links| == |c.caps|
  {
    es == [] ||
    (var front, e := es[..|es| - 1], es[|es| - 1];
     Orderly(c, w, front) && (e.Stop? ==> FlowOf(RunFrom(c, w, front), e.f).running))
  }

  // ---------------------------------------------------------------- the ledger of one link

  ghost function Pick(s: set<int>): (x: int)
    requires s != {}
    ensures x in s
  {
    assert (forall y :: y !in s) ==> s == {};
    var x :| x in s;
    x
  }

  ghost function Sum(rate: int -> real, s: set<int>): real {
    if s == {} then 0.0 else rate(Pick(s)) + Sum(rate, s - {Pick(s)})
  }

  lemma {:induction false} SumRemove(rate: int -> real, s: set<int>, y: int)
    requires y in s
    ensures Sum(rate, s) == rate(y) + Sum(rate, s - {y})
    decreases s
  {
    var x := Pick(s);
    if x != y {
      SumRemove(rate, s - {x}, y);
      SumRemove(rate, s - {y}, x);
      assert s - {x} - {y} == s - {y} - {x};
    }
  }

  lemma SumAdd(rate: int -> real, s: set<int>, y: int)
    requires y !in s
    ensures Sum(rate, s + {y}) == Sum(rate, s) + rate(y)
  {
    SumRemove(rate, s + {y}, y);
    assert s + {y} - {y} == s;
  }

  lemma {:induction false} SumNonNegative(rate: int -> real, s: set<int>)
    requires forall f :: rate(f) >= 0.0
    ensures Sum(rate, s) >= 0.0
    decreases s
  {
    if s != {} {
      SumNonNegative(rate, s - {Pick(s)});
    }
  }

  ghost predicate Distinct(pending: seq<int>) {
    forall i, j | 0 <= i < j < |pending| :: pending[i] == pending[j] ==> pending[i] == FREE
  }

  ghost predicate LinkOk(rate: int -> real, cap: real, l: LinkState) {
    && |l.pending| == NFLOWS
    && Distinct(l.pending)
    && FREE !in l.held
    && l.resv == Sum(rate, l.held)
    && l.resv <= cap
    && l.numfl == |l.held| - 1
  }

  /** Setting one slot changes the membership of the old and the new occupant only. */
  lemma SlotSet(pending: seq<int>, j: nat, f: int)
    requires j < |pending| && Distinct(pending) && (f == FREE || f !in pending)
    ensures Distinct(pending[j := f])
    ensures forall g | g != FREE && g != f && g != pending[j] :: g in pending[j := f] <==> g in pending
    ensures f in pending[j := f]
    ensures pending[j] != FREE && pending[j] != f ==> pending[j] !in pending[j := f]
  {
    var after := pending[j := f];
    assert after[j] == f;
    forall g | g != FREE && g != f && g != pending[j] ensures g in after <==> g in pending {
      if g in pending {
        var i :| 0 <= i < |pending| && pending[i] == g;
        assert after[i] == g;
      }
    }
  }

  lemma LinkRequest(rate: int -> real, cap: real, l: LinkState, p: Packet)
    requires LinkOk(rate, cap, l) && p.kind.Request? && p.rate == rate(p.flow)
    requires p.flow != FREE && p.flow !in l.held && p.flow !in l.pending
    ensures
      var r := OnPacket(cap, l, p);
      r.Some? ==>
        var (l', out) := r.value;
        && LinkOk(rate, cap, l')
        && out == p.(decision := out.decision)
        && (out.decision <==> p.decision && p.flow in l'.held)
        && (p.flow in l'.pending <==> p.flow in l'.held)
        && (forall g | g != FREE && g != p.flow ::
              (g in l'.held <==> g in l.held) && (g in l'.pending <==> g in l.pending))
  {
    if l.resv + p.rate <= cap {
      var j := Find(l.pending, FREE);
      if j != -1 {
        SlotSet(l.pending, j, p.flow);
        SumAdd(rate, l.held, p.flow);
      }
    }
  }

  /** A link admits a flow exactly when its rate fits beside those of the flows it holds; the
      program exits exactly when there is no slot for a flow that fits. */
  lemma LinkAdmitsExactly(rate: int -> real, cap: real, l: LinkState, p: Packet)
    requires LinkOk(rate, cap, l) && p.kind.Request? && p.rate == rate(p.flow) && p.flow !in l.held
    ensures
      var fits, r := Sum(rate, l.held) + rate(p.flow) <= cap, OnPacket(cap, l, p);
      && (r == None <==> fits && FREE !in l.pending)
      && (r.Some? ==> (p.flow in r.value.0.held <==> fits))
  {
  }

  lemma LinkConfirm(rate: int -> real, cap: real, l: LinkState, p: Packet)
    requires LinkOk(rate, cap, l) && p.kind.Confirm? && p.rate == rate(p.flow) >= 0.0 && p.flow != FREE
    requires p.flow in l.pending <==> p.flow in l.held
    ensures
      var r := OnPacket(cap, l, p);
      && r.Some?
      && r.value.1 == p
      && var l' := r.value.0;
         && LinkOk(rate, cap, l')
         && p.flow !in l'.pending
         && (p.flow in l'.held <==> p.decision && p.flow in l.held)
         && (forall g | g != FREE && g != p.flow ::
               (g in l'.held <==> g in l.held) && (g in l'.pending <==> g in l.pending))
  {
    var j := Find(l.pending, p.flow);
    if j != -1 {
      SlotSet(l.pending, j, FREE);
      SumRemove(rate, l.held, p.flow);
    }
  }

  lemma LinkTeardown(rate: int -> real, cap: real, l: LinkState, p: Packet)
    requires LinkOk(rate, cap, l) && p.kind.Teardown? && p.rate == rate(p.flow) >= 0.0
    requires p.flow in l.held
    ensures
      var r := OnPacket(cap, l, p);
      && r.Some?
      && var l' := r.value.0;
         && LinkOk(rate, cap, l')
         && p.flow !in l'.held
         && l'.pending == l.pending
         && (forall g | g != p.flow :: g in l'.held <==> g in l.held)
  {
    SumRemove(rate, l.held, p.flow);
  }

  // ---------------------------------------------------------------- invariant of every orderly run

  /** The CONFIRM of the flow has yet to cross link `i` of its path. */
  predicate AwaitsConfirm(sent: seq<Moving>, i: nat) {
    sent != [] && sent[0].p.kind.Confirm? && sent[0].pos <= i
  }

  /** So has its TEARDOWN. */
  predicate AwaitsTeardown(sent: seq<Moving>, i: nat) {
    sent != [] && sent[|sent| - 1].p.kind.Teardown? && sent[|sent| - 1].pos <= i
  }

  /** What link `i` of its path must know of a flow. */
  ghost predicate Agrees(fl: Flow, i: nat, held: bool, pend: bool) {
    match fl.phase
    case Asked =>
      && fl.sent != []
      && pend == held
      && (if i < fl.sent[0].pos then fl.sent[0].p.decision ==> held else !held)
    case Answered(a, _) => pend == held && (a.decision ==> held)
    case Idle =>
      if AwaitsConfirm(fl.sent, i) then pend == held && (fl.sent[0].p.decision ==> held)
      else !pend && (held <==> fl.running || AwaitsTeardown(fl.sent, i))
  }

  ghost predicate HeldBefore(c: Config, links: seq<LinkState>, f: int, k: nat)
    requires c.Routed() && |links| == |c.caps| && k <= |c.path(f)|
  {
    forall i | 0 <= i < k :: f in links[c.path(f)[i]].held
  }

  /** What a flow may have on its path in an orderly run, and that the decision in its header is
      what the links decided. */
  ghost predicate FlowOk(c: Config, links: seq<LinkState>, f: int, fl: Flow)
    requires c.Routed() && |links| == |c.caps|
  {
    var n := |c.path(f)|;
    && (forall m <- fl.sent :: m.pos <= n)
    && match fl.phase
       case Asked =>
         && |fl.sent| == 1 && !fl.running
         && var m := fl.sent[0];
            m.p == Packet(Request, f, c.rate(f), m.p.decision) && (m.p.decision <==> HeldBefore(c, links, f, m.pos))
       case Answered(a, _) =>
         && fl.sent == [] && !fl.running
         && a == Packet(if a.decision then Accept else Reject, f, c.rate(f), a.decision)
         && (a.decision <==> HeldBefore(c, links, f, n))
       case Idle =>
         match |fl.sent|
         case 0 => true
         case 1 =>
           || fl.sent[0].p == Packet(Confirm, f, c.rate(f), fl.running)
           || (fl.sent[0].p == TeardownOf(f, c.rate(f)) && !fl.running)
         case 2 =>
           && !fl.running
           && fl.sent[0].p == Packet(Confirm, f, c.rate(f), true)
           && fl.sent[1].p == TeardownOf(f, c.rate(f))
           && fl.sent[1].pos <= fl.sent[0].pos
         case _ => false
  }

  /** The links of its path agree with a flow, the others do not know it. */
  ghost predicate Placed(c: Config, links: seq<LinkState>, f: int, fl: Flow)
    requires c.Routed() && |links| == |c.caps|
  {
    && (forall i | 0 <= i < |c.path(f)| ::
          Agrees(fl, i, f in links[c.path(f)[i]].held, f in links[c.path(f)[i]].pending))
    && (forall l | 0 <= l < |links| && l !in c.path(f) :: f !in links[l].held && f !in links[l].pending)
  }

  ghost predicate Inv(c: Config, w: World)
    requires c.Routed()
  {
    && |w.links| == |c.caps|
    && (forall l | 0 <= l < |w.links| :: LinkOk(c.rate, c.caps[l], w.links[l]))
    && (forall f | f != FREE :: FlowOk(c, w.links, f, FlowOf(w, f)) && Placed(c, w.links, f, FlowOf(w, f)))
  }

  lemma InvStart(c: Config)
    requires c.Ok()
    ensures Inv(c, Start(c))
  {
  }

  /** The two worlds differ in flow `f` only. */
  ghost predicate Elsewhere(w: World, w': World, f: int) {
    && |w'.links| == |w.links|
    && (forall g | g != f :: FlowOf(w', g) == FlowOf(w, g))
    && (forall g, l | g != f && g != FREE && 0 <= l < |w.links| ::
          (g in w'.links[l].held <==> g in w.links[l].held) && (g in w'.links[l].pending <==> g in w.links[l].pending))
  }

  lemma InvElsewhere(c: Config, w: World, w': World, f: int)
    requires c.Routed() && Inv(c, w) && Elsewhere(w, w', f)
    requires forall l | 0 <= l < |w.links| :: LinkOk(c.rate, c.caps[l], w'.links[l])
    requires f != FREE ==> FlowOk(c, w'.links, f, FlowOf(w', f)) && Placed(c, w'.links, f, FlowOf(w', f))
    ensures Inv(c, w')
  {
    forall g | g != FREE && g != f
      ensures FlowOk(c, w'.links, g, FlowOf(w', g)) && Placed(c, w'.links, g, FlowOf(w', g))
    {
      assert FlowOk(c, w.links, g, FlowOf(w, g)) && Placed(c, w.links, g, FlowOf(w, g));
      SameFlow(c, w.links, w'.links, g, FlowOf(w, g));
    }
  }

  lemma SameFlow(c: Config, links: seq<LinkState>, links': seq<LinkState>, g: int, fl: Flow)
    requires c.Routed() && |links'| == |links| == |c.caps|
    requires forall l | 0 <= l < |links| ::
      (g in links'[l].held <==> g in links[l].held) && (g in links'[l].pending <==> g in links[l].pending)
    ensures FlowOk(c, links, g, fl) ==> FlowOk(c, links', g, fl)
    ensures Placed(c, links, g, fl) ==> Placed(c, links', g, fl)
  {
    forall k: nat | k <= |c.path(g)| ensures HeldBefore(c, links', g, k) <==> HeldBefore(c, links, g, k) {
    }
  }

  /** One link crossed: enough to look at that link and that flow. */
  lemma InvCross(c: Config, w: World, f: int, at: nat, link: LinkState, fl: Flow)
    requires c.Ok() && Inv(c, w) && f != FREE && at < |c.path(f)|
    requires LinkOk(c.rate, c.caps[c.path(f)[at]], link)
    requires forall g | g != FREE && g != f ::
      var before := w.links[c.path(f)[at]];
      (g in link.held <==> g in before.held) && (g in link.pending <==> g in before.pending)
    requires Agrees(fl, at, f in link.held, f in link.pending)
    requires forall i | 0 <= i < |c.path(f)| && i != at ::
      Agrees(fl, i, f in w.links[c.path(f)[i]].held, f in w.links[c.path(f)[i]].pending)
    requires FlowOk(c, w.links[c.path(f)[at] := link], f, fl)
    ensures
      var w' := SetFlow(w.(links := w.links[c.path(f)[at] := link]), f, fl);
      Inv(c, w') && Elsewhere(w, w', f)
  {
    var l := c.path(f)[at];
    var w' := SetFlow(w.(links := w.links[l := link]), f, fl);
    assert Placed(c, w.links, f, FlowOf(w, f));
    assert l in c.path(f);
    assert Elsewhere(w, w', f);
    assert Placed(c, w'.links, f, fl);
    InvElsewhere(c, w, w', f);
  }

  /** A flow is the same to all links but the one its packet has crossed. */
  lemma MovedAgrees(fl: Flow, j: nat, i: nat, held: bool, pend: bool)
    requires fl.phase.Idle? && j < |fl.sent| && i != fl.sent[j].pos
    ensures Agrees(Moved(fl, j, fl.sent[j].p), i, held, pend) <==> Agrees(fl, i, held, pend)
  {
  }

  lemma MovedOk(c: Config, links: seq<LinkState>, links': seq<LinkState>, f: int, fl: Flow, j: nat)
    requires c.Routed() && |links| == |links'| == |c.caps| && FlowOk(c, links, f, fl)
    requires fl.phase.Idle? && CanAdvance(fl.sent, j, |c.path(f)|)
    ensures FlowOk(c, links', f, Moved(fl, j, fl.sent[j].p))
  {
  }

  lemma RequestFlowOk(c: Config, links: seq<LinkState>, f: int, fl: Flow, link: LinkState, out: Packet)
    requires c.Routed() && |links| == |c.caps| && FlowOk(c, links, f, fl)
    requires fl.phase.Asked? && CanAdvance(fl.sent, 0, |c.path(f)|)
    requires
      var m := fl.sent[0];
      && out == m.p.(decision := out.decision)
      && (out.decision <==> m.p.decision && f in link.held)
    ensures
      var at := fl.sent[0].pos;
      FlowOk(c, links[c.path(f)[at] := link], f, Moved(fl, 0, out))
  {
    var m := fl.sent[0];
    var links' := links[c.path(f)[m.pos] := link];
    assert HeldBefore(c, links', f, m.pos) <==> HeldBefore(c, links, f, m.pos) by {
      assert forall i | 0 <= i < m.pos :: links'[c.path(f)[i]] == links[c.path(f)[i]];
    }
    assert HeldBefore(c, links', f, m.pos + 1) <==> HeldBefore(c, links', f, m.pos) && f in link.held;
  }

  lemma RequestAgrees(fl: Flow, out: Packet, i: nat, held: bool, pend: bool)
    requires fl.phase.Asked? && Agrees(fl, i, held, pend) && i != fl.sent[0].pos
    requires out.decision ==> fl.sent[0].p.decision
    ensures Agrees(Moved(fl, 0, out), i, held, pend)
  {
  }

  /** The request has crossed a link that let it out as `out`. */
  lemma RequestMoved(c: Config, w: World, f: int, link: LinkState, out: Packet)
    requires c.Ok() && Inv(c, w) && f != FREE && FlowOf(w, f).phase.Asked?
    requires CanAdvance(FlowOf(w, f).sent, 0, |c.path(f)|)
    requires
      var m := FlowOf(w, f).sent[0];
      var l := c.path(f)[m.pos];
      && LinkOk(c.rate, c.caps[l], link)
      && out == m.p.(decision := out.decision)
      && (out.decision <==> m.p.decision && f in link.held)
      && (f in link.pending <==> f in link.held)
      && (forall g | g != FREE && g != f ::
            (g in link.held <==> g in w.links[l].held) && (g in link.pending <==> g in w.links[l].pending))
    ensures
      var fl := FlowOf(w, f);
      var m := fl.sent[0];
      var w' := SetFlow(w.(links := w.links[c.path(f)[m.pos] := link]), f, Moved(fl, 0, out));
      Inv(c, w') && Elsewhere(w, w', f)
  {
    var fl := FlowOf(w, f);
    var m := fl.sent[0];
    assert FlowOk(c, w.links, f, fl) && Placed(c, w.links, f, fl);
    RequestFlowOk(c, w.links, f, fl, link, out);
    forall i | 0 <= i < |c.path(f)| && i != m.pos
      ensures Agrees(Moved(fl, 0, out), i, f in w.links[c.path(f)[i]].held, f in w.links[c.path(f)[i]].pending)
    {
      RequestAgrees(fl, out, i, f in w.links[c.path(f)[i]].held, f in w.links[c.path(f)[i]].pending);
    }
    InvCross(c, w, f, m.pos, link, Moved(fl, 0, out));
  }

  lemma InvRequest(c: Config, w: World, f: int)
    requires c.Ok() && Inv(c, w) && f != FREE && !w.exited
    requires FlowOf(w, f).phase.Asked? && CanAdvance(FlowOf(w, f).sent, 0, |c.path(f)|)
    ensures
      var w' := Step(c, w, Advance(f, 0));
      var m := FlowOf(w, f).sent[0];
      && (w'.exited ==> w' == w.(exited := true) && FREE !in w.links[c.path(f)[m.pos]].pending)
      && (!w'.exited ==>
            && Inv(c, w') && Elsewhere(w, w', f)
            && FlowOf(w', f).phase.Asked? && FlowOf(w', f).sent[0].pos == m.pos + 1
            && (forall l | 0 <= l < |w.links| && l != c.path(f)[m.pos] :: w'.links[l] == w.links[l]))
  {
    var fl := FlowOf(w, f);
    var m := fl.sent[0];
    var l := c.path(f)[m.pos];
    assert FlowOk(c, w.links, f, fl) && Placed(c, w.links, f, fl);
    assert Agrees(fl, m.pos, f in w.links[l].held, f in w.links[l].pending);
    LinkRequest(c.rate, c.caps[l], w.links[l], m.p);
    match OnPacket(c.caps[l], w.links[l], m.p)
    case None =>
    case Some((link, out)) => RequestMoved(c, w, f, link, out);
  }

  lemma InvMoved(c: Config, w: World, f: int, j: nat, link: LinkState)
    requires c.Ok() && Inv(c, w) && f != FREE && FlowOf(w, f).phase.Idle?
    requires CanAdvance(FlowOf(w, f).sent, j, |c.path(f)|)
    requires
      var fl := FlowOf(w, f);
      var at := fl.sent[j].pos;
      var l := c.path(f)[at];
      && LinkOk(c.rate, c.caps[l], link)
      && Agrees(Moved(fl, j, fl.sent[j].p), at, f in link.held, f in link.pending)
      && (forall g | g != FREE && g != f ::
            (g in link.held <==> g in w.links[l].held) && (g in link.pending <==> g in w.links[l].pending))
    ensures
      var fl := FlowOf(w, f);
      var w' := SetFlow(w.(links := w.links[c.path(f)[fl.sent[j].pos] := link]), f, Moved(fl, j, fl.sent[j].p));
      Inv(c, w') && Elsewhere(w, w', f)
  {
    var fl := FlowOf(w, f);
    var at := fl.sent[j].pos;
    assert FlowOk(c, w.links, f, fl) && Placed(c, w.links, f, fl);
    MovedOk(c, w.links, w.links[c.path(f)[at] := link], f, fl, j);
    forall i | 0 <= i < |c.path(f)| && i != at
      ensures Agrees(Moved(fl, j, fl.sent[j].p), i, f in w.links[c.path(f)[i]].held, f in w.links[c.path(f)[i]].pending)
    {
      MovedAgrees(fl, j, i, f in w.links[c.path(f)[i]].held, f in w.links[c.path(f)[i]].pending);
    }
    InvCross(c, w, f, at, link, Moved(fl, j, fl.sent[j].p));
  }

  /** What a CONFIRM or TEARDOWN of an orderly run does to the link it crosses. */
  lemma CrossingIdle(c: Config, w: World, f: int, j: nat)
    requires c.Ok() && Inv(c, w) && f != FREE && FlowOf(w, f).phase.Idle?
    requires CanAdvance(FlowOf(w, f).sent, j, |c.path(f)|)
    ensures
      var fl := FlowOf(w, f);
      var at := fl.sent[j].pos;
      var l := c.path(f)[at];
      var r := OnPacket(c.caps[l], w.links[l], fl.sent[j].p);
      && r.Some?
      && r.value.1 == fl.sent[j].p
      && var link := r.value.0;
         && LinkOk(c.rate, c.caps[l], link)
         && Agrees(Moved(fl, j, fl.sent[j].p), at, f in link.held, f in link.pending)
         && (forall g | g != FREE && g != f ::
               (g in link.held <==> g in w.links[l].held) && (g in link.pending <==> g in w.links[l].pending))
  {
    var fl := FlowOf(w, f);
    var m := fl.sent[j];
    var l := c.path(f)[m.pos];
    assert FlowOk(c, w.links, f, fl) && Placed(c, w.links, f, fl);
    assert Agrees(fl, m.pos, f in w.links[l].held, f in w.links[l].pending);
    if m.p.kind.Confirm? {
      LinkConfirm(c.rate, c.caps[l], w.links[l], m.p);
    } else {
      LinkTeardown(c.rate, c.caps[l], w.links[l], m.p);
    }
  }

  lemma StepMoves(c: Config, w: World, f: int, j: nat, link: LinkState)
    requires c.Routed() && |w.links| == |c.caps| && f != FREE && !w.exited
    requires CanAdvance(FlowOf(w, f).sent, j, |c.path(f)|)
    requires
      var m := FlowOf(w, f).sent[j];
      OnPacket(c.caps[c.path(f)[m.pos]], w.links[c.path(f)[m.pos]], m.p) == Some((link, m.p))
    ensures
      var fl := FlowOf(w, f);
      var w' := Step(c, w, Advance(f, j));
      && w' == SetFlow(w.(links := w.links[c.path(f)[fl.sent[j].pos] := link]), f, Moved(fl, j, fl.sent[j].p))
      && FlowOf(w', f) == Moved(fl, j, fl.sent[j].p)
  {
  }

  lemma InvIdle(c: Config, w: World, f: int, j: nat)
    requires c.Ok() && Inv(c, w) && f != FREE && !w.exited && FlowOf(w, f).phase.Idle?
    requires CanAdvance(FlowOf(w, f).sent, j, |c.path(f)|)
    ensures
      var w' := Step(c, w, Advance(f, j));
      && !w'.exited && Inv(c, w') && Elsewhere(w, w', f)
      && FlowOf(w', f) == Moved(FlowOf(w, f), j, FlowOf(w, f).sent[j].p)
  {
    var fl := FlowOf(w, f);
    var l := c.path(f)[fl.sent[j].pos];
    CrossingIdle(c, w, f, j);
    var link := OnPacket(c.caps[l], w.links[l], fl.sent[j].p).value.0;
    StepMoves(c, w, f, j, link);
    InvMoved(c, w, f, j, link);
  }

  /** Steps that leave all links as they are. A stop is only made while the flow is running. */
  lemma InvEnds(c: Config, w: World, e: Event)
    requires c.Ok() && Inv(c, w) && e.f != FREE && !w.exited
    requires !e.Advance? && (e.Stop? ==> FlowOf(w, e.f).running)
    ensures
      var w' := Step(c, w, e);
      !w'.exited && Inv(c, w') && Elsewhere(w, w', e.f)
  {
    var w', f := Step(c, w, e), e.f;
    assert FlowOk(c, w.links, f, FlowOf(w, f)) && Placed(c, w.links, f, FlowOf(w, f));
    assert w'.links == w.links;
    assert Elsewhere(w, w', f);
    var fl, fl' := FlowOf(w, f), FlowOf(w', f);
    forall i | 0 <= i < |c.path(f)|
      ensures Agrees(fl', i, f in w.links[c.path(f)[i]].held, f in w.links[c.path(f)[i]].pending)
    {
      assert Agrees(fl, i, f in w.links[c.path(f)[i]].held, f in w.links[c.path(f)[i]].pending);
    }
    InvElsewhere(c, w, w', f);
  }

  /** A step of an orderly run keeps the invariant and touches its own flow only; it leads to the
      exit only where the REQUEST of the flow meets a full table. */
  lemma InvStep(c: Config, w: World, e: Event)
    requires c.Ok() && Inv(c, w) && (e.Stop? ==> FlowOf(w, e.f).running)
    ensures
      var w' := Step(c, w, e);
      && Inv(c, w')
      && Elsewhere(w, w', e.f)
  {
    var w', fl := Step(c, w, e), FlowOf(w, e.f);
    if w' == w {
    } else if e.Advance? {
      assert FlowOk(c, w.links, e.f, fl);
      if fl.phase.Asked? {
        InvRequest(c, w, e.f);
        if w'.exited {
          InvElsewhere(c, w, w', FREE);
        }
      } else {
        InvIdle(c, w, e.f, e.i);
      }
    } else {
      InvEnds(c, w, e);
    }
  }

  lemma {:induction false} InvFrom(c: Config, w: World, es: seq<Event>)
    requires c.Ok() && Inv(c, w) && Orderly(c, w, es)
    ensures Inv(c, RunFrom(c, w, es))
  {
    if es != [] {
      InvFrom(c, w, es[..|es| - 1]);
      InvStep(c, RunFrom(c, w, es[..|es| - 1]), es[|es| - 1]);
    }
  }

  lemma InvAlways(c: Config, es: seq<Event>)
    requires c.Ok() && Orderly(c, Start(c), es)
    ensures Inv(c, Run(c, es))
  {
    InvStart(c);
    InvFrom(c, Start(c), es);
  }

  // ---------------------------------------------------------------- results

  ghost predicate AllHold(c: Config, w: World, f: int)
    requires c.Routed() && |w.links| == |c.caps|
  {
    HeldBefore(c, w.links, f, |c.path(f)|)
  }

  ghost predicate NoneHolds(w: World, f: int) {
    forall l | 0 <= l < |w.links| :: f !in w.links[l].held
  }

  ghost predicate NonePending(w: World, f: int) {
    forall l | 0 <= l < |w.links| :: f !in w.links[l].pending
  }

  ghost predicate OnWay(fl: Flow, kind: Kind) {
    exists i | 0 <= i < |fl.sent| :: fl.sent[i].p.kind == kind
  }

  /** All or nothing, in every interleaving of any flows over any paths: a flow is accepted exactly
      when every link of its path holds its reservation; with its CONFIRM through, no link has it
      pending; then all links of the path hold it if it is running, and none does once it is not
      and its TEARDOWN, if any, is through. Links off the path never know it. */
  lemma AllOrNothing(c: Config, es: seq<Event>, f: int)
    requires c.Ok() && Orderly(c, Start(c), es) && f != FREE
    ensures
      var w := Run(c, es);
      var fl := FlowOf(w, f);
      && (fl.phase.Answered? ==> (fl.phase.answer.decision <==> AllHold(c, w, f)))
      && (fl.phase.Idle? && !OnWay(fl, Confirm) ==>
            && NonePending(w, f)
            && (fl.running ==> AllHold(c, w, f))
            && (!fl.running && !OnWay(fl, Teardown) ==> NoneHolds(w, f)))
      && (forall l | 0 <= l < |w.links| && l !in c.path(f) :: f !in w.links[l].held && f !in w.links[l].pending)
  {
    InvAlways(c, es);
    var w := Run(c, es);
    var fl, path := FlowOf(w, f), c.path(f);
    assert FlowOk(c, w.links, f, fl) && Placed(c, w.links, f, fl);
    forall l | 0 <= l < |w.links| && l in path
      ensures exists i | 0 <= i < |path| :: path[i] == l && Agrees(fl, i, f in w.links[l].held, f in w.links[l].pending)
    {
      var i :| 0 <= i < |path| && path[i] == l;
      assert Agrees(fl, i, f in w.links[path[i]].held, f in w.links[path[i]].pending);
    }
    if fl.sent != [] {
      assert OnWay(fl, fl.sent[0].p.kind) && OnWay(fl, fl.sent[|fl.sent| - 1].p.kind);
    }
  }

  /** The link that the REQUEST of the flow crosses next has no room for it. */
  ghost predicate NoRoom(c: Config, w: World, f: int)
    requires c.Routed() && |w.links| == |c.caps|
  {
    var fl := FlowOf(w, f);
    && fl.phase.Asked? && CanAdvance(fl.sent, 0, |c.path(f)|)
    && var l := c.path(f)[fl.sent[0].pos];
       Sum(c.rate, w.links[l].held) + c.rate(f) > c.caps[l]
  }

  /** Since its request set out, the flow has come to a link without room for it. */
  ghost predicate MetNoRoom(c: Config, es: seq<Event>, f: int)
    requires c.Routed()
    decreases es
  {
    es != [] &&
    (var front, e := es[..|es| - 1], es[|es| - 1];
     var w := Run(c, front);
     !(e == Begin(f) && FlowOf(w, f) == NEW_FLOW) &&
     (MetNoRoom(c, front, f) || (e == Advance(f, 0) && !w.exited && NoRoom(c, w, f))))
  }

  /** What the decision on its way says about the request so far. */
  ghost predicate DecidedBy(fl: Flow, turnedAway: bool) {
    match fl.phase
    case Asked => fl.sent != [] && (fl.sent[0].p.decision <==> !turnedAway)
    case Answered(a, _) => a.decision <==> !turnedAway
    case Idle => true
  }

  lemma AdvanceDecides(c: Config, w: World, f: int, before: bool)
    requires c.Ok() && Inv(c, w) && f != FREE && !w.exited
    requires FlowOf(w, f).phase.Asked? && CanAdvance(FlowOf(w, f).sent, 0, |c.path(f)|)
    requires DecidedBy(FlowOf(w, f), before)
    ensures
      var w' := Step(c, w, Advance(f, 0));
      var l := c.path(f)[FlowOf(w, f).sent[0].pos];
      !w'.exited ==> DecidedBy(FlowOf(w', f), before || NoRoom(c, w, f)) && (f in w'.links[l].held <==> !NoRoom(c, w, f))
  {
    var m := FlowOf(w, f).sent[0];
    var l := c.path(f)[m.pos];
    assert FlowOk(c, w.links, f, FlowOf(w, f)) && Placed(c, w.links, f, FlowOf(w, f));
    assert Agrees(FlowOf(w, f), m.pos, f in w.links[l].held, f in w.links[l].pending);
    LinkRequest(c.rate, c.caps[l], w.links[l], m.p);
    LinkAdmitsExactly(c.rate, c.caps[l], w.links[l], m.p);
  }

  lemma StepDecides(c: Config, w: World, f: int, e: Event, before: bool)
    requires c.Ok() && Inv(c, w) && f != FREE && !w.exited && (e.Stop? ==> FlowOf(w, e.f).running)
    requires DecidedBy(FlowOf(w, f), before) && !Step(c, w, e).exited
    ensures DecidedBy(FlowOf(Step(c, w, e), f),
                      !(e == Begin(f) && FlowOf(w, f) == NEW_FLOW) && (before || (e == Advance(f, 0) && NoRoom(c, w, f))))
  {
    InvStep(c, w, e);
    assert FlowOk(c, w.links, f, FlowOf(w, f));
    if e == Advance(f, 0) && FlowOf(w, f).phase.Asked? && CanAdvance(FlowOf(w, f).sent, 0, |c.path(f)|) {
      AdvanceDecides(c, w, f, before);
    } else if e.f == f && e.Advance? && FlowOf(w, f).phase.Idle? && CanAdvance(FlowOf(w, f).sent, e.i, |c.path(f)|) {
      InvIdle(c, w, f, e.i);
    }
  }

  /** Links decide by room alone: in every orderly run, a request that is still on its way, or was
      answered, carries a rejection exactly when some link of its path had no room for the flow
      when the request crossed it. */
  lemma {:induction false} RejectedExactly(c: Config, es: seq<Event>, f: int)
    requires c.Ok() && Orderly(c, Start(c), es) && f != FREE && !Run(c, es).exited
    ensures DecidedBy(FlowOf(Run(c, es), f), MetNoRoom(c, es, f))
    decreases es
  {
    if es != [] {
      var front, e := es[..|es| - 1], es[|es| - 1];
      RejectedExactly(c, front, f);
      InvAlways(c, front);
      StepDecides(c, Run(c, front), f, e, MetNoRoom(c, front, f));
    }
  }

  /** And at each crossing, the flow is held afterwards exactly when there was room. */
  lemma AdmittedExactly(c: Config, es: seq<Event>, f: int)
    requires c.Ok() && Orderly(c, Start(c), es) && f != FREE && !Run(c, es).exited
    requires var fl := FlowOf(Run(c, es), f); fl.phase.Asked? && CanAdvance(fl.sent, 0, |c.path(f)|)
    ensures
      var w := Run(c, es);
      var w' := Step(c, w, Advance(f, 0));
      var l := c.path(f)[FlowOf(w, f).sent[0].pos];
      !w'.exited ==> (f in w'.links[l].held <==> Sum(c.rate, w.links[l].held) + c.rate(f) <= c.caps[l])
  {
    InvAlways(c, es);
    RejectedExactly(c, es, f);
    AdvanceDecides(c, Run(c, es), f, MetNoRoom(c, es, f));
  }

  /** Traffic flows only over a fully reserved path: while the source runs every link holds the flow. */
  lemma RunningIsReserved(c: Config, es: seq<Event>, f: int)
    requires c.Ok() && Orderly(c, Start(c), es) && f != FREE && FlowOf(Run(c, es), f).running
    ensures AllHold(c, Run(c, es), f)
  {
    InvAlways(c, es);
    var w := Run(c, es);
    assert FlowOk(c, w.links, f, FlowOf(w, f)) && Placed(c, w.links, f, FlowOf(w, f));
    forall i | 0 <= i < |c.path(f)| ensures f in w.links[c.path(f)[i]].held {
      assert Agrees(FlowOf(w, f), i, f in w.links[c.path(f)[i]].held, f in w.links[c.path(f)[i]].pending);
    }
  }

  /** Some CONFIRM of the flow has yet to cross link `l`, or has yet to be sent. */
  ghost predicate ConfirmAhead(c: Config, fl: Flow, f: int, l: nat) {
    || !fl.phase.Idle?
    || (exists i | 0 <= i < |fl.sent| ::
          fl.sent[i].p.kind.Confirm? && fl.sent[i].pos <= |c.path(f)| && l in c.path(f)[fl.sent[i].pos..])
  }

  /** The ledger of link `l`: its reserved rate is the sum over the flows it holds, within zero and
      its capacity; the flow counter is one below their number; and the pending table lists exactly
      the flows that are admitted but unconfirmed, each once. */
  ghost predicate LedgerOk(c: Config, w: World, l: nat)
    requires |w.links| == |c.caps| && l < |c.caps|
  {
    var link := w.links[l];
    && link.resv == Sum(c.rate, link.held)
    && 0.0 <= link.resv <= c.caps[l]
    && link.numfl == |link.held| - 1
    && (forall f | f != FREE :: f in link.pending <==> f in link.held && ConfirmAhead(c, FlowOf(w, f), f, l))
    && Distinct(link.pending)
  }

  ghost predicate Sound(c: Config, w: World)
    requires |w.links| == |c.caps|
  {
    forall l: nat | l < |c.caps| :: LedgerOk(c, w, l)
  }

  lemma PendingExactly(c: Config, w: World, f: int, l: nat)
    requires c.Ok() && Inv(c, w) && l < |c.caps| && f != FREE
    ensures f in w.links[l].pending <==> f in w.links[l].held && ConfirmAhead(c, FlowOf(w, f), f, l)
  {
    var fl, path := FlowOf(w, f), c.path(f);
    assert FlowOk(c, w.links, f, fl) && Placed(c, w.links, f, fl);
    if l in path {
      var i :| 0 <= i < |path| && path[i] == l;
      assert Agrees(fl, i, f in w.links[path[i]].held, f in w.links[path[i]].pending);
      forall k: nat | k <= |path| ensures l in path[k..] <==> k <= i {
        if k <= i {
          assert path[k..][i - k] == l;
        }
      }
    }
  }

  lemma InvSound(c: Config, w: World)
    requires c.Ok() && Inv(c, w)
    ensures Sound(c, w)
  {
    forall l: nat | l < |c.caps| ensures LedgerOk(c, w, l) {
      assert LinkOk(c.rate, c.caps[l], w.links[l]);
      SumNonNegative(c.rate, w.links[l].held);
      forall f | f != FREE
        ensures f in w.links[l].pending <==> f in w.links[l].held && ConfirmAhead(c, FlowOf(w, f), f, l)
      {
        PendingExactly(c, w, f, l);
      }
    }
  }

  /** In every reachable state of an orderly run the ledgers of all links are right. */
  lemma Ledger(c: Config, es: seq<Event>, l: nat)
    requires c.Ok() && Orderly(c, Start(c), es) && l < |c.caps|
    ensures LedgerOk(c, Run(c, es), l)
  {
    InvAlways(c, es);
    InvSound(c, Run(c, es));
  }

  /** Nothing leaks: when no flow is running or has anything on its way, every link is back to an
      empty ledger. */
  lemma NothingLeaks(c: Config, es: seq<Event>, l: nat)
    requires c.Ok() && Orderly(c, Start(c), es) && l < |c.caps|
    requires forall f :: FlowOf(Run(c, es), f) == NEW_FLOW
    ensures
      var link := Run(c, es).links[l];
      link.resv == 0.0 && link.held == {} && link.pending == EmptyLink().pending
  {
    InvAlways(c, es);
    var w := Run(c, es);
    var link := w.links[l];
    forall f | f != FREE ensures f !in link.held && f !in link.pending {
      AllOrNothing(c, es, f);
    }
    assert link.held == {};
    forall i | 0 <= i < NFLOWS ensures link.pending[i] == FREE {
      assert link.pending[i] in link.pending;
    }
  }

  /** The flows in the pending table of a link. */
  ghost function PendingFlows(pending: seq<int>): set<int> {
    set f | f in pending && f != FREE
  }

  lemma {:induction false} FullTable(pending: seq<int>)
    requires Distinct(pending)
    ensures |PendingFlows(pending)| <= |pending|
    ensures |PendingFlows(pending)| == |pending| <==> FREE !in pending
    decreases |pending|
  {
    if pending == [] {
      assert PendingFlows(pending) == {};
    } else {
      var n := |pending| - 1;
      var front, x := pending[..n], pending[n];
      assert pending == front + [x];
      FullTable(front);
      if x == FREE {
        assert PendingFlows(pending) == PendingFlows(front);
      } else {
        assert x !in front;
        assert PendingFlows(pending) == PendingFlows(front) + {x};
      }
    }
  }

  /** The program leaves with an error exactly when a link admits a flow while as many flows as
      its table has slots are admitted but unconfirmed there. */
  lemma ExitsExactlyWhenFull(c: Config, es: seq<Event>, f: int)
    requires c.Ok() && Orderly(c, Start(c), es) && f != FREE && !Run(c, es).exited
    requires var fl := FlowOf(Run(c, es), f); fl.phase.Asked? && CanAdvance(fl.sent, 0, |c.path(f)|)
    ensures
      var w := Run(c, es);
      var l := c.path(f)[FlowOf(w, f).sent[0].pos];
      Step(c, w, Advance(f, 0)).exited <==>
        w.links[l].resv + c.rate(f) <= c.caps[l] && |PendingFlows(w.links[l].pending)| == 500
  {
    InvAlways(c, es);
    var w := Run(c, es);
    var fl := FlowOf(w, f);
    assert FlowOk(c, w.links, f, fl);
    var l := c.path(f)[fl.sent[0].pos];
    assert LinkOk(c.rate, c.caps[l], w.links[l]);
    FullTable(w.links[l].pending);
  }

  // ---------------------------------------------------------------- stopping a flow that is not running

  /** One TEARDOWN keeps the ledger of a link exactly when the link holds the flow. */
  lemma TeardownNeedsReservation(rate: int -> real, cap: real, l: LinkState, p: Packet)
    requires LinkOk(rate, cap, l) && p.kind.Teardown? && p.rate == rate(p.flow) >= 0.0
    ensures LinkOk(rate, cap, OnPacket(cap, l, p).value.0) <==> p.flow in l.held
  {
    if p.flow in l.held {
      LinkTeardown(rate, cap, l, p);
    } else {
      assert l.held - {p.flow} == l.held;
    }
  }

  /** For example, stopping a flow that an empty link never admitted leaves a negative reserved rate. */
  lemma StrayTeardown(flow: int)
    ensures OnPacket(1.0, EmptyLink(), TeardownOf(flow, 2.0)).value.0.resv == -2.0
  {
  }

  /** So does stopping a flow while its request is out, when another link rejects it: the rejecting
      CONFIRM rolls back once more, since the slot is still taken. */
  lemma TornDownWhilePending(flow: int)
    requires flow != FREE
    ensures
      var admitted := OnPacket(2.0, EmptyLink(), RequestOf(flow, 2.0)).value.0;
      var torn := OnPacket(2.0, admitted, TeardownOf(flow, 2.0)).value.0;
      var rejected := OnPacket(2.0, torn, Packet(Confirm, flow, 2.0, false)).value.0;
      admitted.resv == 2.0 && rejected.resv == -2.0 && rejected.held == {}
  {
    var empty := EmptyLink().pending;
    FindIsFirst(empty, FREE, 0);
    FindIsFirst(empty[0 := flow], flow, 0);
  }

  /** `w` with one more TEARDOWN of flow `f` setting out. */
  function Stray(c: Config, w: World, f: int): World {
    var fl := FlowOf(w, f);
    SetFlow(w, f, fl.(running := false, sent := fl.sent + [Moving(TeardownOf(f, c.rate(f)), 0)]))
  }

  predicate NoStops(es: seq<Event>) {
    forall e <- es :: !e.Stop?
  }

  ghost predicate Reaches(c: Config, a: World, b: World)
    requires c.Routed() && |a.links| == |c.caps|
  {
    exists es :: NoStops(es) && RunFrom(c, a, es) == b
  }

  lemma {:induction false} NoStopsOrderly(c: Config, w: World, es: seq<Event>)
    requires c.Routed() && |w.links| == |c.caps| && NoStops(es)
    ensures Orderly(c, w, es)
  {
    if es != [] {
      NoStopsOrderly(c, w, es[..|es| - 1]);
    }
  }

  lemma ReachesStep(c: Config, a: World, b: World, e: Event)
    requires c.Routed() && |a.links| == |c.caps| && Reaches(c, a, b) && !e.Stop?
    ensures |b.links| == |c.caps| && Reaches(c, a, Step(c, b, e))
  {
    var es :| NoStops(es) && RunFrom(c, a, es) == b;
    assert (es + [e])[..|es|] == es;
    assert NoStops(es + [e]) && RunFrom(c, a, es + [e]) == Step(c, b, e);
  }

  lemma StrayElsewhere(c: Config, w: World, f: int, links: seq<LinkState>, g: int, fl: Flow)
    requires g != f
    ensures SetFlow(Stray(c, w, f).(links := links), g, fl) == Stray(c, SetFlow(w.(links := links), g, fl), f)
  {
    var a, b := SetFlow(Stray(c, w, f).(links := links), g, fl), Stray(c, SetFlow(w.(links := links), g, fl), f);
    assert a.flows == b.flows;
  }

  lemma StrayAdvance(c: Config, w: World, f: int, g: int, i: nat)
    requires c.Routed() && |w.links| == |c.caps|
    requires CanAdvance(FlowOf(w, g).sent, i, |c.path(g)|) && (g == f ==> !FlowOf(w, f).running)
    ensures CanAdvance(FlowOf(Stray(c, w, f), g).sent, i, |c.path(g)|)
    ensures Cross(c, Stray(c, w, f), g, i) == Stray(c, Cross(c, w, g, i), f)
  {
    var fl, fl' := FlowOf(w, g), FlowOf(Stray(c, w, f), g);
    assert fl'.sent[..|fl.sent|] == fl.sent;
    assert fl'.sent[i] == fl.sent[i];
    var m := fl.sent[i];
    var l := c.path(g)[m.pos];
    match OnPacket(c.caps[l], w.links[l], m.p)
    case None =>
    case Some((link, out)) =>
      if g != f {
        StrayElsewhere(c, w, f, w.links[l := link], g, Moved(fl, i, out));
      } else {
        assert Moved(fl', i, out).sent == Moved(fl, i, out).sent + [Moving(TeardownOf(f, c.rate(f)), 0)];
        assert Cross(c, Stray(c, w, f), g, i).flows == Stray(c, Cross(c, w, g, i), f).flows;
      }
  }

  /** The stray packet is the last of its flow, so it hinders no other packet. */
  lemma StrayCommutes(c: Config, w: World, f: int, e: Event)
    requires c.Routed() && |w.links| == |c.caps| && !e.Stop? && !FlowOf(w, f).running
    requires e.f != f || (e.Advance? && e.i < |FlowOf(w, f).sent|)
    ensures Step(c, Stray(c, w, f), e) == Stray(c, Step(c, w, e), f)
  {
    if e.Advance? {
      var sent, sent' := FlowOf(w, e.f).sent, FlowOf(Stray(c, w, f), e.f).sent;
      assert sent'[..|sent|] == sent;
      if CanAdvance(sent, e.i, |c.path(e.f)|) {
        StrayAdvance(c, w, f, e.f, e.i);
      } else {
        assert !CanAdvance(sent', e.i, |c.path(e.f)|);
      }
    } else {
      var w' := Step(c, w, e);
      assert FlowOf(Stray(c, w, f), e.f) == FlowOf(w, e.f);
      if w' != w && w'.exited == w.exited {
        StrayElsewhere(c, w, f, w'.links, e.f, FlowOf(w', e.f));
      }
    }
  }

  /** While the stray TEARDOWN waits at the source, the world goes on below it. */
  ghost predicate Below(c: Config, w: World, w': World, f: int)
    requires c.Routed() && |w.links| == |c.caps|
  {
    Inv(c, w') && !w'.exited && !FlowOf(w', f).running && Reaches(c, Stray(c, w, f), Stray(c, w', f))
  }

  lemma BelowStep(c: Config, w: World, w': World, f: int, e: Event)
    requires c.Ok() && |w.links| == |c.caps| && Below(c, w, w', f) && !e.Stop? && !Step(c, w', e).exited
    requires e.f != f || (e.Advance? && e.i < |FlowOf(w', f).sent|)
    ensures Below(c, w, Step(c, w', e), f)
  {
    InvStep(c, w', e);
    StrayCommutes(c, w', f, e);
    ReachesStep(c, Stray(c, w, f), Stray(c, w', f), e);
    assert FlowOf(Step(c, w', e), f).running == FlowOf(w', f).running;
  }

  /** The links that the request of `g` has yet to cross have a free slot. */
  ghost predicate RoomAhead(c: Config, w: World, g: int)
    requires c.Routed() && |w.links| == |c.caps|
  {
    var fl, path := FlowOf(w, g), c.path(g);
    fl.phase.Asked? && fl.sent != [] ==>
      forall i | fl.sent[0].pos <= i < |path| :: FREE in w.links[path[i]].pending
  }

  /** How many steps a flow needs at most until it is pending nowhere. */
  function Work(fl: Flow, n: nat, m: nat): nat {
    match fl.phase
    case Asked => n + m + 3 + if fl.sent != [] && fl.sent[0].pos <= n then n - fl.sent[0].pos else 0
    case Answered(_, back) => n + 2 + if back <= m then m - back else 0
    case Idle => if fl.sent != [] && fl.sent[0].p.kind.Confirm? && fl.sent[0].pos <= n then n - fl.sent[0].pos else 0
  }

  /** The next step of a flow that is pending somewhere, if it meets no full table. */
  lemma DriveStep(c: Config, w: World, g: int) returns (e: Event)
    requires c.Ok() && Inv(c, w) && !w.exited && g != FREE && RoomAhead(c, w, g)
    requires Work(FlowOf(w, g), |c.path(g)|, |c.back(g)|) > 0
    ensures e.f == g && !e.Stop?
    ensures
      var w' := Step(c, w, e);
      && !w'.exited && RoomAhead(c, w', g)
      && Work(FlowOf(w', g), |c.path(g)|, |c.back(g)|) < Work(FlowOf(w, g), |c.path(g)|, |c.back(g)|)
  {
    var fl := FlowOf(w, g);
    assert FlowOk(c, w.links, g, fl);
    match fl.phase
    case Asked =>
      if fl.sent[0].pos < |c.path(g)| {
        e := Advance(g, 0);
        assert FREE in w.links[c.path(g)[fl.sent[0].pos]].pending;
        InvRequest(c, w, g);
      } else {
        e := Arrive(g);
      }
    case Answered(_, back) => e := if back < |c.back(g)| then Return(g) else Turn(g);
    case Idle =>
      e := Advance(g, 0);
      InvIdle(c, w, g, 0);
  }

  lemma {:induction false} Drive(c: Config, w: World, w1: World, g: int, f: int) returns (w2: World)
    requires c.Ok() && |w.links| == |c.caps| && Below(c, w, w1, f)
    requires g != f && g != FREE && RoomAhead(c, w1, g)
    ensures Below(c, w, w2, f) && Elsewhere(w1, w2, g) && NonePending(w2, g)
    decreases Work(FlowOf(w1, g), |c.path(g)|, |c.back(g)|)
  {
    if Work(FlowOf(w1, g), |c.path(g)|, |c.back(g)|) == 0 {
      w2 := w1;
      var fl := FlowOf(w1, g);
      assert FlowOk(c, w1.links, g, fl) && Placed(c, w1.links, g, fl);
      forall l | 0 <= l < |w1.links| && l in c.path(g) ensures g !in w1.links[l].pending {
        var i :| 0 <= i < |c.path(g)| && c.path(g)[i] == l;
        assert Agrees(fl, i, g in w1.links[c.path(g)[i]].held, g in w1.links[c.path(g)[i]].pending);
      }
    } else {
      var e := DriveStep(c, w1, g);
      InvStep(c, w1, e);
      BelowStep(c, w, w1, f, e);
      w2 := Drive(c, w, Step(c, w1, e), g, f);
    }
  }

  /** Where flow `g` gives up its slot, or was not pending, a free slot is left. */
  lemma RoomKept(pending: seq<int>, pending': seq<int>, g: int)
    requires Distinct(pending) && Distinct(pending') && |pending| == |pending'| && g != FREE && g !in pending'
    requires forall x | x != g && x != FREE :: x in pending' <==> x in pending
    requires FREE in pending || g in pending
    ensures FREE in pending'
  {
    FullTable(pending);
    FullTable(pending');
    assert PendingFlows(pending') == PendingFlows(pending) - {g};
  }

  /** The request of `f` has not crossed a link. */
  predicate AtStart(fl: Flow) {
    fl.phase.Asked? && fl.sent != [] && fl.sent[0].pos == 0
  }

  lemma StartNotPending(c: Config, w: World, f: int, l: nat)
    requires c.Ok() && Inv(c, w) && f != FREE && AtStart(FlowOf(w, f)) && l < |c.caps|
    ensures f !in w.links[l].pending
  {
    var fl, path := FlowOf(w, f), c.path(f);
    assert Placed(c, w.links, f, fl);
    if l in path {
      var i :| 0 <= i < |path| && path[i] == l;
      assert Agrees(fl, i, f in w.links[path[i]].held, f in w.links[path[i]].pending);
    }
  }

  /** Once `g` is through, link `l` has room, and so have the links above it. */
  lemma DrainOne(c: Config, w: World, w1: World, f: int, l: nat) returns (w2: World)
    requires c.Ok() && c.Upwards() && |w.links| == |c.caps| && Below(c, w, w1, f) && l < |c.caps|
    requires f != FREE && AtStart(FlowOf(w1, f)) && FREE !in w1.links[l].pending
    requires forall i | l < i < |c.caps| :: FREE in w1.links[i].pending
    ensures Below(c, w, w2, f) && FlowOf(w2, f) == FlowOf(w1, f)
    ensures forall i | l <= i < |c.caps| :: FREE in w2.links[i].pending
  {
    assert LinkOk(c.rate, c.caps[l], w1.links[l]);
    var g := w1.links[l].pending[0];
    assert g in w1.links[l].pending;
    PendingRoom(c, w1, g, l);
    StartNotPending(c, w1, f, l);
    w2 := Drive(c, w, w1, g, f);
    forall i | l <= i < |c.caps| ensures FREE in w2.links[i].pending {
      assert LinkOk(c.rate, c.caps[i], w1.links[i]) && LinkOk(c.rate, c.caps[i], w2.links[i]);
      RoomKept(w1.links[i].pending, w2.links[i].pending, g);
    }
  }

  /** When paths go upwards, waiting requests can always be let through, so that no table is full. */
  lemma {:induction false} Drain(c: Config, w: World, w1: World, f: int, h: nat) returns (w2: World)
    requires c.Ok() && c.Upwards() && |w.links| == |c.caps| && Below(c, w, w1, f) && h <= |c.caps|
    requires f != FREE && AtStart(FlowOf(w1, f))
    requires forall l | h <= l < |c.caps| :: FREE in w1.links[l].pending
    ensures Below(c, w, w2, f) && FlowOf(w2, f) == FlowOf(w1, f)
    ensures forall l | 0 <= l < |c.caps| :: FREE in w2.links[l].pending
    decreases h
  {
    w2 := w1;
    if h > 0 {
      if FREE !in w1.links[h - 1].pending {
        w2 := DrainOne(c, w, w1, f, h - 1);
      }
      w2 := Drain(c, w, w2, f, h - 1);
    }
  }

  lemma PendingRoom(c: Config, w: World, g: int, l: nat)
    requires c.Ok() && c.Upwards() && Inv(c, w) && l < |c.caps| && g != FREE && g in w.links[l].pending
    requires forall i | l < i < |c.caps| :: FREE in w.links[i].pending
    ensures RoomAhead(c, w, g)
  {
    var fl, path := FlowOf(w, g), c.path(g);
    assert FlowOk(c, w.links, g, fl) && Placed(c, w.links, g, fl);
    assert l in path;
    var i :| 0 <= i < |path| && path[i] == l;
    assert Agrees(fl, i, g in w.links[path[i]].held, g in w.links[path[i]].pending);
  }

  lemma AdvanceIdle(c: Config, w: World, w1: World, f: int, j: nat) returns (w2: World)
    requires c.Ok() && |w.links| == |c.caps| && Below(c, w, w1, f) && f != FREE
    requires FlowOf(w1, f).phase.Idle? && CanAdvance(FlowOf(w1, f).sent, j, |c.path(f)|)
    ensures Below(c, w, w2, f) && FlowOf(w2, f) == Moved(FlowOf(w1, f), j, FlowOf(w1, f).sent[j].p)
  {
    InvIdle(c, w1, f, j);
    BelowStep(c, w, w1, f, Advance(f, j));
    w2 := Step(c, w1, Advance(f, j));
  }

  lemma ClearStart(c: Config, w: World, f: int) returns (w': World)
    requires c.Ok() && c.Upwards() && |w.links| == |c.caps| && Below(c, w, w, f) && f != FREE && c.path(f) != []
    requires AtStart(FlowOf(w, f))
    ensures Below(c, w, w', f) && forall m <- FlowOf(w', f).sent :: m.pos > 0
  {
    var w1 := Drain(c, w, w, f, |c.caps|);
    InvRequest(c, w1, f);
    BelowStep(c, w, w1, f, Advance(f, 0));
    w' := Step(c, w1, Advance(f, 0));
    assert FlowOk(c, w'.links, f, FlowOf(w', f));
  }

  /** The world can go on until everything else of the flow has crossed its first link. */
  lemma ClearFirstLink(c: Config, w: World, f: int) returns (w': World)
    requires c.Ok() && |w.links| == |c.caps| && Below(c, w, w, f) && f != FREE && c.path(f) != []
    requires c.Upwards() || !AtStart(FlowOf(w, f))
    ensures Below(c, w, w', f) && forall m <- FlowOf(w', f).sent :: m.pos > 0
  {
    w' := w;
    var fl := FlowOf(w, f);
    assert FlowOk(c, w.links, f, fl);
    if AtStart(fl) {
      w' := ClearStart(c, w, f);
    } else if fl.phase.Idle? {
      if fl.sent != [] && fl.sent[0].pos == 0 {
        w' := AdvanceIdle(c, w, w, f, 0);
      }
      if |fl.sent| == 2 && fl.sent[1].pos == 0 {
        w' := AdvanceIdle(c, w, w', f, 1);
      }
    }
  }

  /** There the stray TEARDOWN breaks the ledger: either the link does not hold the flow, and counts
      one too few, or it still lists as pending what it no longer holds. */
  lemma StrayBreaks(c: Config, w: World, f: int)
    requires c.Ok() && Inv(c, w) && !w.exited && !FlowOf(w, f).running && f != FREE && c.path(f) != []
    requires forall m <- FlowOf(w, f).sent :: m.pos > 0
    ensures !Sound(c, Step(c, Stray(c, w, f), Advance(f, |FlowOf(w, f).sent|)))
  {
    var fl, l := FlowOf(w, f), c.path(f)[0];
    var a := Stray(c, w, f);
    var w' := Step(c, a, Advance(f, |fl.sent|));
    assert Placed(c, w.links, f, fl) && LinkOk(c.rate, c.caps[l], w.links[l]);
    assert Agrees(fl, 0, f in w.links[l].held, f in w.links[l].pending);
    assert FlowOk(c, w.links, f, fl);
    assert CanAdvance(FlowOf(a, f).sent, |fl.sent|, |c.path(f)|);
    var link := OnPacket(c.caps[l], w.links[l], TeardownOf(f, c.rate(f))).value.0;
    assert w'.links[l] == link;
    if f !in w.links[l].held {
      assert link.held == w.links[l].held;
      assert link.numfl != |link.held| - 1;
    } else {
      assert f in link.pending && f !in link.held;
    }
    assert !LedgerOk(c, w', l);
  }

  lemma StopRunning(c: Config, w: World, f: int, more: seq<Event>)
    requires c.Ok() && Inv(c, w) && FlowOf(w, f).running && Orderly(c, Step(c, w, Stop(f)), more)
    ensures Sound(c, RunFrom(c, Step(c, w, Stop(f)), more))
  {
    InvStep(c, w, Stop(f));
    InvFrom(c, Step(c, w, Stop(f)), more);
    InvSound(c, RunFrom(c, Step(c, w, Stop(f)), more));
  }

  lemma StopStray(c: Config, w: World, f: int) returns (more: seq<Event>)
    requires c.Ok() && Inv(c, w) && !w.exited && f != FREE && c.path(f) != [] && !FlowOf(w, f).running
    requires c.Upwards() || !AtStart(FlowOf(w, f))
    ensures Orderly(c, Step(c, w, Stop(f)), more) && !Sound(c, RunFrom(c, Step(c, w, Stop(f)), more))
  {
    var stopped := Step(c, w, Stop(f));
    assert stopped == Stray(c, w, f);
    assert NoStops([]) && RunFrom(c, stopped, []) == stopped;
    var w' := ClearFirstLink(c, w, f);
    StrayBreaks(c, w', f);
    var broken := Step(c, Stray(c, w', f), Advance(f, |FlowOf(w', f).sent|));
    ReachesStep(c, stopped, Stray(c, w', f), Advance(f, |FlowOf(w', f).sent|));
    more :| NoStops(more) && RunFrom(c, stopped, more) == broken;
    NoStopsOrderly(c, stopped, more);
  }

  /** `stop()` may be called at any time and sends TEARDOWN without asking. In an orderly run,
      stopping a flow keeps all ledgers right, whatever happens next, exactly when the flow is
      running at its source. (Were the request of the flow still in front of its first link, and
      did paths run in circles, the program could be bound to exit before the damage shows.) */
  lemma StopSafeExactly(c: Config, es: seq<Event>, f: int)
    requires c.Ok() && Orderly(c, Start(c), es) && f != FREE && c.path(f) != []
    requires !Run(c, es).exited && (c.Upwards() || !AtStart(FlowOf(Run(c, es), f)))
    ensures
      var w := Run(c, es);
      var stopped := Step(c, w, Stop(f));
      FlowOf(w, f).running <==>
        forall more :: Orderly(c, stopped, more) ==> Sound(c, RunFrom(c, stopped, more))
  {
    var w := Run(c, es);
    var stopped := Step(c, w, Stop(f));
    InvAlways(c, es);
    if FlowOf(w, f).running {
      forall more | Orderly(c, stopped, more) ensures Sound(c, RunFrom(c, stopped, more)) {
        StopRunning(c, w, f, more);
      }
    } else {
      var more := StopStray(c, w, f);
    }
  }
}
