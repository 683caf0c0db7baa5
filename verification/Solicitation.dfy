/** How a router answers Router Solicitations while it sends periodic Router Advertisements by
    broadcast (hsntg/nd.cc; section 6.2.6 of RFC 4861). The random delays are parameters. */
module Solicitation {
  import opened Basics

  datatype Config = Config(minDelayBetweenRA: real, maxRADelay: real) {
    predicate Ok() {
      0.0 <= minDelayBetweenRA && 0.0 <= maxRADelay
    }

    function Bound(): real {
      maxRADelay + minDelayBetweenRA
    }
  }

  /** A pending reply timer. */
  datatype Reply = Reply(id: nat, due: real)

  /** `nextRA` is -1 while no periodic advertisement is scheduled; `sent` logs every advertisement. */
  datatype State = State(lastRA: real, nextRA: real, timer: Option<real>, replies: seq<Reply>, nextId: nat, sent: seq<real>)

  const NONE_SCHEDULED := -1.0

  const IDLE := State(0.0, NONE_SCHEDULED, None, [], 0, [])

  // ---------------------------------------------------------------- operations

  function OnStartRa(s: State, now: real, interval: real): State {
    s.(nextRA := now + interval, timer := Some(now + interval))
  }

  function OnRaTimer(s: State, now: real, interval: real): State {
    s.(lastRA := now, nextRA := now + interval, timer := Some(now + interval), sent := s.sent + [now])
  }

  function Schedule(s: State, due: real): State {
    s.(replies := [Reply(s.nextId, due)] + s.replies, nextId := s.nextId + 1)
  }

  /** `recv_rs` with the delay it drew: when the answer is scheduled, if it is. */
  function AnswerAt(c: Config, s: State, now: real, delay: real): Option<real> {
    if s.nextRA != NONE_SCHEDULED && s.nextRA - now < delay then None
    else if now + delay - s.lastRA < c.minDelayBetweenRA then
      if s.nextRA != NONE_SCHEDULED && s.nextRA > now && s.nextRA - now < delay + c.minDelayBetweenRA then None
      else Some(now + (delay + s.lastRA + c.minDelayBetweenRA - now))
    else Some(now + delay)
  }

  function OnSolicit(c: Config, s: State, now: real, delay: real): State {
    match AnswerAt(c, s, now, delay)
    case None => s
    case Some(due) => Schedule(s, due)
  }

  function IndexOf(replies: seq<Reply>, id: nat): (k: nat)
    ensures k <= |replies|
    ensures k < |replies| ==> replies[k].id == id
    ensures forall i | 0 <= i < k :: replies[i].id != id
  {
    FirstIndex(replies, (r: Reply) => r.id == id)
  }

  function OnReply(s: State, now: real, id: nat): State {
    var k := IndexOf(s.replies, id);
    s.(sent := s.sent + [now], replies := if k < |s.replies| then s.replies[..k] + s.replies[k + 1..] else s.replies)
  }

  class Router {
    const c: Config
    var lastRA: real
    var nextRA: real
    var timer: Option<real>
    var replies: seq<Reply>
    var nextId: nat
    var sent: seq<real>

    ghost function View(): State
      reads this
    {
      State(lastRA, nextRA, timer, replies, nextId, sent)
    }

    constructor (c: Config)
      ensures this.c == c && View() == IDLE
    {
      this.c := c;
      lastRA, nextRA, timer, replies, nextId, sent := 0.0, NONE_SCHEDULED, None, [], 0, [];
    }

    method StartRa(now: real, interval: real)
      modifies this
      ensures View() == OnStartRa(old(View()), now, interval)
    {
      nextRA := interval;
      timer := Some(now + nextRA);
      nextRA := nextRA + now;
    }

    method RaTimeout(now: real, interval: real)
      modifies this
      ensures View() == OnRaTimer(old(View()), now, interval)
    {
      lastRA := now;
      nextRA := interval;
      timer := Some(now + nextRA);
      nextRA := nextRA + now;
      sent := sent + [now];
    }

    method RecvRs(now: real, delay: real)
      modifies this
      ensures View() == OnSolicit(c, old(View()), now, delay)
    {
      if nextRA != NONE_SCHEDULED && nextRA - now < delay {
        return;
      }
      if now + delay - lastRA < c.minDelayBetweenRA {
        if nextRA != NONE_SCHEDULED && nextRA > now && nextRA - now < delay + c.minDelayBetweenRA {
          return;
        }
        replies := [Reply(nextId, now + (delay + lastRA + c.minDelayBetweenRA - now))] + replies;
      } else {
        replies := [Reply(nextId, now + delay)] + replies;
      }
      nextId := nextId + 1;
    }

    method ProcessRsReply(now: real, id: nat)
      modifies this
      ensures View() == OnReply(old(View()), now, id)
    {
      sent := sent + [now];
      var i := 0;
      while i < |replies|
        invariant 0 <= i <= |replies|
        invariant forall j | 0 <= j < i :: replies[j].id != id
        invariant View() == old(View()).(sent := old(sent) + [now])
      {
        if replies[i].id == id {
          assert IndexOf(replies, id) == i;
          replies := replies[..i] + replies[i + 1..];
          return;
        }
        i := i + 1;
      }
    }
  }

  // ---------------------------------------------------------------- runs

  datatype Event = Solicit(at: real, delay: real) | RaFires(interval: real) | ReplyFires(k: nat)

  /** A solicitation: when it arrived, and by when it has to be answered. */
  datatype Asked = Asked(at: real, deadline: real)

  /** The router, the clock, and the solicitations. */
  datatype World = World(s: State, clock: real, solicited: seq<Asked>)

  /** The next periodic advertisement will do as the answer: it comes before the delay is over, or,
      where the spacing holds the answer back, within the minimum spacing after it. */
  predicate PeriodicWillDo(c: Config, s: State, at: real, delay: real) {
    || s.nextRA < at + delay
    || (s.lastRA + c.minDelayBetweenRA > at + delay && s.nextRA > at && s.nextRA < at + delay + c.minDelayBetweenRA)
  }

  /** By when a solicitation is answered: by the next periodic advertisement if that will do, else
      after its delay if the spacing permits, and else that much after the minimum spacing. */
  function Deadline(c: Config, s: State, at: real, delay: real): real {
    if PeriodicWillDo(c, s, at, delay) then s.nextRA
    else if s.lastRA + c.minDelayBetweenRA <= at + delay then at + delay
    else s.lastRA + c.minDelayBetweenRA + delay
  }

  /** Nothing that is pending is due before `at`. */
  ghost predicate NothingBefore(s: State, at: real) {
    && (s.timer.Some? ==> at <= s.timer.value)
    && (forall i | 0 <= i < |s.replies| :: at <= s.replies[i].due)
  }

  ghost predicate Enabled(c: Config, w: World, e: Event) {
    match e
    case Solicit(at, delay) => w.clock <= at && NothingBefore(w.s, at) && 0.0 <= delay <= c.maxRADelay
    case RaFires(interval) => w.s.timer.Some? && NothingBefore(w.s, w.s.timer.value) && interval >= 0.0
    case ReplyFires(k) => k < |w.s.replies| && NothingBefore(w.s, w.s.replies[k].due)
  }

  ghost function Step(c: Config, w: World, e: Event): World {
    if !Enabled(c, w, e) then w
    else match e
      case Solicit(at, delay) =>
        World(OnSolicit(c, w.s, at, delay), at, w.solicited + [Asked(at, Deadline(c, w.s, at, delay))])
      case RaFires(interval) => World(OnRaTimer(w.s, w.s.timer.value, interval), w.s.timer.value, w.solicited)
      case ReplyFires(k) => World(OnReply(w.s, w.s.replies[k].due, w.s.replies[k].id), w.s.replies[k].due, w.solicited)
  }

  /** Runs start when periodic advertisements are started, at `from`, with a first interval. */
  ghost function Run(c: Config, from: real, interval: real, es: seq<Event>): World {
    if es == [] then World(OnStartRa(IDLE, from, interval), from, [])
    else Step(c, Run(c, from, interval, es[..|es| - 1]), es[|es| - 1])
  }

  // ---------------------------------------------------------------- invariant

  ghost predicate TimersOk(w: World) {
    && 0.0 <= w.clock
    && w.s.lastRA <= w.clock <= w.s.nextRA
    && w.s.timer == Some(w.s.nextRA)
    && NothingBefore(w.s, w.clock)
    && IdsOk(w.s.replies, w.s.nextId)
  }

  ghost predicate IdsOk(replies: seq<Reply>, nextId: nat) {
    && (forall i | 0 <= i < |replies| :: replies[i].id < nextId)
    && (forall i, j | 0 <= i < j < |replies| :: replies[i].id != replies[j].id)
  }

  ghost predicate SentWithin(s: State, from: real, to: real) {
    exists i | 0 <= i < |s.sent| :: from <= s.sent[i] <= to
  }

  ghost predicate ReplyWithin(s: State, from: real, to: real) {
    exists i | 0 <= i < |s.replies| :: from <= s.replies[i].due <= to
  }

  /** A solicitation has been answered in time, or a timer that will do so is pending. */
  ghost predicate Covered(s: State, a: Asked) {
    || SentWithin(s, a.at, a.deadline)
    || s.nextRA <= a.deadline
    || ReplyWithin(s, a.at, a.deadline)
  }

  ghost predicate Inv(c: Config, w: World) {
    && TimersOk(w)
    && (forall i | 0 <= i < |w.solicited| ::
          && w.solicited[i].at <= w.clock
          && w.solicited[i].deadline <= w.solicited[i].at + c.Bound()
          && Covered(w.s, w.solicited[i]))
  }

  /** What a reply may look like: never in the past, within the bound, and at least the minimum
      delay after the last periodic advertisement; no later than the next one exactly unless the
      next one is due at this very instant and the minimum delay has not passed. */
  lemma AnswerBounds(c: Config, s: State, now: real, delay: real)
    requires c.Ok() && 0.0 <= delay <= c.maxRADelay && s.lastRA <= now <= s.nextRA && 0.0 <= now
    ensures
      match AnswerAt(c, s, now, delay)
      case None => s.nextRA <= now + c.Bound()
      case Some(due) =>
        && now + delay <= due <= now + c.Bound()
        && s.lastRA + c.minDelayBetweenRA <= due
        && (due <= s.nextRA <==> s.nextRA > now || s.lastRA + c.minDelayBetweenRA <= now + delay)
  {
  }

  /** The answer is scheduled exactly when no periodic advertisement will do, for the deadline. */
  lemma AnswerExactly(c: Config, s: State, now: real, delay: real)
    requires c.Ok() && 0.0 <= delay <= c.maxRADelay && s.lastRA <= now <= s.nextRA && 0.0 <= now
    ensures AnswerAt(c, s, now, delay) ==
      if PeriodicWillDo(c, s, now, delay) then None else Some(Deadline(c, s, now, delay))
    ensures now <= Deadline(c, s, now, delay) <= now + c.Bound()
  {
  }

  lemma ScheduleCovers(s: State, due: real, a: Asked)
    requires Covered(s, a) || a.at <= due <= a.deadline
    ensures Covered(Schedule(s, due), a)
  {
    var s' := Schedule(s, due);
    if a.at <= due <= a.deadline {
      assert s'.replies[0].due == due;
    } else if ReplyWithin(s, a.at, a.deadline) {
      var i :| 0 <= i < |s.replies| && a.at <= s.replies[i].due <= a.deadline;
      assert s'.replies[i + 1] == s.replies[i];
    }
  }

  lemma ScheduleTimersOk(w: World, at: real, due: real)
    requires TimersOk(w) && NothingBefore(w.s, at) && w.clock <= at <= due
    ensures forall asked :: TimersOk(World(Schedule(w.s, due), at, asked))
  {
    var s' := Schedule(w.s, due);
    assert s'.replies[0] == Reply(w.s.nextId, due);
    assert forall i | 1 <= i < |s'.replies| :: s'.replies[i] == w.s.replies[i - 1];
  }

  lemma SolicitOk(c: Config, w: World, at: real, delay: real)
    requires c.Ok() && Inv(c, w) && Enabled(c, w, Solicit(at, delay))
    ensures Inv(c, Step(c, w, Solicit(at, delay)))
  {
    AnswerExactly(c, w.s, at, delay);
    var w' := Step(c, w, Solicit(at, delay));
    match AnswerAt(c, w.s, at, delay)
    case None =>
    case Some(due) =>
      ScheduleTimersOk(w, at, due);
      forall i | 0 <= i < |w'.solicited| ensures Covered(w'.s, w'.solicited[i]) {
        assert i < |w.solicited| ==> Covered(w.s, w.solicited[i]);
        ScheduleCovers(w.s, due, w'.solicited[i]);
      }
  }

  /** The first advertisement after a solicitation comes no later than the timer that covers it. */
  lemma SentCovers(w: World, s': State, now: real, a: Asked)
    requires Covered(w.s, a) && a.at <= w.clock <= now && s'.sent == w.s.sent + [now]
    requires SentWithin(w.s, a.at, a.deadline) || now <= a.deadline
    ensures Covered(s', a)
  {
    if SentWithin(w.s, a.at, a.deadline) {
      var i :| 0 <= i < |w.s.sent| && a.at <= w.s.sent[i] <= a.deadline;
      assert s'.sent[i] == w.s.sent[i];
    } else {
      assert s'.sent[|w.s.sent|] == now;
    }
  }

  lemma RaOk(c: Config, w: World, interval: real)
    requires c.Ok() && Inv(c, w) && Enabled(c, w, RaFires(interval))
    ensures Inv(c, Step(c, w, RaFires(interval)))
  {
    var now := w.s.nextRA;
    var w' := Step(c, w, RaFires(interval));
    forall i | 0 <= i < |w.solicited| ensures Covered(w'.s, w.solicited[i]) {
      assert Covered(w.s, w.solicited[i]);
      SentCovers(w, w'.s, now, w.solicited[i]);
    }
  }

  lemma WithoutReply(replies: seq<Reply>, nextId: nat, k: nat)
    requires IdsOk(replies, nextId) && k < |replies|
    ensures
      var left := replies[..k] + replies[k + 1..];
      IdsOk(left, nextId) && forall i | 0 <= i < |left| :: left[i] == replies[if i < k then i else i + 1]
  {
  }

  lemma ReplyTimersOk(s: State, now: real, k: nat)
    requires IdsOk(s.replies, s.nextId) && k < |s.replies| && NothingBefore(s, now)
    ensures
      var s' := OnReply(s, now, s.replies[k].id);
      IdsOk(s'.replies, s'.nextId) && NothingBefore(s', now)
  {
    assert IndexOf(s.replies, s.replies[k].id) == k;
    WithoutReply(s.replies, s.nextId, k);
  }

  lemma ReplyOk(c: Config, w: World, k: nat)
    requires c.Ok() && Inv(c, w) && Enabled(c, w, ReplyFires(k))
    ensures Inv(c, Step(c, w, ReplyFires(k)))
  {
    var now := w.s.replies[k].due;
    var w' := Step(c, w, ReplyFires(k));
    ReplyTimersOk(w.s, now, k);
    forall i | 0 <= i < |w.solicited| ensures Covered(w'.s, w.solicited[i]) {
      assert Covered(w.s, w.solicited[i]);
      SentCovers(w, w'.s, now, w.solicited[i]);
    }
  }

  lemma {:induction false} InvAlways(c: Config, from: real, interval: real, es: seq<Event>)
    requires c.Ok() && from >= 0.0 && interval >= 0.0
    ensures Inv(c, Run(c, from, interval, es))
    decreases es
  {
    if es != [] {
      var front, e := es[..|es| - 1], es[|es| - 1];
      InvAlways(c, from, interval, front);
      if Enabled(c, Run(c, from, interval, front), e) {
        match e
        case Solicit(at, delay) => SolicitOk(c, Run(c, from, interval, front), at, delay);
        case RaFires(next) => RaOk(c, Run(c, from, interval, front), next);
        case ReplyFires(k) => ReplyOk(c, Run(c, from, interval, front), k);
      }
    }
  }

  // ---------------------------------------------------------------- results

  /** Bounded response: while periodic advertisements run, every solicitation is followed by an
      advertisement by its deadline, and so within the maximum reply delay plus the minimum spacing. */
  lemma EverySolicitationAnswered(c: Config, from: real, interval: real, es: seq<Event>, i: nat)
    requires c.Ok() && from >= 0.0 && interval >= 0.0
    requires i < |Run(c, from, interval, es).solicited|
    ensures
      var w := Run(c, from, interval, es);
      var a := w.solicited[i];
      && a.deadline <= a.at + c.Bound()
      && (w.clock > a.deadline ==> SentWithin(w.s, a.at, a.deadline))
  {
    InvAlways(c, from, interval, es);
    var w := Run(c, from, interval, es);
    assert Covered(w.s, w.solicited[i]);
  }

  lemma {:induction false} SolicitedKept(c: Config, from: real, interval: real, es: seq<Event>, more: seq<Event>)
    ensures Run(c, from, interval, es).solicited <= Run(c, from, interval, es + more).solicited
    decreases more
  {
    if more == [] {
      assert es + more == es;
    } else {
      var n := |more| - 1;
      SolicitedKept(c, from, interval, es, more[..n]);
      assert es + more == (es + more[..n]) + [more[n]];
      RunAppend(c, from, interval, es + more[..n], more[n]);
    }
  }

  /** A solicitation whose delay ends neither too soon after the last advertisement nor after the
      next one is answered within its delay, whatever happens next. */
  lemma AnsweredWithinDelay(c: Config, from: real, interval: real, es: seq<Event>, at: real, delay: real, more: seq<Event>)
    requires c.Ok() && from >= 0.0 && interval >= 0.0
    requires Enabled(c, Run(c, from, interval, es), Solicit(at, delay))
    requires
      var s := Run(c, from, interval, es).s;
      s.lastRA + c.minDelayBetweenRA <= at + delay <= s.nextRA
    ensures
      var w := Run(c, from, interval, es + [Solicit(at, delay)] + more);
      w.clock > at + delay ==> SentWithin(w.s, at, at + delay)
  {
    var n := |Run(c, from, interval, es).solicited|;
    RunAppend(c, from, interval, es, Solicit(at, delay));
    SolicitedKept(c, from, interval, es + [Solicit(at, delay)], more);
    assert Run(c, from, interval, es + [Solicit(at, delay)]).solicited[n] == Asked(at, at + delay);
    EverySolicitationAnswered(c, from, interval, es + [Solicit(at, delay)] + more, n);
  }

  /** In all cases it is answered by the deadline that the last and the next advertisement set. */
  lemma AnsweredByDeadline(c: Config, from: real, interval: real, es: seq<Event>, at: real, delay: real, more: seq<Event>)
    requires c.Ok() && from >= 0.0 && interval >= 0.0
    requires Enabled(c, Run(c, from, interval, es), Solicit(at, delay))
    ensures
      var deadline := Deadline(c, Run(c, from, interval, es).s, at, delay);
      var w := Run(c, from, interval, es + [Solicit(at, delay)] + more);
      w.clock > deadline ==> SentWithin(w.s, at, deadline)
  {
    var n := |Run(c, from, interval, es).solicited|;
    RunAppend(c, from, interval, es, Solicit(at, delay));
    SolicitedKept(c, from, interval, es + [Solicit(at, delay)], more);
    var deadline := Deadline(c, Run(c, from, interval, es).s, at, delay);
    assert Run(c, from, interval, es + [Solicit(at, delay)]).solicited[n] == Asked(at, deadline);
    EverySolicitationAnswered(c, from, interval, es + [Solicit(at, delay)] + more, n);
  }

  /** A solicitation schedules an answer exactly when no periodic advertisement will do, not before
      its delay is over nor before the minimum spacing, and changes nothing else. */
  lemma SolicitsExactly(c: Config, from: real, interval: real, es: seq<Event>, at: real, delay: real)
    requires c.Ok() && from >= 0.0 && interval >= 0.0
    requires Enabled(c, Run(c, from, interval, es), Solicit(at, delay))
    ensures
      var s, s' := Run(c, from, interval, es).s, Run(c, from, interval, es + [Solicit(at, delay)]).s;
      var deadline := Deadline(c, s, at, delay);
      && s' == s.(replies := s'.replies, nextId := s'.nextId)
      && s'.replies == (if PeriodicWillDo(c, s, at, delay) then [] else [Reply(s.nextId, deadline)]) + s.replies
      && (!PeriodicWillDo(c, s, at, delay) ==> at + delay <= deadline && s.lastRA + c.minDelayBetweenRA <= deadline)
  {
    InvAlways(c, from, interval, es);
    AnswerExactly(c, Run(c, from, interval, es).s, at, delay);
    RunAppend(c, from, interval, es, Solicit(at, delay));
  }

  /** How many periodic advertisements a run has sent, and the intervals that were drawn. */
  ghost function Periodic(c: Config, from: real, interval: real, es: seq<Event>): seq<real>
    decreases es
  {
    if es == [] then [interval]
    else
      var front, e := es[..|es| - 1], es[|es| - 1];
      Periodic(c, from, interval, front)
      + if e.RaFires? && Enabled(c, Run(c, from, interval, front), e) then [e.interval] else []
  }

  function Sum(xs: seq<real>): real {
    if xs == [] then 0.0 else Sum(xs[..|xs| - 1]) + xs[|xs| - 1]
  }

  lemma SumAppend(xs: seq<real>, x: real)
    ensures Sum(xs + [x]) == Sum(xs) + x
  {
    assert (xs + [x])[..|xs|] == xs;
  }

  ghost predicate SentOk(s: State, from: real, drawn: seq<real>) {
    && |drawn| > 0
    && s.nextRA == from + Sum(drawn)
    && s.lastRA == (if |drawn| == 1 then 0.0 else from + Sum(drawn[..|drawn| - 1]))
    && |s.sent| == (|drawn| - 1) + (s.nextId - |s.replies|)
  }

  lemma SolicitSent(c: Config, s: State, from: real, drawn: seq<real>, at: real, delay: real)
    requires SentOk(s, from, drawn)
    ensures SentOk(OnSolicit(c, s, at, delay), from, drawn)
  {
  }

  lemma RaSent(w: World, from: real, drawn: seq<real>, next: real)
    requires TimersOk(w) && SentOk(w.s, from, drawn)
    ensures SentOk(OnRaTimer(w.s, w.s.timer.value, next), from, drawn + [next])
  {
    SumAppend(drawn, next);
    assert (drawn + [next])[..|drawn|] == drawn;
  }

  lemma ReplySent(s: State, from: real, drawn: seq<real>, now: real, k: nat)
    requires SentOk(s, from, drawn) && k < |s.replies| && IdsOk(s.replies, s.nextId)
    ensures SentOk(OnReply(s, now, s.replies[k].id), from, drawn)
  {
    assert IndexOf(s.replies, s.replies[k].id) == k;
  }

  /** Periodic advertisements go out after the intervals drawn, one after the other, and every
      scheduled answer is sent once: all that was sent is one or the other. */
  lemma {:induction false} SentExactly(c: Config, from: real, interval: real, es: seq<Event>)
    requires c.Ok() && from >= 0.0 && interval >= 0.0
    ensures SentOk(Run(c, from, interval, es).s, from, Periodic(c, from, interval, es))
    decreases es
  {
    if es == [] {
      SumAppend([], interval);
      assert [] + [interval] == [interval];
    } else {
      var front, e := es[..|es| - 1], es[|es| - 1];
      SentExactly(c, from, interval, front);
      InvAlways(c, from, interval, front);
      var w, drawn := Run(c, from, interval, front), Periodic(c, from, interval, front);
      assert drawn + [] == drawn;
      if Enabled(c, w, e) {
        match e
        case Solicit(at, delay) => SolicitSent(c, w.s, from, drawn, at, delay);
        case RaFires(next) => RaSent(w, from, drawn, next);
        case ReplyFires(k) => ReplySent(w.s, from, drawn, w.s.replies[k].due, k);
      }
    }
  }

  /** A reply scheduled in a run is neither early nor late with respect to the periodic advertisements. */
  lemma RepliesWellPlaced(c: Config, from: real, interval: real, es: seq<Event>, at: real, delay: real)
    requires c.Ok() && from >= 0.0 && interval >= 0.0
    requires Enabled(c, Run(c, from, interval, es), Solicit(at, delay))
    ensures
      var s := Run(c, from, interval, es).s;
      var r := AnswerAt(c, s, at, delay);
      && (r == None && at < s.nextRA ==> s.nextRA <= at + c.Bound())
      && (r.Some? ==>
            && at + delay <= r.value
            && s.lastRA + c.minDelayBetweenRA <= r.value
            && (at < s.nextRA ==> r.value <= s.nextRA))
  {
    InvAlways(c, from, interval, es);
    AnswerBounds(c, Run(c, from, interval, es).s, at, delay);
  }

  lemma RunAppend(c: Config, from: real, interval: real, es: seq<Event>, e: Event)
    ensures Run(c, from, interval, es + [e]) == Step(c, Run(c, from, interval, es), e)
  {
    assert (es + [e])[..|es|] == es;
  }

  lemma FirstAdvertised(c: Config, interval: real)
    requires interval >= 0.0
    ensures Run(c, 0.0, interval, [] + [RaFires(interval)])
         == World(State(interval, interval + interval, Some(interval + interval), [], 0, [interval]), interval, [])
  {
    RunAppend(c, 0.0, interval, [], RaFires(interval));
  }

  /** The exception at equal instants is real: with advertisements closer together than the minimum
      delay, a solicitation that arrives at the very instant of one is answered after it. */
  lemma LateAtTie(c: Config, interval: real)
    requires c.Ok() && 0.0 <= interval < c.minDelayBetweenRA
    ensures
      var w := Run(c, 0.0, interval, [] + [RaFires(interval)] + [Solicit(interval + interval, 0.0)]);
      w.s.replies != [] && w.clock == w.s.nextRA < w.s.replies[0].due
  {
    FirstAdvertised(c, interval);
    RunAppend(c, 0.0, interval, [] + [RaFires(interval)], Solicit(interval + interval, 0.0));
  }
}
