/** Remote event subscriptions of the media-independent handover function (hsntg/mih-iface.cc,
    hsntg/mih.cc): sessions subscribe to the events of local interfaces until they are deleted. */
module Subscriptions {
  import opened Basics

  /** `LINK_LAST_EVENT`. */
  const LAST_EVENT := 9

  const ALL_EVENTS: bv32 := 0xFFFF_FFFF

  /** A session object: `ref` tells objects apart, `id` is the number it is looked up by. */
  datatype Session = Session(ref: nat, id: int)

  /** The subscribers of one interface, event by event. */
  type Subscribers = s: seq<seq<Session>> | |s| == LAST_EVENT witness [[], [], [], [], [], [], [], [], []]

  predicate Has(events: bv32, i: nat)
    requires i < LAST_EVENT
  {
    (events >> i) & 1 == 1
  }

  /** The bits of an event list, read once for all events. */
  type Selection = s: seq<bool> | |s| == LAST_EVENT witness [false, false, false, false, false, false, false, false, false]

  function Selected(events: bv32): (r: Selection)
    ensures forall i | 0 <= i < LAST_EVENT :: r[i] <==> Has(events, i)
  {
    seq(LAST_EVENT, i requires 0 <= i < LAST_EVENT => Has(events, i))
  }

  // ---------------------------------------------------------------- operations

  function Added(list: seq<Session>, s: Session): seq<Session> {
    if s in list then list else list + [s]
  }

  /** Without the first occurrence of `s`. */
  function Removed(list: seq<Session>, s: Session): seq<Session> {
    if list == [] then [] else if list[0] == s then list[1..] else [list[0]] + Removed(list[1..], s)
  }

  function Subscribe(subs: Subscribers, s: Session, events: Selection): (r: Subscribers) {
    seq(LAST_EVENT, i requires 0 <= i < LAST_EVENT => if events[i] then Added(subs[i], s) else subs[i])
  }

  function Unsubscribe(subs: Subscribers, s: Session, events: Selection): (r: Subscribers) {
    seq(LAST_EVENT, i requires 0 <= i < LAST_EVENT => if events[i] then Removed(subs[i], s) else subs[i])
  }

  function FindSession(sessions: seq<Session>, id: int): (k: nat)
    ensures k <= |sessions|
    ensures k < |sessions| ==> sessions[k].id == id
    ensures forall i | 0 <= i < k :: sessions[i].id != id
  {
    FirstIndex(sessions, (s: Session) => s.id == id)
  }

  /** The agent: live sessions and the subscribers of each interface. */
  datatype State = State(sessions: seq<Session>, ifaces: seq<Subscribers>, nextRef: nat)

  /** `recv_reg_req` and `recv_reg_rsp`: a new session object, whatever its number. */
  function OnRegister(st: State, id: int): State {
    State(st.sessions + [Session(st.nextRef, id)], st.ifaces, st.nextRef + 1)
  }

  function OnSubscribe(st: State, id: int, j: nat, events: bv32): State
    requires j < |st.ifaces|
  {
    var k := FindSession(st.sessions, id);
    if k == |st.sessions| then st
    else st.(ifaces := st.ifaces[j := Subscribe(st.ifaces[j], st.sessions[k], Selected(events))])
  }

  function OnUnsubscribe(st: State, id: int, j: nat, events: bv32): State
    requires j < |st.ifaces|
  {
    var k := FindSession(st.sessions, id);
    if k == |st.sessions| then st
    else st.(ifaces := st.ifaces[j := Unsubscribe(st.ifaces[j], st.sessions[k], Selected(events))])
  }

  /** `delete_session`. */
  function OnDelete(st: State, id: int): (r: State)
    ensures |r.ifaces| == |st.ifaces|
  {
    var k := FindSession(st.sessions, id);
    if k == |st.sessions| then st
    else
      State(st.sessions[..k] + st.sessions[k + 1..],
            seq(|st.ifaces|, j requires 0 <= j < |st.ifaces| =>
              Unsubscribe(st.ifaces[j], st.sessions[k], Selected(ALL_EVENTS))),
            st.nextRef)
  }

  // ---------------------------------------------------------------- as the source writes it

  class MIHInterfaceInfo {
    var remoteSub: Subscribers

    constructor ()
      ensures remoteSub == seq(LAST_EVENT, _ => [])
    {
      remoteSub := seq(LAST_EVENT, _ => []);
    }

    /** The search for a duplicate, and the push when there is none. */
    static method PushNew(list: seq<Session>, remote: Session) returns (r: seq<Session>)
      ensures r == Added(list, remote)
    {
      var duplicate, j := false, 0;
      while j < |list| && !duplicate
        invariant 0 <= j <= |list|
        invariant duplicate <==> remote in list[..j]
      {
        duplicate := list[j] == remote;
        assert list[..j + 1] == list[..j] + [list[j]];
        j := j + 1;
      }
      assert !duplicate ==> list[..j] == list;
      r := if duplicate then list else list + [remote];
    }

    /** The search for the session, and the erasure of where it was found. */
    static method EraseFirst(list: seq<Session>, remote: Session) returns (r: seq<Session>)
      ensures r == Removed(list, remote)
    {
      var j := 0;
      while j < |list| && list[j] != remote
        invariant 0 <= j <= |list|
        invariant remote !in list[..j]
      {
        assert list[..j + 1] == list[..j] + [list[j]];
        j := j + 1;
      }
      RemovedAt(list, remote, j);
      r := if j < |list| then list[..j] + list[j + 1..] else list;
    }

    method RemoteEventSubscribe(remote: Session, events: bv32)
      modifies this
      ensures remoteSub == Subscribe(old(remoteSub), remote, Selected(events))
    {
      SubscribeEach(remote, Selected(events));
    }

    method SubscribeEach(remote: Session, events: Selection)
      modifies this
      ensures remoteSub == Subscribe(old(remoteSub), remote, events)
    {
      var i := 0;
      while i < LAST_EVENT
        invariant 0 <= i <= LAST_EVENT
        invariant forall n | 0 <= n < i :: remoteSub[n] == Subscribe(old(remoteSub), remote, events)[n]
        invariant forall n | i <= n < LAST_EVENT :: remoteSub[n] == old(remoteSub)[n]
      {
        if events[i] {
          var list := PushNew(remoteSub[i], remote);
          remoteSub := remoteSub[i := list];
        }
        i := i + 1;
      }
    }

    method RemoteEventUnsubscribe(remote: Session, events: bv32)
      modifies this
      ensures remoteSub == Unsubscribe(old(remoteSub), remote, Selected(events))
    {
      UnsubscribeEach(remote, Selected(events));
    }

    method UnsubscribeEach(remote: Session, events: Selection)
      modifies this
      ensures remoteSub == Unsubscribe(old(remoteSub), remote, events)
    {
      var i := 0;
      while i < LAST_EVENT
        invariant 0 <= i <= LAST_EVENT
        invariant forall n | 0 <= n < i :: remoteSub[n] == Unsubscribe(old(remoteSub), remote, events)[n]
        invariant forall n | i <= n < LAST_EVENT :: remoteSub[n] == old(remoteSub)[n]
      {
        if events[i] {
          var list := EraseFirst(remoteSub[i], remote);
          remoteSub := remoteSub[i := list];
        }
        i := i + 1;
      }
    }
  }

  lemma {:induction false} RemovedAt(list: seq<Session>, s: Session, j: nat)
    requires j <= |list| && s !in list[..j] && (j < |list| ==> list[j] == s)
    ensures Removed(list, s) == if j < |list| then list[..j] + list[j + 1..] else list
  {
    if j > 0 {
      assert list[0] in list[..j] && list[1..][..j - 1] == list[..j][1..];
      RemovedAt(list[1..], s, j - 1);
      if j < |list| {
        assert list[..j] + list[j + 1..] == [list[0]] + (list[1..][..j - 1] + list[1..][j..]);
      }
    }
  }

  class MIHAgent {
    const ifaces: seq<MIHInterfaceInfo>
    var sessions: seq<Session>
    var nextRef: nat

    /** The interfaces are different objects and everything is as in `st`. */
    ghost predicate Shows(st: State)
      reads this, ifaces
    {
      && (forall i, j | 0 <= i < j < |ifaces| :: ifaces[i] != ifaces[j])
      && sessions == st.sessions && nextRef == st.nextRef && |ifaces| == |st.ifaces|
      && forall j | 0 <= j < |ifaces| :: ifaces[j].remoteSub == st.ifaces[j]
    }

    constructor (ifaces: seq<MIHInterfaceInfo>)
      ensures this.ifaces == ifaces && sessions == [] && nextRef == 0
    {
      this.ifaces, sessions, nextRef := ifaces, [], 0;
    }

    method GetSession(id: int) returns (k: nat)
      ensures k == FindSession(sessions, id)
    {
      k := 0;
      while k < |sessions|
        invariant k <= |sessions| && forall i | 0 <= i < k :: sessions[i].id != id
      {
        if sessions[k].id == id {
          return;
        }
        k := k + 1;
      }
    }

    method RecvReg(id: int, ghost st: State)
      requires Shows(st)
      modifies this
      ensures Shows(OnRegister(st, id))
    {
      sessions := sessions + [Session(nextRef, id)];
      nextRef := nextRef + 1;
    }

    method RecvEventSubReq(id: int, j: nat, events: bv32, ghost st: State)
      requires Shows(st) && j < |ifaces|
      modifies ifaces
      ensures Shows(OnSubscribe(st, id, j, events))
    {
      var k := GetSession(id);
      if k == |sessions| {
        return;
      }
      ifaces[j].RemoteEventSubscribe(sessions[k], events);
    }

    method RecvEventUnsubReq(id: int, j: nat, events: bv32, ghost st: State)
      requires Shows(st) && j < |ifaces|
      modifies ifaces
      ensures Shows(OnUnsubscribe(st, id, j, events))
    {
      var k := GetSession(id);
      if k == |sessions| {
        return;
      }
      ifaces[j].RemoteEventUnsubscribe(sessions[k], events);
    }

    method DeleteSession(id: int, ghost st: State)
      requires Shows(st)
      modifies this, ifaces
      ensures Shows(OnDelete(st, id))
    {
      var k := GetSession(id);
      if k == |sessions| {
        return;
      }
      ghost var after := OnDelete(st, id);
      var j := 0;
      while j < |ifaces|
        invariant 0 <= j <= |ifaces| && sessions == st.sessions && nextRef == st.nextRef
        invariant forall n | 0 <= n < j :: ifaces[n].remoteSub == after.ifaces[n]
        invariant forall n | j <= n < |ifaces| :: ifaces[n].remoteSub == st.ifaces[n]
      {
        assert after.ifaces[j] == Unsubscribe(ifaces[j].remoteSub, sessions[k], Selected(ALL_EVENTS));
        ifaces[j].RemoteEventUnsubscribe(sessions[k], ALL_EVENTS);
        j := j + 1;
      }
      sessions := sessions[..k] + sessions[k + 1..];
    }
  }

  // ---------------------------------------------------------------- runs

  datatype Event =
    | Register(id: int)
    | SubscribeTo(id: int, j: nat, events: bv32)
    | UnsubscribeFrom(id: int, j: nat, events: bv32)
    | Delete(id: int)

  function Step(st: State, e: Event): (r: State)
    ensures |r.ifaces| == |st.ifaces|
  {
    match e
    case Register(id) => OnRegister(st, id)
    case SubscribeTo(id, j, events) => if j < |st.ifaces| then OnSubscribe(st, id, j, events) else st
    case UnsubscribeFrom(id, j, events) => if j < |st.ifaces| then OnUnsubscribe(st, id, j, events) else st
    case Delete(id) => OnDelete(st, id)
  }

  function Run(n: nat, es: seq<Event>): (r: State)
    ensures |r.ifaces| == n
  {
    if es == [] then State([], seq(n, _ => [[], [], [], [], [], [], [], [], []]), 0)
    else Step(Run(n, es[..|es| - 1]), es[|es| - 1])
  }

  // ---------------------------------------------------------------- invariant

  ghost predicate Distinct(list: seq<Session>) {
    forall i, j | 0 <= i < j < |list| :: list[i] != list[j]
  }

  ghost predicate ListOk(list: seq<Session>, sessions: seq<Session>) {
    Distinct(list) && forall s <- list :: s in sessions
  }

  ghost predicate SubscribersOk(subs: Subscribers, sessions: seq<Session>) {
    forall i | 0 <= i < LAST_EVENT :: ListOk(subs[i], sessions)
  }

  ghost predicate Inv(st: State) {
    && RefsOk(st.sessions, st.nextRef)
    && (forall j | 0 <= j < |st.ifaces| :: SubscribersOk(st.ifaces[j], st.sessions))
  }

  /** The list with every occurrence of `s` left out, in the same order. */
  function Others(list: seq<Session>, s: Session): seq<Session> {
    if list == [] then [] else if list[0] == s then Others(list[1..], s) else [list[0]] + Others(list[1..], s)
  }

  lemma {:induction false} OthersSame(list: seq<Session>, s: Session)
    requires s !in list
    ensures Others(list, s) == list
  {
    if list != [] {
      OthersSame(list[1..], s);
    }
  }

  lemma {:induction false} OthersAre(list: seq<Session>, s: Session)
    ensures forall x :: x in Others(list, s) <==> x in list && x != s
    ensures Distinct(list) ==> Distinct(Others(list, s))
  {
    if list != [] {
      OthersAre(list[1..], s);
      assert list == [list[0]] + list[1..];
      if Distinct(list) {
        assert list[0] !in list[1..];
      }
    }
  }

  /** As lists never hold a session twice, taking out one occurrence takes out all. */
  lemma {:induction false} RemovingOneSuffices(list: seq<Session>, s: Session)
    requires Distinct(list)
    ensures Removed(list, s) == Others(list, s)
  {
    if list != [] {
      if list[0] == s {
        assert s !in list[1..];
        OthersSame(list[1..], s);
      } else {
        RemovingOneSuffices(list[1..], s);
      }
    }
  }

  lemma AllEvents(i: nat)
    requires i < LAST_EVENT
    ensures Selected(ALL_EVENTS)[i]
  {
    if i == 0 {} else if i == 1 {} else if i == 2 {} else if i == 3 {} else if i == 4 {}
    else if i == 5 {} else if i == 6 {} else if i == 7 {} else {}
  }

  lemma SubscribeOk(subs: Subscribers, sessions: seq<Session>, s: Session, events: Selection)
    requires SubscribersOk(subs, sessions) && s in sessions
    ensures SubscribersOk(Subscribe(subs, s, events), sessions)
    ensures SubscribersOk(Unsubscribe(subs, s, events), sessions)
  {
    forall i | 0 <= i < LAST_EVENT
      ensures ListOk(Subscribe(subs, s, events)[i], sessions) && ListOk(Unsubscribe(subs, s, events)[i], sessions)
    {
      assert ListOk(subs[i], sessions);
      RemovingOneSuffices(subs[i], s);
      OthersAre(subs[i], s);
    }
  }

  lemma UnsubscribedOk(subs: Subscribers, sessions: seq<Session>, s: Session, left: seq<Session>)
    requires SubscribersOk(subs, sessions)
    requires forall x | x in sessions && x != s :: x in left
    ensures SubscribersOk(Unsubscribe(subs, s, Selected(ALL_EVENTS)), left)
  {
    forall i | 0 <= i < LAST_EVENT ensures ListOk(Unsubscribe(subs, s, Selected(ALL_EVENTS))[i], left) {
      assert ListOk(subs[i], sessions);
      AllEvents(i);
      RemovingOneSuffices(subs[i], s);
      OthersAre(subs[i], s);
    }
  }

  ghost predicate RefsOk(sessions: seq<Session>, nextRef: nat) {
    && (forall i, j | 0 <= i < j < |sessions| :: sessions[i].ref != sessions[j].ref)
    && (forall s <- sessions :: s.ref < nextRef)
  }

  lemma Without(sessions: seq<Session>, nextRef: nat, k: nat)
    requires RefsOk(sessions, nextRef) && k < |sessions|
    ensures RefsOk(sessions[..k] + sessions[k + 1..], nextRef)
    ensures forall x | x in sessions && x != sessions[k] :: x in sessions[..k] + sessions[k + 1..]
  {
    var left := sessions[..k] + sessions[k + 1..];
    assert forall i | 0 <= i < |left| :: left[i] == sessions[if i < k then i else i + 1];
  }

  lemma DeleteOk(st: State, id: int)
    requires Inv(st)
    ensures Inv(OnDelete(st, id))
  {
    var k := FindSession(st.sessions, id);
    if k < |st.sessions| {
      var s, left := st.sessions[k], st.sessions[..k] + st.sessions[k + 1..];
      Without(st.sessions, st.nextRef, k);
      forall j | 0 <= j < |st.ifaces| ensures SubscribersOk(OnDelete(st, id).ifaces[j], left) {
        UnsubscribedOk(st.ifaces[j], st.sessions, s, left);
      }
    }
  }

  lemma StepOk(st: State, e: Event)
    requires Inv(st)
    ensures Inv(Step(st, e))
  {
    match e
    case Register(id) =>
      forall j | 0 <= j < |st.ifaces| ensures SubscribersOk(st.ifaces[j], Step(st, e).sessions) {
        assert SubscribersOk(st.ifaces[j], st.sessions);
        forall i | 0 <= i < LAST_EVENT ensures ListOk(st.ifaces[j][i], Step(st, e).sessions) {
          assert ListOk(st.ifaces[j][i], st.sessions);
        }
      }
    case SubscribeTo(id, j, events) =>
      var k := FindSession(st.sessions, id);
      if j < |st.ifaces| && k < |st.sessions| {
        SubscribeOk(st.ifaces[j], st.sessions, st.sessions[k], Selected(events));
      }
    case UnsubscribeFrom(id, j, events) =>
      var k := FindSession(st.sessions, id);
      if j < |st.ifaces| && k < |st.sessions| {
        SubscribeOk(st.ifaces[j], st.sessions, st.sessions[k], Selected(events));
      }
    case Delete(id) => DeleteOk(st, id);
  }

  lemma {:induction false} InvAlways(n: nat, es: seq<Event>)
    ensures Inv(Run(n, es))
  {
    if es != [] {
      InvAlways(n, es[..|es| - 1]);
      StepOk(Run(n, es[..|es| - 1]), es[|es| - 1]);
    }
  }

  // ---------------------------------------------------------------- results

  /** In every run no subscriber list holds a session twice or a session that is not live. */
  lemma SubscribersAreLive(n: nat, es: seq<Event>, j: nat, i: nat)
    requires j < n && i < LAST_EVENT
    ensures
      var st := Run(n, es);
      Distinct(st.ifaces[j][i]) && forall s <- st.ifaces[j][i] :: s in st.sessions
  {
    InvAlways(n, es);
    assert SubscribersOk(Run(n, es).ifaces[j], Run(n, es).sessions);
    assert ListOk(Run(n, es).ifaces[j][i], Run(n, es).sessions);
  }

  /** Deleting a session in any run clears it from every interface and event, and leaves the other
      subscribers and their order as they were; only that one session ends. */
  lemma DeleteClears(n: nat, es: seq<Event>, id: int, j: nat, i: nat)
    requires j < n && i < LAST_EVENT
    ensures
      var before, after := Run(n, es), Run(n, es + [Delete(id)]);
      var k := FindSession(before.sessions, id);
      if k == |before.sessions| then after == before
      else
        && before.sessions[k] !in after.sessions
        && before.sessions[k] !in after.ifaces[j][i]
        && after.ifaces[j][i] == Others(before.ifaces[j][i], before.sessions[k])
        && after.sessions == Others(before.sessions, before.sessions[k])
  {
    assert (es + [Delete(id)])[..|es|] == es;
    var st := Run(n, es);
    InvAlways(n, es);
    var k := FindSession(st.sessions, id);
    if k < |st.sessions| {
      var s := st.sessions[k];
      SubscribersAreLive(n, es, j, i);
      AllEvents(i);
      RemovingOneSuffices(st.ifaces[j][i], s);
      OthersAre(st.ifaces[j][i], s);
      assert Distinct(st.sessions) by {
        assert forall a, b | 0 <= a < b < |st.sessions| :: st.sessions[a].ref != st.sessions[b].ref;
      }
      RemovedAt(st.sessions, s, k);
      RemovingOneSuffices(st.sessions, s);
      OthersAre(st.sessions, s);
    }
  }

  // ---------------------------------------------------------------- what each message does

  lemma RunAppend(n: nat, es: seq<Event>, e: Event)
    ensures Run(n, es + [e]) == Step(Run(n, es), e)
  {
    assert (es + [e])[..|es|] == es;
  }

  /** The message concerns the list of event `i` of interface `j`. */
  predicate Concerns(events: bv32, at: nat, j: nat, i: nat)
    requires i < LAST_EVENT
  {
    j == at && (events >> i) & 1 == 1
  }

  lemma ConcernsSelected(events: bv32, at: nat, j: nat, i: nat)
    requires i < LAST_EVENT
    ensures Concerns(events, at, j, i) <==> j == at && Selected(events)[i]
  {
  }

  lemma OneSubscribed(st: State, id: int, at: nat, events: bv32, j: nat, i: nat)
    requires at < |st.ifaces| && j < |st.ifaces| && i < LAST_EVENT && FindSession(st.sessions, id) < |st.sessions|
    ensures
      var s, list := st.sessions[FindSession(st.sessions, id)], st.ifaces[j][i];
      && OnSubscribe(st, id, at, events).ifaces[j][i] == (if j == at && Selected(events)[i] then Added(list, s) else list)
      && OnUnsubscribe(st, id, at, events).ifaces[j][i] == (if j == at && Selected(events)[i] then Removed(list, s) else list)
      && OnSubscribe(st, id, at, events).sessions == OnUnsubscribe(st, id, at, events).sessions == st.sessions
  {
  }

  /** With the session, at the end if it is new. */
  ghost predicate Joined(list: seq<Session>, list': seq<Session>, s: Session, concerned: bool) {
    && list <= list'
    && (s in list' <==> s in list || concerned)
    && |list'| == |list| + (if concerned && s !in list then 1 else 0)
    && (|list'| > |list| ==> list'[|list|] == s)
  }

  lemma AddedJoins(list: seq<Session>, s: Session, concerned: bool)
    ensures Joined(list, if concerned then Added(list, s) else list, s, concerned)
  {
  }

  /** In every run, a subscription of a live session puts it at the end of the lists of the selected
      events of its interface, if it was not there; all other lists stay as they were. */
  lemma SubscribesExactly(n: nat, es: seq<Event>, id: int, at: nat, events: bv32, j: nat, i: nat)
    requires at < n && j < n && i < LAST_EVENT
    requires FindSession(Run(n, es).sessions, id) < |Run(n, es).sessions|
    ensures
      var before, after := Run(n, es), Run(n, es + [SubscribeTo(id, at, events)]);
      var s := before.sessions[FindSession(before.sessions, id)];
      && after.sessions == before.sessions
      && Joined(before.ifaces[j][i], after.ifaces[j][i], s, Concerns(events, at, j, i))
  {
    RunAppend(n, es, SubscribeTo(id, at, events));
    ConcernsSelected(events, at, j, i);
    OneSubscribed(Run(n, es), id, at, events, j, i);
    var before := Run(n, es);
    AddedJoins(before.ifaces[j][i], before.sessions[FindSession(before.sessions, id)], j == at && Selected(events)[i]);
  }

  /** Likewise an unsubscription takes it out of these lists, keeping all others and their order. */
  lemma UnsubscribesExactly(n: nat, es: seq<Event>, id: int, at: nat, events: bv32, j: nat, i: nat)
    requires at < n && j < n && i < LAST_EVENT
    requires FindSession(Run(n, es).sessions, id) < |Run(n, es).sessions|
    ensures
      var before, after := Run(n, es), Run(n, es + [UnsubscribeFrom(id, at, events)]);
      var s, list := before.sessions[FindSession(before.sessions, id)], before.ifaces[j][i];
      && after.sessions == before.sessions
      && after.ifaces[j][i] == (if Concerns(events, at, j, i) then Others(list, s) else list)
      && s !in Others(list, s)
  {
    RunAppend(n, es, UnsubscribeFrom(id, at, events));
    ConcernsSelected(events, at, j, i);
    OneSubscribed(Run(n, es), id, at, events, j, i);
    SubscribersAreLive(n, es, j, i);
    var before := Run(n, es);
    var s := before.sessions[FindSession(before.sessions, id)];
    RemovingOneSuffices(before.ifaces[j][i], s);
    OthersAre(before.ifaces[j][i], s);
  }

  /** A message about a number that no live session has changes nothing. */
  lemma UnknownIgnored(n: nat, es: seq<Event>, id: int, at: nat, events: bv32)
    requires forall s <- Run(n, es).sessions :: s.id != id
    ensures Run(n, es + [SubscribeTo(id, at, events)]) == Run(n, es)
    ensures Run(n, es + [UnsubscribeFrom(id, at, events)]) == Run(n, es)
    ensures Run(n, es + [Delete(id)]) == Run(n, es)
  {
    RunAppend(n, es, SubscribeTo(id, at, events));
    RunAppend(n, es, UnsubscribeFrom(id, at, events));
    RunAppend(n, es, Delete(id));
    var sessions := Run(n, es).sessions;
    assert FindSession(sessions, id) == |sessions| by {
      if FindSession(sessions, id) < |sessions| {
        Unknown(sessions, id);
      }
    }
  }

  lemma Unknown(sessions: seq<Session>, id: int)
    requires FindSession(sessions, id) < |sessions|
    ensures exists s <- sessions :: s.id == id
  {
    assert sessions[FindSession(sessions, id)] in sessions;
  }

  /** A registration adds one session with its number, an object that nobody knew, and touches no
      subscriber list. If the number is new, this is the session it finds from then on. */
  lemma RegistersExactly(n: nat, es: seq<Event>, id: int)
    ensures
      var before, after := Run(n, es), Run(n, es + [Register(id)]);
      && after.ifaces == before.ifaces
      && |after.sessions| == |before.sessions| + 1 && before.sessions <= after.sessions
      && var s := after.sessions[|before.sessions|];
         && s.id == id
         && s !in before.sessions
         && ((forall x <- before.sessions :: x.id != id) ==> FindSession(after.sessions, id) == |before.sessions|)
         && (forall j, i | 0 <= j < n && 0 <= i < LAST_EVENT :: s !in after.ifaces[j][i])
  {
    RunAppend(n, es, Register(id));
    InvAlways(n, es);
    var before, after := Run(n, es), Run(n, es + [Register(id)]);
    var s := after.sessions[|before.sessions|];
    if forall x <- before.sessions :: x.id != id {
      assert forall i | 0 <= i < |before.sessions| :: after.sessions[i] in before.sessions;
    }
    forall j, i | 0 <= j < n && 0 <= i < LAST_EVENT ensures s !in after.ifaces[j][i] {
      SubscribersAreLive(n, es, j, i);
    }
  }
}
