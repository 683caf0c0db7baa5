/** The binding table of the SIP mobile router (sip/udp-mysip.cc): mobile nodes are assigned to
    active uplinks, moved when an uplink breaks, and partly moved back when one returns. */
module SipBinding {
  import opened Basics
  import opened Cycles

  datatype Kind = MN | MN_HA | MR | MR_HA | CN | MR_BS

  /** No contact (a broken uplink, or a node with no uplink), and no outside interface. */
  const NONE := -1

  datatype Entry = Entry(kind: Kind, urlId: int, con: int, iface: int)

  /** `select_` 1, 2 and 3. */
  datatype Select = Random | RoundRobin | Weight

  /** The binding list, `round_count`, and the positions picked so far among the active uplinks. */
  datatype Table = Table(entries: seq<Entry>, count: nat, picks: seq<nat>)

  // ---------------------------------------------------------------- list walks

  /** Contacts of the active uplinks, in list order. */
  function Uplinks(entries: seq<Entry>): (r: seq<int>)
    ensures NONE !in r
  {
    if entries == [] then []
    else if entries[0].kind == MR_HA && entries[0].con != NONE then [entries[0].con] + Uplinks(entries[1..])
    else Uplinks(entries[1..])
  }

  function FindUrl(entries: seq<Entry>, urlId: int): (k: nat)
    ensures k <= |entries|
    ensures k < |entries| ==> entries[k].urlId == urlId
    ensures forall i | 0 <= i < k :: entries[i].urlId != urlId
  {
    FirstIndex(entries, (e: Entry) => e.urlId == urlId)
  }

  function FindIface(entries: seq<Entry>, iface: int): (k: nat)
    ensures k <= |entries|
    ensures k < |entries| ==> entries[k].iface == iface
    ensures forall i | 0 <= i < k :: entries[i].iface != iface
  {
    FirstIndex(entries, (e: Entry) => e.iface == iface)
  }

  /** `get_mr_ha_entry_by_caddr`: the uplink a packet of a node with this contact leaves by. */
  function FindUplink(entries: seq<Entry>, caddr: int): (k: nat)
    ensures k <= |entries|
    ensures k < |entries| ==> entries[k].kind == MR_HA && entries[k].con == caddr
    ensures forall i | 0 <= i < k :: entries[i].kind != MR_HA || entries[i].con != caddr
  {
    FirstIndex(entries, (e: Entry) => e.kind == MR_HA && e.con == caddr)
  }

  /** Positions of the mobile nodes among the first `n` entries. */
  function Nodes(entries: seq<Entry>, n: nat): (r: seq<nat>)
    requires n <= |entries|
    ensures |r| <= n
    ensures forall i | 0 <= i < |r| :: r[i] < n && entries[r[i]].kind == MN
    ensures forall i, j | 0 <= i < j < |r| :: r[i] < r[j]
  {
    if n == 0 then []
    else if entries[n - 1].kind == MN then Nodes(entries, n - 1) + [n - 1]
    else Nodes(entries, n - 1)
  }

  // ---------------------------------------------------------------- assigning and re-homing

  /** `get_mr_ha_entry_*`: the position picked among `m` active uplinks at registration. */
  function PickNew(mode: Select, count: nat, m: nat, draw: nat): (p: nat)
    requires m > 0
    ensures p < m
  {
    match mode
    case Random => draw % m
    case RoundRobin => count % m
    case Weight => if m == 1 then 0 else 1
  }

  /** The position picked for a node whose uplink broke. */
  function PickAgain(mode: Select, count: nat, m: nat, draw: nat): (p: nat)
    requires m > 0
    ensures p < m
  {
    match mode
    case Random => draw % m
    case RoundRobin => count % m
    case Weight => 0
  }

  function Advance(mode: Select, count: nat): nat {
    if mode.RoundRobin? then count + 1 else count
  }

  /** `rehome_mn_coa_entry_*` after its first `n` entries. */
  function Rehome(mode: Select, t: Table, caddr: int, ups: seq<int>, draws: nat -> nat, n: nat): (r: Table)
    requires n <= |t.entries|
    ensures |r.entries| == |t.entries|
  {
    if n == 0 then t
    else
      var r := Rehome(mode, t, caddr, ups, draws, n - 1);
      var e := t.entries[n - 1];
      if e.kind != MN || e.con != caddr then r
      else if ups == [] then r.(entries := r.entries[n - 1 := e.(con := NONE)])
      else
        var p := PickAgain(mode, r.count, |ups|, draws(n - 1));
        Table(r.entries[n - 1 := e.(con := ups[p])], Advance(mode, r.count), r.picks + [p])
  }

  /** `re_homing` for the interface of entry `k`. */
  function Break(mode: Select, t: Table, k: nat, draws: nat -> nat): (r: Table)
    requires k < |t.entries|
    ensures |r.entries| == |t.entries|
  {
    var broken := t.(entries := t.entries[k := t.entries[k].(con := NONE)]);
    Rehome(mode, broken, t.entries[k].con, Uplinks(broken.entries), draws, |t.entries|)
  }

  /** A REGISTER from a mobile node: it is entered if new, and assigned to an active uplink. */
  function Entered(t: Table, urlId: int, contact: int): Table {
    if FindUrl(t.entries, urlId) < |t.entries| then t
    else t.(entries := [Entry(MN, urlId, contact, NONE)] + t.entries)
  }

  function Register(mode: Select, t: Table, urlId: int, contact: int, draw: nat): Table
    requires Uplinks(t.entries) != []
  {
    var t1 := Entered(t, urlId, contact);
    var k, ups := FindUrl(t1.entries, urlId), Uplinks(t.entries);
    var p := PickNew(mode, t.count, |ups|, draw);
    if k == |t1.entries| then t1
    else Table(t1.entries[k := t1.entries[k].(con := ups[p])], Advance(mode, t.count), t1.picks + [p])
  }

  /** A message from a peer that is not a local node enters it as a correspondent. */
  function Peer(t: Table, urlId: int, contact: int): Table {
    if FindUrl(t.entries, urlId) < |t.entries| then t
    else t.(entries := [Entry(CN, urlId, contact, NONE)] + t.entries)
  }

  // ---------------------------------------------------------------- an uplink returns

  /** `renew_mn_coa_entry_random`: `n` times, some node is moved to the returned uplink. */
  function RenewRandom(entries: seq<Entry>, nodes: seq<nat>, caddr: int, draws: nat -> nat, n: nat): (r: seq<Entry>)
    requires nodes != [] && forall i | 0 <= i < |nodes| :: nodes[i] < |entries|
    ensures |r| == |entries|
  {
    if n == 0 then entries
    else
      var r := RenewRandom(entries, nodes, caddr, draws, n - 1);
      var k := nodes[draws(n) % |nodes|];
      r[k := r[k].(con := caddr)]
  }

  /** The bookkeeping of `renew_mn_coa_entry_round_robin`. */
  datatype Tally = Tally(entries: seq<Entry>, old1: int, old2: int, count1: int, count2: int, moved: int)

  /** One round of its loop, for the node at `k`. */
  function Tallied(r: Tally, k: nat, caddr: int, first: bool): Tally
    requires k < |r.entries|
  {
    var con, moved := r.entries[k].con, r.entries[k := r.entries[k].(con := caddr)];
    if first then r.(entries := moved, old1 := con, count1 := r.count1 + 1, moved := r.moved + 1)
    else if con != r.old1 then
      if r.old2 == 0 then r.(entries := moved, old2 := con, count2 := r.count2 + 1, moved := r.moved + 1)
      else if r.count2 <= r.moved then r.(count2 := r.count2 + 1)
      else r.(entries := moved, moved := r.moved + 1)
    else if r.count1 <= r.moved then r.(count1 := r.count1 + 1)
    else r.(entries := moved, moved := r.moved + 1)
  }

  /** Its loop after the first `n` mobile nodes. */
  function RenewRoundRobin(entries: seq<Entry>, nodes: seq<nat>, caddr: int, n: nat): (r: Tally)
    requires n <= |nodes| && forall i | 0 <= i < |nodes| :: nodes[i] < |entries|
    ensures |r.entries| == |entries|
  {
    if n == 0 then Tally(entries, 0, 0, 0, 0, 0)
    else
      Tallied(RenewRoundRobin(entries, nodes, caddr, n - 1), nodes[n - 1], caddr, n == 1)
  }

  /** `renew_mn_coa_entry_weight`: every node, among the first `n` entries, moves. */
  function RenewAll(entries: seq<Entry>, caddr: int, n: nat): (r: seq<Entry>)
    requires n <= |entries|
    ensures |r| == |entries|
  {
    if n == 0 then entries
    else
      var r := RenewAll(entries, caddr, n - 1);
      if entries[n - 1].kind == MN then r[n - 1 := entries[n - 1].(con := caddr)] else r
  }

  function Renew(mode: Select, entries: seq<Entry>, caddr: int, draws: nat -> nat): (r: seq<Entry>)
    ensures |r| == |entries|
  {
    var nodes := Nodes(entries, |entries|);
    match mode
    case Random => if nodes == [] then entries else RenewRandom(entries, nodes, caddr, draws, draws(0) % |nodes|)
    case RoundRobin => RenewRoundRobin(entries, nodes, caddr, |nodes|).entries
    case Weight => RenewAll(entries, caddr, |entries|)
  }

  /** `send_reg_msg`: the uplink of entry `k` is up with address `addr`. */
  function Return(mode: Select, t: Table, k: nat, addr: int, draws: nat -> nat): Table
    requires k < |t.entries|
  {
    t.(entries := Renew(mode, t.entries[k := t.entries[k].(con := addr)], addr, draws))
  }

  // ---------------------------------------------------------------- what the steps change

  /** `c` is the contact of an active uplink. */
  ghost predicate IsUp(entries: seq<Entry>, c: int) {
    c != NONE && exists i | 0 <= i < |entries| :: entries[i].kind == MR_HA && entries[i].con == c
  }

  lemma {:induction false} UplinksAre(entries: seq<Entry>, c: int)
    ensures c in Uplinks(entries) <==> IsUp(entries, c)
  {
    if entries != [] {
      UplinksAre(entries[1..], c);
      if IsUp(entries[1..], c) {
        var i :| 0 <= i < |entries[1..]| && entries[1..][i].kind == MR_HA && entries[1..][i].con == c;
        assert entries[i + 1].kind == MR_HA && entries[i + 1].con == c;
      }
      if IsUp(entries, c) && !(entries[0].kind == MR_HA && entries[0].con == c) {
        var i :| 0 <= i < |entries| && entries[i].kind == MR_HA && entries[i].con == c;
        assert entries[1..][i - 1] == entries[i];
      }
    }
  }

  /** Only contacts of mobile nodes differ. */
  ghost predicate SameButNodes(a: seq<Entry>, b: seq<Entry>) {
    && |a| == |b|
    && forall i | 0 <= i < |a| :: b[i] == a[i].(con := b[i].con) && (a[i].kind != MN ==> b[i] == a[i])
  }

  lemma {:induction false} SameUplinks(a: seq<Entry>, b: seq<Entry>)
    requires SameButNodes(a, b)
    ensures Uplinks(a) == Uplinks(b)
    decreases |a|
  {
    if a != [] {
      assert a[0].kind == b[0].kind;
      SameUplinks(a[1..], b[1..]);
    }
  }

  /** Every mobile node has no contact or that of an active uplink. */
  ghost predicate Homed(entries: seq<Entry>) {
    forall i | 0 <= i < |entries| :: entries[i].kind == MN ==> entries[i].con == NONE || IsUp(entries, entries[i].con)
  }

  /** Only uplinks have an outside interface. */
  ghost predicate IfacesOk(entries: seq<Entry>) {
    forall i | 0 <= i < |entries| :: entries[i].iface != NONE ==> entries[i].kind == MR_HA
  }

  ghost predicate Inv(t: Table) {
    Homed(t.entries) && IfacesOk(t.entries)
  }

  lemma SameIsUp(a: seq<Entry>, b: seq<Entry>, c: int)
    requires SameButNodes(a, b)
    ensures IsUp(a, c) <==> IsUp(b, c)
  {
    SameUplinks(a, b);
    UplinksAre(a, c);
    UplinksAre(b, c);
  }

  /** What re-homing does to entry `i`. */
  ghost predicate Rehomed(before: Entry, after: Entry, caddr: int, ups: seq<int>) {
    if before.kind != MN || before.con != caddr then after == before
    else after == before.(con := after.con) && (if ups == [] then after.con == NONE else after.con in ups)
  }

  lemma {:induction false} RehomeEffect(mode: Select, t: Table, caddr: int, ups: seq<int>, draws: nat -> nat, n: nat)
    requires n <= |t.entries|
    ensures
      var r := Rehome(mode, t, caddr, ups, draws, n).entries;
      && (forall i | 0 <= i < n :: Rehomed(t.entries[i], r[i], caddr, ups))
      && (forall i | n <= i < |r| :: r[i] == t.entries[i])
  {
    if n > 0 {
      RehomeEffect(mode, t, caddr, ups, draws, n - 1);
    }
  }

  lemma BreakOk(mode: Select, t: Table, k: nat, draws: nat -> nat)
    requires Inv(t) && k < |t.entries| && t.entries[k].kind == MR_HA
    ensures Inv(Break(mode, t, k, draws))
    ensures
      var t', con := Break(mode, t, k, draws), t.entries[k].con;
      forall i | 0 <= i < |t'.entries| :: t'.entries[i].kind == MN && t'.entries[i].con == con ==>
        con == NONE || IsUp(t'.entries, con)
  {
    var con := t.entries[k].con;
    var broken := t.(entries := t.entries[k := t.entries[k].(con := NONE)]);
    var ups := Uplinks(broken.entries);
    var r := Break(mode, t, k, draws).entries;
    RehomeEffect(mode, broken, con, ups, draws, |t.entries|);
    assert SameButNodes(broken.entries, r);
    forall i | 0 <= i < |r| && r[i].kind == MN ensures r[i].con == NONE || IsUp(r, r[i].con) {
      assert Rehomed(broken.entries[i], r[i], con, ups);
      SameIsUp(broken.entries, r, r[i].con);
      if t.entries[i].con == con {
        UplinksAre(broken.entries, r[i].con);
      } else if r[i].con != NONE {
        assert IsUp(t.entries, r[i].con);
        var j :| 0 <= j < |t.entries| && t.entries[j].kind == MR_HA && t.entries[j].con == r[i].con;
        assert broken.entries[j] == t.entries[j];
      }
    }
    assert forall i | 0 <= i < |r| :: r[i].iface == t.entries[i].iface && r[i].kind == t.entries[i].kind;
  }

  /** Entering a node or a peer at the head of the list. */
  lemma HeadOk(t: Table, e: Entry)
    requires Inv(t) && e.kind != MR_HA && e.iface == NONE && (e.kind == MN ==> e.con == NONE || IsUp(t.entries, e.con))
    ensures Inv(t.(entries := [e] + t.entries))
    ensures Uplinks([e] + t.entries) == Uplinks(t.entries)
  {
    var r := [e] + t.entries;
    assert r[1..] == t.entries;
    forall i | 0 <= i < |r| && r[i].kind == MN ensures r[i].con == NONE || IsUp(r, r[i].con) {
      UplinksAre(r, r[i].con);
      UplinksAre(t.entries, r[i].con);
      assert i > 0 ==> r[i] == t.entries[i - 1];
    }
    forall i | 0 <= i < |r| && r[i].iface != NONE ensures r[i].kind == MR_HA {
      assert i > 0 ==> r[i] == t.entries[i - 1];
    }
  }

  /** One mobile node is given the contact of an active uplink. */
  lemma AssignOk(entries: seq<Entry>, k: nat, c: int)
    requires IfacesOk(entries) && k < |entries| && entries[k].kind == MN && IsUp(entries, c)
    requires forall i | 0 <= i < |entries| && i != k ::
      entries[i].kind == MN ==> entries[i].con == NONE || IsUp(entries, entries[i].con)
    ensures
      var r := entries[k := entries[k].(con := c)];
      Homed(r) && IfacesOk(r) && SameButNodes(entries, r)
  {
    var r := entries[k := entries[k].(con := c)];
    assert SameButNodes(entries, r);
    forall i | 0 <= i < |r| && r[i].kind == MN ensures r[i].con == NONE || IsUp(r, r[i].con) {
      SameIsUp(entries, r, r[i].con);
    }
  }

  /** A node enters with whatever contact its message carried, and is assigned at once. */
  lemma RegisterOk(mode: Select, t: Table, urlId: int, contact: int, draw: nat)
    requires Inv(t) && Uplinks(t.entries) != []
    requires var k := FindUrl(t.entries, urlId); k < |t.entries| ==> t.entries[k].kind == MN
    ensures Inv(Register(mode, t, urlId, contact, draw))
    ensures Uplinks(Register(mode, t, urlId, contact, draw).entries) == Uplinks(t.entries)
  {
    var t1 := Entered(t, urlId, contact);
    var k, ups := FindUrl(t1.entries, urlId), Uplinks(t.entries);
    var c := ups[PickNew(mode, t.count, |ups|, draw)];
    if FindUrl(t.entries, urlId) == |t.entries| {
      HeadOk(t, Entry(MN, urlId, NONE, NONE));
      var r := [Entry(MN, urlId, NONE, NONE)] + t.entries;
      assert t1.entries == r[0 := Entry(MN, urlId, contact, NONE)];
      assert SameButNodes(r, t1.entries);
      SameUplinks(r, t1.entries);
      forall i | 0 < i < |r| && r[i].kind == MN ensures r[i].con == NONE || IsUp(t1.entries, r[i].con) {
        SameIsUp(r, t1.entries, r[i].con);
      }
      assert k == 0;
    }
    assert c in Uplinks(t1.entries);
    UplinksAre(t1.entries, c);
    AssignOk(t1.entries, k, c);
    SameUplinks(t1.entries, Register(mode, t, urlId, contact, draw).entries);
  }

  /** Some mobile nodes, and nothing else, are moved to `caddr`. */
  ghost predicate Moved(a: seq<Entry>, b: seq<Entry>, caddr: int) {
    && |a| == |b|
    && forall i | 0 <= i < |a| :: b[i] == a[i] || (a[i].kind == MN && b[i] == a[i].(con := caddr))
  }

  lemma {:induction false} RenewRandomMoves(entries: seq<Entry>, nodes: seq<nat>, caddr: int, draws: nat -> nat, n: nat)
    requires nodes != [] && forall i | 0 <= i < |nodes| :: nodes[i] < |entries| && entries[nodes[i]].kind == MN
    ensures Moved(entries, RenewRandom(entries, nodes, caddr, draws, n), caddr)
  {
    if n > 0 {
      RenewRandomMoves(entries, nodes, caddr, draws, n - 1);
    }
  }

  lemma {:induction false} RenewRoundRobinMoves(entries: seq<Entry>, nodes: seq<nat>, caddr: int, n: nat)
    requires n <= |nodes| && forall i | 0 <= i < |nodes| :: nodes[i] < |entries| && entries[nodes[i]].kind == MN
    ensures Moved(entries, RenewRoundRobin(entries, nodes, caddr, n).entries, caddr)
  {
    if n > 0 {
      RenewRoundRobinMoves(entries, nodes, caddr, n - 1);
    }
  }

  lemma {:induction false} RenewAllMoves(entries: seq<Entry>, caddr: int, n: nat)
    requires n <= |entries|
    ensures Moved(entries, RenewAll(entries, caddr, n), caddr)
    ensures forall i | 0 <= i < n :: entries[i].kind == MN ==> RenewAll(entries, caddr, n)[i].con == caddr
    ensures forall i | n <= i < |entries| :: RenewAll(entries, caddr, n)[i] == entries[i]
  {
    if n > 0 {
      RenewAllMoves(entries, caddr, n - 1);
    }
  }

  lemma RenewMoves(mode: Select, entries: seq<Entry>, caddr: int, draws: nat -> nat)
    ensures Moved(entries, Renew(mode, entries, caddr, draws), caddr)
    ensures mode.Weight? ==> forall i | 0 <= i < |entries| ::
      entries[i].kind == MN ==> Renew(mode, entries, caddr, draws)[i].con == caddr
  {
    var nodes := Nodes(entries, |entries|);
    match mode
    case Random =>
      if nodes != [] {
        RenewRandomMoves(entries, nodes, caddr, draws, draws(0) % |nodes|);
      }
    case RoundRobin => RenewRoundRobinMoves(entries, nodes, caddr, |nodes|);
    case Weight => RenewAllMoves(entries, caddr, |entries|);
  }

  /** The contact of entry `k` can be replaced by `addr` without stranding a node: the uplink was
      down, keeps its address, shares its old address with another uplink, or no node uses it. */
  ghost predicate CanReplace(entries: seq<Entry>, k: nat, addr: int)
    requires k < |entries|
  {
    var former := entries[k].con;
    || former == NONE
    || IsUp(entries[k := entries[k].(con := addr)], former)
    || forall i | 0 <= i < |entries| :: entries[i].kind == MN ==> entries[i].con != former
  }

  lemma ReplaceOk(entries: seq<Entry>, k: nat, addr: int)
    requires Homed(entries) && k < |entries| && entries[k].kind == MR_HA && addr != NONE
    requires CanReplace(entries, k, addr)
    ensures Homed(entries[k := entries[k].(con := addr)])
  {
    var r := entries[k := entries[k].(con := addr)];
    forall i | 0 <= i < |r| && r[i].kind == MN ensures r[i].con == NONE || IsUp(r, r[i].con) {
      assert entries[i] == r[i];
      if r[i].con != NONE && r[i].con != entries[k].con {
        var j :| 0 <= j < |entries| && entries[j].kind == MR_HA && entries[j].con == r[i].con;
        assert r[j] == entries[j];
      }
    }
  }

  lemma MovedOk(a: seq<Entry>, b: seq<Entry>, addr: int)
    requires IfacesOk(a) && Moved(a, b, addr) && IsUp(a, addr)
    requires forall i | 0 <= i < |a| :: b[i] == a[i] && a[i].kind == MN ==> a[i].con == NONE || IsUp(a, a[i].con)
    ensures Homed(b) && IfacesOk(b) && SameButNodes(a, b)
  {
    assert SameButNodes(a, b);
    forall i | 0 <= i < |b| && b[i].kind == MN ensures b[i].con == NONE || IsUp(b, b[i].con) {
      SameIsUp(a, b, b[i].con);
      assert b[i] == a[i] || b[i].con == addr;
    }
  }

  /** An uplink that was down, or that keeps its address, can always return. */
  lemma UsualReturn(entries: seq<Entry>, k: nat, addr: int)
    requires k < |entries| && entries[k].kind == MR_HA && (entries[k].con == NONE || entries[k].con == addr)
    ensures CanReplace(entries, k, addr)
  {
    if entries[k].con != NONE {
      assert entries[k := entries[k].(con := addr)][k].con == addr;
    }
  }

  // ---------------------------------------------------------------- which nodes round robin moves

  /** The contacts of some nodes, in list order. */
  function Contacts(entries: seq<Entry>, nodes: seq<nat>): (r: seq<int>)
    requires forall i | 0 <= i < |nodes| :: nodes[i] < |entries|
    ensures |r| == |nodes| && forall i | 0 <= i < |r| :: r[i] == entries[nodes[i]].con
  {
    seq(|nodes|, i requires 0 <= i < |nodes| => entries[nodes[i]].con)
  }

  /** After some nodes: the contact that stands for all but the first one's (0 when there is none
      yet), and how many nodes of either kind may stay before the next one has to move. */
  datatype Room = Room(other: int, first: int, rest: int)

  function RoomAfter(s: seq<int>): Room {
    if |s| <= 1 then Room(0, 1, 1 + |s|)
    else
      var r, con := RoomAfter(s[..|s| - 1]), s[|s| - 1];
      if con != s[0] && r.other == 0 then Room(con, r.first + 1, r.rest)
      else if MustMove(s) then Room(r.other, r.first + 1, r.rest + 1)
      else if con == s[0] then r.(first := r.first - 1)
      else r.(rest := r.rest - 1)
  }

  /** The last of these nodes moves: it is the first one, the first one elsewhere, or finds no room. */
  predicate MustMove(s: seq<int>)
    requires s != []
    decreases s, 0
  {
    var con := s[|s| - 1];
    |s| == 1 ||
    (var r := RoomAfter(s[..|s| - 1]);
     if con == s[0] then r.first <= 0 else r.other == 0 || r.rest <= 0)
  }

  predicate MovesAt(s: seq<int>, i: nat)
    requires i < |s|
  {
    MustMove(s[..i + 1])
  }

  /** All nodes with this contact move. */
  predicate AllMove(s: seq<int>, con: int) {
    forall i | 0 <= i < |s| :: s[i] == con ==> MovesAt(s, i)
  }

  /** The tally after the nodes with contacts `s`. */
  ghost predicate Tallies(r: Tally, s: seq<int>) {
    if s == [] then r == Tally(r.entries, 0, 0, 0, 0, 0)
    else r.old1 == s[0] && RoomAfter(s) == Room(r.old2, r.moved + 1 - r.count1, r.moved + 1 - r.count2)
  }

  lemma TalliedExactly(r: Tally, k: nat, caddr: int, s: seq<int>)
    requires k < |r.entries| && s != [] && Tallies(r, s[..|s| - 1]) && r.entries[k].con == s[|s| - 1]
    ensures
      var r' := Tallied(r, k, caddr, |s| == 1);
      && Tallies(r', s)
      && r'.entries == if MustMove(s) then r.entries[k := r.entries[k].(con := caddr)] else r.entries
  {
    if |s| == 1 {
    } else if r.entries[k].con != s[0] {
      assert s[..|s| - 1][0] == s[0];
    } else {
      assert s[..|s| - 1][0] == s[0];
    }
  }

  /** In `e`, of the first `n` nodes those that must move have moved, and nothing else has changed for nodes. */
  ghost predicate TakenUpTo(entries: seq<Entry>, e: seq<Entry>, nodes: seq<nat>, caddr: int, n: nat)
    requires n <= |nodes| && |e| == |entries| && forall i | 0 <= i < |nodes| :: nodes[i] < |entries|
  {
    var s := Contacts(entries, nodes);
    && (forall j | 0 <= j < n ::
          e[nodes[j]] == if MovesAt(s, j) then entries[nodes[j]].(con := caddr) else entries[nodes[j]])
    && (forall j | n <= j < |nodes| :: e[nodes[j]] == entries[nodes[j]])
  }

  lemma TakeOne(entries: seq<Entry>, e: seq<Entry>, nodes: seq<nat>, caddr: int, n: nat, e': seq<Entry>)
    requires n < |nodes| && |e| == |entries| && forall i | 0 <= i < |nodes| :: nodes[i] < |entries|
    requires forall i, j | 0 <= i < j < |nodes| :: nodes[i] < nodes[j]
    requires TakenUpTo(entries, e, nodes, caddr, n)
    requires e' == if MovesAt(Contacts(entries, nodes), n) then e[nodes[n] := e[nodes[n]].(con := caddr)] else e
    ensures TakenUpTo(entries, e', nodes, caddr, n + 1)
  {
    forall j | 0 <= j < |nodes| && j != n ensures e'[nodes[j]] == e[nodes[j]] {
      assert nodes[j] != nodes[n];
    }
  }

  lemma NoneTaken(entries: seq<Entry>, nodes: seq<nat>, caddr: int)
    requires forall i | 0 <= i < |nodes| :: nodes[i] < |entries|
    ensures Tallies(Tally(entries, 0, 0, 0, 0, 0), Contacts(entries, nodes)[..0])
    ensures TakenUpTo(entries, entries, nodes, caddr, 0)
  {
  }

  lemma RoundTaken(entries: seq<Entry>, r: Tally, nodes: seq<nat>, caddr: int, n: nat)
    requires n < |nodes| && |r.entries| == |entries| && forall i | 0 <= i < |nodes| :: nodes[i] < |entries|
    requires forall i, j | 0 <= i < j < |nodes| :: nodes[i] < nodes[j]
    requires Tallies(r, Contacts(entries, nodes)[..n]) && TakenUpTo(entries, r.entries, nodes, caddr, n)
    ensures
      var r' := Tallied(r, nodes[n], caddr, n == 0);
      && |r'.entries| == |entries|
      && Tallies(r', Contacts(entries, nodes)[..n + 1])
      && TakenUpTo(entries, r'.entries, nodes, caddr, n + 1)
  {
    var s := Contacts(entries, nodes);
    assert s[..n + 1][..n] == s[..n] && s[..n + 1][n] == s[n];
    TalliedExactly(r, nodes[n], caddr, s[..n + 1]);
    TakeOne(entries, r.entries, nodes, caddr, n, Tallied(r, nodes[n], caddr, n == 0).entries);
  }

  lemma {:induction false} RenewRoundRobinExactly(entries: seq<Entry>, nodes: seq<nat>, caddr: int, n: nat)
    requires n <= |nodes| && forall i | 0 <= i < |nodes| :: nodes[i] < |entries|
    requires forall i, j | 0 <= i < j < |nodes| :: nodes[i] < nodes[j]
    ensures
      var r := RenewRoundRobin(entries, nodes, caddr, n);
      Tallies(r, Contacts(entries, nodes)[..n]) && TakenUpTo(entries, r.entries, nodes, caddr, n)
  {
    if n == 0 {
      NoneTaken(entries, nodes, caddr);
    } else {
      RenewRoundRobinExactly(entries, nodes, caddr, n - 1);
      RoundTaken(entries, RenewRoundRobin(entries, nodes, caddr, n - 1), nodes, caddr, n - 1);
    }
  }

  lemma {:induction false} NodesAreAll(entries: seq<Entry>, n: nat)
    requires n <= |entries|
    ensures forall i | 0 <= i < n && entries[i].kind == MN :: i in Nodes(entries, n)
  {
    if n > 0 {
      NodesAreAll(entries, n - 1);
    }
  }

  /** No node of these has the contact of the first but the first itself, so there is room. */
  lemma {:induction false} FirstHasRoom(s: seq<int>)
    requires s != [] && forall i | 0 < i < |s| :: s[i] != s[0]
    ensures RoomAfter(s).first >= 1
  {
    if |s| > 1 {
      FirstHasRoom(s[..|s| - 1]);
    }
  }

  /** Where the nodes use two contacts, no more than one of the others' has been seen. */
  lemma {:induction false} OtherHasRoom(s: seq<int>, con: int)
    requires s != [] && s[0] != con && con != 0 && forall i | 0 <= i < |s| :: s[i] == s[0] || s[i] == con
    requires forall i, j | 0 <= i < j < |s| :: !(s[i] == con && s[j] == con)
    ensures RoomAfter(s).rest >= 2
    ensures RoomAfter(s).other == if con in s then con else 0
  {
    if |s| > 1 {
      var front := s[..|s| - 1];
      OtherHasRoom(front, con);
      assert s == front + [s[|s| - 1]];
    }
  }

  /** At most one node has this contact. */
  predicate AtMostOne(s: seq<int>, con: int) {
    forall i, j | 0 <= i < j < |s| :: !(s[i] == con && s[j] == con)
  }

  /** Of a node whose contact has been seen at most once before. */
  lemma LastMoves(s: seq<int>, con: int)
    requires |s| > 1 && s[|s| - 1] == con && AtMostOne(s[..|s| - 1], con)
    requires s[0] != con ==> con != 0 && forall i | 0 <= i < |s| :: s[i] == s[0] || s[i] == con
    ensures MustMove(s) <==> con !in s[..|s| - 1]
  {
    if s[0] == con {
      FirstHasRoom(s[..|s| - 1]);
    } else {
      OtherHasRoom(s[..|s| - 1], con);
    }
  }

  /** All nodes with the contact of the first node move exactly when there is no other. So do those
      with another contact if the nodes use only these two, which is what the loop is written for. */
  lemma {:induction false} TwoContactsExactly(s: seq<int>, con: int)
    requires s != [] && s[0] != con ==> con != 0 && forall i | 0 <= i < |s| :: s[i] == s[0] || s[i] == con
    ensures AllMove(s, con) <==> AtMostOne(s, con)
  {
    if |s| > 1 {
      var n := |s| - 1;
      var front := s[..n];
      TwoContactsExactly(front, con);
      forall i | 0 <= i < n ensures MovesAt(front, i) == MovesAt(s, i) {
        assert front[..i + 1] == s[..i + 1];
      }
      assert s[..n + 1] == s;
      assert AllMove(s, con) <==> AllMove(front, con) && (s[n] == con ==> MustMove(s));
      assert AtMostOne(s, con) <==> AtMostOne(front, con) && (s[n] == con ==> con !in front);
      if s[n] == con && AtMostOne(front, con) {
        LastMoves(s, con);
      }
    } else if |s| == 1 {
      assert s[..1] == s;
    }
  }

  /** With more than two contacts, a lone node far down the list can move as well. */
  lemma LateNodeMoves()
    ensures AllMove([10, 20, 30, 40, 50], 50)
  {
    var s := [10, 20, 30, 40, 50];
    assert s[..1] == [10] && s[..2] == [10, 20] && s[..3] == [10, 20, 30] && s[..4] == [10, 20, 30, 40] && s[..5] == s;
    assert RoomAfter([10]) == Room(0, 1, 2);
    assert RoomAfter(s[..2]) == Room(20, 2, 2) by { assert s[..2][..1] == [10]; }
    assert RoomAfter(s[..3]) == Room(20, 2, 1) by { assert s[..3][..2] == s[..2]; }
    assert RoomAfter(s[..4]) == Room(20, 2, 0) by { assert s[..4][..3] == s[..3]; }
  }

  /** The contact of entry `k` can be replaced by `addr`: whatever happens with random selection,
      given which nodes move with round robin, and always when all nodes move. */
  ghost predicate CanReturn(mode: Select, entries: seq<Entry>, k: nat, addr: int)
    requires k < |entries|
  {
    match mode
    case Random => CanReplace(entries, k, addr)
    case RoundRobin =>
      CanReplace(entries, k, addr) || AllMove(Contacts(entries, Nodes(entries, |entries|)), entries[k].con)
    case Weight => true
  }

  lemma {:induction false} SameNodes(a: seq<Entry>, b: seq<Entry>, n: nat)
    requires |a| == |b| && n <= |a| && forall i | 0 <= i < |a| :: b[i].kind == a[i].kind
    ensures Nodes(a, n) == Nodes(b, n)
  {
    if n > 0 {
      SameNodes(a, b, n - 1);
    }
  }

  /** Which nodes a returning uplink takes with round robin: those that must move, and only those. */
  lemma ReturnTakes(t: Table, k: nat, addr: int, draws: nat -> nat)
    requires k < |t.entries| && t.entries[k].kind == MR_HA
    ensures
      var nodes, r := Nodes(t.entries, |t.entries|), Return(RoundRobin, t, k, addr, draws).entries;
      var s := Contacts(t.entries, nodes);
      && (forall j | 0 <= j < |nodes| :: r[nodes[j]].con == if MovesAt(s, j) then addr else t.entries[nodes[j]].con)
      && (forall i | 0 <= i < |r| && r[i].kind == MN :: i in nodes)
  {
    var a := t.entries[k := t.entries[k].(con := addr)];
    var nodes := Nodes(t.entries, |t.entries|);
    SameNodes(t.entries, a, |a|);
    assert Contacts(a, nodes) == Contacts(t.entries, nodes);
    var s := Contacts(a, nodes);
    RenewRoundRobinExactly(a, nodes, addr, |nodes|);
    KindsKept(t, k, addr, draws);
    NodesAreAll(t.entries, |t.entries|);
  }

  lemma KindsKept(t: Table, k: nat, addr: int, draws: nat -> nat)
    requires k < |t.entries|
    ensures forall i | 0 <= i < |t.entries| :: Return(RoundRobin, t, k, addr, draws).entries[i].kind == t.entries[i].kind
  {
    RenewMoves(RoundRobin, t.entries[k := t.entries[k].(con := addr)], addr, draws);
  }

  /** An uplink that comes back leaves every node homed under the condition of its mode. */
  lemma ReturnOk(mode: Select, t: Table, k: nat, addr: int, draws: nat -> nat)
    requires Inv(t) && k < |t.entries| && t.entries[k].kind == MR_HA && addr != NONE
    requires CanReturn(mode, t.entries, k, addr)
    ensures Inv(Return(mode, t, k, addr, draws))
  {
    var a := t.entries[k := t.entries[k].(con := addr)];
    var b := Return(mode, t, k, addr, draws).entries;
    RenewMoves(mode, a, addr, draws);
    assert a[k].kind == MR_HA && a[k].con == addr;
    if CanReplace(t.entries, k, addr) {
      ReplaceOk(t.entries, k, addr);
    } else if mode.RoundRobin? {
      ReturnTakes(t, k, addr, draws);
      StayersOk(t, k, addr, draws);
    }
    MovedOk(a, b, addr);
  }

  /** With round robin, when all nodes on the former contact move, the others stay homed. */
  lemma StayersOk(t: Table, k: nat, addr: int, draws: nat -> nat)
    requires Inv(t) && k < |t.entries| && t.entries[k].kind == MR_HA && addr != NONE
    requires AllMove(Contacts(t.entries, Nodes(t.entries, |t.entries|)), t.entries[k].con)
    ensures
      var a, b := t.entries[k := t.entries[k].(con := addr)], Return(RoundRobin, t, k, addr, draws).entries;
      forall i | 0 <= i < |a| :: b[i] == a[i] && a[i].kind == MN ==> a[i].con == NONE || IsUp(a, a[i].con)
  {
    var a, b := t.entries[k := t.entries[k].(con := addr)], Return(RoundRobin, t, k, addr, draws).entries;
    var nodes := Nodes(t.entries, |t.entries|);
    ReturnTakes(t, k, addr, draws);
    assert a[k].kind == MR_HA && a[k].con == addr;
    forall i | 0 <= i < |a| && b[i] == a[i] && a[i].kind == MN && a[i].con != NONE ensures IsUp(a, a[i].con) {
      assert i in nodes;
      var j :| 0 <= j < |nodes| && nodes[j] == i;
      if a[i].con == t.entries[k].con {
        assert b[i].con == addr;
      } else {
        assert IsUp(t.entries, a[i].con);
        var m :| 0 <= m < |t.entries| && t.entries[m].kind == MR_HA && t.entries[m].con == a[i].con;
        assert a[m] == t.entries[m];
      }
    }
  }

  lemma StayerStranded(t: Table, k: nat, addr: int, draws: nat -> nat, j: nat)
    requires k < |t.entries| && t.entries[k].kind == MR_HA && !CanReplace(t.entries, k, addr)
    requires
      var nodes := Nodes(t.entries, |t.entries|);
      var s := Contacts(t.entries, nodes);
      j < |s| && s[j] == t.entries[k].con && !MovesAt(s, j)
    ensures !Homed(Return(RoundRobin, t, k, addr, draws).entries)
  {
    var a, b := t.entries[k := t.entries[k].(con := addr)], Return(RoundRobin, t, k, addr, draws).entries;
    var i := Nodes(t.entries, |t.entries|)[j];
    ReturnTakes(t, k, addr, draws);
    RenewMoves(RoundRobin, a, addr, draws);
    assert SameButNodes(a, b);
    SameIsUp(a, b, t.entries[k].con);
    assert b[i].kind == MN && b[i].con == t.entries[k].con;
  }

  /** With round robin the condition is exact. */
  lemma ReturnRoundRobinExactly(t: Table, k: nat, addr: int, draws: nat -> nat)
    requires Inv(t) && k < |t.entries| && t.entries[k].kind == MR_HA && addr != NONE
    ensures CanReturn(RoundRobin, t.entries, k, addr) <==> Homed(Return(RoundRobin, t, k, addr, draws).entries)
  {
    if CanReturn(RoundRobin, t.entries, k, addr) {
      ReturnOk(RoundRobin, t, k, addr, draws);
    } else {
      var s := Contacts(t.entries, Nodes(t.entries, |t.entries|));
      var j :| 0 <= j < |s| && s[j] == t.entries[k].con && !MovesAt(s, j);
      StayerStranded(t, k, addr, draws, j);
    }
  }

  /** Otherwise a random selection that happens to move no node leaves one stranded. */
  lemma ReturnStrands(t: Table, k: nat, addr: int, none: nat -> nat)
    requires Inv(t) && k < |t.entries| && t.entries[k].kind == MR_HA && addr != NONE
    requires !CanReplace(t.entries, k, addr) && none(0) == 0
    ensures !Homed(Return(Random, t, k, addr, none).entries)
  {
    var a := t.entries[k := t.entries[k].(con := addr)];
    var i :| 0 <= i < |t.entries| && t.entries[i].kind == MN && t.entries[i].con == t.entries[k].con;
    assert Renew(Random, a, addr, none) == a;
    assert a[i] == t.entries[i] && !IsUp(a, a[i].con);
  }

  ghost predicate SafeReturn(t: Table, k: nat, addr: int, draws: nat -> nat)
    requires k < |t.entries|
  {
    Homed(Return(Random, t, k, addr, draws).entries)
  }

  /** With random selection that condition is exact: it holds if and only if every draw is safe. */
  lemma ReturnRandomExactly(t: Table, k: nat, addr: int)
    requires Inv(t) && k < |t.entries| && t.entries[k].kind == MR_HA && addr != NONE
    ensures CanReplace(t.entries, k, addr) <==> forall draws: nat -> nat :: SafeReturn(t, k, addr, draws)
  {
    if CanReplace(t.entries, k, addr) {
      forall draws: nat -> nat ensures SafeReturn(t, k, addr, draws) {
        ReturnOk(Random, t, k, addr, draws);
      }
    } else {
      var none: nat -> nat := _ => 0;
      ReturnStrands(t, k, addr, none);
      assert !SafeReturn(t, k, addr, none);
    }
  }

  // ---------------------------------------------------------------- runs

  datatype Event =
    | RegisterNode(urlId: int, contact: int, draw: nat)
    | HearPeer(urlId: int, contact: int)
    | BreakUplink(iface: int, draws: nat -> nat)
    | ReturnUplink(iface: int, addr: int, draws: nat -> nat)

  /** What the router is used with: a registering node never has the id of another kind of entry
      and finds an active uplink; two uplinks exist when one breaks; an uplink that registers
      again does so with an address that can replace its former one. */
  ghost predicate Enabled(mode: Select, t: Table, e: Event) {
    match e
    case RegisterNode(urlId, _, _) =>
      var k := FindUrl(t.entries, urlId);
      Uplinks(t.entries) != [] && (k < |t.entries| ==> t.entries[k].kind == MN)
    case HearPeer(_, _) => true
    case BreakUplink(iface, _) =>
      && iface != NONE
      && FindIface(t.entries, iface) < |t.entries|
      && exists i | 0 <= i < |t.entries| :: t.entries[i].iface != NONE && t.entries[i].iface != iface
    case ReturnUplink(iface, addr, _) =>
      && iface != NONE && addr != NONE
      && var k := FindIface(t.entries, iface);
         k < |t.entries| && CanReturn(mode, t.entries, k, addr)
  }

  ghost function Step(mode: Select, t: Table, e: Event): Table {
    if !Enabled(mode, t, e) then t
    else match e
      case RegisterNode(urlId, contact, draw) => Register(mode, t, urlId, contact, draw)
      case HearPeer(urlId, contact) => Peer(t, urlId, contact)
      case BreakUplink(iface, draws) => Break(mode, t, FindIface(t.entries, iface), draws)
      case ReturnUplink(iface, addr, draws) => Return(mode, t, FindIface(t.entries, iface), addr, draws)
  }

  /** Every sequence of events is a run; events outside the assumed use are skipped. */
  ghost function Run(mode: Select, t: Table, es: seq<Event>): Table {
    if es == [] then t else Step(mode, Run(mode, t, es[..|es| - 1]), es[|es| - 1])
  }

  lemma StepOk(mode: Select, t: Table, e: Event)
    requires Inv(t)
    ensures Inv(Step(mode, t, e))
  {
    if Enabled(mode, t, e) {
      match e
      case RegisterNode(urlId, contact, draw) => RegisterOk(mode, t, urlId, contact, draw);
      case HearPeer(urlId, contact) => HeadOk(t, Entry(CN, urlId, contact, NONE));
      case BreakUplink(iface, draws) => BreakOk(mode, t, FindIface(t.entries, iface), draws);
      case ReturnUplink(iface, addr, draws) =>
        var k := FindIface(t.entries, iface);
        ReturnOk(mode, t, k, addr, draws);
    }
  }

  lemma {:induction false} InvAlways(mode: Select, t: Table, es: seq<Event>)
    requires Inv(t)
    ensures Inv(Run(mode, t, es))
    decreases es
  {
    if es != [] {
      InvAlways(mode, t, es[..|es| - 1]);
      StepOk(mode, Run(mode, t, es[..|es| - 1]), es[|es| - 1]);
    }
  }

  // ---------------------------------------------------------------- results

  /** A packet of a node with this contact leaves by an active uplink. */
  ghost predicate LeavesByActive(entries: seq<Entry>, con: int) {
    var k := FindUplink(entries, con);
    k < |entries| && entries[k].con != NONE
  }

  /** Safety of every run: each mobile node is homed, and forwarding for it finds an active uplink
      exactly when its contact is not -1. */
  lemma ForwardingSafe(mode: Select, t: Table, es: seq<Event>, i: nat)
    requires Inv(t) && i < |Run(mode, t, es).entries| && Run(mode, t, es).entries[i].kind == MN
    ensures
      var entries := Run(mode, t, es).entries;
      && (entries[i].con == NONE || entries[i].con in Uplinks(entries))
      && (LeavesByActive(entries, entries[i].con) <==> entries[i].con != NONE)
  {
    InvAlways(mode, t, es);
    var entries := Run(mode, t, es).entries;
    UplinksAre(entries, entries[i].con);
  }

  /** After a break in any run, no node keeps the broken address, unless another active uplink has
      that address too (or the uplink was down already). */
  lemma BrokenAddressGone(mode: Select, t: Table, es: seq<Event>, iface: int, draws: nat -> nat)
    requires Inv(t) && Enabled(mode, Run(mode, t, es), BreakUplink(iface, draws))
    ensures
      var before := Run(mode, t, es);
      var after := Step(mode, before, BreakUplink(iface, draws)).entries;
      var con := before.entries[FindIface(before.entries, iface)].con;
      con != NONE && con !in Uplinks(after) ==>
        forall i | 0 <= i < |after| :: after[i].kind == MN ==> after[i].con != con
  {
    InvAlways(mode, t, es);
    var before := Run(mode, t, es);
    var k := FindIface(before.entries, iface);
    BreakOk(mode, before, k, draws);
    UplinksAre(Break(mode, before, k, draws).entries, before.entries[k].con);
  }

  /** The source's assert that an uplink was found fails exactly for a node without contact while
      every uplink is active. */
  lemma LookupFailsExactly(entries: seq<Entry>, i: nat)
    requires Homed(entries) && i < |entries| && entries[i].kind == MN
    ensures FindUplink(entries, entries[i].con) == |entries| <==>
      entries[i].con == NONE && forall j | 0 <= j < |entries| :: entries[j].kind == MR_HA ==> entries[j].con != NONE
  {
  }

  /** Such a state is reachable: both uplinks break and return while the draws move no node. */
  lemma StrandedIsReachable()
    ensures exists t, es, i ::
      && Inv(t)
      && 0 <= i < |Run(Random, t, es).entries|
      && Run(Random, t, es).entries[i].kind == MN
      && FindUplink(Run(Random, t, es).entries, Run(Random, t, es).entries[i].con) == |Run(Random, t, es).entries|
  {
    var t, es := StrandRun(_ => 0);
    StrandLookup(Run(Random, t, es).entries);
  }

  lemma StrandRun(zero: nat -> nat) returns (t: Table, es: seq<Event>)
    requires zero(0) == 0
    ensures Inv(t)
    ensures Run(Random, t, es).entries == [Entry(MN, 7, NONE, NONE), Entry(MR_HA, 1, 10, 101), Entry(MR_HA, 2, 20, 102)]
  {
    t := Table([Entry(MN, 7, 20, NONE), Entry(MR_HA, 1, NONE, 101), Entry(MR_HA, 2, 20, 102)], 0, []);
    assert t.entries[2].kind == MR_HA && t.entries[2].con == 20;
    var e0, e1, e2 := BreakUplink(102, zero), ReturnUplink(101, 10, zero), ReturnUplink(102, 20, zero);
    es := [] + [e0] + [e1] + [e2];
    RunAppend(Random, t, [], e0);
    RunAppend(Random, t, [] + [e0], e1);
    RunAppend(Random, t, [] + [e0] + [e1], e2);
    var t0 := StrandBreak(t, zero);
    StrandReturn(t0, 1, 10, zero);
    var t1 := t0.(entries := t0.entries[1 := Entry(MR_HA, 1, 10, 101)]);
    StrandReturn(t1, 2, 20, zero);
  }

  lemma StrandLookup(entries: seq<Entry>)
    requires entries == [Entry(MN, 7, NONE, NONE), Entry(MR_HA, 1, 10, 101), Entry(MR_HA, 2, 20, 102)]
    ensures FindUplink(entries, NONE) == |entries| && entries[0].kind == MN && entries[0].con == NONE
  {
  }

  lemma RunAppend(mode: Select, t: Table, es: seq<Event>, e: Event)
    ensures Run(mode, t, es + [e]) == Step(mode, Run(mode, t, es), e)
  {
    assert (es + [e])[..|es|] == es;
  }

  /** The last active uplink breaks. */
  lemma StrandBreak(t: Table, draws: nat -> nat) returns (r: Table)
    requires t.entries == [Entry(MN, 7, 20, NONE), Entry(MR_HA, 1, NONE, 101), Entry(MR_HA, 2, 20, 102)]
    ensures r == t.(entries := [Entry(MN, 7, NONE, NONE), Entry(MR_HA, 1, NONE, 101), Entry(MR_HA, 2, NONE, 102)])
    ensures Step(Random, t, BreakUplink(102, draws)) == r
  {
    r := t.(entries := [Entry(MN, 7, NONE, NONE), Entry(MR_HA, 1, NONE, 101), Entry(MR_HA, 2, NONE, 102)]);
    var broken := t.(entries := t.entries[2 := Entry(MR_HA, 2, NONE, 102)]);
    assert t.entries[2].iface == 102 && t.entries[1].iface == 101 && t.entries[0].iface == NONE;
    assert FindIface(t.entries, 102) == 2;
    NoUplinks(broken.entries);
    RehomeOne(broken, draws);
  }

  lemma {:induction false} NoUplinks(entries: seq<Entry>)
    requires forall i | 0 <= i < |entries| :: entries[i].kind == MR_HA ==> entries[i].con == NONE
    ensures Uplinks(entries) == []
  {
    if entries != [] {
      NoUplinks(entries[1..]);
    }
  }

  lemma RehomeOne(t: Table, draws: nat -> nat)
    requires t.entries == [Entry(MN, 7, 20, NONE), Entry(MR_HA, 1, NONE, 101), Entry(MR_HA, 2, NONE, 102)]
    ensures Rehome(Random, t, 20, [], draws, 3)
         == t.(entries := [Entry(MN, 7, NONE, NONE), Entry(MR_HA, 1, NONE, 101), Entry(MR_HA, 2, NONE, 102)])
  {
    assert Rehome(Random, t, 20, [], draws, 0) == t;
    assert Rehome(Random, t, 20, [], draws, 1) == t.(entries := t.entries[0 := Entry(MN, 7, NONE, NONE)]);
    assert Rehome(Random, t, 20, [], draws, 2) == Rehome(Random, t, 20, [], draws, 1);
  }

  /** An uplink returns and the draws move no node. */
  lemma StrandReturn(t: Table, k: nat, addr: int, draws: nat -> nat)
    requires k < |t.entries| && t.entries[k].kind == MR_HA && t.entries[k].con == NONE && t.entries[k].iface != NONE
    requires addr != NONE && FindIface(t.entries, t.entries[k].iface) == k && draws(0) == 0
    ensures Step(Random, t, ReturnUplink(t.entries[k].iface, addr, draws))
         == t.(entries := t.entries[k := t.entries[k].(con := addr)])
  {
  }

  // ---------------------------------------------------------------- round robin balance

  /** A round-robin stretch: registrations, peers and breaks, after each of which the active
      uplinks are `ups`. */
  ghost predicate Stretch(t: Table, es: seq<Event>, ups: seq<int>)
    decreases es
  {
    es == [] ||
    (&& Stretch(t, es[..|es| - 1], ups)
     && !es[|es| - 1].ReturnUplink?
     && Uplinks(Run(RoundRobin, t, es).entries) == ups)
  }

  /** From `a` to `b`, one pick was made per count, each at the count's position among `m`. */
  ghost predicate Continues(a: Table, b: Table, m: nat)
    requires m > 0
  {
    && a.picks <= b.picks
    && |b.picks| - |a.picks| == b.count - a.count
    && Cyclic(b.picks[|a.picks|..], a.count, m)
  }

  lemma {:induction false} RehomeContinues(t: Table, caddr: int, ups: seq<int>, draws: nat -> nat, n: nat)
    requires n <= |t.entries| && ups != []
    ensures Continues(t, Rehome(RoundRobin, t, caddr, ups, draws, n), |ups|)
  {
    if n > 0 {
      RehomeContinues(t, caddr, ups, draws, n - 1);
      var r, r' := Rehome(RoundRobin, t, caddr, ups, draws, n - 1), Rehome(RoundRobin, t, caddr, ups, draws, n);
      if r' != r {
        assert r'.picks[|t.picks|..] == r.picks[|t.picks|..] + [r.count % |ups|];
      }
    }
  }

  lemma StepContinues(t: Table, e: Event, ups: seq<int>)
    requires Inv(t) && !e.ReturnUplink? && ups != [] && Uplinks(Step(RoundRobin, t, e).entries) == ups
    ensures Continues(t, Step(RoundRobin, t, e), |ups|)
  {
    var t' := Step(RoundRobin, t, e);
    if Enabled(RoundRobin, t, e) {
      match e
      case RegisterNode(urlId, contact, draw) =>
        RegisterOk(RoundRobin, t, urlId, contact, draw);
        assert t'.picks == t.picks + t'.picks[|t.picks|..];
      case HearPeer(_, _) =>
      case BreakUplink(iface, draws) =>
        var k := FindIface(t.entries, iface);
        var broken := t.(entries := t.entries[k := t.entries[k].(con := NONE)]);
        RehomeEffect(RoundRobin, broken, t.entries[k].con, Uplinks(broken.entries), draws, |t.entries|);
        SameUplinks(broken.entries, t'.entries);
        RehomeContinues(broken, t.entries[k].con, ups, draws, |t.entries|);
    }
  }

  lemma ContinuesTrans(a: Table, b: Table, c: Table, m: nat)
    requires m > 0 && Continues(a, b, m) && Continues(b, c, m)
    ensures Continues(a, c, m)
  {
    var x, y := b.picks[|a.picks|..], c.picks[|b.picks|..];
    assert c.picks[|a.picks|..] == x + y;
    forall i | 0 <= i < |x + y| ensures (x + y)[i] == (a.count + i) % m {
      if i >= |x| {
        assert y[i - |x|] == (b.count + (i - |x|)) % m;
      }
    }
  }

  lemma {:induction false} StretchContinues(t: Table, es: seq<Event>, ups: seq<int>)
    requires Inv(t) && ups != [] && Stretch(t, es, ups)
    ensures Continues(t, Run(RoundRobin, t, es), |ups|)
    decreases es
  {
    if es != [] {
      var n := |es| - 1;
      var front := es[..n];
      StretchContinues(t, front, ups);
      InvAlways(RoundRobin, t, front);
      StepContinues(Run(RoundRobin, t, front), es[n], ups);
      ContinuesTrans(t, Run(RoundRobin, t, front), Run(RoundRobin, t, es), |ups|);
    }
  }

  /** The positions of the mobile nodes with contact `caddr` among the first `n` entries. */
  function Using(entries: seq<Entry>, caddr: int, n: nat): (r: seq<nat>)
    requires n <= |entries|
    ensures forall i | 0 <= i < |r| :: r[i] < n
  {
    if n == 0 then []
    else if entries[n - 1].kind == MN && entries[n - 1].con == caddr then Using(entries, caddr, n - 1) + [n - 1]
    else Using(entries, caddr, n - 1)
  }

  /** The contacts that an event gives to nodes, read off the table: that of the registering node
      after a registration, those of the nodes of the broken uplink after a break. */
  ghost function Given(t: Table, e: Event): seq<int> {
    var t' := Step(RoundRobin, t, e);
    if !Enabled(RoundRobin, t, e) then []
    else match e
      case RegisterNode(urlId, _, _) =>
        var k := FindUrl(t'.entries, urlId);
        if k < |t'.entries| then [t'.entries[k].con] else []
      case BreakUplink(iface, draws) =>
        var con := t.entries[FindIface(t.entries, iface)].con;
        Contacts(t'.entries, Using(t.entries, con, |t.entries|))
      case _ => []
  }

  ghost function AllGiven(t: Table, es: seq<Event>): seq<int>
    decreases es
  {
    if es == [] then []
    else AllGiven(t, es[..|es| - 1]) + Given(Run(RoundRobin, t, es[..|es| - 1]), es[|es| - 1])
  }

  /** These are the contacts of the uplinks at the positions picked. */
  ghost predicate At(given: seq<int>, ups: seq<int>, picks: seq<nat>) {
    |given| == |picks| && forall i | 0 <= i < |given| :: picks[i] < |ups| && given[i] == ups[picks[i]]
  }

  lemma {:induction false} RehomeGives(t: Table, caddr: int, ups: seq<int>, draws: nat -> nat, n: nat)
    requires n <= |t.entries| && ups != []
    ensures
      var r, nodes := Rehome(RoundRobin, t, caddr, ups, draws, n), Using(t.entries, caddr, n);
      t.picks <= r.picks && At(Contacts(r.entries, nodes), ups, r.picks[|t.picks|..])
  {
    if n > 0 {
      RehomeGives(t, caddr, ups, draws, n - 1);
      var r, r' := Rehome(RoundRobin, t, caddr, ups, draws, n - 1), Rehome(RoundRobin, t, caddr, ups, draws, n);
      var nodes := Using(t.entries, caddr, n - 1);
      assert Contacts(r'.entries, nodes) == Contacts(r.entries, nodes);
      if r' != r {
        assert r'.picks[|t.picks|..] == r.picks[|t.picks|..] + [r.count % |ups|];
        assert Contacts(r'.entries, nodes + [n - 1]) == Contacts(r'.entries, nodes) + [ups[r.count % |ups|]];
      }
    }
  }

  lemma {:induction false} SameUsing(a: seq<Entry>, b: seq<Entry>, caddr: int, n: nat)
    requires |a| == |b| && n <= |a|
    requires forall i | 0 <= i < |a| :: a[i].kind == b[i].kind && (a[i].kind == MN ==> a[i] == b[i])
    ensures Using(a, caddr, n) == Using(b, caddr, n)
  {
    if n > 0 {
      SameUsing(a, b, caddr, n - 1);
    }
  }

  lemma StepGives(t: Table, e: Event, ups: seq<int>)
    requires Inv(t) && !e.ReturnUplink? && ups != [] && Uplinks(Step(RoundRobin, t, e).entries) == ups
    ensures
      var t' := Step(RoundRobin, t, e);
      t.picks <= t'.picks && At(Given(t, e), ups, t'.picks[|t.picks|..])
  {
    if Enabled(RoundRobin, t, e) {
      match e
      case RegisterNode(urlId, contact, draw) => RegisterGives(t, urlId, contact, draw);
      case HearPeer(_, _) =>
      case BreakUplink(iface, draws) =>
        var k := FindIface(t.entries, iface);
        var broken := t.(entries := t.entries[k := t.entries[k].(con := NONE)]);
        RehomeEffect(RoundRobin, broken, t.entries[k].con, Uplinks(broken.entries), draws, |t.entries|);
        SameUplinks(broken.entries, Step(RoundRobin, t, e).entries);
        SameUsing(t.entries, broken.entries, t.entries[k].con, |t.entries|);
        RehomeGives(broken, t.entries[k].con, ups, draws, |t.entries|);
    }
  }

  lemma RegisterGives(t: Table, urlId: int, contact: int, draw: nat)
    requires Inv(t) && Enabled(RoundRobin, t, RegisterNode(urlId, contact, draw))
    ensures
      var t' := Register(RoundRobin, t, urlId, contact, draw);
      t.picks <= t'.picks && Uplinks(t'.entries) == Uplinks(t.entries)
      && At(Given(t, RegisterNode(urlId, contact, draw)), Uplinks(t.entries), t'.picks[|t.picks|..])
  {
    RegisterOk(RoundRobin, t, urlId, contact, draw);
    var t1, t' := Entered(t, urlId, contact), Register(RoundRobin, t, urlId, contact, draw);
    assert t1 != t ==> t1.entries[0].urlId == urlId;
    assert forall i | 0 <= i < |t1.entries| :: t'.entries[i].urlId == t1.entries[i].urlId;
    assert FindUrl(t'.entries, urlId) == FindUrl(t1.entries, urlId) < |t1.entries|;
    assert t'.picks[|t.picks|..] == [t.count % |Uplinks(t.entries)|];
  }

  lemma Appended(a: seq<nat>, b: seq<nat>, c: seq<nat>)
    requires a <= b <= c
    ensures a <= c && c[|a|..] == b[|a|..] + c[|b|..]
  {
  }

  lemma AtBoth(g: seq<int>, h: seq<int>, ups: seq<int>, p: seq<nat>, q: seq<nat>)
    requires At(g, ups, p) && At(h, ups, q)
    ensures At(g + h, ups, p + q)
  {
  }

  lemma {:induction false} StretchGives(t: Table, es: seq<Event>, ups: seq<int>)
    requires Inv(t) && ups != [] && Stretch(t, es, ups)
    ensures
      var t' := Run(RoundRobin, t, es);
      t.picks <= t'.picks && At(AllGiven(t, es), ups, t'.picks[|t.picks|..])
    decreases es
  {
    if es != [] {
      var n := |es| - 1;
      var front := es[..n];
      StretchGives(t, front, ups);
      InvAlways(RoundRobin, t, front);
      var t1, t' := Run(RoundRobin, t, front), Run(RoundRobin, t, es);
      StepGives(t1, es[n], ups);
      Appended(t.picks, t1.picks, t'.picks);
      AtBoth(AllGiven(t, front), Given(t1, es[n]), ups, t1.picks[|t.picks|..], t'.picks[|t1.picks|..]);
    }
  }

  lemma {:induction false} CountAt(given: seq<int>, ups: seq<int>, picks: seq<nat>, j: nat)
    requires At(given, ups, picks) && j < |ups| && forall i, i' | 0 <= i < i' < |ups| :: ups[i] != ups[i']
    ensures Count(given, ups[j]) == Count(picks, j)
    decreases given
  {
    if given != [] {
      var n := |given| - 1;
      CountAt(given[..n], ups, picks[..n], j);
    }
  }

  /** The floor or the ceiling of `n / m`. */
  predicate EqualShare(part: nat, n: nat, m: nat)
    requires m > 0
  {
    part == n / m || part == (n + m - 1) / m
  }

  predicate Different(ups: seq<int>) {
    forall i, j | 0 <= i < j < |ups| :: ups[i] != ups[j]
  }

  lemma SharedOut(given: seq<int>, ups: seq<int>, picks: seq<nat>, start: nat, j: nat)
    requires j < |ups| && At(given, ups, picks) && Cyclic(picks, start, |ups|)
    ensures EqualShare(Count(picks, j), |given|, |ups|)
    ensures Different(ups) ==> EqualShare(Count(given, ups[j]), |given|, |ups|)
  {
    Share(picks, start, |ups|, j);
    if Different(ups) {
      CountAt(given, ups, picks, j);
    }
  }

  /** Balance: over any stretch of registrations and breaks that leaves the same `m` active uplinks,
      the contacts given to nodes are those of the positions picked, each position gets an equal
      share of the picks, and so each uplink, if their addresses differ, an equal share of the nodes. */
  lemma RoundRobinBalanced(t: Table, es: seq<Event>, ups: seq<int>, j: nat)
    requires Inv(t) && j < |ups| && Stretch(t, es, ups)
    ensures
      var picks, given := Run(RoundRobin, t, es).picks, AllGiven(t, es);
      && t.picks <= picks
      && At(given, ups, picks[|t.picks|..])
      && EqualShare(Count(picks[|t.picks|..], j), |given|, |ups|)
      && (Different(ups) ==> EqualShare(Count(given, ups[j]), |given|, |ups|))
  {
    StretchContinues(t, es, ups);
    StretchGives(t, es, ups);
    SharedOut(AllGiven(t, es), ups, Run(RoundRobin, t, es).picks[|t.picks|..], t.count, j);
  }

  // ---------------------------------------------------------------- what each message does

  /** The contact that a mode gives to a node, as the number of nodes given one before, the active
      uplinks and the draw have it: at registration, and (`again`) when the node's uplink broke. */
  ghost predicate GivenBy(mode: Select, con: int, count: nat, ups: seq<int>, draw: nat, again: bool)
    requires ups != []
  {
    match mode
    case Random => con == ups[draw % |ups|]
    case RoundRobin => con == ups[count % |ups|]
    case Weight => con == if again || |ups| == 1 then ups[0] else ups[1]
  }

  /** A registering node, entered if it is new, gets the contact of an active uplink, the one that
      the mode selects, in every mode; nothing else changes. */
  lemma RegistersExactly(mode: Select, t: Table, urlId: int, contact: int, draw: nat)
    requires Inv(t) && Enabled(mode, t, RegisterNode(urlId, contact, draw))
    ensures
      var t', ups, k := Step(mode, t, RegisterNode(urlId, contact, draw)), Uplinks(t.entries), FindUrl(t.entries, urlId);
      var k' := FindUrl(t'.entries, urlId);
      && k' < |t'.entries| && t'.entries[k'].kind == MN
      && t'.entries[k'].con in ups
      && GivenBy(mode, t'.entries[k'].con, t.count, ups, draw, false)
      && t'.count == t.count + (if mode.RoundRobin? then 1 else 0)
      && t'.entries ==
         if k < |t.entries| then t.entries[k := t.entries[k].(con := t'.entries[k'].con)]
         else [Entry(MN, urlId, t'.entries[k'].con, NONE)] + t.entries
  {
    var t1, t' := Entered(t, urlId, contact), Register(mode, t, urlId, contact, draw);
    assert t1 != t ==> t1.entries[0].urlId == urlId;
    assert forall i | 0 <= i < |t1.entries| :: t'.entries[i].urlId == t1.entries[i].urlId;
    assert FindUrl(t'.entries, urlId) == FindUrl(t1.entries, urlId) < |t1.entries|;
  }

  /** An unknown peer is entered in front as a correspondent; nothing else changes. */
  lemma PeersExactly(mode: Select, t: Table, urlId: int, contact: int)
    ensures
      var t' := Step(mode, t, HearPeer(urlId, contact));
      if exists i | 0 <= i < |t.entries| :: t.entries[i].urlId == urlId then t' == t
      else t' == t.(entries := [Entry(CN, urlId, contact, NONE)] + t.entries) && FindUrl(t'.entries, urlId) == 0
  {
    var k := FindUrl(t.entries, urlId);
    assert k < |t.entries| ==> t.entries[k].urlId == urlId;
    assert Peer(t, urlId, contact) != t ==> Peer(t, urlId, contact).entries[0].urlId == urlId;
  }

  lemma {:induction false} RehomeByMode(mode: Select, t: Table, caddr: int, ups: seq<int>, draws: nat -> nat, n: nat)
    requires n <= |t.entries| && ups != [] && !mode.RoundRobin?
    ensures
      var r := Rehome(mode, t, caddr, ups, draws, n);
      && (forall i | 0 <= i < n && t.entries[i].kind == MN && t.entries[i].con == caddr ::
            GivenBy(mode, r.entries[i].con, 0, ups, draws(i), true))
      && (forall i | n <= i < |t.entries| :: r.entries[i] == t.entries[i])
      && r.count == t.count
  {
    if n > 0 {
      RehomeByMode(mode, t, caddr, ups, draws, n - 1);
    }
  }

  lemma BreakFrame(mode: Select, t: Table, k: nat, draws: nat -> nat)
    requires k < |t.entries| && t.entries[k].kind == MR_HA
    ensures
      var r, con := Break(mode, t, k, draws).entries, t.entries[k].con;
      var broken := t.entries[k := t.entries[k].(con := NONE)];
      && r[k] == broken[k] && Uplinks(r) == Uplinks(broken)
      && (forall i | 0 <= i < |r| :: r[i] == broken[i].(con := r[i].con))
      && (forall i | 0 <= i < |r| && (broken[i].kind != MN || broken[i].con != con) :: r[i] == broken[i])
      && (Uplinks(r) == [] ==> forall i | 0 <= i < |r| && broken[i].kind == MN && broken[i].con == con :: r[i].con == NONE)
  {
    var con := t.entries[k].con;
    var broken := t.(entries := t.entries[k := t.entries[k].(con := NONE)]);
    var r := Break(mode, t, k, draws).entries;
    RehomeEffect(mode, broken, con, Uplinks(broken.entries), draws, |t.entries|);
    assert SameButNodes(broken.entries, r);
    SameUplinks(broken.entries, r);
  }

  lemma RehomeInTurn(t: Table, caddr: int, ups: seq<int>, draws: nat -> nat, j: nat)
    requires ups != [] && j < |Using(t.entries, caddr, |t.entries|)|
    ensures
      var users := Using(t.entries, caddr, |t.entries|);
      Rehome(RoundRobin, t, caddr, ups, draws, |t.entries|).entries[users[j]].con == ups[(t.count + j) % |ups|]
  {
    var r := Rehome(RoundRobin, t, caddr, ups, draws, |t.entries|);
    RehomeGives(t, caddr, ups, draws, |t.entries|);
    RehomeContinues(t, caddr, ups, draws, |t.entries|);
    InTurn(Contacts(r.entries, Using(t.entries, caddr, |t.entries|)), ups, r.picks[|t.picks|..], t.count, j);
  }

  lemma InTurn(given: seq<int>, ups: seq<int>, picks: seq<nat>, start: nat, j: nat)
    requires ups != [] && At(given, ups, picks) && Cyclic(picks, start, |ups|) && j < |given|
    ensures given[j] == ups[(start + j) % |ups|]
  {
  }

  lemma BreakGives(mode: Select, t: Table, k: nat, draws: nat -> nat, j: nat)
    requires k < |t.entries| && t.entries[k].kind == MR_HA
    requires Uplinks(t.entries[k := t.entries[k].(con := NONE)]) != []
    requires j < |Using(t.entries, t.entries[k].con, |t.entries|)|
    ensures
      var users := Using(t.entries, t.entries[k].con, |t.entries|);
      GivenBy(mode, Break(mode, t, k, draws).entries[users[j]].con, t.count + j,
              Uplinks(t.entries[k := t.entries[k].(con := NONE)]), draws(users[j]), true)
  {
    var con := t.entries[k].con;
    var broken := t.(entries := t.entries[k := t.entries[k].(con := NONE)]);
    var ups := Uplinks(broken.entries);
    SameUsing(t.entries, broken.entries, con, |t.entries|);
    if mode.RoundRobin? {
      RehomeInTurn(broken, con, ups, draws, j);
    } else {
      UsingAre(broken.entries, con, |t.entries|);
      RehomeByMode(mode, broken, con, ups, draws, |t.entries|);
    }
  }

  /** What a break does to entry `i`, as the uplinks left are `ups`. */
  ghost predicate Broke(before: Entry, after: Entry, con: int) {
    if before.kind == MN && before.con == con then after == before.(con := after.con) else after == before
  }

  /** When an uplink breaks it goes down, the nodes on its address get the uplinks that the mode
      selects among those left, one after the other, or none if none is left; nothing else changes. */
  lemma BreaksExactly(mode: Select, t: Table, iface: int, draws: nat -> nat)
    requires Inv(t) && Enabled(mode, t, BreakUplink(iface, draws))
    ensures
      var r, k := Step(mode, t, BreakUplink(iface, draws)).entries, FindIface(t.entries, iface);
      var con, ups := t.entries[k].con, Uplinks(r);
      var users := Using(t.entries, con, |t.entries|);
      && |r| == |t.entries| && r[k] == t.entries[k].(con := NONE)
      && (forall i | 0 <= i < |r| && i != k :: Broke(t.entries[i], r[i], con))
      && (forall j | 0 <= j < |users| ::
            if ups == [] then r[users[j]].con == NONE
            else GivenBy(mode, r[users[j]].con, t.count + j, ups, draws(users[j]), true))
  {
    var k := FindIface(t.entries, iface);
    var users := Using(t.entries, t.entries[k].con, |t.entries|);
    BreakFrame(mode, t, k, draws);
    UsingAre(t.entries, t.entries[k].con, |t.entries|);
    if Uplinks(Break(mode, t, k, draws).entries) != [] {
      forall j | 0 <= j < |users|
        ensures GivenBy(mode, Break(mode, t, k, draws).entries[users[j]].con, t.count + j,
                        Uplinks(Break(mode, t, k, draws).entries), draws(users[j]), true)
      {
        BreakGives(mode, t, k, draws, j);
      }
    }
  }

  lemma {:induction false} UsingAre(entries: seq<Entry>, caddr: int, n: nat)
    requires n <= |entries|
    ensures forall i | 0 <= i < |Using(entries, caddr, n)| ::
      entries[Using(entries, caddr, n)[i]].kind == MN && entries[Using(entries, caddr, n)[i]].con == caddr
  {
    if n > 0 {
      UsingAre(entries, caddr, n - 1);
    }
  }

  /** One of the first `n` draws hits the node at `i`. */
  ghost predicate Drawn(nodes: seq<nat>, draws: nat -> nat, n: nat, i: nat)
    requires nodes != []
  {
    exists m: nat | 1 <= m <= n :: nodes[draws(m) % |nodes|] == i
  }

  lemma {:induction false} RenewRandomExactly(entries: seq<Entry>, nodes: seq<nat>, caddr: int, draws: nat -> nat, n: nat)
    requires nodes != [] && forall i | 0 <= i < |nodes| :: nodes[i] < |entries|
    ensures
      var r := RenewRandom(entries, nodes, caddr, draws, n);
      forall i: nat | i < |entries| :: r[i] == if Drawn(nodes, draws, n, i) then entries[i].(con := caddr) else entries[i]
  {
    if n > 0 {
      RenewRandomExactly(entries, nodes, caddr, draws, n - 1);
      forall i: nat | i < |entries|
        ensures Drawn(nodes, draws, n, i) <==> Drawn(nodes, draws, n - 1, i) || nodes[draws(n) % |nodes|] == i
      {
        if Drawn(nodes, draws, n - 1, i) {
          var m: nat :| 1 <= m <= n - 1 && nodes[draws(m) % |nodes|] == i;
          assert 1 <= m <= n && nodes[draws(m) % |nodes|] == i;
        }
      }
    }
  }

  /** The node at `i` moves to a returning uplink: if it is drawn, if it must by the room left, or always. */
  ghost predicate Moves(mode: Select, entries: seq<Entry>, draws: nat -> nat, i: nat) {
    var nodes := Nodes(entries, |entries|);
    match mode
    case Random => nodes != [] && Drawn(nodes, draws, draws(0) % |nodes|, i)
    case RoundRobin => exists j | 0 <= j < |nodes| :: nodes[j] == i && MovesAt(Contacts(entries, nodes), j)
    case Weight => true
  }

  lemma RenewsRandomly(entries: seq<Entry>, caddr: int, draws: nat -> nat, i: nat)
    requires i < |entries|
    ensures Renew(Random, entries, caddr, draws)[i]
         == if entries[i].kind == MN && Moves(Random, entries, draws, i) then entries[i].(con := caddr) else entries[i]
  {
    var nodes := Nodes(entries, |entries|);
    if nodes != [] {
      RenewRandomExactly(entries, nodes, caddr, draws, draws(0) % |nodes|);
    }
  }

  lemma NodeAt(entries: seq<Entry>, i: nat) returns (j: nat)
    requires i < |entries| && entries[i].kind == MN
    ensures j < |Nodes(entries, |entries|)| && Nodes(entries, |entries|)[j] == i
    ensures forall j' | 0 <= j' < |Nodes(entries, |entries|)| :: Nodes(entries, |entries|)[j'] == i ==> j' == j
  {
    NodesAreAll(entries, |entries|);
    j :| 0 <= j < |Nodes(entries, |entries|)| && Nodes(entries, |entries|)[j] == i;
  }

  lemma RenewsInTurn(entries: seq<Entry>, caddr: int, draws: nat -> nat, i: nat)
    requires i < |entries| && entries[i].kind == MN
    ensures Renew(RoundRobin, entries, caddr, draws)[i]
         == if Moves(RoundRobin, entries, draws, i) then entries[i].(con := caddr) else entries[i]
  {
    var nodes := Nodes(entries, |entries|);
    var j := MovesOne(entries, draws, i);
    RenewRoundRobinExactly(entries, nodes, caddr, |nodes|);
  }

  lemma MovesOne(entries: seq<Entry>, draws: nat -> nat, i: nat) returns (j: nat)
    requires i < |entries| && entries[i].kind == MN
    ensures j < |Nodes(entries, |entries|)| && Nodes(entries, |entries|)[j] == i
    ensures Moves(RoundRobin, entries, draws, i) <==> MovesAt(Contacts(entries, Nodes(entries, |entries|)), j)
  {
    j := NodeAt(entries, i);
  }

  lemma RenewsExactly(mode: Select, entries: seq<Entry>, caddr: int, draws: nat -> nat, i: nat)
    requires i < |entries|
    ensures Renew(mode, entries, caddr, draws)[i]
         == if entries[i].kind == MN && Moves(mode, entries, draws, i) then entries[i].(con := caddr) else entries[i]
  {
    RenewMoves(mode, entries, caddr, draws);
    if entries[i].kind == MN {
      match mode
      case Random => RenewsRandomly(entries, caddr, draws, i);
      case RoundRobin => RenewsInTurn(entries, caddr, draws, i);
      case Weight => RenewAllMoves(entries, caddr, |entries|);
    }
  }

  /** When an uplink returns it is up with its address, the nodes that the mode moves have that
      address, and nothing else changes. */
  lemma ReturnsExactly(mode: Select, t: Table, iface: int, addr: int, draws: nat -> nat, i: nat)
    requires Inv(t) && Enabled(mode, t, ReturnUplink(iface, addr, draws)) && i < |t.entries|
    ensures
      var t', k := Step(mode, t, ReturnUplink(iface, addr, draws)), FindIface(t.entries, iface);
      && t' == t.(entries := t'.entries) && |t'.entries| == |t.entries|
      && t'.entries[i] ==
         if i == k || (t.entries[i].kind == MN && Moves(mode, t.entries, draws, i)) then t.entries[i].(con := addr)
         else t.entries[i]
  {
    var k := FindIface(t.entries, iface);
    var a := t.entries[k := t.entries[k].(con := addr)];
    RenewsExactly(mode, a, addr, draws, i);
    SameNodes(t.entries, a, |a|);
    assert Contacts(a, Nodes(a, |a|)) == Contacts(t.entries, Nodes(a, |a|));
    assert Moves(mode, a, draws, i) == Moves(mode, t.entries, draws, i);
  }
}
