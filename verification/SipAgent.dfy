/** The mobile router's agent (sip/udp-mysip.cc) as an object that updates its binding list in
    place with loops. Each method is proved to do what `SipBinding` says about the table. */
module SipAgent {
  import opened SipBinding

  lemma {:induction false} UplinksSnoc(a: seq<Entry>, e: Entry)
    ensures Uplinks(a + [e]) == Uplinks(a) + if e.kind == MR_HA && e.con != NONE then [e.con] else []
  {
    if a != [] {
      assert (a + [e])[1..] == a[1..] + [e];
      UplinksSnoc(a[1..], e);
    }
  }

  class UdpmysipAgent {
    const select: Select
    var entries: seq<Entry>
    var roundCount: nat
    ghost var picks: seq<nat>

    ghost function View(): Table
      reads this
    {
      Table(entries, roundCount, picks)
    }

    constructor (select: Select, entries: seq<Entry>)
      ensures this.select == select && View() == Table(entries, 0, [])
    {
      this.select, this.entries, roundCount, picks := select, entries, 0, [];
    }

    // -------------------------------------------------------------- list walks

    method GetEntryByUrlId(urlId: int) returns (k: nat)
      ensures k == FindUrl(entries, urlId)
    {
      k := 0;
      while k < |entries|
        invariant k <= |entries| && forall i | 0 <= i < k :: entries[i].urlId != urlId
      {
        if entries[k].urlId == urlId {
          return;
        }
        k := k + 1;
      }
    }

    method GetEntryByIface(iface: int) returns (k: nat)
      ensures k == FindIface(entries, iface)
    {
      k := 0;
      while k < |entries|
        invariant k <= |entries| && forall i | 0 <= i < k :: entries[i].iface != iface
      {
        if entries[k].iface == iface {
          return;
        }
        k := k + 1;
      }
    }

    method GetMrHaEntryByCaddr(caddr: int) returns (k: nat)
      ensures k == FindUplink(entries, caddr)
    {
      k := 0;
      while k < |entries|
        invariant k <= |entries|
        invariant forall i | 0 <= i < k :: entries[i].kind != MR_HA || entries[i].con != caddr
      {
        if entries[k].kind == MR_HA && entries[k].con == caddr {
          return;
        }
        k := k + 1;
      }
    }

    method ActiveUplinks() returns (ups: seq<int>)
      ensures ups == Uplinks(entries)
    {
      ups := [];
      var i := 0;
      while i < |entries|
        invariant 0 <= i <= |entries|
        invariant ups == Uplinks(entries[..i])
      {
        UplinksSnoc(entries[..i], entries[i]);
        assert entries[..i] + [entries[i]] == entries[..i + 1];
        if entries[i].kind == MR_HA && entries[i].con != NONE {
          ups := ups + [entries[i].con];
        }
        i := i + 1;
      }
      assert entries[..i] == entries;
    }

    method MobileNodes() returns (nodes: seq<nat>)
      ensures nodes == Nodes(entries, |entries|)
    {
      nodes := [];
      var i := 0;
      while i < |entries|
        invariant 0 <= i <= |entries|
        invariant nodes == Nodes(entries, i)
      {
        if entries[i].kind == MN {
          nodes := nodes + [i];
        }
        i := i + 1;
      }
    }

    // -------------------------------------------------------------- registration and re-homing

    method GetMrHaEntry(ups: seq<int>, draw: nat) returns (p: nat)
      requires ups != []
      modifies this`roundCount
      ensures p == PickNew(select, old(roundCount), |ups|, draw)
      ensures roundCount == Advance(select, old(roundCount))
    {
      match select
      case Random => p := draw % |ups|;
      case RoundRobin =>
        p := roundCount % |ups|;
        roundCount := roundCount + 1;
      case Weight => p := if |ups| == 1 then 0 else 1;
    }

    /** The REGISTER branch of `recv`, for a node whose id belongs to no other kind of entry. */
    method RecvRegister(urlId: int, contact: int, draw: nat)
      requires Uplinks(entries) != []
      requires var k := FindUrl(entries, urlId); k < |entries| ==> entries[k].kind == MN
      modifies this
      ensures View() == Register(select, old(View()), urlId, contact, draw)
    {
      var k := GetEntryByUrlId(urlId);
      if k == |entries| {
        entries := [Entry(MN, urlId, contact, NONE)] + entries;
        k := 0;
        assert old(entries) == entries[1..];
      }
      var ups := ActiveUplinks();
      var p := GetMrHaEntry(ups, draw);
      entries := entries[k := entries[k].(con := ups[p])];
      picks := picks + [p];
    }

    method RecvPeer(urlId: int, contact: int)
      modifies this
      ensures View() == Peer(old(View()), urlId, contact)
    {
      var k := GetEntryByUrlId(urlId);
      if k == |entries| {
        entries := [Entry(CN, urlId, contact, NONE)] + entries;
      }
    }

    method RehomeMn(caddr: int, draws: nat -> nat)
      modifies this
      ensures View() == Rehome(select, old(View()), caddr, Uplinks(old(entries)), draws, |old(entries)|)
    {
      var ups := ActiveUplinks();
      ghost var t := View();
      var i := 0;
      while i < |entries|
        invariant 0 <= i <= |entries| == |t.entries|
        invariant View() == Rehome(select, t, caddr, ups, draws, i)
        invariant forall j | i <= j < |entries| :: entries[j] == t.entries[j]
      {
        if entries[i].kind == MN && entries[i].con == caddr {
          if ups == [] {
            entries := entries[i := entries[i].(con := NONE)];
          } else {
            var p;
            match select {
              case Random => p := draws(i) % |ups|;
              case RoundRobin =>
                p := roundCount % |ups|;
                roundCount := roundCount + 1;
              case Weight => p := 0;
            }
            entries := entries[i := entries[i].(con := ups[p])];
            picks := picks + [p];
          }
        }
        i := i + 1;
      }
    }

    /** The source asserts that the broken uplink and another one are in the list. */
    method ReHoming(iface: int, draws: nat -> nat)
      requires FindIface(entries, iface) < |entries|
      modifies this
      ensures View() == Break(select, old(View()), FindIface(old(entries), iface), draws)
    {
      var k := GetEntryByIface(iface);
      var con := entries[k].con;
      entries := entries[k := entries[k].(con := NONE)];
      RehomeMn(con, draws);
    }

    // -------------------------------------------------------------- an uplink returns

    method RenewRandomly(caddr: int, draws: nat -> nat)
      modifies this`entries
      ensures entries == Renew(Random, old(entries), caddr, draws)
    {
      var nodes := MobileNodes();
      if nodes != [] {
        ghost var before := entries;
        var j := draws(0) % |nodes|;
        var i := 0;
        while i < j
          invariant 0 <= i <= j && |entries| == |before|
          invariant entries == RenewRandom(before, nodes, caddr, draws, i)
        {
          i := i + 1;
          var k := nodes[draws(i) % |nodes|];
          entries := entries[k := entries[k].(con := caddr)];
        }
      }
    }

    method RenewByShare(caddr: int)
      modifies this`entries
      ensures entries == Renew(RoundRobin, old(entries), caddr, _ => 0)
    {
      var nodes := MobileNodes();
      ghost var before := entries;
      var moved, old1, old2, count1, count2 := 0, 0, 0, 0, 0;
      var i := 0;
      while i < |nodes|
        invariant 0 <= i <= |nodes| && |entries| == |before|
        invariant RenewRoundRobin(before, nodes, caddr, i) == Tally(entries, old1, old2, count1, count2, moved)
      {
        var k := nodes[i];
        if i == 0 {
          old1 := entries[k].con;
          entries := entries[k := entries[k].(con := caddr)];
          count1 := count1 + 1;
          moved := moved + 1;
        } else if entries[k].con != old1 {
          if old2 == 0 {
            old2 := entries[k].con;
            entries := entries[k := entries[k].(con := caddr)];
            count2 := count2 + 1;
            moved := moved + 1;
          } else if count2 <= moved {
            count2 := count2 + 1;
          } else {
            entries := entries[k := entries[k].(con := caddr)];
            moved := moved + 1;
          }
        } else if count1 <= moved {
          count1 := count1 + 1;
        } else {
          entries := entries[k := entries[k].(con := caddr)];
          moved := moved + 1;
        }
        i := i + 1;
      }
    }

    method RenewEveryNode(caddr: int)
      modifies this`entries
      ensures entries == Renew(Weight, old(entries), caddr, _ => 0)
    {
      ghost var before := entries;
      var i := 0;
      while i < |entries|
        invariant 0 <= i <= |entries| == |before|
        invariant entries == RenewAll(before, caddr, i)
        invariant forall j | i <= j < |entries| :: entries[j] == before[j]
      {
        if entries[i].kind == MN {
          entries := entries[i := entries[i].(con := caddr)];
        }
        i := i + 1;
      }
    }

    method SendRegMsg(iface: int, addr: int, draws: nat -> nat)
      requires FindIface(entries, iface) < |entries|
      modifies this
      ensures View() == Return(select, old(View()), FindIface(old(entries), iface), addr, draws)
    {
      var k := GetEntryByIface(iface);
      entries := entries[k := entries[k].(con := addr)];
      match select
      case Random => RenewRandomly(addr, draws);
      case RoundRobin => RenewByShare(addr);
      case Weight => RenewEveryNode(addr);
    }
  }
}
