/** What a host's links are, in the columns of the ports and the links themselves. */
module PortFields {
  import opened Wrappers
  import opened HostReport
  import opened PortRank

  // ---- the primary link

  /** LLDP over forwarding tables, then the fewest MACs, then the lowest switch id. */
  predicate NoBetter(best: Link, l: Link) {
    && (l.source == Lldp ==> best.source == Lldp)
    && (l.source == best.source ==> best.count <= l.count)
    && (l.source == best.source && l.count == best.count ==> best.switch <= l.switch)
  }

  lemma BeforeIsBest(a: Link, b: Link)
    requires PrimaryBefore(a, b)
    ensures NoBetter(a, b)
  {}

  /** The primary link is one that no other link of the host beats. */
  lemma PrimaryIsBest(inp: Input, h: Host, ls: seq<Link>, l: Link)
    requires HostLinks(inp, h, ls) && l in ls
    ensures ls[0].primary && NoBetter(ls[0], l)
  {
    PrimaryIsFirst(inp, h, ls, l);
    if l != ls[0] { BeforeIsBest(ls[0], l); }
  }

  // ---- the link on a switch

  /** No MAC of another switch and no switch's name was seen on the port. */
  predicate EdgePort(inp: Input, p: Port) {
    && (forall m :: m in p.macs && m in inp.switchMacs ==> inp.switchMacs[m] == p.switch)
    && (forall i :: 0 <= i < |p.lldp| ==> Lower(p.lldp[i].sys) !in inp.switchNames)
  }

  /** The neighbour announced the host's MAC, or its name with the interface's name, a learned MAC or no choice. */
  predicate Announces(n: Neighbour, p: Port, h: Host, hosts: seq<Host>) {
    || (n.mac == Some(h.mac) && h.mac != "")
    || (&& Lower(n.sys) == Lower(h.name)
        && (|| (n.port != "" && Lower(n.port) == Lower(h.ifaceName))
            || (n.sys != "" && (h.mac in p.macs || |set i | 0 <= i < |hosts| && hosts[i].device == h.device| == 1))))
  }

  lemma SingleIsOne(h: Host, hosts: seq<Host>)
    ensures Single(h, hosts) <==> |set i | 0 <= i < |hosts| && hosts[i].device == h.device| == 1
  {
    var s := set i | 0 <= i < |hosts| && hosts[i].device == h.device;
    if Single(h, hosts) {
      var i :| 0 <= i < |hosts| && hosts[i].device == h.device
        && forall j :: 0 <= j < |hosts| && hosts[j].device == h.device ==> j == i;
      assert s == {i};
    }
    if |s| == 1 {
      var i :| i in s;
      assert s == {i} by { assert |s - {i}| == 0; }
      forall j | 0 <= j < |hosts| && hosts[j].device == h.device ensures j == i { assert j in s; }
    }
  }

  lemma AccessIsEdge(inp: Input, k: int)
    ensures IsAccess(inp, k) <==> 0 <= k < |inp.ports| && EdgePort(inp, inp.ports[k])
  {
    if 0 <= k < |inp.ports| {
      var p := inp.ports[k];
      assert forall n :: n in p.lldp ==> exists i :: 0 <= i < |p.lldp| && p.lldp[i] == n;
    }
  }

  ghost predicate Announced(inp: Input, k: int, h: Host) {
    && 0 <= k < |inp.ports| && EdgePort(inp, inp.ports[k])
    && exists i :: 0 <= i < |inp.ports[k].lldp| && Announces(inp.ports[k].lldp[i], inp.ports[k], h, inp.hosts)
  }

  lemma NamedIsAnnounced(inp: Input, k: int, h: Host)
    ensures Announced(inp, k, h) <==> IsAccess(inp, k) && Named(inp.ports[k], h, Single(h, inp.hosts))
  {
    AccessIsEdge(inp, k);
    SingleIsOne(h, inp.hosts);
    if 0 <= k < |inp.ports| {
      var p := inp.ports[k];
      assert forall n :: n in p.lldp ==> exists i :: 0 <= i < |p.lldp| && p.lldp[i] == n;
      forall i | 0 <= i < |p.lldp|
        ensures Announces(p.lldp[i], p, h, inp.hosts) <==> Names(p.lldp[i], p, h, Single(h, inp.hosts)) {}
    }
  }

  /** The MACs of a port that are not other interfaces of the host's machine. */
  ghost function Others(p: Port, h: Host): set<string> {
    set m | m in p.macs.Keys && (m == h.mac || m !in h.related)
  }

  /** The host's MAC was learned on this edge port of the switch, among few enough others. */
  ghost predicate Learned(inp: Input, h: Host, sw: Id, k: int) {
    && 0 <= k < |inp.ports| && EdgePort(inp, inp.ports[k]) && inp.ports[k].switch == sw
    && h.mac in inp.ports[k].macs && |Others(inp.ports[k], h)| <= inp.maxMacs
  }

  lemma EligibleIsLearned(inp: Input, h: Host, sw: Id, k: int)
    ensures Eligible(inp, h, sw, k) <==> Learned(inp, h, sw, k)
    ensures 0 <= k < |inp.ports| ==> Others(inp.ports[k], h) == Foreign(inp.ports[k], h)
  {
    AccessIsEdge(inp, k);
    if 0 <= k < |inp.ports| { assert Others(inp.ports[k], h) == Foreign(inp.ports[k], h); }
  }

  /** The link's columns are those of the port. */
  predicate OnPort(l: Link, p: Port, h: Host) {
    && l.iface == h.iface && l.address == h.address && l.switch == p.switch && l.port == p.port && l.portName == p.name
    && l.vlan == if h.mac in p.macs then p.macs[h.mac] else 0
  }

  /** The link of port `k`, the first of the switch whose neighbour announced the host. */
  ghost predicate FirstAnnounced(inp: Input, h: Host, sw: Id, k: int, l: Link)
    requires 0 <= k < |inp.ports|
  {
    && inp.ports[k].switch == sw && Announced(inp, k, h) && OnPort(l, inp.ports[k], h)
    && l.source == Lldp && l.count == |inp.ports[k].macs|
    && forall j :: 0 <= j < k && inp.ports[j].switch == sw ==> !Announced(inp, j, h)
  }

  /** The link of port `k`, the one that learned the MAC among strictly the fewest others. */
  ghost predicate Fewest(inp: Input, h: Host, sw: Id, k: int, l: Link) {
    && Learned(inp, h, sw, k) && OnPort(l, inp.ports[k], h) && l.source == Fdb
    && l.count == |Others(inp.ports[k], h)|
    && forall j :: Learned(inp, h, sw, j) && j != k ==> l.count < |Others(inp.ports[j], h)|
  }

  lemma {:induction false} LldpFirst(inp: Input, h: Host, sw: Id, n: nat)
    requires n <= |inp.ports|
    ensures var l := LldpOn(inp, h, sw, n);
            && (l.Some? <==> exists k :: 0 <= k < n && inp.ports[k].switch == sw && Announced(inp, k, h))
            && (l.Some? ==> exists k :: 0 <= k < n && FirstAnnounced(inp, h, sw, k, l.value))
  {
    if n > 0 {
      LldpFirst(inp, h, sw, n - 1);
      NamedIsAnnounced(inp, n - 1, h);
      var l := LldpOn(inp, h, sw, n);
      if LldpOn(inp, h, sw, n - 1).Some? {
        var k :| 0 <= k < n - 1 && FirstAnnounced(inp, h, sw, k, l.value);
      } else if l.Some? {
        assert FirstAnnounced(inp, h, sw, n - 1, l.value);
      }
    }
  }

  /** A host's link on a switch, in the ports' columns. */
  ghost predicate LinkOn(inp: Input, h: Host, sw: Id, l: Link) {
    if exists k :: 0 <= k < |inp.ports| && inp.ports[k].switch == sw && Announced(inp, k, h)
    then exists k :: 0 <= k < |inp.ports| && FirstAnnounced(inp, h, sw, k, l)
    else exists k :: Fewest(inp, h, sw, k, l)
  }

  /**
   A host's link on a switch is that of the first edge port whose neighbour announced the host, and
   without one that of the edge port that learned its MAC among strictly the fewest others.
   */
  lemma LinkExact(inp: Input, h: Host, sw: Id, l: Link)
    requires !l.primary
    ensures OnSwitch(inp, h, sw, l) <==> LinkOn(inp, h, sw, l)
  {
    if OnSwitch(inp, h, sw, l) { LinkMeans(inp, h, sw, l); }
    if LinkOn(inp, h, sw, l) { LinkExists(inp, h, sw, l); }
  }

  lemma LinkMeans(inp: Input, h: Host, sw: Id, l: Link)
    requires OnSwitch(inp, h, sw, l)
    ensures LinkOn(inp, h, sw, l)
  {
    LldpFirst(inp, h, sw, |inp.ports|);
    if LldpOn(inp, h, sw, |inp.ports|).None? {
      var k :| Winner(inp, h, sw, k) && l == FdbLink(inp.ports[k], h);
      EligibleIsLearned(inp, h, sw, k);
      forall j | Learned(inp, h, sw, j) && j != k ensures l.count < |Others(inp.ports[j], h)| {
        EligibleIsLearned(inp, h, sw, j);
      }
      assert Fewest(inp, h, sw, k, l);
    }
  }

  lemma LinkExists(inp: Input, h: Host, sw: Id, l: Link)
    requires LinkOn(inp, h, sw, l) && !l.primary
    ensures OnSwitch(inp, h, sw, l)
  {
    LldpFirst(inp, h, sw, |inp.ports|);
    if LldpOn(inp, h, sw, |inp.ports|).Some? {
      LldpFrom(inp, h, sw, |inp.ports|);
      var m := LldpOn(inp, h, sw, |inp.ports|).value;
      var k :| 0 <= k < |inp.ports| && FirstAnnounced(inp, h, sw, k, l);
      var i :| 0 <= i < |inp.ports| && FirstAnnounced(inp, h, sw, i, m);
      assert i == k;
    } else {
      var k :| Fewest(inp, h, sw, k, l);
      EligibleIsLearned(inp, h, sw, k);
      forall j | Eligible(inp, h, sw, j) && j != k
        ensures |Foreign(inp.ports[k], h)| < |Foreign(inp.ports[j], h)| {
        EligibleIsLearned(inp, h, sw, j);
      }
      assert Winner(inp, h, sw, k);
    }
  }
}
