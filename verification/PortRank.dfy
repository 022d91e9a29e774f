/**
 Linking hosts to switch ports (internal/portlink/rank.go). The code walks maps in arbitrary
 order and uses an unstable sort; the output is nevertheless a function of the input.
 */
module PortRank {
  import opened Wrappers
  import opened HostReport

  type Id = nat

  /** One LLDP neighbour; `mac` is its port id read as a MAC address. */
  datatype Neighbour = Neighbour(sys: string, port: string, mac: Option<string>)

  datatype Port = Port(switch: Id, port: Id, name: string, macs: map<string, int>, lldp: seq<Neighbour>)

  datatype Host = Host(device: Id, name: string, iface: Id, ifaceName: string, mac: string, address: Id,
                       related: set<string>)

  datatype Input = Input(ports: seq<Port>, hosts: seq<Host>, switchMacs: map<string, Id>, switchNames: set<string>,
                         maxMacs: int)

  datatype Source = Lldp | Fdb

  datatype Link = Link(iface: Id, address: Id, switch: Id, port: Id, portName: string, vlan: int, source: Source,
                       count: int, primary: bool)

  // ---- ports

  predicate FacesSwitch(p: Port, inp: Input) {
    || (exists m :: m in p.macs && m in inp.switchMacs && inp.switchMacs[m] != p.switch)
    || (exists n :: n in p.lldp && Lower(n.sys) in inp.switchNames)
  }

  /** An access port: its position among the ports makes it unique. */
  predicate IsAccess(inp: Input, k: int) {
    0 <= k < |inp.ports| && !FacesSwitch(inp.ports[k], inp)
  }

  function ForeignIn(macs: set<string>, h: Host): set<string> {
    set m | m in macs && (m == h.mac || m !in h.related)
  }

  function Foreign(p: Port, h: Host): set<string> {
    ForeignIn(p.macs.Keys, h)
  }

  lemma ForeignMore(macs: set<string>, h: Host, m: string)
    requires m !in macs
    ensures |ForeignIn(macs + {m}, h)| == |ForeignIn(macs, h)| + (if m == h.mac || m !in h.related then 1 else 0)
  {
    assert ForeignIn(macs + {m}, h) == ForeignIn(macs, h) + (if m == h.mac || m !in h.related then {m} else {});
  }

  /** foreignMACs: one pass over the port's MACs, in any order. */
  method ForeignMACs(p: Port, h: Host) returns (n: nat)
    ensures n == |Foreign(p, h)|
  {
    n := 0;
    var todo, done: set<string> := p.macs.Keys, {};
    assert ForeignIn(done, h) == {};
    while todo != {}
      invariant todo !! done && todo + done == p.macs.Keys
      invariant n == |ForeignIn(done, h)|
      decreases todo
    {
      var m :| m in todo;
      ForeignMore(done, h, m);
      todo, done := todo - {m}, done + {m};
      if m == h.mac || m !in h.related {
        n := n + 1;
      }
    }
    assert done == p.macs.Keys;
  }

  // ---- LLDP links

  /** The neighbour names this host interface. */
  predicate Names(n: Neighbour, p: Port, h: Host, single: bool) {
    var bySys := n.sys != "" && Lower(n.sys) == Lower(h.name);
    var byPort := (n.mac.Some? && n.mac.value != "" && n.mac.value == h.mac)
               || (n.port != "" && Lower(n.port) == Lower(h.ifaceName) && Lower(n.sys) == Lower(h.name));
    byPort || (bySys && (single || h.mac in p.macs))
  }

  predicate Single(h: Host, hosts: seq<Host>) {
    exists i :: 0 <= i < |hosts| && hosts[i].device == h.device && forall j ::
      0 <= j < |hosts| && hosts[j].device == h.device ==> j == i
  }

  predicate Named(p: Port, h: Host, single: bool) {
    exists n :: n in p.lldp && Names(n, p, h, single)
  }

  function LldpLink(p: Port, h: Host): Link {
    Link(h.iface, h.address, p.switch, p.port, p.name, if h.mac in p.macs then p.macs[h.mac] else 0, Lldp, |p.macs|,
      false)
  }

  /** The LLDP link on a switch: the first access port that names the host. */
  function LldpOn(inp: Input, h: Host, sw: Id, n: nat): Option<Link>
    requires n <= |inp.ports|
  {
    if n == 0 then None
    else
      var l, p := LldpOn(inp, h, sw, n - 1), inp.ports[n - 1];
      if l.Some? then l
      else if IsAccess(inp, n - 1) && p.switch == sw && Named(p, h, Single(h, inp.hosts)) then Some(LldpLink(p, h))
      else None
  }

  // ---- forwarding-table links

  /** Port `k` is an access port of the switch that learned the host's MAC among few enough others. */
  predicate Eligible(inp: Input, h: Host, sw: Id, k: int) {
    IsAccess(inp, k) && inp.ports[k].switch == sw && h.mac in inp.ports[k].macs
      && |Foreign(inp.ports[k], h)| <= inp.maxMacs
  }

  /** Port `k` has strictly fewer foreign MACs than any other eligible port of the switch. */
  ghost predicate Winner(inp: Input, h: Host, sw: Id, k: int) {
    && Eligible(inp, h, sw, k)
    && forall j :: Eligible(inp, h, sw, j) && j != k ==> |Foreign(inp.ports[k], h)| < |Foreign(inp.ports[j], h)|
  }

  function FdbLink(p: Port, h: Host): Link
    requires h.mac in p.macs
  {
    Link(h.iface, h.address, p.switch, p.port, p.name, p.macs[h.mac], Fdb, |Foreign(p, h)|, false)
  }

  /** The link of a host on a switch. */
  ghost predicate OnSwitch(inp: Input, h: Host, sw: Id, l: Link) {
    var lldp := LldpOn(inp, h, sw, |inp.ports|);
    if lldp.Some? then l == lldp.value
    else exists k :: Winner(inp, h, sw, k) && l == FdbLink(inp.ports[k], h)
  }

  lemma OnSwitchUnique(inp: Input, h: Host, sw: Id, a: Link, b: Link)
    requires OnSwitch(inp, h, sw, a) && OnSwitch(inp, h, sw, b)
    ensures a == b && a.switch == sw && !a.primary && a.iface == h.iface && a.address == h.address
  {
    if LldpOn(inp, h, sw, |inp.ports|).Some? {
      LldpFrom(inp, h, sw, |inp.ports|);
    } else {
      var k :| Winner(inp, h, sw, k) && a == FdbLink(inp.ports[k], h);
      var j :| Winner(inp, h, sw, j) && b == FdbLink(inp.ports[j], h);
      assert Eligible(inp, h, sw, k) && Eligible(inp, h, sw, j);
    }
  }

  lemma {:induction false} LldpFrom(inp: Input, h: Host, sw: Id, n: nat)
    requires n <= |inp.ports| && LldpOn(inp, h, sw, n).Some?
    ensures exists k ::
              && 0 <= k < n && IsAccess(inp, k) && inp.ports[k].switch == sw
              && LldpOn(inp, h, sw, n).value == LldpLink(inp.ports[k], h)
  {
    if LldpOn(inp, h, sw, n - 1).Some? { LldpFrom(inp, h, sw, n - 1); }
  }

  /** No link uses a port that faces another switch. */
  lemma LinkIsAccess(inp: Input, h: Host, sw: Id, l: Link)
    requires OnSwitch(inp, h, sw, l)
    ensures exists k :: IsAccess(inp, k) && inp.ports[k].switch == sw && l.port == inp.ports[k].port
  {
    if LldpOn(inp, h, sw, |inp.ports|).Some? {
      LldpFrom(inp, h, sw, |inp.ports|);
    } else {
      var k :| Winner(inp, h, sw, k) && l == FdbLink(inp.ports[k], h);
      assert IsAccess(inp, k);
    }
  }

  // ---- a host's links

  predicate PrimaryBefore(a: Link, b: Link) {
    if (a.source == Lldp) != (b.source == Lldp) then a.source == Lldp
    else if a.count != b.count then a.count < b.count
    else if a.switch != b.switch then a.switch < b.switch
    else a.port < b.port
  }

  function Unflagged(l: Link): Link {
    l.(primary := false)
  }

  /** The link is in the list, whatever its flag. */
  ghost predicate Has(ls: seq<Link>, l: Link) {
    exists i :: 0 <= i < |ls| && Unflagged(ls[i]) == l
  }

  ghost predicate Chain(a: seq<Link>) {
    forall i, j :: 0 <= i < j < |a| ==> PrimaryBefore(a[i], a[j]) && a[i].switch != a[j].switch
  }

  /** `ls` are the links of `h`: one per switch it is seen on, in primary order, the first one flagged. */
  ghost predicate HostLinks(inp: Input, h: Host, ls: seq<Link>) {
    && (forall i :: 0 <= i < |ls| ==> OnSwitch(inp, h, ls[i].switch, Unflagged(ls[i])) && (ls[i].primary <==> i == 0))
    && (forall sw, l :: OnSwitch(inp, h, sw, l) ==> Has(ls, l))
    && Chain(ls)
  }

  ghost predicate Within(a: seq<Link>, b: seq<Link>) {
    forall i {:trigger Has(b, Unflagged(a[i]))} :: 0 <= i < |a| ==> Has(b, Unflagged(a[i]))
  }

  lemma NotEarlier(a: seq<Link>, b: seq<Link>, k: nat, j: nat)
    requires Chain(a) && k < |a| && j < |b| && Unflagged(b[j]) == Unflagged(a[k])
    requires k <= |b| && forall i :: 0 <= i < k ==> Unflagged(a[i]) == Unflagged(b[i])
    ensures j >= k
  {}

  lemma Meet(a: seq<Link>, b: seq<Link>, k: nat, i: nat, j: nat)
    requires Chain(a) && Chain(b) && k <= i < |a| && k <= j < |b|
    requires Unflagged(b[j]) == Unflagged(a[k]) && Unflagged(a[i]) == Unflagged(b[k])
    ensures Unflagged(a[k]) == Unflagged(b[k])
  {}

  /** Two strictly ordered lists over the same links agree position by position. */
  lemma {:induction false} SameOrder(a: seq<Link>, b: seq<Link>, n: nat)
    requires Chain(a) && Chain(b) && n <= |a| && Within(a, b) && Within(b, a)
    ensures n <= |b| && forall i :: 0 <= i < n ==> Unflagged(a[i]) == Unflagged(b[i])
  {
    if n > 0 {
      SameOrder(a, b, n - 1);
      var k := n - 1;
      assert Has(b, Unflagged(a[k]));
      var j :| 0 <= j < |b| && Unflagged(b[j]) == Unflagged(a[k]);
      NotEarlier(a, b, k, j);
      assert Has(a, Unflagged(b[k]));
      var i :| 0 <= i < |a| && Unflagged(a[i]) == Unflagged(b[k]);
      NotEarlier(b, a, k, i);
      Meet(a, b, k, i, j);
    }
  }

  /** The links of a host do not depend on how they were collected. */
  lemma HostLinksUnique(inp: Input, h: Host, a: seq<Link>, b: seq<Link>)
    requires HostLinks(inp, h, a) && HostLinks(inp, h, b)
    ensures a == b
  {
    SameOrder(a, b, |a|);
    SameOrder(b, a, |b|);
    forall i | 0 <= i < |a| ensures a[i] == b[i] { assert Unflagged(a[i]) == Unflagged(b[i]); }
  }

  /** The primary link precedes every other link of its host. */
  lemma PrimaryIsFirst(inp: Input, h: Host, ls: seq<Link>, l: Link)
    requires HostLinks(inp, h, ls) && l in ls
    ensures ls[0].primary && (l.primary <==> l == ls[0]) && (l != ls[0] ==> PrimaryBefore(ls[0], l))
  {}
}
