/** Rank as the code runs it, proved to compute the links `PortRank` specifies. */
module PortRankRun {
  import opened Wrappers
  import opened PortRank

  function Look<K, V>(m: map<K, seq<V>>, k: K): seq<V> {
    if k in m then m[k] else []
  }

  // ---- ports by MAC

  /** The access ports among the first `n` that learned the MAC. */
  function MacPorts(inp: Input, mac: string, n: nat): seq<nat>
    requires n <= |inp.ports|
  {
    if n == 0 then []
    else MacPorts(inp, mac, n - 1) + (if IsAccess(inp, n - 1) && mac in inp.ports[n - 1].macs then [n - 1] else [])
  }

  lemma {:induction false} MacPortsIn(inp: Input, mac: string, n: nat)
    requires n <= |inp.ports|
    ensures var l := MacPorts(inp, mac, n);
            && (forall k: nat :: k in l <==> k < n && IsAccess(inp, k) && mac in inp.ports[k].macs)
            && (forall i, j :: 0 <= i < j < |l| ==> l[i] < l[j])
  {
    if n > 0 {
      MacPortsIn(inp, mac, n - 1);
      var prev := MacPorts(inp, mac, n - 1);
      forall i | 0 <= i < |prev| ensures prev[i] < n - 1 { assert prev[i] in prev; }
    }
  }

  ghost predicate ByMac(inp: Input, byMac: map<string, seq<nat>>, n: nat)
    requires n <= |inp.ports|
  {
    forall mac :: Look(byMac, mac) == MacPorts(inp, mac, n)
  }

  /** Port `n` was added under each of its MACs. */
  ghost predicate Extends(inp: Input, m: map<string, seq<nat>>, m': map<string, seq<nat>>, n: nat)
    requires n < |inp.ports|
  {
    forall mac :: Look(m', mac) == Look(m, mac) + (if mac in inp.ports[n].macs then [n] else [])
  }

  lemma ByMacStart(inp: Input)
    ensures ByMac(inp, map[], 0)
  {}

  method GroupByMac(inp: Input) returns (byMac: map<string, seq<nat>>)
    ensures ByMac(inp, byMac, |inp.ports|)
  {
    byMac := map[];
    ByMacStart(inp);
    for n := 0 to |inp.ports|
      invariant ByMac(inp, byMac, n)
    {
      byMac := NextPort(inp, byMac, n);
    }
  }

  method NextPort(inp: Input, m: map<string, seq<nat>>, n: nat) returns (m': map<string, seq<nat>>)
    requires n < |inp.ports| && ByMac(inp, m, n)
    ensures ByMac(inp, m', n + 1)
  {
    m' := m;
    if !FacesSwitch(inp.ports[n], inp) {
      m' := AddPort(inp, m, n);
    }
    ByMacStep(inp, m, m', n);
  }

  lemma ByMacStep(inp: Input, m: map<string, seq<nat>>, m': map<string, seq<nat>>, n: nat)
    requires n < |inp.ports| && ByMac(inp, m, n)
    requires if FacesSwitch(inp.ports[n], inp) then m' == m else Extends(inp, m, m', n)
    ensures ByMac(inp, m', n + 1)
  {
    forall mac ensures Look(m', mac) == MacPorts(inp, mac, n + 1) {
      assert MacPorts(inp, mac, n) + [] == MacPorts(inp, mac, n);
    }
  }

  method AddPort(inp: Input, byMac0: map<string, seq<nat>>, n: nat) returns (byMac: map<string, seq<nat>>)
    requires n < |inp.ports|
    ensures Extends(inp, byMac0, byMac, n)
  {
    byMac := byMac0;
    var todo := inp.ports[n].macs.Keys;
    while todo != {}
      invariant todo <= inp.ports[n].macs.Keys
      invariant forall mac ::
            Look(byMac, mac) == Look(byMac0, mac) + (if mac in inp.ports[n].macs && mac !in todo then [n] else [])
      decreases todo
    {
      var mac :| mac in todo;
      todo := todo - {mac};
      byMac := byMac[mac := Look(byMac, mac) + [n]];
    }
  }

  // ---- LLDP

  method LldpLinks(inp: Input, h: Host) returns (per: map<Id, Link>)
    ensures forall sw :: sw in per <==> LldpOn(inp, h, sw, |inp.ports|).Some?
    ensures forall sw :: sw in per ==> LldpOn(inp, h, sw, |inp.ports|) == Some(per[sw])
  {
    var single := IsSingle(h, inp.hosts);
    per := map[];
    var n := 0;
    while n < |inp.ports|
      invariant 0 <= n <= |inp.ports|
      invariant forall sw :: sw in per <==> LldpOn(inp, h, sw, n).Some?
      invariant forall sw :: sw in per ==> LldpOn(inp, h, sw, n) == Some(per[sw])
    {
      var p := inp.ports[n];
      if !FacesSwitch(p, inp) && p.switch !in per {
        var named := FindsNeighbour(p, h, single);
        if named { per := per[p.switch := LldpLink(p, h)]; }
      }
      n := n + 1;
    }
  }

  method IsSingle(h: Host, hosts: seq<Host>) returns (single: bool)
    ensures single == Single(h, hosts)
  {
    var n, i, at := 0, 0, 0;
    while i < |hosts|
      invariant 0 <= i <= |hosts| && n >= 0
      invariant n == 0 ==> forall j :: 0 <= j < i ==> hosts[j].device != h.device
      invariant n >= 1 ==> 0 <= at < i && hosts[at].device == h.device
      invariant n == 1 ==> forall j :: 0 <= j < i && hosts[j].device == h.device ==> j == at
      invariant n >= 2 ==> exists j, k :: 0 <= j < k < i && hosts[j].device == h.device && hosts[k].device == h.device
    {
      if hosts[i].device == h.device {
        if n == 0 { at := i; }
        n := n + 1;
      }
      i := i + 1;
    }
    single := n == 1;
  }

  method FindsNeighbour(p: Port, h: Host, single: bool) returns (found: bool)
    ensures found == Named(p, h, single)
  {
    var i := 0;
    while i < |p.lldp|
      invariant 0 <= i <= |p.lldp| && forall j :: 0 <= j < i ==> !Names(p.lldp[j], p, h, single)
    {
      if Names(p.lldp[i], p, h, single) { return true; }
      i := i + 1;
    }
    return false;
  }

  // ---- the forwarding table

  /** Per switch, the eligible ports among these, switches in `skip` left out. */
  ghost predicate Grouped(inp: Input, h: Host, g: map<Id, seq<nat>>, ports: seq<nat>, skip: set<Id>, sw: Id, k: nat) {
    k in Look(g, sw) <==> k in ports && sw !in skip && Eligible(inp, h, sw, k)
  }

  ghost predicate Groups(inp: Input, h: Host, g: map<Id, seq<nat>>, ports: seq<nat>, skip: set<Id>) {
    && (forall sw, k: nat :: Grouped(inp, h, g, ports, skip, sw, k))
    && (forall sw :: sw in g ==> g[sw] != [] && Ascending(g[sw]))
  }

  predicate Ascending(l: seq<nat>) {
    forall i, j :: 0 <= i < j < |l| ==> l[i] < l[j]
  }

  method GroupBySwitch(inp: Input, h: Host, ports: seq<nat>, skip: set<Id>) returns (g: map<Id, seq<nat>>)
    requires ports == MacPorts(inp, h.mac, |inp.ports|)
    ensures Groups(inp, h, g, ports, skip)
  {
    MacPortsIn(inp, h.mac, |inp.ports|);
    g := map[];
    var n := 0;
    while n < |ports|
      invariant 0 <= n <= |ports| && Groups(inp, h, g, ports[..n], skip)
    {
      assert ports[..n + 1] == ports[..n] + [ports[n]];
      g := AddEligible(inp, h, g, ports[..n], ports[n], skip);
      n := n + 1;
    }
    assert ports[..n] == ports;
  }

  method AddEligible(inp: Input, h: Host, g0: map<Id, seq<nat>>, ghost ports: seq<nat>, at: nat, skip: set<Id>)
    returns (g: map<Id, seq<nat>>)
    requires IsAccess(inp, at) && h.mac in inp.ports[at].macs && (forall k :: k in ports ==> k < at)
          && Groups(inp, h, g0, ports, skip)
    ensures Groups(inp, h, g, ports + [at], skip)
  {
    var p := inp.ports[at];
    var foreign := ForeignMACs(p, h);
    g := g0;
    if p.switch !in skip && foreign <= inp.maxMacs {
      g := g0[p.switch := Look(g0, p.switch) + [at]];
      AppendGroup(inp, h, g0, g, ports, at, skip);
    } else {
      SkipGroup(inp, h, g0, ports, at, skip);
    }
  }

  lemma SkipGroup(inp: Input, h: Host, g: map<Id, seq<nat>>, ports: seq<nat>, at: nat, skip: set<Id>)
    requires Groups(inp, h, g, ports, skip) && at !in ports
    requires forall sw :: sw in skip || !Eligible(inp, h, sw, at)
    ensures Groups(inp, h, g, ports + [at], skip)
  {
    forall sw, k: nat ensures Grouped(inp, h, g, ports + [at], skip, sw, k) {
      assert Grouped(inp, h, g, ports, skip, sw, k);
    }
  }

  lemma AppendGroup(inp: Input, h: Host, g0: map<Id, seq<nat>>, g: map<Id, seq<nat>>, ports: seq<nat>, at: nat,
                    skip: set<Id>)
    requires (forall k :: k in ports ==> k < at) && Groups(inp, h, g0, ports, skip)
    requires IsAccess(inp, at) && var sw := inp.ports[at].switch;
          sw !in skip && Eligible(inp, h, sw, at) && g == g0[sw := Look(g0, sw) + [at]]
    ensures Groups(inp, h, g, ports + [at], skip)
  {
    var s := inp.ports[at].switch;
    forall sw, k: nat ensures Grouped(inp, h, g, ports + [at], skip, sw, k) {
      assert Grouped(inp, h, g0, ports, skip, sw, k);
    }
    var l := Look(g0, s);
    forall i | 0 <= i < |l| ensures l[i] < at {
      assert Grouped(inp, h, g0, ports, skip, s, l[i]);
    }
    assert Ascending(l) && Ascending(l + [at]);
  }

  // ---- sorting

  function Weight(inp: Input, h: Host, k: nat): nat {
    if k < |inp.ports| then |Foreign(inp.ports[k], h)| else 0
  }

  function PortId(inp: Input, k: nat): Id {
    if k < |inp.ports| then inp.ports[k].port else 0
  }

  predicate PortBefore(inp: Input, h: Host, a: nat, b: nat) {
    if Weight(inp, h, a) != Weight(inp, h, b) then Weight(inp, h, a) < Weight(inp, h, b)
    else PortId(inp, a) < PortId(inp, b)
  }

  /** By foreign MACs, then by port id. */
  predicate Sorted(inp: Input, h: Host, s: seq<nat>) {
    forall i, j :: 0 <= i < j < |s| ==> !PortBefore(inp, h, s[j], s[i])
  }

  function InsertPort(inp: Input, h: Host, s: seq<nat>, k: nat): seq<nat> {
    if s == [] then [k]
    else if PortBefore(inp, h, k, s[|s| - 1]) then InsertPort(inp, h, s[..|s| - 1], k) + [s[|s| - 1]]
    else s + [k]
  }

  lemma {:induction false} InsertPortAll(inp: Input, h: Host, s: seq<nat>, k: nat)
    ensures multiset(InsertPort(inp, h, s, k)) == multiset(s) + multiset{k}
  {
    if s != [] && PortBefore(inp, h, k, s[|s| - 1]) {
      InsertPortAll(inp, h, s[..|s| - 1], k);
      assert s == s[..|s| - 1] + [s[|s| - 1]];
    }
  }

  lemma PortBeforeTotal(inp: Input, h: Host, a: nat, b: nat, c: nat)
    ensures PortBefore(inp, h, a, b) ==> !PortBefore(inp, h, b, a)
    ensures PortBefore(inp, h, a, b) && !PortBefore(inp, h, c, b) ==> !PortBefore(inp, h, c, a)
    ensures !PortBefore(inp, h, a, b) && !PortBefore(inp, h, b, c) ==> !PortBefore(inp, h, a, c)
  {}

  lemma {:induction false} InsertPortSorted(inp: Input, h: Host, s: seq<nat>, k: nat)
    requires Sorted(inp, h, s)
    ensures Sorted(inp, h, InsertPort(inp, h, s, k))
  {
    if s != [] {
      var n := |s| - 1;
      if PortBefore(inp, h, k, s[n]) {
        InsertPortSorted(inp, h, s[..n], k);
        InsertPortAll(inp, h, s[..n], k);
        forall x | x in InsertPort(inp, h, s[..n], k) ensures !PortBefore(inp, h, s[n], x) {
          assert x in multiset(InsertPort(inp, h, s[..n], k));
          PortBeforeTotal(inp, h, k, s[n], k);
        }
      } else {
        forall i | 0 <= i < n ensures !PortBefore(inp, h, k, s[i]) {
          PortBeforeTotal(inp, h, k, s[n], s[i]);
        }
      }
    }
  }

  /** sort.Slice by (foreign MACs, port id): all the caller may rely on is a sorted permutation. */
  method SortPorts(inp: Input, h: Host, l: seq<nat>) returns (s: seq<nat>)
    ensures multiset(s) == multiset(l) && Sorted(inp, h, s)
  {
    s := [];
    for n := 0 to |l|
      invariant multiset(s) == multiset(l[..n]) && Sorted(inp, h, s)
    {
      assert l[..n + 1] == l[..n] + [l[n]];
      InsertPortAll(inp, h, s, l[n]);
      InsertPortSorted(inp, h, s, l[n]);
      s := InsertPort(inp, h, s, l[n]);
    }
    assert l[..|l|] == l;
  }

  /** After sorting, the first port wins exactly when the second one has more foreign MACs. */
  lemma FirstWins(inp: Input, h: Host, sw: Id, l: seq<nat>, s: seq<nat>)
    requires l != [] && Ascending(l) && multiset(s) == multiset(l) && Sorted(inp, h, s)
    requires forall k: nat :: k in l <==> Eligible(inp, h, sw, k)
    ensures |s| == |l| && Eligible(inp, h, sw, s[0])
    ensures (|s| == 1 || Weight(inp, h, s[0]) != Weight(inp, h, s[1])) ==> Winner(inp, h, sw, s[0])
    ensures !(|s| == 1 || Weight(inp, h, s[0]) != Weight(inp, h, s[1])) ==> forall k :: !Winner(inp, h, sw, k)
  {
    assert |s| == |multiset(s)| == |multiset(l)| == |l|;
    forall k: nat ensures k in s <==> Eligible(inp, h, sw, k) { assert k in multiset(s) <==> k in multiset(l); }
    assert s[0] in s;
    DistinctAfter(l, s);
    if |s| == 1 || Weight(inp, h, s[0]) != Weight(inp, h, s[1]) {
      forall j | Eligible(inp, h, sw, j) && j != s[0] ensures Weight(inp, h, s[0]) < Weight(inp, h, j) {
        assert j in s;
        var i :| 0 <= i < |s| && s[i] == j;
        assert i >= 1;
        assert i > 1 ==> Weight(inp, h, s[1]) <= Weight(inp, h, s[i]);
      }
    } else {
      forall k ensures !Winner(inp, h, sw, k) {
        assert s[1] in s;
        NoWinner(inp, h, sw, s, k);
      }
    }
  }

  lemma NoWinner(inp: Input, h: Host, sw: Id, s: seq<nat>, k: int)
    requires |s| >= 2 && s[0] != s[1] && Sorted(inp, h, s) && Weight(inp, h, s[0]) == Weight(inp, h, s[1])
    requires forall j: nat :: j in s <==> Eligible(inp, h, sw, j)
    ensures !Winner(inp, h, sw, k)
  {
    assert s[0] in s && s[1] in s;
    assert Eligible(inp, h, sw, s[0]) && Eligible(inp, h, sw, s[1]);
    assert Winner(inp, h, sw, k) ==> k in s;
    assert forall i :: 0 <= i < |s| ==> Weight(inp, h, s[0]) <= Weight(inp, h, s[i]);
  }

  /** A permutation of distinct positions is distinct. */
  lemma DistinctAfter(l: seq<nat>, s: seq<nat>)
    requires Ascending(l) && multiset(s) == multiset(l)
    ensures forall i, j :: 0 <= i < j < |s| ==> s[i] != s[j]
  {
    forall i, j | 0 <= i < j < |s| ensures s[i] != s[j] {
      if s[i] == s[j] {
        TwiceIn(s, i, j);
        OnceIn(l, s[i]);
      }
    }
  }

  lemma TwiceIn(s: seq<nat>, i: nat, j: nat)
    requires i < j < |s| && s[i] == s[j]
    ensures multiset(s)[s[i]] >= 2
  {
    assert s == s[..j] + [s[j]] + s[j + 1..];
    assert s[..j][i] in s[..j];
  }

  lemma {:induction false} OnceIn(l: seq<nat>, k: nat)
    requires Ascending(l)
    ensures multiset(l)[k] <= 1
  {
    if l != [] {
      var n := |l| - 1;
      assert l == l[..n] + [l[n]];
      OnceIn(l[..n], k);
      assert l[n] !in l[..n];
    }
  }

  // ---- a host's links

  /** The map says exactly what link the host has on the switch. */
  ghost predicate Settled(inp: Input, h: Host, per: map<Id, Link>, sw: Id) {
    forall l :: OnSwitch(inp, h, sw, l) <==> sw in per && per[sw] == l
  }

  lemma LldpSettled(inp: Input, h: Host, per: map<Id, Link>, sw: Id)
    requires sw in per && LldpOn(inp, h, sw, |inp.ports|) == Some(per[sw])
    ensures Settled(inp, h, per, sw)
  {}

  lemma NoneSettled(inp: Input, h: Host, per: map<Id, Link>, sw: Id)
    requires sw !in per && LldpOn(inp, h, sw, |inp.ports|).None? && forall k :: !Winner(inp, h, sw, k)
    ensures Settled(inp, h, per, sw)
  {}

  lemma WinnerSettled(inp: Input, h: Host, per: map<Id, Link>, sw: Id, k: nat)
    requires LldpOn(inp, h, sw, |inp.ports|).None? && Winner(inp, h, sw, k) && sw in per
          && per[sw] == FdbLink(inp.ports[k], h)
    ensures Settled(inp, h, per, sw)
  {
    forall l | OnSwitch(inp, h, sw, l) ensures l == per[sw] {
      assert OnSwitch(inp, h, sw, per[sw]);
      OnSwitchUnique(inp, h, sw, l, per[sw]);
    }
  }

  /** One switch: the port with strictly the fewest foreign MACs, unless there is a tie. */
  method LinkSwitch(inp: Input, h: Host, sw: Id, cs: seq<nat>, per0: map<Id, Link>) returns (per: map<Id, Link>)
    requires cs != [] && Ascending(cs) && forall k: nat :: k in cs <==> Eligible(inp, h, sw, k)
    requires sw !in per0 && LldpOn(inp, h, sw, |inp.ports|).None?
    ensures Settled(inp, h, per, sw) && per - {sw} == per0
  {
    per := per0;
    var sorted := SortPorts(inp, h, cs);
    FirstWins(inp, h, sw, cs, sorted);
    if |sorted| > 1 && Weight(inp, h, sorted[0]) == Weight(inp, h, sorted[1]) {
      NoneSettled(inp, h, per, sw);
    } else {
      per := per0[sw := FdbLink(inp.ports[sorted[0]], h)];
      WinnerSettled(inp, h, per, sw, sorted[0]);
    }
  }

  lemma SettledElsewhere(inp: Input, h: Host, per: map<Id, Link>, per': map<Id, Link>, sw: Id, at: Id)
    requires Settled(inp, h, per, at) && per' - {sw} == per && at != sw
    ensures Settled(inp, h, per', at) && (at in per' <==> at in per)
  {
    assert at in per' <==> at in per' - {sw};
    assert at in per ==> (per' - {sw})[at] == per'[at];
  }

  method FdbLinks(inp: Input, h: Host, lldp: map<Id, Link>, ports: seq<nat>) returns (per: map<Id, Link>)
    requires forall sw :: sw in lldp <==> LldpOn(inp, h, sw, |inp.ports|).Some?
    requires forall sw :: sw in lldp ==> LldpOn(inp, h, sw, |inp.ports|) == Some(lldp[sw])
    requires ports == MacPorts(inp, h.mac, |inp.ports|)
    ensures forall sw :: Settled(inp, h, per, sw)
  {
    var g := GroupBySwitch(inp, h, ports, lldp.Keys);
    MacPortsIn(inp, h.mac, |inp.ports|);
    per := lldp;
    var todo := g.Keys;
    forall sw | sw !in todo ensures Settled(inp, h, per, sw) { Untouched(inp, h, g, ports, lldp, sw); }
    forall sw | sw in todo ensures sw !in per { SwitchPorts(inp, h, g, ports, lldp, sw); }
    while todo != {}
      invariant todo <= g.Keys && (forall sw :: sw in todo ==> sw !in per)
      invariant forall sw :: sw !in todo ==> Settled(inp, h, per, sw)
      decreases todo
    {
      var sw :| sw in todo;
      ghost var before := per;
      SwitchPorts(inp, h, g, ports, lldp, sw);
      per := LinkSwitch(inp, h, sw, g[sw], per);
      forall at | at !in todo ensures Settled(inp, h, per, at) { SettledElsewhere(inp, h, before, per, sw, at); }
      forall at | at in todo - {sw} ensures at !in per { assert at in per <==> at in per - {sw}; }
      todo := todo - {sw};
    }
  }

  lemma Untouched(inp: Input, h: Host, g: map<Id, seq<nat>>, ports: seq<nat>, lldp: map<Id, Link>, sw: Id)
    requires Groups(inp, h, g, ports, lldp.Keys) && ports == MacPorts(inp, h.mac, |inp.ports|) && sw !in g
    requires forall sw :: sw in lldp <==> LldpOn(inp, h, sw, |inp.ports|).Some?
    requires forall sw :: sw in lldp ==> LldpOn(inp, h, sw, |inp.ports|) == Some(lldp[sw])
    ensures Settled(inp, h, lldp, sw)
  {
    if sw in lldp {
      LldpSettled(inp, h, lldp, sw);
    } else {
      MacPortsIn(inp, h.mac, |inp.ports|);
      forall k ensures !Winner(inp, h, sw, k) {
        assert k >= 0 ==> Grouped(inp, h, g, ports, lldp.Keys, sw, k);
      }
      NoneSettled(inp, h, lldp, sw);
    }
  }

  lemma SwitchPorts(inp: Input, h: Host, g: map<Id, seq<nat>>, ports: seq<nat>, lldp: map<Id, Link>, sw: Id)
    requires Groups(inp, h, g, ports, lldp.Keys) && ports == MacPorts(inp, h.mac, |inp.ports|) && sw in g
    requires forall sw :: sw in lldp <==> LldpOn(inp, h, sw, |inp.ports|).Some?
    ensures g[sw] != [] && Ascending(g[sw]) && (forall k: nat :: k in g[sw] <==> Eligible(inp, h, sw, k))
    ensures LldpOn(inp, h, sw, |inp.ports|).None?
  {
    MacPortsIn(inp, h.mac, |inp.ports|);
    var l := Look(g, sw);
    assert g[sw] == l;
    assert Grouped(inp, h, g, ports, lldp.Keys, sw, l[0]);
    forall k: nat ensures k in l <==> Eligible(inp, h, sw, k) {
      assert Grouped(inp, h, g, ports, lldp.Keys, sw, k);
      if Eligible(inp, h, sw, k) { assert k in ports; }
    }
  }

  // ---- the primary link

  predicate LinksSorted(ls: seq<Link>) {
    forall i, j :: 0 <= i < j < |ls| ==> !PrimaryBefore(ls[j], ls[i])
  }

  lemma NotBefore(a: Link, b: Link, c: Link)
    requires !PrimaryBefore(b, a) && !PrimaryBefore(c, b)
    ensures !PrimaryBefore(c, a)
  {}

  function InsertLink(ls: seq<Link>, l: Link): seq<Link> {
    if ls == [] then [l]
    else if PrimaryBefore(l, ls[|ls| - 1]) then InsertLink(ls[..|ls| - 1], l) + [ls[|ls| - 1]]
    else ls + [l]
  }

  lemma {:induction false} InsertLinkAll(ls: seq<Link>, l: Link)
    ensures multiset(InsertLink(ls, l)) == multiset(ls) + multiset{l}
  {
    if ls != [] && PrimaryBefore(l, ls[|ls| - 1]) {
      InsertLinkAll(ls[..|ls| - 1], l);
      assert ls == ls[..|ls| - 1] + [ls[|ls| - 1]];
    }
  }

  lemma {:induction false} InsertLinkSorted(ls: seq<Link>, l: Link)
    requires LinksSorted(ls)
    ensures LinksSorted(InsertLink(ls, l))
  {
    if ls != [] {
      var n := |ls| - 1;
      if PrimaryBefore(l, ls[n]) {
        InsertLinkSorted(ls[..n], l);
        InsertLinkAll(ls[..n], l);
        forall x | x in InsertLink(ls[..n], l) ensures !PrimaryBefore(ls[n], x) {
          assert x in multiset(InsertLink(ls[..n], l));
        }
      } else {
        forall i | 0 <= i < n ensures !PrimaryBefore(l, ls[i]) { NotBefore(ls[i], ls[n], l); }
      }
    }
  }

  /** sort.Slice by primaryBefore: all the caller may rely on is a sorted permutation. */
  method SortLinks(ls: seq<Link>) returns (s: seq<Link>)
    ensures multiset(s) == multiset(ls) && LinksSorted(s)
  {
    s := [];
    for n := 0 to |ls|
      invariant multiset(s) == multiset(ls[..n]) && LinksSorted(s)
    {
      assert ls[..n + 1] == ls[..n] + [ls[n]];
      InsertLinkAll(s, ls[n]);
      InsertLinkSorted(s, ls[n]);
      s := InsertLink(s, ls[n]);
    }
    assert ls[..|ls|] == ls;
  }

  /** The per-switch links in whatever order the map yields them. */
  method Values(per: map<Id, Link>) returns (ls: seq<Link>)
    requires forall sw :: sw in per ==> per[sw].switch == sw
    ensures forall l :: l in ls <==> l.switch in per && per[l.switch] == l
    ensures forall i, j :: 0 <= i < j < |ls| ==> ls[i].switch != ls[j].switch
  {
    ls := [];
    var todo, done: set<Id> := per.Keys, {};
    while todo != {}
      invariant todo !! done && todo + done == per.Keys
      invariant forall l :: l in ls <==> l.switch in done && per[l.switch] == l
      invariant forall i, j :: 0 <= i < j < |ls| ==> ls[i].switch != ls[j].switch
      decreases todo
    {
      var sw :| sw in todo;
      forall i | 0 <= i < |ls| ensures ls[i].switch != sw { assert ls[i] in ls; }
      ls := ls + [per[sw]];
      todo, done := todo - {sw}, done + {sw};
    }
  }

  lemma {:induction false} PermutedSwitches(ls: seq<Link>, s: seq<Link>)
    requires multiset(s) == multiset(ls) && forall i, j :: 0 <= i < j < |ls| ==> ls[i].switch != ls[j].switch
    ensures forall i, j :: 0 <= i < j < |s| ==> s[i].switch != s[j].switch
  {
    forall i, j | 0 <= i < j < |s| ensures s[i].switch != s[j].switch {
      assert s[i] in multiset(ls) && s[j] in multiset(ls);
      if s[i] == s[j] {
        assert multiset(s)[s[i]] >= 2 by {
          assert s == s[..j] + [s[j]] + s[j + 1..];
          assert s[..j][i] in s[..j];
        }
        LinkOnce(ls, s[i]);
      }
    }
  }

  lemma {:induction false} LinkOnce(ls: seq<Link>, l: Link)
    requires forall i, j :: 0 <= i < j < |ls| ==> ls[i].switch != ls[j].switch
    ensures multiset(ls)[l] <= 1
  {
    if ls != [] {
      var n := |ls| - 1;
      assert ls == ls[..n] + [ls[n]];
      LinkOnce(ls[..n], l);
      assert ls[n] !in ls[..n];
    }
  }

  function Flagged(s: seq<Link>): seq<Link> {
    if s == [] then [] else [s[0].(primary := true)] + s[1..]
  }

  /** Every link of one host, the primary first. */
  method LinksOf(inp: Input, h: Host, byMac: map<string, seq<nat>>) returns (ls: seq<Link>)
    requires ByMac(inp, byMac, |inp.ports|)
    ensures HostLinks(inp, h, ls)
  {
    var lldp := LldpLinks(inp, h);
    var per := FdbLinks(inp, h, lldp, Look(byMac, h.mac));
    forall sw | sw in per ensures per[sw].switch == sw && !per[sw].primary { PerKnown(inp, h, per, sw); }
    var values := Values(per);
    var sorted := SortLinks(values);
    ls := Flagged(sorted);
    PermutedSwitches(values, sorted);
    Assembled(inp, h, per, values, sorted);
  }

  lemma PerKnown(inp: Input, h: Host, per: map<Id, Link>, sw: Id)
    requires Settled(inp, h, per, sw) && sw in per
    ensures OnSwitch(inp, h, sw, per[sw]) && per[sw].switch == sw && !per[sw].primary
  {
    OnSwitchUnique(inp, h, sw, per[sw], per[sw]);
  }

  lemma Assembled(inp: Input, h: Host, per: map<Id, Link>, values: seq<Link>, s: seq<Link>)
    requires (forall sw :: Settled(inp, h, per, sw)) && multiset(s) == multiset(values) && LinksSorted(s)
    requires forall l :: l in values <==> l.switch in per && per[l.switch] == l
    requires forall i, j :: 0 <= i < j < |s| ==> s[i].switch != s[j].switch
    ensures HostLinks(inp, h, Flagged(s))
  {
    var ls := Flagged(s);
    forall l ensures l in s <==> l in values { assert l in multiset(s) <==> l in multiset(values); }
    forall i | 0 <= i < |ls| ensures OnSwitch(inp, h, ls[i].switch, Unflagged(ls[i])) && (ls[i].primary <==> i == 0)
      && Unflagged(ls[i]) == s[i] {
      assert s[i] in s;
      PerKnown(inp, h, per, s[i].switch);
    }
    forall sw, l | OnSwitch(inp, h, sw, l) ensures Has(ls, l) {
      assert Settled(inp, h, per, sw);
      OnSwitchUnique(inp, h, sw, l, l);
      assert l in s;
      var i :| 0 <= i < |s| && s[i] == l;
      assert Unflagged(ls[i]) == l;
    }
    forall i, j | 0 <= i < j < |ls| ensures PrimaryBefore(ls[i], ls[j]) && ls[i].switch != ls[j].switch {
      assert !PrimaryBefore(s[j], s[i]) && s[i].switch != s[j].switch;
    }
  }

  // ---- all hosts

  predicate OutBefore(a: Link, b: Link) {
    if a.iface != b.iface then a.iface < b.iface
    else if a.address != b.address then a.address < b.address
    else if a.primary != b.primary then a.primary
    else a.switch < b.switch
  }

  predicate OutSorted(ls: seq<Link>) {
    forall i, j :: 0 <= i < j < |ls| ==> !OutBefore(ls[j], ls[i])
  }

  /** Stable insertion: after every link it does not precede. */
  function InsertOut(ls: seq<Link>, l: Link): seq<Link> {
    if ls == [] then [l]
    else if OutBefore(l, ls[|ls| - 1]) then InsertOut(ls[..|ls| - 1], l) + [ls[|ls| - 1]]
    else ls + [l]
  }

  /** sort.SliceStable of the output. */
  function StableOrder(ls: seq<Link>): seq<Link> {
    if ls == [] then [] else InsertOut(StableOrder(ls[..|ls| - 1]), ls[|ls| - 1])
  }

  function Flat(parts: seq<seq<Link>>): seq<Link> {
    if parts == [] then [] else Flat(parts[..|parts| - 1]) + parts[|parts| - 1]
  }

  /** The links of every host, host by host. */
  ghost predicate Ranked(inp: Input, parts: seq<seq<Link>>) {
    RankedTo(inp, parts, |inp.hosts|)
  }

  /** The final order over every host's links. */
  ghost predicate RankOf(inp: Input, out: seq<Link>) {
    exists parts :: Ranked(inp, parts) && out == StableOrder(Flat(parts))
  }

  method Rank(inp: Input) returns (out: seq<Link>)
    ensures RankOf(inp, out)
  {
    var all, parts := LinksOfAll(inp);
    out := StableOrder(all);
  }

  /** The links of the first `k` hosts. */
  ghost predicate RankedTo(inp: Input, parts: seq<seq<Link>>, k: nat) {
    |parts| == k <= |inp.hosts| && forall j :: 0 <= j < k ==> HostLinks(inp, inp.hosts[j], parts[j])
  }

  lemma RankedMore(inp: Input, parts: seq<seq<Link>>, k: nat, ls: seq<Link>)
    requires RankedTo(inp, parts, k) && k < |inp.hosts| && HostLinks(inp, inp.hosts[k], ls)
    ensures RankedTo(inp, parts + [ls], k + 1) && Flat(parts + [ls]) == Flat(parts) + ls
  {
    assert (parts + [ls])[..k] == parts;
  }

  /** Host after host. */
  method LinksOfAll(inp: Input) returns (all: seq<Link>, ghost parts: seq<seq<Link>>)
    ensures Ranked(inp, parts) && all == Flat(parts)
  {
    var byMac := GroupByMac(inp);
    all, parts := [], [];
    for k := 0 to |inp.hosts|
      invariant RankedTo(inp, parts, k) && all == Flat(parts)
    {
      var ls := LinksOf(inp, inp.hosts[k], byMac);
      RankedMore(inp, parts, k, ls);
      all, parts := all + ls, parts + [ls];
    }
  }

  /** Whatever order the maps were walked in, the output is the same. */
  lemma RankDeterministic(inp: Input, a: seq<Link>, b: seq<Link>)
    requires RankOf(inp, a) && RankOf(inp, b)
    ensures a == b
  {
    var x :| Ranked(inp, x) && a == StableOrder(Flat(x));
    var y :| Ranked(inp, y) && b == StableOrder(Flat(y));
    forall k | 0 <= k < |x| ensures x[k] == y[k] { HostLinksUnique(inp, inp.hosts[k], x[k], y[k]); }
    assert x == y;
  }

  /** The link is one of the links of some host of the input. */
  ghost predicate OfHost(inp: Input, l: Link) {
    exists k, ls :: 0 <= k < |inp.hosts| && HostLinks(inp, inp.hosts[k], ls) && l in ls
  }

  lemma {:induction false} FlatHolds(parts: seq<seq<Link>>, l: Link)
    ensures l in Flat(parts) <==> exists k :: 0 <= k < |parts| && l in parts[k]
  {
    if parts != [] {
      var init := parts[..|parts| - 1];
      FlatHolds(init, l);
      if k :| 0 <= k < |init| && l in init[k] { assert l in parts[k]; }
      assert forall k :: 0 <= k < |init| ==> init[k] == parts[k];
    }
  }

  /** The output holds exactly the links of the hosts, in order. */
  lemma RankHolds(inp: Input, out: seq<Link>, l: Link)
    requires RankOf(inp, out)
    ensures (l in out <==> OfHost(inp, l)) && OutSorted(out)
  {
    var parts :| Ranked(inp, parts) && out == StableOrder(Flat(parts));
    StableOrderAll(Flat(parts));
    StableOrderSorted(Flat(parts));
    assert l in out <==> l in multiset(out);
    assert l in Flat(parts) <==> l in multiset(Flat(parts));
    FlatHolds(parts, l);
    PartsHold(inp, parts, l);
  }

  lemma PartsHold(inp: Input, parts: seq<seq<Link>>, l: Link)
    requires Ranked(inp, parts)
    ensures OfHost(inp, l) <==> exists k :: 0 <= k < |parts| && l in parts[k]
  {
    if k :| 0 <= k < |parts| && l in parts[k] { assert HostLinks(inp, inp.hosts[k], parts[k]) && l in parts[k]; }
    if k, ls :| 0 <= k < |inp.hosts| && HostLinks(inp, inp.hosts[k], ls) && l in ls {
      HostLinksUnique(inp, inp.hosts[k], ls, parts[k]);
    }
  }

  lemma {:induction false} InsertOutAll(ls: seq<Link>, l: Link)
    ensures multiset(InsertOut(ls, l)) == multiset(ls) + multiset{l}
  {
    if ls != [] && OutBefore(l, ls[|ls| - 1]) {
      InsertOutAll(ls[..|ls| - 1], l);
      assert ls == ls[..|ls| - 1] + [ls[|ls| - 1]];
    }
  }

  /** The output holds exactly the hosts' links. */
  lemma {:induction false} StableOrderAll(ls: seq<Link>)
    ensures multiset(StableOrder(ls)) == multiset(ls)
  {
    if ls != [] {
      var init, last := ls[..|ls| - 1], ls[|ls| - 1];
      assert ls == init + [last];
      StableOrderAll(init);
      InsertOutAll(StableOrder(init), last);
      assert multiset(ls) == multiset(init) + multiset{last};
    }
  }

  lemma OutBeforeTotal(a: Link, b: Link, c: Link)
    ensures OutBefore(a, b) ==> !OutBefore(b, a)
    ensures OutBefore(a, b) && !OutBefore(c, b) ==> !OutBefore(c, a)
  {}

  lemma {:induction false} InsertOutSorted(ls: seq<Link>, l: Link)
    requires OutSorted(ls)
    ensures OutSorted(InsertOut(ls, l))
  {
    if ls != [] {
      var n := |ls| - 1;
      if OutBefore(l, ls[n]) {
        InsertOutSorted(ls[..n], l);
        InsertOutAll(ls[..n], l);
        forall x | x in InsertOut(ls[..n], l) ensures !OutBefore(ls[n], x) {
          assert x in multiset(InsertOut(ls[..n], l));
          OutBeforeTotal(l, ls[n], l);
        }
      } else {
        forall i | 0 <= i < n ensures !OutBefore(l, ls[i]) {
          OutBeforeTotal(l, ls[i], ls[n]);
        }
      }
    }
  }

  /** The output is in the final order. */
  lemma {:induction false} StableOrderSorted(ls: seq<Link>)
    ensures OutSorted(StableOrder(ls))
  {
    if ls != [] {
      StableOrderSorted(ls[..|ls| - 1]);
      InsertOutSorted(StableOrder(ls[..|ls| - 1]), ls[|ls| - 1]);
    }
  }
}
