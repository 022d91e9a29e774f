/** What an applied report leaves in every interface and address row, column by column. */
module HostRows {
  import opened Wrappers
  import opened Ipnet
  import opened HostStore
  import opened HostReport
  import opened HostPlan
  import opened HostLoad
  import opened HostTables
  import opened HostParts
  import opened HostSections
  import opened HostSync
  import opened HostColumns
  import Allocator
  import HostAddrs
  import HostGuestRows
  import HostGuests
  import HostIfaces
  import HostSelf
  import Placement

  // ---- the interfaces a report makes the device have

  /** One of the report's own interfaces that the tenant does not exclude. */
  predicate FromHost(r: Report, k: int, w: Wanted) {
    && 0 <= k < |r.ifaces| && !r.ifaces[k].excluded && !w.bmc
    && w.name == r.ifaces[k].name && w.mac == r.ifaces[k].mac && w.kind == r.ifaces[k].kind
    && w.speed == r.ifaces[k].speed && w.up == r.ifaces[k].up && w.addrs == r.ifaces[k].addrs
  }

  /** A management port of the BMC, the first one with its address; a BMC without ports has one. */
  predicate FromBmc(r: Report, i: int, w: Wanted) {
    && r.bmc.Some? && (0 <= i < |r.bmc.value.ports| || (i == 0 && r.bmc.value.ports == []))
    && w.name == (if i == 0 then "bmc" else "bmc-" + Decimal(i + 1)) && w.kind == "management" && w.speed == 0 && w.up
    && w.bmc && w.mac == (if i < |r.bmc.value.ports| then r.bmc.value.ports[i] else "")
    && (i == 0 && r.bmc.value.address.Some? ==>
          var a, bits := r.bmc.value.address.value, r.bmc.value.prefix;
          w.addrs == [RAddr(a, if bits != 0 then bits else if a.family == V4 then 24 else 64, false, false)])
    && (i != 0 || r.bmc.value.address.None? ==> w.addrs == [])
  }

  /** No interface of the host itself has the name, up to case. */
  predicate NameLeft(r: Report, name: string) {
    forall k :: 0 <= k < |r.ifaces| && !r.ifaces[k].excluded ==> Lower(r.ifaces[k].name) != name
  }

  lemma {:induction false} OwnAre(r: Report, n: nat, w: Wanted)
    requires n <= |r.ifaces|
    ensures w in OwnWanted(r, n) <==> exists k :: 0 <= k < n && FromHost(r, k, w)
  {
    if n > 0 {
      OwnAre(r, n - 1, w);
      var i := r.ifaces[n - 1];
      assert FromHost(r, n - 1, w) <==>
        !i.excluded && w == Wanted(i.name, i.mac, i.kind, i.speed, i.up, false, i.addrs);
    }
  }

  function PortOf(b: Bmc, i: nat): Wanted
    requires i < |BmcPorts(b)|
  {
    Wanted(BMCName(i), BmcPorts(b)[i], "management", 0, true, true, if i == 0 then BmcAddrs(b) else [])
  }

  lemma PortIs(r: Report, i: nat, w: Wanted)
    requires r.bmc.Some? && i < |BmcPorts(r.bmc.value)|
    ensures FromBmc(r, i, w) <==> w == PortOf(r.bmc.value, i)
  {}

  lemma {:induction false} PortsAre(b: Bmc, taken: set<string>, n: nat, w: Wanted)
    requires n <= |BmcPorts(b)|
    ensures w in BmcWanted(b, taken, n) <==> w.name !in taken && exists i :: 0 <= i < n && w == PortOf(b, i)
  {
    if n > 0 {
      PortsAre(b, taken, n - 1, w);
      var port := PortOf(b, n - 1);
      assert BmcWanted(b, taken, n) == BmcWanted(b, taken, n - 1) + if port.name in taken then [] else [port];
      assert w == port ==> exists i :: 0 <= i < n && w == PortOf(b, i);
    }
  }

  lemma BmcAre(r: Report, taken: set<string>, w: Wanted)
    requires r.bmc.Some?
    ensures w in BmcWanted(r.bmc.value, taken, |BmcPorts(r.bmc.value)|) <==>
            w.name !in taken && exists i :: FromBmc(r, i, w)
  {
    var b := r.bmc.value;
    PortsAre(b, taken, |BmcPorts(b)|, w);
    if i :| 0 <= i < |BmcPorts(b)| && w == PortOf(b, i) { PortIs(r, i, w); }
    if i :| FromBmc(r, i, w) { PortIs(r, i, w); }
  }

  lemma TakenIsNotLeft(r: Report, name: string)
    ensures name in HostReport.Taken(OwnWanted(r, |r.ifaces|)) <==> !NameLeft(r, name)
  {
    var own := OwnWanted(r, |r.ifaces|);
    if w :| w in own && Lower(w.name) == name { OwnAre(r, |r.ifaces|, w); }
    if k :| 0 <= k < |r.ifaces| && !r.ifaces[k].excluded && Lower(r.ifaces[k].name) == name {
      var i := r.ifaces[k];
      var w := Wanted(i.name, i.mac, i.kind, i.speed, i.up, false, i.addrs);
      assert FromHost(r, k, w);
      OwnAre(r, |r.ifaces|, w);
      assert w in own && Lower(w.name) == name;
    }
  }

  /** The wanted interfaces are the report's own and the BMC ports whose name is left. */
  lemma WantedAre(r: Report, w: Wanted)
    ensures w in WantedIfaces(r) <==>
            (exists k :: FromHost(r, k, w)) || (NameLeft(r, w.name) && exists i :: FromBmc(r, i, w))
  {
    OwnAre(r, |r.ifaces|, w);
    if r.bmc.Some? {
      var own := OwnWanted(r, |r.ifaces|);
      BmcAre(r, HostReport.Taken(own), w);
      TakenIsNotLeft(r, w.name);
    }
  }

  // ---- interface rows

  /** A reported interface's row. */
  predicate Refreshes(was: IfaceCols, w: Wanted, c: IfaceCols) {
    && c.mac == w.mac && c.enabled == w.up && c.state == Reported && Takes(was.kind, w.kind, c.kind)
    && c.speed == if w.speed > 0 then w.speed else was.speed
  }

  /** What a stored interface row becomes: refreshed, marked as no longer reported, or left alone. */
  ghost predicate IfaceBecame(a: Iface, dev: Id, r: Report, b: Iface) {
    && b == a.(cols := b.cols)
    && (a.device != dev ==> b == a)
    && (forall w :: a.device == dev && w in WantedIfaces(r) && w.name == a.name ==> Refreshes(a.cols, w, b.cols))
    && (a.device == dev && (forall w :: w in WantedIfaces(r) ==> w.name != a.name) ==>
          var gone := a.cols.state == Reported && (r.bmc.Some? || a.cols.kind != "management");
          b.cols == if gone then a.cols.(state := NotReported) else a.cols)
  }

  lemma AfterIs(m: map<Id, Iface>, next: Id, rows: seq<Iface>, dev: Id, ws: seq<Wanted>, noBmc: bool, i: Id)
    requires HostIfaces.Start(m, next, rows, dev, ws) && i in m
    ensures var t, w := HostIfaces.IfacesAfter(m, next, rows, dev, ws, noBmc), WantedNamed(ws, |ws|, m[i].name);
            && i in t
            && (m[i].device != dev ==> t[i] == m[i])
            && (m[i].device == dev && w.Some? ==> t[i] == m[i].(cols := Refreshed(m[i].cols, w.value)))
            && (m[i].device == dev && w.None? ==> t[i] == if Lost(m[i], ws, noBmc)
                  then m[i].(cols := m[i].cols.(state := NotReported)) else m[i])
  {
    var t0 := HostIfaces.WantedTable(m, next, rows, dev, ws, |ws|);
    assert ws[..|ws|] == ws;
    HostIfaces.LostUntouched(m, next, rows, dev, ws, noBmc);
    HostIfaces.LostTrack(t0, rows, ws, noBmc, |rows|, i);
    HostIfaces.TrackOld(m, next, rows, dev, ws, |ws|, i);
    if m[i].device == dev {
      assert m[i] in rows;
      var k :| 0 <= k < |rows| && rows[k] == m[i];
    }
    assert forall k :: 0 <= k < |rows| && rows[k].id == i ==> rows[k] in rows;
  }

  lemma AfterBecame(m: map<Id, Iface>, next: Id, rows: seq<Iface>, dev: Id, r: Report, i: Id)
    requires HostIfaces.Start(m, next, rows, dev, WantedIfaces(r)) && i in m
    ensures var t := HostIfaces.IfacesAfter(m, next, rows, dev, WantedIfaces(r), r.bmc.None?);
            i in t && IfaceBecame(m[i], dev, r, t[i])
  {
    var ws := WantedIfaces(r);
    AfterIs(m, next, rows, dev, ws, r.bmc.None?, i);
    var f := WantedNamed(ws, |ws|, m[i].name);
    assert ws[..|ws|] == ws;
    forall w | w in ws && w.name == m[i].name ensures f == Some(w) { HostIfaces.SameName(ws, w, f.value); }
  }

  /** A row that was not stored: an interface of the report. */
  ghost predicate IfaceFresh(i: Id, dev: Id, r: Report, b: Iface) {
    && b.id == i && b.device == dev && b.admin == map[]
    && exists w :: w in WantedIfaces(r) && b.name == w.name
         && b.cols.mac == w.mac && b.cols.kind == w.kind && b.cols.speed == w.speed && b.cols.enabled == w.up
         && b.cols.state == Reported
  }

  lemma AfterFresh(m: map<Id, Iface>, next: Id, rows: seq<Iface>, dev: Id, r: Report, i: Id)
    requires HostIfaces.Start(m, next, rows, dev, WantedIfaces(r)) && i !in m
    requires i in HostIfaces.IfacesAfter(m, next, rows, dev, WantedIfaces(r), r.bmc.None?)
    ensures IfaceFresh(i, dev, r, HostIfaces.IfacesAfter(m, next, rows, dev, WantedIfaces(r), r.bmc.None?)[i])
  {
    var ws := WantedIfaces(r);
    var t0 := HostIfaces.WantedTable(m, next, rows, dev, ws, |ws|);
    HostIfaces.LostUntouched(m, next, rows, dev, ws, r.bmc.None?);
    HostIfaces.LostTrack(t0, rows, ws, r.bmc.None?, |rows|, i);
    HostIfaces.TrackNew(m, next, rows, dev, ws, |ws|, i);
    assert forall k :: 0 <= k < |rows| && rows[k].id == i ==> rows[k] in rows;
  }

  /** The interface section's table. */
  lemma IfacesAre(s: Store, st: State, r: Report, p: Params, next: Id)
    requires Applies(s, st, r, p, next)
    ensures var dev, n := PlanDevice(st, r, next).0.id, PlanDevice(st, r, next).1.next;
            && HostIfaces.Start(s.ifaces, n, st.ifaces, dev, WantedIfaces(r))
            && Applied(s, st, r, p, next).ifaces
               == HostIfaces.IfacesAfter(s.ifaces, n, st.ifaces, dev, WantedIfaces(r), r.bmc.None?)
  {
    var dev, n, ws := PlanDevice(st, r, next).0.id, PlanDevice(st, r, next).1.next, WantedIfaces(r);
    AppliedTables(s, st, r, p, next);
    LoadedFor(s, st, r, next);
    NextOrder(st, r, p, next);
    WantedDistinct(r);
    HostIfaces.LostFold(s.ifaces, PlanWanted(n, st.ifaces, dev, ws, |ws|), st.ifaces, ws, r.bmc.None?, |st.ifaces|);
  }

  /** Every interface row after an applied report. */
  lemma IfaceColumns(s: Store, st: State, r: Report, p: Params, next: Id, i: Id)
    requires Applies(s, st, r, p, next)
    ensures var dev, t := PlanDevice(st, r, next).0.id, Applied(s, st, r, p, next).ifaces;
            && (i in s.ifaces ==> i in t && IfaceBecame(s.ifaces[i], dev, r, t[i]))
            && (i in t && i !in s.ifaces ==> IfaceFresh(i, dev, r, t[i]))
  {
    var dev, n := PlanDevice(st, r, next).0.id, PlanDevice(st, r, next).1.next;
    IfacesAre(s, st, r, p, next);
    if i in s.ifaces {
      AfterBecame(s.ifaces, n, st.ifaces, dev, r, i);
    } else if i in Applied(s, st, r, p, next).ifaces {
      AfterFresh(s.ifaces, n, st.ifaces, dev, r, i);
    }
  }

  // ---- the addresses a report claims

  lemma {:induction false} ClaimsOfAre(w: Wanted, n: nat, c: Claim)
    requires n <= |w.addrs|
    ensures c in ClaimsOf(w, n) <==> c.iface == w && c.addr in w.addrs[..n]
  {
    if n > 0 {
      ClaimsOfAre(w, n - 1, c);
      assert w.addrs[..n] == w.addrs[..n - 1] + [w.addrs[n - 1]];
    }
  }

  lemma {:induction false} ClaimsAre(ws: seq<Wanted>, n: nat, c: Claim)
    requires n <= |ws|
    ensures c in Claims(ws, n) <==> c.iface in ws[..n] && c.addr in c.iface.addrs
  {
    if n > 0 {
      var w := ws[n - 1];
      ClaimsAre(ws, n - 1, c);
      ClaimsOfAre(w, |w.addrs|, c);
      assert w.addrs[..|w.addrs|] == w.addrs && ws[..n] == ws[..n - 1] + [w];
    }
  }

  /** An address of a wanted interface that lasts and is worth recording. */
  ghost predicate Claimed(r: Report, c: Claim) {
    && c.iface in WantedIfaces(r) && c.addr in c.iface.addrs && !c.addr.temporary && !c.addr.deprecated
    && ValidAddr(c.addr.addr) && Placement.Recordable(c.addr.addr)
  }

  lemma ClaimedAre(r: Report, c: Claim)
    ensures c in AllClaims(r) && Recorded(c) <==> Claimed(r, c)
  {
    var ws := WantedIfaces(r);
    ClaimsAre(ws, |ws|, c);
    assert ws[..|ws|] == ws;
  }

  /** The claim that settles an address: the first one, when there is one. */
  ghost predicate Settles(r: Report, text: Text, f: Option<Claim>) {
    match f
    case Some(c) => Claimed(r, c) && text == Allocator.Text.Text(Some(c.addr.addr), 0)
    case None => forall c :: Claimed(r, c) ==> text != Allocator.Text.Text(Some(c.addr.addr), 0)
  }

  lemma DecidesSettles(r: Report, text: Text)
    ensures var cs := AllClaims(r); Settles(r, text, HostAddrs.Decides(cs, |cs|, text))
  {
    var cs := AllClaims(r);
    var f := HostAddrs.Decides(cs, |cs|, text);
    if f.Some? {
      ClaimedAre(r, f.value);
    } else {
      forall c | Claimed(r, c) ensures text != Allocator.Text.Text(Some(c.addr.addr), 0) {
        ClaimedAre(r, c);
        var k :| 0 <= k < |cs| && cs[k] == c;
        if Key(c) == text { HostAddrs.DecidedIfClaimed(cs, |cs|, k); }
      }
    }
  }

  // ---- address rows

  predicate LetterOrDigit(c: char) {
    'a' <= c <= 'z' || 'A' <= c <= 'Z' || '0' <= c <= '9'
  }

  /** At most 253 letters, digits, dots and dashes, with a letter or digit at both ends. */
  predicate DnsName(h: string) {
    && 1 <= |h| <= 253 && LetterOrDigit(h[0]) && LetterOrDigit(h[|h| - 1])
    && forall i :: 0 <= i < |h| ==> LetterOrDigit(h[i]) || h[i] == '-' || h[i] == '.'
  }

  lemma DnsNameKept(h: string)
    ensures DNSHostname(h) == if DnsName(h) then h else ""
  {
    if DnsName(h) {
      forall c | c in h ensures AlphaNum(c) || c == '.' || c == '-' { var i :| 0 <= i < |h| && h[i] == c; }
    } else {
      assert forall i :: 0 <= i < |h| ==> h[i] in h;
    }
  }

  /** Where the address was reported. */
  predicate SitsOn(b: AddrCols, dev: Id, c: Claim, r: Report) {
    && b.device == dev && b.iface == c.iface.name && b.mac == c.iface.mac && b.state == Reported
    && b.hostname == (if !c.iface.bmc && DnsName(r.hostname) then r.hostname else "")
    && (b.primary <==> !c.iface.bmc && (r.primary4 == Some(c.addr.addr) || r.primary6 == Some(c.addr.addr)))
  }

  /** The address came from another device: the move is noted and counted within its window. */
  predicate NotesMove(a: AddrCols, p: Params, b: AddrCols) {
    && b.previous == a.device && b.movedAt == Some(p.now)
    && (if a.windowStart.None? || p.now - a.windowStart.value > p.conflictWindow
        then b.windowStart == Some(p.now) && b.moveCount == 1
        else b.windowStart == a.windowStart && b.moveCount == a.moveCount + 1)
    && (b.conflict <==> a.conflict || b.moveCount >= p.conflictMoves)
  }

  /** The address stayed: a conflict without a move for longer than the window is over. */
  predicate NotesStay(a: AddrCols, p: Params, b: AddrCols) {
    && b.previous == a.previous && b.movedAt == a.movedAt
    && if a.conflict && a.movedAt.Some? && p.now - a.movedAt.value > p.conflictWindow
       then !b.conflict && b.moveCount == 0 && b.windowStart == None
       else b.conflict == a.conflict && b.moveCount == a.moveCount && b.windowStart == a.windowStart
  }

  /** A MAC an agent reported, with the time. */
  predicate FromAgent(mac: string, at: Time, p: Provenance) {
    if mac == "" then p == Provenance("", 0, None) else p == Provenance("agent", 0, Some(at))
  }

  /** What a stored address row becomes when the report claims it. */
  predicate ClaimedRow(a: AddrRow, dev: Id, c: Claim, r: Report, p: Params, clock: Time, b: AddrRow) {
    && b == a.(cols := b.cols, mac := b.mac) && SitsOn(b.cols, dev, c, r)
    && (if a.cols.device != 0 && a.cols.device != dev then NotesMove(a.cols, p, b.cols)
        else NotesStay(a.cols, p, b.cols))
    && (b == a || (b.cols.lastSeen == r.collected && FromAgent(c.iface.mac, clock, b.mac)))
  }

  /** What it becomes otherwise: released from this device, unless the BMC was silent about it; else left alone. */
  predicate UnclaimedRow(a: AddrRow, dev: Id, r: Report, b: AddrRow) {
    if a.cols.device == dev && a.cols.state == Reported && (r.bmc.Some? || !IsBMCName(a.cols.iface))
    then b == a.(cols := a.cols.(device := 0, iface := "", primary := false, previous := dev, state := NotReported))
    else b == a
  }

  ghost predicate AddrBecame(a: AddrRow, dev: Id, r: Report, p: Params, clock: Time, b: AddrRow) {
    || (exists c :: Settles(r, a.text, Some(c)) && ClaimedRow(a, dev, c, r, p, clock, b))
    || (Settles(r, a.text, None) && UnclaimedRow(a, dev, r, b))
  }

  lemma BecameRow(a: AddrRow, dev: Id, c: Claim, r: Report, p: Params, clock: Time)
    requires dev != 0
    ensures ClaimedRow(a, dev, c, r, p, clock, HostAddrs.Became(a, dev, Some(c), r, p, clock))
  {
    DnsNameKept(r.hostname);
  }

  lemma AfterAddr(x: HostAddrs.Pass, i: Id)
    requires HostAddrs.Start(x) && i in x.m
    ensures var f, t := HostAddrs.Decides(x.cs, |x.cs|, x.m[i].text), HostAddrs.AddrsAfter(x);
            && i in t
            && (f.Some? ==> t[i] == HostAddrs.Became(x.m[i], x.dev, f, x.r, x.p, x.clock))
            && (f.None? ==> UnclaimedRow(x.m[i], x.dev, x.r, t[i]))
  {
    var n := |x.cs|;
    var run := HostAddrs.RunOf(x, n);
    HostAddrs.StraysUntouched(x, run);
    HostAddrs.ReleaseTrack(run.tables[n], x.rows, x.dev, x.cs, x.r.bmc.None?, |x.rows|, i);
    HostAddrs.TrackOld(x, run, n, n, i);
    if x.m[i].cols.device == x.dev {
      assert x.m[i] in x.rows;
      var k :| 0 <= k < |x.rows| && x.rows[k] == x.m[i];
    }
    assert forall k :: 0 <= k < |x.rows| && x.rows[k].id == i ==> x.rows[k] in x.rows;
  }

  /** A new address row. */
  ghost predicate AddrFresh(i: Id, dev: Id, c: Claim, r: Report, clock: Time, b: AddrRow) {
    && b.id == i && b.text == Allocator.Text.Text(Some(c.addr.addr), 0) && SitsOn(b.cols, dev, c, r)
    && b.cols.lastSeen == r.collected && b.cols.previous == 0 && b.cols.movedAt == None && b.cols.moveCount == 0
    && b.cols.windowStart == None && !b.cols.conflict && FromAgent(c.iface.mac, clock, b.mac)
    && b.admin == map["status" := "active", "address_type" := "host", "created_by" := "host-sync"]
  }

  lemma AfterNewAddr(x: HostAddrs.Pass, i: Id) returns (c: Claim)
    requires HostAddrs.Start(x) && i in HostAddrs.AddrsAfter(x) && i !in x.m
    ensures var b := HostAddrs.AddrsAfter(x)[i];
            && HostAddrs.Decides(x.cs, |x.cs|, b.text) == Some(c) && AddrFresh(i, x.dev, c, x.r, x.clock, b)
            && forall j :: j in x.m ==> x.m[j].text != b.text
  {
    var n := |x.cs|;
    var run := HostAddrs.RunOf(x, n);
    HostAddrs.StraysUntouched(x, run);
    HostAddrs.ReleaseTrack(run.tables[n], x.rows, x.dev, x.cs, x.r.bmc.None?, |x.rows|, i);
    var subnet := HostAddrs.TrackNew(x, run, n, n, i);
    c := HostAddrs.Decides(x.cs, n, run.tables[n][i].text).value;
    DnsNameKept(x.r.hostname);
    assert forall k :: 0 <= k < |x.rows| && x.rows[k].id == i ==> x.rows[k] in x.rows;
  }

  ghost function PassFor(s: Store, st: State, r: Report, p: Params, next: Id): HostAddrs.Pass {
    var (dev, a0) := PlanDevice(st, r, next);
    PassOf(s.addrs, st, r, p, PlanIfaces(a0.next, st, r, dev.id).next, dev.id, s.clock)
  }

  lemma AddrsAre(s: Store, st: State, r: Report, p: Params, next: Id)
    requires Applies(s, st, r, p, next)
    ensures var x := PassFor(s, st, r, p, next);
            HostAddrs.Start(x) && Applied(s, st, r, p, next).addrs == HostAddrs.AddrsAfter(x)
  {
    var x := PassFor(s, st, r, p, next);
    AppliedTables(s, st, r, p, next);
    LoadedFor(s, st, r, next);
    NextOrder(st, r, p, next);
    ClaimsAsked(r);
    SeenAll(x);
    var a := HostAddrs.PlanAt(x, |x.cs|);
    HostAddrs.ReleaseFold(x.m, Acc(a.next, a.ops), st.addrs, x.dev, x.cs, a.seen, r.bmc.None?, s.clock, |st.addrs|);
  }

  /** Every address row after an applied report. */
  lemma AddrColumns(s: Store, st: State, r: Report, p: Params, next: Id, i: Id)
    requires Applies(s, st, r, p, next)
    ensures var dev, t := PlanDevice(st, r, next).0.id, Applied(s, st, r, p, next).addrs;
            && (i in s.addrs ==> i in t && AddrBecame(s.addrs[i], dev, r, p, s.clock, t[i]))
            && (i in t && i !in s.addrs ==> exists c :: Claimed(r, c) && AddrFresh(i, dev, c, r, s.clock, t[i]))
  {
    var x := PassFor(s, st, r, p, next);
    AddrsAre(s, st, r, p, next);
    LoadedFor(s, st, r, next);
    if i in s.addrs {
      AfterAddr(x, i);
      DecidesSettles(r, s.addrs[i].text);
      var f := HostAddrs.Decides(x.cs, |x.cs|, s.addrs[i].text);
      if f.Some? { BecameRow(s.addrs[i], x.dev, f.value, r, p, s.clock); }
    } else if i in Applied(s, st, r, p, next).addrs {
      var c := AfterNewAddr(x, i);
      DecidesSettles(r, Applied(s, st, r, p, next).addrs[i].text);
    }
  }

  // ---- guest rows

  /** The other devices with an interface that carries one of the MACs. */
  ghost function Carriers(s: Store, dev: Id, macs: seq<string>): set<Id> {
    set i | i in s.ifaces && s.ifaces[i].device != dev && s.ifaces[i].cols.mac != ""
      && Lower(s.ifaces[i].cols.mac) in macs :: s.ifaces[i].device
  }

  /** The guest as it was reported, pointing at the one other device that carries its MACs. */
  ghost predicate GuestStored(s: Store, dev: Id, g: RGuest, b: Guest) {
    && b.host == dev && b.ref == g.ref && b.name == g.name && b.kind == g.kind && b.platform == g.platform
    && b.macs == g.macs
    && (|Carriers(s, dev, g.macs)| == 1 ==> Carriers(s, dev, g.macs) == {b.device})
    && (|Carriers(s, dev, g.macs)| != 1 ==> b.device == 0)
  }

  lemma MatchesIsStored(s: Store, dev: Id, g: RGuest, b: Guest)
    requires HostGuestRows.RowMatches(b, g, dev, HostGuests.LinkOf(s.ifaces, dev, g))
    ensures GuestStored(s, dev, g, b)
  {
    assert Carriers(s, dev, g.macs) == HostGuests.OwnersIn(s.ifaces, dev, g.macs);
  }

  ghost predicate GuestsStored(s: Store, dev: Id, r: Report, t: map<Id, Guest>) {
    && (forall g :: g in r.guests ==> exists i :: i in t && GuestStored(s, dev, g, t[i]))
    && (forall i :: i in t && t[i].host == dev ==> exists g :: g in r.guests && GuestStored(s, dev, g, t[i]))
  }

  lemma SettledIsStored(s: Store, dev: Id, r: Report, t: map<Id, Guest>)
    requires HostGuestRows.RowsSettled(t, dev, r.guests, HostGuestRows.Links(s.ifaces, dev, r))
    ensures GuestsStored(s, dev, r, t)
  {
    var links := HostGuestRows.Links(s.ifaces, dev, r);
    forall g | g in r.guests ensures exists i :: i in t && GuestStored(s, dev, g, t[i]) {
      var k :| 0 <= k < |r.guests| && r.guests[k] == g;
      assert HostGuestRows.Stored(t, g, dev, links[k]);
      var i :| i in t && HostGuestRows.RowMatches(t[i], g, dev, links[k]);
      MatchesIsStored(s, dev, g, t[i]);
    }
    forall i | i in t && t[i].host == dev ensures exists g :: g in r.guests && GuestStored(s, dev, g, t[i]) {
      assert HostGuestRows.Listed(t[i], dev, r.guests, links);
      var k :| 0 <= k < |r.guests| && HostGuestRows.RowMatches(t[i], r.guests[k], dev, links[k]);
      MatchesIsStored(s, dev, r.guests[k], t[i]);
      assert r.guests[k] in r.guests;
    }
  }

  lemma LinkIsCarrier(s: Store, dev: Id, g: RGuest, i: Id)
    ensures i != 0 ==> (HostGuests.LinkOf(s.ifaces, dev, g) == i <==> Carriers(s, dev, g.macs) == {i})
  {
    assert Carriers(s, dev, g.macs) == HostGuests.OwnersIn(s.ifaces, dev, g.macs);
  }

  /** A device hangs under this one exactly when it is the only carrier of a reported guest's MACs. */
  ghost predicate UnderIt(s: Store, dev: Id, r: Report, d: map<Id, Device>) {
    forall i :: i in d ==> (d[i].hypervisor == dev <==> exists g :: g in r.guests && Carriers(s, dev, g.macs) == {i})
  }

  lemma LinkedAreCarriers(s: Store, dev: Id, r: Report, i: Id)
    requires i > 0
    ensures i in HostGuests.LinksTo(s.ifaces, dev, r, |r.guests|) <==>
            exists g :: g in r.guests && Carriers(s, dev, g.macs) == {i}
  {
    if i in HostGuests.LinksTo(s.ifaces, dev, r, |r.guests|) {
      var k :| 0 <= k < |r.guests| && HostGuests.LinkOf(s.ifaces, dev, r.guests[k]) == i;
      LinkIsCarrier(s, dev, r.guests[k], i);
      assert r.guests[k] in r.guests;
    }
    if g :| g in r.guests && Carriers(s, dev, g.macs) == {i} {
      var k :| 0 <= k < |r.guests| && r.guests[k] == g;
      LinkIsCarrier(s, dev, g, i);
      assert HostGuests.LinkOf(s.ifaces, dev, r.guests[k]) == i;
    }
  }

  lemma SettledIsUnder(s: Store, dev: Id, r: Report, d: map<Id, Device>)
    requires HostGuests.LinksSettled(d, s.ifaces, dev, r) && forall i :: i in d ==> i > 0
    ensures UnderIt(s, dev, r, d)
  {
    forall i | i in d ensures d[i].hypervisor == dev <==> exists g :: g in r.guests && Carriers(s, dev, g.macs) == {i} {
      LinkedAreCarriers(s, dev, r, i);
    }
  }

  // ---- the hardware profile

  /** The stored profile is replaced when its digest or its free bytes changed, with the time of the report. */
  ghost predicate ProfileStored(was: Option<Hardware>, dev: Id, r: Report, now: Time, h: Option<Hardware>) {
    match r.hardware
    case None => h == was
    case Some(inn) =>
      if was.Some? && was.value.digest == inn.digest && was.value.profile.free == inn.profile.free then h == was
      else
        && h.Some? && h.value.device == dev && h.value.profile == inn.profile && h.value.digest == inn.digest
        && h.value.reportedAt == if r.collected.Some? then r.collected.value else now
  }

  lemma HardwarePlanned(m: map<Id, Hardware>, st: State, r: Report, p: Params, dev: Id)
    requires r.hardware.Some? ==> st.hardware == HardwareIn(m, dev)
    ensures ProfileStored(HardwareIn(m, dev), dev, r, p.now,
              HardwareIn(Fold(WriteHardware, m, PlanHardware(st, r, p, dev)), dev))
  {
    var ops := PlanHardware(st, r, p, dev);
    if ops != [] {
      assert ops == [] + [ops[0]];
      FoldAdd(WriteHardware, m, [], ops[0]);
    }
  }

  /** The hardware profile after an applied report. */
  lemma HardwareColumns(s: Store, st: State, r: Report, p: Params, next: Id)
    requires Applies(s, st, r, p, next)
    ensures var dev, t := PlanDevice(st, r, next).0.id, Applied(s, st, r, p, next);
            ProfileStored(HardwareIn(s.hardware, dev), dev, r, p.now, HardwareIn(t.hardware, dev))
  {
    AppliedTables(s, st, r, p, next);
    LoadedFor(s, st, r, next);
    HardwarePlanned(s.hardware, st, r, p, PlanDevice(st, r, next).0.id);
  }

  // ---- this device as a guest

  /** A guest row of another host with a MAC of the report's own interfaces and one of the wanted ones. */
  ghost predicate SeenAsGuest(g: Guest, dev: Id, r: Report) {
    && g.host != dev
    && (exists k :: 0 <= k < |r.ifaces| && r.ifaces[k].mac != "" && r.ifaces[k].mac in g.macs)
    && (exists w :: w in WantedIfaces(r) && w.mac != "" && w.mac in g.macs)
  }

  ghost function HostsSeeing(m: map<Id, Guest>, dev: Id, r: Report): set<Id> {
    set i | i in m && SeenAsGuest(m[i], dev, r) :: m[i].host
  }

  lemma SeenIsMine(g: Guest, dev: Id, r: Report)
    ensures SeenAsGuest(g, dev, r) <==> HostSelf.Mine(g, dev, r)
  {
    if SeenAsGuest(g, dev, r) {
      var k :| 0 <= k < |r.ifaces| && r.ifaces[k].mac != "" && r.ifaces[k].mac in g.macs;
      assert r.ifaces[k].mac in OwnMacs(r);
      var w :| w in WantedIfaces(r) && w.mac != "" && w.mac in g.macs;
      assert w.mac in Macs(WantedIfaces(r));
    }
  }

  lemma HostsSame(m: map<Id, Guest>, dev: Id, r: Report)
    ensures HostsSeeing(m, dev, r) == HostSelf.HostsIn(m, dev, r)
  {
    forall i | i in m ensures SeenAsGuest(m[i], dev, r) <==> HostSelf.Mine(m[i], dev, r) { SeenIsMine(m[i], dev, r); }
  }

  /** A device that exactly one host lists hangs under it, and that host's rows point at the device. */
  ghost predicate Hangs(d: map<Id, Device>, m: map<Id, Guest>, dev: Id, r: Report) {
    |HostsSeeing(m, dev, r)| == 1 ==>
      && dev in d && HostsSeeing(m, dev, r) == {d[dev].hypervisor}
      && forall i :: i in m && SeenAsGuest(m[i], dev, r) ==> m[i].device == dev
  }

  lemma SettledHangs(d: map<Id, Device>, m: map<Id, Guest>, dev: Id, r: Report)
    requires HostSelf.SelfSettled(d, m, dev, r)
    ensures Hangs(d, m, dev, r)
  {
    HostsSame(m, dev, r);
    forall i | i in m ensures SeenAsGuest(m[i], dev, r) <==> HostSelf.Mine(m[i], dev, r) { SeenIsMine(m[i], dev, r); }
  }

  // ---- who hangs under whom

  /** Under the one host that lists it, or under the device whose guest it is; no longer there, or as before. */
  ghost predicate PlacedUnder(s: Store, dev: Id, r: Report, i: Id, now: Id) {
    var was := if i in s.devices then s.devices[i].hypervisor else 0;
    if i == dev && |HostsSeeing(s.guests, dev, r)| == 1 then HostsSeeing(s.guests, dev, r) == {now}
    else if exists g :: g in r.guests && Carriers(s, dev, g.macs) == {i} then now == dev
    else now == if was == dev then 0 else was
  }

  ghost predicate AllPlaced(s: Store, dev: Id, r: Report, d: map<Id, Device>) {
    forall i :: i in d ==> PlacedUnder(s, dev, r, i, d[i].hypervisor)
  }

  /** `d1` has the device written, `d` the guests linked, `t` the device's own link. */
  lemma LinkedPlaced(s: Store, d1: map<Id, Device>, d: map<Id, Device>, t: map<Id, Device>, dev: Id, r: Report)
    requires forall i :: i in d1 ==>
               i > 0 && d1[i].hypervisor == if i in s.devices then s.devices[i].hypervisor else 0
    requires HostGuests.LinkedExactly(d1, d, s.ifaces, dev, r) && dev in d
    requires var hosts := HostSelf.HostsIn(s.guests, dev, r);
             t == if |hosts| == 1 then d[dev := d[dev].(hypervisor := TheOne(hosts))] else d
    ensures AllPlaced(s, dev, r, t)
  {
    HostsSame(s.guests, dev, r);
    forall i | i in t ensures PlacedUnder(s, dev, r, i, t[i].hypervisor) { LinkedAreCarriers(s, dev, r, i); }
  }

  lemma SectionsPlaced(s: Store, st: State, r: Report, p: Params, next: Id)
    requires WellFormed(s) && Unused(s, next) && Normalized(r) && Loads(s, r, st)
    ensures var dev, q := PlanDevice(st, r, next).0.id, PartsOf(st, r, p, next);
            AllPlaced(s, dev, r, Fold(WriteDevices, Fold(WriteDevices, D1(s, st, r, next), q.guests), q.self))
  {
    var (dev, a0) := PlanDevice(st, r, next);
    var a2 := PlanAddrs(PlanIfaces(a0.next, st, r, dev.id).next, st, r, p, dev.id);
    var n := PlanPackages(a2.next, st, r, dev.id).next;
    var d1 := D1(s, st, r, next);
    var d := Fold(WriteDevices, d1, PlanGuests(n, st, r, p, dev.id).ops);
    NextOrder(st, r, p, next);
    DeviceTable(s, st, r, next);
    LoadedFor(s, st, r, next);
    AfterGuests(s, st, r, p, next, n);
    HostSelf.SelfDevices(s.guests, d, st, r, dev);
    LinkedPlaced(s, d1, d, Fold(WriteDevices, d, PlanSelf(st, r, dev)), dev.id, r);
  }

  /** After an applied report every device hangs where the report and the guest rows put it, or where it was. */
  lemma HypervisorColumns(s: Store, st: State, r: Report, p: Params, next: Id)
    requires Applies(s, st, r, p, next)
    ensures var dev, t := PlanDevice(st, r, next).0.id, Applied(s, st, r, p, next);
            UnderIt(s, dev, r, t.devices) && AllPlaced(s, dev, r, t.devices)
  {
    AppliedPeople(s, st, r, p, next);
    SettledIsUnder(s, PlanDevice(st, r, next).0.id, r, Applied(s, st, r, p, next).devices);
    AppliedTables(s, st, r, p, next);
    SectionsPlaced(s, st, r, p, next);
  }

  /** Other hosts' rows are as before, but for those that list this device, if they are all of one host. */
  ghost predicate OthersPointed(m: map<Id, Guest>, t: map<Id, Guest>, dev: Id, r: Report) {
    && (forall i :: i in m && m[i].host != dev ==>
          i in t && t[i] == if |HostsSeeing(m, dev, r)| == 1 && SeenAsGuest(m[i], dev, r)
                            then m[i].(device := dev) else m[i])
    && (forall i :: i in t && t[i].host != dev ==> i in m && m[i].host != dev)
  }

  lemma PointedOthers(m0: map<Id, Guest>, m: map<Id, Guest>, t: map<Id, Guest>, dev: Id, r: Report)
    requires forall i :: i in m0 && m0[i].host != dev ==> i in m && m[i] == m0[i]
    requires forall i :: i in m && m[i].host != dev ==> i in m0 && m0[i] == m[i]
    requires HostSelf.Pointed(m, t, dev, r)
    ensures OthersPointed(m0, t, dev, r)
  {
    HostsSame(m0, dev, r);
    HostSelf.SameHosts(m0, m, dev, r);
    forall i | i in m ensures SeenAsGuest(m[i], dev, r) <==> HostSelf.Mine(m[i], dev, r) { SeenIsMine(m[i], dev, r); }
  }

  /** The guest tables of the two sections that write them. */
  lemma GuestTables(s: Store, st: State, r: Report, p: Params, next: Id)
    requires WellFormed(s) && Unused(s, next) && Normalized(r) && Loads(s, r, st)
    ensures var dev, q := PlanDevice(st, r, next).0.id, PartsOf(st, r, p, next);
            var m := Fold(WriteGuests, s.guests, q.guests);
            var t := Fold(WriteGuests, m, q.self);
            HostSelf.Pointed(m, t, dev, r) && OthersPointed(s.guests, t, dev, r)
  {
    var (dev, a0) := PlanDevice(st, r, next);
    var a2 := PlanAddrs(PlanIfaces(a0.next, st, r, dev.id).next, st, r, p, dev.id);
    var n := PlanPackages(a2.next, st, r, dev.id).next;
    var m := Fold(WriteGuests, s.guests, PlanGuests(n, st, r, p, dev.id).ops);
    NextOrder(st, r, p, next);
    LoadedFor(s, st, r, next);
    AfterGuests(s, st, r, p, next, n);
    HostSelf.SelfGuests(s.guests, m, st, r, dev);
    PointedOthers(s.guests, m, Fold(WriteGuests, m, PlanSelf(st, r, dev)), dev.id, r);
  }

  lemma PointedDated(m0: map<Id, Guest>, m: map<Id, Guest>, t: map<Id, Guest>, dev: Id, r: Report, now: Time)
    requires HostGuestRows.Dated(m0, m, dev, now) && HostSelf.Pointed(m, t, dev, r)
    ensures HostGuestRows.Dated(m0, t, dev, now)
  {}

  lemma SectionsDated(s: Store, st: State, r: Report, p: Params, next: Id)
    requires WellFormed(s) && Unused(s, next) && Normalized(r) && Loads(s, r, st)
    ensures var dev, q := PlanDevice(st, r, next).0.id, PartsOf(st, r, p, next);
            HostGuestRows.Dated(s.guests, Fold(WriteGuests, Fold(WriteGuests, s.guests, q.guests), q.self), dev, p.now)
  {
    var (dev, a0) := PlanDevice(st, r, next);
    var a2 := PlanAddrs(PlanIfaces(a0.next, st, r, dev.id).next, st, r, p, dev.id);
    var n := PlanPackages(a2.next, st, r, dev.id).next;
    var m := Fold(WriteGuests, s.guests, PlanGuests(n, st, r, p, dev.id).ops);
    NextOrder(st, r, p, next);
    LoadedFor(s, st, r, next);
    HostGuestRows.RowsDated(s, s.guests, st, n, dev.id, r, p);
    GuestTables(s, st, r, p, next);
    PointedDated(s.guests, m, Fold(WriteGuests, m, PlanSelf(st, r, dev)), dev.id, r, p.now);
  }

  /** The device's own place after an applied report, and the rows of the hosts it may be a guest of. */
  lemma SelfColumns(s: Store, st: State, r: Report, p: Params, next: Id)
    requires Applies(s, st, r, p, next)
    ensures var dev, t := PlanDevice(st, r, next).0.id, Applied(s, st, r, p, next);
            Hangs(t.devices, t.guests, dev, r) && OthersPointed(s.guests, t.guests, dev, r)
  {
    var t := Applied(s, st, r, p, next);
    AppliedPeople(s, st, r, p, next);
    SettledHangs(t.devices, t.guests, PlanDevice(st, r, next).0.id, r);
    AppliedTables(s, st, r, p, next);
    GuestTables(s, st, r, p, next);
  }

  /** The device's guest rows after an applied report are exactly the reported guests. */
  lemma GuestColumns(s: Store, st: State, r: Report, p: Params, next: Id)
    requires Applies(s, st, r, p, next)
    ensures var dev, t := PlanDevice(st, r, next).0.id, Applied(s, st, r, p, next).guests;
            GuestsStored(s, dev, r, t) && HostGuestRows.Dated(s.guests, t, dev, p.now)
  {
    AppliedPeople(s, st, r, p, next);
    SettledIsStored(s, PlanDevice(st, r, next).0.id, r, Applied(s, st, r, p, next).guests);
    AppliedTables(s, st, r, p, next);
    SectionsDated(s, st, r, p, next);
  }
}
