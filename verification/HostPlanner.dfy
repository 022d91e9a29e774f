/** The planner as the code runs it: one object whose sections append to its list of writes. */
module HostPlanner {
  import opened Wrappers
  import opened HostStore
  import opened HostReport
  import opened HostPlan
  import Placement

  /** The claims of the first `i` interfaces are where the nested loops say they are. */
  lemma {:induction false} ClaimsPrefix(ws: seq<Wanted>, i: nat, n: nat)
    requires i <= n <= |ws|
    ensures Claims(ws, i) <= Claims(ws, n)
    decreases n - i
  {
    if i < n { ClaimsPrefix(ws, i + 1, n); }
  }

  lemma {:induction false} ClaimsOfAt(w: Wanted, n: nat, k: nat)
    requires k < n <= |w.addrs|
    ensures |ClaimsOf(w, n)| == n && ClaimsOf(w, n)[k] == Claim(w.addrs[k], w)
  {
    if k < n - 1 {
      ClaimsOfAt(w, n - 1, k);
    } else if n > 1 {
      ClaimsOfAt(w, n - 1, 0);
    }
  }

  lemma ClaimAt(ws: seq<Wanted>, i: nat, k: nat)
    requires i < |ws| && k < |ws[i].addrs|
    ensures var cs, at := Claims(ws, |ws|), |Claims(ws, i)| + k;
            at < |cs| && cs[at] == Claim(ws[i].addrs[k], ws[i])
  {
    ClaimsPrefix(ws, i + 1, |ws|);
    ClaimsOfAt(ws[i], |ws[i].addrs|, k);
    assert Claims(ws, i + 1) == Claims(ws, i) + ClaimsOf(ws[i], |ws[i].addrs|);
  }

  lemma ClaimsEnd(ws: seq<Wanted>, i: nat)
    requires i < |ws|
    ensures |Claims(ws, i + 1)| == |Claims(ws, i)| + |ws[i].addrs| <= |Claims(ws, |ws|)|
  {
    ClaimsPrefix(ws, i + 1, |ws|);
    if |ws[i].addrs| > 0 { ClaimsOfAt(ws[i], |ws[i].addrs|, 0); }
  }

  class Planner {
    const st: State
    const r: Report
    const p: Params
    var next: Id
    var ops: seq<Op>
    var dev: Device
    var ifaces: seq<Wanted>
    var subnets: seq<Placement.Candidate>
    var subnetNames: set<string>
    var reported: set<Text>
    /** The writes of earlier sections, and of the current one. */
    ghost var base: seq<Op>
    ghost var sec: seq<Op>

    ghost predicate Valid()
      reads this`ops, this`base, this`sec
    {
      ops == base + sec
    }

    constructor (st: State, r: Report, p: Params, next: Id)
      ensures Valid() && this.st == st && this.r == r && this.p == p && this.next == next && ops == []
    {
      this.st, this.r, this.p, this.next := st, r, p, next;
      ops, dev, ifaces := [], BlankDevice(0), [];
      subnets, subnetNames, reported := [], {}, {};
      base, sec := [], [];
    }

    ghost method Begin()
      modifies this`base, this`sec
      ensures Valid() && base == ops && sec == []
    {
      base, sec := ops, [];
    }

    method Add(op: Op)
      requires Valid()
      modifies this`ops, this`sec
      ensures Valid() && sec == old(sec) + [op]
    {
      ops := ops + [op];
      sec := sec + [op];
    }

    method NewId() returns (id: Id)
      modifies this`next
      ensures id == old(next) && next == old(next) + 1
    {
      id := next;
      next := next + 1;
    }

    method MatchAndUpdate()
      modifies this`next, this`ops, this`dev, this`base, this`sec
      ensures Valid() && base == old(ops) && (dev, Acc(next, sec)) == PlanDevice(st, r, old(next))
    {
      Begin();
      var cur := Match(st, r);
      if cur.None? {
        var id := NewId();
        var d := BlankDevice(id);
        dev := d.(cols := WantCols(d.cols, DesiredName(st.byName, r, id), r, true));
        Add(CreateDevice(dev, [Audit(DeviceCreated, id)]));
        assert sec == [CreateDevice(dev, [Audit(DeviceCreated, id)])];
      } else {
        dev := cur.value.(cols := WantCols(cur.value.cols, DesiredName(st.byName, r, cur.value.id), r, false));
        if dev != cur.value {
          Add(UpdateDevice(dev, [Audit(DeviceUpdated, dev.id)]));
          assert sec == [UpdateDevice(dev, [Audit(DeviceUpdated, dev.id)])];
        }
      }
    }

    method ReportedInterfaces() returns (out: seq<Wanted>)
      ensures out == WantedIfaces(r)
    {
      out := [];
      var n := 0;
      while n < |r.ifaces|
        invariant 0 <= n <= |r.ifaces| && out == OwnWanted(r, n)
      {
        var i := r.ifaces[n];
        if !i.excluded {
          out := out + [Wanted(i.name, i.mac, i.kind, i.speed, i.up, false, i.addrs)];
        }
        n := n + 1;
      }
      if r.bmc.Some? {
        var ports := BmcInterfaces(r.bmc.value, Taken(out));
        out := out + ports;
      }
    }

    method BmcInterfaces(b: Bmc, taken: set<string>) returns (out: seq<Wanted>)
      ensures out == BmcWanted(b, taken, |BmcPorts(b)|)
    {
      var ports := BmcPorts(b);
      out := [];
      var i := 0;
      while i < |ports|
        invariant 0 <= i <= |ports| && out == BmcWanted(b, taken, i)
      {
        if BMCName(i) !in taken {
          out := out + [Wanted(BMCName(i), ports[i], "management", 0, true, true, if i == 0 then BmcAddrs(b) else [])];
        }
        i := i + 1;
      }
    }

    method Interfaces()
      modifies this`next, this`ops, this`ifaces, this`base, this`sec
      ensures Valid() && base == old(ops) && ifaces == WantedIfaces(r)
            && Acc(next, sec) == PlanIfaces(old(next), st, r, dev.id)
    {
      Begin();
      ifaces := ReportedInterfaces();
      WantInterfaces();
      LoseInterfaces();
    }

    method WantInterfaces()
      requires Valid() && sec == []
      modifies this`next, this`ops, this`sec
      ensures Valid() && Acc(next, sec) == PlanWanted(old(next), st.ifaces, dev.id, ifaces, |ifaces|)
    {
      var n := 0;
      while n < |ifaces|
        invariant 0 <= n <= |ifaces| && Valid()
        invariant Acc(next, sec) == PlanWanted(old(next), st.ifaces, dev.id, ifaces, n)
      {
        WantInterface(ifaces[n]);
        n := n + 1;
      }
    }

    method WantInterface(w: Wanted)
      requires Valid()
      modifies this`next, this`ops, this`sec
      ensures Valid() && Acc(next, sec) == IfaceStep(Acc(old(next), old(sec)), st.ifaces, dev.id, w)
    {
      var ex := FindIface(st.ifaces, |st.ifaces|, w.name);
      if ex.None? {
        var id := NewId();
        Add(CreateIface(NewIface(id, dev.id, w), [Audit(InterfaceCreated, id)]));
      } else {
        var want := ex.value.(cols := Refreshed(ex.value.cols, w));
        if want != ex.value {
          Add(UpdateIface(want, [Audit(InterfaceUpdated, want.id)]));
        }
      }
    }

    method LoseInterfaces()
      requires Valid()
      modifies this`ops, this`sec
      ensures Valid() && Acc(next, sec) == PlanLost(Acc(next, old(sec)), st.ifaces, ifaces, r.bmc.None?, |st.ifaces|)
    {
      var n := 0;
      while n < |st.ifaces|
        invariant 0 <= n <= |st.ifaces| && Valid()
        invariant Acc(next, sec) == PlanLost(Acc(next, old(sec)), st.ifaces, ifaces, r.bmc.None?, n)
      {
        var ex := st.ifaces[n];
        if Lost(ex, ifaces, r.bmc.None?) {
          Add(UpdateIface(ex.(cols := ex.cols.(state := NotReported)), [Audit(InterfaceNotReported, ex.id)]));
        }
        n := n + 1;
      }
    }

    ghost function Addressing(): AddrAcc
      reads this`next, this`sec, this`subnets, this`subnetNames, this`reported
    {
      AddrAcc(next, sec, subnets, subnetNames, reported)
    }

    method Addresses()
      requires ifaces == WantedIfaces(r)
      modifies this`next, this`ops, this`base, this`sec, this`subnets, this`subnetNames, this`reported
      ensures Valid() && base == old(ops) && Acc(next, sec) == PlanAddrs(old(next), st, r, p, dev.id)
    {
      Begin();
      subnets, subnetNames, reported := Cands(st.subnets), SubnetNames(st.subnets), {};
      RecordAddresses();
      ReleaseAddresses();
    }

    /** The first `n` reported addresses are planned. */
    ghost predicate Planned(start: AddrAcc, n: nat)
      reads this
    {
      var cs := Claims(ifaces, |ifaces|);
      n <= |cs| && Addressing() == PlanClaims(start, st.addrs, dev.id, cs, r, p, n)
    }

    method RecordAddresses()
      requires Valid()
      modifies this`next, this`ops, this`sec, this`subnets, this`subnetNames, this`reported
      ensures Valid()
      ensures Addressing() == PlanClaims(old(Addressing()), st.addrs, dev.id, Claims(ifaces, |ifaces|), r, p,
            |Claims(ifaces, |ifaces|)|)
    {
      ghost var start := Addressing();
      var i := 0;
      while i < |ifaces|
        invariant 0 <= i <= |ifaces| && Valid() && Planned(start, |Claims(ifaces, i)|)
      {
        RecordInterface(i, start);
        i := i + 1;
      }
    }

    method RecordInterface(i: nat, ghost start: AddrAcc)
      requires Valid() && i < |ifaces| && Planned(start, |Claims(ifaces, i)|)
      modifies this`next, this`ops, this`sec, this`subnets, this`subnetNames, this`reported
      ensures Valid() && Planned(start, |Claims(ifaces, i + 1)|)
    {
      ClaimsEnd(ifaces, i);
      for k := 0 to |ifaces[i].addrs|
        invariant Valid() && Planned(start, |Claims(ifaces, i)| + k)
      {
        RecordClaim(i, k, start);
      }
    }

    method RecordClaim(i: nat, k: nat, ghost start: AddrAcc)
      requires Valid() && i < |ifaces| && k < |ifaces[i].addrs| && |Claims(ifaces, i)| + k < |Claims(ifaces, |ifaces|)|
      requires Addressing() == PlanClaims(start, st.addrs, dev.id, Claims(ifaces, |ifaces|), r, p,
            |Claims(ifaces, i)| + k)
      modifies this`next, this`ops, this`sec, this`subnets, this`subnetNames, this`reported
      ensures Valid()
      ensures Addressing() == PlanClaims(start, st.addrs, dev.id, Claims(ifaces, |ifaces|), r, p,
            |Claims(ifaces, i)| + k + 1)
    {
      ClaimAt(ifaces, i, k);
      Address(Claim(ifaces[i].addrs[k], ifaces[i]));
    }

    method Address(c: Claim)
      requires Valid()
      modifies this`next, this`ops, this`sec, this`subnets, this`subnetNames, this`reported
      ensures Valid() && Addressing() == AddrStep(old(Addressing()), st.addrs, dev.id, c, r, p)
    {
      if !Recorded(c) || Key(c) in reported { return; }
      reported := reported + {Key(c)};
      var row := FindAddr(st.addrs, |st.addrs|, Key(c));
      if row.None? {
        CreateAddress(c);
      } else {
        var want := Resolved(row.value.cols, dev.id, c, r, p);
        if AddrChanged(row.value.cols, want) {
          Add(UpdateAddr(row.value.(cols := want.(lastSeen := r.collected)),
            AddrAudit(row.value.id, row.value.cols, want, dev.id)));
        }
      }
    }

    method CreateAddress(c: Claim)
      requires Valid() && Recorded(c)
      modifies this`next, this`ops, this`sec, this`subnets, this`subnetNames
      ensures Valid() && Addressing() == CreateStep(old(Addressing()), dev.id, c, r)
    {
      var id := NewId();
      var subnet := PlaceSubnet(c.addr);
      Add(CreateAddr(NewAddr(id, subnet, dev.id, c, r), [Audit(AddressCreated, id)]));
    }

    method PlaceSubnet(c: RAddr) returns (id: Id)
      requires Valid() && ValidAddr(c.addr) && Placement.Recordable(c.addr)
      modifies this`next, this`ops, this`sec, this`subnets, this`subnetNames
      ensures Valid() && (id, Addressing()) == Place(old(Addressing()), c)
    {
      var m := Placement.FindMostSpecific(subnets, c.addr);
      if m.Some? { return m.value.id; }
      id := NewId();
      var s := SubnetFor(id, c, subnetNames);
      subnets := subnets + [Placement.Candidate(s.id, s.cidr)];
      subnetNames := subnetNames + {Lower(s.name)};
      Add(CreateSubnet(s, [Audit(SubnetCreated, s.id)]));
    }

    method ReleaseAddresses()
      requires Valid()
      modifies this`ops, this`sec
      ensures Valid() && Acc(next, sec) == PlanReleases(Acc(next, old(sec)), st.addrs, dev.id, reported, r.bmc.None?,
            |st.addrs|)
    {
      var n := 0;
      while n < |st.addrs|
        invariant 0 <= n <= |st.addrs| && Valid()
        invariant Acc(next, sec) == PlanReleases(Acc(next, old(sec)), st.addrs, dev.id, reported, r.bmc.None?, n)
      {
        var row := st.addrs[n];
        if Gone(row, dev.id, reported, r.bmc.None?) {
          Add(UpdateAddr(Released(row, dev.id), [Audit(AddressReleased, row.id)]));
        }
        n := n + 1;
      }
    }

    method Packages()
      modifies this`next, this`ops, this`base, this`sec
      ensures Valid() && base == old(ops) && Acc(next, sec) == PlanPackages(old(next), st, r, dev.id)
    {
      Begin();
      if r.updates.status != "up_to_date" && r.updates.status != "updates_available" { return; }
      var want: seq<Package> := [];
      var dirty := false;
      var n := 0;
      while n < |r.pending|
        invariant 0 <= n <= |r.pending| && Valid() && base == old(ops) && sec == []
        invariant PackAcc(next, want, dirty) == PlanPending(old(next), st.packages, r, n)
      {
        var q := r.pending[n];
        var ex := FindPackage(st.packages, |st.packages|, q.name);
        var id;
        if ex.Some? { id := ex.value.id; } else { id := NewId(); }
        var np := Package(id, q.name, q.installed, q.available, true, q.security, r.updates.manager);
        dirty := dirty || ex != Some(np);
        want := want + [np];
        n := n + 1;
      }
      if dirty || Dropped(st.packages, r) {
        Add(ReplacePackages(dev.id, want, [Audit(PackagesUpdated, dev.id)]));
      }
    }

    method ReportHardware()
      modifies this`ops, this`base, this`sec
      ensures Valid() && base == old(ops) && sec == PlanHardware(st, r, p, dev.id)
    {
      Begin();
      if r.hardware.None? { return; }
      var given := r.hardware.value;
      var h := Hardware(dev.id, given.profile, given.digest, if r.collected.Some? then r.collected.value else p.now);
      if st.hardware.None? {
        Add(ReplaceHardware(h, [Audit(HardwareReported, dev.id)]));
      } else if st.hardware.value.digest != given.digest {
        Add(ReplaceHardware(h, [Audit(HardwareUpdated, dev.id)]));
      } else if st.hardware.value.profile.free != given.profile.free {
        Add(ReplaceHardware(h, []));
      }
    }

    method Guests()
      modifies this`next, this`ops, this`base, this`sec
      ensures Valid() && base == old(ops) && Acc(next, sec) == PlanGuests(old(next), st, r, p, dev.id)
    {
      Begin();
      if r.guests == [] && st.guests == [] && st.guestDevices == [] { return; }
      var want, linked := LinkGuests();
      var n := 0;
      ghost var a := Acc(next, sec);
      while n < |st.guestDevices|
        invariant 0 <= n <= |st.guestDevices| && Valid() && base == old(ops)
        invariant Acc(next, sec) == PlanUnlinks(a, st.guestDevices, linked, n)
      {
        var gd := st.guestDevices[n];
        if gd.id !in linked {
          Add(SetHypervisor(gd.id, 0, [Audit(HypervisorUnlinked, gd.id)]));
        }
        n := n + 1;
      }
      if !GuestsEqual(st.guests, want) {
        Add(ReplaceGuests(dev.id, Stamped(want, p.now), [Audit(DeviceUpdated, dev.id)]));
      }
    }

    method LinkGuests() returns (want: seq<Guest>, linked: set<Id>)
      requires Valid() && sec == []
      modifies this`next, this`ops, this`sec
      ensures Valid() && GuestAcc(next, sec, want, linked) == PlanGuestRows(old(next), st, dev.id, r, p, |r.guests|)
    {
      want, linked := [], {};
      var n := 0;
      while n < |r.guests|
        invariant 0 <= n <= |r.guests| && Valid()
        invariant GuestAcc(next, sec, want, linked) == PlanGuestRows(old(next), st, dev.id, r, p, n)
      {
        want, linked := LinkGuest(r.guests[n], want, linked);
        n := n + 1;
      }
    }

    method LinkGuest(g: RGuest, want0: seq<Guest>, linked0: set<Id>) returns (want: seq<Guest>, linked: set<Id>)
      requires Valid()
      modifies this`next, this`ops, this`sec
      ensures Valid() && GuestAcc(next, sec, want, linked)
            == GuestStep(GuestAcc(old(next), old(sec), want0, linked0), st, dev.id, g, p)
    {
      linked := linked0;
      var o := OneOwner(st.macOwners, dev.id, g.macs);
      var ex := FindGuest(st.guests, |st.guests|, g.ref);
      var row := GuestRow(0, dev.id, g, 0, p.now);
      if ex.Some? {
        row := row.(id := ex.value.id, reportedAt := ex.value.reportedAt);
      } else {
        var id := NewId();
        row := row.(id := id);
      }
      if o.Some? {
        row := row.(device := o.value.device);
        if o.value.device !in linked && o.value.hypervisor != dev.id {
          Add(SetHypervisor(o.value.device, dev.id, [Audit(HypervisorLinked, o.value.device)]));
        }
        linked := linked + {o.value.device};
      }
      want := want0 + [row];
    }

    method OwnHypervisor()
      requires ifaces == WantedIfaces(r)
      modifies this`ops, this`base, this`sec
      ensures Valid() && base == old(ops) && sec == PlanSelf(st, r, dev)
    {
      Begin();
      var macs := Macs(ifaces);
      var hosts := Hosts(st.guestRows, dev.id, macs);
      if |hosts| != 1 { return; }
      var host := TheOne(hosts);
      if dev.hypervisor != host {
        Add(SetHypervisor(dev.id, host, [Audit(HypervisorLinked, dev.id)]));
        assert sec == [SetHypervisor(dev.id, host, [Audit(HypervisorLinked, dev.id)])];
      }
      var n := 0;
      ghost var first := sec;
      while n < |st.guestRows|
        invariant 0 <= n <= |st.guestRows| && Valid() && base == old(ops)
        invariant sec == PlanSelfRows(first, st.guestRows, dev.id, macs, n)
      {
        var g := st.guestRows[n];
        if g.host != dev.id && HasMac(g, macs) && g.device != dev.id {
          Add(SetGuestDevice(g.id, dev.id, [Audit(DeviceUpdated, g.host)]));
        }
        n := n + 1;
      }
    }

    /** The device, its interfaces, addresses and packages. */
    method RunRows() returns (ghost a0: Acc, ghost a1: Acc, ghost a2: Acc, ghost a3: Acc)
      requires ops == []
      modifies this
      ensures (dev, a0) == PlanDevice(st, r, old(next)) && RowSections(st, r, p, dev, a0, a1, a2, a3)
      ensures next == a3.next && ops == a0.ops + a1.ops + a2.ops + a3.ops && ifaces == WantedIfaces(r)
    {
      MatchAndUpdate();
      a0 := Acc(next, sec);
      Interfaces();
      a1 := Acc(next, sec);
      Addresses();
      a2 := Acc(next, sec);
      Packages();
      a3 := Acc(next, sec);
      assert [] + a0.ops == a0.ops;
    }

    /** The hardware, the guests and the device as a guest. */
    method RunRest() returns (ghost hw: seq<Op>, ghost a5: Acc, ghost own: seq<Op>)
      requires ifaces == WantedIfaces(r)
      modifies this
      ensures dev == old(dev) && RestSections(st, r, p, old(next), dev, hw, a5, own)
      ensures next == a5.next && ops == old(ops) + hw + a5.ops + own
    {
      ReportHardware();
      hw := sec;
      Guests();
      a5 := Acc(next, sec);
      OwnHypervisor();
      own := sec;
    }
  }

  ghost predicate RowSections(st: State, r: Report, p: Params, dev: Device, a0: Acc, a1: Acc, a2: Acc, a3: Acc) {
    && a1 == PlanIfaces(a0.next, st, r, dev.id) && a2 == PlanAddrs(a1.next, st, r, p, dev.id)
    && a3 == PlanPackages(a2.next, st, r, dev.id)
  }

  ghost predicate RestSections(st: State, r: Report, p: Params, next: Id, dev: Device, hw: seq<Op>, a5: Acc,
                               own: seq<Op>) {
    && hw == PlanHardware(st, r, p, dev.id) && a5 == PlanGuests(next, st, r, p, dev.id)
    && own == PlanSelf(st, r, dev)
  }

  lemma Joined(st: State, r: Report, p: Params, next: Id, dev: Device, a0: Acc, a1: Acc, a2: Acc, a3: Acc,
               hw: seq<Op>, a5: Acc, own: seq<Op>)
    requires (dev, a0) == PlanDevice(st, r, next) && RowSections(st, r, p, dev, a0, a1, a2, a3)
    requires RestSections(st, r, p, a3.next, dev, hw, a5, own)
    ensures Build(st, r, p, next) == Plan(dev.id, a5.next, a0.ops + a1.ops + a2.ops + a3.ops + hw + a5.ops + own)
  {}

  /** hostplan.Build: a planner runs its sections. */
  method BuildPlan(st: State, r: Report, p: Params, next: Id) returns (plan: Plan)
    ensures plan == Build(st, r, p, next)
  {
    var pl := new Planner(st, r, p, next);
    ghost var a0, a1, a2, a3 := pl.RunRows();
    ghost var hw, a5, own := pl.RunRest();
    Joined(st, r, p, next, pl.dev, a0, a1, a2, a3, hw, a5, own);
    plan := Plan(pl.dev.id, pl.next, pl.ops);
  }
}
