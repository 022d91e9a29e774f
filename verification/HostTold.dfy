/** What the audit rows of a plan's writes say, against the store they are for. */
module HostTold {
  import opened Wrappers
  import opened HostStore
  import opened HostReport
  import opened HostPlan
  import opened HostLoad
  import opened HostParts
  import opened HostSections
  import opened HostSync
  import Placement

  /** The audit rows of a write tell what it does to the stored row. */
  ghost predicate Told(s: Store, dev: Id, op: Op) {
    match op
    case CreateDevice(d, log) => log == [Audit(DeviceCreated, d.id)]
    case UpdateDevice(d, log) => log == [Audit(DeviceUpdated, d.id)]
    case CreateIface(i, log) => log == [Audit(InterfaceCreated, i.id)]
    case UpdateIface(i, log) =>
      log == [Audit(if i.cols.state == Reported then InterfaceUpdated else InterfaceNotReported, i.id)]
    case CreateSubnet(n, log) => log == [Audit(SubnetCreated, n.id)]
    case CreateAddr(a, log) => log == [Audit(AddressCreated, a.id)]
    case UpdateAddr(a, log) => a.id in s.addrs && AddrTold(s.addrs[a.id].cols, a.id, a.cols, dev, log)
    case ReplacePackages(t, _, log) => log == [Audit(PackagesUpdated, t)]
    case ReplaceGuests(t, _, log) => log == [Audit(DeviceUpdated, t)]
    case SetHypervisor(t, ref, log) => log == [Audit(if ref == 0 then HypervisorUnlinked else HypervisorLinked, t)]
    case SetGuestDevice(row, _, log) => row in s.guests && log == [Audit(DeviceUpdated, s.guests[row].host)]
    case ReplaceHardware(h, log) =>
      log == if h.device !in s.hardware then [Audit(HardwareReported, h.device)]
             else if s.hardware[h.device].digest != h.digest then [Audit(HardwareUpdated, h.device)] else []
  }

  /** Released, moved from another device, or updated; a conflict that begins or ends is told as well. */
  predicate AddrTold(was: AddrCols, id: Id, now: AddrCols, dev: Id, log: seq<Audit>) {
    if now.state != Reported then log == [Audit(AddressReleased, id)]
    else if was.device != 0 && was.device != dev then
      log == [Audit(AddressMoved, id)] + if now.conflict && !was.conflict then [Audit(AddressConflict, id)] else []
    else
      log == [Audit(AddressUpdated, id)]
             + if was.conflict && !now.conflict then [Audit(AddressConflictCleared, id)] else []
  }

  ghost predicate AllTold(s: Store, dev: Id, ops: seq<Op>) {
    forall op :: op in ops ==> Told(s, dev, op)
  }

  lemma {:induction false} WantedTold(s: Store, next: Id, rows: seq<Iface>, dev: Id, ws: seq<Wanted>, n: nat)
    requires n <= |ws|
    ensures AllTold(s, dev, PlanWanted(next, rows, dev, ws, n).ops)
  {
    if n > 0 { WantedTold(s, next, rows, dev, ws, n - 1); }
  }

  lemma {:induction false} LostTold(s: Store, dev: Id, acc: Acc, rows: seq<Iface>, ws: seq<Wanted>, noBmc: bool, n: nat)
    requires n <= |rows| && AllTold(s, dev, acc.ops)
    ensures AllTold(s, dev, PlanLost(acc, rows, ws, noBmc, n).ops)
  {
    if n > 0 { LostTold(s, dev, acc, rows, ws, noBmc, n - 1); }
  }

  lemma ToldAdd(s: Store, dev: Id, ops: seq<Op>, op: Op)
    requires AllTold(s, dev, ops) && Told(s, dev, op)
    ensures AllTold(s, dev, ops + [op])
  {}

  lemma PlaceTold(s: Store, dev: Id, acc: AddrAcc, c: RAddr)
    requires AllTold(s, dev, acc.ops) && ValidAddr(c.addr) && Placement.Recordable(c.addr)
    ensures AllTold(s, dev, Place(acc, c).1.ops)
  {
    var acc1 := Place(acc, c).1;
    if acc1.ops != acc.ops {
      assert acc1.ops == acc.ops + [acc1.ops[|acc.ops|]];
      ToldAdd(s, dev, acc.ops, acc1.ops[|acc.ops|]);
    }
  }

  lemma CreateTold(s: Store, acc: AddrAcc, dev: Id, c: Claim, r: Report)
    requires AllTold(s, dev, acc.ops) && Recorded(c)
    ensures AllTold(s, dev, CreateStep(acc, dev, c, r).ops)
  {
    var placed := Place(acc.(next := acc.next + 1), c.addr);
    PlaceTold(s, dev, acc.(next := acc.next + 1), c.addr);
    var op := CreateAddr(NewAddr(acc.next, placed.0, dev, c, r), [Audit(AddressCreated, acc.next)]);
    assert CreateStep(acc, dev, c, r).ops == placed.1.ops + [op];
    ToldAdd(s, dev, placed.1.ops, op);
  }

  lemma UpdateTold(s: Store, acc: AddrAcc, row: AddrRow, dev: Id, c: Claim, r: Report, p: Params)
    requires AllTold(s, dev, acc.ops) && row.id in s.addrs && s.addrs[row.id] == row
    ensures AllTold(s, dev, UpdateStep(acc, row, dev, c, r, p).ops)
  {}

  lemma {:induction false} ClaimsTold(s: Store, acc: AddrAcc, rows: seq<AddrRow>, dev: Id, cs: seq<Claim>, r: Report,
                                      p: Params, n: nat)
    requires n <= |cs| && AllTold(s, dev, acc.ops) && forall a :: a in rows ==> a.id in s.addrs && s.addrs[a.id] == a
    ensures AllTold(s, dev, PlanClaims(acc, rows, dev, cs, r, p, n).ops)
  {
    if n > 0 {
      ClaimsTold(s, acc, rows, dev, cs, r, p, n - 1);
      var c, a := cs[n - 1], PlanClaims(acc, rows, dev, cs, r, p, n - 1);
      if Recorded(c) && Key(c) !in a.seen {
        var a1, row := a.(seen := a.seen + {Key(c)}), FindAddr(rows, |rows|, Key(c));
        assert rows[..|rows|] == rows;
        if row.None? { CreateTold(s, a1, dev, c, r); } else { UpdateTold(s, a1, row.value, dev, c, r, p); }
      }
    }
  }

  lemma {:induction false} ReleasesTold(s: Store, acc: Acc, rows: seq<AddrRow>, dev: Id, seen: set<Text>, noBmc: bool,
                                        n: nat)
    requires n <= |rows| && AllTold(s, dev, acc.ops) && forall a :: a in rows ==> a.id in s.addrs && s.addrs[a.id] == a
    ensures AllTold(s, dev, PlanReleases(acc, rows, dev, seen, noBmc, n).ops)
  {
    if n > 0 { ReleasesTold(s, acc, rows, dev, seen, noBmc, n - 1); }
  }

  lemma {:induction false} GuestRowsTold(s: Store, next: Id, st: State, dev: Id, r: Report, p: Params, n: nat)
    requires n <= |r.guests| && dev != 0
    ensures AllTold(s, dev, PlanGuestRows(next, st, dev, r, p, n).ops)
  {
    if n > 0 { GuestRowsTold(s, next, st, dev, r, p, n - 1); }
  }

  lemma {:induction false} UnlinksTold(s: Store, dev: Id, acc: Acc, ds: seq<Device>, linked: set<Id>, n: nat)
    requires n <= |ds| && AllTold(s, dev, acc.ops)
    ensures AllTold(s, dev, PlanUnlinks(acc, ds, linked, n).ops)
  {
    if n > 0 { UnlinksTold(s, dev, acc, ds, linked, n - 1); }
  }

  lemma {:induction false} SelfRowsTold(s: Store, ops: seq<Op>, rows: seq<Guest>, dev: Id, macs: set<string>, n: nat)
    requires n <= |rows| && AllTold(s, dev, ops) && forall g :: g in rows ==> g.id in s.guests && s.guests[g.id] == g
    ensures AllTold(s, dev, PlanSelfRows(ops, rows, dev, macs, n))
  {
    if n > 0 { SelfRowsTold(s, ops, rows, dev, macs, n - 1); }
  }

  // ---- sections

  lemma IfacesTold(s: Store, next: Id, st: State, r: Report, dev: Id)
    ensures AllTold(s, dev, PlanIfaces(next, st, r, dev).ops)
  {
    var ws := WantedIfaces(r);
    WantedTold(s, next, st.ifaces, dev, ws, |ws|);
    LostTold(s, dev, PlanWanted(next, st.ifaces, dev, ws, |ws|), st.ifaces, ws, r.bmc.None?, |st.ifaces|);
  }

  lemma AddrsTold(s: Store, next: Id, st: State, r: Report, p: Params, dev: Id)
    requires ListsAddrs(st.addrs, s.addrs, dev, Asked(r))
    ensures AllTold(s, dev, PlanAddrs(next, st, r, p, dev).ops)
  {
    var cs := AllClaims(r);
    ClaimsTold(s, StartAddrs(next, st), st.addrs, dev, cs, r, p, |cs|);
    var a := PlanClaims(StartAddrs(next, st), st.addrs, dev, cs, r, p, |cs|);
    ReleasesTold(s, Acc(a.next, a.ops), st.addrs, dev, a.seen, r.bmc.None?, |st.addrs|);
  }

  lemma GuestsTold(s: Store, next: Id, st: State, r: Report, p: Params, dev: Id)
    requires dev != 0
    ensures AllTold(s, dev, PlanGuests(next, st, r, p, dev).ops)
  {
    var a := PlanGuestRows(next, st, dev, r, p, |r.guests|);
    GuestRowsTold(s, next, st, dev, r, p, |r.guests|);
    UnlinksTold(s, dev, Acc(a.next, a.ops), st.guestDevices, a.linked, |st.guestDevices|);
  }

  lemma SelfTold(s: Store, st: State, r: Report, dev: Device)
    requires ListsGuestRows(st.guestRows, s.guests, OwnMacs(r)) && forall g :: g in st.guestRows ==> g.host != 0
    ensures AllTold(s, dev.id, PlanSelf(st, r, dev))
  {
    var macs := Macs(WantedIfaces(r));
    var hosts := Hosts(st.guestRows, dev.id, macs);
    if |hosts| == 1 {
      var host := TheOne(hosts);
      assert host != 0;
      SelfRowsTold(s, if dev.hypervisor != host then [SetHypervisor(dev.id, host, [Audit(HypervisorLinked, dev.id)])]
        else [], st.guestRows, dev.id, macs, |st.guestRows|);
    }
  }

  lemma OthersTold(s: Store, st: State, r: Report, p: Params, next: Id, dev: Id)
    requires r.hardware.Some? ==> st.hardware == HardwareIn(s.hardware, dev)
    ensures AllTold(s, dev, PlanPackages(next, st, r, dev).ops) && AllTold(s, dev, PlanHardware(st, r, p, dev))
  {}

  lemma DeviceTold(s: Store, st: State, r: Report, next: Id)
    ensures AllTold(s, PlanDevice(st, r, next).0.id, PlanDevice(st, r, next).1.ops)
  {}

  /** Guest rows have a host. */
  ghost predicate Hosted(s: Store) {
    forall i :: i in s.guests ==> s.guests[i].host != 0
  }

  /** Every write of a plan is told by its audit rows, and so by the log that grows by exactly these. */
  lemma PlanTold(s: Store, st: State, r: Report, p: Params, next: Id, op: Op)
    requires WellFormed(s) && Unused(s, next) && Loads(s, r, st) && Hosted(s) && op in Build(st, r, p, next).ops
    ensures Told(s, PlanDevice(st, r, next).0.id, op)
  {
    var q, dev := PartsOf(st, r, p, next), PlanDevice(st, r, next).0;
    BuildIsAll(st, r, p, next);
    PartsTold(s, st, r, p, next);
    assert op in q.device || op in q.ifaces || op in q.addrs || op in q.packages || op in q.hardware || op in q.guests
      || op in q.self;
  }

  lemma PartsTold(s: Store, st: State, r: Report, p: Params, next: Id)
    requires WellFormed(s) && Unused(s, next) && Loads(s, r, st) && Hosted(s)
    ensures var q, dev := PartsOf(st, r, p, next), PlanDevice(st, r, next).0.id;
            && AllTold(s, dev, q.device) && AllTold(s, dev, q.ifaces) && AllTold(s, dev, q.addrs)
            && AllTold(s, dev, q.packages) && AllTold(s, dev, q.hardware) && AllTold(s, dev, q.guests)
            && AllTold(s, dev, q.self)
  {
    var dev, n0 := PlanDevice(st, r, next).0, PlanDevice(st, r, next).1.next;
    var n1 := PlanIfaces(n0, st, r, dev.id).next;
    var n2 := PlanAddrs(n1, st, r, p, dev.id).next;
    LoadedFor(s, st, r, next);
    DeviceTold(s, st, r, next);
    IfacesTold(s, n0, st, r, dev.id);
    AddrsTold(s, n1, st, r, p, dev.id);
    OthersTold(s, st, r, p, n2, dev.id);
    GuestsTold(s, PlanPackages(n2, st, r, dev.id).next, st, r, p, dev.id);
    SelfTold(s, st, r, dev);
  }
}
